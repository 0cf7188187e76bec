# Stage and entity core of a tile-based game, in Dafny

This project models the movement, collision and interaction-lookup core of a
small 2D tile-map game written in Go. The source has three packages.

- **object** (`objects.dfy`, module `Objects`). An entity (`Object`) keeps a
  pixel position, a facing, a patrol territory in tile units, and an id that
  picks its sprite set. A tile is 16 pixels. The entity walks one pixel per
  call, so 16 calls cross one tile. `Avatar` picks one of ten walk-cycle
  frames. `Ahead` names the position one tile away. `AheadOK` checks that
  position against the territory. `Load` places each entity on its start
  tile. `loadImage` splits the id into an asset group and an index.
- **stage** (`stages.dfy`, module `Stages`). A `Stage` holds a row-major grid
  of tile ids, a table from tile id to `{block, action}`, and ordered lists of
  actions, entities and warps. It answers "what is at pixel (x, y)":
  `GetProperty`, `GetObject`, `GetAction` and `GetWarp`. The property table is
  built by merging tileset entries under `firstGID + id`.
- **util** (`util.dfy`, module `Util`). `Contains`, `PaddingID`,
  `PaddingLeft`, `PaddingRight` and `IsSwitchCommand`.

`go_arith.dfy` (module `GoArith`) defines Go's division and remainder. Both
round toward zero, and the remainder takes the sign of the dividend. Dafny's
`/` and `%` are Euclidean. Every place where the source can divide a negative
value uses `TDiv` and `TMod`: `GetObject`, `GetAction`, `Avatar`, `Moving` and
the clock arithmetic of `RandamDirection`. `GetProperty` divides only after
checking `x >= 0 && y >= 0`, so it uses Dafny's `/`.

The facing is a string in the source. Here it is the datatype
`Up | Down | Right | Left | Other`. `Other` covers the empty string and every
string other than the four lower-case names, because every function of the
core treats all of those alike. String arguments stay strings.
`Ahead("Up")` is not a direction, because `Ahead` compares with lower-case
names only (`Cardinal`). `SetDirection("Up")` is a direction, because it
accepts both spellings (`Named`).

Behaviour that is easy to misread:

- `SetDirection` accepts exactly "Up"/"up", "Down"/"down", "Right"/"right" and
  "Left"/"left". It is not fully case-insensitive.
- In `GetObject` the `+15` of the up and down hitboxes is applied to the
  query's x, not to the entity's X (stage/stage.go:105 and 109). The other
  formulas are also kept exactly as written.
- `SetDirectionByPoint` multiplies its arguments and the stored pixel position
  by 16 before comparing them. That is the same as comparing the plain values,
  and `Toward` states it so. The model does not decide whether callers pass
  pixels or tiles, since the callers are not part of this model.
- The walk cycle is not symmetric. Stepping up, down or right shows the moving
  frame in the first seven ticks of a step. Stepping left shows it in the last
  seven ticks, because the left case tests `X%16 < 8` while X decreases.
  `WalkFrame` and `FrameDuringStep` state this as written.

## Model

| member | source | states |
|---|---|---|
| GoArith.TDiv | stage/stage.go:105-117 | Go's quotient by a positive divisor, rounded toward zero: for a ≥ 0, q·b ≤ a < q·b + b; for a < 0, q·b − b < a ≤ q·b |
| GoArith.TMod | object/object.go:57-93 | Go's remainder: equal to Dafny's for a ≥ 0; in (−b, 0] for a < 0 |
| GoArith.TModZero | object/object.go:204 | Go's `x%16 == 0` holds exactly when Dafny's does, so the alignment tests do not depend on rounding |
| GoArith.TDivOfNatural | stage/stage.go:81-82 | on non-negative operands Go's `/` and `%` equal Dafny's, which justifies the plain `/` after GetProperty's bounds check |
| Objects.Turned | object/object.go:110-121 | a SetDirection command either keeps the facing or sets a cardinal one |
| Objects.TurnedIdempotent | object/object.go:110-121 | applying SetDirection twice with the same string equals applying it once; an unrecognised string changes nothing |
| Objects.Toward | object/object.go:124-135 | target below → down, above → up, else right → right, left → left; the same point keeps the facing; vertical is decided before horizontal |
| Objects.AheadOf | object/object.go:138-162 | a lower-case direction argument gives the position 16 pixels along that direction; otherwise the stored facing is used; with neither, (−17, −17) |
| Objects.AheadAdditive | object/object.go:138-162 | the look-ahead moves exactly 16 pixels along exactly one axis, and looking ahead again from there moves 16 pixels further the same way |
| Objects.SentinelOffGrid | object/object.go:159 | the sentinel (−17, −17) is never the pixel corner of any tile |
| Objects.Walk | object/object.go:165-200 | n GoAhead calls move n pixels along the facing and not at all for no facing |
| Objects.InMotion | object/object.go:203-205 | Moving holds exactly when the position is not tile-aligned |
| Objects.CrossTile | object/object.go:165-205 | from an aligned position, 16 GoAhead calls reach the position `Ahead("")` gave before the first call; the entity is in motion after 1 to 15 calls and aligned after 0 or 16 |
| Objects.Frame | object/object.go:53-97 | Avatar always selects one of the ten frames 0..9 |
| Objects.FrameAtRest | object/object.go:54-96 | aligned on the axis of its facing, an entity shows frame 1 (up), 0 (down), 6 (right) or 2 (left); with no facing it shows frame 0 |
| Objects.FrameDuringStep | object/object.go:55-94 | k ticks (1..15) into a step between non-negative tiles: up shows 4 on an even row and 8 on an odd row for k < 8, else 1; down shows 3 or 7 for k < 8, else 0; right shows 9 for k < 8, else 6; left shows 5 for k > 8, else 2 |
| Objects.TerritoryBounds | object/object.go:226-236 | with an empty territory no position is allowed; the sentinel (−17, −17) is never allowed |
| Objects.PatrolExample | object/object.go:226-236 | an entity on tile (1, 1) with territory {(1, 1), (2, 1)} may step right and may not step down |
| Objects.AssetBand | object/object.go:239-281 | a negative id gives nothing; otherwise band start + local index = id and the index lies in [0, 18) for big, [0, 144) for the six colours, [0, 8) for special and [0, ∞) for user |
| Objects.AssetBandInverse | object/object.go:245-281 | every in-band index of every group comes from exactly the id band start + index, so the bands cover the non-negative ids without overlap |
| Objects.GroupNamesDistinct | object/object.go:244-281 | different groups use different sprite directories |
| Objects.RandomDirection | object/object.go:208-223 | a non-negative clock reading always picks one of the four directions |
| Objects.Object.Avatar | object/object.go:53-97 | the frame shown is one of the ten frames 0..9, and the standing frame of the facing whenever the position is on the grid along that facing |
| Objects.Object.Moving | object/object.go:203-205 | true exactly when the entity's position is not tile-aligned |
| Objects.Object.Ahead | object/object.go:138-162 | the sentinel (−17, −17) when neither the argument nor the facing is a direction; otherwise a position exactly 16 pixels away along one axis |
| Objects.Object.constructor | object/object.go:19-29 | a decoded entity has position (0, 0) and its stored direction string read as a facing |
| Objects.Object.Set | object/object.go:100-107 | each coordinate is overwritten only by a non-negative argument; the facing and everything else is untouched |
| Objects.Object.SetDirection | object/object.go:110-121 | the new facing is `Turned(old facing, s)` and only the facing changes |
| Objects.Object.SetDirectionByPoint | object/object.go:124-135 | the new facing is `Toward(old facing, X, Y, x, y)` and only the facing changes |
| Objects.Object.GoUp | object/object.go:179-182 | faces up, Y decreases by 1, X is untouched |
| Objects.Object.GoDown | object/object.go:185-188 | faces down, Y increases by 1, X is untouched |
| Objects.Object.GoRight | object/object.go:191-194 | faces right, X increases by 1, Y is untouched |
| Objects.Object.GoLeft | object/object.go:197-200 | faces left, X decreases by 1, Y is untouched |
| Objects.Object.GoAhead | object/object.go:165-176 | one `Step` in the current facing: exactly one coordinate changes by 1; with no facing nothing changes; the facing is kept |
| Objects.Object.AheadOK | object/object.go:226-236 | true exactly when `Ahead(s)` is (sx·16, sy·16) for some territory entry [sx, sy] |
| Objects.Load | object/object.go:43-45 | every listed entity ends at its start tile × 16, tile-aligned (not Moving), with facing, start, id and territory unchanged |
| Stages.FlagsLastWins | stage/stage.go:166-174 | each flag of an entry is the value of its last "block"/"action" property, or 0 when there is none; other names are ignored |
| Stages.MergedLastWins | stage/stage.go:163-176 | after merging, key `id + firstGID` is present and holds the flags of the last entry with that id |
| Stages.MergedElsewhere | stage/stage.go:163-176 | a key that no entry of the tileset produces keeps its previous value, or stays absent |
| Stages.Filled | stage/stage.go:61-62 | the grid has length width·height; its first min(len(data), width·height) cells equal data and the rest are 0 |
| Stages.CellIndex | stage/stage.go:81-83 | for an in-bounds pixel, (y/16)·Width + x/16 is a valid index of a width·height grid |
| Stages.FirstWarpFrom | stage/stage.go:141-149 | the first warp whose tile ×16 equals (x, y), with none earlier; nothing exactly when no warp is there |
| Stages.FirstWarpAligned | stage/stage.go:141-149 | a warp is only ever found at a pixel where both coordinates are multiples of 16 |
| Stages.FirstActionFrom | stage/stage.go:130-138 | the first action on tile (tx, ty), with none earlier; nothing exactly when no action is there |
| Stages.ActionTileOfPixel | stage/stage.go:132 | Go's `x/16` sends the pixels −15..15 to tile 0 and agrees with Dafny's `/` on non-negative pixels |
| Stages.PropertyAt | stage/stage.go:78-98 | off the stage: (1, 0) when no warp is at exactly (x, y), (0, 0) when one is; on the stage: the property of the cell's tile id, or (0, 0) when the id has none |
| Stages.PropertyPerTile | stage/stage.go:81-90 | two on-stage pixels in the same tile get the same property |
| Stages.BlockedTileExample | stage/stage.go:61-90 | a 2×1 stage with tile ids [5, 5] and a tileset (firstGID 0) that marks tile 5 blocking reports block 1 at (0, 0) and at (16, 0) |
| Stages.Covers | stage/stage.go:104-119 | no entity without a facing is ever hit; for an entity standing on a tile (non-negative, aligned) and a query at a tile corner, the facing-dependent hitbox formulas hold exactly when the two positions coincide |
| Stages.CoversDuringStep | stage/stage.go:101-127 | an entity stepping between non-negative tiles covers its start tile before the first step, covers the tile it enters from the first step on, and stops covering the start tile while between the two |
| Stages.Stage.constructor | stage/stage.go:22-31 | an empty stage: size 0, no tiles, empty tables |
| Stages.Stage.FillTileIndex | stage/stage.go:61-62 | the grid becomes `Filled(width·height, data)`, so its length is width·height |
| Stages.Stage.LoadProperties | stage/stage.go:163-176 | the property table becomes `Merged(old table, firstGID, entries)`, and the stage stays well-formed |
| Stages.Stage.Load | stage/stage.go:40-75 | size, grid, the table merged from every tileset in order, the three lists, and every entity on its start tile with its facing, start, territory and id unchanged |
| Stages.Stage.GetWarp | stage/stage.go:141-149 | returns the warp `FirstWarp` picks, or nothing |
| Stages.Stage.GetAction | stage/stage.go:130-138 | returns the action `FirstAction` picks for tile (x/16, y/16) with Go's rounding, so two pixels of one tile get the same answer |
| Stages.Stage.GetProperty | stage/stage.go:78-98 | returns `PropertyAt` of the stage's tables |
| Stages.Stage.GetObject | stage/stage.go:101-127 | returns the first entity in list order whose facing-dependent hitbox covers (x, y), or null exactly when none does; the result always has a cardinal facing |
| Util.Contains | pkg/util/util.go:17-24 | true exactly when e is an element of s |
| Util.NatString | pkg/util/util.go:29-33 | `%d` of a natural number: digits that denote it, one, two or three of them exactly when it is below 10, 100 or 1000, and no leading zero unless n is 0 |
| Util.PaddingID | pkg/util/util.go:26-35 | length 3 for 0 ≤ ID < 1000; the plain decimal for ID ≥ 1000; "00-" followed by the digits of −ID for a negative ID |
| Util.PaddingIDValue | pkg/util/util.go:26-35 | for 0 ≤ ID < 1000 the result is three digits that denote ID |
| Util.PaddingLeft | pkg/util/util.go:38-44 | returns str when len(str) ≥ to, else char repeated to − len(str) times in front of str |
| Util.LeftPaddedShape | pkg/util/util.go:38-44 | str is a suffix of the result; with a one-character pad the length is max(len(str), to) |
| Util.LeftPaddedIdempotent | pkg/util/util.go:38-44 | padding the result again with the same arguments changes nothing, for any pad |
| Util.PaddingRight | pkg/util/util.go:47-53 | returns str followed by max(0, to − len(str)) spaces |
| Util.RightPaddedShape | pkg/util/util.go:47-53 | length max(len(str), to); str is a prefix; padding again changes nothing |
| Util.IsSwitchCommand | pkg/util/util.go:63-65 | true exactly for the commands 5, 6, 7, 8 and 9 |

## Left out

- Reading and decoding files is not modelled: `Stage.Load`'s stage file, `loadProperties`' tileset file, `loadActions`, `loadObjects`, `loadWarps` and the read in `object.Load`. The table building takes the decoded data as arguments. Every `panic` on a missing or malformed file is left out with them.
- `Stages.Stage.Load` requires height × width ≥ 0. Go's `make` panics on a negative length, and that panic is a fatal load error. A stage file without a first layer also panics (`raw.Layers[0]`); the model takes the layer data as an argument.
- Images are not modelled: the `Image` fields of `Stage` and `Object`, `loadImage`'s directory listing and its path string, and `ebitenutil.NewImageFromFile`. `Avatar` returns a frame index, not an image handle.
- `Object`'s `Type` and `Text` fields are not modelled, because no operation of the core reads them.
- `RandamDirection` takes the clock reading as a parameter instead of reading the wall clock.
- `util.Chance` is not modelled, because it uses floating point and reseeds the global random generator. `util.SetCursor` and the `cursorImage` global are not modelled, because they only draw.
- Go's `int` is 64 bits wide. The model uses unbounded integers, so overflow is not modelled (for example `y*16` in `SetDirectionByPoint`, or a huge `Start`). The same holds for `uint` in `PaddingLeft`, `PaddingRight` and `IsSwitchCommand`.
- A Go string is a byte sequence and `len` counts bytes. The model uses one character per byte and does not model UTF-8.
- `GetAction` and `GetWarp` return the matching record by value rather than a pointer to it. The first match is still identified by position (`FirstActionFrom`, `FirstWarpFrom`). `GetObject` returns the entity reference itself.
- `Stage.Properties` is a Go map. Writing to it before `Load` creates it would panic. The model's constructor starts with an empty table, and `Load` resets it, as the source does.
