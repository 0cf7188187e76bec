/**
 * Map entities (players, NPCs, interactive tiles). An entity keeps a pixel
 * position, 16 pixels to a tile, a facing, the tiles it may patrol, and an id
 * that selects its sprite set. It walks one pixel per call; 16 calls cross
 * one tile.
 */
module Objects {
  import opened GoArith

  /** A stored facing. The source keeps it as a string, and only the four
      lower-case names "up", "down", "right" and "left" act as directions:
      every other value, the empty string included, behaves alike and is
      `Other` here. */
  datatype Direction = Up | Down | Right | Left | Other

  /** The facing a string denotes where the source compares it with the
      lower-case names only (`Ahead`, and the direction read from a level file). */
  function Cardinal(s: string): Direction {
    if s == "up" then Up
    else if s == "down" then Down
    else if s == "right" then Right
    else if s == "left" then Left
    else Other
  }

  /** The facing `SetDirection` accepts: the capitalised or the lower-case name. */
  function Named(s: string): Direction {
    if s == "Up" || s == "up" then Up
    else if s == "Down" || s == "down" then Down
    else if s == "Right" || s == "right" then Right
    else if s == "Left" || s == "left" then Left
    else Other
  }

  /** The pixel offset of one step in a facing, (0, 0) for `Other`; y grows downwards. */
  function Delta(d: Direction): (int, int) {
    match d
    case Up => (0, -1)
    case Down => (0, 1)
    case Right => (1, 0)
    case Left => (-1, 0)
    case Other => (0, 0)
  }

  predicate Aligned(x: int, y: int) {
    x % 16 == 0 && y % 16 == 0
  }

  // ---------------------------------------------------------------------------
  // Facing commands

  /** The facing after `SetDirection(s)` from facing d: the named direction,
      or d unchanged when s names none. */
  function Turned(d: Direction, s: string): (r: Direction)
    ensures r == d || r != Other
  {
    if Named(s) != Other then Named(s) else d
  }

  /** Turning twice with the same command is turning once. */
  lemma TurnedIdempotent(d: Direction, s: string)
    ensures Turned(Turned(d, s), s) == Turned(d, s)
    ensures Named(s) == Other ==> Turned(d, s) == d
  {
  }

  /** The facing after `SetDirectionByPoint(tx, ty)` from facing d at (x, y).
      The source compares the arguments and the position each multiplied by
      16, which orders them as the plain values do: a vertical difference
      decides before a horizontal one, and an equal point keeps the facing. */
  function Toward(d: Direction, x: int, y: int, tx: int, ty: int): (r: Direction)
    ensures ty > y ==> r == Down
    ensures ty < y ==> r == Up
    ensures ty == y && tx > x ==> r == Right
    ensures ty == y && tx < x ==> r == Left
    ensures ty == y && tx == x ==> r == d
  {
    if ty * 16 > y * 16 then Down
    else if ty * 16 < y * 16 then Up
    else if tx * 16 > x * 16 then Right
    else if tx * 16 < x * 16 then Left
    else d
  }

  // ---------------------------------------------------------------------------
  // Look-ahead and stepping

  /** `Ahead(s)` of an entity at (x, y) facing `facing`: the pixel position one
      tile away in the direction s names, when s is one of the four lower-case
      names, otherwise in the stored facing; (-17, -17) when neither is a
      direction. */
  function AheadOf(s: string, facing: Direction, x: int, y: int): (p: (int, int))
    ensures Cardinal(s) != Other ==>
              p == (x + 16 * Delta(Cardinal(s)).0, y + 16 * Delta(Cardinal(s)).1)
    ensures Cardinal(s) == Other && facing != Other ==>
              p == (x + 16 * Delta(facing).0, y + 16 * Delta(facing).1)
    ensures Cardinal(s) == Other && facing == Other ==> p == (-17, -17)
  {
    var d := if Cardinal(s) != Other then Cardinal(s) else facing;
    match d
    case Up => (x, y - 16)
    case Down => (x, y + 16)
    case Right => (x + 16, y)
    case Left => (x - 16, y)
    case Other => (-17, -17)
  }

  /** Looking ahead from the tile ahead reaches one tile further on the same axis. */
  lemma AheadAdditive(s: string, facing: Direction, x: int, y: int)
    requires Cardinal(s) != Other || facing != Other
    ensures var p := AheadOf(s, facing, x, y);
            var q := AheadOf(s, facing, p.0, p.1);
            q.0 - p.0 == p.0 - x && q.1 - p.1 == p.1 - y &&
            ((p.0 == x && (p.1 - y == 16 || y - p.1 == 16)) ||
             (p.1 == y && (p.0 - x == 16 || x - p.0 == 16)))
  {
  }

  /** The sentinel is not on the tile grid, so it never equals a tile position. */
  lemma SentinelOffGrid(tx: int, ty: int)
    ensures (-17, -17) != (tx * 16, ty * 16)
  {
  }

  /** The position after one `GoAhead` call: `GoUp`, `GoDown`, `GoRight` or
      `GoLeft` for the four facings, no move for any other. */
  function Step(d: Direction, x: int, y: int): (int, int) {
    match d
    case Up => (x, y - 1)
    case Down => (x, y + 1)
    case Right => (x + 1, y)
    case Left => (x - 1, y)
    case Other => (x, y)
  }

  /** The position after n `GoAhead` calls: n pixels along the facing. */
  function Walk(d: Direction, x: int, y: int, n: nat): (p: (int, int))
    ensures p == (x + n * Delta(d).0, y + n * Delta(d).1)
  {
    if n == 0 then (x, y) else var q := Walk(d, x, y, n - 1); Step(d, q.0, q.1)
  }

  /** `Moving`: a coordinate is off the tile grid (Go's remainder), which is
      exactly when the position is not tile-aligned. */
  predicate InMotion(x: int, y: int): (m: bool)
    ensures m <==> !Aligned(x, y)
  {
    TModZero(x);
    TModZero(y);
    TMod(x, 16) != 0 || TMod(y, 16) != 0
  }

  /** Sixteen `GoAhead` calls from a tile-aligned position reach the position
      `Ahead("")` named before the first call, and the entity is aligned there
      again; after 1 to 15 calls it is in motion. */
  lemma {:induction false} CrossTile(d: Direction, x: int, y: int, k: nat)
    requires d != Other && Aligned(x, y) && k <= 16
    ensures Walk(d, x, y, 16) == AheadOf("", d, x, y)
    ensures InMotion(Walk(d, x, y, k).0, Walk(d, x, y, k).1) <==> 0 < k < 16
  {
    assert Cardinal("") == Other;
    var p := Walk(d, x, y, k);
    var (dx, dy) := Delta(d);
    assert p == (x + k * dx, y + k * dy);
    if 0 < k < 16 {
      OffGrid(x, k);
      OffGrid(y, k);
      match d
      case Up => assert p == (x, y - k);
      case Down => assert p == (x, y + k);
      case Right => assert p == (x + k, y);
      case Left => assert p == (x - k, y);
    } else {
      OnGrid(x, k);
      OnGrid(y, k);
      match d
      case Up => assert p == (x, y - k);
      case Down => assert p == (x, y + k);
      case Right => assert p == (x + k, y);
      case Left => assert p == (x - k, y);
    }
  }

  /** Zero or sixteen pixels from a grid line is on the grid. */
  lemma OnGrid(a: int, k: int)
    requires a % 16 == 0 && (k == 0 || k == 16)
    ensures (a + k) % 16 == 0 && (a - k) % 16 == 0
  {
  }

  /** Less than a tile away from a grid line is off the grid. */
  lemma OffGrid(a: int, k: int)
    requires a % 16 == 0 && 0 < k < 16
    ensures (a + k) % 16 != 0 && (a - k) % 16 != 0
  {
  }

  // ---------------------------------------------------------------------------
  // Sprite frames

  /** `Avatar`: which of the entity's ten sprite frames shows it facing d at
      pixel position (x, y). Go's `%` and `/` are used as the source writes them. */
  function Frame(d: Direction, x: int, y: int): (frame: nat)
    ensures frame < 10
  {
    match d
    case Up =>
      if TMod(y, 16) == 0 then 1
      else if TMod(y, 16) > 8 && TMod(TDiv(y, 16), 2) == 0 then 4
      else if TMod(y, 16) > 8 && TMod(TDiv(y, 16), 2) == 1 then 8
      else 1
    case Down =>
      if TMod(y, 16) == 0 then 0
      else if TMod(y, 16) < 8 && TMod(TDiv(y, 16), 2) == 0 then 3
      else if TMod(y, 16) < 8 && TMod(TDiv(y, 16), 2) == 1 then 7
      else 0
    case Right =>
      if TMod(x, 16) == 0 then 6
      else if TMod(x, 16) < 8 then 9
      else 6
    case Left =>
      if TMod(x, 16) == 0 then 2
      else if TMod(x, 16) < 8 then 5
      else 2
    case Other => 0
  }

  /** Whether the coordinate of position (x, y) along facing d is on the tile grid. */
  predicate AlignedAlong(d: Direction, x: int, y: int) {
    (d == Up || d == Down ==> y % 16 == 0) && (d == Right || d == Left ==> x % 16 == 0)
  }

  /** The frame an entity shows standing on a tile. */
  function StandingFrame(d: Direction): nat {
    match d
    case Up => 1
    case Down => 0
    case Right => 6
    case Left => 2
    case Other => 0
  }

  /** Tile-aligned on the axis of its facing, an entity shows its standing frame. */
  lemma FrameAtRest(d: Direction, x: int, y: int)
    requires AlignedAlong(d, x, y)
    ensures Frame(d, x, y) == StandingFrame(d)
  {
    TModZero(x);
    TModZero(y);
  }

  /** The walk cycle in ticks: the frame shown k pixels (1 to 15) into a step
      in facing d, where row is the upper of the two tile rows a vertical step
      joins. Vertical steps lift a leg for the first seven ticks, the left or
      the right one as the row is even or odd; a step right shows its moving
      frame for the first seven ticks, a step left for the last seven. */
  function WalkFrame(d: Direction, k: int, row: int): nat {
    match d
    case Up => if k < 8 then (if row % 2 == 0 then 4 else 8) else 1
    case Down => if k < 8 then (if row % 2 == 0 then 3 else 7) else 0
    case Right => if k < 8 then 9 else 6
    case Left => if k > 8 then 5 else 2
    case Other => 0
  }

  /** The walk-cycle frame k ticks into a step, for each direction, with the
      position written as tile and offset. */
  lemma FrameUpAt(x: int, row: int, k: int)
    requires row >= 0 && 0 < k < 16
    ensures Frame(Up, x, row * 16 + (16 - k)) == WalkFrame(Up, k, row)
  {
    TDivOfTiles(row, 16 - k);
    TDivOfNatural(row, 2);
  }

  lemma FrameDownAt(x: int, row: int, k: int)
    requires row >= 0 && 0 < k < 16
    ensures Frame(Down, x, row * 16 + k) == WalkFrame(Down, k, row)
  {
    TDivOfTiles(row, k);
    TDivOfNatural(row, 2);
  }

  lemma FrameRightAt(col: int, y: int, k: int)
    requires col >= 0 && 0 < k < 16
    ensures Frame(Right, col * 16 + k, y) == WalkFrame(Right, k, 0)
  {
    TDivOfTiles(col, k);
  }

  lemma FrameLeftAt(col: int, y: int, k: int)
    requires col >= 0 && 0 < k < 16
    ensures Frame(Left, col * 16 + (16 - k), y) == WalkFrame(Left, k, 0)
  {
    TDivOfTiles(col, 16 - k);
  }

  /** During a step between two tiles of non-negative coordinates, `Avatar`
      follows the walk cycle WalkFrame. */
  lemma FrameDuringStep(d: Direction, x: int, y: int, k: nat)
    requires d != Other && Aligned(x, y) && 0 < k < 16
    requires x >= 0 && y >= 0 && x + 16 * Delta(d).0 >= 0 && y + 16 * Delta(d).1 >= 0
    ensures var p := Walk(d, x, y, k);
            var row := (if Delta(d).1 < 0 then y - 16 else y) / 16;
            Frame(d, p.0, p.1) == WalkFrame(d, k, row)
  {
    var p := Walk(d, x, y, k);
    match d
    case Up =>
      var row := (y - 16) / 16;
      assert p == (x, row * 16 + (16 - k));
      FrameUpAt(x, row, k);
    case Down =>
      var row := y / 16;
      assert p == (x, row * 16 + k);
      FrameDownAt(x, row, k);
    case Right =>
      var col := x / 16;
      assert p == (col * 16 + k, y);
      FrameRightAt(col, y, k);
    case Left =>
      var col := (x - 16) / 16;
      assert p == (col * 16 + (16 - k), y);
      FrameLeftAt(col, y, k);
  }

  // ---------------------------------------------------------------------------
  // Patrol territory

  /** Whether pixel position p is the top-left corner of one of the territory's
      tiles (territory entries are in tile units). */
  predicate InTerritory(territory: seq<(int, int)>, p: (int, int)) {
    exists i :: 0 <= i < |territory| && p == (territory[i].0 * 16, territory[i].1 * 16)
  }

  /** With no territory no position is allowed, and the sentinel (-17, -17)
      is never allowed. */
  lemma TerritoryBounds(territory: seq<(int, int)>, p: (int, int))
    ensures territory == [] ==> !InTerritory(territory, p)
    ensures !InTerritory(territory, (-17, -17))
  {
    if InTerritory(territory, (-17, -17)) {
      var i :| 0 <= i < |territory| && (-17, -17) == (territory[i].0 * 16, territory[i].1 * 16);
      SentinelOffGrid(territory[i].0, territory[i].1);
    }
  }

  /** An entity on tile (1, 1) whose territory is the tiles (1, 1) and (2, 1)
      may step right but not down. */
  lemma PatrolExample()
    ensures InTerritory([(1, 1), (2, 1)], AheadOf("right", Other, 16, 16))
    ensures !InTerritory([(1, 1), (2, 1)], AheadOf("down", Other, 16, 16))
  {
    var t := [(1, 1), (2, 1)];
    assert AheadOf("right", Other, 16, 16) == (t[1].0 * 16, t[1].1 * 16);
  }

  // ---------------------------------------------------------------------------
  // Sprite sets

  /** The asset groups an entity id falls into: one per band of ids. */
  datatype AssetGroup = Big | Blue | Brown | Gray | Green | Pink | Red | Special | User

  /** The first id of each band: 18 big entities, six colours of 144, 8
      special ones, and every id after those for user entities. */
  function BandStart(g: AssetGroup): nat {
    match g
    case Big => 0
    case Blue => 18
    case Brown => 18 + 144
    case Gray => 18 + 144 * 2
    case Green => 18 + 144 * 3
    case Pink => 18 + 144 * 4
    case Red => 18 + 144 * 5
    case Special => 18 + 144 * 6
    case User => 18 + 144 * 6 + 8
  }

  /** Whether index is a position inside the band of g. */
  predicate InBand(g: AssetGroup, index: int) {
    match g
    case Big => 0 <= index < 18
    case Special => 0 <= index < 8
    case User => 0 <= index
    case _ => 0 <= index < 144
  }

  /** The name of the directory that holds a group's sprite sets. */
  function GroupName(g: AssetGroup): string {
    match g
    case Big => "big"
    case Blue => "blue"
    case Brown => "brown"
    case Gray => "gray"
    case Green => "green"
    case Pink => "pink"
    case Red => "red"
    case Special => "special"
    case User => "user"
  }

  /** The band arithmetic of `loadImage`: the group of an id and its index
      within the group; nothing for a negative id, which loads no sprites. */
  function AssetBand(id: int): (r: Option<(AssetGroup, int)>)
    ensures r.None? <==> id < 0
    ensures r.Some? ==> BandStart(r.value.0) + r.value.1 == id && InBand(r.value.0, r.value.1)
  {
    if id < 0 then None
    else if id < 18 then Some((Big, id))
    else if id < 18 + 144 then Some((Blue, id - 18))
    else if id < 18 + 144 * 2 then Some((Brown, id - (18 + 144)))
    else if id < 18 + 144 * 3 then Some((Gray, id - (18 + 144 * 2)))
    else if id < 18 + 144 * 4 then Some((Green, id - (18 + 144 * 3)))
    else if id < 18 + 144 * 5 then Some((Pink, id - (18 + 144 * 4)))
    else if id < 18 + 144 * 6 then Some((Red, id - (18 + 144 * 5)))
    else if id < 18 + 144 * 6 + 8 then Some((Special, id - (18 + 144 * 6)))
    else Some((User, id - (18 + 144 * 6 + 8)))
  }

  /** Every index inside a band is reached by exactly one id: the bands tile
      the non-negative ids without gaps or overlaps. */
  lemma AssetBandInverse(g: AssetGroup, index: int)
    requires InBand(g, index)
    ensures AssetBand(BandStart(g) + index) == Some((g, index))
  {
  }

  /** The directory names of different groups differ. */
  lemma GroupNamesDistinct(g: AssetGroup, h: AssetGroup)
    requires g != h
    ensures GroupName(g) != GroupName(h)
  {
  }

  // ---------------------------------------------------------------------------
  // Random wandering

  /** `RandamDirection` with its clock reading passed in: microseconds modulo
      4 pick down, up, right or left; a negative reading, which the clock does
      not give, would pick none. */
  function RandomDirection(nanos: int): (d: Direction)
    ensures nanos >= 0 ==> d != Other
  {
    var k := TMod(TDiv(nanos, 1000), 4);
    if k == 0 then Down
    else if k == 1 then Up
    else if k == 2 then Right
    else if k == 3 then Left
    else Other
  }

  // ---------------------------------------------------------------------------
  // The entity

  class Object {
    var id: int
    /** The start tile, in tile units. */
    var start: (int, int)
    /** The pixel position. */
    var x: int
    var y: int
    /** The tiles it may step onto, in tile units. */
    var territory: seq<(int, int)>
    var direction: Direction

    /** An entity as the object list describes it, before `Load` places it:
        the position is still (0, 0). */
    constructor (id: int, start: (int, int), territory: seq<(int, int)>, direction: string)
      ensures this.id == id && this.start == start && this.territory == territory
      ensures x == 0 && y == 0 && this.direction == Cardinal(direction)
    {
      this.id := id;
      this.start := start;
      this.territory := territory;
      this.direction := Cardinal(direction);
      x, y := 0, 0;
    }

    /** `Avatar`, as a frame index: one of the ten frames, and the standing
        frame of the facing while the entity is on the grid along its facing. */
    function Avatar(): (frame: nat)
      reads this
      ensures frame < 10
      ensures AlignedAlong(direction, x, y) ==> frame == StandingFrame(direction)
    {
      if AlignedAlong(direction, x, y) then
        FrameAtRest(direction, x, y);
        Frame(direction, x, y)
      else
        Frame(direction, x, y)
    }

    /** `Moving`: the entity is between two tiles. */
    predicate Moving(): (m: bool)
      reads this
      ensures m <==> !Aligned(x, y)
    {
      InMotion(x, y)
    }

    /** `Ahead`: the pixel position one tile along the named direction or the
        facing, or the sentinel (-17, -17) when there is neither. */
    function Ahead(s: string): (p: (int, int))
      reads this
      ensures Cardinal(s) == Other && direction == Other ==> p == (-17, -17)
      ensures Cardinal(s) != Other || direction != Other ==>
                (p.0 == x && (p.1 - y == 16 || y - p.1 == 16)) ||
                (p.1 == y && (p.0 - x == 16 || x - p.0 == 16))
    {
      AheadOf(s, direction, x, y)
    }

    /** `Set`: each coordinate given as a non-negative value is stored; a
        negative one (the source passes -1) leaves that coordinate as it is. */
    method Set(nx: int, ny: int)
      modifies this`x, this`y
      ensures x == (if nx >= 0 then nx else old(x))
      ensures y == (if ny >= 0 then ny else old(y))
    {
      if nx >= 0 {
        x := nx;
      }
      if ny >= 0 {
        y := ny;
      }
    }

    /** `SetDirection`. */
    method SetDirection(s: string)
      modifies this`direction
      ensures direction == Turned(old(direction), s)
    {
      match Named(s)
      case Up => direction := Up;
      case Down => direction := Down;
      case Right => direction := Right;
      case Left => direction := Left;
      case Other =>
    }

    /** `SetDirectionByPoint`. */
    method SetDirectionByPoint(tx: int, ty: int)
      modifies this`direction
      ensures direction == Toward(old(direction), x, y, tx, ty)
    {
      if ty * 16 > y * 16 {
        direction := Down;
      } else if ty * 16 < y * 16 {
        direction := Up;
      } else if tx * 16 > x * 16 {
        direction := Right;
      } else if tx * 16 < x * 16 {
        direction := Left;
      }
    }

    /** `GoUp`: face up and move one pixel up. */
    method GoUp()
      modifies this`y, this`direction
      ensures direction == Up && y == old(y) - 1
    {
      direction := Up;
      y := y - 1;
    }

    /** `GoDown`: face down and move one pixel down. */
    method GoDown()
      modifies this`y, this`direction
      ensures direction == Down && y == old(y) + 1
    {
      direction := Down;
      y := y + 1;
    }

    /** `GoRight`: face right and move one pixel right. */
    method GoRight()
      modifies this`x, this`direction
      ensures direction == Right && x == old(x) + 1
    {
      direction := Right;
      x := x + 1;
    }

    /** `GoLeft`: face left and move one pixel left. */
    method GoLeft()
      modifies this`x, this`direction
      ensures direction == Left && x == old(x) - 1
    {
      direction := Left;
      x := x - 1;
    }

    /** `GoAhead`: one pixel in the current facing; with no facing, nothing
        changes. */
    method GoAhead()
      modifies this`x, this`y, this`direction
      ensures direction == old(direction)
      ensures (x, y) == Step(old(direction), old(x), old(y))
    {
      match direction
      case Up => GoUp();
      case Down => GoDown();
      case Right => GoRight();
      case Left => GoLeft();
      case Other =>
    }

    /** `AheadOK`: whether the tile `Ahead(s)` is one of the territory's
        tiles. Terrain and other entities are not consulted. */
    method AheadOK(s: string) returns (ok: bool)
      ensures ok <==> InTerritory(territory, Ahead(s))
    {
      var p := Ahead(s);
      ok := false;
      var i := 0;
      while i < |territory|
        invariant 0 <= i <= |territory|
        invariant forall j :: 0 <= j < i ==> p != (territory[j].0 * 16, territory[j].1 * 16)
      {
        if p.0 == territory[i].0 * 16 && p.1 == territory[i].1 * 16 {
          ok := true;
          break;
        }
        i := i + 1;
      }
    }
  }

  /** The placing loop of `Load`: every entity of the list goes to its start
      tile, in pixels, and so stands tile-aligned. */
  method Load(objects: seq<Object>)
    modifies set o | o in objects
    ensures forall o :: o in objects ==> o.x == o.start.0 * 16 && o.y == o.start.1 * 16
    ensures forall o :: o in objects ==> !o.Moving()
    ensures forall o :: o in objects ==>
              o.direction == old(o.direction) && o.start == old(o.start) &&
              o.territory == old(o.territory) && o.id == old(o.id)
  {
    var i := 0;
    while i < |objects|
      invariant 0 <= i <= |objects|
      invariant forall j :: 0 <= j < i ==>
                  objects[j].x == objects[j].start.0 * 16 && objects[j].y == objects[j].start.1 * 16
      invariant forall o :: o in objects ==>
                  o.direction == old(o.direction) && o.start == old(o.start) &&
                  o.territory == old(o.territory) && o.id == old(o.id)
    {
      objects[i].x := objects[i].start.0 * 16;
      objects[i].y := objects[i].start.1 * 16;
      i := i + 1;
    }
    forall o | o in objects
      ensures !o.Moving()
    {
      assert InMotion(o.x, o.y) <==> !Aligned(o.x, o.y);
    }
  }
}
