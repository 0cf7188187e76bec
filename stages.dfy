/**
 * A stage (map): a row-major grid of tile ids, a table from tile id to tile
 * property, and the ordered lists of scripted actions, entities and warp
 * points on it, with the lookups that say what is at a pixel position.
 * Tables are keyed by tile coordinates; queries come in pixels.
 */
module Stages {
  import opened GoArith
  import opened Objects

  /** A tile's flags: `block` 1 for impassable, `action` the id of the tile's action. */
  datatype Property = Property(block: int, action: int)

  /** A scripted action at a tile; `payload` stands for the rest of its record. */
  datatype Action = Action(x: int, y: int, payload: int)

  /** A warp point at a tile, leading to another stage. */
  datatype Warp = Warp(x: int, y: int, destination: string)

  /** One named property of a tileset entry, as the tileset file lists it. */
  datatype NamedValue = NamedValue(name: string, value: int)

  /** One tileset entry: a local tile index and its named properties. */
  datatype TileEntry = TileEntry(id: int, properties: seq<NamedValue>)

  /** A tileset reference of the stage file with its entries already read:
      local index id stands for tile id `firstGID + id`. */
  datatype Tileset = Tileset(firstGID: int, tiles: seq<TileEntry>)

  // ---------------------------------------------------------------------------
  // Building the property table

  /** The property an entry's named values give: both flags start at 0 and
      each "block" or "action" value overwrites its flag, in order; other
      names are ignored. */
  function Flags(ps: seq<NamedValue>): Property {
    if ps == [] then Property(0, 0)
    else
      var p := Flags(ps[..|ps| - 1]);
      var last := ps[|ps| - 1];
      if last.name == "block" then p.(block := last.value)
      else if last.name == "action" then p.(action := last.value)
      else p
  }

  function Flag(p: Property, name: string): int {
    if name == "block" then p.block else p.action
  }

  /** Adding one named value changes a flag only when the value has its name. */
  lemma FlagsStep(ps: seq<NamedValue>, name: string)
    requires ps != [] && (name == "block" || name == "action")
    ensures Flag(Flags(ps), name) ==
            if ps[|ps| - 1].name == name then ps[|ps| - 1].value else Flag(Flags(ps[..|ps| - 1]), name)
  {
  }

  /** A flag is the value of the last property of its name, or 0 when the
      entry has none of that name. */
  lemma {:induction false} FlagsLastWins(ps: seq<NamedValue>, name: string)
    requires name == "block" || name == "action"
    ensures (forall i :: 0 <= i < |ps| ==> ps[i].name != name) ==> Flag(Flags(ps), name) == 0
    ensures forall i :: 0 <= i < |ps| && ps[i].name == name &&
                        (forall j :: i < j < |ps| ==> ps[j].name != name) ==>
                        Flag(Flags(ps), name) == ps[i].value
  {
    if ps != [] {
      var n := |ps| - 1;
      var init := ps[..n];
      FlagsLastWins(init, name);
      FlagsStep(ps, name);
      forall i | 0 <= i < |ps| && ps[i].name == name && (forall j :: i < j < |ps| ==> ps[j].name != name)
        ensures Flag(Flags(ps), name) == ps[i].value
      {
        if i < n {
          assert ps[n].name != name;
          assert init[i] == ps[i];
          forall j | i < j < |init|
            ensures init[j].name != name
          {
            assert init[j] == ps[j];
          }
        }
      }
      if forall i :: 0 <= i < |ps| ==> ps[i].name != name {
        assert ps[n].name != name;
        forall i | 0 <= i < |init|
          ensures init[i].name != name
        {
          assert init[i] == ps[i];
        }
      }
    }
  }

  /** The property table after merging a tileset's entries into m in order:
      each entry is stored under its id plus firstGID, replacing what was there. */
  function Merged(m: map<int, Property>, firstGID: int, tiles: seq<TileEntry>): map<int, Property> {
    if tiles == [] then m
    else
      var last := tiles[|tiles| - 1];
      Merged(m, firstGID, tiles[..|tiles| - 1])[last.id + firstGID := Flags(last.properties)]
  }

  /** A key some entry produces holds the flags of the last entry producing it. */
  lemma {:induction false} MergedLastWins(m: map<int, Property>, firstGID: int, tiles: seq<TileEntry>, i: int)
    requires 0 <= i < |tiles|
    requires forall j :: i < j < |tiles| ==> tiles[j].id != tiles[i].id
    ensures tiles[i].id + firstGID in Merged(m, firstGID, tiles)
    ensures Merged(m, firstGID, tiles)[tiles[i].id + firstGID] == Flags(tiles[i].properties)
  {
    if i < |tiles| - 1 {
      var init := tiles[..|tiles| - 1];
      assert init[i] == tiles[i];
      MergedLastWins(m, firstGID, init, i);
    }
  }

  /** A key no entry produces keeps its previous value, or stays absent. */
  lemma {:induction false} MergedElsewhere(m: map<int, Property>, firstGID: int, tiles: seq<TileEntry>, k: int)
    requires forall j :: 0 <= j < |tiles| ==> tiles[j].id + firstGID != k
    ensures k in Merged(m, firstGID, tiles) <==> k in m
    ensures k in m ==> Merged(m, firstGID, tiles)[k] == m[k]
  {
    if tiles != [] {
      MergedElsewhere(m, firstGID, tiles[..|tiles| - 1], k);
    }
  }

  /** The table after merging each tileset in order. */
  function MergedAll(m: map<int, Property>, tilesets: seq<Tileset>): map<int, Property> {
    if tilesets == [] then m
    else
      var last := tilesets[|tilesets| - 1];
      Merged(MergedAll(m, tilesets[..|tilesets| - 1]), last.firstGID, last.tiles)
  }

  /** The tile grid `make` and `copy` build: n entries, the first taken from
      data as far as it reaches, the rest 0. */
  function Filled(n: nat, data: seq<int>): (r: seq<int>)
    ensures |r| == n
    ensures forall i :: 0 <= i < n ==> r[i] == if i < |data| then data[i] else 0
  {
    if n <= |data| then data[..n] else data + seq(n - |data|, _ => 0)
  }

  // ---------------------------------------------------------------------------
  // Lookups, as functions of the tables

  /** Whether a pixel lies on the stage: both coordinates non-negative and
      their tiles inside the grid. */
  predicate InBounds(width: int, height: int, x: int, y: int) {
    x >= 0 && x / 16 < width && y >= 0 && y / 16 < height
  }

  /** The row-major position in the grid of the tile holding an in-bounds pixel. */
  function CellIndex(width: int, height: int, x: int, y: int): (k: int)
    requires InBounds(width, height, x, y)
    ensures 0 <= k < width * height
  {
    var col, row := x / 16, y / 16;
    assert row * width + col < (row + 1) * width <= height * width by {
      assert (row + 1) * width == row * width + width;
      MulMonotone(row + 1, height, width);
    }
    row * width + col
  }

  lemma MulMonotone(a: int, b: int, c: int)
    requires 0 <= a <= b && c >= 0
    ensures a * c <= b * c
  {
    assert b * c == a * c + (b - a) * c;
  }

  /** Whether warp w stands at pixel (x, y): its tile scaled to pixels is (x, y). */
  predicate WarpHere(w: Warp, x: int, y: int) {
    w.x * 16 == x && w.y * 16 == y
  }

  /** The position in warps of the first warp at pixel (x, y), searching from i. */
  function FirstWarpFrom(warps: seq<Warp>, x: int, y: int, i: nat): (r: Option<nat>)
    requires i <= |warps|
    ensures r.None? <==> forall j :: i <= j < |warps| ==> !WarpHere(warps[j], x, y)
    ensures r.Some? ==> i <= r.value < |warps| && WarpHere(warps[r.value], x, y) &&
                        forall j :: i <= j < r.value ==> !WarpHere(warps[j], x, y)
    decreases |warps| - i
  {
    if i == |warps| then None
    else if WarpHere(warps[i], x, y) then Some(i)
    else FirstWarpFrom(warps, x, y, i + 1)
  }

  function FirstWarp(warps: seq<Warp>, x: int, y: int): Option<nat> {
    FirstWarpFrom(warps, x, y, 0)
  }

  /** A tile coordinate scaled to pixels lies on the tile grid. */
  lemma TileCorner(t: int)
    ensures (t * 16) % 16 == 0
  {
  }

  /** A warp is only ever found at a pixel on the tile grid. */
  lemma FirstWarpAligned(warps: seq<Warp>, x: int, y: int)
    requires FirstWarp(warps, x, y).Some?
    ensures x % 16 == 0 && y % 16 == 0
  {
    var w := warps[FirstWarp(warps, x, y).value];
    TileCorner(w.x);
    TileCorner(w.y);
  }

  /** Whether action a belongs to tile (tx, ty). */
  predicate ActionHere(a: Action, tx: int, ty: int) {
    a.x == tx && a.y == ty
  }

  /** The position in actions of the first action at tile (tx, ty), searching from i. */
  function FirstActionFrom(actions: seq<Action>, tx: int, ty: int, i: nat): (r: Option<nat>)
    requires i <= |actions|
    ensures r.None? <==> forall j :: i <= j < |actions| ==> !ActionHere(actions[j], tx, ty)
    ensures r.Some? ==> i <= r.value < |actions| && ActionHere(actions[r.value], tx, ty) &&
                        forall j :: i <= j < r.value ==> !ActionHere(actions[j], tx, ty)
    decreases |actions| - i
  {
    if i == |actions| then None
    else if ActionHere(actions[i], tx, ty) then Some(i)
    else FirstActionFrom(actions, tx, ty, i + 1)
  }

  function FirstAction(actions: seq<Action>, tx: int, ty: int): Option<nat> {
    FirstActionFrom(actions, tx, ty, 0)
  }

  /** `GetAction` divides pixels by 16 the Go way, rounding toward zero, so
      the pixels -15 to -1 left of or above the grid look up tile 0 as well. */
  lemma ActionTileOfPixel(x: int)
    ensures -16 < x < 16 ==> TDiv(x, 16) == 0
    ensures x >= 0 ==> TDiv(x, 16) == x / 16
  {
  }

  /** `GetProperty` of a pixel: off the stage it is blocked (block 1, action
      0) unless a warp stands at exactly that pixel, in which case it is open
      (block 0, action 0); on the stage it is the property of the tile id in
      its cell, or open when that id has none. */
  function PropertyAt(width: int, height: int, tileIndex: seq<int>, properties: map<int, Property>,
                      warps: seq<Warp>, x: int, y: int): (p: Property)
    requires |tileIndex| == width * height
    ensures !InBounds(width, height, x, y) ==>
              p == if exists j :: 0 <= j < |warps| && WarpHere(warps[j], x, y)
                   then Property(0, 0) else Property(1, 0)
    ensures InBounds(width, height, x, y) ==>
              var id := tileIndex[CellIndex(width, height, x, y)];
              (id in properties ==> p == properties[id]) && (id !in properties ==> p == Property(0, 0))
  {
    if InBounds(width, height, x, y) then
      var id := tileIndex[CellIndex(width, height, x, y)];
      if id in properties then properties[id] else Property(0, 0)
    else if FirstWarp(warps, x, y).Some? then Property(0, 0)
    else Property(1, 0)
  }

  /** On the stage, every pixel of one tile has the tile's property. */
  lemma PropertyPerTile(width: int, height: int, tileIndex: seq<int>, properties: map<int, Property>,
                        warps: seq<Warp>, x: int, y: int, x': int, y': int)
    requires |tileIndex| == width * height
    requires InBounds(width, height, x, y)
    requires x' >= 0 && y' >= 0 && x / 16 == x' / 16 && y / 16 == y' / 16
    ensures PropertyAt(width, height, tileIndex, properties, warps, x', y') ==
            PropertyAt(width, height, tileIndex, properties, warps, x, y)
  {
  }

  /** A 2 x 1 stage whose cells both hold tile 5, loaded with one tileset
      (firstGID 0) whose entry 5 sets "block" to 1, is blocked at both tiles. */
  lemma BlockedTileExample()
    ensures var props := MergedAll(map[], [Tileset(0, [TileEntry(5, [NamedValue("block", 1)])])]);
            var grid := Filled(2 * 1, [5, 5]);
            PropertyAt(2, 1, grid, props, [], 0, 0).block == 1 &&
            PropertyAt(2, 1, grid, props, [], 16, 0).block == 1
  {
    var ts := [Tileset(0, [TileEntry(5, [NamedValue("block", 1)])])];
    var entries := [TileEntry(5, [NamedValue("block", 1)])];
    var ps := [NamedValue("block", 1)];
    assert ps[..0] == [];
    assert Flags(ps) == Property(1, 0);
    assert entries[..0] == [];
    assert Merged(map[], 0, entries) == map[5 := Property(1, 0)];
    assert ts[..0] == [];
    assert MergedAll(map[], ts) == map[5 := Property(1, 0)];
  }

  /** Go's quotients by 16 at a non-negative tile corner a and 15 and 16 pixels past it. */
  lemma TileCorner16(a: int)
    ensures a >= 0 && a % 16 == 0 ==>
              TDiv(a, 16) == a / 16 && TDiv(a + 15, 16) == a / 16 && TDiv(a + 16, 16) == a / 16 + 1
  {
    if a >= 0 && a % 16 == 0 {
      TDivOfTiles(a / 16, 0);
      TDivOfTiles(a / 16, 15);
      TDivOfTiles(a / 16 + 1, 0);
    }
  }

  /** Whether an entity facing d at pixel (ox, oy) covers query pixel (x, y).
      The test depends on the facing so that an entity between two tiles
      occupies the tile it is entering; Go's `/` rounds toward zero. */
  predicate Covers(d: Direction, ox: int, oy: int, x: int, y: int): (r: bool)
    ensures d == Other ==> !r
    ensures ox >= 0 && oy >= 0 && x >= 0 && y >= 0 && Aligned(ox, oy) && Aligned(x, y) ==>
              (r <==> d != Other && ox == x && oy == y)
  {
    TileCorner16(ox);
    TileCorner16(oy);
    TileCorner16(x);
    TileCorner16(y);
    match d
    case Up => TDiv(ox, 16) == TDiv(x + 15, 16) && TDiv(oy + 16, 16) - 1 == TDiv(y, 16)
    case Down => TDiv(ox, 16) == TDiv(x + 15, 16) && TDiv(oy + 15, 16) == TDiv(y, 16)
    case Right => TDiv(ox + 15, 16) == TDiv(x, 16) && TDiv(oy, 16) == TDiv(y + 15, 16)
    case Left => TDiv(ox + 16, 16) - 1 == TDiv(x, 16) && TDiv(oy, 16) == TDiv(y + 15, 16)
    case Other => false
  }

  /** An entity walking from one tile to the next (all coordinates
      non-negative) covers its start tile before the first step, covers the
      tile it enters from the first step on, and no longer covers the start
      tile while between the two. */
  lemma CoversDuringStep(d: Direction, x: int, y: int, k: nat)
    requires d != Other && Aligned(x, y) && k <= 16
    requires x >= 0 && y >= 0 && x + 16 * Delta(d).0 >= 0 && y + 16 * Delta(d).1 >= 0
    ensures var p := Walk(d, x, y, k);
            var t := AheadOf("", d, x, y);
            (k == 0 ==> Covers(d, p.0, p.1, x, y)) &&
            (k > 0 ==> Covers(d, p.0, p.1, t.0, t.1)) &&
            (0 < k < 16 ==> !Covers(d, p.0, p.1, x, y))
  {
    match d
    case Up => CoversUpStep(x, y, k);
    case Down => CoversDownStep(x, y, k);
    case Right => CoversRightStep(x, y, k);
    case Left => CoversLeftStep(x, y, k);
  }

  /** CoversDuringStep for each facing. */
  lemma CoversUpStep(x: int, y: int, k: nat)
    requires Aligned(x, y) && k <= 16 && x >= 0 && y >= 16
    ensures var p := Walk(Up, x, y, k);
            var t := AheadOf("", Up, x, y);
            (k == 0 ==> Covers(Up, p.0, p.1, x, y)) &&
            (k > 0 ==> Covers(Up, p.0, p.1, t.0, t.1)) &&
            (0 < k < 16 ==> !Covers(Up, p.0, p.1, x, y))
  {
    assert Cardinal("") == Other;
    assert Walk(Up, x, y, k) == (x, y - k) && AheadOf("", Up, x, y) == (x, y - 16);
    var c, r := x / 16, y / 16;
    assert x == c * 16 && y == r * 16;
    TDivOfTiles(c, 15);
    TDivOfTiles(c, 0);
    TDivOfTiles(r, 0);
    if 0 < k {
      TDivOfTiles(r - 1, 15);
      TDivOfTiles(r - 1, 0);
      TDivOfTiles(r, 16 - k);
    } else {
      TDivOfTiles(r + 1, 0);
    }
  }


  lemma CoversDownStep(x: int, y: int, k: nat)
    requires Aligned(x, y) && k <= 16 && x >= 0 && y >= 0
    ensures var p := Walk(Down, x, y, k);
            var t := AheadOf("", Down, x, y);
            (k == 0 ==> Covers(Down, p.0, p.1, x, y)) &&
            (k > 0 ==> Covers(Down, p.0, p.1, t.0, t.1)) &&
            (0 < k < 16 ==> !Covers(Down, p.0, p.1, x, y))
  {
    assert Cardinal("") == Other;
    assert Walk(Down, x, y, k) == (x, y + k) && AheadOf("", Down, x, y) == (x, y + 16);
    var c, r := x / 16, y / 16;
    assert x == c * 16 && y == r * 16;
    TDivOfTiles(c, 15);
    TDivOfTiles(c, 0);
    TDivOfTiles(r, 15);
    TDivOfTiles(r, 0);
    TDivOfTiles(r + 1, 0);
    TDivOfTiles(r + 1, 15);
    if 0 < k < 16 {
      TDivOfTiles(r + 1, k - 1);
    } else if k == 16 {
      TDivOfTiles(r + 2, 0);
    }
  }


  lemma CoversRightStep(x: int, y: int, k: nat)
    requires Aligned(x, y) && k <= 16 && x >= 0 && y >= 0
    ensures var p := Walk(Right, x, y, k);
            var t := AheadOf("", Right, x, y);
            (k == 0 ==> Covers(Right, p.0, p.1, x, y)) &&
            (k > 0 ==> Covers(Right, p.0, p.1, t.0, t.1)) &&
            (0 < k < 16 ==> !Covers(Right, p.0, p.1, x, y))
  {
    assert Cardinal("") == Other;
    assert Walk(Right, x, y, k) == (x + k, y) && AheadOf("", Right, x, y) == (x + 16, y);
    var c, r := x / 16, y / 16;
    assert x == c * 16 && y == r * 16;
    TDivOfTiles(c, 15);
    TDivOfTiles(c, 0);
    TDivOfTiles(r, 15);
    TDivOfTiles(r, 0);
    TDivOfTiles(c + 1, 0);
    if 0 < k < 16 {
      TDivOfTiles(c + 1, k - 1);
    } else if k == 16 {
      TDivOfTiles(c + 1, 15);
    }
  }


  lemma CoversLeftStep(x: int, y: int, k: nat)
    requires Aligned(x, y) && k <= 16 && x >= 16 && y >= 0
    ensures var p := Walk(Left, x, y, k);
            var t := AheadOf("", Left, x, y);
            (k == 0 ==> Covers(Left, p.0, p.1, x, y)) &&
            (k > 0 ==> Covers(Left, p.0, p.1, t.0, t.1)) &&
            (0 < k < 16 ==> !Covers(Left, p.0, p.1, x, y))
  {
    assert Cardinal("") == Other;
    assert Walk(Left, x, y, k) == (x - k, y) && AheadOf("", Left, x, y) == (x - 16, y);
    var c, r := x / 16, y / 16;
    assert x == c * 16 && y == r * 16;
    TDivOfTiles(c, 0);
    TDivOfTiles(r, 15);
    TDivOfTiles(r, 0);
    if 0 < k {
      TDivOfTiles(c - 1, 0);
      TDivOfTiles(c, 16 - k);
    } else {
      TDivOfTiles(c + 1, 0);
    }
  }


  // ---------------------------------------------------------------------------
  // The stage

  class Stage {
    /** Size in tiles. */
    var width: int
    var height: int
    /** Tile ids, row-major; width * height of them once loaded. */
    var tileIndex: seq<int>
    /** Tile id to property. */
    var properties: map<int, Property>
    var actions: seq<Action>
    var objects: seq<Object>
    var warps: seq<Warp>

    ghost predicate Valid()
      reads this
    {
      |tileIndex| == width * height
    }

    /** An empty stage, before `Load`. */
    constructor ()
      ensures Valid() && width == 0 && height == 0 && properties == map[]
      ensures actions == [] && objects == [] && warps == []
    {
      width, height := 0, 0;
      tileIndex := [];
      properties := map[];
      actions, objects, warps := [], [], [];
    }

    /** The `make` and `copy` of `Load`: a grid of width * height ids, filled
        from data as far as it reaches and with 0 after that. */
    method FillTileIndex(data: seq<int>)
      requires width * height >= 0
      modifies this`tileIndex
      ensures Valid() && tileIndex == Filled(width * height, data)
    {
      tileIndex := Filled(width * height, data);
    }

    /** The merge loop of `loadProperties`, over entries already read. */
    method LoadProperties(firstGID: int, tiles: seq<TileEntry>)
      requires Valid()
      modifies this`properties
      ensures Valid()
      ensures properties == Merged(old(properties), firstGID, tiles)
    {
      var t := 0;
      while t < |tiles|
        invariant 0 <= t <= |tiles|
        invariant properties == Merged(old(properties), firstGID, tiles[..t])
      {
        var tile := tiles[t];
        var tileID := tile.id + firstGID;
        var property := Property(0, 0);
        var k := 0;
        while k < |tile.properties|
          invariant 0 <= k <= |tile.properties|
          invariant property == Flags(tile.properties[..k])
        {
          var named := tile.properties[k];
          if named.name == "block" {
            property := property.(block := named.value);
          } else if named.name == "action" {
            property := property.(action := named.value);
          }
          k := k + 1;
          assert tile.properties[..k][..k - 1] == tile.properties[..k - 1];
        }
        assert tile.properties[..k] == tile.properties;
        properties := properties[tileID := property];
        t := t + 1;
        assert tiles[..t][..t - 1] == tiles[..t - 1];
      }
      assert tiles[..t] == tiles;
    }

    /** `Load` over data already read: the size, the tile grid, the property
        table merged from every tileset in order, the action list, the
        entities (placed on their start tiles) and the warp list. A negative
        width * height, on which Go's `make` panics, is excluded. */
    method Load(w: int, h: int, data: seq<int>, tilesets: seq<Tileset>,
                actionList: seq<Action>, objectList: seq<Object>, warpList: seq<Warp>)
      requires h * w >= 0
      modifies this, set o | o in objectList
      ensures Valid() && width == w && height == h
      ensures tileIndex == Filled(w * h, data)
      ensures properties == MergedAll(map[], tilesets)
      ensures actions == actionList && objects == objectList && warps == warpList
      ensures forall o :: o in objectList ==> o.x == o.start.0 * 16 && o.y == o.start.1 * 16
      ensures forall o :: o in objectList ==>
                o.direction == old(o.direction) && o.start == old(o.start) &&
                o.territory == old(o.territory) && o.id == old(o.id)
    {
      properties := map[];
      width := w;
      height := h;
      FillTileIndex(data);
      var i := 0;
      while i < |tilesets|
        invariant 0 <= i <= |tilesets|
        invariant Valid() && width == w && height == h && tileIndex == Filled(w * h, data)
        invariant properties == MergedAll(map[], tilesets[..i])
        modifies this
      {
        LoadProperties(tilesets[i].firstGID, tilesets[i].tiles);
        i := i + 1;
        assert tilesets[..i][..i - 1] == tilesets[..i - 1];
      }
      assert tilesets[..i] == tilesets;
      actions := actionList;
      Objects.Load(objectList);
      objects := objectList;
      warps := warpList;
    }

    /** `GetWarp`: the first warp whose tile, scaled to pixels, is (x, y). */
    method GetWarp(x: int, y: int) returns (target: Option<Warp>)
      ensures target == match FirstWarp(warps, x, y)
                        case Some(i) => Some(warps[i])
                        case None => None
    {
      target := None;
      var i := 0;
      while i < |warps|
        invariant 0 <= i <= |warps|
        invariant forall j :: 0 <= j < i ==> !WarpHere(warps[j], x, y)
      {
        if warps[i].x * 16 == x && warps[i].y * 16 == y {
          target := Some(warps[i]);
          break;
        }
        i := i + 1;
      }
    }

    /** `GetAction`: the first action on the tile of pixel (x, y), that tile
        taken with Go's rounding toward zero. */
    method GetAction(x: int, y: int) returns (target: Option<Action>)
      ensures target == match FirstAction(actions, TDiv(x, 16), TDiv(y, 16))
                        case Some(i) => Some(actions[i])
                        case None => None
    {
      target := None;
      var i := 0;
      while i < |actions|
        invariant 0 <= i <= |actions|
        invariant forall j :: 0 <= j < i ==> !ActionHere(actions[j], TDiv(x, 16), TDiv(y, 16))
      {
        if actions[i].x == TDiv(x, 16) && actions[i].y == TDiv(y, 16) {
          target := Some(actions[i]);
          break;
        }
        i := i + 1;
      }
    }

    /** `GetProperty`. */
    method GetProperty(x: int, y: int) returns (target: Property)
      requires Valid()
      ensures target == PropertyAt(width, height, tileIndex, properties, warps, x, y)
    {
      target := Property(1, 0);
      if x >= 0 && x / 16 < width && y >= 0 && y / 16 < height {
        var index := (y / 16) * width + x / 16;
        assert index == CellIndex(width, height, x, y);
        var tileID := tileIndex[index];
        if tileID in properties {
          target := properties[tileID];
        } else {
          target := Property(0, 0);
        }
        return;
      }
      var warp := GetWarp(x, y);
      if warp.Some? {
        return Property(0, 0);
      }
    }

    /** `GetObject`: the first entity, in list order, whose facing-dependent
        hitbox covers pixel (x, y); none when no entity does. An entity with
        no facing never matches. */
    method GetObject(x: int, y: int) returns (target: Object?)
      ensures target == null <==>
                forall i :: 0 <= i < |objects| ==>
                  !Covers(objects[i].direction, objects[i].x, objects[i].y, x, y)
      ensures target != null ==>
                exists i :: 0 <= i < |objects| && objects[i] == target &&
                  Covers(target.direction, target.x, target.y, x, y) &&
                  forall j :: 0 <= j < i ==>
                    !Covers(objects[j].direction, objects[j].x, objects[j].y, x, y)
      ensures target != null ==> target.direction != Other
    {
      target := null;
      var i := 0;
      while i < |objects|
        invariant 0 <= i <= |objects|
        invariant target == null
        invariant forall j :: 0 <= j < i ==>
                    !Covers(objects[j].direction, objects[j].x, objects[j].y, x, y)
      {
        var o := objects[i];
        match o.direction {
          case Up =>
            if TDiv(o.x, 16) == TDiv(x + 15, 16) && TDiv(o.y + 16, 16) - 1 == TDiv(y, 16) {
              target := o;
            }
          case Down =>
            if TDiv(o.x, 16) == TDiv(x + 15, 16) && TDiv(o.y + 15, 16) == TDiv(y, 16) {
              target := o;
            }
          case Right =>
            if TDiv(o.x + 15, 16) == TDiv(x, 16) && TDiv(o.y, 16) == TDiv(y + 15, 16) {
              target := o;
            }
          case Left =>
            if TDiv(o.x + 16, 16) - 1 == TDiv(x, 16) && TDiv(o.y, 16) == TDiv(y + 15, 16) {
              target := o;
            }
          case Other =>
        }
        if target != null {
          assert objects[i] == target && Covers(o.direction, o.x, o.y, x, y);
          break;
        }
        i := i + 1;
      }
    }
  }
}
