/**
 * Day 22, the map's layers: tiles naming their brick, the support relation between bricks, and
 * `createLayer`, `supportGiven` and `supportedBy` read off the tiles.
 */
module Day22Stack {
  import opened Wrappers
  import opened Lists
  import opened Day22Bricks

  // ---------------------------------------------------------------- the layers

  /** `layers[z][y][x]` is the brick occupying tile (x, y) of layer z, by its position in the brick list. */
  type Grid = seq<seq<seq<Option<nat>>>>

  /** `d` layers of `h` rows of `w` tiles. */
  predicate Shaped(g: Grid, w: int, h: int, d: int)
  {
    |g| == d && (forall z :: 0 <= z < d ==> |g[z]| == h) && forall z, y :: 0 <= z < d && 0 <= y < h ==> |g[z][y]| == w
  }

  predicate InBox(c: Vec3, w: int, h: int, d: int)
  {
    0 <= c.x < w && 0 <= c.y < h && 0 <= c.z < d
  }

  function Tile(g: Grid, c: Vec3): Option<nat>
    requires 0 <= c.z < |g| && 0 <= c.y < |g[c.z]| && 0 <= c.x < |g[c.z][c.y]|
  {
    g[c.z][c.y][c.x]
  }

  /** `layers[c.z].tiles[c.y][c.x].occupied = v`. */
  function SetTile(g: Grid, c: Vec3, v: Option<nat>, w: int, h: int, d: int): (r: Grid)
    requires Shaped(g, w, h, d) && InBox(c, w, h, d)
    ensures Shaped(r, w, h, d) && Tile(r, c) == v
    ensures forall e :: InBox(e, w, h, d) && e != c ==> Tile(r, e) == Tile(g, e)
  {
    g[c.z := g[c.z][c.y := g[c.z][c.y][c.x := v]]]
  }

  /** The position of the last of the first `n` bricks that covers `c`, as `createLayer` leaves it (later bricks overwrite). */
  function OwnerIn(bs: seq<Brick>, n: nat, c: Vec3): (r: Option<nat>)
    requires n <= |bs|
    ensures r.Some? ==> r.value < n && Covers(bs[r.value], c)
    ensures r.None? <==> forall i :: 0 <= i < n ==> !Covers(bs[i], c)
  {
    if n == 0 then None else if Covers(bs[n - 1], c) then Some(n - 1) else OwnerIn(bs, n - 1, c)
  }

  function Owner(bs: seq<Brick>, c: Vec3): Option<nat>
  {
    OwnerIn(bs, |bs|, c)
  }

  /** The tiles hold the owner of every cell of the map. */
  ghost predicate Agrees(g: Grid, bs: seq<Brick>, w: int, h: int, d: int)
    requires Shaped(g, w, h, d)
  {
    forall c :: InBox(c, w, h, d) ==> Tile(g, c) == Owner(bs, c)
  }

  // ---------------------------------------------------------------- sound brick lists

  /** Both corners inside the map, the start corner not above the end corner on any axis. */
  predicate Placed(b: Brick, w: int, h: int, d: int)
  {
    0 <= b.start.x <= b.end.x < w && 0 <= b.start.y <= b.end.y < h && 0 <= b.start.z <= b.end.z < d
  }

  /** Flat (one layer thick) or vertical (one tile wide). */
  predicate Straight(b: Brick)
  {
    b.start.z == b.end.z || (b.start.x == b.end.x && b.start.y == b.end.y)
  }

  /** Two different bricks with no cell in common. */
  ghost predicate Apart(a: Brick, b: Brick)
  {
    !Same(a, b) && forall c :: Covers(a, c) ==> !Covers(b, c)
  }

  ghost predicate Pairwise(bs: seq<Brick>)
  {
    forall i, j :: 0 <= i < |bs| && 0 <= j < |bs| && i != j ==> Apart(bs[i], bs[j])
  }

  /** The bricks of a map in which the tiles can be trusted: placed, straight, differently named and not overlapping. */
  ghost predicate Sound(bs: seq<Brick>, w: int, h: int, d: int)
  {
    (forall i :: 0 <= i < |bs| ==> Placed(bs[i], w, h, d) && Straight(bs[i])) && Pairwise(bs)
  }

  /** Without overlaps a cell's owner is the one brick covering it. */
  lemma OwnerOfCover(bs: seq<Brick>, c: Vec3, j: nat)
    requires Pairwise(bs) && j < |bs| && Covers(bs[j], c)
    ensures Owner(bs, c) == Some(j)
  {
    forall k | 0 <= k < |bs| && k != j ensures !Covers(bs[k], c) {
      assert Apart(bs[j], bs[k]);
    }
  }

  /** Reordering keeps a list pairwise apart. */
  lemma PairwisePermutation(a: seq<Brick>, b: seq<Brick>)
    requires multiset(a) == multiset(b) && Pairwise(a)
    ensures Pairwise(b)
  {
    forall i, j | 0 <= i < |b| && 0 <= j < |b| && i != j ensures Apart(b[i], b[j]) {
      assert b[i] in multiset(a) && b[j] in multiset(a);
      var i' :| 0 <= i' < |a| && a[i'] == b[i];
      var j' :| 0 <= j' < |a| && a[j'] == b[j];
      if b[i] == b[j] {
        var lo, hi := if i < j then i else j, if i < j then j else i;
        TwoPositions(b, lo, hi);
        TwiceFound(a, b[i]);
        var p, q :| 0 <= p < q < |a| && a[p] == b[i] && a[q] == b[i];
        assert Apart(a[p], a[q]);
      } else {
        assert Apart(a[i'], a[j']);
      }
    }
  }

  // ---------------------------------------------------------------- support

  function StartZ(b: Brick): int
  {
    b.start.z
  }

  /** `b` rests on `a`: it starts right above a's top and their footprints share a tile. */
  predicate Rests(a: Brick, b: Brick)
  {
    b.start.z == a.end.z + 1 && a.start.x <= b.end.x && b.start.x <= a.end.x && a.start.y <= b.end.y && b.start.y <= a.end.y
  }

  /** The bricks brick `i` rests on. */
  function Support(bs: seq<Brick>, i: nat): (r: set<nat>)
    requires i < |bs|
    ensures forall j :: j in r ==> j < |bs| && !Same(bs[j], bs[i])
  {
    set j | 0 <= j < |bs| && !Same(bs[j], bs[i]) && Rests(bs[j], bs[i])
  }

  /** The bricks resting on brick `i`. */
  function Carried(bs: seq<Brick>, i: nat): (r: set<nat>)
    requires i < |bs|
    ensures forall j :: j in r ==> j < |bs| && !Same(bs[j], bs[i])
  {
    set j | 0 <= j < |bs| && !Same(bs[j], bs[i]) && Rests(bs[i], bs[j])
  }

  /** Resting on a brick and carrying it are the two sides of one relation. */
  lemma CarriedSupport(bs: seq<Brick>, i: nat, j: nat)
    requires i < |bs| && j < |bs|
    ensures j in Carried(bs, i) <==> i in Support(bs, j)
  {
  }

  /** A brick on the ground rests on nothing. */
  lemma GroundSupport(bs: seq<Brick>, i: nat, w: int, h: int, d: int)
    requires Sound(bs, w, h, d) && i < |bs| && bs[i].start.z == 0
    ensures Support(bs, i) == {}
  {
    forall j | 0 <= j < |bs| ensures !Rests(bs[j], bs[i]) {
      assert Placed(bs[j], w, h, d);
    }
  }

  /** A brick reaching the top layer carries nothing. */
  lemma TopCarried(bs: seq<Brick>, i: nat, w: int, h: int, d: int)
    requires Sound(bs, w, h, d) && i < |bs| && bs[i].end.z == d - 1
    ensures Carried(bs, i) == {}
  {
    forall j | 0 <= j < |bs| ensures !Rests(bs[i], bs[j]) {
      assert Placed(bs[j], w, h, d);
    }
  }

  /** A brick covering the cell under a tile of brick i's footprint is one that brick i rests on. */
  lemma BeneathRests(bs: seq<Brick>, i: nat, j: nat, x: int, y: int, w: int, h: int, d: int)
    requires Sound(bs, w, h, d) && i < |bs| && j < |bs| && i != j
    requires bs[i].start.x <= x <= bs[i].end.x && bs[i].start.y <= y <= bs[i].end.y
    ensures Covers(bs[j], Vec3(x, y, bs[i].start.z - 1)) ==> Rests(bs[j], bs[i])
  {
    var a, b := bs[j], bs[i];
    assert Placed(b, w, h, d);
    assert !Covers(a, Vec3(x, y, b.start.z)) by {
      assert Apart(b, a) && Covers(b, Vec3(x, y, b.start.z));
    }
  }

  /** A brick covering the cell over a tile of brick i's footprint is one resting on brick i. */
  lemma AboveRests(bs: seq<Brick>, i: nat, j: nat, x: int, y: int, w: int, h: int, d: int)
    requires Sound(bs, w, h, d) && i < |bs| && j < |bs| && i != j
    requires bs[i].start.x <= x <= bs[i].end.x && bs[i].start.y <= y <= bs[i].end.y
    ensures Covers(bs[j], Vec3(x, y, bs[i].end.z + 1)) ==> Rests(bs[i], bs[j])
  {
    var a, b := bs[j], bs[i];
    assert Placed(b, w, h, d);
    assert !Covers(a, Vec3(x, y, b.end.z)) by {
      assert Apart(b, a) && Covers(b, Vec3(x, y, b.end.z));
    }
  }

  /** The tile of the shared footprint nearest the origin, where two resting bricks touch. */
  function Contact(a: Brick, b: Brick): (c: Vec3)
  {
    Vec3(if a.start.x < b.start.x then b.start.x else a.start.x, if a.start.y < b.start.y then b.start.y else a.start.y, b.start.z)
  }

  lemma ContactCells(a: Brick, b: Brick, w: int, h: int, d: int)
    requires Placed(a, w, h, d) && Placed(b, w, h, d) && Rests(a, b)
    ensures var c := Contact(a, b); Covers(b, c) && Covers(a, Vec3(c.x, c.y, c.z - 1))
  {
  }

  // ---------------------------------------------------------------- createLayer

  /** The test of `bricksAtLayer(z, limit_to_starting)`: the brick starts at z, or it crosses z. */
  predicate AtLayer(b: Brick, z: int, starting: bool)
  {
    if starting then b.start.z == z else b.start.z <= z <= b.end.z
  }

  /** `bricksAtLayer` over the first `n` bricks: the positions of the bricks passing the test, in order. */
  function BricksAtIn(bs: seq<Brick>, z: int, starting: bool, n: nat): (r: seq<nat>)
    requires n <= |bs|
    ensures forall k :: 0 <= k < |r| ==> r[k] < n
    ensures forall i {:trigger i in r} :: i in r <==> 0 <= i < n && AtLayer(bs[i], z, starting)
  {
    if n == 0 then []
    else BricksAtIn(bs, z, starting, n - 1) + (if AtLayer(bs[n - 1], z, starting) then [n - 1] else [])
  }

  predicate Ascending(s: seq<nat>)
  {
    forall a, b :: 0 <= a < b < |s| ==> s[a] < s[b]
  }

  /** The bricks come out in list order, each once. */
  lemma {:induction false} BricksAtIncreasing(bs: seq<Brick>, z: int, starting: bool, n: nat)
    requires n <= |bs|
    ensures Ascending(BricksAtIn(bs, z, starting, n))
  {
    if n > 0 {
      BricksAtIncreasing(bs, z, starting, n - 1);
      var a := BricksAtIn(bs, z, starting, n - 1);
      if AtLayer(bs[n - 1], z, starting) {
        var r := a + [n - 1];
        assert BricksAtIn(bs, z, starting, n) == r;
        forall i, j | 0 <= i < j < |r| ensures r[i] < r[j] {
          if j < |a| {
            assert r[i] == a[i] && r[j] == a[j];
          } else {
            assert r[i] == a[i] < n - 1 && r[j] == n - 1;
          }
        }
      } else {
        assert BricksAtIn(bs, z, starting, n) == a + [] == a;
      }
    }
  }

  function BricksAt(bs: seq<Brick>, z: int, starting: bool): (r: seq<nat>)
  {
    BricksAtIn(bs, z, starting, |bs|)
  }

  /** The position of the last of the listed bricks that covers `c`. */
  function OwnerAmong(bs: seq<Brick>, ids: seq<nat>, c: Vec3): Option<nat>
    requires forall k :: 0 <= k < |ids| ==> ids[k] < |bs|
  {
    if ids == [] then None
    else if Covers(bs[ids[|ids| - 1]], c) then Some(ids[|ids| - 1])
    else OwnerAmong(bs, ids[..|ids| - 1], c)
  }

  /** Visiting only the bricks that cross layer z finds the same owner for a cell of that layer. */
  lemma {:induction false} OwnerAmongLayer(bs: seq<Brick>, n: nat, c: Vec3)
    requires n <= |bs|
    ensures OwnerAmong(bs, BricksAtIn(bs, c.z, false, n), c) == OwnerIn(bs, n, c)
  {
    if n > 0 {
      OwnerAmongLayer(bs, n - 1, c);
      var a := BricksAtIn(bs, c.z, false, n - 1);
      if AtLayer(bs[n - 1], c.z, false) {
        var r := a + [n - 1];
        assert BricksAtIn(bs, c.z, false, n) == r;
        assert r[..|r| - 1] == a;
      } else {
        assert BricksAtIn(bs, c.z, false, n) == a + [] == a;
        assert !Covers(bs[n - 1], c);
      }
    }
  }

  /** A row of `w` empty tiles. */
  function EmptyRow(w: nat): (r: seq<Option<nat>>)
    ensures |r| == w && forall x :: 0 <= x < w ==> r[x] == None
  {
    seq(w, x => None)
  }

  /** `createLayer(z)`: an empty h × w layer, then every brick crossing z writes itself on its tiles at z, later bricks last. */
  method CreateLayer(bs: seq<Brick>, w: nat, h: nat, z: int) returns (layer: seq<seq<Option<nat>>>)
    requires forall i :: 0 <= i < |bs| ==> 0 <= bs[i].start.x && bs[i].end.x < w && 0 <= bs[i].start.y && bs[i].end.y < h
    ensures |layer| == h && forall y :: 0 <= y < h ==> |layer[y]| == w
    ensures forall x, y :: 0 <= y < h && 0 <= x < w ==> layer[y][x] == Owner(bs, Vec3(x, y, z))
  {
    layer := [];
    for y := 0 to h
      invariant |layer| == y && forall r :: 0 <= r < y ==> layer[r] == EmptyRow(w)
    {
      var row := [];
      for x := 0 to w
        invariant row == EmptyRow(x)
      {
        row := row + [None];
      }
      layer := layer + [row];
    }
    var ids := BricksAt(bs, z, false);
    for k := 0 to |ids|
      invariant |layer| == h && forall y :: 0 <= y < h ==> |layer[y]| == w
      invariant forall x, y :: 0 <= y < h && 0 <= x < w ==> layer[y][x] == OwnerAmong(bs, ids[..k], Vec3(x, y, z))
    {
      var id := ids[k];
      var coords := Coords(bs[id]);
      CellsMembers(bs[id]);
      ghost var before := layer;
      for m := 0 to |coords|
        invariant |layer| == h && forall y :: 0 <= y < h ==> |layer[y]| == w
        invariant forall x, y :: 0 <= y < h && 0 <= x < w ==>
          layer[y][x] == if Vec3(x, y, z) in coords[..m] then Some(id) else before[y][x]
      {
        var c := coords[m];
        assert c in coords;
        if c.z == z {
          layer := layer[c.y := layer[c.y][c.x := Some(id)]];
        }
        assert coords[..m + 1] == coords[..m] + [c];
      }
      assert coords[..|coords|] == coords;
      assert ids[..k + 1][..k] == ids[..k];
    }
    assert ids[..|ids|] == ids;
    forall x, y | 0 <= y < h && 0 <= x < w ensures layer[y][x] == Owner(bs, Vec3(x, y, z)) {
      OwnerAmongLayer(bs, |bs|, Vec3(x, y, z));
    }
  }

  // ---------------------------------------------------------------- supportGiven and supportedBy on the tiles

  function Shift(c: Vec3, dz: int): Vec3
  {
    Vec3(c.x, c.y, c.z + dz)
  }

  /** The bricks other than `b` found on the tiles `dz` layers from the listed cells, as the loops of `supportGiven` and `supportedBy` collect them. */
  function Occupants(g: Grid, bs: seq<Brick>, b: Brick, cs: seq<Vec3>, dz: int, w: int, h: int, d: int): set<nat>
    requires Shaped(g, w, h, d) && forall k :: 0 <= k < |cs| ==> InBox(Shift(cs[k], dz), w, h, d)
  {
    if cs == [] then {}
    else
      var c := Shift(cs[|cs| - 1], dz);
      assert InBox(c, w, h, d);
      assert |g[c.z]| == h && |g[c.z][c.y]| == w;
      var here := match Tile(g, c)
        case Some(j) => if j < |bs| && !Same(bs[j], b) then {j} else {}
        case None => {};
      Occupants(g, bs, b, cs[..|cs| - 1], dz, w, h, d) + here
  }

  /** An occupant is found on the tile next to one of the cells. */
  lemma {:induction false} OccupantsMembers(g: Grid, bs: seq<Brick>, b: Brick, cs: seq<Vec3>, dz: int, w: int, h: int, d: int, j: nat)
    requires Shaped(g, w, h, d) && forall k :: 0 <= k < |cs| ==> InBox(Shift(cs[k], dz), w, h, d)
    ensures j in Occupants(g, bs, b, cs, dz, w, h, d) <==>
      j < |bs| && !Same(bs[j], b) && exists m :: 0 <= m < |cs| && Tile(g, Shift(cs[m], dz)) == Some(j)
    decreases |cs|
  {
    if cs != [] {
      var init := cs[..|cs| - 1];
      OccupantsMembers(g, bs, b, init, dz, w, h, d, j);
      if j < |bs| && !Same(bs[j], b) && exists m :: 0 <= m < |cs| && Tile(g, Shift(cs[m], dz)) == Some(j) {
        var m :| 0 <= m < |cs| && Tile(g, Shift(cs[m], dz)) == Some(j);
        if m < |cs| - 1 {
          assert cs[m] == init[m];
        }
      }
      if exists m :: 0 <= m < |init| && Tile(g, Shift(init[m], dz)) == Some(j) {
        var m :| 0 <= m < |init| && Tile(g, Shift(init[m], dz)) == Some(j);
        assert cs[m] == init[m];
      }
    }
  }

  /** Under a flat brick, the occupants of the tiles beneath its cells are the bricks it rests on. */
  lemma FlatSupport(g: Grid, bs: seq<Brick>, i: nat, w: int, h: int, d: int)
    requires Sound(bs, w, h, d) && Shaped(g, w, h, d) && Agrees(g, bs, w, h, d)
    requires i < |bs| && bs[i].start.z == bs[i].end.z && bs[i].start.z >= 1
    ensures forall k :: 0 <= k < |Cells(bs[i])| ==> InBox(Shift(Cells(bs[i])[k], -1), w, h, d)
    ensures Occupants(g, bs, bs[i], Cells(bs[i]), -1, w, h, d) == Support(bs, i)
  {
    var b := bs[i];
    var cs := Cells(b);
    CellsMembers(b);
    assert Placed(b, w, h, d);
    assert forall k :: 0 <= k < |cs| ==> InBox(Shift(cs[k], -1), w, h, d) by {
      forall k | 0 <= k < |cs| ensures InBox(Shift(cs[k], -1), w, h, d) { assert cs[k] in cs; }
    }
    forall j: nat ensures j in Occupants(g, bs, b, cs, -1, w, h, d) <==> j in Support(bs, i) {
      OccupantsMembers(g, bs, b, cs, -1, w, h, d, j);
      if j in Occupants(g, bs, b, cs, -1, w, h, d) {
        var m :| 0 <= m < |cs| && Tile(g, Shift(cs[m], -1)) == Some(j);
        FoundBelow(g, bs, i, cs, m, j, w, h, d);
      }
      if j in Support(bs, i) {
        var m := BelowFound(g, bs, i, cs, j, w, h, d);
      }
    }
  }

  lemma FoundBelow(g: Grid, bs: seq<Brick>, i: nat, cs: seq<Vec3>, m: nat, j: nat, w: int, h: int, d: int)
    requires Sound(bs, w, h, d) && Shaped(g, w, h, d) && Agrees(g, bs, w, h, d)
    requires i < |bs| && cs == Cells(bs[i]) && m < |cs| && j < |bs| && !Same(bs[j], bs[i])
    requires InBox(Shift(cs[m], -1), w, h, d) && Tile(g, Shift(cs[m], -1)) == Some(j)
    requires bs[i].start.z == bs[i].end.z
    ensures j in Support(bs, i)
  {
    CellsMembers(bs[i]);
    assert cs[m] in cs;
    assert Owner(bs, Shift(cs[m], -1)) == Some(j);
    BeneathRests(bs, i, j, cs[m].x, cs[m].y, w, h, d);
  }

  lemma BelowFound(g: Grid, bs: seq<Brick>, i: nat, cs: seq<Vec3>, j: nat, w: int, h: int, d: int) returns (m: nat)
    requires Sound(bs, w, h, d) && Shaped(g, w, h, d) && Agrees(g, bs, w, h, d)
    requires i < |bs| && cs == Cells(bs[i]) && j in Support(bs, i)
    requires bs[i].start.z == bs[i].end.z
    ensures m < |cs| && InBox(Shift(cs[m], -1), w, h, d) && Tile(g, Shift(cs[m], -1)) == Some(j)
  {
    var b := bs[i];
    CellsMembers(b);
    var c := Contact(bs[j], b);
    assert Placed(b, w, h, d) && Placed(bs[j], w, h, d);
    ContactCells(bs[j], b, w, h, d);
    assert c in cs;
    m :| 0 <= m < |cs| && cs[m] == c;
    OwnerOfCover(bs, Shift(c, -1), j);
  }

  /** Over a flat brick, the occupants of the tiles above its cells are the bricks resting on it. */
  lemma FlatCarried(g: Grid, bs: seq<Brick>, i: nat, w: int, h: int, d: int)
    requires Sound(bs, w, h, d) && Shaped(g, w, h, d) && Agrees(g, bs, w, h, d)
    requires i < |bs| && bs[i].start.z == bs[i].end.z && bs[i].end.z < d - 1
    ensures forall k :: 0 <= k < |Cells(bs[i])| ==> InBox(Shift(Cells(bs[i])[k], 1), w, h, d)
    ensures Occupants(g, bs, bs[i], Cells(bs[i]), 1, w, h, d) == Carried(bs, i)
  {
    var b := bs[i];
    var cs := Cells(b);
    CellsMembers(b);
    assert Placed(b, w, h, d);
    assert forall k :: 0 <= k < |cs| ==> InBox(Shift(cs[k], 1), w, h, d) by {
      forall k | 0 <= k < |cs| ensures InBox(Shift(cs[k], 1), w, h, d) { assert cs[k] in cs; }
    }
    forall j: nat ensures j in Occupants(g, bs, b, cs, 1, w, h, d) <==> j in Carried(bs, i) {
      OccupantsMembers(g, bs, b, cs, 1, w, h, d, j);
      if j in Occupants(g, bs, b, cs, 1, w, h, d) {
        var m :| 0 <= m < |cs| && Tile(g, Shift(cs[m], 1)) == Some(j);
        FoundAbove(g, bs, i, cs, m, j, w, h, d);
      }
      if j in Carried(bs, i) {
        var m := AboveFound(g, bs, i, cs, j, w, h, d);
      }
    }
  }

  lemma FoundAbove(g: Grid, bs: seq<Brick>, i: nat, cs: seq<Vec3>, m: nat, j: nat, w: int, h: int, d: int)
    requires Sound(bs, w, h, d) && Shaped(g, w, h, d) && Agrees(g, bs, w, h, d)
    requires i < |bs| && cs == Cells(bs[i]) && m < |cs| && j < |bs| && !Same(bs[j], bs[i])
    requires InBox(Shift(cs[m], 1), w, h, d) && Tile(g, Shift(cs[m], 1)) == Some(j)
    requires bs[i].start.z == bs[i].end.z
    ensures j in Carried(bs, i)
  {
    CellsMembers(bs[i]);
    assert cs[m] in cs;
    assert Owner(bs, Shift(cs[m], 1)) == Some(j);
    AboveRests(bs, i, j, cs[m].x, cs[m].y, w, h, d);
  }

  lemma AboveFound(g: Grid, bs: seq<Brick>, i: nat, cs: seq<Vec3>, j: nat, w: int, h: int, d: int) returns (m: nat)
    requires Sound(bs, w, h, d) && Shaped(g, w, h, d) && Agrees(g, bs, w, h, d)
    requires i < |bs| && cs == Cells(bs[i]) && j in Carried(bs, i)
    requires bs[i].start.z == bs[i].end.z
    ensures m < |cs| && InBox(Shift(cs[m], 1), w, h, d) && Tile(g, Shift(cs[m], 1)) == Some(j)
  {
    var b := bs[i];
    CellsMembers(b);
    var c := Contact(b, bs[j]);
    assert Placed(b, w, h, d) && Placed(bs[j], w, h, d);
    ContactCells(b, bs[j], w, h, d);
    var under := Shift(c, -1);
    assert under in cs;
    m :| 0 <= m < |cs| && cs[m] == under;
    assert Shift(under, 1) == c;
    OwnerOfCover(bs, c, j);
  }

  /** Under a vertical brick, the one tile beneath its foot holds the brick it rests on, if any. */
  lemma VerticalSupport(g: Grid, bs: seq<Brick>, i: nat, w: int, h: int, d: int)
    requires Sound(bs, w, h, d) && Shaped(g, w, h, d) && Agrees(g, bs, w, h, d)
    requires i < |bs| && bs[i].start.x == bs[i].end.x && bs[i].start.y == bs[i].end.y && bs[i].start.z >= 1
    ensures InBox(Vec3(bs[i].start.x, bs[i].start.y, bs[i].start.z - 1), w, h, d)
    ensures var t := Tile(g, Vec3(bs[i].start.x, bs[i].start.y, bs[i].start.z - 1));
      Support(bs, i) == if t.Some? && t.value < |bs| && !Same(bs[t.value], bs[i]) then {t.value} else {}
  {
    var b := bs[i];
    var c := Vec3(b.start.x, b.start.y, b.start.z - 1);
    assert Placed(b, w, h, d);
    var t := Tile(g, c);
    forall j: nat ensures j in Support(bs, i) <==> t == Some(j) && j < |bs| && !Same(bs[j], b) {
      if t == Some(j) && j < |bs| && !Same(bs[j], b) {
        BeneathRests(bs, i, j, b.start.x, b.start.y, w, h, d);
      }
      if j in Support(bs, i) {
        ContactCells(bs[j], b, w, h, d);
        OwnerOfCover(bs, c, j);
      }
    }
  }

  /** Over a vertical brick, the one tile above its top holds the brick resting on it, if any. */
  lemma VerticalCarried(g: Grid, bs: seq<Brick>, i: nat, w: int, h: int, d: int)
    requires Sound(bs, w, h, d) && Shaped(g, w, h, d) && Agrees(g, bs, w, h, d)
    requires i < |bs| && bs[i].start.x == bs[i].end.x && bs[i].start.y == bs[i].end.y && bs[i].end.z < d - 1
    ensures InBox(Vec3(bs[i].end.x, bs[i].end.y, bs[i].end.z + 1), w, h, d)
    ensures var t := Tile(g, Vec3(bs[i].end.x, bs[i].end.y, bs[i].end.z + 1));
      Carried(bs, i) == if t.Some? && t.value < |bs| && !Same(bs[t.value], bs[i]) then {t.value} else {}
  {
    var b := bs[i];
    var c := Vec3(b.end.x, b.end.y, b.end.z + 1);
    assert Placed(b, w, h, d);
    var t := Tile(g, c);
    forall j: nat ensures j in Carried(bs, i) <==> t == Some(j) && j < |bs| && !Same(bs[j], b) {
      if t == Some(j) && j < |bs| && !Same(bs[j], b) {
        AboveRests(bs, i, j, b.end.x, b.end.y, w, h, d);
      }
      if j in Carried(bs, i) {
        ContactCells(b, bs[j], w, h, d);
        OwnerOfCover(bs, c, j);
      }
    }
  }

  // ---------------------------------------------------------------- loops over the tiles

  /** `[self.createLayer(z) for z in range(self.d)]`. */
  method CreateLayers(bs: seq<Brick>, w: nat, h: nat, d: nat) returns (ls: Grid)
    requires forall i :: 0 <= i < |bs| ==> 0 <= bs[i].start.x && bs[i].end.x < w && 0 <= bs[i].start.y && bs[i].end.y < h
    ensures Shaped(ls, w, h, d) && Agrees(ls, bs, w, h, d)
  {
    ls := [];
    for z := 0 to d
      invariant |ls| == z
      invariant forall e :: 0 <= e < z ==> |ls[e]| == h && forall y :: 0 <= y < h ==> |ls[e][y]| == w
      invariant forall c :: InBox(c, w, h, z) ==> Tile(ls, c) == Owner(bs, c)
    {
      var layer := CreateLayer(bs, w, h, z);
      ls := ls + [layer];
    }
  }

  /** The loops of `supportGiven` and `supportedBy` over a flat brick's cells: the other bricks on the tiles `dz` layers away. */
  method CollectOccupants(g: Grid, bs: seq<Brick>, b: Brick, cs: seq<Vec3>, dz: int, w: int, h: int, d: int) returns (r: set<nat>)
    requires Shaped(g, w, h, d) && forall k :: 0 <= k < |cs| ==> InBox(Shift(cs[k], dz), w, h, d)
    ensures r == Occupants(g, bs, b, cs, dz, w, h, d)
  {
    r := {};
    for k := 0 to |cs|
      invariant r == Occupants(g, bs, b, cs[..k], dz, w, h, d)
    {
      var c := Shift(cs[k], dz);
      assert InBox(c, w, h, d);
      var t := g[c.z][c.y][c.x];
      assert cs[..k + 1][..k] == cs[..k];
      if t.Some? && t.value < |bs| && !Same(bs[t.value], b) {
        r := r + {t.value};
      }
    }
    assert cs[..|cs|] == cs;
  }

  /** The clearing loop of `updateLayer`: every listed cell's tile emptied. */
  method ClearCells(g0: Grid, cs: seq<Vec3>, w: int, h: int, d: int) returns (g: Grid)
    requires Shaped(g0, w, h, d) && forall k :: 0 <= k < |cs| ==> InBox(cs[k], w, h, d)
    ensures Shaped(g, w, h, d)
    ensures forall c :: InBox(c, w, h, d) ==> Tile(g, c) == if c in cs then None else Tile(g0, c)
  {
    g := g0;
    for k := 0 to |cs|
      invariant Shaped(g, w, h, d)
      invariant forall c :: InBox(c, w, h, d) ==> Tile(g, c) == if c in cs[..k] then None else Tile(g0, c)
    {
      g := SetTile(g, cs[k], None, w, h, d);
      assert cs[..k + 1] == cs[..k] + [cs[k]];
    }
    assert cs[..|cs|] == cs;
  }

  /** The setting loop of `updateLayer`: every listed cell's tile given to brick `id`. */
  method FillCells(g0: Grid, cs: seq<Vec3>, id: nat, w: int, h: int, d: int) returns (g: Grid)
    requires Shaped(g0, w, h, d) && forall k :: 0 <= k < |cs| ==> InBox(cs[k], w, h, d)
    ensures Shaped(g, w, h, d)
    ensures forall c :: InBox(c, w, h, d) ==> Tile(g, c) == if c in cs then Some(id) else Tile(g0, c)
  {
    g := g0;
    for k := 0 to |cs|
      invariant Shaped(g, w, h, d)
      invariant forall c :: InBox(c, w, h, d) ==> Tile(g, c) == if c in cs[..k] then Some(id) else Tile(g0, c)
    {
      g := SetTile(g, cs[k], Some(id), w, h, d);
      assert cs[..k + 1] == cs[..k] + [cs[k]];
    }
    assert cs[..|cs|] == cs;
  }
}
