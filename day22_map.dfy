/**
 * Day 22, the map object: the sorted bricks, the extent of the map and its layers of tiles, updated
 * in place as bricks fall.
 */
module Day22Map {
  import opened Wrappers
  import opened Lists
  import opened Sorting
  import opened Day22Bricks
  import opened Day22Stack
  import opened Day22Falling

  /** Both corners at non-negative coordinates, the start corner not above the end corner on any axis. */
  predicate Ordered(b: Brick)
  {
    0 <= b.start.x <= b.end.x && 0 <= b.start.y <= b.end.y && 0 <= b.start.z <= b.end.z
  }

  function EndX(b: Brick): int { b.end.x }
  function EndY(b: Brick): int { b.end.y }
  function EndZ(b: Brick): int { b.end.z }

  /** `max([f(brick) for brick in bricks])`. */
  function MaxEnd(bs: seq<Brick>, f: Brick -> int): (m: int)
    requires |bs| > 0
    ensures forall i :: 0 <= i < |bs| ==> f(bs[i]) <= m
    ensures exists i :: 0 <= i < |bs| && f(bs[i]) == m
  {
    var xs := seq(|bs|, k requires 0 <= k < |bs| => f(bs[k]));
    var m := Max(xs);
    assert forall i :: 0 <= i < |bs| ==> xs[i] == f(bs[i]);
    m
  }

  /** The tiles match the bricks, which are placed inside the map, straight, differently named and apart. */
  ghost predicate Consistent(bricks: seq<Brick>, w: int, h: int, d: int, layers: Grid)
  {
    Shaped(layers, w, h, d) && Sound(bricks, w, h, d) && Agrees(layers, bricks, w, h, d)
  }

  /**
   * What `BrickMap(bricks)` builds: the bricks sorted stably by start height, a map one tile wider,
   * deeper and higher than the largest end corners, and layers whose tiles name the brick covering them;
   * when the input bricks are straight and apart, all of it consistent.
   */
  ghost predicate Built(input: seq<Brick>, bricks: seq<Brick>, w: int, h: int, d: int, layers: Grid)
    requires |input| > 0
  {
    && bricks == SortBy(input, StartZ) && SortedBy(bricks, StartZ) && multiset(bricks) == multiset(input)
    && w == MaxEnd(bricks, EndX) + 1 && h == MaxEnd(bricks, EndY) + 1 && d == MaxEnd(bricks, EndZ) + 1
    && Shaped(layers, w, h, d) && Agrees(layers, bricks, w, h, d)
    && ((forall i :: 0 <= i < |input| ==> Straight(input[i])) && Pairwise(input) ==> Consistent(bricks, w, h, d, layers))
  }

  /**
   * The work of `BrickMap(bricks)`: the sorted bricks, the extent of the map and its layers;
   * with no bricks `max([])` of `_maxX` raises `ValueError`.
   */
  method BuildMap(input: seq<Brick>) returns (err: Option<string>, bricks: seq<Brick>, w: int, h: int, d: int, layers: Grid)
    requires forall i :: 0 <= i < |input| ==> Ordered(input[i])
    ensures err == (if |input| == 0 then Some("ValueError") else None)
    ensures err.None? ==> Built(input, bricks, w, h, d, layers)
  {
    if |input| == 0 {
      return Some("ValueError"), [], 0, 0, 0, [];
    }
    err := None;
    bricks := SortBy(input, StartZ);
    SortBySorted(input, StartZ);
    SortedOrdered(input, bricks);
    w, h, d := MaxEnd(bricks, EndX) + 1, MaxEnd(bricks, EndY) + 1, MaxEnd(bricks, EndZ) + 1;
    ExtentPlaced(bricks);
    layers := CreateLayers(bricks, w, h, d);
    if (forall i :: 0 <= i < |input| ==> Straight(input[i])) && Pairwise(input) {
      SortedSound(input, bricks, w, h, d);
    }
  }

  /** The map sized by the largest end corners holds every ordered brick. */
  lemma ExtentPlaced(bs: seq<Brick>)
    requires |bs| > 0 && forall i :: 0 <= i < |bs| ==> Ordered(bs[i])
    ensures forall i :: 0 <= i < |bs| ==> Placed(bs[i], MaxEnd(bs, EndX) + 1, MaxEnd(bs, EndY) + 1, MaxEnd(bs, EndZ) + 1)
  {
    forall i | 0 <= i < |bs| ensures Placed(bs[i], MaxEnd(bs, EndX) + 1, MaxEnd(bs, EndY) + 1, MaxEnd(bs, EndZ) + 1) {
      assert Ordered(bs[i]) && EndX(bs[i]) <= MaxEnd(bs, EndX) && EndY(bs[i]) <= MaxEnd(bs, EndY) && EndZ(bs[i]) <= MaxEnd(bs, EndZ);
    }
  }

  lemma SortedOrdered(input: seq<Brick>, sorted: seq<Brick>)
    requires multiset(sorted) == multiset(input) && forall i :: 0 <= i < |input| ==> Ordered(input[i])
    ensures forall i :: 0 <= i < |sorted| ==> Ordered(sorted[i])
  {
    forall i | 0 <= i < |sorted| ensures Ordered(sorted[i]) {
      assert sorted[i] in multiset(input);
    }
  }

  /** Sorting keeps the bricks straight and apart. */
  lemma SortedSound(input: seq<Brick>, sorted: seq<Brick>, w: int, h: int, d: int)
    requires multiset(sorted) == multiset(input) && Pairwise(input)
    requires forall i :: 0 <= i < |input| ==> Straight(input[i])
    requires forall i :: 0 <= i < |sorted| ==> Placed(sorted[i], w, h, d)
    ensures Sound(sorted, w, h, d)
  {
    PairwisePermutation(input, sorted);
    forall i | 0 <= i < |sorted| ensures Straight(sorted[i]) {
      assert sorted[i] in multiset(input);
    }
  }

  /** `BrickMap`: the bricks sorted by start height, the extent of the map and one layer of tiles per height. */
  class BrickMap {
    var bricks: seq<Brick>
    var w: int
    var h: int
    var d: int
    var layers: Grid

    ghost predicate Valid()
      reads this
    {
      Consistent(bricks, w, h, d, layers)
    }

    /** `BrickMap(bricks)`: sort by start height (stably), size the map by the largest end corner, build every layer. */
    constructor (input: seq<Brick>)
      requires |input| > 0 && forall i :: 0 <= i < |input| ==> Ordered(input[i])
      ensures Built(input, bricks, w, h, d, layers)
      ensures (forall i :: 0 <= i < |input| ==> Straight(input[i])) && Pairwise(input) ==> Valid()
    {
      var err, bs, w0, h0, d0, ls := BuildMap(input);
      bricks, w, h, d, layers := bs, w0, h0, d0, ls;
    }

    /** `supportGiven`: the bricks other than brick `id`, each once, on the tiles right beneath it; none on the ground. */
    method SupportGiven(id: nat) returns (r: set<nat>)
      requires Valid() && id < |bricks|
      ensures r == Support(bricks, id)
      ensures id !in r
      ensures bricks[id].start.z == 0 ==> r == {}
    {
      var b := bricks[id];
      assert Placed(b, w, h, d) && Straight(b);
      if b.start.z == 0 {
        GroundSupport(bricks, id, w, h, d);
        return {};
      }
      r := {};
      if b.start.z != b.end.z {
        VerticalSupport(layers, bricks, id, w, h, d);
        var below := layers[b.start.z - 1][b.start.y][b.start.x];
        if below.Some? && below.value < |bricks| && !Same(bricks[below.value], b) {
          r := {below.value};
        }
      } else {
        var coords := Coords(b);
        FlatSupport(layers, bricks, id, w, h, d);
        r := CollectOccupants(layers, bricks, b, coords, -1, w, h, d);
      }
    }

    /** `supportedBy`: the bricks other than brick `id`, each once, on the tiles right above it; none from the top layer. */
    method SupportedBy(id: nat) returns (r: set<nat>)
      requires Valid() && id < |bricks|
      ensures r == Carried(bricks, id)
      ensures id !in r
      ensures bricks[id].end.z == d - 1 ==> r == {}
    {
      var b := bricks[id];
      assert Placed(b, w, h, d) && Straight(b);
      if b.end.z == d - 1 {
        TopCarried(bricks, id, w, h, d);
        return {};
      }
      r := {};
      if b.start.z != b.end.z {
        VerticalCarried(layers, bricks, id, w, h, d);
        var above := layers[b.end.z + 1][b.end.y][b.end.x];
        if above.Some? && above.value < |bricks| && !Same(bricks[above.value], b) {
          r := {above.value};
        }
      } else {
        var coords := Coords(b);
        FlatCarried(layers, bricks, id, w, h, d);
        r := CollectOccupants(layers, bricks, b, coords, 1, w, h, d);
      }
    }

    /** `canDisintegrate`: false as soon as a brick resting on brick `id` has exactly one supporter. */
    method CanDisintegrate(id: nat) returns (r: bool)
      requires Valid() && id < |bricks|
      ensures r <==> Removable(bricks, id)
    {
      var above := SupportedBy(id);
      var rest := above;
      while rest != {}
        invariant rest <= above
        invariant forall j :: j in above && j !in rest ==> |Support(bricks, j)| != 1
        decreases |rest|
      {
        var s :| s in rest;
        var below := SupportGiven(s);
        if |below| == 1 {
          return false;
        }
        rest := rest - {s};
      }
      return true;
    }

    /** `countDisintegratable`: how many bricks can be taken away. */
    method CountDisintegratable() returns (res: nat)
      requires Valid()
      ensures res == RemovableCount(bricks, |bricks|)
    {
      res := 0;
      for k := 0 to |bricks|
        invariant res == RemovableCount(bricks, k)
      {
        var can := CanDisintegrate(k);
        if can {
          res := res + 1;
        }
      }
    }

    /** The body of `updateLayer`'s test for an unsupported brick: clear its tiles, lower it by one layer, set its new tiles. */
    method LowerBrick(id: nat)
      requires Valid() && id < |bricks| && bricks[id].start.z >= 1 && Support(bricks, id) == {}
      modifies this
      ensures Valid() && w == old(w) && h == old(h) && d == old(d)
      ensures bricks == old(bricks)[id := Lowered(old(bricks)[id])]
      ensures forall c :: InBox(c, w, h, d) ==>
        Tile(layers, c) == if Covers(bricks[id], c) then Some(id) else if Covers(old(bricks)[id], c) then None else Tile(old(layers), c)
    {
      var b := bricks[id];
      assert Placed(b, w, h, d);
      var current := Coords(b);
      CellsMembers(b);
      forall k | 0 <= k < |current| ensures InBox(current[k], w, h, d) {
        assert Covers(b, current[k]);
      }
      var g := ClearCells(layers, current, w, h, d);
      bricks := bricks[id := Lowered(b)];
      var next := Coords(bricks[id]);
      CellsMembers(bricks[id]);
      forall k | 0 <= k < |next| ensures InBox(next[k], w, h, d) {
        assert Covers(bricks[id], next[k]);
      }
      g := FillCells(g, next, id, w, h, d);
      FallAgrees(layers, g, old(bricks), id, w, h, d);
      layers := g;
      FallSound(old(bricks), id, w, h, d);
    }

    /** One brick's turn in `updateLayer`: it falls one layer when `supportGiven` finds nothing beneath it. */
    method Turn(id: nat) returns (fell: bool)
      requires Valid() && id < |bricks| && bricks[id].start.z >= 1
      modifies this
      ensures Valid() && w == old(w) && h == old(h) && d == old(d)
      ensures bricks == Fall(old(bricks), id)
      ensures fell ==> Height(bricks) < Height(old(bricks))
      ensures !fell ==> bricks == old(bricks)
    {
      var below := SupportGiven(id);
      FallHeight(bricks, id);
      fell := below == {};
      if fell {
        LowerBrick(id);
      }
    }

    /** `updateLayer(z)`: nothing at z = 0; otherwise every brick starting at z, in order, falls one layer if nothing supports it. */
    method UpdateLayer(z: int) returns (changed: bool)
      requires Valid() && 0 <= z < d
      modifies this
      ensures Valid() && w == old(w) && h == old(h) && d == old(d)
      ensures bricks == LayerPass(old(bricks), z)
      ensures changed ==> Height(bricks) < Height(old(bricks))
      ensures !changed ==> bricks == old(bricks)
      ensures z == 0 ==> !changed
    {
      if z == 0 {
        return false;
      }
      var ids := BricksAt(bricks, z, true);
      BricksAtIncreasing(bricks, z, true, |bricks|);
      forall m | 0 <= m < |ids| ensures bricks[ids[m]].start.z == z {
        assert ids[m] in ids;
      }
      changed := SettleAll(ids, z);
    }

    /** The loop of `updateLayer`: the turns of the listed bricks, which all start at `z`, in order. */
    method SettleAll(ids: seq<nat>, z: int) returns (changed: bool)
      requires Valid() && z >= 1 && Ascending(ids)
      requires forall m :: 0 <= m < |ids| ==> ids[m] < |bricks| && bricks[ids[m]].start.z == z
      modifies this
      ensures Valid() && w == old(w) && h == old(h) && d == old(d)
      ensures bricks == Settle(old(bricks), ids)
      ensures changed ==> Height(bricks) < Height(old(bricks))
      ensures !changed ==> bricks == old(bricks)
    {
      changed := false;
      ghost var bricks0 := bricks;
      for k := 0 to |ids|
        invariant Valid() && w == old(w) && h == old(h) && d == old(d)
        invariant |bricks| == |bricks0|
        invariant Settle(bricks, ids[k..]) == Settle(bricks0, ids)
        invariant forall m :: k <= m < |ids| ==> bricks[ids[m]].start.z == z
        invariant changed ==> Height(bricks) < Height(bricks0)
        invariant !changed ==> bricks == bricks0
      {
        TurnStep(bricks, ids, k, z);
        var fell := Turn(ids[k]);
        if fell {
          changed := true;
        }
      }
      assert ids[|ids|..] == [];
    }

    /** `update`: `updateLayer` for every layer from the bottom up; true if some brick fell. */
    method Update() returns (changed: bool)
      requires Valid()
      modifies this
      ensures Valid() && w == old(w) && h == old(h) && d == old(d)
      ensures bricks == Pass(old(bricks), d)
      ensures changed ==> Height(bricks) < Height(old(bricks))
      ensures !changed ==> bricks == old(bricks)
    {
      changed := false;
      ghost var bricks0 := bricks;
      for z := 0 to d
        invariant Valid() && w == old(w) && h == old(h) && d == old(d)
        invariant bricks == Pass(bricks0, z)
        invariant changed ==> Height(bricks) < Height(bricks0)
        invariant !changed ==> bricks == bricks0
      {
        var fell := UpdateLayer(z);
        if fell {
          changed := true;
        }
      }
    }

    /** `run`: `update` until a pass moves nothing; then every brick lies on the ground or on another brick. */
    method Run()
      requires Valid()
      modifies this
      ensures Valid() && w == old(w) && h == old(h) && d == old(d)
      ensures Drops(old(bricks), bricks)
      ensures Pass(bricks, d) == bricks
      ensures forall i :: 0 <= i < |bricks| ==> bricks[i].start.z == 0 || Support(bricks, i) != {}
    {
      ghost var prev := bricks;
      var changed := Update();
      PassDrops(prev, d);
      while changed
        invariant Valid() && w == old(w) && h == old(h) && d == old(d)
        invariant Drops(old(bricks), bricks)
        invariant !changed ==> Pass(bricks, d) == bricks
        decreases Height(bricks) + (if changed then 1 else 0)
      {
        HeightNonneg(bricks, w, h, d);
        prev := bricks;
        changed := Update();
        PassDrops(prev, d);
      }
      Settled(bricks, w, h, d);
    }
  }

  // ---------------------------------------------------------------- the two-brick example

  /** A vertical brick three cells tall on the ground, and a flat brick three cells long lying on its top. */
  function ExampleBricks(): seq<Brick>
  {
    [Brick("example", Vec3(0, 0, 0), Vec3(0, 0, 2)), Brick("example2", Vec3(0, 0, 3), Vec3(0, 2, 3))]
  }

  lemma ExampleSorted()
    ensures SortBy(ExampleBricks(), StartZ) == ExampleBricks()
  {
    var ex := ExampleBricks();
    assert ex[..1] == [ex[0]];
    assert ex[..1][..0] == [];
  }

  lemma ExampleApart()
    ensures (forall i :: 0 <= i < |ExampleBricks()| ==> Straight(ExampleBricks()[i])) && Pairwise(ExampleBricks())
  {
    var ex := ExampleBricks();
    assert "example" != "example2" by {
      assert |"example"| != |"example2"|;
    }
    assert Apart(ex[0], ex[1]) && Apart(ex[1], ex[0]);
  }

  /** The flat brick rests on the vertical one alone, so only the flat brick can be taken away. */
  lemma ExampleRemovable()
    ensures Support(ExampleBricks(), 1) == {0} && Carried(ExampleBricks(), 0) == {1} && Carried(ExampleBricks(), 1) == {}
    ensures Removable(ExampleBricks(), 1) && !Removable(ExampleBricks(), 0) && RemovableCount(ExampleBricks(), 2) == 1
  {
    var ex := ExampleBricks();
    assert !Same(ex[0], ex[1]) by {
      assert |"example"| != |"example2"|;
    }
    assert Rests(ex[0], ex[1]) && !Rests(ex[0], ex[0]) && !Rests(ex[1], ex[1]) && !Rests(ex[1], ex[0]);
    assert Support(ex, 1) == {0};
    assert Carried(ex, 0) == {1};
    assert Carried(ex, 1) == {};
    assert |Support(ex, 1)| == 1;
  }

  /** The example of `bricks.py`: on the map of the two bricks the top one can be taken away, the bottom one not, one in all. */
  method ExampleMap() returns (top: bool, bottom: bool, count: nat)
    ensures top && !bottom && count == 1
  {
    ExampleSorted();
    ExampleApart();
    ExampleRemovable();
    var m := new BrickMap(ExampleBricks());
    top := m.CanDisintegrate(1);
    bottom := m.CanDisintegrate(0);
    count := m.CountDisintegratable();
  }

  /** A turn of `updateLayer` on the first remaining brick: the rest of the pass follows it, and the later bricks still start at `z`. */
  lemma TurnStep(bs: seq<Brick>, ids: seq<nat>, k: nat, z: int)
    requires k < |ids| && Ascending(ids) && forall m :: 0 <= m < |ids| ==> ids[m] < |bs|
    requires forall m :: k <= m < |ids| ==> bs[ids[m]].start.z == z
    ensures Settle(bs, ids[k..]) == Settle(Fall(bs, ids[k]), ids[k + 1..])
    ensures forall m :: k < m < |ids| ==> Fall(bs, ids[k])[ids[m]].start.z == z
  {
    assert ids[k..][0] == ids[k] && ids[k..][1..] == ids[k + 1..];
    forall m | k < m < |ids| ensures Fall(bs, ids[k])[ids[m]].start.z == z {
      assert ids[k] < ids[m];
    }
  }
}
