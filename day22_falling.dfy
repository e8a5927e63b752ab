/**
 * Day 22, falling: `updateLayer`, `update` and `run` as functions of the brick list, what they keep,
 * and which bricks can be taken away.
 */
module Day22Falling {
  import opened Wrappers
  import opened Lists
  import opened Day22Bricks
  import opened Day22Stack

  // ---------------------------------------------------------------- updateLayer, update and run on the brick list

  /** The brick one layer lower. */
  function Lowered(b: Brick): Brick
  {
    b.(start := b.start.(z := b.start.z - 1), end := b.end.(z := b.end.z - 1))
  }

  /** One turn of `updateLayer`'s loop: brick i falls one layer when nothing supports it. */
  function Fall(bs: seq<Brick>, i: nat): (r: seq<Brick>)
    requires i < |bs|
    ensures |r| == |bs|
  {
    if Support(bs, i) == {} then bs[i := Lowered(bs[i])] else bs
  }

  /** The turns for the listed bricks, in order, each seeing the falls before it. */
  function Settle(bs: seq<Brick>, ids: seq<nat>): (r: seq<Brick>)
    requires forall k :: 0 <= k < |ids| ==> ids[k] < |bs|
    ensures |r| == |bs|
    decreases |ids|
  {
    if ids == [] then bs else Settle(Fall(bs, ids[0]), ids[1..])
  }

  /** `updateLayer(z)` on the bricks: nothing at z = 0, else the turns of the bricks starting at z. */
  function LayerPass(bs: seq<Brick>, z: int): (r: seq<Brick>)
    ensures |r| == |bs|
  {
    if z == 0 then bs else Settle(bs, BricksAt(bs, z, true))
  }

  /** `update` on the bricks: the layer passes for z in `range(n)`, lowest first. */
  function Pass(bs: seq<Brick>, n: nat): (r: seq<Brick>)
    ensures |r| == |bs|
  {
    if n == 0 then bs else LayerPass(Pass(bs, n - 1), n - 1)
  }

  /** The sum of the bricks' start heights, which every fall lowers by one. */
  function Height(bs: seq<Brick>): int
  {
    SumOf(bs, StartZ)
  }

  lemma FallHeight(bs: seq<Brick>, i: nat)
    requires i < |bs|
    ensures Fall(bs, i) == bs || Height(Fall(bs, i)) == Height(bs) - 1
  {
    var r := Fall(bs, i);
    if r != bs {
      SumOfRemoveAt(bs, i, StartZ);
      SumOfRemoveAt(r, i, StartZ);
      assert r[..i] + r[i + 1..] == bs[..i] + bs[i + 1..];
    }
  }

  /** The turns lower the bricks or leave them all as they were. */
  lemma {:induction false} SettleHeight(bs: seq<Brick>, ids: seq<nat>)
    requires forall k :: 0 <= k < |ids| ==> ids[k] < |bs|
    ensures Settle(bs, ids) == bs || Height(Settle(bs, ids)) < Height(bs)
    decreases |ids|
  {
    if ids != [] {
      FallHeight(bs, ids[0]);
      SettleHeight(Fall(bs, ids[0]), ids[1..]);
    }
  }

  lemma PassHeight(bs: seq<Brick>, n: nat)
    ensures Pass(bs, n) == bs || Height(Pass(bs, n)) < Height(bs)
  {
    if n > 0 {
      PassHeight(bs, n - 1);
      if n - 1 != 0 {
        SettleHeight(Pass(bs, n - 1), BricksAt(Pass(bs, n - 1), n - 1, true));
      }
    }
  }

  /** Each listed brick takes its turn once: every brick stays or falls exactly one layer, and only listed ones fall. */
  lemma {:induction false} SettleLowers(bs: seq<Brick>, ids: seq<nat>)
    requires forall k :: 0 <= k < |ids| ==> ids[k] < |bs|
    requires forall a, b :: 0 <= a < b < |ids| ==> ids[a] != ids[b]
    ensures forall k :: 0 <= k < |bs| ==>
      Settle(bs, ids)[k] == bs[k] || (k in ids && Settle(bs, ids)[k] == Lowered(bs[k]))
    decreases |ids|
  {
    if ids != [] {
      var next := Fall(bs, ids[0]);
      SettleLowers(next, ids[1..]);
      forall k | 0 <= k < |bs| ensures Settle(bs, ids)[k] == bs[k] || (k in ids && Settle(bs, ids)[k] == Lowered(bs[k])) {
        if k == ids[0] {
          assert k !in ids[1..];
        } else if k in ids[1..] {
          assert k in ids;
        }
      }
    }
  }

  /** `updateLayer(z)` moves a brick only when it starts at z, and then by exactly one layer. */
  lemma LayerPassLowers(bs: seq<Brick>, z: int)
    ensures forall k :: 0 <= k < |bs| ==>
      LayerPass(bs, z)[k] == bs[k] || (z != 0 && bs[k].start.z == z && LayerPass(bs, z)[k] == Lowered(bs[k]))
  {
    if z != 0 {
      BricksAtIncreasing(bs, z, true, |bs|);
      SettleLowers(bs, BricksAt(bs, z, true));
    }
  }

  /** When the turns change nothing, every listed brick has a support. */
  lemma {:induction false} SettleFixed(bs: seq<Brick>, ids: seq<nat>)
    requires forall k :: 0 <= k < |ids| ==> ids[k] < |bs|
    requires Settle(bs, ids) == bs
    ensures forall k :: 0 <= k < |ids| ==> Support(bs, ids[k]) != {}
    decreases |ids|
  {
    if ids != [] {
      var next := Fall(bs, ids[0]);
      SettleHeight(next, ids[1..]);
      FallHeight(bs, ids[0]);
      assert next == bs;
      SettleFixed(bs, ids[1..]);
      forall k | 0 < k < |ids| ensures Support(bs, ids[k]) != {} {
        assert ids[k] == ids[1..][k - 1];
      }
    }
  }

  /** A pass that changes nothing changed nothing in any of its layers. */
  lemma {:induction false} PassFixedPrefix(bs: seq<Brick>, n: nat, m: nat)
    requires m <= n && Pass(bs, n) == bs
    ensures Pass(bs, m) == bs
    decreases n - m
  {
    if m < n {
      PassFixedPrefix(bs, n, m + 1);
      PassHeight(bs, m);
      var p := Pass(bs, m);
      if p != bs {
        assert Height(p) < Height(bs);
        if m != 0 {
          SettleHeight(p, BricksAt(p, m, true));
        }
        assert false;
      }
    }
  }

  /** After a pass over all layers that changes nothing, every brick lies on the ground or on another brick. */
  lemma Settled(bs: seq<Brick>, w: int, h: int, d: int)
    requires Sound(bs, w, h, d) && d >= 0 && Pass(bs, d) == bs
    ensures forall i :: 0 <= i < |bs| ==> bs[i].start.z == 0 || Support(bs, i) != {}
  {
    forall i | 0 <= i < |bs| && bs[i].start.z != 0 ensures Support(bs, i) != {} {
      var z := bs[i].start.z;
      assert Placed(bs[i], w, h, d);
      PassFixedPrefix(bs, d, z + 1);
      PassFixedPrefix(bs, d, z);
      var ids := BricksAt(bs, z, true);
      assert Settle(bs, ids) == bs;
      SettleFixed(bs, ids);
      assert i in ids;
      var k :| 0 <= k < |ids| && ids[k] == i;
    }
  }

  /** `a` moved `dz` layers down. */
  function Down(a: Brick, dz: int): Brick
  {
    a.(start := a.start.(z := a.start.z - dz), end := a.end.(z := a.end.z - dz))
  }

  /** `b` is `a` moved straight down: same name, same footprint, same length, a start no higher. */
  predicate Dropped(a: Brick, b: Brick)
  {
    b.start.z <= a.start.z && b == Down(a, a.start.z - b.start.z)
  }

  predicate Drops(a: seq<Brick>, b: seq<Brick>)
  {
    |a| == |b| && forall i :: 0 <= i < |a| ==> Dropped(a[i], b[i])
  }

  lemma DropsRefl(a: seq<Brick>)
    ensures Drops(a, a)
  {
  }

  /** `updateLayer` only moves bricks straight down. */
  lemma LayerPassDrops(bs: seq<Brick>, z: int)
    ensures Drops(bs, LayerPass(bs, z))
  {
    LayerPassLowers(bs, z);
  }

  /** `update` only moves bricks straight down. */
  lemma {:induction false} PassDrops(bs: seq<Brick>, n: nat)
    ensures Drops(bs, Pass(bs, n))
  {
    if n > 0 {
      PassDrops(bs, n - 1);
      LayerPassDrops(Pass(bs, n - 1), n - 1);
      DropsTrans(bs, Pass(bs, n - 1), LayerPass(Pass(bs, n - 1), n - 1));
    } else {
      DropsRefl(bs);
    }
  }

  lemma DropsTrans(a: seq<Brick>, b: seq<Brick>, c: seq<Brick>)
    requires Drops(a, b) && Drops(b, c)
    ensures Drops(a, c)
  {
    forall k | 0 <= k < |a| ensures Dropped(a[k], c[k]) {
      assert Dropped(a[k], b[k]) && Dropped(b[k], c[k]);
    }
  }

  /** A brick with nothing beneath it can fall one layer without touching another brick or leaving the map. */
  lemma FallSound(bs: seq<Brick>, i: nat, w: int, h: int, d: int)
    requires Sound(bs, w, h, d) && i < |bs| && bs[i].start.z >= 1 && Support(bs, i) == {}
    ensures Sound(bs[i := Lowered(bs[i])], w, h, d)
  {
    var b := bs[i];
    var l := Lowered(b);
    var r := bs[i := l];
    assert Placed(b, w, h, d) && Straight(b);
    forall j | 0 <= j < |r| && j != i ensures Apart(l, r[j]) && Apart(r[j], l) {
      assert Apart(b, bs[j]);
      forall c | Covers(l, c) ensures !Covers(bs[j], c) {
        if c.z == b.start.z - 1 {
          assert j !in Support(bs, i);
          BeneathRests(bs, i, j, c.x, c.y, w, h, d);
        } else {
          assert Covers(b, c);
        }
      }
    }
  }

  /** After the fall the tiles hold the new owners: the brick on its new cells, nobody on the cells it left. */
  lemma FallAgrees(g0: Grid, g: Grid, bs: seq<Brick>, i: nat, w: int, h: int, d: int)
    requires Sound(bs, w, h, d) && i < |bs| && bs[i].start.z >= 1 && Support(bs, i) == {}
    requires Shaped(g0, w, h, d) && Agrees(g0, bs, w, h, d) && Shaped(g, w, h, d)
    requires forall c :: InBox(c, w, h, d) ==>
      Tile(g, c) == if Covers(Lowered(bs[i]), c) then Some(i) else if Covers(bs[i], c) then None else Tile(g0, c)
    ensures Agrees(g, bs[i := Lowered(bs[i])], w, h, d)
  {
    var r := bs[i := Lowered(bs[i])];
    FallSound(bs, i, w, h, d);
    forall c | InBox(c, w, h, d) ensures Tile(g, c) == Owner(r, c) {
      if Covers(Lowered(bs[i]), c) {
        OwnerOfCover(r, c, i);
      } else {
        var o := Owner(bs, c);
        if o.Some? && o.value != i {
          assert Covers(r[o.value], c);
          OwnerOfCover(r, c, o.value);
        } else if o.Some? {
          forall j | 0 <= j < |r| ensures !Covers(r[j], c) {
            if j != i {
              assert Apart(bs[i], bs[j]);
            }
          }
        } else {
          assert forall j :: 0 <= j < |r| && j != i ==> r[j] == bs[j];
        }
      }
    }
  }

  // ---------------------------------------------------------------- canDisintegrate

  /** `canDisintegrate`'s answer: no brick resting on brick i rests on exactly one brick. */
  predicate Removable(bs: seq<Brick>, i: nat)
    requires i < |bs|
  {
    forall j :: j in Carried(bs, i) ==> |Support(bs, j)| != 1
  }

  /** The number of removable bricks among the first `n`. */
  function RemovableCount(bs: seq<Brick>, n: nat): (r: nat)
    requires n <= |bs|
    ensures r <= n
  {
    if n == 0 then 0 else RemovableCount(bs, n - 1) + (if Removable(bs, n - 1) then 1 else 0)
  }

  /** A brick can be taken away exactly when it is not the only support of any brick. */
  lemma RemovableMeaning(bs: seq<Brick>, i: nat)
    requires i < |bs|
    ensures Removable(bs, i) <==> forall j :: 0 <= j < |bs| ==> Support(bs, j) != {i}
  {
    forall j | 0 <= j < |bs| ensures j in Carried(bs, i) && |Support(bs, j)| == 1 <==> Support(bs, j) == {i} {
      CarriedSupport(bs, i, j);
      var sj := Support(bs, j);
      if i in sj {
        SingletonOf(sj, i);
      }
    }
  }

  lemma SingletonOf(s: set<nat>, i: nat)
    requires i in s
    ensures |s| == 1 <==> s == {i}
  {
    if |s| == 1 {
      assert |s - {i}| == 0;
    }
  }

  lemma HeightNonneg(bs: seq<Brick>, w: int, h: int, d: int)
    requires Sound(bs, w, h, d)
    ensures Height(bs) >= 0
  {
    forall k | 0 <= k < |bs| ensures 0 <= StartZ(bs[k]) <= d {
      assert Placed(bs[k], w, h, d);
    }
    SumOfBounds(bs, StartZ, 0, d);
  }
}
