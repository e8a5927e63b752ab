/**
 * Day 14: a board of round rocks (`O`) that roll and cube rocks (`#`) that stay put.
 * The board keeps every object twice: in the list of its row, ordered by x, and in
 * the list of its column, ordered by y. A roll moves each round rock as far as the
 * next object in its row or column allows, pass after pass, until a pass moves nothing.
 */
module Day14Tilt {
  import opened Wrappers
  import opened Geometry
  import opened Lists
  import opened Strings

  datatype ObjectType = FixedRock | MovableRock
  datatype Direction = North | South | West | East

  /**
   * Objects are numbered; a line of the board is a sequence of object numbers.
   * `ByRow` lines are rows (the major coordinate is y, objects ordered by x),
   * `ByColumn` lines are columns (major x, ordered by y).
   */
  datatype Axis = ByRow | ByColumn

  function Major(p: Vec2, a: Axis): int { if a == ByRow then p.y else p.x }
  function Minor(p: Vec2, a: Axis): int { if a == ByRow then p.x else p.y }

  function Point(major: int, minor: int, a: Axis): (p: Vec2)
    ensures Major(p, a) == major && Minor(p, a) == minor
  {
    if a == ByRow then Vec2(minor, major) else Vec2(major, minor)
  }

  /** Line `l` holds objects of that line only, in strictly increasing minor coordinate. */
  ghost predicate LineOrdered(line: seq<nat>, pos: seq<Vec2>, a: Axis, l: int)
  {
    (forall i :: 0 <= i < |line| ==> line[i] < |pos| && Major(pos[line[i]], a) == l)
    && (forall i, j :: 0 <= i < j < |line| ==> Minor(pos[line[i]], a) < Minor(pos[line[j]], a))
  }

  /** Every line is ordered and every object is found in the line of its major coordinate. */
  ghost predicate Ordered(ls: seq<seq<nat>>, pos: seq<Vec2>, a: Axis)
  {
    (forall l :: 0 <= l < |ls| ==> LineOrdered(ls[l], pos, a, l))
    && (forall id :: 0 <= id < |pos| ==> 0 <= Major(pos[id], a) < |ls| && id in ls[Major(pos[id], a)])
  }

  /** Some object of the line has minor coordinate `m`. */
  ghost predicate Occupied(line: seq<nat>, pos: seq<Vec2>, a: Axis, m: int)
    requires forall i :: 0 <= i < |line| ==> line[i] < |pos|
  {
    exists i :: 0 <= i < |line| && Minor(pos[line[i]], a) == m
  }

  /**
   * `getFurthestFreePosNorth` and `getFurthestFreePosWest`: the rock `id` can go towards
   * minor coordinate 0 up to the cell after the object before it, or to 0 when it is first.
   */
  function Before(line: seq<nat>, pos: seq<Vec2>, a: Axis, id: nat): Vec2
    requires id < |pos| && id in line
    requires forall i :: 0 <= i < |line| ==> line[i] < |pos|
  {
    var k := FirstIndex(line, id);
    if k == 0 then Point(Major(pos[id], a), 0, a)
    else Point(Major(pos[id], a), Minor(pos[line[k - 1]], a) + 1, a)
  }

  /**
   * `getFurthestFreePosSouth` and `getFurthestFreePosEast`: towards `last` (h - 1 or w - 1),
   * up to the cell before the next object, or to `last` when the rock is last in its line.
   */
  function After(line: seq<nat>, pos: seq<Vec2>, a: Axis, id: nat, last: int): Vec2
    requires id < |pos| && id in line
    requires forall i :: 0 <= i < |line| ==> line[i] < |pos|
  {
    var k := FirstIndex(line, id);
    if k == |line| - 1 then Point(Major(pos[id], a), last, a)
    else Point(Major(pos[id], a), Minor(pos[line[k + 1]], a) - 1, a)
  }

  /** In an ordered line the object found at index `k` is the only one with that number. */
  lemma OrderedIndex(line: seq<nat>, pos: seq<Vec2>, a: Axis, l: int, k: nat)
    requires LineOrdered(line, pos, a, l) && k < |line|
    ensures FirstIndex(line, line[k]) == k
  {
  }

  /**
   * The rock stays in its line, moves towards 0 but not past its own cell and not below 0,
   * every cell it passes over is free, and it stops at 0 or right after another object.
   */
  lemma BeforeSpec(line: seq<nat>, pos: seq<Vec2>, a: Axis, l: int, id: nat)
    requires LineOrdered(line, pos, a, l) && id < |pos| && id in line
    requires forall i :: 0 <= i < |line| ==> Minor(pos[line[i]], a) >= 0
    ensures Major(Before(line, pos, a, id), a) == l == Major(pos[id], a)
    ensures 0 <= Minor(Before(line, pos, a, id), a) <= Minor(pos[id], a)
    ensures forall i :: 0 <= i < |line| && line[i] != id ==>
              Minor(pos[line[i]], a) < Minor(Before(line, pos, a, id), a) || Minor(pos[line[i]], a) > Minor(pos[id], a)
    ensures Minor(Before(line, pos, a, id), a) == 0 || Occupied(line, pos, a, Minor(Before(line, pos, a, id), a) - 1)
  {
    var k := FirstIndex(line, id);
    var r := Before(line, pos, a, id);
    assert Major(pos[line[k]], a) == l;
    forall i | 0 <= i < |line| && line[i] != id
      ensures Minor(pos[line[i]], a) < Minor(r, a) || Minor(pos[line[i]], a) > Minor(pos[id], a)
    {
      if i < k {
        if i < k - 1 {
          assert Minor(pos[line[i]], a) < Minor(pos[line[k - 1]], a);
        }
      } else {
        assert i != k;
      }
    }
    if k > 0 {
      assert Minor(pos[line[k - 1]], a) == Minor(r, a) - 1;
    }
  }

  /** The mirror image of `BeforeSpec` towards `last`. */
  lemma AfterSpec(line: seq<nat>, pos: seq<Vec2>, a: Axis, l: int, id: nat, last: int)
    requires LineOrdered(line, pos, a, l) && id < |pos| && id in line
    requires forall i :: 0 <= i < |line| ==> Minor(pos[line[i]], a) <= last
    ensures Major(After(line, pos, a, id, last), a) == l == Major(pos[id], a)
    ensures Minor(pos[id], a) <= Minor(After(line, pos, a, id, last), a) <= last
    ensures forall i :: 0 <= i < |line| && line[i] != id ==>
              Minor(pos[line[i]], a) < Minor(pos[id], a) || Minor(pos[line[i]], a) > Minor(After(line, pos, a, id, last), a)
    ensures Minor(After(line, pos, a, id, last), a) == last || Occupied(line, pos, a, Minor(After(line, pos, a, id, last), a) + 1)
  {
    var k := FirstIndex(line, id);
    var r := After(line, pos, a, id, last);
    assert Major(pos[line[k]], a) == l;
    forall i | 0 <= i < |line| && line[i] != id
      ensures Minor(pos[line[i]], a) < Minor(pos[id], a) || Minor(pos[line[i]], a) > Minor(r, a)
    {
      if i > k {
        if i > k + 1 {
          assert Minor(pos[line[k + 1]], a) < Minor(pos[line[i]], a);
        }
      } else {
        assert i != k;
      }
    }
    if k < |line| - 1 {
      assert Minor(pos[line[k + 1]], a) == Minor(r, a) + 1;
    }
  }

  /** A rock cannot go further towards 0 exactly when it is at 0 or the cell before it is taken. */
  lemma BeforeStays(line: seq<nat>, pos: seq<Vec2>, a: Axis, l: int, id: nat)
    requires LineOrdered(line, pos, a, l) && id < |pos| && id in line
    requires forall i :: 0 <= i < |line| ==> Minor(pos[line[i]], a) >= 0
    ensures Before(line, pos, a, id) == pos[id] <==>
              Minor(pos[id], a) == 0 || Occupied(line, pos, a, Minor(pos[id], a) - 1)
  {
    BeforeSpec(line, pos, a, l, id);
    var r := Before(line, pos, a, id);
    var m := Minor(pos[id], a);
    if m != 0 && Occupied(line, pos, a, m - 1) {
      var i :| 0 <= i < |line| && Minor(pos[line[i]], a) == m - 1;
      assert Minor(r, a) == m;
      assert Major(r, a) == Major(pos[id], a);
    }
  }

  /** A rock cannot go further towards `last` exactly when it is at `last` or the cell after it is taken. */
  lemma AfterStays(line: seq<nat>, pos: seq<Vec2>, a: Axis, l: int, id: nat, last: int)
    requires LineOrdered(line, pos, a, l) && id < |pos| && id in line
    requires forall i :: 0 <= i < |line| ==> Minor(pos[line[i]], a) <= last
    ensures After(line, pos, a, id, last) == pos[id] <==>
              Minor(pos[id], a) == last || Occupied(line, pos, a, Minor(pos[id], a) + 1)
  {
    AfterSpec(line, pos, a, l, id, last);
    var r := After(line, pos, a, id, last);
    var m := Minor(pos[id], a);
    if m != last && Occupied(line, pos, a, m + 1) {
      var i :| 0 <= i < |line| && Minor(pos[line[i]], a) == m + 1;
      assert Minor(r, a) == m;
      assert Major(r, a) == Major(pos[id], a);
    }
  }

  /** The first index of `line` whose object lies beyond minor coordinate `m`, or the length: where `move` inserts. */
  function FirstAbove(line: seq<nat>, pos: seq<Vec2>, a: Axis, m: int): (i: nat)
    requires forall k :: 0 <= k < |line| ==> line[k] < |pos|
    ensures i <= |line|
    ensures forall k :: 0 <= k < i ==> Minor(pos[line[k]], a) <= m
    ensures i < |line| ==> Minor(pos[line[i]], a) > m
  {
    if line == [] then 0
    else if Minor(pos[line[0]], a) > m then 0
    else 1 + FirstAbove(line[1..], pos, a, m)
  }

  /** `list.insert(i, x)`. */
  function InsertAt(s: seq<nat>, i: nat, x: nat): (r: seq<nat>)
    requires i <= |s|
    ensures |r| == |s| + 1 && r[i] == x
    ensures forall k :: 0 <= k < i ==> r[k] == s[k]
    ensures forall k :: i < k < |r| ==> r[k] == s[k - 1]
  {
    s[..i] + [x] + s[i..]
  }

  /** No object other than `id` lies at `p`. */
  ghost predicate FreeFor(pos: seq<Vec2>, id: nat, p: Vec2)
  {
    forall j :: 0 <= j < |pos| && j != id ==> pos[j] != p
  }

  /** The first step of `move` on one family of lines: take `id` out of the line it is in. */
  function Removed(ls: seq<seq<nat>>, pos: seq<Vec2>, a: Axis, id: nat): seq<seq<nat>>
    requires Ordered(ls, pos, a) && id < |pos|
  {
    var from := Major(pos[id], a);
    ls[from := RemoveFirst(ls[from], id)]
  }

  /**
   * What `move` does to one family of lines: take `id` out of the line it was in, then
   * put it into the line of `np` before the first object beyond `np`.
   */
  function Relocate(ls: seq<seq<nat>>, pos: seq<Vec2>, a: Axis, id: nat, np: Vec2): seq<seq<nat>>
    requires Ordered(ls, pos, a) && id < |pos| && 0 <= Major(np, a) < |ls|
  {
    var removed := Removed(ls, pos, a, id);
    var pos2 := pos[id := np];
    var line := removed[Major(np, a)];
    assert forall k :: 0 <= k < |line| ==> line[k] < |pos2| by {
      assert LineOrdered(ls[Major(np, a)], pos, a, Major(np, a));
    }
    removed[Major(np, a) := InsertAt(line, FirstAbove(line, pos2, a, Minor(np, a)), id)]
  }

  /** Taking an object out of an ordered line leaves it ordered and without that object. */
  lemma RemoveOrdered(line: seq<nat>, pos: seq<Vec2>, a: Axis, l: int, id: nat)
    requires LineOrdered(line, pos, a, l) && id in line
    ensures LineOrdered(RemoveFirst(line, id), pos, a, l)
    ensures id !in RemoveFirst(line, id)
    ensures forall x :: x in line && x != id ==> x in RemoveFirst(line, id)
  {
    RemoveKeeps(line, id);
    RemoveSorted(line, pos, a, l, id);
  }

  lemma RemoveSorted(line: seq<nat>, pos: seq<Vec2>, a: Axis, l: int, id: nat)
    requires LineOrdered(line, pos, a, l) && id in line
    ensures forall p, q | 0 <= p < q < |RemoveFirst(line, id)| ::
              Minor(pos[RemoveFirst(line, id)[p]], a) < Minor(pos[RemoveFirst(line, id)[q]], a)
  {
    var r := RemoveFirst(line, id);
    var f := FirstIndex(line, id);
    forall p, q | 0 <= p < q < |r| ensures Minor(pos[r[p]], a) < Minor(pos[r[q]], a) {
      var p', q' := if p < f then p else p + 1, if q < f then q else q + 1;
      assert r[p] == line[p'] && r[q] == line[q'];
    }
  }

  /** `list.remove` keeps every other element. */
  lemma RemoveKeeps(line: seq<nat>, id: nat)
    requires id in line
    ensures forall x :: x in line && x != id ==> x in RemoveFirst(line, id)
  {
    var r := RemoveFirst(line, id);
    forall x | x in line && x != id ensures x in r {
      assert x in multiset(r) + multiset{id};
    }
  }

  /** After the first step of `move` the lines are ordered for any new position of `id`, and none holds `id`. */
  lemma RemovedOrdered(ls: seq<seq<nat>>, pos: seq<Vec2>, a: Axis, id: nat, np: Vec2)
    requires Ordered(ls, pos, a) && id < |pos|
    ensures |Removed(ls, pos, a, id)| == |ls|
    ensures forall l :: 0 <= l < |ls| ==>
              LineOrdered(Removed(ls, pos, a, id)[l], pos[id := np], a, l) && id !in Removed(ls, pos, a, id)[l]
    ensures forall x :: 0 <= x < |pos| && x != id ==> x in Removed(ls, pos, a, id)[Major(pos[x], a)]
  {
    var from := Major(pos[id], a);
    var removed := Removed(ls, pos, a, id);
    RemoveOrdered(ls[from], pos, a, from, id);
    forall l | 0 <= l < |removed| ensures LineOrdered(removed[l], pos[id := np], a, l) && id !in removed[l] {
      assert LineOrdered(ls[l], pos, a, l);
      LineOrderedFrame(removed[l], pos, a, l, id, np);
    }
  }

  /** A line that does not hold `id` does not notice `id` moving. */
  lemma LineOrderedFrame(line: seq<nat>, pos: seq<Vec2>, a: Axis, l: int, id: nat, np: Vec2)
    requires LineOrdered(line, pos, a, l) && id < |pos| && id !in line
    ensures LineOrdered(line, pos[id := np], a, l)
  {
    assert forall i :: 0 <= i < |line| ==> pos[id := np][line[i]] == pos[line[i]];
  }

  /** Inserting `id` where `FirstAbove` says keeps the line ordered, when no other object shares its cell. */
  lemma InsertOrdered(line: seq<nat>, pos: seq<Vec2>, a: Axis, l: int, id: nat)
    requires LineOrdered(line, pos, a, l) && id < |pos| && Major(pos[id], a) == l
    requires forall k :: 0 <= k < |line| ==> Minor(pos[line[k]], a) != Minor(pos[id], a)
    ensures LineOrdered(InsertAt(line, FirstAbove(line, pos, a, Minor(pos[id], a)), id), pos, a, l)
  {
    var m := Minor(pos[id], a);
    var i := FirstAbove(line, pos, a, m);
    FirstAboveSplit(line, pos, a, l, m);
    InsertOrderedAt(line, pos, a, l, id, i);
  }

  /** Inserting at the index that splits the line below and above the new object's minor keeps it ordered. */
  lemma InsertOrderedAt(line: seq<nat>, pos: seq<Vec2>, a: Axis, l: int, id: nat, i: nat)
    requires LineOrdered(line, pos, a, l) && id < |pos| && Major(pos[id], a) == l && i <= |line|
    requires forall k :: 0 <= k < i ==> Minor(pos[line[k]], a) < Minor(pos[id], a)
    requires forall k :: i <= k < |line| ==> Minor(pos[line[k]], a) > Minor(pos[id], a)
    ensures LineOrdered(InsertAt(line, i, id), pos, a, l)
  {
    InsertInLine(line, pos, a, l, id, i);
    InsertSorted(line, pos, a, l, id, i);
  }

  /** In an ordered line without an object at m, the insertion index splits it into minors below and above m. */
  lemma FirstAboveSplit(line: seq<nat>, pos: seq<Vec2>, a: Axis, l: int, m: int)
    requires LineOrdered(line, pos, a, l)
    requires forall k :: 0 <= k < |line| ==> Minor(pos[line[k]], a) != m
    ensures forall k :: 0 <= k < FirstAbove(line, pos, a, m) ==> Minor(pos[line[k]], a) < m
    ensures forall k :: FirstAbove(line, pos, a, m) <= k < |line| ==> Minor(pos[line[k]], a) > m
  {
    var i := FirstAbove(line, pos, a, m);
    forall k | i <= k < |line|
      ensures Minor(pos[line[k]], a) > m
    {
      assert Minor(pos[line[i]], a) > m;
      assert k == i || Minor(pos[line[i]], a) < Minor(pos[line[k]], a);
    }
  }

  lemma InsertInLine(line: seq<nat>, pos: seq<Vec2>, a: Axis, l: int, id: nat, i: nat)
    requires LineOrdered(line, pos, a, l) && id < |pos| && Major(pos[id], a) == l && i <= |line|
    ensures forall p :: 0 <= p < |InsertAt(line, i, id)| ==>
              InsertAt(line, i, id)[p] < |pos| && Major(pos[InsertAt(line, i, id)[p]], a) == l
  {
    var r := InsertAt(line, i, id);
    forall p | 0 <= p < |r| ensures r[p] < |pos| && Major(pos[r[p]], a) == l {
      if p < i {
        assert r[p] == line[p];
      } else if p > i {
        assert r[p] == line[p - 1];
      }
    }
  }

  lemma InsertSorted(line: seq<nat>, pos: seq<Vec2>, a: Axis, l: int, id: nat, i: nat)
    requires LineOrdered(line, pos, a, l) && id < |pos| && i <= |line|
    requires forall k :: 0 <= k < i ==> Minor(pos[line[k]], a) < Minor(pos[id], a)
    requires forall k :: i <= k < |line| ==> Minor(pos[line[k]], a) > Minor(pos[id], a)
    ensures forall p, q :: 0 <= p < q < |InsertAt(line, i, id)| ==>
              Minor(pos[InsertAt(line, i, id)[p]], a) < Minor(pos[InsertAt(line, i, id)[q]], a)
  {
    var r := InsertAt(line, i, id);
    forall p, q | 0 <= p < q < |r| ensures Minor(pos[r[p]], a) < Minor(pos[r[q]], a) {
      if q < i {
        assert r[p] == line[p] && r[q] == line[q];
      } else if q == i {
        assert r[p] == line[p];
      } else if p == i {
        assert r[q] == line[q - 1];
      } else if p < i {
        assert r[p] == line[p] && r[q] == line[q - 1];
      } else {
        assert r[p] == line[p - 1] && r[q] == line[q - 1];
      }
    }
  }


  /** `move` keeps a family of lines ordered when the target cell is free. */
  lemma RelocateOrdered(ls: seq<seq<nat>>, pos: seq<Vec2>, a: Axis, id: nat, np: Vec2)
    requires Ordered(ls, pos, a) && id < |pos| && 0 <= Major(np, a) < |ls| && FreeFor(pos, id, np)
    ensures Ordered(Relocate(ls, pos, a, id, np), pos[id := np], a)
  {
    RelocateLines(ls, pos, a, id, np);
    RelocateMembers(ls, pos, a, id, np);
    var pos2 := pos[id := np];
    assert forall x :: 0 <= x < |pos| && x != id ==> pos2[x] == pos[x];
  }

  /** After `move` every line is still ordered. */
  lemma RelocateLines(ls: seq<seq<nat>>, pos: seq<Vec2>, a: Axis, id: nat, np: Vec2)
    requires Ordered(ls, pos, a) && id < |pos| && 0 <= Major(np, a) < |ls| && FreeFor(pos, id, np)
    ensures |Relocate(ls, pos, a, id, np)| == |ls|
    ensures forall l :: 0 <= l < |ls| ==> LineOrdered(Relocate(ls, pos, a, id, np)[l], pos[id := np], a, l)
  {
    var to := Major(np, a);
    var removed := Removed(ls, pos, a, id);
    var pos2 := pos[id := np];
    RemovedOrdered(ls, pos, a, id, np);
    var line := removed[to];
    assert LineOrdered(line, pos2, a, to);
    forall k | 0 <= k < |line|
      ensures Minor(pos2[line[k]], a) != Minor(pos2[id], a)
    {
      assert line[k] != id && pos2[line[k]] != np;
    }
    InsertOrdered(line, pos2, a, to, id);
  }

  /** After `move` every object is in the line of its (new) major coordinate. */
  lemma RelocateMembers(ls: seq<seq<nat>>, pos: seq<Vec2>, a: Axis, id: nat, np: Vec2)
    requires Ordered(ls, pos, a) && id < |pos| && 0 <= Major(np, a) < |ls|
    ensures |Relocate(ls, pos, a, id, np)| == |ls|
    ensures id in Relocate(ls, pos, a, id, np)[Major(np, a)]
    ensures forall x :: 0 <= x < |pos| && x != id ==>
              0 <= Major(pos[x], a) < |ls| && x in Relocate(ls, pos, a, id, np)[Major(pos[x], a)]
  {
    var to := Major(np, a);
    var removed := Removed(ls, pos, a, id);
    var pos2 := pos[id := np];
    RemovedOrdered(ls, pos, a, id, np);
    var line := removed[to];
    var j := FirstAbove(line, pos2, a, Minor(np, a));
    var r := Relocate(ls, pos, a, id, np);
    assert r == removed[to := InsertAt(line, j, id)];
    InsertKeeps(line, j, id);
    forall x | 0 <= x < |pos| && x != id ensures 0 <= Major(pos[x], a) < |ls| && x in r[Major(pos[x], a)] {
      assert x in removed[Major(pos[x], a)];
    }
  }


  /** `list.insert` keeps every element and adds the new one. */
  lemma InsertKeeps(line: seq<nat>, j: nat, id: nat)
    requires j <= |line|
    ensures id in InsertAt(line, j, id)
    ensures forall x :: x in line ==> x in InsertAt(line, j, id)
  {
    assert InsertAt(line, j, id) == line[..j] + [id] + line[j..];
    assert line == line[..j] + line[j..];
  }

  /** Some object lies at `p`. */
  ghost predicate Taken(pos: seq<Vec2>, p: Vec2)
  {
    exists j :: 0 <= j < |pos| && pos[j] == p
  }

  /** `np` lies on the line of `id` and no other object of that line lies between `np` and `id`. */
  ghost predicate WithinSpan(pos: seq<Vec2>, a: Axis, id: nat, np: Vec2)
    requires id < |pos|
  {
    Major(np, a) == Major(pos[id], a)
    && forall j :: 0 <= j < |pos| && j != id && Major(pos[j], a) == Major(pos[id], a) ==>
         (Minor(pos[j], a) < Minor(pos[id], a) ==> Minor(pos[j], a) < Minor(np, a))
         && (Minor(pos[j], a) > Minor(pos[id], a) ==> Minor(pos[j], a) > Minor(np, a))
  }

  /** `FirstAbove` is the index that splits the line at `m`. */
  lemma FirstAboveAt(line: seq<nat>, pos: seq<Vec2>, a: Axis, m: int, f: nat)
    requires forall k :: 0 <= k < |line| ==> line[k] < |pos|
    requires f <= |line| && (forall k :: 0 <= k < f ==> Minor(pos[line[k]], a) <= m)
    requires f < |line| ==> Minor(pos[line[f]], a) > m
    ensures FirstAbove(line, pos, a, m) == f
  {
  }

  /** Putting an element back where it was taken out restores the sequence. */
  lemma InsertRemoved(line: seq<nat>, f: nat)
    requires f < |line|
    ensures InsertAt(line[..f] + line[f + 1..], f, line[f]) == line
  {
    var r0 := line[..f] + line[f + 1..];
    assert r0[..f] == line[..f] && r0[f..] == line[f + 1..];
    assert line == line[..f] + [line[f]] + line[f + 1..];
  }

  /** In an ordered line everything before index `f` is below it and everything after is above. */
  lemma OrderedAround(line: seq<nat>, pos: seq<Vec2>, a: Axis, l: int, f: nat)
    requires LineOrdered(line, pos, a, l) && f < |line|
    ensures forall k :: 0 <= k < f ==> Minor(pos[line[k]], a) < Minor(pos[line[f]], a) && line[k] != line[f]
    ensures forall k :: f < k < |line| ==> Minor(pos[line[k]], a) > Minor(pos[line[f]], a) && line[k] != line[f]
  {
  }

  /** Moving an object within its free span gives its line back unchanged. */
  lemma LineInPlace(line: seq<nat>, pos: seq<Vec2>, a: Axis, l: int, id: nat, np: Vec2)
    requires LineOrdered(line, pos, a, l) && id < |pos| && id in line && WithinSpan(pos, a, id, np)
    ensures forall k :: 0 <= k < |RemoveFirst(line, id)| ==> RemoveFirst(line, id)[k] < |pos|
    ensures InsertAt(RemoveFirst(line, id), FirstAbove(RemoveFirst(line, id), pos[id := np], a, Minor(np, a)), id) == line
  {
    var f := FirstIndex(line, id);
    var r0 := line[..f] + line[f + 1..];
    var pos2 := pos[id := np];
    var m := Minor(np, a);
    OrderedAround(line, pos, a, l, f);
    forall k | 0 <= k < f ensures r0[k] < |pos2| && Minor(pos2[r0[k]], a) <= m {
      assert r0[k] == line[k];
    }
    forall k | f <= k < |r0| ensures r0[k] < |pos2| && Minor(pos2[r0[k]], a) > m {
      assert r0[k] == line[k + 1];
    }
    FirstAboveAt(r0, pos2, a, m, f);
    InsertRemoved(line, f);
  }

  /** Moving an object within its free span leaves every line exactly as it was. */
  lemma RelocateInPlace(ls: seq<seq<nat>>, pos: seq<Vec2>, a: Axis, id: nat, np: Vec2)
    requires Ordered(ls, pos, a) && id < |pos| && WithinSpan(pos, a, id, np)
    ensures Relocate(ls, pos, a, id, np) == ls
  {
    var l := Major(pos[id], a);
    var line := ls[l];
    assert LineOrdered(line, pos, a, l);
    LineInPlace(line, pos, a, l, id, np);
    var removed := Removed(ls, pos, a, id);
    assert removed == ls[l := RemoveFirst(line, id)];
    assert removed[l := line] == ls;
  }

  /**
   * On the board the cell `Before` gives lies on the rock's line, between 0 and the rock,
   * is reached without passing any object, is at 0 or right after a taken cell, and moving
   * there changes no line.
   */
  lemma BeforeOnBoard(ls: seq<seq<nat>>, pos: seq<Vec2>, a: Axis, id: nat)
    requires Ordered(ls, pos, a) && id < |pos| && forall j :: 0 <= j < |pos| ==> Minor(pos[j], a) >= 0
    ensures LineOrdered(ls[Major(pos[id], a)], pos, a, Major(pos[id], a))
    ensures WithinSpan(pos, a, id, Before(ls[Major(pos[id], a)], pos, a, id))
    ensures 0 <= Minor(Before(ls[Major(pos[id], a)], pos, a, id), a) <= Minor(pos[id], a)
    ensures FreeFor(pos, id, Before(ls[Major(pos[id], a)], pos, a, id))
    ensures forall j :: 0 <= j < |pos| && j != id && Major(pos[j], a) == Major(pos[id], a) ==>
              Minor(pos[j], a) < Minor(Before(ls[Major(pos[id], a)], pos, a, id), a) || Minor(pos[j], a) > Minor(pos[id], a)
    ensures var r := Before(ls[Major(pos[id], a)], pos, a, id);
              Minor(r, a) == 0 || Taken(pos, Point(Major(r, a), Minor(r, a) - 1, a))
  {
    var l := Major(pos[id], a);
    var line := ls[l];
    assert LineOrdered(line, pos, a, l);
    BeforeSpec(line, pos, a, l, id);
    var r := Before(line, pos, a, id);
    forall j | 0 <= j < |pos| && j != id && Major(pos[j], a) == l
      ensures Minor(pos[j], a) < Minor(r, a) || Minor(pos[j], a) > Minor(pos[id], a)
    {
      var k :| 0 <= k < |line| && line[k] == j;
    }
    if Minor(r, a) != 0 {
      var k :| 0 <= k < |line| && Minor(pos[line[k]], a) == Minor(r, a) - 1;
      assert pos[line[k]] == Point(Major(r, a), Minor(r, a) - 1, a);
    }
  }

  /** The mirror image of `BeforeOnBoard` towards `last`. */
  lemma AfterOnBoard(ls: seq<seq<nat>>, pos: seq<Vec2>, a: Axis, id: nat, last: int)
    requires Ordered(ls, pos, a) && id < |pos| && forall j :: 0 <= j < |pos| ==> Minor(pos[j], a) <= last
    ensures LineOrdered(ls[Major(pos[id], a)], pos, a, Major(pos[id], a))
    ensures WithinSpan(pos, a, id, After(ls[Major(pos[id], a)], pos, a, id, last))
    ensures Minor(pos[id], a) <= Minor(After(ls[Major(pos[id], a)], pos, a, id, last), a) <= last
    ensures FreeFor(pos, id, After(ls[Major(pos[id], a)], pos, a, id, last))
    ensures forall j :: 0 <= j < |pos| && j != id && Major(pos[j], a) == Major(pos[id], a) ==>
              Minor(pos[j], a) < Minor(pos[id], a) || Minor(pos[j], a) > Minor(After(ls[Major(pos[id], a)], pos, a, id, last), a)
    ensures var r := After(ls[Major(pos[id], a)], pos, a, id, last);
              Minor(r, a) == last || Taken(pos, Point(Major(r, a), Minor(r, a) + 1, a))
  {
    var l := Major(pos[id], a);
    var line := ls[l];
    assert LineOrdered(line, pos, a, l);
    AfterSpec(line, pos, a, l, id, last);
    var r := After(line, pos, a, id, last);
    forall j | 0 <= j < |pos| && j != id && Major(pos[j], a) == l
      ensures Minor(pos[j], a) < Minor(pos[id], a) || Minor(pos[j], a) > Minor(r, a)
    {
      var k :| 0 <= k < |line| && line[k] == j;
    }
    if Minor(r, a) != last {
      var k :| 0 <= k < |line| && Minor(pos[line[k]], a) == Minor(r, a) + 1;
      assert pos[line[k]] == Point(Major(r, a), Minor(r, a) + 1, a);
    }
  }

  /** An object of the line has minor coordinate `m` exactly when the cell at `m` on that line is taken. */
  lemma OccupiedTaken(ls: seq<seq<nat>>, pos: seq<Vec2>, a: Axis, l: int, m: int)
    requires Ordered(ls, pos, a) && 0 <= l < |ls|
    ensures LineOrdered(ls[l], pos, a, l)
    ensures Occupied(ls[l], pos, a, m) <==> Taken(pos, Point(l, m, a))
  {
    var line := ls[l];
    assert LineOrdered(line, pos, a, l);
    if Occupied(line, pos, a, m) {
      var k :| 0 <= k < |line| && Minor(pos[line[k]], a) == m;
      assert pos[line[k]] == Point(l, m, a);
    }
    if Taken(pos, Point(l, m, a)) {
      var j :| 0 <= j < |pos| && pos[j] == Point(l, m, a);
      var k :| 0 <= k < |line| && line[k] == j;
    }
  }

  /** A rock cannot go further towards 0 exactly when it is at 0 or the cell before it is taken. */
  lemma BeforeStaysOnBoard(ls: seq<seq<nat>>, pos: seq<Vec2>, a: Axis, id: nat)
    requires Ordered(ls, pos, a) && id < |pos| && forall j :: 0 <= j < |pos| ==> Minor(pos[j], a) >= 0
    ensures LineOrdered(ls[Major(pos[id], a)], pos, a, Major(pos[id], a))
    ensures Before(ls[Major(pos[id], a)], pos, a, id) == pos[id] <==>
              Minor(pos[id], a) == 0 || Taken(pos, Point(Major(pos[id], a), Minor(pos[id], a) - 1, a))
  {
    var l := Major(pos[id], a);
    OccupiedTaken(ls, pos, a, l, Minor(pos[id], a) - 1);
    BeforeStays(ls[l], pos, a, l, id);
  }

  /** A rock cannot go further towards `last` exactly when it is at `last` or the cell after it is taken. */
  lemma AfterStaysOnBoard(ls: seq<seq<nat>>, pos: seq<Vec2>, a: Axis, id: nat, last: int)
    requires Ordered(ls, pos, a) && id < |pos| && forall j :: 0 <= j < |pos| ==> Minor(pos[j], a) <= last
    ensures LineOrdered(ls[Major(pos[id], a)], pos, a, Major(pos[id], a))
    ensures After(ls[Major(pos[id], a)], pos, a, id, last) == pos[id] <==>
              Minor(pos[id], a) == last || Taken(pos, Point(Major(pos[id], a), Minor(pos[id], a) + 1, a))
  {
    var l := Major(pos[id], a);
    OccupiedTaken(ls, pos, a, l, Minor(pos[id], a) + 1);
    AfterStays(ls[l], pos, a, l, id, last);
  }

  /** Rolling north or south keeps each rock in its column; rolling west or east keeps it in its row. */
  function AxisOf(d: Direction): Axis
  {
    if d == North || d == South then ByColumn else ByRow
  }

  /** How far `p` is from the edge a roll in direction `d` goes towards, on a `w` by `h` board. */
  function Dist(d: Direction, w: int, h: int, p: Vec2): int
  {
    match d
    case North => p.y
    case South => h - 1 - p.y
    case West => p.x
    case East => w - 1 - p.x
  }

  /** The cell next to `p` in direction `d`. */
  function Step(d: Direction, p: Vec2): Vec2
  {
    match d
    case North => Vec2(p.x, p.y - 1)
    case South => Vec2(p.x, p.y + 1)
    case West => Vec2(p.x - 1, p.y)
    case East => Vec2(p.x + 1, p.y)
  }

  /** The rock `id` is at the edge that direction `d` leads to, or the cell next to it that way is taken. */
  ghost predicate Blocked(d: Direction, w: int, h: int, pos: seq<Vec2>, id: nat)
    requires id < |pos|
  {
    Dist(d, w, h, pos[id]) == 0 || Taken(pos, Step(d, pos[id]))
  }

  /** The total distance of the round rocks from the edge: it shrinks with every move of a roll. */
  function RollMeasure(d: Direction, w: int, h: int, pos: seq<Vec2>, movable: seq<nat>): int
  {
    SumOf(movable, (id: nat) => if id < |pos| then Dist(d, w, h, pos[id]) else 0)
  }

  /** The load on the north beams: every round rock weighs the number of rows minus its y. */
  function WeightOf(h: int, pos: seq<Vec2>, movable: seq<nat>): int
  {
    SumOf(movable, (id: nat) => if id < |pos| then h - pos[id].y else 0)
  }

  /** Moving one round rock closer to the edge makes the measure smaller. */
  lemma MeasureStep(d: Direction, w: int, h: int, pos: seq<Vec2>, movable: seq<nat>, i: nat, p: Vec2)
    requires i < |movable| && movable[i] < |pos| && Dist(d, w, h, p) < Dist(d, w, h, pos[movable[i]])
    ensures RollMeasure(d, w, h, pos[movable[i] := p], movable) < RollMeasure(d, w, h, pos, movable)
  {
    var id := movable[i];
    var pos2 := pos[id := p];
    var f := (x: nat) => if x < |pos2| then Dist(d, w, h, pos2[x]) else 0;
    var g := (x: nat) => if x < |pos| then Dist(d, w, h, pos[x]) else 0;
    assert forall k :: 0 <= k < |movable| ==> f(movable[k]) <= g(movable[k]);
    SumOfStrict(movable, f, g, i);
  }

  /** With every rock on the board the measure is not negative. */
  lemma MeasureNonNegative(d: Direction, w: nat, h: nat, pos: seq<Vec2>, movable: seq<nat>)
    requires forall j :: 0 <= j < |pos| ==> 0 <= pos[j].x < w && 0 <= pos[j].y < h
    ensures RollMeasure(d, w, h, pos, movable) >= 0
  {
    var g := (x: nat) => if x < |pos| then Dist(d, w, h, pos[x]) else 0;
    var hi := if w > h then w else h;
    assert forall k :: 0 <= k < |movable| ==> 0 <= g(movable[k]) <= hi;
    SumOfBounds(movable, g, 0, hi);
  }

  /** Rocks that are each no further south than before weigh at least as much. */
  lemma WeightMonotone(h: int, pos0: seq<Vec2>, pos1: seq<Vec2>, movable: seq<nat>)
    requires |pos0| == |pos1|
    requires forall j :: 0 <= j < |pos1| ==> pos1[j].y <= pos0[j].y
    ensures WeightOf(h, pos1, movable) >= WeightOf(h, pos0, movable)
  {
    var f := (x: nat) => if x < |pos0| then h - pos0[x].y else 0;
    var g := (x: nat) => if x < |pos1| then h - pos1[x].y else 0;
    assert forall k :: 0 <= k < |movable| ==> f(movable[k]) <= g(movable[k]);
    SumOfMonotone(movable, f, g);
  }

  /** With every rock on one of the h rows, each rock weighs between 1 and h. */
  lemma WeightBoundsOf(h: nat, pos: seq<Vec2>, movable: seq<nat>)
    requires forall j :: 0 <= j < |pos| ==> 0 <= pos[j].y < h
    requires forall k :: 0 <= k < |movable| ==> movable[k] < |pos|
    ensures |movable| <= WeightOf(h, pos, movable) <= h * |movable|
  {
    var f := (x: nat) => if x < |pos| then h - pos[x].y else 0;
    assert forall k :: 0 <= k < |movable| ==> 1 <= f(movable[k]) <= h;
    SumOfBounds(movable, f, 1, h);
  }

  /** `movable` lists each round rock once, in increasing number, and nothing else. */
  ghost predicate MovableIds(movable: seq<nat>, kinds: seq<ObjectType>)
  {
    (forall k :: 0 <= k < |movable| ==> movable[k] < |kinds| && kinds[movable[k]] == MovableRock)
    && (forall id :: 0 <= id < |kinds| && kinds[id] == MovableRock ==> id in movable)
    && (forall j, k :: 0 <= j < k < |movable| ==> movable[j] < movable[k])
  }

  /**
   * Every object lies on the `w` by `h` board, is found in its row and its column, rows and
   * columns are ordered, and `movable` lists the round rocks.
   */
  ghost predicate BoardInvariant(w: nat, h: nat, kinds: seq<ObjectType>, pos: seq<Vec2>,
                                 rows: seq<seq<nat>>, columns: seq<seq<nat>>, movable: seq<nat>)
  {
    |kinds| == |pos| && |rows| == h && |columns| == w && h > 0
    && (forall id :: 0 <= id < |pos| ==> 0 <= pos[id].x < w && 0 <= pos[id].y < h)
    && Ordered(rows, pos, ByRow) && Ordered(columns, pos, ByColumn)
    && MovableIds(movable, kinds)
  }

  /** `move` to a free cell on the board keeps the invariant. */
  lemma MoveKeepsInvariant(w: nat, h: nat, kinds: seq<ObjectType>, pos: seq<Vec2>,
                           rows: seq<seq<nat>>, columns: seq<seq<nat>>, movable: seq<nat>, id: nat, np: Vec2,
                           rows': seq<seq<nat>>, columns': seq<seq<nat>>)
    requires BoardInvariant(w, h, kinds, pos, rows, columns, movable) && id < |pos|
    requires 0 <= np.x < w && 0 <= np.y < h && FreeFor(pos, id, np)
    requires rows' == Relocate(rows, pos, ByRow, id, np) && columns' == Relocate(columns, pos, ByColumn, id, np)
    ensures BoardInvariant(w, h, kinds, pos[id := np], rows', columns', movable)
  {
    RelocateOrdered(rows, pos, ByRow, id, np);
    RelocateOrdered(columns, pos, ByColumn, id, np);
  }

  /**
   * From `pos0` to `pos` every object stayed in its line along `d`, got no further from the
   * edge `d` rolls towards, and the fixed rocks did not move at all.
   */
  ghost predicate RolledFrom(d: Direction, w: int, h: int, kinds: seq<ObjectType>, pos0: seq<Vec2>, pos: seq<Vec2>)
  {
    |pos| == |pos0| && |kinds| == |pos|
    && forall id :: 0 <= id < |pos| ==>
         Major(pos[id], AxisOf(d)) == Major(pos0[id], AxisOf(d))
         && Dist(d, w, h, pos[id]) <= Dist(d, w, h, pos0[id])
         && (kinds[id] == FixedRock ==> pos[id] == pos0[id])
  }

  /** Moving one round rock along its line towards the edge keeps `RolledFrom`. */
  lemma RolledStep(d: Direction, w: int, h: int, kinds: seq<ObjectType>, pos0: seq<Vec2>, pos: seq<Vec2>, id: nat, p: Vec2)
    requires RolledFrom(d, w, h, kinds, pos0, pos) && id < |pos| && kinds[id] == MovableRock
    requires Major(p, AxisOf(d)) == Major(pos[id], AxisOf(d)) && Dist(d, w, h, p) <= Dist(d, w, h, pos[id])
    ensures RolledFrom(d, w, h, kinds, pos0, pos[id := p])
  {
  }

  lemma RolledTrans(d: Direction, w: int, h: int, kinds: seq<ObjectType>, pos0: seq<Vec2>, pos1: seq<Vec2>, pos2: seq<Vec2>)
    requires RolledFrom(d, w, h, kinds, pos0, pos1) && RolledFrom(d, w, h, kinds, pos1, pos2)
    ensures RolledFrom(d, w, h, kinds, pos0, pos2)
  {
  }

  /** The grid characters that stand for an object: `O` a round rock, `#` a cube rock. */
  predicate IsObjectChar(c: char) { c == 'O' || c == '#' }

  function KindOf(c: char): (k: ObjectType)
    requires IsObjectChar(c)
    ensures k == MovableRock <==> c == 'O'
  {
    if c == 'O' then MovableRock else FixedRock
  }

  /** The character `__str__` writes for an object. */
  function Symbol(k: ObjectType): (c: char)
    ensures IsObjectChar(c) && (forall ch :: IsObjectChar(ch) && KindOf(ch) == k ==> ch == c)
  {
    if k == FixedRock then '#' else 'O'
  }

  /** The cell `p` comes before cell (x, y) in row-major order. */
  predicate Earlier(p: Vec2, x: int, y: int) { p.y < y || (p.y == y && p.x < x) }

  /**
   * The state of the constructor's scan once every cell before (x, y) is read: each object sits
   * on a cell before (x, y) showing its character, every such object cell holds an object,
   * the row lists are ordered and `movable` lists the round rocks.
   */
  ghost predicate Scanned(lines: seq<string>, kinds: seq<ObjectType>, pos: seq<Vec2>,
                          rows: seq<seq<nat>>, movable: seq<nat>, x: int, y: int)
  {
    |kinds| == |pos| && Placed(lines, kinds, pos, x, y) && Complete(lines, pos, x, y)
    && Ordered(rows, pos, ByRow) && MovableIds(movable, kinds)
  }

  /** Each object sits on a cell before (x, y) that shows its character. */
  ghost predicate Placed(lines: seq<string>, kinds: seq<ObjectType>, pos: seq<Vec2>, x: int, y: int)
    requires |kinds| == |pos|
  {
    forall id :: 0 <= id < |pos| ==>
      Earlier(pos[id], x, y) && 0 <= pos[id].y < |lines| && 0 <= pos[id].x < |lines[pos[id].y]|
      && lines[pos[id].y][pos[id].x] == Symbol(kinds[id])
  }

  /** Every object cell before (x, y) holds an object. */
  ghost predicate Complete(lines: seq<string>, pos: seq<Vec2>, x: int, y: int)
  {
    forall yy, xx ::
      0 <= yy < |lines| && 0 <= xx < |lines[yy]| && Earlier(Vec2(xx, yy), x, y) && IsObjectChar(lines[yy][xx]) ==>
        Taken(pos, Vec2(xx, yy))
  }

  lemma ScanStart(lines: seq<string>)
    ensures Scanned(lines, [], [], [], [], 0, 0)
  {
  }

  lemma ScanNewRow(lines: seq<string>, kinds: seq<ObjectType>, pos: seq<Vec2>,
                   rows: seq<seq<nat>>, movable: seq<nat>, y: int)
    requires Scanned(lines, kinds, pos, rows, movable, 0, y) && |rows| == y
    ensures Scanned(lines, kinds, pos, rows + [[]], movable, 0, y)
  {
    var rs := rows + [[]];
    assert forall l :: 0 <= l < |rows| ==> rs[l] == rows[l];
  }

  lemma ScanSkip(lines: seq<string>, kinds: seq<ObjectType>, pos: seq<Vec2>,
                 rows: seq<seq<nat>>, movable: seq<nat>, x: int, y: int)
    requires Scanned(lines, kinds, pos, rows, movable, x, y)
    requires 0 <= y < |lines| && 0 <= x < |lines[y]| && !IsObjectChar(lines[y][x])
    ensures Scanned(lines, kinds, pos, rows, movable, x + 1, y)
  {
  }

  lemma ScanObject(lines: seq<string>, kinds: seq<ObjectType>, pos: seq<Vec2>,
                   rows: seq<seq<nat>>, movable: seq<nat>, x: int, y: int)
    requires Scanned(lines, kinds, pos, rows, movable, x, y) && |rows| == y + 1
    requires 0 <= y < |lines| && 0 <= x < |lines[y]| && IsObjectChar(lines[y][x])
    ensures var n := |pos|;
            var k := KindOf(lines[y][x]);
            Scanned(lines, kinds + [k], pos + [Vec2(x, y)], rows[y := rows[y] + [n]],
                    if k == MovableRock then movable + [n] else movable, x + 1, y)
  {
    var k := KindOf(lines[y][x]);
    AppendPlaced(lines, kinds, pos, x, y);
    AppendComplete(lines, pos, x, y);
    AppendOrdered(rows, pos, x, y);
    AppendMovable(movable, kinds, k);
  }

  lemma AppendPlaced(lines: seq<string>, kinds: seq<ObjectType>, pos: seq<Vec2>, x: int, y: int)
    requires |kinds| == |pos| && Placed(lines, kinds, pos, x, y)
    requires 0 <= y < |lines| && 0 <= x < |lines[y]| && IsObjectChar(lines[y][x])
    ensures Placed(lines, kinds + [KindOf(lines[y][x])], pos + [Vec2(x, y)], x + 1, y)
    ensures forall id :: 0 <= id < |pos| ==> Earlier(pos[id], x, y)
  {
    var kinds', pos' := kinds + [KindOf(lines[y][x])], pos + [Vec2(x, y)];
    assert forall id :: 0 <= id < |pos| ==> pos'[id] == pos[id] && kinds'[id] == kinds[id];
  }

  lemma AppendComplete(lines: seq<string>, pos: seq<Vec2>, x: int, y: int)
    requires Complete(lines, pos, x, y)
    ensures Complete(lines, pos + [Vec2(x, y)], x + 1, y)
  {
    var pos' := pos + [Vec2(x, y)];
    assert pos'[|pos|] == Vec2(x, y);
    assert forall id :: 0 <= id < |pos| ==> pos'[id] == pos[id];
  }

  /** Appending an object at (x, y), right of all objects so far, to row y keeps the rows ordered. */
  lemma AppendOrdered(rows: seq<seq<nat>>, pos: seq<Vec2>, x: int, y: int)
    requires Ordered(rows, pos, ByRow) && 0 <= y && |rows| == y + 1
    requires forall id :: 0 <= id < |pos| ==> Earlier(pos[id], x, y)
    ensures Ordered(rows[y := rows[y] + [|pos|]], pos + [Vec2(x, y)], ByRow)
  {
    var n := |pos|;
    var pos' := pos + [Vec2(x, y)];
    var rows' := rows[y := rows[y] + [n]];
    assert forall id :: 0 <= id < n ==> pos'[id] == pos[id];
    assert LineOrdered(rows'[y], pos', ByRow, y) by {
      assert LineOrdered(rows[y], pos, ByRow, y);
      LineOrderedAppend(rows[y], pos, y, x);
    }
    forall l | 0 <= l < |rows'| && l != y
      ensures LineOrdered(rows'[l], pos', ByRow, l)
    {
      assert LineOrdered(rows[l], pos, ByRow, l);
    }
    forall id | 0 <= id < |pos'|
      ensures 0 <= Major(pos'[id], ByRow) < |rows'| && id in rows'[Major(pos'[id], ByRow)]
    {
      if id < n {
        assert id in rows[pos[id].y];
        if pos[id].y == y {
          assert rows'[y] == rows[y] + [n];
        }
      } else {
        assert rows'[y] == rows[y] + [n];
      }
    }
  }

  /** A new object, numbered after all others, is appended to `movable` exactly when it is round. */
  lemma AppendMovable(movable: seq<nat>, kinds: seq<ObjectType>, k: ObjectType)
    requires MovableIds(movable, kinds)
    ensures MovableIds(if k == MovableRock then movable + [|kinds|] else movable, kinds + [k])
  {
    var kinds' := kinds + [k];
    assert forall id :: 0 <= id < |kinds| ==> kinds'[id] == kinds[id];
    if k == MovableRock {
      var n := |kinds|;
      var movable' := movable + [n];
      assert forall j :: 0 <= j < |movable| ==> movable'[j] == movable[j];
      assert movable'[|movable|] == n;
      forall id | 0 <= id < |kinds'| && kinds'[id] == MovableRock
        ensures id in movable'
      {
        if id < n {
          assert id in movable;
        }
      }
    }
  }


  /** An object placed right of every object of an ordered row extends that row's order. */
  lemma LineOrderedAppend(line: seq<nat>, pos: seq<Vec2>, y: int, x: int)
    requires LineOrdered(line, pos, ByRow, y)
    requires forall i :: 0 <= i < |line| ==> pos[line[i]].x < x
    ensures LineOrdered(line + [|pos|], pos + [Vec2(x, y)], ByRow, y)
  {
    var pos' := pos + [Vec2(x, y)];
    var line' := line + [|pos|];
    assert forall i :: 0 <= i < |line| ==> line'[i] == line[i] && pos'[line[i]] == pos[line[i]];
  }

  lemma ScanRowDone(lines: seq<string>, kinds: seq<ObjectType>, pos: seq<Vec2>,
                    rows: seq<seq<nat>>, movable: seq<nat>, y: int)
    requires 0 <= y < |lines|
    requires Scanned(lines, kinds, pos, rows, movable, |lines[y]|, y)
    ensures Scanned(lines, kinds, pos, rows, movable, 0, y + 1)
  {
  }

  /**
   * The row scan of `__init__`: one object per `O` or `#` cell, numbered in reading order,
   * each appended to its row list and, when round, to `movable`.
   */
  method ScanRows(lines: seq<string>) returns (kinds: seq<ObjectType>, pos: seq<Vec2>,
                                                rows: seq<seq<nat>>, movable: seq<nat>)
    ensures |rows| == |lines|
    ensures Scanned(lines, kinds, pos, rows, movable, 0, |lines|)
  {
    kinds, pos, rows, movable := [], [], [], [];
    ScanStart(lines);
    for y := 0 to |lines|
      invariant |rows| == y
      invariant Scanned(lines, kinds, pos, rows, movable, 0, y)
    {
      ScanNewRow(lines, kinds, pos, rows, movable, y);
      rows := rows + [[]];
      for x := 0 to |lines[y]|
        invariant |rows| == y + 1
        invariant Scanned(lines, kinds, pos, rows, movable, x, y)
      {
        var c := lines[y][x];
        if IsObjectChar(c) {
          ScanObject(lines, kinds, pos, rows, movable, x, y);
          var n := |pos|;
          var k := KindOf(c);
          rows := rows[y := rows[y] + [n]];
          if k == MovableRock {
            movable := movable + [n];
          }
          kinds, pos := kinds + [k], pos + [Vec2(x, y)];
        } else {
          ScanSkip(lines, kinds, pos, rows, movable, x, y);
        }
      }
      ScanRowDone(lines, kinds, pos, rows, movable, y);
    }
  }

  /** `next((o for o in line if ...), None)`: the first object of the line at minor coordinate `m`. */
  function ObjectAt(line: seq<nat>, pos: seq<Vec2>, a: Axis, m: int): (r: Option<nat>)
    requires forall i :: 0 <= i < |line| ==> line[i] < |pos|
    ensures r.Some? ==> r.value in line && Minor(pos[r.value], a) == m
    ensures r.None? ==> forall i :: 0 <= i < |line| ==> Minor(pos[line[i]], a) != m
  {
    if line == [] then None
    else if Minor(pos[line[0]], a) == m then Some(line[0])
    else
      var r := ObjectAt(line[1..], pos, a, m);
      assert forall i :: 1 <= i < |line| ==> line[i] == line[1..][i - 1];
      r
  }

  /** On an ordered board, the lookup in line `l` finds exactly the object at (l, m). */
  lemma ObjectAtOnBoard(ls: seq<seq<nat>>, pos: seq<Vec2>, a: Axis, l: int, m: int)
    requires Ordered(ls, pos, a) && 0 <= l < |ls|
    ensures forall i :: 0 <= i < |ls[l]| ==> ls[l][i] < |pos|
    ensures forall id :: 0 <= id < |pos| ==>
              (ObjectAt(ls[l], pos, a, m) == Some(id) <==> pos[id] == Point(l, m, a))
  {
    var line := ls[l];
    assert LineOrdered(line, pos, a, l);
    forall id | 0 <= id < |pos| && pos[id] == Point(l, m, a)
      ensures ObjectAt(line, pos, a, m) == Some(id)
    {
      assert id in line;
      var r := ObjectAt(line, pos, a, m);
      var i :| 0 <= i < |line| && line[i] == id;
      var j :| 0 <= j < |line| && line[j] == r.value;
      if i < j {
      } else if j < i {
      }
    }
  }

  /** Every line of `columns` holds objects of that column in increasing y. */
  ghost predicate ColumnsOrdered(columns: seq<seq<nat>>, pos: seq<Vec2>)
  {
    forall l :: 0 <= l < |columns| ==> LineOrdered(columns[l], pos, ByColumn, l)
  }

  /** Every object in a column before `x` is in the list of its column. */
  ghost predicate ColumnsHave(columns: seq<seq<nat>>, pos: seq<Vec2>, x: int)
  {
    forall id :: 0 <= id < |pos| && 0 <= pos[id].x < x ==> pos[id].x < |columns| && id in columns[pos[id].x]
  }

  /** Column `x` so far: every object of column `x` above row `y`, and nothing lower. */
  ghost predicate ColumnUpTo(col: seq<nat>, pos: seq<Vec2>, x: int, y: int)
  {
    (forall id :: 0 <= id < |pos| && pos[id].x == x && pos[id].y < y ==> id in col)
    && (forall i :: 0 <= i < |col| ==> col[i] < |pos| && pos[col[i]].y < y)
  }

  lemma ColumnStep(pos: seq<Vec2>, col: seq<nat>, x: int, y: int, obj: Option<nat>)
    requires LineOrdered(col, pos, ByColumn, x) && ColumnUpTo(col, pos, x, y)
    requires obj.Some? ==> obj.value < |pos| && pos[obj.value] == Vec2(x, y)
    requires forall id :: 0 <= id < |pos| && pos[id] == Vec2(x, y) ==> obj == Some(id)
    ensures var col' := if obj.Some? then col + [obj.value] else col;
            LineOrdered(col', pos, ByColumn, x) && ColumnUpTo(col', pos, x, y + 1)
  {
    if obj.Some? {
      ColumnAppendOrdered(pos, col, x, y, obj.value);
      ColumnAppendUpTo(pos, col, x, y, obj.value);
    }
  }

  lemma ColumnAppendOrdered(pos: seq<Vec2>, col: seq<nat>, x: int, y: int, id: nat)
    requires LineOrdered(col, pos, ByColumn, x)
    requires forall i :: 0 <= i < |col| ==> col[i] < |pos| && pos[col[i]].y < y
    requires id < |pos| && pos[id] == Vec2(x, y)
    ensures LineOrdered(col + [id], pos, ByColumn, x)
  {
    var col' := col + [id];
    assert forall i :: 0 <= i < |col| ==> col'[i] == col[i];
  }

  lemma ColumnAppendUpTo(pos: seq<Vec2>, col: seq<nat>, x: int, y: int, id: nat)
    requires ColumnUpTo(col, pos, x, y)
    requires id < |pos| && pos[id] == Vec2(x, y)
    requires forall j :: 0 <= j < |pos| && pos[j] == Vec2(x, y) ==> j == id
    ensures ColumnUpTo(col + [id], pos, x, y + 1)
  {
    var col' := col + [id];
    assert forall i :: 0 <= i < |col| ==> col'[i] == col[i];
  }

  /** The objects of an ordered line are objects of the board. */
  lemma LineIds(ls: seq<seq<nat>>, pos: seq<Vec2>, a: Axis, l: int)
    requires Ordered(ls, pos, a) && 0 <= l < |ls|
    ensures forall i :: 0 <= i < |ls[l]| ==> ls[l][i] < |pos|
  {
    assert LineOrdered(ls[l], pos, a, l);
  }

  /**
   * The column pass of `__init__`: for each x and then each y, the object of row y at x,
   * if any, is appended to column x. Objects right of the width are in no column.
   */
  method BuildColumns(w: nat, rows: seq<seq<nat>>, pos: seq<Vec2>) returns (columns: seq<seq<nat>>)
    requires Ordered(rows, pos, ByRow)
    ensures |columns| == w && ColumnsOrdered(columns, pos) && ColumnsHave(columns, pos, w)
  {
    columns := [];
    for x := 0 to w
      invariant |columns| == x && ColumnsOrdered(columns, pos) && ColumnsHave(columns, pos, x)
    {
      var col := BuildColumn(rows, pos, x);
      ColumnsAppend(rows, columns, pos, col, x);
      columns := columns + [col];
    }
  }

  /** The inner loop of the column pass: column `x` collected row by row. */
  method BuildColumn(rows: seq<seq<nat>>, pos: seq<Vec2>, x: int) returns (col: seq<nat>)
    requires Ordered(rows, pos, ByRow)
    ensures LineOrdered(col, pos, ByColumn, x) && ColumnUpTo(col, pos, x, |rows|)
  {
    col := [];
    for y := 0 to |rows|
      invariant LineOrdered(col, pos, ByColumn, x) && ColumnUpTo(col, pos, x, y)
    {
      ObjectAtOnBoard(rows, pos, ByRow, y, x);
      var obj := ObjectAt(rows[y], pos, ByRow, x);
      ColumnStep(pos, col, x, y, obj);
      if obj.Some? {
        col := col + [obj.value];
      }
    }
  }

  lemma ColumnsAppend(rows: seq<seq<nat>>, columns: seq<seq<nat>>, pos: seq<Vec2>, col: seq<nat>, x: int)
    requires |columns| == x && ColumnsOrdered(columns, pos) && ColumnsHave(columns, pos, x)
    requires LineOrdered(col, pos, ByColumn, x) && ColumnUpTo(col, pos, x, |rows|)
    requires Ordered(rows, pos, ByRow)
    ensures ColumnsOrdered(columns + [col], pos) && ColumnsHave(columns + [col], pos, x + 1)
  {
    var cs := columns + [col];
    assert forall l :: 0 <= l < x ==> cs[l] == columns[l];
    assert cs[x] == col;
  }

  /** Every line is at most as long as the first, whose length is the board width. */
  predicate Fits(lines: seq<string>)
  {
    |lines| > 0 && forall y :: 0 <= y < |lines| ==> |lines[y]| <= |lines[0]|
  }

  /** The objects a scan and a column pass of `lines` leave behind satisfy the board invariant. */
  lemma ScannedInvariant(lines: seq<string>, kinds: seq<ObjectType>, pos: seq<Vec2>,
                         rows: seq<seq<nat>>, columns: seq<seq<nat>>, movable: seq<nat>)
    requires Fits(lines) && |rows| == |lines|
    requires Scanned(lines, kinds, pos, rows, movable, 0, |lines|)
    requires |columns| == |lines[0]| && ColumnsOrdered(columns, pos) && ColumnsHave(columns, pos, |lines[0]|)
    ensures BoardInvariant(|lines[0]|, |lines|, kinds, pos, rows, columns, movable)
  {
    assert forall id :: 0 <= id < |pos| ==> 0 <= pos[id].x < |lines[0]|;
  }

  /** `range(a, b)` filled with dots: nothing when b <= a. */
  function Dots(n: int): (r: string)
    ensures |r| == (if n > 0 then n else 0)
    ensures forall i :: 0 <= i < |r| ==> r[i] == '.'
  {
    if n <= 0 then [] else Dots(n - 1) + ['.']
  }

  /**
   * The text `__str__` writes for one row: dots up to each object, its symbol, and dots from
   * the last object up to the width, starting at column `from`.
   */
  function RowText(row: seq<nat>, kinds: seq<ObjectType>, pos: seq<Vec2>, from: int, w: int): string
    requires |kinds| == |pos| && forall i :: 0 <= i < |row| ==> row[i] < |pos|
  {
    if row == [] then Dots(w - from)
    else
      var id := row[0];
      Dots(pos[id].x - from) + [Symbol(kinds[id])] + RowText(row[1..], kinds, pos, pos[id].x + 1, w)
  }

  /** The character of cell x of an ordered row: the symbol of its object, or a dot. */
  function CellChar(row: seq<nat>, kinds: seq<ObjectType>, pos: seq<Vec2>, x: int): char
    requires |kinds| == |pos| && forall i :: 0 <= i < |row| ==> row[i] < |pos|
  {
    match ObjectAt(row, pos, ByRow, x)
    case Some(id) => Symbol(kinds[id])
    case None => '.'
  }

  /** The objects of `row` lie in columns [from, w), in strictly increasing x. */
  ghost predicate XsWithin(row: seq<nat>, pos: seq<Vec2>, from: int, w: int)
  {
    (forall i :: 0 <= i < |row| ==> row[i] < |pos| && from <= pos[row[i]].x < w)
    && (forall i, j :: 0 <= i < j < |row| ==> pos[row[i]].x < pos[row[j]].x)
  }

  lemma XsWithinTail(row: seq<nat>, pos: seq<Vec2>, from: int, w: int)
    requires row != [] && XsWithin(row, pos, from, w)
    ensures row[0] < |pos| && XsWithin(row[1..], pos, pos[row[0]].x + 1, w)
  {
    assert forall i :: 0 <= i < |row| - 1 ==> row[1..][i] == row[i + 1];
  }

  /** Cells left of every object of the row show no object. */
  lemma ObjectAtNone(row: seq<nat>, pos: seq<Vec2>, x: int)
    requires forall i :: 0 <= i < |row| ==> row[i] < |pos| && x < pos[row[i]].x
    ensures ObjectAt(row, pos, ByRow, x) == None
  {
  }

  /** A row of objects within [from, w) renders as w - from characters. */
  lemma {:induction false} RowTextLength(row: seq<nat>, kinds: seq<ObjectType>, pos: seq<Vec2>, from: int, w: int)
    requires |kinds| == |pos| && XsWithin(row, pos, from, w) && from <= w
    ensures |RowText(row, kinds, pos, from, w)| == w - from
    decreases |row|
  {
    if row != [] {
      XsWithinTail(row, pos, from, w);
      RowTextLength(row[1..], kinds, pos, pos[row[0]].x + 1, w);
    }
  }

  /** Up to and including its first object, a row renders as dots and that object's symbol. */
  lemma RowTextLeft(row: seq<nat>, kinds: seq<ObjectType>, pos: seq<Vec2>, from: int, w: int)
    requires |kinds| == |pos| && XsWithin(row, pos, from, w) && from <= w && row != []
    ensures |RowText(row, kinds, pos, from, w)| > pos[row[0]].x - from
    ensures forall x :: from <= x <= pos[row[0]].x ==> RowText(row, kinds, pos, from, w)[x - from] == CellChar(row, kinds, pos, x)
  {
    var t := RowText(row, kinds, pos, from, w);
    var id := row[0];
    var x0 := pos[id].x;
    var dots := Dots(x0 - from);
    assert t == dots + [Symbol(kinds[id])] + RowText(row[1..], kinds, pos, x0 + 1, w);
    forall x | from <= x < x0
      ensures t[x - from] == CellChar(row, kinds, pos, x)
    {
      assert t[x - from] == dots[x - from];
      ObjectAtNone(row, pos, x);
    }
    assert t[x0 - from] == Symbol(kinds[id]);
  }

  /** A row of objects within [from, w) renders as w - from characters, one per cell. */
  lemma {:induction false} RowTextSpec(row: seq<nat>, kinds: seq<ObjectType>, pos: seq<Vec2>, from: int, w: int)
    requires |kinds| == |pos| && XsWithin(row, pos, from, w) && from <= w
    ensures |RowText(row, kinds, pos, from, w)| == w - from
    ensures forall x :: from <= x < w ==> RowText(row, kinds, pos, from, w)[x - from] == CellChar(row, kinds, pos, x)
    decreases |row|
  {
    if row != [] {
      var t := RowText(row, kinds, pos, from, w);
      var id := row[0];
      var x0 := pos[id].x;
      var rest := row[1..];
      XsWithinTail(row, pos, from, w);
      RowTextSpec(rest, kinds, pos, x0 + 1, w);
      RowTextLength(row, kinds, pos, from, w);
      var tail := RowText(rest, kinds, pos, x0 + 1, w);
      var dots := Dots(x0 - from);
      assert t == dots + [Symbol(kinds[id])] + tail;
      RowTextLeft(row, kinds, pos, from, w);
      forall x | x0 < x < w
        ensures t[x - from] == CellChar(row, kinds, pos, x)
      {
        assert t[x - from] == tail[x - (x0 + 1)];
        assert tail[x - (x0 + 1)] == CellChar(rest, kinds, pos, x);
      }
    }
  }

  /** `__str__` as lines: the text of each row, `w` characters wide. */
  function RenderOf(w: int, kinds: seq<ObjectType>, pos: seq<Vec2>, rows: seq<seq<nat>>): seq<string>
    requires |kinds| == |pos| && forall l, i :: 0 <= l < |rows| && 0 <= i < |rows[l]| ==> rows[l][i] < |pos|
  {
    seq(|rows|, y requires 0 <= y < |rows| => RowText(rows[y], kinds, pos, 0, w))
  }

  /**
   * On a board satisfying the invariant, the rendering has h lines of w characters; the
   * cell of each object shows its symbol and every cell without an object shows a dot.
   */
  lemma RenderCells(w: nat, h: nat, kinds: seq<ObjectType>, pos: seq<Vec2>,
                    rows: seq<seq<nat>>, columns: seq<seq<nat>>, movable: seq<nat>)
    requires BoardInvariant(w, h, kinds, pos, rows, columns, movable)
    ensures forall l, i :: 0 <= l < |rows| && 0 <= i < |rows[l]| ==> rows[l][i] < |pos|
    ensures |RenderOf(w, kinds, pos, rows)| == h
    ensures forall y :: 0 <= y < h ==> |RenderOf(w, kinds, pos, rows)[y]| == w
    ensures forall id :: 0 <= id < |pos| ==> RenderOf(w, kinds, pos, rows)[pos[id].y][pos[id].x] == Symbol(kinds[id])
    ensures forall y, x :: 0 <= y < h && 0 <= x < w && !Taken(pos, Vec2(x, y)) ==> RenderOf(w, kinds, pos, rows)[y][x] == '.'
  {
    forall l | 0 <= l < |rows|
      ensures forall i :: 0 <= i < |rows[l]| ==> rows[l][i] < |pos|
    {
      LineIds(rows, pos, ByRow, l);
    }
    var r := RenderOf(w, kinds, pos, rows);
    forall y | 0 <= y < h
      ensures |r[y]| == w
      ensures forall x :: 0 <= x < w ==> r[y][x] == CellChar(rows[y], kinds, pos, x)
    {
      assert LineOrdered(rows[y], pos, ByRow, y);
      RowTextSpec(rows[y], kinds, pos, 0, w);
    }
    forall id | 0 <= id < |pos|
      ensures r[pos[id].y][pos[id].x] == Symbol(kinds[id])
    {
      ObjectAtOnBoard(rows, pos, ByRow, pos[id].y, pos[id].x);
    }
    forall y, x | 0 <= y < h && 0 <= x < w && !Taken(pos, Vec2(x, y))
      ensures r[y][x] == '.'
    {
      ObjectAtOnBoard(rows, pos, ByRow, y, x);
    }
  }

  /**
   * A board read from lines of width w made of `.`, `#` and `O` only renders as those lines:
   * its objects are exactly the object cells of the lines.
   */
  lemma RenderOfLines(lines: seq<string>, kinds: seq<ObjectType>, pos: seq<Vec2>,
                      rows: seq<seq<nat>>, columns: seq<seq<nat>>, movable: seq<nat>)
    requires |lines| > 0 && (forall y :: 0 <= y < |lines| ==> |lines[y]| == |lines[0]|)
    requires forall y, x :: 0 <= y < |lines| && 0 <= x < |lines[y]| ==> IsObjectChar(lines[y][x]) || lines[y][x] == '.'
    requires BoardInvariant(|lines[0]|, |lines|, kinds, pos, rows, columns, movable)
    requires forall id :: 0 <= id < |pos| ==> lines[pos[id].y][pos[id].x] == Symbol(kinds[id])
    requires forall y, x :: 0 <= y < |lines| && 0 <= x < |lines[y]| && IsObjectChar(lines[y][x]) ==> Taken(pos, Vec2(x, y))
    ensures RenderOf(|lines[0]|, kinds, pos, rows) == lines
  {
    var w, h := |lines[0]|, |lines|;
    RenderCells(w, h, kinds, pos, rows, columns, movable);
    var r := RenderOf(w, kinds, pos, rows);
    forall y | 0 <= y < h
      ensures r[y] == lines[y]
    {
      forall x | 0 <= x < w
        ensures r[y][x] == lines[y][x]
      {
        if Taken(pos, Vec2(x, y)) {
          var id :| 0 <= id < |pos| && pos[id] == Vec2(x, y);
        }
      }
    }
  }

  /** The rendering uses no newline, so `split("\n")` recovers it from its join. */
  lemma RenderNoNewline(w: nat, h: nat, kinds: seq<ObjectType>, pos: seq<Vec2>,
                        rows: seq<seq<nat>>, columns: seq<seq<nat>>, movable: seq<nat>)
    requires BoardInvariant(w, h, kinds, pos, rows, columns, movable)
    ensures forall l, i :: 0 <= l < |rows| && 0 <= i < |rows[l]| ==> rows[l][i] < |pos|
    ensures SplitOn(Join(RenderOf(w, kinds, pos, rows), "\n"), '\n') == RenderOf(w, kinds, pos, rows)
  {
    RenderCells(w, h, kinds, pos, rows, columns, movable);
    var r := RenderOf(w, kinds, pos, rows);
    forall y, x | 0 <= y < |r| && 0 <= x < |r[y]|
      ensures r[y][x] != '\n'
    {
      if Taken(pos, Vec2(x, y)) {
        var id :| 0 <= id < |pos| && pos[id] == Vec2(x, y);
      }
    }
    SplitOnJoin(r, '\n');
  }

  lemma Regroup(a: string, b: string, c: string, d: string)
    ensures a + (b + c + d) == (a + b + c) + d
  {
  }

  /** The row loop of `__str__`: one line per row. */
  method RenderRows(w: int, kinds: seq<ObjectType>, pos: seq<Vec2>, rows: seq<seq<nat>>) returns (lines: seq<string>)
    requires |kinds| == |pos| && forall l, i :: 0 <= l < |rows| && 0 <= i < |rows[l]| ==> rows[l][i] < |pos|
    ensures lines == RenderOf(w, kinds, pos, rows)
  {
    lines := [];
    for y := 0 to |rows|
      invariant |lines| == y
      invariant forall k :: 0 <= k < y ==> lines[k] == RowText(rows[k], kinds, pos, 0, w)
    {
      var newLine := RowString(rows[y], kinds, pos, w);
      lines := lines + [newLine];
    }
  }

  lemma RowTextStep(row: seq<nat>, kinds: seq<ObjectType>, pos: seq<Vec2>, i: nat, cur: int, w: int)
    requires |kinds| == |pos| && i < |row| && forall k :: 0 <= k < |row| ==> row[k] < |pos|
    ensures RowText(row[i..], kinds, pos, cur, w)
            == Dots(pos[row[i]].x - cur) + [Symbol(kinds[row[i]])] + RowText(row[i + 1..], kinds, pos, pos[row[i]].x + 1, w)
  {
    assert row[i..][0] == row[i];
    assert row[i..][1..] == row[i + 1..];
  }

  /** One row of `__str__`: dots from the cell after the previous object up to each object, its symbol, dots to the width. */
  method RowString(row: seq<nat>, kinds: seq<ObjectType>, pos: seq<Vec2>, w: int) returns (newLine: string)
    requires |kinds| == |pos| && forall i :: 0 <= i < |row| ==> row[i] < |pos|
    ensures newLine == RowText(row, kinds, pos, 0, w)
  {
    newLine := "";
    var cur := 0;
    for i := 0 to |row|
      invariant newLine + RowText(row[i..], kinds, pos, cur, w) == RowText(row, kinds, pos, 0, w)
    {
      newLine, cur := PlaceObject(newLine, row, kinds, pos, i, cur, w);
    }
    assert row[|row|..] == [];
    newLine := FillDots(newLine, cur, w);
  }

  /** The body of the object loop of `__str__`: dots up to object `row[i]`, its symbol, and the next free x. */
  method PlaceObject(line: string, row: seq<nat>, kinds: seq<ObjectType>, pos: seq<Vec2>, i: nat, cur: int, w: int)
    returns (line': string, cur': int)
    requires |kinds| == |pos| && i < |row| && forall k :: 0 <= k < |row| ==> row[k] < |pos|
    ensures cur' == pos[row[i]].x + 1
    ensures line' + RowText(row[i + 1..], kinds, pos, cur', w) == line + RowText(row[i..], kinds, pos, cur, w)
  {
    var id := row[i];
    RowTextStep(row, kinds, pos, i, cur, w);
    var filled := FillDots(line, cur, pos[id].x);
    Regroup(line, Dots(pos[id].x - cur), [Symbol(kinds[id])], RowText(row[i + 1..], kinds, pos, pos[id].x + 1, w));
    line' := filled + [Symbol(kinds[id])];
    cur' := pos[id].x + 1;
  }

  /** `for _ in range(a, b): line += "."`. */
  method FillDots(line: string, a: int, b: int) returns (r: string)
    ensures r == line + Dots(b - a)
  {
    r := line;
    var x := a;
    while x < b
      invariant a <= x && (x <= b || x == a)
      invariant r == line + Dots(x - a)
    {
      r := r + ".";
      x := x + 1;
    }
  }

  /**
   * Rolled towards minor coordinate 0 along the line: each round rock of the line is at 0 when
   * first, or right after the object before it.
   */
  ghost predicate SettledAlong(line: seq<nat>, kinds: seq<ObjectType>, pos: seq<Vec2>, a: Axis)
    requires |kinds| == |pos| && forall i :: 0 <= i < |line| ==> line[i] < |pos|
  {
    forall k :: 0 <= k < |line| && kinds[line[k]] == MovableRock ==>
      Minor(pos[line[k]], a) == (if k == 0 then 0 else Minor(pos[line[k - 1]], a) + 1)
  }

  /**
   * The positions along a settled line follow from its order alone: two placements of the same
   * line, both settled, with the cube rocks in the same cells, agree on the first n objects.
   */
  lemma {:induction false} LineSettledUnique(line: seq<nat>, kinds: seq<ObjectType>, pos1: seq<Vec2>, pos2: seq<Vec2>,
                                             a: Axis, l: int, n: nat)
    requires |kinds| == |pos1| == |pos2| && n <= |line|
    requires LineOrdered(line, pos1, a, l) && LineOrdered(line, pos2, a, l)
    requires SettledAlong(line, kinds, pos1, a) && SettledAlong(line, kinds, pos2, a)
    requires forall k :: 0 <= k < |line| && kinds[line[k]] == FixedRock ==> pos1[line[k]] == pos2[line[k]]
    ensures forall k :: 0 <= k < n ==> pos1[line[k]] == pos2[line[k]]
  {
    if n > 0 {
      LineSettledUnique(line, kinds, pos1, pos2, a, l, n - 1);
      var id := line[n - 1];
      if kinds[id] == MovableRock {
        if n > 1 {
          assert pos1[line[n - 2]] == pos2[line[n - 2]];
        }
        assert Major(pos1[id], a) == l == Major(pos2[id], a);
        assert Minor(pos1[id], a) == Minor(pos2[id], a);
        assert pos1[id] == Point(Major(pos1[id], a), Minor(pos1[id], a), a);
        assert pos2[id] == Point(Major(pos2[id], a), Minor(pos2[id], a), a);
      }
    }
  }

  /**
   * Two boards that share their columns and cube rocks and are both rolled north put every
   * object in the same cell.
   */
  lemma ColumnsSettledUnique(kinds: seq<ObjectType>, pos1: seq<Vec2>, pos2: seq<Vec2>, columns: seq<seq<nat>>)
    requires |kinds| == |pos1| == |pos2|
    requires Ordered(columns, pos1, ByColumn) && Ordered(columns, pos2, ByColumn)
    requires forall id :: 0 <= id < |pos1| && kinds[id] == FixedRock ==> pos1[id] == pos2[id]
    requires forall x :: 0 <= x < |columns| ==> LineIdsBelow(columns[x], |pos1|) && SettledAlong(columns[x], kinds, pos1, ByColumn)
    requires forall x :: 0 <= x < |columns| ==> SettledAlong(columns[x], kinds, pos2, ByColumn)
    ensures pos1 == pos2
  {
    forall id | 0 <= id < |pos1|
      ensures pos1[id] == pos2[id]
    {
      var x := pos1[id].x;
      var col := columns[x];
      assert id in col;
      var k :| 0 <= k < |col| && col[k] == id;
      assert LineOrdered(col, pos1, ByColumn, x) && LineOrdered(col, pos2, ByColumn, x);
      LineSettledUnique(col, kinds, pos1, pos2, ByColumn, x, |col|);
    }
  }

  /** Every entry of the line is below n. */
  predicate LineIdsBelow(line: seq<nat>, n: nat)
  {
    forall i :: 0 <= i < |line| ==> line[i] < n
  }

  /** The rendering depends on the objects' kinds and cells only, not on how the line lists are held. */
  lemma RenderDetermined(w: nat, h: nat, kinds: seq<ObjectType>, pos: seq<Vec2>,
                         rows1: seq<seq<nat>>, columns1: seq<seq<nat>>, movable1: seq<nat>,
                         rows2: seq<seq<nat>>, columns2: seq<seq<nat>>, movable2: seq<nat>)
    requires BoardInvariant(w, h, kinds, pos, rows1, columns1, movable1)
    requires BoardInvariant(w, h, kinds, pos, rows2, columns2, movable2)
    ensures forall l, i :: 0 <= l < |rows1| && 0 <= i < |rows1[l]| ==> rows1[l][i] < |pos|
    ensures forall l, i :: 0 <= l < |rows2| && 0 <= i < |rows2[l]| ==> rows2[l][i] < |pos|
    ensures RenderOf(w, kinds, pos, rows1) == RenderOf(w, kinds, pos, rows2)
  {
    RenderCells(w, h, kinds, pos, rows1, columns1, movable1);
    RenderCells(w, h, kinds, pos, rows2, columns2, movable2);
    var r1, r2 := RenderOf(w, kinds, pos, rows1), RenderOf(w, kinds, pos, rows2);
    forall y | 0 <= y < h
      ensures r1[y] == r2[y]
    {
      forall x | 0 <= x < w
        ensures r1[y][x] == r2[y][x]
      {
        if Taken(pos, Vec2(x, y)) {
          var id :| 0 <= id < |pos| && pos[id] == Vec2(x, y);
        }
      }
    }
  }

  class Board {
    var w: nat
    var h: nat
    /** Object `id` is of type `kinds[id]` and lies at `pos[id]`. */
    var kinds: seq<ObjectType>
    var pos: seq<Vec2>
    /** `rows[y]` lists the objects of row y by increasing x, `columns[x]` those of column x by increasing y. */
    var rows: seq<seq<nat>>
    var columns: seq<seq<nat>>
    var movable: seq<nat>

    ghost predicate Valid()
      reads this
    {
      BoardInvariant(w, h, kinds, pos, rows, columns, movable)
    }

    /**
     * `__init__`: the width is the length of the first line and the height the number of lines.
     * Afterwards each object sits on a cell showing its character, and every `O` or `#` cell holds
     * one. When no line is longer than the first, the board satisfies its invariant.
     */
    constructor (lines: seq<string>)
      requires |lines| > 0
      ensures w == |lines[0]| && h == |lines| && |kinds| == |pos|
      ensures forall id :: 0 <= id < |pos| ==>
                0 <= pos[id].y < h && 0 <= pos[id].x < |lines[pos[id].y]| && lines[pos[id].y][pos[id].x] == Symbol(kinds[id])
      ensures forall y, x :: 0 <= y < h && 0 <= x < |lines[y]| && IsObjectChar(lines[y][x]) ==> Taken(pos, Vec2(x, y))
      ensures Fits(lines) ==> Valid()
    {
      var k, p, rs, mv := ScanRows(lines);
      var cs := BuildColumns(|lines[0]|, rs, p);
      if Fits(lines) {
        ScannedInvariant(lines, k, p, rs, cs, mv);
      }
      w, h, kinds, pos, rows, columns, movable := |lines[0]|, |lines|, k, p, rs, cs, mv;
    }

    /** `str(self).split("\n")`: the rendered lines. */
    function Render(): (r: seq<string>)
      requires Valid()
      reads this
      ensures |r| == h && forall y :: 0 <= y < h ==> |r[y]| == w
      ensures forall id :: 0 <= id < |pos| ==> r[pos[id].y][pos[id].x] == Symbol(kinds[id])
      ensures forall y, x :: 0 <= y < h && 0 <= x < w && !Taken(pos, Vec2(x, y)) ==> r[y][x] == '.'
    {
      RenderCells(w, h, kinds, pos, rows, columns, movable);
      RenderOf(w, kinds, pos, rows)
    }

    /** `str(self)`: the rendered lines joined by newlines. */
    function Text(): string
      requires Valid()
      reads this
    {
      Join(Render(), "\n")
    }

    /** `__str__`: fills each row with dots around the symbols of its objects, then joins the rows. */
    method Str() returns (s: string)
      requires Valid()
      ensures s == Text()
    {
      RenderCells(w, h, kinds, pos, rows, columns, movable);
      var lines := RenderRows(w, kinds, pos, rows);
      s := Join(lines, "\n");
    }

    /** `copy`: a new board read back from this board's text. */
    method Copy() returns (b: Board)
      requires Valid()
      ensures fresh(b) && b.Valid() && b.Render() == Render()
    {
      var text := Str();
      var lines := SplitOn(text, '\n');
      RenderNoNewline(w, h, kinds, pos, rows, columns, movable);
      assert lines == Render();
      b := new Board(lines);
      RenderOfLines(lines, b.kinds, b.pos, b.rows, b.columns, b.movable);
    }

    /** `__eq__`: two boards are equal when their texts are; that is, when they render the same lines. */
    function Equals(other: Board): (r: bool)
      requires Valid() && other.Valid()
      reads this, other
      ensures r <==> Render() == other.Render()
    {
      RenderNoNewline(w, h, kinds, pos, rows, columns, movable);
      RenderNoNewline(other.w, other.h, other.kinds, other.pos, other.rows, other.columns, other.movable);
      Text() == other.Text()
    }

    function LinesAlong(a: Axis): seq<seq<nat>>
      reads this
    {
      if a == ByRow then rows else columns
    }

    /** One below the object north of the rock in its column, or row 0. */
    function GetFurthestFreePosNorth(id: nat): Vec2
      requires Valid() && id < |pos|
      reads this
    {
      BeforeOnBoard(columns, pos, ByColumn, id);
      Before(columns[pos[id].x], pos, ByColumn, id)
    }

    lemma GetFurthestFreePosNorthSpec(id: nat)
      requires Valid() && id < |pos|
      ensures var p := GetFurthestFreePosNorth(id);
                p.x == pos[id].x && 0 <= p.y <= pos[id].y
                && (forall j :: 0 <= j < |pos| && j != id && pos[j].x == p.x ==> pos[j].y < p.y || pos[j].y > pos[id].y)
                && (p.y == 0 || Taken(pos, Vec2(p.x, p.y - 1)))
    {
      BeforeOnBoard(columns, pos, ByColumn, id);
    }

    /** One above the object south of the rock in its column, or row h - 1. */
    function GetFurthestFreePosSouth(id: nat): Vec2
      requires Valid() && id < |pos|
      reads this
    {
      AfterOnBoard(columns, pos, ByColumn, id, h - 1);
      After(columns[pos[id].x], pos, ByColumn, id, h - 1)
    }

    lemma GetFurthestFreePosSouthSpec(id: nat)
      requires Valid() && id < |pos|
      ensures var p := GetFurthestFreePosSouth(id);
                p.x == pos[id].x && pos[id].y <= p.y <= h - 1
                && (forall j :: 0 <= j < |pos| && j != id && pos[j].x == p.x ==> pos[j].y < pos[id].y || pos[j].y > p.y)
                && (p.y == h - 1 || Taken(pos, Vec2(p.x, p.y + 1)))
    {
      AfterOnBoard(columns, pos, ByColumn, id, h - 1);
    }

    /** One right of the object west of the rock in its row, or column 0. */
    function GetFurthestFreePosWest(id: nat): Vec2
      requires Valid() && id < |pos|
      reads this
    {
      BeforeOnBoard(rows, pos, ByRow, id);
      Before(rows[pos[id].y], pos, ByRow, id)
    }

    lemma GetFurthestFreePosWestSpec(id: nat)
      requires Valid() && id < |pos|
      ensures var p := GetFurthestFreePosWest(id);
                p.y == pos[id].y && 0 <= p.x <= pos[id].x
                && (forall j :: 0 <= j < |pos| && j != id && pos[j].y == p.y ==> pos[j].x < p.x || pos[j].x > pos[id].x)
                && (p.x == 0 || Taken(pos, Vec2(p.x - 1, p.y)))
    {
      BeforeOnBoard(rows, pos, ByRow, id);
    }

    /** One left of the object east of the rock in its row, or column w - 1. */
    function GetFurthestFreePosEast(id: nat): Vec2
      requires Valid() && id < |pos|
      reads this
    {
      AfterOnBoard(rows, pos, ByRow, id, w - 1);
      After(rows[pos[id].y], pos, ByRow, id, w - 1)
    }

    lemma GetFurthestFreePosEastSpec(id: nat)
      requires Valid() && id < |pos|
      ensures var p := GetFurthestFreePosEast(id);
                p.y == pos[id].y && pos[id].x <= p.x <= w - 1
                && (forall j :: 0 <= j < |pos| && j != id && pos[j].y == p.y ==> pos[j].x < pos[id].x || pos[j].x > p.x)
                && (p.x == w - 1 || Taken(pos, Vec2(p.x + 1, p.y)))
    {
      AfterOnBoard(rows, pos, ByRow, id, w - 1);
    }

    function Furthest(d: Direction, id: nat): Vec2
      requires Valid() && id < |pos|
      reads this
    {
      match d
      case North => GetFurthestFreePosNorth(id)
      case South => GetFurthestFreePosSouth(id)
      case West => GetFurthestFreePosWest(id)
      case East => GetFurthestFreePosEast(id)
    }

    /** What a roll needs of the target cell: on the board, free, in the rock's span, no further from the edge. */
    lemma FurthestFacts(d: Direction, id: nat)
      requires Valid() && id < |pos|
      ensures var p := Furthest(d, id);
        0 <= p.x < w && 0 <= p.y < h && FreeFor(pos, id, p) && WithinSpan(pos, AxisOf(d), id, p)
        && (p == pos[id] || Dist(d, w, h, p) < Dist(d, w, h, pos[id]))
    {
      if d == North || d == West {
        BeforeFacts(d, id);
      } else {
        AfterFacts(d, id);
      }
    }

    lemma BeforeFacts(d: Direction, id: nat)
      requires Valid() && id < |pos| && (d == North || d == West)
      ensures var p := Furthest(d, id);
        0 <= p.x < w && 0 <= p.y < h && FreeFor(pos, id, p) && WithinSpan(pos, AxisOf(d), id, p)
        && (p == pos[id] || Dist(d, w, h, p) < Dist(d, w, h, pos[id]))
    {
      var a := AxisOf(d);
      var ls := LinesAlong(a);
      assert Furthest(d, id) == Before(ls[Major(pos[id], a)], pos, a, id);
      BeforeOnBoard(ls, pos, a, id);
    }

    lemma AfterFacts(d: Direction, id: nat)
      requires Valid() && id < |pos| && (d == South || d == East)
      ensures var p := Furthest(d, id);
        0 <= p.x < w && 0 <= p.y < h && FreeFor(pos, id, p) && WithinSpan(pos, AxisOf(d), id, p)
        && (p == pos[id] || Dist(d, w, h, p) < Dist(d, w, h, pos[id]))
    {
      var a := AxisOf(d);
      var ls := LinesAlong(a);
      var last := if d == South then h - 1 else w - 1;
      assert Furthest(d, id) == After(ls[Major(pos[id], a)], pos, a, id, last);
      AfterOnBoard(ls, pos, a, id, last);
    }

    /** No round rock can move further in direction `d`: where a roll stops. */
    ghost predicate Settled(d: Direction)
      requires Valid()
      reads this
    {
      forall k :: 0 <= k < |movable| ==> Furthest(d, movable[k]) == pos[movable[k]]
    }

    /** Rolled north, every column is settled along its order. */
    lemma SettledColumns()
      requires Valid() && Settled(North)
      ensures forall x :: 0 <= x < w ==> LineIdsBelow(columns[x], |pos|) && SettledAlong(columns[x], kinds, pos, ByColumn)
    {
      forall x | 0 <= x < w
        ensures LineIdsBelow(columns[x], |pos|) && SettledAlong(columns[x], kinds, pos, ByColumn)
      {
        var col := columns[x];
        assert LineOrdered(col, pos, ByColumn, x);
        forall k | 0 <= k < |col| && kinds[col[k]] == MovableRock
          ensures Minor(pos[col[k]], ByColumn) == (if k == 0 then 0 else Minor(pos[col[k - 1]], ByColumn) + 1)
        {
          var id := col[k];
          assert id in movable;
          var j :| 0 <= j < |movable| && movable[j] == id;
          assert Furthest(North, movable[j]) == pos[id];
          OrderedIndex(col, pos, ByColumn, x, k);
        }
      }
    }

    /** Settled means every round rock is at the edge or has an object right next to it in direction `d`. */
    lemma SettledMeaning(d: Direction)
      requires Valid()
      ensures Settled(d) <==> forall k :: 0 <= k < |movable| ==> Blocked(d, w, h, pos, movable[k])
    {
      forall k | 0 <= k < |movable|
        ensures Furthest(d, movable[k]) == pos[movable[k]] <==> Blocked(d, w, h, pos, movable[k])
      {
        StaysMeaning(d, movable[k]);
      }
    }

    /** A rock cannot go further in direction `d` exactly when it is blocked there. */
    lemma StaysMeaning(d: Direction, id: nat)
      requires Valid() && id < |pos|
      ensures Furthest(d, id) == pos[id] <==> Blocked(d, w, h, pos, id)
    {
      if d == North || d == West {
        BeforeStaysMeaning(d, id);
      } else {
        AfterStaysMeaning(d, id);
      }
    }

    lemma BeforeStaysMeaning(d: Direction, id: nat)
      requires Valid() && id < |pos| && (d == North || d == West)
      ensures Furthest(d, id) == pos[id] <==> Blocked(d, w, h, pos, id)
    {
      if d == North {
        assert Furthest(d, id) == Before(columns[pos[id].x], pos, ByColumn, id);
        assert Step(d, pos[id]) == Point(Major(pos[id], ByColumn), Minor(pos[id], ByColumn) - 1, ByColumn);
        BeforeStaysOnBoard(columns, pos, ByColumn, id);
      } else {
        assert Furthest(d, id) == Before(rows[pos[id].y], pos, ByRow, id);
        assert Step(d, pos[id]) == Point(Major(pos[id], ByRow), Minor(pos[id], ByRow) - 1, ByRow);
        BeforeStaysOnBoard(rows, pos, ByRow, id);
      }
    }

    lemma AfterStaysMeaning(d: Direction, id: nat)
      requires Valid() && id < |pos| && (d == South || d == East)
      ensures Furthest(d, id) == pos[id] <==> Blocked(d, w, h, pos, id)
    {
      if d == South {
        assert Furthest(d, id) == After(columns[pos[id].x], pos, ByColumn, id, h - 1);
        assert Step(d, pos[id]) == Point(Major(pos[id], ByColumn), Minor(pos[id], ByColumn) + 1, ByColumn);
        AfterStaysOnBoard(columns, pos, ByColumn, id, h - 1);
      } else {
        assert Furthest(d, id) == After(rows[pos[id].y], pos, ByRow, id, w - 1);
        assert Step(d, pos[id]) == Point(Major(pos[id], ByRow), Minor(pos[id], ByRow) + 1, ByRow);
        AfterStaysOnBoard(rows, pos, ByRow, id, w - 1);
      }
    }

    /** The north load of the round rocks. */
    ghost function Weight(): int
      reads this
    {
      WeightOf(|rows|, pos, movable)
    }

    /**
     * `move`: takes the object out of its row and column, sets its position and inserts it
     * into the new row and column before the first object beyond it.
     */
    method Move(id: nat, np: Vec2)
      requires Valid() && id < |pos|
      requires 0 <= np.x < w && 0 <= np.y < h && FreeFor(pos, id, np)
      modifies this
      ensures Valid()
      ensures pos == old(pos)[id := np]
      ensures rows == Relocate(old(rows), old(pos), ByRow, id, np)
      ensures columns == Relocate(old(columns), old(pos), ByColumn, id, np)
      ensures w == old(w) && h == old(h) && kinds == old(kinds) && movable == old(movable)
    {
      var rs := Relocate(rows, pos, ByRow, id, np);
      var cs := Relocate(columns, pos, ByColumn, id, np);
      MoveKeepsInvariant(w, h, kinds, pos, rows, columns, movable, id, np, rs, cs);
      rows, columns, pos := rs, cs, pos[id := np];
    }

    /** What moving the `i`-th round rock to its furthest free cell does, for a roll that started at `pos0`. */
    lemma MoveFacts(d: Direction, i: nat, pos0: seq<Vec2>)
      requires Valid() && i < |movable| && RolledFrom(d, w, h, kinds, pos0, pos)
      requires Furthest(d, movable[i]) != pos[movable[i]]
      ensures var id, p := movable[i], Furthest(d, movable[i]);
        0 <= p.x < w && 0 <= p.y < h && FreeFor(pos, id, p)
        && RollMeasure(d, w, h, pos[id := p], movable) < RollMeasure(d, w, h, pos, movable)
        && Relocate(LinesAlong(AxisOf(d)), pos, AxisOf(d), id, p) == LinesAlong(AxisOf(d))
        && RolledFrom(d, w, h, kinds, pos0, pos[id := p])
    {
      var id, p := movable[i], Furthest(d, movable[i]);
      FurthestFacts(d, id);
      MeasureStep(d, w, h, pos, movable, i, p);
      RelocateInPlace(LinesAlong(AxisOf(d)), pos, AxisOf(d), id, p);
      RolledStep(d, w, h, kinds, pos0, pos, id, p);
    }

    /**
     * The loop shared by `rollNorth`, `rollSouth`, `rollWest` and `rollEast`: pass over the
     * round rocks until a pass moves nothing.
     */
    method RollUntilSettled(d: Direction)
      requires Valid()
      modifies this
      ensures Valid() && Settled(d)
      ensures w == old(w) && h == old(h) && kinds == old(kinds) && movable == old(movable)
      ensures LinesAlong(AxisOf(d)) == old(LinesAlong(AxisOf(d)))
      ensures RolledFrom(d, w, h, kinds, old(pos), pos)
    {
      while true
        invariant Valid() && w == old(w) && h == old(h) && kinds == old(kinds) && movable == old(movable)
        invariant LinesAlong(AxisOf(d)) == old(LinesAlong(AxisOf(d)))
        invariant RolledFrom(d, w, h, kinds, old(pos), pos)
        decreases RollMeasure(d, w, h, pos, movable)
      {
        MeasureNonNegative(d, w, h, pos, movable);
        ghost var pos1 := pos;
        var moved := RollPass(d);
        RolledTrans(d, w, h, kinds, old(pos), pos1, pos);
        if !moved {
          break;
        }
      }
    }

    /** One pass of a roll: each round rock in turn goes to its furthest free cell. */
    method RollPass(d: Direction) returns (moved: bool)
      requires Valid()
      modifies this
      ensures Valid() && w == old(w) && h == old(h) && kinds == old(kinds) && movable == old(movable)
      ensures LinesAlong(AxisOf(d)) == old(LinesAlong(AxisOf(d)))
      ensures RolledFrom(d, w, h, kinds, old(pos), pos)
      ensures moved ==> RollMeasure(d, w, h, pos, movable) < old(RollMeasure(d, w, h, pos, movable))
      ensures !moved ==> pos == old(pos) && rows == old(rows) && columns == old(columns) && Settled(d)
    {
      ghost var pos0, rows0, columns0, lines0 := pos, rows, columns, LinesAlong(AxisOf(d));
      ghost var measure0 := RollMeasure(d, w, h, pos, movable);
      moved := false;
      for i := 0 to |movable|
        invariant Valid() && w == old(w) && h == old(h) && kinds == old(kinds) && movable == old(movable)
        invariant LinesAlong(AxisOf(d)) == lines0
        invariant RolledFrom(d, w, h, kinds, pos0, pos)
        invariant RollMeasure(d, w, h, pos, movable) <= measure0
        invariant moved ==> RollMeasure(d, w, h, pos, movable) < measure0
        invariant !moved ==> pos == pos0 && rows == rows0 && columns == columns0
        invariant !moved ==> forall k :: 0 <= k < i ==> Blocked(d, w, h, pos, movable[k])
      {
        var movedIt := RollRock(d, i, pos0);
        moved := moved || movedIt;
      }
      if !moved {
        SettledMeaning(d);
      }
    }

    /** The body of a pass: move the `i`-th round rock to its furthest free cell if that is not where it is. */
    method RollRock(d: Direction, i: nat, ghost pos0: seq<Vec2>) returns (movedIt: bool)
      requires Valid() && i < |movable| && RolledFrom(d, w, h, kinds, pos0, pos)
      modifies this
      ensures Valid() && w == old(w) && h == old(h) && kinds == old(kinds) && movable == old(movable)
      ensures LinesAlong(AxisOf(d)) == old(LinesAlong(AxisOf(d)))
      ensures RolledFrom(d, w, h, kinds, pos0, pos)
      ensures movedIt ==> RollMeasure(d, w, h, pos, movable) < old(RollMeasure(d, w, h, pos, movable))
      ensures !movedIt ==> pos == old(pos) && rows == old(rows) && columns == old(columns)
                           && Blocked(d, w, h, pos, movable[i])
    {
      var id := movable[i];
      var p := Furthest(d, id);
      movedIt := false;
      StaysMeaning(d, id);
      if p != pos[id] {
        MoveFacts(d, i, pos0);
        movedIt := true;
        Move(id, p);
      }
    }

    /** `rollNorth`: every round rock goes as far north as it can; only y coordinates change. */
    method RollNorth()
      requires Valid()
      modifies this
      ensures Valid() && Settled(North)
      ensures w == old(w) && h == old(h) && kinds == old(kinds) && movable == old(movable)
      ensures columns == old(columns)
      ensures forall id :: 0 <= id < |pos| ==> pos[id].x == old(pos)[id].x && pos[id].y <= old(pos)[id].y
      ensures forall id :: 0 <= id < |pos| && kinds[id] == FixedRock ==> pos[id] == old(pos)[id]
      ensures Weight() >= old(Weight())
    {
      RollUntilSettled(North);
      WeightMonotone(|rows|, old(pos), pos, movable);
    }

    /** `rollSouth`: every round rock goes as far south as it can; only y coordinates change. */
    method RollSouth()
      requires Valid()
      modifies this
      ensures Valid() && Settled(South)
      ensures w == old(w) && h == old(h) && kinds == old(kinds) && movable == old(movable)
      ensures columns == old(columns)
      ensures forall id :: 0 <= id < |pos| ==> pos[id].x == old(pos)[id].x && pos[id].y >= old(pos)[id].y
      ensures forall id :: 0 <= id < |pos| && kinds[id] == FixedRock ==> pos[id] == old(pos)[id]
    {
      RollUntilSettled(South);
    }

    /** `rollWest`: every round rock goes as far west as it can; only x coordinates change. */
    method RollWest()
      requires Valid()
      modifies this
      ensures Valid() && Settled(West)
      ensures w == old(w) && h == old(h) && kinds == old(kinds) && movable == old(movable)
      ensures rows == old(rows)
      ensures forall id :: 0 <= id < |pos| ==> pos[id].y == old(pos)[id].y && pos[id].x <= old(pos)[id].x
      ensures forall id :: 0 <= id < |pos| && kinds[id] == FixedRock ==> pos[id] == old(pos)[id]
    {
      RollUntilSettled(West);
    }

    /** `rollEast`: every round rock goes as far east as it can; only x coordinates change. */
    method RollEast()
      requires Valid()
      modifies this
      ensures Valid() && Settled(East)
      ensures w == old(w) && h == old(h) && kinds == old(kinds) && movable == old(movable)
      ensures rows == old(rows)
      ensures forall id :: 0 <= id < |pos| ==> pos[id].y == old(pos)[id].y && pos[id].x >= old(pos)[id].x
      ensures forall id :: 0 <= id < |pos| && kinds[id] == FixedRock ==> pos[id] == old(pos)[id]
    {
      RollUntilSettled(East);
    }

    /** `roll(direction)`: the roll of that direction. */
    method Roll(d: Direction)
      requires Valid()
      modifies this
      ensures Valid() && Settled(d)
      ensures w == old(w) && h == old(h) && kinds == old(kinds) && movable == old(movable)
      ensures LinesAlong(AxisOf(d)) == old(LinesAlong(AxisOf(d)))
      ensures RolledFrom(d, w, h, kinds, old(pos), pos)
    {
      match d
      case North => RollNorth();
      case South => RollSouth();
      case West => RollWest();
      case East => RollEast();
    }

    /** `spinCycle`: roll north, west, south and east, in that order; the cube rocks stay where they were. */
    method SpinCycle()
      requires Valid()
      modifies this
      ensures Valid() && Settled(East)
      ensures w == old(w) && h == old(h) && kinds == old(kinds) && movable == old(movable)
      ensures forall id :: 0 <= id < |pos| && kinds[id] == FixedRock ==> pos[id] == old(pos)[id]
    {
      Roll(North);
      Roll(West);
      Roll(South);
      Roll(East);
    }

    /** `getWeight`: the sum over the round rocks of the number of rows minus their y. */
    method GetWeight() returns (weight: int)
      requires Valid()
      ensures weight == Weight()
    {
      weight := 0;
      for k := 0 to |movable|
        invariant weight == WeightOf(|rows|, pos, movable[..k])
      {
        var id := movable[k];
        assert movable[..k + 1][..k] == movable[..k];
        weight := weight + (|rows| - pos[id].y);
      }
      assert movable[..|movable|] == movable;
    }

    /** Each round rock weighs between 1 and h. */
    lemma WeightBounds()
      requires Valid()
      ensures |movable| <= Weight() <= h * |movable|
    {
      WeightBoundsOf(h, pos, movable);
    }

    /**
     * On a board already rolled north, rolling south and then north again gives back the same
     * rendering: the columns keep their order and the cube rocks their cells, and a rolled
     * column is fixed by its order.
     */
    method RollSouthThenNorth()
      requires Valid() && Settled(North)
      modifies this
      ensures Valid() && Settled(North) && Render() == old(Render())
    {
      ghost var pos0, rows0, columns0 := pos, rows, columns;
      SettledColumns();
      RollSouth();
      RollNorth();
      SettledColumns();
      ColumnsSettledUnique(kinds, pos0, pos, columns);
      RenderDetermined(w, h, kinds, pos, rows0, columns0, movable, rows, columns, movable);
    }
  }
}
