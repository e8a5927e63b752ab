/**
 * Day 22: sand bricks that fall through z-layers until each rests on the ground or on another brick,
 * and the count of bricks that could be taken away without letting another one fall.
 *
 * A brick is a box of unit cells between two corners. The map keeps one layer of tiles per height;
 * a tile names the brick that occupies it. Bricks are held in a sequence and tiles refer to them
 * by their position in it, where the source shares the brick objects themselves.
 */
module Day22Bricks {
  import opened Wrappers
  import opened Strings
  import opened Lists
  import opened Sorting

  datatype Vec3 = Vec3(x: int, y: int, z: int)

  datatype Brick = Brick(name: string, start: Vec3, end: Vec3)

  /** `Brick.__eq__`: two bricks are the same brick when their names agree, whatever their corners. */
  predicate Same(a: Brick, b: Brick)
  {
    a.name == b.name
  }

  /** The brick's box holds cell `c`. */
  predicate Covers(b: Brick, c: Vec3)
  {
    b.start.x <= c.x <= b.end.x && b.start.y <= c.y <= b.end.y && b.start.z <= c.z <= b.end.z
  }

  /** The number of integers in `range(lo, hi + 1)`. */
  function Span(lo: int, hi: int): nat
  {
    if hi < lo then 0 else hi - lo + 1
  }

  // ---------------------------------------------------------------- coords

  /** The cells (x, y, z) for z in `range(lo, hi)`, in increasing z. */
  function ZRun(x: int, y: int, lo: int, hi: int): seq<Vec3>
    decreases hi - lo
  {
    if hi <= lo then [] else ZRun(x, y, lo, hi - 1) + [Vec3(x, y, hi - 1)]
  }

  /** The cells of column x for y in `range(lo, hi)`, each row of z innermost. */
  function YRun(b: Brick, x: int, lo: int, hi: int): seq<Vec3>
    decreases hi - lo
  {
    if hi <= lo then [] else YRun(b, x, lo, hi - 1) + ZRun(x, hi - 1, b.start.z, b.end.z + 1)
  }

  /** The cells for x in `range(lo, hi)`, x outermost. */
  function XRun(b: Brick, lo: int, hi: int): seq<Vec3>
    decreases hi - lo
  {
    if hi <= lo then [] else XRun(b, lo, hi - 1) + YRun(b, hi - 1, b.start.y, b.end.y + 1)
  }

  /** The cells `coords` lists: x outermost, then y, then z. */
  function Cells(b: Brick): seq<Vec3>
  {
    XRun(b, b.start.x, b.end.x + 1)
  }

  /** Cells in the order `coords` visits them: by x, then y, then z. */
  predicate Before(a: Vec3, b: Vec3)
  {
    a.x < b.x || (a.x == b.x && (a.y < b.y || (a.y == b.y && a.z < b.z)))
  }

  predicate Increasing(s: seq<Vec3>)
  {
    forall i, j :: 0 <= i < j < |s| ==> Before(s[i], s[j])
  }

  lemma IncreasingAppend(a: seq<Vec3>, b: seq<Vec3>)
    requires Increasing(a) && Increasing(b)
    requires forall i, j :: 0 <= i < |a| && 0 <= j < |b| ==> Before(a[i], b[j])
    ensures Increasing(a + b)
  {
  }

  /** Appending one more block of `n` cells to `k` blocks gives `k + 1` blocks. */
  lemma MoreBlocks(k: nat, n: nat, a: nat, b: nat)
    requires a == k * n && b == n
    ensures a + b == (k + 1) * n
  {
  }

  /** Every cell of an earlier row of column x comes before every cell of row y. */
  lemma RowsBefore(a: seq<Vec3>, b: seq<Vec3>, x: int, y: int)
    requires forall c :: c in a ==> c.x == x && c.y < y
    requires forall c :: c in b ==> c.x == x && c.y == y
    ensures forall i, j :: 0 <= i < |a| && 0 <= j < |b| ==> Before(a[i], b[j])
  {
    forall i, j | 0 <= i < |a| && 0 <= j < |b| ensures Before(a[i], b[j]) {
      assert a[i] in a && b[j] in b;
    }
  }

  /** Every cell of an earlier column comes before every cell of column x. */
  lemma ColumnsBefore(a: seq<Vec3>, b: seq<Vec3>, x: int)
    requires forall c :: c in a ==> c.x < x
    requires forall c :: c in b ==> c.x == x
    ensures forall i, j :: 0 <= i < |a| && 0 <= j < |b| ==> Before(a[i], b[j])
  {
    forall i, j | 0 <= i < |a| && 0 <= j < |b| ensures Before(a[i], b[j]) {
      assert a[i] in a && b[j] in b;
    }
  }

  lemma {:induction false} ZRunLength(x: int, y: int, lo: int, hi: int)
    ensures |ZRun(x, y, lo, hi)| == Span(lo, hi - 1)
    decreases hi - lo
  {
    if hi > lo {
      ZRunLength(x, y, lo, hi - 1);
    }
  }

  lemma {:induction false} ZRunMembers(x: int, y: int, lo: int, hi: int)
    ensures forall c :: c in ZRun(x, y, lo, hi) <==> c.x == x && c.y == y && lo <= c.z < hi
    decreases hi - lo
  {
    if hi > lo {
      ZRunMembers(x, y, lo, hi - 1);
    }
  }

  lemma {:induction false} ZRunIncreasing(x: int, y: int, lo: int, hi: int)
    ensures Increasing(ZRun(x, y, lo, hi))
    decreases hi - lo
  {
    if hi > lo {
      ZRunIncreasing(x, y, lo, hi - 1);
      ZRunMembers(x, y, lo, hi - 1);
      var a := ZRun(x, y, lo, hi - 1);
      assert forall i :: 0 <= i < |a| ==> Before(a[i], Vec3(x, y, hi - 1)) by {
        forall i | 0 <= i < |a| ensures Before(a[i], Vec3(x, y, hi - 1)) { assert a[i] in a; }
      }
      IncreasingAppend(a, [Vec3(x, y, hi - 1)]);
    }
  }

  lemma {:induction false} YRunLength(b: Brick, x: int, lo: int, hi: int)
    ensures |YRun(b, x, lo, hi)| == Span(lo, hi - 1) * Span(b.start.z, b.end.z)
    decreases hi - lo
  {
    if hi > lo {
      YRunLength(b, x, lo, hi - 1);
      ZRunLength(x, hi - 1, b.start.z, b.end.z + 1);
      MoreBlocks(Span(lo, hi - 2), Span(b.start.z, b.end.z), |YRun(b, x, lo, hi - 1)|, |ZRun(x, hi - 1, b.start.z, b.end.z + 1)|);
    }
  }

  lemma {:induction false} YRunMembers(b: Brick, x: int, lo: int, hi: int)
    ensures forall c :: c in YRun(b, x, lo, hi) <==> c.x == x && lo <= c.y < hi && b.start.z <= c.z <= b.end.z
    decreases hi - lo
  {
    if hi > lo {
      YRunMembers(b, x, lo, hi - 1);
      ZRunMembers(x, hi - 1, b.start.z, b.end.z + 1);
    }
  }

  lemma {:induction false} YRunIncreasing(b: Brick, x: int, lo: int, hi: int)
    ensures Increasing(YRun(b, x, lo, hi))
    decreases hi - lo
  {
    if hi > lo {
      var a, z := YRun(b, x, lo, hi - 1), ZRun(x, hi - 1, b.start.z, b.end.z + 1);
      YRunIncreasing(b, x, lo, hi - 1);
      YRunMembers(b, x, lo, hi - 1);
      ZRunIncreasing(x, hi - 1, b.start.z, b.end.z + 1);
      ZRunMembers(x, hi - 1, b.start.z, b.end.z + 1);
      RowsBefore(a, z, x, hi - 1);
      IncreasingAppend(a, z);
    }
  }

  lemma {:induction false} XRunLength(b: Brick, lo: int, hi: int)
    ensures |XRun(b, lo, hi)| == Span(lo, hi - 1) * (Span(b.start.y, b.end.y) * Span(b.start.z, b.end.z))
    decreases hi - lo
  {
    if hi > lo {
      XRunLength(b, lo, hi - 1);
      YRunLength(b, hi - 1, b.start.y, b.end.y + 1);
      MoreBlocks(Span(lo, hi - 2), Span(b.start.y, b.end.y) * Span(b.start.z, b.end.z), |XRun(b, lo, hi - 1)|, |YRun(b, hi - 1, b.start.y, b.end.y + 1)|);
    }
  }

  lemma {:induction false} XRunMembers(b: Brick, lo: int, hi: int)
    ensures forall c :: c in XRun(b, lo, hi) <==> lo <= c.x < hi && b.start.y <= c.y <= b.end.y && b.start.z <= c.z <= b.end.z
    decreases hi - lo
  {
    if hi > lo {
      XRunMembers(b, lo, hi - 1);
      YRunMembers(b, hi - 1, b.start.y, b.end.y + 1);
    }
  }

  lemma {:induction false} XRunIncreasing(b: Brick, lo: int, hi: int)
    ensures Increasing(XRun(b, lo, hi))
    decreases hi - lo
  {
    if hi > lo {
      var a, r := XRun(b, lo, hi - 1), YRun(b, hi - 1, b.start.y, b.end.y + 1);
      XRunIncreasing(b, lo, hi - 1);
      XRunMembers(b, lo, hi - 1);
      YRunIncreasing(b, hi - 1, b.start.y, b.end.y + 1);
      YRunMembers(b, hi - 1, b.start.y, b.end.y + 1);
      ColumnsBefore(a, r, hi - 1);
      IncreasingAppend(a, r);
    }
  }

  /** `coords` lists (Δx+1)(Δy+1)(Δz+1) cells. */
  lemma CellsLength(b: Brick)
    ensures |Cells(b)| == Span(b.start.x, b.end.x) * Span(b.start.y, b.end.y) * Span(b.start.z, b.end.z)
  {
    XRunLength(b, b.start.x, b.end.x + 1);
    var p, q, r := Span(b.start.x, b.end.x), Span(b.start.y, b.end.y), Span(b.start.z, b.end.z);
    assert p * (q * r) == p * q * r;
  }

  /** `coords` lists exactly the cells of the box. */
  lemma CellsMembers(b: Brick)
    ensures forall c :: c in Cells(b) <==> Covers(b, c)
  {
    XRunMembers(b, b.start.x, b.end.x + 1);
  }

  /** `coords` lists each cell once, x outermost and z innermost. */
  lemma CellsIncreasing(b: Brick)
    ensures Increasing(Cells(b))
  {
    XRunIncreasing(b, b.start.x, b.end.x + 1);
  }

  /** The vertical brick of the example lists z = 0, 1, 2 at (0, 0). */
  lemma VerticalCells()
    ensures Cells(Brick("example", Vec3(0, 0, 0), Vec3(0, 0, 2))) == [Vec3(0, 0, 0), Vec3(0, 0, 1), Vec3(0, 0, 2)]
  {
    var b := Brick("example", Vec3(0, 0, 0), Vec3(0, 0, 2));
    assert ZRun(0, 0, 0, 3) == [Vec3(0, 0, 0), Vec3(0, 0, 1), Vec3(0, 0, 2)] by {
      assert ZRun(0, 0, 0, 1) == [Vec3(0, 0, 0)];
    }
    assert YRun(b, 0, 0, 1) == ZRun(0, 0, 0, 3);
    assert XRun(b, 0, 1) == YRun(b, 0, 0, 1);
  }

  /** `Brick.coords`: three nested loops appending each cell, with Python's `range` (empty when the end is below the start). */
  method Coords(b: Brick) returns (coords: seq<Vec3>)
    ensures coords == Cells(b)
  {
    coords := [];
    var x := b.start.x;
    while x < b.end.x + 1
      invariant b.start.x <= x && (x <= b.end.x + 1 || x == b.start.x)
      invariant coords == XRun(b, b.start.x, x)
      decreases b.end.x + 1 - x
    {
      ghost var columns := coords;
      var y := b.start.y;
      while y < b.end.y + 1
        invariant b.start.y <= y && (y <= b.end.y + 1 || y == b.start.y)
        invariant coords == columns + YRun(b, x, b.start.y, y)
        decreases b.end.y + 1 - y
      {
        ghost var rows := coords;
        var z := b.start.z;
        while z < b.end.z + 1
          invariant b.start.z <= z && (z <= b.end.z + 1 || z == b.start.z)
          invariant coords == rows + ZRun(x, y, b.start.z, z)
          decreases b.end.z + 1 - z
        {
          coords := coords + [Vec3(x, y, z)];
          z := z + 1;
        }
        y := y + 1;
      }
      x := x + 1;
    }
  }

  // ---------------------------------------------------------------- reading

  /** `int(parts[k])`: an `IndexError` when the part is missing, a `ValueError` when it is not a number. */
  function ReadPart(parts: seq<string>, k: nat): (r: Result<int>)
    ensures r.Ok? <==> k < |parts| && ParseInt(parts[k]).Some?
    ensures r.Ok? ==> ParseInt(parts[k]) == Some(r.value)
  {
    if k >= |parts| then Err("IndexError")
    else match ParseInt(parts[k])
      case Some(v) => Ok(v)
      case None => Err("ValueError")
  }

  /** `Vec3(int(c[0]), int(c[1]), int(c[2]))`, evaluated left to right; parts after the third are ignored. */
  function ReadCorner(parts: seq<string>): (r: Result<Vec3>)
    ensures r.Ok? <==> |parts| >= 3 && ReadPart(parts, 0).Ok? && ReadPart(parts, 1).Ok? && ReadPart(parts, 2).Ok?
    ensures r.Ok? ==> r.value == Vec3(ReadPart(parts, 0).value, ReadPart(parts, 1).value, ReadPart(parts, 2).value)
  {
    match ReadPart(parts, 0)
    case Err(e) => Err(e)
    case Ok(x) =>
      match ReadPart(parts, 1)
      case Err(e) => Err(e)
      case Ok(y) =>
        match ReadPart(parts, 2)
        case Err(e) => Err(e)
        case Ok(z) => Ok(Vec3(x, y, z))
  }

  /** `readBrick`: two corners around one `~`, named after the line's position. */
  function ReadBrick(line: string, i: nat): (r: Result<Brick>)
    ensures r.Ok? ==> |SplitOn(line, '~')| == 2 && r.value.name == NatToString(i)
    ensures |SplitOn(line, '~')| != 2 ==> r == Err("ValueError")
  {
    var halves := SplitOn(line, '~');
    if |halves| != 2 then Err("ValueError")
    else
      match ReadCorner(SplitOn(halves[0], ','))
      case Err(e) => Err(e)
      case Ok(start) =>
        match ReadCorner(SplitOn(halves[1], ','))
        case Err(e) => Err(e)
        case Ok(end) => Ok(Brick(NatToString(i), start, end))
  }

  /** `readBricks`: `[readBrick(line, i) for i, line in enumerate(lines)]`. */
  function ReadBricks(lines: seq<string>): (r: Result<seq<Brick>>)
    ensures r.Ok? <==> forall k :: 0 <= k < |lines| ==> ReadBrick(lines[k], k).Ok?
    ensures r.Ok? ==> |r.value| == |lines| && forall k :: 0 <= k < |lines| ==> ReadBrick(lines[k], k) == Ok(r.value[k])
  {
    MapIndexed(lines, |lines|, ReadBrick)
  }

  /** The bricks read from the lines are all different bricks: `==` holds only between a brick and itself. */
  lemma ReadBricksDistinct(lines: seq<string>, bs: seq<Brick>)
    requires ReadBricks(lines) == Ok(bs)
    ensures forall i, j :: 0 <= i < |bs| && 0 <= j < |bs| ==> (Same(bs[i], bs[j]) <==> i == j)
  {
    forall i, j | 0 <= i < |bs| && 0 <= j < |bs| && Same(bs[i], bs[j]) ensures i == j {
      assert ReadBrick(lines[i], i) == Ok(bs[i]) && ReadBrick(lines[j], j) == Ok(bs[j]);
      NatToStringRoundTrip(i);
      NatToStringRoundTrip(j);
    }
  }

  /** A corner written as `x,y,z`. */
  function CornerText(v: Vec3): string
  {
    Join([IntToString(v.x), IntToString(v.y), IntToString(v.z)], ",")
  }

  /** A brick written as in the puzzle input: `x,y,z~x,y,z`. */
  function BrickText(b: Brick): string
  {
    CornerText(b.start) + "~" + CornerText(b.end)
  }

  /** A number's text holds neither `,` nor `~`. */
  lemma IntTextPlain(v: int)
    ensures forall i :: 0 <= i < |IntToString(v)| ==> IntToString(v)[i] != ',' && IntToString(v)[i] != '~'
  {
    forall i | 0 <= i < |IntToString(v)| ensures IntToString(v)[i] != ',' && IntToString(v)[i] != '~' {
      if v < 0 {
        if i > 0 { assert IntToString(v)[i] == NatToString(-v)[i - 1]; }
      }
    }
  }

  /** A written corner splits at `,` into its three numbers and has no `~`. */
  lemma CornerParts(v: Vec3)
    ensures SplitOn(CornerText(v), ',') == [IntToString(v.x), IntToString(v.y), IntToString(v.z)]
    ensures forall i :: 0 <= i < |CornerText(v)| ==> CornerText(v)[i] != '~'
  {
    var ps := [IntToString(v.x), IntToString(v.y), IntToString(v.z)];
    IntTextPlain(v.x);
    IntTextPlain(v.y);
    IntTextPlain(v.z);
    SplitOnJoin(ps, ',');
    JoinChars(ps, ",", '~');
  }

  /** A written corner reads back as the corner. */
  lemma ReadCornerText(v: Vec3)
    ensures ReadCorner(SplitOn(CornerText(v), ',')) == Ok(v)
  {
    CornerParts(v);
    IntToStringRoundTrip(v.x);
    IntToStringRoundTrip(v.y);
    IntToStringRoundTrip(v.z);
  }

  /** `readBrick` in terms of its steps: the split at `~` and the two corners. */
  lemma ReadBrickOf(line: string, i: nat, first: string, second: string, start: Vec3, end: Vec3)
    requires SplitOn(line, '~') == [first, second]
    requires ReadCorner(SplitOn(first, ',')) == Ok(start) && ReadCorner(SplitOn(second, ',')) == Ok(end)
    ensures ReadBrick(line, i) == Ok(Brick(NatToString(i), start, end))
  {
  }

  /** `readBrick` reads a written brick back: its corners, named after the line's position. */
  lemma ReadBrickText(b: Brick, i: nat)
    ensures ReadBrick(BrickText(b), i) == Ok(Brick(NatToString(i), b.start, b.end))
  {
    BrickHalves(b);
    ReadCornerText(b.start);
    ReadCornerText(b.end);
    ReadBrickOf(BrickText(b), i, CornerText(b.start), CornerText(b.end), b.start, b.end);
  }

  /** A written brick splits at `~` into its two corners' texts. */
  lemma BrickHalves(b: Brick)
    ensures SplitOn(BrickText(b), '~') == [CornerText(b.start), CornerText(b.end)]
  {
    var first, second := CornerText(b.start), CornerText(b.end);
    CornerParts(b.start);
    CornerParts(b.end);
    SplitOnJoin([first, second], '~');
    assert Join([first, second], "~") == BrickText(b);
  }
}
