/**
 * Day 10, second half (10/mypipes.py): the map at double resolution, its regions of
 * non-loop fields, and the test whether a region is enclosed by the loop.
 *
 * Every field of the source map gets three companions: a connector below it, a connector to
 * its right and a filler diagonally below-right. A connector lies on the loop when the field
 * it hangs off is a loop pipe leaving in its direction, so that the gaps between adjacent
 * parallel pipes become passable fields. Python's object fields become datatype values; the
 * positions the constructor writes into every field make them pairwise distinct, so value
 * equality stands for the source's membership tests.
 */
module Day10Regions {
  import opened Wrappers
  import opened Geometry
  import opened Day10Pipes

  /** `AugmentedField`: on the loop, added by the augmentation, the symbol, and the position once set. */
  datatype AugField = AugField(isMainLoop: bool, isPseudo: bool, symbol: char, pos: Option<Vec2>)

  type AugGrid = seq<seq<AugField>>

  /** A passable pseudo field. */
  const Filler := AugField(false, true, '.', None)

  /** A field of the source map, carried over with its loop flag and symbol. */
  function Copied(f: Field): AugField
  {
    AugField(f.isMainLoop, false, f.symbol, None)
  }

  /** The connector below a field: on the loop iff the field is a loop pipe that goes south. */
  function Below(f: Field): AugField
  {
    if f.isMainLoop && f.symbol in "|7F" then AugField(true, true, '|', None) else Filler
  }

  /** The connector right of a field: on the loop iff the field is a loop pipe that goes east. */
  function Beside(a: AugField): AugField
  {
    if a.isMainLoop && a.symbol in "-LF" then AugField(true, true, '-', None) else Filler
  }

  // ------------------------------------------------------------ the three passes

  /** After the row pass, row 2y holds the copies of row y and row 2y+1 its south connectors. */
  function RowPass(g: Grid, y: nat): (r: seq<AugField>)
    requires y < 2 * |g|
  {
    var row := g[y / 2];
    if y % 2 == 0 then seq(|row|, x requires 0 <= x < |row| => Copied(row[x]))
    else seq(|row|, x requires 0 <= x < |row| => Below(row[x]))
  }

  function Interleaved(g: Grid): AugGrid
  {
    seq(2 * |g|, y requires 0 <= y < 2 * |g| => RowPass(g, y))
  }

  /** The row pass (first loop of the constructor): two rows per row of the source map. */
  method BuildRows(g: Grid) returns (res: AugGrid)
    ensures res == Interleaved(g)
  {
    res := [];
    for y := 0 to |g|
      invariant |res| == 2 * y && forall k :: 0 <= k < 2 * y ==> res[k] == RowPass(g, k)
    {
      var row := g[y];
      var resRow: seq<AugField> := [];
      for x := 0 to |row|
        invariant |resRow| == x && forall i :: 0 <= i < x ==> resRow[i] == Copied(row[i])
      {
        resRow := resRow + [Copied(row[x])];
      }
      var augmentedRow: seq<AugField> := [];
      for x := 0 to |row|
        invariant |augmentedRow| == x && forall i :: 0 <= i < x ==> augmentedRow[i] == Below(row[i])
      {
        if resRow[x].isMainLoop && resRow[x].symbol in "|7F" {
          augmentedRow := augmentedRow + [AugField(true, true, '|', None)];
        } else {
          augmentedRow := augmentedRow + [Filler];
        }
      }
      assert resRow == RowPass(g, 2 * y);
      assert augmentedRow == RowPass(g, 2 * y + 1);
      res := res + [resRow, augmentedRow];
    }
  }

  /** Row `y` after the column pass over the first `n` columns: each field followed by its east connector, a filler in connector rows. */
  function WideRow(row: seq<AugField>, odd: bool, n: nat): (r: seq<AugField>)
    requires n <= |row|
  {
    seq(2 * n, c requires 0 <= c < 2 * n => if c % 2 == 0 then row[c / 2] else if odd then Filler else Beside(row[c / 2]))
  }

  lemma WideRowSnoc(row: seq<AugField>, odd: bool, n: nat)
    requires n < |row|
    ensures WideRow(row, odd, n + 1) == WideRow(row, odd, n) + [row[n], if odd then Filler else Beside(row[n])]
  {
    var a, b := WideRow(row, odd, n + 1), WideRow(row, odd, n) + [row[n], if odd then Filler else Beside(row[n])];
    forall c | 0 <= c < 2 * n + 2 ensures a[c] == b[c] {
      if c < 2 * n { assert b[c] == WideRow(row, odd, n)[c]; }
    }
  }

  /**
   * The column pass: the width is that of the first row; an empty grid, or a row shorter than
   * the first, raises IndexError. Longer rows lose their extra fields.
   */
  function Widened(res: AugGrid): Result<AugGrid>
  {
    if |res| == 0 then Err("IndexError")
    else if exists y :: 0 <= y < |res| && |res[y]| < |res[0]| then Err("IndexError")
    else Ok(seq(|res|, y requires 0 <= y < |res| => WideRow(res[y], y % 2 == 1, |res[0]|)))
  }

  /** The column pass (second loop of the constructor): a column of east connectors after every column. */
  method BuildColumns(res: AugGrid) returns (r: Result<AugGrid>)
    ensures r == Widened(res)
  {
    if |res| == 0 {
      return Err("IndexError");
    }
    var w := |res[0]|;
    var res2: AugGrid := [];
    for y := 0 to |res|
      invariant |res2| == y && forall k :: 0 <= k < y ==> res2[k] == []
    {
      res2 := res2 + [[]];
    }
    for x := 0 to w
      invariant |res2| == |res|
      invariant forall k :: 0 <= k < |res| ==> x <= |res[k]| && res2[k] == WideRow(res[k], k % 2 == 1, x)
    {
      var column := ReadColumn(res, x);
      if column.Err? {
        return Err("IndexError");
      }
      var augmentedColumn := EastConnectors(column.value);
      for y := 0 to |res|
        invariant |res2| == |res|
        invariant forall k :: 0 <= k < |res| ==> res2[k] == WideRow(res[k], k % 2 == 1, if k < y then x + 1 else x)
      {
        WideRowSnoc(res[y], y % 2 == 1, x);
        res2 := res2[y := res2[y] + [res[y][x], augmentedColumn[y]]];
      }
    }
    assert forall k :: 0 <= k < |res| ==> |res[k]| >= w;
    assert res2 == seq(|res|, y requires 0 <= y < |res| => WideRow(res[y], y % 2 == 1, w));
    return Ok(res2);
  }

  /** `[r[x] for r in res]`: column `x`, or IndexError when some row is too short. */
  method ReadColumn(res: AugGrid, x: nat) returns (r: Result<seq<AugField>>)
    ensures r.Err? <==> exists k :: 0 <= k < |res| && x >= |res[k]|
    ensures r.Ok? ==> |r.value| == |res| && forall k :: 0 <= k < |res| ==> r.value[k] == res[k][x]
  {
    var column: seq<AugField> := [];
    for y := 0 to |res|
      invariant |column| == y && forall k :: 0 <= k < y ==> x < |res[k]| && column[k] == res[k][x]
    {
      if x >= |res[y]| {
        return Err("IndexError");
      }
      column := column + [res[y][x]];
    }
    return Ok(column);
  }

  /** The east connectors of a column: fillers in connector rows, otherwise on the loop iff the field is a loop pipe going east. */
  method EastConnectors(column: seq<AugField>) returns (augmentedColumn: seq<AugField>)
    ensures |augmentedColumn| == |column|
    ensures forall k :: 0 <= k < |column| ==> augmentedColumn[k] == if k % 2 == 1 then Filler else Beside(column[k])
  {
    augmentedColumn := [];
    for y := 0 to |column|
      invariant |augmentedColumn| == y
      invariant forall k :: 0 <= k < y ==> augmentedColumn[k] == if k % 2 == 1 then Filler else Beside(column[k])
    {
      if y % 2 == 1 {
        augmentedColumn := augmentedColumn + [Filler];
      } else if column[y].isMainLoop && column[y].symbol in "-LF" {
        augmentedColumn := augmentedColumn + [AugField(true, true, '-', None)];
      } else {
        augmentedColumn := augmentedColumn + [Filler];
      }
    }
  }

  /** Every field of the grid holds its own position. */
  function Placed(fs: AugGrid): (r: AugGrid)
  {
    seq(|fs|, y requires 0 <= y < |fs| => seq(|fs[y]|, x requires 0 <= x < |fs[y]| => fs[y][x].(pos := Some(Vec2(x, y)))))
  }

  /** The position pass (last loop of the constructor): every field is told its coordinates. */
  method SetPositions(fs: AugGrid) returns (r: AugGrid)
    ensures r == Placed(fs)
  {
    r := fs;
    for y := 0 to |fs|
      invariant |r| == |fs|
      invariant forall k :: 0 <= k < |fs| ==> r[k] == if k < y then Placed(fs)[k] else fs[k]
    {
      var row := r[y];
      for x := 0 to |row|
        invariant |row| == |fs[y]|
        invariant forall i :: 0 <= i < |row| ==> row[i] == if i < x then fs[y][i].(pos := Some(Vec2(i, y))) else fs[y][i]
      {
        row := row[x := row[x].(pos := Some(Vec2(x, y)))];
      }
      r := r[y := row];
    }
  }

  /** `AugmentedMap(m)`: the three passes over the fields of `m`. */
  function AugmentedOf(g: Grid): Result<AugGrid>
  {
    match Widened(Interleaved(g))
    case Err(e) => Err(e)
    case Ok(w) => Ok(Placed(w))
  }

  /** The constructor of `AugmentedMap`, building the doubled grid in its three passes. */
  method Augment(g: Grid) returns (r: Result<AugGrid>)
    ensures r == AugmentedOf(g)
  {
    var res := BuildRows(g);
    var widened := BuildColumns(res);
    match widened
    case Err(e) => r := Err(e);
    case Ok(w) =>
      var placed := SetPositions(w);
      r := Ok(placed);
  }

  // ------------------------------------------------------------ the layout

  /** The constructor fails exactly on an empty map or a row shorter than the first. */
  lemma AugmentedFails(g: Grid)
    ensures AugmentedOf(g).Err? <==> |g| == 0 || exists y :: 0 <= y < |g| && |g[y]| < |g[0]|
  {
    var res := Interleaved(g);
    if |g| > 0 {
      if exists y :: 0 <= y < |g| && |g[y]| < |g[0]| {
        var y :| 0 <= y < |g| && |g[y]| < |g[0]|;
        assert |res[2 * y]| < |res[0]|;
      }
      if exists k :: 0 <= k < |res| && |res[k]| < |res[0]| {
        var k :| 0 <= k < |res| && |res[k]| < |res[0]|;
        assert |g[k / 2]| < |g[0]|;
      }
    }
  }

  /** The doubled map is 2H rows of 2W fields, W the width of the first row, and each field holds its coordinates. */
  lemma AugmentedShape(g: Grid, fs: AugGrid)
    requires AugmentedOf(g) == Ok(fs)
    ensures |g| > 0 && |fs| == 2 * |g|
    ensures forall y :: 0 <= y < |fs| ==> |fs[y]| == 2 * |g[0]|
    ensures forall y, x :: 0 <= y < |fs| && 0 <= x < |fs[y]| ==> fs[y][x].pos == Some(Vec2(x, y))
  {
  }

  /** The cells standing for field (x, y) of the source map, spelled out pass by pass. */
  lemma AugmentedAt(g: Grid, fs: AugGrid, x: nat, y: nat)
    requires AugmentedOf(g) == Ok(fs) && y < |g| && x < |g[0]|
    ensures 2 * y + 1 < |fs| && 2 * x + 1 < |fs[2 * y]| && 2 * x + 1 < |fs[2 * y + 1]|
    ensures fs[2 * y][2 * x] == Copied(g[y][x]).(pos := Some(Vec2(2 * x, 2 * y)))
    ensures fs[2 * y + 1][2 * x] == Below(g[y][x]).(pos := Some(Vec2(2 * x, 2 * y + 1)))
    ensures fs[2 * y][2 * x + 1] == Beside(Copied(g[y][x])).(pos := Some(Vec2(2 * x + 1, 2 * y)))
    ensures fs[2 * y + 1][2 * x + 1] == Filler.(pos := Some(Vec2(2 * x + 1, 2 * y + 1)))
  {
    var res := Interleaved(g);
    AugmentedFails(g);
    assert |g[y]| >= |g[0]|;
    InterleavedAt(g, x, y);
    WidenedCells(res, 2 * y, x);
    WidenedCells(res, 2 * y + 1, x);
    var w := Widened(res).value;
    PlacedAt(w, 2 * y, 2 * x);
    PlacedAt(w, 2 * y + 1, 2 * x);
    PlacedAt(w, 2 * y, 2 * x + 1);
    PlacedAt(w, 2 * y + 1, 2 * x + 1);
  }

  /** The row pass puts the copy of field (x, y) in row 2y and its south connector in row 2y+1. */
  lemma InterleavedAt(g: Grid, x: nat, y: nat)
    requires y < |g| && x < |g[y]|
    ensures |Interleaved(g)| == 2 * |g| && |Interleaved(g)[2 * y]| == |g[y]| && |Interleaved(g)[2 * y + 1]| == |g[y]|
    ensures Interleaved(g)[2 * y][x] == Copied(g[y][x]) && Interleaved(g)[2 * y + 1][x] == Below(g[y][x])
  {
    assert (2 * y) / 2 == y && (2 * y) % 2 == 0;
    assert (2 * y + 1) / 2 == y && (2 * y + 1) % 2 == 1;
    assert Interleaved(g)[2 * y] == RowPass(g, 2 * y);
    assert Interleaved(g)[2 * y + 1] == RowPass(g, 2 * y + 1);
  }

  /** Field (2x, 2y) of the doubled map is field (x, y) of the source map, with its loop flag and symbol, and not pseudo. */
  lemma AugmentedField(g: Grid, fs: AugGrid, x: nat, y: nat)
    requires AugmentedOf(g) == Ok(fs) && y < |g| && x < |g[0]|
    ensures 2 * y < |fs| && 2 * x < |fs[2 * y]|
    ensures fs[2 * y][2 * x] == AugField(g[y][x].isMainLoop, false, g[y][x].symbol, Some(Vec2(2 * x, 2 * y)))
  {
    AugmentedAt(g, fs, x, y);
  }

  /** The connector below field (x, y) is pseudo, and on the loop iff the field is a loop `|`, `7` or `F`. */
  lemma AugmentedSouth(g: Grid, fs: AugGrid, x: nat, y: nat)
    requires AugmentedOf(g) == Ok(fs) && y < |g| && x < |g[0]|
    ensures 2 * y + 1 < |fs| && 2 * x < |fs[2 * y + 1]|
    ensures fs[2 * y + 1][2 * x].isPseudo
    ensures fs[2 * y + 1][2 * x].isMainLoop <==> g[y][x].isMainLoop && g[y][x].symbol in "|7F"
  {
    AugmentedAt(g, fs, x, y);
  }

  /** The connector right of field (x, y) is pseudo, and on the loop iff the field is a loop `-`, `L` or `F`. */
  lemma AugmentedEast(g: Grid, fs: AugGrid, x: nat, y: nat)
    requires AugmentedOf(g) == Ok(fs) && y < |g| && x < |g[0]|
    ensures 2 * y < |fs| && 2 * x + 1 < |fs[2 * y]|
    ensures fs[2 * y][2 * x + 1].isPseudo
    ensures fs[2 * y][2 * x + 1].isMainLoop <==> g[y][x].isMainLoop && g[y][x].symbol in "-LF"
  {
    AugmentedAt(g, fs, x, y);
  }

  /** The field diagonally below-right of field (x, y) is pseudo and never on the loop. */
  lemma AugmentedDiagonal(g: Grid, fs: AugGrid, x: nat, y: nat)
    requires AugmentedOf(g) == Ok(fs) && y < |g| && x < |g[0]|
    ensures 2 * y + 1 < |fs| && 2 * x + 1 < |fs[2 * y + 1]|
    ensures fs[2 * y + 1][2 * x + 1].isPseudo && !fs[2 * y + 1][2 * x + 1].isMainLoop
  {
    AugmentedAt(g, fs, x, y);
  }

  lemma PlacedAt(fs: AugGrid, y: nat, x: nat)
    requires y < |fs| && x < |fs[y]|
    ensures |Placed(fs)| == |fs| && |Placed(fs)[y]| == |fs[y]| && Placed(fs)[y][x] == fs[y][x].(pos := Some(Vec2(x, y)))
  {
  }

  /** The column pass puts field x of a row at 2x and its east connector at 2x+1. */
  lemma WidenedCells(res: AugGrid, y: nat, x: nat)
    requires Widened(res).Ok? && y < |res| && x < |res[0]|
    ensures |res[y]| >= |res[0]| && |Widened(res).value| == |res| && |Widened(res).value[y]| == 2 * |res[0]|
    ensures Widened(res).value[y][2 * x] == res[y][x]
    ensures Widened(res).value[y][2 * x + 1] == if y % 2 == 1 then Filler else Beside(res[y][x])
  {
    assert Widened(res).value[y] == WideRow(res[y], y % 2 == 1, |res[0]|);
  }

  // ------------------------------------------------------------ neighbours

  /** Every field holds its own coordinates, as the constructor leaves them. */
  predicate Positioned(fs: AugGrid)
  {
    forall y, x :: 0 <= y < |fs| && 0 <= x < |fs[y]| ==> fs[y][x].pos == Some(Vec2(x, y))
  }

  /** `e` is the field of the grid at the position it holds. */
  predicate OnGrid(fs: AugGrid, e: AugField)
  {
    e.pos.Some? && InBounds(fs, e.pos.value) && fs[e.pos.value.y][e.pos.value.x] == e
  }

  /** `AugmentedMap.getNeighbors`: the fields at the in-bounds positions next to `p`, in compass order. */
  function FieldNeighbors(fs: AugGrid, p: Vec2): (r: seq<AugField>)
    ensures |r| <= 4
    ensures |r| == 4 <==> InBounds(fs, Vec2(p.x, p.y - 1)) && InBounds(fs, Vec2(p.x + 1, p.y))
                          && InBounds(fs, Vec2(p.x, p.y + 1)) && InBounds(fs, Vec2(p.x - 1, p.y))
  {
    var ps := Neighbors(fs, p);
    seq(|ps|, i requires 0 <= i < |ps| => assert ps[i] in ps; fs[ps[i].y][ps[i].x])
  }

  /** On a positioned grid the neighbours of `p` are exactly the fields of the grid 4-adjacent to `p`. */
  lemma FieldNeighborsSpec(fs: AugGrid, p: Vec2, e: AugField)
    requires Positioned(fs)
    ensures e in FieldNeighbors(fs, p) <==> OnGrid(fs, e) && Adjacent(p, e.pos.value)
  {
    var ps, r := Neighbors(fs, p), FieldNeighbors(fs, p);
    if e in r {
      var i :| 0 <= i < |r| && r[i] == e;
      assert ps[i] in ps;
    }
    if OnGrid(fs, e) && Adjacent(p, e.pos.value) {
      var q := e.pos.value;
      assert q in ps;
      var i :| 0 <= i < |ps| && ps[i] == q;
      assert r[i] == e;
    }
  }

  // ------------------------------------------------------------ regions

  /** `Region`: fields found connected to each other. */
  type Region = seq<AugField>

  /** The number of regions that list the field `e`. */
  function Count(rs: seq<Region>, e: AugField): nat
  {
    if rs == [] then 0 else Count(rs[..|rs| - 1], e) + (if e in rs[|rs| - 1] then 1 else 0)
  }

  lemma CountSnoc(rs: seq<Region>, x: Region, e: AugField)
    ensures Count(rs + [x], e) == Count(rs, e) + (if e in x then 1 else 0)
  {
    assert (rs + [x])[..|rs|] == rs;
  }

  lemma {:induction false} CountAppend(a: seq<Region>, b: seq<Region>, e: AugField)
    ensures Count(a + b, e) == Count(a, e) + Count(b, e)
    decreases |b|
  {
    if b == [] {
      assert a + b == a;
    } else {
      var c := b[..|b| - 1];
      assert a + b == (a + c) + [b[|b| - 1]];
      CountSnoc(a + c, b[|b| - 1], e);
      CountAppend(a, c, e);
    }
  }

  /** A field is counted iff some region lists it. */
  lemma {:induction false} CountPositive(rs: seq<Region>, e: AugField)
    ensures Count(rs, e) > 0 <==> exists k :: 0 <= k < |rs| && e in rs[k]
    decreases |rs|
  {
    if rs != [] {
      var init := rs[..|rs| - 1];
      CountPositive(init, e);
      if exists k :: 0 <= k < |init| && e in init[k] {
        var k :| 0 <= k < |init| && e in init[k];
        assert rs[k] == init[k];
      }
      if exists k :: 0 <= k < |rs| && e in rs[k] {
        var k :| 0 <= k < |rs| && e in rs[k];
        if k < |init| { assert init[k] == rs[k]; }
      }
    }
  }

  /** A field every region lists is counted once per region. */
  lemma {:induction false} CountAll(rs: seq<Region>, e: AugField)
    requires forall k :: 0 <= k < |rs| ==> e in rs[k]
    ensures Count(rs, e) == |rs|
    decreases |rs|
  {
    if rs != [] {
      CountAll(rs[..|rs| - 1], e);
    }
  }

  /** `list.remove` of a region takes away what that region lists. */
  lemma CountRemove(rs: seq<Region>, x: Region, e: AugField)
    requires x in rs
    ensures Count(Lists.RemoveFirst(rs, x), e) + (if e in x then 1 else 0) == Count(rs, e)
  {
    var i := Lists.FirstIndex(rs, x);
    var a, b := rs[..i], rs[i + 1..];
    assert rs == a + [x] + b;
    assert Lists.RemoveFirst(rs, x) == a + b;
    CountAppend(a + [x], b, e);
    CountAppend(a, b, e);
    CountSnoc(a, x, e);
  }

  lemma MultisetCancel<T>(a: multiset<T>, b: multiset<T>, x: T)
    requires a + multiset{x} <= b + multiset{x}
    ensures a <= b
  {
    forall y ensures a[y] <= b[y] {
      assert (a + multiset{x})[y] <= (b + multiset{x})[y];
    }
  }

  /** One turn of the merge loop: region `j` of `found` moves from `rest` into the merged part. */
  lemma MoveRegion(rest: seq<Region>, found: seq<Region>, j: nat)
    requires j < |found| && multiset(found[j..]) <= multiset(rest)
    ensures found[j] in rest
    ensures multiset(found[j + 1..]) <= multiset(Lists.RemoveFirst(rest, found[j]))
    ensures multiset(Lists.RemoveFirst(rest, found[j])) + multiset(found[..j + 1]) == multiset(rest) + multiset(found[..j])
    ensures forall e :: Count(Lists.RemoveFirst(rest, found[j]), e) + Count(found[..j + 1], e) == Count(rest, e) + Count(found[..j], e)
    ensures forall e :: Count(found[..j + 1], e) > 0 <==> Count(found[..j], e) > 0 || e in found[j]
  {
    var x := found[j];
    assert found[j..] == [x] + found[j + 1..];
    assert found[..j + 1] == found[..j] + [x];
    assert x in multiset(rest);
    var rest' := Lists.RemoveFirst(rest, x);
    assert multiset(found[j..]) == multiset(found[j + 1..]) + multiset{x};
    MultisetCancel(multiset(found[j + 1..]), multiset(rest'), x);
    forall e ensures Count(rest', e) + Count(found[..j + 1], e) == Count(rest, e) + Count(found[..j], e) {
      CountRemove(rest, x, e);
      CountSnoc(found[..j], x, e);
    }
  }

  /** Some listed neighbour lies in the region. */
  predicate Touches(region: Region, neighbors: seq<AugField>)
  {
    exists n :: n in neighbors && n in region
  }

  /** The inner loop over the neighbours, leaving at the first one the region lists. */
  method AnyIn(neighbors: seq<AugField>, region: Region) returns (found: bool)
    ensures found <==> Touches(region, neighbors)
  {
    found := false;
    var j := 0;
    while j < |neighbors| && !found
      invariant 0 <= j <= |neighbors|
      invariant found ==> Touches(region, neighbors)
      invariant !found ==> forall t :: 0 <= t < j ==> neighbors[t] !in region
      decreases |neighbors| - j
    {
      found := neighbors[j] in region;
      j := j + 1;
    }
  }

  /** Region `r` after the first loop of a step: `elem` appended when `r` lists one of its neighbours. */
  function Grown(r: Region, elem: AugField, neighbors: seq<AugField>): Region
  {
    if Touches(r, neighbors) then r + [elem] else r
  }

  function Extend(rs: seq<Region>, elem: AugField, neighbors: seq<AugField>): (r: seq<Region>)
    ensures |r| == |rs| && forall k :: 0 <= k < |rs| ==> r[k] == Grown(rs[k], elem, neighbors)
  {
    seq(|rs|, k requires 0 <= k < |rs| => Grown(rs[k], elem, neighbors))
  }

  /** The regions the first loop records as found: the grown ones, in order. */
  function Joined(rs: seq<Region>, elem: AugField, neighbors: seq<AugField>): seq<Region>
  {
    if rs == [] then []
    else
      var last := rs[|rs| - 1];
      Joined(rs[..|rs| - 1], elem, neighbors) + (if Touches(last, neighbors) then [last + [elem]] else [])
  }

  lemma ExtendSnoc(rs: seq<Region>, elem: AugField, neighbors: seq<AugField>)
    requires rs != []
    ensures Extend(rs, elem, neighbors) == Extend(rs[..|rs| - 1], elem, neighbors) + [Grown(rs[|rs| - 1], elem, neighbors)]
  {
  }

  /** Every region the first loop records lists `elem`. */
  lemma {:induction false} JoinedList(rs: seq<Region>, elem: AugField, neighbors: seq<AugField>)
    ensures forall t :: 0 <= t < |Joined(rs, elem, neighbors)| ==> elem in Joined(rs, elem, neighbors)[t]
    decreases |rs|
  {
    if rs != [] {
      JoinedList(rs[..|rs| - 1], elem, neighbors);
    }
  }

  /** The recorded regions are among the grown regions. */
  lemma {:induction false} JoinedAmongGrown(rs: seq<Region>, elem: AugField, neighbors: seq<AugField>)
    ensures multiset(Joined(rs, elem, neighbors)) <= multiset(Extend(rs, elem, neighbors))
    decreases |rs|
  {
    if rs != [] {
      JoinedAmongGrown(rs[..|rs| - 1], elem, neighbors);
      ExtendSnoc(rs, elem, neighbors);
    }
  }

  /** Every region that lists a neighbour is recorded, grown by `elem`. */
  lemma {:induction false} JoinedComplete(rs: seq<Region>, elem: AugField, neighbors: seq<AugField>, k: nat)
    requires k < |rs| && Touches(rs[k], neighbors)
    ensures rs[k] + [elem] in Joined(rs, elem, neighbors)
    decreases |rs|
  {
    var init := rs[..|rs| - 1];
    if k < |init| {
      assert rs[k] == init[k];
      JoinedComplete(init, elem, neighbors, k);
    }
  }

  /** For a field listed nowhere, the grown regions list it once per recorded region. */
  lemma {:induction false} JoinedCount(rs: seq<Region>, elem: AugField, neighbors: seq<AugField>)
    requires forall k :: 0 <= k < |rs| ==> elem !in rs[k]
    ensures Count(Extend(rs, elem, neighbors), elem) == |Joined(rs, elem, neighbors)|
    decreases |rs|
  {
    if rs != [] {
      var init, last := rs[..|rs| - 1], rs[|rs| - 1];
      JoinedCount(init, elem, neighbors);
      ExtendSnoc(rs, elem, neighbors);
      CountSnoc(Extend(init, elem, neighbors), Grown(last, elem, neighbors), elem);
    }
  }

  /** Growing the regions by `elem` changes no other field's count. */
  lemma {:induction false} ExtendCount(rs: seq<Region>, elem: AugField, neighbors: seq<AugField>, e: AugField)
    requires e != elem
    ensures Count(Extend(rs, elem, neighbors), e) == Count(rs, e)
    decreases |rs|
  {
    if rs != [] {
      var init, last := rs[..|rs| - 1], rs[|rs| - 1];
      ExtendCount(init, elem, neighbors, e);
      ExtendSnoc(rs, elem, neighbors);
      CountSnoc(Extend(init, elem, neighbors), Grown(last, elem, neighbors), e);
    }
  }

  /** First loop of a step of `getRegionsFromFields`: `elem` is appended to every region listing one of its neighbours. */
  method JoinTouched(res: seq<Region>, elem: AugField, neighbors: seq<AugField>) returns (cur: seq<Region>, found: seq<Region>)
    ensures cur == Extend(res, elem, neighbors)
    ensures found == Joined(res, elem, neighbors)
  {
    cur, found := res, [];
    for i := 0 to |res|
      invariant |cur| == |res|
      invariant forall k :: 0 <= k < |res| ==> cur[k] == if k < i then Grown(res[k], elem, neighbors) else res[k]
      invariant found == Joined(res[..i], elem, neighbors)
    {
      assert res[..i + 1][..i] == res[..i];
      var hit := AnyIn(neighbors, cur[i]);
      if hit {
        cur := cur[i := cur[i] + [elem]];
        found := found + [cur[i]];
      }
    }
    assert res[..|res|] == res;
  }

  /** Second loop of a step: the joined regions are removed and their concatenation is appended. */
  method MergeFound(cur: seq<Region>, found: seq<Region>) returns (out: seq<Region>)
    requires multiset(found) <= multiset(cur)
    ensures |out| > 0
    ensures multiset(out[..|out| - 1]) + multiset(found) == multiset(cur)
    ensures forall e :: Count(out[..|out| - 1], e) + Count(found, e) == Count(cur, e)
    ensures forall e :: e in out[|out| - 1] <==> Count(found, e) > 0
  {
    var rest := cur;
    var merged: Region := [];
    for j := 0 to |found|
      invariant multiset(rest) + multiset(found[..j]) == multiset(cur)
      invariant multiset(found[j..]) <= multiset(rest)
      invariant forall e :: Count(rest, e) + Count(found[..j], e) == Count(cur, e)
      invariant forall e :: e in merged <==> Count(found[..j], e) > 0
    {
      MoveRegion(rest, found, j);
      merged := merged + found[j];
      rest := Lists.RemoveFirst(rest, found[j]);
    }
    assert found[..|found|] == found;
    out := rest + [merged];
    assert out[..|out| - 1] == rest;
  }

  /**
   * One step of `getRegionsFromFields` for the field `elem` off the loop: it joins every region
   * that lists one of its neighbours; with none it starts a region of its own, otherwise the
   * regions it joined are replaced, at the end, by their concatenation.
   */
  method AddField(res: seq<Region>, elem: AugField, neighbors: seq<AugField>) returns (out: seq<Region>)
    requires forall e :: Count(res, e) <= 1
    requires Count(res, elem) == 0
    ensures Count(out, elem) == 1
    ensures forall e :: e != elem ==> Count(out, e) == Count(res, e)
    ensures |out| > 0 && elem in out[|out| - 1]
    ensures forall k, e :: 0 <= k < |res| && Touches(res[k], neighbors) && e in res[k] ==> e in out[|out| - 1]
    ensures forall k :: 0 <= k < |res| && !Touches(res[k], neighbors) ==> res[k] in out
    ensures (forall k :: 0 <= k < |res| ==> !Touches(res[k], neighbors)) ==> out == res + [[elem]]
    ensures (forall k :: 0 <= k < |res| ==> Connected(res[k])) && NextTo(elem, neighbors) ==> forall k :: 0 <= k < |out| ==> Connected(out[k])
  {
    var cur, found := JoinTouched(res, elem, neighbors);
    if found == [] {
      NoneJoined(res, elem, neighbors);
      out := cur + [[elem]];
      LoneStep(res, elem, neighbors, out);
    } else {
      assert forall k :: 0 <= k < |res| ==> elem !in res[k] by { CountPositive(res, elem); }
      JoinedAmongGrown(res, elem, neighbors);
      out := MergeFound(cur, found);
      MergedCounts(res, elem, neighbors, out);
      MergedJoins(res, elem, neighbors, out);
      MergedKeeps(res, elem, neighbors, out);
      if (forall k :: 0 <= k < |res| ==> Connected(res[k])) && NextTo(elem, neighbors) {
        StepConnected(res, elem, neighbors, out);
      }
    }
  }

  /** A field next to no listed region starts a region of its own, at the end. */
  lemma LoneStep(res: seq<Region>, elem: AugField, neighbors: seq<AugField>, out: seq<Region>)
    requires Count(res, elem) == 0
    requires forall k :: 0 <= k < |res| ==> !Touches(res[k], neighbors)
    requires out == res + [[elem]]
    ensures Count(out, elem) == 1
    ensures forall e :: e != elem ==> Count(out, e) == Count(res, e)
    ensures |out| > 0 && elem in out[|out| - 1]
    ensures forall k :: 0 <= k < |res| && !Touches(res[k], neighbors) ==> res[k] in out
    ensures (forall k :: 0 <= k < |res| ==> Connected(res[k])) && NextTo(elem, neighbors) ==> forall k :: 0 <= k < |out| ==> Connected(out[k])
  {
    forall e ensures Count(out, e) == Count(res, e) + (if e in [elem] then 1 else 0) {
      CountSnoc(res, [elem], e);
    }
    if (forall k :: 0 <= k < |res| ==> Connected(res[k])) && NextTo(elem, neighbors) {
      SingleConnected(res, elem);
    }
  }

  /** With no region recorded, no region lists a neighbour and the first loop changed nothing. */
  lemma NoneJoined(res: seq<Region>, elem: AugField, neighbors: seq<AugField>)
    requires Joined(res, elem, neighbors) == []
    ensures forall k :: 0 <= k < |res| ==> !Touches(res[k], neighbors)
    ensures Extend(res, elem, neighbors) == res
  {
    forall k | 0 <= k < |res| ensures !Touches(res[k], neighbors) {
      if Touches(res[k], neighbors) {
        JoinedComplete(res, elem, neighbors, k);
      }
    }
  }

  /** The counts after a step that merged the recorded regions: `elem` once, every other field as before. */
  lemma MergedCounts(res: seq<Region>, elem: AugField, neighbors: seq<AugField>, out: seq<Region>)
    requires forall e :: Count(res, e) <= 1
    requires forall k :: 0 <= k < |res| ==> elem !in res[k]
    requires Joined(res, elem, neighbors) != []
    requires |out| > 0
    requires forall e :: Count(out[..|out| - 1], e) + Count(Joined(res, elem, neighbors), e) == Count(Extend(res, elem, neighbors), e)
    requires forall e :: e in out[|out| - 1] <==> Count(Joined(res, elem, neighbors), e) > 0
    ensures Count(out, elem) == 1
    ensures forall e :: e != elem ==> Count(out, e) == Count(res, e)
    ensures elem in out[|out| - 1]
  {
    var found := Joined(res, elem, neighbors);
    var rest, last := out[..|out| - 1], out[|out| - 1];
    assert out == rest + [last];
    JoinedList(res, elem, neighbors);
    JoinedCount(res, elem, neighbors);
    CountAll(found, elem);
    forall e ensures Count(out, e) == Count(rest, e) + (if e in last then 1 else 0) {
      CountSnoc(rest, last, e);
    }
    forall e | e != elem ensures Count(out, e) == Count(res, e) {
      ExtendCount(res, elem, neighbors, e);
    }
  }

  /** After a merge, every region that listed a neighbour is part of the last region. */
  lemma MergedJoins(res: seq<Region>, elem: AugField, neighbors: seq<AugField>, out: seq<Region>)
    requires |out| > 0
    requires forall e :: e in out[|out| - 1] <==> Count(Joined(res, elem, neighbors), e) > 0
    ensures forall k, e :: 0 <= k < |res| && Touches(res[k], neighbors) && e in res[k] ==> e in out[|out| - 1]
  {
    forall k, e | 0 <= k < |res| && Touches(res[k], neighbors) && e in res[k] ensures e in out[|out| - 1] {
      JoinedComplete(res, elem, neighbors, k);
      CountPositive(Joined(res, elem, neighbors), e);
    }
  }

  /** After a merge, every region that listed no neighbour is still there, and some region listed one. */
  lemma MergedKeeps(res: seq<Region>, elem: AugField, neighbors: seq<AugField>, out: seq<Region>)
    requires forall k :: 0 <= k < |res| ==> elem !in res[k]
    requires Joined(res, elem, neighbors) != []
    requires |out| > 0
    requires multiset(out[..|out| - 1]) + multiset(Joined(res, elem, neighbors)) == multiset(Extend(res, elem, neighbors))
    ensures forall k :: 0 <= k < |res| && !Touches(res[k], neighbors) ==> res[k] in out
    ensures !forall k :: 0 <= k < |res| ==> !Touches(res[k], neighbors)
  {
    var cur, found, rest := Extend(res, elem, neighbors), Joined(res, elem, neighbors), out[..|out| - 1];
    JoinedList(res, elem, neighbors);
    forall k | 0 <= k < |res| && !Touches(res[k], neighbors) ensures res[k] in out {
      assert cur[k] == res[k];
      assert res[k] !in found;
      assert multiset(cur)[res[k]] > 0;
      assert res[k] in rest;
    }
    JoinedCount(res, elem, neighbors);
    CountPositive(cur, elem);
  }

  // ------------------------------------------------------------ connectivity of a region

  /** A chain of fields of `r`, each next to the one before it. */
  ghost predicate IsPath(r: Region, p: seq<AugField>)
  {
    |p| >= 1 && (forall i :: 0 <= i < |p| ==> p[i] in r && p[i].pos.Some?)
    && forall i :: 0 <= i < |p| - 1 ==> Adjacent(p[i].pos.value, p[i + 1].pos.value)
  }

  /** A chain of fields of `r` leads from `a` to `b`. */
  ghost predicate Linked(r: Region, a: AugField, b: AugField)
  {
    exists p :: IsPath(r, p) && p[0] == a && p[|p| - 1] == b
  }

  /** Any two fields of the region are linked by a chain inside it. */
  ghost predicate Connected(r: Region)
  {
    forall a, b :: a in r && b in r ==> Linked(r, a, b)
  }

  /** `elem` has a position and every listed neighbour is next to it. */
  predicate NextTo(elem: AugField, neighbors: seq<AugField>)
  {
    elem.pos.Some? && forall n :: n in neighbors ==> n.pos.Some? && Adjacent(elem.pos.value, n.pos.value)
  }

  /** A chain inside a region is a chain inside any region listing at least as much. */
  lemma PathWiden(r: Region, s: Region, p: seq<AugField>)
    requires IsPath(r, p) && forall e :: e in r ==> e in s
    ensures IsPath(s, p)
  {
  }

  /** Two chains meeting end to start make one. */
  lemma PathJoin(r: Region, p: seq<AugField>, q: seq<AugField>)
    requires IsPath(r, p) && IsPath(r, q) && p[|p| - 1] == q[0]
    ensures IsPath(r, p + q[1..]) && (p + q[1..])[0] == p[0] && (p + q[1..])[|p + q[1..]| - 1] == q[|q| - 1]
  {
    var c := p + q[1..];
    forall i | 0 <= i < |c| - 1 ensures Adjacent(c[i].pos.value, c[i + 1].pos.value) {
      if i < |p| - 1 {
        assert c[i] == p[i] && c[i + 1] == p[i + 1];
      } else {
        assert c[i] == q[i - |p| + 1] && c[i + 1] == q[i - |p| + 2];
      }
    }
  }

  /** Links inside a region are links inside any region listing at least as much. */
  lemma LinkedWiden(r: Region, s: Region, a: AugField, b: AugField) returns (p: seq<AugField>)
    requires Linked(r, a, b) && forall e :: e in r ==> e in s
    ensures IsPath(s, p) && p[0] == a && p[|p| - 1] == b
  {
    p :| IsPath(r, p) && p[0] == a && p[|p| - 1] == b;
    PathWiden(r, s, p);
  }

  /** Appending a field next to a listed neighbour keeps a region connected. */
  lemma GrownConnected(r: Region, elem: AugField, neighbors: seq<AugField>)
    requires Connected(r) && NextTo(elem, neighbors)
    ensures Connected(Grown(r, elem, neighbors))
  {
    if Touches(r, neighbors) {
      var g := r + [elem];
      var n :| n in neighbors && n in r;
      var step, back := [n, elem], [elem, n];
      assert IsPath(g, step) && IsPath(g, back);
      forall a, b | a in g && b in g ensures Linked(g, a, b) {
        if a in r && b in r {
          var p := LinkedWiden(r, g, a, b);
        } else if a in r {
          var p := LinkedWiden(r, g, a, n);
          PathJoin(g, p, step);
        } else if b in r {
          var p := LinkedWiden(r, g, n, b);
          PathJoin(g, back, p);
        } else {
          assert IsPath(g, [elem]);
        }
      }
    }
  }

  /** The regions the first loop records are connected when all regions were. */
  lemma {:induction false} JoinedConnected(rs: seq<Region>, elem: AugField, neighbors: seq<AugField>)
    requires (forall k :: 0 <= k < |rs| ==> Connected(rs[k])) && NextTo(elem, neighbors)
    ensures forall t :: 0 <= t < |Joined(rs, elem, neighbors)| ==> Connected(Joined(rs, elem, neighbors)[t])
    decreases |rs|
  {
    if rs != [] {
      var init, last := rs[..|rs| - 1], rs[|rs| - 1];
      JoinedConnected(init, elem, neighbors);
      GrownConnected(last, elem, neighbors);
    }
  }

  /** Connected regions that all list `elem` merge into a connected region. */
  lemma MergedConnected(found: seq<Region>, elem: AugField, merged: Region)
    requires forall t :: 0 <= t < |found| ==> Connected(found[t]) && elem in found[t]
    requires forall e :: e in merged <==> Count(found, e) > 0
    ensures Connected(merged)
  {
    forall a, b | a in merged && b in merged ensures Linked(merged, a, b) {
      CountPositive(found, a);
      CountPositive(found, b);
      var s :| 0 <= s < |found| && a in found[s];
      var t :| 0 <= t < |found| && b in found[t];
      forall e | e in found[s] ensures e in merged { CountPositive(found, e); }
      forall e | e in found[t] ensures e in merged { CountPositive(found, e); }
      var p := LinkedWiden(found[s], merged, a, elem);
      var q := LinkedWiden(found[t], merged, elem, b);
      PathJoin(merged, p, q);
    }
  }

  /** A new region of one field next to connected regions. */
  lemma SingleConnected(res: seq<Region>, elem: AugField)
    requires (forall k :: 0 <= k < |res| ==> Connected(res[k])) && elem.pos.Some?
    ensures forall k :: 0 <= k < |res + [[elem]]| ==> Connected((res + [[elem]])[k])
  {
    assert IsPath([elem], [elem]);
    assert Connected([elem]);
    forall k | 0 <= k < |res + [[elem]]| ensures Connected((res + [[elem]])[k]) {
      if k < |res| { assert (res + [[elem]])[k] == res[k]; }
    }
  }

  /** The regions the first loop leaves are connected when all regions were. */
  lemma ExtendConnected(res: seq<Region>, elem: AugField, neighbors: seq<AugField>)
    requires (forall k :: 0 <= k < |res| ==> Connected(res[k])) && NextTo(elem, neighbors)
    ensures forall k :: 0 <= k < |Extend(res, elem, neighbors)| ==> Connected(Extend(res, elem, neighbors)[k])
  {
    forall k | 0 <= k < |res| ensures Connected(Extend(res, elem, neighbors)[k]) {
      GrownConnected(res[k], elem, neighbors);
    }
  }

  /** What the merge loop leaves in place is among the regions it started from. */
  lemma RestConnected(cur: seq<Region>, found: seq<Region>, rest: seq<Region>)
    requires forall k :: 0 <= k < |cur| ==> Connected(cur[k])
    requires multiset(rest) + multiset(found) == multiset(cur)
    ensures forall k :: 0 <= k < |rest| ==> Connected(rest[k])
  {
    forall k | 0 <= k < |rest| ensures Connected(rest[k]) {
      assert rest[k] in multiset(rest);
      assert rest[k] in multiset(cur);
    }
  }

  /** A step of the grouping keeps every region connected. */
  lemma StepConnected(res: seq<Region>, elem: AugField, neighbors: seq<AugField>, out: seq<Region>)
    requires (forall k :: 0 <= k < |res| ==> Connected(res[k])) && NextTo(elem, neighbors)
    requires |out| > 0
    requires multiset(out[..|out| - 1]) + multiset(Joined(res, elem, neighbors)) == multiset(Extend(res, elem, neighbors))
    requires forall e :: e in out[|out| - 1] <==> Count(Joined(res, elem, neighbors), e) > 0
    ensures forall k :: 0 <= k < |out| ==> Connected(out[k])
  {
    var found, rest := Joined(res, elem, neighbors), out[..|out| - 1];
    ExtendConnected(res, elem, neighbors);
    RestConnected(Extend(res, elem, neighbors), found, rest);
    JoinedConnected(res, elem, neighbors);
    JoinedList(res, elem, neighbors);
    MergedConnected(found, elem, out[|out| - 1]);
    ConnectedSnoc(rest, out[|out| - 1]);
    assert out == rest + [out[|out| - 1]];
  }

  lemma ConnectedSnoc(rest: seq<Region>, last: Region)
    requires (forall k :: 0 <= k < |rest| ==> Connected(rest[k])) && Connected(last)
    ensures forall k :: 0 <= k < |rest + [last]| ==> Connected((rest + [last])[k])
  {
    forall k | 0 <= k < |rest + [last]| ensures Connected((rest + [last])[k]) {
      if k < |rest| { assert (rest + [last])[k] == rest[k]; } else { assert (rest + [last])[k] == last; }
    }
  }

  // ------------------------------------------------------------ the scan

  /** `e` is a field off the loop that the row-major scan has passed before position (x, y). */
  predicate ScannedBefore(fs: AugGrid, e: AugField, y: int, x: int)
  {
    OnGrid(fs, e) && !e.isMainLoop && (e.pos.value.y < y || (e.pos.value.y == y && e.pos.value.x < x))
  }

  /** Two fields lie in a common region. */
  predicate Together(rs: seq<Region>, a: AugField, b: AugField)
  {
    exists k :: 0 <= k < |rs| && a in rs[k] && b in rs[k]
  }

  /** Before position (x, y) the regions list every scanned field once and nothing else. */
  ghost predicate CountsScanned(fs: AugGrid, res: seq<Region>, y: int, x: int)
  {
    forall e :: Count(res, e) == if ScannedBefore(fs, e, y, x) then 1 else 0
  }

  /** Before position (x, y) any two scanned fields next to each other share a region. */
  ghost predicate LinksScanned(fs: AugGrid, res: seq<Region>, y: int, x: int)
  {
    forall a, b :: ScannedBefore(fs, a, y, x) && ScannedBefore(fs, b, y, x) && Adjacent(a.pos.value, b.pos.value) ==> Together(res, a, b)
  }

  /**
   * `getRegionsFromFields`: the fields off the loop, scanned row by row, form regions. On a
   * positioned grid every field off the loop is listed by exactly one region, no loop field is
   * listed, and fields next to each other off the loop share a region.
   */
  method GetRegions(fs: AugGrid) returns (res: seq<Region>)
    requires Positioned(fs)
    ensures forall e :: Count(res, e) == if OnGrid(fs, e) && !e.isMainLoop then 1 else 0
    ensures forall a, b :: OnGrid(fs, a) && OnGrid(fs, b) && !a.isMainLoop && !b.isMainLoop && Adjacent(a.pos.value, b.pos.value) ==> Together(res, a, b)
    ensures forall k :: 0 <= k < |res| ==> Connected(res[k])
  {
    res := [];
    for y := 0 to |fs|
      invariant CountsScanned(fs, res, y, 0) && LinksScanned(fs, res, y, 0)
      invariant forall k :: 0 <= k < |res| ==> Connected(res[k])
    {
      for x := 0 to |fs[y]|
        invariant CountsScanned(fs, res, y, x) && LinksScanned(fs, res, y, x)
        invariant forall k :: 0 <= k < |res| ==> Connected(res[k])
      {
        var elem := fs[y][x];
        if !elem.isMainLoop {
          var neighbors := FieldNeighbors(fs, elem.pos.value);
          NeighborsNextTo(fs, y, x);
          ScanFresh(fs, res, y, x);
          var out := AddField(res, elem, neighbors);
          ScanCounts(fs, res, out, y, x);
          ScanLinks(fs, res, out, y, x);
          res := out;
        } else {
          ScanSkip(fs, res, y, x);
        }
      }
      ScanRow(fs, res, y);
    }
    ScanDone(fs, res);
  }

  /** The neighbours of a field of a positioned grid are next to it. */
  lemma NeighborsNextTo(fs: AugGrid, y: nat, x: nat)
    requires Positioned(fs) && y < |fs| && x < |fs[y]|
    ensures NextTo(fs[y][x], FieldNeighbors(fs, Vec2(x, y)))
  {
    forall n | n in FieldNeighbors(fs, Vec2(x, y)) ensures n.pos.Some? && Adjacent(Vec2(x, y), n.pos.value) {
      FieldNeighborsSpec(fs, Vec2(x, y), n);
    }
  }

  /** The field at the scan position is listed nowhere yet, and no field twice. */
  lemma ScanFresh(fs: AugGrid, res: seq<Region>, y: nat, x: nat)
    requires Positioned(fs) && y < |fs| && x < |fs[y]|
    requires CountsScanned(fs, res, y, x)
    ensures Count(res, fs[y][x]) == 0
    ensures forall e :: Count(res, e) <= 1
  {
    assert !ScannedBefore(fs, fs[y][x], y, x);
  }

  /** Adding a field off the loop moves the scan one field on. */
  lemma ScanCounts(fs: AugGrid, res: seq<Region>, out: seq<Region>, y: nat, x: nat)
    requires Positioned(fs) && y < |fs| && x < |fs[y]| && !fs[y][x].isMainLoop
    requires CountsScanned(fs, res, y, x)
    requires Count(out, fs[y][x]) == 1
    requires forall e :: e != fs[y][x] ==> Count(out, e) == Count(res, e)
    ensures CountsScanned(fs, out, y, x + 1)
  {
    forall e ensures ScannedBefore(fs, e, y, x + 1) <==> ScannedBefore(fs, e, y, x) || e == fs[y][x] {
    }
  }

  /** After adding a field, scanned neighbours still share regions, the new field included. */
  lemma ScanLinks(fs: AugGrid, res: seq<Region>, out: seq<Region>, y: nat, x: nat)
    requires Positioned(fs) && y < |fs| && x < |fs[y]| && !fs[y][x].isMainLoop
    requires CountsScanned(fs, res, y, x) && LinksScanned(fs, res, y, x)
    requires |out| > 0 && fs[y][x] in out[|out| - 1]
    requires forall k, e :: 0 <= k < |res| && Touches(res[k], FieldNeighbors(fs, Vec2(x, y))) && e in res[k] ==> e in out[|out| - 1]
    requires forall k :: 0 <= k < |res| && !Touches(res[k], FieldNeighbors(fs, Vec2(x, y))) ==> res[k] in out
    ensures LinksScanned(fs, out, y, x + 1)
  {
    var elem := fs[y][x];
    forall a, b | ScannedBefore(fs, a, y, x + 1) && ScannedBefore(fs, b, y, x + 1) && Adjacent(a.pos.value, b.pos.value)
      ensures Together(out, a, b)
    {
      if a == elem {
        LinkNew(fs, res, out, y, x, b);
      } else if b == elem {
        LinkNew(fs, res, out, y, x, a);
        assert Adjacent(b.pos.value, a.pos.value);
      } else {
        LinkOld(fs, res, out, y, x, a, b);
      }
    }
  }

  /** The new field shares the last region with each scanned field next to it. */
  lemma LinkNew(fs: AugGrid, res: seq<Region>, out: seq<Region>, y: nat, x: nat, n: AugField)
    requires Positioned(fs) && y < |fs| && x < |fs[y]|
    requires CountsScanned(fs, res, y, x)
    requires |out| > 0 && fs[y][x] in out[|out| - 1]
    requires forall k, e :: 0 <= k < |res| && Touches(res[k], FieldNeighbors(fs, Vec2(x, y))) && e in res[k] ==> e in out[|out| - 1]
    requires ScannedBefore(fs, n, y, x + 1) && Adjacent(Vec2(x, y), n.pos.value)
    ensures Together(out, fs[y][x], n) && Together(out, n, fs[y][x])
  {
    var nb := FieldNeighbors(fs, Vec2(x, y));
    assert ScannedBefore(fs, n, y, x);
    FieldNeighborsSpec(fs, Vec2(x, y), n);
    CountPositive(res, n);
    var k :| 0 <= k < |res| && n in res[k];
    assert Touches(res[k], nb);
    assert n in out[|out| - 1];
  }

  /** Two fields scanned earlier stay together: their region survives or is merged into the last. */
  lemma LinkOld(fs: AugGrid, res: seq<Region>, out: seq<Region>, y: nat, x: nat, a: AugField, b: AugField)
    requires Positioned(fs) && y < |fs| && x < |fs[y]|
    requires LinksScanned(fs, res, y, x)
    requires |out| > 0
    requires forall k, e :: 0 <= k < |res| && Touches(res[k], FieldNeighbors(fs, Vec2(x, y))) && e in res[k] ==> e in out[|out| - 1]
    requires forall k :: 0 <= k < |res| && !Touches(res[k], FieldNeighbors(fs, Vec2(x, y))) ==> res[k] in out
    requires ScannedBefore(fs, a, y, x + 1) && ScannedBefore(fs, b, y, x + 1) && Adjacent(a.pos.value, b.pos.value)
    requires a != fs[y][x] && b != fs[y][x]
    ensures Together(out, a, b)
  {
    assert ScannedBefore(fs, a, y, x) && ScannedBefore(fs, b, y, x);
    var k :| 0 <= k < |res| && a in res[k] && b in res[k];
    if Touches(res[k], FieldNeighbors(fs, Vec2(x, y))) {
      assert a in out[|out| - 1] && b in out[|out| - 1];
    } else {
      var m :| 0 <= m < |out| && out[m] == res[k];
    }
  }

  /** A loop field is skipped: the scan moves on with the regions unchanged. */
  lemma ScanSkip(fs: AugGrid, res: seq<Region>, y: nat, x: nat)
    requires Positioned(fs) && y < |fs| && x < |fs[y]| && fs[y][x].isMainLoop
    requires CountsScanned(fs, res, y, x) && LinksScanned(fs, res, y, x)
    ensures CountsScanned(fs, res, y, x + 1) && LinksScanned(fs, res, y, x + 1)
  {
    forall e ensures ScannedBefore(fs, e, y, x + 1) <==> ScannedBefore(fs, e, y, x) {
    }
  }

  /** The end of a row is the start of the next. */
  lemma ScanRow(fs: AugGrid, res: seq<Region>, y: nat)
    requires y < |fs|
    requires CountsScanned(fs, res, y, |fs[y]|) && LinksScanned(fs, res, y, |fs[y]|)
    ensures CountsScanned(fs, res, y + 1, 0) && LinksScanned(fs, res, y + 1, 0)
  {
    forall e ensures ScannedBefore(fs, e, y, |fs[y]|) <==> ScannedBefore(fs, e, y + 1, 0) {
    }
  }

  /** After the last row every field off the loop has been scanned. */
  lemma ScanDone(fs: AugGrid, res: seq<Region>)
    requires CountsScanned(fs, res, |fs|, 0) && LinksScanned(fs, res, |fs|, 0)
    ensures forall e :: Count(res, e) == if OnGrid(fs, e) && !e.isMainLoop then 1 else 0
    ensures forall a, b :: OnGrid(fs, a) && OnGrid(fs, b) && !a.isMainLoop && !b.isMainLoop && Adjacent(a.pos.value, b.pos.value) ==> Together(res, a, b)
  {
    forall e ensures ScannedBefore(fs, e, |fs|, 0) <==> OnGrid(fs, e) && !e.isMainLoop {
    }
  }

  // ------------------------------------------------------------ borders and enclosure

  /** A field of `region` on its border: at the edge of the map, or next to a field the region does not list. */
  predicate IsBorder(fs: AugGrid, region: Region, f: AugField)
  {
    match f.pos
    case None => false
    case Some(p) => |FieldNeighbors(fs, p)| != 4 || exists n :: n in FieldNeighbors(fs, p) && n !in region
  }

  function BorderTest(fs: AugGrid, region: Region): AugField -> bool
  {
    f => IsBorder(fs, region, f)
  }

  /** The border fields of a region, in the region's order. */
  function BorderFields(fs: AugGrid, region: Region): seq<AugField>
  {
    Lists.Filter(region, BorderTest(fs, region))
  }

  /** The listed fields are exactly the region's fields on its border. */
  lemma BorderFieldsMembers(fs: AugGrid, region: Region, f: AugField)
    ensures f in BorderFields(fs, region) <==> f in region && IsBorder(fs, region, f)
  {
    Lists.FilterMembers(region, BorderTest(fs, region), f);
  }

  /**
   * On a positioned grid a field is a border field iff one of the four positions next to it is
   * off the map or holds a field the region does not list.
   */
  lemma BorderMeaning(fs: AugGrid, region: Region, f: AugField)
    requires Positioned(fs) && OnGrid(fs, f)
    ensures IsBorder(fs, region, f) <==>
      (exists q :: q in Around(f.pos.value) && !InBounds(fs, q))
      || (exists n :: OnGrid(fs, n) && Adjacent(f.pos.value, n.pos.value) && n !in region)
  {
    var p := f.pos.value;
    var nb := FieldNeighbors(fs, p);
    if |nb| != 4 {
      var q :| q in Around(p) && !InBounds(fs, q);
    }
    if exists n :: n in nb && n !in region {
      var n :| n in nb && n !in region;
      FieldNeighborsSpec(fs, p, n);
    }
    if exists n :: OnGrid(fs, n) && Adjacent(p, n.pos.value) && n !in region {
      var n :| OnGrid(fs, n) && Adjacent(p, n.pos.value) && n !in region;
      FieldNeighborsSpec(fs, p, n);
    }
  }

  /** The inner loop of `getRegionBorderFields`, leaving at the first neighbour outside the region. */
  method AnyOutside(neighbors: seq<AugField>, region: Region) returns (outside: bool)
    ensures outside <==> exists n :: n in neighbors && n !in region
  {
    outside := false;
    var j := 0;
    while j < |neighbors| && !outside
      invariant 0 <= j <= |neighbors|
      invariant outside ==> exists n :: n in neighbors && n !in region
      invariant !outside ==> forall t :: 0 <= t < j ==> neighbors[t] in region
      decreases |neighbors| - j
    {
      outside := neighbors[j] !in region;
      j := j + 1;
    }
  }

  /** `getRegionBorderFields`: the loop collects the region's border fields in order. */
  method GetRegionBorderFields(fs: AugGrid, region: Region) returns (res: seq<AugField>)
    requires forall k :: 0 <= k < |region| ==> region[k].pos.Some?
    ensures res == BorderFields(fs, region)
  {
    res := [];
    for i := 0 to |region|
      invariant res == Lists.Filter(region[..i], BorderTest(fs, region))
    {
      var field := region[i];
      var neighbors := FieldNeighbors(fs, field.pos.value);
      Lists.FilterSnoc(region, i, BorderTest(fs, region));
      if |neighbors| != 4 {
        res := res + [field];
      } else {
        var outside := AnyOutside(neighbors, region);
        if outside {
          res := res + [field];
        }
      }
    }
    assert region[..|region|] == region;
  }

  predicate OnLoop(n: AugField)
  {
    n.isMainLoop
  }

  /** `neighbor_loops`: the neighbours of `p` on the loop. */
  function LoopNeighbors(fs: AugGrid, p: Vec2): seq<AugField>
  {
    Lists.Filter(FieldNeighbors(fs, p), OnLoop)
  }

  /** A border field is enclosed when it has all four neighbours and some neighbour on the loop. */
  predicate Enclosed(fs: AugGrid, f: AugField)
  {
    f.pos.Some? && EnclosedAt(fs, f.pos.value)
  }

  predicate EnclosedAt(fs: AugGrid, p: Vec2)
  {
    |FieldNeighbors(fs, p)| == 4 && |LoopNeighbors(fs, p)| > 0
  }

  /** A field is enclosed iff it has four neighbours, one of them on the loop. */
  lemma EnclosedMeaning(fs: AugGrid, f: AugField)
    requires f.pos.Some?
    ensures Enclosed(fs, f) <==> |FieldNeighbors(fs, f.pos.value)| == 4 && exists n :: n in FieldNeighbors(fs, f.pos.value) && n.isMainLoop
  {
    var nb := FieldNeighbors(fs, f.pos.value);
    if |LoopNeighbors(fs, f.pos.value)| > 0 {
      var n := LoopNeighbors(fs, f.pos.value)[0];
      Lists.FilterMembers(nb, OnLoop, n);
    }
    if exists n :: n in nb && n.isMainLoop {
      var n :| n in nb && n.isMainLoop;
      Lists.FilterMembers(nb, OnLoop, n);
    }
  }

  /** Every listed field is enclosed. */
  predicate AllEnclosed(fs: AugGrid, fields: seq<AugField>)
  {
    forall k :: 0 <= k < |fields| ==> Enclosed(fs, fields[k])
  }

  /** `isSurroundedByLoop`: true iff every border field of the region is enclosed. */
  method IsSurroundedByLoop(fs: AugGrid, region: Region) returns (b: bool)
    requires forall k :: 0 <= k < |region| ==> region[k].pos.Some?
    ensures b <==> AllEnclosed(fs, BorderFields(fs, region))
  {
    var borders := GetRegionBorderFields(fs, region);
    forall k | 0 <= k < |borders| ensures borders[k].pos.Some? {
      BorderFieldsMembers(fs, region, borders[k]);
    }
    b := CheckBorders(fs, borders);
  }

  /** The loop of `isSurroundedByLoop`, returning false at the first border field that is not enclosed. */
  method CheckBorders(fs: AugGrid, borders: seq<AugField>) returns (b: bool)
    requires forall k :: 0 <= k < |borders| ==> borders[k].pos.Some?
    ensures b <==> AllEnclosed(fs, borders)
  {
    for i := 0 to |borders|
      invariant AllEnclosed(fs, borders[..i])
    {
      var enclosed := IsEnclosed(fs, borders[i]);
      AllEnclosedStep(fs, borders, i);
      if !enclosed {
        return false;
      }
    }
    assert borders[..|borders|] == borders;
    return true;
  }

  /** The next field decides: the longer prefix is enclosed iff the shorter one and that field are, and one field not enclosed spoils the whole list. */
  lemma AllEnclosedStep(fs: AugGrid, borders: seq<AugField>, i: nat)
    requires i < |borders|
    ensures AllEnclosed(fs, borders[..i + 1]) <==> AllEnclosed(fs, borders[..i]) && Enclosed(fs, borders[i])
    ensures !Enclosed(fs, borders[i]) ==> !AllEnclosed(fs, borders)
  {
    assert borders[..i + 1][i] == borders[i];
    assert forall t :: 0 <= t < i ==> borders[..i + 1][t] == borders[..i][t];
  }

  /** The body of the loop of `isSurroundedByLoop`: four neighbours, and at least one on the loop. */
  method IsEnclosed(fs: AugGrid, border: AugField) returns (enclosed: bool)
    requires border.pos.Some?
    ensures enclosed <==> Enclosed(fs, border)
  {
    var borderNeighbors := FieldNeighbors(fs, border.pos.value);
    if |borderNeighbors| != 4 {
      return false;
    }
    var neighborLoops := Lists.Filter(borderNeighbors, OnLoop);
    if |neighborLoops| == 0 {
      return false;
    }
    return true;
  }

  /** Surrounded means: every field of the region on its border is enclosed. */
  lemma SurroundedMeaning(fs: AugGrid, region: Region)
    ensures AllEnclosed(fs, BorderFields(fs, region)) <==> forall f :: f in region && IsBorder(fs, region, f) ==> Enclosed(fs, f)
  {
    forall f ensures f in BorderFields(fs, region) <==> f in region && IsBorder(fs, region, f) {
      BorderFieldsMembers(fs, region, f);
    }
  }

  /** A region reaching the edge of the map is never surrounded by the loop. */
  lemma EdgeNotSurrounded(fs: AugGrid, region: Region, f: AugField)
    requires f in region && f.pos.Some? && |FieldNeighbors(fs, f.pos.value)| != 4
    ensures !AllEnclosed(fs, BorderFields(fs, region))
  {
    BorderFieldsMembers(fs, region, f);
    assert !Enclosed(fs, f);
  }
}
