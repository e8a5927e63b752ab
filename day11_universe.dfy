/** Day 11: cosmic expansion — widening empty rows and columns, then summing the distances between galaxies (11/universe.py). */
module Day11Universe {
  import opened Wrappers
  import opened Geometry
  import opened Lists

  // ---------------------------------------------------------------- empty rows and columns

  /** The number of '#' among the first `n` characters of a row. */
  function HashesIn(row: string, n: nat): nat
    requires n <= |row|
  {
    if n == 0 then 0 else HashesIn(row, n - 1) + (if row[n - 1] == '#' then 1 else 0)
  }

  /** The number of the first `n` lines that have '#' in the column. */
  function ColumnHashesIn(lines: seq<string>, column: nat, n: nat): nat
    requires n <= |lines| && forall i :: 0 <= i < |lines| ==> column < |lines[i]|
  {
    if n == 0 then 0 else ColumnHashesIn(lines, column, n - 1) + (if lines[n - 1][column] == '#' then 1 else 0)
  }

  /** `isEmptyRow`: the list of the row's '#' characters is empty. */
  predicate IsEmptyRow(lines: seq<string>, row: nat)
    requires row < |lines|
  {
    HashesIn(lines[row], |lines[row]|) == 0
  }

  /** `isEmptyColumn`: the list of lines with '#' in that column is empty (every line must be long enough to index it). */
  predicate IsEmptyColumn(lines: seq<string>, column: nat)
    requires forall i :: 0 <= i < |lines| ==> column < |lines[i]|
  {
    ColumnHashesIn(lines, column, |lines|) == 0
  }

  lemma {:induction false} HashesNone(row: string, n: nat)
    requires n <= |row|
    ensures HashesIn(row, n) == 0 <==> forall x :: 0 <= x < n ==> row[x] != '#'
  {
    if n > 0 {
      HashesNone(row, n - 1);
    }
  }

  lemma {:induction false} ColumnHashesNone(lines: seq<string>, column: nat, n: nat)
    requires n <= |lines| && forall i :: 0 <= i < |lines| ==> column < |lines[i]|
    ensures ColumnHashesIn(lines, column, n) == 0 <==> forall i :: 0 <= i < n ==> lines[i][column] != '#'
  {
    if n > 0 {
      ColumnHashesNone(lines, column, n - 1);
    }
  }

  /** A row is empty exactly when it holds no galaxy. */
  lemma IsEmptyRowSpec(lines: seq<string>, row: nat)
    requires row < |lines|
    ensures IsEmptyRow(lines, row) <==> forall x :: 0 <= x < |lines[row]| ==> lines[row][x] != '#'
  {
    HashesNone(lines[row], |lines[row]|);
  }

  /** A column is empty exactly when no line has a galaxy in it. */
  lemma IsEmptyColumnSpec(lines: seq<string>, column: nat)
    requires forall i :: 0 <= i < |lines| ==> column < |lines[i]|
    ensures IsEmptyColumn(lines, column) <==> forall i :: 0 <= i < |lines| ==> lines[i][column] != '#'
  {
    ColumnHashesNone(lines, column, |lines|);
  }

  // ---------------------------------------------------------------- the expanded universe

  /** Every line is at least as long as the first, so each of the first line's columns can be tested. */
  predicate WideEnough(lines: seq<string>)
  {
    |lines| > 0 && forall i :: 0 <= i < |lines| ==> |lines[0]| <= |lines[i]|
  }

  /** A column every line reaches, and which is empty. */
  predicate ColumnFlag(lines: seq<string>, c: nat)
  {
    (forall i :: 0 <= i < |lines| ==> c < |lines[i]|) && IsEmptyColumn(lines, c)
  }

  /** For each of the first line's columns, whether it is empty. */
  function EmptyColumns(lines: seq<string>): (flags: seq<bool>)
    requires |lines| > 0
    ensures |flags| == |lines[0]|
  {
    seq(|lines[0]|, c requires 0 <= c < |lines[0]| => ColumnFlag(lines, c))
  }

  lemma EmptyColumnsAt(lines: seq<string>, c: nat)
    requires |lines| > 0 && c < |lines[0]|
    ensures EmptyColumns(lines)[c] == ColumnFlag(lines, c)
  {
  }

  /** The '.' inserted in front of column `j`, if that column is empty. */
  function Pad(flags: seq<bool>, j: nat): string
  {
    if j < |flags| && flags[j] then "." else ""
  }

  /** The number of empty columns among the first `n`. */
  function EmptyBefore(flags: seq<bool>, n: nat): nat
  {
    if n == 0 then 0 else EmptyBefore(flags, n - 1) + |Pad(flags, n - 1)|
  }

  /** The first `n` characters of a line with the '.' columns inserted. */
  function ExpandLineIn(line: string, flags: seq<bool>, n: nat): string
    requires n <= |line|
  {
    if n == 0 then "" else ExpandLineIn(line, flags, n - 1) + Pad(flags, n - 1) + [line[n - 1]]
  }

  function ExpandLine(line: string, flags: seq<bool>): string
  {
    ExpandLineIn(line, flags, |line|)
  }

  /** The first loop of `createExpandedUniverse`: each of the first `n` lines, twice when it is empty. */
  function ExpandRowsIn(lines: seq<string>, n: nat): seq<string>
    requires n <= |lines|
  {
    if n == 0 then []
    else ExpandRowsIn(lines, n - 1) + (if IsEmptyRow(lines, n - 1) then [lines[n - 1], lines[n - 1]] else [lines[n - 1]])
  }

  function ExpandRows(lines: seq<string>): seq<string>
  {
    ExpandRowsIn(lines, |lines|)
  }

  function ExpandLines(rows: seq<string>, flags: seq<bool>): (r: seq<string>)
    ensures |r| == |rows| && forall k :: 0 <= k < |rows| ==> r[k] == ExpandLine(rows[k], flags)
  {
    seq(|rows|, k requires 0 <= k < |rows| => ExpandLine(rows[k], flags))
  }

  /**
   * What `createExpandedUniverse` returns: the rows expanded, then a '.' column in front of every
   * empty column. It raises IndexError on an empty list (`lines[0]`) and when a line is too short
   * for one of the first line's columns.
   */
  function ExpandedUniverse(lines: seq<string>): Result<seq<string>>
  {
    if !WideEnough(lines) then Err("IndexError") else Ok(ExpandLines(ExpandRows(lines), EmptyColumns(lines)))
  }

  /** The number of empty rows among the first `n`. */
  function EmptyRowsBefore(lines: seq<string>, n: nat): nat
    requires n <= |lines|
  {
    if n == 0 then 0 else EmptyRowsBefore(lines, n - 1) + (if IsEmptyRow(lines, n - 1) then 1 else 0)
  }

  /** The rows of the expansion are rows of the input. */
  lemma {:induction false} ExpandRowsFrom(lines: seq<string>, n: nat)
    requires n <= |lines|
    ensures forall m :: 0 <= m < |ExpandRowsIn(lines, n)| ==> ExpandRowsIn(lines, n)[m] in lines[..n]
  {
    if n > 0 {
      ExpandRowsFrom(lines, n - 1);
      assert lines[..n - 1] <= lines[..n];
    }
  }

  /** Row expansion adds one line per empty row. */
  lemma {:induction false} ExpandRowsHeight(lines: seq<string>, n: nat)
    requires n <= |lines|
    ensures |ExpandRowsIn(lines, n)| == n + EmptyRowsBefore(lines, n)
  {
    if n > 0 {
      ExpandRowsHeight(lines, n - 1);
    }
  }

  /** Column expansion adds one character per empty column passed. */
  lemma {:induction false} ExpandLineWidth(line: string, flags: seq<bool>, n: nat)
    requires n <= |line|
    ensures |ExpandLineIn(line, flags, n)| == n + EmptyBefore(flags, n)
  {
    if n > 0 {
      ExpandLineWidth(line, flags, n - 1);
    }
  }

  /** Past the flagged columns nothing more is inserted. */
  lemma {:induction false} ExpandTail(line: string, flags: seq<bool>, n: nat)
    requires |flags| <= n <= |line|
    ensures ExpandLineIn(line, flags, n) == ExpandLineIn(line, flags, |flags|) + line[|flags|..n]
  {
    if n > |flags| {
      ExpandTail(line, flags, n - 1);
      assert line[|flags|..n] == line[|flags|..n - 1] + [line[n - 1]];
    }
  }

  /** Inserting '.' where the loop does takes the line across one empty column. */
  lemma InsertStep(line: string, flags: seq<bool>, col: nat, e: nat)
    requires col < |line| && col < |flags| && flags[col] && e == col + EmptyBefore(flags, col)
    ensures var s := ExpandLineIn(line, flags, col) + line[col..];
            e <= |s| && s[..e] + "." + s[e..] == ExpandLineIn(line, flags, col + 1) + line[col + 1..]
  {
    ExpandLineWidth(line, flags, col);
    var p := ExpandLineIn(line, flags, col);
    var s := p + line[col..];
    assert s[..e] == p && s[e..] == line[col..];
    assert line[col..] == [line[col]] + line[col + 1..];
  }

  /** Across a column that is not empty nothing is inserted. */
  lemma SkipStep(line: string, flags: seq<bool>, col: nat)
    requires col < |line| && !(col < |flags| && flags[col])
    ensures ExpandLineIn(line, flags, col) + line[col..] == ExpandLineIn(line, flags, col + 1) + line[col + 1..]
  {
    assert line[col..] == [line[col]] + line[col + 1..];
  }

  /** Every row passed the first `col` columns, as the column loop leaves it. */
  predicate Widened(expanded: seq<string>, rows: seq<string>, flags: seq<bool>, col: nat)
  {
    |expanded| == |rows|
    && forall m :: 0 <= m < |rows| ==>
         col <= |rows[m]| && expanded[m] == ExpandLineIn(rows[m], flags, col) + rows[m][col..]
  }

  /** The inner loop of `createExpandedUniverse`: a '.' goes into every line at the current expanded column. */
  method InsertColumn(expanded: seq<string>, ghost rows: seq<string>, ghost flags: seq<bool>, col: nat, e: nat)
    returns (next: seq<string>)
    requires Widened(expanded, rows, flags, col)
    requires forall m :: 0 <= m < |rows| ==> col < |rows[m]|
    requires col < |flags| && flags[col] && e == col + EmptyBefore(flags, col)
    ensures Widened(next, rows, flags, col + 1)
  {
    next := expanded;
    for k := 0 to |next|
      invariant |next| == |rows|
      invariant forall m :: 0 <= m < |rows| ==> (next[m] ==
        if m < k then ExpandLineIn(rows[m], flags, col + 1) + rows[m][col + 1..]
         else ExpandLineIn(rows[m], flags, col) + rows[m][col..])
    {
      InsertStep(rows[k], flags, col, e);
      var line := next[k];
      next := next[k := line[..e] + "." + line[e..]];
    }
  }

  /** Across a column that is not empty every line stays as it is. */
  lemma SkipColumn(expanded: seq<string>, rows: seq<string>, flags: seq<bool>, col: nat)
    requires Widened(expanded, rows, flags, col)
    requires forall m :: 0 <= m < |rows| ==> col < |rows[m]|
    requires !(col < |flags| && flags[col])
    ensures Widened(expanded, rows, flags, col + 1)
  {
    forall m | 0 <= m < |rows|
      ensures expanded[m] == ExpandLineIn(rows[m], flags, col + 1) + rows[m][col + 1..]
    {
      SkipStep(rows[m], flags, col);
    }
  }

  /** `createExpandedUniverse`: the rows are doubled first, then the columns are widened in place, left to right. */
  method CreateExpandedUniverse(lines: seq<string>) returns (r: Result<seq<string>>)
    ensures r == ExpandedUniverse(lines)
  {
    var expanded: seq<string> := [];
    for row := 0 to |lines|
      invariant expanded == ExpandRowsIn(lines, row)
    {
      expanded := expanded + [lines[row]];
      if IsEmptyRow(lines, row) {
        expanded := expanded + [lines[row]];
      }
    }
    if |lines| == 0 {
      return Err("IndexError");
    }
    ExpandRowsFrom(lines, |lines|);
    assert lines[..|lines|] == lines;
    r := WidenColumns(lines, expanded);
  }

  /** The column loop of `createExpandedUniverse`, over the rows already doubled. */
  method WidenColumns(lines: seq<string>, rows: seq<string>) returns (r: Result<seq<string>>)
    requires |lines| > 0 && forall m :: 0 <= m < |rows| ==> rows[m] in lines
    ensures r == if WideEnough(lines) then Ok(ExpandLines(rows, EmptyColumns(lines))) else Err("IndexError")
  {
    ghost var flags := EmptyColumns(lines);
    var expanded := rows;
    var e := 0;
    for col := 0 to |lines[0]|
      invariant forall i :: 0 <= i < |lines| ==> col <= |lines[i]|
      invariant e == col + EmptyBefore(flags, col)
      invariant Widened(expanded, rows, flags, col)
    {
      if exists i :: 0 <= i < |lines| && |lines[i]| <= col {
        assert !WideEnough(lines);
        return Err("IndexError");
      }
      EmptyColumnsAt(lines, col);
      if IsEmptyColumn(lines, col) {
        expanded := InsertColumn(expanded, rows, flags, col, e);
        e := e + 1;
      } else {
        SkipColumn(expanded, rows, flags, col);
      }
      e := e + 1;
    }
    WidenedAll(lines, rows, expanded);
    r := Ok(expanded);
  }

  /** Once every column of the first line is passed, each line is fully expanded. */
  lemma WidenedAll(lines: seq<string>, rows: seq<string>, expanded: seq<string>)
    requires |lines| > 0 && forall m :: 0 <= m < |rows| ==> rows[m] in lines
    requires forall i :: 0 <= i < |lines| ==> |lines[0]| <= |lines[i]|
    requires Widened(expanded, rows, EmptyColumns(lines), |lines[0]|)
    ensures WideEnough(lines) && expanded == ExpandLines(rows, EmptyColumns(lines))
  {
    var flags := EmptyColumns(lines);
    forall m | 0 <= m < |rows|
      ensures expanded[m] == ExpandLine(rows[m], flags)
    {
      assert rows[m] in lines;
      ExpandTail(rows[m], flags, |rows[m]|);
    }
  }

  /** On a rectangular grid the expansion has one more line per empty row, and each line one more character per empty column. */
  lemma ExpandedSize(lines: seq<string>)
    requires |lines| > 0 && forall i :: 0 <= i < |lines| ==> |lines[i]| == |lines[0]|
    ensures WideEnough(lines)
    ensures var u := ExpandedUniverse(lines).value;
      |u| == |lines| + EmptyRowsBefore(lines, |lines|)
      && forall m :: 0 <= m < |u| ==> |u[m]| == |lines[0]| + EmptyBefore(EmptyColumns(lines), |lines[0]|)
  {
    ExpandRowsHeight(lines, |lines|);
    ExpandRowsFrom(lines, |lines|);
    assert lines[..|lines|] == lines;
    var flags := EmptyColumns(lines);
    var rows := ExpandRows(lines);
    forall m | 0 <= m < |rows|
      ensures |ExpandLine(rows[m], flags)| == |lines[0]| + EmptyBefore(flags, |lines[0]|)
    {
      assert rows[m] in lines;
      ExpandLineWidth(rows[m], flags, |rows[m]|);
    }
  }


  // ---------------------------------------------------------------- galaxies

  /** A galaxy at its position in the universe. */
  datatype Galaxy = Galaxy(position: Vec2)
  {
    /** `Galaxy.countSteps`: the number of steps between two galaxies is the Manhattan distance of their positions. */
    function CountSteps(other: Galaxy): nat
    {
      Manhattan(position, other.position)
    }
  }

  lemma StepsSymmetric(a: Galaxy, b: Galaxy)
    ensures a.CountSteps(b) == b.CountSteps(a)
  {
  }

  /** No steps separate two galaxies exactly when they are at the same position. */
  lemma StepsZero(a: Galaxy, b: Galaxy)
    ensures a.CountSteps(b) == 0 <==> a == b
  {
  }

  /** A detour through a third galaxy is never shorter. */
  lemma StepsTriangle(a: Galaxy, b: Galaxy, c: Galaxy)
    ensures a.CountSteps(c) <= a.CountSteps(b) + b.CountSteps(c)
  {
  }

  /** The galaxies among the first `n` characters of row `y`, left to right. */
  function RowGalaxiesIn(row: string, y: int, n: nat): seq<Galaxy>
    requires n <= |row|
  {
    if n == 0 then []
    else RowGalaxiesIn(row, y, n - 1) + (if row[n - 1] == '#' then [Galaxy(Vec2(n - 1, y))] else [])
  }

  /** The galaxies of the first `n` rows, in row-major order. */
  function GalaxiesIn(universe: seq<string>, n: nat): seq<Galaxy>
    requires n <= |universe|
  {
    if n == 0 then [] else GalaxiesIn(universe, n - 1) + RowGalaxiesIn(universe[n - 1], n - 1, |universe[n - 1]|)
  }

  function Galaxies(universe: seq<string>): seq<Galaxy>
  {
    GalaxiesIn(universe, |universe|)
  }

  /** `findGalaxies`: a scan of the rows, each left to right. */
  method FindGalaxies(universe: seq<string>) returns (res: seq<Galaxy>)
    ensures res == Galaxies(universe)
  {
    res := [];
    for y := 0 to |universe|
      invariant res == GalaxiesIn(universe, y)
    {
      var row := universe[y];
      for x := 0 to |row|
        invariant res == GalaxiesIn(universe, y) + RowGalaxiesIn(row, y, x)
      {
        if row[x] == '#' {
          res := res + [Galaxy(Vec2(x, y))];
        }
      }
    }
  }

  /** Row-major order of positions: by row, then by column. */
  predicate RowMajorBefore(a: Vec2, b: Vec2)
  {
    a.y < b.y || (a.y == b.y && a.x < b.x)
  }

  /** The galaxies of a row stand at '#' characters of that row, in increasing columns. */
  lemma {:induction false} RowGalaxiesFacts(row: string, y: int, n: nat)
    requires n <= |row|
    ensures forall k :: 0 <= k < |RowGalaxiesIn(row, y, n)| ==>
      RowGalaxiesIn(row, y, n)[k].position.y == y && 0 <= RowGalaxiesIn(row, y, n)[k].position.x < n
      && row[RowGalaxiesIn(row, y, n)[k].position.x] == '#'
    ensures forall i, j :: 0 <= i < j < |RowGalaxiesIn(row, y, n)| ==>
      RowGalaxiesIn(row, y, n)[i].position.x < RowGalaxiesIn(row, y, n)[j].position.x
  {
    if n > 0 {
      RowGalaxiesFacts(row, y, n - 1);
      var prev := RowGalaxiesIn(row, y, n - 1);
      var gs := RowGalaxiesIn(row, y, n);
      assert forall k :: 0 <= k < |prev| ==> gs[k] == prev[k];
      if row[n - 1] == '#' {
        assert |gs| == |prev| + 1 && gs[|prev|] == Galaxy(Vec2(n - 1, y));
      } else {
        assert gs == prev;
      }
    }
  }

  /** Every '#' of a row is among its galaxies. */
  lemma {:induction false} RowGalaxiesComplete(row: string, y: int, n: nat, x: nat)
    requires x < n <= |row| && row[x] == '#'
    ensures Galaxy(Vec2(x, y)) in RowGalaxiesIn(row, y, n)
  {
    if x < n - 1 {
      RowGalaxiesComplete(row, y, n - 1, x);
    }
  }

  /** The galaxies found in the first `n` rows stand at '#' characters, in row-major order. */
  lemma {:induction false} GalaxiesFacts(u: seq<string>, n: nat)
    requires n <= |u|
    ensures forall k :: 0 <= k < |GalaxiesIn(u, n)| ==>
      0 <= GalaxiesIn(u, n)[k].position.y < n && InBounds(u, GalaxiesIn(u, n)[k].position)
      && u[GalaxiesIn(u, n)[k].position.y][GalaxiesIn(u, n)[k].position.x] == '#'
    ensures forall i, j :: 0 <= i < j < |GalaxiesIn(u, n)| ==>
      RowMajorBefore(GalaxiesIn(u, n)[i].position, GalaxiesIn(u, n)[j].position)
  {
    if n > 0 {
      GalaxiesFacts(u, n - 1);
      RowGalaxiesFacts(u[n - 1], n - 1, |u[n - 1]|);
      var prev := GalaxiesIn(u, n - 1);
      var row := RowGalaxiesIn(u[n - 1], n - 1, |u[n - 1]|);
      var gs := GalaxiesIn(u, n);
      assert gs == prev + row;
      assert forall k :: 0 <= k < |prev| ==> gs[k] == prev[k];
      assert forall k :: |prev| <= k < |gs| ==> gs[k] == row[k - |prev|];
    }
  }

  /** Every '#' of the first `n` rows is found. */
  lemma {:induction false} GalaxiesComplete(u: seq<string>, n: nat, p: Vec2)
    requires n <= |u| && 0 <= p.y < n && InBounds(u, p) && u[p.y][p.x] == '#'
    ensures Galaxy(p) in GalaxiesIn(u, n)
  {
    if p.y < n - 1 {
      GalaxiesComplete(u, n - 1, p);
    } else {
      RowGalaxiesComplete(u[n - 1], n - 1, |u[n - 1]|, p.x);
    }
  }

  /** `findGalaxies` lists exactly the positions of the '#' characters, each once, in row-major order. */
  lemma GalaxiesSpec(u: seq<string>)
    ensures forall g: Galaxy :: g in Galaxies(u) <==> InBounds(u, g.position) && u[g.position.y][g.position.x] == '#'
    ensures forall i, j :: 0 <= i < j < |Galaxies(u)| ==> RowMajorBefore(Galaxies(u)[i].position, Galaxies(u)[j].position)
  {
    GalaxiesFacts(u, |u|);
    var gs := Galaxies(u);
    forall g: Galaxy
      ensures g in gs <==> InBounds(u, g.position) && u[g.position.y][g.position.x] == '#'
    {
      if g in gs {
        var k :| 0 <= k < |gs| && gs[k] == g;
      }
      if InBounds(u, g.position) && u[g.position.y][g.position.x] == '#' {
        GalaxiesComplete(u, |u|, g.position);
      }
    }
  }

  // ---------------------------------------------------------------- pairs and their distances

  /** The pairs of galaxy `i` with each later galaxy before index `m`. */
  function PairsFrom(gs: seq<Galaxy>, i: nat, m: nat): seq<(Galaxy, Galaxy)>
    requires i < |gs| && m <= |gs|
  {
    if m <= i + 1 then [] else PairsFrom(gs, i, m - 1) + [(gs[i], gs[m - 1])]
  }

  /** The pairs whose first galaxy is among the first `n`. */
  function PairsIn(gs: seq<Galaxy>, n: nat): seq<(Galaxy, Galaxy)>
    requires n <= |gs|
  {
    if n == 0 then [] else PairsIn(gs, n - 1) + PairsFrom(gs, n - 1, |gs|)
  }

  function Pairs(gs: seq<Galaxy>): seq<(Galaxy, Galaxy)>
  {
    PairsIn(gs, |gs|)
  }

  /** `buildPairs`: every galaxy with each later one, in order. */
  method BuildPairs(galaxies: seq<Galaxy>) returns (res: seq<(Galaxy, Galaxy)>)
    ensures res == Pairs(galaxies)
  {
    res := [];
    for i := 0 to |galaxies|
      invariant res == PairsIn(galaxies, i)
    {
      for j := i + 1 to |galaxies|
        invariant res == PairsIn(galaxies, i) + PairsFrom(galaxies, i, j)
      {
        res := res + [(galaxies[i], galaxies[j])];
      }
    }
  }

  lemma {:induction false} PairsFromCount(gs: seq<Galaxy>, i: nat, m: nat)
    requires i < |gs| && m <= |gs|
    ensures |PairsFrom(gs, i, m)| == if m <= i + 1 then 0 else m - i - 1
  {
    if m > i + 1 {
      PairsFromCount(gs, i, m - 1);
    }
  }

  lemma {:induction false} PairsInCount(gs: seq<Galaxy>, n: nat)
    requires n <= |gs|
    ensures 2 * |PairsIn(gs, n)| == n * (2 * |gs| - n - 1)
  {
    if n > 0 {
      PairsInCount(gs, n - 1);
      PairsFromCount(gs, n - 1, |gs|);
      var len := |gs|;
      assert |PairsIn(gs, n)| == |PairsIn(gs, n - 1)| + (len - n);
      assert n * (2 * len - n - 1) == (n - 1) * (2 * len - (n - 1) - 1) + 2 * (len - n);
    }
  }

  /** `buildPairs` returns n(n−1)/2 pairs. */
  lemma PairsCount(gs: seq<Galaxy>)
    ensures 2 * |Pairs(gs)| == |gs| * (|gs| - 1)
  {
    PairsInCount(gs, |gs|);
  }

  /** Each pair of `PairsFrom` is galaxy `i` with a later one. */
  lemma {:induction false} PairsFromMembers(gs: seq<Galaxy>, i: nat, m: nat)
    requires i < |gs| && m <= |gs|
    ensures forall j :: i < j < m ==> (gs[i], gs[j]) in PairsFrom(gs, i, m)
    ensures forall p :: p in PairsFrom(gs, i, m) ==> exists j :: i < j < m && p == (gs[i], gs[j])
  {
    if m > i + 1 {
      PairsFromMembers(gs, i, m - 1);
    }
  }

  lemma {:induction false} PairsInMembers(gs: seq<Galaxy>, n: nat)
    requires n <= |gs|
    ensures forall i, j :: 0 <= i < n && i < j < |gs| ==> (gs[i], gs[j]) in PairsIn(gs, n)
    ensures forall p :: p in PairsIn(gs, n) ==> exists i, j :: 0 <= i < n && i < j < |gs| && p == (gs[i], gs[j])
  {
    if n > 0 {
      PairsInMembers(gs, n - 1);
      PairsFromMembers(gs, n - 1, |gs|);
    }
  }

  /** The pairs are exactly a galaxy with a later one. */
  lemma PairsMembers(gs: seq<Galaxy>)
    ensures forall i, j :: 0 <= i < j < |gs| ==> (gs[i], gs[j]) in Pairs(gs)
    ensures forall p :: p in Pairs(gs) ==> exists i, j :: 0 <= i < j < |gs| && p == (gs[i], gs[j])
  {
    PairsInMembers(gs, |gs|);
  }

  function PairSteps(p: (Galaxy, Galaxy)): int
  {
    p.0.CountSteps(p.1)
  }

  /** One more pair adds its steps to the running sum. */
  lemma SumStep(gs: seq<Galaxy>, i: nat, j: nat)
    requires i < j < |gs|
    ensures SumOf(PairsIn(gs, i) + PairsFrom(gs, i, j + 1), PairSteps)
         == SumOf(PairsIn(gs, i) + PairsFrom(gs, i, j), PairSteps) + gs[i].CountSteps(gs[j])
  {
    var a := PairsIn(gs, i) + PairsFrom(gs, i, j);
    assert PairsIn(gs, i) + PairsFrom(gs, i, j + 1) == a + [(gs[i], gs[j])];
    SumOfAppend(a, [(gs[i], gs[j])], PairSteps);
    assert SumOf([(gs[i], gs[j])], PairSteps) == PairSteps((gs[i], gs[j]));
  }

  /** `countSteps`: the same double loop as `buildPairs`, adding up the steps instead of collecting the pairs. */
  method CountSteps(galaxies: seq<Galaxy>) returns (steps: int)
    ensures steps == SumOf(Pairs(galaxies), PairSteps)
  {
    steps := 0;
    for i := 0 to |galaxies|
      invariant steps == SumOf(PairsIn(galaxies, i), PairSteps)
    {
      assert PairsIn(galaxies, i) + PairsFrom(galaxies, i, i + 1) == PairsIn(galaxies, i);
      for j := i + 1 to |galaxies|
        invariant steps == SumOf(PairsIn(galaxies, i) + PairsFrom(galaxies, i, j), PairSteps)
      {
        SumStep(galaxies, i, j);
        steps := steps + galaxies[i].CountSteps(galaxies[j]);
      }
    }
  }

  /** The steps from galaxy `i` to each later galaxy before index `m`. */
  function StepsFrom(gs: seq<Galaxy>, i: nat, m: nat): int
    requires i < |gs| && m <= |gs|
  {
    if m <= i + 1 then 0 else StepsFrom(gs, i, m - 1) + gs[i].CountSteps(gs[m - 1])
  }

  function StepsIn(gs: seq<Galaxy>, n: nat): int
    requires n <= |gs|
  {
    if n == 0 then 0 else StepsIn(gs, n - 1) + StepsFrom(gs, n - 1, |gs|)
  }

  /** The steps between every galaxy and each later one, summed index by index. */
  function TotalSteps(gs: seq<Galaxy>): int
  {
    StepsIn(gs, |gs|)
  }

  lemma {:induction false} PairsFromSteps(gs: seq<Galaxy>, i: nat, m: nat)
    requires i < |gs| && m <= |gs|
    ensures SumOf(PairsFrom(gs, i, m), PairSteps) == StepsFrom(gs, i, m)
  {
    if m > i + 1 {
      PairsFromSteps(gs, i, m - 1);
      SumOfAppend(PairsFrom(gs, i, m - 1), [(gs[i], gs[m - 1])], PairSteps);
      assert SumOf([(gs[i], gs[m - 1])], PairSteps) == PairSteps((gs[i], gs[m - 1]));
    }
  }

  lemma {:induction false} PairsInSteps(gs: seq<Galaxy>, n: nat)
    requires n <= |gs|
    ensures SumOf(PairsIn(gs, n), PairSteps) == StepsIn(gs, n)
  {
    if n > 0 {
      PairsInSteps(gs, n - 1);
      PairsFromSteps(gs, n - 1, |gs|);
      SumOfAppend(PairsIn(gs, n - 1), PairsFrom(gs, n - 1, |gs|), PairSteps);
    }
  }

  /** Summing the steps over the list of pairs is summing them galaxy by galaxy. */
  lemma PairsTotalSteps(gs: seq<Galaxy>)
    ensures SumOf(Pairs(gs), PairSteps) == TotalSteps(gs)
  {
    PairsInSteps(gs, |gs|);
  }

  // ---------------------------------------------------------------- where expansion moves the galaxies

  /** The column the expansion moves original column `x` to: one further right per empty column up to it. */
  function NewColumn(flags: seq<bool>, x: nat): nat
  {
    x + EmptyBefore(flags, x + 1)
  }

  /** The row the expansion moves original row `y` to: one further down per empty row above it. */
  function NewRow(lines: seq<string>, y: nat): nat
    requires y < |lines|
  {
    y + EmptyRowsBefore(lines, y)
  }

  lemma {:induction false} RowGalaxiesAgree(a: string, b: string, y: int, n: nat)
    requires n <= |a| && n <= |b| && a[..n] == b[..n]
    ensures RowGalaxiesIn(a, y, n) == RowGalaxiesIn(b, y, n)
  {
    if n > 0 {
      assert a[n - 1] == a[..n][n - 1];
      assert a[..n - 1] == a[..n][..n - 1];
      assert b[..n - 1] == b[..n][..n - 1];
      RowGalaxiesAgree(a, b, y, n - 1);
    }
  }

  /** One more character adds a galaxy at the end exactly when it is '#'. */
  lemma RowGalaxiesSnoc(s: string, c: char, y: int)
    ensures RowGalaxiesIn(s + [c], y, |s| + 1)
         == RowGalaxiesIn(s, y, |s|) + (if c == '#' then [Galaxy(Vec2(|s|, y))] else [])
  {
    assert (s + [c])[..|s|] == s[..|s|];
    RowGalaxiesAgree(s + [c], s, y, |s|);
  }

  /** `moved` holds the galaxies of `orig`, one for one and in order, each at its new column in row `y2`. */
  predicate ShiftedTo(flags: seq<bool>, y2: int, orig: seq<Galaxy>, moved: seq<Galaxy>)
  {
    |moved| == |orig|
    && forall k :: 0 <= k < |moved| ==>
         0 <= orig[k].position.x && moved[k] == Galaxy(Vec2(NewColumn(flags, orig[k].position.x), y2))
  }

  /** A galaxy and its moved copy appended together keep the correspondence. */
  lemma ShiftedSnoc(flags: seq<bool>, y2: int, orig: seq<Galaxy>, moved: seq<Galaxy>, x: nat, y1: int)
    requires ShiftedTo(flags, y2, orig, moved)
    ensures ShiftedTo(flags, y2, orig + [Galaxy(Vec2(x, y1))], moved + [Galaxy(Vec2(NewColumn(flags, x), y2))])
  {
  }

  /** The inserted '.' before column `n - 1` adds no galaxy and brings the width to that column's new place. */
  lemma PaddedPrefix(line: string, flags: seq<bool>, y2: int, n: nat)
    requires 0 < n <= |line|
    ensures var prev := ExpandLineIn(line, flags, n - 1);
      var padded := prev + Pad(flags, n - 1);
      RowGalaxiesIn(padded, y2, |padded|) == RowGalaxiesIn(prev, y2, |prev|)
      && |padded| == NewColumn(flags, n - 1)
      && ExpandLineIn(line, flags, n) == padded + [line[n - 1]]
  {
    var prev := ExpandLineIn(line, flags, n - 1);
    if Pad(flags, n - 1) == "." {
      RowGalaxiesSnoc(prev, '.', y2);
    } else {
      assert prev + Pad(flags, n - 1) == prev;
    }
    ExpandLineWidth(line, flags, n - 1);
  }

  /** One more character of the original line keeps the correspondence of `RowShift`. */
  lemma RowShiftStep(line: string, flags: seq<bool>, y1: int, y2: int, n: nat)
    requires 0 < n <= |line|
    requires var prev := ExpandLineIn(line, flags, n - 1);
      ShiftedTo(flags, y2, RowGalaxiesIn(line, y1, n - 1), RowGalaxiesIn(prev, y2, |prev|))
    ensures var e := ExpandLineIn(line, flags, n);
      ShiftedTo(flags, y2, RowGalaxiesIn(line, y1, n), RowGalaxiesIn(e, y2, |e|))
  {
    var prev := ExpandLineIn(line, flags, n - 1);
    var padded := prev + Pad(flags, n - 1);
    var orig, moved := RowGalaxiesIn(line, y1, n - 1), RowGalaxiesIn(prev, y2, |prev|);
    var e := ExpandLineIn(line, flags, n);
    PaddedPrefix(line, flags, y2, n);
    RowGalaxiesSnoc(padded, line[n - 1], y2);
    assert RowGalaxiesIn(e, y2, |e|) == moved + (if line[n - 1] == '#' then [Galaxy(Vec2(NewColumn(flags, n - 1), y2))] else []);
    assert RowGalaxiesIn(line, y1, n) == orig + (if line[n - 1] == '#' then [Galaxy(Vec2(n - 1, y1))] else []);
    if line[n - 1] == '#' {
      ShiftedSnoc(flags, y2, orig, moved, n - 1, y1);
    } else {
      assert orig + [] == orig && moved + [] == moved;
    }
  }

  /** Column expansion keeps a row's galaxies in order and moves each to its new column. */
  lemma {:induction false} RowShift(line: string, flags: seq<bool>, y1: int, y2: int, n: nat)
    requires n <= |line|
    ensures var e := ExpandLineIn(line, flags, n);
      ShiftedTo(flags, y2, RowGalaxiesIn(line, y1, n), RowGalaxiesIn(e, y2, |e|))
  {
    if n > 0 {
      RowShift(line, flags, y1, y2, n - 1);
      RowShiftStep(line, flags, y1, y2, n);
    }
  }

  lemma {:induction false} GalaxiesAgree(a: seq<string>, b: seq<string>, n: nat)
    requires n <= |a| && n <= |b| && a[..n] == b[..n]
    ensures GalaxiesIn(a, n) == GalaxiesIn(b, n)
  {
    if n > 0 {
      assert a[n - 1] == a[..n][n - 1];
      assert a[..n - 1] == a[..n][..n - 1];
      assert b[..n - 1] == b[..n][..n - 1];
      GalaxiesAgree(a, b, n - 1);
    }
  }

  /** One more row adds its galaxies at the end. */
  lemma GalaxiesSnoc(u: seq<string>, row: string)
    ensures GalaxiesIn(u + [row], |u| + 1) == GalaxiesIn(u, |u|) + RowGalaxiesIn(row, |u|, |row|)
  {
    assert (u + [row])[..|u|] == u[..|u|];
    GalaxiesAgree(u + [row], u, |u|);
  }

  /** `galaxies` are the galaxies `orig` moved by the expansion, one for one and in the same order. */
  predicate MovedBy(lines: seq<string>, flags: seq<bool>, orig: seq<Galaxy>, galaxies: seq<Galaxy>)
  {
    |galaxies| == |orig|
    && forall k :: 0 <= k < |orig| ==>
         0 <= orig[k].position.x && 0 <= orig[k].position.y < |lines|
         && galaxies[k].position == Vec2(NewColumn(flags, orig[k].position.x), NewRow(lines, orig[k].position.y))
  }

  /** Moving one more row's galaxies keeps the correspondence. */
  lemma MovedAppend(lines: seq<string>, flags: seq<bool>, o1: seq<Galaxy>, g1: seq<Galaxy>, o2: seq<Galaxy>, g2: seq<Galaxy>)
    requires MovedBy(lines, flags, o1, g1) && MovedBy(lines, flags, o2, g2)
    ensures MovedBy(lines, flags, o1 + o2, g1 + g2)
  {
    assert forall k :: 0 <= k < |o1| ==> (o1 + o2)[k] == o1[k] && (g1 + g2)[k] == g1[k];
    assert forall k :: |o1| <= k < |o1 + o2| ==> (o1 + o2)[k] == o2[k - |o1|] && (g1 + g2)[k] == g2[k - |o1|];
  }

  /** The galaxies of one original row, and of its expanded copy placed at row `y2`. */
  lemma RowMoved(lines: seq<string>, flags: seq<bool>, y: nat, y2: int)
    requires y < |lines| && y2 == NewRow(lines, y)
    ensures var l := lines[y];
      MovedBy(lines, flags, RowGalaxiesIn(l, y, |l|), RowGalaxiesIn(ExpandLine(l, flags), y2, |ExpandLine(l, flags)|))
  {
    var l := lines[y];
    RowShift(l, flags, y, y2, |l|);
    RowGalaxiesFacts(l, y, |l|);
  }

  /** An empty row has no galaxies, and neither has its expanded copy. */
  lemma EmptyRowNoGalaxies(lines: seq<string>, flags: seq<bool>, y: nat, y2: int)
    requires y < |lines| && IsEmptyRow(lines, y)
    ensures RowGalaxiesIn(lines[y], y, |lines[y]|) == []
    ensures RowGalaxiesIn(ExpandLine(lines[y], flags), y2, |ExpandLine(lines[y], flags)|) == []
  {
    var l := lines[y];
    IsEmptyRowSpec(lines, y);
    RowGalaxiesNone(l, y, |l|);
    RowShift(l, flags, y, y2, |l|);
  }

  lemma {:induction false} RowGalaxiesNone(row: string, y: int, n: nat)
    requires n <= |row| && forall x :: 0 <= x < n ==> row[x] != '#'
    ensures RowGalaxiesIn(row, y, n) == []
  {
    if n > 0 {
      RowGalaxiesNone(row, y, n - 1);
    }
  }

  lemma ExpandLinesAppend(rows: seq<string>, t: seq<string>, flags: seq<bool>)
    ensures ExpandLines(rows + t, flags) == ExpandLines(rows, flags) + ExpandLines(t, flags)
  {
  }

  /** The expanded rows one more original row adds: two copies of an empty row, else one. */
  lemma ExpandRowsStep(lines: seq<string>, flags: seq<bool>, n: nat)
    requires 0 < n <= |lines|
    ensures var el := ExpandLine(lines[n - 1], flags);
      ExpandLines(ExpandRowsIn(lines, n), flags)
      == ExpandLines(ExpandRowsIn(lines, n - 1), flags) + (if IsEmptyRow(lines, n - 1) then [el, el] else [el])
  {
    var l := lines[n - 1];
    var t := if IsEmptyRow(lines, n - 1) then [l, l] else [l];
    ExpandLinesAppend(ExpandRowsIn(lines, n - 1), t, flags);
  }

  /** Two expanded copies of an empty row add no galaxies. */
  lemma EmptyRowTwice(lines: seq<string>, flags: seq<bool>, y: nat, u: seq<string>)
    requires y < |lines| && IsEmptyRow(lines, y)
    ensures var el := ExpandLine(lines[y], flags);
      GalaxiesIn(u + [el, el], |u| + 2) == GalaxiesIn(u, |u|)
  {
    var el := ExpandLine(lines[y], flags);
    GalaxiesSnoc(u, el);
    GalaxiesSnoc(u + [el], el);
    EmptyRowNoGalaxies(lines, flags, y, |u|);
    EmptyRowNoGalaxies(lines, flags, y, |u| + 1);
    assert u + [el, el] == u + [el] + [el];
  }

  /** The galaxies the expanded copies of row `n - 1` add to those of the rows above. */
  lemma ExpandedRowGalaxies(lines: seq<string>, flags: seq<bool>, n: nat)
    requires 0 < n <= |lines|
    ensures var u := ExpandLines(ExpandRowsIn(lines, n - 1), flags);
      var w := ExpandLines(ExpandRowsIn(lines, n), flags);
      var el := ExpandLine(lines[n - 1], flags);
      GalaxiesIn(w, |w|) == GalaxiesIn(u, |u|) + RowGalaxiesIn(el, |u|, |el|)
  {
    var u := ExpandLines(ExpandRowsIn(lines, n - 1), flags);
    var el := ExpandLine(lines[n - 1], flags);
    ExpandRowsStep(lines, flags, n);
    if IsEmptyRow(lines, n - 1) {
      EmptyRowTwice(lines, flags, n - 1, u);
      EmptyRowNoGalaxies(lines, flags, n - 1, |u|);
      assert GalaxiesIn(u, |u|) + [] == GalaxiesIn(u, |u|);
    } else {
      GalaxiesSnoc(u, el);
    }
  }

  /** Expanding the first `n` rows moves each of their galaxies to its new row and column. */
  lemma {:induction false} MovedRows(lines: seq<string>, flags: seq<bool>, n: nat)
    requires n <= |lines|
    ensures var u := ExpandLines(ExpandRowsIn(lines, n), flags);
      MovedBy(lines, flags, GalaxiesIn(lines, n), GalaxiesIn(u, |u|))
  {
    if n > 0 {
      MovedRows(lines, flags, n - 1);
      var u := ExpandLines(ExpandRowsIn(lines, n - 1), flags);
      var l := lines[n - 1];
      var el := ExpandLine(l, flags);
      ExpandRowsHeight(lines, n - 1);
      RowMoved(lines, flags, n - 1, |u|);
      ExpandedRowGalaxies(lines, flags, n);
      MovedAppend(lines, flags, GalaxiesIn(lines, n - 1), GalaxiesIn(u, |u|),
                  RowGalaxiesIn(l, n - 1, |l|), RowGalaxiesIn(el, |u|, |el|));
    }
  }

  /**
   * The galaxies of the expanded universe are those of the original, in the same order, each moved
   * right by the number of empty columns up to it and down by the number of empty rows above it.
   */
  lemma ExpansionMovesGalaxies(lines: seq<string>)
    requires WideEnough(lines)
    ensures MovedBy(lines, EmptyColumns(lines), Galaxies(lines), Galaxies(ExpandedUniverse(lines).value))
  {
    MovedRows(lines, EmptyColumns(lines), |lines|);
  }

  // ---------------------------------------------------------------- the example

  /** The ten-by-ten example universe. */
  function ExampleLines(): seq<string>
  {
    ["...#......",
     ".......#..",
     "#.........",
     "..........",
     "......#...",
     ".#........",
     ".........#",
     "..........",
     ".......#..",
     "#...#....."]
  }

  function ExampleGalaxyList(): seq<Galaxy>
  {
    [Galaxy(Vec2(3, 0)), Galaxy(Vec2(7, 1)), Galaxy(Vec2(0, 2)), Galaxy(Vec2(6, 4)), Galaxy(Vec2(1, 5)), Galaxy(Vec2(9, 6)), Galaxy(Vec2(7, 8)), Galaxy(Vec2(0, 9)), Galaxy(Vec2(4, 9))]
  }

  /** The example's galaxies after expansion. */
  function ExampleMoved(): seq<Galaxy>
  {
    [Galaxy(Vec2(4, 0)), Galaxy(Vec2(9, 1)), Galaxy(Vec2(0, 2)), Galaxy(Vec2(8, 5)), Galaxy(Vec2(1, 6)), Galaxy(Vec2(12, 7)), Galaxy(Vec2(9, 10)), Galaxy(Vec2(0, 11)), Galaxy(Vec2(5, 11))]
  }

  lemma ExampleRow0()
    ensures RowGalaxiesIn("...#......", 0, 10) == [Galaxy(Vec2(3, 0))]
  {
    assert RowGalaxiesIn("...#......", 0, 1) == [];
    assert RowGalaxiesIn("...#......", 0, 2) == [];
    assert RowGalaxiesIn("...#......", 0, 3) == [];
    assert RowGalaxiesIn("...#......", 0, 4) == [Galaxy(Vec2(3, 0))];
    assert RowGalaxiesIn("...#......", 0, 5) == [Galaxy(Vec2(3, 0))];
    assert RowGalaxiesIn("...#......", 0, 6) == [Galaxy(Vec2(3, 0))];
    assert RowGalaxiesIn("...#......", 0, 7) == [Galaxy(Vec2(3, 0))];
    assert RowGalaxiesIn("...#......", 0, 8) == [Galaxy(Vec2(3, 0))];
    assert RowGalaxiesIn("...#......", 0, 9) == [Galaxy(Vec2(3, 0))];
  }

  lemma ExampleRow1()
    ensures RowGalaxiesIn(".......#..", 1, 10) == [Galaxy(Vec2(7, 1))]
  {
    assert RowGalaxiesIn(".......#..", 1, 1) == [];
    assert RowGalaxiesIn(".......#..", 1, 2) == [];
    assert RowGalaxiesIn(".......#..", 1, 3) == [];
    assert RowGalaxiesIn(".......#..", 1, 4) == [];
    assert RowGalaxiesIn(".......#..", 1, 5) == [];
    assert RowGalaxiesIn(".......#..", 1, 6) == [];
    assert RowGalaxiesIn(".......#..", 1, 7) == [];
    assert RowGalaxiesIn(".......#..", 1, 8) == [Galaxy(Vec2(7, 1))];
    assert RowGalaxiesIn(".......#..", 1, 9) == [Galaxy(Vec2(7, 1))];
  }

  lemma ExampleRow2()
    ensures RowGalaxiesIn("#.........", 2, 10) == [Galaxy(Vec2(0, 2))]
  {
    assert RowGalaxiesIn("#.........", 2, 1) == [Galaxy(Vec2(0, 2))];
    assert RowGalaxiesIn("#.........", 2, 2) == [Galaxy(Vec2(0, 2))];
    assert RowGalaxiesIn("#.........", 2, 3) == [Galaxy(Vec2(0, 2))];
    assert RowGalaxiesIn("#.........", 2, 4) == [Galaxy(Vec2(0, 2))];
    assert RowGalaxiesIn("#.........", 2, 5) == [Galaxy(Vec2(0, 2))];
    assert RowGalaxiesIn("#.........", 2, 6) == [Galaxy(Vec2(0, 2))];
    assert RowGalaxiesIn("#.........", 2, 7) == [Galaxy(Vec2(0, 2))];
    assert RowGalaxiesIn("#.........", 2, 8) == [Galaxy(Vec2(0, 2))];
    assert RowGalaxiesIn("#.........", 2, 9) == [Galaxy(Vec2(0, 2))];
  }

  lemma ExampleRow3()
    ensures RowGalaxiesIn("..........", 3, 10) == []
  {
    assert RowGalaxiesIn("..........", 3, 1) == [];
    assert RowGalaxiesIn("..........", 3, 2) == [];
    assert RowGalaxiesIn("..........", 3, 3) == [];
    assert RowGalaxiesIn("..........", 3, 4) == [];
    assert RowGalaxiesIn("..........", 3, 5) == [];
    assert RowGalaxiesIn("..........", 3, 6) == [];
    assert RowGalaxiesIn("..........", 3, 7) == [];
    assert RowGalaxiesIn("..........", 3, 8) == [];
    assert RowGalaxiesIn("..........", 3, 9) == [];
  }

  lemma ExampleRow4()
    ensures RowGalaxiesIn("......#...", 4, 10) == [Galaxy(Vec2(6, 4))]
  {
    assert RowGalaxiesIn("......#...", 4, 1) == [];
    assert RowGalaxiesIn("......#...", 4, 2) == [];
    assert RowGalaxiesIn("......#...", 4, 3) == [];
    assert RowGalaxiesIn("......#...", 4, 4) == [];
    assert RowGalaxiesIn("......#...", 4, 5) == [];
    assert RowGalaxiesIn("......#...", 4, 6) == [];
    assert RowGalaxiesIn("......#...", 4, 7) == [Galaxy(Vec2(6, 4))];
    assert RowGalaxiesIn("......#...", 4, 8) == [Galaxy(Vec2(6, 4))];
    assert RowGalaxiesIn("......#...", 4, 9) == [Galaxy(Vec2(6, 4))];
  }

  lemma ExampleRow5()
    ensures RowGalaxiesIn(".#........", 5, 10) == [Galaxy(Vec2(1, 5))]
  {
    assert RowGalaxiesIn(".#........", 5, 1) == [];
    assert RowGalaxiesIn(".#........", 5, 2) == [Galaxy(Vec2(1, 5))];
    assert RowGalaxiesIn(".#........", 5, 3) == [Galaxy(Vec2(1, 5))];
    assert RowGalaxiesIn(".#........", 5, 4) == [Galaxy(Vec2(1, 5))];
    assert RowGalaxiesIn(".#........", 5, 5) == [Galaxy(Vec2(1, 5))];
    assert RowGalaxiesIn(".#........", 5, 6) == [Galaxy(Vec2(1, 5))];
    assert RowGalaxiesIn(".#........", 5, 7) == [Galaxy(Vec2(1, 5))];
    assert RowGalaxiesIn(".#........", 5, 8) == [Galaxy(Vec2(1, 5))];
    assert RowGalaxiesIn(".#........", 5, 9) == [Galaxy(Vec2(1, 5))];
  }

  lemma ExampleRow6()
    ensures RowGalaxiesIn(".........#", 6, 10) == [Galaxy(Vec2(9, 6))]
  {
    assert RowGalaxiesIn(".........#", 6, 1) == [];
    assert RowGalaxiesIn(".........#", 6, 2) == [];
    assert RowGalaxiesIn(".........#", 6, 3) == [];
    assert RowGalaxiesIn(".........#", 6, 4) == [];
    assert RowGalaxiesIn(".........#", 6, 5) == [];
    assert RowGalaxiesIn(".........#", 6, 6) == [];
    assert RowGalaxiesIn(".........#", 6, 7) == [];
    assert RowGalaxiesIn(".........#", 6, 8) == [];
    assert RowGalaxiesIn(".........#", 6, 9) == [];
  }

  lemma ExampleRow7()
    ensures RowGalaxiesIn("..........", 7, 10) == []
  {
    assert RowGalaxiesIn("..........", 7, 1) == [];
    assert RowGalaxiesIn("..........", 7, 2) == [];
    assert RowGalaxiesIn("..........", 7, 3) == [];
    assert RowGalaxiesIn("..........", 7, 4) == [];
    assert RowGalaxiesIn("..........", 7, 5) == [];
    assert RowGalaxiesIn("..........", 7, 6) == [];
    assert RowGalaxiesIn("..........", 7, 7) == [];
    assert RowGalaxiesIn("..........", 7, 8) == [];
    assert RowGalaxiesIn("..........", 7, 9) == [];
  }

  lemma ExampleRow8()
    ensures RowGalaxiesIn(".......#..", 8, 10) == [Galaxy(Vec2(7, 8))]
  {
    assert RowGalaxiesIn(".......#..", 8, 1) == [];
    assert RowGalaxiesIn(".......#..", 8, 2) == [];
    assert RowGalaxiesIn(".......#..", 8, 3) == [];
    assert RowGalaxiesIn(".......#..", 8, 4) == [];
    assert RowGalaxiesIn(".......#..", 8, 5) == [];
    assert RowGalaxiesIn(".......#..", 8, 6) == [];
    assert RowGalaxiesIn(".......#..", 8, 7) == [];
    assert RowGalaxiesIn(".......#..", 8, 8) == [Galaxy(Vec2(7, 8))];
    assert RowGalaxiesIn(".......#..", 8, 9) == [Galaxy(Vec2(7, 8))];
  }

  lemma ExampleRow9()
    ensures RowGalaxiesIn("#...#.....", 9, 10) == [Galaxy(Vec2(0, 9)), Galaxy(Vec2(4, 9))]
  {
    assert RowGalaxiesIn("#...#.....", 9, 1) == [Galaxy(Vec2(0, 9))];
    assert RowGalaxiesIn("#...#.....", 9, 2) == [Galaxy(Vec2(0, 9))];
    assert RowGalaxiesIn("#...#.....", 9, 3) == [Galaxy(Vec2(0, 9))];
    assert RowGalaxiesIn("#...#.....", 9, 4) == [Galaxy(Vec2(0, 9))];
    assert RowGalaxiesIn("#...#.....", 9, 5) == [Galaxy(Vec2(0, 9)), Galaxy(Vec2(4, 9))];
    assert RowGalaxiesIn("#...#.....", 9, 6) == [Galaxy(Vec2(0, 9)), Galaxy(Vec2(4, 9))];
    assert RowGalaxiesIn("#...#.....", 9, 7) == [Galaxy(Vec2(0, 9)), Galaxy(Vec2(4, 9))];
    assert RowGalaxiesIn("#...#.....", 9, 8) == [Galaxy(Vec2(0, 9)), Galaxy(Vec2(4, 9))];
    assert RowGalaxiesIn("#...#.....", 9, 9) == [Galaxy(Vec2(0, 9)), Galaxy(Vec2(4, 9))];
  }

  /** The galaxies of ten rows from the galaxies of each. */
  lemma GalaxiesTen(u: seq<string>, r0: seq<Galaxy>, r1: seq<Galaxy>, r2: seq<Galaxy>, r3: seq<Galaxy>, r4: seq<Galaxy>, r5: seq<Galaxy>, r6: seq<Galaxy>, r7: seq<Galaxy>, r8: seq<Galaxy>, r9: seq<Galaxy>)
    requires |u| == 10
    requires RowGalaxiesIn(u[0], 0, |u[0]|) == r0
    requires RowGalaxiesIn(u[1], 1, |u[1]|) == r1
    requires RowGalaxiesIn(u[2], 2, |u[2]|) == r2
    requires RowGalaxiesIn(u[3], 3, |u[3]|) == r3
    requires RowGalaxiesIn(u[4], 4, |u[4]|) == r4
    requires RowGalaxiesIn(u[5], 5, |u[5]|) == r5
    requires RowGalaxiesIn(u[6], 6, |u[6]|) == r6
    requires RowGalaxiesIn(u[7], 7, |u[7]|) == r7
    requires RowGalaxiesIn(u[8], 8, |u[8]|) == r8
    requires RowGalaxiesIn(u[9], 9, |u[9]|) == r9
    ensures Galaxies(u) == r0 + r1 + r2 + r3 + r4 + r5 + r6 + r7 + r8 + r9
  {
    assert GalaxiesIn(u, 1) == r0;
    assert GalaxiesIn(u, 2) == r0 + r1;
    assert GalaxiesIn(u, 3) == r0 + r1 + r2;
    assert GalaxiesIn(u, 4) == r0 + r1 + r2 + r3;
    assert GalaxiesIn(u, 5) == r0 + r1 + r2 + r3 + r4;
    assert GalaxiesIn(u, 6) == r0 + r1 + r2 + r3 + r4 + r5;
    assert GalaxiesIn(u, 7) == r0 + r1 + r2 + r3 + r4 + r5 + r6;
    assert GalaxiesIn(u, 8) == r0 + r1 + r2 + r3 + r4 + r5 + r6 + r7;
    assert GalaxiesIn(u, 9) == r0 + r1 + r2 + r3 + r4 + r5 + r6 + r7 + r8;
    assert GalaxiesIn(u, 10) == r0 + r1 + r2 + r3 + r4 + r5 + r6 + r7 + r8 + r9;
  }

  /** Ten rows that read as the example's hold its nine galaxies. */
  lemma ExampleRowsGalaxies(u: seq<string>)
    requires |u| == 10
    requires u[0] == "...#......"
    requires u[1] == ".......#.."
    requires u[2] == "#........."
    requires u[3] == ".........."
    requires u[4] == "......#..."
    requires u[5] == ".#........"
    requires u[6] == ".........#"
    requires u[7] == ".........."
    requires u[8] == ".......#.."
    requires u[9] == "#...#....."
    ensures Galaxies(u) == ExampleGalaxyList()
  {
    ExampleRow0();
    ExampleRow1();
    ExampleRow2();
    ExampleRow3();
    ExampleRow4();
    ExampleRow5();
    ExampleRow6();
    ExampleRow7();
    ExampleRow8();
    ExampleRow9();
    assert |u[0]| == 10 && |u[1]| == 10 && |u[2]| == 10 && |u[3]| == 10 && |u[4]| == 10;
    assert |u[5]| == 10 && |u[6]| == 10 && |u[7]| == 10 && |u[8]| == 10 && |u[9]| == 10;
    GalaxiesTen(u, [Galaxy(Vec2(3, 0))], [Galaxy(Vec2(7, 1))], [Galaxy(Vec2(0, 2))], [], [Galaxy(Vec2(6, 4))], [Galaxy(Vec2(1, 5))], [Galaxy(Vec2(9, 6))], [], [Galaxy(Vec2(7, 8))], [Galaxy(Vec2(0, 9)), Galaxy(Vec2(4, 9))]);
    assert [Galaxy(Vec2(3, 0))] + [Galaxy(Vec2(7, 1))] + [Galaxy(Vec2(0, 2))] + [] + [Galaxy(Vec2(6, 4))] + [Galaxy(Vec2(1, 5))]
      + [Galaxy(Vec2(9, 6))] + [] + [Galaxy(Vec2(7, 8))] + [Galaxy(Vec2(0, 9)), Galaxy(Vec2(4, 9))] == ExampleGalaxyList();
  }

  /** The example holds nine galaxies before expansion. */
  lemma ExampleGalaxies()
    ensures Galaxies(ExampleLines()) == ExampleGalaxyList()
  {
    ExampleRowsGalaxies(ExampleLines());
  }

  /** Rows 3 and 7 of the example are its empty rows. */
  lemma ExampleEmptyRows()
    ensures forall y :: 0 <= y < 10 ==> (IsEmptyRow(ExampleLines(), y) <==> y == 3 || y == 7)
  {
    var u := ExampleLines();
    forall y | 0 <= y < 10
      ensures IsEmptyRow(u, y) <==> y == 3 || y == 7
    {
      IsEmptyRowSpec(u, y);
      if y == 0 { assert u[0][3] == '#'; }
      if y == 1 { assert u[1][7] == '#'; }
      if y == 2 { assert u[2][0] == '#'; }
      if y == 4 { assert u[4][6] == '#'; }
      if y == 5 { assert u[5][1] == '#'; }
      if y == 6 { assert u[6][9] == '#'; }
      if y == 8 { assert u[8][7] == '#'; }
      if y == 9 { assert u[9][0] == '#'; }
    }
  }

  /** Columns 2, 5 and 8 of the example are its empty columns. */
  lemma ExampleEmptyColumns()
    ensures EmptyColumns(ExampleLines()) == [false, false, true, false, false, true, false, false, true, false]
  {
    var u := ExampleLines();
    var flags := EmptyColumns(u);
    forall c | 0 <= c < 10
      ensures flags[c] == (c == 2 || c == 5 || c == 8)
    {
      EmptyColumnsAt(u, c);
      IsEmptyColumnSpec(u, c);
      if c == 0 { assert u[2][0] == '#'; }
      if c == 1 { assert u[5][1] == '#'; }
      if c == 3 { assert u[0][3] == '#'; }
      if c == 4 { assert u[9][4] == '#'; }
      if c == 6 { assert u[4][6] == '#'; }
      if c == 7 { assert u[1][7] == '#'; }
      if c == 9 { assert u[6][9] == '#'; }
    }
  }

  /** The example's galaxy columns move by the empty columns 2, 5 and 8 up to them. */
  lemma ExampleNewColumns(flags: seq<bool>)
    requires flags == [false, false, true, false, false, true, false, false, true, false]
    ensures NewColumn(flags, 0) == 0 && NewColumn(flags, 1) == 1 && NewColumn(flags, 3) == 4 && NewColumn(flags, 4) == 5
    ensures NewColumn(flags, 6) == 8 && NewColumn(flags, 7) == 9 && NewColumn(flags, 9) == 12
  {
    assert EmptyBefore(flags, 1) == 0;
    assert EmptyBefore(flags, 2) == 0;
    assert EmptyBefore(flags, 3) == 1;
    assert EmptyBefore(flags, 4) == 1;
    assert EmptyBefore(flags, 5) == 1;
    assert EmptyBefore(flags, 6) == 2;
    assert EmptyBefore(flags, 7) == 2;
    assert EmptyBefore(flags, 8) == 2;
    assert EmptyBefore(flags, 9) == 3;
    assert EmptyBefore(flags, 10) == 3;
  }

  /** The example's galaxy rows move by the empty rows 3 and 7 above them. */
  lemma ExampleNewRows(u: seq<string>)
    requires u == ExampleLines()
    ensures NewRow(u, 0) == 0 && NewRow(u, 1) == 1 && NewRow(u, 2) == 2 && NewRow(u, 4) == 5
    ensures NewRow(u, 5) == 6 && NewRow(u, 6) == 7 && NewRow(u, 8) == 10 && NewRow(u, 9) == 11
  {
    ExampleEmptyRows();
    assert EmptyRowsBefore(u, 1) == 0;
    assert EmptyRowsBefore(u, 2) == 0;
    assert EmptyRowsBefore(u, 3) == 0;
    assert EmptyRowsBefore(u, 4) == 1;
    assert EmptyRowsBefore(u, 5) == 1;
    assert EmptyRowsBefore(u, 6) == 1;
    assert EmptyRowsBefore(u, 7) == 1;
    assert EmptyRowsBefore(u, 8) == 2;
    assert EmptyRowsBefore(u, 9) == 2;
  }

  /** Nine galaxies moved as the example's rows and columns move them. */
  lemma MovedNine(lines: seq<string>, flags: seq<bool>, gs: seq<Galaxy>)
    requires MovedBy(lines, flags, ExampleGalaxyList(), gs)
    requires NewColumn(flags, 0) == 0 && NewColumn(flags, 1) == 1 && NewColumn(flags, 3) == 4 && NewColumn(flags, 4) == 5
    requires NewColumn(flags, 6) == 8 && NewColumn(flags, 7) == 9 && NewColumn(flags, 9) == 12
    requires |lines| == 10
    requires NewRow(lines, 0) == 0 && NewRow(lines, 1) == 1 && NewRow(lines, 2) == 2 && NewRow(lines, 4) == 5
    requires NewRow(lines, 5) == 6 && NewRow(lines, 6) == 7 && NewRow(lines, 8) == 10 && NewRow(lines, 9) == 11
    ensures gs == ExampleMoved()
  {
    var orig := ExampleGalaxyList();
    assert orig[0].position == Vec2(3, 0);
    assert orig[1].position == Vec2(7, 1);
    assert orig[2].position == Vec2(0, 2);
    assert orig[3].position == Vec2(6, 4);
    assert orig[4].position == Vec2(1, 5);
    assert orig[5].position == Vec2(9, 6);
    assert orig[6].position == Vec2(7, 8);
    assert orig[7].position == Vec2(0, 9);
    assert orig[8].position == Vec2(4, 9);
  }

  /** The facts about the example universe that fix where its galaxies move. */
  predicate ExampleShape(u: seq<string>)
  {
    |u| == 10 && WideEnough(u) && Galaxies(u) == ExampleGalaxyList()
    && EmptyColumns(u) == [false, false, true, false, false, true, false, false, true, false]
    && NewRow(u, 0) == 0 && NewRow(u, 1) == 1 && NewRow(u, 2) == 2 && NewRow(u, 4) == 5 && NewRow(u, 5) == 6 && NewRow(u, 6) == 7 && NewRow(u, 8) == 10 && NewRow(u, 9) == 11
  }

  /** The example is ten rows of ten. */
  lemma ExampleWide()
    ensures |ExampleLines()| == 10 && WideEnough(ExampleLines())
  {
    var u := ExampleLines();
    forall i | 0 <= i < |u|
      ensures |u[i]| == 10
    {
    }
  }

  lemma ExampleHasShape(u: seq<string>)
    requires u == ExampleLines()
    ensures ExampleShape(u)
  {
    ExampleWide();
    ExampleGalaxies();
    ExampleEmptyColumns();
    ExampleNewRows(u);
  }

  /** A universe of that shape expands to the galaxies below. */
  lemma ShapeExpanded(u: seq<string>)
    requires ExampleShape(u)
    ensures ExpandedUniverse(u).Ok?
    ensures Galaxies(ExpandedUniverse(u).value) == ExampleMoved()
  {
    ExpansionMovesGalaxies(u);
    ExampleNewColumns(EmptyColumns(u));
    MovedNine(u, EmptyColumns(u), Galaxies(ExpandedUniverse(u).value));
  }

  lemma ExampleStepsFrom0()
    ensures StepsFrom(ExampleMoved(), 0, 9) == 87
  {
  }

  lemma ExampleStepsFrom1()
    ensures StepsFrom(ExampleMoved(), 1, 9) == 79
  {
  }

  lemma ExampleStepsFrom2()
    ensures StepsFrom(ExampleMoved(), 2, 9) == 73
  {
  }

  lemma ExampleStepsFrom3()
    ensures StepsFrom(ExampleMoved(), 3, 9) == 43
  {
  }

  lemma ExampleStepsFrom4()
    ensures StepsFrom(ExampleMoved(), 4, 9) == 39
  {
  }

  lemma ExampleStepsFrom5()
    ensures StepsFrom(ExampleMoved(), 5, 9) == 33
  {
  }

  lemma ExampleStepsFrom6()
    ensures StepsFrom(ExampleMoved(), 6, 9) == 15
  {
  }

  lemma ExampleStepsFrom7()
    ensures StepsFrom(ExampleMoved(), 7, 9) == 5
  {
  }

  lemma ExampleStepsFrom8()
    ensures StepsFrom(ExampleMoved(), 8, 9) == 0
  {
  }

  /** One more term of `StepsIn`. */
  lemma StepsInNext(gs: seq<Galaxy>, n: nat, prev: int, v: int)
    requires 0 < n <= |gs| && StepsIn(gs, n - 1) == prev && StepsFrom(gs, n - 1, |gs|) == v
    ensures StepsIn(gs, n) == prev + v
  {
  }

  /** `StepsIn` of nine galaxies from the steps of each. */
  lemma StepsInNine(gs: seq<Galaxy>, v0: int, v1: int, v2: int, v3: int, v4: int, v5: int, v6: int, v7: int, v8: int)
    requires |gs| == 9
    requires StepsFrom(gs, 0, 9) == v0
    requires StepsFrom(gs, 1, 9) == v1
    requires StepsFrom(gs, 2, 9) == v2
    requires StepsFrom(gs, 3, 9) == v3
    requires StepsFrom(gs, 4, 9) == v4
    requires StepsFrom(gs, 5, 9) == v5
    requires StepsFrom(gs, 6, 9) == v6
    requires StepsFrom(gs, 7, 9) == v7
    requires StepsFrom(gs, 8, 9) == v8
    ensures StepsIn(gs, 9) == v0 + v1 + v2 + v3 + v4 + v5 + v6 + v7 + v8
  {
    StepsInNext(gs, 1, 0, v0);
    StepsInNext(gs, 2, v0, v1);
    StepsInNext(gs, 3, v0 + v1, v2);
    StepsInNext(gs, 4, v0 + v1 + v2, v3);
    StepsInNext(gs, 5, v0 + v1 + v2 + v3, v4);
    StepsInNext(gs, 6, v0 + v1 + v2 + v3 + v4, v5);
    StepsInNext(gs, 7, v0 + v1 + v2 + v3 + v4 + v5, v6);
    StepsInNext(gs, 8, v0 + v1 + v2 + v3 + v4 + v5 + v6, v7);
    StepsInNext(gs, 9, v0 + v1 + v2 + v3 + v4 + v5 + v6 + v7, v8);
  }

  /** The steps between all pairs of the expanded example. */
  lemma ExampleSums()
    ensures StepsIn(ExampleMoved(), 9) == 374
  {
    ExampleStepsFrom0();
    ExampleStepsFrom1();
    ExampleStepsFrom2();
    ExampleStepsFrom3();
    ExampleStepsFrom4();
    ExampleStepsFrom5();
    ExampleStepsFrom6();
    ExampleStepsFrom7();
    ExampleStepsFrom8();
    StepsInNine(ExampleMoved(), 87, 79, 73, 43, 39, 33, 15, 5, 0);
  }

  /** Nine galaxies in total: the steps of their pairs and how many pairs there are. */
  lemma TotalOfNine(gs: seq<Galaxy>, v: int)
    requires |gs| == 9 && StepsIn(gs, 9) == v
    ensures TotalSteps(gs) == v
    ensures |Pairs(gs)| == 36
  {
    PairsCount(gs);
  }

  /** The source's assertions on the example: 9 galaxies, 36 pairs and 374 steps in total. */
  lemma Example(u: seq<string>)
    requires u == ExampleLines()
    ensures ExpandedUniverse(u).Ok?
    ensures |Galaxies(ExpandedUniverse(u).value)| == 9
    ensures |Pairs(Galaxies(ExpandedUniverse(u).value))| == 36
    ensures TotalSteps(Galaxies(ExpandedUniverse(u).value)) == 374
  {
    ExampleHasShape(u);
    ShapeExpanded(u);
    ExampleSums();
    TotalOfNine(ExampleMoved(), 374);
  }
}
