/** Day 3: the engine schematic — its numbers and the symbols around them (03/map.py). */
module Day03Map {
  import opened Wrappers
  import opened Strings
  import opened Numbers
  import opened Lists

  /** `Char`: one character of the schematic and where it stands. */
  datatype Char = Char(x: int, y: int, symbol: char)

  /** `Word`: the characters of one number, left to right. */
  datatype Word = Word(chars: seq<Char>)

  // ---------------------------------------------------------------- Word

  /** `Word.getString`: the word's characters joined. */
  function GetString(w: Word): (s: string)
    ensures |s| == |w.chars| && forall i :: 0 <= i < |s| ==> s[i] == w.chars[i].symbol
  {
    seq(|w.chars|, i requires 0 <= i < |w.chars| => w.chars[i].symbol)
  }

  /** `Word.getNumber`: `int` of the word's text. */
  function GetNumber(w: Word): Result<int>
  {
    ReadInt(GetString(w))
  }

  /** A word of digits is worth the decimal value of its digits; an empty word raises ValueError. */
  lemma GetNumberSpec(w: Word)
    ensures (|w.chars| > 0 && forall i :: 0 <= i < |w.chars| ==> IsDigit(w.chars[i].symbol)) ==>
      AllDigits(GetString(w), 10) && GetNumber(w) == Ok(DigitsValue(GetString(w), 10))
    ensures w.chars == [] ==> GetNumber(w) == Err("ValueError")
  {
    if |w.chars| > 0 && forall i :: 0 <= i < |w.chars| ==> IsDigit(w.chars[i].symbol) {
      ParseDigits(GetString(w));
    }
    if w.chars == [] {
      StripNoSpace(GetString(w));
    }
  }

  // ---------------------------------------------------------------- Map and its constructor

  /** `Map`: the width of the first line, the number of lines, and the characters row by row. */
  datatype Map = Map(width: nat, height: nat, chars: seq<seq<Char>>)

  /** What the constructor establishes: one row per line, and every character knows its own coordinates. */
  ghost predicate Valid(m: Map)
  {
    m.height == |m.chars|
    && forall y, x :: 0 <= y < |m.chars| && 0 <= x < |m.chars[y]| ==> m.chars[y][x].x == x && m.chars[y][x].y == y
  }

  /** The characters of line `y`, each with its coordinates. */
  function RowCells(line: string, y: int): (row: seq<Char>)
    ensures |row| == |line| && forall x :: 0 <= x < |line| ==> row[x] == Char(x, y, line[x])
  {
    seq(|line|, x requires 0 <= x < |line| => Char(x, y, line[x]))
  }

  /** The rows of the first `n` lines. */
  function CellsIn(lines: seq<string>, n: nat): (rows: seq<seq<Char>>)
    requires n <= |lines|
    ensures |rows| == n
  {
    if n == 0 then [] else CellsIn(lines, n - 1) + [RowCells(lines[n - 1], n - 1)]
  }

  /** The map the constructor builds, or the IndexError of `lines[0]` on no lines. */
  function MapOf(lines: seq<string>): Result<Map>
  {
    if |lines| == 0 then Err("IndexError") else Ok(Map(|lines[0]|, |lines|, CellsIn(lines, |lines|)))
  }

  lemma {:induction false} CellsInSpec(lines: seq<string>, n: nat)
    requires n <= |lines|
    ensures forall y :: 0 <= y < n ==> CellsIn(lines, n)[y] == RowCells(lines[y], y)
  {
    if n > 0 {
      CellsInSpec(lines, n - 1);
    }
  }

  /** The map of some lines has their width and height, and holds the character at `(x, y)` in row `y`, column `x`, with those coordinates. */
  lemma MapOfSpec(lines: seq<string>)
    ensures MapOf(lines).Ok? <==> |lines| > 0
    ensures MapOf(lines).Ok? ==> var m := MapOf(lines).value;
      Valid(m) && m.width == |lines[0]| && m.height == |lines|
      && (forall y :: 0 <= y < |lines| ==> |m.chars[y]| == |lines[y]|)
      && forall y, x :: 0 <= y < |lines| && 0 <= x < |lines[y]| ==> m.chars[y][x] == Char(x, y, lines[y][x])
  {
    CellsInSpec(lines, |lines|);
  }

  /** `Map(lines)`: the width of the first line, then a loop over the lines and an inner one over their characters. */
  method NewMap(lines: seq<string>) returns (r: Result<Map>)
    ensures r == MapOf(lines)
  {
    if |lines| == 0 {
      return Err("IndexError");
    }
    var width := |lines[0]|;
    var height := |lines|;
    var chars: seq<seq<Char>> := [];
    for k := 0 to |lines|
      invariant chars == CellsIn(lines, k)
    {
      var y := |chars|;
      var row: seq<Char> := [];
      for j := 0 to |lines[k]|
        invariant |row| == j && forall i :: 0 <= i < j ==> row[i] == Char(i, y, lines[k][i])
      {
        var x := |row|;
        row := row + [Char(x, y, lines[k][j])];
      }
      assert row == RowCells(lines[k], k);
      chars := chars + [row];
    }
    return Ok(Map(width, height, chars));
  }

  // ---------------------------------------------------------------- getChar

  /** Python's index `i` into a list of length `n`: negative indices count from the end. */
  function PyIndex(i: int, n: nat): (r: Option<nat>)
    ensures r.Some? ==> r.value < n
  {
    if 0 <= i < n then Some(i) else if -(n as int) <= i < 0 then Some(n + i) else None
  }

  /** `getChar`: `chars[y][x]`, with Python's indexing. */
  function GetChar(m: Map, x: int, y: int): (r: Result<Char>)
    ensures r.Err? ==> r.error == "IndexError"
  {
    match PyIndex(y, |m.chars|)
    case None => Err("IndexError")
    case Some(j) =>
      match PyIndex(x, |m.chars[j]|)
      case None => Err("IndexError")
      case Some(i) => Ok(m.chars[j][i])
  }

  /** On coordinates that are not negative, `getChar` gives the character stored there, and fails exactly past the row or the map. */
  lemma GetCharSpec(m: Map, x: nat, y: nat)
    ensures GetChar(m, x, y).Ok? <==> y < |m.chars| && x < |m.chars[y]|
    ensures GetChar(m, x, y).Ok? ==> GetChar(m, x, y).value == m.chars[y][x]
  {
  }

  /** A negative coordinate counts back from the end of its row or of the map. */
  lemma GetCharNegative(m: Map, x: int, y: int)
    requires 0 < |m.chars| && -|m.chars| <= y < 0
    ensures GetChar(m, x, y) == GetChar(m, x, y + |m.chars|)
  {
  }

  // ---------------------------------------------------------------- getNeighbors

  /** `max(0, v - 1)`. */
  function Low(v: int): int
  {
    if v - 1 > 0 then v - 1 else 0
  }

  /** `min(bound, v + 2)`. */
  function High(v: int, bound: nat): int
  {
    if v + 2 < bound then v + 2 else bound
  }

  /** The cells `getNeighbors` visits in column `xi`, rows `Low(c.y)` up to `yEnd`, leaving out `c` itself. */
  function ColumnCells(c: Char, xi: int, yEnd: int): seq<(int, int)>
    decreases yEnd - Low(c.y)
  {
    if yEnd <= Low(c.y) then []
    else ColumnCells(c, xi, yEnd - 1) + (if xi == c.x && yEnd - 1 == c.y then [] else [(xi, yEnd - 1)])
  }

  /** The cells `getNeighbors` visits in the columns `Low(c.x)` up to `xEnd`, column by column. */
  function NeighborCells(m: Map, c: Char, xEnd: int): seq<(int, int)>
    decreases xEnd - Low(c.x)
  {
    if xEnd <= Low(c.x) then [] else NeighborCells(m, c, xEnd - 1) + ColumnCells(c, xEnd - 1, High(c.y, m.height))
  }

  /** All the cells `getNeighbors` visits. */
  function CellsAround(m: Map, c: Char): seq<(int, int)>
  {
    NeighborCells(m, c, High(c.x, m.width))
  }

  /** `getChar` on every cell of `cells` in order, or the error of the first one missing. */
  function CharsAt(m: Map, cells: seq<(int, int)>): Result<seq<Char>>
    decreases |cells|
  {
    if cells == [] then Ok([])
    else
      var p := cells[|cells| - 1];
      match CharsAt(m, cells[..|cells| - 1])
      case Err(e) => Err(e)
      case Ok(u) => (match GetChar(m, p.0, p.1) case Err(e) => Err(e) case Ok(v) => Ok(u + [v]))
  }

  /** One cell more. */
  lemma CharsAtSnoc(m: Map, cells: seq<(int, int)>, p: (int, int))
    ensures CharsAt(m, cells + [p]) ==
      match CharsAt(m, cells)
      case Err(e) => Err(e)
      case Ok(u) => (match GetChar(m, p.0, p.1) case Err(e) => Err(e) case Ok(v) => Ok(u + [v]))
  {
    assert (cells + [p])[..|cells|] == cells;
  }

  /** A failure among the first cells is the failure of all of them. */
  lemma {:induction false} CharsAtPrefixErr(m: Map, a: seq<(int, int)>, b: seq<(int, int)>)
    requires a <= b && CharsAt(m, a).Err?
    ensures CharsAt(m, b) == CharsAt(m, a)
    decreases |b|
  {
    if |a| < |b| {
      assert a <= b[..|b| - 1];
      CharsAtPrefixErr(m, a, b[..|b| - 1]);
    } else {
      assert a == b;
    }
  }

  /** Where every cell has a character, the characters of all cells in order. */
  lemma {:induction false} CharsAtSpec(m: Map, cells: seq<(int, int)>)
    requires forall k :: 0 <= k < |cells| ==> GetChar(m, cells[k].0, cells[k].1).Ok?
    ensures CharsAt(m, cells).Ok? && |CharsAt(m, cells).value| == |cells|
    ensures forall k :: 0 <= k < |cells| ==> GetChar(m, cells[k].0, cells[k].1) == Ok(CharsAt(m, cells).value[k])
    decreases |cells|
  {
    if cells != [] {
      var init := cells[..|cells| - 1];
      assert forall k :: 0 <= k < |init| ==> init[k] == cells[k];
      CharsAtSpec(m, init);
    }
  }

  /** What `getNeighbors` returns: the character of every visited cell, or the IndexError of the first one missing. */
  function Neighbors(m: Map, c: Char): Result<seq<Char>>
  {
    CharsAt(m, CellsAround(m, c))
  }

  lemma {:induction false} ColumnCellsSpec(c: Char, xi: int, yEnd: int, p: (int, int))
    ensures p in ColumnCells(c, xi, yEnd) <==> p.0 == xi && Low(c.y) <= p.1 < yEnd && p != (c.x, c.y)
    decreases yEnd - Low(c.y)
  {
    if yEnd > Low(c.y) {
      ColumnCellsSpec(c, xi, yEnd - 1, p);
    }
  }

  lemma {:induction false} NeighborCellsSpec(m: Map, c: Char, xEnd: int, p: (int, int))
    ensures p in NeighborCells(m, c, xEnd) <==>
      Low(c.x) <= p.0 < xEnd && Low(c.y) <= p.1 < High(c.y, m.height) && p != (c.x, c.y)
    decreases xEnd - Low(c.x)
  {
    if xEnd > Low(c.x) {
      NeighborCellsSpec(m, c, xEnd - 1, p);
      ColumnCellsSpec(c, xEnd - 1, High(c.y, m.height), p);
    }
  }

  /** The visited cells are the cells of the map in the 3×3 block around `c`, except `c` itself. */
  lemma CellsAroundSpec(m: Map, c: Char, p: (int, int))
    ensures p in CellsAround(m, c) <==>
      0 <= p.0 < m.width && 0 <= p.1 < m.height && c.x - 1 <= p.0 <= c.x + 1 && c.y - 1 <= p.1 <= c.y + 1 && p != (c.x, c.y)
  {
    NeighborCellsSpec(m, c, High(c.x, m.width), p);
  }

  /** A corner of a map at least two wide and two high has three neighbours. */
  lemma CornerNeighbors(m: Map, ch: char)
    requires m.width >= 2 && m.height >= 2
    ensures CellsAround(m, Char(0, 0, ch)) == [(0, 1), (1, 0), (1, 1)]
  {
    var c := Char(0, 0, ch);
    assert ColumnCells(c, 0, 2) == [(0, 1)] by {
      assert ColumnCells(c, 0, 1) == [];
    }
    assert ColumnCells(c, 1, 2) == [(1, 0), (1, 1)] by {
      assert ColumnCells(c, 1, 0) == [];
      assert ColumnCells(c, 1, 1) == [(1, 0)];
    }
    assert NeighborCells(m, c, 1) == [(0, 1)];
  }

  /** Every row at least as long as the map is wide: the maps on which `getNumbers` succeeds. */
  predicate WideEnough(m: Map)
  {
    forall y :: 0 <= y < |m.chars| ==> m.width <= |m.chars[y]|
  }

  /** On a map whose rows are all as wide as the map, `getNeighbors` succeeds with the character of every visited cell, each with its own coordinates. */
  lemma NeighborsSpec(m: Map, c: Char)
    requires Valid(m) && WideEnough(m)
    ensures Neighbors(m, c).Ok?
    ensures var cells, ns := CellsAround(m, c), Neighbors(m, c).value;
      |ns| == |cells| && forall k :: 0 <= k < |ns| ==> GetChar(m, cells[k].0, cells[k].1) == Ok(ns[k]) && (ns[k].x, ns[k].y) == cells[k]
  {
    var cells := CellsAround(m, c);
    forall k | 0 <= k < |cells|
      ensures 0 <= cells[k].1 < |m.chars| && 0 <= cells[k].0 < |m.chars[cells[k].1]|
      ensures GetChar(m, cells[k].0, cells[k].1) == Ok(m.chars[cells[k].1][cells[k].0])
    {
      CellsAroundSpec(m, c, cells[k]);
    }
    CharsAtSpec(m, cells);
  }

  /** The cells of the first columns come first. */
  lemma {:induction false} NeighborCellsPrefix(m: Map, c: Char, a: int, b: int)
    requires a <= b
    ensures NeighborCells(m, c, a) <= NeighborCells(m, c, b)
    decreases b - a
  {
    if a < b {
      NeighborCellsPrefix(m, c, a, b - 1);
      if b > Low(c.x) {
        assert NeighborCells(m, c, b - 1) <= NeighborCells(m, c, b);
      }
    }
  }

  /** The inner loop of `getNeighbors`: the rows of column `xi` around `c`, appended to what the cells `done` gave. */
  method VisitColumn(m: Map, c: Char, xi: int, ghost done: seq<(int, int)>, neighbors: seq<Char>) returns (r: Result<seq<Char>>)
    requires CharsAt(m, done) == Ok(neighbors)
    ensures r == CharsAt(m, done + ColumnCells(c, xi, High(c.y, m.height)))
  {
    var found := neighbors;
    var miny, maxy := Low(c.y), High(c.y, m.height);
    var yi := miny;
    assert done + ColumnCells(c, xi, yi) == done;
    while yi < maxy
      invariant miny <= yi && (yi <= maxy || yi == miny)
      invariant CharsAt(m, done + ColumnCells(c, xi, yi)) == Ok(found)
      decreases maxy - yi
    {
      ColumnStep(m, c, xi, done, yi, found);
      if xi == c.x && yi == c.y {
        yi := yi + 1;
        continue;
      }
      var n := GetChar(m, xi, yi);
      if n.Err? {
        return Err(n.error);
      }
      found := found + [n.value];
      yi := yi + 1;
    }
    assert yi < maxy ==> ColumnCells(c, xi, maxy) == [];
    return Ok(found);
  }

  /** One row more of column `xi`: nothing at the centre, the cell itself elsewhere. */
  lemma ColumnNext(c: Char, xi: int, done: seq<(int, int)>, yi: int)
    requires Low(c.y) <= yi
    ensures xi == c.x && yi == c.y ==> done + ColumnCells(c, xi, yi + 1) == done + ColumnCells(c, xi, yi)
    ensures !(xi == c.x && yi == c.y) ==> done + ColumnCells(c, xi, yi + 1) == (done + ColumnCells(c, xi, yi)) + [(xi, yi)]
  {
  }

  /** One row of column `xi`: the centre is skipped, any other cell adds its character, or its failure is the column's. */
  lemma ColumnStep(m: Map, c: Char, xi: int, done: seq<(int, int)>, yi: int, found: seq<Char>)
    requires Low(c.y) <= yi < High(c.y, m.height) && CharsAt(m, done + ColumnCells(c, xi, yi)) == Ok(found)
    ensures xi == c.x && yi == c.y ==> CharsAt(m, done + ColumnCells(c, xi, yi + 1)) == Ok(found)
    ensures !(xi == c.x && yi == c.y) && GetChar(m, xi, yi).Ok? ==>
      CharsAt(m, done + ColumnCells(c, xi, yi + 1)) == Ok(found + [GetChar(m, xi, yi).value])
    ensures !(xi == c.x && yi == c.y) && GetChar(m, xi, yi).Err? ==>
      CharsAt(m, done + ColumnCells(c, xi, High(c.y, m.height))) == Err(GetChar(m, xi, yi).error)
  {
    ColumnNext(c, xi, done, yi);
    if !(xi == c.x && yi == c.y) {
      CharsAtSnoc(m, done + ColumnCells(c, xi, yi), (xi, yi));
      if GetChar(m, xi, yi).Err? {
        ColumnErr(m, c, xi, done, yi + 1, High(c.y, m.height));
      }
    }
  }

  lemma PrefixAfter<T>(done: seq<T>, a: seq<T>, b: seq<T>)
    requires a <= b
    ensures done + a <= done + b
  {
    assert b == a + b[|a|..];
    assert done + b == (done + a) + b[|a|..];
  }

  /** A failure in the first rows of a column is the failure of the whole column. */
  lemma ColumnErr(m: Map, c: Char, xi: int, done: seq<(int, int)>, a: int, b: int)
    requires a <= b && CharsAt(m, done + ColumnCells(c, xi, a)).Err?
    ensures CharsAt(m, done + ColumnCells(c, xi, b)) == CharsAt(m, done + ColumnCells(c, xi, a))
  {
    ColumnPrefix(c, xi, a, b);
    PrefixAfter(done, ColumnCells(c, xi, a), ColumnCells(c, xi, b));
    CharsAtPrefixErr(m, done + ColumnCells(c, xi, a), done + ColumnCells(c, xi, b));
  }

  /** The cells of the first rows of a column come first. */
  lemma {:induction false} ColumnPrefix(c: Char, xi: int, a: int, b: int)
    requires a <= b
    ensures ColumnCells(c, xi, a) <= ColumnCells(c, xi, b)
    decreases b - a
  {
    if a < b {
      ColumnPrefix(c, xi, a, b - 1);
      if b > Low(c.y) {
        assert ColumnCells(c, xi, b - 1) <= ColumnCells(c, xi, b);
      }
    }
  }

  /** The visited cells of one more column. */
  lemma NextColumn(m: Map, c: Char, xi: int)
    requires Low(c.x) <= xi
    ensures NeighborCells(m, c, xi + 1) == NeighborCells(m, c, xi) + ColumnCells(c, xi, High(c.y, m.height))
  {
  }

  /** A failure in the columns up to `xi` is the failure of `getNeighbors`. */
  lemma NeighborsErr(m: Map, c: Char, xi: int)
    requires Low(c.x) <= xi < High(c.x, m.width)
    requires CharsAt(m, NeighborCells(m, c, xi) + ColumnCells(c, xi, High(c.y, m.height))).Err?
    ensures Neighbors(m, c) == CharsAt(m, NeighborCells(m, c, xi) + ColumnCells(c, xi, High(c.y, m.height)))
  {
    NextColumn(m, c, xi);
    var xEnd := xi + 1;
    NeighborCellsPrefix(m, c, xEnd, High(c.x, m.width));
    CharsAtPrefixErr(m, NeighborCells(m, c, xEnd), CellsAround(m, c));
  }

  /** `getNeighbors`: a loop over the columns around `c`, and in each the rows around it, skipping `c` itself. */
  method GetNeighbors(m: Map, c: Char) returns (r: Result<seq<Char>>)
    ensures r == Neighbors(m, c)
  {
    var neighbors: seq<Char> := [];
    var minx, maxx := Low(c.x), High(c.x, m.width);
    var xi := minx;
    while xi < maxx
      invariant minx <= xi && (xi <= maxx || xi == minx)
      invariant CharsAt(m, NeighborCells(m, c, xi)) == Ok(neighbors)
      decreases maxx - xi
    {
      var column := VisitColumn(m, c, xi, NeighborCells(m, c, xi), neighbors);
      if column.Err? {
        NeighborsErr(m, c, xi);
        return column;
      }
      NextColumn(m, c, xi);
      neighbors := column.value;
      xi := xi + 1;
    }
    assert xi < maxx ==> NeighborCells(m, c, maxx) == [];
    return Ok(neighbors);
  }

  // ---------------------------------------------------------------- getNumbers

  predicate IsDigitCell(c: Char)
  {
    IsDigit(c.symbol)
  }

  /** The number of digits at the front of `cells`. */
  function LeadingDigits(cells: seq<Char>): (n: nat)
    ensures n <= |cells| && (forall k :: 0 <= k < n ==> IsDigitCell(cells[k])) && (n < |cells| ==> !IsDigitCell(cells[n]))
  {
    if cells == [] || !IsDigitCell(cells[0]) then 0 else 1 + LeadingDigits(cells[1..])
  }

  /** The maximal runs of digits of a row, left to right. */
  function Runs(cells: seq<Char>): seq<Word>
    decreases |cells|
  {
    if cells == [] then []
    else if !IsDigitCell(cells[0]) then Runs(cells[1..])
    else
      var n := LeadingDigits(cells);
      [Word(cells[..n])] + Runs(cells[n..])
  }

  /** The numbers of the first `n` rows, row by row. */
  function NumbersIn(m: Map, n: nat): seq<Word>
    requires n <= |m.chars| && forall y :: 0 <= y < n ==> m.width <= |m.chars[y]|
  {
    if n == 0 then [] else NumbersIn(m, n - 1) + Runs(m.chars[n - 1][..m.width])
  }

  /** What `getNumbers` returns: the digit runs of every row within the width, or the IndexError of a shorter row. */
  function NumberWords(m: Map): Result<seq<Word>>
    requires Valid(m)
  {
    if WideEnough(m) then Ok(NumbersIn(m, m.height)) else Err("IndexError")
  }

  /** Digits that will make one number with what follows. */
  ghost predicate AllDigitCells(cells: seq<Char>)
  {
    forall k :: 0 <= k < |cells| ==> IsDigitCell(cells[k])
  }

  /** What reading `ch` does to the pending number `current`: the pending digits after it. */
  function Pending(current: seq<Char>, ch: Char, last: bool): seq<Char>
  {
    var grown := if IsDigitCell(ch) then current + [ch] else current;
    if |grown| > 0 && (!IsDigitCell(ch) || last) then [] else grown
  }

  /** ... and the number it closes, if any. */
  function Closed(current: seq<Char>, ch: Char, last: bool): seq<Word>
  {
    var grown := if IsDigitCell(ch) then current + [ch] else current;
    if |grown| > 0 && (!IsDigitCell(ch) || last) then [Word(grown)] else []
  }

  /** A digit at the last column closes the number it ends. */
  lemma RunsLastDigit(run: seq<Char>)
    requires |run| > 0 && AllDigitCells(run)
    ensures Runs(run) == [Word(run)]
  {
    assert LeadingDigits(run) == |run|;
    assert run[..|run|] == run && run[|run|..] == [];
  }

  /** Another character closes the pending number, and the rest is read afresh. */
  lemma RunsEnded(current: seq<Char>, ch: Char, rest: seq<Char>)
    requires |current| > 0 && AllDigitCells(current) && !IsDigitCell(ch)
    ensures Runs(current + ([ch] + rest)) == [Word(current)] + Runs(rest)
  {
    var cells := current + ([ch] + rest);
    assert cells[|current|] == ch;
    assert LeadingDigits(cells) == |current|;
    assert cells[..|current|] == current;
    assert cells[|current|..] == [ch] + rest;
    RunsSkipped(ch, rest);
  }

  /** Another character with no pending number is skipped. */
  lemma RunsSkipped(ch: Char, rest: seq<Char>)
    requires !IsDigitCell(ch)
    ensures Runs([ch] + rest) == Runs(rest)
  {
    assert ([ch] + rest)[1..] == rest;
  }

  /** Reading one character keeps the words still to come: closed now, or read later from the pending digits. */
  lemma RunsStep(current: seq<Char>, ch: Char, rest: seq<Char>, last: bool)
    requires AllDigitCells(current) && (last ==> rest == [])
    ensures AllDigitCells(Pending(current, ch, last)) && (last ==> Pending(current, ch, last) == [])
    ensures Closed(current, ch, last) + Runs(Pending(current, ch, last) + rest) == Runs(current + ([ch] + rest))
  {
    if IsDigitCell(ch) {
      var run := current + [ch];
      assert AllDigitCells(run);
      assert current + ([ch] + rest) == run + rest;
      if last {
        RunsLastDigit(run);
        assert run + rest == run;
      }
    } else if current != [] {
      RunsEnded(current, ch, rest);
      assert Pending(current, ch, last) + rest == rest;
    } else {
      assert current + ([ch] + rest) == [ch] + rest;
      assert Pending(current, ch, last) + rest == rest;
      RunsSkipped(ch, rest);
    }
  }

  /** One column of a row read by `getNumbers` keeps the words of the row. */
  lemma RowStep(row: seq<Char>, w: nat, x: nat, found: seq<Word>, current: seq<Char>, target: seq<Word>)
    requires x < w <= |row| && AllDigitCells(current)
    requires found + Runs(current + row[x..w]) == target
    ensures found + Closed(current, row[x], x == w - 1) + Runs(Pending(current, row[x], x == w - 1) + row[x + 1..w]) == target
  {
    var rest := row[x + 1..w];
    assert row[x..w] == [row[x]] + rest;
    RunsStep(current, row[x], rest, x == w - 1);
  }

  /** What stays pending is a run of digits, and nothing stays pending after the last column. */
  lemma PendingDigits(current: seq<Char>, ch: Char, last: bool)
    requires AllDigitCells(current)
    ensures AllDigitCells(Pending(current, ch, last)) && (last ==> Pending(current, ch, last) == [])
  {
    RunsStep(current, ch, [], last);
  }

  /** The inner loop of `getNumbers`: one row, closing a number at another character or at the last column. */
  method RowNumbers(m: Map, y: nat, numbers: seq<Word>) returns (r: Result<seq<Word>>)
    requires y < |m.chars|
    ensures m.width <= |m.chars[y]| ==> r == Ok(numbers + Runs(m.chars[y][..m.width]))
    ensures m.width > |m.chars[y]| ==> r == Err("IndexError")
  {
    var found := numbers;
    var current: seq<Char> := [];
    ghost var row := m.chars[y];
    ghost var wide := m.width <= |row|;
    assert wide ==> current + row[0..m.width] == row[..m.width];
    for x := 0 to m.width
      invariant x <= |row| && AllDigitCells(current) && (current == [] || x < m.width)
      invariant wide ==> found + Runs(current + row[x..m.width]) == numbers + Runs(row[..m.width])
    {
      GetCharSpec(m, x, y);
      var c := GetChar(m, x, y);
      if c.Err? {
        return Err(c.error);
      }
      var ch := c.value;
      if wide {
        RowStep(row, m.width, x, found, current, numbers + Runs(row[..m.width]));
      }
      PendingDigits(current, ch, x == m.width - 1);
      ghost var closed, pending := Closed(current, ch, x == m.width - 1), Pending(current, ch, x == m.width - 1);
      ghost var before := found;
      if IsDigit(ch.symbol) {
        current := current + [ch];
      }
      if |current| > 0 && (!IsDigit(ch.symbol) || x == m.width - 1) {
        found := found + [Word(current)];
        current := [];
      }
      assert found == before + closed && current == pending;
    }
    assert current == [];
    assert wide ==> current + row[m.width..m.width] == [];
    assert wide ==> found == numbers + Runs(row[..m.width]);
    return Ok(found);
  }

  /** `getNumbers`: the numbers of every row, top to bottom. */
  method GetNumbers(m: Map) returns (r: Result<seq<Word>>)
    requires Valid(m)
    ensures r == NumberWords(m)
  {
    var numbers: seq<Word> := [];
    for y := 0 to m.height
      invariant forall j :: 0 <= j < y ==> m.width <= |m.chars[j]|
      invariant numbers == NumbersIn(m, y)
    {
      var row := RowNumbers(m, y, numbers);
      if row.Err? {
        return row;
      }
      numbers := row.value;
    }
    return Ok(numbers);
  }

  /** The characters of the words, word after word. */
  function CellsOf(words: seq<Word>): seq<Char>
  {
    if words == [] then [] else words[0].chars + CellsOf(words[1..])
  }

  /** Every word `getNumbers` finds in a row is a nonempty run of digits. */
  lemma {:induction false} RunsAreNumbers(cells: seq<Char>)
    ensures forall k :: 0 <= k < |Runs(cells)| ==> |Runs(cells)[k].chars| > 0 && AllDigitCells(Runs(cells)[k].chars)
    decreases |cells|
  {
    if cells != [] {
      RunsAreNumbers(cells[1..]);
      if IsDigitCell(cells[0]) {
        var n := LeadingDigits(cells);
        RunsAreNumbers(cells[n..]);
        assert forall k :: 1 <= k < |Runs(cells)| ==> Runs(cells)[k] == Runs(cells[n..])[k - 1];
      }
    }
  }

  /** Taken together, the words hold exactly the digits of the row, in order. */
  lemma {:induction false} RunsCoverDigits(cells: seq<Char>)
    ensures CellsOf(Runs(cells)) == Filter(cells, IsDigitCell)
    decreases |cells|
  {
    if cells != [] {
      if IsDigitCell(cells[0]) {
        var n := LeadingDigits(cells);
        RunsCoverDigits(cells[n..]);
        assert cells == cells[..n] + cells[n..];
        FilterAppend(cells[..n], cells[n..], IsDigitCell);
        FilterKeeps(cells[..n], IsDigitCell);
        assert ([Word(cells[..n])] + Runs(cells[n..]))[1..] == Runs(cells[n..]);
      } else {
        RunsCoverDigits(cells[1..]);
        assert cells == [cells[0]] + cells[1..];
        FilterAppend([cells[0]], cells[1..], IsDigitCell);
        FilterNone([cells[0]], IsDigitCell);
      }
    }
  }

  /** Cells that stand side by side from column `base` on, as the cells of a row do. */
  ghost predicate Consecutive(cells: seq<Char>, base: int)
  {
    forall i :: 0 <= i < |cells| ==> cells[i].x == base + i
  }

  /** Every character of a word found in such cells lies within them. */
  lemma {:induction false} RunsWithin(cells: seq<Char>, base: int)
    requires Consecutive(cells, base)
    ensures forall k, i :: 0 <= k < |Runs(cells)| && 0 <= i < |Runs(cells)[k].chars| ==>
      base <= Runs(cells)[k].chars[i].x < base + |cells|
    decreases |cells|
  {
    if cells != [] {
      if IsDigitCell(cells[0]) {
        var n := LeadingDigits(cells);
        RunsWithin(cells[n..], base + n);
        assert forall k :: 1 <= k < |Runs(cells)| ==> Runs(cells)[k] == Runs(cells[n..])[k - 1];
      } else {
        RunsWithin(cells[1..], base + 1);
      }
    }
  }

  /** The column of the first character of a word. */
  function FirstX(w: Word): int
    requires |w.chars| > 0
  {
    w.chars[0].x
  }

  /** The column of the last character of a word. */
  function LastX(w: Word): int
    requires |w.chars| > 0
  {
    w.chars[|w.chars| - 1].x
  }

  /** Words found in such cells come left to right, each at least one column clear of the next: each word is a whole number. */
  ghost predicate Separated(words: seq<Word>)
  {
    forall j, k :: 0 <= j < k < |words| ==> |words[j].chars| > 0 && |words[k].chars| > 0 && LastX(words[j]) + 1 < FirstX(words[k])
  }

  /** A run of digits followed by words that start at least two columns after its end. */
  lemma SeparatedCons(w: Word, rest: seq<Word>)
    requires |w.chars| > 0 && Separated(rest)
    requires forall k :: 0 <= k < |rest| ==> |rest[k].chars| > 0 && LastX(w) + 1 < FirstX(rest[k])
    ensures Separated([w] + rest)
  {
    var words := [w] + rest;
    assert forall k :: 1 <= k < |words| ==> words[k] == rest[k - 1];
  }

  lemma {:induction false} RunsSeparated(cells: seq<Char>, base: int)
    requires Consecutive(cells, base)
    ensures Separated(Runs(cells))
    decreases |cells|
  {
    if cells != [] {
      if IsDigitCell(cells[0]) {
        var n := LeadingDigits(cells);
        var rest := cells[n..];
        RunsSeparated(rest, base + n);
        if rest != [] {
          assert Runs(rest) == Runs(rest[1..]);
          RunsWithin(rest[1..], base + n + 1);
          RunsAreNumbers(rest);
        }
        SeparatedCons(Word(cells[..n]), Runs(rest));
      } else {
        RunsSeparated(cells[1..], base + 1);
      }
    }
  }

  // ---------------------------------------------------------------- isAdjacentToSymbol

  /** A symbol: neither a digit, nor a letter, nor `.`. */
  predicate IsSymbol(ch: char)
  {
    !IsDigit(ch) && !IsAlpha(ch) && ch != '.'
  }

  /** Some character of `ns` is a symbol. */
  predicate HasSymbol(ns: seq<Char>)
  {
    exists k :: 0 <= k < |ns| && IsSymbol(ns[k].symbol)
  }

  /** What `isAdjacentToSymbol` returns for the characters `cs` of a word: whether the neighbours of one of them hold a symbol, or the error of the first `getNeighbors` that fails before one is found. */
  function AdjacentIn(m: Map, cs: seq<Char>): Result<bool>
  {
    if cs == [] then Ok(false)
    else
      match Neighbors(m, cs[0])
      case Err(e) => Err(e)
      case Ok(ns) => if HasSymbol(ns) then Ok(true) else AdjacentIn(m, cs[1..])
  }

  /** `isAdjacentToSymbol`: the characters of the word in turn, and the neighbours of each in turn, until a symbol shows. */
  method IsAdjacentToSymbol(m: Map, w: Word) returns (r: Result<bool>)
    ensures r == AdjacentIn(m, w.chars)
  {
    for i := 0 to |w.chars|
      invariant AdjacentIn(m, w.chars) == AdjacentIn(m, w.chars[i..])
    {
      assert w.chars[i..][1..] == w.chars[i + 1..];
      var neighbors := GetNeighbors(m, w.chars[i]);
      if neighbors.Err? {
        return Err(neighbors.error);
      }
      var ns := neighbors.value;
      for j := 0 to |ns|
        invariant forall k :: 0 <= k < j ==> !IsSymbol(ns[k].symbol)
      {
        if IsSymbol(ns[j].symbol) {
          return Ok(true);
        }
      }
    }
    return Ok(false);
  }

  /** The characters of the map in the 3×3 block around `c`, without `c` itself, hold a symbol. */
  ghost predicate Touches(m: Map, c: Char)
  {
    exists y, x :: 0 <= y < m.height && 0 <= x < m.width && y < |m.chars| && x < |m.chars[y]| &&
      c.x - 1 <= x <= c.x + 1 && c.y - 1 <= y <= c.y + 1 && (x, y) != (c.x, c.y) && IsSymbol(m.chars[y][x].symbol)
  }

  /** A symbol among the neighbours stands next to `c`. */
  lemma SymbolTouches(m: Map, c: Char, k: nat)
    requires Valid(m) && WideEnough(m) && Neighbors(m, c).Ok? && k < |Neighbors(m, c).value| && k < |CellsAround(m, c)|
    requires GetChar(m, CellsAround(m, c)[k].0, CellsAround(m, c)[k].1) == Ok(Neighbors(m, c).value[k])
    requires IsSymbol(Neighbors(m, c).value[k].symbol)
    ensures Touches(m, c)
  {
    var p := CellsAround(m, c)[k];
    CellsAroundSpec(m, c, p);
    GetCharSpec(m, p.0, p.1);
  }

  /** A symbol next to `c` is among its neighbours. */
  lemma TouchingSymbol(m: Map, c: Char, x: int, y: int)
    requires Valid(m) && WideEnough(m) && Neighbors(m, c).Ok?
    requires |Neighbors(m, c).value| == |CellsAround(m, c)|
    requires forall k :: 0 <= k < |CellsAround(m, c)| ==> GetChar(m, CellsAround(m, c)[k].0, CellsAround(m, c)[k].1) == Ok(Neighbors(m, c).value[k])
    requires 0 <= y < m.height && 0 <= x < m.width && y < |m.chars| && x < |m.chars[y]|
    requires c.x - 1 <= x <= c.x + 1 && c.y - 1 <= y <= c.y + 1 && (x, y) != (c.x, c.y) && IsSymbol(m.chars[y][x].symbol)
    ensures HasSymbol(Neighbors(m, c).value)
  {
    var cells := CellsAround(m, c);
    CellsAroundSpec(m, c, (x, y));
    var k :| 0 <= k < |cells| && cells[k] == (x, y);
    GetCharSpec(m, x, y);
    assert IsSymbol(Neighbors(m, c).value[k].symbol);
  }

  /** On a map `getNumbers` can read, the neighbours of `c` hold a symbol exactly when a cell next to `c` does. */
  lemma NeighborsTouch(m: Map, c: Char)
    requires Valid(m) && WideEnough(m)
    ensures Neighbors(m, c).Ok? && (HasSymbol(Neighbors(m, c).value) <==> Touches(m, c))
  {
    NeighborsSpec(m, c);
    var ns := Neighbors(m, c).value;
    if HasSymbol(ns) {
      var k :| 0 <= k < |ns| && IsSymbol(ns[k].symbol);
      SymbolTouches(m, c, k);
    }
    if Touches(m, c) {
      var y, x :| 0 <= y < m.height && 0 <= x < m.width && y < |m.chars| && x < |m.chars[y]| &&
        c.x - 1 <= x <= c.x + 1 && c.y - 1 <= y <= c.y + 1 && (x, y) != (c.x, c.y) && IsSymbol(m.chars[y][x].symbol);
      TouchingSymbol(m, c, x, y);
    }
  }

  /** On a map `getNumbers` can read, `isAdjacentToSymbol` is true exactly when a cell next to one of the word's characters holds a symbol. */
  lemma {:induction false} AdjacentSpec(m: Map, cs: seq<Char>)
    requires Valid(m) && WideEnough(m)
    ensures AdjacentIn(m, cs) == Ok(exists k :: 0 <= k < |cs| && Touches(m, cs[k]))
    decreases |cs|
  {
    if cs != [] {
      NeighborsTouch(m, cs[0]);
      AdjacentSpec(m, cs[1..]);
      assert forall k :: 1 <= k < |cs| ==> cs[k] == cs[1..][k - 1];
    }
  }

  // ---------------------------------------------------------------- getNumbersAdjacentToSymbol

  /** The words of `words` that are next to a symbol, in order, or the first error `isAdjacentToSymbol` raises. */
  function KeepAdjacent(m: Map, words: seq<Word>): Result<seq<Word>>
  {
    if words == [] then Ok([])
    else
      match KeepAdjacent(m, words[..|words| - 1])
      case Err(e) => Err(e)
      case Ok(kept) =>
        match AdjacentIn(m, words[|words| - 1].chars)
        case Err(e) => Err(e)
        case Ok(b) => Ok(kept + (if b then [words[|words| - 1]] else []))
  }

  /** What `getNumbersAdjacentToSymbol` returns. */
  function NumbersAdjacentToSymbol(m: Map): Result<seq<Word>>
    requires Valid(m)
  {
    match NumberWords(m)
    case Err(e) => Err(e)
    case Ok(words) => KeepAdjacent(m, words)
  }

  /** A word next to a symbol. */
  ghost predicate IsPartNumber(m: Map, w: Word)
  {
    exists k :: 0 <= k < |w.chars| && Touches(m, w.chars[k])
  }

  /** On a map `getNumbers` can read, the kept words are exactly the words next to a symbol, in their order. */
  lemma {:induction false} KeepAdjacentSpec(m: Map, words: seq<Word>)
    requires Valid(m) && WideEnough(m)
    ensures KeepAdjacent(m, words) == Ok(Filter(words, w => IsPartNumber(m, w)))
    decreases |words|
  {
    if words != [] {
      KeepAdjacentSpec(m, words[..|words| - 1]);
      AdjacentSpec(m, words[|words| - 1].chars);
    }
  }

  /** `getNumbersAdjacentToSymbol`: the numbers of the map that are next to a symbol. */
  method GetNumbersAdjacentToSymbol(m: Map) returns (r: Result<seq<Word>>)
    requires Valid(m)
    ensures r == NumbersAdjacentToSymbol(m)
  {
    var numbers := GetNumbers(m);
    if numbers.Err? {
      return numbers;
    }
    var words := numbers.value;
    var kept: seq<Word> := [];
    for i := 0 to |words|
      invariant KeepAdjacent(m, words[..i]) == Ok(kept)
    {
      KeepAdjacentStep(m, words, i, kept);
      var b := IsAdjacentToSymbol(m, words[i]);
      if b.Err? {
        return Err(b.error);
      }
      if b.value {
        kept := kept + [words[i]];
      }
    }
    assert words[..|words|] == words;
    return Ok(kept);
  }

  /** One word more: kept when next to a symbol, or its error is the error for all the words. */
  lemma KeepAdjacentStep(m: Map, words: seq<Word>, i: nat, kept: seq<Word>)
    requires i < |words| && KeepAdjacent(m, words[..i]) == Ok(kept)
    ensures AdjacentIn(m, words[i].chars).Err? ==> KeepAdjacent(m, words) == Err(AdjacentIn(m, words[i].chars).error)
    ensures AdjacentIn(m, words[i].chars) == Ok(true) ==> KeepAdjacent(m, words[..i + 1]) == Ok(kept + [words[i]])
    ensures AdjacentIn(m, words[i].chars) == Ok(false) ==> KeepAdjacent(m, words[..i + 1]) == Ok(kept)
  {
    assert words[..i + 1][..i] == words[..i] && words[..i + 1][i] == words[i];
    assert kept + [] == kept;
    if AdjacentIn(m, words[i].chars).Err? {
      KeepAdjacentPrefixErr(m, words[..i + 1], words);
    }
  }

  /** An error among the first words is the error for all of them. */
  lemma {:induction false} KeepAdjacentPrefixErr(m: Map, a: seq<Word>, b: seq<Word>)
    requires a <= b && KeepAdjacent(m, a).Err?
    ensures KeepAdjacent(m, b) == KeepAdjacent(m, a)
    decreases |b|
  {
    if |a| < |b| {
      assert a <= b[..|b| - 1];
      KeepAdjacentPrefixErr(m, a, b[..|b| - 1]);
    } else {
      assert a == b;
    }
  }

  // ---------------------------------------------------------------- the first example

  /** The first example schematic. */
  const Lines1: seq<string> := [".12", "..-", "...", "345"]

  /** Its map: three wide, four high, each line's characters with their coordinates. */
  const Map1: Map := Map(3, 4, [RowCells(".12", 0), RowCells("..-", 1), RowCells("...", 2), RowCells("345", 3)])

  /** `Map(lines1)` is three wide and four high, and its top-left character is the `.` at `(0, 0)`. */
  lemma Example1Map()
    ensures MapOf(Lines1) == Ok(Map1)
    ensures Map1.width == 3 && Map1.height == 4 && GetChar(Map1, 0, 0) == Ok(Char(0, 0, '.'))
    ensures Valid(Map1) && WideEnough(Map1)
  {
    assert CellsIn(Lines1, 4) == Map1.chars by {
      assert CellsIn(Lines1, 1) == [RowCells(".12", 0)];
      assert CellsIn(Lines1, 2) == [RowCells(".12", 0), RowCells("..-", 1)];
      assert CellsIn(Lines1, 3) == [RowCells(".12", 0), RowCells("..-", 1), RowCells("...", 2)];
    }
    MapOfSpec(Lines1);
  }

  /** Every cell of the first example holds its line's character. */
  lemma Map1Char(x: nat, y: nat)
    requires x < 3 && y < 4
    ensures GetChar(Map1, x, y) == Ok(Char(x, y, Lines1[y][x]))
  {
    GetCharSpec(Map1, x, y);
  }

  /** The neighbours of the top-left corner. */
  lemma Example1NeighborsLeft()
    ensures Neighbors(Map1, Char(0, 0, '.')) == Ok([Char(0, 1, '.'), Char(1, 0, '1'), Char(1, 1, '.')])
  {
    CornerNeighbors(Map1, '.');
    assert CharsAt(Map1, [(0, 1)]) == Ok([Char(0, 1, '.')]) by {
      Map1Char(0, 1);
      CharsAtSnoc(Map1, [], (0, 1));
      assert [] + [(0, 1)] == [(0, 1)];
      assert [] + [Char(0, 1, '.')] == [Char(0, 1, '.')];
    }
    assert CharsAt(Map1, [(0, 1), (1, 0)]) == Ok([Char(0, 1, '.'), Char(1, 0, '1')]) by {
      Map1Char(1, 0);
      CharsAtSnoc(Map1, [(0, 1)], (1, 0));
      assert [(0, 1)] + [(1, 0)] == [(0, 1), (1, 0)];
      assert [Char(0, 1, '.')] + [Char(1, 0, '1')] == [Char(0, 1, '.'), Char(1, 0, '1')];
    }
    assert CharsAt(Map1, [(0, 1), (1, 0), (1, 1)]) == Ok([Char(0, 1, '.'), Char(1, 0, '1'), Char(1, 1, '.')]) by {
      Map1Char(1, 1);
      CharsAtSnoc(Map1, [(0, 1), (1, 0)], (1, 1));
      assert [(0, 1), (1, 0)] + [(1, 1)] == [(0, 1), (1, 0), (1, 1)];
      assert [Char(0, 1, '.'), Char(1, 0, '1')] + [Char(1, 1, '.')] == [Char(0, 1, '.'), Char(1, 0, '1'), Char(1, 1, '.')];
    }
  }

  /** The cells visited around the top-right corner of the first example. */
  lemma Example1CellsRight()
    ensures CellsAround(Map1, Char(2, 0, '2')) == [(1, 0), (1, 1), (2, 1)]
  {
    var c := Char(2, 0, '2');
    assert ColumnCells(c, 1, 2) == [(1, 0), (1, 1)] by {
      assert ColumnCells(c, 1, 0) == [];
      assert ColumnCells(c, 1, 1) == [(1, 0)];
    }
    assert ColumnCells(c, 2, 2) == [(2, 1)] by {
      assert ColumnCells(c, 2, 1) == [];
    }
    assert NeighborCells(Map1, c, 2) == [(1, 0), (1, 1)];
  }

  /** The characters on the cells around the top-right corner of the first example. */
  lemma Example1CharsRight()
    ensures CharsAt(Map1, [(1, 0), (1, 1), (2, 1)]) == Ok([Char(1, 0, '1'), Char(1, 1, '.'), Char(2, 1, '-')])
  {
    assert CharsAt(Map1, [(1, 0)]) == Ok([Char(1, 0, '1')]) by {
      Map1Char(1, 0);
      CharsAtSnoc(Map1, [], (1, 0));
      assert [] + [(1, 0)] == [(1, 0)];
      assert [] + [Char(1, 0, '1')] == [Char(1, 0, '1')];
    }
    assert CharsAt(Map1, [(1, 0), (1, 1)]) == Ok([Char(1, 0, '1'), Char(1, 1, '.')]) by {
      Map1Char(1, 1);
      CharsAtSnoc(Map1, [(1, 0)], (1, 1));
      assert [(1, 0)] + [(1, 1)] == [(1, 0), (1, 1)];
      assert [Char(1, 0, '1')] + [Char(1, 1, '.')] == [Char(1, 0, '1'), Char(1, 1, '.')];
    }
    Map1Char(2, 1);
    CharsAtSnoc(Map1, [(1, 0), (1, 1)], (2, 1));
    assert [(1, 0), (1, 1)] + [(2, 1)] == [(1, 0), (1, 1), (2, 1)];
    assert [Char(1, 0, '1'), Char(1, 1, '.')] + [Char(2, 1, '-')] == [Char(1, 0, '1'), Char(1, 1, '.'), Char(2, 1, '-')];
  }

  /** The neighbours of the top-right corner. */
  lemma Example1NeighborsRight()
    ensures Neighbors(Map1, Char(2, 0, '2')) == Ok([Char(1, 0, '1'), Char(1, 1, '.'), Char(2, 1, '-')])
  {
    Example1CellsRight();
    Example1CharsRight();
  }

  /** The two numbers of the first example. */
  const Twelve: Word := Word([Char(1, 0, '1'), Char(2, 0, '2')])
  const ThreeFourFive: Word := Word([Char(0, 3, '3'), Char(1, 3, '4'), Char(2, 3, '5')])

  /** The rows of the first example, cell by cell. */
  lemma Map1Rows()
    ensures Map1.chars[0] == [Char(0, 0, '.'), Char(1, 0, '1'), Char(2, 0, '2')]
    ensures Map1.chars[1] == [Char(0, 1, '.'), Char(1, 1, '.'), Char(2, 1, '-')]
    ensures Map1.chars[2] == [Char(0, 2, '.'), Char(1, 2, '.'), Char(2, 2, '.')]
    ensures Map1.chars[3] == [Char(0, 3, '3'), Char(1, 3, '4'), Char(2, 3, '5')]
  {
  }

  /** The words of each row of the first example. */
  lemma Map1Runs()
    ensures Runs(Map1.chars[0][..3]) == [Twelve] && Runs(Map1.chars[1][..3]) == []
    ensures Runs(Map1.chars[2][..3]) == [] && Runs(Map1.chars[3][..3]) == [ThreeFourFive]
  {
    Map1Rows();
    var r0, r1, r2, r3 := Map1.chars[0], Map1.chars[1], Map1.chars[2], Map1.chars[3];
    assert r0[..3] == r0 && r1[..3] == r1 && r2[..3] == r2 && r3[..3] == r3;
    assert r0 == [r0[0]] + Twelve.chars;
    RunsSkipped(r0[0], Twelve.chars);
    RunsLastDigit(Twelve.chars);
    RunsNoDigits(r1);
    RunsNoDigits(r2);
    RunsLastDigit(r3);
  }

  /** Three cells without a digit hold no word. */
  lemma RunsNoDigits(r: seq<Char>)
    requires |r| == 3 && !IsDigitCell(r[0]) && !IsDigitCell(r[1]) && !IsDigitCell(r[2])
    ensures Runs(r) == []
  {
    assert r == [r[0]] + ([r[1]] + ([r[2]] + []));
    RunsSkipped(r[0], [r[1]] + ([r[2]] + []));
    RunsSkipped(r[1], [r[2]] + []);
    RunsSkipped(r[2], []);
  }

  /** `getNumbers` finds 12 in the top line and 345 in the bottom one. */
  lemma Example1Numbers()
    ensures NumberWords(Map1) == Ok([Twelve, ThreeFourFive])
  {
    Example1Map();
    Map1Runs();
    assert NumbersIn(Map1, 1) == [Twelve];
    assert NumbersIn(Map1, 2) == [Twelve];
    assert NumbersIn(Map1, 3) == [Twelve];
    assert NumbersIn(Map1, 4) == [Twelve, ThreeFourFive];
  }

  /** The value of the first number. */
  lemma Example1Twelve()
    ensures GetNumber(Twelve) == Ok(12)
  {
    assert GetString(Twelve) == "12";
    ParseDigits("12");
    assert "12"[..1] == "1" && "1"[..0] == "";
  }

  /** The value of the second number. */
  lemma Example1ThreeFourFive()
    ensures GetNumber(ThreeFourFive) == Ok(345)
  {
    assert GetString(ThreeFourFive) == "345";
    ParseDigits("345");
    Value345();
  }

  /** 12 stands next to a symbol, the `-` below its `2`. */
  lemma Example1TwelvePart()
    ensures IsPartNumber(Map1, Twelve)
  {
    Map1Rows();
    assert Touches(Map1, Twelve.chars[1]) by {
      assert Map1.chars[1][2].symbol == '-';
    }
  }

  /** 345 does not: the two bottom lines hold no symbol. */
  lemma Example1ThreeFourFivePart()
    ensures !IsPartNumber(Map1, ThreeFourFive)
  {
    Map1Rows();
    assert forall x :: 0 <= x < 3 ==> !IsSymbol(Map1.chars[2][x].symbol) && !IsSymbol(Map1.chars[3][x].symbol);
  }

  /** The decimal value of `345`. */
  lemma Value345()
    ensures AllDigits("345", 10) && DigitsValue("345", 10) == 345
  {
    assert AllDigits("3", 10) && DigitsValue("3", 10) == 3 by {
      assert "3"[..0] == "";
    }
    assert AllDigits("34", 10) && DigitsValue("34", 10) == 34 by {
      assert "34"[..1] == "3";
    }
    assert "345"[..2] == "34";
  }

  /** Of two words, keeping the first only. */
  lemma KeepFirstOfTwo(m: Map, a: Word, b: Word)
    requires AdjacentIn(m, a.chars) == Ok(true) && AdjacentIn(m, b.chars) == Ok(false)
    ensures KeepAdjacent(m, [a, b]) == Ok([a])
  {
    assert [a][..0] == [] && [] + [a] == [a];
    assert KeepAdjacent(m, [a]) == Ok([a]);
    assert [a, b][..1] == [a] && [a, b][1] == b;
    assert [a] + [] == [a];
  }

  /** `isAdjacentToSymbol` on the two numbers. */
  lemma Example1AdjacentIn()
    ensures AdjacentIn(Map1, Twelve.chars) == Ok(true) && AdjacentIn(Map1, ThreeFourFive.chars) == Ok(false)
  {
    Example1Map();
    Example1TwelvePart();
    Example1ThreeFourFivePart();
    AdjacentSpec(Map1, Twelve.chars);
    AdjacentSpec(Map1, ThreeFourFive.chars);
  }

  /** Only 12 stands next to a symbol. */
  lemma Example1Adjacent()
    ensures NumbersAdjacentToSymbol(Map1) == Ok([Twelve])
  {
    Example1Map();
    Example1Numbers();
    Example1AdjacentIn();
    KeepFirstOfTwo(Map1, Twelve, ThreeFourFive);
  }
}
