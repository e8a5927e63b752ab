/** Day 9: extrapolating a sequence from its table of repeated differences (09/seq.py). */
module Day09Sequences {
  import opened Wrappers
  import opened Strings
  import opened Numbers
  import opened Lists
  import opened Lines

  // ---------------------------------------------------------------- reading

  /** `readSequence`: every blank-separated piece, stripped, read as an integer; an empty piece raises. */
  function ReadSequence(line: string): Result<seq<int>>
  {
    ReadInts(StripEach(SplitOn(line, ' ')))
  }

  /** `readSequences`: one sequence per non-blank line. */
  function ReadSequences(text: string): Result<seq<seq<int>>>
  {
    MapAll(NonBlank(SplitOn(text, '\n')), ReadSequence)
  }

  /** A line of single-blank-separated numbers reads back as those numbers. */
  lemma ReadSequenceRender(l: Layout)
    requires |l| > 0 && Dense(l)
    ensures ReadSequence(Render(l)) == Ok(Values(l))
  {
    ReadDense(l);
  }

  // ---------------------------------------------------------------- differences

  /** `getDifferences`: each element minus the one before it. */
  function Differences(s: seq<int>): (d: seq<int>)
    ensures |d| == if |s| == 0 then 0 else |s| - 1
  {
    if |s| == 0 then [] else seq(|s| - 1, i requires 0 <= i < |s| - 1 => s[i + 1] - s[i])
  }

  function Last(s: seq<int>): int
    requires |s| > 0
  {
    s[|s| - 1]
  }

  predicate AllZero(s: seq<int>)
  {
    forall i :: 0 <= i < |s| ==> s[i] == 0
  }

  /**
   * What `getRecursiveDifferences` returns for `s`: `s` first, every later row the differences of the
   * row before, the last row all zeros and every row strictly between the first and the last not.
   */
  ghost predicate DifferenceTable(s: seq<int>, rows: seq<seq<int>>)
  {
    |rows| >= 2 && rows[0] == s
    && (forall k :: 0 <= k < |rows| - 1 ==> rows[k + 1] == Differences(rows[k]))
    && AllZero(rows[|rows| - 1])
    && (forall k :: 1 <= k < |rows| - 1 ==> !AllZero(rows[k]))
  }

  /** `getRecursiveDifferences`: keep taking differences until a row is all zeros, which must happen as the rows shrink. */
  method RecursiveDifferences(s: seq<int>) returns (res: seq<seq<int>>)
    ensures DifferenceTable(s, res)
  {
    res := [s];
    var diff := Differences(s);
    while !AllZero(diff)
      invariant |res| >= 1 && res[0] == s
      invariant forall k :: 0 <= k < |res| - 1 ==> res[k + 1] == Differences(res[k])
      invariant forall k :: 1 <= k < |res| ==> !AllZero(res[k])
      invariant diff == Differences(res[|res| - 1])
      decreases |diff|
    {
      res := res + [diff];
      diff := Differences(diff);
    }
    res := res + [diff];
  }

  /** The table is determined by the sequence. */
  lemma TableUnique(s: seq<int>, r1: seq<seq<int>>, r2: seq<seq<int>>)
    requires DifferenceTable(s, r1) && DifferenceTable(s, r2)
    ensures r1 == r2
  {
    var n := if |r1| < |r2| then |r1| else |r2|;
    TableRowsAgree(s, r1, r2, n - 1);
    // the row where the shorter table stops is all zeros in both, so neither table goes on past it
    assert AllZero(r1[n - 1]) && AllZero(r2[n - 1]);
  }

  lemma {:induction false} TableRowsAgree(s: seq<int>, r1: seq<seq<int>>, r2: seq<seq<int>>, k: nat)
    requires DifferenceTable(s, r1) && DifferenceTable(s, r2)
    requires k < |r1| && k < |r2|
    ensures forall j :: 0 <= j <= k ==> r1[j] == r2[j]
    decreases k
  {
    if k > 0 {
      TableRowsAgree(s, r1, r2, k - 1);
      assert r1[k] == Differences(r1[k - 1]) && r2[k] == Differences(r2[k - 1]);
    }
  }

  // ---------------------------------------------------------------- extrapolating

  /** The next element a sequence's differences predict: zero for all zeros, else the last element plus the next difference. */
  function NextValue(s: seq<int>): int
    decreases |s|
  {
    if AllZero(s) then 0 else Last(s) + NextValue(Differences(s))
  }

  /** The element before the first that the differences predict. */
  function PrevValue(s: seq<int>): int
    decreases |s|
  {
    if AllZero(s) then 0 else s[0] - PrevValue(Differences(s))
  }

  /** Rows `i` up to the second last have an element to extend. */
  predicate Extendable(rows: seq<seq<int>>, i: nat)
  {
    forall k :: i <= k < |rows| - 1 ==> |rows[k]| > 0
  }

  /**
   * The rows after `extrapolate` has worked from the bottom up to row `i`: a zero appended to
   * the last row, and to each row above its last element plus the new last element of the row below.
   */
  function ExtendFrom(rows: seq<seq<int>>, i: nat): (e: seq<seq<int>>)
    requires i < |rows| && Extendable(rows, i)
    ensures |e| == |rows| && forall k :: 0 <= k < i ==> e[k] == rows[k]
    ensures forall k :: i <= k < |rows| ==> |e[k]| > 0
    decreases |rows| - i
  {
    if i == |rows| - 1 then rows[i := rows[i] + [0]]
    else
      var below := ExtendFrom(rows, i + 1);
      below[i := rows[i] + [Last(rows[i]) + Last(below[i + 1])]]
  }

  /**
   * `extrapolate`: appends to every row in place, bottom up, and returns the new last element of
   * the top row. An empty table, or an empty row above the last, raises `IndexError` (`elems[-1]`, `l[-1]`);
   * by then the rows below it have already been extended.
   */
  method Extrapolate(elems: array<seq<int>>) returns (r: Result<int>)
    modifies elems
    ensures elems.Length == 0 ==> r == Err("IndexError")
    ensures elems.Length > 0 && Extendable(old(elems[..]), 0) ==>
      elems[..] == ExtendFrom(old(elems[..]), 0) && r == Ok(Last(elems[0]))
    ensures elems.Length > 0 && !Extendable(old(elems[..]), 0) ==> (r == Err("IndexError") &&
      exists j :: 0 <= j < elems.Length - 1 && |old(elems[j])| == 0 && Extendable(old(elems[..]), j + 1)
        && elems[..] == ExtendFrom(old(elems[..]), j + 1))
  {
    if elems.Length == 0 {
      return Err("IndexError");
    }
    ghost var rows := elems[..];
    var n := elems.Length;
    elems[n - 1] := elems[n - 1] + [0];
    var i := n - 2;
    while i >= 0
      invariant -1 <= i <= n - 2
      invariant Extendable(rows, i + 1)
      invariant elems[..] == ExtendFrom(rows, i + 1)
    {
      var l := elems[i];
      var diff := Last(elems[i + 1]);
      if |l| == 0 {
        assert !Extendable(rows, 0);
        return Err("IndexError");
      }
      elems[i] := l + [Last(l) + diff];
      i := i - 1;
    }
    r := Ok(Last(elems[0]));
  }

  /** The rows after `extrapolateBackwards` has worked up to row `i`: elements prepended instead of appended. */
  function ExtendBackFrom(rows: seq<seq<int>>, i: nat): (e: seq<seq<int>>)
    requires i < |rows| && Extendable(rows, i)
    ensures |e| == |rows| && forall k :: 0 <= k < i ==> e[k] == rows[k]
    ensures forall k :: i <= k < |rows| ==> |e[k]| > 0
    decreases |rows| - i
  {
    if i == |rows| - 1 then rows[i := [0] + rows[i]]
    else
      var below := ExtendBackFrom(rows, i + 1);
      below[i := [rows[i][0] - below[i + 1][0]] + rows[i]]
  }

  /** `extrapolateBackwards`: inserts at the front of every row in place, bottom up, and returns the new first element of the top row. */
  method ExtrapolateBackwards(elems: array<seq<int>>) returns (r: Result<int>)
    modifies elems
    ensures elems.Length == 0 ==> r == Err("IndexError")
    ensures elems.Length > 0 && Extendable(old(elems[..]), 0) ==>
      elems[..] == ExtendBackFrom(old(elems[..]), 0) && r == Ok(elems[0][0])
    ensures elems.Length > 0 && !Extendable(old(elems[..]), 0) ==> (r == Err("IndexError") &&
      exists j :: 0 <= j < elems.Length - 1 && |old(elems[j])| == 0 && Extendable(old(elems[..]), j + 1)
        && elems[..] == ExtendBackFrom(old(elems[..]), j + 1))
  {
    if elems.Length == 0 {
      return Err("IndexError");
    }
    ghost var rows := elems[..];
    var n := elems.Length;
    elems[n - 1] := [0] + elems[n - 1];
    var i := n - 2;
    while i >= 0
      invariant -1 <= i <= n - 2
      invariant Extendable(rows, i + 1)
      invariant elems[..] == ExtendBackFrom(rows, i + 1)
    {
      var l := elems[i];
      var diff := elems[i + 1][0];
      if |l| == 0 {
        assert !Extendable(rows, 0);
        return Err("IndexError");
      }
      elems[i] := [l[0] - diff] + l;
      i := i - 1;
    }
    r := Ok(elems[0][0]);
  }

  // ---------------------------------------------------------------- what the table predicts

  /** The bottom part of a difference table, from row `i` down. */
  ghost predicate TableFrom(rows: seq<seq<int>>, i: nat)
  {
    i < |rows|
    && (forall k :: i <= k < |rows| - 1 ==> rows[k + 1] == Differences(rows[k]))
    && AllZero(rows[|rows| - 1])
    && (forall k :: i < k < |rows| - 1 ==> !AllZero(rows[k]))
  }

  lemma {:induction false} ExtendFromValue(rows: seq<seq<int>>, i: nat)
    requires TableFrom(rows, i) && Extendable(rows, i)
    ensures Last(ExtendFrom(rows, i)[i]) == NextValue(rows[i])
    decreases |rows| - i
  {
    if i < |rows| - 1 {
      ExtendFromValue(rows, i + 1);
      if AllZero(rows[i]) {
        assert AllZero(rows[i + 1]);
        assert i + 1 == |rows| - 1;
      }
    }
  }

  lemma {:induction false} ExtendBackFromValue(rows: seq<seq<int>>, i: nat)
    requires TableFrom(rows, i) && Extendable(rows, i)
    ensures ExtendBackFrom(rows, i)[i][0] == PrevValue(rows[i])
    decreases |rows| - i
  {
    if i < |rows| - 1 {
      ExtendBackFromValue(rows, i + 1);
      if AllZero(rows[i]) {
        assert AllZero(rows[i + 1]);
        assert i + 1 == |rows| - 1;
      }
    }
  }

  /** A table built from a non-empty sequence can be extended: only the last row may be empty. */
  lemma TableExtendable(s: seq<int>, rows: seq<seq<int>>)
    requires DifferenceTable(s, rows) && |s| > 0
    ensures Extendable(rows, 0) && TableFrom(rows, 0)
  {
  }

  /**
   * `extrapolate(getRecursiveDifferences(s))` is the next value the differences predict, and
   * `extrapolateBackwards` the previous one; for the empty sequence both raise `IndexError`.
   */
  lemma ExtrapolateTable(s: seq<int>, rows: seq<seq<int>>)
    requires DifferenceTable(s, rows)
    ensures |s| > 0 ==> (Extendable(rows, 0) && Last(ExtendFrom(rows, 0)[0]) == NextValue(s)
      && ExtendBackFrom(rows, 0)[0][0] == PrevValue(s))
    ensures |s| == 0 ==> !Extendable(rows, 0)
  {
    if |s| > 0 {
      TableExtendable(s, rows);
      ExtendFromValue(rows, 0);
      ExtendBackFromValue(rows, 0);
    }
  }

  /** The test's `extrapolate(getRecursiveDifferences(s))`: the predicted next value, or `IndexError` for an empty sequence. */
  method PredictNext(s: seq<int>) returns (r: Result<int>)
    ensures |s| > 0 ==> r == Ok(NextValue(s))
    ensures |s| == 0 ==> r == Err("IndexError")
  {
    var rows := RecursiveDifferences(s);
    var elems := new seq<int>[|rows|](k requires 0 <= k < |rows| => rows[k]);
    assert elems[..] == rows;
    ExtrapolateTable(s, rows);
    r := Extrapolate(elems);
  }

  /** The test's `extrapolateBackwards(getRecursiveDifferences(s))`. */
  method PredictPrev(s: seq<int>) returns (r: Result<int>)
    ensures |s| > 0 ==> r == Ok(PrevValue(s))
    ensures |s| == 0 ==> r == Err("IndexError")
  {
    var rows := RecursiveDifferences(s);
    var elems := new seq<int>[|rows|](k requires 0 <= k < |rows| => rows[k]);
    assert elems[..] == rows;
    ExtrapolateTable(s, rows);
    r := ExtrapolateBackwards(elems);
  }

  // ---------------------------------------------------------------- the examples

  /** One step of the prediction, for a sequence that is not all zeros. */
  lemma NextStep(s: seq<int>, d: seq<int>, x: int)
    requires |s| > 0 && !AllZero(s) && d == Differences(s) && NextValue(d) == x
    ensures NextValue(s) == Last(s) + x
  {
  }

  lemma PrevStep(s: seq<int>, d: seq<int>, x: int)
    requires |s| > 0 && !AllZero(s) && d == Differences(s) && PrevValue(d) == x
    ensures PrevValue(s) == s[0] - x
  {
  }

  lemma ZeroRow(s: seq<int>)
    requires AllZero(s)
    ensures NextValue(s) == 0 && PrevValue(s) == 0
  {
  }

  lemma Row(s: seq<int>, d: seq<int>)
    requires |s| > 0 && d == seq(|s| - 1, i requires 0 <= i < |s| - 1 => s[i + 1] - s[i])
    ensures Differences(s) == d
  {
  }

  lemma FirstExample()
    ensures NextValue([0, 3, 6, 9, 12, 15]) == 18 && PrevValue([0, 3, 6, 9, 12, 15]) == -3
  {
    var s0, s1 := [0, 3, 6, 9, 12, 15], [3, 3, 3, 3, 3];
    Row(s0, s1);
    Row(s1, [0, 0, 0, 0]);
    ZeroRow([0, 0, 0, 0]);
    NextStep(s1, [0, 0, 0, 0], 0);
    PrevStep(s1, [0, 0, 0, 0], 0);
    NextStep(s0, s1, 3);
    PrevStep(s0, s1, 3);
  }

  lemma SecondExample()
    ensures NextValue([1, 3, 6, 10, 15, 21]) == 28 && PrevValue([1, 3, 6, 10, 15, 21]) == 0
  {
    var s0, s1, s2 := [1, 3, 6, 10, 15, 21], [2, 3, 4, 5, 6], [1, 1, 1, 1];
    Row(s0, s1);
    Row(s1, s2);
    Row(s2, [0, 0, 0]);
    ZeroRow([0, 0, 0]);
    NextStep(s2, [0, 0, 0], 0);
    PrevStep(s2, [0, 0, 0], 0);
    NextStep(s1, s2, 1);
    PrevStep(s1, s2, 1);
    NextStep(s0, s1, 7);
    PrevStep(s0, s1, 1);
  }

  lemma ThirdExample()
    ensures NextValue([10, 13, 16, 21, 30, 45]) == 68 && PrevValue([10, 13, 16, 21, 30, 45]) == 5
  {
    var s0, s1, s2, s3 := [10, 13, 16, 21, 30, 45], [3, 3, 5, 9, 15], [0, 2, 4, 6], [2, 2, 2];
    Row(s0, s1);
    Row(s1, s2);
    Row(s2, s3);
    Row(s3, [0, 0]);
    ZeroRow([0, 0]);
    NextStep(s3, [0, 0], 0);
    PrevStep(s3, [0, 0], 0);
    NextStep(s2, s3, 2);
    PrevStep(s2, s3, 2);
    NextStep(s1, s2, 8);
    PrevStep(s1, s2, -2);
    NextStep(s0, s1, 23);
    PrevStep(s0, s1, 5);
  }

  /** Over the three example lines the forward extrapolations add up to 114 and the backward ones to 2. */
  lemma ExampleSums()
    ensures NextValue([0, 3, 6, 9, 12, 15]) + NextValue([1, 3, 6, 10, 15, 21]) + NextValue([10, 13, 16, 21, 30, 45]) == 114
    ensures PrevValue([0, 3, 6, 9, 12, 15]) + PrevValue([1, 3, 6, 10, 15, 21]) + PrevValue([10, 13, 16, 21, 30, 45]) == 2
  {
    FirstExample();
    SecondExample();
    ThirdExample();
  }

  // ---------------------------------------------------------------- the example text

  /** Reading rendered lines gives back every line's numbers. */
  lemma ReadLines(ls: seq<Layout>)
    requires forall k :: 0 <= k < |ls| ==> |ls[k]| > 0 && Dense(ls[k])
    ensures MapAll(RenderLines(ls), ReadSequence) == Ok(ValuesOf(ls))
  {
    var rows := RenderLines(ls);
    forall k | 0 <= k < |ls| ensures ReadSequence(rows[k]) == Ok(Values(ls[k])) {
      ReadSequenceRender(ls[k]);
    }
    MapAllPointwise(rows, ReadSequence, ValuesOf(ls));
  }

  /** `readSequences` over text made of rendered lines gives back every line's numbers. */
  lemma ReadSequencesText(ls: seq<Layout>)
    requires forall k :: 0 <= k < |ls| ==> |ls[k]| > 0 && Dense(ls[k])
    ensures ReadSequences(Framed(ls, 1)) == Ok(ValuesOf(ls))
  {
    ReadLines(ls);
    ReadFramed(ls, 1, ReadSequence, ValuesOf(ls));
  }
}
