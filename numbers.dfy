/** Lists of integers written with blanks between them, as several puzzle inputs carry them. */
module Numbers {
  import opened Wrappers
  import opened Strings

  /** `int(s)` inside a comprehension: the value, or the `ValueError` it raises. */
  function ReadInt(s: string): (r: Result<int>)
    ensures r.Ok? <==> ParseInt(s).Some?
    ensures r.Ok? ==> ParseInt(s) == Some(r.value)
    ensures r.Err? ==> r.error == "ValueError"
  {
    match ParseInt(s)
    case Some(v) => Ok(v)
    case None => Err("ValueError")
  }

  /** `[int(x) for x in xs]`. */
  function ReadInts(xs: seq<string>): (r: Result<seq<int>>)
    ensures r.Ok? <==> forall k :: 0 <= k < |xs| ==> ReadInt(xs[k]).Ok?
    ensures r.Ok? ==> |r.value| == |xs| && forall k :: 0 <= k < |xs| ==> ReadInt(xs[k]) == Ok(r.value[k])
  {
    MapAll(xs, ReadInt)
  }

  /** `[x for x in xs if x != '']`: the non-empty strings, in order. */
  function NonEmpty(xs: seq<string>): (r: seq<string>)
    ensures |r| <= |xs|
    ensures forall x :: x in r <==> x in xs && x != []
  {
    if xs == [] then []
    else NonEmpty(xs[..|xs| - 1]) + (if xs[|xs| - 1] != [] then [xs[|xs| - 1]] else [])
  }

  /** `[x.strip() for x in xs]`. */
  function StripEach(xs: seq<string>): (r: seq<string>)
    ensures |r| == |xs| && forall k :: 0 <= k < |xs| ==> r[k] == Strip(xs[k])
  {
    seq(|xs|, k requires 0 <= k < |xs| => Strip(xs[k]))
  }

  // ---------------------------------------------------------------- the written form

  /**
   * A blank-separated list as it appears in the input: `Some(v)` is a number, `None` an empty
   * piece between two adjacent blanks (or before a leading or after a trailing blank).
   */
  type Layout = seq<Option<int>>

  function Token(t: Option<int>): string
  {
    match t
    case None => ""
    case Some(v) => IntToString(v)
  }

  function Tokens(l: Layout): (r: seq<string>)
    ensures |r| == |l| && forall k :: 0 <= k < |l| ==> r[k] == Token(l[k])
  {
    seq(|l|, k requires 0 <= k < |l| => Token(l[k]))
  }

  /** The text of a layout: its tokens joined with single blanks. */
  function Render(l: Layout): string
  {
    Join(Tokens(l), " ")
  }

  /** The numbers among the first `n` pieces of a layout, in order. */
  function ValuesIn(l: Layout, n: nat): seq<int>
    requires n <= |l|
  {
    if n == 0 then []
    else ValuesIn(l, n - 1) + (match l[n - 1] case None => [] case Some(v) => [v])
  }

  /** The numbers a layout holds, in order. */
  function Values(l: Layout): seq<int>
  {
    ValuesIn(l, |l|)
  }

  function IntStrings(vs: seq<int>): (r: seq<string>)
    ensures |r| == |vs| && forall k :: 0 <= k < |vs| ==> r[k] == IntToString(vs[k])
  {
    seq(|vs|, k requires 0 <= k < |vs| => IntToString(vs[k]))
  }

  /** `str(v)` consists of digits and at most a leading minus sign. */
  lemma IntToStringChars(v: int)
    ensures forall i :: 0 <= i < |IntToString(v)| ==> IsDigit(IntToString(v)[i]) || IntToString(v)[i] == '-'
  {
    if v < 0 {
      var n := NatToString(-v);
      forall i | 0 <= i < |"-" + n| ensures IsDigit(("-" + n)[i]) || ("-" + n)[i] == '-' {
        if i > 0 { assert ("-" + n)[i] == n[i - 1]; }
      }
    }
  }

  /** No token holds a character other than a digit or `-`. */
  lemma TokensChars(l: Layout)
    ensures forall k, i :: 0 <= k < |l| && 0 <= i < |Tokens(l)[k]| ==> IsDigit(Tokens(l)[k][i]) || Tokens(l)[k][i] == '-'
  {
    forall k | 0 <= k < |l| ensures forall i :: 0 <= i < |Tokens(l)[k]| ==> IsDigit(Tokens(l)[k][i]) || Tokens(l)[k][i] == '-' {
      if l[k].Some? { IntToStringChars(l[k].value); }
    }
  }

  /** A layout that starts and ends with a number renders without a blank at either end. */
  lemma RenderEnds(l: Layout)
    requires |l| > 0 && l[0].Some? && l[|l| - 1].Some?
    ensures |Render(l)| > 0 && !IsSpace(Render(l)[0]) && !IsSpace(Render(l)[|Render(l)| - 1])
  {
    var j, first, last := Render(l), Tokens(l)[0], Tokens(l)[|l| - 1];
    IntToStringChars(l[0].value);
    IntToStringChars(l[|l| - 1].value);
    JoinStarts(Tokens(l), " ");
    JoinEnds(Tokens(l), " ");
    assert j[0] == first[0] by { assert j[..|first|][0] == j[0]; }
    assert j[|j| - 1] == last[|last| - 1] by { assert j[|j| - |last|..][|last| - 1] == j[|j| - 1]; }
  }

  lemma {:induction false} NonEmptyTokensIn(l: Layout, n: nat)
    requires n <= |l|
    ensures NonEmpty(Tokens(l)[..n]) == IntStrings(ValuesIn(l, n))
    decreases n
  {
    if n > 0 {
      assert Tokens(l)[..n][..n - 1] == Tokens(l)[..n - 1];
      NonEmptyTokensIn(l, n - 1);
    }
  }

  lemma NonEmptyTokens(l: Layout)
    ensures NonEmpty(Tokens(l)) == IntStrings(Values(l))
  {
    assert Tokens(l)[..|l|] == Tokens(l);
    NonEmptyTokensIn(l, |l|);
  }

  lemma ReadIntString(v: int)
    ensures ReadInt(IntToString(v)) == Ok(v)
  {
    IntToStringRoundTrip(v);
  }

  /** `int(str(v))` over a whole list. */
  lemma ReadIntStrings(vs: seq<int>)
    ensures ReadInts(IntStrings(vs)) == Ok(vs)
  {
    var xs := IntStrings(vs);
    forall k | 0 <= k < |vs| ensures ReadInt(xs[k]) == Ok(vs[k]) {
      ReadIntString(vs[k]);
    }
    var r := ReadInts(xs);
    assert r.Ok?;
    assert |r.value| == |vs| && forall k :: 0 <= k < |vs| ==> r.value[k] == vs[k];
    assert r.value == vs;
  }

  /** `split(' ')` on a rendered layout gives back its tokens. */
  lemma SplitRender(l: Layout)
    requires |l| > 0
    ensures SplitOn(Render(l), ' ') == Tokens(l)
  {
    TokensChars(l);
    SplitOnJoin(Tokens(l), ' ');
  }

  /** An empty text splits into one empty piece. */
  lemma SplitEmpty(c: char)
    ensures SplitOn("", c) == [""]
  {
  }

  /** Splitting on blanks, dropping the empty pieces and converting the rest reads a layout's numbers. */
  lemma ReadLayout(l: Layout)
    ensures ReadInts(NonEmpty(SplitOn(Render(l), ' '))) == Ok(Values(l))
  {
    if l == [] {
      SplitEmpty(' ');
    } else {
      SplitRender(l);
    }
    NonEmptyTokens(l);
    ReadIntStrings(Values(l));
  }

  lemma {:induction false} NonEmptyKeeps(xs: seq<string>)
    requires forall k :: 0 <= k < |xs| ==> xs[k] != []
    ensures NonEmpty(xs) == xs
    decreases |xs|
  {
    if xs != [] {
      NonEmptyKeeps(xs[..|xs| - 1]);
    }
  }

  /** A layout of numbers only: every piece between two blanks is a number. */
  predicate Dense(l: Layout)
  {
    forall k :: 0 <= k < |l| ==> l[k].Some?
  }

  lemma DenseTokens(l: Layout)
    requires Dense(l)
    ensures Tokens(l) == IntStrings(Values(l))
  {
    forall k | 0 <= k < |l| ensures Tokens(l)[k] != [] {
      assert |IntToString(l[k].value)| > 0;
    }
    NonEmptyKeeps(Tokens(l));
    NonEmptyTokens(l);
  }

  /** Without dropping any piece, stripping and converting every piece reads back a dense layout. */
  lemma ReadDense(l: Layout)
    requires |l| > 0 && Dense(l)
    ensures ReadInts(StripEach(SplitOn(Render(l), ' '))) == Ok(Values(l))
  {
    SplitRender(l);
    StripTokens(l);
    DenseTokens(l);
    ReadIntStrings(Values(l));
  }

  /** Stripping each piece first changes nothing: no token holds a blank. */
  lemma StripTokens(l: Layout)
    ensures StripEach(Tokens(l)) == Tokens(l)
  {
    TokensChars(l);
    forall k | 0 <= k < |l| ensures Strip(Tokens(l)[k]) == Tokens(l)[k] {
      StripNoSpace(Tokens(l)[k]);
    }
  }

  /** The same with each piece stripped before the empty ones are dropped. */
  lemma ReadLayoutStripped(l: Layout)
    ensures ReadInts(NonEmpty(StripEach(SplitOn(Render(l), ' ')))) == Ok(Values(l))
  {
    if l == [] {
      SplitEmpty(' ');
      StripNoSpace("");
      assert StripEach([""]) == [""];
    } else {
      SplitRender(l);
      StripTokens(l);
    }
    NonEmptyTokens(l);
    ReadIntStrings(Values(l));
  }
}
