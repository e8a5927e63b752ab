/** Text made of lines: dropping blank lines, and lines of numbers framed by line breaks. */
module Lines {
  import opened Wrappers
  import opened Strings
  import opened Lists
  import opened Numbers

  /** `line.strip() == ""`. */
  predicate Blank(line: string)
  {
    Strip(line) == []
  }

  predicate Kept(line: string)
  {
    !Blank(line)
  }

  /** The lines that are not blank once stripped, in order. */
  function NonBlank(lines: seq<string>): (r: seq<string>)
    ensures |r| <= |lines|
  {
    Filter(lines, Kept)
  }

  lemma NonBlankAppend(a: seq<string>, b: seq<string>)
    ensures NonBlank(a + b) == NonBlank(a) + NonBlank(b)
  {
    FilterAppend(a, b, Kept);
  }

  lemma NonBlankSnoc(lines: seq<string>, line: string)
    ensures NonBlank(lines + [line]) == NonBlank(lines) + if Blank(line) then [] else [line]
  {
    assert (lines + [line])[..|lines|] == lines;
  }

  function RenderLines(ls: seq<Layout>): (r: seq<string>)
    ensures |r| == |ls| && forall k :: 0 <= k < |ls| ==> r[k] == Render(ls[k])
  {
    seq(|ls|, k requires 0 <= k < |ls| => Render(ls[k]))
  }

  function ValuesOf(ls: seq<Layout>): (r: seq<seq<int>>)
    ensures |r| == |ls| && forall k :: 0 <= k < |ls| ==> r[k] == Values(ls[k])
  {
    seq(|ls|, k requires 0 <= k < |ls| => Values(ls[k]))
  }

  /** `n` empty lines. */
  function Empties(n: nat): (r: seq<string>)
    ensures |r| == n && forall k :: 0 <= k < n ==> r[k] == ""
  {
    seq(n, k => "")
  }

  /** Lines of numbers as puzzle texts hold them: a line break first, each line then followed by one, and `n - 1` further ones. */
  function Framed(ls: seq<Layout>, n: nat): string
  {
    Join([""] + RenderLines(ls) + Empties(n), "\n")
  }

  /** The blank first and last lines are dropped and every other line is kept. */
  lemma NonBlankFramed(rows: seq<string>, n: nat)
    requires forall k :: 0 <= k < |rows| ==> !Blank(rows[k])
    ensures NonBlank([""] + rows + Empties(n)) == rows
  {
    var p := Kept;
    StripNoSpace("");
    assert !p("");
    assert Filter([""], p) == [] by { assert [""][..0] == []; }
    FilterNone(Empties(n), p);
    FilterAppend([""] + rows, Empties(n), p);
    FilterAppend([""], rows, p);
    FilterKeeps(rows, p);
  }

  /** One more line of a loop that skips blank lines and reads the others with `f`. */
  lemma ReadLinesStep<B>(lines: seq<string>, i: nat, f: string -> Result<B>, acc: seq<B>)
    requires i < |lines| && MapAll(NonBlank(lines[..i]), f) == Ok(acc)
    ensures MapAll(NonBlank(lines[..i + 1]), f) ==
      if Blank(lines[i]) then Ok(acc) else match f(lines[i]) case Err(e) => Err(e) case Ok(v) => Ok(acc + [v])
  {
    assert lines[..i + 1] == lines[..i] + [lines[i]];
    NonBlankSnoc(lines[..i], lines[i]);
    if !Blank(lines[i]) {
      MapAllSnoc(NonBlank(lines[..i]), lines[i], f);
    } else {
      assert NonBlank(lines[..i]) + [] == NonBlank(lines[..i]);
    }
  }

  /** Once the lines read so far fail, reading all of them fails with the same error. */
  lemma ReadLinesPrefixErr<B>(a: seq<string>, b: seq<string>, f: string -> Result<B>)
    requires MapAll(NonBlank(a), f).Err?
    ensures MapAll(NonBlank(a + b), f) == MapAll(NonBlank(a), f)
  {
    NonBlankAppend(a, b);
    MapAllPrefixErr(NonBlank(a), NonBlank(b), f);
  }

  /** A rendered line of numbers has no line break and is not blank. */
  lemma RenderLine(l: Layout)
    requires |l| > 0 && Dense(l)
    ensures forall i :: 0 <= i < |Render(l)| ==> Render(l)[i] != '\n'
    ensures !Blank(Render(l))
  {
    TokensChars(l);
    JoinChars(Tokens(l), " ", '\n');
    RenderEnds(l);
    StripSpaces(0, Render(l));
    assert Spaces(0) + Render(l) == Render(l);
  }

  /** Rendered lines have no line break and are not blank. */
  lemma RenderLinesPlain(ls: seq<Layout>)
    requires forall k :: 0 <= k < |ls| ==> |ls[k]| > 0 && Dense(ls[k])
    ensures forall k, i :: 0 <= k < |ls| && 0 <= i < |RenderLines(ls)[k]| ==> RenderLines(ls)[k][i] != '\n'
    ensures forall k :: 0 <= k < |ls| ==> !Blank(RenderLines(ls)[k])
  {
    forall k | 0 <= k < |ls| ensures (forall i :: 0 <= i < |Render(ls[k])| ==> Render(ls[k])[i] != '\n') && !Blank(Render(ls[k])) {
      RenderLine(ls[k]);
    }
  }

  lemma FramedPlain(rows: seq<string>, n: nat)
    requires forall k, i :: 0 <= k < |rows| && 0 <= i < |rows[k]| ==> rows[k][i] != '\n'
    ensures forall k, i :: 0 <= k < |[""] + rows + Empties(n)| && 0 <= i < |([""] + rows + Empties(n))[k]| ==> ([""] + rows + Empties(n))[k][i] != '\n'
  {
    var parts := [""] + rows + Empties(n);
    forall k, i | 0 <= k < |parts| && 0 <= i < |parts[k]| ensures parts[k][i] != '\n' {
      assert 0 < k <= |rows| && parts[k] == rows[k - 1];
    }
  }

  /** Splitting the text at line breaks gives back the blank first and last lines and the rendered ones. */
  lemma SplitFramed(ls: seq<Layout>, n: nat)
    requires forall k :: 0 <= k < |ls| ==> |ls[k]| > 0 && Dense(ls[k])
    ensures SplitOn(Framed(ls, n), '\n') == [""] + RenderLines(ls) + Empties(n)
    ensures forall k :: 0 <= k < |ls| ==> !Blank(RenderLines(ls)[k])
  {
    RenderLinesPlain(ls);
    FramedPlain(RenderLines(ls), n);
    SplitOnJoin([""] + RenderLines(ls) + Empties(n), '\n');
  }

  /** `splitlines` drops the final empty piece, so it keeps one empty line fewer. */
  lemma SplitLinesFramed(ls: seq<Layout>, n: nat)
    requires n >= 1 && forall k :: 0 <= k < |ls| ==> |ls[k]| > 0 && Dense(ls[k])
    ensures SplitLines(Framed(ls, n)) == [""] + RenderLines(ls) + Empties(n - 1)
  {
    SplitFramed(ls, n);
    var parts := [""] + RenderLines(ls) + Empties(n);
    assert parts[|parts| - 1] == [];
    assert parts[..|parts| - 1] == [""] + RenderLines(ls) + Empties(n - 1);
  }

  /** Reading the lines of a framed text that are not blank is reading the rendered lines. */
  lemma ReadFramed<B>(ls: seq<Layout>, n: nat, f: string -> Result<B>, vs: seq<B>)
    requires forall k :: 0 <= k < |ls| ==> |ls[k]| > 0 && Dense(ls[k])
    requires MapAll(RenderLines(ls), f) == Ok(vs)
    ensures MapAll(NonBlank(SplitOn(Framed(ls, n), '\n')), f) == Ok(vs)
  {
    SplitFramed(ls, n);
    NonBlankFramed(RenderLines(ls), n);
  }

  /** The same with the text cut by `splitlines`. */
  lemma ReadFramedLines<B>(ls: seq<Layout>, n: nat, f: string -> Result<B>, vs: seq<B>)
    requires n >= 1 && forall k :: 0 <= k < |ls| ==> |ls[k]| > 0 && Dense(ls[k])
    requires MapAll(RenderLines(ls), f) == Ok(vs)
    ensures MapAll(NonBlank(SplitLines(Framed(ls, n))), f) == Ok(vs)
  {
    SplitLinesFramed(ls, n);
    RenderLinesPlain(ls);
    NonBlankFramed(RenderLines(ls), n - 1);
  }
}
