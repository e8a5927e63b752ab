/** Day 12: damaged spring records, the lengths of their damaged runs and the arrangements of their unknown springs (12/arrangements.py). */
module Day12Arrangements {
  import opened Wrappers
  import opened Strings
  import opened Lists
  import opened Numbers

  /** `Line`: a record of springs (`#` damaged, `.` operational, `?` unknown) and the damaged run lengths it should have. */
  datatype Line = Line(schematic: string, sequence: seq<int>)

  // ---------------------------------------------------------------- readLine

  /** `readLine`: the record and the comma-separated lengths on either side of the one blank. */
  function ReadLine(line: string): (r: Result<Line>)
    ensures r.Err? ==> r.error == "ValueError"
    ensures r.Ok? ==> forall i :: 0 <= i < |r.value.schematic| ==> r.value.schematic[i] != ' '
  {
    var parts := SplitOn(line, ' ');
    if |parts| != 2 then Err("ValueError")
    else
      match ReadInts(SplitOn(parts[1], ','))
      case Err(e) => Err(e)
      case Ok(sequence) => Ok(Line(parts[0], sequence))
  }

  /** A line as the puzzle input writes it. */
  function RenderLine(l: Line): string
  {
    l.schematic + " " + Join(IntStrings(l.sequence), ",")
  }

  /** Reading a written line gives it back, for a record without blanks and at least one length. */
  lemma ReadLineRender(l: Line)
    requires forall i :: 0 <= i < |l.schematic| ==> l.schematic[i] != ' '
    requires |l.sequence| >= 1
    ensures ReadLine(RenderLine(l)) == Ok(l)
  {
    var numbers := IntStrings(l.sequence);
    forall k | 0 <= k < |numbers|
      ensures forall i :: 0 <= i < |numbers[k]| ==> numbers[k][i] != ' ' && numbers[k][i] != ','
    {
      IntToStringChars(l.sequence[k]);
    }
    JoinChars(numbers, ",", ' ');
    var joined := Join(numbers, ",");
    assert Join([l.schematic, joined], " ") == RenderLine(l);
    SplitOnJoin([l.schematic, joined], ' ');
    SplitOnJoin(numbers, ',');
    ReadIntStrings(l.sequence);
  }

  /** A line without exactly one blank is refused. */
  lemma ReadLineArity(line: string)
    requires |SplitOn(line, ' ')| != 2
    ensures ReadLine(line) == Err("ValueError")
  {
  }

  // ---------------------------------------------------------------- readSchematicValue

  /** The number of damaged springs at the front of `s`: the longest prefix of `#`. */
  function LeadingRun(s: string): (n: nat)
    ensures n <= |s| && (forall k :: 0 <= k < n ==> s[k] == '#') && (n < |s| ==> s[n] != '#')
  {
    if s == [] || s[0] != '#' then 0 else 1 + LeadingRun(s[1..])
  }

  /** Where `readSchematicValue` resumes from `idx`: past the end of the run when it reaches the end, else past the character ending it. */
  function Resume(s: string, idx: nat): (next: nat)
    requires idx < |s|
    ensures idx < next <= |s|
  {
    var x := LeadingRun(s[idx..]);
    if idx + x == |s| then |s| else idx + x + 1
  }

  /**
   * What `readSchematicValue(s, idx)` returns: the length of the run of `#` starting at `idx`, and the index
   * just past the character that ends it — the length of `s` when the run reaches the end, `idx + 1` when
   * `idx` is already past the end.
   */
  function RunAt(s: string, idx: nat): (nat, nat)
  {
    if idx >= |s| then (0, idx + 1) else (LeadingRun(s[idx..]), Resume(s, idx))
  }

  /** `readSchematicValue`: count `#` from `idx` until another character, remembering the last index looked at. */
  method ReadSchematicValue(s: string, idx: nat) returns (x: nat, next: nat)
    ensures (x, next) == RunAt(s, idx)
    ensures idx < |s| ==> idx < next <= |s|
  {
    x := 0;
    if idx >= |s| {
      return 0, idx + 1;
    }
    var last := idx;
    var i := idx;
    while i < |s|
      invariant idx <= i <= |s| && x == i - idx
      invariant forall k :: idx <= k < i ==> s[k] == '#'
      invariant last == (if i == idx then idx else i - 1)
    {
      last := i;
      if s[i] != '#' {
        break;
      }
      x := x + 1;
      i := i + 1;
    }
    var t := s[idx..];
    assert forall k :: 0 <= k < x ==> t[k] == s[idx + k];
    next := last + 1;
  }

  // ---------------------------------------------------------------- readSchematicSequence

  /** The values `readSchematicSequence` collects from `idx` on, one per call of `readSchematicValue`, zeros included. */
  function ValuesFrom(s: string, idx: nat): seq<int>
    decreases |s| - idx
  {
    if idx >= |s| then [] else [LeadingRun(s[idx..])] + ValuesFrom(s, Resume(s, idx))
  }

  /** `[x for x in xs if x > 0]`. */
  function Positive(xs: seq<int>): seq<int>
  {
    Filter(xs, (x: int) => x > 0)
  }

  /** `readSchematicSequence`: the lengths of the damaged runs of a record, left to right. */
  function Sequence(s: string): seq<int>
  {
    Positive(ValuesFrom(s, 0))
  }

  /** `readSchematicSequence`: step through the record with `readSchematicValue`, then drop the zeros. */
  method ReadSchematicSequence(s: string) returns (sequence: seq<int>)
    ensures sequence == Sequence(s)
  {
    var values: seq<int> := [];
    var idx: nat := 0;
    while idx < |s|
      invariant idx <= |s| && values + ValuesFrom(s, idx) == ValuesFrom(s, 0)
      decreases |s| - idx
    {
      var x, next := ReadSchematicValue(s, idx);
      assert ValuesFrom(s, idx) == [x] + ValuesFrom(s, next);
      values := values + [x];
      idx := next;
    }
    assert values == ValuesFrom(s, 0);
    sequence := Positive(values);
  }

  /** Every length in the sequence is positive. */
  lemma SequencePositive(s: string)
    ensures forall k :: 0 <= k < |Sequence(s)| ==> Sequence(s)[k] > 0
  {
  }

  // ---------------------------------------------------------------- the sequence of a laid-out record

  /** `n` operational springs. */
  function Operational(n: nat): (s: string)
    ensures |s| == n && forall k :: 0 <= k < n ==> s[k] == '.'
  {
    seq(n, k => '.')
  }

  /** `n` damaged springs. */
  function Damaged(n: nat): (s: string)
    ensures |s| == n && forall k :: 0 <= k < n ==> s[k] == '#'
  {
    seq(n, k => '#')
  }

  /** A record laid out as `gaps[0]` operational springs, `runs[0]` damaged ones, `gaps[1]` operational ones, and so on. */
  function Layout(gaps: seq<nat>, runs: seq<nat>): string
    requires |gaps| == |runs| + 1
  {
    if runs == [] then Operational(gaps[0])
    else Operational(gaps[0]) + Damaged(runs[0]) + Layout(gaps[1..], runs[1..])
  }

  /** Runs are non-empty and separated by at least one operational spring (the outer gaps may be empty). */
  predicate WellSpaced(gaps: seq<nat>, runs: seq<nat>)
    requires |gaps| == |runs| + 1
  {
    (forall k :: 0 <= k < |runs| ==> runs[k] > 0) && forall k :: 0 < k < |runs| ==> gaps[k] > 0
  }

  /** Scanning from `idx` is scanning the suffix from its start. */
  lemma {:induction false} ValuesSuffix(s: string, idx: nat)
    requires idx <= |s|
    ensures ValuesFrom(s, idx) == ValuesFrom(s[idx..], 0)
    decreases |s| - idx
  {
    if idx < |s| {
      var t := s[idx..];
      assert t[0..] == t;
      var next := Resume(s, idx);
      assert Resume(t, 0) == next - idx;
      ValuesSuffix(s, next);
      ValuesSuffix(t, next - idx);
      assert t[next - idx..] == s[next..];
    }
  }

  /** An operational spring in front contributes a zero, which is dropped. */
  lemma LeadingOperational(t: string)
    ensures Positive(ValuesFrom("." + t, 0)) == Positive(ValuesFrom(t, 0))
  {
    var s := "." + t;
    assert LeadingRun(s) == 0;
    assert ValuesFrom(s, 0) == [0] + ValuesFrom(s, 1);
    ValuesSuffix(s, 1);
    assert s[1..] == t;
    FilterAppend([0], ValuesFrom(t, 0), (x: int) => x > 0);
    assert Filter([0], (x: int) => x > 0) == [];
  }

  /** Operational springs in front do not change the sequence. */
  lemma {:induction false} LeadingOperationals(g: nat, t: string)
    ensures Positive(ValuesFrom(Operational(g) + t, 0)) == Positive(ValuesFrom(t, 0))
  {
    if g > 0 {
      assert Operational(g) + t == "." + (Operational(g - 1) + t);
      LeadingOperational(Operational(g - 1) + t);
      LeadingOperationals(g - 1, t);
    } else {
      assert Operational(g) + t == t;
    }
  }

  /** A run of `r` damaged springs that ends the record contributes `r`. */
  lemma RunAtEnd(r: nat)
    requires r > 0
    ensures ValuesFrom(Damaged(r), 0) == [r]
  {
    assert LeadingRun(Damaged(r)) == r;
    assert Damaged(r)[0..] == Damaged(r);
  }

  /** A run of `r` damaged springs ended by another character contributes `r`, and scanning resumes past that character. */
  lemma RunThenOther(r: nat, c: char, t: string)
    requires r > 0 && c != '#'
    ensures ValuesFrom(Damaged(r) + [c] + t, 0) == [r] + ValuesFrom(t, 0)
  {
    var s := Damaged(r) + [c] + t;
    assert s[0..] == s;
    assert s[r] == c;
    assert LeadingRun(s) == r;
    ValuesSuffix(s, r + 1);
    assert s[r + 1..] == t;
  }

  /** The last run, with nothing after it, is the whole sequence of what is left. */
  lemma LastRun(r: nat)
    requires r > 0
    ensures Positive(ValuesFrom(Damaged(r), 0)) == [r]
  {
    RunAtEnd(r);
    assert Filter([r], (x: int) => x > 0) == Filter([], (x: int) => x > 0) + [r];
  }

  /** A run followed by an operational spring comes first in the sequence, before that of what follows. */
  lemma RunFirst(r: nat, tail: string)
    requires r > 0
    ensures Positive(ValuesFrom(Damaged(r) + ['.'] + tail, 0)) == [r] + Positive(ValuesFrom(tail, 0))
  {
    var p := (x: int) => x > 0;
    RunThenOther(r, '.', tail);
    FilterAppend([r], ValuesFrom(tail, 0), p);
    assert Filter([r], p) == Filter([], p) + [r];
  }

  /** One more operational spring goes in front. */
  lemma OperationalCons(n: nat)
    ensures Operational(n + 1) == "." + Operational(n)
  {
  }

  /** A non-empty gap starts with an operational spring and leaves a layout with that gap one shorter. */
  lemma LayoutGap(gaps: seq<nat>, runs: seq<nat>)
    requires |gaps| == |runs| + 1 && gaps[0] > 0
    ensures Layout(gaps, runs) == "." + Layout([gaps[0] - 1] + gaps[1..], runs)
  {
    if runs == [] {
      OperationalCons(gaps[0] - 1);
    } else {
      LayoutFrontGap(gaps[0] - 1, gaps[1..], runs);
      assert gaps == [gaps[0]] + gaps[1..];
    }
  }

  /** A layout with runs starts with its first gap, followed by its first run and the rest of the layout. */
  lemma LayoutCons(gaps: seq<nat>, runs: seq<nat>)
    requires |gaps| == |runs| + 1 && |runs| > 0
    ensures Layout(gaps, runs) == Operational(gaps[0]) + (Damaged(runs[0]) + Layout(gaps[1..], runs[1..]))
  {
    assert Layout(gaps, runs) == (Operational(gaps[0]) + Damaged(runs[0])) + Layout(gaps[1..], runs[1..]);
  }

  lemma PrependDot(a: string, rest: string)
    ensures ("." + a) + rest == "." + (a + rest)
  {
  }

  /** The first gap of a layout with runs, one spring longer. */
  lemma LayoutFrontGap(g: nat, more: seq<nat>, runs: seq<nat>)
    requires |more| == |runs| && |runs| > 0
    ensures Layout([g + 1] + more, runs) == "." + Layout([g] + more, runs)
  {
    var longer, shorter := [g + 1] + more, [g] + more;
    assert longer[0] == g + 1 && longer[1..] == more;
    assert shorter[0] == g && shorter[1..] == more;
    LayoutCons(longer, runs);
    LayoutCons(shorter, runs);
    var rest := Damaged(runs[0]) + Layout(more, runs[1..]);
    OperationalCons(g);
    PrependDot(Operational(g), rest);
  }

  /** The well-spaced layout with one run and no gap after it: its sequence is that run. */
  lemma SequenceLastRun(gaps: seq<nat>, runs: seq<nat>)
    requires |gaps| == |runs| + 1 && WellSpaced(gaps, runs) && |runs| == 1 && gaps[1] == 0
    ensures Sequence(Layout(gaps, runs)) == runs
  {
    var r := runs[0];
    LayoutCons(gaps, runs);
    assert Layout(gaps[1..], runs[1..]) == Operational(0);
    assert Damaged(r) + Layout(gaps[1..], runs[1..]) == Damaged(r);
    LeadingOperationals(gaps[0], Damaged(r));
    LastRun(r);
  }

  /** Leading operational springs, a run and one operational spring: the run heads the sequence of what follows. */
  lemma SequenceJoin(g: nat, r: nat, tail: string, whole: string)
    requires r > 0 && whole == Operational(g) + (Damaged(r) + ("." + tail))
    ensures Sequence(whole) == [r] + Sequence(tail)
  {
    LeadingOperationals(g, Damaged(r) + ("." + tail));
    AppendChar(Damaged(r), '.', tail);
    RunFirst(r, tail);
  }

  /** Shortening the first inner gap of a well-spaced layout by one keeps the rest well spaced. */
  lemma WellSpacedStep(gaps: seq<nat>, runs: seq<nat>)
    requires |gaps| == |runs| + 1 && WellSpaced(gaps, runs) && |runs| > 0 && !(|runs| == 1 && gaps[1] == 0)
    ensures gaps[1] > 0 && WellSpaced([gaps[1] - 1] + gaps[2..], runs[1..])
  {
    var gaps' := [gaps[1] - 1] + gaps[2..];
    assert forall k :: 0 < k < |runs[1..]| ==> gaps'[k] == gaps[k + 1];
  }

  /** The first run of a well-spaced layout, then the layout of the rest with the next gap one shorter. */
  lemma SequenceStep(gaps: seq<nat>, runs: seq<nat>)
    requires |gaps| == |runs| + 1 && WellSpaced(gaps, runs) && |runs| > 0 && !(|runs| == 1 && gaps[1] == 0)
    ensures gaps[1] > 0
    ensures Sequence(Layout(gaps, runs)) == [runs[0]] + Sequence(Layout([gaps[1] - 1] + gaps[2..], runs[1..]))
  {
    WellSpacedStep(gaps, runs);
    LayoutCons(gaps, runs);
    assert gaps[1..][0] == gaps[1] && gaps[1..][1..] == gaps[2..];
    LayoutGap(gaps[1..], runs[1..]);
    SequenceJoin(gaps[0], runs[0], Layout([gaps[1] - 1] + gaps[2..], runs[1..]), Layout(gaps, runs));
  }

  /** A laid-out record whose runs are well spaced has exactly those runs as its sequence. */
  lemma {:induction false} SequenceLayout(gaps: seq<nat>, runs: seq<nat>)
    requires |gaps| == |runs| + 1 && WellSpaced(gaps, runs)
    ensures Sequence(Layout(gaps, runs)) == runs
    decreases |runs|
  {
    if runs == [] {
      LeadingOperationals(gaps[0], "");
      assert Operational(gaps[0]) + "" == Operational(gaps[0]);
    } else if |runs| == 1 && gaps[1] == 0 {
      SequenceLastRun(gaps, runs);
    } else {
      SequenceStep(gaps, runs);
      WellSpacedStep(gaps, runs);
      SequenceLayout([gaps[1] - 1] + gaps[2..], runs[1..]);
      assert runs == [runs[0]] + runs[1..];
    }
  }


  // ---------------------------------------------------------------- createSchematicVariants

  /** The number of unknown springs: `len([c for c in schematic if c == "?"])`. */
  function Unknowns(s: string): nat
  {
    if s == [] then 0 else (if s[0] == '?' then 1 else 0) + Unknowns(s[1..])
  }

  /** The spring an unknown becomes for one bit of the variant number. */
  function Filled(bit: bool): char
  {
    if bit then '#' else '.'
  }

  /** Variant `i` of a record: the first unknown takes bit 0 of `i`, the next bit 1, and so on; known springs stay. */
  function Fill(s: string, i: nat): string
  {
    if s == [] then []
    else if s[0] == '?' then [Filled(i % 2 == 1)] + Fill(s[1..], i / 2)
    else [s[0]] + Fill(s[1..], i)
  }

  /** The list `createSchematicVariants` returns: variant `i` for every `i` below `2 ** k`, for `k` unknowns. */
  function Variants(s: string): (vs: seq<string>)
    ensures |vs| == Pow(2, Unknowns(s)) && forall i :: 0 <= i < |vs| ==> vs[i] == Fill(s, i)
  {
    seq(Pow(2, Unknowns(s)), i requires 0 <= i => Fill(s, i))
  }

  /** `i & (1 << w) != 0`: bit `w` of `i` is set. */
  predicate Bit(i: nat, w: nat)
  {
    (i / Pow(2, w)) % 2 == 1
  }

  /** A positive multiple of `d` is at least `d`. */
  lemma MulAtLeast(a: int, d: int)
    requires a >= 1 && d > 0
    ensures a * d >= d
  {
  }

  /** Division is determined by a quotient and a remainder below the divisor. */
  lemma DivUnique(i: int, d: int, q: int, r: int)
    requires d > 0 && i == q * d + r && 0 <= r < d
    ensures i / d == q
  {
    var q0, r0 := i / d, i % d;
    assert (q - q0) * d == r0 - r;
    if q > q0 {
      MulAtLeast(q - q0, d);
      assert false;
    }
    if q < q0 {
      MulAtLeast(q0 - q, d);
      assert false;
    }
  }

  /** Dividing by `p` and then by two divides by `2 * p`. */
  lemma DivHalf(i: nat, p: nat)
    requires p > 0
    ensures i / p / 2 == i / (2 * p)
  {
    var q := i / p;
    var r := i % p;
    var b := q % 2;
    assert q == 2 * (q / 2) + b;
    assert i == (q / 2) * (2 * p) + (b * p + r) by {
      assert i == q * p + r;
      assert q * p == (q / 2) * (2 * p) + b * p;
    }
    assert b * p <= p by {
      if b == 1 { assert b * p == p; } else { assert b * p == 0; }
    }
    DivUnique(i, 2 * p, q / 2, b * p + r);
  }

  /** The variant of a suffix starts with its first spring, filled from bit 0 if it is unknown. */
  lemma FillStep(s: string, j: nat, q: nat)
    requires j < |s|
    ensures Fill(s[j..], q) == [if s[j] == '?' then Filled(q % 2 == 1) else s[j]] + Fill(s[j + 1..], if s[j] == '?' then q / 2 else q)
  {
    assert s[j..][0] == s[j] && s[j..][1..] == s[j + 1..];
  }

  lemma AppendChar(a: string, c: char, t: string)
    ensures (a + [c]) + t == a + ([c] + t)
  {
  }

  /** One variant: walk the record, replacing each unknown by the bit of `i` that its position among the unknowns selects. */
  method BuildVariant(s: string, i: nat) returns (variant: string)
    ensures variant == Fill(s, i)
  {
    variant := "";
    var w: nat := 0;
    for j := 0 to |s|
      invariant variant + Fill(s[j..], i / Pow(2, w)) == Fill(s, i)
    {
      ghost var q := i / Pow(2, w);
      FillStep(s, j, q);
      ghost var next := if s[j] == '?' then q / 2 else q;
      var c: char;
      if s[j] == '?' {
        if Bit(i, w) {
          c := '#';
        } else {
          c := '.';
        }
        DivHalf(i, Pow(2, w));
        w := w + 1;
      } else {
        c := s[j];
      }
      assert next == i / Pow(2, w);
      AppendChar(variant, c, Fill(s[j + 1..], next));
      variant := variant + [c];
    }
  }

  /** `createSchematicVariants`: one variant per number below `2 ** k`, in that order. */
  method CreateSchematicVariants(s: string) returns (variants: seq<string>)
    ensures variants == Variants(s)
  {
    variants := [];
    var count := Pow(2, Unknowns(s));
    for i := 0 to count
      invariant |variants| == i && forall k :: 0 <= k < i ==> variants[k] == Fill(s, k)
    {
      var variant := BuildVariant(s, i);
      variants := variants + [variant];
    }
  }

  /** A filling of a record: every unknown made `#` or `.`, every known spring kept. */
  ghost predicate IsFilling(s: string, t: string)
  {
    |t| == |s| && forall p :: 0 <= p < |s| ==> if s[p] == '?' then t[p] == '#' || t[p] == '.' else t[p] == s[p]
  }

  /** The number of the variant that gives a filling: bit `j` is set iff the `j`-th unknown is damaged. */
  function Code(s: string, t: string): nat
    requires |t| == |s|
  {
    if s == [] then 0
    else if s[0] == '?' then (if t[0] == '#' then 1 else 0) + 2 * Code(s[1..], t[1..])
    else Code(s[1..], t[1..])
  }

  /** Every variant is a filling. */
  lemma {:induction false} FillIsFilling(s: string, i: nat)
    ensures IsFilling(s, Fill(s, i))
  {
    if s != [] {
      FillIsFilling(s[1..], if s[0] == '?' then i / 2 else i);
      var t := Fill(s, i);
      forall p | 0 < p < |s| ensures t[p] == Fill(s[1..], if s[0] == '?' then i / 2 else i)[p - 1] && s[p] == s[1..][p - 1] {
      }
    }
  }

  /** A filling's number is below `2 ** k`. */
  lemma {:induction false} CodeBound(s: string, t: string)
    requires |t| == |s|
    ensures Code(s, t) < Pow(2, Unknowns(s))
  {
    if s != [] {
      CodeBound(s[1..], t[1..]);
    }
  }

  /** The variant numbered by a filling is that filling. */
  lemma {:induction false} FillCode(s: string, t: string)
    requires IsFilling(s, t)
    ensures Fill(s, Code(s, t)) == t
  {
    if s != [] {
      assert IsFilling(s[1..], t[1..]) by {
        forall p | 0 <= p < |s| - 1 ensures s[1..][p] == s[p + 1] && t[1..][p] == t[p + 1] {
        }
      }
      FillCode(s[1..], t[1..]);
      var c := Code(s[1..], t[1..]);
      if s[0] == '?' {
        var b := if t[0] == '#' then 1 else 0;
        assert (b + 2 * c) % 2 == b && (b + 2 * c) / 2 == c;
      }
      assert t == [t[0]] + t[1..];
    }
  }

  /** The filling of variant `i` numbers `i`, for every `i` below `2 ** k`. */
  lemma {:induction false} CodeFill(s: string, i: nat)
    requires i < Pow(2, Unknowns(s))
    ensures |Fill(s, i)| == |s| && Code(s, Fill(s, i)) == i
  {
    FillIsFilling(s, i);
    if s != [] {
      var t := Fill(s, i);
      if s[0] == '?' {
        CodeFill(s[1..], i / 2);
        assert t[1..] == Fill(s[1..], i / 2);
      } else {
        CodeFill(s[1..], i);
        assert t[1..] == Fill(s[1..], i);
      }
    }
  }

  /** The variants are exactly the fillings of the record. */
  lemma VariantsAreFillings(s: string, t: string)
    ensures t in Variants(s) <==> IsFilling(s, t)
  {
    var vs := Variants(s);
    if t in vs {
      var i :| 0 <= i < |vs| && vs[i] == t;
      FillIsFilling(s, i);
    }
    if IsFilling(s, t) {
      CodeBound(s, t);
      FillCode(s, t);
      assert vs[Code(s, t)] == t;
    }
  }

  /** No filling is listed twice. */
  lemma VariantsDistinct(s: string)
    ensures forall i, j :: 0 <= i < j < |Variants(s)| ==> Variants(s)[i] != Variants(s)[j]
  {
    var vs := Variants(s);
    forall i, j | 0 <= i < j < |vs| ensures vs[i] != vs[j] {
      CodeFill(s, i);
      CodeFill(s, j);
    }
  }

  // ---------------------------------------------------------------- matches and countMatches

  /** `matches`: the record's damaged runs are the sequence. */
  predicate Matches(s: string, sequence: seq<int>)
  {
    Sequence(s) == sequence
  }

  /** A well-spaced layout matches its own runs, and a matched sequence has only positive lengths. */
  lemma MatchesSpec(gaps: seq<nat>, runs: seq<nat>, s: string, sequence: seq<int>)
    requires |gaps| == |runs| + 1 && WellSpaced(gaps, runs)
    ensures Matches(Layout(gaps, runs), runs)
    ensures Matches(s, sequence) ==> forall k :: 0 <= k < |sequence| ==> sequence[k] > 0
  {
    SequenceLayout(gaps, runs);
  }

  /** `VariantLine`: a record, its variants and the run lengths they should have. */
  datatype VariantLine = VariantLine(originalSchematic: string, variants: seq<string>, sequence: seq<int>)

  /** `VariantLine.countMatches`: how many variants match the sequence. */
  function CountMatches(v: VariantLine): (n: nat)
    ensures n <= |v.variants|
  {
    |Filter(v.variants, (t: string) => Matches(t, v.sequence))|
  }

  /** `createVariantLine`: a line with every variant of its record. */
  method CreateVariantLine(l: Line) returns (v: VariantLine)
    ensures v == VariantLine(l.schematic, Variants(l.schematic), l.sequence)
  {
    var variants := CreateSchematicVariants(l.schematic);
    v := VariantLine(l.schematic, variants, l.sequence);
  }

  /** The count of a created line is the number of arrangements: fillings of the unknowns whose runs are the sequence. */
  lemma CountArrangements(l: Line)
    ensures var v := VariantLine(l.schematic, Variants(l.schematic), l.sequence);
      CountMatches(v) == |set t | t in v.variants && Matches(t, v.sequence)|
      && forall t :: t in v.variants <==> IsFilling(l.schematic, t)
  {
    var vs := Variants(l.schematic);
    var p := (t: string) => Matches(t, l.sequence);
    VariantsDistinct(l.schematic);
    FilterDistinct(vs, p);
    var kept := Filter(vs, p);
    assert forall i, j :: 0 <= i < j < |kept| ==> kept[i] != kept[j];
    DistinctSize(kept);
    forall t ensures t in kept <==> t in vs && Matches(t, l.sequence) {
      FilterMembers(vs, p, t);
    }
    assert (set t | t in kept) == (set t | t in vs && Matches(t, l.sequence));
    forall t ensures t in vs <==> IsFilling(l.schematic, t) {
      VariantsAreFillings(l.schematic, t);
    }
  }

  // ---------------------------------------------------------------- the source's assertions

  /** `readSchematicSequence("##.#...###.#") == [2, 1, 3, 1]`. */
  lemma SequenceExample()
    ensures Sequence("##.#...###.#") == [2, 1, 3, 1]
  {
    assert Layout([0, 1, 3, 1, 0], [2, 1, 3, 1]) == "##.#...###.#";
    SequenceLayout([0, 1, 3, 1, 0], [2, 1, 3, 1]);
  }

  /** `readLine("???.### 1,1,3")`, the example's first line. */
  lemma ReadLineExample()
    ensures ReadLine("???.### 1,1,3") == Ok(Line("???.###", [1, 1, 3]))
  {
    var l := Line("???.###", [1, 1, 3]);
    assert IntToString(1) == "1" && IntToString(3) == "3";
    assert IntStrings([1, 1, 3]) == ["1", "1", "3"];
    assert Join(["1", "1", "3"], ",") == "1,1,3";
    assert RenderLine(l) == "???.### 1,1,3";
    ReadLineRender(l);
  }
}
