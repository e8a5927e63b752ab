/**
 * Day 1, part two: digits may also be spelled out as words, and every occurrence counts,
 * overlapping ones included (01/readLinesTwo.py).
 *
 * The search is stated for any list of nine number words; `ReadLine` applies it to the
 * English words the source lists.
 */
module Day01Spelled {
  import opened Wrappers
  import opened Strings
  import Sorting
  import Lists

  const Spelled: seq<string> := ["one", "two", "three", "four", "five", "six", "seven", "eight", "nine"]

  /** A match found in the line: where it starts and the word or numeral found there. */
  type Match = (int, string)

  // ---------------------------------------------------------------- what is found where

  /** Position `i` of `line` starts the word for `v` (the `v`-th of `words`) or its numeral, for a digit 1..9. */
  predicate Names(line: string, words: seq<string>, i: int, v: int)
  {
    1 <= v <= 9 && v <= |words| && (OccursAt(line, words[v - 1], i) || OccursAt(line, NatToString(v), i))
  }

  /** Nine words, one per digit, none of them empty. */
  predicate NineWords(words: seq<string>)
  {
    |words| == 9 && forall k :: 0 <= k < |words| ==> |words[k]| > 0
  }

  /** No position of any line names two different digits. */
  ghost predicate Unambiguous(words: seq<string>)
  {
    forall line, i, v, w :: Names(line, words, i, v) && Names(line, words, i, w) ==> v == w
  }

  ghost function NamedAt(line: string, words: seq<string>, i: int): (d: nat)
    ensures d <= 9
    ensures d != 0 ==> Names(line, words, i, d)
    ensures d == 0 ==> forall v :: !Names(line, words, i, v)
  {
    if exists v :: Names(line, words, i, v) then var v :| Names(line, words, i, v); v else 0
  }

  lemma NamedAtNames(line: string, words: seq<string>, i: int, v: int)
    requires Unambiguous(words) && Names(line, words, i, v)
    ensures NamedAt(line, words, i) == v
  {
    var d := NamedAt(line, words, i);
    if d != 0 {
      assert Names(line, words, i, d);
    }
  }

  /** The digit each position of the line names, 0 where none is. */
  ghost function Namer(line: string, words: seq<string>): int -> nat
  {
    i => NamedAt(line, words, i)
  }

  /** No digit is named outside the line: every word and numeral is non-empty. */
  lemma NamedInLine(line: string, words: seq<string>)
    requires NineWords(words)
    ensures forall i :: Namer(line, words)(i) != 0 ==> 0 <= i < |line|
  {
  }

  lemma OccursChars(s: string, sub: string, i: int)
    requires OccursAt(s, sub, i)
    ensures forall k :: 0 <= k < |sub| ==> s[i + k] == sub[k]
  {
    forall k | 0 <= k < |sub| ensures s[i + k] == sub[k] {
      assert s[i..i + |sub|][k] == s[i + k];
    }
  }

  /** The nine English words and the nine numerals differ in their first two characters. */
  lemma SpelledNamesUnique(line: string, i: int, v: int, w: int)
    requires Names(line, Spelled, i, v) && Names(line, Spelled, i, w)
    ensures v == w
  {
    var wv := if OccursAt(line, Spelled[v - 1], i) then Spelled[v - 1] else NatToString(v);
    var ww := if OccursAt(line, Spelled[w - 1], i) then Spelled[w - 1] else NatToString(w);
    OccursChars(line, wv, i);
    OccursChars(line, ww, i);
    assert wv[0] == ww[0];
    assert |wv| > 1 && |ww| > 1 ==> wv[1] == ww[1];
  }

  lemma SpelledWords()
    ensures NineWords(Spelled) && Unambiguous(Spelled)
  {
    forall line, i, v, w | Names(line, Spelled, i, v) && Names(line, Spelled, i, w) ensures v == w {
      SpelledNamesUnique(line, i, v, w);
    }
  }

  /** `spelled.index(word)` of the `v`-th word is `v - 1`: no word comes twice. */
  lemma WordIndex(words: seq<string>, v: int)
    requires Unambiguous(words) && 1 <= v <= 9 && v <= |words|
    ensures Lists.FirstIndex(words, words[v - 1]) == v - 1
  {
    var k := Lists.FirstIndex(words, words[v - 1]);
    if k != v - 1 {
      var line := words[v - 1];
      assert line[0..|line|] == line;
      assert Names(line, words, 0, v) && Names(line, words, 0, k + 1);
    }
  }

  /** The pairs `readLine` sorts: the position of a match and the numeral of the digit named there. */
  predicate Found(named: int -> nat, m: Match)
  {
    named(m.0) != 0 && m.1 == NatToString(named(m.0))
  }

  // ---------------------------------------------------------------- the reference: leftmost and rightmost match

  /** The leftmost position in `from..n-1` that names a digit. */
  function FirstNamed(named: int -> nat, n: nat, from: nat): (p: Option<nat>)
    ensures p.Some? ==> from <= p.value < n && named(p.value) != 0
    ensures forall j :: from <= j < n && (p.None? || j < p.value) ==> named(j) == 0
    decreases n - from
  {
    if from >= n then None
    else if named(from) != 0 then Some(from)
    else FirstNamed(named, n, from + 1)
  }

  /** The rightmost position in `0..upto-1` that names a digit. */
  function LastNamed(named: int -> nat, upto: nat): (p: Option<nat>)
    ensures p.Some? ==> p.value < upto && named(p.value) != 0
    ensures forall j :: 0 <= j < upto && (p.None? || p.value < j) ==> named(j) == 0
  {
    if upto == 0 then None
    else if named(upto - 1) != 0 then Some(upto - 1)
    else LastNamed(named, upto - 1)
  }

  /** Ten times the digit at the leftmost named position plus the one at the rightmost; an IndexError when none is named. */
  function CalibrationOf(named: int -> nat, n: nat): (r: Result<int>)
  {
    match (FirstNamed(named, n, 0), LastNamed(named, n))
    case (Some(i), Some(j)) => Ok(10 * named(i) + named(j))
    case _ => Err("IndexError")
  }

  /** The reference value of a line. */
  ghost function Calibration(line: string): (r: Result<int>)
  {
    CalibrationOf(Namer(line, Spelled), |line|)
  }

  /** The calibration fails exactly when no position names a digit; otherwise it lies in 11..99. */
  lemma CalibrationOfSpec(named: int -> nat, n: nat)
    requires forall i :: named(i) <= 9
    ensures CalibrationOf(named, n).Err? <==> forall i :: 0 <= i < n ==> named(i) == 0
    ensures CalibrationOf(named, n).Ok? ==> 11 <= CalibrationOf(named, n).value <= 99
  {
    var f := FirstNamed(named, n, 0);
    var l := LastNamed(named, n);
    assert f.Some? <==> l.Some?;
  }

  lemma CalibrationSpec(line: string)
    ensures Calibration(line).Err? <==> forall i :: 0 <= i < |line| ==> NamedAt(line, Spelled, i) == 0
    ensures Calibration(line).Ok? ==> 11 <= Calibration(line).value <= 99
  {
    CalibrationOfSpec(Namer(line, Spelled), |line|);
    assert forall i :: Namer(line, Spelled)(i) == NamedAt(line, Spelled, i);
  }

  // ---------------------------------------------------------------- the search loops

  /** Every occurrence of `word` at or after `start`, left to right, each paired with the word. */
  function Occurrences(line: string, word: string, start: nat): (ms: seq<Match>)
    requires |word| > 0
    decreases |line| - start
  {
    var i := Find(line, word, start);
    if i == -1 then [] else [(i, word)] + Occurrences(line, word, i + 1)
  }

  lemma {:induction false} OccurrencesSpec(line: string, word: string, start: nat, m: Match)
    requires |word| > 0
    ensures m in Occurrences(line, word, start) <==> m.1 == word && start <= m.0 && OccursAt(line, word, m.0)
    decreases |line| - start
  {
    var i := Find(line, word, start);
    if i != -1 {
      OccurrencesSpec(line, word, i + 1, m);
    }
  }

  /** Starting from an occurrence, the occurrences from there on begin with it. */
  lemma OccurrencesAt(line: string, word: string, i: nat)
    requires |word| > 0 && OccursAt(line, word, i)
    ensures Find(line, word, i) == i
    ensures Occurrences(line, word, i) == [(i, word)] + Occurrences(line, word, i + 1)
  {
  }

  /** What the loop still has to append once `find` has returned `i`. */
  function Pending(line: string, word: string, i: int): seq<Match>
    requires |word| > 0
  {
    if i < 0 then [] else Occurrences(line, word, i)
  }

  /** Searching from `start` and resuming at the occurrence found lists the same occurrences. */
  lemma OccurrencesResume(line: string, word: string, start: nat)
    requires |word| > 0
    ensures Occurrences(line, word, start) == Pending(line, word, Find(line, word, start))
  {
    var i := Find(line, word, start);
    if i != -1 {
      OccurrencesAt(line, word, i);
    }
  }

  /** The inner `while` loop: append every occurrence of `word`, found by repeated `find`. */
  method AppendOccurrences(line: string, word: string, found: seq<Match>) returns (res: seq<Match>)
    requires |word| > 0
    ensures res == found + Occurrences(line, word, 0)
  {
    res := found;
    var i := Find(line, word, 0);
    OccurrencesResume(line, word, 0);
    while i != -1
      invariant i == -1 || (0 <= i < |line| && OccursAt(line, word, i))
      invariant res + Pending(line, word, i) == found + Occurrences(line, word, 0)
      decreases if i == -1 then 0 else |line| + 1 - i
    {
      OccurrencesAt(line, word, i);
      OccurrencesResume(line, word, i + 1);
      var next := Find(line, word, i + 1);
      assert Pending(line, word, i) == [(i, word)] + Pending(line, word, next);
      assert res + Pending(line, word, i) == (res + [(i, word)]) + Pending(line, word, next);
      res := res + [(Find(line, word, i), word)];
      i := next;
    }
  }

  /** The matches of the first `n` searches, in the order they are appended. */
  function AllOccurrences(line: string, words: seq<string>): seq<Match>
    requires forall k :: 0 <= k < |words| ==> |words[k]| > 0
  {
    if words == [] then [] else AllOccurrences(line, words[..|words| - 1]) + Occurrences(line, words[|words| - 1], 0)
  }

  lemma {:induction false} AllOccurrencesSpec(line: string, words: seq<string>, m: Match)
    requires forall k :: 0 <= k < |words| ==> |words[k]| > 0
    ensures m in AllOccurrences(line, words) <==> m.1 in words && OccursAt(line, m.1, m.0)
  {
    if words != [] {
      var init := words[..|words| - 1];
      AllOccurrencesSpec(line, init, m);
      OccurrencesSpec(line, words[|words| - 1], 0, m);
      assert words == init + [words[|words| - 1]];
    }
  }

  /** The numerals "1".."9" in the order the source searches them. */
  function Numerals(): (ns: seq<string>)
    ensures |ns| == 9 && forall k :: 0 <= k < 9 ==> ns[k] == NatToString(k + 1)
  {
    seq(9, k requires 0 <= k < 9 => NatToString(k + 1))
  }

  /** `spelledConverted`: each word replaced by the numeral of its position in the word list, plus one. */
  function Convert(ms: seq<Match>, words: seq<string>): (cs: seq<Match>)
    requires forall k :: 0 <= k < |ms| ==> ms[k].1 in words
  {
    seq(|ms|, k requires 0 <= k < |ms| => (ms[k].0, NatToString(Lists.FirstIndex(words, ms[k].1) + 1)))
  }

  /** The key `sorted` orders the matches by. */
  function Position(m: Match): int { m.0 }

  /** The two search loops of `readLine`: every number word, then every numeral "1".."9". */
  method FindMatches(line: string, words: seq<string>) returns (foundSpelled: seq<Match>, foundNumeric: seq<Match>)
    requires NineWords(words)
    ensures foundSpelled == AllOccurrences(line, words)
    ensures foundNumeric == AllOccurrences(line, Numerals())
    ensures forall k :: 0 <= k < |foundSpelled| ==> foundSpelled[k].1 in words
  {
    foundSpelled := [];
    for n := 0 to |words|
      invariant foundSpelled == AllOccurrences(line, words[..n])
    {
      assert words[..n + 1][..n] == words[..n];
      foundSpelled := AppendOccurrences(line, words[n], foundSpelled);
    }
    foundNumeric := [];
    for num := 1 to 10
      invariant foundNumeric == AllOccurrences(line, Numerals()[..num - 1])
    {
      assert Numerals()[..num][..num - 1] == Numerals()[..num - 1];
      foundNumeric := AppendOccurrences(line, NatToString(num), foundNumeric);
    }
    assert words[..|words|] == words;
    assert Numerals()[..9] == Numerals();
    forall k | 0 <= k < |foundSpelled| ensures foundSpelled[k].1 in words {
      AllOccurrencesSpec(line, words, foundSpelled[k]);
    }
  }

  /** The collecting half of `readLine`: the numeral matches, then the word matches converted to numerals. */
  method CollectMatches(line: string, words: seq<string>) returns (combined: seq<Match>)
    requires NineWords(words) && Unambiguous(words)
    ensures forall m :: m in combined <==> Found(Namer(line, words), m)
  {
    var foundSpelled, foundNumeric := FindMatches(line, words);
    var spelledConverted := Convert(foundSpelled, words);
    combined := foundNumeric + spelledConverted;
    FoundAll(line, words, foundSpelled, foundNumeric);
  }

  /** `readLine` for a given word list: collect, sort by position, then combine the first and the last match. */
  method ReadLineWith(line: string, words: seq<string>) returns (r: Result<int>)
    requires NineWords(words) && Unambiguous(words)
    ensures r == CalibrationOf(Namer(line, words), |line|)
  {
    var combined := CollectMatches(line, words);
    var numbers := Sorting.SortBy(combined, Position);
    NamedInLine(line, words);
    Sorting.SortBySorted(combined, Position);
    NumeralsParse();
    SortedEnds(Namer(line, words), |line|, combined, numbers, ParseInt);
    r := FirstAndLast(numbers, ParseInt);
  }

  /**
   * The last lines of `readLine`: the first and the last entry of the sorted matches, converted by `parse`
   * (`int`) and combined; an IndexError when there are none.
   */
  function FirstAndLast(numbers: seq<Match>, parse: string -> Option<int>): (r: Result<int>)
  {
    if |numbers| == 0 then Err("IndexError")
    else
      var p1, p2 := parse(numbers[0].1), parse(numbers[|numbers| - 1].1);
      if p1.Some? && p2.Some? then Ok(p1.value * 10 + p2.value) else Err("ValueError")
  }

  /** `int` reads back every numeral. */
  lemma NumeralsParse()
    ensures forall v: nat :: ParseInt(NatToString(v)) == Some(v)
  {
    forall v: nat ensures ParseInt(NatToString(v)) == Some(v) {
      NatToStringRoundTrip(v);
    }
  }

  /** `readLine`: the search over the nine English number words and the numerals 1..9. */
  method ReadLine(line: string) returns (r: Result<int>)
    ensures r == Calibration(line)
  {
    SpelledWords();
    r := ReadLineWith(line, Spelled);
  }

  /** `readLines` for a given word list: `readLine` on every line in order; the first line that raises makes the comprehension raise. */
  method ReadLinesWith(lines: seq<string>, words: seq<string>) returns (r: Result<seq<int>>)
    requires NineWords(words) && Unambiguous(words)
    ensures r.Ok? <==> forall k :: 0 <= k < |lines| ==> CalibrationOf(Namer(lines[k], words), |lines[k]|).Ok?
    ensures r.Ok? ==> |r.value| == |lines|
    ensures r.Ok? ==> forall k :: 0 <= k < |lines| ==> CalibrationOf(Namer(lines[k], words), |lines[k]|) == Ok(r.value[k])
  {
    var values: seq<int> := [];
    for n := 0 to |lines|
      invariant |values| == n
      invariant forall k :: 0 <= k < n ==> CalibrationOf(Namer(lines[k], words), |lines[k]|) == Ok(values[k])
    {
      var v := ReadLineWith(lines[n], words);
      if v.Err? {
        return Err(v.error);
      }
      values := values + [v.value];
    }
    return Ok(values);
  }

  /** `readLines`: `readLine` on every line. */
  method ReadLines(lines: seq<string>) returns (r: Result<seq<int>>)
    ensures r.Ok? <==> forall k :: 0 <= k < |lines| ==> Calibration(lines[k]).Ok?
    ensures r.Ok? ==> |r.value| == |lines| && forall k :: 0 <= k < |lines| ==> Calibration(lines[k]) == Ok(r.value[k])
  {
    SpelledWords();
    r := ReadLinesWith(lines, Spelled);
  }

  // ---------------------------------------------------------------- why the loops compute the reference

  /** The matches collected are exactly the positions that name a digit, with that digit's numeral. */
  lemma FoundAll(line: string, words: seq<string>, foundSpelled: seq<Match>, foundNumeric: seq<Match>)
    requires NineWords(words) && Unambiguous(words)
    requires foundSpelled == AllOccurrences(line, words)
    requires foundNumeric == AllOccurrences(line, Numerals())
    requires forall k :: 0 <= k < |foundSpelled| ==> foundSpelled[k].1 in words
    ensures forall m :: m in foundNumeric + Convert(foundSpelled, words) <==> Found(Namer(line, words), m)
  {
    forall m | m in foundNumeric + Convert(foundSpelled, words) ensures Found(Namer(line, words), m) {
      FoundSound(line, words, foundSpelled, foundNumeric, m);
    }
    forall m | Found(Namer(line, words), m) ensures m in foundNumeric + Convert(foundSpelled, words) {
      FoundComplete(line, words, foundSpelled, foundNumeric, m);
    }
  }

  lemma FoundSound(line: string, words: seq<string>, foundSpelled: seq<Match>, foundNumeric: seq<Match>, m: Match)
    requires NineWords(words) && Unambiguous(words)
    requires foundSpelled == AllOccurrences(line, words)
    requires foundNumeric == AllOccurrences(line, Numerals())
    requires forall k :: 0 <= k < |foundSpelled| ==> foundSpelled[k].1 in words
    requires m in foundNumeric + Convert(foundSpelled, words)
    ensures Found(Namer(line, words), m)
  {
    if m in foundNumeric {
      NumeralSound(line, words, m);
    } else {
      ConvertedSound(line, words, foundSpelled, m);
    }
  }

  /** A converted word match names its digit. */
  lemma ConvertedSound(line: string, words: seq<string>, foundSpelled: seq<Match>, m: Match)
    requires NineWords(words) && Unambiguous(words)
    requires foundSpelled == AllOccurrences(line, words)
    requires forall k :: 0 <= k < |foundSpelled| ==> foundSpelled[k].1 in words
    requires m in Convert(foundSpelled, words)
    ensures Found(Namer(line, words), m)
  {
    var cs := Convert(foundSpelled, words);
    var k :| 0 <= k < |cs| && cs[k] == m;
    WordSound(line, words, foundSpelled[k]);
  }

  /** A numeral found by the search names its digit. */
  lemma NumeralSound(line: string, words: seq<string>, m: Match)
    requires NineWords(words) && Unambiguous(words)
    requires m in AllOccurrences(line, Numerals())
    ensures Found(Namer(line, words), m)
  {
    AllOccurrencesSpec(line, Numerals(), m);
    var k :| 0 <= k < 9 && Numerals()[k] == m.1;
    assert Names(line, words, m.0, k + 1);
    NamedAtNames(line, words, m.0, k + 1);
  }

  /** A word found by the search, converted, names its digit. */
  lemma WordSound(line: string, words: seq<string>, s: Match)
    requires NineWords(words) && Unambiguous(words)
    requires s in AllOccurrences(line, words)
    ensures s.1 in words
    ensures Found(Namer(line, words), (s.0, NatToString(Lists.FirstIndex(words, s.1) + 1)))
  {
    AllOccurrencesSpec(line, words, s);
    var v := Lists.FirstIndex(words, s.1) + 1;
    assert words[v - 1] == s.1;
    assert Names(line, words, s.0, v);
    NamedAtNames(line, words, s.0, v);
  }

  lemma FoundComplete(line: string, words: seq<string>, foundSpelled: seq<Match>, foundNumeric: seq<Match>, m: Match)
    requires NineWords(words) && Unambiguous(words)
    requires foundSpelled == AllOccurrences(line, words)
    requires foundNumeric == AllOccurrences(line, Numerals())
    requires forall k :: 0 <= k < |foundSpelled| ==> foundSpelled[k].1 in words
    requires Found(Namer(line, words), m)
    ensures m in foundNumeric + Convert(foundSpelled, words)
  {
    var v := NamedAt(line, words, m.0);
    assert Names(line, words, m.0, v);
    if OccursAt(line, NatToString(v), m.0) {
      NumeralComplete(line, m, v);
    } else {
      WordComplete(line, words, foundSpelled, m, v);
    }
  }

  /** A position where the numeral of `v` occurs is among the numeral matches. */
  lemma NumeralComplete(line: string, m: Match, v: int)
    requires 1 <= v <= 9 && m.1 == NatToString(v) && OccursAt(line, m.1, m.0)
    ensures m in AllOccurrences(line, Numerals())
  {
    assert Numerals()[v - 1] == m.1;
    AllOccurrencesSpec(line, Numerals(), m);
  }

  /** A position where the word for `v` occurs is among the converted word matches. */
  lemma WordComplete(line: string, words: seq<string>, foundSpelled: seq<Match>, m: Match, v: int)
    requires NineWords(words) && Unambiguous(words)
    requires foundSpelled == AllOccurrences(line, words)
    requires forall k :: 0 <= k < |foundSpelled| ==> foundSpelled[k].1 in words
    requires 1 <= v <= 9 && m.1 == NatToString(v) && OccursAt(line, words[v - 1], m.0)
    ensures m in Convert(foundSpelled, words)
  {
    var s := (m.0, words[v - 1]);
    AllOccurrencesSpec(line, words, s);
    var k :| 0 <= k < |foundSpelled| && foundSpelled[k] == s;
    WordIndex(words, v);
    assert Convert(foundSpelled, words)[k] == m;
  }

  /** What the sorted list yields is the reference value: its first and last entries are the leftmost and rightmost matches. */
  lemma SortedEnds(named: int -> nat, n: nat, combined: seq<Match>, numbers: seq<Match>, parse: string -> Option<int>)
    requires forall i :: named(i) != 0 ==> 0 <= i < n
    requires forall m :: m in combined <==> Found(named, m)
    requires multiset(numbers) == multiset(combined) && Sorting.SortedBy(numbers, Position)
    requires forall v: nat :: parse(NatToString(v)) == Some(v)
    ensures FirstAndLast(numbers, parse) == CalibrationOf(named, n)
  {
    if |numbers| == 0 {
      assert combined == [];
      NoneFound(named, n, combined);
    } else {
      EndsFirst(named, n, combined, numbers);
      EndsLast(named, n, combined, numbers);
      EndsValue(named, n, numbers[0], numbers[|numbers| - 1]);
      assert parse(numbers[0].1) == Some(named(numbers[0].0));
      assert parse(numbers[|numbers| - 1].1) == Some(named(numbers[|numbers| - 1].0));
    }
  }

  /** The reference value of the leftmost and rightmost matches. */
  lemma EndsValue(named: int -> nat, n: nat, c1: Match, c2: Match)
    requires FirstNamed(named, n, 0) == Some(c1.0) && LastNamed(named, n) == Some(c2.0)
    ensures CalibrationOf(named, n) == Ok(10 * named(c1.0) + named(c2.0))
  {
  }

  lemma NoneFound(named: int -> nat, n: nat, combined: seq<Match>)
    requires forall m :: m in combined <==> Found(named, m)
    requires combined == []
    ensures CalibrationOf(named, n) == Err("IndexError")
  {
    var f := FirstNamed(named, n, 0);
    if f.Some? {
      assert Found(named, (f.value, NatToString(named(f.value))));
    }
  }

  /** In the sorted list, the first match is at the leftmost named position. */
  lemma EndsFirst(named: int -> nat, n: nat, combined: seq<Match>, numbers: seq<Match>)
    requires forall i :: named(i) != 0 ==> 0 <= i < n
    requires forall m :: m in combined <==> Found(named, m)
    requires multiset(numbers) == multiset(combined) && |numbers| > 0
    requires Sorting.SortedBy(numbers, Position)
    ensures FirstNamed(named, n, 0) == Some(numbers[0].0)
    ensures Found(named, numbers[0])
  {
    assert numbers[0] in multiset(combined);
    assert numbers[0] in combined;
    var f := FirstNamed(named, n, 0);
    var mf := (f.value, NatToString(named(f.value)));
    assert mf in combined;
    assert mf in multiset(numbers);
    var kf :| 0 <= kf < |numbers| && numbers[kf] == mf;
    assert Position(numbers[0]) <= Position(numbers[kf]);
  }

  /** In the sorted list, the last match is at the rightmost named position. */
  lemma EndsLast(named: int -> nat, n: nat, combined: seq<Match>, numbers: seq<Match>)
    requires forall i :: named(i) != 0 ==> 0 <= i < n
    requires forall m :: m in combined <==> Found(named, m)
    requires multiset(numbers) == multiset(combined) && |numbers| > 0
    requires Sorting.SortedBy(numbers, Position)
    ensures LastNamed(named, n) == Some(numbers[|numbers| - 1].0)
    ensures Found(named, numbers[|numbers| - 1])
  {
    assert numbers[|numbers| - 1] in multiset(combined);
    assert numbers[|numbers| - 1] in combined;
    var l := LastNamed(named, n);
    var ml := (l.value, NatToString(named(l.value)));
    assert ml in combined;
    assert ml in multiset(numbers);
    var kl :| 0 <= kl < |numbers| && numbers[kl] == ml;
    assert Position(numbers[kl]) <= Position(numbers[|numbers| - 1]);
  }

  // ---------------------------------------------------------------- sample lines

  lemma OfEnds(named: int -> nat, n: nat, i: nat, j: nat)
    requires i <= j < n && named(i) != 0 && named(j) != 0
    requires forall k :: 0 <= k < i ==> named(k) == 0
    requires forall k :: j < k < n ==> named(k) == 0
    ensures CalibrationOf(named, n) == Ok(10 * named(i) + named(j))
  {
  }

  /** No digit is named at `k` when no word occurs there and the character there is no digit. */
  lemma NothingAt(line: string, k: nat)
    requires k < |line| && !IsDigit(line[k])
    requires !OccursAt(line, Spelled[0], k) && !OccursAt(line, Spelled[1], k) && !OccursAt(line, Spelled[2], k)
    requires !OccursAt(line, Spelled[3], k) && !OccursAt(line, Spelled[4], k) && !OccursAt(line, Spelled[5], k)
    requires !OccursAt(line, Spelled[6], k) && !OccursAt(line, Spelled[7], k) && !OccursAt(line, Spelled[8], k)
    ensures NamedAt(line, Spelled, k) == 0
  {
    var d := NamedAt(line, Spelled, k);
    if d != 0 && OccursAt(line, NatToString(d), k) {
      OccursChars(line, NatToString(d), k);
    }
  }

  /** No digit is named at `k` when the character there is neither a digit nor the first letter of a word. */
  lemma NothingAtLetter(line: string, k: nat)
    requires k < |line| && !IsDigit(line[k]) && line[k] !in "otfsen"
    ensures NamedAt(line, Spelled, k) == 0
  {
    forall v | 0 <= v < 9
      ensures !OccursAt(line, Spelled[v], k)
    {
    }
    NothingAt(line, k);
  }

  /** Nothing is named after the `t` of a "three" that ends the line. */
  lemma ThreeEnds(line: string, p: nat)
    requires p + 5 == |line|
    requires line[p] == 't' && line[p + 1] == 'h' && line[p + 2] == 'r' && line[p + 3] == 'e' && line[p + 4] == 'e'
    ensures forall k :: p < k < |line| ==> NamedAt(line, Spelled, k) == 0
  {
    NothingAtLetter(line, p + 1);
    NothingAtLetter(line, p + 2);
    assert line[p + 3..p + 5] == "ee";
    NothingAtPair(line, p + 3);
    NothingAtPair(line, p + 4);
  }

  /** Nothing is named after the `f` of a "four" that ends the line. */
  lemma FourEnds(line: string, p: nat)
    requires p + 4 == |line|
    requires line[p] == 'f' && line[p + 1] == 'o' && line[p + 2] == 'u' && line[p + 3] == 'r'
    ensures forall k :: p < k < |line| ==> NamedAt(line, Spelled, k) == 0
  {
    assert line[p + 1..p + 3] == "ou";
    NothingAtPair(line, p + 1);
    NothingAtLetter(line, p + 2);
    NothingAtLetter(line, p + 3);
  }

  /** The first two letters of each word. */
  const Openings: seq<string> := ["on", "tw", "th", "fo", "fi", "si", "se", "ei", "ni"]

  /** No digit is named at `k` when no word begins with the two characters there. */
  lemma NothingAtPair(line: string, k: nat)
    requires k < |line| && !IsDigit(line[k])
    requires k + 1 == |line| || line[k..k + 2] !in Openings
    ensures NamedAt(line, Spelled, k) == 0
  {
    forall v | 0 <= v < 9
      ensures !OccursAt(line, Spelled[v], k)
    {
      assert Spelled[v][..2] == Openings[v];
      OpeningAt(line, Spelled[v], k);
    }
    NothingAt(line, k);
  }

  /** A word that occurs at `k` puts its first two letters at `k`. */
  lemma OpeningAt(line: string, w: string, k: nat)
    requires 2 <= |w|
    ensures OccursAt(line, w, k) ==> k + 2 <= |line| && line[k..k + 2] == w[..2]
  {
    if OccursAt(line, w, k) {
      assert line[k..k + 2] == line[k..k + |w|][..2];
    }
  }

  /** `line` holds the characters of `text`, without being that literal to the solver. */
  predicate Reads(line: string, text: string)
  {
    |line| == |text| && forall i :: 0 <= i < |line| ==> line[i] == text[i]
  }

  /** `readLine("one") == 11`: a single word is both the first and the last match. */
  lemma One()
    ensures Calibration("one") == Ok(11)
  {
    OneOf("one");
  }

  lemma OneOf(line: string)
    requires Reads(line, "one")
    ensures Calibration(line) == Ok(11)
  {
    SpelledWords();
    assert line[0] == 'o' && line[1] == 'n' && line[2] == 'e'; assert line[0..3] == Spelled[0];
    NamedAtNames(line, Spelled, 0, 1);
    assert line[1] == 'n' && line[2] == 'e'; assert line[1..3] == "ne"; NothingAtPair(line, 1); NothingAtPair(line, 2);
    OfEnds(Namer(line, Spelled), |line|, 0, 0);
  }

  /** `readLine("sevenine") == 79`: overlapping words both count. */
  lemma Sevenine()
    ensures Calibration("sevenine") == Ok(79)
  {
    SevenineOf("sevenine");
  }

  lemma SevenineOf(line: string)
    requires Reads(line, "sevenine")
    ensures Calibration(line) == Ok(79)
  {
    SpelledWords();
    assert line[0] == 's' && line[1] == 'e' && line[2] == 'v' && line[3] == 'e' && line[4] == 'n'; assert line[0..5] == Spelled[6];
    NamedAtNames(line, Spelled, 0, 7);
    assert line[4] == 'n' && line[5] == 'i' && line[6] == 'n' && line[7] == 'e'; assert line[4..8] == Spelled[8];
    NamedAtNames(line, Spelled, 4, 9);
    NothingAtLetter(line, 5); assert line[6] == 'n' && line[7] == 'e'; assert line[6..8] == "ne"; NothingAtPair(line, 6); NothingAtPair(line, 7);
    OfEnds(Namer(line, Spelled), |line|, 0, 4);
  }

  /** `readLine("onetwo") == 12`. */
  lemma OneTwo()
    ensures Calibration("onetwo") == Ok(12)
  {
    OneTwoOf("onetwo");
  }

  lemma OneTwoOf(line: string)
    requires Reads(line, "onetwo")
    ensures Calibration(line) == Ok(12)
  {
    SpelledWords();
    assert line[0] == 'o' && line[1] == 'n' && line[2] == 'e'; assert line[0..3] == Spelled[0];
    NamedAtNames(line, Spelled, 0, 1);
    assert line[3] == 't' && line[4] == 'w' && line[5] == 'o'; assert line[3..6] == Spelled[1];
    NamedAtNames(line, Spelled, 3, 2);
    NothingAtLetter(line, 4); NothingAtPair(line, 5);
    OfEnds(Namer(line, Spelled), |line|, 0, 3);
  }

  /** `readLine("three") == 33`: one word gives both digits. */
  lemma Three()
    ensures Calibration("three") == Ok(33)
  {
    ThreeOf("three");
  }

  lemma ThreeOf(line: string)
    requires Reads(line, "three")
    ensures Calibration(line) == Ok(33)
  {
    SpelledWords();
    assert line[0] == 't' && line[1] == 'h' && line[2] == 'r' && line[3] == 'e' && line[4] == 'e'; assert line[0..5] == Spelled[2];
    NamedAtNames(line, Spelled, 0, 3);
    ThreeEnds(line, 0);
    OfEnds(Namer(line, Spelled), |line|, 0, 0);
  }

  /** `readLine("1two") == 12`: a numeral and a word. */
  lemma OneNumeralTwo()
    ensures Calibration("1two") == Ok(12)
  {
    OneNumeralTwoOf("1two");
  }

  lemma OneNumeralTwoOf(line: string)
    requires Reads(line, "1two")
    ensures Calibration(line) == Ok(12)
  {
    SpelledWords();
    assert line[0] == '1'; assert line[0..1] == NatToString(1);
    NamedAtNames(line, Spelled, 0, 1);
    assert line[1] == 't' && line[2] == 'w' && line[3] == 'o'; assert line[1..4] == Spelled[1];
    NamedAtNames(line, Spelled, 1, 2);
    NothingAtLetter(line, 2); NothingAtPair(line, 3);
    OfEnds(Namer(line, Spelled), |line|, 0, 1);
  }

  /** `readLine("1twothree") == 13`. */
  lemma OneNumeralTwoThree()
    ensures Calibration("1twothree") == Ok(13)
  {
    OneNumeralTwoThreeOf("1twothree");
  }

  lemma OneNumeralTwoThreeOf(line: string)
    requires Reads(line, "1twothree")
    ensures Calibration(line) == Ok(13)
  {
    SpelledWords();
    assert line[0] == '1'; assert line[0..1] == NatToString(1);
    NamedAtNames(line, Spelled, 0, 1);
    assert line[4] == 't' && line[5] == 'h' && line[6] == 'r' && line[7] == 'e' && line[8] == 'e'; assert line[4..9] == Spelled[2];
    NamedAtNames(line, Spelled, 4, 3);
    ThreeEnds(line, 4);
    OfEnds(Namer(line, Spelled), |line|, 0, 4);
  }

  /** `readLine("sevenineonetwothree") == 73`. */
  lemma SevenineOneTwoThree()
    ensures Calibration("sevenineonetwothree") == Ok(73)
  {
    SevenineOneTwoThreeOf("sevenineonetwothree");
  }

  lemma SevenineOneTwoThreeOf(line: string)
    requires Reads(line, "sevenineonetwothree")
    ensures Calibration(line) == Ok(73)
  {
    SpelledWords();
    assert line[0] == 's' && line[1] == 'e' && line[2] == 'v' && line[3] == 'e' && line[4] == 'n'; assert line[0..5] == Spelled[6];
    NamedAtNames(line, Spelled, 0, 7);
    assert line[14] == 't' && line[15] == 'h' && line[16] == 'r' && line[17] == 'e' && line[18] == 'e'; assert line[14..19] == Spelled[2];
    NamedAtNames(line, Spelled, 14, 3);
    ThreeEnds(line, 14);
    OfEnds(Namer(line, Spelled), |line|, 0, 14);
  }

  /** `readLine("sixthree2") == 62`. */
  lemma SixThreeTwo()
    ensures Calibration("sixthree2") == Ok(62)
  {
    SixThreeTwoOf("sixthree2");
  }

  lemma SixThreeTwoOf(line: string)
    requires Reads(line, "sixthree2")
    ensures Calibration(line) == Ok(62)
  {
    SpelledWords();
    assert line[0] == 's' && line[1] == 'i' && line[2] == 'x'; assert line[0..3] == Spelled[5];
    NamedAtNames(line, Spelled, 0, 6);
    assert line[8] == '2'; assert line[8..9] == NatToString(2);
    NamedAtNames(line, Spelled, 8, 2);
    OfEnds(Namer(line, Spelled), |line|, 0, 8);
  }

  /** `readLine("two1nine") == 29`. */
  lemma TwoOneNine()
    ensures Calibration("two1nine") == Ok(29)
  {
    TwoOneNineOf("two1nine");
  }

  lemma TwoOneNineOf(line: string)
    requires Reads(line, "two1nine")
    ensures Calibration(line) == Ok(29)
  {
    SpelledWords();
    assert line[0] == 't' && line[1] == 'w' && line[2] == 'o'; assert line[0..3] == Spelled[1];
    NamedAtNames(line, Spelled, 0, 2);
    assert line[4] == 'n' && line[5] == 'i' && line[6] == 'n' && line[7] == 'e'; assert line[4..8] == Spelled[8];
    NamedAtNames(line, Spelled, 4, 9);
    NothingAtLetter(line, 5); assert line[6] == 'n' && line[7] == 'e'; assert line[6..8] == "ne"; NothingAtPair(line, 6); NothingAtPair(line, 7);
    OfEnds(Namer(line, Spelled), |line|, 0, 4);
  }

  /** `readLine("eightwothree") == 83`. */
  lemma EightTwoThree()
    ensures Calibration("eightwothree") == Ok(83)
  {
    EightTwoThreeOf("eightwothree");
  }

  lemma EightTwoThreeOf(line: string)
    requires Reads(line, "eightwothree")
    ensures Calibration(line) == Ok(83)
  {
    SpelledWords();
    assert line[0] == 'e' && line[1] == 'i' && line[2] == 'g' && line[3] == 'h' && line[4] == 't'; assert line[0..5] == Spelled[7];
    NamedAtNames(line, Spelled, 0, 8);
    assert line[7] == 't' && line[8] == 'h' && line[9] == 'r' && line[10] == 'e' && line[11] == 'e'; assert line[7..12] == Spelled[2];
    NamedAtNames(line, Spelled, 7, 3);
    ThreeEnds(line, 7);
    OfEnds(Namer(line, Spelled), |line|, 0, 7);
  }

  /** `readLine("abcone2threexyz") == 13`. */
  lemma AbcOneTwoThree()
    ensures Calibration("abcone2threexyz") == Ok(13)
  {
    AbcOneTwoThreeOf("abcone2threexyz");
  }

  lemma AbcOneTwoThreeOf(line: string)
    requires Reads(line, "abcone2threexyz")
    ensures Calibration(line) == Ok(13)
  {
    SpelledWords();
    assert line[3] == 'o' && line[4] == 'n' && line[5] == 'e';
    assert line[3] == 'o' && line[4] == 'n' && line[5] == 'e'; assert line[3..6] == Spelled[0];
    NamedAtNames(line, Spelled, 3, 1);
    assert line[7] == 't' && line[8] == 'h' && line[9] == 'r' && line[10] == 'e' && line[11] == 'e'; assert line[7..12] == Spelled[2];
    NamedAtNames(line, Spelled, 7, 3);
    AbcOneTwoThreeHead(line);
    AbcOneTwoThreeQuiet(line);
    AbcOneTwoThreeTail(line);
    OfEnds(Namer(line, Spelled), |line|, 3, 7);
  }

  /** Nothing is named in "abc" before the first word. */
  lemma AbcOneTwoThreeHead(line: string)
    requires Reads(line, "abcone2threexyz")
    ensures forall k :: 0 <= k < 3 ==> NamedAt(line, Spelled, k) == 0
  {
    NothingAtLetter(line, 0); NothingAtLetter(line, 1); NothingAtLetter(line, 2);
  }

  /** Nothing is named in "hree" after the start of "three". */
  lemma AbcOneTwoThreeQuiet(line: string)
    requires Reads(line, "abcone2threexyz")
    ensures forall k :: 7 < k < 12 ==> NamedAt(line, Spelled, k) == 0
  {
    NothingAtLetter(line, 8); NothingAtLetter(line, 9);
    assert line[10] == 'e' && line[11] == 'e'; assert line[10..12] == "ee"; NothingAtPair(line, 10); assert line[11] == 'e' && line[12] == 'x'; assert line[11..13] == "ex"; NothingAtPair(line, 11);
  }

  /** Nothing is named in the closing "xyz". */
  lemma AbcOneTwoThreeTail(line: string)
    requires Reads(line, "abcone2threexyz")
    ensures forall k :: 12 <= k < 15 ==> NamedAt(line, Spelled, k) == 0
  {
    NothingAtLetter(line, 12); NothingAtLetter(line, 13); NothingAtLetter(line, 14);
  }

  /** `readLine("xtwone3four") == 24`. */
  lemma TwoOneThreeFour()
    ensures Calibration("xtwone3four") == Ok(24)
  {
    TwoOneThreeFourOf("xtwone3four");
  }

  lemma TwoOneThreeFourOf(line: string)
    requires Reads(line, "xtwone3four")
    ensures Calibration(line) == Ok(24)
  {
    SpelledWords();
    assert line[1] == 't' && line[2] == 'w' && line[3] == 'o'; assert line[1..4] == Spelled[1];
    NamedAtNames(line, Spelled, 1, 2);
    assert line[7] == 'f' && line[8] == 'o' && line[9] == 'u' && line[10] == 'r'; assert line[7..11] == Spelled[3];
    NamedAtNames(line, Spelled, 7, 4);
    NothingAtLetter(line, 0); FourEnds(line, 7);
    OfEnds(Namer(line, Spelled), |line|, 1, 7);
  }

  /** `readLine("4nineeightseven2") == 42`: both ends are numerals. */
  lemma FourNineEightSevenTwo()
    ensures Calibration("4nineeightseven2") == Ok(42)
  {
    FourNineEightSevenTwoOf("4nineeightseven2");
  }

  lemma FourNineEightSevenTwoOf(line: string)
    requires Reads(line, "4nineeightseven2")
    ensures Calibration(line) == Ok(42)
  {
    SpelledWords();
    assert line[0] == '4'; assert line[0..1] == NatToString(4);
    NamedAtNames(line, Spelled, 0, 4);
    assert line[15] == '2'; assert line[15..16] == NatToString(2);
    NamedAtNames(line, Spelled, 15, 2);
    OfEnds(Namer(line, Spelled), |line|, 0, 15);
  }

  /** `readLine("zoneight234") == 14`. */
  lemma OneEightTwoThreeFour()
    ensures Calibration("zoneight234") == Ok(14)
  {
    OneEightTwoThreeFourOf("zoneight234");
  }

  lemma OneEightTwoThreeFourOf(line: string)
    requires Reads(line, "zoneight234")
    ensures Calibration(line) == Ok(14)
  {
    SpelledWords();
    assert line[1] == 'o' && line[2] == 'n' && line[3] == 'e'; assert line[1..4] == Spelled[0];
    NamedAtNames(line, Spelled, 1, 1);
    assert line[10] == '4'; assert line[10..11] == NatToString(4);
    NamedAtNames(line, Spelled, 10, 4);
    NothingAtLetter(line, 0);
    OfEnds(Namer(line, Spelled), |line|, 1, 10);
  }

  /** `readLine("7pqrstsixteen") == 76`. */
  lemma SevenSixteen()
    ensures Calibration("7pqrstsixteen") == Ok(76)
  {
    SevenSixteenOf("7pqrstsixteen");
  }

  lemma SevenSixteenOf(line: string)
    requires Reads(line, "7pqrstsixteen")
    ensures Calibration(line) == Ok(76)
  {
    SpelledWords();
    assert line[0] == '7'; assert line[0..1] == NatToString(7);
    NamedAtNames(line, Spelled, 0, 7);
    assert line[6] == 's' && line[7] == 'i' && line[8] == 'x'; assert line[6..9] == Spelled[5];
    NamedAtNames(line, Spelled, 6, 6);
    SixteenNothing(line);
    OfEnds(Namer(line, Spelled), |line|, 0, 6);
  }

  /** After "six", the letters "teen" name nothing. */
  lemma SixteenNothing(line: string)
    requires Reads(line, "7pqrstsixteen")
    ensures forall k :: 7 <= k < 13 ==> NamedAt(line, Spelled, k) == 0
  {
    NothingAtLetter(line, 7); NothingAtLetter(line, 8); assert line[9] == 't' && line[10] == 'e'; assert line[9..11] == "te"; NothingAtPair(line, 9);
    assert line[10] == 'e' && line[11] == 'e'; assert line[10..12] == "ee"; NothingAtPair(line, 10); assert line[11] == 'e' && line[12] == 'n'; assert line[11..13] == "en"; NothingAtPair(line, 11); NothingAtPair(line, 12);
  }

  /** The seven sample lines of part two. */
  const SampleLines: seq<string> :=
    ["two1nine", "eightwothree", "abcone2threexyz", "xtwone3four", "4nineeightseven2", "zoneight234", "7pqrstsixteen"]

  /** The sample lines read as 29, 83, 13, 24, 42, 14 and 76, which add up to 281. */
  lemma SampleTotal()
    ensures forall k :: 0 <= k < |SampleLines| ==> Calibration(SampleLines[k]) == Ok([29, 83, 13, 24, 42, 14, 76][k])
    ensures Lists.Sum([29, 83, 13, 24, 42, 14, 76]) == 281
  {
    var values := [29, 83, 13, 24, 42, 14, 76];
    forall k | 0 <= k < |SampleLines|
      ensures Calibration(SampleLines[k]) == Ok(values[k])
    {
      if k == 0 { TwoOneNine(); }
      else if k == 1 { EightTwoThree(); }
      else if k == 2 { AbcOneTwoThree(); }
      else if k == 3 { TwoOneThreeFour(); }
      else if k == 4 { FourNineEightSevenTwo(); }
      else if k == 5 { OneEightTwoThreeFour(); }
      else { SevenSixteen(); }
    }
  }
}
