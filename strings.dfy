/**
 * The parts of Python's `str` that the puzzle parsers rely on, over ASCII:
 * character classes, `find`, `split(sep)`, `split()`, `strip`, `splitlines`
 * and `int(text, base)`, together with decimal rendering (`str(n)`).
 */
module Strings {
  import opened Wrappers
  import Lists

  // ---------------------------------------------------------------- character classes

  predicate IsDigit(c: char) { '0' <= c <= '9' }
  predicate IsAlpha(c: char) { 'a' <= c <= 'z' || 'A' <= c <= 'Z' }
  predicate IsSpace(c: char) { c == ' ' || c == '\t' || c == '\n' || c == '\r' || c as int == 11 || c as int == 12 }

  /** The blanks Python's argument-less `strip()` and `split()` remove. */
  const Whitespace: string := [' ', '\t', '\n', '\r', 11 as char, 12 as char]

  lemma WhitespaceIsSpace(c: char)
    ensures c in Whitespace <==> IsSpace(c)
  {
  }

  /** Value of a digit in bases up to 36 (letters of either case count from 10); -1 for anything else. */
  function DigitValue(c: char): (d: int)
    ensures -1 <= d < 36
    ensures d == -1 <==> !(IsDigit(c) || IsAlpha(c))
  {
    if '0' <= c <= '9' then c as int - '0' as int
    else if 'a' <= c <= 'z' then c as int - 'a' as int + 10
    else if 'A' <= c <= 'Z' then c as int - 'A' as int + 10
    else -1
  }

  predicate AllDigits(s: string, base: nat)
  {
    forall i :: 0 <= i < |s| ==> 0 <= DigitValue(s[i]) < base
  }

  /** The number a string of digits denotes, most significant digit first. */
  function DigitsValue(s: string, base: nat): nat
    requires AllDigits(s, base)
  {
    if s == [] then 0 else DigitsValue(s[..|s| - 1], base) * base + DigitValue(s[|s| - 1])
  }

  function Pow(base: nat, n: nat): (r: nat)
    ensures base > 0 ==> r > 0
  {
    if n == 0 then 1 else base * Pow(base, n - 1)
  }

  lemma AllDigitsAppend(a: string, b: string, base: nat)
    requires AllDigits(a, base) && AllDigits(b, base)
    ensures AllDigits(a + b, base)
  {
    forall i | 0 <= i < |a + b| ensures 0 <= DigitValue((a + b)[i]) < base {
      if i < |a| { assert (a + b)[i] == a[i]; } else { assert (a + b)[i] == b[i - |a|]; }
    }
  }

  lemma AllDigitsPrefix(a: string, n: nat, base: nat)
    requires AllDigits(a, base) && n <= |a|
    ensures AllDigits(a[..n], base)
  {
    forall i | 0 <= i < n ensures 0 <= DigitValue(a[..n][i]) < base { assert a[..n][i] == a[i]; }
  }

  lemma MulShift(x: int, p: int, y: int, base: int, d: int)
    ensures (x * p + y) * base + d == x * (base * p) + (y * base + d)
  {
    calc {
      (x * p + y) * base + d;
      (x * p) * base + y * base + d;
      x * (p * base) + y * base + d;
    }
  }

  /** The value of a concatenation of digit strings: shifting by the length of the tail. */
  lemma {:induction false} DigitsValueAppend(a: string, b: string, base: nat)
    requires AllDigits(a, base) && AllDigits(b, base)
    ensures AllDigits(a + b, base)
    ensures DigitsValue(a + b, base) == DigitsValue(a, base) * Pow(base, |b|) + DigitsValue(b, base)
  {
    AllDigitsAppend(a, b, base);
    if b == [] {
      assert a + b == a;
    } else {
      var b' := b[..|b| - 1];
      var d := DigitValue(b[|b| - 1]);
      assert (a + b)[..|a + b| - 1] == a + b';
      assert (a + b)[|a + b| - 1] == b[|b| - 1];
      AllDigitsPrefix(b, |b| - 1, base);
      DigitsValueAppend(a, b', base);
      var x, p, y := DigitsValue(a, base), Pow(base, |b'|), DigitsValue(b', base);
      assert DigitsValue(a + b, base) == (x * p + y) * base + d;
      assert DigitsValue(b, base) == y * base + d;
      assert Pow(base, |b|) == base * p;
      MulShift(x, p, y, base, d);
    }
  }

  // ---------------------------------------------------------------- decimal rendering: str(n)

  function DigitChar(d: nat): (c: char)
    requires d < 10
    ensures IsDigit(c) && DigitValue(c) == d
  {
    ('0' as int + d) as char
  }

  /** `str(n)` for a natural number. */
  function NatToString(n: nat): (s: string)
    ensures |s| > 0 && AllDigits(s, 10) && DigitsValue(s, 10) == n
    ensures forall i :: 0 <= i < |s| ==> IsDigit(s[i])
    ensures |s| > 1 ==> s[0] != '0'
  {
    if n < 10 then [DigitChar(n)]
    else
      var p := NatToString(n / 10);
      var s := p + [DigitChar(n % 10)];
      assert s[..|s| - 1] == p;
      s
  }

  /** `str(i)` for an integer. */
  function IntToString(i: int): (s: string)
    ensures |s| > 0
  {
    if i < 0 then "-" + NatToString(-i) else NatToString(i)
  }

  // ---------------------------------------------------------------- strip

  /** `s.lstrip(cs)`: drops the leading run of characters from `cs`. */
  function TrimStart(s: string, cs: string): string
  {
    if |s| > 0 && s[0] in cs then TrimStart(s[1..], cs) else s
  }

  /** `s.rstrip(cs)`: drops the trailing run of characters from `cs`. */
  function TrimEnd(s: string, cs: string): string
  {
    if |s| > 0 && s[|s| - 1] in cs then TrimEnd(s[..|s| - 1], cs) else s
  }

  /** `lstrip` keeps a suffix that does not start with a character of `cs`, and drops only such characters. */
  lemma {:induction false} TrimStartSuffix(s: string, cs: string)
    ensures var r := TrimStart(s, cs);
      |r| <= |s| && r == s[|s| - |r|..] && (r == [] || r[0] !in cs)
      && forall i :: 0 <= i < |s| - |r| ==> s[i] in cs
  {
    if |s| > 0 && s[0] in cs {
      TrimStartSuffix(s[1..], cs);
    }
  }

  /** `rstrip` keeps a prefix that does not end with a character of `cs`, and drops only such characters. */
  lemma {:induction false} TrimEndPrefix(s: string, cs: string)
    ensures var r := TrimEnd(s, cs);
      |r| <= |s| && r == s[..|r|] && (r == [] || r[|r| - 1] !in cs)
      && forall i :: |r| <= i < |s| ==> s[i] in cs
  {
    if |s| > 0 && s[|s| - 1] in cs {
      TrimEndPrefix(s[..|s| - 1], cs);
    }
  }

  /** Nothing to trim at the front. */
  lemma TrimStartNone(s: string, cs: string)
    requires |s| > 0 ==> s[0] !in cs
    ensures TrimStart(s, cs) == s
  {
  }

  /** Nothing to trim at the back. */
  lemma TrimEndNone(s: string, cs: string)
    requires |s| > 0 ==> s[|s| - 1] !in cs
    ensures TrimEnd(s, cs) == s
  {
  }

  /** One character to trim at the front. */
  lemma TrimStartOne(c: char, s: string, cs: string)
    requires c in cs && (|s| > 0 ==> s[0] !in cs)
    ensures TrimStart([c] + s, cs) == s
  {
    assert ([c] + s)[1..] == s;
  }

  /** One character to trim at the back. */
  lemma TrimEndOne(s: string, c: char, cs: string)
    requires c in cs && (|s| > 0 ==> s[|s| - 1] !in cs)
    ensures TrimEnd(s + [c], cs) == s
  {
    assert (s + [c])[..|s|] == s;
  }

  /** Stripping an opening character, then a closing one, off a body wrapped in them. */
  lemma StripWrapped(o: char, body: string, c: char)
    requires o != c && |body| > 0 && body[0] != o && body[0] != c && body[|body| - 1] != o && body[|body| - 1] != c
    ensures StripChars(StripChars([o] + body + [c], [o]), [c]) == body
  {
    assert [o] + body + [c] == [o] + (body + [c]);
    StripOpening(o, body + [c]);
    StripClosing(body, c);
  }

  /** Stripping `o` off a text that starts with one `o` and does not end in it. */
  lemma StripOpening(o: char, s: string)
    requires |s| > 0 && s[0] != o && s[|s| - 1] != o
    ensures StripChars([o] + s, [o]) == s
  {
    TrimStartOne(o, s, [o]);
    TrimEndNone(s, [o]);
  }

  /** Stripping `c` off a text that ends with one `c` and does not start with it. */
  lemma StripClosing(s: string, c: char)
    requires |s| > 0 && s[0] != c && s[|s| - 1] != c
    ensures StripChars(s + [c], [c]) == s
  {
    assert (s + [c])[0] == s[0];
    TrimStartNone(s + [c], [c]);
    TrimEndOne(s, c, [c]);
  }

  /** `s.strip(cs)`. */
  function StripChars(s: string, cs: string): (r: string)
    ensures r == [] || (r[0] !in cs && r[|r| - 1] !in cs)
  {
    TrimStartSuffix(s, cs);
    TrimEndPrefix(TrimStart(s, cs), cs);
    TrimEnd(TrimStart(s, cs), cs)
  }

  /** `s.strip()`. */
  function Strip(s: string): string
  {
    StripChars(s, Whitespace)
  }

  lemma {:induction false} StripNoSpace(s: string)
    requires forall i :: 0 <= i < |s| ==> !IsSpace(s[i])
    ensures Strip(s) == s
  {
    if |s| > 0 {
      WhitespaceIsSpace(s[0]);
      WhitespaceIsSpace(s[|s| - 1]);
    }
    assert TrimStart(s, Whitespace) == s;
  }

  /** `strip` removes one leading blank from text whose own ends are not blank. */
  lemma StripPadded(t: string)
    requires |t| > 0 && !IsSpace(t[0]) && !IsSpace(t[|t| - 1])
    ensures Strip(" " + t) == t
  {
    WhitespaceIsSpace(t[0]);
    WhitespaceIsSpace(t[|t| - 1]);
    assert (" " + t)[1..] == t;
    assert TrimStart(t, Whitespace) == t;
    assert TrimStart(" " + t, Whitespace) == t;
  }

  // ---------------------------------------------------------------- int(text, base)

  /** A sign-optional digit string with nothing around it. */
  function ParseSigned(t: string, base: nat): (r: Option<int>)
  {
    if |t| > 0 && (t[0] == '-' || t[0] == '+') then
      var digits := t[1..];
      if |digits| > 0 && AllDigits(digits, base) then
        var v: int := DigitsValue(digits, base);
        Some(if t[0] == '-' then -v else v)
      else None
    else if |t| > 0 && AllDigits(t, base) then Some(DigitsValue(t, base))
    else None
  }

  /** Python's `int(text, base)`: surrounding blanks, an optional sign, then at least one digit of the base. */
  function ParseIntBase(text: string, base: nat): Option<int>
  {
    ParseSigned(Strip(text), base)
  }

  /** Python's `int(text)`. */
  function ParseInt(text: string): Option<int>
  {
    ParseIntBase(text, 10)
  }

  /** `int(str(n)) == n`. */
  lemma NatToStringRoundTrip(n: nat)
    ensures ParseInt(NatToString(n)) == Some(n)
  {
    var s := NatToString(n);
    StripNoSpace(s);
    assert !(s[0] == '-' || s[0] == '+');
  }

  lemma ParseSignedDigits(s: string)
    requires |s| > 0 && forall i :: 0 <= i < |s| ==> IsDigit(s[i])
    ensures AllDigits(s, 10) && ParseSigned(s, 10) == Some(DigitsValue(s, 10))
  {
    assert IsDigit(s[0]);
  }

  /** `int(text, base)` on a plain run of digits of the base. */
  lemma ParseBaseDigits(s: string, base: nat)
    requires |s| > 0 && AllDigits(s, base)
    ensures ParseIntBase(s, base) == Some(DigitsValue(s, base))
  {
    StripDigits(s, base);
    SignedBaseDigits(s, base);
  }

  /** A run of digits has nothing to strip. */
  lemma StripDigits(s: string, base: nat)
    requires AllDigits(s, base)
    ensures Strip(s) == s
  {
    forall i | 0 <= i < |s|
      ensures !IsSpace(s[i])
    {
      assert DigitValue(s[i]) >= 0;
    }
    StripNoSpace(s);
  }

  /** A run of digits carries no sign. */
  lemma SignedBaseDigits(s: string, base: nat)
    requires |s| > 0 && AllDigits(s, base)
    ensures ParseSigned(s, base) == Some(DigitsValue(s, base))
  {
    DigitNotSign(s[0]);
  }

  /** A sign is no digit. */
  lemma DigitNotSign(c: char)
    requires DigitValue(c) >= 0
    ensures c != '-' && c != '+'
  {
  }

  /** `int` on a plain run of decimal digits. */
  lemma ParseDigits(s: string)
    requires |s| > 0 && forall i :: 0 <= i < |s| ==> IsDigit(s[i])
    ensures AllDigits(s, 10) && ParseInt(s) == Some(DigitsValue(s, 10))
  {
    ParseSignedDigits(s);
    StripNoSpace(s);
  }

  lemma StripNegative(n: string)
    requires forall k :: 0 <= k < |n| ==> !IsSpace(n[k])
    ensures Strip("-" + n) == "-" + n
  {
    var s := "-" + n;
    forall k | 0 <= k < |s| ensures !IsSpace(s[k]) { if k > 0 { assert s[k] == n[k - 1]; } }
    StripNoSpace(s);
  }

  lemma ParseSignedNegative(s: string, n: string)
    requires |n| > 0 && AllDigits(n, 10) && s == "-" + n
    ensures ParseSigned(s, 10) == Some(-(DigitsValue(n, 10) as int))
  {
    assert s[1..] == n;
  }

  lemma ParseNegative(n: string)
    requires |n| > 0 && AllDigits(n, 10) && forall k :: 0 <= k < |n| ==> !IsSpace(n[k])
    ensures ParseInt("-" + n) == Some(-(DigitsValue(n, 10) as int))
  {
    StripNegative(n);
    ParseSignedNegative("-" + n, n);
  }

  /** `strip` removes the line break that `readlines` leaves at the end of a line. */
  lemma StripNewline(t: string)
    requires |t| > 0 && !IsSpace(t[0]) && !IsSpace(t[|t| - 1])
    ensures Strip(t + "\n") == t
  {
    WhitespaceIsSpace(t[0]);
    WhitespaceIsSpace(t[|t| - 1]);
    assert (t + "\n")[..|t|] == t;
    assert TrimStart(t + "\n", Whitespace) == t + "\n";
    assert TrimEnd(t, Whitespace) == t;
  }

  /** `int(str(i)) == i`, negative numbers included. */
  lemma IntToStringRoundTrip(i: int)
    ensures ParseInt(IntToString(i)) == Some(i)
  {
    if i < 0 {
      var n := NatToString(-i);
      ParseNegative(n);
    } else {
      NatToStringRoundTrip(i);
    }
  }

  // ---------------------------------------------------------------- find

  predicate OccursAt(s: string, sub: string, i: int)
  {
    0 <= i && i + |sub| <= |s| && s[i..i + |sub|] == sub
  }

  /** `s.find(sub, start)`: the first occurrence at or after `start`, or -1. */
  function Find(s: string, sub: string, start: nat): (r: int)
    ensures r == -1 || (start <= r && OccursAt(s, sub, r))
    ensures forall i :: start <= i && (r == -1 || i < r) ==> !OccursAt(s, sub, i)
    decreases |s| - start
  {
    if start + |sub| > |s| then -1
    else if s[start..start + |sub|] == sub then start
    else Find(s, sub, start + 1)
  }

  /** `s.replace(a, b)` for single characters. */
  function ReplaceChar(s: string, a: char, b: char): (r: string)
    ensures |r| == |s|
    ensures forall i :: 0 <= i < |s| ==> r[i] == if s[i] == a then b else s[i]
  {
    seq(|s|, i requires 0 <= i < |s| => if s[i] == a then b else s[i])
  }

  // ---------------------------------------------------------------- split(sep), split(), splitlines()

  /** The inverse of `split`: `sep.join(parts)`. */
  function Join(parts: seq<string>, sep: string): string
  {
    if parts == [] then [] else if |parts| == 1 then parts[0] else parts[0] + sep + Join(parts[1..], sep)
  }

  /** `s.split(sep)` for a non-empty separator: cut at each occurrence, scanning left to right. */
  function Split(s: string, sep: string): (parts: seq<string>)
    requires |sep| > 0
    ensures |parts| >= 1
    ensures Join(parts, sep) == s
    ensures forall k :: 0 <= k < |parts| ==> Find(parts[k], sep, 0) == -1
    decreases |s|
  {
    var i := Find(s, sep, 0);
    if i < 0 then [s]
    else
      var rest := Split(s[i + |sep|..], sep);
      var parts := [s[..i]] + rest;
      assert parts[1..] == rest;
      assert s == s[..i] + sep + s[i + |sep|..];
      assert Find(s[..i], sep, 0) == -1 by {
        forall j | 0 <= j ensures !OccursAt(s[..i], sep, j) {
          if OccursAt(s[..i], sep, j) {
            assert s[..i][j..j + |sep|] == s[j..j + |sep|];
            assert OccursAt(s, sep, j);
          }
        }
      }
      parts
  }

  /** One step of `split`: the text before the first occurrence, then the split of what follows it. */
  lemma SplitHead(s: string, sep: string, i: int)
    requires |sep| > 0 && i == Find(s, sep, 0)
    ensures i == -1 ==> Split(s, sep) == [s]
    ensures i >= 0 ==> (i + |sep| <= |s| && |Split(s, sep)| >= 2 && Split(s, sep)[0] == s[..i]
      && Split(s, sep)[1..] == Split(s[i + |sep|..], sep))
  {
  }

  /** The first piece of a split is a prefix without the separator, followed by the separator unless it is the whole text. */
  lemma SplitFirst(s: string, sep: string)
    requires |sep| > 0
    ensures var p := Split(s, sep)[0];
      |p| <= |s| && p == s[..|p|] && Find(p, sep, 0) == -1 && (|p| == |s| || OccursAt(s, sep, |p|))
  {
    SplitHead(s, sep, Find(s, sep, 0));
  }

  /** A text without an occurrence has none in any prefix either. */
  lemma FindNonePrefix(s: string, sub: string, n: nat)
    requires Find(s, sub, 0) == -1 && n <= |s|
    ensures Find(s[..n], sub, 0) == -1
  {
    forall j | 0 <= j ensures !OccursAt(s[..n], sub, j) {
      if OccursAt(s[..n], sub, j) {
        assert s[..n][j..j + |sub|] == s[j..j + |sub|];
        assert OccursAt(s, sub, j);
      }
    }
  }

  /** An occurrence in a prefix is an occurrence in the whole text. */
  lemma OccursInPrefix(s: string, n: nat, sub: string, i: int)
    requires n <= |s| && OccursAt(s[..n], sub, i)
    ensures OccursAt(s, sub, i)
  {
    assert s[..n][i..i + |sub|] == s[i..i + |sub|];
  }

  /** A separator whose first character does not occur in `s` is first found right after it. */
  lemma FindSepAfter(s: string, sep: string, t: string)
    requires |sep| > 0 && forall i :: 0 <= i < |s| ==> s[i] != sep[0]
    ensures Find(s + sep + t, sep, 0) == |s|
  {
    var u := s + sep + t;
    assert u[|s|..|s| + |sep|] == sep;
    assert OccursAt(u, sep, |s|);
    forall i | 0 <= i < |s| ensures !OccursAt(u, sep, i) {
      assert u[i..i + |sep|][0] == s[i];
    }
  }

  /** A text that lacks one character of `sub` holds no occurrence of it. */
  lemma FindSepMissing(s: string, sub: string, j: nat)
    requires j < |sub| && forall i :: 0 <= i < |s| ==> s[i] != sub[j]
    ensures Find(s, sub, 0) == -1
  {
    forall i | 0 <= i && i + |sub| <= |s| ensures !OccursAt(s, sub, i) {
      assert s[i..i + |sub|][j] == s[i + j];
    }
  }

  /** `split(sep)` cuts off a first part that lacks the separator's first character. */
  lemma SplitStep(s: string, sep: string, head: string, rest: string)
    requires |sep| > 0 && forall i :: 0 <= i < |head| ==> head[i] != sep[0]
    requires s == head + sep + rest
    ensures Split(s, sep) == [head] + Split(rest, sep)
  {
    FindSepAfter(head, sep, rest);
    SplitHead(s, sep, |head|);
    assert s[|head| + |sep|..] == rest;
    assert s[..|head|] == head;
  }

  /**
   * `split(sep)` undoes `sep.join(parts)` when no part but the last holds the separator's first
   * character and the last holds no occurrence of it.
   */
  lemma {:induction false} SplitJoin(parts: seq<string>, sep: string)
    requires |sep| > 0 && |parts| >= 1
    requires forall k, i :: 0 <= k < |parts| - 1 && 0 <= i < |parts[k]| ==> parts[k][i] != sep[0]
    requires Find(parts[|parts| - 1], sep, 0) == -1
    ensures Split(Join(parts, sep), sep) == parts
    decreases |parts|
  {
    if |parts| == 1 {
      SplitHead(parts[0], sep, -1);
    } else {
      var rest := parts[1..];
      assert rest[|rest| - 1] == parts[|parts| - 1];
      SplitJoin(rest, sep);
      SplitStep(Join(parts, sep), sep, parts[0], Join(rest, sep));
      assert parts == [parts[0]] + rest;
    }
  }

  /** `s.split(c)` for a one-character separator. */
  function SplitOn(s: string, c: char): (parts: seq<string>)
    ensures |parts| >= 1 && Join(parts, [c]) == s
    ensures forall k, i :: 0 <= k < |parts| && 0 <= i < |parts[k]| ==> parts[k][i] != c
  {
    var parts := Split(s, [c]);
    forall k, i | 0 <= k < |parts| && 0 <= i < |parts[k]| ensures parts[k][i] != c {
      if parts[k][i] == c { assert parts[k][i..i + 1] == [c]; assert OccursAt(parts[k], [c], i); }
    }
    parts
  }

  /** A character that does not occur in `s` is first found right after it. */
  lemma FindAfter(s: string, c: char, t: string)
    requires forall i :: 0 <= i < |s| ==> s[i] != c
    ensures Find(s + [c] + t, [c], 0) == |s|
  {
    var u := s + [c] + t;
    assert u[|s|..|s| + 1] == [c];
    assert OccursAt(u, [c], |s|);
    forall i | 0 <= i < |s| ensures !OccursAt(u, [c], i) {
      assert u[i..i + 1][0] == s[i];
    }
  }

  lemma FindAbsent(s: string, c: char)
    requires forall i :: 0 <= i < |s| ==> s[i] != c
    ensures Find(s, [c], 0) == -1
  {
    forall i | 0 <= i && i + 1 <= |s| ensures !OccursAt(s, [c], i) {
      assert s[i..i + 1][0] == s[i];
    }
  }

  /** A character in neither the parts nor the separator is not in their join. */
  lemma {:induction false} JoinChars(parts: seq<string>, sep: string, c: char)
    requires forall i :: 0 <= i < |sep| ==> sep[i] != c
    requires forall k, i :: 0 <= k < |parts| && 0 <= i < |parts[k]| ==> parts[k][i] != c
    ensures forall i :: 0 <= i < |Join(parts, sep)| ==> Join(parts, sep)[i] != c
    decreases |parts|
  {
    if |parts| > 1 {
      JoinChars(parts[1..], sep, c);
      var rest := Join(parts[1..], sep);
      var s := parts[0] + sep + rest;
      forall i | 0 <= i < |s| ensures s[i] != c {
        if i < |parts[0]| {
          assert s[i] == parts[0][i];
        } else if i < |parts[0]| + |sep| {
          assert s[i] == sep[i - |parts[0]|];
        } else {
          assert s[i] == rest[i - |parts[0]| - |sep|];
        }
      }
    }
  }

  /** Joining two non-empty lists of parts is joining their joins. */
  lemma {:induction false} JoinAppend(x: seq<string>, y: seq<string>, sep: string)
    requires |x| >= 1 && |y| >= 1
    ensures Join(x + y, sep) == Join(x, sep) + sep + Join(y, sep)
    decreases |x|
  {
    if |x| == 1 {
      assert (x + y)[1..] == y;
    } else {
      JoinAppend(x[1..], y, sep);
      assert (x + y)[1..] == x[1..] + y;
    }
  }

  /** Joining non-empty groups, and then their joins, with one separator is joining all parts. */
  lemma {:induction false} JoinNested(groups: seq<seq<string>>, sep: string)
    requires |groups| >= 1 && forall r :: 0 <= r < |groups| ==> |groups[r]| >= 1
    ensures Join(seq(|groups|, r requires 0 <= r < |groups| => Join(groups[r], sep)), sep) == Join(Lists.Flatten(groups), sep)
    decreases |groups|
  {
    var joined := seq(|groups|, r requires 0 <= r < |groups| => Join(groups[r], sep));
    if |groups| == 1 {
      assert Lists.Flatten(groups) == groups[0] + Lists.Flatten(groups[1..]);
      assert Lists.Flatten(groups[1..]) == [];
      assert Lists.Flatten(groups) == groups[0];
    } else {
      var rest := groups[1..];
      JoinNested(rest, sep);
      assert joined[1..] == seq(|rest|, r requires 0 <= r < |rest| => Join(rest[r], sep));
      FlattenLength(rest);
      JoinAppend(groups[0], Lists.Flatten(rest), sep);
    }
  }

  /** The flattening of non-empty groups is non-empty. */
  lemma FlattenLength(groups: seq<seq<string>>)
    requires |groups| >= 1 && |groups[0]| >= 1
    ensures |Lists.Flatten(groups)| >= 1
  {
  }

  /** Replacing `a` by `b` in an `a`-join of parts free of `a` gives their `b`-join. */
  lemma {:induction false} JoinReplace(parts: seq<string>, a: char, b: char)
    requires forall k, i :: 0 <= k < |parts| && 0 <= i < |parts[k]| ==> parts[k][i] != a
    ensures ReplaceChar(Join(parts, [a]), a, b) == Join(parts, [b])
    decreases |parts|
  {
    if |parts| == 1 {
      ReplaceNone(parts[0], a, b);
    } else if |parts| > 1 {
      JoinReplace(parts[1..], a, b);
      ReplaceNone(parts[0], a, b);
      ReplaceAppend(parts[0] + [a], Join(parts[1..], [a]), a, b);
      ReplaceAppend(parts[0], [a], a, b);
    }
  }

  lemma ReplaceNone(s: string, a: char, b: char)
    requires forall i :: 0 <= i < |s| ==> s[i] != a
    ensures ReplaceChar(s, a, b) == s
  {
  }

  lemma ReplaceAppend(x: string, y: string, a: char, b: char)
    ensures ReplaceChar(x + y, a, b) == ReplaceChar(x, a, b) + ReplaceChar(y, a, b)
  {
  }

  /** `split(c)` cuts off a first part free of `c` at the `c` after it. */
  lemma SplitOnStep(s: string, c: char, head: string, rest: string)
    requires forall i :: 0 <= i < |head| ==> head[i] != c
    requires s == head + [c] + rest
    ensures SplitOn(s, c) == [head] + SplitOn(rest, c)
  {
    FindAfter(head, c, rest);
    assert s[|head| + 1..] == rest;
    assert s[..|head|] == head;
  }

  /** `split(c)` undoes `c.join(parts)` when no part contains `c`. */
  lemma {:induction false} SplitOnJoin(parts: seq<string>, c: char)
    requires |parts| >= 1
    requires forall k, i :: 0 <= k < |parts| && 0 <= i < |parts[k]| ==> parts[k][i] != c
    ensures SplitOn(Join(parts, [c]), c) == parts
    decreases |parts|
  {
    if |parts| == 1 {
      FindAbsent(parts[0], c);
    } else {
      var rest := Join(parts[1..], [c]);
      assert Join(parts, [c]) == parts[0] + [c] + rest;
      SplitOnStep(Join(parts, [c]), c, parts[0], rest);
      SplitOnJoin(parts[1..], c);
      assert parts == [parts[0]] + parts[1..];
    }
  }

  /** `(key + rest).split(key)` is `["", rest]` when the key's first character is not in `rest`. */
  lemma SplitLabel(key: string, rest: string)
    requires |key| > 0
    requires forall i :: 0 <= i < |rest| ==> rest[i] != key[0]
    ensures Split(key + rest, key) == ["", rest]
  {
    var s := key + rest;
    assert s[0..|key|] == key;
    assert Find(s, key, 0) == 0;
    forall i | 0 <= i && i + |key| <= |rest| ensures !OccursAt(rest, key, i) {
      assert rest[i..i + |key|][0] == rest[i];
    }
    assert s[|key|..] == rest;
  }

  /** `n` blanks. */
  function Spaces(n: nat): (r: string)
    ensures |r| == n && forall i :: 0 <= i < n ==> r[i] == ' '
  {
    seq(n, i => ' ')
  }

  /** `lstrip` removes the leading blanks from text that does not start with one. */
  lemma {:induction false} TrimSpaces(n: nat, t: string)
    requires |t| > 0 && !IsSpace(t[0])
    ensures TrimStart(Spaces(n) + t, Whitespace) == t
    decreases n
  {
    if n == 0 {
      assert Spaces(n) + t == t;
      WhitespaceIsSpace(t[0]);
    } else {
      TrimSpaces(n - 1, t);
      assert (Spaces(n) + t)[1..] == Spaces(n - 1) + t;
      assert ' ' in Whitespace;
    }
  }

  /** `strip` removes any leading blanks from text whose own ends are not blank. */
  lemma StripSpaces(n: nat, t: string)
    requires |t| > 0 && !IsSpace(t[0]) && !IsSpace(t[|t| - 1])
    ensures Strip(Spaces(n) + t) == t
  {
    TrimSpaces(n, t);
    WhitespaceIsSpace(t[|t| - 1]);
  }

  /** A join starts with its first part. */
  lemma JoinStarts(parts: seq<string>, sep: string)
    requires |parts| > 0
    ensures |Join(parts, sep)| >= |parts[0]| && Join(parts, sep)[..|parts[0]|] == parts[0]
  {
  }

  /** A join ends with its last part. */
  lemma {:induction false} JoinEnds(parts: seq<string>, sep: string)
    requires |parts| > 0
    ensures var j, p := Join(parts, sep), parts[|parts| - 1]; |j| >= |p| && j[|j| - |p|..] == p
    decreases |parts|
  {
    if |parts| > 1 {
      JoinEnds(parts[1..], sep);
    }
  }

  /** Length of the leading run of non-blank characters. */
  function WordLength(s: string): (n: nat)
    ensures n <= |s|
    ensures forall i :: 0 <= i < n ==> !IsSpace(s[i])
    ensures n == |s| || IsSpace(s[n])
  {
    if s == [] || IsSpace(s[0]) then 0 else 1 + WordLength(s[1..])
  }

  /** `s.split()`: the maximal runs of non-blank characters, left to right. */
  function SplitWs(s: string): (words: seq<string>)
    ensures forall k :: 0 <= k < |words| ==> |words[k]| > 0
    ensures forall k, i :: 0 <= k < |words| && 0 <= i < |words[k]| ==> !IsSpace(words[k][i])
    decreases |s|
  {
    if s == [] then []
    else if IsSpace(s[0]) then SplitWs(s[1..])
    else
      var n := WordLength(s);
      [s[..n]] + SplitWs(s[n..])
  }

  /** A word followed by nothing or by a blank: the leading run is the word. */
  lemma {:induction false} WordLengthAt(w: string, rest: string)
    requires forall i :: 0 <= i < |w| ==> !IsSpace(w[i])
    requires rest == [] || IsSpace(rest[0])
    ensures WordLength(w + rest) == |w|
    decreases |w|
  {
    if w == [] {
      assert w + rest == rest;
    } else {
      assert (w + rest)[1..] == w[1..] + rest;
      WordLengthAt(w[1..], rest);
    }
  }

  /** `(w + " " + rest).split()` is the word `w` followed by `rest.split()`. */
  lemma SplitWsCons(w: string, rest: string)
    requires |w| > 0 && forall i :: 0 <= i < |w| ==> !IsSpace(w[i])
    ensures SplitWs(w + " " + rest) == [w] + SplitWs(rest)
  {
    var s := w + " " + rest;
    WordLengthAt(w, " " + rest);
    assert s == w + (" " + rest);
    assert s[..|w|] == w;
    assert s[|w|..] == " " + rest;
    assert (" " + rest)[1..] == rest;
  }

  /** A single word splits into itself. */
  lemma SplitWsWord(w: string)
    requires |w| > 0 && forall i :: 0 <= i < |w| ==> !IsSpace(w[i])
    ensures SplitWs(w) == [w]
  {
    WordLengthAt(w, []);
    assert w + [] == w;
    assert w[..|w|] == w;
  }

  /**
   * Reading `s` piece by piece up to each `c`, as `std::getline` with a delimiter or `splitlines`
   * do: `split(c)`, except that the empty piece after a final `c`, or of the empty text, is not read.
   */
  function SplitTerminated(s: string, c: char): (pieces: seq<string>)
    ensures forall k, i :: 0 <= k < |pieces| && 0 <= i < |pieces[k]| ==> pieces[k][i] != c
  {
    if s == [] then []
    else
      var parts := SplitOn(s, c);
      if parts[|parts| - 1] == [] then parts[..|parts| - 1] else parts
  }

  /** `s.splitlines()` with `\n` as the only line break: no trailing empty line. */
  function SplitLines(s: string): (lines: seq<string>)
    ensures forall k, i :: 0 <= k < |lines| && 0 <= i < |lines[k]| ==> lines[k][i] != '\n'
  {
    SplitTerminated(s, '\n')
  }
}
