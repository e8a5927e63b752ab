/** Day 1, part one: the calibration value of a line from its first and last digit (01/readLines.py). */
module Day01Digits {
  import opened Wrappers
  import opened Strings

  /** The digits of a line in order: the source's `filter(lambda x: x.isnumeric(), chars)`, over ASCII. */
  function Digits(s: string): (ds: string)
    ensures |ds| <= |s|
    ensures forall k :: 0 <= k < |ds| ==> IsDigit(ds[k])
  {
    if s == [] then []
    else Digits(s[..|s| - 1]) + (if IsDigit(s[|s| - 1]) then [s[|s| - 1]] else [])
  }

  /** The value `readLine` returns: ten times the first digit plus the last one; the first `next` on an exhausted iterator raises. */
  function Calibration(line: string): (r: Result<int>)
  {
    var ds := Digits(line);
    if ds == [] then Err("StopIteration")
    else Ok(DigitValue(ds[0]) * 10 + DigitValue(ds[|ds| - 1]))
  }

  /** `readLine`: the first `next` takes the first digit, the loop keeps the last one until the iterator runs dry. */
  method ReadLine(line: string) returns (r: Result<int>)
    ensures r == Calibration(line)
  {
    var i := 0;
    while i < |line| && !IsDigit(line[i])
      invariant 0 <= i <= |line|
      invariant Digits(line[..i]) == []
    {
      assert line[..i + 1][..i] == line[..i];
      i := i + 1;
    }
    if i == |line| {
      assert line[..i] == line;
      return Err("StopIteration");
    }
    assert line[..i + 1][..i] == line[..i];
    var c1 := line[i];
    var c2 := c1;
    i := i + 1;
    while i < |line|
      invariant 0 < i <= |line|
      invariant Digits(line[..i]) != []
      invariant Digits(line[..i])[0] == c1
      invariant Digits(line[..i])[|Digits(line[..i])| - 1] == c2
    {
      assert line[..i + 1][..i] == line[..i];
      if IsDigit(line[i]) {
        c2 := line[i];
      }
      i := i + 1;
    }
    assert line[..i] == line;
    return Ok(DigitValue(c1) * 10 + DigitValue(c2));
  }

  /** `readLines`: `readLine` on every line; the first line that raises makes the whole comprehension raise. */
  function ReadLines(lines: seq<string>): (r: Result<seq<int>>)
    ensures r.Ok? <==> forall k :: 0 <= k < |lines| ==> Calibration(lines[k]).Ok?
    ensures r.Ok? ==> |r.value| == |lines| && forall k :: 0 <= k < |lines| ==> Calibration(lines[k]) == Ok(r.value[k])
  {
    if lines == [] then Ok([])
    else
      match Calibration(lines[0])
      case Err(e) => Err(e)
      case Ok(v) =>
        match ReadLines(lines[1..])
        case Err(e) => Err(e)
        case Ok(vs) =>
          assert forall k :: 1 <= k < |lines| ==> lines[k] == lines[1..][k - 1];
          Ok([v] + vs)
  }

  // ---------------------------------------------------------------- what the digit filter keeps

  lemma {:induction false} DigitsNone(s: string)
    requires forall j :: 0 <= j < |s| ==> !IsDigit(s[j])
    ensures Digits(s) == []
  {
    if s != [] {
      DigitsNone(s[..|s| - 1]);
    }
  }

  lemma {:induction false} DigitsAppendNone(s: string, t: string)
    requires forall j :: 0 <= j < |t| ==> !IsDigit(t[j])
    ensures Digits(s + t) == Digits(s)
    decreases |t|
  {
    if t != [] {
      assert (s + t)[..|s + t| - 1] == s + t[..|t| - 1];
      DigitsAppendNone(s, t[..|t| - 1]);
    } else {
      assert s + t == s;
    }
  }

  /** The filter starts with the leftmost digit of the line. */
  lemma {:induction false} DigitsFirst(s: string, i: nat)
    requires i < |s| && IsDigit(s[i])
    requires forall j :: 0 <= j < i ==> !IsDigit(s[j])
    ensures Digits(s) != [] && Digits(s)[0] == s[i]
    decreases |s|
  {
    if i == |s| - 1 {
      DigitsNone(s[..i]);
    } else {
      DigitsFirst(s[..|s| - 1], i);
    }
  }

  /** The filter ends with the rightmost digit of the line. */
  lemma DigitsLast(s: string, i: nat)
    requires i < |s| && IsDigit(s[i])
    requires forall j :: i < j < |s| ==> !IsDigit(s[j])
    ensures Digits(s) != [] && Digits(s)[|Digits(s)| - 1] == s[i]
  {
    assert s == s[..i + 1] + s[i + 1..];
    assert s[..i + 1][..i] == s[..i];
    DigitsAppendNone(s[..i + 1], s[i + 1..]);
  }

  /** `readLine` fails exactly on the lines without a digit; otherwise it is built from the leftmost and the rightmost digit. */
  lemma CalibrationSpec(line: string, i: nat, j: nat)
    requires i <= j < |line| && IsDigit(line[i]) && IsDigit(line[j])
    requires forall k :: 0 <= k < |line| && (k < i || j < k) ==> !IsDigit(line[k])
    ensures Calibration(line) == Ok(DigitValue(line[i]) * 10 + DigitValue(line[j]))
    ensures 0 <= Calibration(line).value <= 99
  {
    DigitsFirst(line, i);
    DigitsLast(line, j);
  }

  lemma CalibrationNone(line: string)
    ensures Calibration(line).Err? <==> forall k :: 0 <= k < |line| ==> !IsDigit(line[k])
  {
    if forall k :: 0 <= k < |line| ==> !IsDigit(line[k]) {
      DigitsNone(line);
    } else {
      var k :| 0 <= k < |line| && IsDigit(line[k]);
      FirstDigitExists(line, k);
    }
  }

  lemma {:induction false} FirstDigitExists(line: string, k: nat)
    requires k < |line| && IsDigit(line[k])
    ensures Digits(line) != []
    decreases k
  {
    if exists m :: 0 <= m < k && IsDigit(line[m]) {
      var m :| 0 <= m < k && IsDigit(line[m]);
      FirstDigitExists(line, m);
    } else {
      DigitsFirst(line, k);
    }
  }

  /** A line with a single digit uses it twice. */
  lemma SingleDigit(line: string, i: nat)
    requires i < |line| && IsDigit(line[i])
    requires forall k :: 0 <= k < |line| && k != i ==> !IsDigit(line[k])
    ensures Calibration(line) == Ok(11 * DigitValue(line[i]))
  {
    CalibrationSpec(line, i, i);
  }

  /** The values the source asserts. */
  lemma Examples()
    ensures ReadLines(["1", "12", "123", "1abc2def3ghi4"]) == Ok([11, 12, 13, 14])
  {
    SingleDigit("1", 0);
    CalibrationSpec("12", 0, 1);
    CalibrationSpec("123", 0, 2);
    CalibrationSpec("1abc2def3ghi4", 0, 12);
    var lines := ["1", "12", "123", "1abc2def3ghi4"];
    var r := ReadLines(lines);
    assert Calibration(lines[0]).Ok? && Calibration(lines[1]).Ok? && Calibration(lines[2]).Ok? && Calibration(lines[3]).Ok?;
    assert r.value[0] == 11 && r.value[1] == 12 && r.value[2] == 13 && r.value[3] == 14;
    assert r.value == [11, 12, 13, 14];
  }
}
