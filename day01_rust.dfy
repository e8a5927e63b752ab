/** Day 1, part one in Rust: `parse_line` and `combine_digits` (01/rs/src/main.rs). */
module Day01Rust {
  import opened Wrappers
  import opened Strings
  import Day01Digits

  const I32Min: int := -0x8000_0000
  const I32Max: int := 0x7FFF_FFFF

  /** `str::parse::<i32>`: an optional sign, then at least one decimal digit, nothing else; out-of-range values fail. */
  function ParseI32(s: string): (r: Option<int>)
    ensures r.Some? ==> I32Min <= r.value <= I32Max
  {
    var neg := |s| > 0 && s[0] == '-';
    var digits := if |s| > 0 && (s[0] == '-' || s[0] == '+') then s[1..] else s;
    if |digits| == 0 || !AllDigits(digits, 10) then None
    else
      var d: int := DigitsValue(digits, 10);
      var v := if neg then -d else d;
      if I32Min <= v <= I32Max then Some(v) else None
  }

  /**
   * `parse_line`: one pass over the characters; every digit becomes the last digit, and the first one
   * seen also becomes the first. Both stay -1 when the line has no digit.
   */
  method ParseLine(line: string) returns (r: (int, int))
    ensures var ds := Day01Digits.Digits(line);
      r == if ds == [] then (-1, -1) else (DigitValue(ds[0]), DigitValue(ds[|ds| - 1]))
  {
    var firstNum := -1;
    var lastNum := -1;
    for i := 0 to |line|
      invariant var ds := Day01Digits.Digits(line[..i]);
        (firstNum, lastNum) == if ds == [] then (-1, -1) else (DigitValue(ds[0]), DigitValue(ds[|ds| - 1]))
    {
      assert line[..i + 1][..i] == line[..i];
      if IsDigit(line[i]) {
        var digit := DigitValue(line[i]);
        lastNum := digit;
        if firstNum == -1 {
          firstNum := lastNum;
        }
      }
    }
    assert line[..|line|] == line;
    r := (firstNum, lastNum);
  }

  /** `combine_digits`: the two numbers written one after the other and parsed back; `unwrap` panics when that fails. */
  function CombineDigits(numPairs: (int, int)): (r: Result<int>)
  {
    var combined := IntToString(numPairs.0) + IntToString(numPairs.1);
    match ParseI32(combined)
    case Some(v) => Ok(v)
    case None => Err("called `Result::unwrap()` on an `Err` value")
  }

  /** On two decimal digits, concatenating and parsing is `10 * first + last`. */
  lemma CombineDigitsValue(a: nat, b: nat)
    requires a < 10 && b < 10
    ensures CombineDigits((a, b)) == Ok(10 * a + b)
  {
    var s := IntToString(a) + IntToString(b);
    assert s == [DigitChar(a), DigitChar(b)];
    assert s[..1] == [DigitChar(a)];
    assert DigitsValue(s[..1][..0], 10) == 0;
  }

  /** The no-digit marker `(-1, -1)` renders as "-1-1", which does not parse: the program panics. */
  lemma CombineNoDigits()
    ensures CombineDigits((-1, -1)).Err?
  {
    var s := IntToString(-1) + IntToString(-1);
    assert s == "-1-1";
    assert s[1..][1] == '-';
    assert !AllDigits(s[1..], 10);
  }

  /**
   * The Rust program and the Python `readLine` agree: on a line with digits, `combine_digits(parse_line(line))`
   * is the calibration value; on a line without one, Python raises and Rust panics.
   */
  lemma AgreesWithPython(line: string, pair: (int, int))
    requires var ds := Day01Digits.Digits(line);
      pair == if ds == [] then (-1, -1) else (DigitValue(ds[0]), DigitValue(ds[|ds| - 1]))
    ensures CombineDigits(pair).Ok? == Day01Digits.Calibration(line).Ok?
    ensures CombineDigits(pair).Ok? ==> CombineDigits(pair) == Day01Digits.Calibration(line)
  {
    var ds := Day01Digits.Digits(line);
    if ds == [] {
      CombineNoDigits();
    } else {
      CombineDigitsValue(DigitValue(ds[0]), DigitValue(ds[|ds| - 1]));
    }
  }

  /** A line with a single digit yields that digit as both components. */
  lemma SingleDigit(line: string, i: nat)
    requires i < |line| && IsDigit(line[i])
    requires forall k :: 0 <= k < |line| && k != i ==> !IsDigit(line[k])
    ensures var ds := Day01Digits.Digits(line);
      ds != [] && (DigitValue(ds[0]), DigitValue(ds[|ds| - 1])) == (DigitValue(line[i]), DigitValue(line[i]))
  {
    Day01Digits.DigitsFirst(line, i);
    Day01Digits.DigitsLast(line, i);
  }
}
