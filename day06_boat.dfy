/** Day 6: toy boat races — how long to charge, how many charges win, and reading the race sheet (06/boat.py). */
module Day06Boat {
  import opened Wrappers
  import opened Strings
  import opened Numbers

  /** `calculateDistance`: charging for `charge` milliseconds gives that speed for the rest of the race. */
  function CalculateDistance(time: int, charge: int): int
  {
    (time - charge) * charge
  }

  datatype Race = Race(time: int, distance: int)

  /** A charge beats the race's record. */
  predicate Wins(race: Race, charge: int)
  {
    CalculateDistance(race.time, charge) > race.distance
  }

  /** The winning charges among 1 .. n - 1. */
  function WinnersBelow(race: Race, n: int): (k: nat)
    ensures k <= if n <= 1 then 0 else n - 1
    decreases n
  {
    if n <= 1 then 0 else WinnersBelow(race, n - 1) + (if Wins(race, n - 1) then 1 else 0)
  }

  /** `countWinners`: one pass over the charges 1 .. time - 1, counting those that beat the record. */
  method CountWinners(race: Race) returns (count: nat)
    ensures count == |WinningCharges(race)|
  {
    count := 0;
    var charge := 1;
    while charge < race.time
      invariant 1 <= charge <= if race.time < 1 then 1 else race.time
      invariant count == WinnersBelow(race, charge)
    {
      if CalculateDistance(race.time, charge) > race.distance {
        count := count + 1;
      }
      charge := charge + 1;
    }
    if race.time <= 1 {
      assert WinnersBelow(race, race.time) == 0 == WinnersBelow(race, charge);
    }
    WinnersBelowCount(race, race.time);
  }

  /** The set of winning charges: the independent statement of what `countWinners` counts. */
  ghost function WinningCharges(race: Race): set<int>
  {
    set c | 1 <= c < race.time && Wins(race, c)
  }

  ghost function WinningChargesBelow(race: Race, n: int): set<int>
  {
    set c | 1 <= c < n && Wins(race, c)
  }

  /** Counting charge by charge gives the size of the set of winners. */
  lemma {:induction false} WinnersBelowCount(race: Race, n: int)
    ensures WinnersBelow(race, n) == |WinningChargesBelow(race, n)|
    decreases n
  {
    if n <= 1 {
      assert WinningChargesBelow(race, n) == {};
    } else {
      WinnersBelowCount(race, n - 1);
      var prev := WinningChargesBelow(race, n - 1);
      if Wins(race, n - 1) {
        assert WinningChargesBelow(race, n) == prev + {n - 1};
        assert n - 1 !in prev;
      } else {
        assert WinningChargesBelow(race, n) == prev;
      }
    }
  }

  // ---------------------------------------------------------------- the shape of the distance curve

  /** Charging `c` or `time - c` goes equally far. */
  lemma DistanceSymmetric(time: int, charge: int)
    ensures CalculateDistance(time, charge) == CalculateDistance(time, time - charge)
  {
  }

  /** So a charge wins exactly when its mirror image does. */
  lemma WinsSymmetric(race: Race, charge: int)
    ensures Wins(race, charge) <==> Wins(race, race.time - charge)
  {
    DistanceSymmetric(race.time, charge);
  }

  /**
   * The winning charges have no gaps: any charge between two winning charges wins too,
   * since the distance never drops below both ends of an interval.
   */
  lemma WinnersContiguous(race: Race, c1: int, c2: int, c3: int)
    requires c1 <= c2 <= c3 && Wins(race, c1) && Wins(race, c3)
    ensures Wins(race, c2)
  {
    var t := race.time;
    if c1 + c2 <= t {
      assert CalculateDistance(t, c2) - CalculateDistance(t, c1) == (c2 - c1) * (t - c1 - c2);
      assert (c2 - c1) * (t - c1 - c2) >= 0;
    } else {
      assert CalculateDistance(t, c2) - CalculateDistance(t, c3) == (c3 - c2) * (c2 + c3 - t);
      assert (c3 - c2) * (c2 + c3 - t) >= 0;
    }
  }

  /** The distances the source asserts for a four-millisecond race. */
  lemma DistanceExamples()
    ensures CalculateDistance(4, 1) == 3 && CalculateDistance(4, 2) == 4
    ensures CalculateDistance(4, 3) == 3 && CalculateDistance(4, 4) == 0
  {
  }

  /** Race(4, 3) has the single winning charge 2. */
  lemma ExampleRace()
    ensures WinningCharges(Race(4, 3)) == {2}
  {
    var race := Race(4, 3);
    forall c | c in WinningCharges(race) ensures c == 2 {
      assert c == 1 || c == 2 || c == 3;
    }
    assert Wins(race, 2);
  }

  // ---------------------------------------------------------------- joinRaces

  /** The decimal numerals of the first `n` numbers written one after another. */
  function ConcatIn(ns: seq<int>, n: nat): string
    requires n <= |ns|
  {
    if n == 0 then "" else ConcatIn(ns, n - 1) + IntToString(ns[n - 1])
  }

  function Concat(ns: seq<int>): string
  {
    ConcatIn(ns, |ns|)
  }

  function Times(races: seq<Race>): (ts: seq<int>)
    ensures |ts| == |races| && forall i :: 0 <= i < |races| ==> ts[i] == races[i].time
  {
    seq(|races|, i requires 0 <= i < |races| => races[i].time)
  }

  function Distances(races: seq<Race>): (ds: seq<int>)
    ensures |ds| == |races| && forall i :: 0 <= i < |races| ==> ds[i] == races[i].distance
  {
    seq(|races|, i requires 0 <= i < |races| => races[i].distance)
  }

  /** The two joined numerals read back; `int` raises `ValueError` on either. */
  function ReadJoined(time: string, distance: string): Result<Race>
  {
    match ReadInt(time)
    case Err(e) => Err(e)
    case Ok(t) =>
      match ReadInt(distance)
      case Err(e) => Err(e)
      case Ok(d) => Ok(Race(t, d))
  }

  /** One more race appends its time and its distance to the two joined numerals. */
  lemma ConcatStep(races: seq<Race>, i: nat)
    requires i < |races|
    ensures ConcatIn(Times(races), i + 1) == ConcatIn(Times(races), i) + IntToString(races[i].time)
    ensures ConcatIn(Distances(races), i + 1) == ConcatIn(Distances(races), i) + IntToString(races[i].distance)
  {
  }

  /** `joinRaces`: the times and the distances each written out side by side and read back as one number. */
  method JoinRaces(races: seq<Race>) returns (r: Result<Race>)
    ensures r == ReadJoined(Concat(Times(races)), Concat(Distances(races)))
  {
    var resTime := "";
    var resDist := "";
    for i := 0 to |races|
      invariant resTime == ConcatIn(Times(races), i)
      invariant resDist == ConcatIn(Distances(races), i)
    {
      ConcatStep(races, i);
      resTime := resTime + IntToString(races[i].time);
      resDist := resDist + IntToString(races[i].distance);
    }
    r := ReadJoined(resTime, resDist);
  }

  /** Joining the numerals of the first `n` natural numbers shifts the earlier ones left by the width of each later one. */
  function GlueIn(ns: seq<nat>, n: nat): nat
    requires n <= |ns|
  {
    if n == 0 then 0 else GlueIn(ns, n - 1) * Pow(10, |NatToString(ns[n - 1])|) + ns[n - 1]
  }

  function Glue(ns: seq<nat>): nat
  {
    GlueIn(ns, |ns|)
  }

  lemma {:induction false} ConcatDigits(ns: seq<nat>, n: nat)
    requires n <= |ns|
    ensures forall i :: 0 <= i < |ConcatIn(ns, n)| ==> IsDigit(ConcatIn(ns, n)[i])
    ensures AllDigits(ConcatIn(ns, n), 10) && DigitsValue(ConcatIn(ns, n), 10) == GlueIn(ns, n)
    ensures n > 0 ==> |ConcatIn(ns, n)| > 0
    decreases n
  {
    if n > 0 {
      ConcatDigits(ns, n - 1);
      var a, b := ConcatIn(ns, n - 1), NatToString(ns[n - 1]);
      assert ConcatIn(ns, n) == a + b;
      forall i | 0 <= i < |a + b| ensures IsDigit((a + b)[i]) {
        if i < |a| { assert (a + b)[i] == a[i]; } else { assert (a + b)[i] == b[i - |a|]; }
      }
      DigitsValueAppend(a, b, 10);
    }
  }

  /** For natural numbers, the joined numeral reads back as the glued value; an empty list gives `int("")`, which raises. */
  lemma JoinedValue(ns: seq<nat>)
    ensures ns == [] ==> ReadInt(Concat(ns)) == Err("ValueError")
    ensures ns != [] ==> ReadInt(Concat(ns)) == Ok(Glue(ns))
  {
    if ns != [] {
      ConcatDigits(ns, |ns|);
      ParseDigits(Concat(ns));
    } else {
      assert Strip("") == "";
    }
  }

  /** `joinRaces` on races with natural times and distances: the glued values, or `ValueError` for no race at all. */
  lemma JoinRacesValue(races: seq<Race>, ts: seq<nat>, ds: seq<nat>)
    requires ts == Times(races) && ds == Distances(races)
    ensures races == [] ==> ReadJoined(Concat(ts), Concat(ds)) == Err("ValueError")
    ensures races != [] ==> ReadJoined(Concat(ts), Concat(ds)) == Ok(Race(Glue(ts), Glue(ds)))
  {
    JoinedValue(ts);
    JoinedValue(ds);
  }

  lemma GlueTwo(a: nat, b: nat)
    requires a < 10 && b < 10
    ensures Glue([a, b]) == 10 * a + b
  {
    assert GlueIn([a, b], 1) == a;
    assert |NatToString(b)| == 1;
    assert Pow(10, 1) == 10;
  }

  /** The source's example: (4, 3) and (6, 5) join to (46, 35). */
  lemma JoinExample()
    ensures ReadJoined(Concat(Times([Race(4, 3), Race(6, 5)])), Concat(Distances([Race(4, 3), Race(6, 5)]))) == Ok(Race(46, 35))
  {
    var races := [Race(4, 3), Race(6, 5)];
    JoinRacesValue(races, [4, 6], [3, 5]);
    GlueTwo(4, 6);
    GlueTwo(3, 5);
  }

  // ---------------------------------------------------------------- readRaces

  /**
   * One row of the race sheet: the text after the row's label, stripped, split on blanks;
   * the pieces that are not blank once stripped are read as integers. A line without the
   * label has no second part, and indexing it raises.
   */
  function ReadRow(line: string, key: string): (r: Result<seq<int>>)
    requires |key| > 0
  {
    var parts := Split(line, key);
    if |parts| < 2 then Err("IndexError")
    else ReadInts(NonEmpty(StripEach(SplitOn(Strip(parts[1]), ' '))))
  }

  /** A row as the sheet writes it: the label, a run of blanks, then the numbers with any spacing between them. */
  lemma ReadRowRender(key: string, pad: nat, l: Layout)
    requires |key| > 0 && !IsDigit(key[0]) && key[0] != '-' && key[0] != ' '
    requires |l| > 0 && l[0].Some? && l[|l| - 1].Some?
    ensures ReadRow(key + Spaces(pad) + Render(l), key) == Ok(Values(l))
  {
    var rest := Spaces(pad) + Render(l);
    TokensChars(l);
    JoinChars(Tokens(l), " ", key[0]);
    forall i | 0 <= i < |rest| ensures rest[i] != key[0] {
      if i >= pad { assert rest[i] == Render(l)[i - pad]; }
    }
    assert key + Spaces(pad) + Render(l) == key + rest;
    SplitLabel(key, rest);
    RenderEnds(l);
    StripSpaces(pad, Render(l));
    ReadLayoutStripped(l);
  }

  /** Both rows of the sheet: the first line's times and the second line's distances; a missing line raises `IndexError`. */
  function ReadRows(lines: seq<string>): (r: Result<(seq<int>, seq<int>)>)
  {
    if |lines| == 0 then Err("IndexError")
    else
      match ReadRow(lines[0], "Time:")
      case Err(e) => Err(e)
      case Ok(times) =>
        if |lines| == 1 then Err("IndexError")
        else
          match ReadRow(lines[1], "Distance:")
          case Err(e) => Err(e)
          case Ok(distances) => Ok((times, distances))
  }

  /** The pairing loop of `readRaces`: the i-th time with the i-th distance; fewer distances than times raise `IndexError`. */
  method PairRaces(times: seq<int>, distances: seq<int>) returns (r: Result<seq<Race>>)
    ensures r.Ok? <==> |distances| >= |times|
    ensures r.Err? ==> r.error == "IndexError"
    ensures r.Ok? ==> |r.value| == |times| && forall i :: 0 <= i < |times| ==> r.value[i] == Race(times[i], distances[i])
  {
    var races: seq<Race> := [];
    for i := 0 to |times|
      invariant |races| == i && i <= |distances|
      invariant forall k :: 0 <= k < i ==> races[k] == Race(times[k], distances[k])
    {
      if i >= |distances| {
        return Err("IndexError");
      }
      races := races + [Race(times[i], distances[i])];
    }
    r := Ok(races);
  }

  /** `readRaces`: read both rows, then pair them up; extra distances are ignored. */
  method ReadRaces(lines: seq<string>) returns (r: Result<seq<Race>>)
    ensures ReadRows(lines).Err? ==> r == Err(ReadRows(lines).error)
    ensures ReadRows(lines).Ok? ==> var times, distances := ReadRows(lines).value.0, ReadRows(lines).value.1;
      (r.Ok? <==> |distances| >= |times|) && (r.Err? ==> r.error == "IndexError") &&
      (r.Ok? ==> |r.value| == |times| && forall i :: 0 <= i < |times| ==> r.value[i] == Race(times[i], distances[i]))
  {
    var rows := ReadRows(lines);
    if rows.Err? {
      return Err(rows.error);
    }
    r := PairRaces(rows.value.0, rows.value.1);
  }
}
