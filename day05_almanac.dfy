/** Day 5: the almanac's range maps, from seeds through seven layers of maps (05/map.py). */
module Day05Almanac {
  import opened Wrappers
  import opened Strings
  import opened Lists
  import opened Numbers
  import opened Lines

  /** `Map`: the sources `src .. src + len - 1` go to `dst .. dst + len - 1`. */
  datatype RangeMap = RangeMap(dst: int, src: int, len: int)

  predicate Covers(m: RangeMap, source: int)
  {
    m.src <= source < m.src + m.len
  }

  /** `getDestination`: the source's offset into the range carried over to the destination, or a `ValueError` outside the range. */
  function GetDestination(m: RangeMap, source: int): (r: Result<int>)
    ensures r.Ok? <==> Covers(m, source)
    ensures r.Err? ==> r.error == "ValueError"
  {
    if source < m.src then Err("ValueError")
    else if source >= m.src + m.len then Err("ValueError")
    else Ok(m.dst + (source - m.src))
  }

  /** The inverse direction: the source a destination comes from. */
  function Source(m: RangeMap, destination: int): int
  {
    m.src + (destination - m.dst)
  }

  /** A destination is reached from exactly one source, the one `Source` gives. */
  lemma DestinationSource(m: RangeMap, source: int, destination: int)
    ensures GetDestination(m, source) == Ok(destination) <==> Covers(m, source) && source == Source(m, destination)
  {
  }

  /** Within its range a map shifts every source by the same amount, so differences are kept. */
  lemma DestinationShift(m: RangeMap, s1: int, s2: int)
    requires Covers(m, s1) && Covers(m, s2)
    ensures GetDestination(m, s1).value - GetDestination(m, s2).value == s1 - s2
    ensures s1 < s2 <==> GetDestination(m, s1).value < GetDestination(m, s2).value
  {
  }

  /** The four values the source asserts for `Map(50, 98, 2)` and `Map(0, 15, 37)`, and the two sides of the first range. */
  lemma DestinationExamples()
    ensures GetDestination(RangeMap(50, 98, 2), 98) == Ok(50) && GetDestination(RangeMap(50, 98, 2), 99) == Ok(51)
    ensures GetDestination(RangeMap(0, 15, 37), 15) == Ok(0) && GetDestination(RangeMap(0, 15, 37), 16) == Ok(1)
    ensures GetDestination(RangeMap(50, 98, 2), 97).Err? && GetDestination(RangeMap(50, 98, 2), 100).Err?
  {
  }

  // ---------------------------------------------------------------- MultiMap

  /** The destinations of the first `n` maps that cover the source, in map order. */
  function DestinationsIn(maps: seq<RangeMap>, source: int, n: nat): (r: seq<int>)
    requires n <= |maps|
    ensures |r| <= n
    decreases n
  {
    if n == 0 then []
    else DestinationsIn(maps, source, n - 1) + (match GetDestination(maps[n - 1], source) case Ok(d) => [d] case Err(_) => [])
  }

  function Destinations(maps: seq<RangeMap>, source: int): seq<int>
  {
    DestinationsIn(maps, source, |maps|)
  }

  /** `getDestinations`: every map is tried in order and the ones that raise are skipped. */
  method GetDestinations(maps: seq<RangeMap>, source: int) returns (res: seq<int>)
    ensures res == Destinations(maps, source)
  {
    res := [];
    for i := 0 to |maps|
      invariant res == DestinationsIn(maps, source, i)
    {
      var r := GetDestination(maps[i], source);
      match r
      case Ok(d) => res := res + [d];
      case Err(_) =>
    }
  }

  /** A value is a destination exactly when some (earlier than `n`) map covers the source and takes it there. */
  lemma {:induction false} DestinationsInMembers(maps: seq<RangeMap>, source: int, n: nat, d: int)
    requires n <= |maps|
    ensures d in DestinationsIn(maps, source, n) <==> exists k :: 0 <= k < n && GetDestination(maps[k], source) == Ok(d)
    decreases n
  {
    if n > 0 {
      DestinationsInMembers(maps, source, n - 1, d);
    }
  }

  /** The number of destinations is the number of covering maps among the first `n`. */
  lemma {:induction false} DestinationsInCount(maps: seq<RangeMap>, source: int, n: nat)
    requires n <= |maps|
    ensures |DestinationsIn(maps, source, n)| == |set k | 0 <= k < n && Covers(maps[k], source)|
    decreases n
  {
    if n > 0 {
      DestinationsInCount(maps, source, n - 1);
      var before := set k | 0 <= k < n - 1 && Covers(maps[k], source);
      if Covers(maps[n - 1], source) {
        assert (set k | 0 <= k < n && Covers(maps[k], source)) == before + {n - 1};
      } else {
        assert (set k | 0 <= k < n && Covers(maps[k], source)) == before;
      }
    }
  }

  /** The result lists exactly the destinations of the covering maps, one per map, and is empty iff no map covers the source. */
  lemma DestinationsMeaning(maps: seq<RangeMap>, source: int)
    ensures forall d :: d in Destinations(maps, source) <==> exists k :: 0 <= k < |maps| && GetDestination(maps[k], source) == Ok(d)
    ensures |Destinations(maps, source)| == |set k | 0 <= k < |maps| && Covers(maps[k], source)|
    ensures Destinations(maps, source) == [] <==> forall k :: 0 <= k < |maps| ==> !Covers(maps[k], source)
  {
    forall d ensures d in Destinations(maps, source) <==> exists k :: 0 <= k < |maps| && GetDestination(maps[k], source) == Ok(d) {
      DestinationsInMembers(maps, source, |maps|, d);
    }
    DestinationsInCount(maps, source, |maps|);
    forall k | 0 <= k < |maps| && Covers(maps[k], source) ensures GetDestination(maps[k], source).value in Destinations(maps, source) {
      DestinationsInMembers(maps, source, |maps|, GetDestination(maps[k], source).value);
    }
    if Destinations(maps, source) != [] {
      var d := Destinations(maps, source)[0];
      assert d in Destinations(maps, source);
    }
  }

  // ---------------------------------------------------------------- findBetween

  /** `s.split(start)[1].split(end)[0]`: an empty separator raises `ValueError`, a missing `start` makes `[1]` raise `IndexError`. */
  function FindBetween(s: string, start: string, end: string): (r: Result<string>)
    ensures r.Err? <==> |start| == 0 || Find(s, start, 0) == -1 || |end| == 0
  {
    if |start| == 0 then Err("ValueError")
    else
      var parts := Split(s, start);
      SplitHead(s, start, Find(s, start, 0));
      if |parts| < 2 then Err("IndexError")
      else if |end| == 0 then Err("ValueError")
      else Ok(Split(parts[1], end)[0])
  }

  /**
   * The result is the text right after the first `start`, up to the first place where `start` or
   * `end` begins (or the end of the text): it is a prefix of what follows `start`, holds neither
   * separator, and is followed by one of them unless it runs to the end.
   */
  lemma FindBetweenCut(s: string, start: string, end: string, i: int)
    requires FindBetween(s, start, end).Ok? && i == Find(s, start, 0)
    ensures 0 <= i && i + |start| <= |s|
    ensures var t, r := s[i + |start|..], FindBetween(s, start, end).value;
      |r| <= |t| && r == t[..|r|] && Find(r, start, 0) == -1 && Find(r, end, 0) == -1
      && (|r| == |t| || OccursAt(t, start, |r|) || OccursAt(t, end, |r|))
  {
    SplitHead(s, start, i);
    var t := s[i + |start|..];
    SplitFirst(t, start);
    var u := Split(t, start)[0];
    assert Split(s, start)[1] == u;
    SplitFirst(u, end);
    var r := Split(u, end)[0];
    assert r == FindBetween(s, start, end).value;
    FindNonePrefix(u, start, |r|);
    assert u[..|r|] == r && t[..|r|] == r;
    if |r| < |u| {
      OccursInPrefix(t, |u|, end, |r|);
    }
  }

  // ---------------------------------------------------------------- MapReader

  /** `parseSeeds`: the stripped text split at blanks, every piece read as an integer. */
  function ParseSeeds(text: string): Result<seq<int>>
  {
    ReadInts(SplitOn(Strip(text), ' '))
  }

  /** The seeds line as written after `seeds:`: one blank, then the numbers with single blanks between. */
  lemma ParseSeedsRender(l: Layout)
    requires |l| > 0 && Dense(l)
    ensures ParseSeeds(" " + Render(l)) == Ok(Values(l))
  {
    RenderEnds(l);
    StripPadded(Render(l));
    SplitRender(l);
    StripTokens(l);
    ReadDense(l);
  }

  /** One line of a map section: `int(parts[k])` for the first three blank-separated pieces; a missing piece raises `IndexError`. */
  function ReadRange(line: string): (r: Result<RangeMap>)
    ensures r.Ok? ==> |SplitOn(line, ' ')| >= 3
  {
    var parts := SplitOn(line, ' ');
    match ReadInt(parts[0])
    case Err(e) => Err(e)
    case Ok(dst) =>
      if |parts| < 2 then Err("IndexError")
      else
        match ReadInt(parts[1])
        case Err(e) => Err(e)
        case Ok(src) =>
          if |parts| < 3 then Err("IndexError")
          else
            match ReadInt(parts[2])
            case Err(e) => Err(e)
            case Ok(len) => Ok(RangeMap(dst, src, len))
  }

  /** What `parseMap` computes: one map per non-blank line, in order, or the first line's error. */
  function ReadRanges(lines: seq<string>): Result<seq<RangeMap>>
  {
    MapAll(NonBlank(lines), ReadRange)
  }

  /** `parseMap`: blank lines are skipped, every other line becomes a map. */
  method ParseMap(text: string) returns (r: Result<seq<RangeMap>>)
    ensures r == ReadRanges(SplitLines(text))
  {
    var lines := SplitLines(text);
    var maps: seq<RangeMap> := [];
    for i := 0 to |lines|
      invariant MapAll(NonBlank(lines[..i]), ReadRange) == Ok(maps)
    {
      ReadLinesStep(lines, i, ReadRange, maps);
      if Blank(lines[i]) {
        continue;
      }
      var m := ReadRange(lines[i]);
      if m.Err? {
        ReadLinesPrefixErr(lines[..i + 1], lines[i + 1..], ReadRange);
        TakeDrop(lines, i + 1);
        return Err(m.error);
      }
      maps := maps + [m.value];
    }
    assert lines[..|lines|] == lines;
    r := Ok(maps);
  }

  /** The written form of a map, as the almanac lists it. */
  function RangeLayout(m: RangeMap): Layout
  {
    [Some(m.dst), Some(m.src), Some(m.len)]
  }

  /** A map's line reads back as that map. */
  lemma ReadRangeRender(m: RangeMap)
    ensures ReadRange(Render(RangeLayout(m))) == Ok(m)
  {
    var l := RangeLayout(m);
    SplitRender(l);
    ReadIntString(m.dst);
    ReadIntString(m.src);
    ReadIntString(m.len);
  }

  function RangeLayouts(ms: seq<RangeMap>): (r: seq<Layout>)
    ensures |r| == |ms| && forall k :: 0 <= k < |ms| ==> r[k] == RangeLayout(ms[k])
  {
    seq(|ms|, k requires 0 <= k < |ms| => RangeLayout(ms[k]))
  }

  /**
   * A section as it stands between two headers (a line break after the header, a line per map,
   * then a blank line) reads back as its maps.
   */
  lemma ReadSection(ms: seq<RangeMap>)
    ensures ReadRanges(SplitLines(Framed(RangeLayouts(ms), 2))) == Ok(ms)
  {
    RangeLayoutsDense(ms);
    ReadRenderedRanges(ms);
    ReadFramedLines(RangeLayouts(ms), 2, ReadRange, ms);
  }

  lemma RangeLayoutsDense(ms: seq<RangeMap>)
    ensures forall k :: 0 <= k < |ms| ==> |RangeLayouts(ms)[k]| > 0 && Dense(RangeLayouts(ms)[k])
  {
  }

  lemma ReadRenderedRanges(ms: seq<RangeMap>)
    ensures MapAll(RenderLines(RangeLayouts(ms)), ReadRange) == Ok(ms)
  {
    var ls := RangeLayouts(ms);
    forall k | 0 <= k < |ms| ensures ReadRange(RenderLines(ls)[k]) == Ok(ms[k]) {
      ReadRangeRender(ms[k]);
    }
    MapAllPointwise(RenderLines(ls), ReadRange, ms);
  }
}
