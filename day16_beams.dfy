/**
 * Day 16: a beam of light enters a grid of mirrors and splitters at the top-left tile,
 * heading right. Every tile remembers the directions in which a beam has already
 * entered it; beams grow one section per round, never into a (tile, direction) pair
 * that is already recorded, and the rounds stop when no beam grows. A tile is
 * energized when some beam entered it.
 */
module Day16Beams {
  import opened Wrappers
  import opened Geometry
  import opened Strings
  import opened Lists

  /** `\` is `LeftRight`, `/` is `RightLeft`. */
  datatype TileType = Empty | Vertical | Horizontal | LeftRight | RightLeft

  datatype Dir = Up | Down | Left | Right

  function Delta(d: Dir): Vec2
  {
    match d
    case Up => Vec2(0, -1)
    case Down => Vec2(0, 1)
    case Left => Vec2(-1, 0)
    case Right => Vec2(1, 0)
  }

  function Opposite(d: Dir): Dir
  {
    match d
    case Up => Down
    case Down => Up
    case Left => Right
    case Right => Left
  }

  predicate IsVertical(d: Dir) { d == Up || d == Down }

  /** The four directions are four different steps; the opposite direction is the opposite step. */
  lemma DeltaUnit(d: Dir, e: Dir)
    ensures Delta(d) == Delta(e) <==> d == e
    ensures Delta(Opposite(d)) == Delta(d).Neg()
  {
    match d
    case Up =>
    case Down =>
    case Left =>
    case Right =>
  }

  /** `nextSections`' match: the directions in which a beam heading `d` leaves a tile of type `t`. */
  function Deflect(t: TileType, d: Dir): (r: seq<Dir>)
    ensures 1 <= |r| <= 2
  {
    match t
    case Empty => [d]
    case Vertical => if IsVertical(d) then [d] else [Up, Down]
    case Horizontal => if !IsVertical(d) then [d] else [Left, Right]
    case LeftRight => [match d case Up => Left case Down => Right case Left => Up case Right => Down]
    case RightLeft => [match d case Up => Right case Down => Left case Left => Down case Right => Up]
  }

  /** A beam splits in two exactly when it meets a splitter side-on, and then leaves both ways across its path. */
  lemma DeflectSplits(t: TileType, d: Dir)
    ensures |Deflect(t, d)| == 2 <==>
      (t == Vertical && !IsVertical(d)) || (t == Horizontal && IsVertical(d))
    ensures |Deflect(t, d)| == 2 ==>
      Deflect(t, d)[1] == Opposite(Deflect(t, d)[0]) && IsVertical(Deflect(t, d)[0]) != IsVertical(d)
  {
  }

  /** Empty tiles, and splitters met end-on, let the beam through unchanged. */
  lemma DeflectPasses(t: TileType, d: Dir)
    ensures Deflect(t, d) == [d] <==>
      t == Empty || (t == Vertical && IsVertical(d)) || (t == Horizontal && !IsVertical(d))
  {
  }

  /** A mirror turns the beam by a right angle, and a beam sent back the way it left retraces its path. */
  lemma MirrorReverses(t: TileType, d: Dir)
    requires t == LeftRight || t == RightLeft
    ensures |Deflect(t, d)| == 1 && IsVertical(Deflect(t, d)[0]) != IsVertical(d)
    ensures Deflect(t, Opposite(Deflect(t, d)[0])) == [Opposite(d)]
  {
  }

  type Grid = seq<seq<TileType>>

  /** A map read from puzzle input: at least one row, all rows as long as the first. */
  predicate Rectangular(g: Grid)
  {
    |g| > 0 && forall y :: 0 <= y < |g| ==> |g[y]| == |g[0]|
  }

  /** The bounds test of `getTile`, against the first row's length. */
  predicate InMap(g: Grid, p: Vec2)
    requires |g| > 0
  {
    0 <= p.x < |g[0]| && 0 <= p.y < |g|
  }

  /**
   * `getTile`: None off the map. `len(self.tiles[0])` raises IndexError on a map without
   * rows, and a row shorter than the first raises IndexError too.
   */
  function GetTile(g: Grid, p: Vec2): (r: Result<Option<TileType>>)
    ensures r.Ok? && r.value.Some? ==> InBounds(g, p) && r.value.value == g[p.y][p.x]
  {
    if p.x < 0 then Ok(None)
    else if |g| == 0 then Err("IndexError")
    else if p.x >= |g[0]| || p.y < 0 || p.y >= |g| then Ok(None)
    else if p.x >= |g[p.y]| then Err("IndexError")
    else Ok(Some(g[p.y][p.x]))
  }

  /** On a rectangular map `getTile` never raises, and finds a tile exactly at the positions inside the map. */
  lemma GetTileRectangular(g: Grid, p: Vec2)
    requires Rectangular(g)
    ensures GetTile(g, p).Ok?
    ensures GetTile(g, p).value.Some? <==> InMap(g, p)
    ensures InMap(g, p) ==> GetTile(g, p) == Ok(Some(g[p.y][p.x]))
  {
  }

  /** A beam section: a tile position and the direction the beam has there. */
  datatype Section = Section(pos: Vec2, dir: Dir)

  datatype Beam = Beam(positions: seq<Section>)

  /** `Beam.position` and `Beam.direction`: the last section. */
  function Last(b: Beam): Section
    requires |b.positions| > 0
  {
    b.positions[|b.positions| - 1]
  }

  /** The sections on tile `q` for the directions `ds`. */
  function Along(q: Vec2, ds: seq<Dir>): (r: seq<Section>)
    ensures |r| == |ds| && forall k :: 0 <= k < |r| ==> r[k] == Section(q, ds[k])
  {
    seq(|ds|, k requires 0 <= k < |ds| => Section(q, ds[k]))
  }

  /** The tile after section `s`: `self.position + self.direction`. */
  function Ahead(s: Section): Vec2
  {
    match s.dir
    case Up => Vec2(s.pos.x, s.pos.y - 1)
    case Down => Vec2(s.pos.x, s.pos.y + 1)
    case Left => Vec2(s.pos.x - 1, s.pos.y)
    case Right => Vec2(s.pos.x + 1, s.pos.y)
  }

  /** The tile ahead is one step of the section's direction away. */
  lemma AheadStep(s: Section)
    ensures Ahead(s) == s.pos.Add(Delta(s.dir))
    ensures Adjacent(s.pos, Ahead(s))
  {
  }

  /** Where a beam whose last section is `s` can go next, before the already recorded directions are dropped. */
  function Step(g: Grid, s: Section): (r: seq<Section>)
    requires Rectangular(g)
    ensures forall k :: 0 <= k < |r| ==> r[k].pos == Ahead(s) && InMap(g, r[k].pos)
  {
    var q := Ahead(s);
    if InMap(g, q) then Along(q, Deflect(g[q.y][q.x], s.dir)) else []
  }

  /** The beam moves one tile in its direction, and only stops at the edge of the map. */
  lemma StepMoves(g: Grid, s: Section)
    requires Rectangular(g)
    ensures Step(g, s) == [] <==> !InMap(g, Ahead(s))
    ensures forall u :: u in Step(g, s) ==> Adjacent(s.pos, u.pos)
  {
    AheadStep(s);
    var q := Ahead(s);
    if InMap(g, q) {
      assert Step(g, s)[0] == Section(q, Deflect(g[q.y][q.x], s.dir)[0]);
    }
  }

  /** `beam_directions` of every tile, row by row. */
  type Marks = seq<seq<seq<Dir>>>

  predicate Fits(m: Marks, g: Grid)
  {
    |m| == |g| && forall y :: 0 <= y < |m| ==> |m[y]| == |g[y]|
  }

  predicate Blank(m: Marks)
  {
    forall y, x :: 0 <= y < |m| && 0 <= x < |m[y]| ==> m[y][x] == []
  }

  /** A beam has entered the tile at `s.pos` in direction `s.dir`. */
  predicate Has(m: Marks, s: Section)
  {
    0 <= s.pos.y < |m| && 0 <= s.pos.x < |m[s.pos.y]| && s.dir in m[s.pos.y][s.pos.x]
  }

  /** All recorded sections. */
  ghost function Recorded(m: Marks): set<Section>
  {
    set y, x, d | 0 <= y < |m| && 0 <= x < |m[y]| && d in m[y][x] :: Section(Vec2(x, y), d)
  }

  lemma RecordedHas(m: Marks)
    ensures forall s :: s in Recorded(m) <==> Has(m, s)
  {
    forall s | Has(m, s)
      ensures s in Recorded(m)
    {
      assert s == Section(Vec2(s.pos.x, s.pos.y), s.dir);
    }
  }

  function Elems(ss: seq<Section>): set<Section>
  {
    set s | s in ss
  }

  /** The sections among `ss` not yet recorded, in order: the filter at the end of `nextSections`. */
  function Unseen(m: Marks, ss: seq<Section>): (r: seq<Section>)
    ensures forall s :: s in r <==> s in ss && !Has(m, s)
    ensures |r| <= |ss|
  {
    if ss == [] then []
    else Unseen(m, ss[..|ss| - 1]) + (if Has(m, ss[|ss| - 1]) then [] else [ss[|ss| - 1]])
  }

  /** `nextSections`: the next sections of a beam ending in `s` that no beam has taken yet. */
  function Fresh(g: Grid, m: Marks, s: Section): (r: seq<Section>)
    requires Rectangular(g)
    ensures forall u :: u in r <==> u in Step(g, s) && !Has(m, u)
    ensures forall k :: 0 <= k < |r| ==> InMap(g, r[k].pos)
  {
    var r := Unseen(m, Step(g, s));
    assert forall k :: 0 <= k < |r| ==> r[k] in Step(g, s);
    r
  }

  /** `next_tile.beam_directions.append(...)`. */
  function Mark(m: Marks, s: Section): (r: Marks)
    requires 0 <= s.pos.y < |m| && 0 <= s.pos.x < |m[s.pos.y]|
    ensures |r| == |m| && forall y :: 0 <= y < |m| ==> |r[y]| == |m[y]|
  {
    m[s.pos.y := m[s.pos.y][s.pos.x := m[s.pos.y][s.pos.x] + [s.dir]]]
  }

  /** Marking records exactly one more section. */
  lemma MarkRecords(m: Marks, s: Section)
    requires 0 <= s.pos.y < |m| && 0 <= s.pos.x < |m[s.pos.y]|
    ensures Recorded(Mark(m, s)) == Recorded(m) + {s}
  {
    RecordedHas(m);
    RecordedHas(Mark(m, s));
  }

  /** Every section of `ss` is on a tile of `m`. */
  predicate Inside(m: Marks, ss: seq<Section>)
  {
    forall k :: 0 <= k < |ss| ==> 0 <= ss[k].pos.y < |m| && 0 <= ss[k].pos.x < |m[ss[k].pos.y]|
  }

  lemma FreshInside(g: Grid, m: Marks, s: Section)
    requires Rectangular(g) && Fits(m, g)
    ensures Inside(m, Fresh(g, m, s))
  {
  }

  /** Marking the sections `ss` one after the other. */
  function MarkAll(m: Marks, ss: seq<Section>): (r: Marks)
    requires Inside(m, ss)
    ensures |r| == |m| && forall y :: 0 <= y < |m| ==> |r[y]| == |m[y]|
  {
    if ss == [] then m else Mark(MarkAll(m, ss[..|ss| - 1]), ss[|ss| - 1])
  }

  lemma {:induction false} MarkAllRecords(m: Marks, ss: seq<Section>)
    requires Inside(m, ss)
    ensures Recorded(MarkAll(m, ss)) == Recorded(m) + Elems(ss)
    decreases |ss|
  {
    if ss != [] {
      var n := |ss| - 1;
      MarkAllRecords(m, ss[..n]);
      MarkRecords(MarkAll(m, ss[..n]), ss[n]);
      assert ss == ss[..n] + [ss[n]];
    }
  }

  /** `[Beam(positions + [s]) for s in ss]`. */
  function Extend(b: Beam, ss: seq<Section>): (r: seq<Beam>)
    ensures |r| == |ss|
  {
    if ss == [] then [] else Extend(b, ss[..|ss| - 1]) + [Beam(b.positions + [ss[|ss| - 1]])]
  }

  /** `grow`: the beam itself when it has nowhere new to go, else one copy per new section. */
  function Grown(b: Beam, fs: seq<Section>): seq<Beam>
  {
    if fs == [] then [b] else Extend(b, fs)
  }

  predicate Started(bs: seq<Beam>)
  {
    forall k :: 0 <= k < |bs| ==> |bs[k].positions| > 0
  }

  lemma {:induction false} ExtendStarted(b: Beam, ss: seq<Section>)
    ensures Started(Extend(b, ss))
    ensures forall k :: 0 <= k < |ss| ==> Extend(b, ss)[k] == Beam(b.positions + [ss[k]])
    decreases |ss|
  {
    if ss != [] {
      ExtendStarted(b, ss[..|ss| - 1]);
    }
  }

  lemma GrownStarted(a: seq<Beam>, b: Beam, fs: seq<Section>)
    requires Started(a) && |b.positions| > 0
    ensures Started(a + Grown(b, fs))
  {
    ExtendStarted(b, fs);
  }

  /**
   * One round of `createBeams`' loop over the beams `bs`: every beam grows on the marks the
   * beams before it left. The result is the new marks, the next beams and whether `changed`
   * was set (`len(new_beams) > 1 or new_beams[0] != beam`).
   */
  function Sweep(g: Grid, m: Marks, bs: seq<Beam>): (r: (Marks, seq<Beam>, bool))
    requires Rectangular(g) && Fits(m, g) && Started(bs)
    ensures Fits(r.0, g) && Started(r.1)
    decreases |bs|
  {
    if bs == [] then (m, [], false)
    else
      var p := Sweep(g, m, bs[..|bs| - 1]);
      var b := bs[|bs| - 1];
      var fs := Fresh(g, p.0, Last(b));
      FreshInside(g, p.0, Last(b));
      GrownStarted(p.1, b, fs);
      (MarkAll(p.0, fs), p.1 + Grown(b, fs), p.2 || fs != [])
  }

  /** The sections the beams pass through. */
  ghost function OnBeams(bs: seq<Beam>): set<Section>
  {
    if bs == [] then {} else OnBeams(bs[..|bs| - 1]) + Elems(bs[|bs| - 1].positions)
  }

  lemma {:induction false} OnBeamsAppend(a: seq<Beam>, b: seq<Beam>)
    ensures OnBeams(a + b) == OnBeams(a) + OnBeams(b)
    decreases |b|
  {
    if b == [] {
      assert a + b == a;
    } else {
      var n := |b| - 1;
      assert (a + b)[..|a + b| - 1] == a + b[..n];
      OnBeamsAppend(a, b[..n]);
    }
  }

  lemma {:induction false} OnBeamsExtend(b: Beam, ss: seq<Section>)
    requires ss != []
    ensures OnBeams(Extend(b, ss)) == Elems(b.positions) + Elems(ss)
    decreases |ss|
  {
    var n := |ss| - 1;
    var last := Beam(b.positions + [ss[n]]);
    assert Extend(b, ss)[..n] == Extend(b, ss[..n]);
    assert Elems(last.positions) == Elems(b.positions) + {ss[n]};
    if n > 0 {
      OnBeamsExtend(b, ss[..n]);
    }
    assert ss == ss[..n] + [ss[n]];
  }

  /** Where a section is on the beams, some beam takes it at some point. */
  lemma {:induction false} OnBeamsMember(bs: seq<Beam>, s: Section) returns (j: nat, k: nat)
    requires s in OnBeams(bs)
    ensures j < |bs| && k < |bs[j].positions| && bs[j].positions[k] == s
    decreases |bs|
  {
    var n := |bs| - 1;
    if s in bs[n].positions {
      j := n;
      k :| 0 <= k < |bs[n].positions| && bs[n].positions[k] == s;
    } else {
      j, k := OnBeamsMember(bs[..n], s);
    }
  }

  /** The start of every beam: the top-left tile, heading right. */
  function Start(): Section { Section(Vec2(0, 0), Right) }

  /** A path of the light: it begins at the start and each section follows from the one before. */
  ghost predicate IsPath(g: Grid, ps: seq<Section>)
    requires Rectangular(g)
  {
    |ps| > 0 && ps[0] == Start() && forall k :: 0 <= k < |ps| - 1 ==> ps[k + 1] in Step(g, ps[k])
  }

  ghost predicate Paths(g: Grid, bs: seq<Beam>)
    requires Rectangular(g)
  {
    forall k :: 0 <= k < |bs| ==> IsPath(g, bs[k].positions)
  }

  /** The light can get to section `s`. */
  ghost predicate Reaches(g: Grid, s: Section)
    requires Rectangular(g)
  {
    exists ps :: IsPath(g, ps) && ps[|ps| - 1] == s
  }

  /** Every section that follows `s` is recorded. */
  ghost predicate Closed(g: Grid, m: Marks, s: Section)
    requires Rectangular(g)
  {
    forall u :: u in Step(g, s) ==> u in Recorded(m)
  }

  ghost function Lasts(bs: seq<Beam>): set<Section>
  {
    set k | 0 <= k < |bs| && |bs[k].positions| > 0 :: Last(bs[k])
  }

  /** A recorded section either ends a beam, or all that follows it is recorded too. */
  ghost predicate Frontier(g: Grid, m: Marks, bs: seq<Beam>)
    requires Rectangular(g)
  {
    forall s :: s in Recorded(m) ==> s in Lasts(bs) || Closed(g, m, s)
  }

  /** The last beam of a round, spelled out: the round over the others, then that beam grows. */
  lemma SweepLast(g: Grid, m: Marks, bs: seq<Beam>) returns (p: (Marks, seq<Beam>, bool), fs: seq<Section>)
    requires Rectangular(g) && Fits(m, g) && Started(bs) && bs != []
    ensures p == Sweep(g, m, bs[..|bs| - 1]) && Fits(p.0, g) && Started(p.1)
    ensures fs == Fresh(g, p.0, Last(bs[|bs| - 1]))
    ensures Sweep(g, m, bs) == (MarkAll(p.0, fs), p.1 + Grown(bs[|bs| - 1], fs), p.2 || fs != [])
    ensures Recorded(Sweep(g, m, bs).0) == Recorded(p.0) + Elems(fs)
    ensures forall s :: s in fs ==> s !in Recorded(p.0)
  {
    p := Sweep(g, m, bs[..|bs| - 1]);
    fs := Fresh(g, p.0, Last(bs[|bs| - 1]));
    MarkAllRecords(p.0, fs);
    RecordedHas(p.0);
  }

  /** Growing a beam closes its last section. */
  lemma FreshCloses(g: Grid, m: Marks, s: Section)
    requires Rectangular(g) && Fits(m, g)
    ensures Closed(g, MarkAll(m, Fresh(g, m, s)), s)
  {
    MarkAllRecords(m, Fresh(g, m, s));
    RecordedHas(m);
  }

  lemma ClosedGrows(g: Grid, m: Marks, m': Marks, s: Section)
    requires Rectangular(g) && Recorded(m) <= Recorded(m') && Closed(g, m, s)
    ensures Closed(g, m', s)
  {
  }

  lemma GrownCovers(b: Beam, fs: seq<Section>)
    ensures OnBeams(Grown(b, fs)) == Elems(b.positions) + Elems(fs)
  {
    if fs != [] {
      OnBeamsExtend(b, fs);
    } else {
      assert OnBeams([b]) == OnBeams([b][..0]) + Elems(b.positions);
    }
  }

  lemma LastsAppend(a: seq<Beam>, c: seq<Beam>)
    requires Started(a) && Started(c)
    ensures Lasts(a) + Lasts(c) <= Lasts(a + c)
  {
    forall s | s in Lasts(a)
      ensures s in Lasts(a + c)
    {
      var k :| 0 <= k < |a| && |a[k].positions| > 0 && Last(a[k]) == s;
      assert (a + c)[k] == a[k];
    }
    forall s | s in Lasts(c)
      ensures s in Lasts(a + c)
    {
      var k :| 0 <= k < |c| && |c[k].positions| > 0 && Last(c[k]) == s;
      assert (a + c)[|a| + k] == c[k];
    }
  }

  lemma GrownLasts(b: Beam, fs: seq<Section>)
    ensures Elems(fs) <= Lasts(Grown(b, fs))
  {
    ExtendStarted(b, fs);
    forall s | s in fs
      ensures s in Lasts(Grown(b, fs))
    {
      var k :| 0 <= k < |fs| && fs[k] == s;
      assert Last(Grown(b, fs)[k]) == s;
    }
  }

  /** A round never forgets a recorded section. */
  lemma {:induction false} SweepKeeps(g: Grid, m: Marks, bs: seq<Beam>)
    requires Rectangular(g) && Fits(m, g) && Started(bs)
    ensures Recorded(m) <= Recorded(Sweep(g, m, bs).0)
    decreases |bs|
  {
    if bs != [] {
      var p, fs := SweepLast(g, m, bs);
      SweepKeeps(g, m, bs[..|bs| - 1]);
    }
  }

  lemma PathsAppend(g: Grid, a: seq<Beam>, c: seq<Beam>)
    requires Rectangular(g) && Paths(g, a) && Paths(g, c)
    ensures Paths(g, a + c)
  {
    forall k | 0 <= k < |a + c|
      ensures IsPath(g, (a + c)[k].positions)
    {
      if k >= |a| {
        assert (a + c)[k] == c[k - |a|];
      }
    }
  }

  /** A path grown by sections that follow its end is still a path. */
  lemma PathsGrown(g: Grid, b: Beam, fs: seq<Section>)
    requires Rectangular(g) && IsPath(g, b.positions)
    requires forall f :: f in fs ==> f in Step(g, Last(b))
    ensures Paths(g, Grown(b, fs))
  {
    ExtendStarted(b, fs);
    forall k | 0 <= k < |fs|
      ensures IsPath(g, b.positions + [fs[k]])
    {
      var ps := b.positions + [fs[k]];
      assert ps[|ps| - 1] == fs[k] && ps[|ps| - 2] == Last(b);
    }
  }

  /** A round extends beams only along `Step`: paths stay paths. */
  lemma {:induction false} SweepPaths(g: Grid, m: Marks, bs: seq<Beam>)
    requires Rectangular(g) && Fits(m, g) && Started(bs) && Paths(g, bs)
    ensures Paths(g, Sweep(g, m, bs).1)
    decreases |bs|
  {
    if bs != [] {
      var n := |bs| - 1;
      var p, fs := SweepLast(g, m, bs);
      assert Paths(g, bs[..n]) && IsPath(g, bs[n].positions);
      SweepPaths(g, m, bs[..n]);
      PathsGrown(g, bs[n], fs);
      PathsAppend(g, p.1, Grown(bs[n], fs));
    }
  }

  /** The beams after a round pass through the sections before, and through the sections the round recorded. */
  lemma {:induction false} SweepCovers(g: Grid, m: Marks, bs: seq<Beam>)
    requires Rectangular(g) && Fits(m, g) && Started(bs)
    ensures OnBeams(Sweep(g, m, bs).1) == OnBeams(bs) + (Recorded(Sweep(g, m, bs).0) - Recorded(m))
    decreases |bs|
  {
    if bs != [] {
      var n := |bs| - 1;
      var p, fs := SweepLast(g, m, bs);
      SweepCovers(g, m, bs[..n]);
      SweepKeeps(g, m, bs[..n]);
      GrownCovers(bs[n], fs);
      OnBeamsAppend(p.1, Grown(bs[n], fs));
      CoverStep(Recorded(m), Recorded(p.0), Elems(fs), OnBeams(bs[..n]), OnBeams(p.1), Elems(bs[n].positions));
    }
  }

  /** Everything that follows the end of each beam is recorded. */
  ghost predicate AllClosed(g: Grid, m: Marks, bs: seq<Beam>)
    requires Rectangular(g) && Started(bs)
  {
    forall j :: 0 <= j < |bs| ==> Closed(g, m, Last(bs[j]))
  }

  lemma AllClosedGrows(g: Grid, m: Marks, m': Marks, bs: seq<Beam>)
    requires Rectangular(g) && Started(bs) && Recorded(m) <= Recorded(m') && AllClosed(g, m, bs)
    ensures AllClosed(g, m', bs)
  {
    forall j | 0 <= j < |bs|
      ensures Closed(g, m', Last(bs[j]))
    {
      ClosedGrows(g, m, m', Last(bs[j]));
    }
  }

  lemma AllClosedSnoc(g: Grid, m: Marks, bs: seq<Beam>)
    requires Rectangular(g) && Started(bs) && bs != []
    requires AllClosed(g, m, bs[..|bs| - 1]) && Closed(g, m, Last(bs[|bs| - 1]))
    ensures AllClosed(g, m, bs)
  {
    forall j | 0 <= j < |bs| - 1
      ensures Closed(g, m, Last(bs[j]))
    {
      assert bs[j] == bs[..|bs| - 1][j];
    }
  }

  /** After a round, everything that follows the last section of an old beam is recorded. */
  lemma {:induction false} SweepCloses(g: Grid, m: Marks, bs: seq<Beam>)
    requires Rectangular(g) && Fits(m, g) && Started(bs)
    ensures AllClosed(g, Sweep(g, m, bs).0, bs)
    decreases |bs|
  {
    if bs != [] {
      var n := |bs| - 1;
      var p, fs := SweepLast(g, m, bs);
      SweepCloses(g, m, bs[..n]);
      var m' := Sweep(g, m, bs).0;
      AllClosedGrows(g, p.0, m', bs[..n]);
      FreshCloses(g, p.0, Last(bs[n]));
      AllClosedSnoc(g, m', bs);
    }
  }

  /** What a round records is the end of one of the next beams. */
  lemma {:induction false} SweepLasts(g: Grid, m: Marks, bs: seq<Beam>)
    requires Rectangular(g) && Fits(m, g) && Started(bs)
    ensures Recorded(Sweep(g, m, bs).0) - Recorded(m) <= Lasts(Sweep(g, m, bs).1)
    decreases |bs|
  {
    if bs != [] {
      var n := |bs| - 1;
      var p, fs := SweepLast(g, m, bs);
      SweepLasts(g, m, bs[..n]);
      ExtendStarted(bs[n], fs);
      LastsAppend(p.1, Grown(bs[n], fs));
      GrownLasts(bs[n], fs);
    }
  }

  /** The set algebra behind `SweepCovers`' step. */
  lemma CoverStep(rm: set<Section>, rp: set<Section>, added: set<Section>,
                  onPrefix: set<Section>, onP: set<Section>, beam: set<Section>)
    requires onP == onPrefix + (rp - rm) && rm <= rp && added !! rp
    ensures onP + (beam + added) == (onPrefix + beam) + ((rp + added) - rm)
  {
  }

  /** A round that sets no `changed` leaves the marks and the beams as they were; one that sets it records something new. */
  lemma {:induction false} SweepUnchanged(g: Grid, m: Marks, bs: seq<Beam>)
    requires Rectangular(g) && Fits(m, g) && Started(bs)
    ensures !Sweep(g, m, bs).2 ==> Sweep(g, m, bs).0 == m && Sweep(g, m, bs).1 == bs
    ensures Sweep(g, m, bs).2 ==> Recorded(m) < Recorded(Sweep(g, m, bs).0)
    decreases |bs|
  {
    if bs != [] {
      var n := |bs| - 1;
      var p, fs := SweepLast(g, m, bs);
      SweepUnchanged(g, m, bs[..n]);
      SweepKeeps(g, m, bs[..n]);
      if fs == [] {
        assert Sweep(g, m, bs) == (p.0, p.1 + [bs[n]], p.2);
        SnocLast(bs);
      } else {
        assert fs[0] in Elems(fs);
        StrictlyMore(Recorded(m), Recorded(p.0), Elems(fs), fs[0]);
      }
    }
  }

  lemma StrictlyMore(rm: set<Section>, rp: set<Section>, added: set<Section>, s: Section)
    requires rm <= rp && s in added && s !in rp
    ensures rm < rp + added
  {
  }

  /** A round keeps the frontier: new sections end the new beams, old beam ends are now closed. */
  lemma SweepFrontier(g: Grid, m: Marks, bs: seq<Beam>)
    requires Rectangular(g) && Fits(m, g) && Started(bs) && Frontier(g, m, bs)
    ensures Frontier(g, Sweep(g, m, bs).0, Sweep(g, m, bs).1)
  {
    var p := Sweep(g, m, bs);
    SweepKeeps(g, m, bs);
    SweepCloses(g, m, bs);
    SweepLasts(g, m, bs);
    forall s | s in Recorded(p.0)
      ensures s in Lasts(p.1) || Closed(g, p.0, s)
    {
      if s in Recorded(m) && s !in Lasts(p.1) {
        if s in Lasts(bs) {
          var k :| 0 <= k < |bs| && |bs[k].positions| > 0 && Last(bs[k]) == s;
        } else {
          ClosedGrows(g, m, p.0, s);
        }
      }
    }
  }
  /** Once everything recorded is closed, the recorded sections are exactly those the light can get to. */
  lemma RecordedReach(g: Grid, m: Marks, bs: seq<Beam>)
    requires Rectangular(g) && Paths(g, bs) && Recorded(m) == OnBeams(bs) && Start() in Recorded(m)
    requires forall s :: s in Recorded(m) ==> Closed(g, m, s)
    ensures forall s :: s in Recorded(m) <==> Reaches(g, s)
  {
    forall s | s in Recorded(m)
      ensures Reaches(g, s)
    {
      var j, k := OnBeamsMember(bs, s);
      var ps := bs[j].positions[..k + 1];
      assert IsPath(g, bs[j].positions);
      assert IsPath(g, ps) && ps[|ps| - 1] == s;
    }
    forall s | Reaches(g, s)
      ensures s in Recorded(m)
    {
      var ps :| IsPath(g, ps) && ps[|ps| - 1] == s;
      PathRecorded(g, m, ps, |ps| - 1);
    }
  }

  lemma {:induction false} PathRecorded(g: Grid, m: Marks, ps: seq<Section>, i: nat)
    requires Rectangular(g) && IsPath(g, ps) && i < |ps| && Start() in Recorded(m)
    requires forall s :: s in Recorded(m) ==> Closed(g, m, s)
    ensures ps[i] in Recorded(m)
  {
    if i > 0 {
      PathRecorded(g, m, ps, i - 1);
      assert ps[i] in Step(g, ps[i - 1]);
    }
  }

  function AllDirs(): seq<Dir> { [Up, Down, Left, Right] }

  lemma AllDirsComplete(d: Dir)
    ensures d in AllDirs()
  {
    match d
    case Up => assert AllDirs()[0] == d;
    case Down => assert AllDirs()[1] == d;
    case Left => assert AllDirs()[2] == d;
    case Right => assert AllDirs()[3] == d;
  }

  /** All sections of the map, for the termination of `createBeams`. */
  ghost function Cells(g: Grid): set<Section>
  {
    set y, x, d | 0 <= y < |g| && 0 <= x < |g[y]| && d in AllDirs() :: Section(Vec2(x, y), d)
  }

  lemma RecordedInCells(g: Grid, m: Marks)
    requires Fits(m, g)
    ensures Recorded(m) <= Cells(g)
  {
    forall s | s in Recorded(m)
      ensures s in Cells(g)
    {
      RecordedHas(m);
      AllDirsComplete(s.dir);
      assert s == Section(Vec2(s.pos.x, s.pos.y), s.dir);
    }
  }

  /** The tiles some beam entered. */
  ghost function Energized(m: Marks): set<Vec2>
  {
    set y, x | 0 <= y < |m| && 0 <= x < |m[y]| && |m[y][x]| > 0 :: Vec2(x, y)
  }

  /** The energized tiles in the rows above `y` and left of `x` in row `y`. */
  ghost function EnergizedBefore(m: Marks, y: int, x: int): set<Vec2>
  {
    set yy, xx | 0 <= yy < |m| && 0 <= xx < |m[yy]| && |m[yy][xx]| > 0 && (yy < y || (yy == y && xx < x)) :: Vec2(xx, yy)
  }

  lemma EnergizedBeforeStep(m: Marks, y: nat, x: nat)
    requires y < |m| && x < |m[y]|
    ensures EnergizedBefore(m, y, x + 1) == EnergizedBefore(m, y, x) + (if |m[y][x]| > 0 then {Vec2(x, y)} else {})
    ensures Vec2(x, y) !in EnergizedBefore(m, y, x)
  {
  }

  lemma EnergizedBeforeRow(m: Marks, y: nat)
    requires y < |m|
    ensures EnergizedBefore(m, y, |m[y]|) == EnergizedBefore(m, y + 1, 0)
  {
  }

  lemma EnergizedBeforeAll(m: Marks)
    ensures EnergizedBefore(m, |m|, 0) == Energized(m)
  {
  }

  /** A tile is energized exactly when a beam entered it in some direction. */
  lemma EnergizedMeans(m: Marks, p: Vec2)
    ensures p in Energized(m) <==> exists d :: Has(m, Section(p, d))
  {
    if p in Energized(m) {
      assert Has(m, Section(p, m[p.y][p.x][0]));
    }
  }

  /** With the marks `createBeams` leaves, the energized tiles are those the light can get to in some direction. */
  lemma EnergizedReached(g: Grid, m: Marks, p: Vec2)
    requires Rectangular(g) && forall s :: Has(m, s) <==> Reaches(g, s)
    ensures p in Energized(m) <==> exists d :: Reaches(g, Section(p, d))
  {
    EnergizedMeans(m, p);
  }

  /** `readMap`'s match on one character. */
  function TileOf(c: char): (r: Result<TileType>)
    ensures r.Err? ==> r.error == "ValueError"
  {
    match c
    case '.' => Ok(Empty)
    case '|' => Ok(Vertical)
    case '-' => Ok(Horizontal)
    case '/' => Ok(RightLeft)
    case '\\' => Ok(LeftRight)
    case _ => Err("ValueError")
  }

  /** The character of each tile type; `__str__` writes the same for a tile that is not energized. */
  function TileChar(t: TileType): char
  {
    match t
    case Empty => '.'
    case Vertical => '|'
    case Horizontal => '-'
    case LeftRight => '\\'
    case RightLeft => '/'
  }

  /** Reading a tile's character gives the tile back, and a character that reads is that tile's. */
  lemma TileCharRoundTrip(t: TileType, c: char)
    ensures TileOf(TileChar(t)) == Ok(t)
    ensures TileOf(c).Ok? ==> TileChar(TileOf(c).value) == c
  {
  }

  function ReadRow(line: string): Result<seq<TileType>>
  {
    MapAll(line, TileOf)
  }

  /** `readMap`: one row per line, one tile per character, or ValueError on an unknown character. */
  function ReadTiles(txt: string): (r: Result<Grid>)
    ensures r.Ok? <==> forall y, x :: 0 <= y < |SplitLines(txt)| && 0 <= x < |SplitLines(txt)[y]| ==> TileOf(SplitLines(txt)[y][x]).Ok?
    ensures r.Err? ==> r.error == "ValueError"
    ensures r.Ok? ==> |r.value| == |SplitLines(txt)| && forall y :: 0 <= y < |r.value| ==>
      |r.value[y]| == |SplitLines(txt)[y]| && forall x :: 0 <= x < |r.value[y]| ==> TileChar(r.value[y][x]) == SplitLines(txt)[y][x]
  {
    var lines := SplitLines(txt);
    var r := MapAll(lines, ReadRow);
    if r.Ok? then
      assert forall y, x :: 0 <= y < |lines| && 0 <= x < |lines[y]| ==> TileOf(lines[y][x]) == Ok(r.value[y][x]);
      r
    else
      var y :| 0 <= y < |lines| && ReadRow(lines[y]) == Err(r.error);
      var x :| 0 <= x < |lines[y]| && TileOf(lines[y][x]) == Err(r.error);
      r
  }

  /** The map with the beams' marks on its tiles. */
  class BeamMap {
    const tiles: Grid
    var marks: Marks

    ghost predicate Valid()
      reads this
    {
      Fits(marks, tiles)
    }

    /** `readMap`'s `Map(tiles)`: no tile has a beam yet. */
    constructor (tiles: Grid)
      ensures this.tiles == tiles && Valid() && Blank(marks)
    {
      this.tiles := tiles;
      marks := seq(|tiles|, y requires 0 <= y < |tiles| => seq(|tiles[y]|, x => []));
    }

    /** `Beam.nextSections`. */
    method NextSections(b: Beam) returns (res: seq<Section>)
      requires Valid() && Rectangular(tiles) && |b.positions| > 0
      ensures res == Fresh(tiles, marks, Last(b))
    {
      var s := Last(b);
      var q := Ahead(s);
      GetTileRectangular(tiles, q);
      var tile := GetTile(tiles, q).value;
      if tile.None? {
        return [];
      }
      var next := Along(q, Deflect(tile.value, s.dir));
      assert next == Step(tiles, s);
      res := [];
      for k := 0 to |next|
        invariant res == Unseen(marks, next[..k])
      {
        assert next[..k + 1][..k] == next[..k];
        if next[k].dir !in marks[q.y][q.x] {
          res := res + [next[k]];
        }
      }
      assert next[..|next|] == next;
    }

    /** `Beam.grow`: records the new sections and returns the grown beams. */
    method Grow(b: Beam) returns (res: seq<Beam>)
      requires Valid() && Rectangular(tiles) && |b.positions| > 0
      modifies this
      ensures Valid()
      ensures marks == MarkAll(old(marks), Fresh(tiles, old(marks), Last(b)))
      ensures res == Grown(b, Fresh(tiles, old(marks), Last(b)))
    {
      var fs := NextSections(b);
      if |fs| == 0 {
        res := [Beam(b.positions)];
      } else {
        res := [];
        ghost var m0 := marks;
        for k := 0 to |fs|
          invariant Valid()
          invariant marks == MarkAll(m0, fs[..k])
          invariant res == Extend(b, fs[..k])
        {
          assert fs[..k + 1][..k] == fs[..k];
          marks := Mark(marks, fs[k]);
          res := res + [Beam(b.positions + [fs[k]])];
        }
        assert fs[..|fs|] == fs;
      }
    }

    /** One pass of `createBeams`' `while` loop over the beams. */
    method Round(beams: seq<Beam>) returns (next: seq<Beam>, changed: bool)
      requires Valid() && Rectangular(tiles) && Started(beams)
      modifies this
      ensures Valid()
      ensures (marks, next, changed) == Sweep(tiles, old(marks), beams)
    {
      next := [];
      changed := false;
      ghost var m0 := marks;
      for i := 0 to |beams|
        invariant Valid()
        invariant (marks, next, changed) == Sweep(tiles, m0, beams[..i])
      {
        assert beams[..i + 1][..i] == beams[..i];
        ghost var fs := Fresh(tiles, marks, Last(beams[i]));
        var grown := Grow(beams[i]);
        ExtendStarted(beams[i], fs);
        if |grown| > 1 || grown[0] != beams[i] {
          changed := true;
        }
        if fs != [] {
          assert |grown[0].positions| > |beams[i].positions|;
        }
        next := next + grown;
      }
      assert beams[..|beams|] == beams;
    }

    /**
     * `createBeams`: records the top-left tile heading right, then grows the beams round after
     * round until a round changes nothing. The beams are paths of the light, they pass through
     * exactly the recorded sections, and the recorded sections are exactly those the light can
     * get to. `getTile(Vec2.zero())` is None on a map with empty rows, and the source then
     * fails with AttributeError.
     */
    method CreateBeams() returns (r: Result<seq<Beam>>)
      requires Valid() && Rectangular(tiles) && Blank(marks)
      modifies this
      ensures Valid()
      ensures r.Err? <==> |tiles[0]| == 0
      ensures r.Err? ==> r.error == "AttributeError" && marks == old(marks)
      ensures r.Ok? ==> Paths(tiles, r.value) && OnBeams(r.value) == Recorded(marks)
      ensures r.Ok? ==> forall s :: Has(marks, s) <==> Reaches(tiles, s)
    {
      GetTileRectangular(tiles, Vec2(0, 0));
      if GetTile(tiles, Vec2(0, 0)).value.None? {
        return Err("AttributeError");
      }
      var beams := [Beam([Start()])];
      RecordedHas(marks);
      MarkRecords(marks, Start());
      marks := Mark(marks, Start());
      assert OnBeams(beams) == OnBeams(beams[..0]) + {Start()};
      assert Last(beams[0]) == Start();
      while true
        invariant Valid() && Started(beams) && Paths(tiles, beams)
        invariant Recorded(marks) == OnBeams(beams) && Start() in Recorded(marks)
        invariant Frontier(tiles, marks, beams)
        decreases Cells(tiles) - Recorded(marks)
      {
        ghost var m0 := marks;
        var next, changed := Round(beams);
        SweepKeeps(tiles, m0, beams);
        SweepUnchanged(tiles, m0, beams);
        RecordedInCells(tiles, m0);
        RecordedInCells(tiles, marks);
        if !changed {
          SweepCloses(tiles, m0, beams);
          forall s | s in Recorded(marks)
            ensures Closed(tiles, marks, s)
          {
            if s in Lasts(beams) {
              var k :| 0 <= k < |beams| && |beams[k].positions| > 0 && Last(beams[k]) == s;
            }
          }
          RecordedReach(tiles, marks, beams);
          RecordedHas(marks);
          return Ok(beams);
        }
        SweepPaths(tiles, m0, beams);
        SweepCovers(tiles, m0, beams);
        SweepFrontier(tiles, m0, beams);
        beams := next;
      }
    }

    /** `countEnergized`: the number of tiles some beam entered. */
    method CountEnergized() returns (count: nat)
      requires Valid()
      ensures count == |Energized(marks)|
    {
      count := 0;
      for y := 0 to |marks|
        invariant count == |EnergizedBefore(marks, y, 0)|
      {
        for x := 0 to |marks[y]|
          invariant count == |EnergizedBefore(marks, y, x)|
        {
          EnergizedBeforeStep(marks, y, x);
          if |marks[y][x]| > 0 {
            count := count + 1;
          }
        }
        EnergizedBeforeRow(marks, y);
      }
      EnergizedBeforeAll(marks);
    }
  }

  function ExampleGrid(): Grid { [[Empty, Vertical]] }

  lemma PathPair(g: Grid, u: Section)
    requires Rectangular(g) && u in Step(g, Start())
    ensures IsPath(g, [Start()]) && IsPath(g, [Start(), u])
    ensures Reaches(g, Start()) && Reaches(g, u)
  {
    var ps := [Start(), u];
    assert ps[1] in Step(g, ps[0]);
  }

  /** On `.|` the light gets to the first tile heading right, and to the splitter heading up. */
  lemma ExampleReaches()
    ensures Rectangular(ExampleGrid())
    ensures Reaches(ExampleGrid(), Start()) && Reaches(ExampleGrid(), Section(Vec2(1, 0), Up))
  {
    var g := ExampleGrid();
    var q := Vec2(1, 0);
    assert Ahead(Start()) == q && g[q.y][q.x] == Vertical;
    assert Deflect(Vertical, Right) == [Up, Down];
    assert Step(g, Start()) == Along(q, [Up, Down]);
    assert Step(g, Start())[0] == Section(q, Up);
    PathPair(g, Section(q, Up));
  }

  /** Marks on the two tiles of `.|` energize both, and nothing else. */
  lemma ExampleEnergized(m: Marks)
    requires Fits(m, ExampleGrid()) && Has(m, Start()) && Has(m, Section(Vec2(1, 0), Up))
    ensures Energized(m) == {Vec2(0, 0), Vec2(1, 0)}
  {
    EnergizedMeans(m, Vec2(0, 0));
    EnergizedMeans(m, Vec2(1, 0));
  }

  /** A one-row map `.|`: the light crosses the empty tile and the splitter sends it off the map both ways. */
  method ExampleSplit() returns (count: nat)
    ensures count == 2
  {
    var m := new BeamMap(ExampleGrid());
    ExampleReaches();
    var r := m.CreateBeams();
    assert Has(m.marks, Start()) && Has(m.marks, Section(Vec2(1, 0), Up));
    ExampleEnergized(m.marks);
    count := m.CountEnergized();
  }
}
