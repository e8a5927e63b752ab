/**
 * Day 21 (21/steps.py): a garden map of plots, rocks and the start, the distances a gardener
 * needs from the start to each plot, and the set of plots reachable in an exact number of
 * steps. Tiles compare by position, so sets of tiles are modelled as sets of positions.
 */
module Day21Steps {
  import opened Wrappers
  import opened Strings
  import opened Geometry
  import opened Lists
  import Day17Path

  datatype TileType = Empty | Wall | Start

  /** A tile knows its own position; `readMap` puts each at its row and column. */
  datatype Tile = Tile(tileType: TileType, pos: Vec2)

  type Tiles = seq<seq<Tile>>

  /** `sys.maxsize` on a 64-bit build: the distance of a tile not reached. */
  const MaxSize: int := Day17Path.MaxSize

  /** The width `neighbors` reads off the first row. */
  function Width<T>(g: seq<seq<T>>): nat
  {
    if |g| == 0 then 0 else |g[0]|
  }

  predicate Rectangular<T>(g: seq<seq<T>>)
  {
    forall y :: 0 <= y < |g| ==> |g[y]| == Width(g)
  }

  /** Every tile sits at its own row and column, as `readMap` builds them. */
  predicate Positioned(g: Tiles)
  {
    forall y, x :: 0 <= y < |g| && 0 <= x < |g[y]| ==> g[y][x].pos == Vec2(x, y)
  }

  /** A tile the gardener may step on: on the map and not a rock. */
  predicate Open(g: Tiles, p: Vec2)
  {
    InBounds(g, p) && g[p.y][p.x].tileType != Wall
  }

  // ---------------------------------------------------------------- reading the map

  /** `TileType(char)`: the tile type written as that character, or ValueError. */
  function TypeOf(c: char): (r: Result<TileType>)
    ensures r.Ok? <==> c == '.' || c == '#' || c == 'S'
    ensures r.Err? ==> r.error == "ValueError"
  {
    match c
    case '.' => Ok(Empty)
    case '#' => Ok(Wall)
    case 'S' => Ok(Start)
    case _ => Err("ValueError")
  }

  /** The character of each tile type, the value of its enum member. */
  function TypeChar(t: TileType): char
  {
    match t
    case Empty => '.'
    case Wall => '#'
    case Start => 'S'
  }

  /** Reading a type's character gives the type back, and a character that reads is that type's. */
  lemma TypeCharRoundTrip(t: TileType, c: char)
    ensures TypeOf(TypeChar(t)) == Ok(t)
    ensures TypeOf(c).Ok? ==> TypeChar(TypeOf(c).value) == c
  {
  }

  /** The first `n` characters of one line read as the tiles of row `y`, or ValueError. */
  function ReadRow(line: string, y: nat, n: nat): (r: Result<seq<Tile>>)
    requires n <= |line|
    ensures r.Ok? <==> forall x :: 0 <= x < n ==> TypeOf(line[x]).Ok?
    ensures r.Err? ==> r.error == "ValueError"
    ensures r.Ok? ==> |r.value| == n
    ensures r.Ok? ==> forall x :: 0 <= x < n ==> r.value[x].pos == Vec2(x, y) && TypeChar(r.value[x].tileType) == line[x]
  {
    if n == 0 then Ok([])
    else
      match ReadRow(line, y, n - 1)
      case Err(e) => Err(e)
      case Ok(row) =>
        match TypeOf(line[n - 1])
        case Err(e) => Err(e)
        case Ok(t) => Ok(row + [Tile(t, Vec2(n - 1, y))])
  }

  /** Every character of every line names a tile type. */
  predicate Typed(lines: seq<string>)
  {
    forall y, x :: 0 <= y < |lines| && 0 <= x < |lines[y]| ==> TypeOf(lines[y][x]).Ok?
  }

  /** `g` has a tile for each character of `lines`, of the type that character names, at its own row and column. */
  predicate Drawn(lines: seq<string>, g: Tiles)
  {
    |g| == |lines|
    && (forall y :: 0 <= y < |g| ==> |g[y]| == |lines[y]|)
    && forall y, x :: 0 <= y < |g| && 0 <= x < |g[y]| ==> g[y][x].pos == Vec2(x, y) && TypeChar(g[y][x].tileType) == lines[y][x]
  }

  /** The first `n` lines read as rows, or ValueError. */
  function ReadRows(lines: seq<string>, n: nat): (r: Result<Tiles>)
    requires n <= |lines|
    ensures r.Ok? <==> Typed(lines[..n])
    ensures r.Err? ==> r.error == "ValueError"
    ensures r.Ok? ==> Drawn(lines[..n], r.value)
  {
    if n == 0 then Ok([])
    else
      assert lines[..n][..n - 1] == lines[..n - 1];
      match ReadRows(lines, n - 1)
      case Err(e) => Err(e)
      case Ok(rows) =>
        match ReadRow(lines[n - 1], n - 1, |lines[n - 1]|)
        case Err(e) => Err(e)
        case Ok(row) => Ok(rows + [row])
  }

  /** `readMap`: one row per line, one tile per character at its own position, or ValueError. */
  function ReadMap(txt: string): (r: Result<Tiles>)
    ensures r.Ok? <==> Typed(SplitLines(txt))
    ensures r.Err? ==> r.error == "ValueError"
    ensures r.Ok? ==> Drawn(SplitLines(txt), r.value) && Positioned(r.value)
  {
    var lines := SplitLines(txt);
    assert lines[..|lines|] == lines;
    ReadRows(lines, |lines|)
  }

  // ---------------------------------------------------------------- finding a tile

  /** `p` holds the first tile of type `t` in row-major order. */
  ghost predicate FirstOfType(g: Tiles, t: TileType, p: Vec2)
  {
    InBounds(g, p) && g[p.y][p.x].tileType == t
    && forall y, x :: 0 <= y < |g| && 0 <= x < |g[y]| && (y < p.y || (y == p.y && x < p.x)) ==> g[y][x].tileType != t
  }

  /** The first column from `x` on in `row` holding type `t`, or the row's length. */
  function FirstInRow(row: seq<Tile>, t: TileType, x: nat): (i: nat)
    requires x <= |row|
    ensures x <= i <= |row|
    ensures i < |row| ==> row[i].tileType == t
    ensures forall j :: x <= j < i ==> row[j].tileType != t
    decreases |row| - x
  {
    if x == |row| || row[x].tileType == t then x else FirstInRow(row, t, x + 1)
  }

  /** The scan of `findByType` from row `y` on. */
  function FindFrom(g: Tiles, t: TileType, y: nat): (r: Option<Vec2>)
    requires y <= |g|
    ensures r.None? <==> forall y', x :: y <= y' < |g| && 0 <= x < |g[y']| ==> g[y'][x].tileType != t
    ensures r.Some? ==> y <= r.value.y && InBounds(g, r.value) && g[r.value.y][r.value.x].tileType == t
    ensures r.Some? ==> forall y', x :: y <= y' < |g| && 0 <= x < |g[y']| && (y' < r.value.y || (y' == r.value.y && x < r.value.x)) ==> g[y'][x].tileType != t
    decreases |g| - y
  {
    if y == |g| then None
    else
      var i := FirstInRow(g[y], t, 0);
      if i < |g[y]| then Some(Vec2(i, y)) else FindFrom(g, t, y + 1)
  }

  /** `findByType`: the first tile of type `t` in row-major order, or ValueError when there is none. */
  function FindByType(g: Tiles, t: TileType): (r: Result<Tile>)
    ensures r.Err? <==> forall p :: InBounds(g, p) ==> g[p.y][p.x].tileType != t
    ensures r.Err? ==> r.error == "ValueError"
    ensures r.Ok? ==> exists p :: FirstOfType(g, t, p) && r.value == g[p.y][p.x]
    ensures r.Ok? && Positioned(g) ==> FirstOfType(g, t, r.value.pos)
  {
    match FindFrom(g, t, 0)
    case None =>
      assert forall p :: InBounds(g, p) ==> g[p.y][p.x].tileType != t;
      Err("ValueError")
    case Some(p) =>
      assert FirstOfType(g, t, p);
      Ok(g[p.y][p.x])
  }

  /** `findStart`. */
  function FindStart(g: Tiles): (r: Result<Tile>)
    ensures r.Ok? ==> r.value.tileType == Start
    ensures r.Err? <==> forall p :: InBounds(g, p) ==> g[p.y][p.x].tileType != Start
  {
    FindByType(g, Start)
  }

  // ---------------------------------------------------------------- neighbours

  /** The positions `neighbors` visits: the same clipped 3×3 window scan as day 17's map, in row-major order. */
  function NeighborPositions<T>(g: seq<seq<T>>, p: Vec2): (r: seq<Vec2>)
    requires Rectangular(g) && InBounds(g, p)
    ensures forall q :: q in r <==> InBounds(g, q) && Adjacent(p, q)
    ensures forall k :: 0 <= k < |r| ==> InBounds(g, r[k]) && Adjacent(p, r[k])
    ensures |r| <= 4
    ensures forall i, j :: 0 <= i < j < |r| ==> r[i] != r[j]
  {
    Day17Path.NeighborsWindow(Width(g), |g|, p);
    Day17Path.NeighborsAdjacent(Width(g), |g|, p);
    Day17Path.MapNeighbors(Width(g), |g|, p)
  }

  /** The window yields the neighbours above, left, right and below, in that order. */
  lemma NeighborOrder<T>(g: seq<seq<T>>, p: Vec2)
    requires Rectangular(g) && InBounds(g, p)
    ensures NeighborPositions(g, p) == Day17Path.Around4(Width(g), |g|, p)
  {
    Day17Path.NeighborsWindow(Width(g), |g|, p);
  }

  /** `neighbors`: the tiles at those positions. */
  function Neighbors<T>(g: seq<seq<T>>, p: Vec2): (r: seq<T>)
    requires Rectangular(g) && InBounds(g, p)
    ensures |r| == |NeighborPositions(g, p)|
    ensures forall k :: 0 <= k < |r| ==> InBounds(g, NeighborPositions(g, p)[k]) && r[k] == g[NeighborPositions(g, p)[k].y][NeighborPositions(g, p)[k].x]
  {
    var ps := NeighborPositions(g, p);
    seq(|ps|, k requires 0 <= k < |ps| => g[ps[k].y][ps[k].x])
  }

  /** On a map built by `readMap`, `neighbors` yields exactly the tiles one step away in one coordinate. */
  lemma NeighborTiles(g: Tiles, p: Vec2, t: Tile)
    requires Rectangular(g) && Positioned(g) && InBounds(g, p)
    ensures t in Neighbors(g, p) <==> InBounds(g, t.pos) && Adjacent(p, t.pos) && t == g[t.pos.y][t.pos.x]
  {
    var ps := NeighborPositions(g, p);
    if t in Neighbors(g, p) {
      var k :| 0 <= k < |ps| && Neighbors(g, p)[k] == t;
      assert ps[k] in ps;
    }
    if InBounds(g, t.pos) && Adjacent(p, t.pos) && t == g[t.pos.y][t.pos.x] {
      var k :| 0 <= k < |ps| && ps[k] == t.pos;
      assert Neighbors(g, p)[k] == t;
    }
  }

  function NotWall(t: Tile): bool
  {
    t.tileType != Wall
  }

  /** `nonWallNeighbors`: `neighbors` without the rocks, in the same order. */
  function NonWallNeighbors(g: Tiles, p: Vec2): (r: seq<Tile>)
    requires Rectangular(g) && InBounds(g, p)
    ensures forall t :: t in r <==> t in Neighbors(g, p) && t.tileType != Wall
  {
    forall t ensures t in Filter(Neighbors(g, p), NotWall) <==> t in Neighbors(g, p) && NotWall(t) {
      FilterMembers(Neighbors(g, p), NotWall, t);
    }
    Filter(Neighbors(g, p), NotWall)
  }

  /** On a map built by `readMap`, the non-rock neighbours are the open tiles one step away. */
  lemma NonWallNeighborTiles(g: Tiles, p: Vec2, t: Tile)
    requires Rectangular(g) && Positioned(g) && InBounds(g, p)
    ensures t in NonWallNeighbors(g, p) <==> Open(g, t.pos) && Adjacent(p, t.pos) && t == g[t.pos.y][t.pos.x]
  {
    NeighborTiles(g, p, t);
  }

  // ---------------------------------------------------------------- distances

  type Distances = seq<seq<int>>

  /** One entry per tile of `g`. */
  predicate Shaped(d: Distances, g: Tiles)
  {
    |d| == |g| && forall y :: 0 <= y < |d| ==> |d[y]| == |g[y]|
  }

  /** The tile at `p` has been reached: its entry is below `sys.maxsize`. */
  predicate Reached(d: Distances, p: Vec2)
  {
    InBounds(d, p) && d[p.y][p.x] < MaxSize
  }

  /** A tile whose neighbours `distanceMap` goes on to lower: a reached one under `maxDist`, or the start. */
  predicate Expandable(d: Distances, p: Vec2, start: Vec2, maxDist: int)
  {
    Reached(d, p) && (d[p.y][p.x] < maxDist || p == start)
  }

  /** Every open tile next to `p` is at most one step further than `p`. */
  ghost predicate Relaxed(g: Tiles, d: Distances, p: Vec2)
  {
    InBounds(d, p) && forall q :: Open(g, q) && InBounds(d, q) && Adjacent(p, q) ==> d[q.y][q.x] <= d[p.y][p.x] + 1
  }

  /**
   * The start is at 0; every entry is `sys.maxsize` or a step count from 0 up to `maxDist`
   * (or 1, the first step, which is taken whatever `maxDist` is); rocks other than the start are never reached.
   */
  ghost predicate Bounded(g: Tiles, d: Distances, start: Vec2, maxDist: int)
  {
    Shaped(d, g) && InBounds(d, start) && d[start.y][start.x] == 0
    && (forall p :: InBounds(d, p) ==> 0 <= d[p.y][p.x] <= MaxSize)
    && (forall p :: Reached(d, p) ==> d[p.y][p.x] <= maxDist || d[p.y][p.x] <= 1)
    && (forall p :: InBounds(g, p) && g[p.y][p.x].tileType == Wall && p != start ==> d[p.y][p.x] == MaxSize)
  }

  /** Every reached tile other than the start has a neighbour reached in fewer steps. */
  ghost predicate Supported(d: Distances, start: Vec2)
  {
    forall p :: Reached(d, p) && p != start ==> exists r :: InBounds(d, r) && Adjacent(r, p) && d[r.y][r.x] < d[p.y][p.x]
  }

  /** What `distanceMap` leaves: bounded, supported, and every expandable tile relaxed. */
  ghost predicate DistancesSound(g: Tiles, d: Distances, start: Vec2, maxDist: int)
  {
    Bounded(g, d, start, maxDist) && Supported(d, start)
    && forall p :: Expandable(d, p, start, maxDist) ==> Relaxed(g, d, p)
  }

  /** The tiles on the stack: reached, and expandable. */
  ghost predicate Pending(d: Distances, stack: seq<Vec2>, start: Vec2, maxDist: int)
  {
    forall s :: s in stack ==> Expandable(d, s, start, maxDist)
  }

  /** Every expandable tile outside `skip` is relaxed or still on the stack. */
  ghost predicate Covered(g: Tiles, d: Distances, stack: seq<Vec2>, start: Vec2, maxDist: int, skip: set<Vec2>)
  {
    forall p :: p !in skip && Expandable(d, p, start, maxDist) ==> p in stack || Relaxed(g, d, p)
  }

  /** The sum of all entries, which every update lowers. */
  function Total(d: Distances): int
  {
    if d == [] then 0 else Sum(d[0]) + Total(d[1..])
  }

  lemma {:induction false} SumUpdate(row: seq<int>, i: nat, v: int)
    requires i < |row|
    ensures Sum(row[i := v]) == Sum(row) - row[i] + v
  {
    if i > 0 {
      assert row[i := v][1..] == row[1..][i - 1 := v];
      SumUpdate(row[1..], i - 1, v);
    }
  }

  lemma {:induction false} TotalUpdate(d: Distances, y: nat, row: seq<int>)
    requires y < |d|
    ensures Total(d[y := row]) == Total(d) - Sum(d[y]) + Sum(row)
  {
    if y > 0 {
      assert d[y := row][1..] == d[1..][y - 1 := row];
      TotalUpdate(d[1..], y - 1, row);
    }
  }

  lemma {:induction false} SumNonNegative(row: seq<int>)
    requires forall x :: 0 <= x < |row| ==> row[x] >= 0
    ensures Sum(row) >= 0
  {
    if row != [] {
      SumNonNegative(row[1..]);
    }
  }

  lemma {:induction false} TotalNonNegative(d: Distances)
    requires forall p :: InBounds(d, p) ==> d[p.y][p.x] >= 0
    ensures Total(d) >= 0
  {
    if d != [] {
      forall x | 0 <= x < |d[0]| ensures d[0][x] >= 0 {
        assert InBounds(d, Vec2(x, 0));
      }
      SumNonNegative(d[0]);
      forall p | InBounds(d[1..], p) ensures d[1..][p.y][p.x] >= 0 {
        assert InBounds(d, Vec2(p.x, p.y + 1));
      }
      TotalNonNegative(d[1..]);
    }
  }

  /** Lowering one entry lowers the total. */
  lemma TotalLower(d: Distances, q: Vec2, v: int)
    requires InBounds(d, q) && v < d[q.y][q.x]
    ensures Total(Day17Path.Lower(d, q, v)) < Total(d)
  {
    SumUpdate(d[q.y], q.x, v);
    TotalUpdate(d, q.y, d[q.y][q.x := v]);
  }

  /** The grid of `sys.maxsize` entries shaped like `g`, with the start at 0. */
  function Initial(g: Tiles, start: Vec2): (d: Distances)
    requires InBounds(g, start)
    ensures Shaped(d, g)
    ensures forall p :: InBounds(d, p) ==> d[p.y][p.x] == if p == start then 0 else MaxSize
  {
    var blank := seq(|g|, y requires 0 <= y < |g| => seq(|g[y]|, x => MaxSize));
    Day17Path.Lower(blank, start, 0)
  }

  /** The state `distanceMap` starts its loop from already keeps every invariant. */
  lemma InitialSound(g: Tiles, start: Vec2, maxDist: int)
    requires InBounds(g, start)
    ensures Bounded(g, Initial(g, start), start, maxDist) && Supported(Initial(g, start), start)
    ensures Pending(Initial(g, start), [start], start, maxDist)
    ensures Covered(g, Initial(g, start), [start], start, maxDist, {})
  {
  }

  /** The first `k` of the positions `ps` that are open hold at most `bound`. */
  ghost predicate AtMostUpTo(g: Tiles, d: Distances, ps: seq<Vec2>, k: nat, bound: int)
  {
    forall j :: 0 <= j < k && j < |ps| && Open(g, ps[j]) && InBounds(d, ps[j]) ==> d[ps[j].y][ps[j].x] <= bound
  }

  /** The invariant of the loop over `pos`'s neighbours `ps`, after the first `k`. */
  ghost predicate Midway(g: Tiles, d: Distances, stack: seq<Vec2>, start: Vec2, maxDist: int, pos: Vec2, ps: seq<Vec2>, k: nat, cur: int)
  {
    Bounded(g, d, start, maxDist) && Supported(d, start) && Pending(d, stack, start, maxDist)
    && Covered(g, d, stack, start, maxDist, {pos})
    && Expandable(d, pos, start, maxDist) && d[pos.y][pos.x] == cur
    && AtMostUpTo(g, d, ps, k, cur + 1)
  }

  /** The loop is at its `k`-th neighbour, an open tile next to `pos` that one more step than `pos` lowers. */
  ghost predicate Lowering(g: Tiles, d: Distances, stack: seq<Vec2>, start: Vec2, maxDist: int, pos: Vec2, ps: seq<Vec2>, k: nat, cur: int)
  {
    Midway(g, d, stack, start, maxDist, pos, ps, k, cur) && k < |ps|
    && Open(g, ps[k]) && Adjacent(pos, ps[k]) && cur + 1 < d[ps[k].y][ps[k].x]
  }

  /** The stack after lowering `q` to `v`: `q` is pushed when `v` is under `maxDist`. */
  function Pushed(stack: seq<Vec2>, q: Vec2, v: int, maxDist: int): seq<Vec2>
  {
    if v < maxDist then stack + [q] else stack
  }

  /** Lowering the neighbour to one step more keeps the entries bounded. */
  lemma LowerBounded(g: Tiles, d: Distances, stack: seq<Vec2>, start: Vec2, maxDist: int, pos: Vec2, ps: seq<Vec2>, k: nat, cur: int)
    requires Lowering(g, d, stack, start, maxDist, pos, ps, k, cur)
    ensures Bounded(g, Day17Path.Lower(d, ps[k], cur + 1), start, maxDist)
  {
    assert ps[k] != start;
  }

  /** The lowered tile is supported by `pos`; the others keep their support. */
  lemma LowerSupported(g: Tiles, d: Distances, stack: seq<Vec2>, start: Vec2, maxDist: int, pos: Vec2, ps: seq<Vec2>, k: nat, cur: int)
    requires Lowering(g, d, stack, start, maxDist, pos, ps, k, cur)
    ensures Supported(Day17Path.Lower(d, ps[k], cur + 1), start)
  {
    var q := ps[k];
    var d' := Day17Path.Lower(d, q, cur + 1);
    forall p | Reached(d', p) && p != start
      ensures exists r :: InBounds(d', r) && Adjacent(r, p) && d'[r.y][r.x] < d'[p.y][p.x]
    {
      if p == q {
        assert InBounds(d', pos) && Adjacent(pos, p) && d'[pos.y][pos.x] < d'[p.y][p.x];
      } else {
        assert Reached(d, p);
        var r :| InBounds(d, r) && Adjacent(r, p) && d[r.y][r.x] < d[p.y][p.x];
        assert InBounds(d', r) && d'[r.y][r.x] < d'[p.y][p.x];
      }
    }
  }

  /** Lowering keeps every stacked tile expandable, and the lowered tile is pushed when under `maxDist`. */
  lemma LowerPending(g: Tiles, d: Distances, stack: seq<Vec2>, start: Vec2, maxDist: int, pos: Vec2, ps: seq<Vec2>, k: nat, cur: int)
    requires Lowering(g, d, stack, start, maxDist, pos, ps, k, cur)
    ensures Pending(Day17Path.Lower(d, ps[k], cur + 1), Pushed(stack, ps[k], cur + 1, maxDist), start, maxDist)
  {
    var d' := Day17Path.Lower(d, ps[k], cur + 1);
    forall s | s in stack ensures Expandable(d', s, start, maxDist) {
      assert Expandable(d, s, start, maxDist);
    }
  }

  /** Lowering an entry other than `p`'s keeps `p` relaxed. */
  lemma LowerRelaxed(g: Tiles, d: Distances, p: Vec2, q: Vec2, v: int)
    requires Relaxed(g, d, p) && InBounds(d, q) && p != q && v < d[q.y][q.x]
    ensures Relaxed(g, Day17Path.Lower(d, q, v), p)
  {
  }

  /** Every expandable tile but `pos` stays relaxed or stacked: the lowered one is pushed when it stays expandable. */
  lemma LowerCovered(g: Tiles, d: Distances, stack: seq<Vec2>, start: Vec2, maxDist: int, pos: Vec2, ps: seq<Vec2>, k: nat, cur: int)
    requires Lowering(g, d, stack, start, maxDist, pos, ps, k, cur)
    ensures Covered(g, Day17Path.Lower(d, ps[k], cur + 1), Pushed(stack, ps[k], cur + 1, maxDist), start, maxDist, {pos})
  {
    var q := ps[k];
    var d' := Day17Path.Lower(d, q, cur + 1);
    var stack' := Pushed(stack, q, cur + 1, maxDist);
    assert q != start;
    forall p | p !in {pos} && Expandable(d', p, start, maxDist)
      ensures p in stack' || Relaxed(g, d', p)
    {
      if p != q {
        assert Expandable(d, p, start, maxDist);
        if p !in stack {
          LowerRelaxed(g, d, p, q, cur + 1);
        }
      }
    }
  }

  /** Lowering the `k`-th neighbour leaves `pos` as it was and extends the bound to that neighbour. */
  lemma LowerNext(g: Tiles, d: Distances, stack: seq<Vec2>, start: Vec2, maxDist: int, pos: Vec2, ps: seq<Vec2>, k: nat, cur: int)
    requires Lowering(g, d, stack, start, maxDist, pos, ps, k, cur)
    ensures var d' := Day17Path.Lower(d, ps[k], cur + 1);
      Expandable(d', pos, start, maxDist) && d'[pos.y][pos.x] == cur && AtMostUpTo(g, d', ps, k + 1, cur + 1)
  {
  }

  /** Lowering the `k`-th neighbour keeps the invariant and lowers the total. */
  lemma LowerMidway(g: Tiles, d: Distances, stack: seq<Vec2>, start: Vec2, maxDist: int, pos: Vec2, ps: seq<Vec2>, k: nat, cur: int,
                    d': Distances, stack': seq<Vec2>)
    requires Lowering(g, d, stack, start, maxDist, pos, ps, k, cur)
    requires d' == Day17Path.Lower(d, ps[k], cur + 1) && stack' == Pushed(stack, ps[k], cur + 1, maxDist)
    ensures Midway(g, d', stack', start, maxDist, pos, ps, k + 1, cur)
    ensures Total(d') < Total(d)
  {
    LowerBounded(g, d, stack, start, maxDist, pos, ps, k, cur);
    LowerSupported(g, d, stack, start, maxDist, pos, ps, k, cur);
    LowerPending(g, d, stack, start, maxDist, pos, ps, k, cur);
    LowerCovered(g, d, stack, start, maxDist, pos, ps, k, cur);
    LowerNext(g, d, stack, start, maxDist, pos, ps, k, cur);
    TotalLower(d, ps[k], cur + 1);
  }

  /** A `k`-th position that is closed, or already within the bound, extends the bound to it. */
  lemma AtMostNext(g: Tiles, d: Distances, ps: seq<Vec2>, k: nat, bound: int)
    requires AtMostUpTo(g, d, ps, k, bound) && k < |ps|
    requires Open(g, ps[k]) && InBounds(d, ps[k]) ==> d[ps[k].y][ps[k].x] <= bound
    ensures AtMostUpTo(g, d, ps, k + 1, bound)
  {
  }

  /** Skipping the `k`-th neighbour, a rock or one already close enough, keeps the invariant. */
  lemma SkipMidway(g: Tiles, d: Distances, stack: seq<Vec2>, start: Vec2, maxDist: int, pos: Vec2, ps: seq<Vec2>, k: nat, cur: int)
    requires Midway(g, d, stack, start, maxDist, pos, ps, k, cur) && k < |ps|
    requires Open(g, ps[k]) && InBounds(d, ps[k]) ==> d[ps[k].y][ps[k].x] <= cur + 1
    ensures Midway(g, d, stack, start, maxDist, pos, ps, k + 1, cur)
  {
    AtMostNext(g, d, ps, k, cur + 1);
  }

  /** After the loop over `pos`'s neighbours, every open neighbour is at most one step further. */
  lemma ExpandDone(g: Tiles, d: Distances, pos: Vec2, ps: seq<Vec2>)
    requires Shaped(d, g) && InBounds(d, pos)
    requires forall q :: q in ps <==> InBounds(g, q) && Adjacent(pos, q)
    requires AtMostUpTo(g, d, ps, |ps|, d[pos.y][pos.x] + 1)
    ensures Relaxed(g, d, pos)
  {
    forall q | Open(g, q) && InBounds(d, q) && Adjacent(pos, q)
      ensures d[q.y][q.x] <= d[pos.y][pos.x] + 1
    {
      var j :| 0 <= j < |ps| && ps[j] == q;
    }
  }

  /** A relaxed tile need not be left out of the cover. */
  lemma CoveredRelaxed(g: Tiles, d: Distances, stack: seq<Vec2>, start: Vec2, maxDist: int, pos: Vec2)
    requires Covered(g, d, stack, start, maxDist, {pos}) && Relaxed(g, d, pos)
    ensures Covered(g, d, stack, start, maxDist, {})
  {
    forall p | p !in {} && Expandable(d, p, start, maxDist) ensures p in stack || Relaxed(g, d, p) {
      if p != pos {
        assert p !in {pos};
      }
    }
  }

  /** `ns` are the tiles at the positions `ps` next to `pos`, which are all the tiles next to it. */
  ghost predicate NeighborsOf(g: Tiles, pos: Vec2, ns: seq<Tile>, ps: seq<Vec2>)
  {
    |ns| == |ps|
    && (forall q :: q in ps <==> InBounds(g, q) && Adjacent(pos, q))
    && forall k :: 0 <= k < |ps| ==> InBounds(g, ps[k]) && Adjacent(pos, ps[k]) && ns[k] == g[ps[k].y][ps[k].x] && ns[k].pos == ps[k]
  }

  /** On a map built by `readMap`, `neighbors` gives such tiles. */
  lemma NeighborsOfMap(g: Tiles, pos: Vec2)
    requires Rectangular(g) && Positioned(g) && InBounds(g, pos)
    ensures NeighborsOf(g, pos, Neighbors(g, pos), NeighborPositions(g, pos))
  {
  }

  /**
   * One turn of the loop of `distanceMap` over the neighbours of `pos`: the `k`-th, `neighbor`, is
   * skipped when it is a rock; otherwise it is lowered to one step more than `pos` when that is
   * lower, and then pushed when under `maxDist`.
   */
  method RelaxNeighbor(g: Tiles, d0: Distances, stack0: seq<Vec2>, start: Vec2, maxDist: int, pos: Vec2, neighbor: Tile,
                       ghost ps: seq<Vec2>, ghost k: nat, ghost cur: int)
    returns (d: Distances, stack: seq<Vec2>)
    requires Midway(g, d0, stack0, start, maxDist, pos, ps, k, cur) && k < |ps|
    requires InBounds(g, ps[k]) && Adjacent(pos, ps[k]) && neighbor == g[ps[k].y][ps[k].x] && neighbor.pos == ps[k]
    ensures Midway(g, d, stack, start, maxDist, pos, ps, k + 1, cur)
    ensures Total(d) <= Total(d0) && (Total(d) == Total(d0) ==> stack == stack0)
  {
    d, stack := d0, stack0;
    if neighbor.tileType == Wall {
      SkipMidway(g, d, stack, start, maxDist, pos, ps, k, cur);
      return;
    }
    var currentDist := d[pos.y][pos.x];
    var newDist := currentDist + 1;
    if newDist >= d[neighbor.pos.y][neighbor.pos.x] {
      SkipMidway(g, d, stack, start, maxDist, pos, ps, k, cur);
    } else {
      d := Day17Path.Lower(d, neighbor.pos, newDist);
      if newDist < maxDist {
        stack := stack + [neighbor.pos];
      }
      LowerMidway(g, d0, stack0, start, maxDist, pos, ps, k, cur, d, stack);
    }
  }

  /** The loop of `distanceMap` over the neighbours `ns` of the popped tile `pos`. */
  method RelaxNeighbors(g: Tiles, d0: Distances, stack0: seq<Vec2>, start: Vec2, maxDist: int, pos: Vec2, ns: seq<Tile>, ghost ps: seq<Vec2>)
    returns (d: Distances, stack: seq<Vec2>)
    requires NeighborsOf(g, pos, ns, ps)
    requires Bounded(g, d0, start, maxDist) && Supported(d0, start) && Pending(d0, stack0, start, maxDist)
    requires Covered(g, d0, stack0, start, maxDist, {pos}) && Expandable(d0, pos, start, maxDist)
    ensures Bounded(g, d, start, maxDist) && Supported(d, start) && Pending(d, stack, start, maxDist)
    ensures Covered(g, d, stack, start, maxDist, {})
    ensures Total(d) <= Total(d0) && (Total(d) == Total(d0) ==> stack == stack0)
  {
    d, stack := d0, stack0;
    ghost var cur := d[pos.y][pos.x];
    for k := 0 to |ns|
      invariant Midway(g, d, stack, start, maxDist, pos, ps, k, cur)
      invariant Total(d) <= Total(d0) && (Total(d) == Total(d0) ==> stack == stack0)
    {
      d, stack := RelaxNeighbor(g, d, stack, start, maxDist, pos, ns[k], ps, k, cur);
    }
    ExpandDone(g, d, pos, ps);
    CoveredRelaxed(g, d, stack, start, maxDist, pos);
  }

  /**
   * `distanceMap`: from the start at 0, pops a tile off the stack and lowers each open
   * neighbour to one step more, pushing it again while under `maxDist`. An out-of-range start
   * raises IndexError.
   */
  method DistanceMap(g: Tiles, start: Vec2, maxDist: int) returns (r: Result<Distances>)
    requires Rectangular(g) && Positioned(g)
    requires start.x >= 0 && start.y >= 0
    ensures r.Err? <==> !InBounds(g, start)
    ensures r.Err? ==> r.error == "IndexError"
    ensures r.Ok? ==> DistancesSound(g, r.value, start, maxDist)
  {
    if !InBounds(g, start) {
      return Err("IndexError");
    }
    var d := Initial(g, start);
    var stack := [start];
    InitialSound(g, start, maxDist);
    TotalNonNegative(d);
    while stack != []
      invariant Bounded(g, d, start, maxDist) && Supported(d, start)
      invariant Pending(d, stack, start, maxDist)
      invariant Covered(g, d, stack, start, maxDist, {})
      invariant Total(d) >= 0
      decreases Total(d), |stack|
    {
      var pos := stack[|stack| - 1];
      PopCovered(g, d, stack, start, maxDist);
      stack := stack[..|stack| - 1];
      var ns := Neighbors(g, pos);
      NeighborsOfMap(g, pos);
      d, stack := RelaxNeighbors(g, d, stack, start, maxDist, pos, ns, NeighborPositions(g, pos));
      TotalNonNegative(d);
    }
    CoveredDone(g, d, start, maxDist);
    return Ok(d);
  }

  /** With the stack empty, every expandable tile is relaxed. */
  lemma CoveredDone(g: Tiles, d: Distances, start: Vec2, maxDist: int)
    requires Covered(g, d, [], start, maxDist, {})
    ensures forall p :: Expandable(d, p, start, maxDist) ==> Relaxed(g, d, p)
  {
    forall p | Expandable(d, p, start, maxDist) ensures Relaxed(g, d, p) {
      assert p !in {} && p !in [];
    }
  }

  /** Popping the last tile keeps the rest stacked and expandable; the popped one is the only one left out. */
  lemma PopCovered(g: Tiles, d: Distances, stack: seq<Vec2>, start: Vec2, maxDist: int)
    requires stack != [] && Pending(d, stack, start, maxDist) && Covered(g, d, stack, start, maxDist, {})
    ensures Pending(d, stack[..|stack| - 1], start, maxDist)
    ensures Covered(g, d, stack[..|stack| - 1], start, maxDist, {stack[|stack| - 1]})
    ensures Expandable(d, stack[|stack| - 1], start, maxDist)
  {
    var rest := stack[..|stack| - 1];
    assert stack == rest + [stack[|stack| - 1]];
  }

  // ---------------------------------------------------------------- walks

  /** `path` is a walk on the map: each later position is an open tile next to the one before. */
  ghost predicate Walk(g: Tiles, path: seq<Vec2>)
  {
    |path| >= 1
    && (|path| == 1 || (Walk(g, path[..|path| - 1]) && Open(g, path[|path| - 1]) && Adjacent(path[|path| - 2], path[|path| - 1])))
  }

  /** A reached tile other than the start is open: rocks are never lowered. */
  lemma ReachedOpen(g: Tiles, d: Distances, start: Vec2, maxDist: int, p: Vec2)
    requires Bounded(g, d, start, maxDist) && Reached(d, p) && p != start
    ensures Open(g, p)
  {
    assert InBounds(g, p);
  }

  /** `path` is a walk from `a` to `b`. */
  ghost predicate WalkBetween(g: Tiles, path: seq<Vec2>, a: Vec2, b: Vec2)
  {
    Walk(g, path) && path[0] == a && path[|path| - 1] == b
  }

  /** A walk extends by an open tile next to its end. */
  lemma WalkExtend(g: Tiles, path: seq<Vec2>, a: Vec2, e: Vec2, p: Vec2)
    requires WalkBetween(g, path, a, e) && Open(g, p) && Adjacent(e, p)
    ensures WalkBetween(g, path + [p], a, p) && |path + [p]| == |path| + 1
  {
    assert (path + [p])[..|path|] == path;
  }

  /** Every reached tile is the end of a walk from the start no longer than its entry. */
  lemma {:induction false} ReachedByWalk(g: Tiles, d: Distances, start: Vec2, maxDist: int, p: Vec2)
    requires DistancesSound(g, d, start, maxDist) && Reached(d, p)
    ensures exists path :: WalkBetween(g, path, start, p) && |path| - 1 <= d[p.y][p.x]
    decreases d[p.y][p.x]
  {
    if p == start {
      assert WalkBetween(g, [start], start, start);
    } else {
      var r :| InBounds(d, r) && Adjacent(r, p) && d[r.y][r.x] < d[p.y][p.x];
      assert d[r.y][r.x] >= 0;
      ReachedByWalk(g, d, start, maxDist, r);
      var path :| WalkBetween(g, path, start, r) && |path| - 1 <= d[r.y][r.x];
      ReachedOpen(g, d, start, maxDist, p);
      WalkExtend(g, path, start, r, p);
    }
  }

  /**
   * A walk from the start of at most `maxDist` steps (or of one step, which is always taken)
   * ends on a tile whose entry is at most its length: within `maxDist`, the entries are shortest walks.
   */
  lemma {:induction false} WalkBound(g: Tiles, d: Distances, start: Vec2, maxDist: int, path: seq<Vec2>)
    requires DistancesSound(g, d, start, maxDist) && Walk(g, path) && path[0] == start
    requires |path| - 1 <= maxDist || |path| <= 2
    requires |path| <= MaxSize
    ensures InBounds(d, path[|path| - 1]) && d[path[|path| - 1].y][path[|path| - 1].x] <= |path| - 1
  {
    if |path| > 1 {
      var prefix := path[..|path| - 1];
      assert prefix[0] == start;
      WalkBound(g, d, start, maxDist, prefix);
      assert path[|path| - 2] == prefix[|prefix| - 1];
      RelaxedStep(g, d, start, maxDist, path[|path| - 2], path[|path| - 1], |path| - 1);
    }
  }

  /** One step past a tile within `n - 1` that is still expanded lands within `n`. */
  lemma RelaxedStep(g: Tiles, d: Distances, start: Vec2, maxDist: int, prev: Vec2, last: Vec2, n: int)
    requires DistancesSound(g, d, start, maxDist) && InBounds(d, prev) && d[prev.y][prev.x] <= n - 1 < MaxSize
    requires n <= maxDist || prev == start
    requires Open(g, last) && Adjacent(prev, last)
    ensures InBounds(d, last) && d[last.y][last.x] <= n
  {
    assert Expandable(d, prev, start, maxDist);
    assert Relaxed(g, d, prev);
  }

  // ---------------------------------------------------------------- counting

  /** The positions in the first `n` rows of `d`, and the first `m` of row `n`, that hold something other than `sys.maxsize`. */
  function FiniteCells(d: Distances, n: int, m: int): set<Vec2>
  {
    set y, x | 0 <= y < |d| && 0 <= x < |d[y]| && (y < n || (y == n && x < m)) && d[y][x] != MaxSize :: Vec2(x, y)
  }

  /** Taking the next entry of row `y` into account adds its position when it is finite. */
  lemma FiniteCellsNext(d: Distances, y: int, x: int)
    requires 0 <= y < |d| && 0 <= x < |d[y]|
    ensures |FiniteCells(d, y, x + 1)| == |FiniteCells(d, y, x)| + (if d[y][x] != MaxSize then 1 else 0)
  {
    assert FiniteCells(d, y, x + 1) == FiniteCells(d, y, x) + (if d[y][x] != MaxSize then {Vec2(x, y)} else {});
    assert Vec2(x, y) !in FiniteCells(d, y, x);
  }

  /** Having taken a whole row is the same as starting the next one. */
  lemma FiniteCellsRow(d: Distances, y: int)
    requires 0 <= y < |d|
    ensures FiniteCells(d, y, |d[y]|) == FiniteCells(d, y + 1, 0)
  {
  }

  /** `countFiniteDist`: the number of entries that are not `sys.maxsize`, that is of positions the walk reached. */
  method CountFiniteDist(d: Distances) returns (count: int)
    ensures count == |FiniteCells(d, |d|, 0)|
  {
    count := 0;
    for y := 0 to |d|
      invariant count == |FiniteCells(d, y, 0)|
    {
      for x := 0 to |d[y]|
        invariant count == |FiniteCells(d, y, x)|
      {
        FiniteCellsNext(d, y, x);
        if d[y][x] != MaxSize {
          count := count + 1;
        }
      }
      FiniteCellsRow(d, y);
    }
  }

  /** On a sound distance map the finite entries are exactly the reached positions. */
  lemma FiniteCellsReached(g: Tiles, d: Distances, start: Vec2, maxDist: int, p: Vec2)
    requires Bounded(g, d, start, maxDist)
    ensures p in FiniteCells(d, |d|, 0) <==> Reached(d, p)
  {
  }

  // ---------------------------------------------------------------- reachable tiles

  /** The open tiles one step from some position of `s`. */
  ghost function Step(g: Tiles, s: set<Vec2>): set<Vec2>
  {
    set q | q in Cells(g) && Open(g, q) && exists e :: e in s && Adjacent(e, q)
  }

  /** The positions of the map. */
  function Cells(g: Tiles): set<Vec2>
  {
    set y, x | 0 <= y < |g| && 0 <= x < |g[y]| :: Vec2(x, y)
  }

  /** The positions `reachable` holds after `k` rounds from `start`. */
  ghost function Reach(g: Tiles, start: Vec2, k: nat): set<Vec2>
  {
    if k == 0 then {start} else Step(g, Reach(g, start, k - 1))
  }

  /** The positions of the tiles of `ts`. */
  function Positions(ts: seq<Tile>): set<Vec2>
  {
    set t | t in ts :: t.pos
  }

  /** The open neighbours of one more position extend the step by their positions. */
  lemma StepAdd(g: Tiles, s: set<Vec2>, e: Vec2)
    requires Rectangular(g) && Positioned(g) && InBounds(g, e)
    ensures Step(g, s + {e}) == Step(g, s) + Positions(NonWallNeighbors(g, e))
  {
    forall q | q in Positions(NonWallNeighbors(g, e)) ensures q in Step(g, s + {e}) {
      var t :| t in NonWallNeighbors(g, e) && t.pos == q;
      NonWallNeighborTiles(g, e, t);
    }
    forall q | q in Step(g, s + {e}) && q !in Step(g, s) ensures q in Positions(NonWallNeighbors(g, e)) {
      var t := g[q.y][q.x];
      NonWallNeighborTiles(g, e, t);
    }
  }

  /** An open tile next to a position of `s` is in the step from `s`. */
  lemma StepMember(g: Tiles, s: set<Vec2>, e: Vec2, q: Vec2)
    requires e in s && Adjacent(e, q) && Open(g, q)
    ensures q in Step(g, s)
  {
    assert q == Vec2(q.x, q.y);
    assert q in Cells(g);
  }

  /** After a round every position is an open tile of the map. */
  lemma StepOpen(g: Tiles, s: set<Vec2>, q: Vec2)
    requires q in Step(g, s)
    ensures Open(g, q) && exists e :: e in s && Adjacent(e, q)
  {
  }

  /** One round of `reachable`: the union of the open neighbours of every tile of `elems`. */
  method StepFrom(g: Tiles, elems: set<Vec2>) returns (newElems: set<Vec2>)
    requires Rectangular(g) && Positioned(g) && forall e :: e in elems ==> InBounds(g, e)
    ensures newElems == Step(g, elems)
  {
    newElems := {};
    var todo := elems;
    while todo != {}
      invariant todo <= elems
      invariant newElems == Step(g, elems - todo)
      decreases |todo|
    {
      var e :| e in todo;
      StepAdd(g, elems - todo, e);
      assert elems - (todo - {e}) == (elems - todo) + {e};
      newElems := newElems + Positions(NonWallNeighbors(g, e));
      todo := todo - {e};
    }
    assert elems - todo == elems;
  }

  /**
   * `reachable(start, steps)`: `steps` rounds, each replacing the set by the open neighbours of its
   * tiles; with no round at all the result is never bound, an UnboundLocalError.
   */
  method Reachable(g: Tiles, start: Tile, steps: int) returns (r: Result<set<Vec2>>)
    requires Rectangular(g) && Positioned(g) && InBounds(g, start.pos)
    ensures r.Err? <==> steps <= 0
    ensures r.Err? ==> r.error == "UnboundLocalError"
    ensures r.Ok? ==> r.value == Reach(g, start.pos, steps)
  {
    if steps <= 0 {
      return Err("UnboundLocalError");
    }
    var elems: set<Vec2> := {start.pos};
    var newElems: set<Vec2> := {};
    for i := 0 to steps
      invariant elems == Reach(g, start.pos, i)
      invariant forall e :: e in elems ==> InBounds(g, e)
      invariant i > 0 ==> newElems == elems
    {
      newElems := StepFrom(g, elems);
      forall e | e in newElems ensures InBounds(g, e) {
        StepOpen(g, elems, e);
      }
      elems := newElems;
    }
    return Ok(newElems);
  }

  /** One step changes the distance from any fixed position by exactly one. */
  lemma AdjacentManhattan(o: Vec2, e: Vec2, q: Vec2)
    requires Adjacent(e, q)
    ensures Manhattan(o, q) == Manhattan(o, e) + 1 || Manhattan(o, q) + 1 == Manhattan(o, e)
  {
  }

  /** Adding nothing or two keeps a number even. */
  lemma EvenStep(a: int, b: int)
    requires a % 2 == 0 && (b == a || b == a + 2)
    ensures b % 2 == 0
  {
  }

  /** Every position reached after `k` rounds is `k` steps away or fewer, by an even difference. */
  lemma {:induction false} ReachParity(g: Tiles, start: Vec2, k: nat, q: Vec2)
    requires q in Reach(g, start, k)
    ensures Manhattan(start, q) <= k && (k - Manhattan(start, q)) % 2 == 0
  {
    if k > 0 {
      var e :| e in Reach(g, start, k - 1) && Adjacent(e, q);
      ReachParity(g, start, k - 1, e);
      AdjacentManhattan(start, e, q);
      var m, n := Manhattan(start, e), Manhattan(start, q);
      EvenStep(k - 1 - m, k - n);
    }
  }

  /** From an open start, the tiles one round away are also three rounds away, through the start. */
  lemma ReachGrowsFirst(g: Tiles, start: Vec2, q: Vec2)
    requires Open(g, start) && q in Reach(g, start, 1)
    ensures q in Reach(g, start, 3)
  {
    StepOpen(g, Reach(g, start, 0), q);
    StepMember(g, Reach(g, start, 1), q, start);
    StepMember(g, Reach(g, start, 2), start, q);
  }

  /** From an open start, whatever is reachable in `k >= 1` rounds is reachable again two rounds later. */
  lemma {:induction false} ReachGrows(g: Tiles, start: Vec2, k: nat, q: Vec2)
    requires Open(g, start) && k >= 1 && q in Reach(g, start, k)
    ensures q in Reach(g, start, k + 2)
  {
    if k == 1 {
      ReachGrowsFirst(g, start, q);
    } else {
      StepOpen(g, Reach(g, start, k - 1), q);
      var e :| e in Reach(g, start, k - 1) && Adjacent(e, q);
      ReachGrows(g, start, k - 1, e);
      StepMember(g, Reach(g, start, k + 1), e, q);
    }
  }

  /** Every position reached after `k` rounds ends a `k`-step walk from the start. */
  lemma {:induction false} ReachWalk(g: Tiles, start: Vec2, k: nat, q: Vec2)
    requires q in Reach(g, start, k)
    ensures exists path :: WalkBetween(g, path, start, q) && |path| == k + 1
  {
    if k == 0 {
      assert WalkBetween(g, [start], start, start);
    } else {
      StepOpen(g, Reach(g, start, k - 1), q);
      var e :| e in Reach(g, start, k - 1) && Adjacent(e, q);
      ReachWalk(g, start, k - 1, e);
      var path :| WalkBetween(g, path, start, e) && |path| == k;
      WalkExtend(g, path, start, e, q);
    }
  }

  /** The end of every walk is reached after as many rounds as the walk has steps. */
  lemma {:induction false} WalkReach(g: Tiles, path: seq<Vec2>)
    requires Walk(g, path)
    ensures path[|path| - 1] in Reach(g, path[0], |path| - 1)
  {
    var k := |path| - 1;
    if k > 0 {
      var prefix := path[..k];
      assert prefix[0] == path[0];
      WalkReach(g, prefix);
      StepMember(g, Reach(g, path[0], k - 1), path[k - 1], path[k]);
    }
  }
}
