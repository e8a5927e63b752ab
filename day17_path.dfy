/**
 * Day 17 (17/path.py): a map of digit costs and the one-step transition of the path search that
 * walks it. A node keeps the cheapest cost found so far to reach it, which the transition lowers;
 * the transition also keeps a counter of how many steps in a row went the same way, which may
 * not exceed three.
 */
module Day17Path {
  import opened Wrappers
  import opened Strings
  import opened Geometry

  /** `sys.maxsize` on a 64-bit build: the cost to reach a node that has not been reached. */
  const MaxSize: int := 0x7FFF_FFFF_FFFF_FFFF

  /** A grid of integers, one row per line: the node costs, or the costs to reach the nodes. */
  type Costs = seq<seq<int>>

  /** The width the source uses for every row: that of the first. */
  function Width(g: Costs): nat
  {
    if |g| == 0 then 0 else |g[0]|
  }

  /** Every row as wide as the first. */
  predicate Rectangular(g: Costs)
  {
    forall y :: 0 <= y < |g| ==> |g[y]| == Width(g)
  }

  /** Two grids with rows of the same lengths. */
  predicate SameShape(a: Costs, b: Costs)
  {
    |a| == |b| && forall y :: 0 <= y < |a| ==> |a[y]| == |b[y]|
  }

  predicate Inside(g: Costs, p: Vec2)
  {
    0 <= p.y < |g| && 0 <= p.x < |g[p.y]|
  }

  /** Every entry of `a` is at most the matching entry of `b`. */
  predicate Below(a: Costs, b: Costs)
    requires SameShape(a, b)
  {
    forall y, x :: 0 <= y < |a| && 0 <= x < |a[y]| ==> a[y][x] <= b[y][x]
  }

  predicate NonNegative(g: Costs)
  {
    forall y, x :: 0 <= y < |g| && 0 <= x < |g[y]| ==> g[y][x] >= 0
  }

  // ---------------------------------------------------------------- reading the map

  /** `int(c)` on one character: its digit, or ValueError. */
  function DigitOf(c: char): (r: Result<int>)
    ensures r.Ok? <==> IsDigit(c)
    ensures r.Err? ==> r.error == "ValueError"
    ensures r.Ok? ==> 0 <= r.value <= 9 && DigitChar(r.value) == c
  {
    if IsDigit(c) then Ok(c as int - '0' as int) else Err("ValueError")
  }

  function ReadRow(line: string): Result<seq<int>>
  {
    MapAll(line, DigitOf)
  }

  /** `readMap`: one row per line, each node's cost the digit at its place, or ValueError. */
  function ReadMap(txt: string): (r: Result<Costs>)
    ensures r.Ok? <==> forall y, x :: 0 <= y < |SplitLines(txt)| && 0 <= x < |SplitLines(txt)[y]| ==> IsDigit(SplitLines(txt)[y][x])
    ensures r.Err? ==> r.error == "ValueError"
    ensures r.Ok? ==> |r.value| == |SplitLines(txt)| && NonNegative(r.value) && forall y :: 0 <= y < |r.value| ==>
      |r.value[y]| == |SplitLines(txt)[y]| && forall x :: 0 <= x < |r.value[y]| ==>
        r.value[y][x] <= 9 && DigitChar(r.value[y][x]) == SplitLines(txt)[y][x]
  {
    var lines := SplitLines(txt);
    var r := MapAll(lines, ReadRow);
    if r.Ok? then
      assert forall y, x :: 0 <= y < |lines| && 0 <= x < |lines[y]| ==> DigitOf(lines[y][x]) == Ok(r.value[y][x]);
      r
    else
      var y :| 0 <= y < |lines| && ReadRow(lines[y]) == Err(r.error);
      var x :| 0 <= x < |lines[y]| && DigitOf(lines[y][x]) == Err(r.error);
      r
  }

  // ---------------------------------------------------------------- neighbours

  function Max(a: int, b: int): int
  {
    if a >= b then a else b
  }

  function Min(a: int, b: int): int
  {
    if a <= b then a else b
  }

  /** The inner loop of `neighbors`: cells x..maxX of row y, without `p` and without the diagonals. */
  function ScanRow(p: Vec2, y: int, x: int, maxX: int): seq<Vec2>
    decreases maxX - x + 1
  {
    if x > maxX then []
    else (if x == p.x && y == p.y then [] else if x == p.x || y == p.y then [Vec2(x, y)] else []) + ScanRow(p, y, x + 1, maxX)
  }

  /** The outer loop of `neighbors`: rows y..maxY of the window. */
  function ScanRows(p: Vec2, y: int, maxY: int, minX: int, maxX: int): seq<Vec2>
    decreases maxY - y + 1
  {
    if y > maxY then [] else ScanRow(p, y, minX, maxX) + ScanRows(p, y + 1, maxY, minX, maxX)
  }

  /** `Map.neighbors`: the 3×3 window around `p`, clipped to a `w`×`h` map, scanned row by row. */
  function MapNeighbors(w: int, h: int, p: Vec2): seq<Vec2>
  {
    ScanRows(p, Max(0, p.y - 1), Min(h - 1, p.y + 1), Max(0, p.x - 1), Min(w - 1, p.x + 1))
  }

  /** The neighbours the window yields, in the order it yields them: up, left, right, down. */
  function Around4(w: int, h: int, p: Vec2): seq<Vec2>
  {
    (if p.y >= 1 then [Vec2(p.x, p.y - 1)] else [])
    + (if p.x >= 1 then [Vec2(p.x - 1, p.y)] else [])
    + (if p.x + 1 < w then [Vec2(p.x + 1, p.y)] else [])
    + (if p.y + 1 < h then [Vec2(p.x, p.y + 1)] else [])
  }

  /** A row other than p's contributes the cell in p's column, when the scan covers it. */
  lemma {:induction false} ScanRowOther(p: Vec2, y: int, x: int, maxX: int)
    requires y != p.y
    ensures ScanRow(p, y, x, maxX) == if x <= p.x <= maxX then [Vec2(p.x, y)] else []
    decreases maxX - x + 1
  {
    if x <= maxX {
      ScanRowOther(p, y, x + 1, maxX);
    }
  }

  /** p's own row contributes the cells left and right of p that the window covers. */
  lemma ScanRowSame(p: Vec2, x: int, maxX: int)
    requires p.x - 1 <= x <= p.x <= maxX <= p.x + 1
    ensures ScanRow(p, p.y, x, maxX) ==
      (if x < p.x then [Vec2(x, p.y)] else []) + (if maxX > p.x then [Vec2(maxX, p.y)] else [])
  {
    var tail := ScanRow(p, p.y, p.x + 1, maxX);
    if maxX > p.x {
      assert ScanRow(p, p.y, p.x + 2, maxX) == [];
      assert tail == [Vec2(maxX, p.y)];
    } else {
      assert tail == [];
    }
    assert ScanRow(p, p.y, p.x, maxX) == tail;
  }

  /** The rows of the window from p's down: p's row, then the cell below when the window covers it. */
  lemma ScanRowsFromMiddle(p: Vec2, maxY: int, minX: int, maxX: int)
    requires p.y <= maxY <= p.y + 1 && minX <= p.x <= maxX
    ensures ScanRows(p, p.y, maxY, minX, maxX) ==
      ScanRow(p, p.y, minX, maxX) + (if maxY > p.y then [Vec2(p.x, p.y + 1)] else [])
  {
    var below := ScanRows(p, p.y + 1, maxY, minX, maxX);
    if maxY > p.y {
      ScanRowOther(p, p.y + 1, minX, maxX);
      assert ScanRows(p, p.y + 2, maxY, minX, maxX) == [];
      assert below == [Vec2(p.x, p.y + 1)] + [];
    } else {
      assert below == [];
    }
  }

  /** `neighbors` yields exactly the in-bounds cells above, left, right and below, in that order. */
  lemma NeighborsWindow(w: int, h: int, p: Vec2)
    requires 0 <= p.x < w && 0 <= p.y < h
    ensures MapNeighbors(w, h, p) == Around4(w, h, p)
  {
    var minY, maxY := Max(0, p.y - 1), Min(h - 1, p.y + 1);
    var minX, maxX := Max(0, p.x - 1), Min(w - 1, p.x + 1);
    var up: seq<Vec2> := if p.y >= 1 then [Vec2(p.x, p.y - 1)] else [];
    var left: seq<Vec2> := if p.x >= 1 then [Vec2(p.x - 1, p.y)] else [];
    var right: seq<Vec2> := if p.x + 1 < w then [Vec2(p.x + 1, p.y)] else [];
    var down: seq<Vec2> := if p.y + 1 < h then [Vec2(p.x, p.y + 1)] else [];
    ScanRowSame(p, minX, maxX);
    assert ScanRow(p, p.y, minX, maxX) == left + right;
    ScanRowsFromMiddle(p, maxY, minX, maxX);
    var fromMiddle := ScanRows(p, p.y, maxY, minX, maxX);
    assert fromMiddle == left + right + down;
    if minY < p.y {
      ScanRowOther(p, p.y - 1, minX, maxX);
      assert ScanRows(p, minY, maxY, minX, maxX) == up + fromMiddle;
    } else {
      assert ScanRows(p, minY, maxY, minX, maxX) == up + fromMiddle;
    }
    Regroup(up, left, right, down);
    assert MapNeighbors(w, h, p) == ScanRows(p, minY, maxY, minX, maxX);
  }

  lemma Regroup<T>(a: seq<T>, b: seq<T>, c: seq<T>, d: seq<T>)
    ensures a + (b + c + d) == a + b + c + d
  {
  }

  /** The neighbours are exactly the cells of the map one step away in one coordinate; there are at most four, all different. */
  lemma NeighborsAdjacent(w: int, h: int, p: Vec2)
    requires 0 <= p.x < w && 0 <= p.y < h
    ensures forall q :: q in MapNeighbors(w, h, p) <==> 0 <= q.x < w && 0 <= q.y < h && Adjacent(p, q)
    ensures |MapNeighbors(w, h, p)| <= 4
    ensures forall i, j :: 0 <= i < j < |MapNeighbors(w, h, p)| ==> MapNeighbors(w, h, p)[i] != MapNeighbors(w, h, p)[j]
  {
    NeighborsWindow(w, h, p);
    AroundMembers(w, h, p);
    AroundDistinct(w, h, p);
  }

  /** The cells of the window are exactly the cells of the map next to `p`. */
  lemma AroundMembers(w: int, h: int, p: Vec2)
    requires 0 <= p.x < w && 0 <= p.y < h
    ensures forall q :: q in Around4(w, h, p) <==> 0 <= q.x < w && 0 <= q.y < h && Adjacent(p, q)
  {
    forall q
      ensures q in Around4(w, h, p) <==> 0 <= q.x < w && 0 <= q.y < h && Adjacent(p, q)
    {
      AroundAdjacent(p, q);
    }
  }

  /** The window yields at most four cells, all different. */
  lemma AroundDistinct(w: int, h: int, p: Vec2)
    ensures |Around4(w, h, p)| <= 4
    ensures forall i, j :: 0 <= i < j < |Around4(w, h, p)| ==> Around4(w, h, p)[i] != Around4(w, h, p)[j]
  {
  }

  // ---------------------------------------------------------------- the transition

  /** `PathCounter`: the direction of the last steps and how many steps in a row went that way. */
  datatype PathCounter = PathCounter(direction: Vec2, count: int)

  /** The arguments of `getNextNodes` besides the map. */
  datatype Request = Request(current: Vec2, costToReach: int, visited: seq<Vec2>, counter: PathCounter, maxCost: int, highest: int)

  /** The counter after a step in `direction`: one more when going straight on, 1 after a turn. */
  function NewCounter(counter: PathCounter, direction: Vec2): (c: PathCounter)
    ensures c.direction == direction
    ensures c.count == if direction == counter.direction then counter.count + 1 else 1
  {
    if direction == counter.direction then PathCounter(direction, counter.count + 1) else PathCounter(direction, 1)
  }

  /** The turn rule: straight on only while fewer than three steps went that way. */
  predicate MayGo(counter: PathCounter, direction: Vec2)
  {
    counter.count < 3 || direction != counter.direction
  }

  /** The cost test: cheap enough against the best known cost, not visited, and within the budget. */
  predicate Admits(cost: Costs, reach: Costs, req: Request, n: Vec2)
    requires Inside(cost, n) && SameShape(reach, cost)
  {
    var newCost := req.costToReach + cost[n.y][n.x];
    newCost < reach[n.y][n.x] + 4 * req.highest && n !in req.visited && newCost <= req.maxCost
  }

  /** `reach` with the entry at `n` set to `v`. */
  function Lower(reach: Costs, n: Vec2, v: int): (r: Costs)
    requires 0 <= n.y < |reach| && 0 <= n.x < |reach[n.y]|
    ensures SameShape(r, reach)
    ensures r[n.y][n.x] == v
    ensures forall y, x :: 0 <= y < |r| && 0 <= x < |r[y]| && (y != n.y || x != n.x) ==> r[y][x] == reach[y][x]
  {
    reach[n.y := reach[n.y][n.x := v]]
  }

  /** Neighbour `n` as the loop of `getNextNodes` judges it against `reach`: itself with its new counter, or nothing. */
  function Pick(cost: Costs, reach: Costs, req: Request, n: Vec2): seq<(Vec2, PathCounter)>
    requires Inside(cost, n) && SameShape(reach, cost)
  {
    var direction := n.Sub(req.current);
    if Admits(cost, reach, req, n) && MayGo(req.counter, direction) then [(n, NewCounter(req.counter, direction))] else []
  }

  /** The neighbours among `ns` that pass both tests against the costs to reach `reach`, each with its new counter. */
  function Chosen(cost: Costs, reach: Costs, req: Request, ns: seq<Vec2>): seq<(Vec2, PathCounter)>
    requires forall k :: 0 <= k < |ns| ==> Inside(cost, ns[k])
    requires SameShape(reach, cost)
    decreases |ns|
  {
    if ns == [] then [] else Pick(cost, reach, req, ns[0]) + Chosen(cost, reach, req, ns[1..])
  }

  /** The cost to reach `q` after the loop over `ns`: lowered to the new cost when `q` was chosen and that is cheaper. */
  function LoweredAt(cost: Costs, reach: Costs, req: Request, ns: seq<Vec2>, q: Vec2): (r: int)
    requires Inside(cost, q) && SameShape(reach, cost)
    ensures r <= reach[q.y][q.x]
    ensures q !in ns ==> r == reach[q.y][q.x]
  {
    var newCost := req.costToReach + cost[q.y][q.x];
    if q in ns && Pick(cost, reach, req, q) != [] && newCost < reach[q.y][q.x] then newCost else reach[q.y][q.x]
  }

  /** `after` holds the costs to reach that the loop over `ns` leaves, starting from `reach`. */
  ghost predicate LoweredAll(cost: Costs, reach: Costs, req: Request, ns: seq<Vec2>, after: Costs)
    requires SameShape(reach, cost)
  {
    SameShape(after, cost) && forall q :: Inside(cost, q) ==> after[q.y][q.x] == LoweredAt(cost, reach, req, ns, q)
  }

  /** One more neighbour at the end of the list adds its pick at the end. */
  lemma {:induction false} ChosenSnoc(cost: Costs, reach: Costs, req: Request, ns: seq<Vec2>, n: Vec2)
    requires forall k :: 0 <= k < |ns| ==> Inside(cost, ns[k])
    requires Inside(cost, n) && SameShape(reach, cost)
    ensures forall k :: 0 <= k < |ns + [n]| ==> Inside(cost, (ns + [n])[k])
    ensures Chosen(cost, reach, req, ns + [n]) == Chosen(cost, reach, req, ns) + Pick(cost, reach, req, n)
    decreases |ns|
  {
    assert forall k :: 0 <= k < |ns + [n]| ==> (ns + [n])[k] == if k < |ns| then ns[k] else n;
    if ns == [] {
      assert [n][1..] == [];
    } else {
      assert (ns + [n])[1..] == ns[1..] + [n];
      assert forall k :: 0 <= k < |ns[1..]| ==> ns[1..][k] == ns[k + 1];
      ChosenSnoc(cost, reach, req, ns[1..], n);
    }
  }

  /**
   * The loop step on a neighbour not yet seen: it finds that neighbour's cost to reach as it was
   * before the loop, and lowering it (when picked and cheaper) extends the loop's effect by one.
   */
  lemma LoweredStep(cost: Costs, reach: Costs, req: Request, ns: seq<Vec2>, n: Vec2, cur: Costs)
    requires SameShape(reach, cost) && Inside(cost, n) && n !in ns
    requires LoweredAll(cost, reach, req, ns, cur)
    ensures cur[n.y][n.x] == reach[n.y][n.x]
    ensures Pick(cost, cur, req, n) == Pick(cost, reach, req, n)
    ensures var newCost := req.costToReach + cost[n.y][n.x];
      LoweredAll(cost, reach, req, ns + [n],
        if Pick(cost, reach, req, n) != [] && newCost < reach[n.y][n.x] then Lower(cur, n, newCost) else cur)
  {
    var newCost := req.costToReach + cost[n.y][n.x];
    var after := if Pick(cost, reach, req, n) != [] && newCost < reach[n.y][n.x] then Lower(cur, n, newCost) else cur;
    forall q | Inside(cost, q)
      ensures after[q.y][q.x] == LoweredAt(cost, reach, req, ns + [n], q)
    {
      assert q in ns + [n] <==> q in ns || q == n;
    }
  }

  /** The loop lowers costs to reach and never below the new cost of a chosen neighbour. */
  lemma LoweredBelow(cost: Costs, reach: Costs, req: Request, ns: seq<Vec2>, after: Costs)
    requires SameShape(reach, cost) && LoweredAll(cost, reach, req, ns, after)
    ensures Below(after, reach)
    ensures NonNegative(cost) && NonNegative(reach) && req.costToReach >= 0 ==> NonNegative(after)
  {
    forall y, x | 0 <= y < |after| && 0 <= x < |after[y]|
      ensures after[y][x] <= reach[y][x]
      ensures NonNegative(cost) && NonNegative(reach) && req.costToReach >= 0 ==> after[y][x] >= 0
    {
      assert Inside(cost, Vec2(x, y));
    }
  }

  /**
   * Every node chosen is one of `ns`, unvisited, within the budget, cheaper than its best known
   * cost plus four times the highest node cost, and allowed by the turn rule; its counter points
   * the way the step went.
   */
  lemma {:induction false} ChosenMembers(cost: Costs, reach: Costs, req: Request, ns: seq<Vec2>)
    requires forall k :: 0 <= k < |ns| ==> Inside(cost, ns[k])
    requires SameShape(reach, cost)
    ensures forall e :: e in Chosen(cost, reach, req, ns) ==>
      e.0 in ns && Inside(cost, e.0) && e.0 !in req.visited && Admits(cost, reach, req, e.0)
      && MayGo(req.counter, e.0.Sub(req.current)) && e.1 == NewCounter(req.counter, e.0.Sub(req.current))
    ensures forall k :: 0 <= k < |ns| && Admits(cost, reach, req, ns[k]) && MayGo(req.counter, ns[k].Sub(req.current)) ==>
      (ns[k], NewCounter(req.counter, ns[k].Sub(req.current))) in Chosen(cost, reach, req, ns)
    decreases |ns|
  {
    if ns != [] {
      var rest := ns[1..];
      assert forall k :: 0 <= k < |rest| ==> rest[k] == ns[k + 1];
      ChosenMembers(cost, reach, req, rest);
    }
  }

  /**
   * The turn rule in effect: a step straight on is chosen only while the counter is below three,
   * so counters that start at three or less stay between one and three.
   */
  lemma StraightLimit(cost: Costs, reach: Costs, req: Request, ns: seq<Vec2>)
    requires forall k :: 0 <= k < |ns| ==> Inside(cost, ns[k])
    requires SameShape(reach, cost)
    ensures forall e :: e in Chosen(cost, reach, req, ns) && e.1.direction == req.counter.direction ==>
      req.counter.count < 3 && e.1.count == req.counter.count + 1
    ensures req.counter.count <= 3 ==> forall e :: e in Chosen(cost, reach, req, ns) ==> 1 <= e.1.count <= 3 || (req.counter.count < 1 && e.1.count == req.counter.count + 1)
  {
    ChosenMembers(cost, reach, req, ns);
  }

  /** The neighbours of `p` all lie on the map. */
  predicate NeighborsInside(cost: Costs, p: Vec2)
  {
    forall k :: 0 <= k < |MapNeighbors(Width(cost), |cost|, p)| ==> Inside(cost, MapNeighbors(Width(cost), |cost|, p)[k])
  }

  lemma BelowTrans(a: Costs, b: Costs, c: Costs)
    requires SameShape(a, b) && SameShape(b, c) && Below(a, b) && Below(b, c)
    ensures SameShape(a, c) && Below(a, c)
  {
  }

  /**
   * The body of the loop of `getNextNodes` on neighbour `n`: the cost test, the turn rule, the
   * new counter, and the cost to reach lowered when the new cost is cheaper.
   */
  method Consider(cost: Costs, reach: Costs, req: Request, n: Vec2) returns (after: Costs, picked: seq<(Vec2, PathCounter)>)
    requires Inside(cost, n) && SameShape(reach, cost)
    ensures picked == Pick(cost, reach, req, n)
    ensures var newCost := req.costToReach + cost[n.y][n.x];
      after == if picked != [] && newCost < reach[n.y][n.x] then Lower(reach, n, newCost) else reach
  {
    after, picked := reach, [];
    var newCost := req.costToReach + cost[n.y][n.x];
    if newCost < reach[n.y][n.x] + 4 * req.highest && n !in req.visited && newCost <= req.maxCost {
      var direction := n.Sub(req.current);
      if req.counter.count < 3 || direction != req.counter.direction {
        var newCounter := if direction == req.counter.direction then PathCounter(direction, req.counter.count + 1) else PathCounter(direction, 1);
        if newCost < reach[n.y][n.x] {
          after := Lower(reach, n, newCost);
        }
        picked := [(n, newCounter)];
      }
    }
  }

  /** The loop of `getNextNodes` over distinct neighbours `ns`, in order. */
  method ConsiderAll(cost: Costs, reach: Costs, req: Request, ns: seq<Vec2>) returns (after: Costs, next: seq<(Vec2, PathCounter)>)
    requires forall k :: 0 <= k < |ns| ==> Inside(cost, ns[k])
    requires forall i, j :: 0 <= i < j < |ns| ==> ns[i] != ns[j]
    requires SameShape(reach, cost)
    ensures next == Chosen(cost, reach, req, ns)
    ensures LoweredAll(cost, reach, req, ns, after)
  {
    after, next := reach, [];
    var i := 0;
    while i < |ns|
      invariant 0 <= i <= |ns|
      invariant next == Chosen(cost, reach, req, ns[..i])
      invariant LoweredAll(cost, reach, req, ns[..i], after)
    {
      var n := ns[i];
      assert n !in ns[..i];
      LoweredStep(cost, reach, req, ns[..i], n, after);
      ChosenSnoc(cost, reach, req, ns[..i], n);
      assert ns[..i + 1] == ns[..i] + [n];
      var picked;
      after, picked := Consider(cost, after, req, n);
      next := next + picked;
      i := i + 1;
    }
    assert ns[..i] == ns;
  }

  // ---------------------------------------------------------------- the map object

  /** The set of cells of the map. */
  ghost function Cells(g: Costs): set<Vec2>
  {
    set y, x | 0 <= y < |g| && 0 <= x < |g[y]| :: Vec2(x, y)
  }

  /** The cells not yet on the path. */
  ghost function Unvisited(g: Costs, visited: seq<Vec2>): set<Vec2>
  {
    Cells(g) - set v | v in visited
  }

  /** Putting a cell of the map on the path takes one off the unvisited cells, unless it was on it already. */
  lemma VisitShrinks(g: Costs, visited: seq<Vec2>, c: Vec2)
    requires Inside(g, c)
    ensures c in visited ==> Unvisited(g, visited + [c]) == Unvisited(g, visited)
    ensures c !in visited ==> |Unvisited(g, visited + [c])| < |Unvisited(g, visited)|
  {
    var before := set v | v in visited;
    var after := set v | v in visited + [c];
    assert after == before + {c};
    assert c in Cells(g);
    if c !in visited {
      assert Unvisited(g, visited + [c]) == Unvisited(g, visited) - {c};
      assert c in Unvisited(g, visited);
    }
  }

  /** `Map`: the nodes' costs, fixed, and their costs to reach, which the search lowers. */
  class PathMap {
    const cost: Costs
    var reach: Costs

    ghost predicate Valid()
      reads this
    {
      Rectangular(cost) && SameShape(reach, cost)
    }

    /** `Map(nodes)` as `readMap` builds it: no node reached yet. */
    constructor (cost: Costs)
      requires Rectangular(cost)
      ensures this.cost == cost && Valid()
      ensures forall y, x :: 0 <= y < |reach| && 0 <= x < |reach[y]| ==> reach[y][x] == MaxSize
    {
      this.cost := cost;
      reach := seq(|cost|, y requires 0 <= y < |cost| => seq(|cost[y]|, x => MaxSize));
    }

    /**
     * `getNextNodes`: the neighbours that pass the cost test and the turn rule, in scan order,
     * each with its new counter; a chosen neighbour's cost to reach drops to the new cost when
     * that is lower, and nothing else changes.
     */
    method GetNextNodes(req: Request) returns (next: seq<(Vec2, PathCounter)>)
      requires Valid() && Inside(cost, req.current)
      modifies this`reach
      ensures Valid() && Below(reach, old(reach))
      ensures NeighborsInside(cost, req.current)
      ensures next == Chosen(cost, old(reach), req, MapNeighbors(Width(cost), |cost|, req.current))
      ensures LoweredAll(cost, old(reach), req, MapNeighbors(Width(cost), |cost|, req.current), reach)
      ensures NonNegative(cost) && NonNegative(old(reach)) && req.costToReach >= 0 ==> NonNegative(reach)
    {
      var ns := MapNeighbors(Width(cost), |cost|, req.current);
      NeighborsAdjacent(Width(cost), |cost|, req.current);
      assert forall k :: 0 <= k < |ns| ==> ns[k] in ns;
      var after;
      after, next := ConsiderAll(cost, reach, req, ns);
      LoweredBelow(cost, reach, req, ns, after);
      reach := after;
    }

    /**
     * `step`: nothing once the cost to reach passes the budget; otherwise the current node joins
     * the path and the search recurses into each next node, paying its cost. It ends because
     * every recursive call puts a new cell of the map on the path.
     */
    method Step(req: Request)
      requires Valid() && Inside(cost, req.current)
      requires forall v :: v in req.visited ==> Inside(cost, v)
      modifies this`reach
      ensures Valid() && Below(reach, old(reach))
      ensures req.costToReach > req.maxCost ==> reach == old(reach)
      ensures NonNegative(cost) && NonNegative(old(reach)) && req.costToReach >= 0 ==> NonNegative(reach)
      decreases |Unvisited(cost, req.visited)|, if req.current in req.visited then 1 else 0
    {
      if req.costToReach > req.maxCost {
        return;
      }
      var visited := req.visited + [req.current];
      VisitShrinks(cost, req.visited, req.current);
      var next := GetNextNodes(req.(visited := visited));
      ChosenMembers(cost, old(reach), req.(visited := visited), MapNeighbors(Width(cost), |cost|, req.current));
      assert forall k :: 0 <= k < |next| ==> next[k] in next;
      var k := 0;
      while k < |next|
        invariant 0 <= k <= |next| && Valid() && Below(reach, old(reach))
        invariant NonNegative(cost) && NonNegative(old(reach)) && req.costToReach >= 0 ==> NonNegative(reach)
      {
        var n := next[k].0;
        ghost var before := reach;
        Step(Request(n, req.costToReach + cost[n.y][n.x], visited, next[k].1, req.maxCost, req.highest));
        BelowTrans(reach, before, old(reach));
        k := k + 1;
      }
    }

    /**
     * `traverse`: the start node (0, 0) costs 0 to reach, and the search starts there with the
     * counter ((0, 0), 0) and the highest node cost; an empty map raises IndexError.
     */
    method Traverse(maxCost: int) returns (err: Option<string>)
      requires Valid()
      modifies this`reach
      ensures Valid()
      ensures err.Some? <==> Width(cost) == 0
      ensures err.Some? ==> err.value == "IndexError" && reach == old(reach)
      ensures err.None? ==> reach[0][0] <= 0
      ensures err.None? && NonNegative(cost) && NonNegative(old(reach)) ==> reach[0][0] == 0
    {
      if Width(cost) == 0 {
        return Some("IndexError");
      }
      var start := Vec2(0, 0);
      reach := reach[0 := reach[0][0 := 0]];
      var highest := Highest(cost);
      Step(Request(start, 0, [start], PathCounter(Vec2(0, 0), 0), maxCost, highest));
      return None;
    }
  }

  /** The entries of the grid, row after row. */
  function Flat(g: Costs): (r: seq<int>)
  {
    if g == [] then [] else Flat(g[..|g| - 1]) + g[|g| - 1]
  }

  /** The largest element of a non-empty list. */
  function SeqMax(s: seq<int>): int
    requires |s| > 0
  {
    if |s| == 1 then s[0] else Max(SeqMax(s[..|s| - 1]), s[|s| - 1])
  }

  /** `max(node.cost for row in nodes for node in row)`, on a map whose first row has a node. */
  function Highest(g: Costs): int
    requires Width(g) > 0
  {
    FlatFirst(g);
    SeqMax(Flat(g))
  }

  lemma {:induction false} FlatFirst(g: Costs)
    requires Width(g) > 0
    ensures |Flat(g)| > 0
    decreases |g|
  {
    if |g| > 1 {
      FlatFirst(g[..|g| - 1]);
    }
  }

  /** Every entry of the grid is one of its flattened elements, and every flattened element an entry. */
  lemma {:induction false} FlatMembers(g: Costs)
    ensures forall y, x :: 0 <= y < |g| && 0 <= x < |g[y]| ==> g[y][x] in Flat(g)
    ensures forall v :: v in Flat(g) ==> exists y, x :: 0 <= y < |g| && 0 <= x < |g[y]| && g[y][x] == v
    decreases |g|
  {
    if g != [] {
      var front := g[..|g| - 1];
      FlatMembers(front);
      assert forall y :: 0 <= y < |front| ==> front[y] == g[y];
      forall v | v in Flat(g)
        ensures exists y, x :: 0 <= y < |g| && 0 <= x < |g[y]| && g[y][x] == v
      {
        if v !in Flat(front) {
          var x :| 0 <= x < |g[|g| - 1]| && g[|g| - 1][x] == v;
        }
      }
    }
  }

  /** The maximum is at least every element and is one of them. */
  lemma {:induction false} SeqMaxSpec(s: seq<int>)
    requires |s| > 0
    ensures forall k :: 0 <= k < |s| ==> s[k] <= SeqMax(s)
    ensures SeqMax(s) in s
    decreases |s|
  {
    if |s| > 1 {
      SeqMaxSpec(s[..|s| - 1]);
    }
  }

  /** The highest node cost bounds every node's cost and is some node's cost. */
  lemma HighestSpec(g: Costs)
    requires Width(g) > 0
    ensures forall y, x :: 0 <= y < |g| && 0 <= x < |g[y]| ==> g[y][x] <= Highest(g)
    ensures exists y, x :: 0 <= y < |g| && 0 <= x < |g[y]| && g[y][x] == Highest(g)
  {
    FlatFirst(g);
    FlatMembers(g);
    SeqMaxSpec(Flat(g));
    forall y, x | 0 <= y < |g| && 0 <= x < |g[y]|
      ensures g[y][x] <= Highest(g)
    {
      var k :| 0 <= k < |Flat(g)| && Flat(g)[k] == g[y][x];
    }
  }
}
