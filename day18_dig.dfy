/**
 * Day 18, part one (18/dig.py): dig instructions, the trench they trace from the origin, the
 * boolean map of the trench, and the flood fill of its interior from a point inside.
 */
module Day18Dig {
  import opened Wrappers
  import opened Strings
  import opened Geometry
  import Lists

  // ---------------------------------------------------------------- instructions

  /** `Instruction`: a unit direction and how many steps to dig that way. */
  datatype Instruction = Instruction(direction: Vec2, steps: int)

  predicate IsDirectionLetter(c: char)
  {
    c == 'U' || c == 'D' || c == 'L' || c == 'R'
  }

  /** The direction letters of the table of `readInstruction`: U is (0, 1), D is (0, -1), L is (-1, 0), R is (1, 0). */
  function DirectionOfLetter(c: char): (r: Option<Vec2>)
    ensures r.Some? <==> IsDirectionLetter(c)
    ensures r.Some? ==> Adjacent(Vec2(0, 0), r.value)
  {
    if c == 'U' then Some(Vec2(0, 1))
    else if c == 'D' then Some(Vec2(0, -1))
    else if c == 'L' then Some(Vec2(-1, 0))
    else if c == 'R' then Some(Vec2(1, 0))
    else None
  }

  /** The lookup in the table, whose keys are the four one-letter words. */
  function DirectionOf(word: string): (r: Option<Vec2>)
    ensures r.Some? <==> |word| == 1 && IsDirectionLetter(word[0])
  {
    if |word| == 1 then DirectionOfLetter(word[0]) else None
  }

  /**
   * `readInstruction`: the first word picks the direction and the second is the step count;
   * anything after is ignored. A missing word raises IndexError, an unknown direction KeyError,
   * a step count that is not an integer ValueError.
   */
  function ReadInstruction(line: string): (r: Result<Instruction>)
    ensures var parts := SplitWs(line);
      r.Ok? <==> |parts| >= 2 && DirectionOf(parts[0]).Some? && ParseInt(parts[1]).Some?
    ensures var parts := SplitWs(line);
      r.Ok? ==> r.value == Instruction(DirectionOf(parts[0]).value, ParseInt(parts[1]).value)
    ensures var parts := SplitWs(line);
      r.Err? ==> r.error == (if |parts| == 0 then "IndexError" else if DirectionOf(parts[0]).None? then "KeyError"
                             else if |parts| < 2 then "IndexError" else "ValueError")
  {
    var parts := SplitWs(line);
    if |parts| == 0 then Err("IndexError")
    else match DirectionOf(parts[0])
      case None => Err("KeyError")
      case Some(direction) =>
        if |parts| < 2 then Err("IndexError")
        else match ParseInt(parts[1])
          case None => Err("ValueError")
          case Some(steps) => Ok(Instruction(direction, steps))
  }

  /** An instruction line as the puzzle writes it: letter, step count and colour, separated by blanks. */
  function RenderInstruction(letter: char, steps: nat, colour: string): string
  {
    [letter] + " " + NatToString(steps) + " " + colour
  }

  /** A written instruction splits into its three words. */
  lemma SplitRendered(letter: char, steps: nat, colour: string)
    requires !IsSpace(letter)
    requires |colour| > 0 && forall i :: 0 <= i < |colour| ==> !IsSpace(colour[i])
    ensures SplitWs(RenderInstruction(letter, steps, colour)) == [[letter], NatToString(steps), colour]
  {
    var n := NatToString(steps);
    assert forall i :: 0 <= i < |n| ==> !IsSpace(n[i]);
    SplitWsWord(colour);
    SplitWsCons(n, colour);
    SplitWsCons([letter], n + " " + colour);
    assert RenderInstruction(letter, steps, colour) == [letter] + " " + (n + " " + colour);
  }

  /** Reading a written instruction gives back its direction and step count, whatever the colour word. */
  lemma ReadRendered(letter: char, steps: nat, colour: string)
    requires IsDirectionLetter(letter)
    requires |colour| > 0 && forall i :: 0 <= i < |colour| ==> !IsSpace(colour[i])
    ensures ReadInstruction(RenderInstruction(letter, steps, colour)) == Ok(Instruction(DirectionOfLetter(letter).value, steps))
  {
    SplitRendered(letter, steps, colour);
    NatToStringRoundTrip(steps);
  }

  /** `readInstructions`: one instruction per line, or the first line's error. */
  function ReadInstructions(txt: string): (r: Result<seq<Instruction>>)
    ensures r.Ok? ==> |r.value| == |SplitLines(txt)| && forall k :: 0 <= k < |r.value| ==> ReadInstruction(SplitLines(txt)[k]) == Ok(r.value[k])
    ensures r.Ok? <==> forall k :: 0 <= k < |SplitLines(txt)| ==> ReadInstruction(SplitLines(txt)[k]).Ok?
  {
    MapAll(SplitLines(txt), ReadInstruction)
  }

  // ---------------------------------------------------------------- the trench

  /** The cells `Instruction.getNodes` digs from `current`: one per step, the i-th at current + direction * i. */
  function Segment(current: Vec2, ins: Instruction): seq<Vec2>
  {
    seq(if ins.steps > 0 then ins.steps else 0, i => current.Add(ins.direction.Scale(i + 1)))
  }

  /** A path of cells, each next to the one before. */
  predicate Walk(ps: seq<Vec2>)
  {
    forall i :: 0 < i < |ps| ==> Adjacent(ps[i - 1], ps[i])
  }

  /**
   * With a unit direction the dug cells are `steps` many, the first next to `current`, each next
   * to the one before, and the last `steps` away in that direction.
   */
  lemma SegmentWalk(current: Vec2, ins: Instruction)
    requires Adjacent(Vec2(0, 0), ins.direction) && ins.steps > 0
    ensures var s := Segment(current, ins);
      |s| == ins.steps && Adjacent(current, s[0]) && Walk(s) && s[|s| - 1] == current.Add(ins.direction.Scale(ins.steps))
  {
    var s := Segment(current, ins);
    assert ins.direction.Scale(1) == ins.direction;
    assert s[0] == current.Add(ins.direction);
    StepAdjacent(current, ins.direction);
    forall i | 0 < i < |s|
      ensures Adjacent(s[i - 1], s[i])
    {
      ScaleSucc(ins.direction, i);
      assert s[i] == current.Add(ins.direction.Scale(i + 1));
      assert s[i - 1] == current.Add(ins.direction.Scale(i));
      assert s[i] == s[i - 1].Add(ins.direction);
      StepAdjacent(s[i - 1], ins.direction);
    }
  }

  /** One more multiple of `d` is one more step by `d`. */
  lemma ScaleSucc(d: Vec2, i: int)
    ensures d.Scale(i + 1) == d.Scale(i).Add(d)
  {
    assert (i + 1) * d.x == i * d.x + d.x;
    assert (i + 1) * d.y == i * d.y + d.y;
  }

  /** A step by a unit vector reaches a cell next to the start. */
  lemma StepAdjacent(p: Vec2, d: Vec2)
    requires Adjacent(Vec2(0, 0), d)
    ensures Adjacent(p, p.Add(d))
  {
  }

  /** `Instruction.getNodes`: the loop that appends one cell per step. */
  method GetSegment(ins: Instruction, current: Vec2) returns (nodes: seq<Vec2>)
    ensures nodes == Segment(current, ins)
  {
    nodes := [];
    var i := 1;
    while i < ins.steps + 1
      invariant 1 <= i && (ins.steps > 0 ==> i <= ins.steps + 1) && (ins.steps <= 0 ==> i == 1)
      invariant nodes == Segment(current, Instruction(ins.direction, i - 1))
    {
      assert Segment(current, Instruction(ins.direction, i)) == nodes + [current.Add(ins.direction.Scale(i))];
      nodes := nodes + [current.Add(ins.direction.Scale(i))];
      i := i + 1;
    }
    if ins.steps <= 0 {
      assert |Segment(current, ins)| == 0 && |nodes| == 0;
    } else {
      assert ins == Instruction(ins.direction, i - 1);
    }
  }

  /**
   * The loop of `getNodes` from `current` onwards: each instruction digs from the last cell dug so
   * far. `started` says whether a cell was dug before; reading the last cell of an empty list
   * raises IndexError, which happens exactly when the first instruction digs nothing.
   */
  function TraceFrom(current: Vec2, started: bool, ins: seq<Instruction>): Result<seq<Vec2>>
    decreases |ins|
  {
    if ins == [] then Ok([])
    else
      var seg := Segment(current, ins[0]);
      if seg == [] && !started then Err("IndexError")
      else
        var next := if seg == [] then current else seg[|seg| - 1];
        match TraceFrom(next, true, ins[1..])
        case Err(e) => Err(e)
        case Ok(rest) => Ok(seg + rest)
  }

  /** The cells dug by `ins` from the origin, before the shift. */
  function Trace(ins: seq<Instruction>): Result<seq<Vec2>>
  {
    TraceFrom(Vec2(0, 0), false, ins)
  }

  /** Once a cell was dug the trace never fails; before, it fails exactly when the next instruction digs nothing. */
  lemma {:induction false} TraceFromErr(current: Vec2, started: bool, ins: seq<Instruction>)
    ensures TraceFrom(current, started, ins).Err? <==> !started && |ins| > 0 && ins[0].steps <= 0
    ensures TraceFrom(current, started, ins).Err? ==> TraceFrom(current, started, ins).error == "IndexError"
    decreases |ins|
  {
    if ins != [] {
      var seg := Segment(current, ins[0]);
      var next := if seg == [] then current else seg[|seg| - 1];
      TraceFromErr(next, true, ins[1..]);
    }
  }

  /** The total number of steps of the instructions. */
  function TotalSteps(ins: seq<Instruction>): int
  {
    if ins == [] then 0 else ins[0].steps + TotalSteps(ins[1..])
  }

  /**
   * With unit directions and positive step counts, the trace is one cell per step, starts next to
   * `current`, and each cell is next to the one before.
   */
  lemma {:induction false} TraceFromWalk(current: Vec2, started: bool, ins: seq<Instruction>)
    requires forall k :: 0 <= k < |ins| ==> Adjacent(Vec2(0, 0), ins[k].direction) && ins[k].steps > 0
    ensures TraceFrom(current, started, ins).Ok?
    ensures var t := TraceFrom(current, started, ins).value;
      |t| == TotalSteps(ins) && Walk([current] + t)
    decreases |ins|
  {
    if ins != [] {
      var seg := Segment(current, ins[0]);
      SegmentWalk(current, ins[0]);
      var next := seg[|seg| - 1];
      TraceFromWalk(next, true, ins[1..]);
      var rest := TraceFrom(next, true, ins[1..]).value;
      WalkCons(current, seg);
      WalkJoin([current] + seg, rest);
      assert [current] + (seg + rest) == ([current] + seg) + rest;
    }
  }

  /** A cell next to the first of a walk starts a longer walk. */
  lemma WalkCons(c: Vec2, s: seq<Vec2>)
    requires |s| > 0 && Adjacent(c, s[0]) && Walk(s)
    ensures Walk([c] + s)
  {
    var w := [c] + s;
    forall i | 0 < i < |w|
      ensures Adjacent(w[i - 1], w[i])
    {
      if i > 1 {
        assert w[i - 1] == s[i - 2] && w[i] == s[i - 1];
      }
    }
  }

  /** Two walks, the second starting where the first ends, join into one. */
  lemma WalkJoin(a: seq<Vec2>, b: seq<Vec2>)
    requires |a| > 0 && Walk(a) && Walk([a[|a| - 1]] + b)
    ensures Walk(a + b)
  {
    var w := a + b;
    var t := [a[|a| - 1]] + b;
    forall i | 0 < i < |w|
      ensures Adjacent(w[i - 1], w[i])
    {
      if i >= |a| {
        assert w[i] == t[i - |a| + 1] && w[i - 1] == t[i - |a|];
      }
    }
  }

  /** The x coordinates, and the y coordinates, of a list of cells. */
  function Xs(ps: seq<Vec2>): (r: seq<int>)
    ensures |r| == |ps| && forall i :: 0 <= i < |ps| ==> r[i] == ps[i].x
  {
    seq(|ps|, i requires 0 <= i < |ps| => ps[i].x)
  }

  function Ys(ps: seq<Vec2>): (r: seq<int>)
    ensures |r| == |ps| && forall i :: 0 <= i < |ps| ==> r[i] == ps[i].y
  {
    seq(|ps|, i requires 0 <= i < |ps| => ps[i].y)
  }

  /** Every cell moved back by `d`. */
  function ShiftBy(nodes: seq<Vec2>, d: Vec2): (r: seq<Vec2>)
    ensures |r| == |nodes| && forall i :: 0 <= i < |nodes| ==> r[i] == nodes[i].Sub(d)
  {
    seq(|nodes|, i requires 0 <= i < |nodes| => nodes[i].Sub(d))
  }

  /**
   * `shiftNodes`: every cell moved by the same vector so that the smallest x and the smallest y
   * become 0; `min` of an empty list raises ValueError.
   */
  function ShiftNodes(nodes: seq<Vec2>): (r: Result<seq<Vec2>>)
    ensures r.Err? <==> nodes == []
    ensures r.Err? ==> r.error == "ValueError"
    ensures r.Ok? ==> |r.value| == |nodes|
  {
    if nodes == [] then Err("ValueError")
    else Ok(ShiftBy(nodes, Vec2(Lists.Min(Xs(nodes)), Lists.Min(Ys(nodes)))))
  }

  /** Moving every cell by the same vector keeps the differences between cells. */
  lemma ShiftByKeepsDifferences(nodes: seq<Vec2>, d: Vec2)
    ensures var r := ShiftBy(nodes, d);
      forall i, j :: 0 <= i < |nodes| && 0 <= j < |nodes| ==> r[i].Sub(r[j]) == nodes[i].Sub(nodes[j])
  {
  }

  /** The shift keeps the differences between cells, and leaves the smallest x and the smallest y at 0. */
  lemma ShiftNodesSpec(nodes: seq<Vec2>)
    requires nodes != []
    ensures var r := ShiftNodes(nodes).value;
      forall i, j :: 0 <= i < |nodes| && 0 <= j < |nodes| ==> r[i].Sub(r[j]) == nodes[i].Sub(nodes[j])
    ensures var r := ShiftNodes(nodes).value;
      forall i :: 0 <= i < |nodes| ==> r[i].x >= 0 && r[i].y >= 0
    ensures var r := ShiftNodes(nodes).value;
      0 in Xs(r) && 0 in Ys(r)
  {
    var xs, ys := Xs(nodes), Ys(nodes);
    var mx, my := Lists.Min(xs), Lists.Min(ys);
    var r := ShiftBy(nodes, Vec2(mx, my));
    ShiftByKeepsDifferences(nodes, Vec2(mx, my));
    forall i | 0 <= i < |nodes|
      ensures r[i].x >= 0 && r[i].y >= 0
    {
      assert xs[i] == nodes[i].x && ys[i] == nodes[i].y;
    }
    var kx :| 0 <= kx < |xs| && xs[kx] == mx;
    var ky :| 0 <= ky < |ys| && ys[ky] == my;
    assert Xs(r)[kx] == r[kx].x == 0;
    assert Ys(r)[ky] == r[ky].y == 0;
  }

  /** The trace of `ins` appended to the cells `nodes` dug so far, which end at `current`. */
  function Resume(nodes: seq<Vec2>, current: Vec2, ins: seq<Instruction>): Result<seq<Vec2>>
  {
    match TraceFrom(current, nodes != [], ins)
    case Err(e) => Err(e)
    case Ok(rest) => Ok(nodes + rest)
  }

  /** One instruction of the loop of `getNodes`: digging its cells leaves the same trace to resume. */
  lemma ResumeStep(nodes: seq<Vec2>, current: Vec2, ins: seq<Instruction>)
    requires ins != [] && (nodes != [] ==> current == nodes[|nodes| - 1])
    ensures var after := nodes + Segment(current, ins[0]);
      (after == [] ==> Resume(nodes, current, ins) == Err("IndexError"))
      && (after != [] ==> Resume(nodes, current, ins) == Resume(after, after[|after| - 1], ins[1..]))
  {
    var seg := Segment(current, ins[0]);
    var after := nodes + seg;
    if after != [] {
      var next := if seg == [] then current else seg[|seg| - 1];
      assert after[|after| - 1] == next;
      match TraceFrom(next, true, ins[1..]) {
        case Err(e) =>
        case Ok(rest) => assert nodes + (seg + rest) == after + rest;
      }
    }
  }

  /**
   * `getNodes`: the cells dug from the origin, shifted; IndexError when the first instruction
   * digs nothing, ValueError when there are no instructions.
   */
  method GetNodes(instructions: seq<Instruction>) returns (r: Result<seq<Vec2>>)
    ensures r == match Trace(instructions) case Err(e) => Err(e) case Ok(t) => ShiftNodes(t)
  {
    var nodes: seq<Vec2> := [];
    var current := Vec2(0, 0);
    var i := 0;
    assert instructions[0..] == instructions;
    match Trace(instructions) {
      case Err(e) =>
      case Ok(rest) => assert nodes + rest == rest;
    }
    while i < |instructions|
      invariant 0 <= i <= |instructions|
      invariant nodes != [] ==> current == nodes[|nodes| - 1]
      invariant Trace(instructions) == Resume(nodes, current, instructions[i..])
    {
      var seg := GetSegment(instructions[i], current);
      ResumeStep(nodes, current, instructions[i..]);
      assert instructions[i..][1..] == instructions[i + 1..];
      nodes := nodes + seg;
      if nodes == [] {
        return Err("IndexError");
      }
      current := nodes[|nodes| - 1];
      i := i + 1;
    }
    assert instructions[i..] == [];
    assert nodes + [] == nodes;
    r := ShiftNodes(nodes);
  }

  /**
   * What `getNodes` promises on instructions with unit directions and positive step counts: one
   * cell per step, shifted so the smallest coordinates are 0, each next to the one before.
   */
  lemma GetNodesSpec(instructions: seq<Instruction>)
    requires |instructions| > 0
    requires forall k :: 0 <= k < |instructions| ==> Adjacent(Vec2(0, 0), instructions[k].direction) && instructions[k].steps > 0
    ensures Trace(instructions).Ok?
    ensures var s := ShiftNodes(Trace(instructions).value);
      s.Ok? && |s.value| == TotalSteps(instructions) && Walk(s.value)
  {
    TraceFromWalk(Vec2(0, 0), false, instructions);
    var t := Trace(instructions).value;
    assert |t| > 0 by {
      var seg := Segment(Vec2(0, 0), instructions[0]);
      assert |seg| > 0;
    }
    WalkTail(Vec2(0, 0), t);
    ShiftNodesSpec(t);
    WalkShifted(t, ShiftNodes(t).value);
  }

  /** The rest of a walk is a walk. */
  lemma WalkTail(c: Vec2, t: seq<Vec2>)
    requires Walk([c] + t)
    ensures Walk(t)
  {
    forall i | 0 < i < |t|
      ensures Adjacent(t[i - 1], t[i])
    {
      assert ([c] + t)[i] == t[i - 1] && ([c] + t)[i + 1] == t[i];
    }
  }

  /** Moving every cell by the same vector keeps a walk a walk. */
  lemma WalkShifted(t: seq<Vec2>, s: seq<Vec2>)
    requires |s| == |t| && Walk(t)
    requires forall i, j :: 0 <= i < |t| && 0 <= j < |t| ==> s[i].Sub(s[j]) == t[i].Sub(t[j])
    ensures Walk(s)
  {
    forall i | 0 < i < |s|
      ensures Adjacent(s[i - 1], s[i])
    {
      assert s[i].Sub(s[i - 1]) == t[i].Sub(t[i - 1]);
    }
  }

  // ---------------------------------------------------------------- the map

  /** The points of a `Map`, one row per y. */
  type Grid = seq<seq<bool>>

  /** Every row as long as the first. */
  predicate Rectangular(g: Grid)
  {
    forall y :: 0 <= y < |g| ==> |g[y]| == |g[0]|
  }

  predicate SameShape(a: Grid, b: Grid)
  {
    |a| == |b| && forall y :: 0 <= y < |a| ==> |a[y]| == |b[y]|
  }

  /** Python's `g[p.y][p.x]` index resolution: the cell meant, counting negative indices from the end, or none (IndexError). */
  function Wrap(g: Grid, p: Vec2): (r: Option<Vec2>)
    ensures r.Some? ==> InBounds(g, r.value)
    ensures InBounds(g, p) ==> r == Some(p)
    ensures p.x >= 0 && p.y >= 0 ==> (r.Some? <==> InBounds(g, p))
  {
    match PyIndex(p.y, |g|)
    case None => None
    case Some(y) =>
      match PyIndex(p.x, |g[y]|)
      case None => None
      case Some(x) => Some(Vec2(x, y))
  }

  /** Inside the window of the map (`w` wide, `h` high) reaching one cell around `pos`. */
  predicate InWindow(w: int, h: int, pos: Vec2, p: Vec2)
  {
    (if pos.x - 1 > 0 then pos.x - 1 else 0) <= p.x <= (if w - 1 < pos.x + 1 then w - 1 else pos.x + 1)
    && (if pos.y - 1 > 0 then pos.y - 1 else 0) <= p.y <= (if h - 1 < pos.y + 1 then h - 1 else pos.y + 1)
  }

  /** `p` as a list when it is inside the window, else nothing. */
  function KeepIn(w: int, h: int, pos: Vec2, p: Vec2): seq<Vec2>
  {
    if InWindow(w, h, pos, p) then [p] else []
  }

  /**
   * `Map.neighborPositions` on a map `w` wide and `h` high: the positions below, above, left and
   * right of `pos`, in that order, kept when inside the window of the map around `pos`.
   */
  function NeighborPositions(w: int, h: int, pos: Vec2): (r: seq<Vec2>)
    ensures |r| <= 4
    ensures forall k :: 0 <= k < |r| ==> 0 <= r[k].x < w && 0 <= r[k].y < h
  {
    KeepIn(w, h, pos, Vec2(pos.x, pos.y + 1)) + KeepIn(w, h, pos, Vec2(pos.x, pos.y - 1))
    + KeepIn(w, h, pos, Vec2(pos.x - 1, pos.y)) + KeepIn(w, h, pos, Vec2(pos.x + 1, pos.y))
  }

  /** From a position on the map, the neighbour positions are exactly the cells of the map next to it. */
  lemma NeighborPositionsAdjacent(w: int, h: int, pos: Vec2, q: Vec2)
    requires 0 <= pos.x < w && 0 <= pos.y < h
    ensures q in NeighborPositions(w, h, pos) <==> 0 <= q.x < w && 0 <= q.y < h && Adjacent(pos, q)
  {
    if Adjacent(pos, q) {
      assert q == Vec2(pos.x, pos.y + 1) || q == Vec2(pos.x, pos.y - 1) || q == Vec2(pos.x - 1, pos.y) || q == Vec2(pos.x + 1, pos.y);
    }
  }

  /** The number of true cells of a row. */
  function CountRow(row: seq<bool>): nat
  {
    if row == [] then 0 else (if row[0] then 1 else 0) + CountRow(row[1..])
  }

  /** `int(Map)`: the number of true cells. */
  function Count(g: Grid): nat
  {
    if g == [] then 0 else CountRow(g[0]) + Count(g[1..])
  }

  /** Setting a false cell of a row adds one to its count. */
  lemma {:induction false} CountRowSet(row: seq<bool>, x: nat)
    requires x < |row| && !row[x]
    ensures CountRow(row[x := true]) == CountRow(row) + 1
    decreases |row|
  {
    if x > 0 {
      assert row[x := true][1..] == row[1..][x - 1 := true];
      CountRowSet(row[1..], x - 1);
    }
  }

  /** Setting a false cell of a map adds one to its count. */
  lemma {:induction false} CountSet(g: Grid, p: Vec2)
    requires InBounds(g, p) && !g[p.y][p.x]
    ensures Count(g[p.y := g[p.y][p.x := true]]) == Count(g) + 1
    decreases |g|
  {
    if p.y == 0 {
      CountRowSet(g[0], p.x);
      assert g[0 := g[0][p.x := true]][1..] == g[1..];
    } else {
      assert g[p.y := g[p.y][p.x := true]][1..] == g[1..][p.y - 1 := g[p.y][p.x := true]];
      CountSet(g[1..], Vec2(p.x, p.y - 1));
    }
  }

  /** A map with no true cell counts 0, and one with a true cell counts at least 1. */
  lemma {:induction false} CountZero(g: Grid)
    ensures Count(g) == 0 <==> forall y, x :: 0 <= y < |g| && 0 <= x < |g[y]| ==> !g[y][x]
    decreases |g|
  {
    if g != [] {
      CountZero(g[1..]);
      CountRowZero(g[0]);
      assert forall y :: 1 <= y < |g| ==> g[y] == g[1..][y - 1];
    }
  }

  lemma {:induction false} CountRowZero(row: seq<bool>)
    ensures CountRow(row) == 0 <==> forall x :: 0 <= x < |row| ==> !row[x]
    decreases |row|
  {
    if row != [] {
      CountRowZero(row[1..]);
      assert forall x :: 1 <= x < |row| ==> row[x] == row[1..][x - 1];
    }
  }

  /** `Map`: a grid of points, which `m[pos] = value` sets one at a time. */
  class BoolMap {
    var points: Grid

    constructor (points: Grid)
      ensures this.points == points
    {
      this.points := points;
    }

    /** `Map.copy`: a new map with the same points. */
    method Copy() returns (c: BoolMap)
      ensures fresh(c) && c.points == points
    {
      c := new BoolMap(points);
    }

    /** `m[pos] = value` on a position of the map; turning a false point true adds one to `int(m)`. */
    method Set(pos: Vec2, value: bool)
      requires InBounds(points, pos)
      modifies this
      ensures points == old(points)[pos.y := old(points)[pos.y][pos.x := value]]
      ensures value && !old(points)[pos.y][pos.x] ==> Count(points) == Count(old(points)) + 1
    {
      if value && !points[pos.y][pos.x] {
        CountSet(points, pos);
      }
      points := points[pos.y := points[pos.y][pos.x := value]];
    }
  }

  /** `h` rows of `w` false points (none when the count is not positive). */
  function Blank(w: int, h: int): (g: Grid)
    ensures |g| == (if h > 0 then h else 0) && Rectangular(g)
    ensures forall y :: 0 <= y < |g| ==> |g[y]| == (if w > 0 then w else 0) && forall x :: 0 <= x < |g[y]| ==> !g[y][x]
  {
    seq(if h > 0 then h else 0, _ => seq(if w > 0 then w else 0, _ => false))
  }

  /** The empty map `createBoundaryMap` starts from: as wide and high as the largest coordinates plus one. */
  function Frame(nodes: seq<Vec2>): Grid
    requires nodes != []
  {
    Blank(Lists.Max(Xs(nodes)) + 1, Lists.Max(Ys(nodes)) + 1)
  }

  /** The cells that `nodes` mark in the frame, negative indices counting from the end. */
  ghost predicate MarkedBy(g: Grid, nodes: seq<Vec2>, n: nat, c: Vec2)
    requires n <= |nodes|
  {
    exists k :: 0 <= k < n && Wrap(g, nodes[k]) == Some(c)
  }

  /** `points` is the frame `g` with exactly the cells of the first `n` nodes set. */
  ghost predicate MarkedExactly(g: Grid, nodes: seq<Vec2>, n: nat, points: Grid)
    requires n <= |nodes|
  {
    SameShape(points, g)
    && (forall k :: 0 <= k < n ==> Wrap(g, nodes[k]).Some?)
    && forall y, x :: 0 <= y < |points| && 0 <= x < |points[y]| ==> (points[y][x] <==> MarkedBy(g, nodes, n, Vec2(x, y)))
  }

  /** Setting the cell of one more node keeps the points marked exactly. */
  lemma MarkStep(g: Grid, nodes: seq<Vec2>, n: nat, points: Grid, p: Vec2)
    requires n < |nodes| && MarkedExactly(g, nodes, n, points) && Wrap(g, nodes[n]) == Some(p)
    ensures InBounds(points, p) && MarkedExactly(g, nodes, n + 1, points[p.y := points[p.y][p.x := true]])
  {
    var after := points[p.y := points[p.y][p.x := true]];
    forall y, x | 0 <= y < |after| && 0 <= x < |after[y]|
      ensures after[y][x] <==> MarkedBy(g, nodes, n + 1, Vec2(x, y))
    {
      if MarkedBy(g, nodes, n, Vec2(x, y)) {
        var k :| 0 <= k < n && Wrap(g, nodes[k]) == Some(Vec2(x, y));
        assert 0 <= k < n + 1;
      }
      if MarkedBy(g, nodes, n + 1, Vec2(x, y)) && Vec2(x, y) != p {
        var k :| 0 <= k < n + 1 && Wrap(g, nodes[k]) == Some(Vec2(x, y));
        assert k < n;
      }
    }
  }

  /**
   * `createBoundaryMap`: a frame of false points, with the point of every node set; `max` of no
   * nodes raises ValueError, and a node whose negative index reaches past the frame IndexError.
   */
  method CreateBoundaryMap(nodes: seq<Vec2>) returns (r: Result<BoolMap>)
    ensures nodes == [] ==> r == Err("ValueError")
    ensures nodes != [] ==> (r.Err? <==> exists k :: 0 <= k < |nodes| && Wrap(Frame(nodes), nodes[k]).None?)
    ensures nodes != [] && r.Err? ==> r.error == "IndexError"
    ensures r.Ok? ==> fresh(r.value) && nodes != [] && MarkedExactly(Frame(nodes), nodes, |nodes|, r.value.points)
  {
    if nodes == [] {
      return Err("ValueError");
    }
    var g := Frame(nodes);
    var points := g;
    var i := 0;
    while i < |nodes|
      invariant 0 <= i <= |nodes| && MarkedExactly(g, nodes, i, points)
    {
      var c := Wrap(points, nodes[i]);
      assert c == Wrap(g, nodes[i]);
      if c.None? {
        return Err("IndexError");
      }
      MarkStep(g, nodes, i, points, c.value);
      points := points[c.value.y := points[c.value.y][c.value.x := true]];
      i := i + 1;
    }
    var boundary := new BoolMap(points);
    r := Ok(boundary);
  }

  /** For nodes with no negative coordinate (as `getNodes` returns them) every node marks its own cell. */
  lemma FrameHoldsNodes(nodes: seq<Vec2>)
    requires nodes != []
    requires forall k :: 0 <= k < |nodes| ==> nodes[k].x >= 0 && nodes[k].y >= 0
    ensures forall k :: 0 <= k < |nodes| ==> Wrap(Frame(nodes), nodes[k]) == Some(nodes[k])
    ensures forall c :: MarkedBy(Frame(nodes), nodes, |nodes|, c) <==> c in nodes
  {
    var g := Frame(nodes);
    forall k | 0 <= k < |nodes|
      ensures InBounds(g, nodes[k])
    {
      assert Xs(nodes)[k] <= Lists.Max(Xs(nodes));
      assert Ys(nodes)[k] <= Lists.Max(Ys(nodes));
    }
    forall c | c in nodes
      ensures MarkedBy(g, nodes, |nodes|, c)
    {
      var k :| 0 <= k < |nodes| && nodes[k] == c;
      assert Wrap(g, nodes[k]) == Some(c);
    }
  }

  // ---------------------------------------------------------------- the flood fill

  /** A path through cells of the map that are false in `g`, each next to the one before. */
  ghost predicate OpenPath(g: Grid, path: seq<Vec2>)
  {
    Walk(path) && forall i :: 0 <= i < |path| ==> InBounds(g, path[i]) && !g[path[i].y][path[i].x]
  }

  /** `b` is reached from `a` through false cells of `g`, moving between 4-adjacent cells. */
  ghost predicate Connected(g: Grid, a: Vec2, b: Vec2)
  {
    exists path :: |path| > 0 && path[0] == a && path[|path| - 1] == b && OpenPath(g, path)
  }

  /** A false cell is connected to itself. */
  lemma ConnectedStart(g: Grid, a: Vec2)
    requires InBounds(g, a) && !g[a.y][a.x]
    ensures Connected(g, a, a)
  {
    assert OpenPath(g, [a]);
  }

  /** A false cell next to a connected one is connected. */
  lemma ConnectedStep(g: Grid, a: Vec2, b: Vec2, c: Vec2)
    requires Connected(g, a, b) && InBounds(g, c) && !g[c.y][c.x] && Adjacent(b, c)
    ensures Connected(g, a, c)
  {
    var path :| |path| > 0 && path[0] == a && path[|path| - 1] == b && OpenPath(g, path);
    var longer := path + [c];
    assert OpenPath(g, longer);
  }

  /** A cell the fill set: true now, false in the map it started from. */
  predicate Newly(g: Grid, f: Grid, c: Vec2)
  {
    InBounds(g, c) && InBounds(f, c) && f[c.y][c.x] && !g[c.y][c.x]
  }

  /** Every false cell of `g` next to a cell the fill set is set as well. */
  ghost predicate Closed(g: Grid, f: Grid)
  {
    forall c, q :: Newly(g, f, c) && Adjacent(c, q) && InBounds(g, q) && !g[q.y][q.x] ==> InBounds(f, q) && f[q.y][q.x]
  }

  /** A closed fill that holds the start holds every cell on an open path from it. */
  lemma {:induction false} ClosedCovers(g: Grid, f: Grid, path: seq<Vec2>)
    requires SameShape(f, g) && Closed(g, f)
    requires |path| > 0 && OpenPath(g, path) && f[path[0].y][path[0].x]
    ensures f[path[|path| - 1].y][path[|path| - 1].x]
    decreases |path|
  {
    if |path| > 1 {
      var front := path[..|path| - 1];
      assert OpenPath(g, front);
      ClosedCovers(g, f, front);
      assert Newly(g, f, path[|path| - 2]);
    }
  }

  /** The cells of the map that are still false. */
  ghost function FalseCells(g: Grid): set<Vec2>
  {
    set y, x | 0 <= y < |g| && 0 <= x < |g[y]| && !g[y][x] :: Vec2(x, y)
  }

  /** `f` with the cell `p` set. */
  function SetCell(f: Grid, p: Vec2): (r: Grid)
    requires InBounds(f, p)
    ensures SameShape(r, f) && r[p.y][p.x]
    ensures forall y, x :: 0 <= y < |f| && 0 <= x < |f[y]| && Vec2(x, y) != p ==> r[y][x] == f[y][x]
  {
    f[p.y := f[p.y][p.x := true]]
  }

  /** Setting a false cell leaves one false cell fewer. */
  lemma FalseCellsShrink(g: Grid, p: Vec2)
    requires InBounds(g, p) && !g[p.y][p.x]
    ensures |FalseCells(SetCell(g, p))| < |FalseCells(g)|
  {
    assert FalseCells(SetCell(g, p)) == FalseCells(g) - {p};
    assert p in FalseCells(g);
  }

  /** `f` holds every true cell of `g`. */
  predicate Grows(g: Grid, f: Grid)
    requires SameShape(f, g)
  {
    forall y, x :: 0 <= y < |g| && 0 <= x < |g[y]| && g[y][x] ==> f[y][x]
  }

  /** Each cell on the stack was pushed by a set cell next to it (`from` holds those cells). */
  ghost predicate Linked(g: Grid, f: Grid, stack: seq<Vec2>, from: seq<Vec2>)
  {
    |from| == |stack| && forall k :: 0 <= k < |stack| ==> Newly(g, f, from[k]) && Adjacent(from[k], stack[k])
  }

  /** Every cell the fill set is connected to the start. */
  ghost predicate Reached(g: Grid, start: Vec2, f: Grid)
  {
    forall c :: Newly(g, f, c) ==> Connected(g, start, c)
  }

  /** Every cell of the map next to a cell the fill set is set or still waits on the stack. */
  ghost predicate Pending(g: Grid, f: Grid, stack: seq<Vec2>)
  {
    forall c, q :: Newly(g, f, c) && Adjacent(c, q) && InBounds(g, q) ==> InBounds(f, q) && (f[q.y][q.x] || q in stack)
  }

  predicate AllInBounds(g: Grid, ps: seq<Vec2>)
  {
    forall k :: 0 <= k < |ps| ==> InBounds(g, ps[k])
  }

  /** Popping the top of the stack and pushing neighbour positions of the map keeps the stack on the map. */
  lemma InBoundsPopPush(g: Grid, stack: seq<Vec2>, more: seq<Vec2>)
    requires Rectangular(g) && |g| > 0 && AllInBounds(g, stack) && |stack| > 0
    requires forall k :: 0 <= k < |more| ==> 0 <= more[k].x < |g[0]| && 0 <= more[k].y < |g|
    ensures AllInBounds(g, stack[..|stack| - 1] + more)
  {
  }

  /** What holds of the fill before each pop of the stack. */
  ghost predicate FillInv(g: Grid, w: int, h: int, start: Vec2, s: Vec2, f: Grid, stack: seq<Vec2>, from: seq<Vec2>)
  {
    Rectangular(g) && |g| > 0 && w == |g[0]| && h == |g| && SameShape(f, g) && InBounds(g, s)
    && Grows(g, f) && f[s.y][s.x]
    && AllInBounds(g, stack)
    && (InBounds(g, start) ==> s == start && Linked(g, f, stack, from) && Reached(g, start, f) && Pending(g, f, stack))
  }

  /** At the first visit only the start cell is set by the fill. */
  lemma NewlyInit(g: Grid, s: Vec2, c: Vec2)
    requires Rectangular(g) && InBounds(g, s) && !g[s.y][s.x]
    ensures Newly(g, SetCell(g, s), c) <==> c == s
  {
  }

  /** The neighbours pushed at the first visit were pushed by the start. */
  lemma LinkedInit(g: Grid, start: Vec2, s: Vec2)
    requires Rectangular(g) && |g| > 0 && InBounds(g, start) && start == s && !g[s.y][s.x]
    ensures var stack := NeighborPositions(|g[0]|, |g|, start);
      Linked(g, SetCell(g, s), stack, seq(|stack|, _ => s))
  {
    var stack := NeighborPositions(|g[0]|, |g|, start);
    var from := seq(|stack|, _ => s);
    forall k | 0 <= k < |stack|
      ensures Newly(g, SetCell(g, s), from[k]) && Adjacent(from[k], stack[k])
    {
      NewlyInit(g, s, from[k]);
      NeighborPositionsAdjacent(|g[0]|, |g|, start, stack[k]);
    }
  }

  /** Every neighbour of the start waits on the stack after the first visit. */
  lemma PendingInit(g: Grid, start: Vec2, s: Vec2)
    requires Rectangular(g) && |g| > 0 && InBounds(g, start) && start == s && !g[s.y][s.x]
    ensures Pending(g, SetCell(g, s), NeighborPositions(|g[0]|, |g|, start))
  {
    var f := SetCell(g, s);
    var stack := NeighborPositions(|g[0]|, |g|, start);
    forall c, q | Newly(g, f, c) && Adjacent(c, q) && InBounds(g, q)
      ensures InBounds(f, q) && (f[q.y][q.x] || q in stack)
    {
      NewlyInit(g, s, c);
      NeighborPositionsAdjacent(|g[0]|, |g|, start, q);
    }
  }

  /** The first visit sets a false start cell and pushes its neighbours. */
  lemma FillInitClear(g: Grid, start: Vec2, s: Vec2)
    requires Rectangular(g) && |g| > 0 && Wrap(g, start) == Some(s) && !g[s.y][s.x]
    ensures var stack := NeighborPositions(|g[0]|, |g|, start);
      FillInv(g, |g[0]|, |g|, start, s, SetCell(g, s), stack, seq(|stack|, _ => s))
  {
    var stack := NeighborPositions(|g[0]|, |g|, start);
    GrowsSet(g, g, s);
    assert AllInBounds(g, stack);
    if InBounds(g, start) {
      LinkedInit(g, start, s);
      PendingInit(g, start, s);
      ReachedInit(g, start, s);
    }
  }

  /** The start cell, the only one set at the first visit, is connected to the start. */
  lemma ReachedInit(g: Grid, start: Vec2, s: Vec2)
    requires Rectangular(g) && InBounds(g, start) && start == s && !g[s.y][s.x]
    ensures Reached(g, start, SetCell(g, s))
  {
    ConnectedStart(g, start);
    forall c | Newly(g, SetCell(g, s), c)
      ensures Connected(g, start, c)
    {
      NewlyInit(g, s, c);
    }
  }

  /** The first visit, at the start `s` (the cell the start coordinates index). */
  lemma FillInit(g: Grid, start: Vec2, s: Vec2)
    requires Rectangular(g) && |g| > 0 && Wrap(g, start) == Some(s)
    ensures g[s.y][s.x] ==> FillInv(g, |g[0]|, |g|, start, s, g, [], [])
    ensures !g[s.y][s.x] ==> var stack := NeighborPositions(|g[0]|, |g|, start);
      FillInv(g, |g[0]|, |g|, start, s, SetCell(g, s), stack, seq(|stack|, _ => s))
  {
    if !g[s.y][s.x] {
      FillInitClear(g, start, s);
    } else {
      assert forall c :: !Newly(g, g, c);
    }
  }

  /** Dropping the top of the stack when it is set keeps every pending neighbour accounted for. */
  lemma PendingPopSet(g: Grid, f: Grid, stack: seq<Vec2>)
    requires Pending(g, f, stack) && |stack| > 0
    requires var pos := stack[|stack| - 1]; InBounds(f, pos) && f[pos.y][pos.x]
    ensures Pending(g, f, stack[..|stack| - 1])
  {
    var pos := stack[|stack| - 1];
    var rest := stack[..|stack| - 1];
    assert stack == rest + [pos];
    forall c, q | Newly(g, f, c) && Adjacent(c, q) && InBounds(g, q)
      ensures InBounds(f, q) && (f[q.y][q.x] || q in rest)
    {
      assert q in stack ==> q in rest || q == pos;
    }
  }

  lemma LinkedPop(g: Grid, f: Grid, stack: seq<Vec2>, from: seq<Vec2>)
    requires Linked(g, f, stack, from) && |stack| > 0
    ensures Linked(g, f, stack[..|stack| - 1], from[..|from| - 1])
  {
  }

  /** Popping a cell that is already set changes nothing else. */
  lemma FillPopSet(g: Grid, w: int, h: int, start: Vec2, s: Vec2, f: Grid, stack: seq<Vec2>, from: seq<Vec2>)
    requires FillInv(g, w, h, start, s, f, stack, from) && |stack| > 0
    requires var pos := stack[|stack| - 1]; f[pos.y][pos.x]
    ensures FillInv(g, w, h, start, s, f, stack[..|stack| - 1], if InBounds(g, start) then from[..|from| - 1] else from)
  {
    if InBounds(g, start) {
      PendingPopSet(g, f, stack);
      LinkedPop(g, f, stack, from);
    }
  }

  /** Setting a false cell adds just that cell to the ones the fill set. */
  lemma NewlySet(g: Grid, f: Grid, p: Vec2, c: Vec2)
    requires SameShape(f, g) && Grows(g, f) && InBounds(g, p) && !f[p.y][p.x]
    ensures Newly(g, SetCell(f, p), c) <==> Newly(g, f, c) || c == p
  {
  }

  /** Setting the popped false cell `pos` and pushing its neighbours `more` keeps every pending neighbour accounted for. */
  lemma PendingPopClear(g: Grid, f: Grid, stack: seq<Vec2>, more: seq<Vec2>)
    requires SameShape(f, g) && Grows(g, f) && Pending(g, f, stack) && |stack| > 0
    requires var pos := stack[|stack| - 1]; InBounds(g, pos) && !f[pos.y][pos.x]
    requires var pos := stack[|stack| - 1]; forall q :: InBounds(g, q) && Adjacent(pos, q) ==> q in more
    ensures Pending(g, SetCell(f, stack[|stack| - 1]), stack[..|stack| - 1] + more)
  {
    var pos := stack[|stack| - 1];
    var rest := stack[..|stack| - 1];
    var f' := SetCell(f, pos);
    assert stack == rest + [pos];
    forall c, q | Newly(g, f', c) && Adjacent(c, q) && InBounds(g, q)
      ensures InBounds(f', q) && (f'[q.y][q.x] || q in rest + more)
    {
      NewlySet(g, f, pos, c);
      if c != pos {
        assert q in stack ==> q in rest || q == pos;
      }
    }
  }

  /** The same, for the cells that pushed each stack entry. */
  lemma LinkedPopClear(g: Grid, f: Grid, stack: seq<Vec2>, from: seq<Vec2>, more: seq<Vec2>)
    requires SameShape(f, g) && Grows(g, f) && Linked(g, f, stack, from) && |stack| > 0
    requires var pos := stack[|stack| - 1]; InBounds(g, pos) && !f[pos.y][pos.x]
    requires var pos := stack[|stack| - 1]; forall k :: 0 <= k < |more| ==> Adjacent(pos, more[k])
    ensures var pos := stack[|stack| - 1];
      Linked(g, SetCell(f, pos), stack[..|stack| - 1] + more, from[..|from| - 1] + seq(|more|, _ => pos))
  {
    var pos := stack[|stack| - 1];
    var stack' := stack[..|stack| - 1] + more;
    var from' := from[..|from| - 1] + seq(|more|, _ => pos);
    forall k | 0 <= k < |stack'|
      ensures Newly(g, SetCell(f, pos), from'[k]) && Adjacent(from'[k], stack'[k])
    {
      NewlySet(g, f, pos, from'[k]);
    }
  }

  /** And every set cell stays connected to the start, the new one through the cell that pushed it. */
  lemma ReachedPopClear(g: Grid, start: Vec2, f: Grid, stack: seq<Vec2>, from: seq<Vec2>)
    requires SameShape(f, g) && Grows(g, f) && Linked(g, f, stack, from) && Reached(g, start, f) && |stack| > 0
    requires var pos := stack[|stack| - 1]; InBounds(g, pos) && !f[pos.y][pos.x]
    ensures Reached(g, start, SetCell(f, stack[|stack| - 1]))
  {
    var pos := stack[|stack| - 1];
    ConnectedStep(g, start, from[|from| - 1], pos);
    forall c | Newly(g, SetCell(f, pos), c)
      ensures Connected(g, start, c)
    {
      NewlySet(g, f, pos, c);
    }
  }

  /** The conjuncts of the fill invariant that do not depend on where the start lies. */
  lemma ShapePopClear(g: Grid, w: int, h: int, s: Vec2, f: Grid, stack: seq<Vec2>)
    requires Rectangular(g) && |g| > 0 && w == |g[0]| && h == |g| && SameShape(f, g) && InBounds(g, s)
    requires Grows(g, f) && f[s.y][s.x] && AllInBounds(g, stack) && |stack| > 0
    requires var pos := stack[|stack| - 1]; !f[pos.y][pos.x]
    ensures var pos := stack[|stack| - 1];
      var f' := SetCell(f, pos);
      SameShape(f', g) && Grows(g, f') && f'[s.y][s.x] && AllInBounds(g, stack[..|stack| - 1] + NeighborPositions(w, h, pos))
  {
    var pos := stack[|stack| - 1];
    InBoundsPopPush(g, stack, NeighborPositions(w, h, pos));
    GrowsSet(g, f, pos);
  }

  /** Setting a cell keeps every true cell of `g`. */
  lemma GrowsSet(g: Grid, f: Grid, p: Vec2)
    requires SameShape(f, g) && Grows(g, f) && InBounds(f, p)
    ensures SameShape(SetCell(f, p), g) && Grows(g, SetCell(f, p))
  {
  }

  /** With the start on the map, the bookkeeping of the fill carries over to the new stack. */
  lemma TrackPopClear(g: Grid, w: int, h: int, start: Vec2, s: Vec2, f: Grid, stack: seq<Vec2>, from: seq<Vec2>)
    requires FillInv(g, w, h, start, s, f, stack, from) && |stack| > 0 && InBounds(g, start)
    requires var pos := stack[|stack| - 1]; !f[pos.y][pos.x]
    ensures var pos := stack[|stack| - 1];
      var more := NeighborPositions(w, h, pos);
      var f' := SetCell(f, pos);
      Linked(g, f', stack[..|stack| - 1] + more, from[..|from| - 1] + seq(|more|, _ => pos))
      && Reached(g, start, f') && Pending(g, f', stack[..|stack| - 1] + more)
  {
    var pos := stack[|stack| - 1];
    var more := NeighborPositions(w, h, pos);
    forall q | InBounds(g, q) && Adjacent(pos, q)
      ensures q in more
    {
      NeighborPositionsAdjacent(w, h, pos, q);
    }
    forall k | 0 <= k < |more|
      ensures Adjacent(pos, more[k])
    {
      NeighborPositionsAdjacent(w, h, pos, more[k]);
    }
    PendingPopClear(g, f, stack, more);
    LinkedPopClear(g, f, stack, from, more);
    ReachedPopClear(g, start, f, stack, from);
  }

  /** Popping a false cell sets it and pushes its neighbours; the fill stays sound and keeps track of what remains. */
  lemma FillPopClear(g: Grid, w: int, h: int, start: Vec2, s: Vec2, f: Grid, stack: seq<Vec2>, from: seq<Vec2>)
    requires FillInv(g, w, h, start, s, f, stack, from) && |stack| > 0
    requires var pos := stack[|stack| - 1]; !f[pos.y][pos.x]
    ensures var pos := stack[|stack| - 1];
      var more := NeighborPositions(w, h, pos);
      |FalseCells(SetCell(f, pos))| < |FalseCells(f)|
      && FillInv(g, w, h, start, s, SetCell(f, pos), stack[..|stack| - 1] + more,
                 if InBounds(g, start) then from[..|from| - 1] + seq(|more|, _ => pos) else from)
  {
    var pos := stack[|stack| - 1];
    FalseCellsShrink(f, pos);
    ShapePopClear(g, w, h, s, f, stack);
    if InBounds(g, start) {
      TrackPopClear(g, w, h, start, s, f, stack, from);
    }
  }

  /** An empty stack: the fill is closed, so it holds exactly the cells connected to the start. */
  lemma FillDone(g: Grid, w: int, h: int, start: Vec2, s: Vec2, f: Grid, from: seq<Vec2>)
    requires FillInv(g, w, h, start, s, f, [], from) && InBounds(g, start)
    ensures forall y, x :: 0 <= y < |g| && 0 <= x < |g[y]| ==> (f[y][x] <==> g[y][x] || Connected(g, start, Vec2(x, y)))
  {
    forall y, x | 0 <= y < |g| && 0 <= x < |g[y]| && Connected(g, start, Vec2(x, y))
      ensures f[y][x]
    {
      var path :| |path| > 0 && path[0] == start && path[|path| - 1] == Vec2(x, y) && OpenPath(g, path);
      ClosedCovers(g, f, path);
    }
    forall y, x | 0 <= y < |g| && 0 <= x < |g[y]| && f[y][x] && !g[y][x]
      ensures Connected(g, start, Vec2(x, y))
    {
      assert Newly(g, f, Vec2(x, y));
    }
  }

  /**
   * `fillBoundaryMap`: a copy of the map in which the start and every cell connected to it
   * through false cells is set; the map itself is left as it was. The cells are visited from a
   * stack, last pushed first. A start outside the map raises IndexError; a negative start
   * coordinate counts from the end, as Python indexing does.
   */
  method FillBoundaryMap(m: BoolMap, start: Vec2) returns (r: Result<BoolMap>)
    requires Rectangular(m.points)
    ensures r.Err? <==> Wrap(m.points, start).None?
    ensures r.Err? ==> r.error == "IndexError"
    ensures r.Ok? ==> fresh(r.value) && SameShape(r.value.points, m.points)
    ensures r.Ok? ==> Grows(m.points, r.value.points)
    ensures r.Ok? ==> var s := Wrap(m.points, start).value; r.value.points[s.y][s.x]
    ensures r.Ok? && InBounds(m.points, start) ==> forall y, x :: 0 <= y < |m.points| && 0 <= x < |m.points[y]| ==>
      (r.value.points[y][x] <==> m.points[y][x] || Connected(m.points, start, Vec2(x, y)))
  {
    ghost var g := m.points;
    var filled := m.Copy();
    var c := Wrap(filled.points, start);
    if c.None? {
      return Err("IndexError");
    }
    var s := c.value;
    var w, h := |filled.points[0]|, |filled.points|;
    ghost var inb := InBounds(g, start);
    FillInit(g, start, s);
    var stack: seq<Vec2> := [];
    ghost var from: seq<Vec2> := [];
    if !filled.points[s.y][s.x] {
      filled.Set(s, true);
      stack := NeighborPositions(w, h, start);
      from := seq(|stack|, _ => s);
    }
    while |stack| > 0
      invariant filled != m && m.points == g
      invariant FillInv(g, w, h, start, s, filled.points, stack, from)
      decreases |FalseCells(filled.points)|, |stack|
    {
      var pos := stack[|stack| - 1];
      if filled.points[pos.y][pos.x] {
        FillPopSet(g, w, h, start, s, filled.points, stack, from);
        stack := stack[..|stack| - 1];
        if inb {
          from := from[..|from| - 1];
        }
        continue;
      }
      FillPopClear(g, w, h, start, s, filled.points, stack, from);
      filled.Set(pos, true);
      var more := NeighborPositions(w, h, pos);
      stack := stack[..|stack| - 1] + more;
      if inb {
        from := from[..|from| - 1] + seq(|more|, _ => pos);
      }
    }
    if inb {
      FillDone(g, w, h, start, s, filled.points, from);
    }
    r := Ok(filled);
  }
}
