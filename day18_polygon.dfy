/**
 * Day 18, part two (18/part2.py): the dig plan read from the colour codes, the corners of the
 * trench polygon, its orientation, the rays cast from the boundary towards the interior, and the
 * counts of boundary cells. The y axis points down, as in the puzzle's map.
 */
module Day18Polygon {
  import opened Wrappers
  import opened Strings
  import opened Geometry
  import opened Sorting
  import Day18Dig
  import Lists

  // ---------------------------------------------------------------- vertical lines

  /** `VerticalLine`: from `start`, `length` cells down, or up when the length is negative. */
  datatype VerticalLine = VerticalLine(start: Vec2, length: int)
  {
    /** `direction`: up (0, -1) for a negative length, else down (0, 1). */
    function Direction(): Vec2
    {
      Vec2(0, if length < 0 then -1 else 1)
    }

    predicate IsUpward()
    {
      length < 0
    }

    /** `end` as the source computes it: start + direction * length. */
    function EndAsWritten(): Vec2
    {
      start.Add(Direction().Scale(length))
    }

    /** The far end of the line: |length| cells from the start, in the line's direction. */
    function End(): Vec2
    {
      start.Add(Direction().Scale(Abs(length)))
    }

    /** `is_inside`: in the line's column, on the line's side of the start, at most |length| away. */
    predicate IsInside(pos: Vec2)
    {
      var diff := pos.Sub(start);
      if diff.x != 0 then false
      else if IsUpward() then diff.y <= 0 && Abs(diff.y) <= Abs(length)
      else diff.y >= 0 && Abs(diff.y) <= Abs(length)
    }
  }

  /** The cells of a line are those of its column between its two ends, whichever way it points. */
  lemma IsInsideSpan(l: VerticalLine, p: Vec2)
    ensures l.IsInside(p) <==>
      (p.x == l.start.x
       && (if l.length < 0 then l.start.y + l.length else l.start.y) <= p.y
       && p.y <= (if l.length < 0 then l.start.y else l.start.y + l.length))
  {
  }

  /** The far end is `length` cells down the column from the start, and both ends lie on the line. */
  lemma EndOnLine(l: VerticalLine)
    ensures l.End() == Vec2(l.start.x, l.start.y + l.length)
    ensures l.IsInside(l.start) && l.IsInside(l.End())
  {
  }

  /**
   * `end` as written misses the line whenever it points up: the direction and the length are both
   * negative, so the end lands |length| cells below the start instead of above it.
   */
  lemma EndAsWrittenOff(l: VerticalLine)
    requires l.length < 0
    ensures l.EndAsWritten() == Vec2(l.start.x, l.start.y - l.length)
    ensures l.EndAsWritten() != l.End() && !l.IsInside(l.EndAsWritten())
  {
  }

  // ---------------------------------------------------------------- reading the colour codes

  /** The table of `readInstruction`, by the last hex digit: 0 right, 1 down, 2 left, 3 up. */
  function HexDirection(k: nat): (r: Vec2)
    requires k < 4
    ensures Adjacent(Vec2(0, 0), r)
  {
    if k == 0 then Vec2(1, 0) else if k == 1 then Vec2(0, 1) else if k == 2 then Vec2(-1, 0) else Vec2(0, -1)
  }

  /**
   * The colour code with its parentheses and `#` gone: the distance in hex followed by one hex digit
   * that picks the direction. An empty code raises IndexError, a code that is not hex ValueError,
   * and a direction digit past the table IndexError.
   */
  function DecodeColour(code: string): (r: Result<Day18Dig.Instruction>)
    ensures r.Ok? ==> Adjacent(Vec2(0, 0), r.value.direction)
    ensures r.Err? ==> r.error == "IndexError" || r.error == "ValueError"
  {
    if code == [] then Err("IndexError")
    else
      match ParseIntBase(code[..|code| - 1], 16)
      case None => Err("ValueError")
      case Some(dist) =>
        match ParseIntBase([code[|code| - 1]], 16)
        case None => Err("ValueError")
        case Some(index) =>
          match PyIndex(index, 4)
          case None => Err("IndexError")
          case Some(k) => Ok(Day18Dig.Instruction(HexDirection(k), dist))
  }

  /** The third word without its surrounding parentheses and its first character. */
  function ColourCode(word: string): string
  {
    var stripped := StripChars(word, "()");
    if stripped == [] then [] else stripped[1..]
  }

  /**
   * `readInstruction` of part two: the third word, stripped of parentheses and of its first
   * character, is the colour code; the first two words are ignored. A missing word raises IndexError.
   */
  function ReadInstruction(line: string): (r: Result<Day18Dig.Instruction>)
    ensures |SplitWs(line)| < 3 ==> r == Err("IndexError")
    ensures r.Ok? ==> Adjacent(Vec2(0, 0), r.value.direction)
    ensures r.Err? ==> r.error == "IndexError" || r.error == "ValueError"
  {
    var parts := SplitWs(line);
    if |parts| < 3 then Err("IndexError") else DecodeColour(ColourCode(parts[2]))
  }

  /** A plan line as the puzzle writes it: two words, then `(#`, the hex distance, the direction digit and `)`. */
  function RenderColour(w1: string, w2: string, digits: string, d: char): string
  {
    w1 + " " + w2 + " " + ("(#" + digits + [d] + ")")
  }

  /** No character of a run of digits is blank. */
  lemma DigitsNotSpace(s: string, base: nat)
    requires AllDigits(s, base)
    ensures forall i :: 0 <= i < |s| ==> !IsSpace(s[i])
  {
    forall i | 0 <= i < |s|
      ensures !IsSpace(s[i])
    {
      assert DigitValue(s[i]) >= 0;
    }
  }

  /** Stripping parentheses from `(` followed by text that starts with `#` drops just the `(`. */
  lemma TrimOpening(rest: string)
    requires |rest| > 0 && rest[0] == '#'
    ensures TrimStart("(" + rest, "()") == rest
  {
    assert ("(" + rest)[1..] == rest;
    assert TrimStart(rest, "()") == rest;
  }

  /** Stripping parentheses from text followed by `)` drops just the `)` when the text ends in a digit. */
  lemma TrimClosing(body: string)
    requires |body| > 0 && DigitValue(body[|body| - 1]) >= 0
    ensures TrimEnd(body + ")", "()") == body
  {
    assert (body + ")")[..|body|] == body;
    assert TrimEnd(body, "()") == body;
  }

  /** The colour code word loses its parentheses and its `#`, leaving the digits. */
  lemma StripCode(digits: string, d: char)
    requires DigitValue(d) >= 0
    ensures ColourCode("(#" + digits + [d] + ")") == digits + [d]
  {
    var body := "#" + digits + [d];
    assert "(#" + digits + [d] + ")" == "(" + (body + ")");
    TrimOpening(body + ")");
    TrimClosing(body);
    assert body[1..] == digits + [d];
  }

  /** Decoding a code whose two parts both read as hex. */
  lemma {:induction false} DecodeStep(code: string, dist: int, index: int)
    requires |code| > 0 && ParseIntBase(code[..|code| - 1], 16) == Some(dist)
    requires ParseIntBase([code[|code| - 1]], 16) == Some(index)
    requires 0 <= index < 4
    ensures DecodeColour(code) == Ok(Day18Dig.Instruction(HexDirection(index), dist))
  {
  }

  /** A written plan line splits into its two words and the colour code. */
  lemma SplitColour(w1: string, w2: string, digits: string, d: char)
    requires |w1| > 0 && forall i :: 0 <= i < |w1| ==> !IsSpace(w1[i])
    requires |w2| > 0 && forall i :: 0 <= i < |w2| ==> !IsSpace(w2[i])
    requires AllDigits(digits + [d], 16)
    ensures SplitWs(RenderColour(w1, w2, digits, d)) == [w1, w2, "(#" + digits + [d] + ")"]
  {
    var word := "(#" + digits + [d] + ")";
    DigitsNotSpace(digits + [d], 16);
    forall i | 0 <= i < |word|
      ensures !IsSpace(word[i])
    {
      if 2 <= i < |word| - 1 {
        assert word[i] == (digits + [d])[i - 2];
      }
    }
    SplitWsWord(word);
    SplitWsCons(w2, word);
    SplitWsCons(w1, w2 + " " + word);
    assert RenderColour(w1, w2, digits, d) == w1 + " " + (w2 + " " + word);
  }

  /** Reading a written plan line gives back the hex distance and the direction of the digit. */
  lemma ReadRenderedColour(w1: string, w2: string, digits: string, d: char)
    requires |w1| > 0 && forall i :: 0 <= i < |w1| ==> !IsSpace(w1[i])
    requires |w2| > 0 && forall i :: 0 <= i < |w2| ==> !IsSpace(w2[i])
    requires |digits| > 0 && AllDigits(digits, 16)
    requires '0' <= d <= '3'
    ensures ReadInstruction(RenderColour(w1, w2, digits, d))
      == Ok(Day18Dig.Instruction(HexDirection(d as int - '0' as int), DigitsValue(digits, 16)))
  {
    AllDigitsAppend(digits, [d], 16);
    SplitColour(w1, w2, digits, d);
    StripCode(digits, d);
    DecodeDigits(digits, d);
  }

  /** A code of hex digits followed by a direction digit decodes to their values. */
  lemma {:induction false} DecodeDigits(digits: string, d: char)
    requires |digits| > 0 && AllDigits(digits, 16)
    requires '0' <= d <= '3'
    ensures DecodeColour(digits + [d]) == Ok(Day18Dig.Instruction(HexDirection(d as int - '0' as int), DigitsValue(digits, 16)))
  {
    var code, dist, index := digits + [d], DigitsValue(digits, 16), d as int - '0' as int;
    CodeParts(code, digits, d, dist, index);
    DecodeStep(code, dist, index);
  }

  /** All but the last character of the code read as the hex distance, the last as the direction digit. */
  lemma {:induction false} CodeParts(code: string, digits: string, d: char, dist: int, index: int)
    requires code == digits + [d] && |digits| > 0 && AllDigits(digits, 16) && dist == DigitsValue(digits, 16)
    requires '0' <= d <= '3' && index == d as int - '0' as int
    ensures |code| > 0 && ParseIntBase(code[..|code| - 1], 16) == Some(dist)
    ensures ParseIntBase([code[|code| - 1]], 16) == Some(index) && 0 <= index < 4
  {
    assert code[..|code| - 1] == digits;
    ParseBaseDigits(digits, 16);
    assert [code[|code| - 1]] == [d];
    DirectionDigit(d);
  }

  /** A direction digit reads as its own value. */
  lemma DirectionDigit(d: char)
    requires '0' <= d <= '3'
    ensures ParseIntBase([d], 16) == Some(d as int - '0' as int)
  {
    ParseBaseDigits([d], 16);
    assert DigitsValue([d], 16) == DigitValue(d) == d as int - '0' as int by {
      assert [d][..0] == [];
    }
  }

  /** `readInstructions`: one instruction per line, or the first line's error. */
  function ReadInstructions(txt: string): (r: Result<seq<Day18Dig.Instruction>>)
    ensures r.Ok? ==> |r.value| == |SplitLines(txt)| && forall k :: 0 <= k < |r.value| ==> ReadInstruction(SplitLines(txt)[k]) == Ok(r.value[k])
    ensures r.Ok? <==> forall k :: 0 <= k < |SplitLines(txt)| ==> ReadInstruction(SplitLines(txt)[k]).Ok?
  {
    MapAll(SplitLines(txt), ReadInstruction)
  }

  // ---------------------------------------------------------------- corners

  /** The move an instruction makes: its direction times its steps. */
  function Move(ins: Day18Dig.Instruction): Vec2
  {
    Vec2(ins.direction.x * ins.steps, ins.direction.y * ins.steps)
  }

  /** `direction * steps` is the instruction's move. */
  lemma ScaledMove(ins: Day18Dig.Instruction)
    ensures ins.direction.Scale(ins.steps) == Move(ins)
  {
  }

  /** The corner reached after the first `k` instructions: the sum of direction * steps over them. */
  function Corner(ins: seq<Day18Dig.Instruction>, k: nat): Vec2
    requires k <= |ins|
  {
    if k == 0 then Vec2(0, 0) else var c, m := Corner(ins, k - 1), Move(ins[k - 1]); Vec2(c.x + m.x, c.y + m.y)
  }

  /** The corner before each instruction. */
  function Corners(ins: seq<Day18Dig.Instruction>): (r: seq<Vec2>)
    ensures |r| == |ins| && forall k :: 0 <= k < |ins| ==> r[k] == Corner(ins, k)
  {
    seq(|ins|, k requires 0 <= k < |ins| => Corner(ins, k))
  }

  /**
   * `getNodes` of part two: the corners of the trench from the origin on, one per instruction;
   * the corner after the last instruction, taken to be the origin again, is dropped.
   */
  method GetNodes(instructions: seq<Day18Dig.Instruction>) returns (nodes: seq<Vec2>)
    ensures nodes == Corners(instructions)
  {
    var current := Vec2(0, 0);
    var all := [current];
    for i := 0 to |instructions|
      invariant |all| == i + 1 && current == all[i]
      invariant forall k :: 0 <= k <= i ==> all[k] == Corner(instructions, k)
    {
      var next := current.Add(instructions[i].direction.Scale(instructions[i].steps));
      ScaledMove(instructions[i]);
      all := all + [next];
      current := next;
    }
    nodes := all[..|all| - 1];
  }

  // ---------------------------------------------------------------- sums over the edges

  /**
   * The sum of `f` over the first `k` edges of the closed polygon through `nodes`, edge `i`
   * running from node `i` to node `(i + 1) % n`, so that the last one closes the polygon.
   */
  function EdgeSum(nodes: seq<Vec2>, f: (Vec2, Vec2) -> int, k: nat): int
    requires k <= |nodes|
  {
    if k == 0 then 0 else EdgeSum(nodes, f, k - 1) + f(nodes[k - 1], nodes[k % |nodes|])
  }

  /** The sum of `f` over every edge of the closed polygon. */
  function ClosedSum(nodes: seq<Vec2>, f: (Vec2, Vec2) -> int): int
  {
    EdgeSum(nodes, f, |nodes|)
  }

  /** The sum of `f` over the edges of the open path through `s`, from its first node to its last. */
  function OpenSum(s: seq<Vec2>, f: (Vec2, Vec2) -> int): int
  {
    if |s| < 2 then 0 else OpenSum(s[..|s| - 1], f) + f(s[|s| - 2], s[|s| - 1])
  }

  /** The nodes in the opposite order. */
  function Reverse(s: seq<Vec2>): (r: seq<Vec2>)
    ensures |r| == |s| && forall i :: 0 <= i < |s| ==> r[i] == s[|s| - 1 - i]
  {
    if s == [] then [] else Reverse(s[1..]) + [s[0]]
  }

  /** The open path starting with one more node gains the edge from it. */
  lemma {:induction false} OpenSumCons(x: Vec2, s: seq<Vec2>, f: (Vec2, Vec2) -> int)
    requires |s| > 0
    ensures OpenSum([x] + s, f) == f(x, s[0]) + OpenSum(s, f)
    decreases |s|
  {
    if |s| > 1 {
      var init := s[..|s| - 1];
      assert ([x] + s)[..|s|] == [x] + init;
      OpenSumCons(x, init, f);
    }
  }

  /** Up to the last one, the edges of the closed polygon are those of the open path. */
  lemma {:induction false} EdgeSumOpen(nodes: seq<Vec2>, f: (Vec2, Vec2) -> int, k: nat)
    requires k < |nodes|
    ensures EdgeSum(nodes, f, k) == OpenSum(nodes[..k + 1], f)
  {
    if k > 0 {
      EdgeSumOpen(nodes, f, k - 1);
      var path := nodes[..k + 1];
      assert path[..|path| - 1] == nodes[..k];
      Lists.ModBelow(k, |nodes|);
      assert path[|path| - 2] == nodes[k - 1] && path[|path| - 1] == nodes[k];
    }
  }

  /** The closed polygon is the open path plus the edge from the last node back to the first. */
  lemma ClosedSumOpen(nodes: seq<Vec2>, f: (Vec2, Vec2) -> int)
    requires |nodes| > 0
    ensures ClosedSum(nodes, f) == OpenSum(nodes, f) + f(nodes[|nodes| - 1], nodes[0])
  {
    EdgeSumOpen(nodes, f, |nodes| - 1);
    assert nodes[..|nodes|] == nodes;
  }

  /** For a term that changes sign when an edge is walked backwards, so does the sum over the open path. */
  lemma {:induction false} OpenSumReverse(s: seq<Vec2>, f: (Vec2, Vec2) -> int)
    requires forall a, b :: f(b, a) == -f(a, b)
    ensures OpenSum(Reverse(s), f) == -OpenSum(s, f)
    decreases |s|
  {
    if |s| >= 2 {
      var r := Reverse(s[1..]);
      OpenSumReverse(s[1..], f);
      assert Reverse(s) == r + [s[0]];
      assert (r + [s[0]])[..|r|] == r;
      assert r[|r| - 1] == s[1];
      assert s == [s[0]] + s[1..];
      OpenSumCons(s[0], s[1..], f);
    }
  }

  /** ... and so does the sum over the closed polygon. */
  lemma ClosedSumReverse(nodes: seq<Vec2>, f: (Vec2, Vec2) -> int)
    requires forall a, b :: f(b, a) == -f(a, b)
    ensures ClosedSum(Reverse(nodes), f) == -ClosedSum(nodes, f)
  {
    if |nodes| > 0 {
      ClosedSumOpen(nodes, f);
      ClosedSumOpen(Reverse(nodes), f);
      OpenSumReverse(nodes, f);
    }
  }

  /** The sum of `g` over the moves of the first `k` instructions. */
  function MoveSum(ins: seq<Day18Dig.Instruction>, g: Vec2 -> int, k: nat): int
    requires k <= |ins|
  {
    if k == 0 then 0 else MoveSum(ins, g, k - 1) + g(Move(ins[k - 1]))
  }

  /** The plan closes: after the last instruction the trench is back at the origin. */
  predicate Closes(ins: seq<Day18Dig.Instruction>)
  {
    Corner(ins, |ins|) == Vec2(0, 0)
  }

  /** Each edge of the polygon of corners of a closing plan is the move of one instruction. */
  lemma CornerEdge(ins: seq<Day18Dig.Instruction>, k: nat)
    requires Closes(ins) && 0 < k <= |ins|
    ensures var c := Corners(ins); c[k % |ins|].Sub(c[k - 1]) == Move(ins[k - 1])
  {
    var c := Corners(ins);
    var m := Move(ins[k - 1]);
    assert c[k - 1] == Corner(ins, k - 1);
    if k < |ins| {
      assert k % |ins| == k;
      assert c[k] == Corner(ins, k);
    } else {
      assert k % |ins| == 0;
      assert c[0] == Vec2(0, 0);
    }
  }

  /**
   * For a term that depends only on the difference between the ends of an edge, the sum over the
   * closed polygon of the corners of a closing plan is the sum over the instructions' moves.
   */
  lemma {:induction false} CornerEdges(ins: seq<Day18Dig.Instruction>, f: (Vec2, Vec2) -> int, g: Vec2 -> int, k: nat)
    requires Closes(ins) && k <= |ins|
    requires forall a, b :: f(a, b) == g(b.Sub(a))
    ensures EdgeSum(Corners(ins), f, k) == MoveSum(ins, g, k)
  {
    if k > 0 {
      CornerEdges(ins, f, g, k - 1);
      CornerEdge(ins, k);
    }
  }

  lemma CornerSum(ins: seq<Day18Dig.Instruction>, f: (Vec2, Vec2) -> int, g: Vec2 -> int)
    requires Closes(ins)
    requires forall a, b :: f(a, b) == g(b.Sub(a))
    ensures ClosedSum(Corners(ins), f) == MoveSum(ins, g, |ins|)
  {
    CornerEdges(ins, f, g, |ins|);
  }

  /** Appending one instruction adds its steps to the total. */
  lemma {:induction false} TotalStepsSnoc(a: seq<Day18Dig.Instruction>, x: Day18Dig.Instruction)
    ensures Day18Dig.TotalSteps(a + [x]) == Day18Dig.TotalSteps(a) + x.steps
    decreases |a|
  {
    if a == [] {
      assert [] + [x] == [x];
      assert [x][1..] == [];
    } else {
      assert (a + [x])[1..] == a[1..] + [x];
      TotalStepsSnoc(a[1..], x);
    }
  }

  /** The instructions move one cell at a time in one of the four directions, at least once each. */
  predicate UnitPlan(ins: seq<Day18Dig.Instruction>)
  {
    forall k :: 0 <= k < |ins| ==> Adjacent(Vec2(0, 0), ins[k].direction) && ins[k].steps > 0
  }

  // ---------------------------------------------------------------- orientation

  /** The term of `isClockwise` for the edge from `a` to `b`: (x_b - x_a) * (y_b + y_a). */
  function ShoelaceTerm(a: Vec2, b: Vec2): int
  {
    (b.x - a.x) * (b.y + a.y)
  }

  /**
   * `isClockwise`: the sum of the terms over the closed polygon is negative. With the y axis
   * pointing down this is a clockwise walk on the map, with the interior on its right.
   */
  method IsClockwise(nodes: seq<Vec2>) returns (clockwise: bool)
    ensures clockwise <==> ClosedSum(nodes, ShoelaceTerm) < 0
  {
    var s := 0;
    for i := 0 to |nodes|
      invariant s == EdgeSum(nodes, ShoelaceTerm, i)
    {
      var node1 := nodes[i];
      var node2 := nodes[(i + 1) % |nodes|];
      var dx := node2.x - node1.x;
      var dy := node2.y + node1.y;
      s := s + dx * dy;
    }
    clockwise := s < 0;
  }

  /** Walking an edge backwards negates its term. */
  lemma ShoelaceAntisymmetric()
    ensures forall a, b :: ShoelaceTerm(b, a) == -ShoelaceTerm(a, b)
  {
    forall a, b
      ensures ShoelaceTerm(b, a) == -ShoelaceTerm(a, b)
    {
      assert a.x - b.x == -(b.x - a.x);
      assert ShoelaceTerm(b, a) == -(b.x - a.x) * (a.y + b.y);
    }
  }

  /** Reversing the order of the corners negates the sum, so a clockwise polygon walked backwards is not clockwise. */
  lemma ReverseOrientation(nodes: seq<Vec2>)
    ensures ClosedSum(Reverse(nodes), ShoelaceTerm) == -ClosedSum(nodes, ShoelaceTerm)
    ensures ClosedSum(nodes, ShoelaceTerm) < 0 ==> !(ClosedSum(Reverse(nodes), ShoelaceTerm) < 0)
  {
    ShoelaceAntisymmetric();
    ClosedSumReverse(nodes, ShoelaceTerm);
  }

  /** The unit square walked right, down, left and up on the map is clockwise. */
  lemma SquareClockwise()
    ensures ClosedSum([Vec2(0, 0), Vec2(1, 0), Vec2(1, 1), Vec2(0, 1)], ShoelaceTerm) == -2
  {
    var s := [Vec2(0, 0), Vec2(1, 0), Vec2(1, 1), Vec2(0, 1)];
    assert EdgeSum(s, ShoelaceTerm, 1) == 0;
    assert EdgeSum(s, ShoelaceTerm, 2) == 0;
    assert EdgeSum(s, ShoelaceTerm, 3) == -2;
  }

  /** A quarter turn clockwise on the map (y pointing down): east becomes south. */
  function TurnRight(d: Vec2): Vec2
  {
    Vec2(-d.y, d.x)
  }

  /** A quarter turn counter-clockwise on the map: east becomes north. */
  function TurnLeft(d: Vec2): Vec2
  {
    Vec2(d.y, -d.x)
  }

  /** `getInteriorDirection`: the horizontal direction from a vertical walk towards the interior. */
  function GetInteriorDirection(walk: Vec2, clockwise: bool): Vec2
  {
    if clockwise then Vec2(-walk.y, 0) else Vec2(walk.y, 0)
  }

  /**
   * For a vertical walk the interior lies to the right of a clockwise walk and to the left of a
   * counter-clockwise one; the two are opposite, and one cell away horizontally.
   */
  lemma InteriorDirectionTurn(walk: Vec2)
    requires walk.x == 0
    ensures GetInteriorDirection(walk, true) == TurnRight(walk)
    ensures GetInteriorDirection(walk, false) == TurnLeft(walk)
    ensures GetInteriorDirection(walk, true) == GetInteriorDirection(walk, false).Neg()
    ensures GetInteriorDirection(walk, true).y == 0 && GetInteriorDirection(walk, false).y == 0
    ensures Adjacent(Vec2(0, 0), walk) ==>
      Adjacent(Vec2(0, 0), GetInteriorDirection(walk, true)) && Adjacent(Vec2(0, 0), GetInteriorDirection(walk, false))
  {
  }

  // ---------------------------------------------------------------- rays

  /** `HorizontalRay`: from `start`, to the left or to the right. */
  datatype HorizontalRay = HorizontalRay(start: Vec2, isLeft: bool)
  {
    /** On the ray's side of its start (the start itself included). */
    predicate Ahead(p: Vec2)
    {
      if isLeft then p.x <= start.x else p.x >= start.x
    }

    /**
     * `getCollision`: the cell where the ray meets the line, if it does: the cell of the line's
     * column in the ray's row, when that is ahead of the ray and on the line.
     */
    function GetCollision(line: VerticalLine): (r: Option<Vec2>)
      ensures r.Some? ==> r.value.y == start.y && Ahead(r.value) && line.IsInside(r.value)
      ensures r.None? ==> forall p: Vec2 :: p.y == start.y && Ahead(p) ==> !line.IsInside(p)
    {
      var rayY := start.y;
      var lineX := line.start.x;
      if isLeft then
        if lineX > start.x then None
        else
          var collision := Vec2(lineX, rayY);
          if !line.IsInside(collision) then None else Some(collision)
      else
        if lineX < start.x then None
        else
          var collision := Vec2(lineX, rayY);
          if !line.IsInside(collision) then None else Some(collision)
    }
  }

  /**
   * `createHorizontalInteriorRay`: from the cell next to `pos` towards the interior, looking
   * further that way; a walk that is not one step up or down fails the assertion.
   */
  function CreateHorizontalInteriorRay(pos: Vec2, walk: Vec2, clockwise: bool): (r: Result<HorizontalRay>)
    ensures r.Err? <==> walk != Vec2(0, 1) && walk != Vec2(0, -1)
    ensures r.Err? ==> r.error == "AssertionError"
    ensures r.Ok? ==> r.value.start.y == pos.y && Adjacent(pos, r.value.start)
    ensures r.Ok? ==> (r.value.isLeft <==> r.value.start.x < pos.x)
    ensures r.Ok? ==> (r.value.isLeft <==> (clockwise <==> walk == Vec2(0, 1)))
  {
    if walk != Vec2(0, 1) && walk != Vec2(0, -1) then Err("AssertionError")
    else
      var rayDirection := GetInteriorDirection(walk, clockwise);
      Ok(HorizontalRay(pos.Add(rayDirection), rayDirection == Vec2(-1, 0)))
  }

  // ---------------------------------------------------------------- boundary counts

  /** The cells strictly between the ends of an axis-parallel edge with difference `d`. */
  function BoundaryCells(d: Vec2): int
  {
    Abs(d.x) + Abs(d.y) - 1
  }

  function BoundaryTerm(a: Vec2, b: Vec2): int
  {
    BoundaryCells(b.Sub(a))
  }

  /** `countBoundary`: the cells strictly between consecutive corners, summed over the closed polygon. */
  method CountBoundary(nodes: seq<Vec2>) returns (res: int)
    ensures res == ClosedSum(nodes, BoundaryTerm)
  {
    res := 0;
    for i := 0 to |nodes|
      invariant res == EdgeSum(nodes, BoundaryTerm, i)
    {
      var node1 := nodes[i];
      var node2 := nodes[(i + 1) % |nodes|];
      var diff := node2.Sub(node1);
      res := res + Abs(diff.x) + Abs(diff.y) - 1;
    }
  }

  /** Of an edge, only a horizontal one counts: its cells strictly between the ends. */
  function HorizontalCells(d: Vec2): int
  {
    if d.y == 0 then Abs(d.x) - 1 else 0
  }

  function HorizontalTerm(a: Vec2, b: Vec2): int
  {
    HorizontalCells(b.Sub(a))
  }

  /** `countHorizontalBoundary`: the same sum over the horizontal edges only. */
  method CountHorizontalBoundary(nodes: seq<Vec2>) returns (res: int)
    ensures res == ClosedSum(nodes, HorizontalTerm)
  {
    res := 0;
    for i := 0 to |nodes|
      invariant res == EdgeSum(nodes, HorizontalTerm, i)
    {
      var node1 := nodes[i];
      var node2 := nodes[(i + 1) % |nodes|];
      var diff := node2.Sub(node1);
      if diff.y == 0 {
        res := res + Abs(diff.x) - 1;
      }
    }
  }

  /** A unit direction times a non-negative count moves that many cells. */
  lemma UnitMove(ins: Day18Dig.Instruction)
    requires Adjacent(Vec2(0, 0), ins.direction) && ins.steps > 0
    ensures Abs(Move(ins).x) + Abs(Move(ins).y) == ins.steps
    ensures Move(ins).y == 0 <==> ins.direction.y == 0
    ensures ins.direction.y == 0 ==> Abs(Move(ins).x) == ins.steps
  {
    var d := ins.direction;
    if d.x == 0 {
      assert d.y == 1 || d.y == -1;
    } else {
      assert d.y == 0 && (d.x == 1 || d.x == -1);
    }
  }

  lemma {:induction false} BoundaryMoves(ins: seq<Day18Dig.Instruction>, k: nat)
    requires UnitPlan(ins) && k <= |ins|
    ensures MoveSum(ins, BoundaryCells, k) == Day18Dig.TotalSteps(ins[..k]) - k
  {
    if k > 0 {
      BoundaryMoves(ins, k - 1);
      UnitMove(ins[k - 1]);
      assert ins[..k] == ins[..k - 1] + [ins[k - 1]];
      TotalStepsSnoc(ins[..k - 1], ins[k - 1]);
    }
  }

  /**
   * On the corners of a closing plan of unit moves, the boundary count plus the corners is the
   * number of cells the plan digs: the total of its steps, the length of the trench of part one.
   */
  lemma BoundaryOfPlan(ins: seq<Day18Dig.Instruction>)
    requires UnitPlan(ins) && Closes(ins)
    ensures ClosedSum(Corners(ins), BoundaryTerm) + |ins| == Day18Dig.TotalSteps(ins)
  {
    CornerSum(ins, BoundaryTerm, BoundaryCells);
    BoundaryMoves(ins, |ins|);
    assert ins[..|ins|] == ins;
  }

  /** The cells strictly inside the horizontal moves among the first `k` instructions. */
  function HorizontalSteps(ins: seq<Day18Dig.Instruction>, k: nat): int
    requires k <= |ins|
  {
    if k == 0 then 0 else HorizontalSteps(ins, k - 1) + (if ins[k - 1].direction.y == 0 then ins[k - 1].steps - 1 else 0)
  }

  lemma {:induction false} HorizontalMoves(ins: seq<Day18Dig.Instruction>, k: nat)
    requires UnitPlan(ins) && k <= |ins|
    ensures MoveSum(ins, HorizontalCells, k) == HorizontalSteps(ins, k)
  {
    if k > 0 {
      HorizontalMoves(ins, k - 1);
      UnitMove(ins[k - 1]);
    }
  }

  /** On the corners of a closing plan of unit moves, the horizontal count is the sum over the left and right moves. */
  lemma HorizontalOfPlan(ins: seq<Day18Dig.Instruction>)
    requires UnitPlan(ins) && Closes(ins)
    ensures ClosedSum(Corners(ins), HorizontalTerm) == HorizontalSteps(ins, |ins|)
  {
    CornerSum(ins, HorizontalTerm, HorizontalCells);
    HorizontalMoves(ins, |ins|);
  }

  // ---------------------------------------------------------------- boundary points

  /** `Point`: a cell of the trench, the direction of the walk through it, and whether the scan has used it. */
  datatype Point = Point(pos: Vec2, direction: Vec2, considered: bool)

  /** The cell `i` steps along the instruction's direction from `start`. */
  function StepFrom(ins: Day18Dig.Instruction, start: Vec2, i: int): Vec2
  {
    Vec2(start.x + ins.direction.x * i, start.y + ins.direction.y * i)
  }

  /** The cells an instruction passes from `start`: its start and one per step (none for a negative count). */
  function InstructionPoints(ins: Day18Dig.Instruction, start: Vec2): seq<Point>
  {
    var n := if ins.steps < 0 then 1 else ins.steps + 1;
    seq(n, i => Point(StepFrom(ins, start, i), ins.direction, false))
  }

  /** `getInstructionPoints`. */
  method GetInstructionPoints(ins: Day18Dig.Instruction, start: Vec2) returns (points: seq<Point>)
    ensures points == InstructionPoints(ins, start)
  {
    var current := Point(start, ins.direction, false);
    points := [current];
    var i := 1;
    while i <= ins.steps
      invariant 1 <= i <= |InstructionPoints(ins, start)|
      invariant points == InstructionPoints(ins, start)[..i]
    {
      var nextPos := Vec2(current.pos.x + ins.direction.x * i, current.pos.y + ins.direction.y * i);
      points := points + [Point(nextPos, ins.direction, false)];
      i := i + 1;
    }
  }

  /**
   * An instruction with a non-negative count walks from `start` to `start` plus its move, one
   * cell at a time when its direction is a unit one, every cell marked with that direction.
   */
  lemma InstructionPointsWalk(ins: Day18Dig.Instruction, start: Vec2)
    requires ins.steps >= 0
    ensures var p := InstructionPoints(ins, start);
      |p| == ins.steps + 1 && p[0].pos == start
      && p[|p| - 1].pos == Vec2(start.x + Move(ins).x, start.y + Move(ins).y)
      && (forall k :: 0 <= k < |p| ==> p[k].direction == ins.direction && !p[k].considered)
    ensures var p := InstructionPoints(ins, start);
      Adjacent(Vec2(0, 0), ins.direction) ==> forall k :: 0 < k < |p| ==> Adjacent(p[k - 1].pos, p[k].pos)
  {
    var p := InstructionPoints(ins, start);
    if Adjacent(Vec2(0, 0), ins.direction) {
      forall k | 0 < k < |p|
        ensures Adjacent(p[k - 1].pos, p[k].pos)
      {
        var d := ins.direction;
        assert p[k].pos.x - p[k - 1].pos.x == d.x && p[k].pos.y - p[k - 1].pos.y == d.y by {
          assert d.x * k - d.x * (k - 1) == d.x;
          assert d.y * k - d.y * (k - 1) == d.y;
        }
      }
    }
  }

  /** Where the walk of `getVerticalBoundaryPoints` stands after the first `k` instructions. */
  function Reached(ins: seq<Day18Dig.Instruction>, k: nat): Vec2
    requires k <= |ins|
  {
    if k == 0 then Vec2(0, 0)
    else var p := InstructionPoints(ins[k - 1], Reached(ins, k - 1)); p[|p| - 1].pos
  }

  /** The cells of the vertical instructions among the first `k`, in walking order. */
  function VerticalPoints(ins: seq<Day18Dig.Instruction>, k: nat): seq<Point>
    requires k <= |ins|
  {
    if k == 0 then []
    else VerticalPoints(ins, k - 1) + (if ins[k - 1].direction.x == 0 then InstructionPoints(ins[k - 1], Reached(ins, k - 1)) else [])
  }

  /** `getVerticalBoundaryPoints`. */
  method GetVerticalBoundaryPoints(instructions: seq<Day18Dig.Instruction>) returns (points: seq<Point>)
    ensures points == VerticalPoints(instructions, |instructions|)
  {
    var current := Point(Vec2(0, 0), Vec2(0, 0), true);
    points := [];
    for k := 0 to |instructions|
      invariant current.pos == Reached(instructions, k)
      invariant points == VerticalPoints(instructions, k)
    {
      var instrPoints := GetInstructionPoints(instructions[k], current.pos);
      current := instrPoints[|instrPoints| - 1];
      if instructions[k].direction.x == 0 {
        points := points + instrPoints;
      }
    }
  }

  /** With non-negative counts the walk of the boundary points stands on the corners. */
  lemma {:induction false} ReachedCorners(ins: seq<Day18Dig.Instruction>, k: nat)
    requires k <= |ins| && forall j :: 0 <= j < |ins| ==> ins[j].steps >= 0
    ensures Reached(ins, k) == Corner(ins, k)
  {
    if k > 0 {
      ReachedCorners(ins, k - 1);
      InstructionPointsWalk(ins[k - 1], Reached(ins, k - 1));
    }
  }

  /**
   * Every boundary point lies in the column of the corner its vertical instruction starts from,
   * carries that instruction's direction, and is not yet considered.
   */
  lemma {:induction false} VerticalPointsOnLines(ins: seq<Day18Dig.Instruction>, k: nat)
    requires k <= |ins| && forall j :: 0 <= j < |ins| ==> ins[j].steps >= 0
    ensures forall p :: p in VerticalPoints(ins, k) ==>
      !p.considered && p.direction.x == 0
      && exists j :: 0 <= j < k && ins[j].direction == p.direction && p.pos.x == Corner(ins, j).x
  {
    if k > 0 {
      VerticalPointsOnLines(ins, k - 1);
      if ins[k - 1].direction.x == 0 {
        ReachedCorners(ins, k - 1);
        var q := InstructionPoints(ins[k - 1], Reached(ins, k - 1));
        forall p | p in q
          ensures !p.considered && p.direction.x == 0
          ensures ins[k - 1].direction == p.direction && p.pos.x == Corner(ins, k - 1).x
        {
        }
      }
    }
  }

  /** The column used to order a row. */
  function PointX(p: Point): int
  {
    p.pos.x
  }

  /** The points of row `y`, in the order given. */
  function RowOf(points: seq<Point>, y: int): seq<Point>
  {
    if points == [] then []
    else RowOf(points[..|points| - 1], y) + (if points[|points| - 1].pos.y == y then [points[|points| - 1]] else [])
  }

  /** The rows of the points, in the order of their first appearance. */
  function RowOrder(points: seq<Point>): seq<int>
  {
    if points == [] then []
    else
      var o, y := RowOrder(points[..|points| - 1]), points[|points| - 1].pos.y;
      if y in o then o else o + [y]
  }

  /** The rows are distinct and are exactly the rows that hold a point; a row without points is empty. */
  lemma {:induction false} RowOrderSpec(points: seq<Point>)
    ensures forall i, j :: 0 <= i < j < |RowOrder(points)| ==> RowOrder(points)[i] != RowOrder(points)[j]
    ensures forall y :: y in RowOrder(points) <==> exists p :: p in points && p.pos.y == y
    ensures forall y :: y !in RowOrder(points) ==> RowOf(points, y) == []
    decreases |points|
  {
    if points != [] {
      var init := points[..|points| - 1];
      RowOrderSpec(init);
      forall y
        ensures (exists p :: p in points && p.pos.y == y) ==> y in RowOrder(points)
      {
        if p :| p in points && p.pos.y == y {
          if p in init {
          } else {
            assert p == points[|points| - 1];
          }
        }
      }
      forall y
        ensures y in RowOrder(points) ==> exists p :: p in points && p.pos.y == y
      {
        if y in RowOrder(init) {
          var p :| p in init && p.pos.y == y;
          assert p in points;
        } else if y in RowOrder(points) {
          assert points[|points| - 1] in points;
        }
      }
    }
  }

  /** A point is in the row of its own y-coordinate, and only the points of that row are. */
  lemma {:induction false} RowOfMembers(points: seq<Point>, y: int)
    ensures forall p :: p in RowOf(points, y) <==> p in points && p.pos.y == y
    decreases |points|
  {
    if points != [] {
      var init := points[..|points| - 1];
      RowOfMembers(init, y);
      assert points == init + [points[|points| - 1]];
    }
  }

  /** The first loop of `sortVerticalBoundaryPoints`: a list per row, appended to in order. */
  method GroupByRow(points: seq<Point>) returns (order: seq<int>, rows: map<int, seq<Point>>)
    ensures order == RowOrder(points)
    ensures forall y :: y in rows <==> y in order
    ensures forall y :: y in rows ==> rows[y] == RowOf(points, y)
  {
    order := [];
    rows := map[];
    for i := 0 to |points|
      invariant order == RowOrder(points[..i])
      invariant forall y :: y in rows <==> y in order
      invariant forall y :: y in rows ==> rows[y] == RowOf(points[..i], y)
    {
      var p := points[i];
      assert points[..i + 1][..i] == points[..i];
      RowOrderSpec(points[..i]);
      if p.pos.y !in rows {
        rows := rows[p.pos.y := []];
        order := order + [p.pos.y];
      }
      rows := rows[p.pos.y := rows[p.pos.y] + [p]];
    }
    assert points[..|points|] == points;
  }

  /** The second loop of `sortVerticalBoundaryPoints`: each row, named once in `order`, sorted by column. */
  method SortRows(order: seq<int>, rows: map<int, seq<Point>>) returns (sorted: map<int, seq<Point>>)
    requires forall i, j :: 0 <= i < j < |order| ==> order[i] != order[j]
    requires forall y :: y in rows <==> y in order
    ensures forall y :: y in sorted <==> y in rows
    ensures forall y :: y in sorted ==> sorted[y] == SortBy(rows[y], PointX)
  {
    sorted := rows;
    for j := 0 to |order|
      invariant forall y :: y in sorted <==> y in rows
      invariant forall y :: y in sorted ==> sorted[y] == if y in order[..j] then SortBy(rows[y], PointX) else rows[y]
    {
      var y := order[j];
      assert y !in order[..j];
      assert order[..j + 1] == order[..j] + [y];
      sorted := sorted[y := SortBy(sorted[y], PointX)];
    }
    assert order[..|order|] == order;
  }

  /**
   * `sortVerticalBoundaryPoints`: the points grouped by row, the rows in order of first
   * appearance, and each row sorted by column (a stable sort, as Python's `list.sort` is).
   */
  method SortVerticalBoundaryPoints(points: seq<Point>) returns (order: seq<int>, rows: map<int, seq<Point>>)
    ensures order == RowOrder(points)
    ensures forall y :: y in rows <==> y in order
    ensures forall y :: y in rows ==> rows[y] == SortBy(RowOf(points, y), PointX)
  {
    var grouped;
    order, grouped := GroupByRow(points);
    RowOrderSpec(points);
    rows := SortRows(order, grouped);
  }

  /**
   * Every row is sorted by column and holds exactly the points of that row, with their
   * multiplicities; every point appears in its own row.
   */
  lemma SortedRows(points: seq<Point>, rows: map<int, seq<Point>>)
    requires forall y :: y in rows <==> y in RowOrder(points)
    requires forall y :: y in rows ==> rows[y] == SortBy(RowOf(points, y), PointX)
    ensures forall y :: y in rows ==> SortedBy(rows[y], PointX)
    ensures forall y :: y in rows ==> multiset(rows[y]) == multiset(RowOf(points, y))
    ensures forall p :: p in points ==> p.pos.y in rows && p in rows[p.pos.y]
    ensures forall y, p :: y in rows && p in rows[y] ==> p in points && p.pos.y == y
  {
    RowOrderSpec(points);
    forall y | y in rows
      ensures SortedBy(rows[y], PointX)
      ensures forall p :: p in rows[y] <==> p in points && p.pos.y == y
    {
      SortBySorted(RowOf(points, y), PointX);
      RowOfMembers(points, y);
      assert forall p :: p in rows[y] <==> p in multiset(rows[y]);
    }
    forall p | p in points
      ensures p.pos.y in rows && p in rows[p.pos.y]
    {
    }
  }

  // ---------------------------------------------------------------- vertical lines

  /** The corner after corner `i`, the last one followed by the first. */
  function NextNode(nodes: seq<Vec2>, i: nat): Vec2
    requires i < |nodes|
  {
    nodes[(i + 1) % |nodes|]
  }

  /** The line of edge `i` when it is vertical. */
  function EdgeLine(nodes: seq<Vec2>, i: nat): seq<VerticalLine>
    requires i < |nodes|
  {
    var a, b := nodes[i], NextNode(nodes, i);
    if a.x != b.x then [] else [VerticalLine(a, b.y - a.y)]
  }

  /** The vertical edges among the first `k` edges of the closed polygon, in order. */
  function VerticalLines(nodes: seq<Vec2>, k: nat): seq<VerticalLine>
    requires k <= |nodes|
  {
    if k == 0 then [] else VerticalLines(nodes, k - 1) + EdgeLine(nodes, k - 1)
  }

  /** `getVerticalLines`. */
  method GetVerticalLines(nodes: seq<Vec2>) returns (lines: seq<VerticalLine>)
    ensures lines == VerticalLines(nodes, |nodes|)
  {
    lines := [];
    for i := 0 to |nodes|
      invariant lines == VerticalLines(nodes, i)
    {
      var node1 := nodes[i];
      var node2 := nodes[(i + 1) % |nodes|];
      if node1.x != node2.x {
        continue;
      }
      var length := node2.y - node1.y;
      lines := lines + [VerticalLine(node1, length)];
    }
  }

  /** Every line runs from a corner to the next one along the polygon, as the corrected end says. */
  lemma {:induction false} VerticalLinesJoin(nodes: seq<Vec2>, k: nat)
    requires k <= |nodes|
    ensures forall l :: l in VerticalLines(nodes, k) ==>
      exists i :: 0 <= i < k && l.start == nodes[i] && l.End() == NextNode(nodes, i)
  {
    if k > 0 {
      VerticalLinesJoin(nodes, k - 1);
      forall l | l in EdgeLine(nodes, k - 1)
        ensures l.start == nodes[k - 1] && l.End() == NextNode(nodes, k - 1)
      {
        EndOnLine(l);
      }
    }
  }

  /** Every vertical edge of the polygon has its line. */
  lemma {:induction false} VerticalLinesCover(nodes: seq<Vec2>, k: nat)
    requires k <= |nodes|
    ensures forall i, l :: 0 <= i < k && l in EdgeLine(nodes, i) ==> l in VerticalLines(nodes, k)
  {
    if k > 0 {
      VerticalLinesCover(nodes, k - 1);
      assert VerticalLines(nodes, k) == VerticalLines(nodes, k - 1) + EdgeLine(nodes, k - 1);
    }
  }
}
