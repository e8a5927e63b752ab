/** Day 8, part one: the left/right node network and its traversal along a repeating instruction string (08/tree.py). */
module Day08Tree {
  import opened Wrappers
  import Strings
  import Lines
  import Lists

  /** A network node: its name and the names of its left and right successors. */
  datatype Node = Node(name: string, lhs: string, rhs: string)

  /** `Node.__eq__`: two nodes are equal when their names are, whatever their successors. */
  predicate SameNode(a: Node, b: Node)
  {
    a.name == b.name
  }

  // ---------------------------------------------------------------- readNode

  /** `readNode`: the text before '=' is the name; the text after it, stripped of blanks and parentheses, holds "lhs, rhs". */
  function ReadNode(line: string): (r: Result<Node>)
    ensures r.Err? ==> r.error == "ValueError"
  {
    var sides := Strings.SplitOn(line, '=');
    if |sides| != 2 then Err("ValueError")
    else
      var kids := Strings.SplitOn(Strings.StripChars(Strings.Strip(sides[1]), "()"), ',');
      if |kids| != 2 then Err("ValueError")
      else Ok(Node(Strings.Strip(sides[0]), Strings.Strip(kids[0]), Strings.Strip(kids[1])))
  }

  /** One parse, named part by part. */
  lemma ReadNodeOf(line: string, a: string, b: string, inner: string, c: string, d: string)
    requires Strings.SplitOn(line, '=') == [a, b]
    requires Strings.StripChars(Strings.Strip(b), "()") == inner
    requires Strings.SplitOn(inner, ',') == [c, d]
    ensures ReadNode(line) == Ok(Node(Strings.Strip(a), Strings.Strip(c), Strings.Strip(d)))
  {
  }

  /** A node name as the puzzle writes them: non-empty, without blanks and without the characters of the node syntax. */
  predicate Label(s: string)
  {
    |s| > 0 && forall i :: 0 <= i < |s| ==> !Strings.IsSpace(s[i]) && s[i] != '=' && s[i] != ',' && s[i] != '(' && s[i] != ')'
  }

  /** How the puzzle writes a node: "AAA = (BBB, CCC)". */
  function RenderNode(n: Node): string
  {
    n.name + " = (" + n.lhs + ", " + n.rhs + ")"
  }

  /** Cutting `a + [c] + b` at `c` gives the two sides when neither holds `c`. */
  lemma SplitOnTwo(a: string, c: char, b: string)
    requires forall i :: 0 <= i < |a| ==> a[i] != c
    requires forall i :: 0 <= i < |b| ==> b[i] != c
    ensures Strings.SplitOn(a + [c] + b, c) == [a, b]
  {
    Strings.SplitOnStep(a + [c] + b, c, a, b);
    Strings.FindAbsent(b, c);
    Strings.SplitHead(b, [c], -1);
  }

  /** `strip` removes one trailing blank from text whose own ends are not blank. */
  lemma StripTrailing(t: string)
    requires |t| > 0 && !Strings.IsSpace(t[0]) && !Strings.IsSpace(t[|t| - 1])
    ensures Strings.Strip(t + " ") == t
  {
    Strings.WhitespaceIsSpace(t[0]);
    Strings.WhitespaceIsSpace(t[|t| - 1]);
    assert Strings.TrimStart(t + " ", Strings.Whitespace) == t + " ";
    assert (t + " ")[..|t|] == t;
    assert ' ' in Strings.Whitespace;
    assert Strings.TrimEnd(t + " ", Strings.Whitespace) == Strings.TrimEnd(t, Strings.Whitespace);
  }

  /** Stripping parentheses from "(inner)" gives `inner` when its ends are not parentheses. */
  lemma StripParens(inner: string)
    requires |inner| > 0 && inner[0] != '(' && inner[0] != ')' && inner[|inner| - 1] != '(' && inner[|inner| - 1] != ')'
    ensures Strings.StripChars("(" + inner + ")", "()") == inner
  {
    var s := "(" + inner + ")";
    assert s[1..] == inner + ")";
    assert Strings.TrimStart(inner + ")", "()") == inner + ")";
    assert (inner + ")")[..|inner|] == inner;
    assert Strings.TrimEnd(inner, "()") == inner;
  }

  /** The written node cut at its '=' sign. */
  lemma RenderSides(n: Node)
    ensures RenderNode(n) == (n.name + " ") + ['='] + (" " + ("(" + (n.lhs + [','] + (" " + n.rhs)) + ")"))
  {
  }

  lemma LabelAvoids(s: string, c: char)
    requires Label(s) && (c == '=' || c == ',' || c == '(' || c == ')' || c == ' ')
    ensures forall i :: 0 <= i < |s| ==> s[i] != c
  {
  }

  /** The right-hand side of a written node holds no '='. */
  lemma TailAvoids(lhs: string, rhs: string)
    requires Label(lhs) && Label(rhs)
    ensures var t := " " + ("(" + (lhs + [','] + (" " + rhs)) + ")"); forall i :: 0 <= i < |t| ==> t[i] != '='
  {
    var t := " " + ("(" + (lhs + [','] + (" " + rhs)) + ")");
    forall i | 0 <= i < |t| ensures t[i] != '=' {
      if 2 <= i < 2 + |lhs| {
        assert t[i] == lhs[i - 2];
      } else if 4 + |lhs| <= i < 4 + |lhs| + |rhs| {
        assert t[i] == rhs[i - 4 - |lhs|];
      }
    }
  }

  /** The children part of a written node, stripped of blanks and parentheses. */
  lemma ChildrenText(lhs: string, rhs: string)
    requires Label(lhs) && Label(rhs)
    ensures Strings.StripChars(Strings.Strip(" " + ("(" + (lhs + [','] + (" " + rhs)) + ")")), "()") == lhs + [','] + (" " + rhs)
  {
    var inner := lhs + [','] + (" " + rhs);
    var bracketed := "(" + inner + ")";
    assert bracketed[0] == '(' && bracketed[|bracketed| - 1] == ')';
    Strings.StripPadded(bracketed);
    assert inner[0] == lhs[0] && inner[|inner| - 1] == rhs[|rhs| - 1];
    StripParens(inner);
  }

  /** The children part of a written node splits at its comma into the left name and the blank-led right name. */
  lemma ChildrenSplit(lhs: string, rhs: string)
    requires Label(lhs) && Label(rhs)
    ensures Strings.SplitOn(lhs + [','] + (" " + rhs), ',') == [lhs, " " + rhs]
  {
    LabelAvoids(lhs, ',');
    assert forall i :: 0 <= i < |" " + rhs| ==> (" " + rhs)[i] != ',' by {
      LabelAvoids(rhs, ',');
    }
    SplitOnTwo(lhs, ',', " " + rhs);
  }

  /** `readNode` reads back every node the puzzle way of writing it produces. */
  lemma ReadNodeRender(n: Node)
    requires Label(n.name) && Label(n.lhs) && Label(n.rhs)
    ensures ReadNode(RenderNode(n)) == Ok(n)
  {
    var tail := " " + ("(" + (n.lhs + [','] + (" " + n.rhs)) + ")");
    RenderSides(n);
    TailAvoids(n.lhs, n.rhs);
    LabelAvoids(n.name, '=');
    SplitOnTwo(n.name + " ", '=', tail);
    ChildrenText(n.lhs, n.rhs);
    ChildrenSplit(n.lhs, n.rhs);
    ReadNodeOf(RenderNode(n), n.name + " ", tail, n.lhs + [','] + (" " + n.rhs), n.lhs, " " + n.rhs);
    StripTrailing(n.name);
    Strings.StripNoSpace(n.lhs);
    Strings.StripPadded(n.rhs);
  }

  /** A line without '=' is not a node: unpacking its one part raises ValueError. */
  lemma ReadNodeNoEquals(line: string)
    requires forall i :: 0 <= i < |line| ==> line[i] != '='
    ensures ReadNode(line) == Err("ValueError")
  {
    Strings.FindAbsent(line, '=');
    Strings.SplitHead(line, "=", -1);
  }

  /** The asserted parse of "STS = (QBV, QVV)". */
  lemma ExampleNode()
    ensures ReadNode("STS = (QBV, QVV)") == Ok(Node("STS", "QBV", "QVV"))
  {
    var n := Node("STS", "QBV", "QVV");
    assert RenderNode(n) == "STS = (QBV, QVV)";
    ReadNodeRender(n);
  }

  // ---------------------------------------------------------------- the graph

  /** The position of the first node with that name, or the node count when there is none. */
  function NameIndex(nodes: seq<Node>, name: string): (i: nat)
    ensures i <= |nodes|
    ensures i < |nodes| ==> nodes[i].name == name
    ensures forall k :: 0 <= k < i ==> nodes[k].name != name
  {
    if nodes == [] then 0
    else if nodes[0].name == name then 0
    else 1 + NameIndex(nodes[1..], name)
  }

  /**
   * `Graph.getNode`: the first node with that name. When there is none, `next` on the empty
   * generator raises StopIteration (the `is None` test after it can never fire).
   */
  function GetNode(nodes: seq<Node>, name: string): (r: Result<Node>)
    ensures r.Ok? ==>
      r.value.name == name && exists k :: 0 <= k < |nodes| && nodes[k] == r.value && forall j :: 0 <= j < k ==> nodes[j].name != name
    ensures r.Err? ==> r.error == "StopIteration" && forall k :: 0 <= k < |nodes| ==> nodes[k].name != name
  {
    var i := NameIndex(nodes, name);
    if i < |nodes| then Ok(nodes[i]) else Err("StopIteration")
  }

  /** `Graph.goLeft`. */
  function GoLeft(nodes: seq<Node>, current: Node): Result<Node>
  {
    GetNode(nodes, current.lhs)
  }

  /** `Graph.goRight`. */
  function GoRight(nodes: seq<Node>, current: Node): Result<Node>
  {
    GetNode(nodes, current.rhs)
  }

  /** `step`: the current node on an empty instruction string, its left successor on 'L' and its right one on anything else. */
  function Step(nodes: seq<Node>, current: Node, instructions: string): (r: Result<Node>)
    ensures instructions == [] ==> r == Ok(current)
    ensures instructions != [] && instructions[0] == 'L' ==>
      (r.Ok? <==> exists k :: 0 <= k < |nodes| && nodes[k].name == current.lhs) && (r.Ok? ==> r.value.name == current.lhs)
    ensures instructions != [] && instructions[0] != 'L' ==>
      (r.Ok? <==> exists k :: 0 <= k < |nodes| && nodes[k].name == current.rhs) && (r.Ok? ==> r.value.name == current.rhs)
  {
    if |instructions| == 0 then Ok(current)
    else if instructions[0] == 'L' then GoLeft(nodes, current)
    else GoRight(nodes, current)
  }

  /** The node a step leads to is a node of the graph, the first one of its name. */
  lemma StepInGraph(nodes: seq<Node>, current: Node, instructions: string)
    requires instructions != [] && Step(nodes, current, instructions).Ok?
    ensures var n := Step(nodes, current, instructions).value;
      NameIndex(nodes, n.name) < |nodes| && nodes[NameIndex(nodes, n.name)] == n
  {
  }

  // ---------------------------------------------------------------- the traversal

  /** The circle's index after `k` reads that started at `offset`: each read moves it on by one, wrapping at `n`. */
  function Idx(offset: nat, k: nat, n: nat): (i: nat)
    requires offset < n
    ensures i < n
  {
    if k == 0 then offset else (Idx(offset, k - 1, n) + 1) % n
  }

  /** Each read moves the index on by one place, back to 0 after the last instruction. */
  lemma {:induction false} IdxCounts(offset: nat, k: nat, n: nat)
    requires offset + k < n
    ensures Idx(offset, k, n) == offset + k
  {
    if k > 0 {
      IdxCounts(offset, k - 1, n);
      Lists.ModBelow(offset + k, n);
    }
  }

  /**
   * Where the traversal stands after `k` steps from `start`, the i-th step following the
   * instruction at index `Idx(offset, i, |instructions|)` of the circle.
   */
  function Walk(nodes: seq<Node>, instructions: string, offset: nat, start: Node, k: nat): Result<Node>
    requires offset < |instructions| || k == 0
  {
    if k == 0 then Ok(start)
    else
      match Walk(nodes, instructions, offset, start, k - 1)
      case Err(e) => Err(e)
      case Ok(n) => Step(nodes, n, [instructions[Idx(offset, k - 1, |instructions|)]])
  }

  /** One more step of a walk that has reached `n`. */
  lemma WalkNext(nodes: seq<Node>, instructions: string, offset: nat, start: Node, k: nat, n: Node)
    requires offset < |instructions| && k >= 1 && Walk(nodes, instructions, offset, start, k - 1) == Ok(n)
    ensures Walk(nodes, instructions, offset, start, k) == Step(nodes, n, [instructions[Idx(offset, k - 1, |instructions|)]])
  {
  }

  /** `path` lists the walk's nodes, one per step taken. */
  ghost predicate Walked(nodes: seq<Node>, instructions: string, offset: nat, start: Node, path: seq<Node>)
    requires offset < |instructions|
  {
    forall k :: 0 <= k < |path| ==> Walk(nodes, instructions, offset, start, k) == Ok(path[k])
  }

  lemma WalkedSnoc(nodes: seq<Node>, instructions: string, offset: nat, start: Node, path: seq<Node>, n: Node)
    requires offset < |instructions| && Walked(nodes, instructions, offset, start, path)
    requires Walk(nodes, instructions, offset, start, |path|) == Ok(n)
    ensures Walked(nodes, instructions, offset, start, path + [n])
  {
  }

  /** A traversal's state: the path is the walk so far, ending at the current node, with the circle's index one read per step on. */
  ghost predicate OnWalk(nodes: seq<Node>, instructions: string, offset: nat, start: Node, idx: nat, current: Node, path: seq<Node>)
  {
    |path| >= 1 && current == path[|path| - 1]
    && (instructions == [] ==> |path| == 1 && path[0] == start)
    && (instructions != [] ==>
          offset < |instructions| && idx == Idx(offset, |path| - 1, |instructions|)
          && Walked(nodes, instructions, offset, start, path))
  }

  /** A step from a traversal's state reads the circle at its index and lands where the walk goes next. */
  lemma OnWalkNext(nodes: seq<Node>, instructions: string, offset: nat, start: Node, idx: nat, current: Node, path: seq<Node>)
    requires OnWalk(nodes, instructions, offset, start, idx, current, path) && idx < |instructions|
    ensures var r := Step(nodes, current, [instructions[idx]]);
      r == Walk(nodes, instructions, offset, start, |path|)
      && (r.Ok? ==> OnWalk(nodes, instructions, offset, start, (idx + 1) % |instructions|, r.value, path + [r.value]))
  {
    var m := |path| - 1;
    assert Walk(nodes, instructions, offset, start, m) == Ok(path[m]);
    WalkNext(nodes, instructions, offset, start, m + 1, current);
    var r := Step(nodes, current, [instructions[idx]]);
    if r.Ok? {
      WalkedSnoc(nodes, instructions, offset, start, path, r.value);
      assert Idx(offset, m + 1, |instructions|) == (idx + 1) % |instructions|;
      assert (path + [r.value])[|path|] == r.value;
    }
  }

  /** `InstructionCircle`: the instruction string read round and round. */
  class InstructionCircle {
    const instructions: string
    var idx: nat

    ghost predicate Valid()
      reads this
    {
      idx == 0 || idx < |instructions|
    }

    constructor (instructions: string)
      ensures Valid() && this.instructions == instructions && idx == 0
    {
      this.instructions := instructions;
      idx := 0;
    }

    /** `next`: the instruction at the index, which then moves on, wrapping at the end; IndexError on an empty string. */
    method Next() returns (r: Result<char>)
      requires Valid()
      modifies this`idx
      ensures Valid()
      ensures instructions == [] ==> r == Err("IndexError") && idx == old(idx)
      ensures instructions != [] ==> r == Ok(instructions[old(idx)]) && idx == (old(idx) + 1) % |instructions|
    {
      if idx >= |instructions| {
        return Err("IndexError");
      }
      r := Ok(instructions[idx]);
      idx := (idx + 1) % |instructions|;
    }
  }

  /** `Traversal`: the current node and every node visited so far, advanced one instruction at a time. */
  class Traversal {
    const graph: seq<Node>
    const circle: InstructionCircle
    var current: Node
    var path: seq<Node>
    ghost const start: Node
    ghost const offset: nat

    /** The path is the walk from the start node, and the circle has consumed one instruction per step. */
    ghost predicate Valid()
      reads this, circle
    {
      circle.Valid() && OnWalk(graph, circle.instructions, offset, start, circle.idx, current, path)
    }

    constructor (graph: seq<Node>, circle: InstructionCircle, current: Node)
      requires circle.Valid()
      ensures Valid() && this.graph == graph && this.circle == circle && this.current == current
      ensures path == [current] && start == current && offset == circle.idx
    {
      this.graph := graph;
      this.circle := circle;
      this.current := current;
      this.path := [current];
      this.start := current;
      this.offset := circle.idx;
    }

    /** `steps`: the number of steps taken. */
    function Steps(): int
      reads this
    {
      |path| - 1
    }

    /** `next`: one step along the next instruction; the new node is appended to the path. */
    method Next() returns (r: Result<Node>)
      requires Valid()
      modifies this`current, this`path, circle`idx
      ensures circle.instructions == [] ==> r == Err("IndexError") && path == old(path)
      ensures circle.instructions != [] ==> r == Walk(graph, circle.instructions, offset, start, |old(path)|)
      ensures r.Ok? ==> Valid() && current == r.value && path == old(path) + [r.value] && Steps() == old(Steps()) + 1
      ensures r.Err? ==> current == old(current) && path == old(path)
    {
      var instruction := circle.Next();
      if instruction.Err? {
        return Err(instruction.error);
      }
      r := Step(graph, current, [instruction.value]);
      OnWalkNext(graph, circle.instructions, offset, start, old(circle.idx), current, path);
      if r.Ok? {
        current := r.value;
        path := path + [current];
      }
    }
  }

  /** The test loop `while traversal.current != dst: traversal.next()` stops after `k` steps: the first visit of the name. */
  ghost predicate FirstVisit(nodes: seq<Node>, instructions: string, start: Node, name: string, k: nat)
    requires instructions != []
  {
    (forall j :: 0 <= j < k ==> Walk(nodes, instructions, 0, start, j).Ok? && Walk(nodes, instructions, 0, start, j).value.name != name)
    && Walk(nodes, instructions, 0, start, k).Ok? && Walk(nodes, instructions, 0, start, k).value.name == name
  }

  // ---------------------------------------------------------------- ProblemSet and the examples

  datatype ProblemSet = ProblemSet(instructions: string, graph: seq<Node>)

  function Strips(lines: seq<string>): (r: seq<string>)
    ensures |r| == |lines| && forall k :: 0 <= k < |lines| ==> r[k] == Strings.Strip(lines[k])
  {
    seq(|lines|, k requires 0 <= k < |lines| => Strings.Strip(lines[k]))
  }

  /** `ProblemSet`: the first non-blank line is the instruction string, every later one a node; IndexError without lines. */
  function ReadProblemSet(lines: seq<string>): (r: Result<ProblemSet>)
  {
    var nonempty := Strips(Lines.NonBlank(lines));
    if nonempty == [] then Err("IndexError")
    else
      match MapAll(nonempty[1..], ReadNode)
      case Err(e) => Err(e)
      case Ok(g) => Ok(ProblemSet(nonempty[0], g))
  }

  /** A line whose ends are not blank is kept whole by `strip`. */
  lemma StripKeeps(t: string)
    requires |t| > 0 && !Strings.IsSpace(t[0]) && !Strings.IsSpace(t[|t| - 1])
    ensures Strings.Strip(t) == t && Lines.Kept(t)
  {
    Strings.WhitespaceIsSpace(t[0]);
    Strings.WhitespaceIsSpace(t[|t| - 1]);
    assert Strings.TrimStart(t, Strings.Whitespace) == t;
  }

  /** A problem set read from its parts: the non-blank lines are the instructions and then the node lines. */
  lemma ReadProblemSetOf(lines: seq<string>, instructions: string, nodeLines: seq<string>, graph: seq<Node>)
    requires Lines.NonBlank(lines) == [instructions] + nodeLines
    requires Strings.Strip(instructions) == instructions
    requires forall k :: 0 <= k < |nodeLines| ==> Strings.Strip(nodeLines[k]) == nodeLines[k]
    requires |nodeLines| == |graph| && forall k :: 0 <= k < |nodeLines| ==> ReadNode(nodeLines[k]) == Ok(graph[k])
    ensures ReadProblemSet(lines) == Ok(ProblemSet(instructions, graph))
  {
    var nonempty := Strips(Lines.NonBlank(lines));
    assert nonempty == [instructions] + nodeLines;
    assert nonempty[1..] == nodeLines;
    MapAllPointwise(nodeLines, ReadNode, graph);
  }

  /** A puzzle text's shape: a blank line, the instructions, a blank line, the node lines and a last blank line. */
  lemma PuzzleShape(instructions: string, nodeLines: seq<string>)
    requires Lines.Kept(instructions)
    requires forall k :: 0 <= k < |nodeLines| ==> Lines.Kept(nodeLines[k])
    ensures Lines.NonBlank(["", instructions, ""] + nodeLines + [""]) == [instructions] + nodeLines
  {
    var head := ["", instructions, ""];
    assert Lines.NonBlank(head) == [instructions] by {
      Lines.NonBlankFramed([instructions], 1);
      assert head == [""] + [instructions] + Lines.Empties(1);
    }
    assert Lines.NonBlank(nodeLines + [""]) == nodeLines by {
      Lines.NonBlankSnoc(nodeLines, "");
      Strings.StripNoSpace("");
      Lists.FilterKeeps(nodeLines, Lines.Kept);
    }
    Lines.NonBlankAppend(head, nodeLines + [""]);
    assert head + nodeLines + [""] == head + (nodeLines + [""]);
  }

  /** A written node is a kept line that reads back as the node. */
  lemma WrittenLine(n: Node)
    requires Label(n.name) && Label(n.lhs) && Label(n.rhs)
    ensures ReadNode(RenderNode(n)) == Ok(n) && Strings.Strip(RenderNode(n)) == RenderNode(n) && Lines.Kept(RenderNode(n))
  {
    ReadNodeRender(n);
    RenderEnds(n);
    StripKeeps(RenderNode(n));
  }

  /** A written node starts with its name and ends with a parenthesis. */
  lemma RenderEnds(n: Node)
    requires Label(n.name)
    ensures |RenderNode(n)| > 0 && !Strings.IsSpace(RenderNode(n)[0]) && !Strings.IsSpace(RenderNode(n)[|RenderNode(n)| - 1])
  {
    var t := RenderNode(n);
    assert t[0] == n.name[0] && t[|t| - 1] == ')';
  }

  /** Every node of a graph, written the puzzle way, reads back. */
  lemma ReadWritten(graph: seq<Node>, nodeLines: seq<string>)
    requires |nodeLines| == |graph|
    requires forall k :: 0 <= k < |graph| ==> Label(graph[k].name) && Label(graph[k].lhs) && Label(graph[k].rhs)
    requires forall k :: 0 <= k < |graph| ==> nodeLines[k] == RenderNode(graph[k])
    ensures forall k :: 0 <= k < |nodeLines| ==> ReadNode(nodeLines[k]) == Ok(graph[k])
    ensures forall k :: 0 <= k < |nodeLines| ==> Strings.Strip(nodeLines[k]) == nodeLines[k] && Lines.Kept(nodeLines[k])
  {
    forall k | 0 <= k < |nodeLines|
      ensures ReadNode(nodeLines[k]) == Ok(graph[k]) && Strings.Strip(nodeLines[k]) == nodeLines[k] && Lines.Kept(nodeLines[k])
    {
      WrittenLine(graph[k]);
    }
  }

  /** A puzzle text as written: a blank line, the instructions, a blank line, one line per node and a last blank line. */
  function RenderPuzzle(instructions: string, graph: seq<Node>): (r: seq<string>)
    ensures |r| == |graph| + 4
  {
    ["", instructions, ""] + seq(|graph|, k requires 0 <= k < |graph| => RenderNode(graph[k])) + [""]
  }

  /** Reading a written puzzle text gives back its instructions and its nodes. */
  lemma ReadRenderPuzzle(instructions: string, graph: seq<Node>)
    requires |instructions| > 0 && !Strings.IsSpace(instructions[0]) && !Strings.IsSpace(instructions[|instructions| - 1])
    requires forall k :: 0 <= k < |graph| ==> Label(graph[k].name) && Label(graph[k].lhs) && Label(graph[k].rhs)
    ensures ReadProblemSet(RenderPuzzle(instructions, graph)) == Ok(ProblemSet(instructions, graph))
  {
    var nodeLines := seq(|graph|, k requires 0 <= k < |graph| => RenderNode(graph[k]));
    ReadWritten(graph, nodeLines);
    StripKeeps(instructions);
    PuzzleShape(instructions, nodeLines);
    ReadProblemSetOf(RenderPuzzle(instructions, graph), instructions, nodeLines, graph);
  }

  /** The lines of the first example text, as `split("\n")` gives them. */
  function ExampleLines(): seq<string>
  {
    ["", "RL", "", "AAA = (BBB, CCC)", "BBB = (DDD, EEE)", "CCC = (ZZZ, GGG)", "DDD = (DDD, DDD)",
     "EEE = (EEE, EEE)", "GGG = (GGG, GGG)", "ZZZ = (ZZZ, ZZZ)", ""]
  }

  function ExampleGraph(): seq<Node>
  {
    [Node("AAA", "BBB", "CCC"), Node("BBB", "DDD", "EEE"), Node("CCC", "ZZZ", "GGG"), Node("DDD", "DDD", "DDD"),
     Node("EEE", "EEE", "EEE"), Node("GGG", "GGG", "GGG"), Node("ZZZ", "ZZZ", "ZZZ")]
  }

  /** The first example text is the puzzle "RL" with its seven nodes, written out. */
  lemma ExampleText()
    ensures ExampleLines() == RenderPuzzle("RL", ExampleGraph())
  {
    var r := RenderPuzzle("RL", ExampleGraph());
    RenderNodeSpelled(Node("AAA", "BBB", "CCC"));
    assert r[3] == "AAA = (BBB, CCC)";
    RenderNodeSpelled(Node("BBB", "DDD", "EEE"));
    assert r[4] == "BBB = (DDD, EEE)";
    RenderNodeSpelled(Node("CCC", "ZZZ", "GGG"));
    assert r[5] == "CCC = (ZZZ, GGG)";
    RenderNodeSpelled(Node("DDD", "DDD", "DDD"));
    assert r[6] == "DDD = (DDD, DDD)";
    RenderNodeSpelled(Node("EEE", "EEE", "EEE"));
    assert r[7] == "EEE = (EEE, EEE)";
    RenderNodeSpelled(Node("GGG", "GGG", "GGG"));
    assert r[8] == "GGG = (GGG, GGG)";
    RenderNodeSpelled(Node("ZZZ", "ZZZ", "ZZZ"));
    assert r[9] == "ZZZ = (ZZZ, ZZZ)";
  }

  /** A node with three-letter labels is written as these sixteen characters. */
  lemma RenderNodeSpelled(n: Node)
    requires |n.name| == 3 && |n.lhs| == 3 && |n.rhs| == 3
    ensures RenderNode(n) == [n.name[0], n.name[1], n.name[2], ' ', '=', ' ', '(', n.lhs[0], n.lhs[1], n.lhs[2], ',', ' ', n.rhs[0], n.rhs[1], n.rhs[2], ')']
  {
  }

  /** The first example text reads as the instructions "RL" and its seven nodes. */
  lemma ExampleRead()
    ensures ReadProblemSet(ExampleLines()) == Ok(ProblemSet("RL", ExampleGraph()))
  {
    ExampleText();
    ReadRenderPuzzle("RL", ExampleGraph());
  }

  /** The node of a name is the first one carrying it. */
  lemma GetNodeAt(nodes: seq<Node>, k: nat, name: string)
    requires k < |nodes| && nodes[k].name == name
    requires forall j :: 0 <= j < k ==> nodes[j].name != name
    ensures GetNode(nodes, name) == Ok(nodes[k])
  {
    var i := NameIndex(nodes, name);
    assert i == k;
  }

  /** One step of a walk to the node that the instruction read picks. */
  lemma WalkStepTo(nodes: seq<Node>, instructions: string, start: Node, k: nat, prev: Node, next: Node)
    requires |instructions| > 0 && k >= 1 && Walk(nodes, instructions, 0, start, k - 1) == Ok(prev)
    requires GetNode(nodes, if instructions[Idx(0, k - 1, |instructions|)] == 'L' then prev.lhs else prev.rhs) == Ok(next)
    ensures Walk(nodes, instructions, 0, start, k) == Ok(next)
  {
    WalkNext(nodes, instructions, 0, start, k, prev);
  }

  /** The nodes of the first example that its walk meets. */
  lemma ExampleNodes()
    ensures GetNode(ExampleGraph(), "AAA") == Ok(Node("AAA", "BBB", "CCC"))
    ensures GetNode(ExampleGraph(), "CCC") == Ok(Node("CCC", "ZZZ", "GGG"))
    ensures GetNode(ExampleGraph(), "ZZZ") == Ok(Node("ZZZ", "ZZZ", "ZZZ"))
  {
    var g := ExampleGraph();
    GetNodeAt(g, 0, "AAA");
    GetNodeAt(g, 2, "CCC");
    GetNodeAt(g, 6, "ZZZ");
  }

  /** The walk has not met `name` in its first `k` steps. */
  ghost predicate NotYet(nodes: seq<Node>, instructions: string, start: Node, name: string, k: nat)
    requires instructions != []
  {
    forall j :: 0 <= j < k ==> Walk(nodes, instructions, 0, start, j).Ok? && Walk(nodes, instructions, 0, start, j).value.name != name
  }

  /** A node of another name after `k` steps extends the stretch that has not met `name`. */
  lemma NotYetSnoc(nodes: seq<Node>, instructions: string, start: Node, name: string, k: nat, w: Node)
    requires instructions != [] && NotYet(nodes, instructions, start, name, k)
    requires Walk(nodes, instructions, 0, start, k) == Ok(w) && w.name != name
    ensures NotYet(nodes, instructions, start, name, k + 1)
  {
  }

  /** The walk of the first example: AAA, CCC, ZZZ. */
  lemma ExampleWalk()
    ensures Walk(ExampleGraph(), "RL", 0, Node("AAA", "BBB", "CCC"), 1) == Ok(Node("CCC", "ZZZ", "GGG"))
    ensures Walk(ExampleGraph(), "RL", 0, Node("AAA", "BBB", "CCC"), 2) == Ok(Node("ZZZ", "ZZZ", "ZZZ"))
  {
    var g, a, c, z := ExampleGraph(), Node("AAA", "BBB", "CCC"), Node("CCC", "ZZZ", "GGG"), Node("ZZZ", "ZZZ", "ZZZ");
    ExampleNodes();
    assert Idx(0, 0, 2) == 0 && Idx(0, 1, 2) == 1;
    WalkStepTo(g, "RL", a, 1, a, c);
    WalkStepTo(g, "RL", a, 2, c, z);
  }

  /** From "AAA" the instructions "RL" reach "ZZZ" after two steps. */
  lemma ExampleSteps()
    ensures GetNode(ExampleGraph(), "AAA") == Ok(Node("AAA", "BBB", "CCC"))
    ensures FirstVisit(ExampleGraph(), "RL", Node("AAA", "BBB", "CCC"), "ZZZ", 2)
  {
    var g, a, c, z := ExampleGraph(), Node("AAA", "BBB", "CCC"), Node("CCC", "ZZZ", "GGG"), Node("ZZZ", "ZZZ", "ZZZ");
    ExampleNodes();
    ExampleWalk();
    NotYetSnoc(g, "RL", a, "ZZZ", 0, a);
    NotYetSnoc(g, "RL", a, "ZZZ", 1, c);
  }

  function SecondLines(): seq<string>
  {
    ["", "LLR", "", "AAA = (BBB, BBB)", "BBB = (AAA, ZZZ)", "ZZZ = (ZZZ, ZZZ)", ""]
  }

  function SecondGraph(): seq<Node>
  {
    [Node("AAA", "BBB", "BBB"), Node("BBB", "AAA", "ZZZ"), Node("ZZZ", "ZZZ", "ZZZ")]
  }

  /** The second example text is the puzzle "LLR" with its three nodes, written out. */
  lemma SecondText()
    ensures SecondLines() == RenderPuzzle("LLR", SecondGraph())
  {
    var r := RenderPuzzle("LLR", SecondGraph());
    assert r[3] == "AAA = (BBB, BBB)";
    assert r[4] == "BBB = (AAA, ZZZ)";
    assert r[5] == "ZZZ = (ZZZ, ZZZ)";
  }

  /** The second example text reads as the instructions "LLR" and its three nodes. */
  lemma SecondRead()
    ensures ReadProblemSet(SecondLines()) == Ok(ProblemSet("LLR", SecondGraph()))
  {
    SecondText();
    ReadRenderPuzzle("LLR", SecondGraph());
  }

  /** The nodes of the second example. */
  lemma SecondNodes()
    ensures GetNode(SecondGraph(), "AAA") == Ok(Node("AAA", "BBB", "BBB"))
    ensures GetNode(SecondGraph(), "BBB") == Ok(Node("BBB", "AAA", "ZZZ"))
    ensures GetNode(SecondGraph(), "ZZZ") == Ok(Node("ZZZ", "ZZZ", "ZZZ"))
  {
    var g := SecondGraph();
    GetNodeAt(g, 0, "AAA");
    GetNodeAt(g, 1, "BBB");
    GetNodeAt(g, 2, "ZZZ");
  }

  /** Reading "LLR" round and round from its start. */
  lemma SecondIndices()
    ensures Idx(0, 0, 3) == 0 && Idx(0, 1, 3) == 1 && Idx(0, 2, 3) == 2
    ensures Idx(0, 3, 3) == 0 && Idx(0, 4, 3) == 1 && Idx(0, 5, 3) == 2
  {
  }

  /** The walk of the second example: AAA and BBB three times each, then ZZZ. */
  lemma SecondWalk()
    ensures Walk(SecondGraph(), "LLR", 0, Node("AAA", "BBB", "BBB"), 1) == Ok(Node("BBB", "AAA", "ZZZ"))
    ensures Walk(SecondGraph(), "LLR", 0, Node("AAA", "BBB", "BBB"), 2) == Ok(Node("AAA", "BBB", "BBB"))
    ensures Walk(SecondGraph(), "LLR", 0, Node("AAA", "BBB", "BBB"), 3) == Ok(Node("BBB", "AAA", "ZZZ"))
    ensures Walk(SecondGraph(), "LLR", 0, Node("AAA", "BBB", "BBB"), 4) == Ok(Node("AAA", "BBB", "BBB"))
    ensures Walk(SecondGraph(), "LLR", 0, Node("AAA", "BBB", "BBB"), 5) == Ok(Node("BBB", "AAA", "ZZZ"))
    ensures Walk(SecondGraph(), "LLR", 0, Node("AAA", "BBB", "BBB"), 6) == Ok(Node("ZZZ", "ZZZ", "ZZZ"))
  {
    var g, a, b, z := SecondGraph(), Node("AAA", "BBB", "BBB"), Node("BBB", "AAA", "ZZZ"), Node("ZZZ", "ZZZ", "ZZZ");
    SecondNodes();
    SecondIndices();
    WalkStepTo(g, "LLR", a, 1, a, b);
    WalkStepTo(g, "LLR", a, 2, b, a);
    WalkStepTo(g, "LLR", a, 3, a, b);
    WalkStepTo(g, "LLR", a, 4, b, a);
    WalkStepTo(g, "LLR", a, 5, a, b);
    WalkStepTo(g, "LLR", a, 6, b, z);
  }

  /** From "AAA" the instructions "LLR" reach "ZZZ" after six steps. */
  lemma SecondSteps()
    ensures GetNode(SecondGraph(), "AAA") == Ok(Node("AAA", "BBB", "BBB"))
    ensures FirstVisit(SecondGraph(), "LLR", Node("AAA", "BBB", "BBB"), "ZZZ", 6)
  {
    var g, a, b := SecondGraph(), Node("AAA", "BBB", "BBB"), Node("BBB", "AAA", "ZZZ");
    SecondNodes();
    SecondWalk();
    NotYetSnoc(g, "LLR", a, "ZZZ", 0, a);
    NotYetSnoc(g, "LLR", a, "ZZZ", 1, b);
    NotYetSnoc(g, "LLR", a, "ZZZ", 2, a);
    NotYetSnoc(g, "LLR", a, "ZZZ", 3, b);
    NotYetSnoc(g, "LLR", a, "ZZZ", 4, a);
    NotYetSnoc(g, "LLR", a, "ZZZ", 5, b);
  }
}
