/**
 * Day 20 (20/pulse.py): pulse modules.
 *
 * A configuration line names a module, its type (`%` flip-flop, `&` conjunction, or the
 * broadcaster) and the modules it sends to. Each module counts the pulses it receives and
 * answers with pulses to its children; pressing the button sends one low pulse to the
 * broadcaster, and the pending pulses are processed last in, first out. Modules refer to each
 * other by name, as the source hashes them by name.
 */
module Day20Pulse {
  import opened Wrappers
  import opened Strings

  // ---------------------------------------------------------------- reading the configuration

  /** The class a module is built as: `Node`, `FlipFlop`, `Conjunction` or `Broadcaster`. */
  datatype Kind = Plain | FlipFlop | Conjunction | Broadcaster

  /** `NodeBlueprint` together with the class the line selects. */
  datatype Blueprint = Blueprint(kind: Kind, name: string, children: seq<string>)

  /** The type lookup of `readNode`: `%`, `&` and `broadcaster`; anything else raises KeyError. */
  function KindOf(nodeType: string): (r: Result<Kind>)
    ensures r.Ok? <==> nodeType in {"%", "&", "broadcaster"}
    ensures r.Err? ==> r.error == "KeyError"
    ensures r.Ok? ==> r.value != Plain
  {
    if nodeType == "%" then Ok(FlipFlop)
    else if nodeType == "&" then Ok(Conjunction)
    else if nodeType == "broadcaster" then Ok(Broadcaster)
    else Err("KeyError")
  }

  /**
   * `readNode`: the line must split at " -> " into exactly two parts (else ValueError); the
   * broadcaster is named by its whole text, any other module by the text after its type
   * character (an empty text raises IndexError); the children are split at ", ".
   */
  function ReadNode(line: string): Result<Blueprint>
  {
    var parts := Split(line, " -> ");
    if |parts| != 2 then Err("ValueError")
    else
      var nodeTxt, childrenTxt := parts[0], parts[1];
      var children := Split(childrenTxt, ", ");
      if nodeTxt == "broadcaster" then Ok(Blueprint(Broadcaster, nodeTxt, children))
      else if nodeTxt == [] then Err("IndexError")
      else match KindOf([nodeTxt[0]])
        case Err(err) => Err(err)
        case Ok(kind) => Ok(Blueprint(kind, nodeTxt[1..], children))
  }

  /** The module part of a line: the type character, then the name. */
  function NodeText(b: Blueprint): string
  {
    match b.kind
    case FlipFlop => "%" + b.name
    case Conjunction => "&" + b.name
    case _ => b.name
  }

  /** A module as the configuration writes it: `%a -> b, c`. */
  function RenderNode(b: Blueprint): string
  {
    NodeText(b) + " -> " + Join(b.children, ", ")
  }

  /** A module name: letters only. */
  predicate Label(s: string)
  {
    |s| > 0 && forall i :: 0 <= i < |s| ==> IsAlpha(s[i])
  }

  /** A module the configuration can describe: a typed module with at least one child, all named by labels. */
  predicate WellFormed(b: Blueprint)
  {
    b.kind != Plain && (b.kind == Broadcaster ==> b.name == "broadcaster")
    && Label(b.name) && |b.children| >= 1 && forall i :: 0 <= i < |b.children| ==> Label(b.children[i])
  }

  /** No character of a label is a blank, a comma or a dash. */
  lemma LabelAvoids(s: string)
    requires Label(s)
    ensures forall i :: 0 <= i < |s| ==> s[i] != ' ' && s[i] != ',' && s[i] != '-'
  {
  }

  /** Labels hold no comma and no dash. */
  lemma LabelsAvoid(children: seq<string>)
    requires forall i :: 0 <= i < |children| ==> Label(children[i])
    ensures forall k, i :: 0 <= k < |children| && 0 <= i < |children[k]| ==> children[k][i] != ',' && children[k][i] != '-'
  {
    forall k | 0 <= k < |children| {
      LabelAvoids(children[k]);
    }
  }

  /** Names free of commas and dashes: their children text splits back into them and holds no dash. */
  lemma ChildrenText(children: seq<string>)
    requires |children| >= 1
    requires forall k, i :: 0 <= k < |children| && 0 <= i < |children[k]| ==> children[k][i] != ',' && children[k][i] != '-'
    ensures Split(Join(children, ", "), ", ") == children
    ensures forall i :: 0 <= i < |Join(children, ", ")| ==> Join(children, ", ")[i] != '-'
  {
    FindSepMissing(children[|children| - 1], ", ", 0);
    SplitJoin(children, ", ");
    JoinChars(children, ", ", '-');
  }

  /** The module part holds no blank, and reads back as the blueprint's type and name. */
  lemma NodeTextReads(b: Blueprint)
    requires WellFormed(b)
    ensures forall i :: 0 <= i < |NodeText(b)| ==> NodeText(b)[i] != ' '
    ensures b.kind == Broadcaster <==> NodeText(b) == "broadcaster"
    ensures b.kind != Broadcaster ==> |NodeText(b)| > 0 && KindOf([NodeText(b)[0]]) == Ok(b.kind) && NodeText(b)[1..] == b.name
  {
    LabelAvoids(b.name);
    var t := NodeText(b);
    if b.kind != Broadcaster {
      assert t[0] == '%' || t[0] == '&';
      assert t[0] != "broadcaster"[0];
      assert [t[0]] == "%" || [t[0]] == "&";
      forall i | 1 <= i < |t| ensures t[i] != ' ' {
        assert t[i] == b.name[i - 1];
      }
    }
  }

  /** The two halves of a written line. */
  lemma LineSplits(b: Blueprint)
    requires WellFormed(b)
    ensures Split(RenderNode(b), " -> ") == [NodeText(b), Join(b.children, ", ")]
  {
    var head, tail := NodeText(b), Join(b.children, ", ");
    NodeTextReads(b);
    LabelsAvoid(b.children);
    ChildrenText(b.children);
    FindSepMissing(tail, " -> ", 1);
    assert Join([head, tail], " -> ") == head + " -> " + tail by {
      assert [head, tail][1..] == [tail];
    }
    SplitJoin([head, tail], " -> ");
  }

  /** `readNode` reads back every module the configuration can describe. */
  lemma ReadNodeRoundTrip(b: Blueprint)
    requires WellFormed(b)
    ensures ReadNode(RenderNode(b)) == Ok(b)
  {
    LineSplits(b);
    LabelsAvoid(b.children);
    ChildrenText(b.children);
    NodeTextReads(b);
  }

  /** A line without " -> " raises ValueError. */
  lemma ReadNodeNoArrow(line: string)
    requires Find(line, " -> ", 0) == -1
    ensures ReadNode(line) == Err("ValueError")
  {
    SplitHead(line, " -> ", -1);
  }

  /** A module text that is not the broadcaster and starts with no `%` or `&` raises KeyError. */
  lemma ReadNodeUnknownType(nodeTxt: string, childrenTxt: string)
    requires |nodeTxt| > 0 && nodeTxt != "broadcaster" && nodeTxt[0] != '%' && nodeTxt[0] != '&'
    requires forall i :: 0 <= i < |nodeTxt| ==> nodeTxt[i] != ' '
    requires Find(childrenTxt, " -> ", 0) == -1
    ensures ReadNode(nodeTxt + " -> " + childrenTxt) == Err("KeyError")
  {
    assert Join([nodeTxt, childrenTxt], " -> ") == nodeTxt + " -> " + childrenTxt by {
      assert [nodeTxt, childrenTxt][1..] == [childrenTxt];
    }
    SplitJoin([nodeTxt, childrenTxt], " -> ");
    assert [nodeTxt[0]] != "%" && [nodeTxt[0]] != "&";
    assert [nodeTxt[0]] != "broadcaster";
  }

  // ---------------------------------------------------------------- receiving one pulse

  /** The mutable part of a module: its two counters, a flip-flop's state and a conjunction's inputs. */
  datatype NodeState = NodeState(lowCount: nat, highCount: nat, on: bool, inputs: map<string, bool>)

  /** A module before any pulse: nothing counted, off, no inputs. */
  const Blank := NodeState(0, 0, false, map[])

  /** A pulse in flight: `(src, dst, pulse)`; `level` true is a high pulse. */
  datatype Pulse = Pulse(src: string, dst: string, level: bool)

  /** One pulse of the same level from `src` to each child, in order. */
  function Sends(src: string, children: seq<string>, level: bool): (ps: seq<Pulse>)
    ensures |ps| == |children|
    ensures forall i :: 0 <= i < |ps| ==> ps[i] == Pulse(src, children[i], level)
  {
    seq(|children|, i requires 0 <= i < |children| => Pulse(src, children[i], level))
  }

  /** `all(self.inputs.values())`: every remembered input is high (true when there is none). */
  predicate AllHigh(inputs: map<string, bool>)
  {
    forall k :: k in inputs ==> inputs[k]
  }

  /** The counter update every module makes (`Node.receive`). */
  function Count(s: NodeState, level: bool): NodeState
  {
    if level then s.(highCount := s.highCount + 1) else s.(lowCount := s.lowCount + 1)
  }

  /**
   * `receive` of each class: the new state of module `b` and the pulses it sends after a pulse
   * of `level` from `origin`.
   */
  function React(b: Blueprint, s: NodeState, level: bool, origin: string): (NodeState, seq<Pulse>)
  {
    var counted := Count(s, level);
    match b.kind
    case Plain => (counted, [])
    case FlipFlop =>
      if level then (counted, [])
      else (counted.(on := !s.on), Sends(b.name, b.children, !s.on))
    case Conjunction =>
      var inputs := s.inputs[origin := level];
      (counted.(inputs := inputs), Sends(b.name, b.children, !AllHigh(inputs)))
    case Broadcaster => (counted, Sends(b.name, b.children, level))
  }

  /** Every pulse a module receives adds one to exactly one of its counters, the one of its level. */
  lemma ReactCounts(b: Blueprint, s: NodeState, level: bool, origin: string)
    ensures var r := React(b, s, level, origin).0;
      r.lowCount + r.highCount == s.lowCount + s.highCount + 1
      && (level ==> r.highCount == s.highCount + 1) && (!level ==> r.lowCount == s.lowCount + 1)
  {
  }

  /** A plain module sends nothing and only counts. */
  lemma ReactPlain(b: Blueprint, s: NodeState, level: bool, origin: string)
    requires b.kind == Plain
    ensures React(b, s, level, origin) == (Count(s, level), [])
  {
  }

  /**
   * A flip-flop ignores high pulses: no change but the count, and nothing sent. A low pulse flips
   * it, and it sends its new state to each child in order.
   */
  lemma ReactFlipFlop(b: Blueprint, s: NodeState, level: bool, origin: string)
    requires b.kind == FlipFlop
    ensures var (r, out) := React(b, s, level, origin);
      r.inputs == s.inputs
      && (level ==> r.on == s.on && out == [])
      && (!level ==>
            r.on == !s.on && |out| == |b.children|
            && forall i :: 0 <= i < |out| ==> out[i] == Pulse(b.name, b.children[i], r.on))
  {
  }

  /** Two low pulses bring a flip-flop back to its state, and the second sends the opposite of the first. */
  lemma FlipFlopTwice(b: Blueprint, s: NodeState, o1: string, o2: string)
    requires b.kind == FlipFlop && |b.children| > 0
    ensures var (s1, out1) := React(b, s, false, o1);
      var (s2, out2) := React(b, s1, false, o2);
      s2.on == s.on && out1[0].level == !out2[0].level
  {
  }

  /**
   * A conjunction remembers the latest pulse from the origin, and sends low to every child exactly
   * when every remembered input is high, high otherwise.
   */
  lemma ReactConjunction(b: Blueprint, s: NodeState, level: bool, origin: string)
    requires b.kind == Conjunction
    ensures var (r, out) := React(b, s, level, origin);
      r.on == s.on && r.inputs == s.inputs[origin := level]
      && |out| == |b.children|
      && forall i :: 0 <= i < |out| ==>
           out[i].dst == b.children[i] && (out[i].level == false <==> forall k :: k in r.inputs ==> r.inputs[k])
  {
  }

  /** A conjunction whose other inputs are all high sends low after a high pulse, and high after a low one. */
  lemma ConjunctionLastInput(b: Blueprint, s: NodeState, level: bool, origin: string)
    requires b.kind == Conjunction && |b.children| > 0
    requires forall k :: k in s.inputs && k != origin ==> s.inputs[k]
    ensures React(b, s, level, origin).1[0].level == !level
  {
    var inputs := s.inputs[origin := level];
    assert origin in inputs && inputs[origin] == level;
  }

  /** The broadcaster forwards the pulse unchanged to each child. */
  lemma ReactBroadcaster(b: Blueprint, s: NodeState, level: bool, origin: string)
    requires b.kind == Broadcaster
    ensures var (r, out) := React(b, s, level, origin);
      r.on == s.on && r.inputs == s.inputs && |out| == |b.children|
      && forall i :: 0 <= i < |out| ==> out[i] == Pulse(b.name, b.children[i], level)
  {
  }

  // ---------------------------------------------------------------- the network

  /** The modules by name. */
  type Topology = map<string, Blueprint>

  /** The state of every module, by name. */
  type Net = map<string, NodeState>

  /** Each module is filed under its own name, and every child is a module of the network. */
  predicate Closed(t: Topology)
  {
    forall k :: k in t ==>
      t[k].name == k && forall i :: 0 <= i < |t[k].children| ==> t[k].children[i] in t
  }

  /** A net holding a state for exactly the modules of `t`. */
  predicate Fits(t: Topology, net: Net)
  {
    Closed(t) && net.Keys == t.Keys
  }

  /** Every pending pulse goes to a module of `t`. */
  predicate Bound(t: Topology, stack: seq<Pulse>)
  {
    forall i :: 0 <= i < |stack| ==> stack[i].dst in t
  }

  /** Delivering one pulse: the receiver reacts, and the net records its new state. */
  function Deliver(t: Topology, net: Net, p: Pulse): (r: (Net, seq<Pulse>))
    requires Fits(t, net) && p.dst in t
    ensures Fits(t, r.0) && Bound(t, r.1)
    ensures forall k :: k in net && k != p.dst ==> r.0[k] == net[k]
  {
    var (s, out) := React(t[p.dst], net[p.dst], p.level, p.src);
    (net[p.dst := s], out)
  }

  /**
   * The loop of `pressButton`: pop the last pending pulse, deliver it and push what the receiver
   * sends, until nothing is pending. The result is the final net and the number of pulses
   * delivered, or None when more than `fuel` deliveries would be needed.
   */
  function Run(t: Topology, net: Net, stack: seq<Pulse>, fuel: nat): (r: Option<(Net, nat)>)
    requires Fits(t, net) && Bound(t, stack)
    ensures r.Some? ==> Fits(t, r.value.0)
    ensures r.Some? && stack != [] ==> r.value.1 >= 1
    decreases fuel
  {
    if stack == [] then Some((net, 0))
    else if fuel == 0 then None
    else
      var (net2, out) := Deliver(t, net, stack[|stack| - 1]);
      match Run(t, net2, stack[..|stack| - 1] + out, fuel - 1)
      case None => None
      case Some((n, c)) => Some((n, c + 1))
  }

  /** The pulse the button sends: low, to the broadcaster. */
  const ButtonPulse := Pulse("button", "broadcaster", false)

  /** One press of the button, with at most `fuel` deliveries. */
  function Press(t: Topology, net: Net, fuel: nat): Option<(Net, nat)>
    requires Fits(t, net) && "broadcaster" in t
  {
    Run(t, net, [ButtonPulse], fuel)
  }

  /** `times` presses in a row, each with at most `fuel` deliveries. */
  function PressMany(t: Topology, net: Net, times: nat, fuel: nat): (r: Option<Net>)
    requires Fits(t, net) && (times > 0 ==> "broadcaster" in t)
    ensures r.Some? ==> r.value.Keys == t.Keys
  {
    if times == 0 then Some(net)
    else match PressMany(t, net, times - 1, fuel)
      case None => None
      case Some(n) =>
        match Press(t, n, fuel)
        case None => None
        case Some((n2, _)) => Some(n2)
  }

  /** One more press after `i` completed ones. */
  lemma PressManyStep(t: Topology, net: Net, i: nat, i2: nat, fuel: nat, n: Net)
    requires Fits(t, net) && "broadcaster" in t && i2 == i + 1
    requires PressMany(t, net, i, fuel) == Some(n)
    ensures Fits(t, n)
    ensures Press(t, n, fuel).None? ==> PressMany(t, net, i2, fuel).None?
    ensures Press(t, n, fuel).Some? ==> PressMany(t, net, i2, fuel) == Some(Press(t, n, fuel).value.0)
  {
  }

  /** Once a press runs out of fuel, so does every longer series of presses. */
  lemma {:induction false} PressManyStuck(t: Topology, net: Net, i: nat, times: nat, fuel: nat)
    requires Fits(t, net) && "broadcaster" in t && i <= times
    requires PressMany(t, net, i, fuel).None?
    ensures PressMany(t, net, times, fuel).None?
    decreases times
  {
    if i < times {
      PressManyStuck(t, net, i, times - 1, fuel);
    }
  }

  /** A run result with `d` more pulses counted. */
  function Shift(r: Option<(Net, nat)>, d: nat): Option<(Net, nat)>
  {
    match r
    case None => None
    case Some((n, c)) => Some((n, c + d))
  }

  /** Shifting by nothing changes nothing. */
  lemma ShiftZero(r: Option<(Net, nat)>)
    ensures Shift(r, 0) == r
  {
  }

  /** A press starts from the button's pulse alone, with nothing counted yet. */
  lemma PressStarts(t: Topology, net: Net, fuel: nat)
    requires Fits(t, net) && "broadcaster" in t
    ensures Shift(Run(t, net, [ButtonPulse], fuel), 0) == Press(t, net, fuel)
  {
    ShiftZero(Press(t, net, fuel));
  }

  /** One delivery moves one pulse from the run still to come into the count already made. */
  lemma RunAdvance(t: Topology, net: Net, stack: seq<Pulse>, fuel: nat, d: nat, result: Option<(Net, nat)>,
                   net2: Net, out: seq<Pulse>, fuel2: nat, d2: nat)
    requires Fits(t, net) && Bound(t, stack) && stack != [] && fuel == fuel2 + 1 && d2 == d + 1
    requires Shift(Run(t, net, stack, fuel), d) == result
    requires (net2, out) == Deliver(t, net, stack[|stack| - 1])
    ensures Fits(t, net2) && Bound(t, stack[..|stack| - 1] + out)
    ensures Shift(Run(t, net2, stack[..|stack| - 1] + out, fuel2), d2) == result
  {
    var rest := stack[..|stack| - 1] + out;
    assert Bound(t, rest) by {
      assert forall i :: 0 <= i < |rest| ==> rest[i] in stack[..|stack| - 1] || rest[i] in out;
    }
    var later := Run(t, net2, rest, fuel2);
    assert Run(t, net, stack, fuel) == Shift(later, 1);
  }

  /** The low pulses counted by the modules listed in `names`. */
  function SumLow(net: Net, names: seq<string>): nat
    requires forall i :: 0 <= i < |names| ==> names[i] in net
  {
    if names == [] then 0 else SumLow(net, names[..|names| - 1]) + net[names[|names| - 1]].lowCount
  }

  /** The high pulses counted by the modules listed in `names`. */
  function SumHigh(net: Net, names: seq<string>): nat
    requires forall i :: 0 <= i < |names| ==> names[i] in net
  {
    if names == [] then 0 else SumHigh(net, names[..|names| - 1]) + net[names[|names| - 1]].highCount
  }

  /** The sums over one more listed module. */
  lemma SumsSnoc(net: Net, names: seq<string>, i: nat, i2: nat)
    requires i < |names| && i2 == i + 1 && forall j :: 0 <= j < |names| ==> names[j] in net
    ensures SumLow(net, names[..i2]) == SumLow(net, names[..i]) + net[names[i]].lowCount
    ensures SumHigh(net, names[..i2]) == SumHigh(net, names[..i]) + net[names[i]].highCount
  {
    assert names[..i2][..i] == names[..i];
  }

  /** `names` lists each module of `t` exactly once (the order of the source's dictionary). */
  ghost predicate Indexed(t: Topology, names: seq<string>)
  {
    (forall i, j :: 0 <= i < j < |names| ==> names[i] != names[j])
    && (forall k :: k in t <==> k in names)
  }

  /** Changing one listed module's state changes the sums by its change alone. */
  lemma {:induction false} SumsUpdate(net: Net, names: seq<string>, k: string, s: NodeState)
    requires forall i :: 0 <= i < |names| ==> names[i] in net
    requires k in net && forall i, j :: 0 <= i < j < |names| ==> names[i] != names[j]
    ensures SumLow(net[k := s], names) + net[k].lowCount
      == SumLow(net, names) + (if k in names then s.lowCount else net[k].lowCount)
    ensures SumHigh(net[k := s], names) + net[k].highCount
      == SumHigh(net, names) + (if k in names then s.highCount else net[k].highCount)
  {
    if names != [] {
      var init := names[..|names| - 1];
      SumsUpdate(net, init, k, s);
      assert k in names <==> k in init || k == names[|names| - 1];
      assert k == names[|names| - 1] ==> k !in init;
    }
  }

  /**
   * `countPulses` counts each delivered pulse exactly once: after a run the counters of all
   * modules together have grown by the number of pulses delivered.
   */
  lemma {:induction false} RunCounts(t: Topology, net: Net, stack: seq<Pulse>, fuel: nat, names: seq<string>)
    requires Fits(t, net) && Bound(t, stack) && Indexed(t, names)
    requires Run(t, net, stack, fuel).Some?
    ensures var (n, c) := Run(t, net, stack, fuel).value;
      SumLow(n, names) + SumHigh(n, names) == SumLow(net, names) + SumHigh(net, names) + c
    decreases fuel
  {
    if stack != [] {
      var p := stack[|stack| - 1];
      var (net2, out) := Deliver(t, net, p);
      ReactCounts(t[p.dst], net[p.dst], p.level, p.src);
      SumsUpdate(net, names, p.dst, net2[p.dst]);
      RunCounts(t, net2, stack[..|stack| - 1] + out, fuel - 1, names);
    }
  }

  /** A press that completes delivers at least the button's own pulse, and the broadcaster counts it as low. */
  lemma PressDelivers(t: Topology, net: Net, fuel: nat)
    requires Fits(t, net) && "broadcaster" in t
    requires Press(t, net, fuel).Some?
    ensures Press(t, net, fuel).value.1 >= 1
  {
  }

  // ---------------------------------------------------------------- wiring (`connectNodes`)

  /**
   * Filing the modules in turn: a later module of the same name replaces the earlier one, which
   * keeps its place in the order (a dictionary keeps a key's first position).
   */
  function FileAll(bs: seq<Blueprint>): (Topology, seq<string>)
  {
    if bs == [] then (map[], [])
    else
      var (t, names) := FileAll(bs[..|bs| - 1]);
      var b := bs[|bs| - 1];
      (t[b.name := b], if b.name in t then names else names + [b.name])
  }

  /** `readNodes`: every line read as a module (the first failing line's error), the modules filed in turn. */
  function ReadNodes(lines: seq<string>): Result<(Topology, seq<string>)>
  {
    match MapAll(lines, ReadNode)
    case Err(err) => Err(err)
    case Ok(bs) => Ok(FileAll(bs))
  }

  /** Each module filed under its own name. */
  predicate Named(t: Topology)
  {
    forall k :: k in t ==> t[k].name == k
  }

  /** Filing one more module keeps every module under its name and listed once. */
  lemma FileNode(t: Topology, names: seq<string>, b: Blueprint)
    requires Named(t) && Indexed(t, names)
    ensures Named(t[b.name := b])
    ensures Indexed(t[b.name := b], if b.name in t then names else names + [b.name])
  {
    var names2 := if b.name in t then names else names + [b.name];
    assert forall k :: k in t[b.name := b] <==> k in names2;
  }

  /** Filing keeps every module under its name and listed once. */
  lemma {:induction false} FileAllIndexed(bs: seq<Blueprint>)
    ensures Named(FileAll(bs).0) && Indexed(FileAll(bs).0, FileAll(bs).1)
  {
    if bs != [] {
      var init := bs[..|bs| - 1];
      FileAllIndexed(init);
      FileNode(FileAll(init).0, FileAll(init).1, bs[|bs| - 1]);
    }
  }

  /** Filing files every module given: a later one may replace it, but its name stays. */
  lemma {:induction false} FileAllCovers(bs: seq<Blueprint>)
    ensures forall i :: 0 <= i < |bs| ==> bs[i].name in FileAll(bs).0
  {
    if bs != [] {
      var init := bs[..|bs| - 1];
      FileAllCovers(init);
      assert forall i :: 0 <= i < |init| ==> bs[i] == init[i];
    }
  }

  /**
   * `readNodes` fails exactly when one of the lines does; otherwise every module it keeps is
   * filed under its name and listed once, and every line's module is among them.
   */
  lemma ReadNodesSpec(lines: seq<string>)
    ensures ReadNodes(lines).Err? <==> exists i :: 0 <= i < |lines| && ReadNode(lines[i]).Err?
    ensures ReadNodes(lines).Ok? ==>
      var (t, names) := ReadNodes(lines).value;
      Named(t) && Indexed(t, names)
      && forall i :: 0 <= i < |lines| ==> ReadNode(lines[i]).Ok? && ReadNode(lines[i]).value.name in t
  {
    var r := MapAll(lines, ReadNode);
    if r.Ok? {
      FileAllIndexed(r.value);
      FileAllCovers(r.value);
    }
  }

  /** The children of the listed modules, in order: what the second loop of `connectNodes` visits. */
  function ChildList(t: Topology, names: seq<string>): seq<string>
    requires forall i :: 0 <= i < |names| ==> names[i] in t
  {
    if names == [] then [] else ChildList(t, names[..|names| - 1]) + t[names[|names| - 1]].children
  }

  /** Every child of a listed module is in the child list. */
  lemma {:induction false} ChildListHas(t: Topology, names: seq<string>, i: nat, j: nat)
    requires forall i :: 0 <= i < |names| ==> names[i] in t
    requires i < |names| && j < |t[names[i]].children|
    ensures t[names[i]].children[j] in ChildList(t, names)
  {
    var last := |names| - 1;
    if i < last {
      ChildListHas(t, names[..last], i, j);
    } else {
      assert ChildList(t, names) == ChildList(t, names[..last]) + t[names[last]].children;
    }
  }

  /** Add a plain module with no children for each listed name that is not yet a module. */
  function AddPlain(t: Topology, names: seq<string>, cs: seq<string>): (Topology, seq<string>)
  {
    if cs == [] then (t, names)
    else
      var (t1, names1) := AddPlain(t, names, cs[..|cs| - 1]);
      var c := cs[|cs| - 1];
      if c in t1 then (t1, names1) else (t1[c := Blueprint(Plain, c, [])], names1 + [c])
  }

  /** Adding plain modules keeps every module under its name and listed once, after the modules there were. */
  lemma {:induction false} AddPlainIndexed(t: Topology, names: seq<string>, cs: seq<string>)
    requires Named(t) && Indexed(t, names)
    ensures Named(AddPlain(t, names, cs).0) && Indexed(AddPlain(t, names, cs).0, AddPlain(t, names, cs).1)
    ensures names <= AddPlain(t, names, cs).1
  {
    if cs != [] {
      var init := cs[..|cs| - 1];
      AddPlainIndexed(t, names, init);
      var (t1, names1) := AddPlain(t, names, init);
      var c := cs[|cs| - 1];
      if c !in t1 {
        FileNode(t1, names1, Blueprint(Plain, c, []));
      }
    }
  }

  /**
   * Adding plain modules keeps the modules there were, adds only plain modules with no children,
   * and leaves every listed name a module.
   */
  lemma {:induction false} AddPlainAdds(t: Topology, names: seq<string>, cs: seq<string>)
    ensures var t2 := AddPlain(t, names, cs).0;
      (forall k :: k in t ==> k in t2 && t2[k] == t[k])
      && (forall k :: k in t2 && k !in t ==> t2[k] == Blueprint(Plain, k, []))
      && (forall i :: 0 <= i < |cs| ==> cs[i] in t2)
  {
    if cs != [] {
      var init := cs[..|cs| - 1];
      AddPlainAdds(t, names, init);
      assert forall i :: 0 <= i < |init| ==> cs[i] == init[i];
    }
  }

  /**
   * The modules after the first two loops of `connectNodes`: those the lines describe, then a
   * plain module for every child that names no module, in the order they are first met.
   */
  function TopologyOf(lines: seq<string>): Result<(Topology, seq<string>)>
  {
    match ReadNodes(lines)
    case Err(err) => Err(err)
    case Ok((t, names)) =>
      FileAllIndexed(MapAll(lines, ReadNode).value);
      Ok(AddPlain(t, names, ChildList(t, names)))
  }

  /**
   * The network `connectNodes` builds is closed: every child is a module; the modules the lines
   * describe are kept, and every other module is plain with no children.
   */
  lemma TopologyOfClosed(lines: seq<string>)
    requires TopologyOf(lines).Ok?
    ensures var (t, names) := TopologyOf(lines).value;
      Closed(t) && Indexed(t, names)
      && forall k :: k in t ==>
           (k in ReadNodes(lines).value.0 && t[k] == ReadNodes(lines).value.0[k])
           || t[k] == Blueprint(Plain, k, [])
  {
    FileAllIndexed(MapAll(lines, ReadNode).value);
    var (t0, names0) := ReadNodes(lines).value;
    var cs := ChildList(t0, names0);
    AddPlainIndexed(t0, names0, cs);
    AddPlainAdds(t0, names0, cs);
    var (t, names) := AddPlain(t0, names0, cs);
    forall k, j | k in t && 0 <= j < |t[k].children| ensures t[k].children[j] in t {
      assert k in t0;
      var i :| 0 <= i < |names0| && names0[i] == k;
      ChildListHas(t0, names0, i, j);
    }
  }

  /** `[p for c in cs if c == v]`: `p` once for each time `cs` lists `v`. */
  function Occurrences(p: string, cs: seq<string>, v: string): (r: seq<string>)
    ensures forall i :: 0 <= i < |r| ==> r[i] == p
    ensures |r| > 0 <==> v in cs
  {
    if cs == [] then []
    else Occurrences(p, cs[..|cs| - 1], v) + (if cs[|cs| - 1] == v then [p] else [])
  }

  /**
   * The parents the third loop of `connectNodes` gives module `v`: each listed module, in order,
   * once for each time it names `v` as a child.
   */
  function ParentsOf(t: Topology, names: seq<string>, v: string): seq<string>
    requires forall i :: 0 <= i < |names| ==> names[i] in t
  {
    if names == [] then []
    else
      var last := names[|names| - 1];
      ParentsOf(t, names[..|names| - 1], v) + Occurrences(last, t[last].children, v)
  }

  /** A module is a parent of `v` exactly when it is listed and names `v` as a child. */
  lemma {:induction false} ParentsOfSpec(t: Topology, names: seq<string>, v: string)
    requires forall i :: 0 <= i < |names| ==> names[i] in t
    ensures forall p :: p in ParentsOf(t, names, v) <==> p in names && v in t[p].children
  {
    if names != [] {
      var init, last := names[..|names| - 1], names[|names| - 1];
      ParentsOfSpec(t, init, v);
      var occ := Occurrences(last, t[last].children, v);
      forall p ensures p in ParentsOf(t, names, v) <==> p in names && v in t[p].children {
        assert p in names <==> p in init || p == last;
        assert p in occ <==> p == last && v in t[last].children by {
          if p in occ {
            var i :| 0 <= i < |occ| && occ[i] == p;
          }
          if p == last && v in t[last].children {
            assert occ[0] == p;
          }
        }
      }
    }
  }

  /** `updateConfig` of a conjunction: each parent in turn is remembered as low. */
  function Configured(inputs: map<string, bool>, parents: seq<string>): map<string, bool>
  {
    if parents == [] then inputs
    else Configured(inputs, parents[..|parents| - 1])[parents[|parents| - 1] := false]
  }

  /** A configured conjunction remembers every parent as low, and its other inputs as they were. */
  lemma {:induction false} ConfiguredSpec(inputs: map<string, bool>, parents: seq<string>)
    ensures var r := Configured(inputs, parents);
      (forall k :: k in r <==> k in inputs || k in parents)
      && (forall k :: k in parents ==> !r[k])
      && (forall k :: k in inputs && k !in parents ==> r[k] == inputs[k])
  {
    if parents != [] {
      var init := parents[..|parents| - 1];
      ConfiguredSpec(inputs, init);
      assert forall k :: k in parents <==> k in init || k == parents[|parents| - 1];
    }
  }

  /** The state `connectNodes` leaves module `k` in: nothing counted, off, a conjunction's parents remembered low. */
  function InitialState(t: Topology, names: seq<string>, k: string): NodeState
    requires k in t && forall i :: 0 <= i < |names| ==> names[i] in t
  {
    if t[k].kind == Conjunction then Blank.(inputs := Configured(map[], ParentsOf(t, names, k))) else Blank
  }

  /** A freshly connected conjunction remembers exactly its parents, each as low; no other module remembers anything. */
  lemma InitialInputs(t: Topology, names: seq<string>, k: string)
    requires k in t && forall i :: 0 <= i < |names| ==> names[i] in t
    ensures var s := InitialState(t, names, k);
      s.lowCount == 0 && s.highCount == 0 && !s.on
      && (t[k].kind == Conjunction ==>
            forall p :: p in s.inputs <==> p in names && k in t[p].children)
      && (t[k].kind != Conjunction ==> s.inputs == map[])
      && forall p :: p in s.inputs ==> !s.inputs[p]
  {
    ConfiguredSpec(map[], ParentsOf(t, names, k));
    ParentsOfSpec(t, names, k);
  }

  // ---------------------------------------------------------------- the modules as objects

  /**
   * A module (`Node` and its subclasses, told apart by the blueprint's kind): the names of its
   * children and parents as wired, its two counters, a flip-flop's state and a conjunction's
   * inputs.
   */
  class Node {
    const blueprint: Blueprint
    var children: seq<string>
    var parents: seq<string>
    var lowPulseCount: nat
    var highPulseCount: nat
    var state: bool
    var inputs: map<string, bool>

    /** A module as `readNode` builds it: not wired, nothing counted, off, no inputs. */
    constructor (blueprint: Blueprint)
      ensures this.blueprint == blueprint && Unwired()
    {
      this.blueprint := blueprint;
      children := [];
      parents := [];
      lowPulseCount := 0;
      highPulseCount := 0;
      state := false;
      inputs := map[];
    }

    /** The mutable part of the module, as a value. */
    function Snapshot(): NodeState
      reads this
    {
      NodeState(lowPulseCount, highPulseCount, state, inputs)
    }

    /** No child or parent yet, and the state of a module before any pulse. */
    predicate Unwired()
      reads this
    {
      children == [] && parents == [] && Snapshot() == Blank
    }

    /** The blueprint with the children as wired. */
    function Wired(): Blueprint
      reads this
    {
      blueprint.(children := children)
    }

    /** One pulse of `level` to each child, in order: the loop every `receive` ends with. */
    method SendAll(level: bool) returns (res: seq<Pulse>)
      ensures res == Sends(blueprint.name, children, level)
    {
      res := [];
      for i := 0 to |children|
        invariant res == Sends(blueprint.name, children[..i], level)
      {
        res := res + [Pulse(blueprint.name, children[i], level)];
      }
    }

    /** `receive`: count the pulse, update the state as the module's class does, and return the pulses to send. */
    method Receive(pulse: bool, origin: string) returns (res: seq<Pulse>)
      modifies this
      ensures children == old(children) && parents == old(parents)
      ensures (Snapshot(), res) == React(Wired(), old(Snapshot()), pulse, origin)
    {
      if pulse {
        highPulseCount := highPulseCount + 1;
      } else {
        lowPulseCount := lowPulseCount + 1;
      }
      res := [];
      match blueprint.kind {
        case Plain =>
        case FlipFlop =>
          if !pulse {
            state := !state;
            res := SendAll(state);
          }
        case Conjunction =>
          inputs := inputs[origin := pulse];
          res := SendAll(!AllHigh(inputs));
        case Broadcaster =>
          res := SendAll(pulse);
      }
    }

    /** `updateConfig`: a conjunction remembers each parent as low; other modules do nothing. */
    method UpdateConfig()
      modifies this
      ensures children == old(children) && parents == old(parents)
      ensures blueprint.kind == Conjunction ==> Snapshot() == old(Snapshot()).(inputs := Configured(old(inputs), parents))
      ensures blueprint.kind != Conjunction ==> Snapshot() == old(Snapshot())
    {
      if blueprint.kind == Conjunction {
        for i := 0 to |parents|
          invariant children == old(children) && parents == old(parents)
          invariant Snapshot() == old(Snapshot()).(inputs := Configured(old(inputs), parents[..i]))
        {
          assert parents[..i + 1][..i] == parents[..i];
          inputs := inputs[parents[i] := false];
        }
        assert parents[..|parents|] == parents;
      }
    }
  }

  /** The blueprints of a map of modules. */
  function Blueprints(nodes: map<string, Node>): (t: Topology)
    ensures t.Keys == nodes.Keys
  {
    map k | k in nodes :: nodes[k].blueprint
  }

  /** The states of a map of modules. */
  function NetOf(nodes: map<string, Node>): (net: Net)
    reads nodes.Values
    ensures net.Keys == nodes.Keys
  {
    map k | k in nodes :: nodes[k].Snapshot()
  }

  /** Modules filed under their own names are distinct objects. */
  lemma NamedDistinct(nodes: map<string, Node>, a: string, b: string)
    requires Named(Blueprints(nodes)) && a in nodes && b in nodes && a != b
    ensures nodes[a] != nodes[b]
  {
    assert Blueprints(nodes)[a].name == a && Blueprints(nodes)[b].name == b;
  }

  /** `CommandCenter`: the modules, in the order `connectNodes` files them, and the button. */
  class CommandCenter {
    const nodes: map<string, Node>
    const names: seq<string>

    constructor (nodes: map<string, Node>, names: seq<string>)
      ensures this.nodes == nodes && this.names == names
    {
      this.nodes := nodes;
      this.names := names;
    }

    /** The network of modules. */
    function Topology(): Topology
    {
      Blueprints(nodes)
    }

    /** The state of every module. */
    function Net(): Net
      reads nodes.Values
    {
      NetOf(nodes)
    }

    /** A closed network, listed once each, with every module's children wired as its blueprint says. */
    ghost predicate Valid()
      reads nodes.Values
    {
      Closed(Topology()) && Indexed(Topology(), names)
      && forall k :: k in nodes ==> nodes[k].children == nodes[k].blueprint.children
    }

    /** `stack.extend(dst.receive(pulse, src))`: the receiver reacts, and no other module changes. */
    method DeliverPulse(p: Pulse) returns (out: seq<Pulse>)
      requires Valid() && p.dst in nodes
      modifies nodes[p.dst]
      ensures Valid()
      ensures (Net(), out) == Deliver(Topology(), old(Net()), p)
    {
      ghost var before := Net();
      var node := nodes[p.dst];
      assert node.Wired() == Topology()[p.dst];
      out := node.Receive(p.level, p.src);
      assert Net() == before[p.dst := node.Snapshot()] by {
        forall k | k in nodes && k != p.dst ensures nodes[k].Snapshot() == before[k] {
          NamedDistinct(nodes, k, p.dst);
        }
      }
    }

    /**
     * `pressButton`: look up the broadcaster (KeyError when there is none, AssertionError when it
     * is not a broadcaster), then deliver pulses from the stack until it is empty. The result is
     * true when the press completes within `fuel` deliveries, with the net `Press` gives.
     */
    method PressButton(fuel: nat) returns (r: Result<bool>)
      requires Valid()
      modifies nodes.Values
      ensures Valid()
      ensures "broadcaster" !in nodes ==> r == Err("KeyError")
      ensures "broadcaster" in nodes && nodes["broadcaster"].blueprint.kind != Broadcaster ==> r == Err("AssertionError")
      ensures r.Err? ==> Net() == old(Net())
      ensures r.Ok? <==> "broadcaster" in nodes && nodes["broadcaster"].blueprint.kind == Broadcaster
      ensures r.Ok? ==> "broadcaster" in nodes && (r.value <==> Press(Topology(), old(Net()), fuel).Some?)
      ensures r == Ok(true) ==> Net() == Press(Topology(), old(Net()), fuel).value.0
    {
      if "broadcaster" !in nodes {
        return Err("KeyError");
      }
      if nodes["broadcaster"].blueprint.kind != Broadcaster {
        return Err("AssertionError");
      }
      ghost var t := Topology();
      ghost var net := Net();
      ghost var result := Press(t, net, fuel);
      PressStarts(t, net, fuel);
      var stack := [ButtonPulse];
      var remaining := fuel;
      ghost var delivered: nat := 0;
      while stack != []
        invariant Valid() && net == Net() && Fits(t, net) && Bound(t, stack)
        invariant Shift(Run(t, net, stack, remaining), delivered) == result
        decreases remaining
      {
        if remaining == 0 {
          return Ok(false);
        }
        var p := stack[|stack| - 1];
        var out := DeliverPulse(p);
        ghost var (net0, stack0, remaining0, delivered0) := (net, stack, remaining, delivered);
        net := Net();
        stack := stack[..|stack| - 1] + out;
        remaining := remaining - 1;
        delivered := delivered + 1;
        RunAdvance(t, net0, stack0, remaining0, delivered0, result, net, out, remaining, delivered);
      }
      ShiftZero(Run(t, net, [], remaining));
      return Ok(true);
    }

    /**
     * `pressButtonMulti`: `times` presses in a row. The result is true when every press completes
     * within `fuel` deliveries, with the net `PressMany` gives; the lookup errors of the first
     * press are returned as they are.
     */
    method PressButtonMulti(times: nat, fuel: nat) returns (r: Result<bool>)
      requires Valid()
      modifies nodes.Values
      ensures Valid()
      ensures times > 0 && "broadcaster" !in nodes ==> r == Err("KeyError")
      ensures times > 0 && "broadcaster" in nodes && nodes["broadcaster"].blueprint.kind != Broadcaster ==> r == Err("AssertionError")
      ensures r.Err? ==> Net() == old(Net())
      ensures r.Ok? ==> (times > 0 ==> "broadcaster" in nodes) && (r.value <==> PressMany(Topology(), old(Net()), times, fuel).Some?)
      ensures r == Ok(true) ==> Net() == PressMany(Topology(), old(Net()), times, fuel).value
    {
      ghost var t := Topology();
      ghost var net0 := Net();
      var i := 0;
      while i < times
        invariant i <= times && Valid()
        invariant i > 0 ==> "broadcaster" in nodes && nodes["broadcaster"].blueprint.kind == Broadcaster
        invariant PressMany(t, net0, i, fuel) == Some(Net())
      {
        ghost var n := Net();
        var pressed := PressButton(fuel);
        if pressed.Err? {
          return pressed;
        }
        ghost var i0 := i;
        i := i + 1;
        PressManyStep(t, net0, i0, i, fuel, n);
        if !pressed.value {
          PressManyStuck(t, net0, i, times, fuel);
          return Ok(false);
        }
      }
      return Ok(true);
    }

    /** `countPulses`: the low pulses counted by all modules, times the high pulses. */
    method CountPulses() returns (r: nat)
      requires forall i :: 0 <= i < |names| ==> names[i] in nodes
      ensures r == SumLow(Net(), names) * SumHigh(Net(), names)
    {
      ghost var net := Net();
      var low: nat, high: nat := 0, 0;
      var i := 0;
      while i < |names|
        invariant i <= |names|
        invariant low == SumLow(net, names[..i]) && high == SumHigh(net, names[..i])
      {
        var node := nodes[names[i]];
        assert net[names[i]] == node.Snapshot();
        low := low + node.lowPulseCount;
        high := high + node.highPulseCount;
        ghost var i0 := i;
        i := i + 1;
        SumsSnoc(net, names, i0, i);
      }
      assert names[..i] == names;
      return low * high;
    }
  }

  // ---------------------------------------------------------------- `connectNodes` on objects

  /** Filing one more module object files its blueprint. */
  lemma BlueprintsUpdate(nodes: map<string, Node>, k: string, node: Node)
    ensures Blueprints(nodes[k := node]) == Blueprints(nodes)[k := node.blueprint]
  {
  }

  /** One more module read, as `FileAll` files it. */
  lemma FileAllSnoc(bs: seq<Blueprint>, b: Blueprint)
    ensures FileAll(bs + [b]).0 == FileAll(bs).0[b.name := b]
    ensures FileAll(bs + [b]).1 == if b.name in FileAll(bs).0 then FileAll(bs).1 else FileAll(bs).1 + [b.name]
  {
    assert (bs + [b])[..|bs|] == bs;
  }

  /** `readNodes`: a module object for each line, filed under its name; the first failing line's error. */
  method ReadNodesInto(lines: seq<string>) returns (r: Result<(map<string, Node>, seq<string>)>)
    ensures r.Err? <==> ReadNodes(lines).Err?
    ensures r.Err? ==> r.error == ReadNodes(lines).error
    ensures r.Ok? ==> Blueprints(r.value.0) == ReadNodes(lines).value.0 && r.value.1 == ReadNodes(lines).value.1
    ensures r.Ok? ==> forall k :: k in r.value.0 ==> fresh(r.value.0[k]) && r.value.0[k].Unwired()
  {
    var nodes: map<string, Node> := map[];
    var names: seq<string> := [];
    ghost var bs: seq<Blueprint> := [];
    for i := 0 to |lines|
      invariant MapAll(lines[..i], ReadNode) == Ok(bs)
      invariant Blueprints(nodes) == FileAll(bs).0 && names == FileAll(bs).1
      invariant forall k :: k in nodes ==> fresh(nodes[k]) && nodes[k].Unwired()
    {
      MapAllStep(lines, i, ReadNode, bs);
      var read := ReadNode(lines[i]);
      if read.Err? {
        return Err(read.error);
      }
      var b := read.value;
      var node := new Node(b);
      FileAllSnoc(bs, b);
      BlueprintsUpdate(nodes, b.name, node);
      bs := bs + [b];
      if b.name !in nodes {
        names := names + [b.name];
      }
      nodes := nodes[b.name := node];
    }
    MapAllDone(lines, ReadNode, bs);
    return Ok((nodes, names));
  }

  /** One more child looked at, as `AddPlain` adds it. */
  lemma AddPlainSnoc(t: Topology, names: seq<string>, cs: seq<string>, c: string)
    ensures AddPlain(t, names, cs + [c]) ==
      var (t1, names1) := AddPlain(t, names, cs);
      if c in t1 then (t1, names1) else (t1[c := Blueprint(Plain, c, [])], names1 + [c])
  {
    assert (cs + [c])[..|cs|] == cs;
  }

  /** The child list of one more module. */
  lemma ChildListSnoc(t: Topology, names: seq<string>, i: nat)
    requires i < |names| && forall j :: 0 <= j < |names| ==> names[j] in t
    ensures ChildList(t, names[..i + 1]) == ChildList(t, names[..i]) + t[names[i]].children
  {
    assert names[..i + 1][..i] == names[..i];
  }

  /** Adding plain modules for `a + b` is adding them for `a`, then for `b`. */
  lemma {:induction false} AddPlainAppend(t: Topology, names: seq<string>, a: seq<string>, b: seq<string>)
    ensures AddPlain(t, names, a + b) == AddPlain(AddPlain(t, names, a).0, AddPlain(t, names, a).1, b)
    decreases |b|
  {
    if b == [] {
      assert a + b == a;
    } else {
      var init, c := b[..|b| - 1], b[|b| - 1];
      AddPlainAppend(t, names, a, init);
      assert a + b == (a + init) + [c];
      AddPlainSnoc(t, names, a + init, c);
      AddPlainSnoc(AddPlain(t, names, a).0, AddPlain(t, names, a).1, init, c);
      assert init + [c] == b;
    }
  }

  /** The inner loop of the second loop of `connectNodes`: a plain module object for each child name no module has yet. */
  method AddPlainNodes(nodes0: map<string, Node>, names0: seq<string>, children: seq<string>)
    returns (nodes: map<string, Node>, names: seq<string>)
    requires forall k :: k in nodes0 ==> nodes0[k].Unwired()
    ensures (Blueprints(nodes), names) == AddPlain(Blueprints(nodes0), names0, children)
    ensures forall k :: k in nodes0 ==> k in nodes && nodes[k] == nodes0[k]
    ensures forall k :: k in nodes ==> nodes[k].Unwired()
    ensures forall k :: k in nodes && k !in nodes0 ==> fresh(nodes[k])
  {
    nodes, names := nodes0, names0;
    for j := 0 to |children|
      invariant (Blueprints(nodes), names) == AddPlain(Blueprints(nodes0), names0, children[..j])
      invariant forall k :: k in nodes0 ==> k in nodes && nodes[k] == nodes0[k]
      invariant forall k :: k in nodes ==> nodes[k].Unwired()
      invariant forall k :: k in nodes && k !in nodes0 ==> fresh(nodes[k])
    {
      var c := children[j];
      assert children[..j + 1] == children[..j] + [c];
      AddPlainSnoc(Blueprints(nodes0), names0, children[..j], c);
      if c !in nodes {
        var child := new Node(Blueprint(Plain, c, []));
        BlueprintsUpdate(nodes, c, child);
        nodes := nodes[c := child];
        names := names + [c];
      }
    }
    assert children[..|children|] == children;
  }

  /** The modules added after one more module's children, from those added before. */
  lemma AddPlainNext(t0: Topology, names0: seq<string>, i: nat, i2: nat,
                     t1: Topology, n1: seq<string>, t2: Topology, n2: seq<string>)
    requires i < |names0| && i2 == i + 1 && forall j :: 0 <= j < |names0| ==> names0[j] in t0
    requires (t1, n1) == AddPlain(t0, names0, ChildList(t0, names0[..i]))
    requires (t2, n2) == AddPlain(t1, n1, t0[names0[i]].children)
    ensures (t2, n2) == AddPlain(t0, names0, ChildList(t0, names0[..i2]))
  {
    ChildListSnoc(t0, names0, i);
    AddPlainAppend(t0, names0, ChildList(t0, names0[..i]), t0[names0[i]].children);
  }

  /**
   * The second loop of `connectNodes`: a plain module object with no children for every child
   * name no module has yet, visiting the modules read and their children in order.
   */
  method AddMissingNodes(nodes0: map<string, Node>, names0: seq<string>) returns (nodes: map<string, Node>, names: seq<string>)
    requires Indexed(Blueprints(nodes0), names0)
    requires forall k :: k in nodes0 ==> nodes0[k].Unwired()
    ensures (Blueprints(nodes), names) == AddPlain(Blueprints(nodes0), names0, ChildList(Blueprints(nodes0), names0))
    ensures forall k :: k in nodes0 ==> k in nodes && nodes[k] == nodes0[k]
    ensures forall k :: k in nodes ==> nodes[k].Unwired()
    ensures forall k :: k in nodes && k !in nodes0 ==> fresh(nodes[k])
  {
    ghost var t0 := Blueprints(nodes0);
    nodes, names := nodes0, names0;
    var i := 0;
    while i < |names0|
      invariant i <= |names0|
      invariant (Blueprints(nodes), names) == AddPlain(t0, names0, ChildList(t0, names0[..i]))
      invariant forall k :: k in nodes0 ==> k in nodes && nodes[k] == nodes0[k]
      invariant forall k :: k in nodes ==> nodes[k].Unwired()
      invariant forall k :: k in nodes && k !in nodes0 ==> fresh(nodes[k])
    {
      var children := nodes0[names0[i]].blueprint.children;
      ghost var (t1, n1) := (Blueprints(nodes), names);
      nodes, names := AddPlainNodes(nodes, names, children);
      ghost var i0 := i;
      i := i + 1;
      AddPlainNext(t0, names0, i0, i, t1, n1, Blueprints(nodes), names);
    }
    assert names0[..|names0|] == names0;
  }

  /** The children and parents of each module, as names. */
  type Links = map<string, (seq<string>, seq<string>)>

  /** `node.children.append(child)` and `child.parents.append(node)`, on the links. */
  function AddLink(m: Links, n: string, c: string): (r: Links)
    requires n in m && c in m
    ensures r.Keys == m.Keys
  {
    var m1 := m[n := (m[n].0 + [c], m[n].1)];
    m1[c := (m1[c].0, m1[c].1 + [n])]
  }

  /** The inner loop of the third loop of `connectNodes`: module `n` linked to each child in turn. */
  function LinkAll(m: Links, n: string, cs: seq<string>): (r: Links)
    requires n in m && forall j :: 0 <= j < |cs| ==> cs[j] in m
    ensures r.Keys == m.Keys
  {
    if cs == [] then m else AddLink(LinkAll(m, n, cs[..|cs| - 1]), n, cs[|cs| - 1])
  }

  /** The third loop of `connectNodes`: every listed module linked to its children, in order. */
  function Wire(m: Links, t: Topology, names: seq<string>): (r: Links)
    requires Closed(t) && m.Keys == t.Keys && forall i :: 0 <= i < |names| ==> names[i] in t
    ensures r.Keys == m.Keys
  {
    if names == [] then m
    else
      var last := names[|names| - 1];
      LinkAll(Wire(m, t, names[..|names| - 1]), last, t[last].children)
  }

  /** One link adds the child to `n`'s children and `n` to the child's parents. */
  lemma AddLinkSpec(m: Links, n: string, c: string, k: string)
    requires n in m && c in m && k in m
    ensures AddLink(m, n, c)[k] == (m[k].0 + (if k == n then [c] else []), m[k].1 + (if k == c then [n] else []))
  {
    assert m[k].0 + [] == m[k].0 && m[k].1 + [] == m[k].1;
  }

  /** Linking `n` to the children `cs` gives `n` those children, and each child `n` once per mention. */
  lemma {:induction false} LinkAllSpec(m: Links, n: string, cs: seq<string>, k: string)
    requires n in m && k in m && forall j :: 0 <= j < |cs| ==> cs[j] in m
    ensures LinkAll(m, n, cs)[k] == (m[k].0 + (if k == n then cs else []), m[k].1 + Occurrences(n, cs, k))
  {
    if cs != [] {
      var init, c := cs[..|cs| - 1], cs[|cs| - 1];
      LinkAllSpec(m, n, init, k);
      AddLinkSpec(LinkAll(m, n, init), n, c, k);
      assert init + [c] == cs;
      var occ := Occurrences(n, init, k);
      assert Occurrences(n, cs, k) == occ + (if c == k then [n] else []);
      if k == n {
        assert m[k].0 + init + [c] == m[k].0 + cs;
      } else {
        assert m[k].0 + [] == m[k].0;
      }
      if k == c {
        assert m[k].1 + occ + [n] == m[k].1 + (occ + [n]);
      } else {
        assert occ + [] == occ;
      }
    } else {
      assert m[k].0 + [] == m[k].0 && m[k].1 + [] == m[k].1;
    }
  }

  /** No module has a child or a parent yet. */
  predicate NoLinks(m: Links)
  {
    forall k :: k in m ==> m[k] == ([], [])
  }

  /**
   * Wiring unlinked modules gives each listed module its blueprint's children, and each module
   * the parents `ParentsOf` names.
   */
  lemma {:induction false} WireSpec(m: Links, t: Topology, names: seq<string>, k: string)
    requires Closed(t) && m.Keys == t.Keys && NoLinks(m) && k in m
    requires forall i, j :: 0 <= i < j < |names| ==> names[i] != names[j]
    requires forall i :: 0 <= i < |names| ==> names[i] in t
    ensures Wire(m, t, names)[k] == (if k in names then t[k].children else [], ParentsOf(t, names, k))
  {
    if names != [] {
      var init, last := names[..|names| - 1], names[|names| - 1];
      WireSpec(m, t, init, k);
      LinkAllSpec(Wire(m, t, init), last, t[last].children, k);
      assert Wire(m, t, names) == LinkAll(Wire(m, t, init), last, t[last].children);
      assert ParentsOf(t, names, k) == ParentsOf(t, init, k) + Occurrences(last, t[last].children, k);
      var w := Wire(m, t, init)[k];
      assert w.1 + Occurrences(last, t[last].children, k) == ParentsOf(t, names, k);
      if k == last {
        assert k !in init && k in names;
        assert w.0 + t[last].children == t[k].children;
      } else if k in init {
        assert k in names;
        assert w.0 + [] == t[k].children;
      } else {
        assert k !in names;
        assert w.0 + [] == [];
      }
    }
  }

  /** The links of a map of modules. */
  function LinksOf(nodes: map<string, Node>): (m: Links)
    reads nodes.Values
    ensures m.Keys == nodes.Keys
  {
    map k | k in nodes :: (nodes[k].children, nodes[k].parents)
  }

  /** Distinct names, distinct objects. */
  ghost predicate Injective(nodes: map<string, Node>)
  {
    forall a, b :: a in nodes && b in nodes && a != b ==> nodes[a] != nodes[b]
  }

  /** Modules filed under their own names are distinct objects. */
  lemma NamedInjective(nodes: map<string, Node>)
    requires Named(Blueprints(nodes))
    ensures Injective(nodes)
  {
    forall a, b | a in nodes && b in nodes && a != b ensures nodes[a] != nodes[b] {
      NamedDistinct(nodes, a, b);
    }
  }

  /** The body of the inner loop of the third loop of `connectNodes`. */
  method LinkPair(nodes: map<string, Node>, n: string, c: string)
    requires n in nodes && c in nodes && Injective(nodes)
    modifies nodes[n], nodes[c]
    ensures LinksOf(nodes) == AddLink(old(LinksOf(nodes)), n, c)
    ensures NetOf(nodes) == old(NetOf(nodes))
  {
    var node, child := nodes[n], nodes[c];
    node.children := node.children + [c];
    child.parents := child.parents + [n];
  }

  /** The inner loop of the third loop of `connectNodes`: module `n` linked to each child of its blueprint. */
  method LinkChildren(nodes: map<string, Node>, n: string)
    requires n in nodes && Injective(nodes)
    requires forall j :: 0 <= j < |nodes[n].blueprint.children| ==> nodes[n].blueprint.children[j] in nodes
    modifies nodes.Values
    ensures LinksOf(nodes) == LinkAll(old(LinksOf(nodes)), n, nodes[n].blueprint.children)
    ensures NetOf(nodes) == old(NetOf(nodes))
  {
    var children := nodes[n].blueprint.children;
    for j := 0 to |children|
      invariant LinksOf(nodes) == LinkAll(old(LinksOf(nodes)), n, children[..j])
      invariant NetOf(nodes) == old(NetOf(nodes))
    {
      assert children[..j + 1][..j] == children[..j];
      LinkPair(nodes, n, children[j]);
    }
    assert children[..|children|] == children;
  }

  /** The third loop of `connectNodes`: every module linked to the children its blueprint names. */
  method LinkNodes(nodes: map<string, Node>, names: seq<string>)
    requires Closed(Blueprints(nodes)) && Indexed(Blueprints(nodes), names)
    modifies nodes.Values
    ensures LinksOf(nodes) == Wire(old(LinksOf(nodes)), Blueprints(nodes), names)
    ensures NetOf(nodes) == old(NetOf(nodes))
  {
    ghost var t, m, net := Blueprints(nodes), LinksOf(nodes), NetOf(nodes);
    NamedInjective(nodes);
    IndexedListed(t, names);
    var i := 0;
    while i < |names|
      invariant i <= |names|
      invariant LinksOf(nodes) == Wire(m, t, names[..i])
      invariant NetOf(nodes) == net
    {
      var n := names[i];
      assert forall j :: 0 <= j < |nodes[n].blueprint.children| ==> nodes[n].blueprint.children[j] in nodes by {
        assert t[n] == nodes[n].blueprint;
      }
      LinkChildren(nodes, n);
      ghost var i0 := i;
      i := i + 1;
      WireSnoc(m, t, names, i0, i);
    }
    assert names[..i] == names;
  }

  /** Wiring one more listed module. */
  lemma WireSnoc(m: Links, t: Topology, names: seq<string>, i: nat, i2: nat)
    requires Closed(t) && m.Keys == t.Keys && i < |names| && i2 == i + 1
    requires forall j :: 0 <= j < |names| ==> names[j] in t
    ensures Wire(m, t, names[..i2]) == LinkAll(Wire(m, t, names[..i]), names[i], t[names[i]].children)
  {
    assert names[..i2][..i] == names[..i];
  }

  /** The fourth loop of `connectNodes`: each listed conjunction remembers its parents (as linked) as low. */
  function Configure(net: Net, t: Topology, m: Links, names: seq<string>): (r: Net)
    requires forall i :: 0 <= i < |names| ==> names[i] in t && names[i] in net && names[i] in m
    ensures r.Keys == net.Keys
  {
    if names == [] then net
    else
      var r := Configure(net, t, m, names[..|names| - 1]);
      var n := names[|names| - 1];
      if t[n].kind == Conjunction then r[n := r[n].(inputs := Configured(r[n].inputs, m[n].1))] else r
  }

  /** Configuring each listed module once configures every listed conjunction and changes nothing else. */
  lemma {:induction false} ConfigureSpec(net: Net, t: Topology, m: Links, names: seq<string>, k: string)
    requires forall i :: 0 <= i < |names| ==> names[i] in t && names[i] in net && names[i] in m
    requires forall i, j :: 0 <= i < j < |names| ==> names[i] != names[j]
    requires k in net && k in t && k in m
    ensures Configure(net, t, m, names)[k] ==
      if k in names && t[k].kind == Conjunction then net[k].(inputs := Configured(net[k].inputs, m[k].1)) else net[k]
  {
    if names != [] {
      var init := names[..|names| - 1];
      ConfigureSpec(net, t, m, init, k);
      assert k in names <==> k in init || k == names[|names| - 1];
      assert k == names[|names| - 1] ==> k !in init;
    }
  }

  /** One module's `updateConfig`, seen on the states of all modules. */
  method ConfigureOne(nodes: map<string, Node>, n: string)
    requires n in nodes && Injective(nodes)
    modifies nodes[n]
    ensures LinksOf(nodes) == old(LinksOf(nodes))
    ensures NetOf(nodes) == if nodes[n].blueprint.kind == Conjunction
      then old(NetOf(nodes))[n := old(NetOf(nodes))[n].(inputs := Configured(old(NetOf(nodes))[n].inputs, nodes[n].parents))]
      else old(NetOf(nodes))
  {
    nodes[n].UpdateConfig();
  }

  /** The fourth loop of `connectNodes`: `updateConfig` on every module, in order. */
  method ConfigureNodes(nodes: map<string, Node>, names: seq<string>)
    requires Injective(nodes) && forall i :: 0 <= i < |names| ==> names[i] in nodes
    modifies nodes.Values
    ensures LinksOf(nodes) == old(LinksOf(nodes))
    ensures NetOf(nodes) == Configure(old(NetOf(nodes)), Blueprints(nodes), LinksOf(nodes), names)
  {
    ghost var t, m := Blueprints(nodes), LinksOf(nodes);
    var i := 0;
    while i < |names|
      invariant i <= |names| && LinksOf(nodes) == m
      invariant NetOf(nodes) == Configure(old(NetOf(nodes)), t, m, names[..i])
    {
      assert t[names[i]] == nodes[names[i]].blueprint && m[names[i]].1 == nodes[names[i]].parents;
      ConfigureOne(nodes, names[i]);
      ghost var i0 := i;
      i := i + 1;
      ConfigureSnoc(old(NetOf(nodes)), t, m, names, i0, i);
    }
    assert names[..i] == names;
  }

  /** Configuring one more listed module. */
  lemma ConfigureSnoc(net: Net, t: Topology, m: Links, names: seq<string>, i: nat, i2: nat)
    requires i < |names| && i2 == i + 1
    requires forall j :: 0 <= j < |names| ==> names[j] in t && names[j] in net && names[j] in m
    ensures var r := Configure(net, t, m, names[..i]);
      var n := names[i];
      Configure(net, t, m, names[..i2]) ==
        if t[n].kind == Conjunction then r[n := r[n].(inputs := Configured(r[n].inputs, m[n].1))] else r
  {
    assert names[..i2][..i] == names[..i];
  }

  /** The modules as `connectNodes` leaves them: wired as their blueprints say, with the initial states. */
  ghost predicate Connected(nodes: map<string, Node>, names: seq<string>)
    reads nodes.Values
  {
    var t := Blueprints(nodes);
    Closed(t) && Indexed(t, names)
    && forall k :: k in nodes ==>
         nodes[k].children == t[k].children && nodes[k].parents == ParentsOf(t, names, k)
         && nodes[k].Snapshot() == InitialState(t, names, k)
  }

  /** Every listed name is a module. */
  lemma IndexedListed(t: Topology, names: seq<string>)
    requires Indexed(t, names)
    ensures forall i :: 0 <= i < |names| ==> names[i] in t
  {
    forall i | 0 <= i < |names| ensures names[i] in t {
      assert names[i] in names;
    }
  }

  /** The last two loops of `connectNodes`: link the modules, then configure them. */
  method WireNodes(nodes: map<string, Node>, names: seq<string>)
    requires Closed(Blueprints(nodes)) && Indexed(Blueprints(nodes), names)
    requires forall k :: k in nodes ==> nodes[k].Unwired()
    modifies nodes.Values
    ensures Connected(nodes, names)
  {
    ghost var t := Blueprints(nodes);
    NamedInjective(nodes);
    IndexedListed(t, names);
    ghost var m0, net0 := LinksOf(nodes), NetOf(nodes);
    assert NoLinks(m0) && forall k :: k in net0 ==> net0[k] == Blank;
    LinkNodes(nodes, names);
    ConfigureNodes(nodes, names);
    forall k | k in nodes
      ensures nodes[k].children == t[k].children && nodes[k].parents == ParentsOf(t, names, k)
      ensures nodes[k].Snapshot() == InitialState(t, names, k)
    {
      WireSpec(m0, t, names, k);
      ConfigureSpec(net0, t, LinksOf(nodes), names, k);
      assert LinksOf(nodes)[k] == (nodes[k].children, nodes[k].parents);
      assert NetOf(nodes)[k] == nodes[k].Snapshot();
    }
  }

  /**
   * `connectNodes`: read the modules, add a plain module for every child no line describes, link
   * every module to its children and its children to it, and let each conjunction remember its
   * parents as low.
   */
  method ConnectNodes(lines: seq<string>) returns (r: Result<(map<string, Node>, seq<string>)>)
    ensures r.Err? <==> TopologyOf(lines).Err?
    ensures r.Err? ==> r.error == TopologyOf(lines).error
    ensures r.Ok? ==> (Blueprints(r.value.0), r.value.1) == TopologyOf(lines).value
    ensures r.Ok? ==> Connected(r.value.0, r.value.1)
    ensures r.Ok? ==> forall k :: k in r.value.0 ==> fresh(r.value.0[k])
  {
    var read := ReadNodesInto(lines);
    if read.Err? {
      return Err(read.error);
    }
    var (oldNodes, oldNames) := read.value;
    assert Indexed(Blueprints(oldNodes), oldNames) by {
      ReadNodesSpec(lines);
    }
    var nodes, names := AddMissingNodes(oldNodes, oldNames);
    assert Closed(Blueprints(nodes)) && Indexed(Blueprints(nodes), names) by {
      TopologyOfClosed(lines);
    }
    WireNodes(nodes, names);
    return Ok((nodes, names));
  }
}
