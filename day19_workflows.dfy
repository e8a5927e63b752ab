/**
 * Day 19: parts rated x, m, a and s pass through named workflows. Each workflow is a list of
 * rules `a<2006:qkq`, tried in order, the last usually unconditional; a part ends accepted
 * (`A`) or rejected (`R`). The input lists the workflows, a blank line, then the parts.
 */
module Day19Workflows {
  import opened Wrappers
  import opened Strings
  import Lists

  // ---------------------------------------------------------------- parts and conditions

  datatype Operator = LessThan | GreaterThan

  /** `Condition`: the named rating compared strictly with `value`. */
  datatype Condition = Condition(varName: string, operator: Operator, value: int)

  /** `Rule`: go to `target`, always or when the condition holds. */
  datatype Rule = Rule(target: string, condition: Option<Condition>)

  datatype Workflow = Workflow(name: string, rules: seq<Rule>)

  /** `Elements`: the four ratings of a part. */
  datatype Elements = Elements(x: int, m: int, a: int, s: int)

  /** `int(elements)`: the sum of the four ratings. */
  function Total(e: Elements): int
  {
    e.x + e.m + e.a + e.s
  }

  predicate IsRatingName(name: string)
  {
    name == "x" || name == "m" || name == "a" || name == "s"
  }

  /** `getattr(elements, name)`: one of the four ratings, or AttributeError for any other name. */
  function Rating(e: Elements, name: string): (r: Result<int>)
    ensures r.Ok? <==> IsRatingName(name)
    ensures r.Err? ==> r.error == "AttributeError"
  {
    if name == "x" then Ok(e.x)
    else if name == "m" then Ok(e.m)
    else if name == "a" then Ok(e.a)
    else if name == "s" then Ok(e.s)
    else Err("AttributeError")
  }

  /** `Condition.__call__`. */
  function Holds(c: Condition, e: Elements): Result<bool>
  {
    match Rating(e, c.varName)
    case Err(err) => Err(err)
    case Ok(v) => Ok(match c.operator case LessThan => v < c.value case GreaterThan => v > c.value)
  }

  /**
   * A condition on a rating holds exactly when the rating is strictly on its side of the value:
   * a rating equal to the value never passes, whichever the operator.
   */
  lemma HoldsStrict(c: Condition, e: Elements)
    requires IsRatingName(c.varName)
    ensures Holds(c, e).Ok?
    ensures c.operator == LessThan ==> (Holds(c, e).value <==> Rating(e, c.varName).value < c.value)
    ensures c.operator == GreaterThan ==> (Holds(c, e).value <==> Rating(e, c.varName).value > c.value)
    ensures Rating(e, c.varName).value == c.value ==> Holds(c, e) == Ok(false)
  {
  }

  // ---------------------------------------------------------------- parsing rules

  /** The characters of the condition's head: rating letters and the operator. */
  predicate IsHeadChar(c: char)
  {
    IsAlpha(c) || c == '<' || c == '>'
  }

  /** Where the head of a condition text ends: the first character that is no letter and no operator. */
  function HeadLength(t: string): (k: nat)
    ensures k <= |t|
    ensures forall j :: 0 <= j < k ==> IsHeadChar(t[j])
    ensures k < |t| ==> !IsHeadChar(t[k])
  {
    if t == [] || !IsHeadChar(t[0]) then 0
    else
      var k := 1 + HeadLength(t[1..]);
      assert forall j :: 1 <= j < k ==> t[j] == t[1..][j - 1];
      k
  }

  /** The letters of `s`, in order. */
  function Letters(s: string): (r: string)
    ensures forall j :: 0 <= j < |r| ==> IsAlpha(r[j])
  {
    if s == [] then []
    else Letters(s[..|s| - 1]) + (if IsAlpha(s[|s| - 1]) then [s[|s| - 1]] else [])
  }

  /** The operator the last `<` or `>` of `s` names; less-than when there is none. */
  function LastOperator(s: string): Operator
  {
    if s == [] then LessThan
    else if s[|s| - 1] == '<' then LessThan
    else if s[|s| - 1] == '>' then GreaterThan
    else LastOperator(s[..|s| - 1])
  }

  /**
   * The condition a text such as `a<2006` denotes: the letters of its head name the rating, the
   * last operator there counts, and the rest of the text is the value (0 when there is none).
   */
  function ConditionOf(t: string): Result<Condition>
  {
    var k := HeadLength(t);
    var name, op := Letters(t[..k]), LastOperator(t[..k]);
    if k == |t| then Ok(Condition(name, op, 0))
    else match ParseInt(t[k..])
      case None => Err("ValueError")
      case Some(v) => Ok(Condition(name, op, v))
  }

  /**
   * The rule a text denotes: without a colon, an unconditional rule to the whole text; with
   * one, the condition before it and the target after it; with two or more, ValueError.
   */
  function RuleOf(text: string): Result<Rule>
  {
    if ':' !in text then Ok(Rule(text, None))
    else
      var parts := SplitOn(text, ':');
      if |parts| != 2 then Err("ValueError")
      else match ConditionOf(parts[0])
        case Err(err) => Err(err)
        case Ok(c) => Ok(Rule(parts[1], Some(c)))
  }

  /** One more character of the head. */
  lemma HeadStep(t: string, i: nat)
    requires i < |t|
    ensures Letters(t[..i + 1]) == Letters(t[..i]) + (if IsAlpha(t[i]) then [t[i]] else [])
    ensures LastOperator(t[..i + 1]) == if t[i] == '<' then LessThan else if t[i] == '>' then GreaterThan else LastOperator(t[..i])
    ensures i <= HeadLength(t) ==> (IsHeadChar(t[i]) <==> i < HeadLength(t))
  {
    assert t[..i + 1][..i] == t[..i];
  }

  /** `parseRule`: splits off the target, then reads the condition. */
  method ParseRule(ruleTxt: string) returns (r: Result<Rule>)
    ensures r == RuleOf(ruleTxt)
  {
    if ':' !in ruleTxt {
      return Ok(Rule(ruleTxt, None));
    }
    var parts := SplitOn(ruleTxt, ':');
    if |parts| != 2 {
      return Err("ValueError");
    }
    var conditionTxt, targetTxt := parts[0], parts[1];
    var condition := ParseCondition(conditionTxt);
    if condition.Err? {
      return Err(condition.error);
    }
    return Ok(Rule(targetTxt, Some(condition.value)));
  }

  /** The character loop of `parseRule` over the condition text. */
  method ParseCondition(conditionTxt: string) returns (r: Result<Condition>)
    ensures r == ConditionOf(conditionTxt)
  {
    var varName := "";
    var operator := LessThan;
    var value := 0;
    var i := 0;
    while i < |conditionTxt|
      invariant i <= HeadLength(conditionTxt)
      invariant varName == Letters(conditionTxt[..i]) && operator == LastOperator(conditionTxt[..i])
    {
      var c := conditionTxt[i];
      HeadStep(conditionTxt, i);
      if IsAlpha(c) {
        varName := varName + [c];
      } else if c == '<' {
        operator := LessThan;
      } else if c == '>' {
        operator := GreaterThan;
      } else {
        var parsed := ParseInt(conditionTxt[i..]);
        if parsed.None? {
          return Err("ValueError");
        }
        value := parsed.value;
        break;
      }
      i := i + 1;
    }
    return Ok(Condition(varName, operator, value));
  }

  function OperatorChar(op: Operator): char
  {
    match op
    case LessThan => '<'
    case GreaterThan => '>'
  }

  /** A rule as the input writes it: `a<2006:qkq`, or just the target. */
  function RenderRule(r: Rule): string
  {
    match r.condition
    case None => r.target
    case Some(c) => c.varName + [OperatorChar(c.operator)] + IntToString(c.value) + ":" + r.target
  }

  /** A name free of the characters the input uses as separators. */
  predicate PlainName(s: string)
  {
    forall j :: 0 <= j < |s| ==> s[j] != ':' && s[j] != ',' && s[j] != '{' && s[j] != '\n'
  }

  /** A rule the input can carry: a plain target, and a rating name made of letters. */
  predicate WellFormedRule(r: Rule)
  {
    PlainName(r.target) && (r.condition.Some? ==> forall j :: 0 <= j < |r.condition.value.varName| ==> IsAlpha(r.condition.value.varName[j]))
  }

  /** The letters of a string of letters are the string itself, and they carry no operator. */
  lemma {:induction false} LettersOnly(s: string)
    requires forall j :: 0 <= j < |s| ==> IsAlpha(s[j])
    ensures Letters(s) == s && LastOperator(s) == LessThan
  {
    if s != [] {
      LettersOnly(s[..|s| - 1]);
    }
  }

  /** Appending an operator to the head. */
  lemma HeadOperator(name: string, op: Operator)
    requires forall j :: 0 <= j < |name| ==> IsAlpha(name[j])
    ensures Letters(name + [OperatorChar(op)]) == name && LastOperator(name + [OperatorChar(op)]) == op
  {
    var h := name + [OperatorChar(op)];
    assert h[..|h| - 1] == name;
    LettersOnly(name);
  }

  /** The head of `head + tail` is `head` when the tail starts with a character of no head. */
  lemma {:induction false} HeadOfJoin(head: string, tail: string)
    requires forall j :: 0 <= j < |head| ==> IsHeadChar(head[j])
    requires tail != [] && !IsHeadChar(tail[0])
    ensures HeadLength(head + tail) == |head|
    decreases |head|
  {
    if head != [] {
      assert (head + tail)[1..] == head[1..] + tail;
      HeadOfJoin(head[1..], tail);
    }
  }

  /** The characters of `str(i)`: digits and a leading minus sign, with a digit first after the sign and last. */
  lemma IntToStringChars(i: int)
    ensures var s := IntToString(i);
      !IsHeadChar(s[0]) && IsDigit(s[|s| - 1]) && forall j :: 0 <= j < |s| ==> IsDigit(s[j]) || s[j] == '-'
  {
    if i < 0 {
      var n := NatToString(-i);
      var s := "-" + n;
      assert s[|s| - 1] == n[|n| - 1];
      forall j | 0 <= j < |s|
        ensures IsDigit(s[j]) || s[j] == '-'
      {
        if j > 0 {
          assert s[j] == n[j - 1];
        }
      }
    }
  }

  /** A condition reads back from its rendering. */
  lemma ConditionRoundTrip(c: Condition)
    requires forall j :: 0 <= j < |c.varName| ==> IsAlpha(c.varName[j])
    ensures ConditionOf(c.varName + [OperatorChar(c.operator)] + IntToString(c.value)) == Ok(c)
  {
    var head := c.varName + [OperatorChar(c.operator)];
    var tail := IntToString(c.value);
    var t := head + tail;
    IntToStringChars(c.value);
    HeadOfJoin(head, tail);
    assert t[..|head|] == head && t[|head|..] == tail;
    HeadOperator(c.varName, c.operator);
    IntToStringRoundTrip(c.value);
  }

  /** `parseRule` reads back every rule the input can carry. */
  lemma RuleRoundTrip(r: Rule)
    requires WellFormedRule(r)
    ensures RuleOf(RenderRule(r)) == Ok(r)
  {
    match r.condition
    case None =>
      assert ':' !in r.target by {
        forall j | 0 <= j < |r.target|
          ensures r.target[j] != ':'
        {
        }
      }
    case Some(c) =>
      var cond := c.varName + [OperatorChar(c.operator)] + IntToString(c.value);
      IntToStringChars(c.value);
      forall j | 0 <= j < |cond|
        ensures cond[j] != ':'
      {
        if j < |c.varName| {
          assert cond[j] == c.varName[j];
        } else if j > |c.varName| {
          assert cond[j] == IntToString(c.value)[j - |c.varName| - 1];
        }
      }
      var text := cond + ":" + r.target;
      assert text == cond + [':'] + r.target;
      SplitOnStep(text, ':', cond, r.target);
      FindAbsent(r.target, ':');
      assert text[|cond|] == ':';
      ConditionRoundTrip(c);
  }

  /** The example rule of the puzzle text: `a<2006:qkq`. */
  lemma ExampleRule()
    ensures RuleOf("a<2006:qkq") == Ok(Rule("qkq", Some(Condition("a", LessThan, 2006))))
  {
    ExampleRuleText();
    RuleRoundTrip(Rule("qkq", Some(Condition("a", LessThan, 2006))));
  }

  /** How the rule of the first example workflow is written. */
  lemma ExampleRuleText()
    ensures RenderRule(Rule("qkq", Some(Condition("a", LessThan, 2006)))) == "a<2006:qkq"
  {
    assert NatToString(2006) == "2006";
  }

  // ---------------------------------------------------------------- workflows

  /** Whether a rule sends the part on: always for an unconditional rule, else its condition. */
  function Fires(r: Rule, e: Elements): Result<bool>
  {
    match r.condition
    case None => Ok(true)
    case Some(c) => Holds(c, e)
  }

  /** The first rule that does not simply fail: it fires, or its condition raises. */
  function FirstDecided(rules: seq<Rule>, e: Elements): (k: nat)
    ensures k <= |rules|
    ensures forall j :: 0 <= j < k ==> Fires(rules[j], e) == Ok(false)
    ensures k < |rules| ==> Fires(rules[k], e) != Ok(false)
  {
    if rules == [] || Fires(rules[0], e) != Ok(false) then 0
    else
      var k := 1 + FirstDecided(rules[1..], e);
      assert forall j :: 1 <= j < |rules| ==> rules[j] == rules[1..][j - 1];
      k
  }

  /**
   * What a workflow does with a part: the target of the first rule that fires, the error of a
   * condition met before it, or RuntimeError when no rule fires.
   */
  function Decision(w: Workflow, e: Elements): Result<string>
  {
    var k := FirstDecided(w.rules, e);
    if k == |w.rules| then Err("RuntimeError")
    else match Fires(w.rules[k], e)
      case Err(err) => Err(err)
      case Ok(_) => Ok(w.rules[k].target)
  }

  /** `Workflow.__call__`. */
  method Apply(w: Workflow, e: Elements) returns (r: Result<string>)
    ensures r == Decision(w, e)
  {
    for i := 0 to |w.rules|
      invariant forall j :: 0 <= j < i ==> Fires(w.rules[j], e) == Ok(false)
    {
      var rule := w.rules[i];
      if rule.condition.None? {
        return Ok(rule.target);
      }
      var holds := Holds(rule.condition.value, e);
      if holds.Err? {
        return Err(holds.error);
      }
      if holds.value {
        return Ok(rule.target);
      }
    }
    return Err("RuntimeError");
  }

  /**
   * The decision is a target of the workflow exactly when some rule fires with every rule before
   * it failing; a workflow that ends in an unconditional rule and names only the four ratings
   * always decides.
   */
  lemma DecisionSpec(w: Workflow, e: Elements)
    ensures Decision(w, e).Ok? <==>
      (exists k :: 0 <= k < |w.rules| && Fires(w.rules[k], e) == Ok(true) && forall j :: 0 <= j < k ==> Fires(w.rules[j], e) == Ok(false))
    ensures Decision(w, e).Ok? ==> Decision(w, e).value in (set r | r in w.rules :: r.target)
    ensures Decision(w, e) == Err("RuntimeError") <==> forall j :: 0 <= j < |w.rules| ==> Fires(w.rules[j], e) == Ok(false)
    ensures |w.rules| > 0 && w.rules[|w.rules| - 1].condition.None?
      && (forall r :: r in w.rules && r.condition.Some? ==> IsRatingName(r.condition.value.varName))
      ==> Decision(w, e).Ok?
  {
    var k := FirstDecided(w.rules, e);
    if k < |w.rules| {
      assert w.rules[k] in w.rules;
      if Fires(w.rules[k], e).Ok? {
        assert Fires(w.rules[k], e) == Ok(true);
      }
    } else if |w.rules| > 0 {
      assert Fires(w.rules[|w.rules| - 1], e) == Ok(false);
    }
  }

  /** Rules after the first one that fires do not matter. */
  lemma DecisionIgnoresLater(w: Workflow, more: seq<Rule>, e: Elements)
    requires Decision(w, e).Ok?
    ensures Decision(Workflow(w.name, w.rules + more), e) == Decision(w, e)
  {
    var rs := w.rules + more;
    var k := FirstDecided(w.rules, e);
    assert forall j :: 0 <= j < |w.rules| ==> rs[j] == w.rules[j];
    var k' := FirstDecided(rs, e);
    assert k' == k;
  }

  /** The rule texts between the braces of a workflow line. */
  function RulesText(s: string): string
  {
    if s == [] then [] else s[..|s| - 1]
  }

  /**
   * `readWorkflow`: the name before the brace, and the comma-separated rules between it and the
   * last character; a line without exactly one brace raises ValueError.
   */
  function ReadWorkflow(line: string): (r: Result<Workflow>)
    ensures r.Ok? ==> |r.value.rules| >= 1
  {
    var parts := SplitOn(line, '{');
    if |parts| != 2 then Err("ValueError")
    else match MapAll(SplitOn(RulesText(parts[1]), ','), RuleOf)
      case Err(err) => Err(err)
      case Ok(rules) => Ok(Workflow(parts[0], rules))
  }

  /** A workflow as the input writes it: `px{a<2006:qkq,m>2090:A,rfg}`. */
  function RenderWorkflow(w: Workflow): string
  {
    w.name + "{" + Join(RenderRules(w.rules), ",") + "}"
  }

  function RenderRules(rules: seq<Rule>): (texts: seq<string>)
    ensures |texts| == |rules| && forall k :: 0 <= k < |rules| ==> texts[k] == RenderRule(rules[k])
  {
    seq(|rules|, k requires 0 <= k < |rules| => RenderRule(rules[k]))
  }

  /** A rule's text has no comma and no brace. */
  lemma RenderRulePlain(r: Rule)
    requires WellFormedRule(r)
    ensures forall j :: 0 <= j < |RenderRule(r)| ==> RenderRule(r)[j] != ',' && RenderRule(r)[j] != '{'
  {
    match r.condition
    case None =>
    case Some(c) =>
      var n := c.varName + [OperatorChar(c.operator)] + IntToString(c.value);
      IntToStringChars(c.value);
      var t := n + ":" + r.target;
      forall j | 0 <= j < |t|
        ensures t[j] != ',' && t[j] != '{'
      {
        if j < |c.varName| {
          assert t[j] == c.varName[j];
        } else if |c.varName| < j < |n| {
          assert t[j] == IntToString(c.value)[j - |c.varName| - 1];
        } else if j > |n| {
          assert t[j] == r.target[j - |n| - 1];
        }
      }
  }

  /** `readWorkflow` reads back every workflow the input can carry: a plain name and at least one rule. */
  lemma WorkflowRoundTrip(w: Workflow)
    requires PlainName(w.name) && |w.rules| >= 1 && forall r :: r in w.rules ==> WellFormedRule(r)
    ensures ReadWorkflow(RenderWorkflow(w)) == Ok(w)
  {
    var texts := RenderRules(w.rules);
    forall k, j | 0 <= k < |texts| && 0 <= j < |texts[k]|
      ensures texts[k][j] != ',' && texts[k][j] != '{'
    {
      assert w.rules[k] in w.rules;
      RenderRulePlain(w.rules[k]);
    }
    var body := Join(texts, ",");
    JoinChars(texts, ",", '{');
    SplitOnJoin(texts, ',');
    var line := RenderWorkflow(w);
    assert line == w.name + ['{'] + (body + "}");
    FindAbsent(body + "}", '{') by {
      forall j | 0 <= j < |body + "}"|
        ensures (body + "}")[j] != '{'
      {
        if j < |body| {
          assert (body + "}")[j] == body[j];
        }
      }
    }
    SplitOnStep(line, '{', w.name, body + "}");
    assert SplitOn(body + "}", '{') == [body + "}"];
    assert RulesText(body + "}") == body;
    forall k | 0 <= k < |texts|
      ensures RuleOf(texts[k]) == Ok(w.rules[k])
    {
      assert w.rules[k] in w.rules;
      RuleRoundTrip(w.rules[k]);
    }
    MapAllPointwise(texts, RuleOf, w.rules);
  }

  /** Empty braces still hold one rule: the unconditional rule to the empty name. */
  lemma EmptyBraces()
    ensures ReadWorkflow("in{}") == Ok(Workflow("in", [Rule("", None)]))
  {
    var line := "in{}";
    FindAbsent("}", '{');
    SplitOnStep(line, '{', "in", "}");
    assert SplitOn("}", '{') == ["}"];
    assert RulesText("}") == "";
    FindAbsent("", ',');
    assert SplitOn("", ',') == [""];
    assert RuleOf("") == Ok(Rule("", None));
    MapAllPointwise([""], RuleOf, [Rule("", None)]);
  }

  // ---------------------------------------------------------------- parts

  /** The text between the braces: `line.strip("{").strip("}")`. */
  function Inner(line: string): string
  {
    StripChars(StripChars(line, "{"), "}")
  }

  /** One `name=value` entry; a text without exactly one `=`, or a value that is no integer, raises ValueError. */
  function ReadPair(t: string): (r: Result<(string, int)>)
    ensures r.Err? ==> r.error == "ValueError"
  {
    var parts := SplitOn(t, '=');
    if |parts| != 2 then Err("ValueError")
    else match ParseInt(parts[1])
      case None => Err("ValueError")
      case Some(v) => Ok((parts[0], v))
  }

  /** The value of the last entry named `name`; 0 when there is none. */
  function LastRating(ps: seq<(string, int)>, name: string): int
  {
    if ps == [] then 0
    else if ps[|ps| - 1].0 == name then ps[|ps| - 1].1
    else LastRating(ps[..|ps| - 1], name)
  }

  /** A rating no entry names is 0. */
  lemma {:induction false} LastRatingAbsent(ps: seq<(string, int)>, name: string)
    requires forall k :: 0 <= k < |ps| ==> ps[k].0 != name
    ensures LastRating(ps, name) == 0
    decreases |ps|
  {
    if ps != [] {
      var init := ps[..|ps| - 1];
      assert forall k :: 0 <= k < |init| ==> init[k] == ps[k];
      LastRatingAbsent(init, name);
    }
  }

  /** A rating takes the value of the last entry that names it. */
  lemma {:induction false} LastRatingAt(ps: seq<(string, int)>, name: string, k: nat)
    requires k < |ps| && ps[k].0 == name && forall j :: k < j < |ps| ==> ps[j].0 != name
    ensures LastRating(ps, name) == ps[k].1
    decreases |ps|
  {
    if k < |ps| - 1 {
      var init := ps[..|ps| - 1];
      assert forall j :: 0 <= j < |init| ==> init[j] == ps[j];
      LastRatingAt(init, name, k);
    }
  }

  /**
   * The part a line such as `{x=787,m=2655,a=1222,s=2876}` denotes: every entry must read, the
   * last entry of each rating counts, entries of other names are ignored, and a missing rating is 0.
   */
  function ElementsOf(line: string): Result<Elements>
  {
    match MapAll(SplitOn(Inner(line), ','), ReadPair)
    case Err(err) => Err(err)
    case Ok(ps) => Ok(Rated(ps))
  }

  /** The ratings a list of entries sets. */
  function Rated(ps: seq<(string, int)>): Elements
  {
    Elements(LastRating(ps, "x"), LastRating(ps, "m"), LastRating(ps, "a"), LastRating(ps, "s"))
  }

  /** One more entry sets the rating it names, if any. */
  lemma RatedSnoc(ps: seq<(string, int)>, name: string, value: int)
    ensures Rated(ps + [(name, value)]) ==
      if name == "x" then Rated(ps).(x := value)
      else if name == "m" then Rated(ps).(m := value)
      else if name == "a" then Rated(ps).(a := value)
      else if name == "s" then Rated(ps).(s := value)
      else Rated(ps)
  {
    LastRatingSnoc(ps, (name, value), "x");
    LastRatingSnoc(ps, (name, value), "m");
    LastRatingSnoc(ps, (name, value), "a");
    LastRatingSnoc(ps, (name, value), "s");
    assert "x"[0] != "m"[0] && "x"[0] != "a"[0] && "x"[0] != "s"[0] && "m"[0] != "a"[0] && "m"[0] != "s"[0] && "a"[0] != "s"[0];
  }

  /** One more entry updates at most its own rating. */
  lemma LastRatingSnoc(ps: seq<(string, int)>, p: (string, int), name: string)
    ensures LastRating(ps + [p], name) == if p.0 == name then p.1 else LastRating(ps, name)
  {
    assert (ps + [p])[..|ps|] == ps;
  }

  /** `readElements`: the entry loop. */
  method ReadElements(line: string) returns (r: Result<Elements>)
    ensures r == ElementsOf(line)
  {
    var inner := Inner(line);
    var elemsTxt := SplitOn(inner, ',');
    var x, m, a, s := 0, 0, 0, 0;
    ghost var ps: seq<(string, int)> := [];
    for i := 0 to |elemsTxt|
      invariant MapAll(elemsTxt[..i], ReadPair) == Ok(ps)
      invariant Elements(x, m, a, s) == Rated(ps)
    {
      var pair := SplitOn(elemsTxt[i], '=');
      if |pair| != 2 {
        MapAllStep(elemsTxt, i, ReadPair, ps);
        return Err("ValueError");
      }
      var elemName, elemValue := pair[0], pair[1];
      var parsed := ParseInt(elemValue);
      if parsed.None? {
        MapAllStep(elemsTxt, i, ReadPair, ps);
        return Err("ValueError");
      }
      var value := parsed.value;
      assert ReadPair(elemsTxt[i]) == Ok((elemName, value));
      MapAllStep(elemsTxt, i, ReadPair, ps);
      RatedSnoc(ps, elemName, value);
      ps := ps + [(elemName, value)];
      if elemName == "x" {
        x := value;
      } else if elemName == "m" {
        m := value;
      } else if elemName == "a" {
        a := value;
      } else if elemName == "s" {
        s := value;
      }
    }
    MapAllDone(elemsTxt, ReadPair, ps);
    return Ok(Elements(x, m, a, s));
  }

  /** One entry as the input writes it: `x=787`. */
  function EntryText(c: char, v: int): string
  {
    [c, '='] + IntToString(v)
  }

  /** The entries of a part as the input writes them, without the braces. */
  function EntryTexts(e: Elements): seq<string>
  {
    [EntryText('x', e.x), EntryText('m', e.m), EntryText('a', e.a), EntryText('s', e.s)]
  }

  /** A part as the input writes it: `{x=787,m=2655,a=1222,s=2876}`. */
  function RenderElements(e: Elements): string
  {
    "{" + Join(EntryTexts(e), ",") + "}"
  }

  /** An entry reads back as its one-letter name and its value. */
  lemma PairRoundTrip(c: char, v: int)
    requires c != '='
    ensures ReadPair(EntryText(c, v)) == Ok(([c], v))
  {
    var n := IntToString(v);
    IntToStringChars(v);
    assert EntryText(c, v) == [c] + ['='] + n;
    SplitOnStep(EntryText(c, v), '=', [c], n);
    FindAbsent(n, '=');
    IntToStringRoundTrip(v);
  }

  /** Joining four texts. */
  lemma JoinFour(a: string, b: string, c: string, e: string, sep: string)
    ensures Join([a, b, c, e], sep) == a + sep + (b + sep + (c + sep + e))
  {
    var t := [a, b, c, e];
    assert t[1..] == [b, c, e];
    assert [b, c, e][1..] == [c, e];
    assert [c, e][1..] == [e];
    assert Join([e], sep) == e;
    assert Join([c, e], sep) == c + sep + e;
    assert Join([b, c, e], sep) == b + sep + (c + sep + e);
  }

  /** An entry `c=str(v)` has no comma, starts with `c` and ends with a digit. */
  lemma EntryPlain(c: char, v: int)
    requires c != ','
    ensures var t := EntryText(c, v);
      t[0] == c && IsDigit(t[|t| - 1]) && forall j :: 0 <= j < |t| ==> t[j] != ','
  {
    var n := IntToString(v);
    IntToStringChars(v);
    var t := [c, '='] + n;
    assert t[|t| - 1] == n[|n| - 1];
    forall j | 0 <= j < |t|
      ensures t[j] != ','
    {
      if j >= 2 {
        assert t[j] == n[j - 2];
      }
    }
  }

  /** Stripping the braces off a body that starts and ends with neither brace. */
  lemma InnerOfBraces(body: string)
    requires |body| > 0 && body[0] != '{' && body[0] != '}' && body[|body| - 1] != '{' && body[|body| - 1] != '}'
    ensures Inner("{" + body + "}") == body
  {
    StripWrapped('{', body, '}');
  }

  /** No entry of a part holds a comma. */
  lemma EntriesPlain(e: Elements)
    ensures forall k, j :: 0 <= k < |EntryTexts(e)| && 0 <= j < |EntryTexts(e)[k]| ==> EntryTexts(e)[k][j] != ','
  {
    EntryPlain('x', e.x);
    EntryPlain('m', e.m);
    EntryPlain('a', e.a);
    EntryPlain('s', e.s);
    FourWithoutComma(EntryTexts(e));
  }

  /** Four texts without a comma each. */
  lemma FourWithoutComma(t: seq<string>)
    requires |t| == 4
    requires forall j :: 0 <= j < |t[0]| ==> t[0][j] != ','
    requires forall j :: 0 <= j < |t[1]| ==> t[1][j] != ','
    requires forall j :: 0 <= j < |t[2]| ==> t[2][j] != ','
    requires forall j :: 0 <= j < |t[3]| ==> t[3][j] != ','
    ensures forall k, j :: 0 <= k < |t| && 0 <= j < |t[k]| ==> t[k][j] != ','
  {
    forall k, j | 0 <= k < |t| && 0 <= j < |t[k]|
      ensures t[k][j] != ','
    {
      if k == 0 {} else if k == 1 {} else if k == 2 {} else {}
    }
  }

  /** The text between the braces of a rendered part starts with `x` and ends with a digit. */
  lemma BodyEnds(e: Elements)
    ensures var body := Join(EntryTexts(e), ",");
      |body| > 0 && body[0] == 'x' && IsDigit(body[|body| - 1])
  {
    var t := EntryTexts(e);
    EntryPlain('x', e.x);
    EntryPlain('s', e.s);
    JoinFour(t[0], t[1], t[2], t[3], ",");
  }

  /** The entries of a rendered part are the texts between its commas. */
  lemma EntriesSplit(e: Elements)
    ensures SplitOn(Inner(RenderElements(e)), ',') == EntryTexts(e)
  {
    var t := EntryTexts(e);
    BodyEnds(e);
    InnerOfBraces(Join(t, ","));
    EntriesPlain(e);
    SplitOnJoin(t, ',');
  }

  /** Mapping four elements that each map to a value. */
  lemma MapAllFour<A, B>(a: A, b: A, c: A, d: A, f: A -> Result<B>, va: B, vb: B, vc: B, vd: B)
    requires f(a) == Ok(va) && f(b) == Ok(vb) && f(c) == Ok(vc) && f(d) == Ok(vd)
    ensures MapAll([a, b, c, d], f) == Ok([va, vb, vc, vd])
  {
    MapAllPointwise([a, b, c, d], f, [va, vb, vc, vd]);
  }

  /** Each rating of the four entries in order is its own entry's value. */
  lemma LastRatingOfFour(vx: int, vm: int, va: int, vs: int)
    ensures var ps := [("x", vx), ("m", vm), ("a", va), ("s", vs)];
      LastRating(ps, "x") == vx && LastRating(ps, "m") == vm && LastRating(ps, "a") == va && LastRating(ps, "s") == vs
  {
    var ps := [("x", vx), ("m", vm), ("a", va), ("s", vs)];
    assert "s"[0] != "x"[0] && "s"[0] != "m"[0] && "s"[0] != "a"[0];
    assert "a"[0] != "x"[0] && "a"[0] != "m"[0] && "m"[0] != "x"[0];
    LastRatingAt(ps, "x", 0);
    LastRatingAt(ps, "m", 1);
    LastRatingAt(ps, "a", 2);
    LastRatingAt(ps, "s", 3);
  }

  /** Reading a part from its entries: the step that ties the entries to the ratings. */
  lemma ElementsFromPairs(line: string, texts: seq<string>, ps: seq<(string, int)>)
    requires SplitOn(Inner(line), ',') == texts && MapAll(texts, ReadPair) == Ok(ps)
    ensures ElementsOf(line) == Ok(Elements(LastRating(ps, "x"), LastRating(ps, "m"), LastRating(ps, "a"), LastRating(ps, "s")))
  {
  }

  /** `readElements` reads back every part. */
  lemma ElementsRoundTrip(e: Elements)
    ensures ElementsOf(RenderElements(e)) == Ok(e)
  {
    var t := EntryTexts(e);
    EntriesSplit(e);
    PairRoundTrip('x', e.x);
    PairRoundTrip('m', e.m);
    PairRoundTrip('a', e.a);
    PairRoundTrip('s', e.s);
    assert ['x'] == "x" && ['m'] == "m" && ['a'] == "a" && ['s'] == "s";
    MapAllFour(t[0], t[1], t[2], t[3], ReadPair, ("x", e.x), ("m", e.m), ("a", e.a), ("s", e.s));
    assert t == [t[0], t[1], t[2], t[3]];
    ElementsFromPairs(RenderElements(e), t, [("x", e.x), ("m", e.m), ("a", e.a), ("s", e.s)]);
    LastRatingOfFour(e.x, e.m, e.a, e.s);
  }

  /** Mapping one element. */
  lemma MapAllOne<A, B>(a: A, f: A -> Result<B>, v: B)
    requires f(a) == Ok(v)
    ensures MapAll([a], f) == Ok([v])
  {
    MapAllPointwise([a], f, [v]);
  }

  /** The only entry of a part that names its `m` rating alone. */
  lemma OnlyEntry(v: int)
    ensures SplitOn(Inner("{" + EntryText('m', v) + "}"), ',') == [EntryText('m', v)]
  {
    var body := EntryText('m', v);
    EntryPlain('m', v);
    InnerOfBraces(body);
    FindAbsent(body, ',');
  }

  /** A part that names only its `m` rating gets 0 for the others. */
  lemma MissingRatings(v: int)
    ensures ElementsOf("{" + EntryText('m', v) + "}") == Ok(Elements(0, v, 0, 0))
  {
    var body := EntryText('m', v);
    OnlyEntry(v);
    PairRoundTrip('m', v);
    assert ['m'] == "m";
    MapAllOne(body, ReadPair, ("m", v));
    var ps := [("m", v)];
    ElementsFromPairs("{" + body + "}", [body], ps);
    assert "m"[0] != "x"[0] && "m"[0] != "a"[0] && "m"[0] != "s"[0];
    LastRatingSingle("m", v, "x");
    LastRatingSingle("m", v, "a");
    LastRatingSingle("m", v, "s");
  }

  /** A single entry sets its own rating and leaves the others 0. */
  lemma LastRatingSingle(name: string, v: int, other: string)
    requires name != other
    ensures LastRating([(name, v)], name) == v && LastRating([(name, v)], other) == 0
  {
    assert [(name, v)][..0] == [];
  }

  // ---------------------------------------------------------------- running a part

  /** The position of the first workflow named `name`; the number of workflows when there is none. */
  function FindIndex(workflows: seq<Workflow>, name: string): (k: nat)
    ensures k <= |workflows|
    ensures forall j :: 0 <= j < k ==> workflows[j].name != name
    ensures k < |workflows| ==> workflows[k].name == name
  {
    if workflows == [] || workflows[0].name == name then 0
    else
      var k := 1 + FindIndex(workflows[1..], name);
      assert forall j :: 1 <= j < |workflows| ==> workflows[j] == workflows[1..][j - 1];
      k
  }

  /** `next(w for w in workflows if w.name == name)`: the first workflow of that name, or None where Python raises StopIteration. */
  function FindWorkflow(workflows: seq<Workflow>, name: string): (r: Option<Workflow>)
    ensures r.Some? ==> r.value in workflows && r.value.name == name
    ensures r.None? <==> forall w :: w in workflows ==> w.name != name
  {
    var k := FindIndex(workflows, name);
    if k == |workflows| then None else Some(workflows[k])
  }

  /**
   * `ProblemSet.runWorkflow`: the part itself when a workflow accepts it, None when one rejects
   * it, and otherwise the run of the workflow its decision names. Python's recursion limit is
   * the bound `depth` on the number of nested calls, RecursionError past it.
   */
  function RunWorkflow(workflows: seq<Workflow>, w: Workflow, e: Elements, depth: nat): (r: Result<Option<Elements>>)
    ensures r.Ok? && r.value.Some? ==> r.value.value == e
    decreases depth
  {
    match Decision(w, e)
    case Err(err) => Err(err)
    case Ok(target) =>
      if target == "A" then Ok(Some(e))
      else if target == "R" then Ok(None)
      else match FindWorkflow(workflows, target)
        case None => Err("StopIteration")
        case Some(next) => if depth == 0 then Err("RecursionError") else RunWorkflow(workflows, next, e, depth - 1)
  }

  /** A run that stays within the bound gives the same result under any larger one. */
  lemma {:induction false} RunDeeper(workflows: seq<Workflow>, w: Workflow, e: Elements, depth: nat)
    requires RunWorkflow(workflows, w, e, depth) != Err("RecursionError")
    ensures RunWorkflow(workflows, w, e, depth + 1) == RunWorkflow(workflows, w, e, depth)
    decreases depth
  {
    match Decision(w, e)
    case Err(_) =>
    case Ok(target) =>
      if target != "A" && target != "R" && FindWorkflow(workflows, target).Some? {
        RunDeeper(workflows, FindWorkflow(workflows, target).value, e, depth - 1);
      }
  }

  /** `w` sends the part on, by name, to `next`. */
  predicate SendsTo(workflows: seq<Workflow>, e: Elements, w: Workflow, next: Workflow)
  {
    Decision(w, e).Ok? && Decision(w, e).value != "A" && Decision(w, e).value != "R"
    && FindWorkflow(workflows, Decision(w, e).value) == Some(next)
  }

  /** The part travels along `route`, from its first workflow to its last, which decides `final`. */
  predicate Route(workflows: seq<Workflow>, e: Elements, route: seq<Workflow>, final: string)
  {
    |route| >= 1 && Decision(route[|route| - 1], e) == Ok(final)
    && forall i :: 0 <= i < |route| - 1 ==> SendsTo(workflows, e, route[i], route[i + 1])
  }

  /** The result of ending in `A` or `R`. */
  function Outcome(final: string, e: Elements): Result<Option<Elements>>
  {
    if final == "A" then Ok(Some(e)) else Ok(None)
  }

  /** A route is a first step followed by a route from the next workflow. */
  lemma RouteCons(workflows: seq<Workflow>, e: Elements, route: seq<Workflow>, final: string)
    requires |route| >= 2
    ensures Route(workflows, e, route, final) <==> SendsTo(workflows, e, route[0], route[1]) && Route(workflows, e, route[1..], final)
  {
    assert forall i :: 1 <= i < |route| ==> route[1..][i - 1] == route[i];
  }

  /** A run that ends in `final` follows a route of at most `depth` + 1 workflows that ends there. */
  lemma {:induction false} RunHasRoute(workflows: seq<Workflow>, w: Workflow, e: Elements, depth: nat, final: string)
    requires final == "A" || final == "R"
    requires RunWorkflow(workflows, w, e, depth) == Outcome(final, e)
    ensures exists route :: Route(workflows, e, route, final) && |route| <= depth + 1 && route[0] == w
    decreases depth
  {
    var target := Decision(w, e).value;
    if target == "A" || target == "R" {
      assert Route(workflows, e, [w], final);
    } else {
      var next := FindWorkflow(workflows, target).value;
      RunHasRoute(workflows, next, e, depth - 1, final);
      var rest :| Route(workflows, e, rest, final) && |rest| <= depth && rest[0] == next;
      var route := [w] + rest;
      assert route[1..] == rest;
      RouteCons(workflows, e, route, final);
      assert Route(workflows, e, route, final) && |route| <= depth + 1 && route[0] == w;
    }
  }

  /** A route of at most `depth` + 1 workflows that ends in `final` is what the run gives. */
  lemma {:induction false} RouteRuns(workflows: seq<Workflow>, e: Elements, route: seq<Workflow>, depth: nat, final: string)
    requires final == "A" || final == "R"
    requires |route| <= depth + 1 && Route(workflows, e, route, final)
    ensures RunWorkflow(workflows, route[0], e, depth) == Outcome(final, e)
    decreases |route|
  {
    if |route| >= 2 {
      RouteCons(workflows, e, route, final);
      RouteRuns(workflows, e, route[1..], depth - 1, final);
    }
  }

  /**
   * A part is accepted (rejected) by a run from `w` exactly when a route of at most `depth` + 1
   * workflows leads from `w` to a workflow that accepts (rejects) it.
   */
  lemma RunIffRoute(workflows: seq<Workflow>, w: Workflow, e: Elements, depth: nat, final: string)
    requires final == "A" || final == "R"
    ensures RunWorkflow(workflows, w, e, depth) == Outcome(final, e) <==>
      exists route :: Route(workflows, e, route, final) && |route| <= depth + 1 && route[0] == w
  {
    if RunWorkflow(workflows, w, e, depth) == Outcome(final, e) {
      RunHasRoute(workflows, w, e, depth, final);
    }
    if exists route :: Route(workflows, e, route, final) && |route| <= depth + 1 && route[0] == w {
      var route :| Route(workflows, e, route, final) && |route| <= depth + 1 && route[0] == w;
      RouteRuns(workflows, e, route, depth, final);
    }
  }

  /** `ProblemSet`: the workflows and the parts. */
  datatype ProblemSet = ProblemSet(workflows: seq<Workflow>, elements: seq<Elements>)

  /** The parts a run from `w` accepts, in order, or the first error a run raises. */
  function AcceptedIn(workflows: seq<Workflow>, w: Workflow, es: seq<Elements>, depth: nat): Result<seq<Elements>>
  {
    if es == [] then Ok([])
    else match AcceptedIn(workflows, w, es[..|es| - 1], depth)
      case Err(err) => Err(err)
      case Ok(acc) =>
        match RunWorkflow(workflows, w, es[|es| - 1], depth)
        case Err(err) => Err(err)
        case Ok(None) => Ok(acc)
        case Ok(Some(p)) => Ok(acc + [p])
  }

  /** Whether a run from `w` accepts the part. */
  function AcceptedBy(workflows: seq<Workflow>, w: Workflow, depth: nat): Elements -> bool
  {
    e => RunWorkflow(workflows, w, e, depth) == Ok(Some(e))
  }

  /** The accepted parts are exactly those a run accepts, in their order, when no run raises. */
  lemma {:induction false} AcceptedInSpec(workflows: seq<Workflow>, w: Workflow, es: seq<Elements>, depth: nat)
    ensures AcceptedIn(workflows, w, es, depth).Ok? <==> forall k :: 0 <= k < |es| ==> RunWorkflow(workflows, w, es[k], depth).Ok?
    ensures AcceptedIn(workflows, w, es, depth).Ok? ==> AcceptedIn(workflows, w, es, depth).value == Lists.Filter(es, AcceptedBy(workflows, w, depth))
    decreases |es|
  {
    if es != [] {
      var init := es[..|es| - 1];
      AcceptedInSpec(workflows, w, init, depth);
      assert forall k :: 0 <= k < |init| ==> init[k] == es[k];
      assert es == init + [es[|es| - 1]];
      Lists.FilterAppend(init, [es[|es| - 1]], AcceptedBy(workflows, w, depth));
    }
  }

  /** `ProblemSet.__call__`: no parts accept nothing; otherwise the runs start at workflow `in`. */
  function AcceptedOf(ps: ProblemSet, depth: nat): Result<seq<Elements>>
  {
    if ps.elements == [] then Ok([])
    else match FindWorkflow(ps.workflows, "in")
      case None => Err("StopIteration")
      case Some(w) => AcceptedIn(ps.workflows, w, ps.elements, depth)
  }

  /** `ProblemSet.__call__`: the loop over the parts, looking up `in` for each. */
  method Accepted(ps: ProblemSet, depth: nat) returns (r: Result<seq<Elements>>)
    ensures r == AcceptedOf(ps, depth)
  {
    var accepted: seq<Elements> := [];
    for i := 0 to |ps.elements|
      invariant i > 0 ==> FindWorkflow(ps.workflows, "in").Some?
      invariant i == 0 ==> accepted == []
      invariant FindWorkflow(ps.workflows, "in").Some? ==>
        AcceptedIn(ps.workflows, FindWorkflow(ps.workflows, "in").value, ps.elements[..i], depth) == Ok(accepted)
    {
      var elems := ps.elements[i];
      var workflow := FindWorkflow(ps.workflows, "in");
      if workflow.None? {
        return Err("StopIteration");
      }
      assert ps.elements[..i + 1][..i] == ps.elements[..i];
      var result := RunWorkflow(ps.workflows, workflow.value, elems, depth);
      if result.Err? {
        assert ps.elements == ps.elements[..i + 1] + ps.elements[i + 1..];
        AcceptedPrefixErr(ps.workflows, workflow.value, ps.elements[..i + 1], ps.elements[i + 1..], depth);
        return Err(result.error);
      }
      if result.value.Some? {
        accepted := accepted + [result.value.value];
      }
    }
    assert ps.elements[..|ps.elements|] == ps.elements;
    if ps.elements != [] {
      var w := FindWorkflow(ps.workflows, "in").value;
      assert AcceptedIn(ps.workflows, w, ps.elements, depth) == Ok(accepted);
    }
    return Ok(accepted);
  }

  /** Once a run raises, the error stands whatever parts follow. */
  lemma {:induction false} AcceptedPrefixErr(workflows: seq<Workflow>, w: Workflow, a: seq<Elements>, b: seq<Elements>, depth: nat)
    requires AcceptedIn(workflows, w, a, depth).Err?
    ensures AcceptedIn(workflows, w, a + b, depth) == AcceptedIn(workflows, w, a, depth)
    decreases |b|
  {
    if b == [] {
      assert a + b == a;
    } else {
      var b' := b[..|b| - 1];
      AcceptedPrefixErr(workflows, w, a, b', depth);
      assert (a + b)[..|a + b| - 1] == a + b';
    }
  }

  // ---------------------------------------------------------------- reading the input

  /** The position of the first blank line; the number of lines when there is none. */
  function FirstBlank(lines: seq<string>): (k: nat)
    ensures k <= |lines|
    ensures forall j :: 0 <= j < k ==> lines[j] != ""
    ensures k < |lines| ==> lines[k] == ""
  {
    if lines == [] || lines[0] == "" then 0
    else
      var k := 1 + FirstBlank(lines[1..]);
      assert forall j :: 1 <= j < |lines| ==> lines[j] == lines[1..][j - 1];
      k
  }

  /**
   * The problem set a text denotes: the workflows on the lines before the first blank line and
   * the parts on the lines after it. A workflow that fails to read raises first; with no blank
   * line the loop runs off the lines and raises IndexError.
   */
  function ProblemSetOf(inputTxt: string): (r: Result<ProblemSet>)
    ensures r.Ok? ==> |r.value.workflows| == FirstBlank(SplitLines(inputTxt))
    ensures r.Ok? ==> |r.value.workflows| + 1 + |r.value.elements| == |SplitLines(inputTxt)|
  {
    ProblemSetOfLines(SplitLines(inputTxt))
  }

  /** The problem set the lines of an input denote. */
  function ProblemSetOfLines(lines: seq<string>): (r: Result<ProblemSet>)
    ensures r.Ok? ==> |r.value.workflows| == FirstBlank(lines)
    ensures r.Ok? ==> |r.value.workflows| + 1 + |r.value.elements| == |lines|
  {
    var k := FirstBlank(lines);
    match MapAll(lines[..k], ReadWorkflow)
    case Err(err) => Err(err)
    case Ok(ws) =>
      if k == |lines| then Err("IndexError")
      else match MapAll(lines[k + 1..], ElementsOf)
        case Err(err) => Err(err)
        case Ok(es) => Ok(ProblemSet(ws, es))
  }

  /** The workflow loop of `readProblemSet`: reads lines up to the first blank one and stops at the first error. */
  method ReadWorkflowLines(lines: seq<string>) returns (r: Result<seq<Workflow>>, k: nat)
    ensures k == FirstBlank(lines)
    ensures r == MapAll(lines[..k], ReadWorkflow)
  {
    var workflows: seq<Workflow> := [];
    k := 0;
    while k < |lines| && lines[k] != ""
      invariant k <= FirstBlank(lines)
      invariant MapAll(lines[..k], ReadWorkflow) == Ok(workflows)
    {
      FirstBlankStep(lines, k);
      var workflow := ReadWorkflow(lines[k]);
      if workflow.Err? {
        WorkflowLinesErr(lines, k, workflows);
        k := FirstBlank(lines);
        return Err(workflow.error), k;
      }
      MapAllStep(lines, k, ReadWorkflow, workflows);
      workflows := workflows + [workflow.value];
      k := k + 1;
    }
    return Ok(workflows), k;
  }

  /** A line up to the first blank one that is not blank lies before it. */
  lemma FirstBlankStep(lines: seq<string>, k: nat)
    requires k <= FirstBlank(lines) && k < |lines| && lines[k] != ""
    ensures k < FirstBlank(lines)
  {
  }

  /** An error on a line before the first blank one is the error of the whole workflow block. */
  lemma WorkflowLinesErr(lines: seq<string>, k: nat, acc: seq<Workflow>)
    requires k < FirstBlank(lines) && ReadWorkflow(lines[k]).Err?
    requires MapAll(lines[..k], ReadWorkflow) == Ok(acc)
    ensures MapAll(lines[..FirstBlank(lines)], ReadWorkflow) == Err(ReadWorkflow(lines[k]).error)
  {
    var block := lines[..FirstBlank(lines)];
    assert block[..k] == lines[..k] && block[k] == lines[k];
    MapAllStep(block, k, ReadWorkflow, acc);
  }

  /** The part loop of `readProblemSet`: reads every line after the blank one, stopping at the first error. */
  method ReadPartLines(rest: seq<string>) returns (r: Result<seq<Elements>>)
    ensures r == MapAll(rest, ElementsOf)
  {
    var elements: seq<Elements> := [];
    for j := 0 to |rest|
      invariant MapAll(rest[..j], ElementsOf) == Ok(elements)
    {
      var elems := ReadElements(rest[j]);
      MapAllStep(rest, j, ElementsOf, elements);
      if elems.Err? {
        return Err(elems.error);
      }
      elements := elements + [elems.value];
    }
    MapAllDone(rest, ElementsOf, elements);
    return Ok(elements);
  }

  /** `readProblemSet`: the workflows up to the blank line, then the parts after it. */
  method ReadProblemSet(inputTxt: string) returns (r: Result<ProblemSet>)
    ensures r == ProblemSetOf(inputTxt)
  {
    var lines := SplitLines(inputTxt);
    var workflows, k := ReadWorkflowLines(lines);
    if workflows.Err? {
      return Err(workflows.error);
    }
    if k == |lines| {
      return Err("IndexError");
    }
    var elements := ReadPartLines(lines[k + 1..]);
    if elements.Err? {
      return Err(elements.error);
    }
    return Ok(ProblemSet(workflows.value, elements.value));
  }

  // ---------------------------------------------------------------- the workflow tree

  /** What a tree node stands for: a workflow, or the terminal `A` or `R`. */
  datatype NodeKind = Flow(workflow: Workflow) | Terminal(target: string)

  /** `WorkflowNode`: the children in rule order; the parent links are left to the tree structure. */
  datatype WorkflowNode = WorkflowNode(kind: NodeKind, children: seq<WorkflowNode>)

  /** The leaves of a node: itself when it is terminal, else those of its children in order. */
  function Leaves(n: WorkflowNode): seq<WorkflowNode>
    decreases n, |n.children| + 1
  {
    if n.kind.Terminal? then [n] else LeavesUpTo(n, |n.children|)
  }

  /** The leaves of the first `k` children of `n`. */
  function LeavesUpTo(n: WorkflowNode, k: nat): seq<WorkflowNode>
    requires k <= |n.children|
    decreases n, k
  {
    if k == 0 then [] else LeavesUpTo(n, k - 1) + Leaves(n.children[k - 1])
  }

  /** `WorkflowNode.getLeaves`. */
  method GetLeaves(node: WorkflowNode) returns (leaves: seq<WorkflowNode>)
    ensures leaves == Leaves(node)
    decreases node, |node.children| + 1
  {
    if node.kind.Terminal? {
      return [node];
    }
    leaves := [];
    for i := 0 to |node.children|
      invariant leaves == LeavesUpTo(node, i)
    {
      var more := GetLeaves(node.children[i]);
      leaves := leaves + more;
    }
  }

  /** Every leaf is a terminal node. */
  lemma {:induction false} LeavesTerminal(n: WorkflowNode)
    ensures forall l :: l in Leaves(n) ==> l.kind.Terminal?
    decreases n, |n.children| + 1
  {
    if !n.kind.Terminal? {
      LeavesUpToTerminal(n, |n.children|);
    }
  }

  lemma {:induction false} LeavesUpToTerminal(n: WorkflowNode, k: nat)
    requires k <= |n.children|
    ensures forall l :: l in LeavesUpTo(n, k) ==> l.kind.Terminal?
    decreases n, k
  {
    if k > 0 {
      LeavesUpToTerminal(n, k - 1);
      LeavesTerminal(n.children[k - 1]);
    }
  }

  /** Each path of a list, with `n` put in front. */
  function Prefixed(n: WorkflowNode, ps: seq<seq<WorkflowNode>>): (r: seq<seq<WorkflowNode>>)
    ensures |r| == |ps| && forall i :: 0 <= i < |ps| ==> r[i] == [n] + ps[i]
  {
    seq(|ps|, i requires 0 <= i < |ps| => [n] + ps[i])
  }

  /** `WorkflowNode.getPaths`: for each leaf in order, the nodes from `n` down to it. */
  function Paths(n: WorkflowNode): seq<seq<WorkflowNode>>
    decreases n, |n.children| + 1
  {
    if n.kind.Terminal? then [[n]] else PathsUpTo(n, |n.children|)
  }

  /** The paths from `n` through its first `k` children. */
  function PathsUpTo(n: WorkflowNode, k: nat): seq<seq<WorkflowNode>>
    requires k <= |n.children|
    decreases n, k
  {
    if k == 0 then [] else PathsUpTo(n, k - 1) + Prefixed(n, Paths(n.children[k - 1]))
  }

  /** `p` runs from `top` down through children to `bottom`. */
  predicate Descends(p: seq<WorkflowNode>, top: WorkflowNode, bottom: WorkflowNode)
  {
    |p| >= 1 && p[0] == top && p[|p| - 1] == bottom
    && forall i :: 0 <= i < |p| - 1 ==> p[i + 1] in p[i].children
  }

  /** Putting a parent in front of a path that starts at one of its children. */
  lemma PrefixDescends(n: WorkflowNode, p: seq<WorkflowNode>, c: WorkflowNode, bottom: WorkflowNode)
    requires c in n.children && Descends(p, c, bottom)
    ensures Descends([n] + p, n, bottom)
  {
    var q := [n] + p;
    forall i | 0 <= i < |q| - 1
      ensures q[i + 1] in q[i].children
    {
      if i > 0 {
        assert q[i] == p[i - 1] && q[i + 1] == p[i];
      }
    }
  }

  /** There is one path per leaf, and the path of each leaf descends from the node to that leaf. */
  lemma {:induction false} PathsSpec(n: WorkflowNode)
    ensures |Paths(n)| == |Leaves(n)|
    ensures forall k :: 0 <= k < |Paths(n)| ==> Descends(Paths(n)[k], n, Leaves(n)[k])
    decreases n, |n.children| + 1
  {
    if !n.kind.Terminal? {
      PathsUpToSpec(n, |n.children|);
    }
  }

  lemma {:induction false} PathsUpToSpec(n: WorkflowNode, k: nat)
    requires k <= |n.children|
    ensures |PathsUpTo(n, k)| == |LeavesUpTo(n, k)|
    ensures forall j :: 0 <= j < |PathsUpTo(n, k)| ==> Descends(PathsUpTo(n, k)[j], n, LeavesUpTo(n, k)[j])
    decreases n, k
  {
    if k > 0 {
      PathsUpToSpec(n, k - 1);
      var c := n.children[k - 1];
      PathsSpec(c);
      var a, b := PathsUpTo(n, k - 1), Prefixed(n, Paths(c));
      var la, lb := LeavesUpTo(n, k - 1), Leaves(c);
      forall j | 0 <= j < |a + b|
        ensures Descends((a + b)[j], n, (la + lb)[j])
      {
        if j >= |a| {
          var i := j - |a|;
          PrefixDescends(n, Paths(c)[i], c, lb[i]);
        }
      }
    }
  }

  /** The name a node stands for: its workflow's name, or the terminal itself. */
  function NodeName(n: WorkflowNode): string
  {
    match n.kind
    case Flow(w) => w.name
    case Terminal(t) => t
  }

  /**
   * `buildWorkflowNode` for one rule target: a leaf for `A` and `R`, else the subtree of the
   * first workflow of that name (StopIteration when there is none). Python's recursion limit
   * is the bound `depth`.
   */
  function BuildChild(workflows: seq<Workflow>, target: string, depth: nat): Result<WorkflowNode>
    decreases depth, 0
  {
    if target == "A" || target == "R" then Ok(WorkflowNode(Terminal(target), []))
    else match FindWorkflow(workflows, target)
      case None => Err("StopIteration")
      case Some(child) => if depth == 0 then Err("RecursionError") else BuildNode(workflows, child, depth - 1)
  }

  /** The children for a list of rules, in order, or the first error. */
  function BuildChildren(workflows: seq<Workflow>, rules: seq<Rule>, depth: nat): Result<seq<WorkflowNode>>
    decreases depth, |rules| + 1
  {
    if rules == [] then Ok([])
    else match BuildChildren(workflows, rules[..|rules| - 1], depth)
      case Err(err) => Err(err)
      case Ok(cs) =>
        match BuildChild(workflows, rules[|rules| - 1].target, depth)
        case Err(err) => Err(err)
        case Ok(c) => Ok(cs + [c])
  }

  /** `buildWorkflowNode`: a node for the workflow with one child per rule. */
  function BuildNode(workflows: seq<Workflow>, w: Workflow, depth: nat): Result<WorkflowNode>
    decreases depth, |w.rules| + 2
  {
    match BuildChildren(workflows, w.rules, depth)
    case Err(err) => Err(err)
    case Ok(cs) => Ok(WorkflowNode(Flow(w), cs))
  }

  /** `buildWorkflowTree`: the tree from workflow `in`. */
  function BuildWorkflowTree(workflows: seq<Workflow>, depth: nat): Result<WorkflowNode>
  {
    match FindWorkflow(workflows, "in")
    case None => Err("StopIteration")
    case Some(root) => BuildNode(workflows, root, depth)
  }

  /** A built tree is made of workflows with one child per rule, named as the rule's target, ending in `A` and `R` leaves. */
  predicate WellBuilt(n: WorkflowNode)
    decreases n, |n.children| + 1
  {
    match n.kind
    case Terminal(t) => (t == "A" || t == "R") && n.children == []
    case Flow(w) => |n.children| == |w.rules| && ChildrenWellBuilt(n, |n.children|)
  }

  predicate ChildrenWellBuilt(n: WorkflowNode, k: nat)
    requires n.kind.Flow? && k <= |n.children| && |n.children| == |n.kind.workflow.rules|
    decreases n, k
  {
    k == 0 || (ChildrenWellBuilt(n, k - 1) && NodeName(n.children[k - 1]) == n.kind.workflow.rules[k - 1].target && WellBuilt(n.children[k - 1]))
  }

  /** Building succeeds with a well-built tree. */
  lemma {:induction false} BuildChildWellBuilt(workflows: seq<Workflow>, target: string, depth: nat)
    requires BuildChild(workflows, target, depth).Ok?
    ensures NodeName(BuildChild(workflows, target, depth).value) == target
    ensures WellBuilt(BuildChild(workflows, target, depth).value)
    decreases depth, 0
  {
    if target != "A" && target != "R" {
      BuildNodeWellBuilt(workflows, FindWorkflow(workflows, target).value, depth - 1);
    }
  }

  lemma {:induction false} BuildChildrenWellBuilt(workflows: seq<Workflow>, w: Workflow, k: nat, depth: nat)
    requires k <= |w.rules| && BuildChildren(workflows, w.rules[..k], depth).Ok?
    ensures var cs := BuildChildren(workflows, w.rules[..k], depth).value;
      |cs| == k && forall j :: 0 <= j < k ==> NodeName(cs[j]) == w.rules[j].target && WellBuilt(cs[j])
    decreases depth, k + 1
  {
    if k > 0 {
      assert w.rules[..k][..k - 1] == w.rules[..k - 1];
      BuildChildrenWellBuilt(workflows, w, k - 1, depth);
      BuildChildWellBuilt(workflows, w.rules[k - 1].target, depth);
    }
  }

  lemma {:induction false} BuildNodeWellBuilt(workflows: seq<Workflow>, w: Workflow, depth: nat)
    requires BuildNode(workflows, w, depth).Ok?
    ensures BuildNode(workflows, w, depth).value.kind == Flow(w)
    ensures WellBuilt(BuildNode(workflows, w, depth).value)
    decreases depth, |w.rules| + 2
  {
    assert w.rules[..|w.rules|] == w.rules;
    BuildChildrenWellBuilt(workflows, w, |w.rules|, depth);
    var n := BuildNode(workflows, w, depth).value;
    ChildrenWellBuiltAll(n, |n.children|);
  }

  /** Children that are each well built and named by their rules make the prefixes well built. */
  lemma {:induction false} ChildrenWellBuiltAll(n: WorkflowNode, k: nat)
    requires n.kind.Flow? && k <= |n.children| && |n.children| == |n.kind.workflow.rules|
    requires forall j :: 0 <= j < |n.children| ==> NodeName(n.children[j]) == n.kind.workflow.rules[j].target && WellBuilt(n.children[j])
    ensures ChildrenWellBuilt(n, k)
    decreases k
  {
    if k > 0 {
      ChildrenWellBuiltAll(n, k - 1);
    }
  }

  /** Every leaf of a well-built tree is `A` or `R`. */
  lemma {:induction false} WellBuiltLeaves(n: WorkflowNode)
    requires WellBuilt(n)
    ensures forall l :: l in Leaves(n) ==> l.kind == Terminal("A") || l.kind == Terminal("R")
    decreases n, |n.children| + 1
  {
    if n.kind.Flow? {
      WellBuiltLeavesUpTo(n, |n.children|);
    }
  }

  lemma {:induction false} WellBuiltLeavesUpTo(n: WorkflowNode, k: nat)
    requires n.kind.Flow? && k <= |n.children| && |n.children| == |n.kind.workflow.rules| && ChildrenWellBuilt(n, k)
    ensures forall l :: l in LeavesUpTo(n, k) ==> l.kind == Terminal("A") || l.kind == Terminal("R")
    decreases n, k
  {
    if k > 0 {
      WellBuiltLeavesUpTo(n, k - 1);
      WellBuiltLeaves(n.children[k - 1]);
    }
  }

  /**
   * `buildWorkflowTree`: without an `in` workflow it raises StopIteration; a tree it builds is
   * rooted at `in`, has one child per rule named by the rule's target, and ends in `A` and `R`.
   */
  lemma BuildWorkflowTreeSpec(workflows: seq<Workflow>, depth: nat)
    ensures FindWorkflow(workflows, "in").None? ==> BuildWorkflowTree(workflows, depth) == Err("StopIteration")
    ensures BuildWorkflowTree(workflows, depth).Ok? ==>
      var t := BuildWorkflowTree(workflows, depth).value;
      t.kind == Flow(FindWorkflow(workflows, "in").value) && WellBuilt(t)
      && forall l :: l in Leaves(t) ==> l.kind == Terminal("A") || l.kind == Terminal("R")
  {
    if BuildWorkflowTree(workflows, depth).Ok? {
      var root := FindWorkflow(workflows, "in").value;
      BuildNodeWellBuilt(workflows, root, depth);
      WellBuiltLeaves(BuildNode(workflows, root, depth).value);
    }
  }
}
