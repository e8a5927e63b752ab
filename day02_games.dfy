/**
 * Day 2: games of coloured cubes drawn from a bag (02/solution.py). A game line lists draws such as
 * "3 blue, 7 green; 4 red"; a game is possible when no draw shows more than 12 red, 13 green or 14 blue cubes.
 */
module Day02Games {
  import opened Wrappers
  import opened Strings
  import Lists

  /** The bag of the first puzzle question. */
  const MaxRed: int := 12
  const MaxGreen: int := 13
  const MaxBlue: int := 14

  datatype Color = Red | Green | Blue

  /** A parsed game: the counts of each colour in the order they appear on the line, and the game's number. */
  datatype Game = Game(reds: seq<int>, greens: seq<int>, blues: seq<int>, idx: int)

  type Draw = (Color, int)

  // ---------------------------------------------------------------- parsing

  /** The colour names as they appear in the text. */
  function ColorName(c: Color): string
  {
    match c
    case Red => "red"
    case Green => "green"
    case Blue => "blue"
  }

  /** `getColor`: the colour with that name; any other word raises. */
  function GetColor(s: string): (r: Result<Color>)
    ensures r.Ok? ==> ColorName(r.value) == s
  {
    if s == "red" then Ok(Red)
    else if s == "green" then Ok(Green)
    else if s == "blue" then Ok(Blue)
    else Err("Invalid color")
  }

  /** Every colour name is read back as that colour. */
  lemma GetColorName(c: Color)
    ensures GetColor(ColorName(c)) == Ok(c)
  {
  }

  /**
   * One entry "3 blue" of the list (blanks around it stripped): exactly two words split at single spaces,
   * else the unpacking raises; the colour is looked up before the count is converted.
   */
  function ReadDraw(c: string): Result<Draw>
  {
    var words := SplitOn(Strip(c), ' ');
    if |words| != 2 then Err("ValueError")
    else
      match GetColor(words[1])
      case Err(e) => Err(e)
      case Ok(color) =>
        match ParseInt(words[0])
        case None => Err("ValueError")
        case Some(n) => Ok((color, n))
  }

  /** The loop over the entries: the first one that raises makes `readGame` raise. */
  function ReadDraws(cs: seq<string>): Result<seq<Draw>>
  {
    MapAll(cs, ReadDraw)
  }

  /** The counts of one colour, in the order of the draws: `[n for c, n in colorPairs if c == color]`. */
  function Select(draws: seq<Draw>, color: Color): seq<int>
  {
    if draws == [] then []
    else (if draws[0].0 == color then [draws[0].1] else []) + Select(draws[1..], color)
  }

  /** Every selected count comes from a draw of that colour, and every such draw is selected. */
  lemma {:induction false} SelectSpec(draws: seq<Draw>, color: Color)
    ensures |Select(draws, color)| <= |draws|
    ensures forall k :: 0 <= k < |Select(draws, color)| ==> (color, Select(draws, color)[k]) in draws
    ensures forall d :: d in draws && d.0 == color ==> d.1 in Select(draws, color)
  {
    if draws != [] {
      SelectSpec(draws[1..], color);
      var head: seq<int> := if draws[0].0 == color then [draws[0].1] else [];
      var ns := Select(draws, color);
      assert ns == head + Select(draws[1..], color);
      forall k | 0 <= k < |ns| ensures (color, ns[k]) in draws {
        if k >= |head| {
          assert ns[k] == Select(draws[1..], color)[k - |head|];
          assert (color, ns[k]) in draws[1..];
        }
      }
      forall d | d in draws && d.0 == color ensures d.1 in ns {
        if d != draws[0] {
          assert d in draws[1..];
        }
      }
    }
  }

  /**
   * `readGame`: the line splits at its single ':' into header and list; the header's second word is the
   * game number; every ';' counts as ',' and each entry is read as a draw.
   */
  function ReadGame(line: string): Result<Game>
  {
    var parts := SplitOn(line, ':');
    if |parts| != 2 then Err("ValueError")
    else
      var header := SplitOn(parts[0], ' ');
      if |header| < 2 then Err("IndexError")
      else
        match ParseInt(header[1])
        case None => Err("ValueError")
        case Some(idx) =>
          var colors := SplitOn(ReplaceChar(parts[1], ';', ','), ',');
          match ReadDraws(colors)
          case Err(e) => Err(e)
          case Ok(draws) => Ok(Game(Select(draws, Red), Select(draws, Green), Select(draws, Blue), idx))
  }

  // ---------------------------------------------------------------- what the parser reads back

  /** A draw as the puzzle writes it: "3 blue". */
  function RenderDraw(d: Draw): string
    requires d.1 >= 0
  {
    NatToString(d.1) + " " + ColorName(d.0)
  }

  /** The counts of a list of rounds are all natural. */
  predicate Counted(rounds: seq<seq<Draw>>)
  {
    forall r, k :: 0 <= r < |rounds| && 0 <= k < |rounds[r]| ==> rounds[r][k].1 >= 0
  }

  /**
   * A game line as the puzzle writes it: "Game 7: 3 blue, 4 red; 1 red", the draws of a round
   * separated by ",", the rounds by ";", each entry after one blank.
   */
  function RenderGame(idx: nat, rounds: seq<seq<Draw>>): string
    requires Counted(rounds)
  {
    "Game " + NatToString(idx) + ":" + Join(RenderedRounds(rounds), ";")
  }

  /** Each round as its entries separated by ",". */
  function RenderedRounds(rounds: seq<seq<Draw>>): (rs: seq<string>)
    requires Counted(rounds)
  {
    seq(|rounds|, r requires 0 <= r < |rounds| => Join(RenderedDraws(rounds[r]), ","))
  }

  function RenderedDraws(draws: seq<Draw>): (ps: seq<string>)
    requires forall k :: 0 <= k < |draws| ==> draws[k].1 >= 0
    ensures |ps| == |draws|
    ensures forall k :: 0 <= k < |draws| ==> ps[k] == " " + RenderDraw(draws[k])
  {
    seq(|draws|, k requires 0 <= k < |draws| => " " + RenderDraw(draws[k]))
  }

  lemma ColorNameLetters(c: Color)
    ensures |ColorName(c)| > 0
    ensures forall i :: 0 <= i < |ColorName(c)| ==> IsAlpha(ColorName(c)[i])
  {
  }

  /** The characters of a rendered draw: digits, one space, letters. */
  lemma RenderDrawChars(d: Draw)
    requires d.1 >= 0
    ensures var s := RenderDraw(d);
      |s| > 0 && !IsSpace(s[0]) && !IsSpace(s[|s| - 1]) &&
      forall i :: 0 <= i < |s| ==> IsDigit(s[i]) || IsAlpha(s[i]) || s[i] == ' '
  {
    ColorNameLetters(d.0);
    var s := RenderDraw(d);
    var n := NatToString(d.1);
    forall i | 0 <= i < |s| ensures IsDigit(s[i]) || IsAlpha(s[i]) || s[i] == ' ' {
      if i < |n| {
        assert s[i] == n[i];
      } else if i > |n| {
        assert s[i] == ColorName(d.0)[i - |n| - 1];
      }
    }
  }

  /** One rendered entry, with the blank the ', ' separator leaves before it, is read back as that draw. */
  lemma ReadDrawRender(d: Draw)
    requires d.1 >= 0
    ensures ReadDraw(" " + RenderDraw(d)) == Ok(d)
  {
    DrawWords(d);
    GetColorName(d.0);
    NatToStringRoundTrip(d.1);
    ReadDrawOf(" " + RenderDraw(d), NatToString(d.1), ColorName(d.0), d);
  }

  /** `readDraw` in terms of its steps: two words, a colour name, a count. */
  lemma ReadDrawOf(c: string, num: string, name: string, d: Draw)
    requires SplitOn(Strip(c), ' ') == [num, name]
    requires GetColor(name) == Ok(d.0) && ParseInt(num) == Some(d.1)
    ensures ReadDraw(c) == Ok(d)
  {
  }

  /** The stripped entry splits into the count and the colour name. */
  lemma DrawWords(d: Draw)
    requires d.1 >= 0
    ensures SplitOn(Strip(" " + RenderDraw(d)), ' ') == [NatToString(d.1), ColorName(d.0)]
  {
    var s := RenderDraw(d);
    RenderDrawChars(d);
    StripPadded(s);
    var n := NatToString(d.1);
    ColorNameLetters(d.0);
    SplitOnJoin([n, ColorName(d.0)], ' ');
    assert Join([n, ColorName(d.0)], " ") == s;
  }

  lemma {:induction false} ReadDrawsRender(draws: seq<Draw>)
    requires forall k :: 0 <= k < |draws| ==> draws[k].1 >= 0
    ensures ReadDraws(RenderedDraws(draws)) == Ok(draws)
  {
    var ps := RenderedDraws(draws);
    forall k | 0 <= k < |draws| ensures ReadDraw(ps[k]) == Ok(draws[k]) {
      ReadDrawRender(draws[k]);
    }
    var r := ReadDraws(ps);
    assert r.value == draws;
  }

  /** The characters of the rendered list: no ':' and no ';', and ',' only between entries. */
  lemma RenderedDrawsChars(draws: seq<Draw>)
    requires forall k :: 0 <= k < |draws| ==> draws[k].1 >= 0
    ensures var ps := RenderedDraws(draws);
      forall k, i :: 0 <= k < |ps| && 0 <= i < |ps[k]| ==> IsDigit(ps[k][i]) || IsAlpha(ps[k][i]) || ps[k][i] == ' '
  {
    var ps := RenderedDraws(draws);
    forall k, i | 0 <= k < |ps| && 0 <= i < |ps[k]| ensures IsDigit(ps[k][i]) || IsAlpha(ps[k][i]) || ps[k][i] == ' ' {
      RenderDrawChars(draws[k]);
      if i > 0 {
        assert ps[k][i] == RenderDraw(draws[k])[i - 1];
      }
    }
  }

  /**
   * `readGame` reads a written game back: its number, and the counts of each colour in the order
   * they are written, across the rounds.
   */
  lemma ReadGameRender(idx: nat, rounds: seq<seq<Draw>>)
    requires |rounds| > 0 && (forall r :: 0 <= r < |rounds| ==> |rounds[r]| > 0) && Counted(rounds)
    ensures var draws := Lists.Flatten(rounds);
      ReadGame(RenderGame(idx, rounds)) == Ok(Game(Select(draws, Red), Select(draws, Green), Select(draws, Blue), idx))
  {
    var body := Join(RenderedRounds(rounds), ";");
    var header := "Game " + NatToString(idx);
    BodyChars(rounds, body);
    GameLineParts(idx, body);
    HeaderNumber(idx);
    BodyDraws(rounds, body);
    ReadGameOf(RenderGame(idx, rounds), header, body, idx, Lists.Flatten(rounds));
  }

  /** `readGame` in terms of its three steps: the split at ':', the header's number and the list's draws. */
  lemma ReadGameOf(line: string, header: string, body: string, idx: int, draws: seq<Draw>)
    requires SplitOn(line, ':') == [header, body]
    requires |SplitOn(header, ' ')| >= 2 && ParseInt(SplitOn(header, ' ')[1]) == Some(idx)
    requires ReadDraws(SplitOn(ReplaceChar(body, ';', ','), ',')) == Ok(draws)
    ensures ReadGame(line) == Ok(Game(Select(draws, Red), Select(draws, Green), Select(draws, Blue), idx))
  {
  }

  /** A rendered round has no ':' and no ';'. */
  lemma RoundChars(round: seq<Draw>)
    requires forall k :: 0 <= k < |round| ==> round[k].1 >= 0
    ensures var s := Join(RenderedDraws(round), ",");
      forall i :: 0 <= i < |s| ==> s[i] != ':' && s[i] != ';'
  {
    var ps := RenderedDraws(round);
    RenderedDrawsChars(round);
    JoinChars(ps, ",", ':');
    JoinChars(ps, ",", ';');
  }

  /** The rendered rounds, joined by ";", have no ':'. */
  lemma BodyChars(rounds: seq<seq<Draw>>, body: string)
    requires Counted(rounds)
    requires body == Join(RenderedRounds(rounds), ";")
    ensures forall i :: 0 <= i < |body| ==> body[i] != ':'
  {
    var rs := RenderedRounds(rounds);
    forall r | 0 <= r < |rs| ensures forall i :: 0 <= i < |rs[r]| ==> rs[r][i] != ':' && rs[r][i] != ';' {
      assert rs[r] == Join(RenderedDraws(rounds[r]), ",");
      RoundChars(rounds[r]);
    }
    JoinChars(rs, ";", ':');
  }

  /** The line splits at its one ':' into the header and the list. */
  lemma GameLineParts(idx: nat, body: string)
    requires forall i :: 0 <= i < |body| ==> body[i] != ':'
    ensures SplitOn("Game " + NatToString(idx) + ":" + body, ':') == ["Game " + NatToString(idx), body]
  {
    var num := NatToString(idx);
    var header := "Game " + num;
    forall i | 0 <= i < |header| ensures header[i] != ':' {
      if i >= 5 {
        assert header[i] == num[i - 5];
      }
    }
    SplitOnJoin([header, body], ':');
    assert Join([header, body], ":") == header + ":" + body;
  }

  /** The header's second word is the game number. */
  lemma HeaderNumber(idx: nat)
    ensures var h := SplitOn("Game " + NatToString(idx), ' ');
      |h| >= 2 && ParseInt(h[1]) == Some(idx)
  {
    var num := NatToString(idx);
    SplitOnJoin(["Game", num], ' ');
    assert Join(["Game", num], " ") == "Game " + num;
    NatToStringRoundTrip(idx);
  }

  /** The entries of all rounds, in order, are the entries of all draws. */
  lemma {:induction false} RenderedFlatten(rounds: seq<seq<Draw>>)
    requires Counted(rounds)
    requires forall k :: 0 <= k < |Lists.Flatten(rounds)| ==> Lists.Flatten(rounds)[k].1 >= 0
    ensures Lists.Flatten(seq(|rounds|, r requires 0 <= r < |rounds| => RenderedDraws(rounds[r])))
         == RenderedDraws(Lists.Flatten(rounds))
    decreases |rounds|
  {
    var groups := seq(|rounds|, r requires 0 <= r < |rounds| => RenderedDraws(rounds[r]));
    if rounds != [] {
      var rest := rounds[1..];
      FlattenCounted(rounds);
      RenderedFlatten(rest);
      assert groups[1..] == seq(|rest|, r requires 0 <= r < |rest| => RenderedDraws(rest[r]));
      FlattenCounted(rounds);
      RenderedAppend(rounds[0], Lists.Flatten(rest));
    }
  }

  lemma FlattenCounted(rounds: seq<seq<Draw>>)
    requires Counted(rounds) && rounds != []
    ensures forall k :: 0 <= k < |rounds[0]| ==> rounds[0][k].1 >= 0
    ensures Counted(rounds[1..])
    ensures forall k :: 0 <= k < |Lists.Flatten(rounds[1..])| ==> Lists.Flatten(rounds[1..])[k].1 >= 0
    ensures forall k :: 0 <= k < |Lists.Flatten(rounds)| ==> Lists.Flatten(rounds)[k].1 >= 0
  {
    var rest := rounds[1..];
    assert Counted(rest) by {
      forall r, k | 0 <= r < |rest| && 0 <= k < |rest[r]| ensures rest[r][k].1 >= 0 {
        assert rest[r] == rounds[r + 1];
      }
    }
    FlattenNatural(rounds);
    FlattenNatural(rest);
  }

  /** The draws of all rounds have natural counts when those of every round do. */
  lemma {:induction false} FlattenNatural(rounds: seq<seq<Draw>>)
    requires Counted(rounds)
    ensures forall k :: 0 <= k < |Lists.Flatten(rounds)| ==> Lists.Flatten(rounds)[k].1 >= 0
    decreases |rounds|
  {
    if rounds != [] {
      var rest := rounds[1..];
      assert Counted(rest) by {
        forall r, k | 0 <= r < |rest| && 0 <= k < |rest[r]| ensures rest[r][k].1 >= 0 {
          assert rest[r] == rounds[r + 1];
        }
      }
      FlattenNatural(rest);
      var f := Lists.Flatten(rounds);
      assert f == rounds[0] + Lists.Flatten(rest);
      forall k | 0 <= k < |f| ensures f[k].1 >= 0 {
        if k >= |rounds[0]| {
          assert f[k] == Lists.Flatten(rest)[k - |rounds[0]|];
        }
      }
    }
  }

  lemma RenderedAppend(a: seq<Draw>, b: seq<Draw>)
    requires forall k :: 0 <= k < |a| ==> a[k].1 >= 0
    requires forall k :: 0 <= k < |b| ==> b[k].1 >= 0
    ensures RenderedDraws(a + b) == RenderedDraws(a) + RenderedDraws(b)
  {
  }

  /**
   * The list, once every ';' is a ',', is the entries of all rounds joined by ",", and they read
   * back as the draws of all rounds, in order.
   */
  lemma BodyDraws(rounds: seq<seq<Draw>>, body: string)
    requires |rounds| > 0 && (forall r :: 0 <= r < |rounds| ==> |rounds[r]| > 0) && Counted(rounds)
    requires body == Join(RenderedRounds(rounds), ";")
    ensures ReadDraws(SplitOn(ReplaceChar(body, ';', ','), ',')) == Ok(Lists.Flatten(rounds))
  {
    var rs := RenderedRounds(rounds);
    var groups := seq(|rounds|, r requires 0 <= r < |rounds| => RenderedDraws(rounds[r]));
    forall r | 0 <= r < |rs| ensures forall i :: 0 <= i < |rs[r]| ==> rs[r][i] != ';' {
      assert rs[r] == Join(RenderedDraws(rounds[r]), ",");
      RoundChars(rounds[r]);
    }
    JoinReplace(rs, ';', ',');
    assert rs == seq(|groups|, r requires 0 <= r < |groups| => Join(groups[r], ","));
    JoinNested(groups, ",");
    FlattenCounted(rounds);
    RenderedFlatten(rounds);
    var draws := Lists.Flatten(rounds);
    var ps := RenderedDraws(draws);
    assert ReplaceChar(body, ';', ',') == Join(ps, ",");
    RenderedDrawsChars(draws);
    FlattenLength(groups);
    SplitOnJoin(ps, ',');
    ReadDrawsRender(draws);
  }

  // ---------------------------------------------------------------- the questions

  /** The draws above a bound: `list(filter(lambda x: x > bound, counts))`. */
  function Above(counts: seq<int>, bound: int): (r: seq<int>)
    ensures forall x :: x in r <==> x in counts && x > bound
  {
    if counts == [] then []
    else (if counts[0] > bound then [counts[0]] else []) + Above(counts[1..], bound)
  }

  /** `isPossible`: no draw of any colour exceeds the bag. */
  predicate IsPossible(game: Game)
  {
    |Above(game.reds, MaxRed)| == 0 && |Above(game.greens, MaxGreen)| == 0 && |Above(game.blues, MaxBlue)| == 0
  }

  /** Every draw of the game fits in a bag of `r` red, `g` green and `b` blue cubes. */
  predicate Fits(game: Game, r: int, g: int, b: int)
  {
    (forall k :: 0 <= k < |game.reds| ==> game.reds[k] <= r) &&
    (forall k :: 0 <= k < |game.greens| ==> game.greens[k] <= g) &&
    (forall k :: 0 <= k < |game.blues| ==> game.blues[k] <= b)
  }

  /** The filters are empty exactly when the game fits the bag of 12 red, 13 green and 14 blue cubes. */
  lemma IsPossibleFits(game: Game)
    ensures IsPossible(game) <==> Fits(game, MaxRed, MaxGreen, MaxBlue)
  {
    AboveEmpty(game.reds, MaxRed);
    AboveEmpty(game.greens, MaxGreen);
    AboveEmpty(game.blues, MaxBlue);
  }

  lemma AboveEmpty(counts: seq<int>, bound: int)
    ensures |Above(counts, bound)| == 0 <==> forall k :: 0 <= k < |counts| ==> counts[k] <= bound
  {
    var r := Above(counts, bound);
    if |r| != 0 {
      assert r[0] in r;
    } else {
      forall k | 0 <= k < |counts| ensures counts[k] <= bound {
        assert counts[k] in counts;
      }
    }
  }

  /** `possibleIndices`: the numbers of the possible games, in order. */
  function PossibleIndices(games: seq<Game>): (r: seq<int>)
    ensures forall g :: g in games && IsPossible(g) ==> g.idx in r
    ensures forall x :: x in r ==> exists g :: g in games && IsPossible(g) && g.idx == x
  {
    if games == [] then []
    else
      var rest := PossibleIndices(games[1..]);
      assert forall g :: g in games[1..] ==> g in games;
      (if IsPossible(games[0]) then [games[0].idx] else []) + rest
  }

  /** `possibleIndicesSum`. */
  function PossibleIndicesSum(games: seq<Game>): int
  {
    Lists.Sum(PossibleIndices(games))
  }

  /** Adding a game adds its number to the sum exactly when it is possible. */
  lemma {:induction false} PossibleIndicesSumSnoc(games: seq<Game>, g: Game)
    ensures PossibleIndicesSum(games + [g]) == PossibleIndicesSum(games) + if IsPossible(g) then g.idx else 0
  {
    if games == [] {
      assert [g][1..] == [];
    } else {
      assert (games + [g])[1..] == games[1..] + [g];
      PossibleIndicesSumSnoc(games[1..], g);
      var head := if IsPossible(games[0]) then [games[0].idx] else [];
      Lists.SumAppend(head, PossibleIndices(games[1..] + [g]));
      Lists.SumAppend(head, PossibleIndices(games[1..]));
    }
  }

  /** `findPower`: the product of the largest count of each colour; `max` of an empty list raises. */
  function FindPower(game: Game): (r: Result<int>)
    ensures r.Ok? <==> |game.reds| > 0 && |game.greens| > 0 && |game.blues| > 0
  {
    if |game.reds| == 0 || |game.greens| == 0 || |game.blues| == 0 then Err("ValueError")
    else Ok(Lists.Max(game.reds) * Lists.Max(game.greens) * Lists.Max(game.blues))
  }

  /**
   * What the power means: its three factors are the smallest bag the game fits in. A bag fits iff it holds
   * at least the largest count of each colour.
   */
  lemma PowerFactorsFewestCubes(game: Game, r: int, g: int, b: int)
    requires |game.reds| > 0 && |game.greens| > 0 && |game.blues| > 0
    ensures Fits(game, Lists.Max(game.reds), Lists.Max(game.greens), Lists.Max(game.blues))
    ensures Fits(game, r, g, b) <==> r >= Lists.Max(game.reds) && g >= Lists.Max(game.greens) && b >= Lists.Max(game.blues)
  {
    var mr, mg, mb := Lists.Max(game.reds), Lists.Max(game.greens), Lists.Max(game.blues);
    if Fits(game, r, g, b) {
      var i :| 0 <= i < |game.reds| && game.reds[i] == mr;
      var j :| 0 <= j < |game.greens| && game.greens[j] == mg;
      var k :| 0 <= k < |game.blues| && game.blues[k] == mb;
    }
  }

  /** `findPowerSum`: the powers added up; a game with a colour it never shows makes it raise. */
  function FindPowerSum(games: seq<Game>): (r: Result<int>)
    ensures r.Ok? <==> forall k :: 0 <= k < |games| ==> FindPower(games[k]).Ok?
  {
    if games == [] then Ok(0)
    else
      match (FindPower(games[0]), FindPowerSum(games[1..]))
      case (Ok(p), Ok(rest)) => Ok(p + rest)
      case (Err(e), _) => Err(e)
      case (_, Err(e)) =>
        assert forall k :: 1 <= k < |games| ==> games[k] == games[1..][k - 1];
        Err(e)
  }

  /** The two one-draw games the source checks. */
  lemma PossibleExamples()
    ensures !IsPossible(Game([13], [1], [2], 1)) && IsPossible(Game([10], [1], [2], 2))
  {
    IsPossibleFits(Game([13], [1], [2], 1));
    IsPossibleFits(Game([10], [1], [2], 2));
  }

  lemma PowerExamples()
    ensures FindPower(Game([13], [1], [2], 1)) == Ok(26) && FindPower(Game([10], [1], [2], 2)) == Ok(20)
  {
  }

  /** The first sample game line, written round by round. */
  const GameOneLine: string := "Game 1:" + GameOneBody

  /** Its five rounds after the colon, separated by ";". */
  const GameOneBody: string := " 3 blue, 7 green, 10 red" + ";" + " 4 green, 4 red" + ";" + " 1 green, 7 blue, 5 red"
                               + ";" + " 8 blue, 10 red" + ";" + " 7 blue, 19 red, 1 green"

  function GameOneRounds(): seq<seq<Draw>>
  {
    [[(Blue, 3), (Green, 7), (Red, 10)], [(Green, 4), (Red, 4)], [(Green, 1), (Blue, 7), (Red, 5)],
     [(Blue, 8), (Red, 10)], [(Blue, 7), (Red, 19), (Green, 1)]]
  }

  /** The counts the sample line needs written out. */
  lemma SampleNumbers()
    ensures NatToString(1) == "1" && NatToString(3) == "3" && NatToString(4) == "4" && NatToString(5) == "5"
    ensures NatToString(7) == "7" && NatToString(8) == "8" && NatToString(10) == "10" && NatToString(19) == "19"
  {
  }

  lemma JoinTwo(a: string, b: string, sep: string)
    ensures Join([a, b], sep) == a + sep + b
  {
    assert [a, b][1..] == [b];
  }

  lemma JoinThree(a: string, b: string, c: string, sep: string)
    ensures Join([a, b, c], sep) == a + sep + b + sep + c
  {
    assert [a, b, c][1..] == [b, c];
    JoinTwo(b, c, sep);
  }

  lemma JoinFive(a: string, b: string, c: string, d: string, e: string, sep: string)
    ensures Join([a, b, c, d, e], sep) == a + sep + b + sep + c + sep + d + sep + e
  {
    assert [a, b, c, d, e][1..] == [b, c, d, e];
    assert [b, c, d, e][1..] == [c, d, e];
    JoinThree(c, d, e, sep);
  }

  /** A round of three draws as written. */
  lemma RoundOfThree(d0: Draw, d1: Draw, d2: Draw, t0: string, t1: string, t2: string)
    requires d0.1 >= 0 && d1.1 >= 0 && d2.1 >= 0
    requires RenderDraw(d0) == t0 && RenderDraw(d1) == t1 && RenderDraw(d2) == t2
    ensures Join(RenderedDraws([d0, d1, d2]), ",") == " " + t0 + "," + " " + t1 + "," + " " + t2
  {
    var ps := RenderedDraws([d0, d1, d2]);
    assert ps == [ps[0], ps[1], ps[2]];
    JoinThree(ps[0], ps[1], ps[2], ",");
  }

  /** A round of two draws as written. */
  lemma RoundOfTwo(d0: Draw, d1: Draw, t0: string, t1: string)
    requires d0.1 >= 0 && d1.1 >= 0
    requires RenderDraw(d0) == t0 && RenderDraw(d1) == t1
    ensures Join(RenderedDraws([d0, d1]), ",") == " " + t0 + "," + " " + t1
  {
    var ps := RenderedDraws([d0, d1]);
    assert ps == [ps[0], ps[1]];
    JoinTwo(ps[0], ps[1], ",");
  }

  lemma RoundOneText()
    ensures Join(RenderedDraws(GameOneRounds()[0]), ",") == " 3 blue, 7 green, 10 red"
  {
    SampleNumbers();
    RoundOfThree((Blue, 3), (Green, 7), (Red, 10), "3 blue", "7 green", "10 red");
  }

  lemma RoundTwoText()
    ensures Join(RenderedDraws(GameOneRounds()[1]), ",") == " 4 green, 4 red"
  {
    SampleNumbers();
    RoundOfTwo((Green, 4), (Red, 4), "4 green", "4 red");
  }

  lemma RoundThreeText()
    ensures Join(RenderedDraws(GameOneRounds()[2]), ",") == " 1 green, 7 blue, 5 red"
  {
    SampleNumbers();
    RoundOfThree((Green, 1), (Blue, 7), (Red, 5), "1 green", "7 blue", "5 red");
  }

  lemma RoundFourText()
    ensures Join(RenderedDraws(GameOneRounds()[3]), ",") == " 8 blue, 10 red"
  {
    SampleNumbers();
    RoundOfTwo((Blue, 8), (Red, 10), "8 blue", "10 red");
  }

  lemma RoundFiveText()
    ensures Join(RenderedDraws(GameOneRounds()[4]), ",") == " 7 blue, 19 red, 1 green"
  {
    SampleNumbers();
    RoundOfThree((Blue, 7), (Red, 19), (Green, 1), "7 blue", "19 red", "1 green");
  }

  /** The five rounds of the sample line as written. */
  lemma GameOneRoundTexts()
    ensures Counted(GameOneRounds())
    ensures RenderedRounds(GameOneRounds())
         == [" 3 blue, 7 green, 10 red", " 4 green, 4 red", " 1 green, 7 blue, 5 red", " 8 blue, 10 red", " 7 blue, 19 red, 1 green"]
  {
    RoundOneText();
    RoundTwoText();
    RoundThreeText();
    RoundFourText();
    RoundFiveText();
  }

  /** The sample line is the rendering of its five rounds. */
  lemma GameOneText()
    ensures Counted(GameOneRounds()) && RenderGame(1, GameOneRounds()) == GameOneLine
  {
    GameOneRoundTexts();
    SampleNumbers();
    JoinFive(" 3 blue, 7 green, 10 red", " 4 green, 4 red", " 1 green, 7 blue, 5 red", " 8 blue, 10 red", " 7 blue, 19 red, 1 green", ";");
    assert Join(RenderedRounds(GameOneRounds()), ";") == GameOneBody;
    assert "Game " + NatToString(1) + ":" == "Game 1:";
  }

  lemma {:induction false} SelectAppend(a: seq<Draw>, b: seq<Draw>, c: Color)
    ensures Select(a + b, c) == Select(a, c) + Select(b, c)
  {
    if a != [] {
      assert (a + b)[0] == a[0];
      assert (a + b)[1..] == a[1..] + b;
      SelectAppend(a[1..], b, c);
    } else {
      assert a + b == b;
    }
  }

  /** The counts of one colour in a round of two or three draws. */
  lemma SelectSmall(d0: Draw, d1: Draw, d2: Draw, c: Color)
    ensures Select([d0, d1], c) == (if d0.0 == c then [d0.1] else []) + (if d1.0 == c then [d1.1] else [])
    ensures Select([d0, d1, d2], c) == Select([d0, d1], c) + (if d2.0 == c then [d2.1] else [])
  {
    assert [d0, d1][1..] == [d1] && [d1][1..] == [];
    assert [d0, d1, d2] == [d0, d1] + [d2];
    SelectAppend([d0, d1], [d2], c);
    assert [d2][1..] == [];
  }

  /** The draws of the five rounds, one round after the other. */
  lemma GameOneFlat()
    ensures var rs := GameOneRounds();
      Lists.Flatten(rs) == rs[0] + (rs[1] + (rs[2] + (rs[3] + rs[4])))
  {
    var rs := GameOneRounds();
    assert Lists.Flatten(rs[5..]) == [];
    assert Lists.Flatten(rs[4..]) == rs[4] + Lists.Flatten(rs[5..]);
    assert Lists.Flatten(rs[3..]) == rs[3] + Lists.Flatten(rs[4..]);
    assert Lists.Flatten(rs[2..]) == rs[2] + Lists.Flatten(rs[3..]);
    assert Lists.Flatten(rs[1..]) == rs[1] + Lists.Flatten(rs[2..]);
    assert rs[4] + [] == rs[4];
  }

  /** One colour's counts over the five rounds: round by round. */
  lemma GameOneSelect(c: Color)
    ensures var rs := GameOneRounds();
      Select(Lists.Flatten(rs), c) == Select(rs[0], c) + (Select(rs[1], c) + (Select(rs[2], c) + (Select(rs[3], c) + Select(rs[4], c))))
  {
    var rs := GameOneRounds();
    GameOneFlat();
    SelectAppend(rs[3], rs[4], c);
    SelectAppend(rs[2], rs[3] + rs[4], c);
    SelectAppend(rs[1], rs[2] + (rs[3] + rs[4]), c);
    SelectAppend(rs[0], rs[1] + (rs[2] + (rs[3] + rs[4])), c);
  }

  /** The counts of each colour in the rounds of the sample line. */
  lemma GameOneRoundCounts(c: Color)
    ensures var rs := GameOneRounds();
      Select(rs[0], c) == (if c == Blue then [3] else if c == Green then [7] else [10])
      && Select(rs[1], c) == (if c == Blue then [] else if c == Green then [4] else [4])
      && Select(rs[2], c) == (if c == Blue then [7] else if c == Green then [1] else [5])
      && Select(rs[3], c) == (if c == Blue then [8] else if c == Green then [] else [10])
      && Select(rs[4], c) == (if c == Blue then [7] else if c == Green then [1] else [19])
  {
    GameOneFirstCounts(c);
    GameOneLastCounts(c);
  }

  /** The counts of each colour in the first three rounds of the sample line. */
  lemma GameOneFirstCounts(c: Color)
    ensures var rs := GameOneRounds();
      Select(rs[0], c) == (if c == Blue then [3] else if c == Green then [7] else [10])
      && Select(rs[1], c) == (if c == Blue then [] else if c == Green then [4] else [4])
      && Select(rs[2], c) == (if c == Blue then [7] else if c == Green then [1] else [5])
  {
    RoundCounts((Blue, 3), (Green, 7), (Red, 10), c);
    SelectSmall((Green, 4), (Red, 4), (Red, 4), c);
    RoundCounts((Green, 1), (Blue, 7), (Red, 5), c);
  }

  /** The counts of one colour in a round of three draws of three different colours. */
  lemma RoundCounts(d0: Draw, d1: Draw, d2: Draw, c: Color)
    requires d0.0 != d1.0 && d0.0 != d2.0 && d1.0 != d2.0
    ensures Select([d0, d1, d2], c) == if c == d0.0 then [d0.1] else if c == d1.0 then [d1.1] else if c == d2.0 then [d2.1] else []
  {
    SelectSmall(d0, d1, d2, c);
  }

  /** The counts of each colour in the last two rounds of the sample line. */
  lemma GameOneLastCounts(c: Color)
    ensures var rs := GameOneRounds();
      Select(rs[3], c) == (if c == Blue then [8] else if c == Green then [] else [10])
      && Select(rs[4], c) == (if c == Blue then [7] else if c == Green then [1] else [19])
  {
    SelectSmall((Blue, 8), (Red, 10), (Red, 10), c);
    SelectSmall((Blue, 7), (Red, 19), (Green, 1), c);
  }

  /** The counts of one colour over five rounds, from the counts of each round. */
  lemma {:induction false} SelectFive(rs: seq<seq<Draw>>, c: Color, n0: seq<int>, n1: seq<int>, n2: seq<int>, n3: seq<int>, n4: seq<int>)
    requires |rs| == 5
    requires Select(rs[0], c) == n0 && Select(rs[1], c) == n1 && Select(rs[2], c) == n2
    requires Select(rs[3], c) == n3 && Select(rs[4], c) == n4
    ensures Select(Lists.Flatten(rs), c) == n0 + (n1 + (n2 + (n3 + n4)))
  {
    assert Lists.Flatten(rs[5..]) == [];
    assert Lists.Flatten(rs[4..]) == rs[4] + Lists.Flatten(rs[5..]);
    assert Lists.Flatten(rs[3..]) == rs[3] + Lists.Flatten(rs[4..]);
    assert Lists.Flatten(rs[2..]) == rs[2] + Lists.Flatten(rs[3..]);
    assert Lists.Flatten(rs[1..]) == rs[1] + Lists.Flatten(rs[2..]);
    assert rs[4] + [] == rs[4];
    SelectAppend(rs[3], rs[4], c);
    SelectAppend(rs[2], rs[3] + rs[4], c);
    SelectAppend(rs[1], rs[2] + (rs[3] + rs[4]), c);
    SelectAppend(rs[0], rs[1] + (rs[2] + (rs[3] + rs[4])), c);
  }

  /** The per-round counts of the first sample game, put together. */
  lemma GameOneJoined()
    ensures [10] + ([4] + ([5] + ([10] + [19]))) == [10, 4, 5, 10, 19]
    ensures [7] + ([4] + ([1] + ([] + [1]))) == [7, 4, 1, 1]
    ensures [3] + ([] + ([7] + ([8] + [7]))) == [3, 7, 8, 7]
  {
    assert [] + [1] == [1];
    assert [] + ([7] + ([8] + [7])) == [7] + ([8] + [7]);
  }

  /** The draws of the five rounds, colour by colour. */
  lemma GameOneDraws()
    ensures var draws := Lists.Flatten(GameOneRounds());
      Select(draws, Red) == [10, 4, 5, 10, 19] && Select(draws, Green) == [7, 4, 1, 1] && Select(draws, Blue) == [3, 7, 8, 7]
  {
    GameOneJoined();
    GameOneRoundCounts(Red);
    SelectFive(GameOneRounds(), Red, [10], [4], [5], [10], [19]);
    GameOneRoundCounts(Green);
    SelectFive(GameOneRounds(), Green, [7], [4], [1], [], [1]);
    GameOneRoundCounts(Blue);
    SelectFive(GameOneRounds(), Blue, [3], [], [7], [8], [7]);
  }

  /** `readGame` of the first sample line, and the power of that game: 19 red, 7 green and 8 blue at most. */
  lemma PowerOfGameOne()
    ensures ReadGame(GameOneLine) == Ok(Game([10, 4, 5, 10, 19], [7, 4, 1, 1], [3, 7, 8, 7], 1))
    ensures FindPower(Game([10, 4, 5, 10, 19], [7, 4, 1, 1], [3, 7, 8, 7], 1)) == Ok(1064)
  {
    GameOneRead();
    GameOnePower();
  }

  /** The power of the first sample game: 19 red, 7 green, 8 blue. */
  lemma GameOnePower()
    ensures FindPower(Game([10, 4, 5, 10, 19], [7, 4, 1, 1], [3, 7, 8, 7], 1)) == Ok(1064)
  {
    PowerIs(Game([10, 4, 5, 10, 19], [7, 4, 1, 1], [3, 7, 8, 7], 1), 4, 0, 2);
  }

  /** The first sample line reads back as the game it renders. */
  lemma GameOneRead()
    ensures ReadGame(GameOneLine) == Ok(Game([10, 4, 5, 10, 19], [7, 4, 1, 1], [3, 7, 8, 7], 1))
  {
    GameOneText();
    ReadGameRender(1, GameOneRounds());
    GameOneDraws();
  }

  lemma PowerIs(game: Game, i: nat, j: nat, k: nat)
    requires i < |game.reds| && forall x :: 0 <= x < |game.reds| ==> game.reds[x] <= game.reds[i]
    requires j < |game.greens| && forall x :: 0 <= x < |game.greens| ==> game.greens[x] <= game.greens[j]
    requires k < |game.blues| && forall x :: 0 <= x < |game.blues| ==> game.blues[x] <= game.blues[k]
    ensures FindPower(game) == Ok(game.reds[i] * game.greens[j] * game.blues[k])
  {
    MaxIs(game.reds, i);
    MaxIs(game.greens, j);
    MaxIs(game.blues, k);
  }

  lemma MaxIs(s: seq<int>, i: nat)
    requires i < |s| && forall k :: 0 <= k < |s| ==> s[k] <= s[i]
    ensures Lists.Max(s) == s[i]
  {
  }
}
