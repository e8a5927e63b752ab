/** Day 7: Camel Cards — card strengths, tallying a hand, the hand's strength number and the game's score (07/cards.py). */
module Day07Cards {
  import opened Wrappers
  import opened Strings
  import Numbers
  import Lists
  import Sorting

  datatype Card = Card(suit: char)

  /** The card labels in `Card.getStrength`, weakest first. */
  const Labels: string := "23456789TJQKA"

  /** No label is listed twice. */
  lemma LabelsDistinct()
    ensures |Labels| == 13
    ensures forall i, j :: 0 <= i < j < |Labels| ==> Labels[i] != Labels[j]
  {
  }

  /** `Card.getStrength`: the label's position in `strengths`; `list.index` raises ValueError for any other character. */
  function CardStrength(c: Card): (r: Result<nat>)
    ensures r.Ok? ==> r.value < 13
  {
    match c.suit
    case '2' => Ok(0)
    case '3' => Ok(1)
    case '4' => Ok(2)
    case '5' => Ok(3)
    case '6' => Ok(4)
    case '7' => Ok(5)
    case '8' => Ok(6)
    case '9' => Ok(7)
    case 'T' => Ok(8)
    case 'J' => Ok(9)
    case 'Q' => Ok(10)
    case 'K' => Ok(11)
    case 'A' => Ok(12)
    case _ => Err("ValueError")
  }

  /** A card has a strength iff its label is listed, and the strength is the label's position in the list. */
  lemma CardStrengthLabels(c: Card)
    ensures CardStrength(c).Ok? <==> c.suit in Labels
    ensures CardStrength(c).Ok? ==> Labels[CardStrength(c).value] == c.suit
  {
  }

  /** The label at position i has strength i: 2 is 0, 9 is 7, T is 8 and A is 12. */
  lemma CardStrengthIndex(i: nat)
    requires i < 13
    ensures CardStrength(Card(Labels[i])) == Ok(i)
  {
  }

  /** Different labels have different strengths. */
  lemma CardStrengthInjective(a: Card, b: Card)
    requires CardStrength(a).Ok? && CardStrength(b).Ok? && a != b
    ensures CardStrength(a).value != CardStrength(b).value
  {
  }

  /** `parseCards`: one card per character. */
  function ParseCards(txt: string): (r: seq<Card>)
    ensures |r| == |txt|
  {
    seq(|txt|, i requires 0 <= i < |txt| => Card(txt[i]))
  }

  /** The loop of `parseCards`: one card appended per character. */
  method BuildCards(txt: string) returns (cards: seq<Card>)
    ensures cards == ParseCards(txt)
  {
    cards := [];
    for i := 0 to |txt|
      invariant cards == ParseCards(txt[..i])
    {
      cards := cards + [Card(txt[i])];
    }
    assert txt[..|txt|] == txt;
  }

  /** `Hand.__str__`: the labels joined. */
  function Text(cards: seq<Card>): (t: string)
    ensures |t| == |cards|
  {
    seq(|cards|, i requires 0 <= i < |cards| => cards[i].suit)
  }

  lemma TextParseCards(txt: string)
    ensures Text(ParseCards(txt)) == txt
  {
  }

  lemma ParseCardsText(cards: seq<Card>)
    ensures ParseCards(Text(cards)) == cards
  {
  }

  // ---------------------------------------------------------------- tallying a hand

  datatype CardTuple = CardTuple(card: Card, count: nat)

  /** The first tuple holding `c`, if any. */
  function TupleOf(ts: seq<CardTuple>, c: Card): (r: Option<nat>)
    ensures r.Some? ==> r.value < |ts| && ts[r.value].card == c && forall j :: 0 <= j < r.value ==> ts[j].card != c
    ensures r.None? ==> forall j :: 0 <= j < |ts| ==> ts[j].card != c
  {
    if ts == [] then None
    else if ts[0].card == c then Some(0)
    else match TupleOf(ts[1..], c) { case None => None case Some(k) => Some(k + 1) }
  }

  /** One card of the outer loop of `getCardTuples`: count it in its tuple, or open a tuple for it. */
  function AddCard(ts: seq<CardTuple>, c: Card): seq<CardTuple>
  {
    match TupleOf(ts, c)
    case None => ts + [CardTuple(c, 1)]
    case Some(k) => ts[k := ts[k].(count := ts[k].count + 1)]
  }

  /** The tuples after the first `n` cards. */
  function TallyOf(cards: seq<Card>, n: nat): seq<CardTuple>
    requires n <= |cards|
  {
    if n == 0 then [] else AddCard(TallyOf(cards, n - 1), cards[n - 1])
  }

  function Tally(cards: seq<Card>): seq<CardTuple>
  {
    TallyOf(cards, |cards|)
  }

  /** `getCardTuples`: for each card, the inner loop looks for its tuple and counts it there, else a new tuple is appended. */
  method GetCardTuples(cards: seq<Card>) returns (tuples: seq<CardTuple>)
    ensures tuples == Tally(cards)
  {
    tuples := [];
    for i := 0 to |cards|
      invariant tuples == TallyOf(cards, i)
    {
      var card := cards[i];
      ghost var before := tuples;
      var found := false;
      var k := 0;
      while k < |tuples|
        invariant 0 <= k <= |tuples| && tuples == before
        invariant forall j :: 0 <= j < k ==> tuples[j].card != card
      {
        if tuples[k].card == card {
          tuples := tuples[k := tuples[k].(count := tuples[k].count + 1)];
          found := true;
          assert TupleOf(before, card) == Some(k);
          break;
        }
        k := k + 1;
      }
      if !found {
        assert TupleOf(before, card) == None;
        tuples := tuples + [CardTuple(card, 1)];
      }
    }
  }

  // ---------------------------------------------------------------- what the tally holds

  /** One card: the tuples keep their cards, the card's own tuple counts one more, or a new tuple is opened at the end. */
  lemma AddCardSpec(ts: seq<CardTuple>, c: Card)
    ensures TupleOf(ts, c).None? ==> AddCard(ts, c) == ts + [CardTuple(c, 1)]
    ensures TupleOf(ts, c).Some? ==> |AddCard(ts, c)| == |ts|
    ensures forall k :: 0 <= k < |ts| ==> AddCard(ts, c)[k].card == ts[k].card
    ensures forall k :: 0 <= k < |ts| ==> AddCard(ts, c)[k].count == ts[k].count + if TupleOf(ts, c) == Some(k) then 1 else 0
  {
  }

  predicate DistinctCards(ts: seq<CardTuple>)
  {
    forall i, j :: 0 <= i < j < |ts| ==> ts[i].card != ts[j].card
  }

  lemma {:induction false} TallyOfDistinct(cards: seq<Card>, n: nat)
    requires n <= |cards|
    ensures DistinctCards(TallyOf(cards, n))
  {
    if n > 0 {
      TallyOfDistinct(cards, n - 1);
      AddCardSpec(TallyOf(cards, n - 1), cards[n - 1]);
    }
  }

  /** Each card value has at most one tuple. */
  lemma TallyDistinct(cards: seq<Card>)
    ensures DistinctCards(Tally(cards))
  {
    TallyOfDistinct(cards, |cards|);
  }

  lemma {:induction false} TallyOfListed(cards: seq<Card>, n: nat, c: Card)
    requires n <= |cards|
    ensures TupleOf(TallyOf(cards, n), c).Some? <==> c in cards[..n]
  {
    if n > 0 {
      TallyOfListed(cards, n - 1, c);
      AddCardSpec(TallyOf(cards, n - 1), cards[n - 1]);
      assert cards[..n] == cards[..n - 1] + [cards[n - 1]];
      var ts := TallyOf(cards, n - 1);
      var us := TallyOf(cards, n);
      if c in cards[..n - 1] {
        var k := TupleOf(ts, c).value;
        assert us[k].card == c;
      } else if c == cards[n - 1] {
        if TupleOf(ts, c).None? { assert us[|ts|].card == c; }
      } else {
        assert forall k :: 0 <= k < |us| ==> us[k].card != c by {
          forall k | 0 <= k < |us| ensures us[k].card != c {
            if k < |ts| { assert us[k].card == ts[k].card; } else { assert us[k].card == cards[n - 1]; }
          }
        }
      }
    }
  }

  /** A card value has a tuple iff the hand holds it. */
  lemma TallyListed(cards: seq<Card>, c: Card)
    ensures TupleOf(Tally(cards), c).Some? <==> c in cards
  {
    TallyOfListed(cards, |cards|, c);
    assert cards[..|cards|] == cards;
  }

  lemma {:induction false} TallyOfCounts(cards: seq<Card>, n: nat)
    requires n <= |cards|
    ensures forall k :: 0 <= k < |TallyOf(cards, n)| ==> TallyOf(cards, n)[k].count == multiset(cards[..n])[TallyOf(cards, n)[k].card]
  {
    if n > 0 {
      TallyOfCounts(cards, n - 1);
      TallyOfDistinct(cards, n - 1);
      var ts := TallyOf(cards, n - 1);
      var c := cards[n - 1];
      AddCardSpec(ts, c);
      assert cards[..n] == cards[..n - 1] + [c];
      var us := TallyOf(cards, n);
      forall k | 0 <= k < |us| ensures us[k].count == multiset(cards[..n])[us[k].card] {
        if k == |ts| {
          TallyOfListed(cards, n - 1, c);
        } else if ts[k].card == c {
          assert TupleOf(ts, c) == Some(k);
        }
      }
    }
  }

  /** Each tuple counts how often its card occurs in the hand. */
  lemma TallyCounts(cards: seq<Card>)
    ensures forall k :: 0 <= k < |Tally(cards)| ==> Tally(cards)[k].count == multiset(cards)[Tally(cards)[k].card]
  {
    TallyOfCounts(cards, |cards|);
    assert cards[..|cards|] == cards;
  }

  lemma {:induction false} TallyOfOrder(cards: seq<Card>, n: nat)
    requires n <= |cards|
    ensures forall k :: 0 <= k < |TallyOf(cards, n)| ==> TallyOf(cards, n)[k].card in cards[..n]
    ensures forall i, j :: 0 <= i < j < |TallyOf(cards, n)| ==>
      Lists.FirstIndex(cards[..n], TallyOf(cards, n)[i].card) < Lists.FirstIndex(cards[..n], TallyOf(cards, n)[j].card)
  {
    if n > 0 {
      TallyOfOrder(cards, n - 1);
      TallyOfListed(cards, n - 1, cards[n - 1]);
      assert cards[..n] == cards[..n - 1] + [cards[n - 1]];
      AddCardOrder(cards[..n - 1], cards[n - 1], TallyOf(cards, n - 1));
    }
  }

  /** Counting one more card keeps the tuples in the order their cards first occur. */
  lemma AddCardOrder(seen: seq<Card>, c: Card, ts: seq<CardTuple>)
    requires forall k :: 0 <= k < |ts| ==> ts[k].card in seen
    requires forall i, j :: 0 <= i < j < |ts| ==> Lists.FirstIndex(seen, ts[i].card) < Lists.FirstIndex(seen, ts[j].card)
    requires TupleOf(ts, c).Some? <==> c in seen
    ensures forall k :: 0 <= k < |AddCard(ts, c)| ==> AddCard(ts, c)[k].card in seen + [c]
    ensures forall i, j :: 0 <= i < j < |AddCard(ts, c)| ==>
      Lists.FirstIndex(seen + [c], AddCard(ts, c)[i].card) < Lists.FirstIndex(seen + [c], AddCard(ts, c)[j].card)
  {
    AddCardSpec(ts, c);
    var us := AddCard(ts, c);
    forall k | 0 <= k < |ts|
      ensures us[k].card in seen
      ensures Lists.FirstIndex(seen + [c], us[k].card) == Lists.FirstIndex(seen, us[k].card)
    {
      Lists.FirstIndexSnoc(seen, c, us[k].card);
    }
    if |us| > |ts| {
      Lists.FirstIndexSnoc(seen, c, c);
      assert us[|ts|].card == c;
    }
  }

  /** The tuples follow the order in which their cards first occur in the hand. */
  lemma TallyOrder(cards: seq<Card>)
    ensures forall k :: 0 <= k < |Tally(cards)| ==> Tally(cards)[k].card in cards
    ensures forall i, j :: 0 <= i < j < |Tally(cards)| ==>
      Lists.FirstIndex(cards, Tally(cards)[i].card) < Lists.FirstIndex(cards, Tally(cards)[j].card)
  {
    TallyOfOrder(cards, |cards|);
    assert cards[..|cards|] == cards;
  }

  /** The counts of the first m tuples, summed. */
  function CountsIn(ts: seq<CardTuple>, m: nat): nat
    requires m <= |ts|
  {
    if m == 0 then 0 else CountsIn(ts, m - 1) + ts[m - 1].count
  }

  /** The sum of the tuples' counts. */
  function CountTotal(ts: seq<CardTuple>): nat
  {
    CountsIn(ts, |ts|)
  }

  lemma {:induction false} CountsInBump(ts: seq<CardTuple>, k: nat, m: nat)
    requires k < |ts| && m <= |ts|
    ensures CountsIn(ts[k := ts[k].(count := ts[k].count + 1)], m) == CountsIn(ts, m) + if k < m then 1 else 0
  {
    if m > 0 {
      CountsInBump(ts, k, m - 1);
    }
  }

  lemma {:induction false} CountsInSnoc(ts: seq<CardTuple>, t: CardTuple, m: nat)
    requires m <= |ts|
    ensures CountsIn(ts + [t], m) == CountsIn(ts, m)
  {
    if m > 0 {
      CountsInSnoc(ts, t, m - 1);
    }
  }

  lemma {:induction false} TallyOfTotal(cards: seq<Card>, n: nat)
    requires n <= |cards|
    ensures CountTotal(TallyOf(cards, n)) == n
  {
    if n > 0 {
      TallyOfTotal(cards, n - 1);
      var ts := TallyOf(cards, n - 1);
      match TupleOf(ts, cards[n - 1])
      case None => CountsInSnoc(ts, CardTuple(cards[n - 1], 1), |ts|);
      case Some(k) => CountsInBump(ts, k, |ts|);
    }
  }

  /** The counts add up to the hand's size. */
  lemma TallyTotal(cards: seq<Card>)
    ensures CountTotal(Tally(cards)) == |cards|
  {
    TallyOfTotal(cards, |cards|);
  }

  // ---------------------------------------------------------------- a hand's strength

  /** A hand: its cards and, as `Hand.__init__` computes them, their tuples. */
  datatype Hand = Hand(cards: seq<Card>, tuples: seq<CardTuple>)

  /** The hand `Hand(cards)` builds. */
  function HandOf(cards: seq<Card>): Hand
  {
    Hand(cards, Tally(cards))
  }

  /** `Hand.__init__`, with `getCardTuples` run on the cards. */
  method NewHand(cards: seq<Card>) returns (h: Hand)
    ensures h == HandOf(cards)
  {
    var tuples := GetCardTuples(cards);
    h := Hand(cards, tuples);
  }

  /** `(1 << 18) << (2 * count)`: a tuple's share of the strength, 2^18 shifted left by two bits per card. */
  function TupleWeight(count: nat): nat
  {
    262144 * Pow(4, count)
  }

  /** The shares of the first m tuples, summed. */
  function WeightsIn(ts: seq<CardTuple>, m: nat): nat
    requires m <= |ts|
  {
    if m == 0 then 0 else WeightsIn(ts, m - 1) + TupleWeight(ts[m - 1].count)
  }

  /** The tuples' shares, summed. */
  function TypeValue(ts: seq<CardTuple>): nat
  {
    WeightsIn(ts, |ts|)
  }

  /** The card strengths read as base-16 digits, the first card most significant:
      `c.getStrength() << (i * 4)` for the i-th card from the right. */
  function Value(ds: seq<nat>): nat
  {
    if ds == [] then 0 else ds[0] * Pow(16, |ds| - 1) + Value(ds[1..])
  }

  /** The value of the cards, or ValueError if one has no strength. */
  function CardsValue(cards: seq<Card>): Result<nat>
  {
    match MapAll(cards, CardStrength)
    case Err(e) => Err(e)
    case Ok(ds) => Ok(Value(ds))
  }

  /** `Hand.getStrength`: the tuples' weights plus the cards' value; ValueError if a card has no strength. */
  function Strength(h: Hand): Result<nat>
  {
    match CardsValue(h.cards)
    case Err(e) => Err(e)
    case Ok(v) => Ok(TypeValue(h.tuples) + v)
  }

  /** The first loop of `Hand.getStrength`: one weight per tuple. */
  method SumTupleWeights(tuples: seq<CardTuple>) returns (res: nat)
    ensures res == TypeValue(tuples)
  {
    res := 0;
    for k := 0 to |tuples|
      invariant res == WeightsIn(tuples, k)
    {
      res := res + TupleWeight(tuples[k].count);
    }
  }

  /** The second loop of `Hand.getStrength`: over the reversed cards, the i-th strength shifted left by 4·i bits. */
  method SumCardStrengths(cards: seq<Card>) returns (r: Result<nat>)
    ensures r == CardsValue(cards)
  {
    var res: nat := 0;
    ghost var ds: seq<nat> := [];
    var n := |cards|;
    for i := 0 to n
      invariant |ds| == i
      invariant forall j :: 0 <= j < i ==> CardStrength(cards[n - i + j]) == Ok(ds[j])
      invariant res == Value(ds)
    {
      var s := CardStrength(cards[n - 1 - i]);
      if s.Err? {
        return Err("ValueError");
      }
      res := res + s.value * Pow(16, i);
      ds := [s.value] + ds;
    }
    MapAllPointwise(cards, CardStrength, ds);
    r := Ok(res);
  }

  /** `Hand.getStrength`. */
  method GetStrength(h: Hand) returns (r: Result<nat>)
    ensures r == Strength(h)
  {
    var res := SumTupleWeights(h.tuples);
    var cards := SumCardStrengths(h.cards);
    if cards.Err? {
      return Err("ValueError");
    }
    r := Ok(res + cards.value);
  }

  /** `Hand.__lt__`: compares the strengths, the left one computed first. */
  function Less(a: Hand, b: Hand): Result<bool>
  {
    match Strength(a)
    case Err(e) => Err(e)
    case Ok(x) => match Strength(b) { case Err(e) => Err(e) case Ok(y) => Ok(x < y) }
  }

  /** `Hand.__gt__`. */
  function Greater(a: Hand, b: Hand): Result<bool>
  {
    match Strength(a)
    case Err(e) => Err(e)
    case Ok(x) => match Strength(b) { case Err(e) => Err(e) case Ok(y) => Ok(x > y) }
  }

  /** `a > b` is `b < a` whenever both hands have a strength. */
  lemma GreaterIsLessFlipped(a: Hand, b: Hand)
    ensures Greater(a, b).Ok? <==> Strength(a).Ok? && Strength(b).Ok?
    ensures Greater(a, b).Ok? ==> Greater(a, b) == Less(b, a)
  {
  }

  // ---------------------------------------------------------------- what the strength ranks

  /** The hand types of Camel Cards, weakest first. */
  datatype HandType = HighCard | OnePair | TwoPair | ThreeOfAKind | FullHouse | FourOfAKind | FiveOfAKind

  function TypeRank(t: HandType): nat
  {
    match t
    case HighCard => 0
    case OnePair => 1
    case TwoPair => 2
    case ThreeOfAKind => 3
    case FullHouse => 4
    case FourOfAKind => 5
    case FiveOfAKind => 6
  }

  function Larger(a: nat, b: nat): nat
  {
    if a > b then a else b
  }

  /** The largest count among the first m tuples. */
  function MostIn(ts: seq<CardTuple>, m: nat): nat
    requires m <= |ts|
  {
    if m == 0 then 0 else Larger(ts[m - 1].count, MostIn(ts, m - 1))
  }

  /** The largest count among the tuples. */
  function MaxCount(ts: seq<CardTuple>): nat
  {
    MostIn(ts, |ts|)
  }

  /** A five-card hand's type, from how many different labels it has and how often the commonest occurs. */
  function KindOf(labels: nat, most: nat): HandType
  {
    if most >= 5 then FiveOfAKind
    else if most == 4 then FourOfAKind
    else if most == 3 then (if labels == 2 then FullHouse else ThreeOfAKind)
    else if most == 2 then (if labels == 3 then TwoPair else OnePair)
    else HighCard
  }

  /** The type of a hand, read off its tuples. */
  function TypeOf(cards: seq<Card>): HandType
  {
    KindOf(|Tally(cards)|, MaxCount(Tally(cards)))
  }

  /** The strength's type part, in units of 2^20, for each type. */
  function TypeUnits(t: HandType): nat
  {
    match t
    case HighCard => 5
    case OnePair => 7
    case TwoPair => 9
    case ThreeOfAKind => 18
    case FullHouse => 20
    case FourOfAKind => 65
    case FiveOfAKind => 256
  }

  /** A stronger type has a type part at least two units larger. */
  lemma TypeUnitsGap(s: HandType, t: HandType)
    ensures TypeRank(s) < TypeRank(t) <==> TypeUnits(s) + 2 <= TypeUnits(t)
    ensures TypeRank(s) == TypeRank(t) <==> s == t
  {
  }

  lemma TupleWeightOf(c: nat)
    requires 1 <= c <= 5
    ensures TupleWeight(c) == 262144 * if c == 1 then 4 else if c == 2 then 16 else if c == 3 then 64 else if c == 4 then 256 else 1024
  {
    assert Pow(4, 5) == 1024;
  }

  lemma {:induction false} CountsInAtLeast(ts: seq<CardTuple>, m: nat)
    requires m <= |ts| && forall k :: 0 <= k < |ts| ==> ts[k].count >= 1
    ensures CountsIn(ts, m) >= m
  {
    if m > 0 {
      CountsInAtLeast(ts, m - 1);
    }
  }

  /** For positive counts adding up to five, the type part is the type's units of 2^20. */
  lemma FiveCardTypeValue(ts: seq<CardTuple>)
    requires forall k :: 0 <= k < |ts| ==> ts[k].count >= 1
    requires CountTotal(ts) == 5
    ensures TypeValue(ts) == 1048576 * TypeUnits(KindOf(|ts|, MaxCount(ts)))
  {
    CountsInAtLeast(ts, |ts|);
    if |ts| == 1 {
      assert WeightsIn(ts, 1) == WeightsIn(ts, 0) + TupleWeight(ts[0].count);
      assert CountsIn(ts, 1) == CountsIn(ts, 0) + ts[0].count;
      assert MostIn(ts, 1) == Larger(ts[0].count, MostIn(ts, 0));
      TupleWeightOf(ts[0].count);
    } else if |ts| == 2 {
      TypeTwo(ts);
    } else if |ts| == 3 {
      TypeThree(ts);
    } else if |ts| == 4 {
      TypeFour(ts);
    } else {
      TypeFive(ts);
    }
  }

  lemma TypeTwo(ts: seq<CardTuple>)
    requires |ts| == 2 && forall k :: 0 <= k < |ts| ==> ts[k].count >= 1
    requires CountsIn(ts, 2) == 5
    ensures TypeValue(ts) == 1048576 * TypeUnits(KindOf(|ts|, MaxCount(ts)))
  {
    assert WeightsIn(ts, 1) == WeightsIn(ts, 0) + TupleWeight(ts[0].count);
    assert CountsIn(ts, 1) == CountsIn(ts, 0) + ts[0].count;
    assert MostIn(ts, 1) == Larger(ts[0].count, MostIn(ts, 0));
    assert WeightsIn(ts, 2) == WeightsIn(ts, 1) + TupleWeight(ts[1].count);
    assert CountsIn(ts, 2) == CountsIn(ts, 1) + ts[1].count;
    assert MostIn(ts, 2) == Larger(ts[1].count, MostIn(ts, 1));
    TupleWeightOf(ts[0].count);
    TupleWeightOf(ts[1].count);
  }

  lemma TypeThree(ts: seq<CardTuple>)
    requires |ts| == 3 && forall k :: 0 <= k < |ts| ==> ts[k].count >= 1
    requires CountsIn(ts, 3) == 5
    ensures TypeValue(ts) == 1048576 * TypeUnits(KindOf(|ts|, MaxCount(ts)))
  {
    assert WeightsIn(ts, 1) == WeightsIn(ts, 0) + TupleWeight(ts[0].count);
    assert CountsIn(ts, 1) == CountsIn(ts, 0) + ts[0].count;
    assert MostIn(ts, 1) == Larger(ts[0].count, MostIn(ts, 0));
    assert WeightsIn(ts, 2) == WeightsIn(ts, 1) + TupleWeight(ts[1].count);
    assert CountsIn(ts, 2) == CountsIn(ts, 1) + ts[1].count;
    assert MostIn(ts, 2) == Larger(ts[1].count, MostIn(ts, 1));
    assert WeightsIn(ts, 3) == WeightsIn(ts, 2) + TupleWeight(ts[2].count);
    assert CountsIn(ts, 3) == CountsIn(ts, 2) + ts[2].count;
    assert MostIn(ts, 3) == Larger(ts[2].count, MostIn(ts, 2));
    TupleWeightOf(ts[0].count);
    TupleWeightOf(ts[1].count);
    TupleWeightOf(ts[2].count);
  }

  lemma TypeFour(ts: seq<CardTuple>)
    requires |ts| == 4 && forall k :: 0 <= k < |ts| ==> ts[k].count >= 1
    requires CountsIn(ts, 4) == 5
    ensures TypeValue(ts) == 1048576 * TypeUnits(KindOf(|ts|, MaxCount(ts)))
  {
    assert WeightsIn(ts, 1) == WeightsIn(ts, 0) + TupleWeight(ts[0].count);
    assert CountsIn(ts, 1) == CountsIn(ts, 0) + ts[0].count;
    assert MostIn(ts, 1) == Larger(ts[0].count, MostIn(ts, 0));
    assert WeightsIn(ts, 2) == WeightsIn(ts, 1) + TupleWeight(ts[1].count);
    assert CountsIn(ts, 2) == CountsIn(ts, 1) + ts[1].count;
    assert MostIn(ts, 2) == Larger(ts[1].count, MostIn(ts, 1));
    assert WeightsIn(ts, 3) == WeightsIn(ts, 2) + TupleWeight(ts[2].count);
    assert CountsIn(ts, 3) == CountsIn(ts, 2) + ts[2].count;
    assert MostIn(ts, 3) == Larger(ts[2].count, MostIn(ts, 2));
    assert WeightsIn(ts, 4) == WeightsIn(ts, 3) + TupleWeight(ts[3].count);
    assert CountsIn(ts, 4) == CountsIn(ts, 3) + ts[3].count;
    assert MostIn(ts, 4) == Larger(ts[3].count, MostIn(ts, 3));
    TupleWeightOf(ts[0].count);
    TupleWeightOf(ts[1].count);
    TupleWeightOf(ts[2].count);
    TupleWeightOf(ts[3].count);
  }

  lemma TypeFive(ts: seq<CardTuple>)
    requires |ts| == 5 && forall k :: 0 <= k < |ts| ==> ts[k].count >= 1
    requires CountsIn(ts, 5) == 5
    ensures TypeValue(ts) == 1048576 * TypeUnits(KindOf(|ts|, MaxCount(ts)))
  {
    assert WeightsIn(ts, 1) == WeightsIn(ts, 0) + TupleWeight(ts[0].count);
    assert CountsIn(ts, 1) == CountsIn(ts, 0) + ts[0].count;
    assert MostIn(ts, 1) == Larger(ts[0].count, MostIn(ts, 0));
    assert WeightsIn(ts, 2) == WeightsIn(ts, 1) + TupleWeight(ts[1].count);
    assert CountsIn(ts, 2) == CountsIn(ts, 1) + ts[1].count;
    assert MostIn(ts, 2) == Larger(ts[1].count, MostIn(ts, 1));
    assert WeightsIn(ts, 3) == WeightsIn(ts, 2) + TupleWeight(ts[2].count);
    assert CountsIn(ts, 3) == CountsIn(ts, 2) + ts[2].count;
    assert MostIn(ts, 3) == Larger(ts[2].count, MostIn(ts, 2));
    assert WeightsIn(ts, 4) == WeightsIn(ts, 3) + TupleWeight(ts[3].count);
    assert CountsIn(ts, 4) == CountsIn(ts, 3) + ts[3].count;
    assert MostIn(ts, 4) == Larger(ts[3].count, MostIn(ts, 3));
    assert WeightsIn(ts, 5) == WeightsIn(ts, 4) + TupleWeight(ts[4].count);
    assert CountsIn(ts, 5) == CountsIn(ts, 4) + ts[4].count;
    assert MostIn(ts, 5) == Larger(ts[4].count, MostIn(ts, 4));
    TupleWeightOf(ts[0].count);
    TupleWeightOf(ts[1].count);
    TupleWeightOf(ts[2].count);
    TupleWeightOf(ts[3].count);
    TupleWeightOf(ts[4].count);
  }

  /** Every strength is a base-16 digit. */
  predicate Digits(ds: seq<nat>)
  {
    forall i :: 0 <= i < |ds| ==> ds[i] < 16
  }

  lemma MulMonotone(a: nat, b: nat, p: nat)
    requires a <= b
    ensures a * p <= b * p
  {
  }

  /** n digits make a value below 16^n, so the cards' part never reaches the type part's unit. */
  lemma {:induction false} ValueBound(ds: seq<nat>)
    requires Digits(ds)
    ensures Value(ds) < Pow(16, |ds|)
  {
    if ds != [] {
      ValueBound(ds[1..]);
      MulMonotone(ds[0], 15, Pow(16, |ds| - 1));
    }
  }

  /** The first card that differs decides: the comparison of Camel Cards between hands of one type. */
  predicate LexLess(xs: seq<nat>, ys: seq<nat>)
    requires |xs| == |ys|
    decreases |xs|
  {
    |xs| > 0 && (xs[0] < ys[0] || (xs[0] == ys[0] && LexLess(xs[1..], ys[1..])))
  }

  /** Comparing the base-16 values of two equally long digit strings is comparing them card by card. */
  lemma {:induction false} ValueOrder(xs: seq<nat>, ys: seq<nat>)
    requires |xs| == |ys| && Digits(xs) && Digits(ys)
    ensures Value(xs) < Value(ys) <==> LexLess(xs, ys)
    ensures Value(xs) == Value(ys) <==> xs == ys
  {
    if xs != [] {
      var p := Pow(16, |xs| - 1);
      ValueOrder(xs[1..], ys[1..]);
      ValueBound(xs[1..]);
      ValueBound(ys[1..]);
      DigitCompare(xs[0], ys[0], Value(xs[1..]), Value(ys[1..]), p);
      assert xs == [xs[0]] + xs[1..] && ys == [ys[0]] + ys[1..];
    }
  }

  /** Two numbers written as a leading digit times p plus a remainder below p compare by the digit first. */
  lemma DigitCompare(x: nat, y: nat, a: nat, b: nat, p: nat)
    requires a < p && b < p
    ensures x < y ==> x * p + a < y * p + b
    ensures y < x ==> y * p + b < x * p + a
    ensures x == y ==> (x * p + a < y * p + b <==> a < b) && (x * p + a == y * p + b <==> a == b)
  {
    if x < y {
      MulMonotone(x + 1, y, p);
      assert (x + 1) * p == x * p + p;
    } else if y < x {
      MulMonotone(y + 1, x, p);
      assert (y + 1) * p == y * p + p;
    }
  }

  /** Every card of the hand has a strength. */
  predicate Valid(cards: seq<Card>)
  {
    forall i :: 0 <= i < |cards| ==> CardStrength(cards[i]).Ok?
  }

  /** The cards' strengths, in hand order. */
  function Ranks(cards: seq<Card>): (ds: seq<nat>)
    requires Valid(cards)
    ensures |ds| == |cards| && Digits(ds)
    ensures forall i :: 0 <= i < |cards| ==> CardStrength(cards[i]) == Ok(ds[i])
  {
    MapAll(cards, CardStrength).value
  }

  /** In a five-card hand every tuple counts at least one card and the counts add up to five. */
  lemma FiveCardTuples(cards: seq<Card>)
    requires |cards| == 5
    ensures forall k :: 0 <= k < |Tally(cards)| ==> Tally(cards)[k].count >= 1
    ensures CountTotal(Tally(cards)) == 5
  {
    TallyCounts(cards);
    TallyOrder(cards);
    TallyTotal(cards);
  }

  /** A valid five-card hand's strength: its type's units of 2^20 plus the cards' value, which stays below 2^20. */
  lemma FiveCardStrength(cards: seq<Card>)
    requires |cards| == 5 && Valid(cards)
    ensures Value(Ranks(cards)) < 1048576
    ensures Strength(HandOf(cards)) == Ok(1048576 * TypeUnits(TypeOf(cards)) + Value(Ranks(cards)))
  {
    FiveCardTuples(cards);
    FiveCardTypeValue(Tally(cards));
    ValueBound(Ranks(cards));
    assert Pow(16, 5) == 1048576;
  }

  /** Hands compare by type first and then card by card from the left, as the rules of Camel Cards say. */
  lemma HandOrder(a: seq<Card>, b: seq<Card>)
    requires |a| == 5 && |b| == 5 && Valid(a) && Valid(b)
    ensures Strength(HandOf(a)).Ok? && Strength(HandOf(b)).Ok?
    ensures Strength(HandOf(a)).value < Strength(HandOf(b)).value <==>
      TypeRank(TypeOf(a)) < TypeRank(TypeOf(b)) || (TypeOf(a) == TypeOf(b) && LexLess(Ranks(a), Ranks(b)))
  {
    FiveCardStrength(a);
    FiveCardStrength(b);
    TypeUnitsGap(TypeOf(a), TypeOf(b));
    TypeUnitsGap(TypeOf(b), TypeOf(a));
    ValueOrder(Ranks(a), Ranks(b));
    DigitCompare(TypeUnits(TypeOf(a)), TypeUnits(TypeOf(b)), Value(Ranks(a)), Value(Ranks(b)), 1048576);
  }

  /** Among five-card hands only the same cards have the same strength, so hands never tie. */
  lemma StrengthInjective(a: seq<Card>, b: seq<Card>)
    requires |a| == 5 && |b| == 5 && Valid(a) && Valid(b)
    ensures Strength(HandOf(a)) == Strength(HandOf(b)) <==> a == b
  {
    FiveCardStrength(a);
    FiveCardStrength(b);
    ValueOrder(Ranks(a), Ranks(b));
    DigitCompare(TypeUnits(TypeOf(a)), TypeUnits(TypeOf(b)), Value(Ranks(a)), Value(Ranks(b)), 1048576);
    if Strength(HandOf(a)) == Strength(HandOf(b)) {
      assert Ranks(a) == Ranks(b);
      forall i | 0 <= i < 5 ensures a[i] == b[i] {
        if a[i] != b[i] { CardStrengthInjective(a[i], b[i]); }
      }
    }
  }

  lemma {:induction false} MostInSpec(ts: seq<CardTuple>, m: nat)
    requires m <= |ts|
    ensures forall k :: 0 <= k < m ==> ts[k].count <= MostIn(ts, m)
    ensures m > 0 ==> exists k :: 0 <= k < m && ts[k].count == MostIn(ts, m)
  {
    if m > 0 {
      MostInSpec(ts, m - 1);
      if ts[m - 1].count <= MostIn(ts, m - 1) && m > 1 {
        var k :| 0 <= k < m - 1 && ts[k].count == MostIn(ts, m - 1);
        assert ts[k].count == MostIn(ts, m);
      } else {
        assert ts[m - 1].count == MostIn(ts, m);
      }
    }
  }

  /** What the type is read from: the tally has one tuple per different label, and its largest count is how often the commonest label occurs. */
  lemma TallyShape(cards: seq<Card>)
    ensures |Tally(cards)| == |set c | c in cards|
    ensures forall c :: c in cards ==> multiset(cards)[c] <= MaxCount(Tally(cards))
    ensures cards != [] ==> exists c :: c in cards && multiset(cards)[c] == MaxCount(Tally(cards))
  {
    TallySize(cards);
    TallyMax(cards);
  }

  /** The tally has one tuple per different label. */
  lemma TallySize(cards: seq<Card>)
    ensures |Tally(cards)| == |set c | c in cards|
  {
    var ts := Tally(cards);
    TallyDistinct(cards);
    TallyCounts(cards);
    var labels := seq(|ts|, k requires 0 <= k < |ts| => ts[k].card);
    Lists.DistinctSize(labels);
    forall c ensures c in labels <==> c in cards {
      TallyListed(cards, c);
      match TupleOf(ts, c)
      case Some(k) => assert labels[k] == c;
      case None => assert forall k :: 0 <= k < |labels| ==> labels[k] == ts[k].card != c;
    }
    assert (set c | c in labels) == (set c | c in cards);
  }

  /** The tally's largest count is how often the commonest label occurs. */
  lemma TallyMax(cards: seq<Card>)
    ensures forall c :: c in cards ==> multiset(cards)[c] <= MaxCount(Tally(cards))
    ensures cards != [] ==> exists c :: c in cards && multiset(cards)[c] == MaxCount(Tally(cards))
  {
    var ts := Tally(cards);
    TallyCounts(cards);
    TallyOrder(cards);
    MostInSpec(ts, |ts|);
    forall c | c in cards ensures multiset(cards)[c] <= MaxCount(ts) {
      TallyListed(cards, c);
      var k := TupleOf(ts, c).value;
      assert ts[k].count == multiset(cards)[c];
    }
    if cards != [] {
      var k :| 0 <= k < |ts| && ts[k].count == MaxCount(ts);
      assert multiset(cards)[ts[k].card] == MaxCount(ts);
    }
  }

  // ---------------------------------------------------------------- the examples

  /** Strengths read card by card give the mapped strengths. */
  lemma StrengthsFrom(txt: string, ds: seq<nat>)
    requires |ds| == |txt| && forall i :: 0 <= i < |txt| ==> CardStrength(Card(txt[i])) == Ok(ds[i])
    ensures MapAll(ParseCards(txt), CardStrength) == Ok(ds)
  {
    var cards := ParseCards(txt);
    forall i | 0 <= i < |cards|
      ensures CardStrength(cards[i]) == Ok(ds[i])
    {
      assert cards[i] == Card(txt[i]);
    }
    MapAllPointwise(cards, CardStrength, ds);
  }

  /** The strength of a hand whose tally and card strengths are known. */
  lemma StrengthFrom(txt: string, ts: seq<CardTuple>, ds: seq<nat>)
    requires Tally(ParseCards(txt)) == ts
    requires MapAll(ParseCards(txt), CardStrength) == Ok(ds)
    ensures Strength(HandOf(ParseCards(txt))) == Ok(TypeValue(ts) + Value(ds))
  {
  }

  // ---------------------------------------------------------------- players and the game

  /** `Player`: a hand and its bid; players compare by their hands. */
  datatype Player = Player(hand: Hand, bid: int)

  /**
   * `parsePlayer`: the cards before the one blank, the bid after it. ValueError when the line does
   * not split into exactly two parts at blanks, or when the bid is no integer.
   */
  function ParsePlayer(line: string): (r: Result<Player>)
    ensures r.Ok? <==> |SplitOn(line, ' ')| == 2 && ParseInt(SplitOn(line, ' ')[1]).Some?
    ensures r.Ok? ==> Text(r.value.hand.cards) == SplitOn(line, ' ')[0] && r.value.hand == HandOf(r.value.hand.cards)
    ensures r.Ok? ==> ParseInt(SplitOn(line, ' ')[1]) == Some(r.value.bid)
    ensures r.Err? ==> r.error == "ValueError"
  {
    var parts := SplitOn(line, ' ');
    if |parts| != 2 then Err("ValueError")
    else
      match ParseInt(parts[1])
      case None => Err("ValueError")
      case Some(bid) =>
        TextParseCards(parts[0]);
        Ok(Player(HandOf(ParseCards(parts[0])), bid))
  }

  /** A line as the puzzle input holds it, line break included, reads back as its player. */
  lemma ParsePlayerLine(cards: seq<Card>, bid: int)
    requires forall i :: 0 <= i < |cards| ==> cards[i].suit != ' '
    ensures ParsePlayer(Text(cards) + " " + IntToString(bid) + "\n") == Ok(Player(HandOf(cards), bid))
  {
    var b := IntToString(bid);
    Numbers.IntToStringChars(bid);
    var parts := [Text(cards), b + "\n"];
    forall k, i | 0 <= k < |parts| && 0 <= i < |parts[k]|
      ensures parts[k][i] != ' '
    {
      if k == 1 && i < |b| {
        assert parts[k][i] == b[i];
      }
    }
    SplitOnJoin(parts, ' ');
    assert Join(parts, [' ']) == Text(cards) + " " + b + "\n";
    StripNewline(b);
    IntToStringRoundTrip(bid);
    ParseCardsText(cards);
  }

  /** The number a hand is sorted by; a hand with an unknown card never reaches the sort when it matters. */
  function HandKey(h: Hand): int
  {
    match Strength(h)
    case Ok(v) => v
    case Err(_) => 0
  }

  function PlayerKey(p: Player): int
  {
    HandKey(p.hand)
  }

  /** `Game`: the players, in input order. */
  datatype Game = Game(players: seq<Player>)

  /** The bids of the first n players, each times its place counted from 1. */
  function WinningsIn(ps: seq<Player>, n: nat): int
    requires n <= |ps|
  {
    if n == 0 then 0 else WinningsIn(ps, n - 1) + ps[n - 1].bid * n
  }

  /** `sum(p.bid * (i + 1) for i, p in enumerate(ps))`. */
  function Winnings(ps: seq<Player>): int
  {
    WinningsIn(ps, |ps|)
  }

  /** Some player's hand holds a card without a strength. */
  predicate HasUnknownCard(ps: seq<Player>)
  {
    exists i :: 0 <= i < |ps| && Strength(ps[i].hand).Err?
  }

  /**
   * `Game.getScore`: sorts the players by hand strength (a stable sort) and sums bid times place.
   * With two players or more every hand takes part in a comparison, so a hand with an unknown card
   * raises ValueError.
   */
  function GetScore(g: Game): (r: Result<int>)
    ensures r.Err? <==> |g.players| >= 2 && HasUnknownCard(g.players)
    ensures r.Err? ==> r.error == "ValueError"
  {
    if |g.players| >= 2 && HasUnknownCard(g.players) then Err("ValueError")
    else Ok(Winnings(Sorting.SortBy(g.players, PlayerKey)))
  }

  /** A player's bid times the place its hand takes among `ps`. */
  function RankedBid(ps: seq<Player>): Player -> int
  {
    (p: Player) => p.bid * Sorting.Rank(ps, PlayerKey, p)
  }

  /** The score of players with distinct strengths as the puzzle defines it: every bid times its hand's rank. */
  function RankScore(ps: seq<Player>): int
  {
    Lists.SumOf(ps, RankedBid(ps))
  }

  lemma {:induction false} WinningsRanked(t: seq<Player>, n: nat)
    requires n <= |t| && Sorting.StrictlySortedBy(t, PlayerKey)
    ensures Lists.SumOf(t[..n], RankedBid(t)) == WinningsIn(t, n)
  {
    if n > 0 {
      WinningsRanked(t, n - 1);
      assert t[..n][..n - 1] == t[..n - 1];
      Sorting.RankSorted(t, PlayerKey, n - 1);
    }
  }

  /** When every hand is known and no two strengths are equal, the score is every bid times its hand's rank. */
  lemma ScoreByRank(g: Game)
    requires !HasUnknownCard(g.players)
    requires Sorting.DistinctKeys(g.players, PlayerKey)
    ensures GetScore(g) == Ok(RankScore(g.players))
  {
    var ps := g.players;
    var t := Sorting.SortBy(ps, PlayerKey);
    Sorting.SortBySorted(ps, PlayerKey);
    Sorting.DistinctKeysPermutation(ps, t, PlayerKey);
    WinningsRanked(t, |t|);
    assert t[..|t|] == t;
    forall k | 0 <= k < |ps|
      ensures RankedBid(ps)(ps[k]) == RankedBid(t)(ps[k])
    {
      Sorting.RankPermutation(ps, t, PlayerKey, ps[k]);
    }
    Lists.SumOfAgree(ps, RankedBid(ps), RankedBid(t));
    Lists.SumOfPermutation(ps, t, RankedBid(t));
  }

  /** Five-card hands from the labels, no two alike: the score is every bid times its hand's rank. */
  lemma FiveCardScore(g: Game)
    requires forall i :: 0 <= i < |g.players| ==> |g.players[i].hand.cards| == 5 && Valid(g.players[i].hand.cards)
    requires forall i :: 0 <= i < |g.players| ==> g.players[i].hand == HandOf(g.players[i].hand.cards)
    requires forall i, j :: 0 <= i < j < |g.players| ==> g.players[i].hand != g.players[j].hand
    ensures GetScore(g) == Ok(RankScore(g.players))
  {
    var ps := g.players;
    forall i | 0 <= i < |ps|
      ensures Strength(ps[i].hand).Ok?
    {
      FiveCardStrength(ps[i].hand.cards);
    }
    forall i, j | 0 <= i < j < |ps|
      ensures PlayerKey(ps[i]) != PlayerKey(ps[j])
    {
      FiveCardStrength(ps[i].hand.cards);
      FiveCardStrength(ps[j].hand.cards);
      StrengthInjective(ps[i].hand.cards, ps[j].hand.cards);
    }
    ScoreByRank(g);
  }

  /** Two players with known hands, the first weaker: the second takes place two. */
  lemma ScoreOfTwo(g: Game, a: Player, b: Player)
    requires g.players == [a, b]
    requires Strength(a.hand).Ok? && Strength(b.hand).Ok?
    requires PlayerKey(a) < PlayerKey(b)
    ensures GetScore(g) == Ok(a.bid + 2 * b.bid)
  {
    Sorting.SortByChain(g.players, [a, b], PlayerKey);
    assert !HasUnknownCard(g.players);
    assert WinningsIn([a, b], 1) == a.bid;
  }

  lemma ScoreSorted(g: Game, t: seq<Player>)
    requires !HasUnknownCard(g.players) && Sorting.SortBy(g.players, PlayerKey) == t
    ensures GetScore(g) == Ok(Winnings(t))
  {
  }

  lemma KnownFive(ps: seq<Player>, a: Player, b: Player, c: Player, d: Player, e: Player)
    requires multiset(ps) == multiset([a, b, c, d, e])
    requires Strength(a.hand).Ok? && Strength(b.hand).Ok? && Strength(c.hand).Ok? && Strength(d.hand).Ok? && Strength(e.hand).Ok?
    ensures !HasUnknownCard(ps)
  {
    forall i | 0 <= i < |ps|
      ensures Strength(ps[i].hand).Ok?
    {
      assert ps[i] in multiset([a, b, c, d, e]);
    }
  }

  lemma WinningsFive(a: Player, b: Player, c: Player, d: Player, e: Player)
    ensures Winnings([a, b, c, d, e]) == a.bid + 2 * b.bid + 3 * c.bid + 4 * d.bid + 5 * e.bid
  {
    var t := [a, b, c, d, e];
    assert WinningsIn(t, 1) == a.bid;
    assert WinningsIn(t, 2) == a.bid + 2 * b.bid;
    assert WinningsIn(t, 3) == a.bid + 2 * b.bid + 3 * c.bid;
    assert WinningsIn(t, 4) == a.bid + 2 * b.bid + 3 * c.bid + 4 * d.bid;
  }

  /** Five players with known hands, listed from the weakest: the sorted game and its score. */
  lemma ScoreOfFive(g: Game, a: Player, b: Player, c: Player, d: Player, e: Player)
    requires multiset(g.players) == multiset([a, b, c, d, e])
    requires Strength(a.hand).Ok? && Strength(b.hand).Ok? && Strength(c.hand).Ok? && Strength(d.hand).Ok? && Strength(e.hand).Ok?
    requires PlayerKey(a) < PlayerKey(b) < PlayerKey(c) < PlayerKey(d) < PlayerKey(e)
    ensures Sorting.SortBy(g.players, PlayerKey) == [a, b, c, d, e]
    ensures GetScore(g) == Ok(Winnings([a, b, c, d, e]))
  {
    Sorting.SortByFive(g.players, a, b, c, d, e, PlayerKey);
    KnownFive(g.players, a, b, c, d, e);
    ScoreSorted(g, [a, b, c, d, e]);
  }

  /** The value of five digits, written out. */
  lemma ValueFive(a: nat, b: nat, c: nat, d: nat, e: nat)
    ensures Value([a, b, c, d, e]) == 65536 * a + 4096 * b + 256 * c + 16 * d + e
  {
    assert [a, b, c, d, e][1..] == [b, c, d, e];
    assert [b, c, d, e][1..] == [c, d, e];
    assert [c, d, e][1..] == [d, e];
    assert [d, e][1..] == [e];
    assert [e][1..] == [];
    assert Value([e]) == e * Pow(16, 0) + Value([]);
    assert Value([d, e]) == d * Pow(16, 1) + Value([e]);
    assert Value([c, d, e]) == c * Pow(16, 2) + Value([d, e]);
    assert Value([b, c, d, e]) == b * Pow(16, 3) + Value([c, d, e]);
    assert Value([a, b, c, d, e]) == a * Pow(16, 4) + Value([b, c, d, e]);
    assert Pow(16, 4) == 65536;
  }

  lemma Tally22233()
    ensures Tally(ParseCards("22233")) == [CardTuple(Card('2'), 3), CardTuple(Card('3'), 2)]
  {
    var cards := ParseCards("22233");
    assert cards == [Card('2'), Card('2'), Card('2'), Card('3'), Card('3')];
    assert TallyOf(cards, 1) == [CardTuple(Card('2'), 1)];
    assert TallyOf(cards, 2) == [CardTuple(Card('2'), 2)];
    assert TallyOf(cards, 3) == [CardTuple(Card('2'), 3)];
    assert TallyOf(cards, 4) == [CardTuple(Card('2'), 3), CardTuple(Card('3'), 1)];
    assert TallyOf(cards, 5) == [CardTuple(Card('2'), 3), CardTuple(Card('3'), 2)];
  }

  lemma StrengthOf22233()
    ensures Strength(HandOf(ParseCards("22233"))) == Ok(20971537)
  {
    Tally22233();
    StrengthsFrom("22233", [0, 0, 0, 1, 1]);
    StrengthFrom("22233", [CardTuple(Card('2'), 3), CardTuple(Card('3'), 2)], [0, 0, 0, 1, 1]);
    assert TypeValue([CardTuple(Card('2'), 3), CardTuple(Card('3'), 2)]) == 20971520;
    ValueFive(0, 0, 0, 1, 1);
  }

  lemma Tally33222()
    ensures Tally(ParseCards("33222")) == [CardTuple(Card('3'), 2), CardTuple(Card('2'), 3)]
  {
    var cards := ParseCards("33222");
    assert cards == [Card('3'), Card('3'), Card('2'), Card('2'), Card('2')];
    assert TallyOf(cards, 1) == [CardTuple(Card('3'), 1)];
    assert TallyOf(cards, 2) == [CardTuple(Card('3'), 2)];
    assert TallyOf(cards, 3) == [CardTuple(Card('3'), 2), CardTuple(Card('2'), 1)];
    assert TallyOf(cards, 4) == [CardTuple(Card('3'), 2), CardTuple(Card('2'), 2)];
    assert TallyOf(cards, 5) == [CardTuple(Card('3'), 2), CardTuple(Card('2'), 3)];
  }

  lemma StrengthOf33222()
    ensures Strength(HandOf(ParseCards("33222"))) == Ok(21041152)
  {
    Tally33222();
    StrengthsFrom("33222", [1, 1, 0, 0, 0]);
    StrengthFrom("33222", [CardTuple(Card('3'), 2), CardTuple(Card('2'), 3)], [1, 1, 0, 0, 0]);
    assert TypeValue([CardTuple(Card('3'), 2), CardTuple(Card('2'), 3)]) == 20971520;
    ValueFive(1, 1, 0, 0, 0);
  }

  lemma TallyAAAKQ()
    ensures Tally(ParseCards("AAAKQ")) == [CardTuple(Card('A'), 3), CardTuple(Card('K'), 1), CardTuple(Card('Q'), 1)]
  {
    var cards := ParseCards("AAAKQ");
    assert cards == [Card('A'), Card('A'), Card('A'), Card('K'), Card('Q')];
    assert TallyOf(cards, 1) == [CardTuple(Card('A'), 1)];
    assert TallyOf(cards, 2) == [CardTuple(Card('A'), 2)];
    assert TallyOf(cards, 3) == [CardTuple(Card('A'), 3)];
    assert TallyOf(cards, 4) == [CardTuple(Card('A'), 3), CardTuple(Card('K'), 1)];
    assert TallyOf(cards, 5) == [CardTuple(Card('A'), 3), CardTuple(Card('K'), 1), CardTuple(Card('Q'), 1)];
  }

  lemma StrengthOfAAAKQ()
    ensures Strength(HandOf(ParseCards("AAAKQ"))) == Ok(19713210)
  {
    TallyAAAKQ();
    StrengthsFrom("AAAKQ", [12, 12, 12, 11, 10]);
    StrengthFrom("AAAKQ", [CardTuple(Card('A'), 3), CardTuple(Card('K'), 1), CardTuple(Card('Q'), 1)], [12, 12, 12, 11, 10]);
    assert TypeValue([CardTuple(Card('A'), 3), CardTuple(Card('K'), 1), CardTuple(Card('Q'), 1)]) == 18874368;
    ValueFive(12, 12, 12, 11, 10);
  }

  lemma TallyKKKKQ()
    ensures Tally(ParseCards("KKKKQ")) == [CardTuple(Card('K'), 4), CardTuple(Card('Q'), 1)]
  {
    var cards := ParseCards("KKKKQ");
    assert cards == [Card('K'), Card('K'), Card('K'), Card('K'), Card('Q')];
    assert TallyOf(cards, 1) == [CardTuple(Card('K'), 1)];
    assert TallyOf(cards, 2) == [CardTuple(Card('K'), 2)];
    assert TallyOf(cards, 3) == [CardTuple(Card('K'), 3)];
    assert TallyOf(cards, 4) == [CardTuple(Card('K'), 4)];
    assert TallyOf(cards, 5) == [CardTuple(Card('K'), 4), CardTuple(Card('Q'), 1)];
  }

  lemma StrengthOfKKKKQ()
    ensures Strength(HandOf(ParseCards("KKKKQ"))) == Ok(68926394)
  {
    TallyKKKKQ();
    StrengthsFrom("KKKKQ", [11, 11, 11, 11, 10]);
    StrengthFrom("KKKKQ", [CardTuple(Card('K'), 4), CardTuple(Card('Q'), 1)], [11, 11, 11, 11, 10]);
    assert TypeValue([CardTuple(Card('K'), 4), CardTuple(Card('Q'), 1)]) == 68157440;
    ValueFive(11, 11, 11, 11, 10);
  }

  lemma Tally22222()
    ensures Tally(ParseCards("22222")) == [CardTuple(Card('2'), 5)]
  {
    var cards := ParseCards("22222");
    assert cards == [Card('2'), Card('2'), Card('2'), Card('2'), Card('2')];
    assert TallyOf(cards, 1) == [CardTuple(Card('2'), 1)];
    assert TallyOf(cards, 2) == [CardTuple(Card('2'), 2)];
    assert TallyOf(cards, 3) == [CardTuple(Card('2'), 3)];
    assert TallyOf(cards, 4) == [CardTuple(Card('2'), 4)];
    assert TallyOf(cards, 5) == [CardTuple(Card('2'), 5)];
  }

  lemma StrengthOf22222()
    ensures Strength(HandOf(ParseCards("22222"))) == Ok(268435456)
  {
    Tally22222();
    StrengthsFrom("22222", [0, 0, 0, 0, 0]);
    StrengthFrom("22222", [CardTuple(Card('2'), 5)], [0, 0, 0, 0, 0]);
    assert TypeValue([CardTuple(Card('2'), 5)]) == 268435456;
    ValueFive(0, 0, 0, 0, 0);
  }

  lemma Tally32T3K()
    ensures Tally(ParseCards("32T3K")) == [CardTuple(Card('3'), 2), CardTuple(Card('2'), 1), CardTuple(Card('T'), 1), CardTuple(Card('K'), 1)]
  {
    var cards := ParseCards("32T3K");
    assert cards == [Card('3'), Card('2'), Card('T'), Card('3'), Card('K')];
    assert TallyOf(cards, 1) == [CardTuple(Card('3'), 1)];
    assert TallyOf(cards, 2) == [CardTuple(Card('3'), 1), CardTuple(Card('2'), 1)];
    assert TallyOf(cards, 3) == [CardTuple(Card('3'), 1), CardTuple(Card('2'), 1), CardTuple(Card('T'), 1)];
    assert TallyOf(cards, 4) == [CardTuple(Card('3'), 2), CardTuple(Card('2'), 1), CardTuple(Card('T'), 1)];
    assert TallyOf(cards, 5) == [CardTuple(Card('3'), 2), CardTuple(Card('2'), 1), CardTuple(Card('T'), 1), CardTuple(Card('K'), 1)];
  }

  lemma StrengthOf32T3K()
    ensures Strength(HandOf(ParseCards("32T3K"))) == Ok(7407643)
  {
    Tally32T3K();
    StrengthsFrom("32T3K", [1, 0, 8, 1, 11]);
    StrengthFrom("32T3K", [CardTuple(Card('3'), 2), CardTuple(Card('2'), 1), CardTuple(Card('T'), 1), CardTuple(Card('K'), 1)], [1, 0, 8, 1, 11]);
    assert TypeValue([CardTuple(Card('3'), 2), CardTuple(Card('2'), 1), CardTuple(Card('T'), 1), CardTuple(Card('K'), 1)]) == 7340032;
    ValueFive(1, 0, 8, 1, 11);
  }

  lemma TallyT55J5()
    ensures Tally(ParseCards("T55J5")) == [CardTuple(Card('T'), 1), CardTuple(Card('5'), 3), CardTuple(Card('J'), 1)]
  {
    var cards := ParseCards("T55J5");
    assert cards == [Card('T'), Card('5'), Card('5'), Card('J'), Card('5')];
    assert TallyOf(cards, 1) == [CardTuple(Card('T'), 1)];
    assert TallyOf(cards, 2) == [CardTuple(Card('T'), 1), CardTuple(Card('5'), 1)];
    assert TallyOf(cards, 3) == [CardTuple(Card('T'), 1), CardTuple(Card('5'), 2)];
    assert TallyOf(cards, 4) == [CardTuple(Card('T'), 1), CardTuple(Card('5'), 2), CardTuple(Card('J'), 1)];
    assert TallyOf(cards, 5) == [CardTuple(Card('T'), 1), CardTuple(Card('5'), 3), CardTuple(Card('J'), 1)];
  }

  lemma StrengthOfT55J5()
    ensures Strength(HandOf(ParseCards("T55J5"))) == Ok(19411859)
  {
    TallyT55J5();
    StrengthsFrom("T55J5", [8, 3, 3, 9, 3]);
    StrengthFrom("T55J5", [CardTuple(Card('T'), 1), CardTuple(Card('5'), 3), CardTuple(Card('J'), 1)], [8, 3, 3, 9, 3]);
    assert TypeValue([CardTuple(Card('T'), 1), CardTuple(Card('5'), 3), CardTuple(Card('J'), 1)]) == 18874368;
    ValueFive(8, 3, 3, 9, 3);
  }

  lemma TallyKK677()
    ensures Tally(ParseCards("KK677")) == [CardTuple(Card('K'), 2), CardTuple(Card('6'), 1), CardTuple(Card('7'), 2)]
  {
    var cards := ParseCards("KK677");
    assert cards == [Card('K'), Card('K'), Card('6'), Card('7'), Card('7')];
    assert TallyOf(cards, 1) == [CardTuple(Card('K'), 1)];
    assert TallyOf(cards, 2) == [CardTuple(Card('K'), 2)];
    assert TallyOf(cards, 3) == [CardTuple(Card('K'), 2), CardTuple(Card('6'), 1)];
    assert TallyOf(cards, 4) == [CardTuple(Card('K'), 2), CardTuple(Card('6'), 1), CardTuple(Card('7'), 1)];
    assert TallyOf(cards, 5) == [CardTuple(Card('K'), 2), CardTuple(Card('6'), 1), CardTuple(Card('7'), 2)];
  }

  lemma StrengthOfKK677()
    ensures Strength(HandOf(ParseCards("KK677"))) == Ok(10204245)
  {
    TallyKK677();
    StrengthsFrom("KK677", [11, 11, 4, 5, 5]);
    StrengthFrom("KK677", [CardTuple(Card('K'), 2), CardTuple(Card('6'), 1), CardTuple(Card('7'), 2)], [11, 11, 4, 5, 5]);
    TypeValueKK677();
    ValueFive(11, 11, 4, 5, 5);
  }

  /** Two pair, tallied as in "KK677", is worth 9 << 20. */
  lemma TypeValueKK677()
    ensures TypeValue([CardTuple(Card('K'), 2), CardTuple(Card('6'), 1), CardTuple(Card('7'), 2)]) == 9437184
  {
    var ts := [CardTuple(Card('K'), 2), CardTuple(Card('6'), 1), CardTuple(Card('7'), 2)];
    assert Pow(4, 1) == 4 && Pow(4, 2) == 16;
    assert WeightsIn(ts, 1) == 4194304;
    assert WeightsIn(ts, 2) == 5242880;
  }

  lemma TallyKTJJT()
    ensures Tally(ParseCards("KTJJT")) == [CardTuple(Card('K'), 1), CardTuple(Card('T'), 2), CardTuple(Card('J'), 2)]
  {
    var cards := ParseCards("KTJJT");
    assert cards == [Card('K'), Card('T'), Card('J'), Card('J'), Card('T')];
    assert TallyOf(cards, 1) == [CardTuple(Card('K'), 1)];
    assert TallyOf(cards, 2) == [CardTuple(Card('K'), 1), CardTuple(Card('T'), 1)];
    assert TallyOf(cards, 3) == [CardTuple(Card('K'), 1), CardTuple(Card('T'), 1), CardTuple(Card('J'), 1)];
    assert TallyOf(cards, 4) == [CardTuple(Card('K'), 1), CardTuple(Card('T'), 1), CardTuple(Card('J'), 2)];
    assert TallyOf(cards, 5) == [CardTuple(Card('K'), 1), CardTuple(Card('T'), 2), CardTuple(Card('J'), 2)];
  }

  lemma StrengthOfKTJJT()
    ensures Strength(HandOf(ParseCards("KTJJT"))) == Ok(10193304)
  {
    TallyKTJJT();
    StrengthsFrom("KTJJT", [11, 8, 9, 9, 8]);
    StrengthFrom("KTJJT", [CardTuple(Card('K'), 1), CardTuple(Card('T'), 2), CardTuple(Card('J'), 2)], [11, 8, 9, 9, 8]);
    assert TypeValue([CardTuple(Card('K'), 1), CardTuple(Card('T'), 2), CardTuple(Card('J'), 2)]) == 9437184;
    ValueFive(11, 8, 9, 9, 8);
  }

  lemma TallyQQQJA()
    ensures Tally(ParseCards("QQQJA")) == [CardTuple(Card('Q'), 3), CardTuple(Card('J'), 1), CardTuple(Card('A'), 1)]
  {
    var cards := ParseCards("QQQJA");
    assert cards == [Card('Q'), Card('Q'), Card('Q'), Card('J'), Card('A')];
    assert TallyOf(cards, 1) == [CardTuple(Card('Q'), 1)];
    assert TallyOf(cards, 2) == [CardTuple(Card('Q'), 2)];
    assert TallyOf(cards, 3) == [CardTuple(Card('Q'), 3)];
    assert TallyOf(cards, 4) == [CardTuple(Card('Q'), 3), CardTuple(Card('J'), 1)];
    assert TallyOf(cards, 5) == [CardTuple(Card('Q'), 3), CardTuple(Card('J'), 1), CardTuple(Card('A'), 1)];
  }

  lemma StrengthOfQQQJA()
    ensures Strength(HandOf(ParseCards("QQQJA"))) == Ok(19573404)
  {
    TallyQQQJA();
    StrengthsFrom("QQQJA", [10, 10, 10, 9, 12]);
    StrengthFrom("QQQJA", [CardTuple(Card('Q'), 3), CardTuple(Card('J'), 1), CardTuple(Card('A'), 1)], [10, 10, 10, 9, 12]);
    assert TypeValue([CardTuple(Card('Q'), 3), CardTuple(Card('J'), 1), CardTuple(Card('A'), 1)]) == 18874368;
    ValueFive(10, 10, 10, 9, 12);
  }

  lemma Key22233()
    ensures HandKey(HandOf(ParseCards("22233"))) == 20971537
  {
    StrengthOf22233();
  }

  lemma Key33222()
    ensures HandKey(HandOf(ParseCards("33222"))) == 21041152
  {
    StrengthOf33222();
  }

  lemma KeyAAAKQ()
    ensures HandKey(HandOf(ParseCards("AAAKQ"))) == 19713210
  {
    StrengthOfAAAKQ();
  }

  lemma KeyKKKKQ()
    ensures HandKey(HandOf(ParseCards("KKKKQ"))) == 68926394
  {
    StrengthOfKKKKQ();
  }

  lemma Key22222()
    ensures HandKey(HandOf(ParseCards("22222"))) == 268435456
  {
    StrengthOf22222();
  }

  lemma Key32T3K()
    ensures HandKey(HandOf(ParseCards("32T3K"))) == 7407643
  {
    StrengthOf32T3K();
  }

  lemma KeyT55J5()
    ensures HandKey(HandOf(ParseCards("T55J5"))) == 19411859
  {
    StrengthOfT55J5();
  }

  lemma KeyKK677()
    ensures HandKey(HandOf(ParseCards("KK677"))) == 10204245
  {
    StrengthOfKK677();
  }

  lemma KeyKTJJT()
    ensures HandKey(HandOf(ParseCards("KTJJT"))) == 10193304
  {
    StrengthOfKTJJT();
  }

  lemma KeyQQQJA()
    ensures HandKey(HandOf(ParseCards("QQQJA"))) == 19573404
  {
    StrengthOfQQQJA();
  }

  /** The five hands of the first example, sorted weakest first. */
  lemma SortHandsExample()
    ensures Sorting.SortBy([HandOf(ParseCards("22233")), HandOf(ParseCards("33222")), HandOf(ParseCards("AAAKQ")), HandOf(ParseCards("KKKKQ")), HandOf(ParseCards("22222"))], HandKey)
         == [HandOf(ParseCards("AAAKQ")), HandOf(ParseCards("22233")), HandOf(ParseCards("33222")), HandOf(ParseCards("KKKKQ")), HandOf(ParseCards("22222"))]
  {
    Key22233();
    Key33222();
    KeyAAAKQ();
    KeyKKKKQ();
    Key22222();
    Lists.MultisetThirdFirst(HandOf(ParseCards("22233")), HandOf(ParseCards("33222")), HandOf(ParseCards("AAAKQ")), HandOf(ParseCards("KKKKQ")), HandOf(ParseCards("22222")));
    Sorting.SortByFive([HandOf(ParseCards("22233")), HandOf(ParseCards("33222")), HandOf(ParseCards("AAAKQ")), HandOf(ParseCards("KKKKQ")), HandOf(ParseCards("22222"))],
                       HandOf(ParseCards("AAAKQ")), HandOf(ParseCards("22233")), HandOf(ParseCards("33222")), HandOf(ParseCards("KKKKQ")), HandOf(ParseCards("22222")), HandKey);
  }
  /** Two players bidding 8 and 16: the stronger hand takes place two. */
  lemma ScoreExample()
    ensures GetScore(Game([Player(HandOf(ParseCards("22233")), 8), Player(HandOf(ParseCards("33222")), 16)])) == Ok(40)
  {
    Key22233();
    Key33222();
    ScoreOfTwo(Game([Player(HandOf(ParseCards("22233")), 8), Player(HandOf(ParseCards("33222")), 16)]), Player(HandOf(ParseCards("22233")), 8), Player(HandOf(ParseCards("33222")), 16));
  }

  /** The puzzle's example game: the players sorted by hand, and the total winnings 6440. */
  lemma GameExample()
    ensures Sorting.SortBy([Player(HandOf(ParseCards("32T3K")), 765), Player(HandOf(ParseCards("T55J5")), 684), Player(HandOf(ParseCards("KK677")), 28), Player(HandOf(ParseCards("KTJJT")), 220), Player(HandOf(ParseCards("QQQJA")), 483)], PlayerKey)
         == [Player(HandOf(ParseCards("32T3K")), 765), Player(HandOf(ParseCards("KTJJT")), 220), Player(HandOf(ParseCards("KK677")), 28), Player(HandOf(ParseCards("T55J5")), 684), Player(HandOf(ParseCards("QQQJA")), 483)]
    ensures GetScore(Game([Player(HandOf(ParseCards("32T3K")), 765), Player(HandOf(ParseCards("T55J5")), 684), Player(HandOf(ParseCards("KK677")), 28), Player(HandOf(ParseCards("KTJJT")), 220), Player(HandOf(ParseCards("QQQJA")), 483)])) == Ok(6440)
  {
    Key32T3K();
    KeyT55J5();
    KeyKK677();
    KeyKTJJT();
    KeyQQQJA();
    Lists.MultisetSwapSecondFourth(Player(HandOf(ParseCards("32T3K")), 765), Player(HandOf(ParseCards("T55J5")), 684), Player(HandOf(ParseCards("KK677")), 28), Player(HandOf(ParseCards("KTJJT")), 220), Player(HandOf(ParseCards("QQQJA")), 483));
    ScoreOfFive(Game([Player(HandOf(ParseCards("32T3K")), 765), Player(HandOf(ParseCards("T55J5")), 684), Player(HandOf(ParseCards("KK677")), 28), Player(HandOf(ParseCards("KTJJT")), 220), Player(HandOf(ParseCards("QQQJA")), 483)]),
                Player(HandOf(ParseCards("32T3K")), 765), Player(HandOf(ParseCards("KTJJT")), 220), Player(HandOf(ParseCards("KK677")), 28), Player(HandOf(ParseCards("T55J5")), 684), Player(HandOf(ParseCards("QQQJA")), 483));
    WinningsFive(Player(HandOf(ParseCards("32T3K")), 765), Player(HandOf(ParseCards("KTJJT")), 220), Player(HandOf(ParseCards("KK677")), 28), Player(HandOf(ParseCards("T55J5")), 684), Player(HandOf(ParseCards("QQQJA")), 483));
  }
}
