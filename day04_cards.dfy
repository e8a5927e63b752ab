/** Day 4: scratchcards, their points and the card parser (04/card.py). */
module Day04Cards {
  import opened Wrappers
  import opened Strings
  import opened Numbers

  datatype Card = Card(idx: int, winning: seq<int>, user: seq<int>)

  /** How many of the first `n` user numbers, counted with repetition, are among the winning numbers. */
  function MatchesIn(user: seq<int>, winning: seq<int>, n: nat): (k: nat)
    requires n <= |user|
    ensures k <= n
  {
    if n == 0 then 0
    else MatchesIn(user, winning, n - 1) + (if user[n - 1] in winning then 1 else 0)
  }

  /** How many of the user's numbers are winning numbers. */
  function Matches(user: seq<int>, winning: seq<int>): (k: nat)
    ensures k <= |user|
  {
    MatchesIn(user, winning, |user|)
  }

  function Pow2(n: nat): (r: nat)
    ensures r >= 1
  {
    if n == 0 then 1 else 2 * Pow2(n - 1)
  }

  /** The points for `k` matches: nothing without a match, one for the first, doubled by every further one. */
  function Points(k: nat): nat
  {
    if k == 0 then 0 else Pow2(k - 1)
  }

  /** `getScore`: one pass over the user's numbers, starting the score at 1 on the first match and doubling it on the next ones. */
  method GetScore(card: Card) returns (score: int)
    ensures score == Points(Matches(card.user, card.winning))
  {
    score := 0;
    for i := 0 to |card.user|
      invariant score == Points(MatchesIn(card.user, card.winning, i))
    {
      if card.user[i] in card.winning {
        if score == 0 {
          score := 1;
        } else {
          score := score * 2;
        }
      }
    }
  }

  // ---------------------------------------------------------------- what the score depends on

  /** A card scores nothing exactly when none of the user's numbers is winning. */
  lemma {:induction false} NoMatches(user: seq<int>, winning: seq<int>, n: nat)
    requires n <= |user|
    ensures Points(MatchesIn(user, winning, n)) == 0 <==> forall k :: 0 <= k < n ==> user[k] !in winning
    decreases n
  {
    if n > 0 {
      NoMatches(user, winning, n - 1);
    }
  }

  /** Every further match doubles a non-zero score. */
  lemma PointsDouble(k: nat)
    requires k >= 1
    ensures Points(k + 1) == 2 * Points(k)
  {
  }

  /** Membership is all that counts: two winning lists with the same numbers give the same matches, whatever their duplicates or order. */
  lemma {:induction false} MatchesSameNumbers(user: seq<int>, w1: seq<int>, w2: seq<int>, n: nat)
    requires n <= |user|
    requires forall x :: x in w1 <==> x in w2
    ensures MatchesIn(user, w1, n) == MatchesIn(user, w2, n)
    decreases n
  {
    if n > 0 {
      MatchesSameNumbers(user, w1, w2, n - 1);
    }
  }

  /** Matches add up over the two halves of the user's numbers. */
  lemma {:induction false} MatchesAppend(a: seq<int>, b: seq<int>, winning: seq<int>, n: nat)
    requires n <= |b|
    ensures MatchesIn(a + b, winning, |a| + n) == Matches(a, winning) + MatchesIn(b, winning, n)
    decreases n
  {
    if n == 0 {
      MatchesPrefix(a, a + b, winning, |a|);
    } else {
      MatchesAppend(a, b, winning, n - 1);
      assert (a + b)[|a| + n - 1] == b[n - 1];
    }
  }

  /** The count over a prefix does not look past it. */
  lemma {:induction false} MatchesPrefix(a: seq<int>, b: seq<int>, winning: seq<int>, n: nat)
    requires n <= |a| && n <= |b| && a[..n] == b[..n]
    ensures MatchesIn(a, winning, n) == MatchesIn(b, winning, n)
    decreases n
  {
    if n > 0 {
      assert a[..n - 1] == a[..n][..n - 1] && b[..n - 1] == b[..n][..n - 1];
      assert a[n - 1] == a[..n][n - 1] && b[n - 1] == b[..n][n - 1];
      MatchesPrefix(a, b, winning, n - 1);
    }
  }

  // ---------------------------------------------------------------- readCard

  /**
   * `readCard`: the header's last blank-separated word is the index; the winning numbers stand
   * between the colon and the bar, the user's after it, and empty pieces between blanks are dropped.
   * Unpacking a split into the wrong number of parts, and `int` on a bad piece, raise `ValueError`.
   */
  function ReadCard(line: string): (r: Result<Card>)
  {
    var parts := SplitOn(line, ':');
    if |parts| != 2 then Err("ValueError")
    else
      var header := SplitOn(parts[0], ' ');
      match ReadInt(header[|header| - 1])
      case Err(e) => Err(e)
      case Ok(idx) =>
        var sides := SplitOn(parts[1], '|');
        if |sides| != 2 then Err("ValueError")
        else
          match ReadInts(NonEmpty(SplitOn(sides[0], ' ')))
          case Err(e) => Err(e)
          case Ok(winning) =>
            match ReadInts(NonEmpty(StripEach(SplitOn(sides[1], ' '))))
            case Err(e) => Err(e)
            case Ok(user) => Ok(Card(idx, winning, user))
  }

  /** A card line as the puzzle writes it: the two number lists in any blank layout. */
  function RenderCard(idx: nat, winning: Layout, user: Layout): string
  {
    "Card " + NatToString(idx) + ":" + Render(winning) + "|" + Render(user)
  }

  /** The pieces the parser reads, given each intermediate split, lead to the card. */
  lemma ReadCardOf(line: string, parts: seq<string>, header: seq<string>, idx: int, sides: seq<string>, winning: seq<int>, user: seq<int>)
    requires SplitOn(line, ':') == parts && |parts| == 2
    requires SplitOn(parts[0], ' ') == header && |header| > 0 && ReadInt(header[|header| - 1]) == Ok(idx)
    requires SplitOn(parts[1], '|') == sides && |sides| == 2
    requires ReadInts(NonEmpty(SplitOn(sides[0], ' '))) == Ok(winning)
    requires ReadInts(NonEmpty(StripEach(SplitOn(sides[1], ' ')))) == Ok(user)
    ensures ReadCard(line) == Ok(Card(idx, winning, user))
  {
  }

  /** A rendered list holds only digits, minus signs and blanks. */
  lemma RenderAvoids(l: Layout, c: char)
    requires c != ' ' && c != '-' && !IsDigit(c)
    ensures forall i :: 0 <= i < |Render(l)| ==> Render(l)[i] != c
  {
    TokensChars(l);
    JoinChars(Tokens(l), " ", c);
  }

  lemma NumberAvoids(n: nat, c: char)
    requires !IsDigit(c)
    ensures forall i :: 0 <= i < |NatToString(n)| ==> NatToString(n)[i] != c
  {
  }

  lemma CardParts(idx: nat, winning: Layout, user: Layout)
    ensures SplitOn(RenderCard(idx, winning, user), ':') == ["Card " + NatToString(idx), Render(winning) + "|" + Render(user)]
  {
    var head := "Card " + NatToString(idx);
    var body := Render(winning) + "|" + Render(user);
    RenderAvoids(winning, ':');
    RenderAvoids(user, ':');
    NumberAvoids(idx, ':');
    forall i | 0 <= i < |head| ensures head[i] != ':' {
      if i >= 5 { assert head[i] == NatToString(idx)[i - 5]; }
    }
    forall i | 0 <= i < |body| ensures body[i] != ':' {
      if i < |Render(winning)| { assert body[i] == Render(winning)[i]; }
      else if i > |Render(winning)| { assert body[i] == Render(user)[i - |Render(winning)| - 1]; }
    }
    assert Join([head, body], [':']) == RenderCard(idx, winning, user);
    SplitOnJoin([head, body], ':');
  }

  lemma HeaderWords(idx: nat)
    ensures SplitOn("Card " + NatToString(idx), ' ') == ["Card", NatToString(idx)]
  {
    NumberAvoids(idx, ' ');
    assert Join(["Card", NatToString(idx)], [' ']) == "Card " + NatToString(idx);
    SplitOnJoin(["Card", NatToString(idx)], ' ');
  }

  lemma CardSides(winning: Layout, user: Layout)
    ensures SplitOn(Render(winning) + "|" + Render(user), '|') == [Render(winning), Render(user)]
  {
    RenderAvoids(winning, '|');
    RenderAvoids(user, '|');
    SplitOnJoin([Render(winning), Render(user)], '|');
  }

  /** Reading a rendered card gives back its index and both lists of numbers. */
  lemma ReadCardRender(idx: nat, winning: Layout, user: Layout)
    ensures ReadCard(RenderCard(idx, winning, user)) == Ok(Card(idx, Values(winning), Values(user)))
  {
    var line := RenderCard(idx, winning, user);
    var parts := ["Card " + NatToString(idx), Render(winning) + "|" + Render(user)];
    CardParts(idx, winning, user);
    HeaderWords(idx);
    ReadIntString(idx);
    CardSides(winning, user);
    ReadLayout(winning);
    ReadLayoutStripped(user);
    ReadCardOf(line, parts, ["Card", NatToString(idx)], idx, [Render(winning), Render(user)], Values(winning), Values(user));
  }

  /** A line without a colon is rejected. */
  lemma NoColon(line: string)
    requires forall i :: 0 <= i < |line| ==> line[i] != ':'
    ensures ReadCard(line) == Err("ValueError")
  {
    FindAbsent(line, ':');
  }

  // ---------------------------------------------------------------- the examples

  lemma WinningText(w: Layout)
    requires w == [None, Some(1), Some(2), Some(3), None]
    ensures Render(w) == " 1 2 3 "
  {
    assert Tokens(w) == ["", "1", "2", "3", ""];
    assert Join(["", "1", "2", "3", ""], " ") == " 1 2 3 ";
  }

  lemma UserText(u: Layout)
    requires u == [None, Some(4), Some(5), None, Some(6)]
    ensures Render(u) == " 4 5  6"
  {
    assert Tokens(u) == ["", "4", "5", "", "6"];
    assert Join(["", "4", "5", "", "6"], " ") == " 4 5  6";
  }

  lemma FirstLineText(w: Layout, u: Layout)
    requires w == [None, Some(1), Some(2), Some(3), None] && u == [None, Some(4), Some(5), None, Some(6)]
    ensures RenderCard(1, w, u) == "Card 1: 1 2 3 | 4 5  6"
  {
    WinningText(w);
    UserText(u);
    assert NatToString(1) == "1";
  }

  lemma FirstLineValues(w: Layout, u: Layout)
    requires w == [None, Some(1), Some(2), Some(3), None] && u == [None, Some(4), Some(5), None, Some(6)]
    ensures Values(w) == [1, 2, 3] && Values(u) == [4, 5, 6]
  {
    assert ValuesIn([None, Some(1), Some(2), Some(3), None], 5) == [1, 2, 3];
    assert ValuesIn([None, Some(4), Some(5), None, Some(6)], 5) == [4, 5, 6];
  }

  /** The first example line, with its doubled blank before the last number. */
  lemma FirstLine()
    ensures ReadCard("Card 1: 1 2 3 | 4 5  6") == Ok(Card(1, [1, 2, 3], [4, 5, 6]))
  {
    var w: Layout := [None, Some(1), Some(2), Some(3), None];
    var u: Layout := [None, Some(4), Some(5), None, Some(6)];
    FirstLineText(w, u);
    FirstLineValues(w, u);
    ReadCardRender(1, w, u);
  }

  function CardPoints(card: Card): nat
  {
    Points(Matches(card.user, card.winning))
  }

  lemma CardOneScore()
    ensures Matches([83, 86, 6, 31, 17, 9, 48, 53], [41, 48, 83, 86, 17]) == 4
  {
    assert MatchesIn([83, 86, 6, 31, 17, 9, 48, 53], [41, 48, 83, 86, 17], 8) == 4;
  }

  lemma CardTwoScore()
    ensures Matches([61, 30, 68, 82, 17, 32, 24, 19], [13, 32, 20, 16, 61]) == 2
  {
    assert MatchesIn([61, 30, 68, 82, 17, 32, 24, 19], [13, 32, 20, 16, 61], 8) == 2;
  }

  lemma CardThreeScore()
    ensures Matches([69, 82, 63, 72, 16, 21, 14, 1], [1, 21, 53, 59, 44]) == 2
  {
    assert MatchesIn([69, 82, 63, 72, 16, 21, 14, 1], [1, 21, 53, 59, 44], 8) == 2;
  }

  lemma CardFourScore()
    ensures Matches([59, 84, 76, 51, 58, 5, 54, 83], [41, 92, 73, 84, 69]) == 1
  {
    assert MatchesIn([59, 84, 76, 51, 58, 5, 54, 83], [41, 92, 73, 84, 69], 8) == 1;
  }

  lemma CardFiveScore()
    ensures Matches([88, 30, 70, 12, 93, 22, 82, 36], [87, 83, 26, 28, 32]) == 0
  {
    assert MatchesIn([88, 30, 70, 12, 93, 22, 82, 36], [87, 83, 26, 28, 32], 8) == 0;
  }

  lemma CardSixScore()
    ensures Matches([74, 77, 10, 23, 35, 67, 36, 11], [31, 18, 13, 56, 72]) == 0
  {
    assert MatchesIn([74, 77, 10, 23, 35, 67, 36, 11], [31, 18, 13, 56, 72], 8) == 0;
  }

  /** The six example cards score 8, 2, 2, 1, 0 and 0 points, 13 in all. */
  lemma ExampleTotal()
    ensures CardPoints(Card(1, [41, 48, 83, 86, 17], [83, 86, 6, 31, 17, 9, 48, 53]))
      + CardPoints(Card(2, [13, 32, 20, 16, 61], [61, 30, 68, 82, 17, 32, 24, 19]))
      + CardPoints(Card(3, [1, 21, 53, 59, 44], [69, 82, 63, 72, 16, 21, 14, 1]))
      + CardPoints(Card(4, [41, 92, 73, 84, 69], [59, 84, 76, 51, 58, 5, 54, 83]))
      + CardPoints(Card(5, [87, 83, 26, 28, 32], [88, 30, 70, 12, 93, 22, 82, 36]))
      + CardPoints(Card(6, [31, 18, 13, 56, 72], [74, 77, 10, 23, 35, 67, 36, 11])) == 13
  {
    CardOneScore();
    CardTwoScore();
    CardThreeScore();
    CardFourScore();
    CardFiveScore();
    CardSixScore();
  }
}
