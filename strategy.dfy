/** The strategy advisor: basic strategy for pairs, soft and hard totals,
    with two true-count index plays, as an ordered first-match table. */
module Strategy {
  import opened Cards
  import opened Scoring

  datatype Action = Hit | Stand | Double | Split

  /** The dealer up-card as the advisor reads it: Ace 11, faces 10. */
  function DealerValue(up: Card): (v: int)
    ensures 2 <= v <= 11
    ensures v == 11 <==> up.value == Ace
  {
    if up.value == Ace then 11 else LowValue(up.value)
  }

  /** Two cards of the same value, with enough money to stake a second hand. */
  predicate CanSplitHand(hand: seq<Card>, balance: int, currentBet: int)
  {
    |hand| == 2 && hand[0].value == hand[1].value && balance >= currentBet
  }

  /** Whether the split table says to split a pair of `pair` against `dv`. */
  predicate SplitTableSplits(pair: Rank, dv: int)
  {
    || pair == Ace || pair == Eight
    || ((pair == Two || pair == Three || pair == Seven) && dv <= 7)
    || (pair == Four && (dv == 5 || dv == 6))
    || (pair == Six && dv <= 6)
    || (pair == Nine && dv <= 9 && dv != 7)
  }

  /** The soft-total table, for a two-card hand holding an Ace. */
  function SoftAction(score: int, dv: int): Action
  {
    if score >= 19 then Stand
    else if score == 18 then (if dv <= 6 then Double else if dv <= 8 then Stand else Hit)
    else if dv == 5 || dv == 6 then Double
    else if dv == 4 && score >= 15 then Double
    else Hit
  }

  /** The hard-total table followed by the two index plays. */
  function HardAction(score: int, dv: int, tc: real): Action
  {
    if score >= 17 then Stand
    else if score >= 13 && dv <= 6 then Stand
    else if score == 12 && 4 <= dv <= 6 then Stand
    else if score == 11 then Double
    else if score == 10 && dv <= 9 then Double
    else if score == 9 && 3 <= dv <= 6 then Double
    else if score == 16 && dv == 10 && tc >= 0.0 then Stand
    else if score == 15 && dv == 10 && tc >= 4.0 then Stand
    else Hit
  }

  /** getRecommendedAction for the active hand, once the round is being played. */
  function Recommend(hand: seq<Card>, up: Card, tc: real, balance: int, currentBet: int): (a: Action)
    ensures a == Split ==> CanSplitHand(hand, balance, currentBet)
  {
    var score := Score(hand);
    var soft := HasAce(hand) && score <= 21;
    var dv := DealerValue(up);
    if CanSplitHand(hand, balance, currentBet) && SplitTableSplits(hand[0].value, dv) then Split
    else if soft && |hand| == 2 then SoftAction(score, dv)
    else HardAction(score, dv, tc)
  }

  /** Aces and eights are always split when the split is affordable. */
  lemma AlwaysSplitAcesAndEights(hand: seq<Card>, up: Card, tc: real, balance: int, currentBet: int)
    requires CanSplitHand(hand, balance, currentBet)
    requires hand[0].value == Ace || hand[0].value == Eight
    ensures Recommend(hand, up, tc, balance, currentBet) == Split
  {
  }

  /** A two-card hand with an Ace scoring 19 or more stands. */
  lemma SoftNineteenStands(hand: seq<Card>, up: Card, tc: real, balance: int, currentBet: int)
    requires |hand| == 2 && HasAce(hand) && Score(hand) >= 19
    ensures Recommend(hand, up, tc, balance, currentBet) == Stand
  {
    ScoreClosedForm(hand);
    TwoCardTotals(hand);
  }

  /** A hand of 17 or more that is not a two-card soft hand stands, unless
      it is a pair the table splits. */
  lemma HardSeventeenStands(hand: seq<Card>, up: Card, tc: real, balance: int, currentBet: int)
    requires Score(hand) >= 17
    requires !(|hand| == 2 && HasAce(hand) && Score(hand) <= 21)
    ensures Recommend(hand, up, tc, balance, currentBet) in {Stand, Split}
    ensures !CanSplitHand(hand, balance, currentBet) ==> Recommend(hand, up, tc, balance, currentBet) == Stand
  {
  }

  /** Hard 16 against a dealer 10 stands exactly when the true count is not
      negative (the count-based index play); otherwise it hits. A pair of
      eights without the money to split is such a hand. */
  lemma HardSixteenAgainstTen(hand: seq<Card>, up: Card, tc: real, balance: int, currentBet: int)
    requires Score(hand) == 16 && DealerValue(up) == 10
    requires |hand| != 2 || !HasAce(hand)
    requires !CanSplitHand(hand, balance, currentBet)
    ensures Recommend(hand, up, tc, balance, currentBet) == Stand <==> tc >= 0.0
    ensures Recommend(hand, up, tc, balance, currentBet) in {Stand, Hit}
  {
    if |hand| == 2 {
      ScoreClosedForm(hand);
      TwoCardTotals(hand);
    }
  }

  /** Hard 15 against a dealer 10 stands exactly when the true count is at
      least 4. */
  lemma HardFifteenAgainstTen(hand: seq<Card>, up: Card, tc: real, balance: int, currentBet: int)
    requires Score(hand) == 15 && DealerValue(up) == 10
    requires |hand| != 2 || !HasAce(hand)
    ensures Recommend(hand, up, tc, balance, currentBet) == Stand <==> tc >= 4.0
    ensures Recommend(hand, up, tc, balance, currentBet) in {Stand, Hit}
  {
    if |hand| == 2 {
      ScoreClosedForm(hand);
      TwoCardTotals(hand);
    }
  }

  /** Worked example: a pair of eights against a 10 that the bankroll
      cannot split is played as hard 16, and stands at a true count of 0. */
  lemma ExampleUnaffordableEightsStand()
    ensures Recommend([Card(Spades, Eight), Card(Hearts, Eight)], Card(Clubs, Ten), 0.0, 5, 10) == Stand
  {
    var h := [Card(Spades, Eight), Card(Hearts, Eight)];
    assert h[..1][..0] == [] && h[..2] == h && h[..1] == [h[0]];
    ScoreClosedForm(h);
    HardSixteenAgainstTen(h, Card(Clubs, Ten), 0.0, 5, 10);
  }

  /** Worked example: soft 17 (Ace, Six) against a 5 doubles. */
  lemma ExampleSoftSeventeenDoubles(tc: real)
    ensures Recommend([Card(Spades, Ace), Card(Hearts, Six)], Card(Clubs, Five), tc, 200, 10) == Double
  {
    var h := [Card(Spades, Ace), Card(Hearts, Six)];
    assert h[..1][..0] == [] && h[..2] == h && h[..1] == [h[0]];
    ScoreClosedForm(h);
    assert HasAce(h) by { assert h[0].value == Ace; }
  }

  /** Worked example: a pair of eights against a 5 splits. */
  lemma ExampleEightsSplit(tc: real)
    ensures Recommend([Card(Spades, Eight), Card(Hearts, Eight)], Card(Clubs, Five), tc, 190, 10) == Split
  {
  }

  /** Worked example: hard 17 (Ten, Seven) against a 6 stands. */
  lemma ExampleHardSeventeenStands(tc: real)
    ensures Recommend([Card(Spades, Ten), Card(Hearts, Seven)], Card(Clubs, Six), tc, 190, 10) == Stand
  {
    var h := [Card(Spades, Ten), Card(Hearts, Seven)];
    assert h[..1][..0] == [] && h[..2] == h && h[..1] == [h[0]];
    ScoreClosedForm(h);
  }

  /** Worked example: soft 19 (Ace, Eight) against a 10 stands. */
  lemma ExampleSoftNineteenStands(tc: real)
    ensures Recommend([Card(Spades, Ace), Card(Hearts, Eight)], Card(Clubs, Ten), tc, 190, 10) == Stand
  {
    var h := [Card(Spades, Ace), Card(Hearts, Eight)];
    assert h[..1][..0] == [] && h[..2] == h && h[..1] == [h[0]];
    ScoreClosedForm(h);
    assert HasAce(h) by { assert h[0].value == Ace; }
  }
}
