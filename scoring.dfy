/** Blackjack hand values: the score with Aces counted 11 and demoted to 1
    while the hand is over 21, and the "low / high" display of a hand. */
module Scoring {
  import opened Cards

  /** The points a card is worth when Aces first count 11. */
  function HighValue(r: Rank): int
  {
    if r == Ace then 11 else LowValue(r)
  }

  /** The total with every Ace counted 1. */
  function LowTotal(hand: seq<Card>): int
  {
    if hand == [] then 0 else LowTotal(hand[..|hand| - 1]) + LowValue(hand[|hand| - 1].value)
  }

  /** The total with every Ace counted 11. */
  function HighTotal(hand: seq<Card>): int
  {
    if hand == [] then 0 else HighTotal(hand[..|hand| - 1]) + HighValue(hand[|hand| - 1].value)
  }

  function AceCount(hand: seq<Card>): nat
  {
    if hand == [] then 0 else AceCount(hand[..|hand| - 1]) + (if hand[|hand| - 1].value == Ace then 1 else 0)
  }

  /** One more card raises the low total by that card's low value, at least
      1: the dealer's loop makes progress with every draw. */
  lemma LowTotalSnoc(hand: seq<Card>, c: Card)
    ensures LowTotal(hand + [c]) == LowTotal(hand) + LowValue(c.value)
  {
    assert (hand + [c])[..|hand|] == hand;
  }

  predicate HasAce(hand: seq<Card>)
  {
    exists k :: 0 <= k < |hand| && hand[k].value == Ace
  }

  /** The demotion loop: while over 21 with an Ace still at 11, take 10 off. */
  function Demote(score: int, aces: nat): int
    decreases aces
  {
    if score > 21 && aces > 0 then Demote(score - 10, aces - 1) else score
  }

  /** The value of a hand as the game computes it. */
  function Score(hand: seq<Card>): int
  {
    Demote(HighTotal(hand), AceCount(hand))
  }

  /** Whether one Ace of the hand is worth 11 in its score. */
  predicate IsSoft(hand: seq<Card>)
  {
    AceCount(hand) > 0 && LowTotal(hand) + 10 <= 21
  }

  lemma {:induction false} HighIsLowPlusAces(hand: seq<Card>)
    ensures HighTotal(hand) == LowTotal(hand) + 10 * AceCount(hand)
    ensures LowTotal(hand) >= AceCount(hand)
    ensures LowTotal(hand) >= |hand|
  {
    if hand != [] {
      HighIsLowPlusAces(hand[..|hand| - 1]);
    }
  }

  lemma {:induction false} HasAceIffAceCount(hand: seq<Card>)
    ensures HasAce(hand) <==> AceCount(hand) > 0
  {
    if hand != [] {
      var front := hand[..|hand| - 1];
      HasAceIffAceCount(front);
      if HasAce(front) {
        var k :| 0 <= k < |front| && front[k].value == Ace;
        assert hand[k] == front[k];
      }
      if HasAce(hand) && hand[|hand| - 1].value != Ace {
        var k :| 0 <= k < |hand| && hand[k].value == Ace;
        assert front[k] == hand[k];
      }
    }
  }

  /** Demoting from k Aces at 11 ends with at most one Ace still at 11. */
  lemma {:induction false} DemoteClosedForm(low: int, k: nat)
    requires low >= k
    ensures Demote(low + 10 * k, k) == if k > 0 && low + 10 <= 21 then low + 10 else low
  {
    if k > 0 && low + 10 * k > 21 {
      DemoteClosedForm(low, k - 1);
    }
  }

  /** The score is the low total plus 10 exactly when the hand is soft. */
  lemma ScoreClosedForm(hand: seq<Card>)
    ensures Score(hand) == if IsSoft(hand) then LowTotal(hand) + 10 else LowTotal(hand)
    ensures IsSoft(hand) <==> HasAce(hand) && LowTotal(hand) + 10 <= 21
  {
    HighIsLowPlusAces(hand);
    HasAceIffAceCount(hand);
    DemoteClosedForm(LowTotal(hand), AceCount(hand));
  }

  /** No hand that can stay at or under 21 is scored over 21, and the score
      never falls below the all-Aces-one total. */
  lemma ScoreBounds(hand: seq<Card>)
    ensures LowTotal(hand) <= Score(hand) <= LowTotal(hand) + 10
    ensures LowTotal(hand) <= 21 ==> Score(hand) <= 21
    ensures Score(hand) > 21 <==> LowTotal(hand) > 21
    ensures Score(hand) >= |hand|
  {
    ScoreClosedForm(hand);
    HighIsLowPlusAces(hand);
  }

  /** The totals of a two-card hand, card by card. */
  lemma TwoCardTotals(hand: seq<Card>)
    requires |hand| == 2
    ensures LowTotal(hand) == LowValue(hand[0].value) + LowValue(hand[1].value)
    ensures HasAce(hand) <==> hand[0].value == Ace || hand[1].value == Ace
  {
    assert hand[..1][..0] == [];
    assert hand[..1] == [hand[0]];
    assert LowTotal(hand[..1]) == LowValue(hand[0].value);
    assert HasAce(hand) ==> hand[0].value == Ace || hand[1].value == Ace;
  }

  /** calculateScore: the two accumulator loops of the game. */
  method CalculateScore(hand: seq<Card>) returns (score: int)
    ensures score == Score(hand)
    ensures score == if IsSoft(hand) then LowTotal(hand) + 10 else LowTotal(hand)
  {
    score := 0;
    var aces := 0;
    for i := 0 to |hand|
      invariant score == HighTotal(hand[..i])
      invariant aces == AceCount(hand[..i])
    {
      assert hand[..i + 1][..i] == hand[..i];
      if hand[i].value == Ace {
        aces := aces + 1;
        score := score + 11;
      } else if hand[i].value == Jack || hand[i].value == Queen || hand[i].value == King {
        score := score + 10;
      } else {
        score := score + LowValue(hand[i].value);
      }
    }
    assert hand[..|hand|] == hand;
    while score > 21 && aces > 0
      invariant Demote(score, aces) == Score(hand)
    {
      score := score - 10;
      aces := aces - 1;
    }
    ScoreClosedForm(hand);
  }

  /** What getScoreDisplay shows: one number, or "low / high". */
  datatype ScoreText = Single(total: int) | Pair(low: int, high: int)

  /** The displayed score shows a single number exactly when that number is
      the hand's score; otherwise it shows the low total and the score. */
  function ScoreDisplay(hand: seq<Card>): (d: ScoreText)
    ensures d.Single? ==> d.total == Score(hand)
    ensures d.Pair? ==> d.high == Score(hand) && d.low == Score(hand) - 10 && d.high <= 21
    ensures d.Pair? <==> IsSoft(hand)
  {
    ScoreClosedForm(hand);
    HasAceIffAceCount(hand);
    var low := LowTotal(hand);
    if AceCount(hand) == 0 then Single(low)
    else if low + 10 <= 21 then Pair(low, low + 10)
    else Single(low)
  }
}
