/** The true count and the bet it recommends, over exact rationals. The
    game computes them in binary floating point; see the README. */
module Counting {

  /** Decks left in the shoe, never taken below half a deck. */
  function DecksRemaining(cardsLeft: nat): (d: real)
    ensures d >= 0.5
    ensures d >= cardsLeft as real / 52.0
    ensures d == 0.5 || d == cardsLeft as real / 52.0
  {
    if 0.5 >= cardsLeft as real / 52.0 then 0.5 else cardsLeft as real / 52.0
  }

  /** Rounding of a non-negative value to the nearest hundredth, a tie
      going to the larger hundredth. */
  function RoundHundredths(y: real): (r: real)
    ensures -0.005 < r - y <= 0.005
    ensures (100.0 * r).Floor as real == 100.0 * r
  {
    var n := (100.0 * y + 0.5).Floor;
    assert n as real <= 100.0 * y + 0.5 < n as real + 1.0;
    assert 100.0 * (n as real / 100.0) == n as real;
    n as real / 100.0
  }

  /** A whole number of hundredths stays one when negated. */
  lemma WholeHundredthsNegate(m: real)
    requires (100.0 * m).Floor as real == 100.0 * m
    ensures (100.0 * -m).Floor as real == 100.0 * -m
  {
    var k := (100.0 * m).Floor;
    assert 100.0 * -m == (-k) as real;
  }

  /** Number.prototype.toFixed(2) read back by parseFloat: the magnitude is
      rounded, the sign kept. */
  function ToFixed2(x: real): (r: real)
    ensures -0.005 <= r - x <= 0.005
    ensures x >= 0.0 ==> -0.005 < r - x
    ensures x <= 0.0 ==> r - x < 0.005
    ensures x >= 0.0 ==> r >= 0.0
    ensures x <= 0.0 ==> r <= 0.0
    ensures (100.0 * r).Floor as real == 100.0 * r
  {
    if x < 0.0 then
      var m := RoundHundredths(-x);
      WholeHundredthsNegate(m);
      -m
    else RoundHundredths(x)
  }

  lemma RoundHundredthsMonotone(x: real, y: real)
    requires 0.0 <= x <= y
    ensures RoundHundredths(x) <= RoundHundredths(y)
  {
    assert (100.0 * x + 0.5).Floor <= (100.0 * y + 0.5).Floor;
  }

  lemma ToFixed2Monotone(x: real, y: real)
    requires x <= y
    ensures ToFixed2(x) <= ToFixed2(y)
  {
    if 0.0 <= x {
      RoundHundredthsMonotone(x, y);
    } else if y < 0.0 {
      RoundHundredthsMonotone(-y, -x);
    } else {
      RoundHundredthsMonotone(0.0, -x);
      RoundHundredthsMonotone(0.0, y);
    }
  }

  /** getTrueCount: the running count per remaining deck, to two places. */
  function TrueCount(runningCount: int, cardsLeft: nat): (tc: real)
    ensures -0.005 <= tc - runningCount as real / DecksRemaining(cardsLeft) <= 0.005
  {
    ToFixed2(runningCount as real / DecksRemaining(cardsLeft))
  }

  /** For a fixed number of cards left, a higher running count never gives
      a lower true count. */
  lemma TrueCountMonotone(rc1: int, rc2: int, cardsLeft: nat)
    requires rc1 <= rc2
    ensures TrueCount(rc1, cardsLeft) <= TrueCount(rc2, cardsLeft)
  {
    var d := DecksRemaining(cardsLeft);
    assert rc1 as real / d <= rc2 as real / d;
    ToFixed2Monotone(rc1 as real / d, rc2 as real / d);
  }

  /** Smallest bet, and the step per true-count point above one. */
  const MinBet := 1
  const BetUnit := 10

  /** getRecommendedBet: the minimum up to a true count of one, then ten
      more for each whole point of true count above one. */
  function RecommendedBet(tc: real): (bet: int)
    ensures bet >= MinBet
    ensures tc <= 1.0 ==> bet == MinBet
    ensures tc > 1.0 ==> (bet - MinBet) % BetUnit == 0
    ensures tc > 1.0 ==> ((bet - MinBet) / BetUnit) as real <= tc - 1.0 < ((bet - MinBet) / BetUnit + 1) as real
  {
    if tc <= 1.0 then MinBet else MinBet + (tc - 1.0).Floor * BetUnit
  }

  lemma RecommendedBetMonotone(tc1: real, tc2: real)
    requires tc1 <= tc2
    ensures RecommendedBet(tc1) <= RecommendedBet(tc2)
  {
    if tc1 > 1.0 {
      assert (tc1 - 1.0).Floor <= (tc2 - 1.0).Floor;
    }
  }

  /** A running count of 8 with 26 cards left is a true count of 16 and a
      recommended bet of 151. */
  lemma HalfDeckExample()
    ensures TrueCount(8, 26) == 16.0
    ensures RecommendedBet(TrueCount(8, 26)) == 151
  {
    assert DecksRemaining(26) == 0.5;
    assert 8 as real / 0.5 == 16.0;
    assert (100.0 * 16.0 + 0.5).Floor == 1600;
    assert (16.0 - 1.0).Floor == 15;
  }
}
