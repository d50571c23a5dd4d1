/** The round state machine of BlackjackGame: betting, the player's hands
    (with doubling and splitting), the dealer's turn and settlement, over
    the shoe, the Hi-Lo running count and the bankroll. */
module Game {
  import opened Cards
  import opened Scoring
  import opened Shoe
  import opened Counting
  import opened Strategy

  datatype Option<T> = None | Some(value: T)

  /** Halted is the state an empty-shoe draw leaves the game in: the draw
      throws while the busy flag is set, so no later action is accepted. */
  datatype GameState = Betting | Playing | DealerTurn | Resolved | Halted

  datatype Outcome = Bust | Win | Lose | Push

  const StartingBalance: int := 200

  /** A new shoe is made at deal time when fewer than a quarter of the
      shoe's cards are left. */
  const ReshuffleBelow: nat := ShoeCards / 4

  function Sum(s: seq<int>): int
  {
    if s == [] then 0 else Sum(s[..|s| - 1]) + s[|s| - 1]
  }

  lemma {:induction false} SumUpdate(s: seq<int>, i: nat, v: int)
    requires i < |s|
    ensures Sum(s[i := v]) == Sum(s) - s[i] + v
  {
    if i < |s| - 1 {
      assert s[i := v][..|s| - 1] == s[..|s| - 1][i := v];
      SumUpdate(s[..|s| - 1], i, v);
    } else {
      assert s[i := v][..|s| - 1] == s[..|s| - 1];
    }
  }

  /** How one hand fares against the dealer's final score: a player bust
      loses even when the dealer busts too. */
  function Settle(player: int, dealer: int): (o: Outcome)
    ensures o == Bust <==> player > 21
    ensures o == Win <==> player <= 21 && (dealer > 21 || player > dealer)
    ensures o == Lose <==> player <= 21 && dealer <= 21 && player < dealer
    ensures o == Push <==> player <= 21 && dealer <= 21 && player == dealer
  {
    if player > 21 then Bust
    else if dealer > 21 then Win
    else if player > dealer then Win
    else if player < dealer then Lose
    else Push
  }

  /** What a settled hand returns to the bankroll: stake and equal profit on
      a win, the stake on a push, nothing otherwise. */
  function Payout(o: Outcome, bet: int): int
  {
    match o
    case Win => 2 * bet
    case Push => bet
    case _ => 0
  }

  function HandPayout(hand: seq<Card>, bet: int, dealerScore: int): (p: int)
    ensures p == 0 || p == bet || p == 2 * bet
    ensures Score(hand) > 21 ==> p == 0
  {
    Payout(Settle(Score(hand), dealerScore), bet)
  }

  function TotalPayout(hands: seq<seq<Card>>, bets: seq<int>, dealerScore: int): int
    requires |hands| == |bets|
  {
    if hands == [] then 0
    else TotalPayout(hands[..|hands| - 1], bets[..|bets| - 1], dealerScore)
         + HandPayout(hands[|hands| - 1], bets[|bets| - 1], dealerScore)
  }

  /** Settlement returns between nothing and twice the stakes. */
  lemma {:induction false} TotalPayoutBounds(hands: seq<seq<Card>>, bets: seq<int>, dealerScore: int)
    requires |hands| == |bets|
    requires forall k :: 0 <= k < |bets| ==> bets[k] >= 0
    ensures 0 <= TotalPayout(hands, bets, dealerScore) <= 2 * Sum(bets)
  {
    if hands != [] {
      TotalPayoutBounds(hands[..|hands| - 1], bets[..|bets| - 1], dealerScore);
    }
  }

  /** When every hand busts, nothing comes back, whatever the dealer did. */
  lemma {:induction false} AllBustPaysNothing(hands: seq<seq<Card>>, bets: seq<int>, dealerScore: int)
    requires |hands| == |bets|
    requires forall k :: 0 <= k < |hands| ==> Score(hands[k]) > 21
    ensures TotalPayout(hands, bets, dealerScore) == 0
  {
    if hands != [] {
      AllBustPaysNothing(hands[..|hands| - 1], bets[..|bets| - 1], dealerScore);
    }
  }

  /** The dealer's stop rule, card by card: every card from position from
      on was drawn while the cards before it scored under 17. */
  predicate DrawnUnderSeventeen(hand: seq<Card>, from: nat)
  {
    forall j :: from <= j < |hand| ==> Score(hand[..j]) < 17
  }

  /** The stop rule fixes the dealer's hand: a hand that has reached 17 is
      not a proper prefix of any hand drawn under the rule from the same
      start. */
  lemma StopRuleFixesHand(h1: seq<Card>, h2: seq<Card>, from: nat)
    requires from <= |h1| <= |h2| && h2[..|h1|] == h1
    requires Score(h1) >= 17 && DrawnUnderSeventeen(h2, from)
    ensures h1 == h2
  {
  }

  /** A card drawn while under 17 keeps the stop rule. */
  lemma DrawnUnderSeventeenSnoc(hand: seq<Card>, card: Card, from: nat)
    requires DrawnUnderSeventeen(hand, from) && from <= |hand| && Score(hand) < 17
    ensures DrawnUnderSeventeen(hand + [card], from)
  {
    var longer := hand + [card];
    forall j | from <= j < |longer|
      ensures Score(longer[..j]) < 17
    {
      if j < |hand| {
        assert longer[..j] == hand[..j];
      } else {
        assert longer[..j] == hand;
      }
    }
  }

  class BlackjackGame {
    const numbersOnly: bool
    var deck: seq<Card>
    var runningCount: int
    var balance: int
    var dealerHand: seq<Card>
    var playerHands: seq<seq<Card>>
    var currentHandIndex: nat
    var currentBet: int
    var bets: seq<int>
    var gameState: GameState
    var roundStartingBalance: int

    /** Every hand from `from` on carries the round's bet; earlier hands
        carry it or, doubled down, twice it. */
    ghost predicate BetsAlignedFrom(from: int)
      reads this
    {
      forall k :: 0 <= k < |bets| ==>
        if k < from then bets[k] == currentBet || bets[k] == 2 * currentBet
        else bets[k] == currentBet
    }

    /** Money is either in the bankroll or staked on a hand. */
    ghost predicate Conserved()
      reads this
    {
      balance + Sum(bets) == roundStartingBalance
    }

    /** After settlement the bankroll is the starting balance less the
        stakes plus what the hands returned. */
    ghost predicate Settled()
      reads this
      requires |playerHands| == |bets|
    {
      balance == roundStartingBalance - Sum(bets) + TotalPayout(playerHands, bets, Score(dealerHand))
    }

    /** The running count is minus the Hi-Lo sum of the cards not yet seen:
        those in the shoe and, while the hand is played, the dealer's hole card. */
    ghost predicate CountsUnseen()
      reads this
    {
      if gameState == Playing then
        |dealerHand| >= 2 && runningCount + HiLoSum(deck) + HiLo(dealerHand[1].value) == 0
      else gameState == Halted || runningCount + HiLoSum(deck) == 0
    }

    ghost predicate Inv(alignedFrom: int)
      reads this
    {
      && |playerHands| == |bets| >= 1
      && currentHandIndex < |playerHands|
      && balance >= 0
      && |deck| <= ShoeCards
      && (gameState == Playing ==>
            |dealerHand| == 2 && currentBet > 0 && Conserved() && BetsAlignedFrom(alignedFrom))
      && (gameState == GameState.DealerTurn ==> |dealerHand| >= 2 && Conserved())
      && (gameState == Resolved ==> |dealerHand| >= 2 && Settled())
      && CountsUnseen()
    }

    ghost predicate Valid()
      reads this
    {
      Inv(currentHandIndex)
    }

    function ActiveHand(): seq<Card>
      reads this
      requires Valid()
    {
      playerHands[currentHandIndex]
    }

    /** The controls the player may use (the game's button states). */
    predicate DealEnabled()
      reads this
    {
      gameState == Betting || gameState == Resolved
    }

    predicate HitEnabled()
      reads this
      requires Valid()
    {
      gameState == Playing && Score(ActiveHand()) < 21
    }

    predicate StandEnabled()
      reads this
    {
      gameState == Playing
    }

    predicate DoubleEnabled()
      reads this
      requires Valid()
    {
      gameState == Playing && |ActiveHand()| == 2 && balance >= currentBet
    }

    predicate SplitEnabled()
      reads this
      requires Valid()
    {
      gameState == Playing && CanSplitHand(ActiveHand(), balance, currentBet)
    }

    /** getTrueCount: the running count per remaining deck, to within the
        two-place rounding. */
    function GetTrueCount(): (tc: real)
      reads this
      ensures -0.005 <= tc - runningCount as real / DecksRemaining(|deck|) <= 0.005
    {
      TrueCount(runningCount, |deck|)
    }

    function GetRecommendedBet(): (bet: int)
      reads this
      ensures bet >= MinBet
    {
      RecommendedBet(GetTrueCount())
    }

    /** The advice for the active hand: none outside play, and a split only
        when the split control is on offer. */
    function GetRecommendedAction(): (a: Option<Action>)
      reads this
      requires Valid()
      ensures a.Some? <==> gameState == Playing
      ensures a == Some(Action.Split) ==> SplitEnabled()
    {
      if gameState != Playing then None
      else Some(Recommend(ActiveHand(), dealerHand[0], GetTrueCount(), balance, currentBet))
    }

    /** The hit control is on in play exactly while the active hand's low
        total is under 21 and the hand is not a soft 21 (an ace counted
        high on a low total of 11). */
    lemma HitEnabledByLowTotal()
      requires Valid() && gameState == Playing
      ensures HitEnabled() <==>
                LowTotal(ActiveHand()) < 21 && !(HasAce(ActiveHand()) && LowTotal(ActiveHand()) == 11)
    {
      ScoreClosedForm(ActiveHand());
    }

    /** The betting controls and the play controls are never offered
        together, every play control comes with stand, and advice is shown
        exactly with the play controls. */
    lemma ControlsFollowState()
      requires Valid()
      ensures DealEnabled() ==> !StandEnabled()
      ensures HitEnabled() || DoubleEnabled() || SplitEnabled() ==> StandEnabled()
      ensures GetRecommendedAction().Some? <==> StandEnabled()
    {
    }

    /** A settled round in which every hand busted cost exactly its stakes,
        whatever the dealer drew. */
    lemma AllBustRoundCostsStakes()
      requires Valid() && gameState == Resolved
      requires forall k :: 0 <= k < |playerHands| ==> Score(playerHands[k]) > 21
      ensures balance == roundStartingBalance - Sum(bets)
    {
      AllBustPaysNothing(playerHands, bets, Score(dealerHand));
    }

    constructor (numbersOnly: bool, picks: seq<nat>)
      requires ValidPicks(picks, ShoeCards)
      ensures Valid() && this.numbersOnly == numbersOnly
      ensures deck == FreshShoe(numbersOnly, picks) && runningCount == 0
      ensures balance == StartingBalance && gameState == Betting
      ensures dealerHand == [] && playerHands == [[]] && bets == [0]
      ensures currentHandIndex == 0 && currentBet == 0
    {
      this.numbersOnly := numbersOnly;
      deck := [];
      balance := StartingBalance;
      runningCount := 0;
      dealerHand := [];
      playerHands := [[]];
      currentHandIndex := 0;
      currentBet := 0;
      bets := [0];
      gameState := Betting;
      roundStartingBalance := StartingBalance;
      new;
      CreateShoe(picks);
      FreshShoeBalanced(numbersOnly, picks);
    }

    /** createShoe: lay out the decks in order, shuffle them, zero the count. */
    method CreateShoe(picks: seq<nat>)
      requires ValidPicks(picks, ShoeCards)
      modifies this`deck, this`runningCount
      ensures deck == FreshShoe(numbersOnly, picks) && runningCount == 0
    {
      LayOutShoe();
      var ordered := deck;
      var a := new Card[|ordered|](k requires 0 <= k < |ordered| => ordered[k]);
      assert a[..] == ordered;
      Shuffle(a, picks);
      deck := a[..];
      runningCount := 0;
    }

    /** The nested loops of createShoe: decks, then suits, then ranks. */
    method LayOutShoe()
      modifies this`deck
      ensures deck == OrderedShoe(Values(numbersOnly), ShoeSize)
    {
      var values := Values(numbersOnly);
      deck := [];
      for i := 0 to ShoeSize
        invariant deck == OrderedShoe(values, i)
      {
        for s := 0 to |Suits|
          invariant deck == OrderedShoe(values, i) + DeckRows(values, s)
        {
          for v := 0 to |values|
            invariant deck == OrderedShoe(values, i) + DeckRows(values, s) + SuitRow(Suits[s], values, v)
          {
            deck := deck + [Card(Suits[s], values[v])];
          }
        }
      }
    }

    /** updateCount: apply the card's Hi-Lo tag to the running count. */
    method UpdateCount(card: Card)
      modifies this`runningCount
      ensures runningCount == old(runningCount) + HiLo(card.value)
    {
      var tag := HiLo(card.value);
      runningCount := runningCount + tag;
    }

    /** drawCard: take the last card of the shoe, counting it when visible.
        An empty shoe yields no card. */
    method DrawCard(visible: bool) returns (card: Option<Card>)
      modifies this`deck, this`runningCount
      ensures old(deck) == [] ==> card == None && deck == [] && runningCount == old(runningCount)
      ensures old(deck) != [] ==>
        && card == Some(old(deck)[|old(deck)| - 1])
        && deck == old(deck)[..|old(deck)| - 1]
        && runningCount == old(runningCount) + (if visible then HiLo(card.value.value) else 0)
      ensures old(deck) != [] ==> HiLoSum(old(deck)) == HiLoSum(deck) + HiLo(card.value.value)
    {
      if deck == [] {
        return None;
      }
      var last := deck[|deck| - 1];
      deck := deck[..|deck| - 1];
      if visible {
        UpdateCount(last);
      }
      card := Some(last);
    }

    /** deal: an invalid bet changes nothing. A valid one makes a new shoe
        if the shoe is low, stakes the bet, deals player, dealer, player,
        dealer (the last face down and uncounted) and starts play; a natural
        21 stands at once. */
    method Deal(bet: int, picks: seq<nat>) returns (accepted: bool)
      requires Valid() && DealEnabled() && ValidPicks(picks, ShoeCards)
      modifies this
      ensures Valid()
      ensures accepted <==> 0 < bet <= old(balance)
      ensures !accepted ==> unchanged(this)
      ensures accepted ==> RoundStarted(bet, picks)
    {
      if bet <= 0 || bet > balance {
        return false;
      }
      StartRound(bet, picks);
      accepted := true;
    }

    /** The work of deal once the bet is accepted. */
    method StartRound(bet: int, picks: seq<nat>)
      requires Valid() && DealEnabled() && ValidPicks(picks, ShoeCards)
      requires 0 < bet <= balance
      modifies this
      ensures Valid()
      ensures RoundStarted(bet, picks)
    {
      OpenFromShoe(bet, picks);
      var score := CalculateScore(playerHands[0]);
      if score == 21 {
        Stand();
      }
    }

    /** deal up to the natural check: the shoe check, the stake and the four
        cards. */
    method OpenFromShoe(bet: int, picks: seq<nat>)
      requires Valid() && DealEnabled() && ValidPicks(picks, ShoeCards)
      requires 0 < bet <= balance
      modifies this
      ensures Valid() && RoundOpened(bet, picks)
    {
      roundStartingBalance := balance;
      RefreshShoe(picks);
      ghost var count := runningCount;
      assert count == CountFor(old(deck), old(runningCount));
      OpenRound(bet);
    }

    /** The shoe check of deal: a shoe below the threshold is replaced by a
        fresh one, which resets the count. */
    method RefreshShoe(picks: seq<nat>)
      requires ValidPicks(picks, ShoeCards)
      modifies this`deck, this`runningCount
      ensures deck == ShoeFor(old(deck), picks)
      ensures runningCount == CountFor(old(deck), old(runningCount))
      ensures |deck| >= ReshuffleBelow && |deck| >= |old(deck)|
      ensures |old(deck)| < ReshuffleBelow ==> |deck| == ShoeCards && runningCount + HiLoSum(deck) == 0
    {
      if |deck| < ReshuffleBelow {
        CreateShoe(picks);
        FreshShoeBalanced(numbersOnly, picks);
      }
    }

    /** The part of deal after the shoe check: stake the bet and deal the
        opening cards. */
    method OpenRound(bet: int)
      requires 0 < bet <= balance && roundStartingBalance == balance
      requires ReshuffleBelow <= |deck| <= ShoeCards && runningCount + HiLoSum(deck) == 0
      modifies this
      ensures Valid()
      ensures var n := |old(deck)|;
        && roundStartingBalance == old(balance)
        && currentBet == bet && bets == [bet]
        && playerHands == [[old(deck)[n - 1], old(deck)[n - 3]]]
        && gameState == Playing && currentHandIndex == 0
        && balance == old(balance) - bet
        && deck == old(deck)[..n - 4]
        && dealerHand == [old(deck)[n - 2], old(deck)[n - 4]]
        && runningCount == old(runningCount)
                           + HiLo(old(deck)[n - 1].value) + HiLo(old(deck)[n - 2].value) + HiLo(old(deck)[n - 3].value)
    {
      StakeBet(bet);
      DealInitialCards();
      gameState := Playing;
    }

    /** Take the stake from the bankroll and clear the table for a new round. */
    method StakeBet(bet: int)
      modifies this`balance, this`currentBet, this`playerHands, this`dealerHand,
               this`currentHandIndex, this`bets
      ensures balance == old(balance) - bet && currentBet == bet
      ensures playerHands == [[]] && dealerHand == [] && currentHandIndex == 0
      ensures bets == [bet] && Sum(bets) == bet
    {
      balance := balance - bet;
      currentBet := bet;
      playerHands := [[]];
      dealerHand := [];
      currentHandIndex := 0;
      bets := [bet];
      assert bets[..0] == [];
    }

    /** The opening deal: player, dealer, player, dealer, the last card face
        down and left out of the count. */
    method DealInitialCards()
      requires |deck| >= 4 && playerHands == [[]] && dealerHand == []
      modifies this`deck, this`runningCount, this`playerHands, this`dealerHand
      ensures var n := |old(deck)|;
        && playerHands == [[old(deck)[n - 1], old(deck)[n - 3]]]
        && dealerHand == [old(deck)[n - 2], old(deck)[n - 4]]
        && deck == old(deck)[..n - 4]
        && runningCount == old(runningCount) + HiLo(old(deck)[n - 1].value)
                           + HiLo(old(deck)[n - 2].value) + HiLo(old(deck)[n - 3].value)
      ensures runningCount + HiLoSum(deck) + HiLo(dealerHand[1].value)
              == old(runningCount) + HiLoSum(old(deck))
    {
      ghost var s, n := deck, |deck|;
      var p1 := DrawCard(true);
      assert deck == s[..n - 1];
      var d1 := DrawCard(true);
      assert deck == s[..n - 2];
      var p2 := DrawCard(true);
      assert deck == s[..n - 3];
      var d2 := DrawCard(false);
      assert deck == s[..n - 4];
      assert playerHands[0] + [p1.value] == [p1.value];
      playerHands := [playerHands[0] + [p1.value]];
      dealerHand := dealerHand + [d1.value];
      assert playerHands[0] + [p2.value] == [p1.value, p2.value];
      playerHands := [playerHands[0] + [p2.value]];
      dealerHand := dealerHand + [d2.value];
      assert dealerHand == [d1.value, d2.value];
    }

    /** The table once the dealer has played from hand0 with shoe0 left, the
        count at count0 with the hole card counted and the bankroll at
        balance0: the dealer took the shoe's last cards while under 17, and
        the round was settled, or halted on an empty shoe. */
    ghost predicate DealerFinished(hand0: seq<Card>, shoe0: seq<Card>, count0: int, balance0: int)
      reads this
    {
      && (gameState == Resolved || gameState == Halted)
      && |deck| <= |shoe0| && deck == shoe0[..|deck|]
      && dealerHand == hand0 + Reverse(shoe0[|deck|..])
      && DrawnUnderSeventeen(dealerHand, |hand0|)
      && runningCount + HiLoSum(deck) == count0 + HiLoSum(shoe0)
      && (gameState == Halted ==> deck == [] && Score(dealerHand) < 17)
      && (gameState == Resolved ==>
            && Score(dealerHand) >= 17
            && |playerHands| == |bets|
            && balance == balance0 + TotalPayout(playerHands, bets, Score(dealerHand)))
    }

    /** What the dealer's turn and settlement leave behind. */
    twostate predicate DealerPlayed()
      reads this
    {
      && playerHands == old(playerHands) && bets == old(bets)
      && currentHandIndex == old(currentHandIndex) && currentBet == old(currentBet)
      && roundStartingBalance == old(roundStartingBalance)
      && |old(dealerHand)| >= 2
      && DealerFinished(old(dealerHand), old(deck), old(runningCount) + HiLo(old(dealerHand)[1].value), old(balance))
    }

    /** The shoe deal plays from: a fresh one when the old one was low. */
    function ShoeFor(oldDeck: seq<Card>, picks: seq<nat>): seq<Card>
      requires ValidPicks(picks, ShoeCards)
    {
      if |oldDeck| < ReshuffleBelow then FreshShoe(numbersOnly, picks) else oldDeck
    }

    /** The count deal starts from: zero when the shoe is replaced. */
    function CountFor(oldDeck: seq<Card>, oldCount: int): int
    {
      if |oldDeck| < ReshuffleBelow then 0 else oldCount
    }

    /** What every accepted deal leaves behind: the bet staked as the only
        hand's, and the player's two cards the shoe's last and third-last. */
    twostate predicate Staked(bet: int, picks: seq<nat>)
      requires ValidPicks(picks, ShoeCards)
      reads this
    {
      var shoe := ShoeFor(old(deck), picks);
      var n := |shoe|;
      && n >= ReshuffleBelow
      && roundStartingBalance == old(balance)
      && currentBet == bet && bets == [bet]
      && playerHands == [[shoe[n - 1], shoe[n - 3]]]
    }

    /** The table once the four cards are out: the shoe lost its last four
        cards, player, dealer, player, dealer; the hole card is uncounted;
        the count restarted if the shoe was fresh; play is on. */
    twostate predicate RoundOpened(bet: int, picks: seq<nat>)
      requires ValidPicks(picks, ShoeCards)
      reads this
    {
      var shoe := ShoeFor(old(deck), picks);
      var n := |shoe|;
      && Staked(bet, picks)
      && gameState == Playing && currentHandIndex == 0
      && balance == old(balance) - bet
      && deck == shoe[..n - 4]
      && dealerHand == [shoe[n - 2], shoe[n - 4]]
      && runningCount == CountFor(old(deck), old(runningCount))
                         + HiLo(shoe[n - 1].value) + HiLo(shoe[n - 2].value) + HiLo(shoe[n - 3].value)
    }

    /** What an accepted deal leaves behind: the opened round, unless the
        player's hand is a natural 21, which stands at once, so that the
        dealer plays from the two dealt cards and the rest of the shoe. */
    twostate predicate RoundStarted(bet: int, picks: seq<nat>)
      requires ValidPicks(picks, ShoeCards)
      reads this
    {
      var shoe := ShoeFor(old(deck), picks);
      var n := |shoe|;
      && Staked(bet, picks)
      && (Score(playerHands[0]) != 21 ==> RoundOpened(bet, picks))
      && (Score(playerHands[0]) == 21 ==>
            DealerFinished([shoe[n - 2], shoe[n - 4]], shoe[..n - 4],
                           CountFor(old(deck), old(runningCount)) + HiLo(shoe[n - 1].value)
                           + HiLo(shoe[n - 2].value) + HiLo(shoe[n - 3].value) + HiLo(shoe[n - 4].value),
                           old(balance) - bet))
    }

    /** What an allowed doubleDown leaves behind: the active stake doubled,
        exactly one card on the active hand, and the game moved on. */
    twostate predicate HandDoubled()
      reads this
    {
      var i := old(currentHandIndex);
      var n := |old(deck)|;
      && i < |old(bets)| && i < |old(playerHands)| && |bets| == |old(bets)|
      && |old(dealerHand)| >= 2
      && bets == old(bets)[i := 2 * old(bets)[i]]
      && bets[i] == 2 * currentBet
      && currentBet == old(currentBet) && roundStartingBalance == old(roundStartingBalance)
      && (n == 0 ==>
            && gameState == Halted && currentHandIndex == i
            && balance == old(balance) - currentBet && playerHands == old(playerHands)
            && deck == old(deck) && runningCount == old(runningCount) && dealerHand == old(dealerHand))
      && (n > 0 ==>
            var card := old(deck)[n - 1];
            && playerHands == old(playerHands)[i := old(playerHands)[i] + [card]]
            && (i + 1 < |playerHands| ==>
                  && gameState == Playing && currentHandIndex == i + 1
                  && balance == old(balance) - currentBet
                  && deck == old(deck)[..n - 1]
                  && runningCount == old(runningCount) + HiLo(card.value)
                  && dealerHand == old(dealerHand))
            && (i + 1 == |playerHands| ==>
                  currentHandIndex == i &&
                  DealerFinished(old(dealerHand), old(deck)[..n - 1],
                                 old(runningCount) + HiLo(card.value) + HiLo(old(dealerHand)[1].value),
                                 old(balance) - currentBet)))
    }

    /** What an allowed split leaves behind: the pair becomes two hands, the
        second appended with its own stake, each dealt one more card; the
        first stays active. */
    twostate predicate PairSplit()
      reads this
    {
      var i := old(currentHandIndex);
      var n := |old(deck)|;
      && i < |old(playerHands)| && |old(playerHands)[i]| == 2
      && currentHandIndex == i && currentBet == old(currentBet)
      && roundStartingBalance == old(roundStartingBalance)
      && balance == old(balance) - currentBet
      && bets == old(bets) + [currentBet]
      && |playerHands| == |old(playerHands)| + 1
      && dealerHand == old(dealerHand)
      && (n < 2 ==> gameState == Halted)
      && (n >= 2 ==>
            && gameState == Playing
            && playerHands == old(playerHands)[i := [old(playerHands)[i][0], old(deck)[n - 1]]]
                                + [[old(playerHands)[i][1], old(deck)[n - 2]]]
            && deck == old(deck)[..n - 2]
            && runningCount == old(runningCount) + HiLo(old(deck)[n - 1].value) + HiLo(old(deck)[n - 2].value))
    }

    /** What moving on from the active hand leaves behind: the next hand
        becomes active, or the dealer plays and the round is settled. */
    twostate predicate NextHandTaken()
      reads this
    {
      && playerHands == old(playerHands) && bets == old(bets)
      && currentBet == old(currentBet) && roundStartingBalance == old(roundStartingBalance)
      && (old(currentHandIndex) + 1 < |old(playerHands)| ==>
            && gameState == Playing && currentHandIndex == old(currentHandIndex) + 1
            && deck == old(deck) && runningCount == old(runningCount)
            && balance == old(balance) && dealerHand == old(dealerHand))
      && (old(currentHandIndex) + 1 >= |old(playerHands)| ==> DealerPlayed())
    }

    /** nextHand: advance to the next hand, or to the dealer after the last. */
    method NextHand()
      requires Inv(currentHandIndex + 1) && gameState == Playing
      modifies this
      ensures Valid() && NextHandTaken()
    {
      if currentHandIndex < |playerHands| - 1 {
        currentHandIndex := currentHandIndex + 1;
      } else {
        DealerTurn();
      }
    }

    /** stand: the active hand takes no more cards. */
    method Stand()
      requires Valid() && gameState == Playing
      modifies this
      ensures Valid() && NextHandTaken()
    {
      NextHand();
    }

    /** hit: one more card for the active hand; at 21 or more the hand is
        over and play moves on. */
    method Hit()
      requires Valid() && gameState == Playing
      modifies this
      ensures Valid()
      ensures bets == old(bets) && currentBet == old(currentBet)
      ensures roundStartingBalance == old(roundStartingBalance)
      ensures old(deck) == [] ==>
        && gameState == Halted && playerHands == old(playerHands)
        && currentHandIndex == old(currentHandIndex) && balance == old(balance)
        && deck == old(deck) && runningCount == old(runningCount) && dealerHand == old(dealerHand)
      ensures old(deck) != [] ==>
        var card := old(deck)[|old(deck)| - 1];
        var i := old(currentHandIndex);
        var hand := old(playerHands)[i] + [card];
        && playerHands == old(playerHands)[i := hand]
        && (Score(hand) < 21 ==>
              && gameState == Playing && currentHandIndex == i && HitEnabled()
              && deck == old(deck)[..|old(deck)| - 1]
              && runningCount == old(runningCount) + HiLo(card.value)
              && balance == old(balance) && dealerHand == old(dealerHand))
        && (Score(hand) >= 21 && i + 1 < |playerHands| ==>
              && gameState == Playing && currentHandIndex == i + 1
              && deck == old(deck)[..|old(deck)| - 1]
              && runningCount == old(runningCount) + HiLo(card.value)
              && balance == old(balance) && dealerHand == old(dealerHand))
        && (Score(hand) >= 21 && i + 1 == |playerHands| ==>
              currentHandIndex == i &&
              DealerFinished(old(dealerHand), old(deck)[..|old(deck)| - 1],
                             old(runningCount) + HiLo(card.value) + HiLo(old(dealerHand)[1].value),
                             old(balance)))
    {
      var drawn := DealTo(currentHandIndex);
      if !drawn {
        gameState := Halted;
        return;
      }
      var score := CalculateScore(playerHands[currentHandIndex]);
      if score >= 21 {
        NextHand();
      }
    }

    /** doubleDown: with two cards and the money for it, double the active
        hand's stake, take exactly one card and move on; otherwise nothing
        happens. */
    method DoubleDown()
      requires Valid() && gameState == Playing
      modifies this
      ensures Valid()
      ensures !old(DoubleEnabled()) ==> unchanged(this)
      ensures old(DoubleEnabled()) ==> HandDoubled()
    {
      if balance < currentBet {
        return;
      }
      var hand := playerHands[currentHandIndex];
      if |hand| != 2 {
        return;
      }
      DoubleHand();
    }

    /** The work of doubleDown once it is allowed. */
    method DoubleHand()
      requires Valid() && gameState == Playing
      requires balance >= currentBet && |playerHands[currentHandIndex]| == 2
      modifies this
      ensures Valid()
      ensures HandDoubled()
    {
      DoubleStake();
      var drawn := DealTo(currentHandIndex);
      if !drawn {
        gameState := Halted;
        return;
      }
      assert Inv(currentHandIndex + 1);
      NextHand();
    }

    /** The stake of the active hand is doubled, the difference coming out
        of the bankroll. */
    method DoubleStake()
      requires currentHandIndex < |bets|
      modifies this`balance, this`bets
      ensures balance == old(balance) - currentBet
      ensures bets == old(bets)[currentHandIndex := 2 * old(bets)[currentHandIndex]]
      ensures Sum(bets) == Sum(old(bets)) + old(bets)[currentHandIndex]
    {
      balance := balance - currentBet;
      SumUpdate(bets, currentHandIndex, bets[currentHandIndex] * 2);
      bets := bets[currentHandIndex := bets[currentHandIndex] * 2];
    }

    /** One card off the shoe, counted, onto hand k; false, with nothing
        changed, when the shoe is empty. */
    method DealTo(k: nat) returns (drawn: bool)
      requires k < |playerHands|
      modifies this`deck, this`runningCount, this`playerHands
      ensures drawn <==> old(deck) != []
      ensures !drawn ==> deck == old(deck) && runningCount == old(runningCount) && playerHands == old(playerHands)
      ensures drawn ==>
        var card := old(deck)[|old(deck)| - 1];
        && deck == old(deck)[..|old(deck)| - 1]
        && runningCount == old(runningCount) + HiLo(card.value)
        && playerHands == old(playerHands)[k := old(playerHands)[k] + [card]]
      ensures runningCount + HiLoSum(deck) == old(runningCount) + HiLoSum(old(deck))
    {
      var hand := playerHands[k];
      var card := DrawCard(true);
      if card.None? {
        return false;
      }
      hand := hand + [card.value];
      playerHands := playerHands[k := hand];
      return true;
    }

    /** split: a two-card pair with the money for a second stake becomes two
        hands of one card each, each dealt one more card; the first stays
        active. Otherwise nothing happens. */
    method Split()
      requires Valid() && gameState == Playing
      modifies this`balance, this`playerHands, this`bets, this`deck, this`runningCount, this`gameState
      ensures Valid()
      ensures !old(SplitEnabled()) ==> unchanged(this)
      ensures old(SplitEnabled()) ==> PairSplit()
    {
      var hand := playerHands[currentHandIndex];
      if |hand| != 2 || hand[0].value != hand[1].value || balance < currentBet {
        return;
      }
      SplitPair();
    }

    /** The work of split once it is allowed. */
    method SplitPair()
      requires Valid() && gameState == Playing
      requires |playerHands[currentHandIndex]| == 2 && balance >= currentBet
      modifies this`balance, this`playerHands, this`bets, this`deck, this`runningCount, this`gameState
      ensures Valid()
      ensures PairSplit()
    {
      var hand := playerHands[currentHandIndex];
      SplitActiveHand();
      assert BetsAlignedFrom(currentHandIndex);
      DealSplitHands();
      if |old(deck)| >= 2 {
        var n := |old(deck)|;
        assert [hand[0]] + [old(deck)[n - 1]] == [hand[0], old(deck)[n - 1]];
        assert [hand[1]] + [old(deck)[n - 2]] == [hand[1], old(deck)[n - 2]];
        assert playerHands == old(playerHands)[currentHandIndex := [hand[0], old(deck)[n - 1]]] + [[hand[1], old(deck)[n - 2]]];
      }
    }

    /** The second half of split: one card onto the active hand, then one
        onto the new last hand; an empty shoe on either draw halts. */
    method DealSplitHands()
      requires currentHandIndex < |playerHands| - 1
      modifies this`deck, this`runningCount, this`playerHands, this`gameState
      ensures |playerHands| == |old(playerHands)| && |deck| <= |old(deck)|
      ensures runningCount + HiLoSum(deck) == old(runningCount) + HiLoSum(old(deck))
      ensures |old(deck)| < 2 ==> gameState == Halted
      ensures |old(deck)| >= 2 ==>
        var n, i, last := |old(deck)|, currentHandIndex, |old(playerHands)| - 1;
        && gameState == old(gameState)
        && deck == old(deck)[..n - 2]
        && runningCount == old(runningCount) + HiLo(old(deck)[n - 1].value) + HiLo(old(deck)[n - 2].value)
        && playerHands == old(playerHands)[i := old(playerHands)[i] + [old(deck)[n - 1]]][last := old(playerHands)[last] + [old(deck)[n - 2]]]
    {
      var first := DealTo(currentHandIndex);
      if !first {
        gameState := Halted;
        return;
      }
      var second := DealTo(|playerHands| - 1);
      if !second {
        gameState := Halted;
        return;
      }
    }

    /** The active pair becomes two one-card hands, the second appended
        with its own stake. */
    method SplitActiveHand()
      requires currentHandIndex < |playerHands| && |playerHands[currentHandIndex]| == 2
      modifies this`balance, this`playerHands, this`bets
      ensures balance == old(balance) - currentBet
      ensures bets == old(bets) + [currentBet] && Sum(bets) == Sum(old(bets)) + currentBet
      ensures var pair := old(playerHands)[currentHandIndex];
        playerHands == old(playerHands)[currentHandIndex := [pair[0]]] + [[pair[1]]]
    {
      balance := balance - currentBet;
      var hand := playerHands[currentHandIndex];
      var newHand := [hand[1]];
      hand := hand[..1];
      assert hand == [old(playerHands)[currentHandIndex][0]];
      playerHands := playerHands[currentHandIndex := hand] + [newHand];
      bets := bets + [currentBet];
      assert bets[..|bets| - 1] == old(bets);
    }

    /** dealerTurn: count the hole card, draw while under 17, settle. */
    method DealerTurn()
      requires Inv(currentHandIndex + 1) && gameState == Playing
      modifies this`deck, this`runningCount, this`dealerHand, this`gameState, this`balance
      ensures Valid() && DealerPlayed()
    {
      gameState := GameState.DealerTurn;
      PlayAndSettle();
    }

    /** The body of dealerTurn once play has passed to the dealer: the
        dealer's draws, then settlement or a halt. */
    method PlayAndSettle()
      requires |dealerHand| >= 2 && |playerHands| == |bets| && Conserved()
      requires forall k :: 0 <= k < |bets| ==> bets[k] >= 0
      modifies this`deck, this`runningCount, this`dealerHand, this`gameState, this`balance
      ensures DealerFinished(old(dealerHand), old(deck), old(runningCount) + HiLo(old(dealerHand)[1].value), old(balance))
      ensures gameState == Resolved ==> Settled()
      ensures old(balance) <= balance
    {
      var complete := PlayDealerHand();
      FinishRound(complete);
    }

    /** The end of dealerTurn: settle every hand when the dealer finished
        drawing, or stop for good when the shoe ran out. */
    method FinishRound(complete: bool)
      requires |playerHands| == |bets| && Conserved()
      requires forall k :: 0 <= k < |bets| ==> bets[k] >= 0
      modifies this`balance, this`gameState
      ensures gameState == (if complete then Resolved else Halted)
      ensures complete ==> balance == old(balance) + TotalPayout(playerHands, bets, Score(dealerHand))
      ensures complete ==> Settled()
      ensures !complete ==> balance == old(balance)
      ensures old(balance) <= balance
    {
      if !complete {
        gameState := Halted;
        return;
      }
      TotalPayoutBounds(playerHands, bets, Score(dealerHand));
      var results := ResolveGame();
    }

    /** The dealer's half of dealerTurn: the hole card is counted, then the
        dealer draws. */
    method PlayDealerHand() returns (complete: bool)
      requires |dealerHand| >= 2
      modifies this`deck, this`runningCount, this`dealerHand
      ensures |deck| <= |old(deck)| && deck == old(deck)[..|deck|]
      ensures dealerHand == old(dealerHand) + Reverse(old(deck)[|deck|..])
      ensures runningCount + HiLoSum(deck) == old(runningCount) + HiLo(old(dealerHand)[1].value) + HiLoSum(old(deck))
      ensures DrawnUnderSeventeen(dealerHand, |old(dealerHand)|)
      ensures complete ==> Score(dealerHand) >= 17
      ensures !complete ==> deck == [] && Score(dealerHand) < 17
    {
      var hole := dealerHand[1];
      UpdateCount(hole);
      complete := DealerDraws();
    }

    /** The dealer's drawing loop: take cards while the score is under 17.
        The cards come off the end of the shoe, so the hand grows by the
        shoe's tail in reverse. An empty shoe stops the loop short. */
    method DealerDraws() returns (complete: bool)
      modifies this`deck, this`runningCount, this`dealerHand
      ensures |deck| <= |old(deck)| && deck == old(deck)[..|deck|]
      ensures dealerHand == old(dealerHand) + Reverse(old(deck)[|deck|..])
      ensures runningCount + HiLoSum(deck) == old(runningCount) + HiLoSum(old(deck))
      ensures DrawnUnderSeventeen(dealerHand, |old(dealerHand)|)
      ensures complete ==> Score(dealerHand) >= 17
      ensures !complete ==> deck == [] && Score(dealerHand) < 17
    {
      var score := CalculateScore(dealerHand);
      while score < 17
        invariant score == Score(dealerHand)
        invariant |deck| <= |old(deck)| && deck == old(deck)[..|deck|]
        invariant dealerHand == old(dealerHand) + Reverse(old(deck)[|deck|..])
        invariant DrawnUnderSeventeen(dealerHand, |old(dealerHand)|)
        invariant runningCount + HiLoSum(deck) == old(runningCount) + HiLoSum(old(deck))
        decreases 17 - LowTotal(dealerHand)
      {
        ScoreBounds(dealerHand);
        ghost var before, pile := dealerHand, deck;
        var drawn := DealerTakesCard();
        if !drawn {
          return false;
        }
        var card := pile[|pile| - 1];
        assert card == old(deck)[|pile| - 1];
        assert deck == old(deck)[..|pile|][..|pile| - 1] == old(deck)[..|deck|];
        ReverseTailStep(old(deck), |pile|);
        assert dealerHand == old(dealerHand) + (Reverse(old(deck)[|pile|..]) + [card]);
        DrawnUnderSeventeenSnoc(before, card, |old(dealerHand)|);
        LowTotalSnoc(before, card);
        score := CalculateScore(dealerHand);
      }
      return true;
    }

    /** One draw of the dealer's loop: the shoe's last card, counted, goes
        onto the dealer's hand; an empty shoe gives nothing. */
    method DealerTakesCard() returns (drawn: bool)
      modifies this`deck, this`runningCount, this`dealerHand
      ensures drawn <==> old(deck) != []
      ensures drawn ==>
        && deck == old(deck)[..|old(deck)| - 1]
        && dealerHand == old(dealerHand) + [old(deck)[|old(deck)| - 1]]
      ensures !drawn ==> deck == old(deck) && dealerHand == old(dealerHand)
      ensures runningCount + HiLoSum(deck) == old(runningCount) + HiLoSum(old(deck))
    {
      var card := DrawCard(true);
      if card.None? {
        return false;
      }
      dealerHand := dealerHand + [card.value];
      drawn := true;
    }

    /** resolveGame: settle every hand against the dealer's score. */
    method ResolveGame() returns (results: seq<Outcome>)
      requires |playerHands| == |bets|
      modifies this`balance, this`gameState
      ensures gameState == Resolved
      ensures |results| == |playerHands|
      ensures forall k :: 0 <= k < |results| ==>
                results[k] == Settle(Score(playerHands[k]), Score(dealerHand))
      ensures balance == old(balance) + TotalPayout(playerHands, bets, Score(dealerHand))
    {
      var dealerScore := CalculateScore(dealerHand);
      results := [];
      for index := 0 to |playerHands|
        invariant |results| == index
        invariant forall k :: 0 <= k < index ==> results[k] == Settle(Score(playerHands[k]), dealerScore)
        invariant balance == old(balance) + TotalPayout(playerHands[..index], bets[..index], dealerScore)
      {
        assert playerHands[..index + 1][..index] == playerHands[..index];
        assert bets[..index + 1][..index] == bets[..index];
        var res := SettleHand(index, dealerScore);
        assert TotalPayout(playerHands[..index + 1], bets[..index + 1], dealerScore)
            == TotalPayout(playerHands[..index], bets[..index], dealerScore) + HandPayout(playerHands[index], bets[index], dealerScore);
        results := results + [res];
      }
      assert playerHands[..|playerHands|] == playerHands;
      assert bets[..|bets|] == bets;
      gameState := Resolved;
    }

    /** One pass of resolveGame's loop: hand k against the dealer's score,
        its payout added to the bankroll. */
    method SettleHand(k: nat, dealerScore: int) returns (res: Outcome)
      requires k < |playerHands| == |bets|
      modifies this`balance
      ensures res == Settle(Score(playerHands[k]), dealerScore)
      ensures balance == old(balance) + HandPayout(playerHands[k], bets[k], dealerScore)
    {
      var playerScore := CalculateScore(playerHands[k]);
      var bet := bets[k];
      if playerScore > 21 {
        res := Bust;
      } else if dealerScore > 21 {
        balance := balance + bet * 2;
        res := Win;
      } else if playerScore > dealerScore {
        balance := balance + bet * 2;
        res := Win;
      } else if playerScore < dealerScore {
        res := Lose;
      } else {
        balance := balance + bet;
        res := Push;
      }
    }
  }
}
