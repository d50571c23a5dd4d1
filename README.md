# Blackjack engine with Hi-Lo counting, in Dafny

This project models the engine of the `BlackjackGame` class in `script.js`. That class is a browser blackjack trainer. It deals from a two-deck shoe and keeps a Hi-Lo running count. It recommends a bet from the true count and advises each play from a basic-strategy table with two count-based index plays. It settles a round that may include doubled and split hands.

The model has six modules:

- `Cards` (cards.dfy): ranks, suits, cards, the narration names, the Hi-Lo tags, and sums of per-rank quantities over cards. It also proves that such a sum is invariant under permutation.
- `Scoring` (scoring.dfy): the hand score, in two forms.
  - `Score` is a function. Aces count 11 and are then demoted to 1 while the total is over 21.
  - `CalculateScore` is the game's two accumulator loops, proved equal to `Score`.
  - It also covers the closed form (low total plus 10 exactly when the hand is soft) and the "low / high" display.
- `Shoe` (shoe.dfy): the ordered layout of the shoe and the Fisher-Yates shuffle. The shuffle is a specification function over the swap indices and an in-place `array` method proved against it. The module also proves what a fresh shoe contains.
- `Counting` (counting.dfy): decks remaining, the true count rounded to hundredths as `toFixed(2)` does, and the recommended bet. All of these use exact rationals.
- `Strategy` (strategy.dfy): the advisor's ordered first-match rule table, with lemmas for the rules it is meant to follow.
- `Game` (game.dfy): settlement, and the class `BlackjackGame`.
  - The class has the game's fields. Its methods `Deal`, `Hit`, `Stand`, `NextHand`, `DoubleDown`, `Split`, `DealerTurn` and `ResolveGame` update them in place.
  - Its invariant `Valid` states the following:
    - bankroll conservation while a round is played: `balance + Sum(bets) == roundStartingBalance`;
    - one bet per hand, with every hand from the active one onward staked at `currentBet`;
    - the settlement equation once the round is resolved;
    - the running count is minus the Hi-Lo sum of the unseen cards, meaning the shoe plus, during play, the dealer's hole card.

Each asynchronous game action becomes one atomic method. The speech, the pauses and the busy flag are stripped, and so are the DOM writes. The random shuffle index of step `i` is a caller-supplied `picks[i]` in `[0, i]`.

The player's controls follow the button states of `updateUI`. They are the predicates `DealEnabled`, `HitEnabled`, `StandEnabled`, `DoubleEnabled` and `SplitEnabled`. The player methods require the state in which their control is on screen: `Deal` requires betting or resolved, and the others require playing. The guards inside the methods themselves are modelled as no-ops, as in the code: an invalid bet, a double without two cards or without the money, and a split of a non-pair.

Where the code and its description could be read differently, the model follows the code in three places:

- A hand that reaches 21 by hitting moves on at once.
- The soft-hand rules of the advisor apply only to two-card hands.
- A split pair is any two cards with the same written value. A "10" and a "K" are not a pair.

## Model

| member | source | states |
|---|---|---|
| Cards.LowValue | script.js:285-303 | a card is worth 1 to 10 points with Aces at 1, and 1 only for an Ace |
| Cards.HiLo | script.js:224-231 | the Hi-Lo tag is +1 exactly for 2-6, -1 exactly for 10/J/Q/K/A, 0 exactly for 7-9 |
| Cards.CardName | script.js:81-88 | the name is "Ace" exactly for an Ace and "8" exactly for an eight, the two names that take "an" |
| Cards.CardNamesDistinct | script.js:81-88 | different ranks have different narration names |
| Cards.CardNarrative | script.js:90-94 | the narration is "an " before Ace and 8, "a " otherwise, followed by the name |
| Cards.TallyConcat | script.js:186-202 | proof helper for the fresh-shoe contents: a per-rank sum over two piles laid end to end is the sum of the two sums |
| Cards.TallyPermutation | script.js:204-209 | any per-rank sum is unchanged by reordering the cards |
| Cards.Reverse | script.js:510-517 | the reversal of a pile lists its cards last to first |
| Cards.ReverseTailStep | script.js:513-514 | popping one more card off the shoe extends the reversed tail by that card |
| Scoring.LowTotalSnoc | script.js:510-514 | each card pushed onto a hand raises its low total by that card's low value |
| Scoring.Score | script.js:285-303 | every Ace first counts 11, then one Ace at a time drops to 1 while the total is over 21 |
| Scoring.HighIsLowPlusAces | script.js:285-297 | the all-Aces-11 total is the all-Aces-1 total plus 10 per Ace, and the low total is at least the number of cards |
| Scoring.HasAceIffAceCount | script.js:288-290 | a hand holds an Ace exactly when its Ace count is positive |
| Scoring.DemoteClosedForm | script.js:298-301 | demoting Aces one at a time while over 21 leaves at most one Ace at 11 |
| Scoring.ScoreClosedForm | script.js:285-303 | the score is the low total plus 10 exactly when the hand holds an Ace and that stays within 21, else the low total |
| Scoring.ScoreBounds | script.js:285-303 | the score lies between the low total and the low total plus 10, is at most 21 whenever the low total is, and busts exactly when the low total does |
| Scoring.TwoCardTotals | script.js:285-303 | the low total and the Ace test of a two-card hand, card by card |
| Scoring.CalculateScore | script.js:285-303 | the accumulator loops compute the score and its closed form |
| Scoring.ScoreDisplay | script.js:305-327 | one number is shown exactly when the hand is not soft, and that number is the score; otherwise "low / high" with high the score and low ten less |
| Shoe.Values | script.js:188-190 | each suit lays out 13 ranks |
| Shoe.OrderedShoe | script.js:193-199 | the nested loops lay out decks times suits times ranks cards |
| Shoe.SwapPermutes | script.js:204-209 | one swap keeps every card |
| Shoe.SwapDownPermutes | script.js:204-209 | the swaps of steps i down to 1 keep the length and every card |
| Shoe.ShuffledPermutes | script.js:204-209 | the shuffle keeps the length and the multiset of cards for any valid indices |
| Shoe.Shuffle | script.js:204-209 | the in-place swap loop leaves the array equal to the shuffle of its old contents, a permutation of them |
| Shoe.SuitRowTally | script.js:195-197 | a per-rank sum over one suit's row is the sum over the ranks laid out |
| Shoe.TimesIsProduct | script.js:193-199 | proof helper for the fresh-shoe contents: adding a quantity once per pass of the decks loop, n times, gives n times the quantity |
| Shoe.DeckRowsTally | script.js:194-198 | each suit laid out adds the rank sum once, so s suits add it s times |
| Shoe.OrderedShoeTally | script.js:193-199 | each of the n decks laid out adds four suits' worth of every rank sum |
| Shoe.RankTallyStep | script.js:188-190 | proof helper for the fresh-shoe contents: a rank sum grows by one term per rank |
| Shoe.ValuesTallyTerms | script.js:188-190 | proof helper for the fresh-shoe contents: the rank sum of one suit, term by term, with three more 10s in the numbers-only layout |
| Shoe.ValuesTallies | script.js:188-190 | one suit's Hi-Lo tags sum to zero, and each rank appears once, or four and zero times for 10 and faces in the numbers-only layout |
| Shoe.FreshShoeBalanced | script.js:186-202 | a fresh shoe holds 104 cards and its Hi-Lo tags sum to zero |
| Shoe.FreshShoeContents | script.js:186-202 | a fresh shoe holds 8 cards of each rank (32 tens and no faces in the numbers-only variant) |
| Counting.DecksRemaining | script.js:211-214 | the divisor is the larger of half a deck and cards left over 52, so never below one half |
| Counting.RoundHundredths | script.js:211-214 | rounding to hundredths moves a value by at most half a hundredth and gives a whole number of hundredths |
| Counting.ToFixed2 | script.js:211-214 | two-place rounding moves a value by at most half a hundredth, never changes its sign, and gives a whole number of hundredths, with a tie going away from zero |
| Counting.RoundHundredthsMonotone | script.js:211-214 | rounding to hundredths is monotone |
| Counting.ToFixed2Monotone | script.js:211-214 | two-place rounding is monotone on both signs |
| Counting.TrueCount | script.js:211-214 | the true count is within half a hundredth of the running count per remaining deck |
| Counting.TrueCountMonotone | script.js:211-214 | with the same cards left, a higher running count never gives a lower true count |
| Counting.RecommendedBet | script.js:216-222 | the bet is at least 1, exactly 1 up to a true count of one, and above it 1 plus 10 per whole point of true count over one |
| Counting.RecommendedBetMonotone | script.js:216-222 | a higher true count never recommends a smaller bet |
| Counting.HalfDeckExample | script.js:211-222 | a running count of 8 with 26 cards left is a true count of 16 and a bet of 151 |
| Strategy.DealerValue | script.js:241-243 | the up-card is read as 2 to 11, and as 11 exactly for an Ace |
| Strategy.Recommend | script.js:233-283 | Split is only advised for an affordable two-card pair |
| Strategy.AlwaysSplitAcesAndEights | script.js:248-250 | an affordable pair of Aces or eights is always split |
| Strategy.SoftNineteenStands | script.js:258-259 | a two-card soft hand scoring 19 or more stands |
| Strategy.HardSeventeenStands | script.js:248-271 | a hand of 17 or more that is not two-card soft stands, or splits if it is a pair the table splits |
| Strategy.HardSixteenAgainstTen | script.js:248-282 | hard 16 against a dealer 10 that the split rule does not take, including a pair of eights without the money to split, stands exactly when the true count is at least 0, and hits otherwise |
| Strategy.HardFifteenAgainstTen | script.js:270-282 | hard 15 against a dealer 10 stands exactly when the true count is at least 4, and hits otherwise |
| Strategy.ExampleSoftSeventeenDoubles | script.js:258-265 | Ace and six against a dealer 5 doubles |
| Strategy.ExampleUnaffordableEightsStand | script.js:248-279 | a pair of eights against a dealer 10 with a bankroll of 5 and a bet of 10 is played as hard 16 and stands at a true count of 0 |
| Strategy.ExampleEightsSplit | script.js:248-250 | a pair of eights against a dealer 5, with the money for it, splits |
| Strategy.ExampleHardSeventeenStands | script.js:270-271 | ten and seven against a dealer 6 stands |
| Strategy.ExampleSoftNineteenStands | script.js:258-259 | Ace and eight against a dealer 10 stands |
| Game.DrawnUnderSeventeenSnoc | script.js:510-514 | a card drawn while the dealer's score is under 17 keeps the rule that every drawn card was taken under 17 |
| Game.StopRuleFixesHand | script.js:510-517 | a hand that has reached 17 is never a proper prefix of a hand drawn under the stop rule, so the rule fixes the dealer's hand |
| Game.SumUpdate | script.js:451-452 | changing one stake changes the total stake by the difference |
| Game.Settle | script.js:547-565 | a hand busts exactly when over 21, wins exactly when not busted and the dealer busts or is beaten, loses or pushes exactly by comparison otherwise |
| Game.HandPayout | script.js:547-565 | a hand returns nothing, its stake or twice its stake, and nothing when busted even if the dealer busts |
| Game.TotalPayoutBounds | script.js:539-567 | settlement returns between nothing and twice the total stake |
| Game.AllBustPaysNothing | script.js:547-549 | when every hand busts, settlement returns nothing |
| Game.BlackjackGame.DealEnabled | script.js:688-697 | the deal control is on while bets are taken or the round is resolved |
| Game.BlackjackGame.HitEnabled | script.js:668-675 | the hit control is on in play while the active hand scores under 21 |
| Game.BlackjackGame.StandEnabled | script.js:668-676 | the stand control is on in play |
| Game.BlackjackGame.DoubleEnabled | script.js:668-677 | the double control is on in play for a two-card hand with the money for a second stake |
| Game.BlackjackGame.SplitEnabled | script.js:668-679 | the split control is on in play for a two-card pair with the money for a second stake |
| Game.BlackjackGame.HitEnabledByLowTotal | script.js:672-675 | in play the hit control is on exactly when the low total is under 21 and the hand is not a soft 21 |
| Game.BlackjackGame.ControlsFollowState | script.js:666-697 | deal and the play controls are never offered together, every play control comes with stand, and advice is given exactly with the play controls |
| Game.BlackjackGame.GetTrueCount | script.js:211-214 | the game's true count is within half a hundredth of its running count per remaining deck |
| Game.BlackjackGame.GetRecommendedBet | script.js:216-222 | the recommendation is never below the minimum bet |
| Game.BlackjackGame.GetRecommendedAction | script.js:233-283 | advice is given exactly while a round is played, and Split only when the split control is offered |
| Game.BlackjackGame.AllBustRoundCostsStakes | script.js:534-570 | a settled round in which every hand busted leaves the bankroll down by exactly its stakes |
| Game.BlackjackGame.constructor | script.js:6-27 | a new game has 200 in the bankroll, no bet, one empty hand, a fresh shoe, a zero count and is taking bets |
| Game.BlackjackGame.CreateShoe | script.js:186-202 | the shoe becomes the shuffle of the ordered layout for the given indices, and the count is reset to zero |
| Game.BlackjackGame.LayOutShoe | script.js:191-199 | the nested push loops leave exactly the ordered layout: decks, then suits, then ranks |
| Game.BlackjackGame.UpdateCount | script.js:224-231 | the running count moves by exactly the card's Hi-Lo tag |
| Game.BlackjackGame.DrawCard | script.js:381-385 | the former last card is returned and removed, and the count changes only when the card is visible; an empty shoe yields no card |
| Game.BlackjackGame.Deal | script.js:329-379 | an invalid bet changes nothing; a valid one reshuffles a low shoe, stakes the bet, deals four cards with the hole card uncounted, and plays on unless the player holds 21, which stands at once and lets the dealer play and settle |
| Game.BlackjackGame.StartRound | script.js:338-378 | an accepted bet opens the round from the right shoe; a natural 21 stands at once, so the dealer plays from the two dealt cards under the stop rule and the round is settled, or halts on an empty shoe |
| Game.BlackjackGame.OpenFromShoe | script.js:338-366 | from the shoe (fresh when it was low): balance down by the bet, one hand, the dealer's two cards, exactly four cards gone, the hole card not counted, play begins |
| Game.BlackjackGame.RefreshShoe | script.js:340-345 | a shoe under 26 cards is replaced by a fresh one of 104 with the count reset, which leaves the count equal to minus the shoe's tags; a larger shoe is kept |
| Game.BlackjackGame.OpenRound | script.js:348-366 | from a shoe of at least 26 cards: balance down by the bet, one hand, the dealer's two cards, exactly four cards gone, the hole card not counted, play begins, and the invariant holds |
| Game.BlackjackGame.StakeBet | script.js:348-353 | the stake leaves the bankroll and the table is cleared |
| Game.BlackjackGame.DealInitialCards | script.js:355-364 | player, dealer, player, dealer off the end of the shoe, three of them counted |
| Game.BlackjackGame.NextHand | script.js:429-436 | the next hand becomes active, or after the last the dealer plays and the round is settled, unless the shoe runs out with the dealer under 17 |
| Game.BlackjackGame.Stand | script.js:415-427 | the hand takes no card and play moves on |
| Game.BlackjackGame.Hit | script.js:387-413 | exactly one counted card goes onto the active hand alone; under 21 the hand stays active with the hit control on; at 21 or more play moves to the next hand with nothing else changed, or after the last hand the dealer plays under the stop rule and the round is settled |
| Game.BlackjackGame.DoubleDown | script.js:438-466 | without two cards and the money nothing changes; otherwise the stake doubles, exactly one counted card is drawn and play moves on, after the last hand to the dealer's play and settlement |
| Game.BlackjackGame.DoubleHand | script.js:451-465 | the stake doubles, exactly one card goes onto the active hand, play moves on, and the invariant holds again |
| Game.BlackjackGame.DoubleStake | script.js:451-452 | the active stake doubles and the difference leaves the bankroll |
| Game.BlackjackGame.DealTo | script.js:394-396 | one counted card off the end of the shoe onto the given hand alone; an empty shoe changes nothing |
| Game.BlackjackGame.Split | script.js:468-495 | without an affordable pair nothing changes; otherwise the active hand stays active, a second staked hand is added, and both hold two cards |
| Game.BlackjackGame.SplitPair | script.js:478-485 | the pair becomes two staked hands, each dealt the next card off the shoe, and the invariant holds again |
| Game.BlackjackGame.SplitActiveHand | script.js:478-481 | the second card moves to a new last hand staked at the current bet, and the stake leaves the bankroll |
| Game.BlackjackGame.DealSplitHands | script.js:484-485 | one counted card onto the active hand, then one onto the last hand, in that order |
| Game.BlackjackGame.DealerTurn | script.js:497-532 | the hole card is counted once, the dealer draws only while under 17 and stops at 17 or more, and the round is settled with the bankroll equation; it halts unsettled only when the shoe runs out with the dealer still under 17 |
| Game.BlackjackGame.PlayAndSettle | script.js:503-530 | the dealer draws from the shoe's last cards only while under 17, the count keeps pace, and the round is settled with the payout equation, or halts on an empty shoe with the dealer under 17; the bankroll never falls |
| Game.BlackjackGame.PlayDealerHand | script.js:503-517 | the hole card is counted and the dealer's hand grows by the shoe's last cards in reverse order, each taken under 17, to a score of 17 or more; it stops short only on an empty shoe with the score still under 17 |
| Game.BlackjackGame.DealerDraws | script.js:510-517 | the drawing loop takes the shoe's last cards in order, counting each, draws only while the score is under 17, and ends at 17 or more; it reports failure only when a draw is needed under 17 and the shoe is empty |
| Game.BlackjackGame.DealerTakesCard | script.js:513-514 | the shoe's last card, counted, goes onto the dealer's hand |
| Game.BlackjackGame.FinishRound | script.js:530 | a finished dealer hand is settled, which leaves the settlement equation holding and never lowers the bankroll |
| Game.BlackjackGame.ResolveGame | script.js:534-570 | each hand gets exactly its outcome, and the bankroll grows by the sum of the payouts |
| Game.BlackjackGame.SettleHand | script.js:541-566 | one hand's outcome is the settlement rule and the bankroll grows by exactly its payout |

## Left out

- Speech, voice selection, the pauses, the proceed gate and the busy flag are left out. These are browser I/O and asynchronous scheduling. Each action is one atomic method.
- DOM caching, rendering, event binding and the keyboard shortcut are left out. So are the message and CSS strings of settlement, and the shoe-penetration percentage.
- `Math.random` is left out. The shuffle takes the index for each step as an input.
- URL parameter parsing is left out. `numbersOnly` is a constructor input. `pauseDealer` only affects pacing.
- The bet field's `parseInt` is left out. The bet is an integer input, and `alert` on an invalid bet is a result of `false` with nothing changed.
- `roundStartingBalance` is undefined in the code until the first deal. The model starts it at 200.
- JavaScript arrays are shared by reference. The hands here are values that the methods reassign, which gives the same final state.
- Counting.ToFixed2: works on exact rationals, so a value whose binary floating-point form falls on the other side of a hundredths tie may round differently in the game.
- Drawing from an empty shoe makes `drawCard` return `undefined`, and the count update then throws with the busy flag set, so the game accepts no further action. The model calls that state `Halted`. In the dealer's turn this happens only when the dealer must draw, being under 17, and the shoe is empty.
  - It keeps the updates made before the failed draw, such as the doubled stake or the split hands.
  - The bankroll invariant is not claimed in that state.
  - The running-count invariant `CountsUnseen` is not claimed in that state either. Whether the dealer's hole card has been counted depends on which draw failed.
