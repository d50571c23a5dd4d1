/** The shoe: two decks laid out in the order the game pushes them, the
    Fisher-Yates shuffle applied to them, and what a fresh shoe holds. */
module Shoe {
  import opened Cards

  /** Decks per shoe. */
  const ShoeSize: nat := 2

  /** Cards in a full shoe. */
  const ShoeCards: nat := 52 * ShoeSize

  /** The suits in the order the game lays them out. */
  const Suits: seq<Suit> := [Spades, Clubs, Hearts, Diamonds]

  /** The ranks of one suit in layout order; the numbers-only variant
      replaces J, Q and K by three more 10s. */
  function Values(numbersOnly: bool): (vs: seq<Rank>)
    ensures |vs| == 13
  {
    if numbersOnly then [Ace, Two, Three, Four, Five, Six, Seven, Eight, Nine, Ten, Ten, Ten, Ten]
    else [Ace, Two, Three, Four, Five, Six, Seven, Eight, Nine, Ten, Jack, Queen, King]
  }

  /** The first v cards of one suit. */
  function SuitRow(suit: Suit, vals: seq<Rank>, v: nat): (row: seq<Card>)
    requires v <= |vals|
    ensures |row| == v
  {
    if v == 0 then [] else SuitRow(suit, vals, v - 1) + [Card(suit, vals[v - 1])]
  }

  /** The first s suits of one deck. */
  function DeckRows(vals: seq<Rank>, s: nat): (rows: seq<Card>)
    requires s <= |Suits|
    ensures |rows| == s * |vals|
  {
    if s == 0 then [] else DeckRows(vals, s - 1) + SuitRow(Suits[s - 1], vals, |vals|)
  }

  /** The first n decks, before shuffling. */
  function OrderedShoe(vals: seq<Rank>, n: nat): (cards: seq<Card>)
    ensures |cards| == n * 4 * |vals|
  {
    if n == 0 then [] else OrderedShoe(vals, n - 1) + DeckRows(vals, 4)
  }

  /** The shuffle draws, for step i, an index j with 0 <= j <= i. Here the
      caller supplies those indices; picks[0] is never used. */
  predicate ValidPicks(picks: seq<nat>, n: nat)
  {
    |picks| == n && forall i :: 0 <= i < n ==> picks[i] <= i
  }

  function Swap(s: seq<Card>, i: nat, j: nat): (t: seq<Card>)
    requires i < |s| && j < |s|
    ensures |t| == |s|
  {
    s[i := s[j]][j := s[i]]
  }

  lemma SwapPermutes(s: seq<Card>, i: nat, j: nat)
    requires i < |s| && j < |s|
    ensures multiset(Swap(s, i, j)) == multiset(s)
  {
  }

  /** The swaps of steps i, i-1, ..., 1 (none when i <= 0). */
  function SwapDown(s: seq<Card>, picks: seq<nat>, i: int): seq<Card>
    requires i < |s| && ValidPicks(picks, |s|)
    decreases i
  {
    if i <= 0 then s else SwapDown(Swap(s, i, picks[i]), picks, i - 1)
  }

  /** The Fisher-Yates shuffle of s under the given choices. */
  function Shuffled(s: seq<Card>, picks: seq<nat>): seq<Card>
    requires ValidPicks(picks, |s|)
  {
    SwapDown(s, picks, |s| - 1)
  }

  lemma {:induction false} SwapDownPermutes(s: seq<Card>, picks: seq<nat>, i: int)
    requires i < |s| && ValidPicks(picks, |s|)
    ensures |SwapDown(s, picks, i)| == |s|
    ensures multiset(SwapDown(s, picks, i)) == multiset(s)
    decreases i
  {
    if i > 0 {
      SwapPermutes(s, i, picks[i]);
      SwapDownPermutes(Swap(s, i, picks[i]), picks, i - 1);
    }
  }

  /** Whatever indices the random source yields, the shuffle keeps the
      length of the shoe and every card in it. */
  lemma ShuffledPermutes(s: seq<Card>, picks: seq<nat>)
    requires ValidPicks(picks, |s|)
    ensures |Shuffled(s, picks)| == |s|
    ensures multiset(Shuffled(s, picks)) == multiset(s)
  {
    SwapDownPermutes(s, picks, |s| - 1);
  }

  /** shuffle: for i from the last index down to 1, swap a[i] and a[j]. */
  method Shuffle(a: array<Card>, picks: seq<nat>)
    requires ValidPicks(picks, a.Length)
    modifies a
    ensures a[..] == Shuffled(old(a[..]), picks)
    ensures multiset(a[..]) == multiset(old(a[..]))
  {
    ghost var target := Shuffled(a[..], picks);
    var i := a.Length - 1;
    while i > 0
      invariant i < a.Length
      invariant SwapDown(a[..], picks, i) == target
    {
      var j := picks[i];
      ghost var before := a[..];
      a[i], a[j] := a[j], a[i];
      assert a[..] == Swap(before, i, j);
      i := i - 1;
    }
    ShuffledPermutes(old(a[..]), picks);
  }

  /** A freshly created shoe: the ordered decks after the shuffle. */
  function FreshShoe(numbersOnly: bool, picks: seq<nat>): seq<Card>
    requires ValidPicks(picks, ShoeCards)
  {
    Shuffled(OrderedShoe(Values(numbersOnly), ShoeSize), picks)
  }

  /** Sum of g over a sequence of ranks. */
  function RankTally(vals: seq<Rank>, g: Rank -> int): int
  {
    if vals == [] then 0 else RankTally(vals[..|vals| - 1], g) + g(vals[|vals| - 1])
  }

  lemma {:induction false} SuitRowTally(suit: Suit, vals: seq<Rank>, v: nat, g: Rank -> int)
    requires v <= |vals|
    ensures Tally(SuitRow(suit, vals, v), g) == RankTally(vals[..v], g)
  {
    if v > 0 {
      SuitRowTally(suit, vals, v - 1, g);
      assert vals[..v][..v - 1] == vals[..v - 1];
      TallyConcat(SuitRow(suit, vals, v - 1), [Card(suit, vals[v - 1])], g);
      assert [Card(suit, vals[v - 1])][..0] == [];
    }
  }

  /** n copies of t added up: multiplication by repeated addition, which
      keeps the layout proofs linear. */
  function Times(n: nat, t: int): int
  {
    if n == 0 then 0 else Times(n - 1, t) + t
  }

  lemma {:induction false} TimesIsProduct(n: nat, t: int)
    ensures Times(n, t) == n * t
  {
    if n > 0 {
      TimesIsProduct(n - 1, t);
      assert n * t == (n - 1) * t + t;
    }
  }

  lemma {:induction false} DeckRowsTally(vals: seq<Rank>, s: nat, g: Rank -> int)
    requires s <= |Suits|
    ensures Tally(DeckRows(vals, s), g) == Times(s, RankTally(vals, g))
  {
    if s > 0 {
      DeckRowsTally(vals, s - 1, g);
      TallyConcat(DeckRows(vals, s - 1), SuitRow(Suits[s - 1], vals, |vals|), g);
      SuitRowTally(Suits[s - 1], vals, |vals|, g);
      assert vals[..|vals|] == vals;
    }
  }

  /** Each of the n decks contributes four suits' worth of every tally. */
  lemma {:induction false} OrderedShoeTally(vals: seq<Rank>, n: nat, g: Rank -> int)
    ensures Tally(OrderedShoe(vals, n), g) == Times(n, Times(4, RankTally(vals, g)))
  {
    if n > 0 {
      OrderedShoeTally(vals, n - 1, g);
      TallyConcat(OrderedShoe(vals, n - 1), DeckRows(vals, 4), g);
      DeckRowsTally(vals, 4, g);
    }
  }

  /** How many times rank r appears in one suit's layout. */
  function CopiesPerSuit(numbersOnly: bool, r: Rank): int
  {
    if !numbersOnly then 1
    else if r == Ten then 4
    else if r == Jack || r == Queen || r == King then 0
    else 1
  }

  lemma {:induction false} RankTallyStep(vals: seq<Rank>, k: nat, g: Rank -> int)
    requires k < |vals|
    ensures RankTally(vals[..k + 1], g) == RankTally(vals[..k], g) + g(vals[k])
  {
    assert vals[..k + 1][..k] == vals[..k];
  }

  /** The sum of g over a suit's ranks, spelled out term by term. */
  lemma ValuesTallyTerms(numbersOnly: bool, g: Rank -> int)
    ensures RankTally(Values(numbersOnly), g)
         == g(Ace) + g(Two) + g(Three) + g(Four) + g(Five) + g(Six) + g(Seven) + g(Eight) + g(Nine) + g(Ten)
            + (if numbersOnly then 3 * g(Ten) else g(Jack) + g(Queen) + g(King))
  {
    var vs := Values(numbersOnly);
    assert vs[..0] == [];
    RankTallyStep(vs, 0, g);
    RankTallyStep(vs, 1, g);
    RankTallyStep(vs, 2, g);
    RankTallyStep(vs, 3, g);
    RankTallyStep(vs, 4, g);
    RankTallyStep(vs, 5, g);
    RankTallyStep(vs, 6, g);
    RankTallyStep(vs, 7, g);
    RankTallyStep(vs, 8, g);
    RankTallyStep(vs, 9, g);
    RankTallyStep(vs, 10, g);
    RankTallyStep(vs, 11, g);
    RankTallyStep(vs, 12, g);
    assert vs[..13] == vs;
  }

  lemma ValuesTallies(numbersOnly: bool, r: Rank)
    ensures RankTally(Values(numbersOnly), HiLo) == 0
    ensures RankTally(Values(numbersOnly), Indicator(r)) == CopiesPerSuit(numbersOnly, r)
  {
    ValuesTallyTerms(numbersOnly, HiLo);
    ValuesTallyTerms(numbersOnly, Indicator(r));
  }

  /** A fresh shoe holds 52 * ShoeSize cards and its Hi-Lo tags sum to zero. */
  lemma FreshShoeBalanced(numbersOnly: bool, picks: seq<nat>)
    requires ValidPicks(picks, ShoeCards)
    ensures |FreshShoe(numbersOnly, picks)| == ShoeCards
    ensures HiLoSum(FreshShoe(numbersOnly, picks)) == 0
  {
    var ordered := OrderedShoe(Values(numbersOnly), ShoeSize);
    ShuffledPermutes(ordered, picks);
    TallyPermutation(ordered, FreshShoe(numbersOnly, picks), HiLo);
    OrderedShoeTally(Values(numbersOnly), ShoeSize, HiLo);
    ValuesTallies(numbersOnly, Ace);
    TimesIsProduct(4, 0);
    TimesIsProduct(ShoeSize, 0);
  }

  /** A fresh shoe holds four cards per shoe deck of each rank, except in
      the numbers-only variant: sixteen 10s per deck and no faces. */
  lemma FreshShoeContents(numbersOnly: bool, picks: seq<nat>, r: Rank)
    requires ValidPicks(picks, ShoeCards)
    ensures RankCount(FreshShoe(numbersOnly, picks), r) == 4 * ShoeSize * CopiesPerSuit(numbersOnly, r)
  {
    var ordered := OrderedShoe(Values(numbersOnly), ShoeSize);
    ShuffledPermutes(ordered, picks);
    TallyPermutation(ordered, FreshShoe(numbersOnly, picks), Indicator(r));
    OrderedShoeTally(Values(numbersOnly), ShoeSize, Indicator(r));
    ValuesTallies(numbersOnly, r);
    TimesIsProduct(4, CopiesPerSuit(numbersOnly, r));
    TimesIsProduct(ShoeSize, 4 * CopiesPerSuit(numbersOnly, r));
  }
}
