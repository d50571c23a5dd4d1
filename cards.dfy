/** Cards of the blackjack shoe: ranks, suits, their names in narration,
    their Hi-Lo counting tags, and sums of per-rank quantities over a
    sequence of cards. */
module Cards {

  /** A card's value. The numbers-only variant of the game writes "1" for
      an Ace; that alias is the same rank here. */
  datatype Rank = Ace | Two | Three | Four | Five | Six | Seven | Eight | Nine | Ten | Jack | Queen | King

  datatype Suit = Spades | Clubs | Hearts | Diamonds

  datatype Card = Card(suit: Suit, value: Rank)

  /** The points a card is worth when Aces count 1. */
  function LowValue(r: Rank): (v: int)
    ensures 1 <= v <= 10
    ensures v == 1 <==> r == Ace
  {
    match r
    case Ace => 1
    case Two => 2
    case Three => 3
    case Four => 4
    case Five => 5
    case Six => 6
    case Seven => 7
    case Eight => 8
    case Nine => 9
    case _ => 10
  }

  /** The Hi-Lo tag: +1 for 2-6, -1 for 10, J, Q, K and Ace, 0 for 7-9. */
  function HiLo(r: Rank): (t: int)
    ensures t == 1 <==> 2 <= LowValue(r) <= 6
    ensures t == -1 <==> LowValue(r) == 10 || r == Ace
    ensures t == 0 <==> 7 <= LowValue(r) <= 9
  {
    match r
    case Two | Three | Four | Five | Six => 1
    case Ten | Jack | Queen | King | Ace => -1
    case _ => 0
  }

  /** The numeral used for pip cards in narration. */
  function CardName(r: Rank): (name: string)
    ensures name == "Ace" <==> r == Ace
    ensures name == "8" <==> r == Eight
  {
    match r
    case Ace => "Ace"
    case Jack => "Jack"
    case Queen => "Queen"
    case King => "King"
    case Two => "2"
    case Three => "3"
    case Four => "4"
    case Five => "5"
    case Six => "6"
    case Seven => "7"
    case Eight => "8"
    case Nine => "9"
    case Ten => "10"
  }

  lemma CardNamesDistinct(r: Rank, q: Rank)
    requires r != q
    ensures CardName(r) != CardName(q)
  {
  }

  /** "an Ace", "an 8", "a King", "a 10", ... */
  function CardNarrative(r: Rank): (s: string)
    ensures s == (if r == Ace || r == Eight then "an " else "a ") + CardName(r)
  {
    var name := CardName(r);
    var article := if name == "Ace" || name == "8" then "an" else "a";
    article + " " + name
  }

  /** Sum of g over the ranks of the cards, accumulated from the front. */
  function Tally(cards: seq<Card>, g: Rank -> int): int
  {
    if cards == [] then 0 else Tally(cards[..|cards| - 1], g) + g(cards[|cards| - 1].value)
  }

  /** The sum of the Hi-Lo tags of some cards. */
  function HiLoSum(cards: seq<Card>): int
  {
    Tally(cards, HiLo)
  }

  function Indicator(r: Rank): Rank -> int
  {
    q => if q == r then 1 else 0
  }

  /** How many of the cards have rank r. */
  function RankCount(cards: seq<Card>, r: Rank): int
  {
    Tally(cards, Indicator(r))
  }

  lemma {:induction false} TallyConcat(a: seq<Card>, b: seq<Card>, g: Rank -> int)
    ensures Tally(a + b, g) == Tally(a, g) + Tally(b, g)
    decreases |b|
  {
    if b == [] {
      assert a + b == a;
    } else {
      var b' := b[..|b| - 1];
      assert (a + b)[..|a + b| - 1] == a + b';
      TallyConcat(a, b', g);
    }
  }

  /** A tally depends only on the multiset of cards, not on their order. */
  lemma {:induction false} TallyPermutation(a: seq<Card>, b: seq<Card>, g: Rank -> int)
    requires multiset(a) == multiset(b)
    ensures Tally(a, g) == Tally(b, g)
    decreases |a|
  {
    if a == [] {
      assert |b| == |multiset(b)| == 0;
    } else {
      var a' := a[..|a| - 1];
      var x := a[|a| - 1];
      assert a == a' + [x];
      assert x in multiset(b);
      var k :| 0 <= k < |b| && b[k] == x;
      var b' := b[..k] + b[k + 1..];
      assert b == b[..k] + [x] + b[k + 1..];
      assert multiset(b') == multiset(a') by {
        assert multiset(b) == multiset(b[..k]) + multiset{x} + multiset(b[k + 1..]);
        assert multiset(b') == multiset(b[..k]) + multiset(b[k + 1..]);
        assert multiset(a) == multiset(a') + multiset{x};
        assert multiset(b') + multiset{x} == multiset(a') + multiset{x};
        assert multiset(b') == multiset(b') + multiset{x} - multiset{x};
      }
      TallyPermutation(a', b', g);
      TallyConcat(b[..k] + [x], b[k + 1..], g);
      TallyConcat(b[..k], [x], g);
      TallyConcat(b[..k], b[k + 1..], g);
      assert Tally([x], g) == g(x.value) by {
        assert [x][..0] == [];
      }
    }
  }

  /** The cards in reverse order: the order in which pops hand them out. */
  function Reverse(s: seq<Card>): (r: seq<Card>)
    ensures |r| == |s|
    ensures forall k :: 0 <= k < |s| ==> r[k] == s[|s| - 1 - k]
  {
    if s == [] then [] else Reverse(s[1..]) + [s[0]]
  }
  /** Drawing one more card off the end of a pile extends the reversed
      tail by that card. */
  lemma ReverseTailStep(s: seq<Card>, k: nat)
    requires 0 < k <= |s|
    ensures Reverse(s[k - 1..]) == Reverse(s[k..]) + [s[k - 1]]
  {
    assert s[k - 1..][1..] == s[k..];
  }
}
