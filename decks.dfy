/**
 * Deck.java: the 51-card deck without the Jack of Clubs, its round-robin deal and its shuffle.
 */
module Decks {
  import opened Wrappers
  import opened Cards
  import opened Hands
  import opened Pairs
  import Arith

  const JackOfSpades: Card := Card(Jack, Spades)

  /** Position k of the full 52-card order, suits outermost: suit k / 13, rank k % 13. */
  function CardAt(k: nat): Card
    requires k < 52
  {
    Card(AllRanks[k % 13], AllSuits[k / 13])
  }

  /** Position i of the 51-card deck is position i of the full order, one further from the Jack of Clubs (10) on. */
  function Skip(i: nat): nat {
    if i < 10 then i else i + 1
  }

  /** How many cards come before position p of the full order once the Jack of Clubs is left out. */
  function Placed(p: nat): nat {
    if p <= 10 then p else p - 1
  }

  /** The card at position k of the full order, when it is not the Jack of Clubs, is the next card of the deck. */
  lemma NextCard(k: nat, n: nat)
    requires k < 52 && k != 10 && n == Placed(k)
    ensures n < 51 && NewDeck()[..n + 1] == NewDeck()[..n] + [CardAt(k)]
  {
    assert Skip(n) == k;
    var d := NewDeck();
    assert d[n] == CardAt(k);
    PrefixSnoc(d, n);
  }

  lemma PrefixSnoc<T>(d: seq<T>, n: nat)
    requires n < |d|
    ensures d[..n + 1] == d[..n] + [d[n]]
  {
  }

  /** The deck the constructor builds, in its order. */
  function NewDeck(): seq<Card> {
    seq(51, i requires 0 <= i < 51 => CardAt(Skip(i)))
  }

  lemma CardAtIndices(si: nat, ri: nat)
    requires si < 4 && ri < 13
    ensures CardAt(si * 13 + ri) == Card(AllRanks[ri], AllSuits[si])
  {
    Arith.DivModUnique(si * 13 + ri, 13, si, ri);
  }

  lemma RankIndexOf(j: nat)
    requires j < 13
    ensures RankIndex(AllRanks[j]) == j
  {
  }

  lemma SuitIndexOf(j: nat)
    requires j < 4
    ensures SuitIndex(AllSuits[j]) == j
  {
  }

  /** SuitKey numbers the full order: the card at position k has key k. */
  lemma CardAtKey(k: nat)
    requires k < 52
    ensures SuitKey(CardAt(k)) == k
  {
    RankIndexOf(k % 13);
    SuitIndexOf(k / 13);
  }

  /** The deck holds exactly 51 cards, with no card twice. */
  lemma NewDeckSizeAndDistinct()
    ensures |NewDeck()| == 51
    ensures NoDuplicates(NewDeck())
  {
    var d := NewDeck();
    forall i, j | 0 <= i < j < |d| ensures d[i] != d[j] {
      CardAtKey(Skip(i));
      CardAtKey(Skip(j));
    }
    DistinctPositions(d);
  }

  /** The deck holds every card except the Jack of Clubs. */
  lemma NewDeckMembers(c: Card)
    ensures c in NewDeck() <==> c != JackOfClubs
  {
    var d := NewDeck();
    var k := SuitKey(c);
    CardAtKey(10);
    if c != JackOfClubs {
      CardAtIndices(SuitIndex(c.suit), RankIndex(c.rank));
      assert CardAt(k) == c;
      assert CardAt(10) == JackOfClubs;
      var i := if k < 10 then k else k - 1;
      assert d[i] == c;
    } else {
      forall i | 0 <= i < 51 ensures d[i] != c {
        CardAtKey(Skip(i));
      }
    }
  }

  /** The cards dealt to hand h: those at the positions i with i % p == h, in deck order. */
  function HandOf(s: seq<Card>, p: nat, h: nat): seq<Card>
    requires p > 0
    decreases |s|
  {
    if s == [] then []
    else HandOf(s[..|s| - 1], p, h) + (if (|s| - 1) % p == h then [s[|s| - 1]] else [])
  }

  /** What deal(p) returns for the deck s. */
  function Dealt(s: seq<Card>, p: nat): (hands: seq<seq<Card>>)
    requires p > 0
    ensures |hands| == p
  {
    seq(p, h requires 0 <= h < p => HandOf(s, p, h))
  }

  /** Hand h gets one card per full round, plus one from the last round when h is below the remainder. */
  lemma {:induction false} HandOfSize(s: seq<Card>, p: nat, h: nat)
    requires 0 <= h < p
    ensures |HandOf(s, p, h)| == |s| / p + (if h < |s| % p then 1 else 0)
    decreases |s|
  {
    if s != [] {
      var n := |s| - 1;
      HandOfSize(s[..n], p, h);
      Arith.ModStep(n, p);
    }
  }

  /** Dealt hand sizes differ by at most one, and the first hands are the larger ones. */
  lemma DealtSizes(s: seq<Card>, p: nat, h1: nat, h2: nat)
    requires h1 <= h2 < p
    ensures var a, b := |Dealt(s, p)[h1]|, |Dealt(s, p)[h2]|; b <= a <= b + 1
  {
    HandOfSize(s, p, h1);
    HandOfSize(s, p, h2);
  }

  /** Deck position i ends in hand i % p at place i / p; so each hand keeps deck order. */
  lemma {:induction false} HandOfPlace(s: seq<Card>, p: nat, i: nat)
    requires p > 0 && i < |s|
    ensures i / p < |HandOf(s, p, i % p)| && HandOf(s, p, i % p)[i / p] == s[i]
    decreases |s|
  {
    var n := |s| - 1;
    if i < n {
      HandOfPlace(s[..n], p, i);
      assert s[..n][i] == s[i];
    } else {
      HandOfSize(s[..n], p, i % p);
    }
  }

  /** The hands together hold exactly the deck's cards. */
  function Union(hands: seq<seq<Card>>): multiset<Card> {
    if hands == [] then multiset{} else Union(hands[..|hands| - 1]) + multiset(hands[|hands| - 1])
  }

  lemma {:induction false} UnionAdd(hands: seq<seq<Card>>, k: nat, c: Card)
    requires k < |hands|
    ensures Union(hands[k := hands[k] + [c]]) == Union(hands) + multiset{c}
    decreases |hands|
  {
    var n := |hands| - 1;
    var hs := hands[k := hands[k] + [c]];
    var front := hands[..n];
    assert Union(hs) == Union(hs[..n]) + multiset(hs[n]);
    assert Union(hands) == Union(front) + multiset(hands[n]);
    if k < n {
      assert front[k] == hands[k];
      assert hs[..n] == front[k := front[k] + [c]];
      UnionAdd(front, k, c);
      assert hs[n] == hands[n];
    } else {
      assert hs[..n] == front;
      assert hs[n] == hands[n] + [c];
      assert multiset(hs[n]) == multiset(hands[n]) + multiset{c};
    }
  }

  lemma DealtStep(s: seq<Card>, p: nat)
    requires p > 0 && s != []
    ensures var n := |s| - 1;
      Dealt(s, p) == Dealt(s[..n], p)[n % p := Dealt(s[..n], p)[n % p] + [s[n]]]
  {
    var n := |s| - 1;
    var before, after := Dealt(s[..n], p), Dealt(s, p);
    forall h | 0 <= h < p
      ensures after[h] == if h == n % p then before[h] + [s[n]] else before[h]
    {
      assert after[h] == HandOf(s, p, h);
      assert before[h] == HandOf(s[..n], p, h);
    }
  }

  /** Dealing one more card adds it to the union of the hands. */
  lemma DealtUnionStep(s: seq<Card>, p: nat)
    requires p > 0 && s != []
    ensures Union(Dealt(s, p)) == Union(Dealt(s[..|s| - 1], p)) + multiset{s[|s| - 1]}
  {
    var n := |s| - 1;
    DealtStep(s, p);
    UnionAdd(Dealt(s[..n], p), n % p, s[n]);
  }

  lemma {:induction false} DealtUnion(s: seq<Card>, p: nat)
    requires p > 0
    ensures Union(Dealt(s, p)) == multiset(s)
    decreases |s|
  {
    if s == [] {
      var empty := Dealt(s, p);
      EmptyUnion(empty);
    } else {
      var n := |s| - 1;
      DealtUnion(s[..n], p);
      DealtUnionStep(s, p);
      assert s == s[..n] + [s[n]];
    }
  }

  lemma {:induction false} EmptyUnion(hands: seq<seq<Card>>)
    requires forall h | 0 <= h < |hands| :: hands[h] == []
    ensures Union(hands) == multiset{}
    decreases |hands|
  {
    if hands != [] {
      EmptyUnion(hands[..|hands| - 1]);
    }
  }

  /** The black Jacks of a hand without the Jack of Clubs: at most the Jack of Spades. */
  lemma OnlyBlackJack(hand: seq<Card>)
    requires NoDuplicates(hand) && JackOfClubs !in hand
    ensures |Filter(hand, OfRankColor(Jack, false))| < 2
  {
    AtMostOneOf(hand, OfRankColor(Jack, false), JackOfSpades);
  }

  /**
   * With the Jack of Clubs out of the game, the Jack of Spades has no card of its rank and colour
   * to pair with, so purgePairs never removes it from a duplicate-free hand.
   */
  lemma JackOfSpadesNeverPurged(hand: seq<Card>, order: seq<Rank>)
    requires NoDuplicates(hand) && JackOfClubs !in hand
    ensures JackOfSpades !in PurgeList(hand, order)
    ensures JackOfSpades in hand ==> JackOfSpades in Without(hand, PurgeList(hand, order))
  {
    var removed := PurgeList(hand, order);
    OnlyBlackJack(hand);
    PurgeByRankColor(hand, order, Jack, false);
    assert Filter(removed, OfRankColor(Jack, false)) == [];
    assert JackOfSpades !in removed by {
      assert Holds(OfRankColor(Jack, false), JackOfSpades);
    }
    assert Holds(NotIn(removed), JackOfSpades);
  }

  /** Collections.swap on a list value. */
  function Swap(s: seq<Card>, i: nat, j: nat): (r: seq<Card>)
    requires i < |s| && j < |s|
    ensures |r| == |s| && multiset(r) == multiset(s)
    ensures r[i] == s[j] && r[j] == s[i]
    ensures forall k | 0 <= k < |s| && k != i && k != j :: r[k] == s[k]
  {
    s[i := s[j]][j := s[i]]
  }

  class Deck {
    var cards: seq<Card>

    /** The constructor's loops: every suit, and within it every rank, skipping the Jack of Clubs. */
    constructor()
      ensures cards == NewDeck()
    {
      cards := [];
      new;
      for si := 0 to 4
        invariant |cards| == Placed(si * 13)
        invariant cards == NewDeck()[..|cards|]
      {
        for ri := 0 to 13
          invariant |cards| == Placed(si * 13 + ri)
          invariant cards == NewDeck()[..|cards|]
        {
          var suit, rank := AllSuits[si], AllRanks[ri];
          if !(rank == Jack && suit == Clubs) {
            CardAtIndices(si, ri);
            NextCard(si * 13 + ri, |cards|);
            cards := cards + [Card(rank, suit)];
          }
        }
      }
    }

    /**
     * shuffle: Collections.shuffle's swaps of position i - 1 with a random position below i, for i
     * from the size down to 2; draws(k) is the k-th number the random source returns.
     */
    method Shuffle(draws: nat -> nat)
      modifies this
      ensures |cards| == |old(cards)| && multiset(cards) == multiset(old(cards))
    {
      var i := |cards|;
      while i > 1
        invariant 0 <= i <= |cards| || (i == 0 && cards == [])
        invariant |cards| == |old(cards)| && multiset(cards) == multiset(old(cards))
        decreases i
      {
        cards := Swap(cards, i - 1, draws(|cards| - i) % i);
        i := i - 1;
      }
    }

    /** deal: Err below two players; otherwise card i goes to the end of hand i % p. The deck is not modified. */
    method Deal(p: int) returns (r: Result<seq<seq<Card>>, string>)
      ensures p < 2 ==> r == Err("Number of players must be at least 2")
      ensures p >= 2 ==> r == Ok(Dealt(cards, p))
    {
      if p < 2 {
        return Err("Number of players must be at least 2");
      }
      var hands: seq<seq<Card>> := seq(p, _ => []);
      for i := 0 to |cards|
        invariant hands == Dealt(cards[..i], p)
      {
        assert cards[..i + 1][..i] == cards[..i];
        DealtStep(cards[..i + 1], p);
        hands := hands[i % p := hands[i % p] + [cards[i]]];
      }
      assert cards[..|cards|] == cards;
      return Ok(hands);
    }

    /** getCards: the deck's cards, as a value. */
    method GetCards() returns (cs: seq<Card>)
      ensures cs == cards
    {
      cs := cards;
    }
  }
}
