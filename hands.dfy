/**
 * Value-level operations on hands (ordered card lists): the stream filters Player.java applies,
 * List.removeAll, List.remove(index), and the three sort orders of Player.java.
 */
module Hands {
  import opened Cards
  import Sorting

  /** The card predicates that Player.java filters hands with. */
  datatype Criterion =
    | OfRank(r: Rank)                 // groupingBy(Card::rank), one group
    | OfColor(red: bool)              // c.suit() == HEARTS || c.suit() == DIAMONDS, or its negation
    | OfRankColor(r: Rank, red: bool)
    | NotIn(cards: seq<Card>)         // what List.removeAll(cards) keeps

  predicate Holds(k: Criterion, c: Card) {
    match k
    case OfRank(r) => c.rank == r
    case OfColor(red) => IsRed(c) == red
    case OfRankColor(r, red) => c.rank == r && IsRed(c) == red
    case NotIn(cards) => c !in cards
  }

  /** The cards of s that satisfy k, in their order in s. */
  function Filter(s: seq<Card>, k: Criterion): (r: seq<Card>)
    ensures |r| <= |s|
    ensures forall c :: c in r <==> c in s && Holds(k, c)
  {
    if s == [] then []
    else (if Holds(k, s[0]) then [s[0]] else []) + Filter(s[1..], k)
  }

  /** List.removeAll: every card equal to one of rm is dropped; the rest keep their order. */
  function Without(s: seq<Card>, rm: seq<Card>): seq<Card> {
    Filter(s, NotIn(rm))
  }

  /** List.remove(i). */
  function RemoveAt(s: seq<Card>, i: nat): seq<Card>
    requires i < |s|
  {
    s[..i] + s[i + 1..]
  }

  /** No card occurs twice. */
  predicate NoDuplicates(s: seq<Card>) {
    forall c | c in s :: multiset(s)[c] == 1
  }

  lemma {:induction false} FilterConcat(a: seq<Card>, b: seq<Card>, k: Criterion)
    ensures Filter(a + b, k) == Filter(a, k) + Filter(b, k)
  {
    if a == [] {
      assert a + b == b;
    } else {
      assert (a + b)[1..] == a[1..] + b;
      FilterConcat(a[1..], b, k);
    }
  }

  /** Filtering keeps each satisfying card's multiplicity and drops the others. */
  lemma {:induction false} FilterCount(s: seq<Card>, k: Criterion, c: Card)
    ensures multiset(Filter(s, k))[c] == if Holds(k, c) then multiset(s)[c] else 0
  {
    if s != [] {
      var t := s[1..];
      FilterCount(t, k, c);
      CountStep(s[0], t, Filter(t, k), Holds(k, s[0]), c, Holds(k, c));
      assert s == [s[0]] + t;
    }
  }

  /** One step of FilterCount, independent of what the criterion is. */
  lemma CountStep<T>(x: T, t: seq<T>, ft: seq<T>, keep: bool, c: T, holds: bool)
    requires x == c ==> keep == holds
    requires multiset(ft)[c] == if holds then multiset(t)[c] else 0
    ensures multiset((if keep then [x] else []) + ft)[c] == if holds then multiset([x] + t)[c] else 0
  {
  }

  lemma FilterSubMultiset(s: seq<Card>, k: Criterion)
    ensures multiset(Filter(s, k)) <= multiset(s)
  {
    forall c ensures multiset(Filter(s, k))[c] <= multiset(s)[c] {
      FilterCount(s, k, c);
    }
  }

  /** Filtering twice is filtering once by the conjunction. */
  lemma {:induction false} FilterFilter(s: seq<Card>, k1: Criterion, k2: Criterion, k3: Criterion)
    requires forall c :: Holds(k3, c) == (Holds(k1, c) && Holds(k2, c))
    ensures Filter(Filter(s, k1), k2) == Filter(s, k3)
  {
    if s != [] {
      FilterFilter(s[1..], k1, k2, k3);
      var head := if Holds(k1, s[0]) then [s[0]] else [];
      FilterConcat(head, Filter(s[1..], k1), k2);
    }
  }

  /** Two filters commute. */
  lemma {:induction false} FilterCommute(s: seq<Card>, k1: Criterion, k2: Criterion)
    ensures Filter(Filter(s, k1), k2) == Filter(Filter(s, k2), k1)
  {
    if s != [] {
      FilterCommute(s[1..], k1, k2);
      var h := [s[0]];
      assert h[1..] == [];
      FilterConcat(if Holds(k1, s[0]) then h else [], Filter(s[1..], k1), k2);
      FilterConcat(if Holds(k2, s[0]) then h else [], Filter(s[1..], k2), k1);
    }
  }

  /** Two criteria that agree on the cards of s filter s alike. */
  lemma {:induction false} FilterAgree(s: seq<Card>, k1: Criterion, k2: Criterion)
    requires forall c :: c in s ==> Holds(k1, c) == Holds(k2, c)
    ensures Filter(s, k1) == Filter(s, k2)
  {
    if s != [] {
      FilterAgree(s[1..], k1, k2);
    }
  }

  /** At least two cards satisfy k exactly when two positions of s hold such cards. */
  lemma TwoSatisfying(s: seq<Card>, k: Criterion)
    ensures |Filter(s, k)| >= 2 <==> exists i, j :: 0 <= i < j < |s| && Holds(k, s[i]) && Holds(k, s[j])
  {
    if |Filter(s, k)| >= 2 {
      TwoFromFilter(s, k);
    }
    if exists i, j :: 0 <= i < j < |s| && Holds(k, s[i]) && Holds(k, s[j]) {
      var i, j :| 0 <= i < j < |s| && Holds(k, s[i]) && Holds(k, s[j]);
      FilterFromTwo(s, k, i, j);
    }
  }

  lemma {:induction false} TwoFromFilter(s: seq<Card>, k: Criterion)
    requires |Filter(s, k)| >= 2
    ensures exists i, j :: 0 <= i < j < |s| && Holds(k, s[i]) && Holds(k, s[j])
  {
    var t := s[1..];
    if Holds(k, s[0]) {
      assert Filter(s, k) == [s[0]] + Filter(t, k);
      var x := Filter(t, k)[0];
      assert x in t && Holds(k, x);
      var j :| 0 <= j < |t| && t[j] == x;
      assert s[j + 1] == x;
      assert Holds(k, s[0]) && Holds(k, s[j + 1]);
    } else {
      assert Filter(s, k) == Filter(t, k);
      TwoFromFilter(t, k);
      var i, j :| 0 <= i < j < |t| && Holds(k, t[i]) && Holds(k, t[j]);
      assert s[i + 1] == t[i] && s[j + 1] == t[j];
      assert Holds(k, s[i + 1]) && Holds(k, s[j + 1]);
    }
  }

  lemma {:induction false} FilterFromTwo(s: seq<Card>, k: Criterion, i: nat, j: nat)
    requires i < j < |s| && Holds(k, s[i]) && Holds(k, s[j])
    ensures |Filter(s, k)| >= 2
  {
    var t := s[1..];
    if i == 0 {
      assert s[j] == t[j - 1];
      assert s[j] in Filter(t, k);
      assert Filter(s, k) == [s[0]] + Filter(t, k);
    } else {
      assert Holds(k, t[i - 1]) && Holds(k, t[j - 1]);
      FilterFromTwo(t, k, i - 1, j - 1);
      assert |Filter(s, k)| >= |Filter(t, k)|;
    }
  }

  lemma {:induction false} FilterAll(s: seq<Card>, k: Criterion)
    requires forall c :: c in s ==> Holds(k, c)
    ensures Filter(s, k) == s
  {
    if s != [] {
      FilterAll(s[1..], k);
      assert s == [s[0]] + s[1..];
    }
  }

  lemma {:induction false} FilterNone(s: seq<Card>, k: Criterion)
    requires forall c :: c in s ==> !Holds(k, c)
    ensures Filter(s, k) == []
  {
    if s != [] {
      FilterNone(s[1..], k);
    }
  }

  /** Every hand is its red part plus its black part. */
  lemma ColorSplit(s: seq<Card>)
    ensures multiset(s) == multiset(Filter(s, OfColor(true))) + multiset(Filter(s, OfColor(false)))
  {
    forall c ensures multiset(s)[c] == multiset(Filter(s, OfColor(true)))[c] + multiset(Filter(s, OfColor(false)))[c] {
      FilterCount(s, OfColor(true), c);
      FilterCount(s, OfColor(false), c);
    }
  }

  /** removeAll(rm) keeps exactly the cards not in rm, with their full multiplicity. */
  lemma WithoutCount(s: seq<Card>, rm: seq<Card>, c: Card)
    ensures multiset(Without(s, rm))[c] == if c in rm then 0 else multiset(s)[c]
  {
    FilterCount(s, NotIn(rm), c);
  }

  lemma WithoutNothing(s: seq<Card>)
    ensures Without(s, []) == s
  {
    FilterAll(s, NotIn([]));
  }

  /**
   * On a hand without duplicates, removing a sub-multiset rm with removeAll takes out exactly rm:
   * what is left plus rm is the old hand.
   */
  lemma WithoutBalance(s: seq<Card>, rm: seq<Card>)
    requires NoDuplicates(s)
    requires multiset(rm) <= multiset(s)
    ensures multiset(Without(s, rm)) + multiset(rm) == multiset(s)
    ensures |Without(s, rm)| + |rm| == |s|
  {
    forall c ensures multiset(Without(s, rm))[c] + multiset(rm)[c] == multiset(s)[c] {
      WithoutCount(s, rm, c);
      if c in rm {
        assert multiset(rm)[c] >= 1;
        assert c in multiset(s);
      }
    }
    assert multiset(Without(s, rm)) + multiset(rm) == multiset(s);
    assert |multiset(Without(s, rm)) + multiset(rm)| == |multiset(s)|;
  }

  /** List.remove(i) takes out exactly the card at i. */
  lemma RemoveAtCount(s: seq<Card>, i: nat)
    requires i < |s|
    ensures multiset(RemoveAt(s, i)) + multiset{s[i]} == multiset(s)
    ensures |RemoveAt(s, i)| == |s| - 1
  {
    assert s == s[..i] + [s[i]] + s[i + 1..];
  }

  /** A card that occurs at two positions occurs at least twice. */
  lemma TwiceAt(s: seq<Card>, i: nat, j: nat)
    requires i < j < |s| && s[i] == s[j]
    ensures multiset(s)[s[i]] >= 2
  {
    assert s == s[..j] + s[j..];
    assert s[i] in s[..j];
    assert s[j] in s[j..];
    assert multiset(s)[s[i]] == multiset(s[..j])[s[i]] + multiset(s[j..])[s[i]];
  }

  /** Cards at different positions differ: then no card occurs twice. */
  lemma {:induction false} DistinctPositions(s: seq<Card>)
    requires forall i, j :: 0 <= i < j < |s| ==> s[i] != s[j]
    ensures NoDuplicates(s)
  {
    if s != [] {
      DistinctPositions(s[1..]);
      assert s == [s[0]] + s[1..];
    }
  }

  /** In a duplicate-free hand where x is the only card that can satisfy k, at most one card does. */
  lemma {:induction false} AtMostOneOf(hand: seq<Card>, k: Criterion, x: Card)
    requires NoDuplicates(hand)
    requires forall c | c in hand && Holds(k, c) :: c == x
    ensures |Filter(hand, k)| <= 1
  {
    if hand != [] {
      var t := hand[1..];
      assert hand == [hand[0]] + t;
      assert multiset(t) <= multiset(hand);
      NoDuplicatesSub(hand, t);
      AtMostOneOf(t, k, x);
      if Holds(k, hand[0]) {
        assert x !in t by {
          assert hand[0] in hand;
          assert multiset(hand)[x] == 1 + multiset(t)[x];
        }
        FilterNone(t, k);
      }
    }
  }

  /** In a duplicate-free hand where only x and y can satisfy k, at most two cards do. */
  lemma {:induction false} AtMostTwoOf(hand: seq<Card>, k: Criterion, x: Card, y: Card)
    requires NoDuplicates(hand)
    requires forall c | c in hand && Holds(k, c) :: c == x || c == y
    ensures |Filter(hand, k)| <= 2
  {
    if hand != [] {
      var t := hand[1..];
      assert hand == [hand[0]] + t;
      assert multiset(t) <= multiset(hand);
      NoDuplicatesSub(hand, t);
      if Holds(k, hand[0]) {
        var other := if hand[0] == x then y else x;
        assert hand[0] !in t by {
          assert hand[0] in hand;
          assert multiset(hand)[hand[0]] == 1 + multiset(t)[hand[0]];
        }
        AtMostOneOf(t, k, other);
      } else {
        AtMostTwoOf(t, k, x, y);
      }
    }
  }

  lemma NoDuplicatesSub(s: seq<Card>, t: seq<Card>)
    requires NoDuplicates(s) && multiset(t) <= multiset(s)
    ensures NoDuplicates(t)
  {
    forall c | c in t ensures multiset(t)[c] == 1 {
      assert c in multiset(t);
    }
  }

  // ---- Sort orders of Player.java ----

  /** Comparator.comparing(Card::rank).thenComparing(Card::suit) as an integer key. */
  function RankKey(c: Card): int {
    RankIndex(c.rank) * 4 + SuitIndex(c.suit)
  }

  /** Comparator.comparing(Card::suit).thenComparing(Card::rank) as an integer key. */
  function SuitKey(c: Card): int {
    SuitIndex(c.suit) * 13 + RankIndex(c.rank)
  }

  /** Reds (key 0) before blacks (key 1), then by rank, as an integer key. */
  function ColorKey(c: Card): int {
    (if IsRed(c) then 0 else 1) * 13 + RankIndex(c.rank)
  }

  /** The integer keys order cards exactly as the comparators do; rank and suit keys tell every two cards apart. */
  lemma KeysAgreeWithComparators(a: Card, b: Card)
    ensures RankKey(a) <= RankKey(b) <==>
      RankIndex(a.rank) < RankIndex(b.rank) || (a.rank == b.rank && SuitIndex(a.suit) <= SuitIndex(b.suit))
    ensures SuitKey(a) <= SuitKey(b) <==>
      SuitIndex(a.suit) < SuitIndex(b.suit) || (a.suit == b.suit && RankIndex(a.rank) <= RankIndex(b.rank))
    ensures ColorKey(a) <= ColorKey(b) <==>
      (IsRed(a) && !IsRed(b)) || (IsRed(a) == IsRed(b) && RankIndex(a.rank) <= RankIndex(b.rank))
    ensures RankKey(a) == RankKey(b) <==> a == b
    ensures SuitKey(a) == SuitKey(b) <==> a == b
    ensures ColorKey(a) == ColorKey(b) <==> Mates(a, b)
  {
    if RankIndex(a.rank) == RankIndex(b.rank) {
      assert a.rank == AllRanks[RankIndex(a.rank)] == b.rank;
    }
    if SuitIndex(a.suit) == SuitIndex(b.suit) {
      assert a.suit == AllSuits[SuitIndex(a.suit)] == b.suit;
    }
  }
}
