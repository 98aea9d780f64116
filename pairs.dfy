/**
 * The pair rule of Player.hasPairs and Player.purgePairs, as functions on hand values.
 * A pair is two cards of the same rank and the same colour. purgePairs groups the hand by
 * rank and, inside each group, removes at most one red pair and at most one black pair.
 */
module Pairs {
  import opened Cards
  import opened Hands

  /** The ranks of s, each at its first occurrence. */
  function Distinct(s: seq<Rank>): seq<Rank> {
    if s == [] then []
    else
      var d := Distinct(s[..|s| - 1]);
      if s[|s| - 1] in d then d else d + [s[|s| - 1]]
  }

  lemma {:induction false} DistinctCount(s: seq<Rank>, r: Rank)
    ensures r in Distinct(s) <==> r in s
    ensures multiset(Distinct(s))[r] == if r in s then 1 else 0
  {
    if s != [] {
      var pre := s[..|s| - 1];
      assert s == pre + [s[|s| - 1]];
      DistinctCount(pre, r);
      if s[|s| - 1] !in Distinct(pre) {
        DistinctCount(pre, s[|s| - 1]);
      }
    }
  }

  /**
   * The order in which purgePairs visits the rank groups of groupingBy's HashMap. Java
   * leaves it unspecified, so it is an argument: the ranks of order at their first occurrence,
   * then the ranks order misses in enum order. Every permutation of the ranks is its own
   * group order, so every HashMap order is covered.
   */
  function GroupOrder(order: seq<Rank>): seq<Rank> {
    Distinct(order + AllRanks)
  }

  lemma GroupOrderHasEach(order: seq<Rank>, r: Rank)
    ensures r in GroupOrder(order)
    ensures multiset(GroupOrder(order))[r] == 1
  {
    assert AllRanks[RankIndex(r)] == r;
    assert r in order + AllRanks;
    DistinctCount(order + AllRanks, r);
  }

  /** Two cards at two positions of the hand form a pair. */
  predicate HasPair(hand: seq<Card>) {
    exists i, j :: 0 <= i < j < |hand| && Mates(hand[i], hand[j])
  }

  /** The group of one rank, in hand order (one value of groupingBy(Card::rank)). */
  function Group(hand: seq<Card>, r: Rank): seq<Card> {
    Filter(hand, OfRank(r))
  }

  /** The inner loop of purgePairs: the first index from j on whose card has g[i]'s colour, or |g|. */
  function FirstMate(g: seq<Card>, i: nat, j: nat): (m: nat)
    requires i < |g|
    decreases |g| - j
    ensures m <= |g|
    ensures m < |g| ==> j <= m && SameColor(g[i], g[m])
  {
    if j >= |g| then |g|
    else if SameColor(g[i], g[j]) then j
    else FirstMate(g, i, j + 1)
  }

  /** Whether the flag of the given colour is already set. */
  predicate Done(red: bool, redRemoved: bool, blackRemoved: bool) {
    if red then redRemoved else blackRemoved
  }

  /**
   * The outer loop of purgePairs over one rank group, from index i with the flags redRemoved and
   * blackRemoved: a card whose colour is not yet done is removed with its first later mate.
   */
  function Sweep(g: seq<Card>, i: nat, redRemoved: bool, blackRemoved: bool): (r: seq<Card>)
    decreases |g| - i
    ensures forall c :: c in r ==> c in g
  {
    if i >= |g| || (redRemoved && blackRemoved) then []
    else
      var c := g[i];
      var j := FirstMate(g, i, i + 1);
      if !Done(IsRed(c), redRemoved, blackRemoved) && j < |g| then
        [c, g[j]] + Sweep(g, i + 1, redRemoved || IsRed(c), blackRemoved || !IsRed(c))
      else
        Sweep(g, i + 1, redRemoved, blackRemoved)
  }

  /** What purgePairs removes from one rank group. */
  function GroupPurge(g: seq<Card>): seq<Card> {
    Sweep(g, 0, false, false)
  }

  /** The groups of the given ranks, purged one after the other. */
  function PurgeFrom(hand: seq<Card>, ranks: seq<Rank>): seq<Card> {
    if ranks == [] then []
    else PurgeFrom(hand, ranks[..|ranks| - 1]) + GroupPurge(Group(hand, ranks[|ranks| - 1]))
  }

  /** The list purgePairs returns when the rank groups are visited in GroupOrder(order). */
  function PurgeList(hand: seq<Card>, order: seq<Rank>): seq<Card> {
    if hand == [] then [] else PurgeFrom(hand, GroupOrder(order))
  }

  function FirstTwo(s: seq<Card>): seq<Card> {
    if |s| >= 2 then s[..2] else []
  }

  /** A list made of consecutive pairs. */
  predicate Paired(s: seq<Card>)
    decreases |s|
  {
    s == [] || (|s| >= 2 && Mates(s[0], s[1]) && Paired(s[2..]))
  }

  lemma {:induction false} PairedConcat(a: seq<Card>, b: seq<Card>)
    requires Paired(a) && Paired(b)
    ensures Paired(a + b)
    decreases |a|
  {
    if a == [] {
      assert a + b == b;
    } else {
      assert (a + b)[2..] == a[2..] + b;
      PairedConcat(a[2..], b);
    }
  }

  lemma {:induction false} FirstMateFinds(g: seq<Card>, i: nat, j: nat)
    requires i < j <= |g|
    decreases |g| - j, 1
    ensures FirstMate(g, i, j) < |g| <==> Filter(g[j..], OfColor(IsRed(g[i]))) != []
    ensures FirstMate(g, i, j) < |g| ==> Filter(g[j..], OfColor(IsRed(g[i])))[0] == g[FirstMate(g, i, j)]
  {
    if j == |g| {
      assert g[j..] == [];
    } else if SameColor(g[i], g[j]) {
      FirstMateHit(g, i, j);
    } else {
      FirstMateMiss(g, i, j);
    }
  }

  /** The card at j has g[i]'s colour: it is both the mate and the head of the filtered rest. */
  lemma FirstMateHit(g: seq<Card>, i: nat, j: nat)
    requires i < j < |g| && SameColor(g[i], g[j])
    ensures FirstMate(g, i, j) == j
    ensures Filter(g[j..], OfColor(IsRed(g[i]))) != []
    ensures Filter(g[j..], OfColor(IsRed(g[i])))[0] == g[j]
  {
    var k := OfColor(IsRed(g[i]));
    SliceStep(g, j, k);
    assert Holds(k, g[j]);
  }

  /** The card at j has the other colour: the search and the filter both move on to j + 1. */
  lemma {:induction false} FirstMateMiss(g: seq<Card>, i: nat, j: nat)
    requires i < j < |g| && !SameColor(g[i], g[j])
    decreases |g| - j, 0
    ensures FirstMate(g, i, j) < |g| <==> Filter(g[j..], OfColor(IsRed(g[i]))) != []
    ensures FirstMate(g, i, j) < |g| ==> Filter(g[j..], OfColor(IsRed(g[i])))[0] == g[FirstMate(g, i, j)]
  {
    var k := OfColor(IsRed(g[i]));
    SliceStep(g, j, k);
    assert !Holds(k, g[j]);
    assert Filter(g[j..], k) == Filter(g[j + 1..], k);
    assert FirstMate(g, i, j) == FirstMate(g, i, j + 1);
    FirstMateFinds(g, i, j + 1);
  }

  lemma SliceStep(g: seq<Card>, i: nat, k: Criterion)
    requires i < |g|
    ensures Filter(g[i..], k) == (if Holds(k, g[i]) then [g[i]] else []) + Filter(g[i + 1..], k)
  {
    assert g[i..][1..] == g[i + 1..];
  }

  lemma FilterTwo(a: Card, b: Card, k: Criterion)
    ensures Filter([a, b], k) == (if Holds(k, a) then [a] else []) + (if Holds(k, b) then [b] else [])
  {
    assert [a, b][1..] == [b];
    assert [b][1..] == [];
  }

  /** A taken step removes the card at i and its mate. */
  lemma SweepTakes(g: seq<Card>, i: nat, rr: bool, br: bool, k: Criterion)
    requires i < |g| && !(rr && br)
    requires !Done(IsRed(g[i]), rr, br) && FirstMate(g, i, i + 1) < |g|
    ensures Filter(Sweep(g, i, rr, br), k) ==
      Filter([g[i], g[FirstMate(g, i, i + 1)]], k) + Filter(Sweep(g, i + 1, rr || IsRed(g[i]), br || !IsRed(g[i])), k)
  {
    var rest := Sweep(g, i + 1, rr || IsRed(g[i]), br || !IsRed(g[i]));
    assert Sweep(g, i, rr, br) == [g[i], g[FirstMate(g, i, i + 1)]] + rest;
    FilterConcat([g[i], g[FirstMate(g, i, i + 1)]], rest, k);
  }

  /** Taking the card at i, of the colour considered, yields it and its mate. */
  lemma SweepTakenSameColor(g: seq<Card>, i: nat, red: bool)
    requires i < |g| && IsRed(g[i]) == red && FirstMate(g, i, i + 1) < |g|
    ensures FirstTwo(Filter(g[i..], OfColor(red))) == [g[i], g[FirstMate(g, i, i + 1)]]
    ensures Filter([g[i], g[FirstMate(g, i, i + 1)]], OfColor(red)) == [g[i], g[FirstMate(g, i, i + 1)]]
  {
    var k := OfColor(red);
    var tail := Filter(g[i + 1..], k);
    FilterTwo(g[i], g[FirstMate(g, i, i + 1)], k);
    SliceStep(g, i, k);
    FirstMateFinds(g, i, i + 1);
    var whole := [g[i]] + tail;
    assert Filter(g[i..], k) == whole;
    assert whole[..2] == [g[i], g[FirstMate(g, i, i + 1)]];
  }

  /** Taking the card at i, of the other colour, leaves the colour considered untouched. */
  lemma SweepTakenOtherColor(g: seq<Card>, i: nat, red: bool)
    requires i < |g| && IsRed(g[i]) != red && FirstMate(g, i, i + 1) < |g|
    ensures Filter(g[i..], OfColor(red)) == Filter(g[i + 1..], OfColor(red))
    ensures Filter([g[i], g[FirstMate(g, i, i + 1)]], OfColor(red)) == []
  {
    FilterTwo(g[i], g[FirstMate(g, i, i + 1)], OfColor(red));
    SliceStep(g, i, OfColor(red));
  }

  /** What SweepColor states at index i with the given flags. */
  ghost predicate ColorSwept(g: seq<Card>, i: nat, rr: bool, br: bool, red: bool)
    requires i <= |g|
  {
    Filter(Sweep(g, i, rr, br), OfColor(red)) == if Done(red, rr, br) then [] else FirstTwo(Filter(g[i..], OfColor(red)))
  }

  /** One step of SweepColor: the card at i is removed with its mate. */
  lemma SweepColorTaken(g: seq<Card>, i: nat, rr: bool, br: bool, red: bool)
    requires i < |g| && !(rr && br)
    requires !Done(IsRed(g[i]), rr, br) && FirstMate(g, i, i + 1) < |g|
    requires ColorSwept(g, i + 1, rr || IsRed(g[i]), br || !IsRed(g[i]), red)
    ensures ColorSwept(g, i, rr, br, red)
  {
    SweepTakes(g, i, rr, br, OfColor(red));
    if IsRed(g[i]) == red {
      SweepTakenSameColor(g, i, red);
    } else {
      SweepTakenOtherColor(g, i, red);
    }
  }

  /** One step of SweepColor: the card at i stays, its colour being done or mateless. */
  lemma SweepColorSkipped(g: seq<Card>, i: nat, rr: bool, br: bool, red: bool)
    requires i < |g| && !(rr && br)
    requires Done(IsRed(g[i]), rr, br) || FirstMate(g, i, i + 1) == |g|
    requires Filter(Sweep(g, i + 1, rr, br), OfColor(red)) ==
      if Done(red, rr, br) then [] else FirstTwo(Filter(g[i + 1..], OfColor(red)))
    ensures Filter(Sweep(g, i, rr, br), OfColor(red)) ==
      if Done(red, rr, br) then [] else FirstTwo(Filter(g[i..], OfColor(red)))
  {
    var k := OfColor(red);
    var c := g[i];
    var tail := Filter(g[i + 1..], k);
    assert Sweep(g, i, rr, br) == Sweep(g, i + 1, rr, br);
    SliceStep(g, i, k);
    if IsRed(c) == red {
      if !Done(red, rr, br) {
        FirstMateFinds(g, i, i + 1);
        assert tail == [];
        assert Filter(g[i..], k) == [c];
      }
    } else {
      assert Filter(g[i..], k) == tail;
    }
  }

  /**
   * Per colour, a sweep removes the first two cards of that colour from index i on, unless the
   * colour's flag is already set.
   */
  lemma {:induction false} SweepColor(g: seq<Card>, i: nat, rr: bool, br: bool, red: bool)
    requires i <= |g|
    decreases |g| - i, 1
    ensures Filter(Sweep(g, i, rr, br), OfColor(red)) ==
      if Done(red, rr, br) then [] else FirstTwo(Filter(g[i..], OfColor(red)))
  {
    if i == |g| {
      assert g[i..] == [];
    } else if rr && br {
    } else if !Done(IsRed(g[i]), rr, br) && FirstMate(g, i, i + 1) < |g| {
      SweepColorFromTaken(g, i, rr, br, red);
    } else {
      SweepColorFromSkipped(g, i, rr, br, red);
    }
  }

  /** SweepColor at a card that is removed with its mate, from SweepColor at the next card. */
  lemma {:induction false} SweepColorFromTaken(g: seq<Card>, i: nat, rr: bool, br: bool, red: bool)
    requires i < |g| && !(rr && br)
    requires !Done(IsRed(g[i]), rr, br) && FirstMate(g, i, i + 1) < |g|
    decreases |g| - i, 0
    ensures ColorSwept(g, i, rr, br, red)
  {
    SweepColor(g, i + 1, rr || IsRed(g[i]), br || !IsRed(g[i]), red);
    SweepColorTaken(g, i, rr, br, red);
  }

  /** SweepColor at a card that stays, from SweepColor at the next card. */
  lemma {:induction false} SweepColorFromSkipped(g: seq<Card>, i: nat, rr: bool, br: bool, red: bool)
    requires i < |g| && !(rr && br)
    requires Done(IsRed(g[i]), rr, br) || FirstMate(g, i, i + 1) == |g|
    decreases |g| - i, 0
    ensures Filter(Sweep(g, i, rr, br), OfColor(red)) ==
      if Done(red, rr, br) then [] else FirstTwo(Filter(g[i..], OfColor(red)))
  {
    SweepColor(g, i + 1, rr, br, red);
    SweepColorSkipped(g, i, rr, br, red);
  }

  lemma {:induction false} SweepPaired(g: seq<Card>, i: nat, rr: bool, br: bool, r: Rank)
    requires forall c :: c in g ==> c.rank == r
    decreases |g| - i
    ensures Paired(Sweep(g, i, rr, br))
  {
    if i < |g| && !(rr && br) {
      var c := g[i];
      var j := FirstMate(g, i, i + 1);
      if !Done(IsRed(c), rr, br) && j < |g| {
        var rest := Sweep(g, i + 1, rr || IsRed(c), br || !IsRed(c));
        SweepPaired(g, i + 1, rr || IsRed(c), br || !IsRed(c), r);
        assert ([c, g[j]] + rest)[2..] == rest;
      } else {
        SweepPaired(g, i + 1, rr, br, r);
      }
    }
  }

  /** Per colour, one rank group yields the first two cards of that rank and colour, or nothing. */
  lemma GroupPurgeColor(hand: seq<Card>, r: Rank, red: bool)
    ensures Filter(GroupPurge(Group(hand, r)), OfColor(red)) == FirstTwo(Filter(hand, OfRankColor(r, red)))
    ensures forall c :: c in GroupPurge(Group(hand, r)) ==> c in hand && c.rank == r
  {
    var g := Group(hand, r);
    SweepColor(g, 0, false, false, red);
    assert g[0..] == g;
    FilterFilter(hand, OfRank(r), OfColor(red), OfRankColor(r, red));
  }

  lemma GroupPurgeRankColor(hand: seq<Card>, r': Rank, r: Rank, red: bool)
    ensures Filter(GroupPurge(Group(hand, r')), OfRankColor(r, red)) ==
      if r' == r then FirstTwo(Filter(hand, OfRankColor(r, red))) else []
  {
    GroupPurgeColor(hand, r', red);
    var p := GroupPurge(Group(hand, r'));
    if r' == r {
      FilterAgree(p, OfRankColor(r, red), OfColor(red));
    } else {
      FilterNone(p, OfRankColor(r, red));
    }
  }

  lemma {:induction false} PurgeFromRankColor(hand: seq<Card>, ranks: seq<Rank>, r: Rank, red: bool)
    requires multiset(ranks)[r] <= 1
    ensures Filter(PurgeFrom(hand, ranks), OfRankColor(r, red)) ==
      if r in ranks then FirstTwo(Filter(hand, OfRankColor(r, red))) else []
  {
    if ranks != [] {
      var pre, last := ranks[..|ranks| - 1], ranks[|ranks| - 1];
      assert ranks == pre + [last];
      assert multiset(ranks) == multiset(pre) + multiset{last};
      PurgeFromRankColor(hand, pre, r, red);
      FilterConcat(PurgeFrom(hand, pre), GroupPurge(Group(hand, last)), OfRankColor(r, red));
      GroupPurgeRankColor(hand, last, r, red);
      if last == r {
        assert r !in multiset(pre);
      }
    }
  }

  /**
   * The whole effect of purgePairs, rank by rank and colour by colour: of the cards of rank r and
   * one colour, the first two are removed when there are at least two, and none otherwise. So each
   * rank yields at most one red pair and at most one black pair, whatever the group order.
   */
  lemma PurgeByRankColor(hand: seq<Card>, order: seq<Rank>, r: Rank, red: bool)
    ensures Filter(PurgeList(hand, order), OfRankColor(r, red)) == FirstTwo(Filter(hand, OfRankColor(r, red)))
    ensures |Filter(PurgeList(hand, order), OfRankColor(r, red))| == if |Filter(hand, OfRankColor(r, red))| >= 2 then 2 else 0
  {
    if hand != [] {
      GroupOrderHasEach(order, r);
      PurgeFromRankColor(hand, GroupOrder(order), r, red);
    }
  }

  lemma {:induction false} PurgeFromPaired(hand: seq<Card>, ranks: seq<Rank>)
    ensures Paired(PurgeFrom(hand, ranks))
    ensures forall c :: c in PurgeFrom(hand, ranks) ==> c in hand
  {
    if ranks != [] {
      var last := ranks[|ranks| - 1];
      PurgeFromPaired(hand, ranks[..|ranks| - 1]);
      GroupPurgeColor(hand, last, true);
      SweepPaired(Group(hand, last), 0, false, false, last);
      PairedConcat(PurgeFrom(hand, ranks[..|ranks| - 1]), GroupPurge(Group(hand, last)));
    }
  }

  /** The removed list is made of pairs, each of one rank and one colour, taken from the hand. */
  lemma PurgePaired(hand: seq<Card>, order: seq<Rank>)
    ensures Paired(PurgeList(hand, order))
    ensures forall c :: c in PurgeList(hand, order) ==> c in hand
  {
    PurgeFromPaired(hand, GroupOrder(order));
  }

  lemma PrefixCount(s: seq<Card>, m: nat, c: Card)
    requires m <= |s|
    ensures multiset(s[..m])[c] <= multiset(s)[c]
  {
    assert s == s[..m] + s[m..];
  }

  /** The removed cards are a sub-multiset of the hand. */
  lemma PurgeSubMultiset(hand: seq<Card>, order: seq<Rank>)
    ensures multiset(PurgeList(hand, order)) <= multiset(hand)
  {
    var p := PurgeList(hand, order);
    forall c ensures multiset(p)[c] <= multiset(hand)[c] {
      var k := OfRankColor(c.rank, IsRed(c));
      PurgeByRankColor(hand, order, c.rank, IsRed(c));
      FilterCount(p, k, c);
      FilterCount(hand, k, c);
      var f := Filter(hand, k);
      if |f| >= 2 {
        PrefixCount(f, 2, c);
      }
    }
  }

  /** hasPairs through the groups: some rank has two cards of one colour. */
  lemma HasPairByRank(hand: seq<Card>)
    ensures HasPair(hand) <==> exists r: Rank, red: bool :: |Filter(hand, OfRankColor(r, red))| >= 2
  {
    if HasPair(hand) {
      var i, j :| 0 <= i < j < |hand| && Mates(hand[i], hand[j]);
      var k := OfRankColor(hand[i].rank, IsRed(hand[i]));
      TwoSatisfying(hand, k);
      assert Holds(k, hand[i]) && Holds(k, hand[j]);
    }
    if exists r: Rank, red: bool :: |Filter(hand, OfRankColor(r, red))| >= 2 {
      var r: Rank, red: bool :| |Filter(hand, OfRankColor(r, red))| >= 2;
      TwoSatisfying(hand, OfRankColor(r, red));
      var i, j :| 0 <= i < j < |hand| && Holds(OfRankColor(r, red), hand[i]) && Holds(OfRankColor(r, red), hand[j]);
      assert Mates(hand[i], hand[j]);
    }
  }

  /** hasPairs' test inside one rank group: two positions of the group hold cards of one colour. */
  predicate GroupHasPair(g: seq<Card>) {
    exists i, j :: 0 <= i < j < |g| && SameColor(g[i], g[j])
  }

  lemma GroupPairByColor(hand: seq<Card>, r: Rank)
    ensures GroupHasPair(Group(hand, r)) <==>
      |Filter(hand, OfRankColor(r, true))| >= 2 || |Filter(hand, OfRankColor(r, false))| >= 2
  {
    FilterFilter(hand, OfRank(r), OfColor(true), OfRankColor(r, true));
    FilterFilter(hand, OfRank(r), OfColor(false), OfRankColor(r, false));
    PairByColor(Group(hand, r));
  }

  /** Two cards of one colour in a sequence: two red ones or two black ones. */
  lemma PairByColor(g: seq<Card>)
    ensures GroupHasPair(g) <==> |Filter(g, OfColor(true))| >= 2 || |Filter(g, OfColor(false))| >= 2
  {
    TwoSatisfying(g, OfColor(true));
    TwoSatisfying(g, OfColor(false));
    if GroupHasPair(g) {
      var i, j :| 0 <= i < j < |g| && SameColor(g[i], g[j]);
      assert Holds(OfColor(IsRed(g[i])), g[i]) && Holds(OfColor(IsRed(g[i])), g[j]);
    }
    if |Filter(g, OfColor(true))| >= 2 {
      var i, j :| 0 <= i < j < |g| && Holds(OfColor(true), g[i]) && Holds(OfColor(true), g[j]);
      assert SameColor(g[i], g[j]);
    }
    if |Filter(g, OfColor(false))| >= 2 {
      var i, j :| 0 <= i < j < |g| && Holds(OfColor(false), g[i]) && Holds(OfColor(false), g[j]);
      assert SameColor(g[i], g[j]);
    }
  }

  /** hasPairs as Player.java computes it: some rank group holds two cards of one colour. */
  lemma HasPairByGroups(hand: seq<Card>)
    ensures HasPair(hand) <==> exists r: Rank :: GroupHasPair(Group(hand, r))
  {
    HasPairByRank(hand);
    if HasPair(hand) {
      var r: Rank, red: bool :| |Filter(hand, OfRankColor(r, red))| >= 2;
      GroupPairByColor(hand, r);
    }
    if exists r: Rank :: GroupHasPair(Group(hand, r)) {
      var r: Rank :| GroupHasPair(Group(hand, r));
      GroupPairByColor(hand, r);
    }
  }

  /** purgePairs removes something exactly when hasPairs holds (so an empty hand loses nothing). */
  lemma PurgeEmptyIff(hand: seq<Card>, order: seq<Rank>)
    ensures PurgeList(hand, order) == [] <==> !HasPair(hand)
  {
    var p := PurgeList(hand, order);
    HasPairByRank(hand);
    if HasPair(hand) {
      var r: Rank, red: bool :| |Filter(hand, OfRankColor(r, red))| >= 2;
      PurgeByRankColor(hand, order, r, red);
    }
    if p != [] {
      var c := p[0];
      assert c in p;
      PurgeByRankColor(hand, order, c.rank, IsRed(c));
      assert c in Filter(p, OfRankColor(c.rank, IsRed(c)));
    }
  }

  /** Three different cards of one rank and one colour cannot exist: a colour has two suits. */
  lemma AtMostTwoPerRankColor(hand: seq<Card>, r: Rank, red: bool)
    requires NoDuplicates(hand)
    ensures |Filter(hand, OfRankColor(r, red))| <= 2
  {
    var x := Card(r, if red then Hearts else Clubs);
    var y := Card(r, if red then Diamonds else Spades);
    AtMostTwoOf(hand, OfRankColor(r, red), x, y);
  }

  /** After the purge of a hand without duplicates, each rank and colour has at most one card left. */
  lemma PurgeLeavesAtMostOne(hand: seq<Card>, order: seq<Rank>, r: Rank, red: bool)
    requires NoDuplicates(hand)
    ensures |Filter(Without(hand, PurgeList(hand, order)), OfRankColor(r, red))| < 2
  {
    var p := PurgeList(hand, order);
    var k := OfRankColor(r, red);
    var f := Filter(hand, k);
    var left := Without(f, p);
    assert Filter(Without(hand, p), k) == left by {
      FilterCommute(hand, NotIn(p), k);
    }
    assert |f| <= 2 by {
      AtMostTwoPerRankColor(hand, r, red);
    }
    if |f| == 2 {
      assert left == [] by {
        PurgeByRankColor(hand, order, r, red);
        assert f == f[..2] == Filter(p, k);
        FilterNone(f, NotIn(p));
      }
    }
  }

  /** On a hand without duplicate cards, purgePairs leaves no pair behind. */
  lemma PurgeLeavesNoPair(hand: seq<Card>, order: seq<Rank>)
    requires NoDuplicates(hand)
    ensures !HasPair(Without(hand, PurgeList(hand, order)))
  {
    var h' := Without(hand, PurgeList(hand, order));
    forall r: Rank, red: bool ensures |Filter(h', OfRankColor(r, red))| < 2 {
      PurgeLeavesAtMostOne(hand, order, r, red);
    }
    HasPairByRank(h');
  }

  /** On a hand without duplicates, the cards left plus the cards removed are the old hand. */
  lemma PurgeBalance(hand: seq<Card>, order: seq<Rank>)
    requires NoDuplicates(hand)
    ensures multiset(Without(hand, PurgeList(hand, order))) + multiset(PurgeList(hand, order)) == multiset(hand)
    ensures |Without(hand, PurgeList(hand, order))| == |hand| - |PurgeList(hand, order)|
  {
    PurgeSubMultiset(hand, order);
    WithoutBalance(hand, PurgeList(hand, order));
  }
}
