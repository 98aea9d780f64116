/**
 * Player.java, the strategies' makeMove methods and HumanStrategy's action queue, on objects.
 * Every method is proved to do what the functions of module Strategies and Pairs describe.
 */
module Players {
  import opened Wrappers
  import opened Cards
  import opened Hands
  import opened Pairs
  import opened Strategies
  import Sorting

  /** The message of the IllegalStateException drawFrom throws for an empty source hand. */
  function EmptyHandMessage(name: string): string {
    "Cannot draw from '" + name + "'; their hand is empty"
  }

  /**
   * The Java result of makeMove against the outcome on values: Ok carries the returned list and
   * the two hands after the move; Err is the exception, with the mover's hand at the throw and the
   * neighbour's hand untouched.
   */
  predicate Realizes(o: Outcome, r: Result<seq<Card>, string>, self: seq<Card>, left: seq<Card>,
                     leftBefore: seq<Card>, leftName: string) {
    match o
    case Ok(m) => r == Ok(m.purged) && self == m.table.self && left == m.table.left
    case Err(h) => r == Err(EmptyHandMessage(leftName)) && self == h && left == leftBefore
  }

  class Player {
    const name: string
    var hand: seq<Card>
    const strategy: Strategy

    constructor(name: string, initialHand: seq<Card>, strategy: Strategy)
      ensures this.name == name && hand == initialHand && this.strategy == strategy
    {
      this.name := name;
      hand := initialHand;
      this.strategy := strategy;
    }

    /** A copy of the hand: a value, which later changes to the hand do not affect. */
    method GetHand() returns (h: seq<Card>)
      ensures h == hand
    {
      h := hand;
    }

    method SetHand(newHand: seq<Card>)
      modifies this
      ensures hand == newHand
    {
      hand := newHand;
    }

    /** hasPairs: the loops over each rank group and each pair of positions in it. */
    method HasPairs(order: seq<Rank>) returns (b: bool)
      ensures b <==> HasPair(hand)
    {
      var snapshot := hand;
      var ranks := GroupOrder(order);
      for g := 0 to |ranks|
        invariant forall k :: 0 <= k < g ==> !GroupHasPair(Group(snapshot, ranks[k]))
      {
        var group := Group(snapshot, ranks[g]);
        for i := 0 to |group|
          invariant forall i', j' :: 0 <= i' < i && i' < j' < |group| ==> !SameColor(group[i'], group[j'])
        {
          for j := i + 1 to |group|
            invariant forall j' :: i < j' < j ==> !SameColor(group[i], group[j'])
          {
            if SameColor(group[i], group[j]) {
              assert GroupHasPair(group);
              HasPairByGroups(snapshot);
              return true;
            }
          }
        }
      }
      forall r: Rank ensures !GroupHasPair(Group(snapshot, r)) {
        GroupOrderHasEach(order, r);
        var k :| 0 <= k < |ranks| && ranks[k] == r;
      }
      HasPairByGroups(snapshot);
      return false;
    }

    /**
     * purgePairs: every rank group in turn, each purged as PurgeGroup describes; then removeAll.
     */
    method PurgePairs(order: seq<Rank>) returns (removed: seq<Card>)
      modifies this
      ensures removed == PurgeList(old(hand), order)
      ensures hand == Without(old(hand), removed)
    {
      var snapshot := hand;
      if snapshot == [] {
        return [];
      }
      var ranks := GroupOrder(order);
      removed := [];
      for g := 0 to |ranks|
        invariant removed == PurgeFrom(snapshot, ranks[..g])
        invariant hand == snapshot
      {
        var group := Group(snapshot, ranks[g]);
        assert ranks[..g + 1][..g] == ranks[..g];
        var taken := PurgeGroup(group);
        removed := removed + taken;
      }
      assert ranks[..|ranks|] == ranks;
      hand := Without(hand, removed);
    }

    /** drawFrom: the card at the chosen index moves from the neighbour's hand to the end of this one. */
    method DrawFrom(from: Player, pick: nat) returns (r: Result<Card, string>)
      modifies this, from
      ensures old(from.hand) == [] ==>
        r == Err(EmptyHandMessage(from.name)) && hand == old(hand) && from.hand == old(from.hand)
      ensures old(from.hand) != [] ==>
        var i := DrawIndex(old(from.hand), pick);
        r == Ok(old(from.hand)[i])
        && if from == this then hand == RemoveAt(old(hand), i) + [old(hand)[i]]
           else from.hand == RemoveAt(old(from.hand), i) && hand == old(hand) + [old(from.hand)[i]]
    {
      if from.hand == [] {
        return Err(EmptyHandMessage(from.name));
      }
      var idx := pick % |from.hand|;
      var card := from.hand[idx];
      from.hand := RemoveAt(from.hand, idx);
      hand := hand + [card];
      return Ok(card);
    }

    method ReceiveCards(cards: seq<Card>)
      modifies this
      ensures hand == old(hand) + cards
    {
      hand := hand + cards;
    }

    /** sortHandByRank: a permutation of the hand in (rank, suit) order. */
    method SortHandByRank()
      modifies this
      ensures hand == Sorting.SortBy(old(hand), RankKey)
      ensures multiset(hand) == multiset(old(hand)) && Sorting.SortedBy(hand, RankKey)
    {
      Sorting.SortByPermutesAndSorts(hand, RankKey);
      hand := Sorting.SortBy(hand, RankKey);
    }

    /** sortHandBySuit: a permutation of the hand in (suit, rank) order. */
    method SortHandBySuit()
      modifies this
      ensures hand == Sorting.SortBy(old(hand), SuitKey)
      ensures multiset(hand) == multiset(old(hand)) && Sorting.SortedBy(hand, SuitKey)
    {
      Sorting.SortByPermutesAndSorts(hand, SuitKey);
      hand := Sorting.SortBy(hand, SuitKey);
    }

    /**
     * sortHandByColor: a permutation of the hand with reds first, each colour by rank; cards of
     * equal key (the two cards of one rank and colour) keep their order.
     */
    method SortHandByColor()
      modifies this
      ensures hand == Sorting.SortBy(old(hand), ColorKey)
      ensures multiset(hand) == multiset(old(hand)) && Sorting.SortedBy(hand, ColorKey)
      ensures forall v :: Sorting.WithKey(hand, ColorKey, v) == Sorting.WithKey(old(hand), ColorKey, v)
    {
      Sorting.SortByPermutesAndSorts(hand, ColorKey);
      forall v ensures Sorting.WithKey(Sorting.SortBy(hand, ColorKey), ColorKey, v) == Sorting.WithKey(hand, ColorKey, v) {
        Sorting.SortByStable(hand, ColorKey, v);
      }
      hand := Sorting.SortBy(hand, ColorKey);
    }

    /** takeTurn: the strategy's makeMove against the left neighbour. */
    method TakeTurn(left: Player, c: Chance, queue: ActionQueue) returns (r: Result<seq<Card>, string>)
      requires left != this
      modifies this, left, queue
      ensures var turn := Play(strategy, Table(old(hand), old(left.hand)), c, old(queue.actions));
        Realizes(turn.outcome, r, hand, left.hand, old(left.hand), left.name) && queue.actions == turn.rest
    {
      r := MakeMove(strategy, this, left, c, queue);
    }
  }

  /**
   * One rank group of purgePairs: the i-loop with its redRemoved/blackRemoved flags and the
   * j-loop that looks for a later card of the same colour.
   */
  method PurgeGroup(group: seq<Card>) returns (taken: seq<Card>)
    ensures taken == GroupPurge(group)
  {
    taken := [];
    var redRemoved, blackRemoved := false, false;
    var i := 0;
    while i < |group|
      invariant 0 <= i <= |group|
      invariant !(redRemoved && blackRemoved)
      invariant taken + Sweep(group, i, redRemoved, blackRemoved) == GroupPurge(group)
    {
      var c1 := group[i];
      ghost var allowed := !Done(IsRed(c1), redRemoved, blackRemoved);
      ghost var before := taken;
      var j := i + 1;
      while j < |group|
        invariant i + 1 <= j <= |group|
        invariant allowed == !Done(IsRed(c1), redRemoved, blackRemoved)
        invariant allowed ==> FirstMate(group, i, j) == FirstMate(group, i, i + 1)
        invariant taken == before
        invariant taken + Sweep(group, i, redRemoved, blackRemoved) == GroupPurge(group)
      {
        var c2 := group[j];
        if SameColor(c1, c2) {
          var isRed := c1.suit == Hearts || c1.suit == Diamonds;
          if (isRed && !redRemoved) || (!isRed && !blackRemoved) {
            assert Sweep(group, i, redRemoved, blackRemoved) ==
              [c1, c2] + Sweep(group, i + 1, redRemoved || isRed, blackRemoved || !isRed);
            taken := taken + [c1, c2];
            if isRed {
              redRemoved := true;
            } else {
              blackRemoved := true;
            }
            assert taken + Sweep(group, i + 1, redRemoved, blackRemoved) == GroupPurge(group);
            break;
          }
        }
        j := j + 1;
      }
      assert taken + Sweep(group, i + 1, redRemoved, blackRemoved) == GroupPurge(group);
      if redRemoved && blackRemoved {
        break;
      }
      i := i + 1;
    }
  }

  /** HumanStrategy's blocking queue of actions; an empty queue stands for an interrupted take(). */
  class ActionQueue {
    var actions: seq<Action>

    constructor(actions: seq<Action>)
      ensures this.actions == actions
    {
      this.actions := actions;
    }

    method Take() returns (a: Option<Action>)
      modifies this
      ensures old(actions) == [] ==> a == None && actions == []
      ensures old(actions) != [] ==> a == Some(old(actions)[0]) && actions == old(actions)[1..]
    {
      if actions == [] {
        return None;
      }
      a := Some(actions[0]);
      actions := actions[1..];
    }
  }

  /** MoveStrategy.makeMove, dispatched on the strategy. */
  method MakeMove(s: Strategy, self: Player, left: Player, c: Chance, queue: ActionQueue)
    returns (r: Result<seq<Card>, string>)
    requires self != left
    modifies self, left, queue
    decreases if s == MixedRandom then 2 else 0
    ensures var turn := Play(s, Table(old(self.hand), old(left.hand)), c, old(queue.actions));
      Realizes(turn.outcome, r, self.hand, left.hand, old(left.hand), left.name) && queue.actions == turn.rest
  {
    match s
    case DrawThenPurge => r := DrawThenPurgeMakeMove(self, left, c);
    case PurgeThenDraw => r := PurgeThenDrawMakeMove(self, left, c);
    case RandomDraw => r := RandomDrawMakeMove(self, left, c);
    case MixedRandom => r := MixedRandomMakeMove(self, left, c, queue);
    case ColorAware => r := ColorAwareMakeMove(self, left, c);
    case PurgeRedThenDraw => r := PurgeRedThenDrawMakeMove(self, left, c);
    case Human => r := HumanMakeMove(self, left, c, queue);
  }

  method DrawThenPurgeMakeMove(self: Player, left: Player, c: Chance) returns (r: Result<seq<Card>, string>)
    requires self != left
    modifies self, left
    ensures Realizes(DrawThenPurgeMove(Table(old(self.hand), old(left.hand)), c), r,
      self.hand, left.hand, old(left.hand), left.name)
  {
    var drawn := self.DrawFrom(left, c.pick);
    if drawn.Err? {
      return Err(drawn.error);
    }
    var removed := self.PurgePairs(c.order);
    return Ok(removed);
  }

  method PurgeThenDrawMakeMove(self: Player, left: Player, c: Chance) returns (r: Result<seq<Card>, string>)
    requires self != left
    modifies self, left
    ensures Realizes(PurgeThenDrawMove(Table(old(self.hand), old(left.hand)), c), r,
      self.hand, left.hand, old(left.hand), left.name)
  {
    var removed := self.PurgePairs(c.order);
    var drawn := self.DrawFrom(left, c.pick);
    if drawn.Err? {
      return Err(drawn.error);
    }
    return Ok(removed);
  }

  method RandomDrawMakeMove(self: Player, left: Player, c: Chance) returns (r: Result<seq<Card>, string>)
    requires self != left
    modifies self, left
    ensures Realizes(RandomDrawMove(Table(old(self.hand), old(left.hand)), c), r,
      self.hand, left.hand, old(left.hand), left.name)
  {
    var drawn := self.DrawFrom(left, c.pick);
    if drawn.Err? {
      return Err(drawn.error);
    }
    var pairs := self.HasPairs(c.order);
    if pairs {
      var _ := self.PurgePairs(c.order);
    }
    return Ok([]);
  }

  /** MixedRandomStrategy: OPTIONS.get(nextInt(3)).makeMove(self, leftNeighbor). */
  method MixedRandomMakeMove(self: Player, left: Player, c: Chance, queue: ActionQueue)
    returns (r: Result<seq<Card>, string>)
    requires self != left
    modifies self, left, queue
    decreases 1
    ensures var turn := Play(MixedRandom, Table(old(self.hand), old(left.hand)), c, old(queue.actions));
      Realizes(turn.outcome, r, self.hand, left.hand, old(left.hand), left.name) && queue.actions == turn.rest
  {
    var choice := MixedOptions[c.option % 3];
    r := MakeMove(choice, self, left, c, queue);
  }

  method ColorAwareMakeMove(self: Player, left: Player, c: Chance) returns (r: Result<seq<Card>, string>)
    requires self != left
    modifies self, left
    ensures Realizes(ColorAwareMove(Table(old(self.hand), old(left.hand)), c), r,
      self.hand, left.hand, old(left.hand), left.name)
  {
    var actuallyRemoved := [];
    var firstPurge := self.PurgePairs(c.order);
    var handSnapshot := self.GetHand();
    var totalRed := |Filter(handSnapshot, OfColor(true))|;
    var totalBlack := |handSnapshot| - totalRed;
    var purgeRed := totalRed > totalBlack;
    var majorityRemoved := Filter(firstPurge, OfColor(purgeRed));
    var accidental := Without(firstPurge, majorityRemoved);
    actuallyRemoved := actuallyRemoved + majorityRemoved;
    assert actuallyRemoved == majorityRemoved;
    self.ReceiveCards(accidental);
    ghost var t2 := Table(self.hand, left.hand);
    ColorAwareIsSplitThenDrawThenPurge(Table(old(self.hand), old(left.hand)), c);
    WithoutColorPart(firstPurge, purgeRed);
    assert purgeRed == PurgesRed(handSnapshot);
    assert t2 == Table(handSnapshot + Filter(firstPurge, OfColor(!purgeRed)), old(left.hand));
    var drawn := self.DrawFrom(left, c.pick);
    if drawn.Err? {
      return Err(drawn.error);
    }
    assert Draw(t2, c.pick) == Some(Table(self.hand, left.hand));
    ghost var t3 := Table(self.hand, left.hand);
    var secondPurge := self.PurgePairs(c.order);
    actuallyRemoved := actuallyRemoved + secondPurge;
    assert DrawThenPurgeMove(t2, c) == Ok(Move(secondPurge, Table(self.hand, left.hand)));
    assert actuallyRemoved == majorityRemoved + secondPurge;
    return Ok(actuallyRemoved);
  }

  method PurgeRedThenDrawMakeMove(self: Player, left: Player, c: Chance) returns (r: Result<seq<Card>, string>)
    requires self != left
    modifies self, left
    ensures Realizes(PurgeRedThenDrawMove(Table(old(self.hand), old(left.hand)), c), r,
      self.hand, left.hand, old(left.hand), left.name)
  {
    var actuallyRemoved := [];
    var initialPurge := self.PurgePairs(c.order);
    var redPurge := Filter(initialPurge, OfColor(true));
    var blackAccidental := Filter(initialPurge, OfColor(false));
    actuallyRemoved := actuallyRemoved + redPurge;
    assert actuallyRemoved == redPurge;
    self.ReceiveCards(blackAccidental);
    ghost var t0 := Table(old(self.hand), old(left.hand));
    ghost var t2 := Table(self.hand, left.hand);
    assert t2 == Table(Without(t0.self, initialPurge) + blackAccidental, t0.left);
    var drawn := self.DrawFrom(left, c.pick);
    if drawn.Err? {
      return Err(drawn.error);
    }
    ghost var t3 := Table(self.hand, left.hand);
    assert Draw(t2, c.pick) == Some(t3);
    var secondPurge := self.PurgePairs(c.order);
    var blackPurge := Filter(secondPurge, OfColor(false));
    actuallyRemoved := actuallyRemoved + blackPurge;
    var redAccidental := Filter(secondPurge, OfColor(true));
    self.ReceiveCards(redAccidental);
    assert actuallyRemoved == redPurge + blackPurge;
    assert PurgeRedThenDrawMove(t0, c) ==
      Ok(Move(redPurge + blackPurge, Table(Without(t3.self, secondPurge) + redAccidental, t3.left)));
    return Ok(actuallyRemoved);
  }

  /** HumanStrategy.makeMove: take actions until END_TURN, which draws when the hand is not empty. */
  method HumanMakeMove(self: Player, left: Player, c: Chance, queue: ActionQueue)
    returns (r: Result<seq<Card>, string>)
    requires self != left
    modifies self, left, queue
    ensures var turn := HumanLoop(Table(old(self.hand), old(left.hand)), c, old(queue.actions), []);
      Realizes(turn.outcome, r, self.hand, left.hand, old(left.hand), left.name) && queue.actions == turn.rest
  {
    var removed := [];
    while true
      invariant HumanLoop(Table(self.hand, left.hand), c, queue.actions, removed)
        == HumanLoop(Table(old(self.hand), old(left.hand)), c, old(queue.actions), [])
      invariant left.hand == old(left.hand)
      decreases |queue.actions|
    {
      var action := queue.Take();
      if action.None? {
        return Ok(removed);
      }
      match action.value
      case PurgePairs =>
        var purged := self.PurgePairs(c.order);
        removed := removed + purged;
      case SortByRank =>
        self.SortHandByRank();
      case SortBySuit =>
        self.SortHandBySuit();
      case SortByColor =>
        self.SortHandByColor();
      case EndTurn =>
        if self.hand != [] {
          var drawn := self.DrawFrom(left, c.pick);
          if drawn.Err? {
            return Err(drawn.error);
          }
        }
        return Ok(removed);
    }
  }
}
