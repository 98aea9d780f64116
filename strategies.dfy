/**
 * The move strategies of MoveStrategy.makeMove, as functions on the two hands a move touches.
 * Each function says what the strategy returns and what the mover's and the neighbour's hands
 * are afterwards; the methods in module Players are proved to do exactly this to Player objects.
 */
module Strategies {
  import opened Wrappers
  import opened Cards
  import opened Hands
  import opened Pairs
  import Sorting

  /** The implementations of MoveStrategy, as a closed set. */
  datatype Strategy =
    | DrawThenPurge
    | PurgeThenDraw
    | RandomDraw
    | MixedRandom
    | ColorAware
    | PurgeRedThenDraw
    | Human

  /** HumanStrategy.Action. */
  datatype Action = PurgePairs | SortByRank | SortBySuit | SortByColor | EndTurn

  /**
   * The random choices of one move: the HashMap's rank-group order for every purgePairs, the
   * value behind ThreadLocalRandom.nextInt(size) in drawFrom, and the value behind
   * MixedRandomStrategy's RNG.nextInt(3).
   */
  datatype Chance = Chance(order: seq<Rank>, pick: nat, option: nat)

  /** The mover's hand and the left neighbour's hand. */
  datatype Table = Table(self: seq<Card>, left: seq<Card>)

  /** A completed makeMove: the list it returns and the two hands afterwards. */
  datatype Move = Move(purged: seq<Card>, table: Table)

  /**
   * Ok: the move completed. Err: drawFrom threw IllegalStateException on an empty neighbour;
   * the error is the mover's hand at that moment (the neighbour's hand is unchanged).
   */
  type Outcome = Result<Move, seq<Card>>

  /** An outcome together with what is left of the human action queue. */
  datatype Turn = Turn(outcome: Outcome, rest: seq<Action>)

  /** The index ThreadLocalRandom.nextInt(|left|) chose. */
  function DrawIndex(left: seq<Card>, pick: nat): (i: nat)
    requires left != []
    ensures i < |left|
  {
    pick % |left|
  }

  function Drawn(t: Table, pick: nat): Card
    requires t.left != []
  {
    t.left[DrawIndex(t.left, pick)]
  }

  /** Player.drawFrom on values: None is the exception for an empty neighbour. */
  function Draw(t: Table, pick: nat): Option<Table> {
    if t.left == [] then None
    else Some(Table(t.self + [Drawn(t, pick)], RemoveAt(t.left, DrawIndex(t.left, pick))))
  }

  /** Player.purgePairs on the mover: the list removed and the table afterwards. */
  function Purged(t: Table, order: seq<Rank>): Move {
    var p := PurgeList(t.self, order);
    Move(p, Table(Without(t.self, p), t.left))
  }

  function DrawThenPurgeMove(t: Table, c: Chance): Outcome {
    match Draw(t, c.pick)
    case None => Err(t.self)
    case Some(t1) => Ok(Purged(t1, c.order))
  }

  function PurgeThenDrawMove(t: Table, c: Chance): Outcome {
    var m := Purged(t, c.order);
    match Draw(m.table, c.pick)
    case None => Err(m.table.self)
    case Some(t1) => Ok(Move(m.purged, t1))
  }

  function RandomDrawMove(t: Table, c: Chance): Outcome {
    match Draw(t, c.pick)
    case None => Err(t.self)
    case Some(t1) => Ok(Move([], if HasPair(t1.self) then Purged(t1, c.order).table else t1))
  }

  /** MixedRandomStrategy.OPTIONS. */
  const MixedOptions: seq<Strategy> := [RandomDraw, PurgeThenDraw, DrawThenPurge]

  function ColorAwareMove(t: Table, c: Chance): Outcome {
    var first := PurgeList(t.self, c.order);
    var h1 := Without(t.self, first);
    var totalRed := |Filter(h1, OfColor(true))|;
    var totalBlack := |h1| - totalRed;
    var purgeRed := totalRed > totalBlack;
    var majority := Filter(first, OfColor(purgeRed));
    var accidental := Without(first, majority);
    var t2 := Table(h1 + accidental, t.left);
    match Draw(t2, c.pick)
    case None => Err(t2.self)
    case Some(t3) =>
      var m := Purged(t3, c.order);
      Ok(Move(majority + m.purged, m.table))
  }

  function PurgeRedThenDrawMove(t: Table, c: Chance): Outcome {
    var initial := PurgeList(t.self, c.order);
    var redPurge := Filter(initial, OfColor(true));
    var blackAccidental := Filter(initial, OfColor(false));
    var t2 := Table(Without(t.self, initial) + blackAccidental, t.left);
    match Draw(t2, c.pick)
    case None => Err(t2.self)
    case Some(t3) =>
      var second := PurgeList(t3.self, c.order);
      var blackPurge := Filter(second, OfColor(false));
      var redAccidental := Filter(second, OfColor(true));
      Ok(Move(redPurge + blackPurge, Table(Without(t3.self, second) + redAccidental, t3.left)))
  }

  /**
   * HumanStrategy.makeMove from the point where removed has been accumulated: take actions from
   * the front of the queue until END_TURN. An exhausted queue is the interrupted take().
   */
  function HumanLoop(t: Table, c: Chance, queue: seq<Action>, removed: seq<Card>): Turn
    decreases |queue|
  {
    if queue == [] then Turn(Ok(Move(removed, t)), [])
    else
      var rest := queue[1..];
      match queue[0]
      case PurgePairs =>
        var m := Purged(t, c.order);
        HumanLoop(m.table, c, rest, removed + m.purged)
      case SortByRank => HumanLoop(Table(Sorting.SortBy(t.self, RankKey), t.left), c, rest, removed)
      case SortBySuit => HumanLoop(Table(Sorting.SortBy(t.self, SuitKey), t.left), c, rest, removed)
      case SortByColor => HumanLoop(Table(Sorting.SortBy(t.self, ColorKey), t.left), c, rest, removed)
      case EndTurn =>
        if t.self == [] then Turn(Ok(Move(removed, t)), rest)
        else
          match Draw(t, c.pick)
          case None => Turn(Err(t.self), rest)
          case Some(t1) => Turn(Ok(Move(removed, t1)), rest)
  }

  /** strategy.makeMove(self, leftNeighbor); only the human strategy reads the action queue. */
  function Play(s: Strategy, t: Table, c: Chance, queue: seq<Action>): Turn
    decreases if s == MixedRandom then 1 else 0
  {
    match s
    case DrawThenPurge => Turn(DrawThenPurgeMove(t, c), queue)
    case PurgeThenDraw => Turn(PurgeThenDrawMove(t, c), queue)
    case RandomDraw => Turn(RandomDrawMove(t, c), queue)
    case MixedRandom => Play(MixedOptions[c.option % 3], t, c, queue)
    case ColorAware => Turn(ColorAwareMove(t, c), queue)
    case PurgeRedThenDraw => Turn(PurgeRedThenDrawMove(t, c), queue)
    case Human => HumanLoop(t, c, queue, [])
  }

  // ---- Properties ----

  /** No card occurs twice on the table, as in any deal of a deck. */
  predicate Fair(t: Table) {
    NoDuplicates(t.self + t.left)
  }

  lemma FairSub(t: Table, t': Table)
    requires Fair(t)
    requires multiset(t'.self) + multiset(t'.left) <= multiset(t.self) + multiset(t.left)
    ensures Fair(t')
  {
    NoDuplicatesSub(t.self + t.left, t'.self + t'.left);
  }

  lemma FairSelf(t: Table)
    requires Fair(t)
    ensures NoDuplicates(t.self)
  {
    NoDuplicatesSub(t.self + t.left, t.self);
  }

  /** drawFrom moves exactly the chosen card from the neighbour's end of the table to the mover's. */
  lemma DrawMovesOneCard(t: Table, pick: nat)
    requires t.left != []
    ensures Draw(t, pick).Some?
    ensures multiset(Draw(t, pick).value.self) == multiset(t.self) + multiset{Drawn(t, pick)}
    ensures multiset(Draw(t, pick).value.left) + multiset{Drawn(t, pick)} == multiset(t.left)
    ensures |Draw(t, pick).value.left| == |t.left| - 1
  {
    RemoveAtCount(t.left, DrawIndex(t.left, pick));
  }

  lemma FairDraw(t: Table, pick: nat)
    requires Fair(t) && t.left != []
    ensures Fair(Draw(t, pick).value)
  {
    DrawMovesOneCard(t, pick);
    FairSub(t, Draw(t, pick).value);
  }

  /** A purge on a fair table: the mover keeps the rest, no pair remains, the table stays fair. */
  lemma PurgedFacts(t: Table, order: seq<Rank>)
    requires Fair(t)
    ensures multiset(Purged(t, order).table.self) + multiset(Purged(t, order).purged) == multiset(t.self)
    ensures !HasPair(Purged(t, order).table.self)
    ensures Fair(Purged(t, order).table)
  {
    FairSelf(t);
    PurgeBalance(t.self, order);
    PurgeLeavesNoPair(t.self, order);
    FairSub(t, Purged(t, order).table);
  }

  /**
   * Every strategy but the human one draws exactly once: makeMove fails exactly when the
   * neighbour's hand is empty, and otherwise the neighbour loses exactly the chosen card.
   * The action queue is not touched.
   */
  lemma {:induction false} ComputerDrawsOnce(s: Strategy, t: Table, c: Chance, queue: seq<Action>)
    requires s != Human
    decreases if s == MixedRandom then 1 else 0
    ensures Play(s, t, c, queue).rest == queue
    ensures Play(s, t, c, queue).outcome.Err? <==> t.left == []
    ensures Play(s, t, c, queue).outcome.Ok? ==>
      Play(s, t, c, queue).outcome.value.table.left == RemoveAt(t.left, DrawIndex(t.left, c.pick))
  {
    if s == MixedRandom {
      ComputerDrawsOnce(MixedOptions[c.option % 3], t, c, queue);
    }
  }

  /** MixedRandom is exactly one of its three options, both in what it returns and in its effect. */
  lemma MixedRandomIsOneOption(t: Table, c: Chance, queue: seq<Action>)
    ensures c.option % 3 == 0 ==> Play(MixedRandom, t, c, queue).outcome == RandomDrawMove(t, c)
    ensures c.option % 3 == 1 ==> Play(MixedRandom, t, c, queue).outcome == PurgeThenDrawMove(t, c)
    ensures c.option % 3 == 2 ==> Play(MixedRandom, t, c, queue).outcome == DrawThenPurgeMove(t, c)
  {
  }

  /**
   * DrawThenPurge: on a fair table, the mover's new hand and the returned list together are the
   * old hand plus the drawn card, and no pair is left in the mover's hand.
   */
  lemma DrawThenPurgeBalance(t: Table, c: Chance)
    requires Fair(t) && t.left != []
    ensures DrawThenPurgeMove(t, c).Ok?
    ensures var m := DrawThenPurgeMove(t, c).value;
      multiset(m.table.self) + multiset(m.purged) == multiset(t.self) + multiset{Drawn(t, c.pick)}
      && !HasPair(m.table.self)
      && m.purged == PurgeList(t.self + [Drawn(t, c.pick)], c.order)
  {
    DrawMovesOneCard(t, c.pick);
    FairDraw(t, c.pick);
    PurgedFacts(Draw(t, c.pick).value, c.order);
  }

  /**
   * PurgeThenDraw: it returns the purge of the hand before the draw, and the drawn card is the
   * last card of the new hand; what precedes it holds no pair, so only a pair that the drawn card
   * completes can survive the turn.
   */
  lemma PurgeThenDrawBalance(t: Table, c: Chance)
    requires Fair(t) && t.left != []
    ensures PurgeThenDrawMove(t, c).Ok?
    ensures var m := PurgeThenDrawMove(t, c).value;
      multiset(m.table.self) + multiset(m.purged) == multiset(t.self) + multiset{Drawn(t, c.pick)}
      && m.purged == PurgeList(t.self, c.order)
      && |m.table.self| >= 1 && m.table.self[|m.table.self| - 1] == Drawn(t, c.pick)
      && !HasPair(m.table.self[..|m.table.self| - 1])
  {
    var m := Purged(t, c.order);
    PurgedFacts(t, c.order);
    DrawMovesOneCard(m.table, c.pick);
    var s' := m.table.self + [Drawn(t, c.pick)];
    assert s'[..|s'| - 1] == m.table.self;
  }

  /**
   * RandomDraw always returns the empty list; its hasPairs guard changes nothing, and the cards it
   * purges leave the table unreported: the new hand plus those cards is the old hand plus the
   * drawn card.
   */
  lemma RandomDrawLosesPurge(t: Table, c: Chance)
    requires Fair(t) && t.left != []
    ensures RandomDrawMove(t, c).Ok?
    ensures var m := RandomDrawMove(t, c).value;
      var lost := PurgeList(t.self + [Drawn(t, c.pick)], c.order);
      m.purged == [] && m.table == Purged(Draw(t, c.pick).value, c.order).table
      && multiset(m.table.self) + multiset(lost) == multiset(t.self) + multiset{Drawn(t, c.pick)}
      && !HasPair(m.table.self)
  {
    var t1 := Draw(t, c.pick).value;
    DrawMovesOneCard(t, c.pick);
    FairDraw(t, c.pick);
    PurgedFacts(t1, c.order);
    PurgeEmptyIff(t1.self, c.order);
    if !HasPair(t1.self) {
      WithoutNothing(t1.self);
    }
  }

  /** What the first majority filter leaves out is exactly the other colour. */
  lemma WithoutColorPart(s: seq<Card>, red: bool)
    ensures Without(s, Filter(s, OfColor(red))) == Filter(s, OfColor(!red))
  {
    FilterAgree(s, NotIn(Filter(s, OfColor(red))), OfColor(!red));
  }

  /** Cards put back before a draw and purged again balance as if they had stayed out. */
  lemma Rebalance(kept: multiset<Card>, second: multiset<Card>, first: multiset<Card>,
                  h: multiset<Card>, prior: multiset<Card>, drawn: multiset<Card>)
    requires kept + second == h + drawn
    requires h + first == prior
    ensures kept + (first + second) == prior + drawn
  {
    forall x ensures (kept + (first + second))[x] == (prior + drawn)[x] {
      assert (kept + second)[x] == (h + drawn)[x];
      assert (h + first)[x] == prior[x];
    }
  }

  /** Whether ColorAware keeps red pairs out: more red than black cards after the first purge. */
  function PurgesRed(h1: seq<Card>): bool {
    2 * |Filter(h1, OfColor(true))| > |h1|
  }

  /** ColorAware is a first purge, a colour split of it, and DrawThenPurge on the hand with the other colour put back. */
  lemma ColorAwareIsSplitThenDrawThenPurge(t: Table, c: Chance)
    ensures var first := PurgeList(t.self, c.order);
      var h1 := Without(t.self, first);
      var t2 := Table(h1 + Filter(first, OfColor(!PurgesRed(h1))), t.left);
      ColorAwareMove(t, c) ==
        match DrawThenPurgeMove(t2, c)
        case Err(h) => Err(h)
        case Ok(m) => Ok(Move(Filter(first, OfColor(PurgesRed(h1))) + m.purged, m.table))
  {
    var first := PurgeList(t.self, c.order);
    var h1 := Without(t.self, first);
    WithoutColorPart(first, PurgesRed(h1));
  }

  /** The first purge of ColorAware, split by colour: the hand kept plus the part returned is the old hand. */
  lemma ColorAwareSplit(t: Table, order: seq<Rank>)
    requires Fair(t)
    ensures var first := PurgeList(t.self, order);
      var h1 := Without(t.self, first);
      var t2 := Table(h1 + Filter(first, OfColor(!PurgesRed(h1))), t.left);
      multiset(t2.self) + multiset(Filter(first, OfColor(PurgesRed(h1)))) == multiset(t.self) && Fair(t2)
  {
    var first := PurgeList(t.self, order);
    var h1 := Without(t.self, first);
    var t2 := Table(h1 + Filter(first, OfColor(!PurgesRed(h1))), t.left);
    PurgedFacts(t, order);
    ColorSplit(first);
    FairSub(t, t2);
  }

  /**
   * ColorAware: it purges red exactly when, after the first purge, the hand holds more red than
   * black cards (ties keep black pairs out); the first-purge cards of the other colour return to
   * the hand before the draw; the returned list is the majority-colour cards of the first purge
   * followed by the second purge; and the new hand plus the returned list is the old hand plus the
   * drawn card.
   */
  lemma ColorAwareBalance(t: Table, c: Chance)
    requires Fair(t) && t.left != []
    ensures var first := PurgeList(t.self, c.order);
      var h1 := Without(t.self, first);
      var h3 := h1 + Filter(first, OfColor(!PurgesRed(h1))) + [Drawn(t, c.pick)];
      var returned := Filter(first, OfColor(PurgesRed(h1))) + PurgeList(h3, c.order);
      var kept := Without(h3, PurgeList(h3, c.order));
      ColorAwareMove(t, c) == Ok(Move(returned, Table(kept, RemoveAt(t.left, DrawIndex(t.left, c.pick)))))
      && multiset(kept) + multiset(returned) == multiset(t.self) + multiset{Drawn(t, c.pick)}
  {
    var first := PurgeList(t.self, c.order);
    var h1 := Without(t.self, first);
    var back := Filter(first, OfColor(PurgesRed(h1)));
    var t2 := Table(h1 + Filter(first, OfColor(!PurgesRed(h1))), t.left);
    var d := Drawn(t, c.pick);
    var t3 := Table(t2.self + [d], RemoveAt(t.left, DrawIndex(t.left, c.pick)));
    var m := Purged(t3, c.order);
    var returned := back + m.purged;
    assert ColorAwareMove(t, c) == Ok(Move(returned, m.table)) by {
      ColorAwareIsSplitThenDrawThenPurge(t, c);
      assert Draw(t2, c.pick) == Some(t3);
      assert DrawThenPurgeMove(t2, c) == Ok(m);
    }
    ColorAwareSplit(t, c.order);
    assert multiset(m.table.self) + multiset(m.purged) == multiset(t2.self) + multiset{d} by {
      assert Draw(t2, c.pick) == Some(t3);
      assert DrawThenPurgeMove(t2, c) == Ok(m);
      DrawThenPurgeBalance(t2, c);
    }
    assert multiset(returned) == multiset(back) + multiset(m.purged);
    Rebalance(multiset(m.table.self), multiset(m.purged), multiset(back),
      multiset(t2.self), multiset(t.self), multiset{d});
  }

  /**
   * PurgeRedThenDraw: the returned list is the red cards of the first purge followed by the black
   * cards of the second; the black cards of the first purge are back in the hand before the draw,
   * the red cards of the second purge are back at the end; the new hand plus the returned list is
   * the old hand plus the drawn card.
   */
  lemma PurgeRedThenDrawBalance(t: Table, c: Chance)
    requires Fair(t) && t.left != []
    ensures var initial := PurgeList(t.self, c.order);
      var h3 := Without(t.self, initial) + Filter(initial, OfColor(false)) + [Drawn(t, c.pick)];
      var second := PurgeList(h3, c.order);
      var returned := Filter(initial, OfColor(true)) + Filter(second, OfColor(false));
      var kept := Without(h3, second) + Filter(second, OfColor(true));
      PurgeRedThenDrawMove(t, c) == Ok(Move(returned, Table(kept, RemoveAt(t.left, DrawIndex(t.left, c.pick)))))
      && multiset(kept) + multiset(returned) == multiset(t.self) + multiset{Drawn(t, c.pick)}
  {
    PurgeRedThenDrawShape(t, c);
    PurgeRedThenDrawConserves(t, c);
  }

  /** The red cards of the first purge go out; the hand keeps the rest, whose draw is t's draw. */
  lemma PurgeRedThenDrawShape(t: Table, c: Chance)
    requires t.left != []
    ensures var initial := PurgeList(t.self, c.order);
      var h3 := Without(t.self, initial) + Filter(initial, OfColor(false)) + [Drawn(t, c.pick)];
      var second := PurgeList(h3, c.order);
      var returned := Filter(initial, OfColor(true)) + Filter(second, OfColor(false));
      var kept := Without(h3, second) + Filter(second, OfColor(true));
      PurgeRedThenDrawMove(t, c) == Ok(Move(returned, Table(kept, RemoveAt(t.left, DrawIndex(t.left, c.pick)))))
  {
    var initial := PurgeList(t.self, c.order);
    var t2 := Table(Without(t.self, initial) + Filter(initial, OfColor(false)), t.left);
    var t3 := Table(t2.self + [Drawn(t, c.pick)], RemoveAt(t.left, DrawIndex(t.left, c.pick)));
    assert Draw(t2, c.pick) == Some(t3);
  }

  lemma PurgeRedThenDrawConserves(t: Table, c: Chance)
    requires Fair(t) && t.left != []
    ensures var initial := PurgeList(t.self, c.order);
      var h3 := Without(t.self, initial) + Filter(initial, OfColor(false)) + [Drawn(t, c.pick)];
      var second := PurgeList(h3, c.order);
      var returned := Filter(initial, OfColor(true)) + Filter(second, OfColor(false));
      var kept := Without(h3, second) + Filter(second, OfColor(true));
      multiset(kept) + multiset(returned) == multiset(t.self) + multiset{Drawn(t, c.pick)}
  {
    var initial := PurgeList(t.self, c.order);
    var red := Filter(initial, OfColor(true));
    var t2 := Table(Without(t.self, initial) + Filter(initial, OfColor(false)), t.left);
    PurgeOneColor(t, c.order, true);
    FairSub(t, t2);
    var d := Drawn(t, c.pick);
    var t3 := Table(t2.self + [d], RemoveAt(t.left, DrawIndex(t.left, c.pick)));
    assert Draw(t2, c.pick) == Some(t3);
    DrawMovesOneCard(t2, c.pick);
    FairDraw(t2, c.pick);
    var second := PurgeList(t3.self, c.order);
    var kept := Without(t3.self, second) + Filter(second, OfColor(true));
    var black := Filter(second, OfColor(false));
    PurgeOneColor(t3, c.order, false);
    assert multiset(red + black) == multiset(red) + multiset(black);
    Rebalance(multiset(kept), multiset(black), multiset(red), multiset(t2.self), multiset(t.self), multiset{d});
  }

  /** Purging and giving back the cards of the other colour: the hand and the purged cards of one colour make up the old hand. */
  lemma PurgeOneColor(t: Table, order: seq<Rank>, red: bool)
    requires Fair(t)
    ensures var p := PurgeList(t.self, order);
      multiset(Without(t.self, p) + Filter(p, OfColor(!red))) + multiset(Filter(p, OfColor(red))) == multiset(t.self)
  {
    var p := PurgeList(t.self, order);
    PurgedFacts(t, order);
    ColorSplit(p);
    assert multiset(Without(t.self, p)) + multiset(p) == multiset(t.self);
  }

  /** The queue left after actions up to and including the first END_TURN, or nothing. */
  ghost predicate ConsumedThroughEndTurn(queue: seq<Action>, rest: seq<Action>) {
    if EndTurn in queue then
      exists k :: 0 <= k < |queue| && queue[k] == EndTurn && EndTurn !in queue[..k] && rest == queue[k + 1..]
    else rest == []
  }

  /** The actions left after the first END_TURN, or none when there is no END_TURN. */
  function AfterEndTurn(queue: seq<Action>): seq<Action>
    decreases |queue|
  {
    if queue == [] then []
    else if queue[0] == EndTurn then queue[1..]
    else AfterEndTurn(queue[1..])
  }

  /** The human loop leaves exactly the actions after the first END_TURN, whatever the actions do. */
  lemma {:induction false} HumanLoopRest(t: Table, c: Chance, queue: seq<Action>, removed: seq<Card>)
    decreases |queue|
    ensures HumanLoop(t, c, queue, removed).rest == AfterEndTurn(queue)
  {
    if queue != [] {
      var rest := queue[1..];
      match queue[0]
      case PurgePairs => HumanLoopRest(Purged(t, c.order).table, c, rest, removed + Purged(t, c.order).purged);
      case SortByRank => HumanLoopRest(Table(Sorting.SortBy(t.self, RankKey), t.left), c, rest, removed);
      case SortBySuit => HumanLoopRest(Table(Sorting.SortBy(t.self, SuitKey), t.left), c, rest, removed);
      case SortByColor => HumanLoopRest(Table(Sorting.SortBy(t.self, ColorKey), t.left), c, rest, removed);
      case EndTurn =>
    }
  }

  lemma {:induction false} AfterEndTurnConsumed(queue: seq<Action>)
    decreases |queue|
    ensures ConsumedThroughEndTurn(queue, AfterEndTurn(queue))
  {
    if queue != [] {
      if queue[0] == EndTurn {
        assert queue[..0] == [];
      } else {
        var tail := queue[1..];
        AfterEndTurnConsumed(tail);
        assert queue == [queue[0]] + tail;
        assert EndTurn in queue <==> EndTurn in tail;
        if EndTurn in queue {
          var k :| 0 <= k < |tail| && tail[k] == EndTurn && EndTurn !in tail[..k] && AfterEndTurn(tail) == tail[k + 1..];
          assert queue[..k + 1] == [queue[0]] + tail[..k];
          assert queue[k + 2..] == tail[k + 1..];
        }
      }
    }
  }

  /** The human loop consumes its queue in order, through the first END_TURN. */
  lemma HumanLoopConsumes(t: Table, c: Chance, queue: seq<Action>, removed: seq<Card>)
    ensures ConsumedThroughEndTurn(queue, HumanLoop(t, c, queue, removed).rest)
  {
    HumanLoopRest(t, c, queue, removed);
    AfterEndTurnConsumed(queue);
  }

  lemma SortKeepsCards(s: seq<Card>, key: Card -> int)
    ensures multiset(Sorting.SortBy(s, key)) == multiset(s)
  {
    Sorting.SortByPermutesAndSorts(s, key);
  }

  /**
   * The human loop on a fair table: it fails only on an empty neighbour; the neighbour keeps its
   * hand or loses exactly the chosen card, and keeps it when the queue holds no END_TURN; the
   * mover's hand, the returned list and the neighbour's hand together hold the cards of the two
   * old hands and of the list accumulated so far.
   */
  lemma {:induction false} HumanLoopBalance(t: Table, c: Chance, queue: seq<Action>, removed: seq<Card>)
    requires Fair(t)
    decreases |queue|
    ensures var turn := HumanLoop(t, c, queue, removed);
      (turn.outcome.Err? ==> t.left == [] && EndTurn in queue)
      && (turn.outcome.Ok? ==>
        var m := turn.outcome.value;
        multiset(m.table.self) + multiset(m.purged) + multiset(m.table.left)
          == multiset(t.self) + multiset(removed) + multiset(t.left)
        && (m.table.left == t.left || (t.left != [] && m.table.left == RemoveAt(t.left, DrawIndex(t.left, c.pick))))
        && (EndTurn !in queue ==> m.table.left == t.left))
  {
    if queue != [] {
      var rest := queue[1..];
      assert EndTurn !in queue ==> EndTurn !in rest;
      match queue[0]
      case PurgePairs =>
        PurgedFacts(t, c.order);
        HumanLoopBalance(Purged(t, c.order).table, c, rest, removed + Purged(t, c.order).purged);
      case SortByRank =>
        SortKeepsCards(t.self, RankKey);
        FairSub(t, Table(Sorting.SortBy(t.self, RankKey), t.left));
        HumanLoopBalance(Table(Sorting.SortBy(t.self, RankKey), t.left), c, rest, removed);
      case SortBySuit =>
        SortKeepsCards(t.self, SuitKey);
        FairSub(t, Table(Sorting.SortBy(t.self, SuitKey), t.left));
        HumanLoopBalance(Table(Sorting.SortBy(t.self, SuitKey), t.left), c, rest, removed);
      case SortByColor =>
        SortKeepsCards(t.self, ColorKey);
        FairSub(t, Table(Sorting.SortBy(t.self, ColorKey), t.left));
        HumanLoopBalance(Table(Sorting.SortBy(t.self, ColorKey), t.left), c, rest, removed);
      case EndTurn =>
        if t.self != [] && t.left != [] {
          DrawMovesOneCard(t, c.pick);
        }
    }
  }

  /**
   * HumanStrategy.makeMove: actions are consumed first to last through the first END_TURN; the
   * move fails only on an empty neighbour; cards are conserved between the two hands and the
   * returned list; without END_TURN (interrupted) the neighbour is untouched.
   */
  lemma HumanMoveProperties(t: Table, c: Chance, queue: seq<Action>)
    requires Fair(t)
    ensures var turn := Play(Human, t, c, queue);
      ConsumedThroughEndTurn(queue, turn.rest)
      && (turn.outcome.Err? ==> t.left == [])
      && (turn.outcome.Ok? ==>
        var m := turn.outcome.value;
        multiset(m.table.self) + multiset(m.purged) + multiset(m.table.left) == multiset(t.self) + multiset(t.left)
        && (m.table.left == t.left || (t.left != [] && m.table.left == RemoveAt(t.left, DrawIndex(t.left, c.pick))))
        && (EndTurn !in queue ==> m.table.left == t.left))
      && (EndTurn !in queue ==> turn.outcome.Ok?)
  {
    var none: seq<Card> := [];
    assert Play(Human, t, c, queue) == HumanLoop(t, c, queue, none);
    assert multiset(none) == multiset{};
    HumanLoopConsumes(t, c, queue, none);
    HumanLoopBalance(t, c, queue, none);
  }

  /** The human loop fails only when it draws from an empty neighbour. */
  lemma {:induction false} HumanLoopFailsOnlyOnEmpty(t: Table, c: Chance, queue: seq<Action>, removed: seq<Card>)
    decreases |queue|
    ensures HumanLoop(t, c, queue, removed).outcome.Err? ==> t.left == []
  {
    if queue != [] {
      var rest := queue[1..];
      match queue[0]
      case PurgePairs =>
        HumanLoopFailsOnlyOnEmpty(Purged(t, c.order).table, c, rest, removed + Purged(t, c.order).purged);
      case SortByRank =>
        HumanLoopFailsOnlyOnEmpty(Table(Sorting.SortBy(t.self, RankKey), t.left), c, rest, removed);
      case SortBySuit =>
        HumanLoopFailsOnlyOnEmpty(Table(Sorting.SortBy(t.self, SuitKey), t.left), c, rest, removed);
      case SortByColor =>
        HumanLoopFailsOnlyOnEmpty(Table(Sorting.SortBy(t.self, ColorKey), t.left), c, rest, removed);
      case EndTurn =>
    }
  }

  /** Whatever the strategy, makeMove throws only when the neighbour's hand is empty. */
  lemma PlayFailsOnlyOnEmpty(s: Strategy, t: Table, c: Chance, queue: seq<Action>)
    ensures Play(s, t, c, queue).outcome.Err? ==> t.left == []
  {
    if s == Human {
      HumanLoopFailsOnlyOnEmpty(t, c, queue, []);
    } else {
      ComputerDrawsOnce(s, t, c, queue);
    }
  }
}
