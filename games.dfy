/**
 * Game.java: the players around the table, the start phase that purges every hand, the turns in
 * which the next player with cards draws from the next one after them, and the record of each
 * step in the in-memory history and the replay file.
 */
module Games {
  import opened Wrappers
  import opened Cards
  import opened Hands
  import opened Pairs
  import opened Strategies
  import opened Players
  import opened States
  import opened ReplayLogs
  import opened Arith
  import Replays

  /** The hands of the players, in seating order. */
  function HandsOf(ps: seq<Player>): (hs: seq<seq<Card>>)
    reads ps
    ensures |hs| == |ps| && forall i | 0 <= i < |ps| :: hs[i] == ps[i].hand
  {
    seq(|ps|, i reads ps requires 0 <= i < |ps| => ps[i].hand)
  }

  function NamesOf(ps: seq<Player>): (names: seq<string>)
    ensures |names| == |ps| && forall i | 0 <= i < |ps| :: names[i] == ps[i].name
  {
    seq(|ps|, i requires 0 <= i < |ps| => ps[i].name)
  }

  /** The PlayerSnapshot list recordState takes: every player's name with a copy of the hand. */
  function Snapshots(names: seq<string>, hs: seq<seq<Card>>): (snaps: seq<Snapshot>)
    requires |names| == |hs|
    ensures |snaps| == |hs| && forall i | 0 <= i < |hs| :: snaps[i] == Snapshot(names[i], hs[i])
  {
    seq(|hs|, i requires 0 <= i < |hs| => Snapshot(names[i], hs[i]))
  }

  /** The number of players that still hold cards (the count of !hasNoCards()). */
  function ActiveCount(hs: seq<seq<Card>>): nat
    decreases |hs|
  {
    if hs == [] then 0 else ActiveCount(hs[..|hs| - 1]) + (if hs[|hs| - 1] != [] then 1 else 0)
  }

  /** isGameOver: at most one player holds cards. */
  predicate GameOver(hs: seq<seq<Card>>) {
    ActiveCount(hs) <= 1
  }

  /** The count is at most one exactly when no two different players both hold cards. */
  lemma {:induction false} GameOverIff(hs: seq<seq<Card>>)
    ensures GameOver(hs) <==> forall i, j | 0 <= i < |hs| && 0 <= j < |hs| && hs[i] != [] && hs[j] != [] :: i == j
    decreases |hs|
  {
    if hs != [] {
      var n := |hs| - 1;
      var front := hs[..n];
      GameOverIff(front);
      assert forall i | 0 <= i < n :: front[i] == hs[i];
      if hs[n] != [] && ActiveCount(front) >= 1 {
        NoneActive(front);
        var i :| 0 <= i < n && front[i] != [];
        assert hs[i] != [] && hs[n] != [] && i != n;
      }
      if hs[n] != [] && ActiveCount(front) == 0 {
        NoneActive(front);
      }
    }
  }

  /** Nobody holds cards exactly when the count is zero. */
  lemma {:induction false} NoneActive(hs: seq<seq<Card>>)
    ensures ActiveCount(hs) == 0 <==> forall i | 0 <= i < |hs| :: hs[i] == []
    decreases |hs|
  {
    if hs != [] {
      var n := |hs| - 1;
      NoneActive(hs[..n]);
      assert forall i | 0 <= i < n :: hs[..n][i] == hs[i];
    }
  }

  /** The seat at distance e after start around a table of n. */
  function Seat(n: nat, start: nat, e: nat): (r: nat)
    requires n > 0
    ensures r < n
  {
    (start + e) % n
  }

  /**
   * findNextActive's loop from distance d on: the first index at distance d, d + 1, ... n - 1
   * (cyclically) after start whose hand is not empty, or start itself.
   */
  function Scan(hs: seq<seq<Card>>, start: nat, d: nat): (r: nat)
    requires start < |hs|
    ensures r < |hs|
    decreases |hs| - d
  {
    if d >= |hs| then start
    else if hs[Seat(|hs|, start, d)] != [] then Seat(|hs|, start, d)
    else Scan(hs, start, d + 1)
  }

  /** findNextActive(start) */
  function NextActive(hs: seq<seq<Card>>, start: nat): (r: nat)
    requires start < |hs|
    ensures r < |hs|
  {
    Scan(hs, start, 1)
  }

  /** No distance 1 .. n - 1 leads back to start. */
  lemma SeatNotStart(n: nat, start: nat, e: nat)
    requires start < n && 1 <= e < n
    ensures Seat(n, start, e) != start
  {
    if start + e < n {
      DivModUnique(start + e, n, 0, start + e);
    } else {
      DivModUnique(start + e, n, 1, start + e - n);
    }
  }

  /** A scan that comes back to start passed only empty hands. */
  lemma {:induction false} ScanEmpty(hs: seq<seq<Card>>, start: nat, d: nat)
    requires start < |hs| && 1 <= d
    ensures Scan(hs, start, d) == start ==> forall e | d <= e < |hs| :: hs[Seat(|hs|, start, e)] == []
    decreases |hs| - d
  {
    if d < |hs| {
      if hs[Seat(|hs|, start, d)] == [] {
        ScanEmpty(hs, start, d + 1);
      } else {
        SeatNotStart(|hs|, start, d);
      }
    }
  }

  /** A scan that stops elsewhere stops at the first hand with cards. */
  lemma {:induction false} ScanHit(hs: seq<seq<Card>>, start: nat, d: nat)
    requires start < |hs|
    ensures var r := Scan(hs, start, d);
      r != start ==> hs[r] != [] && exists e | d <= e < |hs| ::
        r == Seat(|hs|, start, e) && forall e' | d <= e' < e :: hs[Seat(|hs|, start, e')] == []
    decreases |hs| - d
  {
    if d < |hs| && hs[Seat(|hs|, start, d)] == [] {
      ScanHit(hs, start, d + 1);
    }
  }

  /** Every other seat is reached at some distance 1 .. n - 1 from start. */
  lemma SeatAtDistance(n: nat, start: nat, i: nat) returns (e: nat)
    requires start < n && i < n && i != start
    ensures 1 <= e < n && Seat(n, start, e) == i
  {
    if i > start {
      e := i - start;
      DivModUnique(start + e, n, 0, i);
    } else {
      e := i + n - start;
      DivModUnique(start + e, n, 1, i);
    }
  }

  /**
   * findNextActive: the index returned holds cards, and every seat strictly between start and it
   * is empty; start comes back exactly when every other seat is empty.
   */
  lemma NextActiveFinds(hs: seq<seq<Card>>, start: nat)
    requires start < |hs|
    ensures var r := NextActive(hs, start);
      (r == start <==> forall i | 0 <= i < |hs| && i != start :: hs[i] == [])
      && (r != start ==> hs[r] != [] && exists e | 1 <= e < |hs| ::
            r == Seat(|hs|, start, e) && forall e' | 1 <= e' < e :: hs[Seat(|hs|, start, e')] == [])
  {
    var r := NextActive(hs, start);
    ScanEmpty(hs, start, 1);
    ScanHit(hs, start, 1);
    if r == start {
      forall i | 0 <= i < |hs| && i != start ensures hs[i] == [] {
        var e := SeatAtDistance(|hs|, start, i);
      }
    }
  }

  /** With two players holding cards, the next active player and their next active neighbour differ. */
  lemma TwoActiveSeats(hs: seq<seq<Card>>, start: nat)
    requires start < |hs| && !GameOver(hs)
    ensures var cur := NextActive(hs, start);
      hs[cur] != [] && NextActive(hs, cur) != cur && hs[NextActive(hs, cur)] != []
  {
    GameOverIff(hs);
    var i, j :| 0 <= i < |hs| && 0 <= j < |hs| && hs[i] != [] && hs[j] != [] && i != j;
    NextActiveFinds(hs, start);
    var cur := NextActive(hs, start);
    var other := if i == start then j else i;
    assert other != start && hs[other] != [];
    NextActiveFinds(hs, cur);
    var other' := if i == cur then j else i;
    assert other' != cur && hs[other'] != [];
  }

  /** The seats are distinct Player objects. */
  predicate DistinctSeats(ps: seq<Player>) {
    forall i, j | 0 <= i < |ps| && 0 <= j < |ps| && i != j :: ps[i] != ps[j]
  }

  /** The step-i state of start(): players before i and i itself have purged, the others not yet. */
  function AfterPurges(hs: seq<seq<Card>>, orders: nat -> seq<Rank>, k: nat): (r: seq<seq<Card>>)
    ensures |r| == |hs|
  {
    seq(|hs|, j requires 0 <= j < |hs| => if j < k then Without(hs[j], PurgeList(hs[j], orders(j))) else hs[j])
  }

  /** The states start() records, beginning at step base. */
  function StartStates(names: seq<string>, hs: seq<seq<Card>>, orders: nat -> seq<Rank>, base: int): (r: seq<GameState>)
    requires |names| == |hs|
    ensures |r| == |hs|
  {
    seq(|hs|, i requires 0 <= i < |hs| =>
      GameState(base + i, names[i] + " initial purge: " + CardListString(PurgeList(hs[i], orders(i))),
        Snapshots(names, AfterPurges(hs, orders, i + 1))))
  }

  /** After start, a hand dealt without duplicate cards holds no pair. */
  lemma StartLeavesNoPair(hs: seq<seq<Card>>, orders: nat -> seq<Rank>)
    ensures var after := AfterPurges(hs, orders, |hs|);
      forall i | 0 <= i < |hs| :: NoDuplicates(hs[i]) ==> !HasPair(after[i])
  {
    forall i | 0 <= i < |hs| && NoDuplicates(hs[i]) ensures !HasPair(AfterPurges(hs, orders, |hs|)[i]) {
      PurgeLeavesNoPair(hs[i], orders(i));
    }
  }

  /** One round of start's loop, in terms of the hands and the record before it. */
  lemma StartStep(names: seq<string>, hs: seq<seq<Card>>, orders: nat -> seq<Rank>, base: int, k: nat,
                  hands: seq<seq<Card>>, logged: seq<GameState>, before: seq<GameState>)
    requires |names| == |hs| && k < |hs|
    requires hands == AfterPurges(hs, orders, k) && logged == before + StartStates(names, hs, orders, base)[..k]
    ensures hands[k] == hs[k]
    ensures AfterPurges(hs, orders, k + 1) == hands[k := Without(hands[k], PurgeList(hands[k], orders(k)))]
    ensures logged + [GameState(base + k, names[k] + " initial purge: " + CardListString(PurgeList(hands[k], orders(k))),
      Snapshots(names, AfterPurges(hs, orders, k + 1)))] == before + StartStates(names, hs, orders, base)[..k + 1]
  {
    var states := StartStates(names, hs, orders, base);
    assert states[..k + 1] == states[..k] + [states[k]];
    ConcatAssoc(before, states[..k], [states[k]]);
  }

  /** The states on record are numbered 0, 1, 2, ... */
  ghost predicate Numbered(states: seq<GameState>) {
    forall k | 0 <= k < |states| :: states[k].step == k
  }

  lemma ConcatAssoc<T>(a: seq<T>, b: seq<T>, c: seq<T>)
    ensures (a + b) + c == a + (b + c)
  {
  }

  /**
   * What a replay file holds after the states logged so far: what it had before, then the lines of
   * every state, or nothing more when its writer is closed.
   */
  ghost predicate Written(lines: seq<string>, before: seq<string>, logged: seq<GameState>, closed: bool) {
    lines == before + (if closed then [] else AllStateLines(logged))
  }

  /** logState keeps the file written for one more state. */
  lemma LogStep(before: seq<string>, logged: seq<GameState>, state: GameState, lines: seq<string>, closed: bool)
    requires Written(lines, before, logged, closed)
    ensures Written(if closed then lines else lines + StateLines(state), before, logged + [state], closed)
  {
    if !closed {
      AllStateLinesSnoc(logged, state);
      ConcatAssoc(before, AllStateLines(logged), StateLines(state));
    } else {
      assert lines == before + [];
    }
  }

  class Game {
    const players: seq<Player>
    const recordHistory: bool
    var history: seq<GameState>
    const replayLogger: ReplayLogger?
    var stepCounter: int
    var currentIndex: int
    /** Every state recordState has made, whether or not the history keeps it. */
    ghost var logged: seq<GameState>
    /** What the replay file held when the game was made. */
    ghost const loggedBefore: seq<string>

    /**
     * The history is the record when it is kept and empty otherwise; stepCounter is the number of
     * states made; the replay file holds, after what it had, the lines of every state, or nothing
     * more when its writer was handed over already closed.
     */
    ghost predicate Valid()
      reads this, replayLogger
    {
      |players| >= 2 && DistinctSeats(players) && 0 <= currentIndex < |players|
      && stepCounter == |logged| && Numbered(logged)
      && (if recordHistory then history == logged else history == [])
      && (replayLogger != null ==> Written(replayLogger.lines, loggedBefore, logged, replayLogger.closed))
    }

    /** The constructor after its size check; seed stands for rng.nextInt(players.size()). */
    constructor(players: seq<Player>, inMemory: bool, fileLogger: ReplayLogger?, seed: nat)
      requires |players| >= 2 && DistinctSeats(players)
      ensures Valid() && fresh(this)
      ensures this.players == players && recordHistory == inMemory && replayLogger == fileLogger
      ensures currentIndex == seed % |players| && stepCounter == 0 && history == [] && logged == []
      ensures fileLogger != null ==> loggedBefore == fileLogger.lines
    {
      this.players := players;
      recordHistory := inMemory;
      history := [];
      replayLogger := fileLogger;
      currentIndex := seed % |players|;
      stepCounter := 0;
      logged := [];
      loggedBefore := if fileLogger != null then fileLogger.lines else [];
    }

    /** recordState: a new state with the next step number, kept and written where enabled. */
    method RecordState(desc: string)
      requires Valid()
      modifies this, replayLogger
      ensures Valid()
      ensures logged == old(logged) + [GameState(old(stepCounter), desc, Snapshots(NamesOf(players), HandsOf(players)))]
      ensures HandsOf(players) == old(HandsOf(players))
      ensures currentIndex == old(currentIndex)
      ensures replayLogger != null ==> replayLogger.closed == old(replayLogger.closed)
    {
      Commit(GameState(stepCounter, desc, Snapshots(NamesOf(players), HandsOf(players))));
    }

    /** The second half of recordState: the state made, it is counted, kept and written. */
    method Commit(state: GameState)
      requires Valid() && state.step == stepCounter
      modifies this, replayLogger
      ensures Valid() && logged == old(logged) + [state]
      ensures HandsOf(players) == old(HandsOf(players))
      ensures currentIndex == old(currentIndex)
      ensures replayLogger != null ==> replayLogger.closed == old(replayLogger.closed)
    {
      stepCounter := stepCounter + 1;
      if recordHistory {
        history := history + [state];
      }
      if replayLogger != null {
        LogStep(loggedBefore, logged, state, replayLogger.lines, replayLogger.closed);
        replayLogger.LogState(state);
      }
      logged := logged + [state];
    }

    /**
     * start: every player in seat order purges their pairs and a state is recorded after each;
     * orders(i) is the rank-group order of player i's purge.
     */
    method Start(orders: nat -> seq<Rank>)
      requires Valid()
      modifies this, players, replayLogger
      ensures Valid() && currentIndex == old(currentIndex)
      ensures replayLogger != null ==> replayLogger.closed == old(replayLogger.closed)
      ensures HandsOf(players) == AfterPurges(old(HandsOf(players)), orders, |players|)
      ensures logged == old(logged) + StartStates(NamesOf(players), old(HandsOf(players)), orders, old(stepCounter))
    {
      ghost var hs := HandsOf(players);
      ghost var base := stepCounter;
      ghost var before := logged;
      for i := 0 to |players|
        invariant Valid() && currentIndex == old(currentIndex) && stepCounter == base + i
        invariant HandsOf(players) == AfterPurges(hs, orders, i)
        invariant logged == before + StartStates(NamesOf(players), hs, orders, base)[..i]
        invariant replayLogger != null ==> replayLogger.closed == old(replayLogger.closed)
      {
        InitialPurge(i, orders, hs, base, before);
      }
    }

    /** One round of start's loop: player i purges their pairs and the state is recorded. */
    method InitialPurge(i: nat, orders: nat -> seq<Rank>, ghost hs: seq<seq<Card>>, ghost base: int, ghost before: seq<GameState>)
      requires Valid() && i < |players| && |hs| == |players| && stepCounter == base + i
      requires HandsOf(players) == AfterPurges(hs, orders, i)
      requires logged == before + StartStates(NamesOf(players), hs, orders, base)[..i]
      modifies this, players[i], replayLogger
      ensures Valid() && currentIndex == old(currentIndex) && stepCounter == base + i + 1
      ensures replayLogger != null ==> replayLogger.closed == old(replayLogger.closed)
      ensures HandsOf(players) == AfterPurges(hs, orders, i + 1)
      ensures logged == before + StartStates(NamesOf(players), hs, orders, base)[..i + 1]
    {
      ghost var hands := HandsOf(players);
      StartStep(NamesOf(players), hs, orders, base, i, hands, logged, before);
      var p := players[i];
      var removed := p.PurgePairs(orders(i));
      assert HandsOf(players) == hands[i := Without(hands[i], PurgeList(hands[i], orders(i)))];
      RecordState(p.name + " initial purge: " + CardListString(removed));
    }

    /** findNextActive: the loop over distances 1 .. n - 1. */
    method FindNextActive(start: int) returns (idx: int)
      requires 0 <= start < |players|
      ensures idx == NextActive(HandsOf(players), start)
    {
      ghost var hs := HandsOf(players);
      var n := |players|;
      for d := 1 to n
        invariant Scan(hs, start, d) == Scan(hs, start, 1)
      {
        idx := Seat(n, start, d);
        if players[idx].hand != [] {
          return idx;
        }
      }
      return start;
    }

    /** isGameOver */
    function IsGameOver(): (b: bool)
      reads players
      ensures b <==> forall i, j | 0 <= i < |players| && 0 <= j < |players| && players[i].hand != [] && players[j].hand != [] :: i == j
    {
      GameOverIff(HandsOf(players));
      ActiveCount(HandsOf(players)) <= 1
    }

    /** getLoser: once the game is over, the first player still holding cards, if any. */
    function GetLoser(): (r: Option<Player>)
      reads players
      ensures r.Some? <==> IsGameOver() && exists i | 0 <= i < |players| :: players[i].hand != []
      ensures r.Some? ==> exists i | 0 <= i < |players| ::
        players[i] == r.value && r.value.hand != [] && forall j | 0 <= j < i :: players[j].hand == []
    {
      if !IsGameOver() then None else FirstHolding(players)
    }

    /** getHistory: the kept states, or nothing when the game keeps no history. */
    function GetHistory(): (h: seq<GameState>)
      reads this, replayLogger
      ensures Valid() ==> h == if recordHistory then logged else []
    {
      if recordHistory then history else []
    }

    /**
     * nextTurn: nothing happens once the game is over. Otherwise the next player with cards
     * after the current index takes their turn against the next player with cards after them;
     * only those two hands change, and the turn's state is recorded.
     */
    method NextTurn(c: Chance, queue: ActionQueue) returns (progressed: bool)
      requires Valid()
      modifies this, players, queue, replayLogger
      ensures Valid()
      ensures replayLogger != null ==> replayLogger.closed == old(replayLogger.closed)
      ensures old(GameOver(HandsOf(players))) ==>
        !progressed && HandsOf(players) == old(HandsOf(players)) && logged == old(logged)
        && currentIndex == old(currentIndex) && queue.actions == old(queue.actions)
      ensures !old(GameOver(HandsOf(players))) ==>
        var hs := old(HandsOf(players));
        var cur := NextActive(hs, old(currentIndex));
        var nb := NextActive(hs, cur);
        progressed && cur != nb && currentIndex == cur && hs[cur] != [] && hs[nb] != []
        && TurnTaken(hs, cur, nb, c, old(queue.actions), old(logged), old(stepCounter), HandsOf(players), queue.actions, logged)
    {
      if IsGameOver() {
        return false;
      }
      ActiveTurn(c, queue);
      return true;
    }

    /** nextTurn past its game-over check: the next active seat plays against the one after it. */
    method ActiveTurn(c: Chance, queue: ActionQueue)
      requires Valid() && !GameOver(HandsOf(players))
      modifies this, players, queue, replayLogger
      ensures Valid()
      ensures replayLogger != null ==> replayLogger.closed == old(replayLogger.closed)
      ensures var hs := old(HandsOf(players));
        var cur := NextActive(hs, old(currentIndex));
        var nb := NextActive(hs, cur);
        cur != nb && currentIndex == cur && hs[cur] != [] && hs[nb] != []
        && TurnTaken(hs, cur, nb, c, old(queue.actions), old(logged), old(stepCounter), HandsOf(players), queue.actions, logged)
    {
      ghost var hs := HandsOf(players);
      TwoActiveSeats(hs, currentIndex);
      var next := FindNextActive(currentIndex);
      var neighborIdx := FindNextActive(next);
      if neighborIdx == next {
        assert false;
      }
      PlayTurn(next, neighborIdx, c, queue, hs);
    }

    /**
     * The end of nextTurn: cur becomes the current seat, players[cur] takes their turn against
     * players[nb] (who holds cards) and the state is recorded.
     */
    method PlayTurn(cur: nat, nb: nat, c: Chance, queue: ActionQueue, ghost hs: seq<seq<Card>>)
      requires Valid() && hs == HandsOf(players) && cur < |hs| && nb < |hs| && cur != nb && hs[nb] != []
      modifies this, players[cur], players[nb], queue, replayLogger
      ensures Valid() && currentIndex == cur
      ensures replayLogger != null ==> replayLogger.closed == old(replayLogger.closed)
      ensures TurnTaken(hs, cur, nb, c, old(queue.actions), old(logged), old(stepCounter),
        HandsOf(players), queue.actions, logged)
    {
      currentIndex := cur;
      var current := players[cur];
      var left := players[nb];
      ghost var turn := Play(current.strategy, Table(hs[cur], hs[nb]), c, queue.actions);
      PlayFailsOnlyOnEmpty(current.strategy, Table(hs[cur], hs[nb]), c, queue.actions);
      var removed := current.TakeTurn(left, c, queue);
      assert HandsOf(players) == hs[cur := turn.outcome.value.table.self][nb := turn.outcome.value.table.left];
      RecordState(current.name + " turn purge: " + CardListString(removed.value));
    }

    /**
     * What a completed turn of players[cur] against players[nb] leaves: the turn Play describes
     * succeeded, only those two hands changed, the queue lost what the turn used, and one state
     * was recorded.
     */
    ghost predicate TurnTaken(hs: seq<seq<Card>>, cur: nat, nb: nat, c: Chance, actions: seq<Action>,
                              record: seq<GameState>, step: int,
                              hands: seq<seq<Card>>, actions': seq<Action>, record': seq<GameState>)
      requires |hs| == |players| && cur < |hs| && nb < |hs| && |hands| == |hs|
    {
      var turn := Play(players[cur].strategy, Table(hs[cur], hs[nb]), c, actions);
      turn.outcome.Ok?
      && hands == hs[cur := turn.outcome.value.table.self][nb := turn.outcome.value.table.left]
      && actions' == turn.rest
      && record' == record + [GameState(step, players[cur].name + " turn purge: " + CardListString(turn.outcome.value.purged),
           Snapshots(NamesOf(players), hands))]
    }
  }

  /** The first player holding cards, if any (players.stream().filter(...).findFirst()). */
  function FirstHolding(ps: seq<Player>): (r: Option<Player>)
    reads ps
    ensures r.Some? <==> exists i | 0 <= i < |ps| :: ps[i].hand != []
    ensures r.Some? ==> exists i | 0 <= i < |ps| ::
      ps[i] == r.value && r.value.hand != [] && forall j | 0 <= j < i :: ps[j].hand == []
    decreases |ps|
  {
    if ps == [] then None
    else if ps[0].hand != [] then Some(ps[0])
    else
      var r := FirstHolding(ps[1..]);
      assert forall i | 0 < i < |ps| :: ps[i] == ps[1..][i - 1];
      r
  }

  /** NewGame: the constructor's IllegalArgumentException for fewer than two players, else a game. */
  method NewGame(players: seq<Player>, inMemory: bool, fileLogger: ReplayLogger?, seed: nat) returns (r: Result<Game, string>)
    requires DistinctSeats(players)
    ensures |players| < 2 <==> r.Err?
    ensures r.Err? ==> r.error == "Need at least two players"
    ensures r.Ok? ==>
      fresh(r.value) && r.value.Valid() && r.value.players == players
      && r.value.recordHistory == inMemory && r.value.replayLogger == fileLogger
      && (fileLogger != null ==> r.value.loggedBefore == fileLogger.lines)
      && r.value.currentIndex == seed % |players| && r.value.stepCounter == 0
      && r.value.history == [] && r.value.logged == []
  {
    if |players| < 2 {
      return Err("Need at least two players");
    }
    var g := new Game(players, inMemory, fileLogger, seed);
    return Ok(g);
  }

  /**
   * The file a game writes, once closed, reads back in the replay viewer as one block for the
   * header and one per recorded state, the last of which carries the trailer.
   */
  lemma ReplayOfGame(g: Game, start: string, end: string)
    requires g.Valid() && g.replayLogger != null
    requires g.loggedBefore == Header(g.replayLogger.gameNumber, start)
    ensures !g.replayLogger.closed ==>
      Replays.Blocks(g.replayLogger.lines + [Trailer(end)]) == Replays.FileBlocks(g.replayLogger.gameNumber, start, g.logged, end)
    ensures g.replayLogger.closed ==> g.replayLogger.lines == Header(g.replayLogger.gameNumber, start)
  {
    Replays.ReplayRoundTrip(g.replayLogger.gameNumber, start, g.logged, end);
  }
}
