/**
 * ReplayLogger.java: the game number a new replay file gets, the file's name, and the lines the
 * logger writes. A file is the sequence of lines written to it, each ended by newLine().
 */
module ReplayLogs {
  import opened Wrappers
  import opened Cards
  import opened Text
  import opened States

  const Prefix: string := "replay_game_"
  const Suffix: string := ".log"

  /** The characters Java's regex '.' does not match. */
  predicate IsLineTerminator(c: char) {
    c == '\n' || c == '\r' || c == '\U{85}' || c == '\U{2028}' || c == '\U{2029}'
  }

  predicate NoLineTerminator(s: string) {
    forall i | 0 <= i < |s| :: !IsLineTerminator(s[i])
  }

  /** The length of the run of ASCII digits at the start of s. */
  function DigitRun(s: string): (k: nat)
    ensures k <= |s| && AllDigits(s[..k])
    ensures k < |s| ==> !IsDigit(s[k])
  {
    if s == [] || !IsDigit(s[0]) then 0
    else
      var k := 1 + DigitRun(s[1..]);
      assert s[..k] == [s[0]] + s[1..][..k - 1];
      k
  }

  /**
   * Group 1 of a full match of ^replay_game_(\d+)_.*\.log$ against a file name: the digits after the
   * prefix, which the greedy \d+ takes up to the next non-digit, which must be '_'; the name must end in
   * ".log" with no line terminator between.
   */
  function GameNumberGroup(name: string): (g: Option<string>)
    ensures g.Some? ==> g.value != [] && AllDigits(g.value)
    ensures g.Some? ==>
      var n := |Prefix| + |g.value|;
      n < |name| && name[..|Prefix|] == Prefix && name[|Prefix|..n] == g.value && name[n] == '_'
      && n + 1 + |Suffix| <= |name| && name[|name| - |Suffix|..] == Suffix
      && NoLineTerminator(name[n + 1..|name| - |Suffix|])
  {
    if |name| < |Prefix| || name[..|Prefix|] != Prefix then None
    else
      var rest := name[|Prefix|..];
      var k := DigitRun(rest);
      if k == 0 || k == |rest| || rest[k] != '_' then None
      else
        var tail := rest[k + 1..];
        if |tail| >= |Suffix| && tail[|tail| - |Suffix|..] == Suffix && NoLineTerminator(tail[..|tail| - |Suffix|])
        then
          assert name[|Prefix| + k + 1..|name| - |Suffix|] == tail[..|tail| - |Suffix|];
          assert name[|name| - |Suffix|..] == tail[|tail| - |Suffix|..];
          Some(rest[..k])
        else None
  }

  /** The game number of a file name, when the name matches and its group parses. */
  predicate HasGame(name: string, v: int) {
    GameNumberGroup(name).Some? && ParseInt(GameNumberGroup(name).value) == Ok(v)
  }

  /** A matching name whose group Integer.parseInt rejects (more than the int range). */
  predicate HasBadGame(name: string) {
    GameNumberGroup(name).Some? && ParseInt(GameNumberGroup(name).value).Err?
  }

  /** The parsed game number of one file name: None when it does not match, else parseInt's result. */
  function GameValue(name: string): (r: Option<Result<int, string>>)
    ensures r.None? <==> GameNumberGroup(name).None?
    ensures r.Some? && r.value.Ok? ==> 0 <= r.value.value <= IntMax && HasGame(name, r.value.value)
    ensures r.Some? && r.value.Err? <==> HasBadGame(name)
    ensures forall v :: HasGame(name, v) ==> r == Some(Ok(v))
  {
    var g := GameNumberGroup(name);
    if g.None? then None
    else
      assert g.value != "" && AllDigits(g.value);
      Some(ParseInt(g.value))
  }

  /**
   * The stream of the constructor up to orElse(0): the largest game number among the file names,
   * 0 when none matches, or the NumberFormatException of a group that does not fit an int.
   */
  function HighestGame(names: seq<string>): (r: Result<int, string>)
    ensures r.Err? <==> exists i :: 0 <= i < |names| && HasBadGame(names[i])
    ensures r.Ok? ==> 0 <= r.value <= IntMax
    ensures r.Ok? ==> forall i, v :: 0 <= i < |names| && HasGame(names[i], v) ==> v <= r.value
    ensures r.Ok? && r.value != 0 ==> exists i :: 0 <= i < |names| && HasGame(names[i], r.value)
  {
    if names == [] then Ok(0)
    else
      var rest := HighestGame(names[1..]);
      BadCons(names);
      match GameValue(names[0])
      case None =>
        if rest.Ok? then BoundCons(names, rest.value, rest.value); GameCons(names, rest.value); rest else rest
      case Some(Err(e)) => Err(e)
      case Some(Ok(v)) =>
        match rest
        case Err(e) => Err(e)
        case Ok(m) =>
          var b := if v >= m then v else m;
          BoundCons(names, m, b);
          GameCons(names, b);
          Ok(b)
  }

  /** A file name of the list has a bad game number iff the head or a name of the tail has. */
  lemma BadCons(names: seq<string>)
    requires names != []
    ensures (exists i :: 0 <= i < |names| && HasBadGame(names[i]))
      <==> HasBadGame(names[0]) || exists i :: 0 <= i < |names[1..]| && HasBadGame(names[1..][i])
  {
    if exists i :: 0 <= i < |names| && HasBadGame(names[i]) {
      var i :| 0 <= i < |names| && HasBadGame(names[i]);
      if i > 0 {
        assert names[1..][i - 1] == names[i];
      }
    }
    if exists i :: 0 <= i < |names[1..]| && HasBadGame(names[1..][i]) {
      var i :| 0 <= i < |names[1..]| && HasBadGame(names[1..][i]);
      assert names[i + 1] == names[1..][i];
    }
  }

  /** A file name of the list has game number w iff the head or a name of the tail has. */
  lemma GameCons(names: seq<string>, w: int)
    requires names != []
    ensures (exists i :: 0 <= i < |names| && HasGame(names[i], w))
      <==> HasGame(names[0], w) || exists i :: 0 <= i < |names[1..]| && HasGame(names[1..][i], w)
  {
    if exists i :: 0 <= i < |names| && HasGame(names[i], w) {
      var i :| 0 <= i < |names| && HasGame(names[i], w);
      if i > 0 {
        assert names[1..][i - 1] == names[i];
      }
    }
    if exists i :: 0 <= i < |names[1..]| && HasGame(names[1..][i], w) {
      var i :| 0 <= i < |names[1..]| && HasGame(names[1..][i], w);
      assert names[i + 1] == names[1..][i];
    }
  }

  /** A bound on the game numbers of the tail, and no smaller than the head's, bounds them all. */
  lemma BoundCons(names: seq<string>, m: int, b: int)
    requires names != [] && m <= b
    requires forall v :: HasGame(names[0], v) ==> v <= b
    requires forall i, v :: 0 <= i < |names[1..]| && HasGame(names[1..][i], v) ==> v <= m
    ensures forall i, v :: 0 <= i < |names| && HasGame(names[i], v) ==> v <= b
  {
    forall i, v | 0 <= i < |names| && HasGame(names[i], v) ensures v <= b {
      if i > 0 {
        assert names[i] == names[1..][i - 1];
      }
    }
  }

  /** nextGame: one more than the highest game number, as Java int addition. */
  function NextGame(names: seq<string>): Result<int, string> {
    match HighestGame(names)
    case Ok(m) => Ok(Inc32(m))
    case Err(e) => Err(e)
  }

  /** replay_game_{n}_{ts}.log */
  function FileName(n: int, ts: string): string {
    Prefix + IntToString(n) + "_" + ts + Suffix
  }

  /** A file name the logger makes matches the pattern and gives its game number back. */
  lemma FileNameRoundTrip(n: int, ts: string)
    requires 0 <= n <= IntMax && NoLineTerminator(ts)
    ensures GameNumberGroup(FileName(n, ts)) == Some(IntToString(n))
    ensures HasGame(FileName(n, ts), n)
  {
    var d := IntToString(n);
    assert d == NatToString(n) && |d| >= 1 && AllDigits(d);
    FileNameGroup(d, ts);
    ParseIntToString(n);
  }

  /** The pattern finds the digits back in a name built from a digit string and a timestamp. */
  lemma FileNameGroup(d: string, ts: string)
    requires |d| >= 1 && AllDigits(d) && NoLineTerminator(ts)
    ensures GameNumberGroup(Prefix + d + "_" + ts + Suffix) == Some(d)
  {
    var tail := ts + Suffix;
    var after := "_" + tail;
    var rest := d + after;
    var name := Prefix + rest;
    assert Prefix + d + "_" + ts + Suffix == name;
    SplitAt(Prefix, rest);
    DigitRunOf(d, after);
    SplitAt(d, after);
    SplitAt("_", tail);
    assert rest[|d|] == after[0] == '_';
    assert rest[|d| + 1..] == after[1..];
    SplitAt(ts, Suffix);
    GroupFound(name, |d|);
  }

  /** The pattern matches when the prefix, a digit run, '_', a terminator-free part and the suffix follow each other. */
  lemma GroupFound(name: string, k: nat)
    requires |name| >= |Prefix| && name[..|Prefix|] == Prefix
    requires DigitRun(name[|Prefix|..]) == k && 0 < k < |name[|Prefix|..]| && name[|Prefix|..][k] == '_'
    requires var tail := name[|Prefix|..][k + 1..];
      |tail| >= |Suffix| && tail[|tail| - |Suffix|..] == Suffix && NoLineTerminator(tail[..|tail| - |Suffix|])
    ensures GameNumberGroup(name) == Some(name[|Prefix|..][..k])
  {
  }

  lemma SplitAt<T>(a: seq<T>, b: seq<T>)
    ensures (a + b)[..|a|] == a && (a + b)[|a|..] == b
  {
  }

  lemma DigitRunOf(d: string, s: string)
    requires AllDigits(d) && s != [] && !IsDigit(s[0])
    ensures DigitRun(d + s) == |d|
    decreases |d|
  {
    if d != [] {
      assert (d + s)[1..] == d[1..] + s;
      DigitRunOf(d[1..], s);
    }
  }

  /** The title line, then the empty line the second newLine() ends. */
  function Header(n: int, time: string): seq<string> {
    ["Pouilleux Replay Log — game " + IntToString(n) + " started at " + time, ""]
  }

  function SnapshotLine(s: Snapshot): string {
    "  " + s.playerName + " → " + CardListString(s.hand)
  }

  function SnapshotLines(snaps: seq<Snapshot>): (ls: seq<string>)
    ensures |ls| == |snaps|
    ensures forall i | 0 <= i < |snaps| :: ls[i] == SnapshotLine(snaps[i])
  {
    if snaps == [] then [] else [SnapshotLine(snaps[0])] + SnapshotLines(snaps[1..])
  }

  function StepLine(state: GameState): string {
    "STEP " + IntToString(state.step) + ": " + state.description
  }

  /** What logState writes: the step line, one line per snapshot, and an empty line. */
  function StateLines(state: GameState): (ls: seq<string>)
    ensures |ls| == |state.snapshots| + 2
    ensures ls[0] == StepLine(state) && ls[|ls| - 1] == ""
    ensures forall i | 0 <= i < |state.snapshots| :: ls[i + 1] == SnapshotLine(state.snapshots[i])
  {
    [StepLine(state)] + SnapshotLines(state.snapshots) + [""]
  }

  /** The lines of several states in order. */
  function AllStateLines(states: seq<GameState>): seq<string>
    decreases |states|
  {
    if states == [] then [] else AllStateLines(states[..|states| - 1]) + StateLines(states[|states| - 1])
  }

  /** Logging one more state appends its lines. */
  lemma AllStateLinesSnoc(states: seq<GameState>, s: GameState)
    ensures AllStateLines(states + [s]) == AllStateLines(states) + StateLines(s)
  {
    assert (states + [s])[..|states|] == states;
  }

  function Trailer(time: string): string {
    "End of replay at " + time
  }

  /** The replay file of game n: its header, then the lines of each logged state. */
  class ReplayLogger {
    const gameNumber: int
    const fileName: string
    var lines: seq<string>
    var closed: bool

    constructor(n: int, ts: string, time: string)
      ensures gameNumber == n && fileName == FileName(n, ts)
      ensures lines == Header(n, time) && !closed
    {
      gameNumber := n;
      fileName := FileName(n, ts);
      lines := Header(n, time);
      closed := false;
    }

    /**
     * logState: the lines of one state. On a closed writer the write throws, the IOException is
     * caught and only a warning is printed, so the file is unchanged.
     */
    method LogState(state: GameState)
      modifies this
      ensures closed == old(closed)
      ensures !old(closed) ==> lines == old(lines) + StateLines(state)
      ensures old(closed) ==> lines == old(lines)
    {
      if !closed {
        lines := lines + StateLines(state);
      }
    }

    /**
     * close: the trailer line, then the writer is closed. A second close throws out of the write
     * (BufferedWriter's "Stream closed") and writes nothing.
     */
    method Close(time: string) returns (r: Result<(), string>)
      modifies this
      ensures closed
      ensures !old(closed) ==> r.Ok? && lines == old(lines) + [Trailer(time)]
      ensures old(closed) ==> r == Err(StreamClosed) && lines == old(lines)
    {
      if closed {
        return Err(StreamClosed);
      }
      lines := lines + [Trailer(time)];
      closed := true;
      return Ok(());
    }
  }

  /** The message of the IOException a closed BufferedWriter throws. */
  const StreamClosed: string := "Stream closed"

  /**
   * The ReplayLogger constructor: the game number from the names already in the replay directory,
   * then a new file with its header. A group too large for an int ends it with the exception.
   */
  method OpenLogger(existing: seq<string>, ts: string, time: string) returns (r: Result<ReplayLogger, string>)
    ensures NextGame(existing).Err? ==> r == Err(NextGame(existing).error)
    ensures NextGame(existing).Ok? ==>
      r.Ok? && fresh(r.value) && r.value.gameNumber == NextGame(existing).value
      && r.value.fileName == FileName(r.value.gameNumber, ts)
      && r.value.lines == Header(r.value.gameNumber, time) && !r.value.closed
  {
    var next := NextGame(existing);
    if next.Err? {
      return Err(next.error);
    }
    var logger := new ReplayLogger(next.value, ts, time);
    return Ok(logger);
  }

  /** The new game number is above every existing one, unless the highest is the largest int. */
  lemma NextGameIsNew(names: seq<string>, i: nat, v: int)
    requires i < |names| && HasGame(names[i], v) && NextGame(names).Ok?
    ensures HighestGame(names).value < IntMax ==> v < NextGame(names).value
    ensures NextGame(names).value >= 1 || NextGame(names).value == IntMin
  {
  }

  /** With no matching name the first game is number 1. */
  lemma FirstGame(names: seq<string>)
    requires forall i | 0 <= i < |names| :: GameNumberGroup(names[i]).None?
    ensures NextGame(names) == Ok(1)
  {
  }
}
