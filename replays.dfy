/**
 * ReplayPanel's reading side of a replay file: parseSteps cuts the file's lines into step blocks,
 * showStep puts one block in the text area and enables the navigation buttons.
 */
module Replays {
  import opened States
  import opened ReplayLogs

  /** line.startsWith("STEP ") */
  predicate StartsStep(line: string) {
    |line| >= 5 && line[..5] == "STEP "
  }

  /**
   * The blocks parseSteps builds from the lines read so far: a line starting with "STEP " opens a
   * new block, except as the very first line; every other line joins the current block.
   */
  function Blocks(lines: seq<string>): (bs: seq<seq<string>>)
    ensures |bs| <= |lines| && (bs == [] <==> lines == [])
    decreases |lines|
  {
    if lines == [] then []
    else
      var pre := Blocks(lines[..|lines| - 1]);
      var line := lines[|lines| - 1];
      if pre == [] || StartsStep(line) then pre + [[line]]
      else pre[..|pre| - 1] + [pre[|pre| - 1] + [line]]
  }

  /** The blocks one after the other. */
  function Flatten(bs: seq<seq<string>>): seq<string>
    decreases |bs|
  {
    if bs == [] then [] else Flatten(bs[..|bs| - 1]) + bs[|bs| - 1]
  }

  /** One block of parseSteps: not empty, only its first line may be a step line, and must be unless first. */
  predicate Block(b: seq<string>, first: bool) {
    b != [] && (!first ==> StartsStep(b[0])) && forall j | 0 < j < |b| :: !StartsStep(b[j])
  }

  /** A cutting into blocks of the kind parseSteps makes. */
  predicate Partition(bs: seq<seq<string>>) {
    forall k | 0 <= k < |bs| :: Block(bs[k], k == 0)
  }

  lemma {:induction false} FlattenAppend(a: seq<seq<string>>, b: seq<seq<string>>)
    ensures Flatten(a + b) == Flatten(a) + Flatten(b)
    decreases |b|
  {
    if b == [] {
      assert a + b == a;
    } else {
      var n := |b| - 1;
      assert (a + b)[..|a + b| - 1] == a + b[..n];
      FlattenAppend(a, b[..n]);
    }
  }

  /** Nothing is lost or reordered: the blocks put back together are the lines. */
  lemma {:induction false} BlocksFlatten(lines: seq<string>)
    ensures Flatten(Blocks(lines)) == lines
    decreases |lines|
  {
    if lines != [] {
      var n := |lines| - 1;
      var pre := Blocks(lines[..n]);
      var line := lines[n];
      assert Flatten(pre) == lines[..n] by {
        BlocksFlatten(lines[..n]);
      }
      assert lines == lines[..n] + [line];
      if pre == [] || StartsStep(line) {
        assert Flatten(pre + [[line]]) == Flatten(pre) + [line] by {
          FlattenAppend(pre, [[line]]);
          assert Flatten([[line]]) == Flatten([]) + [line];
        }
      } else {
        var m := |pre| - 1;
        assert Flatten(pre) == Flatten(pre[..m]) + pre[m];
        assert Flatten(pre[..m] + [pre[m] + [line]]) == Flatten(pre[..m]) + (pre[m] + [line]) by {
          FlattenAppend(pre[..m], [pre[m] + [line]]);
          assert Flatten([pre[m] + [line]]) == Flatten([]) + (pre[m] + [line]);
        }
      }
    }
  }

  /** The blocks parseSteps builds are a Partition. */
  lemma {:induction false} BlocksPartition(lines: seq<string>)
    ensures Partition(Blocks(lines))
    decreases |lines|
  {
    if lines != [] {
      var n := |lines| - 1;
      var pre := Blocks(lines[..n]);
      var line := lines[n];
      BlocksPartition(lines[..n]);
      if pre == [] || StartsStep(line) {
        assert Block([line], pre == []);
      } else {
        var m := |pre| - 1;
        assert Block(pre[m], m == 0);
        assert Block(pre[m] + [line], m == 0) by {
          forall j | 0 < j < |pre[m] + [line]| ensures !StartsStep((pre[m] + [line])[j]) {
            if j < |pre[m]| {
              assert (pre[m] + [line])[j] == pre[m][j];
            }
          }
        }
      }
    }
  }

  lemma PartitionPrefix(bs: seq<seq<string>>, k: nat)
    requires Partition(bs) && k <= |bs|
    ensures Partition(bs[..k])
  {
    forall i | 0 <= i < k ensures Block(bs[..k][i], i == 0) {
      assert bs[..k][i] == bs[i];
    }
  }

  /** One more line, as parseSteps's loop body takes it. */
  lemma BlocksSnoc(lines: seq<string>, line: string)
    ensures var pre := Blocks(lines);
      Blocks(lines + [line]) ==
        if pre == [] || StartsStep(line) then pre + [[line]] else pre[..|pre| - 1] + [pre[|pre| - 1] + [line]]
  {
    assert (lines + [line])[..|lines|] == lines;
  }

  /** A block that follows blocks parseSteps built is parsed as that one block. */
  lemma {:induction false} BlocksAppendBlock(done: seq<string>, front: seq<seq<string>>, last: seq<string>)
    requires Blocks(done) == front && Block(last, front == [])
    ensures Blocks(done + last) == front + [last]
    decreases |last|
  {
    var n := |last| - 1;
    var line := last[n];
    if n == 0 {
      BlocksSnoc(done, line);
      assert last == [line];
    } else {
      var body := last[..n];
      assert Block(body, front == []) by {
        forall j | 0 < j < |body| ensures !StartsStep(body[j]) {
          assert body[j] == last[j];
        }
      }
      assert Blocks(done + body) == front + [body] by {
        BlocksAppendBlock(done, front, body);
      }
      assert Blocks((done + body) + [line]) == front + [body + [line]] by {
        BlocksSnoc(done + body, line);
        assert (front + [body])[..|front|] == front;
      }
      assert (done + body) + [line] == done + last && body + [line] == last by {
        assert last == body + [line];
      }
    }
  }

  /** Partition and Flatten determine the blocks: parseSteps is the only such cutting. */
  lemma {:induction false} BlocksOfFlatten(bs: seq<seq<string>>)
    requires Partition(bs)
    ensures Blocks(Flatten(bs)) == bs
    decreases |bs|
  {
    if bs != [] {
      var k := |bs| - 1;
      PartitionPrefix(bs, k);
      BlocksOfFlatten(bs[..k]);
      assert Block(bs[k], bs[..k] == []);
      BlocksAppendBlock(Flatten(bs[..k]), bs[..k], bs[k]);
      assert bs[..k] + [bs[k]] == bs;
    }
  }

  lemma BlocksUnique(lines: seq<string>, bs: seq<seq<string>>)
    requires Partition(bs) && Flatten(bs) == lines
    ensures bs == Blocks(lines)
  {
    BlocksOfFlatten(bs);
  }

  /** One block per logged state: its step line, its snapshot lines and the empty line. */
  function StateBlocks(states: seq<GameState>): (bs: seq<seq<string>>)
    ensures |bs| == |states|
  {
    seq(|states|, i requires 0 <= i < |states| => StateLines(states[i]))
  }

  lemma {:induction false} StateBlocksFlatten(states: seq<GameState>)
    ensures Flatten(StateBlocks(states)) == AllStateLines(states)
    decreases |states|
  {
    if states != [] {
      var n := |states| - 1;
      var bs := StateBlocks(states);
      assert bs[..n] == StateBlocks(states[..n]);
      StateBlocksFlatten(states[..n]);
      assert Flatten(bs) == Flatten(bs[..n]) + StateLines(states[n]);
      AllStateLinesLast(states);
    }
  }

  /**
   * The blocks the viewer shows for a complete replay file: the header alone, then one block per
   * state, the last of which also holds the trailer; with no state the trailer joins the header.
   */
  function FileBlocks(n: int, start: string, states: seq<GameState>, end: string): seq<seq<string>> {
    if states == [] then [Header(n, start) + [Trailer(end)]]
    else
      var k := |states| - 1;
      [Header(n, start)] + StateBlocks(states[..k]) + [StateLines(states[k]) + [Trailer(end)]]
  }

  lemma StepLineStarts(state: GameState)
    ensures StartsStep(StepLine(state))
  {
    assert StepLine(state)[..5] == "STEP ";
  }

  lemma SnapshotLineIsNotStep(snap: Snapshot)
    ensures !StartsStep(SnapshotLine(snap))
  {
    assert SnapshotLine(snap)[1] == ' ';
  }

  lemma HeaderBlock(n: int, start: string)
    ensures Block(Header(n, start), true)
  {
    var h := Header(n, start);
    assert h[1] == "";
  }

  lemma TrailerIsNotStep(end: string)
    ensures !StartsStep(Trailer(end))
  {
    assert Trailer(end)[0] == 'E';
  }

  /** What logState writes is one block: the step line, then lines that are not. */
  lemma StateBlock(state: GameState)
    ensures Block(StateLines(state), false)
  {
    var ls := StateLines(state);
    StepLineStarts(state);
    forall j | 0 < j < |ls| ensures !StartsStep(ls[j]) {
      if j < |ls| - 1 {
        SnapshotLineIsNotStep(state.snapshots[j - 1]);
      }
    }
  }

  /** The trailer joins whatever block is open when close writes it. */
  lemma TrailerJoins(b: seq<string>, first: bool, end: string)
    requires Block(b, first)
    ensures Block(b + [Trailer(end)], first)
  {
    TrailerIsNotStep(end);
    var b' := b + [Trailer(end)];
    forall j | 0 < j < |b'| ensures !StartsStep(b'[j]) {
      if j < |b| {
        assert b'[j] == b[j];
      }
    }
  }

  lemma FlattenShape(h: seq<string>, mid: seq<seq<string>>, last: seq<string>)
    ensures Flatten([h] + mid + [last]) == h + Flatten(mid) + last
  {
    FlattenAppend([h] + mid, [last]);
    FlattenAppend([h], mid);
    assert Flatten([h]) == Flatten([]) + h;
    assert Flatten([last]) == Flatten([]) + last;
  }

  /** The last state's lines end the lines of a non-empty list of states. */
  lemma AllStateLinesLast(states: seq<GameState>)
    requires states != []
    ensures AllStateLines(states) == AllStateLines(states[..|states| - 1]) + StateLines(states[|states| - 1])
  {
  }

  lemma FileBlocksFlatten(n: int, start: string, states: seq<GameState>, end: string)
    ensures Flatten(FileBlocks(n, start, states, end)) == Header(n, start) + AllStateLines(states) + [Trailer(end)]
  {
    var h := Header(n, start);
    var tail := [Trailer(end)];
    if states == [] {
      assert Flatten([h + tail]) == Flatten([]) + (h + tail);
    } else {
      var k := |states| - 1;
      FlattenShape(h, StateBlocks(states[..k]), StateLines(states[k]) + tail);
      StateBlocksFlatten(states[..k]);
      AllStateLinesLast(states);
    }
  }

  lemma PartitionShape(h: seq<string>, mid: seq<seq<string>>, last: seq<string>)
    requires Block(h, true) && Block(last, false)
    requires forall i | 0 <= i < |mid| :: Block(mid[i], false)
    ensures Partition([h] + mid + [last])
  {
    var bs := [h] + mid + [last];
    forall i | 0 <= i < |bs| ensures Block(bs[i], i == 0) {
      if 0 < i < |bs| - 1 {
        assert bs[i] == mid[i - 1];
      }
    }
  }

  lemma StateBlocksAreBlocks(states: seq<GameState>)
    ensures forall i | 0 <= i < |StateBlocks(states)| :: Block(StateBlocks(states)[i], false)
  {
    forall i | 0 <= i < |states| ensures Block(StateBlocks(states)[i], false) {
      StateBlock(states[i]);
    }
  }

  lemma FileBlocksPartition(n: int, start: string, states: seq<GameState>, end: string)
    ensures Partition(FileBlocks(n, start, states, end))
  {
    HeaderBlock(n, start);
    if states == [] {
      TrailerJoins(Header(n, start), true, end);
    } else {
      var k := |states| - 1;
      StateBlocksAreBlocks(states[..k]);
      StateBlock(states[k]);
      TrailerJoins(StateLines(states[k]), false, end);
      PartitionShape(Header(n, start), StateBlocks(states[..k]), StateLines(states[k]) + [Trailer(end)]);
    }
  }

  /**
   * The round trip between ReplayLogger and ReplayPanel: the lines of a complete replay file,
   * header, states and trailer, fall apart into exactly the blocks of FileBlocks.
   */
  lemma ReplayRoundTrip(n: int, start: string, states: seq<GameState>, end: string)
    ensures Blocks(Header(n, start) + AllStateLines(states) + [Trailer(end)]) == FileBlocks(n, start, states, end)
  {
    FileBlocksFlatten(n, start, states, end);
    FileBlocksPartition(n, start, states, end);
    BlocksUnique(Header(n, start) + AllStateLines(states) + [Trailer(end)], FileBlocks(n, start, states, end));
  }

  /** String.join("\n", lines) */
  function JoinLines(lines: seq<string>): string
    decreases |lines|
  {
    if lines == [] then ""
    else if |lines| == 1 then lines[0]
    else lines[0] + "\n" + JoinLines(lines[1..])
  }

  /** The text cut at every '\n' (the split that undoes JoinLines). */
  function SplitLines(text: string): (ls: seq<string>)
    ensures ls != []
    decreases |text|
  {
    if text == [] then [""]
    else
      var rest := SplitLines(text[1..]);
      if text[0] == '\n' then [""] + rest
      else [[text[0]] + rest[0]] + rest[1..]
  }

  predicate NoNewline(line: string) {
    forall i | 0 <= i < |line| :: line[i] != '\n'
  }

  lemma {:induction false} SplitPrefix(line: string, rest: string)
    requires NoNewline(line)
    ensures SplitLines(line + rest) == [line + SplitLines(rest)[0]] + SplitLines(rest)[1..]
    decreases |line|
  {
    if line != [] {
      assert (line + rest)[1..] == line[1..] + rest;
      SplitPrefix(line[1..], rest);
      assert [line[0]] + (line[1..] + SplitLines(rest)[0]) == line + SplitLines(rest)[0];
    } else {
      assert line + rest == rest;
      assert line + SplitLines(rest)[0] == SplitLines(rest)[0];
      assert SplitLines(rest) == [SplitLines(rest)[0]] + SplitLines(rest)[1..];
    }
  }

  /** The text area's lines are the block's lines again, when no line holds a line break. */
  lemma {:induction false} JoinSplit(lines: seq<string>)
    requires lines != [] && forall k | 0 <= k < |lines| :: NoNewline(lines[k])
    ensures SplitLines(JoinLines(lines)) == lines
    decreases |lines|
  {
    if |lines| == 1 {
      SplitPrefix(lines[0], "");
      assert lines[0] + "" == lines[0];
    } else {
      var rest := JoinLines(lines[1..]);
      JoinSplit(lines[1..]);
      assert lines[0] + "\n" + rest == lines[0] + ("\n" + rest);
      SplitPrefix(lines[0], "\n" + rest);
      assert ("\n" + rest)[1..] == rest;
      assert SplitLines("\n" + rest) == [""] + lines[1..];
      assert lines[0] + "" == lines[0];
    }
  }

  /** One iteration of parseSteps's loop: the closed blocks and the open one still make Blocks. */
  lemma TakeLine(done: seq<string>, line: string, closed: seq<seq<string>>, open: seq<string>)
    requires done == [] ==> closed == [] && open == []
    requires done != [] ==> open != [] && closed + [open] == Blocks(done)
    ensures StartsStep(line) && open != [] ==> closed + [open] + [[line]] == Blocks(done + [line])
    ensures !(StartsStep(line) && open != []) ==> closed + [open + [line]] == Blocks(done + [line])
  {
    BlocksSnoc(done, line);
    if done != [] {
      var pre := closed + [open];
      assert pre[..|pre| - 1] == closed;
    }
  }

  /** The replay view of ReplayPanel: the parsed steps, the one on show, the text and two buttons. */
  class ReplayView {
    var steps: seq<seq<string>>
    var currentStep: int
    var text: string
    var prevEnabled: bool
    var nextEnabled: bool

    /** A new panel: no steps, step 0, an empty text area, both buttons enabled as a new JButton is. */
    constructor()
      ensures steps == [] && currentStep == 0 && text == "" && prevEnabled && nextEnabled
    {
      steps := [];
      currentStep := 0;
      text := "";
      prevEnabled := true;
      nextEnabled := true;
    }

    /** parseSteps: the loop with its current block; steps is then Blocks(lines). */
    method ParseSteps(lines: seq<string>)
      modifies this
      ensures steps == Blocks(lines) && currentStep == 0
      ensures text == old(text) && prevEnabled == old(prevEnabled) && nextEnabled == old(nextEnabled)
    {
      var parsed: seq<seq<string>> := [];
      var block: seq<string> := [];
      for i := 0 to |lines|
        invariant block == [] <==> i == 0
        invariant i == 0 ==> parsed == []
        invariant i > 0 ==> parsed + [block] == Blocks(lines[..i])
        invariant text == old(text) && prevEnabled == old(prevEnabled) && nextEnabled == old(nextEnabled)
      {
        var line := lines[i];
        assert lines[..i + 1] == lines[..i] + [line];
        TakeLine(lines[..i], line, parsed, block);
        ghost var p0, b0 := parsed, block;
        if StartsStep(line) && block != [] {
          parsed := parsed + [block];
          block := [];
        }
        block := block + [line];
        if StartsStep(line) && b0 != [] {
          assert parsed == p0 + [b0];
          assert block == [line];
          assert p0 + [b0] + [[line]] == Blocks(lines[..i] + [line]);
        } else {
          assert parsed == p0;
          assert block == b0 + [line];
          assert p0 + [b0 + [line]] == Blocks(lines[..i] + [line]);
        }
        assert parsed + [block] == Blocks(lines[..i] + [line]);
      }
      assert lines[..|lines|] == lines;
      if block != [] {
        parsed := parsed + [block];
      }
      steps := parsed;
      currentStep := 0;
    }

    /** showStep: an index outside the steps changes nothing. */
    method ShowStep(index: int)
      modifies this
      ensures steps == old(steps)
      ensures !(0 <= index < |steps|) ==>
        currentStep == old(currentStep) && text == old(text)
        && prevEnabled == old(prevEnabled) && nextEnabled == old(nextEnabled)
      ensures 0 <= index < |steps| ==>
        currentStep == index && text == JoinLines(steps[index])
        && (prevEnabled <==> index > 0) && (nextEnabled <==> index < |steps| - 1)
    {
      if index < 0 || index >= |steps| {
        return;
      }
      currentStep := index;
      text := JoinLines(steps[index]);
      prevEnabled := currentStep > 0;
      nextEnabled := currentStep < |steps| - 1;
    }
  }
}
