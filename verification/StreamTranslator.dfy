/**
 * The translator as it runs: nested loops over chunks, lines, choices and tool deltas that
 * update its flags, its table and its buffer, and stop at once when the client is gone.
 */
module StreamTranslator {
  import opened Wrappers
  import opened StreamLines
  import opened StreamModel

  class Translator {
    const env: Env
    /** How many events the client takes before it disconnects. */
    const room: nat

    var textBlockStarted: bool
    var buffer: string
    var finalStopReason: Option<string>
    var finalUsage: (int, int)
    var nextBlockIndex: nat
    var textBlockIndex: Option<nat>
    var toolCalls: seq<ToolCall>
    /** The events the client received. */
    var sent: seq<Event>
    /** The usage totals the caller reads when the stream is over. */
    var usageAccumulator: (int, int)

    constructor (env: Env, room: nat)
      ensures this.env == env && this.room == room
      ensures Valid() && sent == [] && buffer == ""
      ensures Abs() == Initial(env.id, env.model).(out := [])
    {
      this.env, this.room := env, room;
      textBlockStarted, buffer, finalStopReason, finalUsage := false, "", None, (0, 0);
      nextBlockIndex, textBlockIndex, toolCalls, sent, usageAccumulator := 0, None, [], [], (0, 0);
    }

    ghost predicate Valid()
      reads this
    {
      |sent| <= room
    }

    ghost function Abs(): State
      reads this
    {
      State(textBlockStarted, textBlockIndex, nextBlockIndex, toolCalls, finalStopReason, finalUsage, sent)
    }

    /** Either the step was carried out, or the client left with a prefix of what it would have got. */
    ghost predicate Reached(ok: bool, goal: State)
      reads this
    {
      Valid() && if ok then Abs() == goal else |sent| == room && sent <= goal.out
    }

    method SendEvent(event: Event) returns (ok: bool)
      requires Valid()
      modifies this`sent
      ensures Valid() && ok == (|old(sent)| < room)
      ensures sent == if ok then old(sent) + [event] else old(sent)
    {
      ok := |sent| < room;
      if ok { sent := sent + [event]; }
    }

    method OnText(text: string) returns (ok: bool)
      requires Valid()
      modifies this`sent, this`textBlockStarted, this`textBlockIndex, this`nextBlockIndex
      ensures Reached(ok, StepText(old(Abs()), text))
    {
      if text == "" { return true; }
      if !textBlockStarted {
        textBlockStarted := true;
        var idx := nextBlockIndex;
        textBlockIndex := Some(idx);
        nextBlockIndex := nextBlockIndex + 1;
        ok := SendEvent(BlockStart(idx, TextBlock));
        if !ok { return false; }
      }
      ok := SendEvent(BlockDelta(textBlockIndex.GetOr(0), TextDelta(text)));
    }

    /** Position of the table entry for `index`, appended if there was none. */
    method FindOrCreate(index: nat) returns (ok: bool, pos: nat)
      requires Valid()
      modifies this`sent, this`textBlockStarted, this`nextBlockIndex, this`toolCalls
      ensures Reached(ok, EnsureTool(old(Abs()), index))
      ensures ok ==> Some(pos) == FindTool(toolCalls, index)
    {
      var existing := FindTool(toolCalls, index);
      if existing.Some? { return true, existing.value; }
      if textBlockStarted && toolCalls == [] {
        ok := SendEvent(BlockStop(textBlockIndex.GetOr(0)));
        if !ok { return false, 0; }
        textBlockStarted := false;
      }
      var blockIdx := nextBlockIndex;
      nextBlockIndex := nextBlockIndex + 1;
      pos := |toolCalls|;
      AppendedIsFound(toolCalls, ToolCall(index, "", "", "", blockIdx, false));
      toolCalls := toolCalls + [ToolCall(index, "", "", "", blockIdx, false)];
      ok := true;
    }

    /** Emits the events of a delta that turned the entry `was` into `tc`. */
    method SendToolEvents(ghost was: ToolCall, announce: bool, tc: ToolCall, d: ToolDelta) returns (ok: bool)
      requires Valid() && (announce <==> tc.started && !was.started)
      modifies this`sent
      ensures Valid() && if ok then sent == old(sent) + ToolEvents(was, tc, d)
                               else |sent| == room && sent <= old(sent) + ToolEvents(was, tc, d)
    {
      ghost var before := sent;
      if announce {
        ok := SendEvent(BlockStart(tc.blockIndex, ToolUse(tc.id, tc.name)));
        if !ok { return; }
      }
      assert sent == before + StartEvents(was, tc);
      ok := true;
      if tc.started && d.func.Some? && d.func.value.arguments.Some? && d.func.value.arguments.value != "" {
        ok := SendEvent(BlockDelta(tc.blockIndex, InputJsonDelta(d.func.value.arguments.value)));
      } else {
        assert ArgumentEvents(tc, d) == [];
      }
    }

    /** Merges a delta into the entry at `pos` and emits its events. */
    method OnMerge(pos: nat, d: ToolDelta) returns (ok: bool)
      requires Valid() && pos < |toolCalls|
      modifies this`sent, this`toolCalls
      ensures Reached(ok, MergeAt(old(Abs()), pos, d, env.genId))
    {
      var was := toolCalls[pos];
      var tc := was;
      if d.id.Some? { tc := tc.(id := d.id.value); }
      if d.func.Some? {
        if d.func.value.name.Some? { tc := tc.(name := tc.name + d.func.value.name.value); }
        if d.func.value.arguments.Some? { tc := tc.(arguments := tc.arguments + d.func.value.arguments.value); }
      }
      var announce := !tc.started && tc.name != "";
      if announce {
        tc := tc.(started := true, id := if tc.id == "" then env.genId(tc.blockIndex) else tc.id);
      }
      assert tc == MergeTool(was, d, env.genId);
      toolCalls := toolCalls[pos := tc];
      ok := SendToolEvents(was, announce, tc, d);
    }

    method OnToolDelta(d: ToolDelta) returns (ok: bool)
      requires Valid()
      modifies this`sent, this`textBlockStarted, this`nextBlockIndex, this`toolCalls
      ensures Reached(ok, StepTool(old(Abs()), d, env.genId))
    {
      var pos: nat;
      ok, pos := FindOrCreate(d.index.GetOr(0));
      if ok {
        ok := OnMerge(pos, d);
      }
    }

    method OnToolDeltas(deltas: seq<ToolDelta>) returns (ok: bool)
      requires Valid()
      modifies this`sent, this`textBlockStarted, this`nextBlockIndex, this`toolCalls
      ensures Reached(ok, Fold(old(Abs()), ToolOps(deltas), env.genId))
    {
      ghost var goal := Fold(Abs(), ToolOps(deltas), env.genId);
      assert deltas[0..] == deltas;
      for i := 0 to |deltas|
        invariant Valid() && goal == Fold(Abs(), ToolOps(deltas[i..]), env.genId)
      {
        assert deltas[i..][1..] == deltas[i + 1..];
        FoldOne(Abs(), Tool(deltas[i]), env.genId);
        Continue(Abs(), [Tool(deltas[i])], ToolOps(deltas[i + 1..]), env.genId);
        ok := OnToolDelta(deltas[i]);
        if !ok { return; }
      }
      ok := true;
    }

    method OnDelta(delta: Delta) returns (ok: bool)
      requires Valid()
      modifies this`sent, this`textBlockStarted, this`textBlockIndex, this`nextBlockIndex, this`toolCalls
      ensures Reached(ok, Fold(old(Abs()), DeltaOps(delta), env.genId))
    {
      ghost var tools := if delta.toolCalls.Some? then ToolOps(delta.toolCalls.value) else [];
      if delta.content.Some? {
        FoldOne(Abs(), Text(delta.content.value), env.genId);
        Continue(Abs(), [Text(delta.content.value)], tools, env.genId);
        ok := OnText(delta.content.value);
        if !ok { return; }
      } else {
        assert DeltaOps(delta) == tools;
      }
      ok := true;
      if delta.toolCalls.Some? {
        ok := OnToolDeltas(delta.toolCalls.value);
      }
    }

    method OnChoice(choice: Choice) returns (ok: bool)
      requires Valid()
      modifies this`sent, this`textBlockStarted, this`textBlockIndex, this`nextBlockIndex, this`toolCalls, this`finalStopReason
      ensures Reached(ok, Fold(old(Abs()), ChoiceOps(choice), env.genId))
    {
      ghost var rest := if choice.delta.Some? then DeltaOps(choice.delta.value) else [];
      if choice.finishReason.Some? {
        FoldOne(Abs(), Finish(choice.finishReason.value), env.genId);
        Continue(Abs(), [Finish(choice.finishReason.value)], rest, env.genId);
        finalStopReason := Some(TranslateStopReason(choice.finishReason.value));
      } else {
        assert ChoiceOps(choice) == rest;
      }
      ok := true;
      if choice.delta.Some? {
        ok := OnDelta(choice.delta.value);
      }
    }

    method OnChoices(choices: seq<Choice>) returns (ok: bool)
      requires Valid()
      modifies this`sent, this`textBlockStarted, this`textBlockIndex, this`nextBlockIndex, this`toolCalls, this`finalStopReason
      ensures Reached(ok, Fold(old(Abs()), ChoicesOps(choices), env.genId))
    {
      ghost var goal := Fold(Abs(), ChoicesOps(choices), env.genId);
      assert choices[0..] == choices;
      for i := 0 to |choices|
        invariant Valid() && goal == Fold(Abs(), ChoicesOps(choices[i..]), env.genId)
      {
        assert choices[i..][1..] == choices[i + 1..];
        Continue(Abs(), ChoiceOps(choices[i]), ChoicesOps(choices[i + 1..]), env.genId);
        ok := OnChoice(choices[i]);
        if !ok { return; }
      }
      ok := true;
    }

    method OnChunk(chunk: Chunk) returns (ok: bool)
      requires Valid()
      modifies this`sent, this`textBlockStarted, this`textBlockIndex, this`nextBlockIndex, this`toolCalls,
               this`finalStopReason, this`finalUsage
      ensures Reached(ok, Fold(old(Abs()), ChunkOps(chunk), env.genId))
    {
      ghost var rest := if chunk.choices.Some? then ChoicesOps(chunk.choices.value) else [];
      if chunk.usage.Some? {
        var u := chunk.usage.value;
        FoldOne(Abs(), SetUsage(u), env.genId);
        Continue(Abs(), [SetUsage(u)], rest, env.genId);
        finalUsage := (u.prompt.GetOr(finalUsage.0), u.completion.GetOr(finalUsage.1));
      } else {
        assert ChunkOps(chunk) == rest;
      }
      ok := true;
      if chunk.choices.Some? {
        ok := OnChoices(chunk.choices.value);
      }
    }

    method OnLine(raw: string) returns (ok: bool)
      requires Valid()
      modifies this`sent, this`textBlockStarted, this`textBlockIndex, this`nextBlockIndex, this`toolCalls,
               this`finalStopReason, this`finalUsage
      ensures Reached(ok, Fold(old(Abs()), LineOps(raw, env.parse), env.genId))
    {
      var line := Trim(raw);
      if line == "" { return true; }
      if line == DONE { return true; }
      if !(DATA <= line) { return true; }
      var chunk := env.parse(line[|DATA|..]);
      if chunk.None? { return true; }
      ok := OnChunk(chunk.value);
    }

    /** Appends decoded text to the buffer and handles every line that is now complete. */
    method OnDecoded(text: string) returns (ok: bool)
      requires Valid()
      modifies this`buffer, this`sent, this`textBlockStarted, this`textBlockIndex, this`nextBlockIndex,
               this`toolCalls, this`finalStopReason, this`finalUsage
      ensures ok ==> buffer == SplitLines(old(buffer) + text).tail
      ensures Reached(ok, Fold(old(Abs()), LinesOps(SplitLines(old(buffer) + text).lines, env.parse), env.genId))
    {
      buffer := buffer + text;
      ghost var goal, tail := Fold(Abs(), LinesOps(SplitLines(buffer).lines, env.parse), env.genId), SplitLines(buffer).tail;
      var newline := FindNewline(buffer);
      while newline.Some?
        invariant Valid() && newline == FindNewline(buffer)
        invariant tail == SplitLines(buffer).tail
        invariant goal == Fold(Abs(), LinesOps(SplitLines(buffer).lines, env.parse), env.genId)
        decreases |buffer|
      {
        var line := buffer[..newline.value];
        ghost var lines := SplitLines(buffer).lines;
        buffer := buffer[newline.value + 1..];
        assert lines[0] == line && lines[1..] == SplitLines(buffer).lines;
        Continue(Abs(), LineOps(line, env.parse), LinesOps(lines[1..], env.parse), env.genId);
        ok := OnLine(line);
        if !ok { return; }
        newline := FindNewline(buffer);
      }
      ok := true;
    }

    /** Reads the response until it ends or fails. */
    method ReadChunks(chunks: seq<ChunkResult>) returns (ok: bool)
      requires Valid()
      modifies this`buffer, this`sent, this`textBlockStarted, this`textBlockIndex, this`nextBlockIndex,
               this`toolCalls, this`finalStopReason, this`finalUsage
      ensures Reached(ok, Fold(old(Abs()), LinesOps(Incremental(old(buffer), chunks), env.parse), env.genId))
    {
      ghost var goal := Fold(Abs(), LinesOps(Incremental(buffer, chunks), env.parse), env.genId);
      assert chunks[0..] == chunks;
      for i := 0 to |chunks|
        invariant Valid() && goal == Fold(Abs(), LinesOps(Incremental(buffer, chunks[i..]), env.parse), env.genId)
      {
        if chunks[i].ReadError? { break; }
        ghost var now := SplitLines(buffer + chunks[i].text);
        assert chunks[i..][1..] == chunks[i + 1..];
        LinesOpsConcat(now.lines, Incremental(now.tail, chunks[i + 1..]), env.parse);
        Continue(Abs(), LinesOps(now.lines, env.parse), LinesOps(Incremental(now.tail, chunks[i + 1..]), env.parse), env.genId);
        ok := OnDecoded(chunks[i].text);
        if !ok { return; }
      }
      ok := true;
    }

    /** Closes the blocks that are still open. */
    method CloseBlocks() returns (ok: bool)
      requires Valid()
      modifies this`sent
      ensures Valid() && if ok then sent == Stopped(old(Abs())) else |sent| == room && sent <= Stopped(old(Abs()))
    {
      ghost var whole := Stopped(Abs());
      if textBlockStarted {
        ok := SendEvent(BlockStop(textBlockIndex.GetOr(0)));
        if !ok { return; }
      }
      ok := CloseToolBlocks();
    }

    method CloseToolBlocks() returns (ok: bool)
      requires Valid()
      modifies this`sent
      ensures Valid()
      ensures var whole := old(sent) + ToolStops(toolCalls); if ok then sent == whole else |sent| == room && sent <= whole
    {
      ghost var whole := sent + ToolStops(toolCalls);
      assert toolCalls[0..] == toolCalls;
      for i := 0 to |toolCalls|
        invariant Valid() && whole == sent + ToolStops(toolCalls[i..])
      {
        assert toolCalls[i..][1..] == toolCalls[i + 1..];
        if toolCalls[i].started {
          ok := SendEvent(BlockStop(toolCalls[i].blockIndex));
          if !ok { return; }
        }
      }
      ok := true;
    }

    /** The events after the last chunk. */
    method Close() returns (ok: bool)
      requires Valid()
      modifies this`sent
      ensures Valid() && if ok then sent == Transcript(old(Abs()))
                               else |sent| == room && sent <= Transcript(old(Abs()))
    {
      ghost var s := Abs();
      ok := CloseBlocks();
      if !ok { return; }
      if !textBlockStarted && toolCalls == [] {
        ok := SendEvent(BlockStart(0, TextBlock));
        if !ok { return; }
        ok := SendEvent(BlockStop(0));
        if !ok { return; }
      }
      assert sent == Stopped(s) + EmptyPair(s);
      ok := SendEvent(MessageDelta(finalStopReason.GetOr("end_turn"), finalUsage.1));
      if !ok { return; }
      ok := SendEvent(MessageStop);
    }

    method Greet() returns (ok: bool)
      requires Valid() && sent == []
      modifies this`sent
      ensures Valid() && if ok then sent == [MessageStart(env.id, env.model), Ping]
                               else |sent| == room && sent <= [MessageStart(env.id, env.model), Ping]
    {
      ok := SendEvent(MessageStart(env.id, env.model));
      if ok { ok := SendEvent(Ping); }
    }

    /** The whole run. The client receives the transcript, cut off where it disconnected. */
    method Run(chunks: seq<ChunkResult>) returns (completed: bool)
      requires Valid() && sent == [] && buffer == ""
      requires Abs() == Initial(env.id, env.model).(out := [])
      modifies this
      ensures var whole := RunTranscript(env, chunks);
        sent == if |whole| <= room then whole else whole[..room]
      ensures usageAccumulator == finalUsage
      ensures completed ==> usageAccumulator == RunState(env, chunks).usage
    {
      ghost var whole := RunTranscript(env, chunks);
      RunStartsWithGreeting(env, chunks);
      completed := Greet();
      if completed {
        completed := ReadChunks(chunks);
        if completed {
          completed := Close();
        }
      }
      assert sent <= whole && (!completed ==> |sent| == room);
      usageAccumulator := finalUsage;
    }
  }

  lemma RunStartsWithGreeting(env: Env, chunks: seq<ChunkResult>)
    ensures [MessageStart(env.id, env.model), Ping] <= RunState(env, chunks).out <= RunTranscript(env, chunks)
  {
    FoldExtends(Initial(env.id, env.model), RunOps(env, chunks), env.genId);
    var s := RunState(env, chunks);
    assert s.out <= s.out + TextStop(s) <= Stopped(s) <= Stopped(s) + EmptyPair(s) <= Transcript(s);
  }

  // ---- Facts about the specification that the loops use -------------------------------------

  lemma AppendedIsFound(tools: seq<ToolCall>, t: ToolCall)
    requires FindTool(tools, t.index).None?
    ensures FindTool(tools + [t], t.index) == Some(|tools|)
  {
    var all := tools + [t];
    assert all[|tools|] == t;
    assert forall i :: 0 <= i < |tools| ==> all[i] == tools[i];
  }

  lemma FoldOne(s: State, op: Op, genId: nat -> string)
    ensures Fold(s, [op], genId) == Step(s, op, genId)
  {
    assert [op][..0] == [];
    assert Fold(s, [], genId) == s;
  }

  /** Carrying out `now` and then `rest`; what is out after `now` stays out. */
  lemma Continue(s: State, now: seq<Op>, rest: seq<Op>, genId: nat -> string)
    ensures Fold(s, now + rest, genId) == Fold(Fold(s, now, genId), rest, genId)
    ensures Fold(s, now, genId).out <= Fold(s, now + rest, genId).out
  {
    FoldConcat(s, now, rest, genId);
    FoldExtends(Fold(s, now, genId), rest, genId);
  }
}
