/**
 * Every run of the translator emits a grammatical stream: an invariant ties its flags and its table to the blocks
 * the stream has opened, every operation keeps it, and the closing events complete the stream.
 */
module StreamSafety {
  import opened Wrappers
  import opened StreamLines
  import opened StreamModel
  import opened StreamGrammar

  // ---- The invariant ----------------------------------------------------------------------

  ghost predicate DistinctTools(tools: seq<ToolCall>) {
    forall i, j :: 0 <= i < j < |tools| ==>
      tools[i].index != tools[j].index && tools[i].blockIndex != tools[j].blockIndex
  }

  ghost predicate ToolHasOpenBlock(tools: seq<ToolCall>, b: nat) {
    exists j :: 0 <= j < |tools| && tools[j].started && tools[j].blockIndex == b
  }

  /** The block indices that flags and table consider open are the ones the stream left open. */
  ghost predicate OpenBlocksAgree(s: State, r: Reader) {
    && (forall b: nat :: Holds(r, b, TextKind) <==> s.textOpen && s.textIndex == Some(b))
    && (forall b: nat :: Holds(r, b, ToolKind) <==> ToolHasOpenBlock(s.tools, b))
  }

  ghost predicate IndicesAgree(s: State, r: Reader) {
    && DistinctTools(s.tools)
    && (forall b: nat :: b in r.used ==> b < s.next)
    && (forall j :: 0 <= j < |s.tools| ==>
         s.tools[j].blockIndex < s.next && s.textIndex != Some(s.tools[j].blockIndex)
         && (!s.tools[j].started ==> s.tools[j].blockIndex !in r.used && s.tools[j].name == ""))
    && (s.textOpen ==> s.textIndex.Some?)
    && (s.textIndex.Some? ==> s.textIndex.value < s.next)
    && (s.tools == [] ==> s.textIndex.Some? == s.textOpen && r.used == (if s.textOpen then {s.textIndex.value} else {}))
  }

  ghost predicate Invariant(s: State) {
    var r := Read(NewReader, s.out);
    r.phase == InBlocks && OpenBlocksAgree(s, r) && IndicesAgree(s, r)
  }

  lemma InitialInvariant(id: string, model: string)
    ensures Invariant(Initial(id, model))
  {
    var out := Initial(id, model).out;
    assert out == [out[0]] + [out[1]];
    ReadConcat(NewReader, [out[0]], [out[1]]);
    ReadOne(NewReader, out[0]);
    ReadOne(ReadEvent(NewReader, out[0]), out[1]);
  }

  lemma ReadAppend(out: seq<Event>, e: Event)
    ensures Read(NewReader, out + [e]) == ReadEvent(Read(NewReader, out), e)
  {
    ReadConcat(NewReader, out, [e]);
    ReadOne(Read(NewReader, out), e);
  }

  lemma TextKeepsInvariant(s: State, text: string)
    requires Invariant(s)
    ensures Invariant(StepText(s, text))
  {
    if text != "" && !s.textOpen {
      ReadAppend(s.out, BlockStart(s.next, TextBlock));
      ReadAppend(s.out + [BlockStart(s.next, TextBlock)], BlockDelta(s.next, TextDelta(text)));
    } else if text != "" {
      assert Holds(Read(NewReader, s.out), s.textIndex.value, TextKind);
      ReadAppend(s.out, BlockDelta(s.textIndex.value, TextDelta(text)));
    }
  }

  lemma EnsureToolKeepsInvariant(s: State, index: nat)
    requires Invariant(s)
    ensures Invariant(EnsureTool(s, index))
  {
    var r := Read(NewReader, s.out);
    if FindTool(s.tools, index).None? {
      var e := EnsureTool(s, index);
      if s.textOpen && s.tools == [] {
        assert Holds(r, s.textIndex.value, TextKind);
        ReadAppend(s.out, BlockStop(s.textIndex.value));
      }
      var r' := Read(NewReader, e.out);
      forall b: nat ensures Holds(r', b, TextKind) <==> e.textOpen && e.textIndex == Some(b) {
        assert Holds(r, b, TextKind) <==> s.textOpen && s.textIndex == Some(b);
      }
      forall b: nat ensures ToolHasOpenBlock(e.tools, b) <==> ToolHasOpenBlock(s.tools, b) {
        if ToolHasOpenBlock(s.tools, b) {
          var j :| 0 <= j < |s.tools| && s.tools[j].started && s.tools[j].blockIndex == b;
          assert e.tools[j] == s.tools[j];
        }
      }
      assert s.next !in r'.used;
    }
  }

  /** The recogniser after entry `t` became `m`. */
  function ReaderAfterMerge(r: Reader, t: ToolCall, m: ToolCall): Reader {
    if m.started && !t.started
    then r.(open := r.open[m.blockIndex := ToolKind], used := r.used + {m.blockIndex}) else r
  }

  lemma StartIsRead(out: seq<Event>, t: ToolCall, m: ToolCall)
    requires var r := Read(NewReader, out); r.phase == InBlocks && (!t.started ==> m.blockIndex !in r.used)
    ensures Read(NewReader, out + StartEvents(t, m)) == ReaderAfterMerge(Read(NewReader, out), t, m)
  {
    if m.started && !t.started {
      ReadAppend(out, BlockStart(m.blockIndex, ToolUse(m.id, m.name)));
    } else {
      assert out + StartEvents(t, m) == out;
    }
  }

  lemma ArgumentsAreRead(out: seq<Event>, m: ToolCall, d: ToolDelta)
    requires Read(NewReader, out).phase == InBlocks && (m.started ==> Holds(Read(NewReader, out), m.blockIndex, ToolKind))
    ensures Read(NewReader, out + ArgumentEvents(m, d)) == Read(NewReader, out)
  {
    if m.started && d.Arguments() != "" {
      ReadAppend(out, BlockDelta(m.blockIndex, InputJsonDelta(d.Arguments())));
    } else {
      assert out + ArgumentEvents(m, d) == out;
    }
  }

  lemma MergeIsRead(s: State, i: nat, d: ToolDelta, genId: nat -> string)
    requires Invariant(s) && i < |s.tools|
    ensures Read(NewReader, MergeAt(s, i, d, genId).out)
         == ReaderAfterMerge(Read(NewReader, s.out), s.tools[i], MergeTool(s.tools[i], d, genId))
  {
    var t, m := s.tools[i], MergeTool(s.tools[i], d, genId);
    var started := s.out + StartEvents(t, m);
    StartIsRead(s.out, t, m);
    if t.started {
      assert ToolHasOpenBlock(s.tools, t.blockIndex);
      assert Holds(Read(NewReader, s.out), t.blockIndex, ToolKind);
    }
    ArgumentsAreRead(started, m, d);
    assert MergeAt(s, i, d, genId).out == started + ArgumentEvents(m, d);
  }

  lemma MergeOpensAtMost(tools: seq<ToolCall>, i: nat, m: ToolCall, b: nat)
    requires i < |tools| && m.blockIndex == tools[i].blockIndex && (tools[i].started ==> m.started)
    ensures ToolHasOpenBlock(tools[i := m], b) <==> ToolHasOpenBlock(tools, b) || (m.started && b == m.blockIndex)
  {
    var tools' := tools[i := m];
    if ToolHasOpenBlock(tools, b) {
      var j :| 0 <= j < |tools| && tools[j].started && tools[j].blockIndex == b;
      assert tools'[j].started && tools'[j].blockIndex == b;
    }
    if m.started && b == m.blockIndex { assert tools'[i] == m; }
  }

  lemma MergeKeepsInvariant(s: State, i: nat, d: ToolDelta, genId: nat -> string)
    requires Invariant(s) && i < |s.tools|
    ensures Invariant(MergeAt(s, i, d, genId))
  {
    var m, s' := MergeTool(s.tools[i], d, genId), MergeAt(s, i, d, genId);
    MergeIsRead(s, i, d, genId);
    forall b: nat { MergeOpensAtMost(s.tools, i, m, b); }
    MergeOpenBlocks(s, s', Read(NewReader, s.out), Read(NewReader, s'.out), i);
  }

  lemma MergeOpenBlocks(s: State, s': State, r: Reader, r1: Reader, i: nat)
    requires OpenBlocksAgree(s, r) && IndicesAgree(s, r) && i < |s.tools|
    requires s' == s.(tools := s'.tools, out := s'.out)
    requires |s'.tools| == |s.tools| && s'.tools == s.tools[i := s'.tools[i]]
    requires var t, m := s.tools[i], s'.tools[i];
      && m.blockIndex == t.blockIndex && m.index == t.index && (t.started ==> m.started)
      && (!m.started ==> m.name == "")
      && r1 == ReaderAfterMerge(r, t, m)
    requires forall b: nat :: ToolHasOpenBlock(s'.tools, b) <==>
      ToolHasOpenBlock(s.tools, b) || (s'.tools[i].started && b == s'.tools[i].blockIndex)
    ensures OpenBlocksAgree(s', r1) && IndicesAgree(s', r1)
  {
    var b := s.tools[i].blockIndex;
    if s.tools[i].started { assert ToolHasOpenBlock(s.tools, b); }
    forall c: nat ensures Holds(r1, c, TextKind) <==> s'.textOpen && s'.textIndex == Some(c) {
      assert Holds(r, c, TextKind) <==> s.textOpen && s.textIndex == Some(c);
    }
  }

  lemma StepKeepsInvariant(s: State, op: Op, genId: nat -> string)
    requires Invariant(s)
    ensures Invariant(Step(s, op, genId))
  {
    match op
    case SetUsage(_) =>
    case Finish(_) =>
    case Text(text) => TextKeepsInvariant(s, text);
    case Tool(d) =>
      EnsureToolKeepsInvariant(s, d.Index());
      var e := EnsureTool(s, d.Index());
      MergeKeepsInvariant(e, FindTool(e.tools, d.Index()).value, d, genId);
  }

  lemma {:induction false} FoldKeepsInvariant(s: State, ops: seq<Op>, genId: nat -> string)
    requires Invariant(s)
    ensures Invariant(Fold(s, ops, genId))
  {
    if ops != [] {
      FoldKeepsInvariant(s, ops[..|ops| - 1], genId);
      StepKeepsInvariant(Fold(s, ops[..|ops| - 1], genId), ops[|ops| - 1], genId);
    }
  }

  // ---- Closing ----------------------------------------------------------------------------

  /** Block indices of the started tool calls. */
  function OpenTools(tools: seq<ToolCall>): set<nat> {
    if tools == [] then {}
    else (if tools[0].started then {tools[0].blockIndex} else {}) + OpenTools(tools[1..])
  }

  lemma {:induction false} OpenToolsHaveBlocks(tools: seq<ToolCall>, b: nat)
    ensures b in OpenTools(tools) <==> ToolHasOpenBlock(tools, b)
  {
    if tools != [] {
      var t, rest := tools[0], tools[1..];
      OpenToolsHaveBlocks(rest, b);
      if ToolHasOpenBlock(rest, b) {
        var j :| 0 <= j < |rest| && rest[j].started && rest[j].blockIndex == b;
        assert tools[j + 1] == rest[j];
      }
      if ToolHasOpenBlock(tools, b) && !(t.started && t.blockIndex == b) {
        var j :| 0 <= j < |tools| && tools[j].started && tools[j].blockIndex == b;
        assert rest[j - 1] == tools[j];
      }
    }
  }

  /** Stopping the started tools one after the other removes exactly their blocks. */
  lemma {:induction false} ToolStopsClose(tools: seq<ToolCall>, r: Reader)
    requires DistinctTools(tools) && r.phase == InBlocks
    requires OpenTools(tools) <= r.open.Keys
    ensures Read(r, ToolStops(tools)) == r.(open := r.open - OpenTools(tools))
  {
    if tools == [] {
      assert r.open - {} == r.open;
    } else {
      var t, rest := tools[0], tools[1..];
      assert DistinctTools(rest) by {
        forall i, j | 0 <= i < j < |rest| ensures rest[i].index != rest[j].index && rest[i].blockIndex != rest[j].blockIndex {
          assert rest[i] == tools[i + 1] && rest[j] == tools[j + 1];
        }
      }
      if t.started {
        var r1 := ReadEvent(r, BlockStop(t.blockIndex));
        OpenToolsHaveBlocks(rest, t.blockIndex);
        ToolStopsClose(rest, r1);
        ReadConcat(r, [BlockStop(t.blockIndex)], ToolStops(rest));
        ReadOne(r, BlockStop(t.blockIndex));
        assert (r.open - {t.blockIndex}) - OpenTools(rest) == r.open - OpenTools(tools);
      } else {
        ToolStopsClose(rest, r);
        assert ToolStops(tools) == ToolStops(rest);
        assert OpenTools(tools) == OpenTools(rest);
      }
    }
  }

  lemma TextStopCloses(s: State)
    requires Invariant(s)
    ensures var r, r1 := Read(NewReader, s.out), Read(NewReader, s.out + TextStop(s));
      && r1.phase == InBlocks && r1.used == r.used
      && forall b: nat, k :: Holds(r1, b, k) <==> Holds(r, b, k) && k == ToolKind
  {
    var r := Read(NewReader, s.out);
    if s.textOpen {
      assert Holds(r, s.textIndex.value, TextKind);
      ReadAppend(s.out, BlockStop(s.textIndex.value));
      forall b: nat, k ensures Holds(r.(open := r.open - {s.textIndex.value}), b, k) <==> Holds(r, b, k) && k == ToolKind {
        if k == TextKind { assert Holds(r, b, k) <==> s.textIndex == Some(b); }
      }
    } else {
      assert s.out + TextStop(s) == s.out;
      forall b: nat, k ensures Holds(r, b, k) ==> k == ToolKind {}
    }
  }

  /** After the text block and the tool blocks have been stopped, nothing is open. */
  lemma StopsCloseEverything(s: State)
    requires Invariant(s)
    ensures var r, r2 := Read(NewReader, s.out), Read(NewReader, Stopped(s));
      r2.phase == InBlocks && r2.used == r.used && r2.open == map[]
  {
    var r := Read(NewReader, s.out);
    TextStopCloses(s);
    var out1 := s.out + TextStop(s);
    var r1 := Read(NewReader, out1);
    forall b: nat ensures b in OpenTools(s.tools) <==> b in r1.open {
      OpenToolsHaveBlocks(s.tools, b);
      assert Holds(r, b, ToolKind) <==> ToolHasOpenBlock(s.tools, b);
      assert Holds(r1, b, ToolKind) <==> Holds(r, b, ToolKind);
      assert !Holds(r1, b, TextKind);
    }
    ToolStopsClose(s.tools, r1);
    ReadConcat(NewReader, out1, ToolStops(s.tools));
  }

  lemma EndingIsAccepted(out: seq<Event>, s: State)
    requires Read(NewReader, out).phase == InBlocks && Read(NewReader, out).open == map[]
    ensures Grammatical(out + Ending(s))
  {
    var end := Ending(s);
    ReadAppend(out, end[0]);
    ReadAppend(out + [end[0]], end[1]);
    assert out + end == (out + [end[0]]) + [end[1]];
  }

  lemma EmptyPairNeedsFreshIndex(s: State)
    requires Invariant(s)
    ensures !s.textOpen && s.tools == [] ==> Read(NewReader, s.out).used == {}
  {
  }

  lemma ClosingIsAccepted(s: State)
    requires Invariant(s)
    ensures Grammatical(Transcript(s))
  {
    StopsCloseEverything(s);
    EmptyPairNeedsFreshIndex(s);
    EmptyPairIsAccepted(s, Stopped(s), Read(NewReader, Stopped(s)));
    EndingIsAccepted(Stopped(s) + EmptyPair(s), s);
  }

  lemma EmptyPairIsAccepted(s: State, out: seq<Event>, r: Reader)
    requires r == Read(NewReader, out) && r.phase == InBlocks && r.open == map[]
    requires !s.textOpen && s.tools == [] ==> r.used == {}
    ensures Read(NewReader, out + EmptyPair(s)).phase == InBlocks
    ensures Read(NewReader, out + EmptyPair(s)).open == map[]
  {
    if !s.textOpen && s.tools == [] {
      ReadAppend(out, BlockStart(0, TextBlock));
      ReadAppend(out + [BlockStart(0, TextBlock)], BlockStop(0));
      assert out + EmptyPair(s) == (out + [BlockStart(0, TextBlock)]) + [BlockStop(0)];
    } else {
      assert out + EmptyPair(s) == out;
    }
  }

  /** Stream grammar: whatever the backend sends, and wherever it breaks off, the complete stream
      is message_start, ping, anchored block events, message_delta, message_stop. */
  lemma StreamIsGrammatical(env: Env, chunks: seq<ChunkResult>)
    ensures Grammatical(RunTranscript(env, chunks))
    ensures WellFormedByPosition(RunTranscript(env, chunks))
  {
    InitialInvariant(env.id, env.model);
    FoldKeepsInvariant(Initial(env.id, env.model), RunOps(env, chunks), env.genId);
    ClosingIsAccepted(RunState(env, chunks));
    GrammarMeaning(RunTranscript(env, chunks));
  }
}
