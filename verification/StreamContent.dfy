/**
 * No content is lost: the text deltas carry all text, and the deltas of each tool block carry
 * the argument fragments of that tool call from the delta on at which its name became known. There are at most two
 * text blocks, no block at all exactly when the backend sent only nameless tool calls, and the end reports the last
 * finish reason and count.
 */
module StreamContent {
  import opened Wrappers
  import opened StreamLines
  import opened StreamModel
  import opened StreamGrammar
  import opened StreamSafety

  // ---- What the backend sent ----------------------------------------------------------------

  /** All text, over all choices, in order. */
  function SentText(ops: seq<Op>): string {
    if ops == [] then ""
    else
      var op := ops[|ops| - 1];
      SentText(ops[..|ops| - 1]) + (if op.Text? then op.text else "")
  }

  /** All deltas for tool call `k`, in order. */
  function DeltasOf(ops: seq<Op>, k: nat): seq<ToolDelta> {
    if ops == [] then []
    else
      var op := ops[|ops| - 1];
      DeltasOf(ops[..|ops| - 1], k) + (if op.Tool? && op.delta.Index() == k then [op.delta] else [])
  }

  function Names(ds: seq<ToolDelta>): string {
    if ds == [] then "" else Names(ds[..|ds| - 1]) + ds[|ds| - 1].Name()
  }

  function AllArguments(ds: seq<ToolDelta>): string {
    if ds == [] then "" else AllArguments(ds[..|ds| - 1]) + ds[|ds| - 1].Arguments()
  }

  /** The argument fragments from the delta on at which the name first became non-empty. */
  function ArgumentsFromName(ds: seq<ToolDelta>): string {
    if Names(ds) == "" || ds == [] then ""
    else ArgumentsFromName(ds[..|ds| - 1]) + ds[|ds| - 1].Arguments()
  }

  /** The last id sent, empty if there was none. */
  function LastId(ds: seq<ToolDelta>): string {
    if ds == [] then "" else ds[|ds| - 1].id.GetOr(LastId(ds[..|ds| - 1]))
  }

  /** The deltas up to the one at which the name first became non-empty. */
  function UntilNamed(ds: seq<ToolDelta>): seq<ToolDelta> {
    if ds == [] || Names(ds[..|ds| - 1]) == "" then ds else UntilNamed(ds[..|ds| - 1])
  }

  /** The tool_use block that announces the call: the id and the name known by then. */
  function Announcement(ds: seq<ToolDelta>, b: nat, genId: nat -> string): Block {
    var known := UntilNamed(ds);
    ToolUse(if LastId(known) == "" then genId(b) else LastId(known), Names(known))
  }

  // ---- What the client got ------------------------------------------------------------------

  function TextPart(e: Event): string {
    if e.BlockDelta? && e.payload.TextDelta? then e.payload.text else ""
  }

  function JsonPart(e: Event, b: nat): string {
    if e.BlockDelta? && e.index == b && e.payload.InputJsonDelta? then e.payload.json else ""
  }

  function ReceivedText(es: seq<Event>): string {
    if es == [] then "" else ReceivedText(es[..|es| - 1]) + TextPart(es[|es| - 1])
  }

  function ReceivedJson(es: seq<Event>, b: nat): string {
    if es == [] then "" else ReceivedJson(es[..|es| - 1], b) + JsonPart(es[|es| - 1], b)
  }

  lemma {:induction false} ReceivedTextConcat(a: seq<Event>, c: seq<Event>)
    ensures ReceivedText(a + c) == ReceivedText(a) + ReceivedText(c)
  {
    if c == [] {
      assert a + c == a;
    } else {
      assert (a + c)[..|a + c| - 1] == a + c[..|c| - 1];
      ReceivedTextConcat(a, c[..|c| - 1]);
    }
  }

  lemma {:induction false} ReceivedJsonConcat(a: seq<Event>, c: seq<Event>, b: nat)
    ensures ReceivedJson(a + c, b) == ReceivedJson(a, b) + ReceivedJson(c, b)
  {
    if c == [] {
      assert a + c == a;
    } else {
      assert (a + c)[..|a + c| - 1] == a + c[..|c| - 1];
      ReceivedJsonConcat(a, c[..|c| - 1], b);
    }
  }

  lemma ReceivedAppend(a: seq<Event>, e: Event, b: nat)
    ensures ReceivedText(a + [e]) == ReceivedText(a) + TextPart(e)
    ensures ReceivedJson(a + [e], b) == ReceivedJson(a, b) + JsonPart(e, b)
  {
    assert (a + [e])[..|a + [e]| - 1] == a;
  }

  lemma {:induction false} NoDeltasNoContent(es: seq<Event>, b: nat)
    requires forall i :: 0 <= i < |es| ==> !es[i].BlockDelta?
    ensures ReceivedText(es) == "" && ReceivedJson(es, b) == ""
  {
    if es != [] { NoDeltasNoContent(es[..|es| - 1], b); }
  }

  lemma {:induction false} ToolStopsAreStops(tools: seq<ToolCall>)
    ensures forall i :: 0 <= i < |ToolStops(tools)| ==> ToolStops(tools)[i].BlockStop?
  {
    if tools != [] { ToolStopsAreStops(tools[1..]); }
  }

  // ---- Text ---------------------------------------------------------------------------------

  lemma TextStepContent(s: State, text: string, b: nat)
    ensures ReceivedText(StepText(s, text).out) == ReceivedText(s.out) + text
    ensures ReceivedJson(StepText(s, text).out, b) == ReceivedJson(s.out, b)
  {
    if text != "" {
      ReceivedAppend(s.out, BlockStart(s.next, TextBlock), b);
      var ready := OpenText(s);
      ReceivedAppend(ready.out, BlockDelta(ready.textIndex.GetOr(0), TextDelta(text)), b);
    }
  }

  lemma EnsureToolContent(s: State, k: nat, b: nat)
    ensures ReceivedText(EnsureTool(s, k).out) == ReceivedText(s.out)
    ensures ReceivedJson(EnsureTool(s, k).out, b) == ReceivedJson(s.out, b)
  {
    ReceivedAppend(s.out, BlockStop(s.textIndex.GetOr(0)), b);
  }

  lemma StepKeepsText(s: State, op: Op, genId: nat -> string)
    ensures ReceivedText(Step(s, op, genId).out) == ReceivedText(s.out) + (if op.Text? then op.text else "")
  {
    if op.Text? {
      TextStepContent(s, op.text, 0);
    } else if op.Tool? {
      var e := EnsureTool(s, op.delta.Index());
      EnsureToolContent(s, op.delta.Index(), 0);
      ToolEventsCarryNoText(e, FindTool(e.tools, op.delta.Index()).value, op.delta, genId);
    }
  }

  lemma StartEventsContent(t: ToolCall, m: ToolCall, b: nat)
    ensures ReceivedText(StartEvents(t, m)) == "" && ReceivedJson(StartEvents(t, m), b) == ""
  {
    NoDeltasNoContent(StartEvents(t, m), b);
  }

  lemma ArgumentEventsContent(m: ToolCall, d: ToolDelta, b: nat)
    ensures ReceivedText(ArgumentEvents(m, d)) == ""
    ensures ReceivedJson(ArgumentEvents(m, d), b) == if b == m.blockIndex && m.started then d.Arguments() else ""
  {
    if m.started && d.Arguments() != "" {
      var e := BlockDelta(m.blockIndex, InputJsonDelta(d.Arguments()));
      ReceivedAppend([], e, b);
      assert [] + [e] == [e];
    }
  }

  lemma ToolEventsContent(t: ToolCall, m: ToolCall, d: ToolDelta, b: nat)
    ensures ReceivedText(ToolEvents(t, m, d)) == ""
    ensures ReceivedJson(ToolEvents(t, m, d), b) == if b == m.blockIndex && m.started then d.Arguments() else ""
  {
    StartEventsContent(t, m, b);
    ArgumentEventsContent(m, d, b);
    ReceivedTextConcat(StartEvents(t, m), ArgumentEvents(m, d));
    ReceivedJsonConcat(StartEvents(t, m), ArgumentEvents(m, d), b);
  }

  lemma ToolEventsCarryNoText(e: State, i: nat, d: ToolDelta, genId: nat -> string)
    requires i < |e.tools|
    ensures ReceivedText(MergeAt(e, i, d, genId).out) == ReceivedText(e.out)
  {
    var m := MergeTool(e.tools[i], d, genId);
    ReceivedTextConcat(e.out, ToolEvents(e.tools[i], m, d));
    ToolEventsContent(e.tools[i], m, d, 0);
  }

  lemma {:induction false} FoldKeepsText(s: State, ops: seq<Op>, genId: nat -> string)
    ensures ReceivedText(Fold(s, ops, genId).out) == ReceivedText(s.out) + SentText(ops)
  {
    if ops != [] {
      FoldKeepsText(s, ops[..|ops| - 1], genId);
      StepKeepsText(Fold(s, ops[..|ops| - 1], genId), ops[|ops| - 1], genId);
    }
  }

  lemma ExtraContent(es: seq<Event>, more: seq<Event>, b: nat)
    requires forall i :: 0 <= i < |more| ==> !more[i].BlockDelta?
    ensures ReceivedText(es + more) == ReceivedText(es)
    ensures ReceivedJson(es + more, b) == ReceivedJson(es, b)
  {
    NoDeltasNoContent(more, b);
    ReceivedTextConcat(es, more);
    ReceivedJsonConcat(es, more, b);
  }

  lemma TranscriptContent(s: State, b: nat)
    ensures ReceivedText(Transcript(s)) == ReceivedText(s.out)
    ensures ReceivedJson(Transcript(s), b) == ReceivedJson(s.out, b)
  {
    ToolStopsAreStops(s.tools);
    ExtraContent(s.out, TextStop(s), b);
    ExtraContent(s.out + TextStop(s), ToolStops(s.tools), b);
    ExtraContent(Stopped(s), EmptyPair(s), b);
    ExtraContent(Stopped(s) + EmptyPair(s), Ending(s), b);
  }

  lemma InitialContent(id: string, model: string, b: nat)
    ensures ReceivedText(Initial(id, model).out) == ""
    ensures ReceivedJson(Initial(id, model).out, b) == ""
  {
    NoDeltasNoContent(Initial(id, model).out, b);
  }

  /** The concatenated text deltas are the concatenated text of all choices. */
  lemma TextIsConserved(env: Env, chunks: seq<ChunkResult>)
    ensures ReceivedText(RunTranscript(env, chunks)) == SentText(RunOps(env, chunks))
  {
    InitialContent(env.id, env.model, 0);
    FoldKeepsText(Initial(env.id, env.model), RunOps(env, chunks), env.genId);
    TranscriptContent(RunState(env, chunks), 0);
  }

  // ---- Tool calls ---------------------------------------------------------------------------

  /** Table entry `t` and the emitted events reflect exactly the deltas `ds`. */
  ghost predicate ToolFact(out: seq<Event>, t: ToolCall, ds: seq<ToolDelta>, genId: nat -> string) {
    && t.name == Names(ds)
    && t.arguments == AllArguments(ds)
    && (t.started <==> Names(ds) != "")
    && (!t.started ==> t.id == LastId(ds))
    && ReceivedJson(out, t.blockIndex) == ArgumentsFromName(ds)
    && (t.started ==> BlockStart(t.blockIndex, Announcement(ds, t.blockIndex, genId)) in out)
  }

  ghost predicate EntriesReflect(s: State, ops: seq<Op>, genId: nat -> string) {
    forall j :: 0 <= j < |s.tools| ==> ToolFact(s.out, s.tools[j], DeltasOf(ops, s.tools[j].index), genId)
  }

  ghost predicate FreshBlocksEmpty(s: State) {
    forall b: nat :: s.next <= b ==> ReceivedJson(s.out, b) == ""
  }

  ghost predicate AbsentMeansUnsent(s: State, ops: seq<Op>) {
    forall k: nat :: FindTool(s.tools, k).None? ==> DeltasOf(ops, k) == []
  }

  /** Every table entry reflects the deltas sent for its index, and unallocated blocks are empty. */
  ghost predicate ToolFacts(s: State, ops: seq<Op>, genId: nat -> string) {
    EntriesReflect(s, ops, genId) && FreshBlocksEmpty(s) && AbsentMeansUnsent(s, ops)
  }

  /** Events that carry no json for the allocated blocks leave all facts alone. */
  lemma FactsSurvive(s: State, s': State, ops: seq<Op>, genId: nat -> string)
    requires ToolFacts(s, ops, genId)
    requires s'.tools == s.tools && s.next <= s'.next && s.out <= s'.out
    requires forall b: nat :: ReceivedJson(s'.out, b) == ReceivedJson(s.out, b)
    ensures ToolFacts(s', ops, genId)
  {
    assert forall e :: e in s.out ==> e in s'.out by {
      forall e | e in s.out ensures e in s'.out {
        var i :| 0 <= i < |s.out| && s.out[i] == e;
        assert s'.out[i] == e;
      }
    }
  }

  lemma TextKeepsFacts(s: State, text: string, ops: seq<Op>, genId: nat -> string)
    requires ToolFacts(s, ops, genId)
    ensures ToolFacts(StepText(s, text), ops, genId)
  {
    forall b: nat { TextStepContent(s, text, b); }
    FactsSurvive(s, StepText(s, text), ops, genId);
  }

  lemma FindToolAppend(tools: seq<ToolCall>, t: ToolCall, k: nat)
    ensures FindTool(tools + [t], k).None? <==> FindTool(tools, k).None? && t.index != k
  {
    var all := tools + [t];
    if FindTool(all, k).None? {
      assert all[|tools|].index != k;
      forall i | 0 <= i < |tools| ensures tools[i].index != k { assert all[i].index != k; }
    }
  }

  lemma CloseTextKeepsFacts(s: State, ops: seq<Op>, genId: nat -> string)
    requires ToolFacts(s, ops, genId)
    ensures ToolFacts(CloseText(s), ops, genId)
  {
    forall b: nat { ReceivedAppend(s.out, BlockStop(s.textIndex.GetOr(0)), b); }
    FactsSurvive(s, CloseText(s), ops, genId);
  }

  lemma NewEntryKeepsFacts(s: State, k: nat, ops: seq<Op>, genId: nat -> string)
    requires ToolFacts(s, ops, genId) && FindTool(s.tools, k).None?
    ensures ToolFacts(s.(next := s.next + 1, tools := s.tools + [ToolCall(k, "", "", "", s.next, false)]), ops, genId)
  {
    var t := ToolCall(k, "", "", "", s.next, false);
    assert DeltasOf(ops, k) == [];
    assert ToolFact(s.out, t, DeltasOf(ops, k), genId);
    forall j: nat { FindToolAppend(s.tools, t, j); }
  }

  lemma EnsureKeepsFacts(s: State, k: nat, ops: seq<Op>, genId: nat -> string)
    requires ToolFacts(s, ops, genId)
    ensures ToolFacts(EnsureTool(s, k), ops, genId)
  {
    if FindTool(s.tools, k).None? {
      CloseTextKeepsFacts(s, ops, genId);
      NewEntryKeepsFacts(CloseText(s), k, ops, genId);
    }
  }

  lemma {:induction false} FindToolUpdate(tools: seq<ToolCall>, i: nat, m: ToolCall, k: nat)
    requires i < |tools| && m.index == tools[i].index
    ensures FindTool(tools[i := m], k) == FindTool(tools, k)
  {
    if i == 0 {
      assert tools[i := m][1..] == tools[1..];
    } else if tools[0].index != k {
      assert tools[i := m][1..] == tools[1..][i - 1 := m];
      FindToolUpdate(tools[1..], i - 1, m, k);
    }
  }

  /** Merging delta `d` into an entry that reflects `ds` gives an entry that reflects `ds + [d]`. */
  lemma MergeReflects(out: seq<Event>, t: ToolCall, ds: seq<ToolDelta>, d: ToolDelta, genId: nat -> string)
    requires ToolFact(out, t, ds, genId)
    ensures var m := MergeTool(t, d, genId);
      ToolFact(out + ToolEvents(t, m, d), m, ds + [d], genId)
  {
    var m := MergeTool(t, d, genId);
    var events, all := ToolEvents(t, m, d), ds + [d];
    assert all[..|all| - 1] == ds && all[|all| - 1] == d;
    ReceivedJsonConcat(out, events, m.blockIndex);
    ToolEventsContent(t, m, d, m.blockIndex);
    var started := BlockStart(m.blockIndex, Announcement(all, m.blockIndex, genId));
    if m.started && !t.started {
      assert UntilNamed(all) == all;
      assert events[0] == started;
      assert (out + events)[|out|] == started;
    } else if m.started {
      assert UntilNamed(all) == UntilNamed(ds);
      var p :| 0 <= p < |out| && out[p] == started;
      assert (out + events)[p] == started;
    }
  }

  lemma MergedJson(s: State, i: nat, d: ToolDelta, genId: nat -> string, b: nat)
    requires i < |s.tools|
    ensures var m := MergeTool(s.tools[i], d, genId);
      ReceivedJson(MergeAt(s, i, d, genId).out, b)
        == ReceivedJson(s.out, b) + (if b == m.blockIndex && m.started then d.Arguments() else "")
  {
    var m := MergeTool(s.tools[i], d, genId);
    ReceivedJsonConcat(s.out, ToolEvents(s.tools[i], m, d), b);
    ToolEventsContent(s.tools[i], m, d, b);
  }

  lemma InPrefix(a: seq<Event>, b: seq<Event>, e: Event)
    ensures e in a ==> e in a + b
  {
    if e in a { var p :| 0 <= p < |a| && a[p] == e; assert (a + b)[p] == e; }
  }

  /** An entry whose block got no json keeps reflecting its deltas. */
  lemma FactSurvives(out: seq<Event>, more: seq<Event>, t: ToolCall, ds: seq<ToolDelta>, genId: nat -> string)
    requires ToolFact(out, t, ds, genId)
    requires ReceivedJson(out + more, t.blockIndex) == ReceivedJson(out, t.blockIndex)
    ensures ToolFact(out + more, t, ds, genId)
  {
    InPrefix(out, more, BlockStart(t.blockIndex, Announcement(ds, t.blockIndex, genId)));
  }

  lemma DeltasAppend(ops: seq<Op>, op: Op, k: nat)
    ensures DeltasOf(ops + [op], k)
         == if op.Tool? && op.delta.Index() == k then DeltasOf(ops, k) + [op.delta] else DeltasOf(ops, k)
  {
    assert (ops + [op])[..|ops + [op]| - 1] == ops;
  }

  lemma MergeKeepsEntries(s: State, i: nat, d: ToolDelta, ops: seq<Op>, genId: nat -> string)
    requires DistinctTools(s.tools) && EntriesReflect(s, ops, genId) && i < |s.tools| && s.tools[i].index == d.Index()
    ensures EntriesReflect(MergeAt(s, i, d, genId), ops + [Tool(d)], genId)
  {
    var s', all := MergeAt(s, i, d, genId), ops + [Tool(d)];
    forall j | 0 <= j < |s'.tools| ensures ToolFact(s'.out, s'.tools[j], DeltasOf(all, s'.tools[j].index), genId) {
      var u := s.tools[j];
      DeltasAppend(ops, Tool(d), u.index);
      assert ToolFact(s.out, u, DeltasOf(ops, u.index), genId);
      if j == i {
        MergeReflects(s.out, u, DeltasOf(ops, u.index), d, genId);
      } else {
        OtherToolUnaffected(s, i, j);
        MergedJson(s, i, d, genId, u.blockIndex);
        FactSurvives(s.out, ToolEvents(s.tools[i], MergeTool(s.tools[i], d, genId), d), u, DeltasOf(ops, u.index), genId);
      }
    }
  }

  lemma MergeKeepsAbsence(s: State, i: nat, d: ToolDelta, ops: seq<Op>, genId: nat -> string)
    requires AbsentMeansUnsent(s, ops) && i < |s.tools| && s.tools[i].index == d.Index()
    ensures AbsentMeansUnsent(MergeAt(s, i, d, genId), ops + [Tool(d)])
  {
    var s' := MergeAt(s, i, d, genId);
    forall k: nat | FindTool(s'.tools, k).None? ensures DeltasOf(ops + [Tool(d)], k) == [] {
      FindToolUpdate(s.tools, i, MergeTool(s.tools[i], d, genId), k);
      assert s.tools[i].index != k;
      DeltasAppend(ops, Tool(d), k);
    }
  }

  lemma MergeKeepsFacts(s: State, i: nat, d: ToolDelta, ops: seq<Op>, genId: nat -> string)
    requires DistinctTools(s.tools) && ToolFacts(s, ops, genId) && i < |s.tools| && s.tools[i].index == d.Index()
    requires s.tools[i].blockIndex < s.next
    ensures ToolFacts(MergeAt(s, i, d, genId), ops + [Tool(d)], genId)
  {
    MergeKeepsEntries(s, i, d, ops, genId);
    MergeKeepsAbsence(s, i, d, ops, genId);
    forall b: nat | s.next <= b { MergedJson(s, i, d, genId, b); }
  }

  lemma OtherToolUnaffected(s: State, i: nat, j: nat)
    requires DistinctTools(s.tools) && i < |s.tools| && j < |s.tools| && i != j
    ensures s.tools[i].index != s.tools[j].index && s.tools[i].blockIndex != s.tools[j].blockIndex
  {
  }

  lemma StepKeepsFacts(s: State, op: Op, ops: seq<Op>, genId: nat -> string)
    requires Invariant(s) && ToolFacts(s, ops, genId)
    ensures ToolFacts(Step(s, op, genId), ops + [op], genId)
  {
    var all := ops + [op];
    assert all[..|all| - 1] == ops;
    if op.Tool? {
      var d := op.delta;
      EnsureToolKeepsInvariant(s, d.Index());
      EnsureKeepsFacts(s, d.Index(), ops, genId);
      var e := EnsureTool(s, d.Index());
      MergeKeepsFacts(e, FindTool(e.tools, d.Index()).value, d, ops, genId);
    } else {
      forall k: nat ensures DeltasOf(all, k) == DeltasOf(ops, k) {}
      if op.Text? { TextKeepsFacts(s, op.text, ops, genId); }
    }
  }

  lemma {:induction false} FoldKeepsFacts(s: State, ops: seq<Op>, genId: nat -> string)
    requires Invariant(s) && ToolFacts(s, [], genId)
    ensures ToolFacts(Fold(s, ops, genId), ops, genId)
  {
    if ops != [] {
      var front := ops[..|ops| - 1];
      FoldKeepsFacts(s, front, genId);
      FoldKeepsInvariant(s, front, genId);
      StepKeepsFacts(Fold(s, front, genId), ops[|ops| - 1], front, genId);
      assert front + [ops[|ops| - 1]] == ops;
    }
  }

  /** The block a run allocated for tool call `k`. */
  function BlockOf(s: State, k: nat): Option<nat> {
    match FindTool(s.tools, k)
    case None => None
    case Some(i) => Some(s.tools[i].blockIndex)
  }

  lemma RunFacts(env: Env, ops: seq<Op>)
    ensures var s := Fold(Initial(env.id, env.model), ops, env.genId);
      Invariant(s) && ToolFacts(s, ops, env.genId)
  {
    var init := Initial(env.id, env.model);
    InitialInvariant(env.id, env.model);
    forall b: nat { InitialContent(env.id, env.model, b); }
    FoldKeepsFacts(init, ops, env.genId);
    FoldKeepsInvariant(init, ops, env.genId);
  }

  lemma BlocksAreNotShared(s: State, k: nat, k': nat)
    requires Invariant(s) && k != k' && BlockOf(s, k).Some?
    ensures BlockOf(s, k') != BlockOf(s, k)
  {
    if FindTool(s.tools, k').Some? {
      OtherToolUnaffected(s, FindTool(s.tools, k).value, FindTool(s.tools, k').value);
    }
  }

  /** For every tool call the backend sent a delta for there is one block, no two calls share it,
      and its deltas carry the arguments from the naming delta on, announced under that name. */
  lemma ToolArgumentsAreConserved(env: Env, chunks: seq<ChunkResult>, k: nat)
    ensures var es, s := RunTranscript(env, chunks), RunState(env, chunks);
      var ds := DeltasOf(RunOps(env, chunks), k);
      && (BlockOf(s, k).Some? <==> ds != [])
      && (ds != [] ==>
           var b := BlockOf(s, k).value;
           && ReceivedJson(es, b) == ArgumentsFromName(ds)
           && (Names(ds) != "" ==> BlockStart(b, Announcement(ds, b, env.genId)) in es)
           && (forall k': nat :: k' != k ==> BlockOf(s, k') != Some(b)))
  {
    var s, ops := RunState(env, chunks), RunOps(env, chunks);
    RunFacts(env, ops);
    EntriesHaveDeltas(Initial(env.id, env.model), ops, env.genId, k);
    if FindTool(s.tools, k).Some? {
      var i := FindTool(s.tools, k).value;
      assert ToolFact(s.out, s.tools[i], DeltasOf(ops, k), env.genId);
      TranscriptContent(s, s.tools[i].blockIndex);
      forall k': nat | k' != k { BlocksAreNotShared(s, k, k'); }
      InTranscript(s, BlockStart(s.tools[i].blockIndex, Announcement(DeltasOf(ops, k), s.tools[i].blockIndex, env.genId)));
    }
  }

  lemma InTranscript(s: State, e: Event)
    ensures e in s.out ==> e in Transcript(s)
  {
    InPrefix(s.out, TextStop(s), e);
    InPrefix(s.out + TextStop(s), ToolStops(s.tools), e);
    InPrefix(Stopped(s), EmptyPair(s), e);
    InPrefix(Stopped(s) + EmptyPair(s), Ending(s), e);
  }

  lemma {:induction false} EntriesHaveDeltas(s: State, ops: seq<Op>, genId: nat -> string, k: nat)
    requires s.tools == []
    ensures FindTool(Fold(s, ops, genId).tools, k).Some? ==> DeltasOf(ops, k) != []
  {
    if ops != [] {
      var front, op := ops[..|ops| - 1], ops[|ops| - 1];
      EntriesHaveDeltas(s, front, genId, k);
      if op.Tool? {
        var f := Fold(s, front, genId);
        var e := EnsureTool(f, op.delta.Index());
        if FindTool(f.tools, op.delta.Index()).None? {
          FindToolAppend(f.tools, e.tools[|f.tools|], k);
        }
        var i := FindTool(e.tools, op.delta.Index()).value;
        FindToolUpdate(e.tools, i, MergeTool(e.tools[i], op.delta, genId), k);
      }
    }
  }

  /** Every non-empty argument fragment comes with or after the name. */
  ghost predicate NameComesInTime(ds: seq<ToolDelta>) {
    forall j :: 0 <= j < |ds| && ds[j].Arguments() != "" ==> Names(ds[..j + 1]) != ""
  }

  lemma NameComesInTimeStep(front: seq<ToolDelta>, d: ToolDelta)
    ensures NameComesInTime(front + [d]) <==> NameComesInTime(front) && (d.Arguments() != "" ==> Names(front + [d]) != "")
  {
    var ds := front + [d];
    if NameComesInTime(ds) {
      assert ds[|front|] == d && ds[..|front| + 1] == ds;
      forall j | 0 <= j < |front| && front[j].Arguments() != "" ensures Names(front[..j + 1]) != "" {
        assert ds[j] == front[j] && ds[..j + 1] == front[..j + 1];
      }
    }
    if NameComesInTime(front) && (d.Arguments() != "" ==> Names(ds) != "") {
      forall j | 0 <= j < |ds| && ds[j].Arguments() != "" ensures Names(ds[..j + 1]) != "" {
        assert ds[..j + 1] == if j < |front| then front[..j + 1] else ds;
      }
    }
  }

  /** Nothing is lost exactly when no argument text comes before the name does. */
  lemma {:induction false} AllArgumentsArriveIff(ds: seq<ToolDelta>)
    ensures ArgumentsFromName(ds) == AllArguments(ds) <==> NameComesInTime(ds)
  {
    if ds != [] {
      var front := ds[..|ds| - 1];
      assert front + [ds[|ds| - 1]] == ds;
      NameComesInTimeStep(front, ds[|ds| - 1]);
      AllArgumentsArriveIff(front);
      FromNameIsSuffix(front);
      if Names(ds) == "" { assert Names(front) == ""; }
    }
  }

  lemma {:induction false} FromNameIsSuffix(ds: seq<ToolDelta>)
    ensures |ArgumentsFromName(ds)| <= |AllArguments(ds)|
    ensures |ArgumentsFromName(ds)| == |AllArguments(ds)| ==> ArgumentsFromName(ds) == AllArguments(ds)
  {
    if ds != [] { FromNameIsSuffix(ds[..|ds| - 1]); }
  }

  // ---- How many blocks ------------------------------------------------------------------------

  function TextStarts(es: seq<Event>): nat {
    if es == [] then 0
    else
      var e := es[|es| - 1];
      TextStarts(es[..|es| - 1]) + (if e.BlockStart? && e.block.TextBlock? then 1 else 0)
  }

  lemma {:induction false} TextStartsConcat(a: seq<Event>, b: seq<Event>)
    ensures TextStarts(a + b) == TextStarts(a) + TextStarts(b)
  {
    if b == [] {
      assert a + b == a;
    } else {
      assert (a + b)[..|a + b| - 1] == a + b[..|b| - 1];
      TextStartsConcat(a, b[..|b| - 1]);
    }
  }

  lemma {:induction false} NoTextStarts(es: seq<Event>)
    requires forall i :: 0 <= i < |es| ==> !(es[i].BlockStart? && es[i].block.TextBlock?)
    ensures TextStarts(es) == 0
  {
    if es != [] { NoTextStarts(es[..|es| - 1]); }
  }

  /** A text block closes for good at the first tool call; the one that may open after that stays. */
  ghost predicate FewTextBlocks(s: State) {
    TextStarts(s.out) <= (if s.textOpen then 1 else 0) + (if s.tools == [] then 0 else 1)
  }

  lemma TextStepStarts(s: State, text: string)
    ensures TextStarts(StepText(s, text).out) == TextStarts(s.out) + (if text != "" && !s.textOpen then 1 else 0)
  {
    if text != "" {
      var ready := OpenText(s);
      var delta := BlockDelta(ready.textIndex.GetOr(0), TextDelta(text));
      assert (s.out + [BlockStart(s.next, TextBlock)])[..|s.out|] == s.out;
      assert (ready.out + [delta])[..|ready.out|] == ready.out;
    }
  }

  lemma ToolStepStarts(s: State, d: ToolDelta, genId: nat -> string)
    ensures TextStarts(StepTool(s, d, genId).out) == TextStarts(s.out)
  {
    var e := EnsureTool(s, d.Index());
    var stop := [BlockStop(s.textIndex.GetOr(0))];
    NoTextStarts(stop);
    TextStartsConcat(s.out, stop);
    var i := FindTool(e.tools, d.Index()).value;
    var events := ToolEvents(e.tools[i], MergeTool(e.tools[i], d, genId), d);
    NoTextStarts(events);
    TextStartsConcat(e.out, events);
  }

  lemma StepKeepsFewTextBlocks(s: State, op: Op, genId: nat -> string)
    requires FewTextBlocks(s)
    ensures FewTextBlocks(Step(s, op, genId))
  {
    if op.Text? { TextStepStarts(s, op.text); }
    if op.Tool? { ToolStepStarts(s, op.delta, genId); }
  }

  lemma {:induction false} FoldKeepsFewTextBlocks(s: State, ops: seq<Op>, genId: nat -> string)
    requires FewTextBlocks(s)
    ensures FewTextBlocks(Fold(s, ops, genId))
  {
    if ops != [] {
      FoldKeepsFewTextBlocks(s, ops[..|ops| - 1], genId);
      StepKeepsFewTextBlocks(Fold(s, ops[..|ops| - 1], genId), ops[|ops| - 1], genId);
    }
  }

  lemma AtMostTwoTextBlocks(env: Env, chunks: seq<ChunkResult>)
    ensures TextStarts(RunTranscript(env, chunks)) <= 2
  {
    NoTextStarts(Initial(env.id, env.model).out);
    FoldKeepsFewTextBlocks(Initial(env.id, env.model), RunOps(env, chunks), env.genId);
    TranscriptTextStarts(RunState(env, chunks));
  }

  lemma TranscriptTextStarts(s: State)
    ensures TextStarts(Transcript(s)) == TextStarts(s.out) + (if !s.textOpen && s.tools == [] then 1 else 0)
  {
    ToolStopsAreStops(s.tools);
    NoTextStarts(TextStop(s));
    NoTextStarts(ToolStops(s.tools));
    NoTextStarts(Ending(s));
    TextStartsConcat(s.out, TextStop(s));
    TextStartsConcat(s.out + TextStop(s), ToolStops(s.tools));
    TextStartsConcat(Stopped(s), EmptyPair(s));
    TextStartsConcat(Stopped(s) + EmptyPair(s), Ending(s));
    var pair := [BlockStart(0, TextBlock), BlockStop(0)];
    assert pair[..1] == [pair[0]] && [pair[0]][..0] == [];
    assert TextStarts(pair) == 1;
  }

  ghost predicate HasBlock(es: seq<Event>) { exists p :: 0 <= p < |es| && es[p].BlockStart? }

  predicate OpensBlock(op: Op) { (op.Text? && op.text != "") || (op.Tool? && op.delta.Name() != "") }

  ghost predicate SomeOpens(ops: seq<Op>) { exists p :: 0 <= p < |ops| && OpensBlock(ops[p]) }

  ghost predicate SomeTool(ops: seq<Op>) { exists p :: 0 <= p < |ops| && ops[p].Tool? }

  ghost predicate BlockCount(s: State, ops: seq<Op>) {
    && (HasBlock(s.out) <==> SomeOpens(ops))
    && (s.tools == [] <==> !SomeTool(ops))
    && (s.textOpen ==> HasBlock(s.out))
    && (forall j :: 0 <= j < |s.tools| && s.tools[j].started ==> HasBlock(s.out))
  }

  lemma HasBlockConcat(a: seq<Event>, b: seq<Event>)
    ensures HasBlock(a + b) <==> HasBlock(a) || HasBlock(b)
  {
    if HasBlock(a) { var p :| 0 <= p < |a| && a[p].BlockStart?; assert (a + b)[p].BlockStart?; }
    if HasBlock(b) { var p :| 0 <= p < |b| && b[p].BlockStart?; assert (a + b)[|a| + p].BlockStart?; }
  }

  lemma SomeOpensAppend(ops: seq<Op>, op: Op)
    ensures SomeOpens(ops + [op]) <==> SomeOpens(ops) || OpensBlock(op)
    ensures SomeTool(ops + [op]) <==> SomeTool(ops) || op.Tool?
  {
    var all := ops + [op];
    assert all[|ops|] == op;
    if SomeOpens(ops) { var p :| 0 <= p < |ops| && OpensBlock(ops[p]); assert OpensBlock(all[p]); }
    if SomeTool(ops) { var p :| 0 <= p < |ops| && ops[p].Tool?; assert all[p].Tool?; }
  }

  lemma StepKeepsBlockCount(s: State, op: Op, ops: seq<Op>, genId: nat -> string)
    requires Invariant(s) && BlockCount(s, ops)
    ensures BlockCount(Step(s, op, genId), ops + [op])
  {
    SomeOpensAppend(ops, op);
    match op
    case SetUsage(_) =>
    case Finish(_) =>
    case Text(text) =>
      var open, delta := BlockStart(s.next, TextBlock),
        BlockDelta(if s.textOpen then s.textIndex.GetOr(0) else s.next, TextDelta(text));
      assert HasBlock([open]) by { assert [open][0].BlockStart?; }
      HasBlockConcat(s.out, [open]);
      HasBlockConcat(if s.textOpen then s.out else s.out + [open], [delta]);
    case Tool(d) =>
      EnsureToolKeepsInvariant(s, d.Index());
      var e := EnsureTool(s, d.Index());
      HasBlockConcat(s.out, [BlockStop(s.textIndex.GetOr(0))]);
      var i := FindTool(e.tools, d.Index()).value;
      var t := e.tools[i];
      var m := MergeTool(t, d, genId);
      HasBlockConcat(e.out, ToolEvents(t, m, d));
      if m.started && !t.started { assert ToolEvents(t, m, d)[0].BlockStart?; }
  }

  lemma {:induction false} FoldKeepsBlockCount(s: State, ops: seq<Op>, genId: nat -> string)
    requires Invariant(s) && BlockCount(s, [])
    ensures BlockCount(Fold(s, ops, genId), ops)
  {
    if ops != [] {
      var front := ops[..|ops| - 1];
      FoldKeepsBlockCount(s, front, genId);
      FoldKeepsInvariant(s, front, genId);
      StepKeepsBlockCount(Fold(s, front, genId), ops[|ops| - 1], front, genId);
      assert front + [ops[|ops| - 1]] == ops;
    }
  }

  /** A message has no content block exactly when tool calls were sent, none was ever named, and
      there was no text. */
  lemma BlocksAppearUnlessNameless(env: Env, chunks: seq<ChunkResult>)
    ensures HasBlock(RunTranscript(env, chunks)) <==>
            SomeOpens(RunOps(env, chunks)) || !SomeTool(RunOps(env, chunks))
  {
    InitialInvariant(env.id, env.model);
    assert BlockCount(Initial(env.id, env.model), []);
    FoldKeepsBlockCount(Initial(env.id, env.model), RunOps(env, chunks), env.genId);
    TranscriptHasBlock(RunState(env, chunks));
  }

  lemma TranscriptHasBlock(s: State)
    ensures HasBlock(Transcript(s)) <==> HasBlock(s.out) || (!s.textOpen && s.tools == [])
  {
    ToolStopsAreStops(s.tools);
    HasBlockConcat(s.out, TextStop(s));
    HasBlockConcat(s.out + TextStop(s), ToolStops(s.tools));
    HasBlockConcat(Stopped(s), EmptyPair(s));
    HasBlockConcat(Stopped(s) + EmptyPair(s), Ending(s));
    if EmptyPair(s) != [] { assert EmptyPair(s)[0].BlockStart?; }
  }

  // ---- What the last events report --------------------------------------------------------------

  /** `i` is the last position of an operation of the kind `p` selects. */
  ghost predicate LastOf(ops: seq<Op>, i: int, p: Op -> bool) {
    0 <= i < |ops| && p(ops[i]) && forall j :: i < j < |ops| ==> !p(ops[j])
  }

  lemma LastOfAppend(ops: seq<Op>, op: Op, i: int, p: Op -> bool)
    ensures LastOf(ops + [op], i, p) <==> if p(op) then i == |ops| else LastOf(ops, i, p)
  {
    var all := ops + [op];
    assert all[|ops|] == op;
    assert forall j :: 0 <= j < |ops| ==> all[j] == ops[j];
  }

  predicate IsFinish(op: Op) { op.Finish? }

  predicate ReportsCompletion(op: Op) { op.SetUsage? && op.usage.completion.Some? }

  lemma StepKeepsReports(s: State, op: Op, genId: nat -> string)
    ensures Step(s, op, genId).stop == if op.Finish? then Some(TranslateStopReason(op.reason)) else s.stop
    ensures Step(s, op, genId).usage.1 == if ReportsCompletion(op) then op.usage.completion.value else s.usage.1
  {
  }

  /** `stop` is the translation of the last finish reason, if there was one. */
  ghost predicate StopReported(ops: seq<Op>, stop: Option<string>) {
    && (forall i :: LastOf(ops, i, IsFinish) ==> stop == Some(TranslateStopReason(ops[i].reason)))
    && ((forall i :: 0 <= i < |ops| ==> !IsFinish(ops[i])) ==> stop.None?)
  }

  /** `completion` is the last completion count reported, or zero. */
  ghost predicate CompletionReported(ops: seq<Op>, completion: int) {
    && (forall i :: LastOf(ops, i, ReportsCompletion) ==> completion == ops[i].usage.completion.value)
    && ((forall i :: 0 <= i < |ops| ==> !ReportsCompletion(ops[i])) ==> completion == 0)
  }

  lemma StopReportedAppend(ops: seq<Op>, op: Op, stop: Option<string>)
    requires StopReported(ops, stop)
    ensures StopReported(ops + [op], if op.Finish? then Some(TranslateStopReason(op.reason)) else stop)
  {
    var all := ops + [op];
    assert all[|ops|] == op && forall j :: 0 <= j < |ops| ==> all[j] == ops[j];
    forall i { LastOfAppend(ops, op, i, IsFinish); }
  }

  lemma CompletionReportedAppend(ops: seq<Op>, op: Op, completion: int)
    requires CompletionReported(ops, completion)
    ensures CompletionReported(ops + [op], if ReportsCompletion(op) then op.usage.completion.value else completion)
  {
    var all := ops + [op];
    assert all[|ops|] == op && forall j :: 0 <= j < |ops| ==> all[j] == ops[j];
    forall i { LastOfAppend(ops, op, i, ReportsCompletion); }
  }

  ghost predicate Reported(ops: seq<Op>, s: State) { StopReported(ops, s.stop) && CompletionReported(ops, s.usage.1) }

  lemma StepReportsLast(s: State, ops: seq<Op>, op: Op, genId: nat -> string)
    requires Reported(ops, s)
    ensures Reported(ops + [op], Step(s, op, genId))
  {
    StepKeepsReports(s, op, genId);
    StopReportedAppend(ops, op, s.stop);
    CompletionReportedAppend(ops, op, s.usage.1);
  }

  /** What every operation keeps, a whole run keeps. */
  lemma {:induction false} FoldKeeps(p: (seq<Op>, State) -> bool, s: State, ops: seq<Op>, genId: nat -> string)
    requires p([], s)
    requires forall done: seq<Op>, t: State, op: Op :: p(done, t) ==> p(done + [op], Step(t, op, genId))
    ensures p(ops, Fold(s, ops, genId))
  {
    if ops != [] {
      var front, op := ops[..|ops| - 1], ops[|ops| - 1];
      FoldKeeps(p, s, front, genId);
      assert p(front + [op], Step(Fold(s, front, genId), op, genId));
      assert front + [op] == ops;
    }
  }

  lemma FoldReportsLast(s: State, ops: seq<Op>, genId: nat -> string)
    requires Reported([], s)
    ensures Reported(ops, Fold(s, ops, genId))
  {
    var p := (done, t) => Reported(done, t);
    forall done: seq<Op>, t: State, op: Op | p(done, t) ensures p(done + [op], Step(t, op, genId)) {
      StepReportsLast(t, done, op, genId);
    }
    FoldKeeps(p, s, ops, genId);
  }

  /** The message ends by reporting the last finish reason and the last completion count received, or the
      defaults when there was none. */
  lemma EndingReportsLast(env: Env, chunks: seq<ChunkResult>)
    ensures var es, ops := RunTranscript(env, chunks), RunOps(env, chunks);
      && |es| >= 2 && es[|es| - 1] == MessageStop && es[|es| - 2].MessageDelta?
      && (exists stop :: StopReported(ops, stop) && es[|es| - 2].stopReason == stop.GetOr("end_turn"))
      && CompletionReported(ops, es[|es| - 2].outputTokens)
  {
    var s := RunState(env, chunks);
    FoldReportsLast(Initial(env.id, env.model), RunOps(env, chunks), env.genId);
    var head := Stopped(s) + EmptyPair(s);
    assert Transcript(s) == head + [MessageDelta(s.stop.GetOr("end_turn"), s.usage.1), MessageStop];
  }
}
