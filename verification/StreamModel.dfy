/**
 * The OpenAI to Anthropic stream translation as a fold: a parsed chunk is flattened into the
 * operations the translator performs, and every operation extends the emitted event stream.
 */
module StreamModel {
  import opened Wrappers
  import opened StreamLines

  // ---- OpenAI chunks, after JSON parsing --------------------------------------------------

  datatype FunctionDelta = FunctionDelta(name: Option<string>, arguments: Option<string>)
  datatype ToolDelta = ToolDelta(index: Option<nat>, id: Option<string>, func: Option<FunctionDelta>) {
    function Index(): nat { index.GetOr(0) }
    function Name(): string { if func.Some? then func.value.name.GetOr("") else "" }
    function Arguments(): string { if func.Some? then func.value.arguments.GetOr("") else "" }
  }
  datatype Delta = Delta(content: Option<string>, toolCalls: Option<seq<ToolDelta>>)
  datatype Choice = Choice(delta: Option<Delta>, finishReason: Option<string>)
  datatype Usage = Usage(prompt: Option<int>, completion: Option<int>)
  datatype Chunk = Chunk(choices: Option<seq<Choice>>, usage: Option<Usage>)

  // ---- Anthropic events -------------------------------------------------------------------

  datatype Block = TextBlock | ToolUse(id: string, name: string)
  datatype Payload = TextDelta(text: string) | InputJsonDelta(json: string)
  datatype Event =
    | MessageStart(id: string, model: string)
    | Ping
    | BlockStart(index: nat, block: Block)
    | BlockDelta(index: nat, payload: Payload)
    | BlockStop(index: nat)
    | MessageDelta(stopReason: string, outputTokens: int)
    | MessageStop

  // ---- Operations -------------------------------------------------------------------------

  datatype Op = SetUsage(usage: Usage) | Finish(reason: string) | Text(text: string) | Tool(delta: ToolDelta)

  function ToolOps(deltas: seq<ToolDelta>): seq<Op> {
    if deltas == [] then [] else [Tool(deltas[0])] + ToolOps(deltas[1..])
  }

  function DeltaOps(d: Delta): seq<Op> {
    (if d.content.Some? then [Text(d.content.value)] else [])
    + (if d.toolCalls.Some? then ToolOps(d.toolCalls.value) else [])
  }

  function ChoiceOps(c: Choice): seq<Op> {
    (if c.finishReason.Some? then [Finish(c.finishReason.value)] else [])
    + (if c.delta.Some? then DeltaOps(c.delta.value) else [])
  }

  function ChoicesOps(cs: seq<Choice>): seq<Op> {
    if cs == [] then [] else ChoiceOps(cs[0]) + ChoicesOps(cs[1..])
  }

  function ChunkOps(c: Chunk): seq<Op> {
    (if c.usage.Some? then [SetUsage(c.usage.value)] else [])
    + (if c.choices.Some? then ChoicesOps(c.choices.value) else [])
  }

  /** The characters `str::trim` removes: the Unicode White_Space property. */
  predicate IsWhitespace(c: char) {
    var u := c as int;
    9 <= u <= 13 || u == 32 || u == 0x85 || u == 0xA0 || u == 0x1680 || 0x2000 <= u <= 0x200A
    || u == 0x2028 || u == 0x2029 || u == 0x202F || u == 0x205F || u == 0x3000
  }

  function TrimStart(s: string): string {
    if s != [] && IsWhitespace(s[0]) then TrimStart(s[1..]) else s
  }

  function TrimEnd(s: string): string {
    if s != [] && IsWhitespace(s[|s| - 1]) then TrimEnd(s[..|s| - 1]) else s
  }

  function Trim(s: string): string { TrimEnd(TrimStart(s)) }

  const DONE := "data: [DONE]"
  const DATA := "data: "

  /** The chunk carried by one line: empty lines, the end marker, lines that are not data
      lines and data that does not parse carry none. */
  function LineChunk(line: string, parse: string -> Option<Chunk>): Option<Chunk> {
    var trimmed := Trim(line);
    if trimmed == "" || trimmed == DONE || !(DATA <= trimmed) then None
    else parse(trimmed[|DATA|..])
  }

  function LineOps(line: string, parse: string -> Option<Chunk>): seq<Op> {
    match LineChunk(line, parse)
    case None => []
    case Some(chunk) => ChunkOps(chunk)
  }

  function LinesOps(lines: seq<string>, parse: string -> Option<Chunk>): seq<Op> {
    if lines == [] then [] else LineOps(lines[0], parse) + LinesOps(lines[1..], parse)
  }

  lemma {:induction false} LinesOpsConcat(a: seq<string>, b: seq<string>, parse: string -> Option<Chunk>)
    ensures LinesOps(a + b, parse) == LinesOps(a, parse) + LinesOps(b, parse)
  {
    if a == [] {
      assert a + b == b;
    } else {
      assert (a + b)[1..] == a[1..] + b;
      LinesOpsConcat(a[1..], b, parse);
    }
  }

  // ---- State ------------------------------------------------------------------------------

  datatype ToolCall = ToolCall(index: nat, id: string, name: string, arguments: string,
                               blockIndex: nat, started: bool)

  datatype State = State(textOpen: bool, textIndex: Option<nat>, next: nat, tools: seq<ToolCall>,
                         stop: Option<string>, usage: (int, int), out: seq<Event>)

  function TranslateStopReason(reason: string): string {
    if reason == "stop" then "end_turn"
    else if reason == "length" then "max_tokens"
    else if reason == "tool_calls" then "tool_use"
    else reason
  }

  function Initial(id: string, model: string): State {
    State(false, None, 0, [], None, (0, 0), [MessageStart(id, model), Ping])
  }

  /** First table entry with the given stream index. */
  function FindTool(tools: seq<ToolCall>, index: nat): (r: Option<nat>)
    ensures r.Some? ==> r.value < |tools| && tools[r.value].index == index
    ensures r.None? ==> forall i :: 0 <= i < |tools| ==> tools[i].index != index
  {
    if tools == [] then None
    else if tools[0].index == index then Some(0)
    else
      match FindTool(tools[1..], index)
      case None => assert forall i :: 1 <= i < |tools| ==> tools[i] == tools[1..][i - 1]; None
      case Some(i) => Some(i + 1)
  }

  /** Opens a text block at the next free index unless one is open. */
  function OpenText(s: State): State {
    if s.textOpen then s
    else s.(textOpen := true, textIndex := Some(s.next), next := s.next + 1,
            out := s.out + [BlockStart(s.next, TextBlock)])
  }

  function StepText(s: State, text: string): State {
    if text == "" then s
    else
      var ready := OpenText(s);
      ready.(out := ready.out + [BlockDelta(ready.textIndex.GetOr(0), TextDelta(text))])
  }

  /** The first tool call ever closes an open text block. */
  function CloseText(s: State): State {
    if s.textOpen && s.tools == [] then
      s.(textOpen := false, out := s.out + [BlockStop(s.textIndex.GetOr(0))])
    else s
  }

  /** Makes sure the table has an entry for `index`. */
  function EnsureTool(s: State, index: nat): (r: State)
    ensures FindTool(r.tools, index).Some?
  {
    if FindTool(s.tools, index).Some? then s
    else
      var closed := CloseText(s);
      var r := closed.(next := closed.next + 1,
                       tools := closed.tools + [ToolCall(index, "", "", "", closed.next, false)]);
      assert r.tools[|closed.tools|].index == index;
      r
  }

  /** The entry after a delta has been merged into it; `genId(b)` is the random id drawn for block `b`. */
  function MergeTool(t: ToolCall, d: ToolDelta, genId: nat -> string): ToolCall {
    var named := t.(id := d.id.GetOr(t.id), name := t.name + d.Name(), arguments := t.arguments + d.Arguments());
    if !named.started && named.name != "" then
      named.(started := true, id := if named.id == "" then genId(named.blockIndex) else named.id)
    else named
  }

  /** The start event of an entry `t` that has just become `m`. */
  function StartEvents(t: ToolCall, m: ToolCall): seq<Event> {
    if m.started && !t.started then [BlockStart(m.blockIndex, ToolUse(m.id, m.name))] else []
  }

  function ArgumentEvents(m: ToolCall, d: ToolDelta): seq<Event> {
    if m.started && d.Arguments() != "" then [BlockDelta(m.blockIndex, InputJsonDelta(d.Arguments()))] else []
  }

  /** Events for a delta that turned entry `t` into `m`. */
  function ToolEvents(t: ToolCall, m: ToolCall, d: ToolDelta): seq<Event> {
    StartEvents(t, m) + ArgumentEvents(m, d)
  }

  /** Merges delta `d` into entry `i` and emits its events. */
  function MergeAt(s: State, i: nat, d: ToolDelta, genId: nat -> string): State
    requires i < |s.tools|
  {
    var m := MergeTool(s.tools[i], d, genId);
    s.(tools := s.tools[i := m], out := s.out + ToolEvents(s.tools[i], m, d))
  }

  function StepTool(s: State, d: ToolDelta, genId: nat -> string): State {
    var e := EnsureTool(s, d.Index());
    MergeAt(e, FindTool(e.tools, d.Index()).value, d, genId)
  }

  function Step(s: State, op: Op, genId: nat -> string): State {
    match op
    case SetUsage(u) => s.(usage := (u.prompt.GetOr(s.usage.0), u.completion.GetOr(s.usage.1)))
    case Finish(reason) => s.(stop := Some(TranslateStopReason(reason)))
    case Text(text) => StepText(s, text)
    case Tool(d) => StepTool(s, d, genId)
  }

  function Fold(s: State, ops: seq<Op>, genId: nat -> string): State {
    if ops == [] then s else Step(Fold(s, ops[..|ops| - 1], genId), ops[|ops| - 1], genId)
  }

  lemma {:induction false} FoldConcat(s: State, a: seq<Op>, b: seq<Op>, genId: nat -> string)
    ensures Fold(s, a + b, genId) == Fold(Fold(s, a, genId), b, genId)
  {
    if b == [] {
      assert a + b == a;
    } else {
      var front := b[..|b| - 1];
      assert (a + b)[..|a + b| - 1] == a + front;
      FoldConcat(s, a, front, genId);
    }
  }

  /** Nothing that was emitted is taken back. */
  lemma {:induction false} FoldExtends(s: State, ops: seq<Op>, genId: nat -> string)
    ensures s.out <= Fold(s, ops, genId).out
  {
    if ops != [] {
      FoldExtends(s, ops[..|ops| - 1], genId);
    }
  }

  // ---- Closing ----------------------------------------------------------------------------

  function ToolStops(tools: seq<ToolCall>): seq<Event> {
    if tools == [] then []
    else (if tools[0].started then [BlockStop(tools[0].blockIndex)] else []) + ToolStops(tools[1..])
  }

  function TextStop(s: State): seq<Event> {
    if s.textOpen then [BlockStop(s.textIndex.GetOr(0))] else []
  }

  /** The synthesized pair for a stream without any block. */
  function EmptyPair(s: State): seq<Event> {
    if !s.textOpen && s.tools == [] then [BlockStart(0, TextBlock), BlockStop(0)] else []
  }

  function Ending(s: State): seq<Event> {
    [MessageDelta(s.stop.GetOr("end_turn"), s.usage.1), MessageStop]
  }

  /** Everything up to and including the stops of the blocks still open. */
  function Stopped(s: State): seq<Event> { s.out + TextStop(s) + ToolStops(s.tools) }

  function Transcript(s: State): seq<Event> { Stopped(s) + EmptyPair(s) + Ending(s) }

  /** The environment of one run: ids, and the two functions the translator calls out to. */
  datatype Env = Env(id: string, model: string, parse: string -> Option<Chunk>, genId: nat -> string)

  /** The operations of everything received before the first read error. */
  function RunOps(env: Env, chunks: seq<ChunkResult>): seq<Op> {
    LinesOps(Incremental("", chunks), env.parse)
  }

  function RunState(env: Env, chunks: seq<ChunkResult>): State {
    Fold(Initial(env.id, env.model), RunOps(env, chunks), env.genId)
  }

  /** The whole event stream of a run whose client stays connected. */
  function RunTranscript(env: Env, chunks: seq<ChunkResult>): seq<Event> {
    Transcript(RunState(env, chunks))
  }

  /** Any two ways of cutting the same decoded text into chunks give identical events. */
  lemma EventsDependOnTextOnly(env: Env, left: seq<ChunkResult>, right: seq<ChunkResult>)
    requires Received(left) == Received(right)
    ensures RunTranscript(env, left) == RunTranscript(env, right)
  {
    ChunkingIndependence(left, right);
  }
}
