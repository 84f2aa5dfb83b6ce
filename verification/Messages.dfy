/**
 * Message translation between the Anthropic and the OpenAI chat formats. Incoming content is
 * arbitrary JSON; JSON text is read and written by a parser and a printer that are inverse.
 */
module Messages {
  import opened Wrappers

  datatype Json =
    | Null | Bool(b: bool) | Number(repr: string) | String(s: string)
    | Array(items: seq<Json>) | Object(fields: map<string, Json>)

  const EMPTY_OBJECT := Object(map[])

  /** `value.get(key)`, defined on objects only. */
  function Get(j: Json, key: string): Option<Json> {
    if j.Object? && key in j.fields then Some(j.fields[key]) else None
  }

  /** `value.get(key).and_then(as_str)` */
  function StringAt(j: Json, key: string): Option<string> {
    match Get(j, key)
    case Some(String(s)) => Some(s)
    case _ => None
  }

  function TypeOf(block: Json): Option<string> { StringAt(block, "type") }

  /** The JSON library: a parser and a printer. */
  datatype Codec = Codec(parse: string -> Option<Json>, print_: Json -> string)

  /** The value, printed and parsed, is the value. */
  ghost predicate Survives(j: Json, codec: Codec) { codec.parse(codec.print_(j)) == Some(j) }

  /** Whatever the parser produces, and the empty object, survives. */
  ghost predicate Lossless(codec: Codec) {
    Survives(EMPTY_OBJECT, codec) && forall text: string :: codec.parse(text).Some? ==> Survives(codec.parse(text).value, codec)
  }

  // ---- OpenAI messages ------------------------------------------------------------------------

  datatype Call = Call(id: string, name: string, arguments: string)

  /** A message sent to the backend. `calls` is left out of the JSON when it is empty, and an
      absent `content` is null. */
  datatype ChatMessage =
    | Plain(role: string, content: string)
    | ToolReply(id: string, content: string)
    | Assistant(text: Option<string>, calls: seq<Call>)

  // ---- Text -----------------------------------------------------------------------------------

  function BlockText(block: Json): string {
    if TypeOf(block) == Some("text") then StringAt(block, "text").GetOr("") else ""
  }

  function BlocksText(blocks: seq<Json>): string {
    if blocks == [] then "" else BlocksText(blocks[..|blocks| - 1]) + BlockText(blocks[|blocks| - 1])
  }

  function ContentToString(content: Json): string {
    match content
    case String(s) => s
    case Array(blocks) => BlocksText(blocks)
    case _ => ""
  }

  method ContentText(content: Json) returns (text: string)
    ensures text == ContentToString(content)
  {
    match content {
      case String(s) => text := s;
      case Array(blocks) =>
        text := "";
        for i := 0 to |blocks|
          invariant text == BlocksText(blocks[..i])
        {
          assert blocks[..i + 1][..i] == blocks[..i];
          if TypeOf(blocks[i]) == Some("text") {
            var t := StringAt(blocks[i], "text");
            if t.Some? { text := text + t.value; }
          }
        }
        assert blocks[..|blocks|] == blocks;
      case _ => text := "";
    }
  }

  /** The system prompt: text blocks joined by newlines, none before the first non-empty text. */
  function SystemBlocksText(blocks: seq<Json>): string {
    if blocks == [] then ""
    else
      var before, block := SystemBlocksText(blocks[..|blocks| - 1]), blocks[|blocks| - 1];
      if TypeOf(block) == Some("text") && StringAt(block, "text").Some? then
        before + (if before == "" then "" else "\n") + StringAt(block, "text").value
      else before
  }

  function SystemToString(value: Json): string {
    match value
    case String(s) => s
    case Array(blocks) => SystemBlocksText(blocks)
    case _ => ""
  }

  predicate HasType(content: Json, kind: string) {
    content.Array? && exists i :: 0 <= i < |content.items| && TypeOf(content.items[i]) == Some(kind)
  }

  // ---- Assistant turns with tool use ------------------------------------------------------------

  function CallOf(block: Json, codec: Codec): Call {
    Call(StringAt(block, "id").GetOr(""), StringAt(block, "name").GetOr(""),
         codec.print_(Get(block, "input").GetOr(EMPTY_OBJECT)))
  }

  function CallsOf(blocks: seq<Json>, codec: Codec): seq<Call> {
    if blocks == [] then []
    else
      var n := |blocks| - 1;
      CallsOf(blocks[..n], codec) + (if TypeOf(blocks[n]) == Some("tool_use") then [CallOf(blocks[n], codec)] else [])
  }

  function AssistantToolUse(content: Json, codec: Codec): ChatMessage {
    match content
    case Array(blocks) =>
      Assistant(if BlocksText(blocks) == "" then None else Some(BlocksText(blocks)), CallsOf(blocks, codec))
    case _ => Plain("assistant", ContentToString(content))
  }

  method TranslateAssistantToolUse(content: Json, codec: Codec) returns (msg: ChatMessage)
    ensures msg == AssistantToolUse(content, codec)
  {
    if !content.Array? {
      var text := ContentText(content);
      return Plain("assistant", text);
    }
    var blocks, textParts, toolCalls := content.items, "", [];
    for i := 0 to |blocks|
      invariant textParts == BlocksText(blocks[..i]) && toolCalls == CallsOf(blocks[..i], codec)
    {
      assert blocks[..i + 1][..i] == blocks[..i];
      var block := blocks[i];
      if TypeOf(block) == Some("text") {
        var t := StringAt(block, "text");
        if t.Some? { textParts := textParts + t.value; }
      } else if TypeOf(block) == Some("tool_use") {
        toolCalls := toolCalls + [CallOf(block, codec)];
      }
    }
    assert blocks[..|blocks|] == blocks;
    msg := Assistant(if textParts != "" then Some(textParts) else None, toolCalls);
  }

  // ---- User turns with tool results -----------------------------------------------------------

  function ReplyOf(block: Json): ChatMessage {
    ToolReply(StringAt(block, "tool_use_id").GetOr(""),
              match Get(block, "content") case Some(c) => ContentToString(c) case None => "")
  }

  function Flushed(messages: seq<ChatMessage>, text: string): seq<ChatMessage> {
    if text == "" then messages else messages + [Plain("user", text)]
  }

  /** Messages emitted and text still pending after the given blocks. */
  function UserBlocks(blocks: seq<Json>): (seq<ChatMessage>, string) {
    if blocks == [] then ([], "")
    else
      var (messages, text) := UserBlocks(blocks[..|blocks| - 1]);
      var block := blocks[|blocks| - 1];
      if TypeOf(block) == Some("tool_result") then (Flushed(messages, text) + [ReplyOf(block)], "")
      else (messages, text + BlockText(block))
  }

  function UserToolResult(content: Json): seq<ChatMessage> {
    match content
    case Array(blocks) => Flushed(UserBlocks(blocks).0, UserBlocks(blocks).1)
    case _ => [Plain("user", ContentToString(content))]
  }

  method TranslateUserToolResult(content: Json) returns (messages: seq<ChatMessage>)
    ensures messages == UserToolResult(content)
  {
    if !content.Array? {
      var text := ContentText(content);
      return [Plain("user", text)];
    }
    var blocks, textParts := content.items, "";
    messages := [];
    for i := 0 to |blocks|
      invariant (messages, textParts) == UserBlocks(blocks[..i])
    {
      assert blocks[..i + 1][..i] == blocks[..i];
      var block := blocks[i];
      if TypeOf(block) == Some("tool_result") {
        if textParts != "" {
          messages := messages + [Plain("user", textParts)];
          textParts := "";
        }
        var result := "";
        if Get(block, "content").Some? { result := ContentText(Get(block, "content").value); }
        messages := messages + [ToolReply(StringAt(block, "tool_use_id").GetOr(""), result)];
      } else if TypeOf(block) == Some("text") {
        var t := StringAt(block, "text");
        if t.Some? { textParts := textParts + t.value; } else { assert textParts + "" == textParts; }
      } else {
        assert textParts + "" == textParts;
      }
    }
    assert blocks[..|blocks|] == blocks;
    if textParts != "" { messages := messages + [Plain("user", textParts)]; }
  }

  // ---- Requests -------------------------------------------------------------------------------

  datatype Turn = Turn(role: string, content: Json)

  function TranslateTurn(turn: Turn, codec: Codec): seq<ChatMessage> {
    if turn.role == "assistant" && HasType(turn.content, "tool_use") then [AssistantToolUse(turn.content, codec)]
    else if turn.role == "user" && HasType(turn.content, "tool_result") then UserToolResult(turn.content)
    else [Plain(turn.role, ContentToString(turn.content))]
  }

  function TranslateTurns(turns: seq<Turn>, codec: Codec): seq<ChatMessage> {
    if turns == [] then [] else TranslateTurns(turns[..|turns| - 1], codec) + TranslateTurn(turns[|turns| - 1], codec)
  }

  function SystemMessage(system: Option<Json>): seq<ChatMessage> {
    if system.Some? && SystemToString(system.value) != "" then [Plain("system", SystemToString(system.value))] else []
  }

  method TranslateOneTurn(turn: Turn, codec: Codec) returns (messages: seq<ChatMessage>)
    ensures messages == TranslateTurn(turn, codec)
  {
    if turn.role == "assistant" && HasType(turn.content, "tool_use") {
      var m := TranslateAssistantToolUse(turn.content, codec);
      messages := [m];
    } else if turn.role == "user" && HasType(turn.content, "tool_result") {
      messages := TranslateUserToolResult(turn.content);
    } else {
      var text := ContentText(turn.content);
      messages := [Plain(turn.role, text)];
    }
  }

  lemma AppendAssoc(a: seq<ChatMessage>, b: seq<ChatMessage>, c: seq<ChatMessage>)
    ensures a + b + c == a + (b + c)
  {
  }

  lemma TurnsSnoc(turns: seq<Turn>, i: nat, codec: Codec)
    requires i < |turns|
    ensures TranslateTurns(turns[..i + 1], codec) == TranslateTurns(turns[..i], codec) + TranslateTurn(turns[i], codec)
  {
    assert turns[..i + 1][..i] == turns[..i];
  }

  method TranslateRequest(system: Option<Json>, turns: seq<Turn>, codec: Codec) returns (messages: seq<ChatMessage>)
    ensures messages == SystemMessage(system) + TranslateTurns(turns, codec)
  {
    messages := SystemMessage(system);
    ghost var head := messages;
    for i := 0 to |turns|
      invariant messages == head + TranslateTurns(turns[..i], codec)
    {
      TurnsSnoc(turns, i, codec);
      ghost var before := TranslateTurns(turns[..i], codec);
      var translated := TranslateOneTurn(turns[i], codec);
      AppendAssoc(head, before, translated);
      messages := messages + translated;
    }
    assert turns[..|turns|] == turns;
  }

  // ---- Responses ------------------------------------------------------------------------------

  datatype OpenAIFunction = OpenAIFunction(name: Option<string>, arguments: Option<string>)
  datatype OpenAIToolCall = OpenAIToolCall(id: Option<string>, func: Option<OpenAIFunction>) {
    function Name(): string { if func.Some? then func.value.name.GetOr("") else "" }
    function Arguments(): string { if func.Some? then func.value.arguments.GetOr("{}") else "{}" }
  }
  datatype OpenAIMessage = OpenAIMessage(content: Option<string>, toolCalls: Option<seq<OpenAIToolCall>>)

  function TextBlock(text: string): Json {
    Object(map["type" := String("text"), "text" := String(text)])
  }

  function ToolUseBlock(id: string, name: string, input: Json): Json {
    Object(map["type" := String("tool_use"), "id" := String(id), "name" := String(name), "input" := input])
  }

  /** The block for one tool call; `genId` is the random id used when the backend sent none. */
  function CallBlock(tc: OpenAIToolCall, genId: string, codec: Codec): Json {
    ToolUseBlock(if tc.id.GetOr("") == "" then genId else tc.id.value, tc.Name(),
                 codec.parse(tc.Arguments()).GetOr(EMPTY_OBJECT))
  }

  function CallBlocks(tcs: seq<OpenAIToolCall>, genId: nat -> string, codec: Codec): seq<Json> {
    if tcs == [] then []
    else CallBlocks(tcs[..|tcs| - 1], genId, codec) + [CallBlock(tcs[|tcs| - 1], genId(|tcs| - 1), codec)]
  }

  function MessageBlocks(m: OpenAIMessage, genId: nat -> string, codec: Codec): seq<Json> {
    (if m.content.GetOr("") != "" then [TextBlock(m.content.value)] else [])
    + CallBlocks(m.toolCalls.GetOr([]), genId, codec)
  }

  /** The content of the translated response; never empty. */
  function ResponseContent(message: Option<OpenAIMessage>, genId: nat -> string, codec: Codec): seq<Json> {
    var blocks := if message.Some? then MessageBlocks(message.value, genId, codec) else [];
    if blocks == [] then [TextBlock("")] else blocks
  }

  lemma CallsSnoc(tcs: seq<OpenAIToolCall>, i: nat, genId: nat -> string, codec: Codec)
    requires i < |tcs|
    ensures CallBlocks(tcs[..i + 1], genId, codec) == CallBlocks(tcs[..i], genId, codec) + [CallBlock(tcs[i], genId(i), codec)]
  {
    assert tcs[..i + 1][..i] == tcs[..i];
  }

  /** The loop over the tool calls. */
  method PushCalls(start: seq<Json>, tcs: seq<OpenAIToolCall>, genId: nat -> string, codec: Codec)
    returns (blocks: seq<Json>)
    ensures blocks == start + CallBlocks(tcs, genId, codec)
  {
    blocks := start;
    for i := 0 to |tcs|
      invariant blocks == start + CallBlocks(tcs[..i], genId, codec)
    {
      CallsSnoc(tcs, i, genId, codec);
      blocks := blocks + [CallBlock(tcs[i], genId(i), codec)];
    }
    assert tcs[..|tcs|] == tcs;
  }

  method TranslateOpenAIResponse(message: Option<OpenAIMessage>, genId: nat -> string, codec: Codec)
    returns (blocks: seq<Json>)
    ensures blocks == ResponseContent(message, genId, codec)
  {
    blocks := [];
    if message.Some? {
      var msg := message.value;
      if msg.content.Some? && msg.content.value != "" {
        blocks := blocks + [TextBlock(msg.content.value)];
      }
      if msg.toolCalls.Some? {
        blocks := PushCalls(blocks, msg.toolCalls.value, genId, codec);
      }
    }
    if blocks == [] { blocks := [TextBlock("")]; }
  }
}
