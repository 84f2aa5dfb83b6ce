/** What message translation preserves. */
module MessageLaws {
  import opened Wrappers
  import opened Messages

  // ---- Atoms: content independent of how it is packed into blocks or messages -----------------

  datatype Atom =
    | Say(role: string, c: char)
    | Reply(id: string, text: string)
    | Invoke(id: string, name: string, input: Json)

  function Says(role: string, text: string): seq<Atom> {
    if text == "" then [] else Says(role, text[..|text| - 1]) + [Say(role, text[|text| - 1])]
  }

  lemma {:induction false} SaysConcat(role: string, a: string, b: string)
    ensures Says(role, a + b) == Says(role, a) + Says(role, b)
  {
    if b == "" {
      assert a + b == a;
    } else {
      assert (a + b)[..|a + b| - 1] == a + b[..|b| - 1];
      SaysConcat(role, a, b[..|b| - 1]);
    }
  }

  /** One user block: a tool result, or the characters of its text. */
  function UserBlockAtoms(block: Json): seq<Atom> {
    if TypeOf(block) == Some("tool_result") then
      [Reply(StringAt(block, "tool_use_id").GetOr(""),
             if Get(block, "content").Some? then ContentToString(Get(block, "content").value) else "")]
    else Says("user", BlockText(block))
  }

  function UserAtoms(blocks: seq<Json>): seq<Atom> {
    if blocks == [] then [] else UserAtoms(blocks[..|blocks| - 1]) + UserBlockAtoms(blocks[|blocks| - 1])
  }

  /** The tool calls of an assistant turn, in order. */
  function InvokeAtoms(blocks: seq<Json>): seq<Atom> {
    if blocks == [] then []
    else
      var b := blocks[|blocks| - 1];
      InvokeAtoms(blocks[..|blocks| - 1])
      + (if TypeOf(b) == Some("tool_use") then
           [Invoke(StringAt(b, "id").GetOr(""), StringAt(b, "name").GetOr(""), Get(b, "input").GetOr(EMPTY_OBJECT))]
         else [])
  }

  /** A turn's content: tool results and text in order for users, text and then calls for assistants. */
  function TurnAtoms(turn: Turn): seq<Atom> {
    if turn.role == "user" && HasType(turn.content, "tool_result") then UserAtoms(turn.content.items)
    else
      Says(turn.role, ContentToString(turn.content))
      + (if turn.role == "assistant" && turn.content.Array? then InvokeAtoms(turn.content.items) else [])
  }

  function TurnsAtoms(turns: seq<Turn>): seq<Atom> {
    if turns == [] then [] else TurnsAtoms(turns[..|turns| - 1]) + TurnAtoms(turns[|turns| - 1])
  }

  function CallAtoms(calls: seq<Call>, codec: Codec): seq<Atom> {
    if calls == [] then []
    else
      var c := calls[|calls| - 1];
      CallAtoms(calls[..|calls| - 1], codec) + [Invoke(c.id, c.name, codec.parse(c.arguments).GetOr(Null))]
  }

  function MessageAtoms(m: ChatMessage, codec: Codec): seq<Atom> {
    match m
    case Plain(role, content) => Says(role, content)
    case ToolReply(id, content) => [Reply(id, content)]
    case Assistant(text, calls) => Says("assistant", text.GetOr("")) + CallAtoms(calls, codec)
  }

  function MessagesAtoms(ms: seq<ChatMessage>, codec: Codec): seq<Atom> {
    if ms == [] then [] else MessagesAtoms(ms[..|ms| - 1], codec) + MessageAtoms(ms[|ms| - 1], codec)
  }

  lemma {:induction false} MessagesAtomsConcat(a: seq<ChatMessage>, b: seq<ChatMessage>, codec: Codec)
    ensures MessagesAtoms(a + b, codec) == MessagesAtoms(a, codec) + MessagesAtoms(b, codec)
  {
    if b == [] {
      assert a + b == a;
    } else {
      var front, last := b[..|b| - 1], b[|b| - 1];
      assert (a + b)[..|a + b| - 1] == a + front && (a + b)[|a + b| - 1] == last;
      MessagesAtomsConcat(a, front, codec);
      AtomsAssoc(MessagesAtoms(a, codec), MessagesAtoms(front, codec), MessageAtoms(last, codec));
    }
  }

  lemma AtomsAssoc(a: seq<Atom>, b: seq<Atom>, c: seq<Atom>)
    ensures a + b + c == a + (b + c)
  {
  }

  lemma MessagesAtomsOne(m: ChatMessage, codec: Codec)
    ensures MessagesAtoms([m], codec) == MessageAtoms(m, codec)
  {
    assert [m][..0] == [];
  }

  // ---- User turns -----------------------------------------------------------------------------

  /** Emitted messages plus pending text hold exactly the atoms of the blocks so far. */
  lemma {:induction false} UserBlocksKeepAtoms(blocks: seq<Json>, codec: Codec)
    ensures var (messages, text) := UserBlocks(blocks);
      MessagesAtoms(messages, codec) + Says("user", text) == UserAtoms(blocks)
  {
    if blocks != [] {
      var front, block := blocks[..|blocks| - 1], blocks[|blocks| - 1];
      UserBlocksKeepAtoms(front, codec);
      var (messages, text) := UserBlocks(front);
      if TypeOf(block) == Some("tool_result") {
        FlushKeepsAtoms(messages, text, codec);
        MessagesAtomsConcat(Flushed(messages, text), [ReplyOf(block)], codec);
        MessagesAtomsOne(ReplyOf(block), codec);
      } else {
        SaysConcat("user", text, BlockText(block));
      }
    }
  }

  lemma FlushKeepsAtoms(messages: seq<ChatMessage>, text: string, codec: Codec)
    ensures MessagesAtoms(Flushed(messages, text), codec) == MessagesAtoms(messages, codec) + Says("user", text)
  {
    if text != "" {
      MessagesAtomsConcat(messages, [Plain("user", text)], codec);
      MessagesAtomsOne(Plain("user", text), codec);
    }
  }

  predicate IsText(m: ChatMessage) { m.Plain? && m.role == "user" }

  /** User text and tool replies only; texts are non-empty and never adjacent: maximal runs. */
  ghost predicate Maximal(ms: seq<ChatMessage>) {
    && (forall i :: 0 <= i < |ms| ==> (IsText(ms[i]) && ms[i].content != "") || ms[i].ToolReply?)
    && (forall i :: 0 <= i < |ms| - 1 ==> !(IsText(ms[i]) && IsText(ms[i + 1])))
  }

  lemma {:induction false} UserBlocksMaximal(blocks: seq<Json>)
    ensures var messages := UserBlocks(blocks).0;
      Maximal(messages) && (messages != [] ==> messages[|messages| - 1].ToolReply?)
  {
    if blocks != [] {
      UserBlocksMaximal(blocks[..|blocks| - 1]);
    }
  }

  ghost predicate EndsInReply(atoms: seq<Atom>) { atoms == [] || atoms[|atoms| - 1].Reply? }

  lemma AppendLast(a: seq<Atom>, b: seq<Atom>, x: Atom)
    ensures a + (b + [x]) == (a + b) + [x]
  {
  }

  lemma SaysSnoc(a: seq<Atom>, s: string)
    requires s != ""
    ensures a + Says("user", s) == (a + Says("user", s[..|s| - 1])) + [Say("user", s[|s| - 1])]
  {
    AppendLast(a, Says("user", s[..|s| - 1]), Say("user", s[|s| - 1]));
  }

  lemma LastAtomEqual(a: seq<Atom>, x: Atom, b: seq<Atom>, y: Atom)
    requires a + [x] == b + [y]
    ensures a == b && x == y
  {
    assert (a + [x])[|a + [x]| - 1] == x && (a + [x])[..|a + [x]| - 1] == a;
    assert (b + [y])[|b + [y]| - 1] == y && (b + [y])[..|b + [y]| - 1] == b;
  }

  /** Two texts that end the same atoms, each after a reply or at the start, are the same text. */
  lemma {:induction false} SplitAtReply(a: seq<Atom>, s: string, b: seq<Atom>, t: string)
    requires EndsInReply(a) && EndsInReply(b) && a + Says("user", s) == b + Says("user", t)
    ensures s == t && a == b
    decreases |s|
  {
    if s != "" { SaysSnoc(a, s); }
    if t != "" { SaysSnoc(b, t); }
    if s != "" && t != "" {
      var s', t' := s[..|s| - 1], t[..|t| - 1];
      LastAtomEqual(a + Says("user", s'), Say("user", s[|s| - 1]), b + Says("user", t'), Say("user", t[|t| - 1]));
      SplitAtReply(a, s', b, t');
      assert s == s' + [s[|s| - 1]] && t == t' + [t[|t| - 1]];
    } else if s == "" && t != "" {
      NoTextAtEnd(a, b + Says("user", t[..|t| - 1]), t[|t| - 1]);
    } else if s != "" {
      NoTextAtEnd(b, a + Says("user", s[..|s| - 1]), s[|s| - 1]);
    } else {
      assert a + [] == a && b + [] == b;
    }
  }

  lemma NoTextAtEnd(a: seq<Atom>, b: seq<Atom>, c: char)
    requires EndsInReply(a)
    ensures a + Says("user", "") != b + [Say("user", c)]
  {
    if a != [] { assert (b + [Say("user", c)])[|b|] == Say("user", c); }
  }

  lemma MaximalFront(front: seq<ChatMessage>, last: ChatMessage)
    requires Maximal(front + [last])
    ensures Maximal(front) && (last.ToolReply? || (IsText(last) && last.content != ""))
    ensures IsText(last) && front != [] ==> front[|front| - 1].ToolReply?
  {
    var all := front + [last];
    assert all[|front|] == last;
    forall i | 0 <= i < |front| ensures front[i] == all[i] {}
    if IsText(last) && front != [] {
      var i := |front| - 1;
      assert all[i] == front[i] && all[i + 1] == last;
    }
  }

  /** Before a text there are no atoms or a reply is the last one. */
  lemma ReplyBeforeText(front: seq<ChatMessage>, last: ChatMessage, codec: Codec)
    requires Maximal(front + [last]) && IsText(last)
    ensures EndsInReply(MessagesAtoms(front, codec))
  {
    MaximalFront(front, last);
  }

  /** Equal atoms end in equal messages. */
  lemma SameLastMessage(fa: seq<ChatMessage>, x: ChatMessage, fb: seq<ChatMessage>, y: ChatMessage, codec: Codec)
    requires Maximal(fa + [x]) && Maximal(fb + [y])
    requires MessagesAtoms(fa, codec) + MessageAtoms(x, codec) == MessagesAtoms(fb, codec) + MessageAtoms(y, codec)
    ensures x == y && MessagesAtoms(fa, codec) == MessagesAtoms(fb, codec)
  {
    MaximalFront(fa, x);
    MaximalFront(fb, y);
    var a, b := MessagesAtoms(fa, codec), MessagesAtoms(fb, codec);
    if IsText(x) { ReplyBeforeText(fa, x, codec); SaysSnoc(a, x.content); }
    if IsText(y) { ReplyBeforeText(fb, y, codec); SaysSnoc(b, y.content); }
    if IsText(x) && IsText(y) {
      SplitAtReply(a, x.content, b, y.content);
    } else if IsText(x) {
      LastAtomEqual(a + Says("user", x.content[..|x.content| - 1]), Say("user", x.content[|x.content| - 1]), b, Reply(y.id, y.content));
    } else if IsText(y) {
      LastAtomEqual(b + Says("user", y.content[..|y.content| - 1]), Say("user", y.content[|y.content| - 1]), a, Reply(x.id, x.content));
    } else {
      LastAtomEqual(a, Reply(x.id, x.content), b, Reply(y.id, y.content));
    }
  }

  lemma NoAtomsNoMessages(ms: seq<ChatMessage>, codec: Codec)
    requires Maximal(ms)
    ensures MessagesAtoms(ms, codec) == [] <==> ms == []
  {
  }

  /** Packing atoms into maximal runs leaves no choice: the atoms determine the messages. */
  lemma {:induction false} MaximalRunsAreUnique(a: seq<ChatMessage>, b: seq<ChatMessage>, codec: Codec)
    requires Maximal(a) && Maximal(b) && MessagesAtoms(a, codec) == MessagesAtoms(b, codec)
    ensures a == b
    decreases |a|
  {
    NoAtomsNoMessages(a, codec);
    NoAtomsNoMessages(b, codec);
    if a != [] && b != [] {
      var x, y := a[|a| - 1], b[|b| - 1];
      var fa, fb := a[..|a| - 1], b[..|b| - 1];
      assert a == fa + [x] && b == fb + [y];
      SameLastMessage(fa, x, fb, y, codec);
      MaximalFront(fa, x);
      MaximalFront(fb, y);
      MaximalRunsAreUnique(fa, fb, codec);
    }
  }

  /** A user turn with tool results becomes the same tool results and maximal non-empty text runs,
      in the same order, and this is the only such sequence. */
  lemma UserTurnIsPreserved(blocks: seq<Json>, other: seq<ChatMessage>, codec: Codec)
    ensures var out := UserToolResult(Array(blocks));
      && MessagesAtoms(out, codec) == UserAtoms(blocks)
      && Maximal(out)
      && (Maximal(other) && MessagesAtoms(other, codec) == UserAtoms(blocks) ==> other == out)
  {
    UserTurnKeepsAtoms(blocks, codec);
    UserTurnMaximal(blocks);
    if Maximal(other) && MessagesAtoms(other, codec) == UserAtoms(blocks) {
      MaximalRunsAreUnique(UserToolResult(Array(blocks)), other, codec);
    }
  }

  lemma UserTurnKeepsAtoms(blocks: seq<Json>, codec: Codec)
    ensures MessagesAtoms(UserToolResult(Array(blocks)), codec) == UserAtoms(blocks)
  {
    UserBlocksKeepAtoms(blocks, codec);
    FlushKeepsAtoms(UserBlocks(blocks).0, UserBlocks(blocks).1, codec);
  }

  lemma UserTurnMaximal(blocks: seq<Json>)
    ensures Maximal(UserToolResult(Array(blocks)))
  {
    UserBlocksMaximal(blocks);
  }

  // ---- All turns ------------------------------------------------------------------------------

  /** The inputs of all tool calls among the blocks survive. */
  ghost predicate InputsSurvive(blocks: seq<Json>, codec: Codec) {
    forall i :: 0 <= i < |blocks| && TypeOf(blocks[i]) == Some("tool_use") ==>
      Survives(Get(blocks[i], "input").GetOr(EMPTY_OBJECT), codec)
  }

  ghost predicate TurnSurvives(turn: Turn, codec: Codec) {
    turn.role == "assistant" && turn.content.Array? ==> InputsSurvive(turn.content.items, codec)
  }

  lemma {:induction false} CallsKeepAtoms(blocks: seq<Json>, codec: Codec)
    requires InputsSurvive(blocks, codec)
    ensures CallAtoms(CallsOf(blocks, codec), codec) == InvokeAtoms(blocks)
  {
    if blocks != [] {
      var n := |blocks| - 1;
      assert forall i :: 0 <= i < n ==> blocks[..n][i] == blocks[i];
      CallsKeepAtoms(blocks[..n], codec);
      var calls, c := CallsOf(blocks[..n], codec), CallOf(blocks[n], codec);
      assert (calls + [c])[..|calls + [c]| - 1] == calls && calls + [] == calls;
    }
  }

  lemma {:induction false} NoToolUseNoInvokes(blocks: seq<Json>)
    requires !HasType(Array(blocks), "tool_use")
    ensures InvokeAtoms(blocks) == []
  {
    if blocks != [] {
      var front := blocks[..|blocks| - 1];
      assert forall i :: 0 <= i < |front| ==> front[i] == blocks[i];
      assert forall i :: 0 <= i < |blocks| ==> TypeOf(Array(blocks).items[i]) != Some("tool_use");
      NoToolUseNoInvokes(front);
    }
  }

  lemma TurnKeepsAtoms(turn: Turn, codec: Codec)
    requires TurnSurvives(turn, codec)
    ensures MessagesAtoms(TranslateTurn(turn, codec), codec) == TurnAtoms(turn)
  {
    if turn.role == "assistant" && HasType(turn.content, "tool_use") {
      CallsKeepAtoms(turn.content.items, codec);
      MessagesAtomsOne(AssistantToolUse(turn.content, codec), codec);
    } else if turn.role == "user" && HasType(turn.content, "tool_result") {
      UserTurnKeepsAtoms(turn.content.items, codec);
    } else {
      if turn.content.Array? && turn.role == "assistant" { NoToolUseNoInvokes(turn.content.items); }
      MessagesAtomsOne(Plain(turn.role, ContentToString(turn.content)), codec);
    }
  }

  /** The whole conversation, in order: every character under its role, every tool result, every
      tool call with its id, name and argument value. */
  lemma {:induction false} ConversationIsPreserved(turns: seq<Turn>, codec: Codec)
    requires forall i :: 0 <= i < |turns| ==> TurnSurvives(turns[i], codec)
    ensures MessagesAtoms(TranslateTurns(turns, codec), codec) == TurnsAtoms(turns)
  {
    if turns != [] {
      var front, turn := turns[..|turns| - 1], turns[|turns| - 1];
      ConversationIsPreserved(front, codec);
      TurnKeepsAtoms(turn, codec);
      MessagesAtomsConcat(TranslateTurns(front, codec), TranslateTurn(turn, codec), codec);
    }
  }

  /** The translated request: the system text, if any, and then the conversation. */
  lemma RequestIsPreserved(system: Option<Json>, turns: seq<Turn>, codec: Codec)
    requires forall i :: 0 <= i < |turns| ==> TurnSurvives(turns[i], codec)
    ensures MessagesAtoms(SystemMessage(system) + TranslateTurns(turns, codec), codec)
         == Says("system", if system.Some? then SystemToString(system.value) else "") + TurnsAtoms(turns)
  {
    ConversationIsPreserved(turns, codec);
    MessagesAtomsConcat(SystemMessage(system), TranslateTurns(turns, codec), codec);
    SystemAtoms(system, codec);
  }

  lemma SystemAtoms(system: Option<Json>, codec: Codec)
    ensures MessagesAtoms(SystemMessage(system), codec) == Says("system", if system.Some? then SystemToString(system.value) else "")
  {
    if system.Some? && SystemToString(system.value) != "" {
      MessagesAtomsOne(Plain("system", SystemToString(system.value)), codec);
    }
  }

  // ---- Response and back ------------------------------------------------------------------------

  /** What a backend message says: its text, and its calls with parsed arguments. */
  function ResponseAtoms(m: OpenAIMessage, codec: Codec): seq<Atom> {
    Says("assistant", m.content.GetOr("")) + ToolCallAtoms(m.toolCalls.GetOr([]), codec)
  }

  function ToolCallAtoms(tcs: seq<OpenAIToolCall>, codec: Codec): seq<Atom> {
    if tcs == [] then []
    else
      var tc := tcs[|tcs| - 1];
      ToolCallAtoms(tcs[..|tcs| - 1], codec)
      + [Invoke(tc.id.GetOr(""), tc.Name(), codec.parse(tc.Arguments()).GetOr(Null))]
  }

  /** Ids are present and arguments are JSON. */
  ghost predicate WellFormedCalls(tcs: seq<OpenAIToolCall>, codec: Codec) {
    forall i :: 0 <= i < |tcs| ==> tcs[i].id.GetOr("") != "" && codec.parse(tcs[i].Arguments()).Some?
  }

  /** What one call's block says when it is read back. */
  lemma CallBlockReads(tc: OpenAIToolCall, id: string, codec: Codec)
    ensures var b := CallBlock(tc, id, codec);
      && TypeOf(b) == Some("tool_use") && BlockText(b) == ""
      && StringAt(b, "id") == Some(if tc.id.GetOr("") == "" then id else tc.id.value)
      && StringAt(b, "name") == Some(tc.Name())
      && Get(b, "input") == Some(codec.parse(tc.Arguments()).GetOr(EMPTY_OBJECT))
  {
  }

  lemma WellFormedSnoc(tcs: seq<OpenAIToolCall>, codec: Codec)
    requires tcs != []
    ensures WellFormedCalls(tcs, codec) <==>
            WellFormedCalls(tcs[..|tcs| - 1], codec)
            && tcs[|tcs| - 1].id.GetOr("") != "" && codec.parse(tcs[|tcs| - 1].Arguments()).Some?
  {
    var front := tcs[..|tcs| - 1];
    assert forall i :: 0 <= i < |front| ==> front[i] == tcs[i];
  }

  /** The calls survive exactly when every id is present and all arguments are JSON. */
  lemma {:induction false} CallBlocksKeepCalls(tcs: seq<OpenAIToolCall>, genId: nat -> string, codec: Codec)
    requires forall n :: genId(n) != ""
    ensures InvokeAtoms(CallBlocks(tcs, genId, codec)) == ToolCallAtoms(tcs, codec) <==> WellFormedCalls(tcs, codec)
    ensures BlocksText(CallBlocks(tcs, genId, codec)) == ""
  {
    if tcs != [] {
      var n := |tcs| - 1;
      CallBlocksKeepCalls(tcs[..n], genId, codec);
      CallBlockReads(tcs[n], genId(n), codec);
      WellFormedSnoc(tcs, codec);
      var front, block := CallBlocks(tcs[..n], genId, codec), CallBlock(tcs[n], genId(n), codec);
      assert (front + [block])[..|front + [block]| - 1] == front;
      var got := Invoke(if tcs[n].id.GetOr("") == "" then genId(n) else tcs[n].id.value, tcs[n].Name(),
                        codec.parse(tcs[n].Arguments()).GetOr(EMPTY_OBJECT));
      var meant := Invoke(tcs[n].id.GetOr(""), tcs[n].Name(), codec.parse(tcs[n].Arguments()).GetOr(Null));
      assert InvokeAtoms(front + [block]) == InvokeAtoms(front) + [got];
      assert ToolCallAtoms(tcs, codec) == ToolCallAtoms(tcs[..n], codec) + [meant];
      if InvokeAtoms(front) + [got] == ToolCallAtoms(tcs[..n], codec) + [meant] {
        LastAtomEqual(InvokeAtoms(front), got, ToolCallAtoms(tcs[..n], codec), meant);
      }
    }
  }

  lemma CallBlocksHaveType(tcs: seq<OpenAIToolCall>, genId: nat -> string, codec: Codec)
    requires tcs != []
    ensures HasType(Array(CallBlocks(tcs, genId, codec)), "tool_use")
  {
    var content := Array(CallBlocks(tcs, genId, codec));
    assert TypeOf(content.items[|content.items| - 1]) == Some("tool_use");
  }

  lemma {:induction false} TextBlockFirst(text: string, blocks: seq<Json>)
    ensures BlocksText([TextBlock(text)] + blocks) == text + BlocksText(blocks)
    ensures InvokeAtoms([TextBlock(text)] + blocks) == InvokeAtoms(blocks)
  {
    var first := [TextBlock(text)];
    if blocks == [] {
      assert first + blocks == first && first[..0] == [];
    } else {
      assert (first + blocks)[..|first + blocks| - 1] == first + blocks[..|blocks| - 1];
      TextBlockFirst(text, blocks[..|blocks| - 1]);
    }
  }

  /** The blocks of a translated response carry its text and its calls. */
  lemma ResponseBlocksKeepAtoms(m: OpenAIMessage, genId: nat -> string, codec: Codec)
    requires forall n :: genId(n) != ""
    ensures var blocks, tcs := ResponseContent(Some(m), genId, codec), m.toolCalls.GetOr([]);
      && BlocksText(blocks) == m.content.GetOr("")
      && (InvokeAtoms(blocks) == ToolCallAtoms(tcs, codec) <==> WellFormedCalls(tcs, codec))
      && (tcs != [] ==> HasType(Array(blocks), "tool_use"))
  {
    var tcs := m.toolCalls.GetOr([]);
    var calls := CallBlocks(tcs, genId, codec);
    CallBlocksKeepCalls(tcs, genId, codec);
    if tcs != [] { CallBlocksHaveType(tcs, genId, codec); }
    ContentIsTextThenCalls(m, genId, codec);
    var text := m.content.GetOr("");
    TextBlockFirst(text, calls);
    if HasType(Array(calls), "tool_use") { HasTypeLater(TextBlock(text), calls); }
  }

  lemma ContentIsTextThenCalls(m: OpenAIMessage, genId: nat -> string, codec: Codec)
    ensures var text, calls := m.content.GetOr(""), CallBlocks(m.toolCalls.GetOr([]), genId, codec);
      ResponseContent(Some(m), genId, codec) == if text != "" || calls == [] then [TextBlock(text)] + calls else calls
  {
    var text, calls := m.content.GetOr(""), CallBlocks(m.toolCalls.GetOr([]), genId, codec);
    if text == "" && calls == [] { assert [TextBlock(text)] + calls == [TextBlock("")]; }
  }

  lemma HasTypeLater(first: Json, blocks: seq<Json>)
    requires HasType(Array(blocks), "tool_use")
    ensures HasType(Array([first] + blocks), "tool_use")
  {
    var i :| 0 <= i < |blocks| && TypeOf(Array(blocks).items[i]) == Some("tool_use");
    assert Array([first] + blocks).items[i + 1] == blocks[i];
  }

  lemma SamePrefix(a: seq<Atom>, b: seq<Atom>, c: seq<Atom>)
    ensures a + b == a + c <==> b == c
  {
    if a + b == a + c { assert b == (a + b)[|a|..] == (a + c)[|a|..] == c; }
  }

  lemma {:induction false} CallInputsSurvive(tcs: seq<OpenAIToolCall>, genId: nat -> string, codec: Codec)
    requires Lossless(codec)
    ensures InputsSurvive(CallBlocks(tcs, genId, codec), codec)
  {
    if tcs != [] {
      var n := |tcs| - 1;
      CallInputsSurvive(tcs[..n], genId, codec);
      CallBlockReads(tcs[n], genId(n), codec);
    }
  }

  lemma ResponseInputsSurvive(m: OpenAIMessage, genId: nat -> string, codec: Codec)
    requires Lossless(codec)
    ensures InputsSurvive(ResponseContent(Some(m), genId, codec), codec)
  {
    ContentIsTextThenCalls(m, genId, codec);
    CallInputsSurvive(m.toolCalls.GetOr([]), genId, codec);
    var calls := CallBlocks(m.toolCalls.GetOr([]), genId, codec);
    assert forall i :: 0 <= i < |calls| ==> ([TextBlock(m.content.GetOr(""))] + calls)[i + 1] == calls[i];
  }

  /** A backend message, translated for the client and sent back as the assistant turn of the next
      request, reaches the backend as one message; it says the same text and makes the same calls
      if and only if every call had an id and arguments that parse. */
  lemma ResponseRoundTrip(m: OpenAIMessage, genId: nat -> string, codec: Codec)
    requires Lossless(codec) && forall n :: genId(n) != ""
    ensures var sent := TranslateTurn(Turn("assistant", Array(ResponseContent(Some(m), genId, codec))), codec);
      && |sent| == 1
      && (MessagesAtoms(sent, codec) == ResponseAtoms(m, codec) <==> WellFormedCalls(m.toolCalls.GetOr([]), codec))
  {
    var blocks := ResponseContent(Some(m), genId, codec);
    ResponseBlocksKeepAtoms(m, genId, codec);
    ResponseInputsSurvive(m, genId, codec);
    TurnKeepsAtoms(Turn("assistant", Array(blocks)), codec);
    SamePrefix(Says("assistant", m.content.GetOr("")), InvokeAtoms(blocks), ToolCallAtoms(m.toolCalls.GetOr([]), codec));
  }
}
