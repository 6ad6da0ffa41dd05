/**
 The run's conversation mirror. `ApplyChat` is what a chat frame means; the
 methods the mirror ignores, and the helpers it calls on batch summaries, are a
 parameter, so every result holds whatever they do.
 */
module RunMirror {
  import opened Wrappers
  import opened Coalescing
  import opened PortFrames
  import opened ToolCallRecords

  datatype Conversation = Conversation(messages: seq<Json>, fields: map<string, Json>)

  // What frames mean beyond this model: the helpers that merge batch summaries and bound
  // lists of tool calls, and the chat methods the mirror ignores but the shell may not.
  datatype OtherWrites = OtherWrites(helpers: Helpers, unlisted: (Conversation, string, seq<Json>) -> Conversation)

  // The message a write aims at: by id when one is given, otherwise the last one.
  function TargetIndex(messages: seq<Json>, msgId: Json): (i: nat)
    ensures i <= |messages|
  {
    if messages == [] then 0
    else if msgId != Undefined then IndexOfId(messages, msgId)
    else |messages| - 1
  }

  function EditAt(c: Conversation, i: nat, edit: Json -> Json): Conversation {
    if i < |c.messages| then c.(messages := c.messages[i := edit(c.messages[i])]) else c
  }

  // Last assistant message of the loop, or |messages| when there is none.
  function LoopMessage(messages: seq<Json>, loopId: Json): (i: nat)
    ensures i <= |messages|
  {
    if messages == [] then 0
    else
      var last := |messages| - 1;
      if Field(messages[last], "role") == Str("assistant") && Field(messages[last], "loopId") == loopId then last
      else
        var i := LoopMessage(messages[..last], loopId);
        if i < last then i else |messages|
  }

  function WithText(message: Json, token: Json): Json {
    var content := Field(message, "content");
    if !token.Str? then message
    else if content.Str? then SetField(message, "content", Str(content.s + token.s))
    else if content.List? && content.items != [] then
      var k := |content.items| - 1;
      var last := content.items[k];
      if Field(last, "type") == Str("text") && Field(last, "text").Str?
      then SetField(message, "content",
                    List(content.items[k := SetField(last, "text", Str(Field(last, "text").s + token.s))]))
      else message
    else message
  }

  function Appended(entries: Json, v: Json): Json {
    if entries.List? then List(entries.items + [v]) else List([v])
  }

  function MessageAdded(c: Conversation, message: Json): Conversation {
    c.(messages := c.messages + [message])
  }

  // The named message and everything after it goes.
  function MessagesDeletedFrom(c: Conversation, messageId: Json): Conversation {
    c.(messages := c.messages[..IndexOfId(c.messages, messageId)])
  }

  function WithContext(message: Json, context: Json): Json {
    SetField(message, "toolCallsForContext", Appended(Field(message, "toolCallsForContext"), context))
  }

  function ContextAppended(c: Conversation, loopId: Json, context: Json): Conversation {
    EditAt(c, LoopMessage(c.messages, loopId), t => WithContext(t, context))
  }

  function TextAppended(c: Conversation, token: Json, msgId: Json): Conversation {
    EditAt(c, TargetIndex(c.messages, msgId), t => WithText(t, token))
  }

  // `appendThinking` carries the whole text so far, so it replaces.
  function ThinkingReplaced(c: Conversation, thinking: Json, msgId: Json): Conversation {
    EditAt(c, TargetIndex(c.messages, msgId), t => SetField(t, "thinking", thinking))
  }

  function UsageOf(usage: Json): Json {
    var counts := map["inputTokens" := Field(usage, "inputTokens"), "outputTokens" := Field(usage, "outputTokens")];
    var prompt := Field(usage, "promptTokens");
    Obj(if prompt != Undefined then counts["promptTokens" := prompt] else counts)
  }

  // The chat methods whose effect on the conversation the mirror spells out.
  datatype ChatMethod =
    | AddMessage | DeleteMessagesFrom | SetConversationStatus | SetConversationModel | DeactivateSkills
    | AppendText | SetLastMessageContent | AppendThinking | SetThinkingDuration | SetThinkingSignature
    | AppendRedactedThinking | FinishStreaming | CancelStreaming | SetMessageStreamingFlag | SetMessageToolCalls
    | UpdateToolCall | CheckpointToolCallMetadata | AppendToolCallContext | AppendMessageToolCall | UpdateMessageUsage
    | Unlisted

  function MethodNamed(m: string): ChatMethod {
    match m
    case "addMessage" => AddMessage
    case "appendText" => AppendText
    case "setLastMessageContent" => SetLastMessageContent
    case "appendThinking" => AppendThinking
    case "setThinkingDuration" => SetThinkingDuration
    case "setThinkingSignature" => SetThinkingSignature
    case "appendRedactedThinking" => AppendRedactedThinking
    case "finishStreaming" => FinishStreaming
    case "cancelStreaming" => CancelStreaming
    case "setMessageStreamingFlag" => SetMessageStreamingFlag
    case "setMessageToolCalls" => SetMessageToolCalls
    case "deleteMessagesFrom" => DeleteMessagesFrom
    case "appendToolCallContext" => AppendToolCallContext
    case "setConversationStatus" => SetConversationStatus
    case "setConversationModel" => SetConversationModel
    case "deactivateSkills" => DeactivateSkills
    case "updateToolCall" => UpdateToolCall
    case "checkpointToolCallMetadata" => CheckpointToolCallMetadata
    case "appendMessageToolCall" => AppendMessageToolCall
    case "updateMessageUsage" => UpdateMessageUsage
    case _ => Unlisted
  }

  predicate EditsOneMessage(m: ChatMethod) {
    m !in {AddMessage, DeleteMessagesFrom, SetConversationStatus, SetConversationModel, DeactivateSkills, Unlisted}
  }

  // The message a write that edits one aims at, or |messages| when there is none.
  function AimedAt(messages: seq<Json>, m: ChatMethod, a: seq<Json>): (i: nat)
    ensures i <= |messages|
  {
    match m
    case SetMessageStreamingFlag => IndexOfId(messages, Arg(a, 1))
    case SetMessageToolCalls => IndexOfId(messages, Arg(a, 1))
    case UpdateToolCall => IndexOfId(messages, Arg(a, 1))
    case CheckpointToolCallMetadata => IndexOfId(messages, Arg(a, 1))
    case AppendToolCallContext => LoopMessage(messages, Arg(a, 1))
    case AppendMessageToolCall => LoopMessage(messages, Arg(a, 1))
    case FinishStreaming => TargetIndex(messages, Arg(a, 1))
    case CancelStreaming => TargetIndex(messages, Undefined)
    case _ => TargetIndex(messages, Arg(a, 2))
  }

  // What such a write makes of its message.
  function Edited(h: Helpers, m: ChatMethod, a: seq<Json>, t: Json): Json {
    var (x, y) := (Arg(a, 1), Arg(a, 2));
    match m
    case AppendText => WithText(t, x)
    case SetLastMessageContent => SetField(t, "content", x)
    case AppendThinking => SetField(t, "thinking", x)
    case SetThinkingDuration => SetField(t, "thinkingDuration", x)
    case SetThinkingSignature => SetField(t, "thinkingSignature", x)
    case AppendRedactedThinking => SetField(t, "redactedThinking", Appended(Field(t, "redactedThinking"), x))
    case FinishStreaming => SetField(t, "isStreaming", Bool(false))
    case CancelStreaming => SetField(t, "isStreaming", Bool(false))
    case SetMessageStreamingFlag => SetField(t, "isStreaming", y)
    case SetMessageToolCalls => SetField(SetField(t, "toolCalls", y), "isStreaming", Bool(false))
    case UpdateToolCall => WithToolCall(t, y, tc => Updated(h, tc, a))
    case CheckpointToolCallMetadata => WithToolCall(t, y, tc => Checkpointed(h, tc, x, y, Arg(a, 3)))
    case AppendToolCallContext => WithContext(t, y)
    case AppendMessageToolCall => WithSubagentCall(h, t, y)
    case UpdateMessageUsage => SetField(t, "usage", UsageOf(x))
    case _ => t
  }

  function ApplyMethod(h: Helpers, c: Conversation, m: ChatMethod, a: seq<Json>): Conversation {
    match m
    case AddMessage => MessageAdded(c, Arg(a, 1))
    case DeleteMessagesFrom => MessagesDeletedFrom(c, Arg(a, 1))
    case SetConversationStatus => c.(fields := c.fields["status" := Arg(a, 1)])
    case SetConversationModel => c.(fields := c.fields["model" := Arg(a, 1)])
    case DeactivateSkills => c.(fields := c.fields["activeSkills" := List([])])
    case Unlisted => c
    case _ => EditAt(c, AimedAt(c.messages, m, a), t => Edited(h, m, a, t))
  }

  function ApplyChat(other: OtherWrites, c: Conversation, m: string, a: seq<Json>): Conversation {
    if MethodNamed(m) == Unlisted then other.unlisted(c, m, a) else ApplyMethod(other.helpers, c, MethodNamed(m), a)
  }

  // d is c with at most message i changed, which keeps its id and role.
  ghost predicate ChangedOnlyAt(c: Conversation, d: Conversation, i: nat) {
    && d.fields == c.fields && |d.messages| == |c.messages|
    && forall k :: 0 <= k < |c.messages| ==>
                     && (k != i ==> d.messages[k] == c.messages[k])
                     && Field(d.messages[k], "id") == Field(c.messages[k], "id")
                     && Field(d.messages[k], "role") == Field(c.messages[k], "role")
  }

  lemma TextKeepsIdAndRole(message: Json, token: Json)
    ensures Field(WithText(message, token), "id") == Field(message, "id")
    ensures Field(WithText(message, token), "role") == Field(message, "role")
  {
  }

  lemma CallKeepsIdAndRole(message: Json, toolCallId: Json, edit: Json -> Json)
    ensures var t := WithToolCall(message, toolCallId, edit);
            Field(t, "id") == Field(message, "id") && Field(t, "role") == Field(message, "role")
  {
  }

  lemma SubagentCallKeepsIdAndRole(h: Helpers, message: Json, toolCall: Json)
    ensures var t := WithSubagentCall(h, message, toolCall);
            Field(t, "id") == Field(message, "id") && Field(t, "role") == Field(message, "role")
  {
  }

  predicate EditsToolCalls(m: ChatMethod) {
    m in {UpdateToolCall, CheckpointToolCallMetadata, AppendMessageToolCall}
  }

  lemma ToolEditKeepsIdAndRole(h: Helpers, m: ChatMethod, a: seq<Json>, t: Json)
    requires EditsToolCalls(m)
    ensures var u := Edited(h, m, a, t); Field(u, "id") == Field(t, "id") && Field(u, "role") == Field(t, "role")
  {
    match m {
      case UpdateToolCall => CallKeepsIdAndRole(t, Arg(a, 2), tc => Updated(h, tc, a));
      case CheckpointToolCallMetadata =>
        CallKeepsIdAndRole(t, Arg(a, 2), tc => Checkpointed(h, tc, Arg(a, 1), Arg(a, 2), Arg(a, 3)));
      case AppendMessageToolCall => SubagentCallKeepsIdAndRole(h, t, Arg(a, 2));
    }
  }

  lemma FieldKeepsIdAndRole(t: Json, key: string, v: Json)
    requires key != "id" && key != "role"
    ensures var u := SetField(t, key, v); Field(u, "id") == Field(t, "id") && Field(u, "role") == Field(t, "role")
  {
  }

  lemma PlainEditKeepsIdAndRole(h: Helpers, m: ChatMethod, a: seq<Json>, t: Json)
    requires !EditsToolCalls(m) && m != AppendText
    ensures var u := Edited(h, m, a, t); Field(u, "id") == Field(t, "id") && Field(u, "role") == Field(t, "role")
  {
    if m == SetMessageToolCalls {
      FieldKeepsIdAndRole(t, "toolCalls", Arg(a, 2));
      FieldKeepsIdAndRole(SetField(t, "toolCalls", Arg(a, 2)), "isStreaming", Bool(false));
    }
  }

  lemma EditKeepsIdAndRole(h: Helpers, m: ChatMethod, a: seq<Json>, t: Json)
    ensures var u := Edited(h, m, a, t); Field(u, "id") == Field(t, "id") && Field(u, "role") == Field(t, "role")
  {
    if EditsToolCalls(m) {
      ToolEditKeepsIdAndRole(h, m, a, t);
    } else if m == AppendText {
      TextKeepsIdAndRole(t, Arg(a, 1));
    } else {
      PlainEditKeepsIdAndRole(h, m, a, t);
    }
  }

  // Such a write changes at most the message it aims at, and never that message's id or role.
  lemma EditsTouchOneMessage(other: OtherWrites, c: Conversation, m: string, a: seq<Json>)
    requires EditsOneMessage(MethodNamed(m))
    ensures ChangedOnlyAt(c, ApplyChat(other, c, m, a), AimedAt(c.messages, MethodNamed(m), a))
  {
    var named := MethodNamed(m);
    var i := AimedAt(c.messages, named, a);
    if i < |c.messages| {
      EditKeepsIdAndRole(other.helpers, named, a, c.messages[i]);
    }
  }

  // Replacing a message by one with the same id moves no target.
  lemma SameIdSameTarget(messages: seq<Json>, i: nat, message: Json, msgId: Json)
    requires i < |messages| && Field(message, "id") == Field(messages[i], "id")
    ensures TargetIndex(messages[i := message], msgId) == TargetIndex(messages, msgId)
  {
    if msgId != Undefined {
      SameIdSameIndex(messages, i, message, msgId);
    }
  }

  lemma SameIdSameIndex(messages: seq<Json>, i: nat, message: Json, msgId: Json)
    requires i < |messages| && Field(message, "id") == Field(messages[i], "id")
    ensures IndexOfId(messages[i := message], msgId) == IndexOfId(messages, msgId)
  {
    var d := messages[i := message];
    var x, y := IndexOfId(messages, msgId), IndexOfId(d, msgId);
    assert forall k :: 0 <= k < |messages| ==> Field(d[k], "id") == Field(messages[k], "id");
  }

  lemma WithTextTwice(message: Json, x: string, y: string)
    ensures WithText(WithText(message, Str(x)), Str(y)) == WithText(message, Str(x + y))
    ensures Field(WithText(message, Str(x)), "id") == Field(message, "id")
  {
    var content := Field(message, "content");
    if content.Str? {
      assert content.s + (x + y) == (content.s + x) + y;
      assert message.fields["content" := Str(content.s + x)]["content" := Str(content.s + x + y)]
          == message.fields["content" := Str(content.s + (x + y))];
    } else if content.List? && content.items != [] {
      var k := |content.items| - 1;
      var last := content.items[k];
      var text := Field(last, "text");
      if Field(last, "type") == Str("text") && text.Str? {
        assert text.s + (x + y) == (text.s + x) + y;
        var once := SetField(last, "text", Str(text.s + x));
        assert Field(once, "type") == Field(last, "type") && Field(once, "text") == Str(text.s + x);
        assert once.fields["text" := Str(text.s + x + y)] == last.fields["text" := Str(text.s + (x + y))];
        var xs := content.items[k := once];
        assert xs[k := SetField(once, "text", Str(text.s + x + y))]
            == content.items[k := SetField(last, "text", Str(text.s + (x + y)))];
        assert message.fields["content" := List(xs)]["content" := List(xs[k := SetField(once, "text", Str(text.s + x + y))])]
            == message.fields["content" := List(xs[k := SetField(once, "text", Str(text.s + x + y))])];
      }
    }
  }

  lemma SetThinkingTwice(message: Json, x: Json, y: Json)
    ensures SetField(SetField(message, "thinking", x), "thinking", y) == SetField(message, "thinking", y)
    ensures Field(SetField(message, "thinking", x), "id") == Field(message, "id")
  {
    if message.Obj? {
      assert message.fields["thinking" := x]["thinking" := y] == message.fields["thinking" := y];
    }
  }

  // Everything the shell keeps: the conversation, plus what the other ports write.
  datatype World<W> = World(conv: Conversation, rest: W)

  function ApplyFrame<W>(other: OtherWrites, ports: (W, PortFrame) -> W, w: World<W>, f: PortFrame): World<W> {
    if f.p == Chat then w.(conv := ApplyChat(other, w.conv, f.m, f.a)) else w.(rest := ports(w.rest, f))
  }

  function Meaning<W>(other: OtherWrites, ports: (W, PortFrame) -> W): (World<W>, PortFrame) -> World<W> {
    (w: World<W>, f: PortFrame) => ApplyFrame(other, ports, w, f)
  }

  lemma TextAppendedTwice(c: Conversation, x: string, y: string, msgId: Json)
    ensures TextAppended(TextAppended(c, Str(x), msgId), Str(y), msgId) == TextAppended(c, Str(x + y), msgId)
  {
    var i := TargetIndex(c.messages, msgId);
    if i < |c.messages| {
      var once := WithText(c.messages[i], Str(x));
      WithTextTwice(c.messages[i], x, y);
      SameIdSameTarget(c.messages, i, once, msgId);
      assert c.messages[i := once][i := WithText(once, Str(y))] == c.messages[i := WithText(once, Str(y))];
    }
  }

  lemma ThinkingReplacedTwice(c: Conversation, x: Json, y: Json, msgId: Json)
    ensures ThinkingReplaced(ThinkingReplaced(c, x, msgId), y, msgId) == ThinkingReplaced(c, y, msgId)
  {
    var i := TargetIndex(c.messages, msgId);
    if i < |c.messages| {
      var once := SetField(c.messages[i], "thinking", x);
      SetThinkingTwice(c.messages[i], x, y);
      SameIdSameTarget(c.messages, i, once, msgId);
      assert c.messages[i := once][i := SetField(once, "thinking", y)] == c.messages[i := SetField(once, "thinking", y)];
    }
  }

  lemma StreamedMethods(other: OtherWrites, c: Conversation, a: seq<Json>)
    ensures ApplyChat(other, c, "appendText", a) == TextAppended(c, Arg(a, 1), Arg(a, 2))
    ensures ApplyChat(other, c, "appendThinking", a) == ThinkingReplaced(c, Arg(a, 1), Arg(a, 2))
  {
  }

  lemma FuseMeaning<W>(other: OtherWrites, ports: (W, PortFrame) -> W, w: World<W>, a: PortFrame, b: PortFrame)
    requires Fuse(a, b).Some?
    ensures ApplyFrame(other, ports, w, Fuse(a, b).value) == ApplyFrame(other, ports, ApplyFrame(other, ports, w, a), b)
  {
    var (x, y, id) := (Arg(a.a, 1), Arg(b.a, 1), Arg(a.a, 2));
    var once := ApplyFrame(other, ports, w, a).conv;
    StreamedMethods(other, w.conv, a.a);
    StreamedMethods(other, once, b.a);
    StreamedMethods(other, w.conv, Fuse(a, b).value.a);
    if IsAppendMethod(a.m) {
      TextAppendedTwice(w.conv, x.s, y.s, id);
    } else {
      ThinkingReplacedTwice(w.conv, x, y, id);
    }
  }

  // Fusing two frames never changes what they do to the shell.
  lemma FuseRespectsMeaning<W(!new)>(other: OtherWrites, ports: (W, PortFrame) -> W)
    ensures Respects(Fuse, Meaning(other, ports))
  {
    forall w: World<W>, a, b | Fuse(a, b).Some?
      ensures Meaning(other, ports)(w, Fuse(a, b).value) == Meaning(other, ports)(Meaning(other, ports)(w, a), b)
    {
      FuseMeaning(other, ports, w, a, b);
    }
  }

  // The mirror itself: every write overwrites `conversation` in place.
  class ConversationRunMirror {
    var conversation: Conversation

    constructor (seed: Conversation)
      ensures conversation == seed
    {
      conversation := seed;
    }

    method FindById(id: Json) returns (i: nat)
      ensures i == IndexOfId(conversation.messages, id)
    {
      var messages := conversation.messages;
      i := 0;
      while i < |messages| && Field(messages[i], "id") != id
        invariant i <= |messages|
        invariant IndexOfId(messages, id) == i + IndexOfId(messages[i..], id)
      {
        assert messages[i..][1..] == messages[i + 1..];
        i := i + 1;
      }
    }

    method FindTarget(msgId: Json) returns (i: nat)
      ensures i == TargetIndex(conversation.messages, msgId)
    {
      if conversation.messages == [] { return 0; }
      if msgId != Undefined {
        i := FindById(msgId);
      } else {
        i := |conversation.messages| - 1;
      }
    }

    // Scans backwards for the loop's latest assistant message.
    method FindLoopMessage(loopId: Json) returns (i: nat)
      ensures i == LoopMessage(conversation.messages, loopId)
    {
      var messages := conversation.messages;
      var k := |messages|;
      assert messages[..k] == messages;
      while k > 0
        invariant 0 <= k <= |messages|
        invariant var j := LoopMessage(messages[..k], loopId);
                  LoopMessage(messages, loopId) == if j < k then j else |messages|
      {
        assert messages[..k][..k - 1] == messages[..k - 1];
        var message := messages[k - 1];
        if Field(message, "role") == Str("assistant") && Field(message, "loopId") == loopId { return k - 1; }
        k := k - 1;
      }
      return |messages|;
    }

    method AddMessage(message: Json)
      modifies this
      ensures conversation == MessageAdded(old(conversation), message)
    {
      conversation := conversation.(messages := conversation.messages + [message]);
    }

    method AppendText(token: Json, msgId: Json)
      modifies this
      ensures conversation == TextAppended(old(conversation), token, msgId)
    {
      var i := FindTarget(msgId);
      if i < |conversation.messages| {
        conversation := conversation.(messages := conversation.messages[i := WithText(conversation.messages[i], token)]);
      }
    }

    method AppendThinking(thinking: Json, msgId: Json)
      modifies this
      ensures conversation == ThinkingReplaced(old(conversation), thinking, msgId)
    {
      var i := FindTarget(msgId);
      if i < |conversation.messages| {
        conversation :=
          conversation.(messages := conversation.messages[i := SetField(conversation.messages[i], "thinking", thinking)]);
      }
    }

    method DeleteMessagesFrom(messageId: Json)
      modifies this
      ensures conversation == MessagesDeletedFrom(old(conversation), messageId)
    {
      var i := FindById(messageId);
      conversation := conversation.(messages := conversation.messages[..i]);
    }

    method AppendToolCallContext(loopId: Json, context: Json)
      modifies this
      ensures conversation == ContextAppended(old(conversation), loopId, context)
    {
      var i := FindLoopMessage(loopId);
      if i < |conversation.messages| {
        conversation :=
          conversation.(messages := conversation.messages[i := WithContext(conversation.messages[i], context)]);
      }
    }

    method FindAimed(named: ChatMethod, a: seq<Json>) returns (i: nat)
      ensures i == AimedAt(conversation.messages, named, a)
    {
      match named {
        case SetMessageStreamingFlag => i := FindById(Arg(a, 1));
        case SetMessageToolCalls => i := FindById(Arg(a, 1));
        case UpdateToolCall => i := FindById(Arg(a, 1));
        case CheckpointToolCallMetadata => i := FindById(Arg(a, 1));
        case AppendToolCallContext => i := FindLoopMessage(Arg(a, 1));
        case AppendMessageToolCall => i := FindLoopMessage(Arg(a, 1));
        case FinishStreaming => i := FindTarget(Arg(a, 1));
        case CancelStreaming => i := FindTarget(Undefined);
        case _ => i := FindTarget(Arg(a, 2));
      }
    }

    method EditMessage(h: Helpers, named: ChatMethod, a: seq<Json>)
      requires EditsOneMessage(named)
      modifies this
      ensures conversation == ApplyMethod(h, old(conversation), named, a)
    {
      var i := FindAimed(named, a);
      if i < |conversation.messages| {
        conversation :=
          conversation.(messages := conversation.messages[i := Edited(h, named, a, conversation.messages[i])]);
      }
    }

    method ApplyNamed(h: Helpers, named: ChatMethod, a: seq<Json>)
      modifies this
      ensures conversation == ApplyMethod(h, old(conversation), named, a)
    {
      match named {
        case Unlisted =>
        case AddMessage => AddMessage(Arg(a, 1));
        case DeleteMessagesFrom => DeleteMessagesFrom(Arg(a, 1));
        case SetConversationStatus => conversation := conversation.(fields := conversation.fields["status" := Arg(a, 1)]);
        case SetConversationModel => conversation := conversation.(fields := conversation.fields["model" := Arg(a, 1)]);
        case DeactivateSkills => conversation := conversation.(fields := conversation.fields["activeSkills" := List([])]);
        case AppendText => AppendText(Arg(a, 1), Arg(a, 2));
        case AppendThinking => AppendThinking(Arg(a, 1), Arg(a, 2));
        case AppendToolCallContext => AppendToolCallContext(Arg(a, 1), Arg(a, 2));
        case _ => EditMessage(h, named, a);
      }
    }

    // One write, in place; a method the mirror does not list leaves the conversation alone.
    method ApplyChatDeltaWrite(h: Helpers, m: string, a: seq<Json>)
      modifies this
      ensures conversation == ApplyChat(OtherWrites(h, (c, _, _) => c), old(conversation), m, a)
    {
      ApplyNamed(h, MethodNamed(m), a);
    }
  }
}
