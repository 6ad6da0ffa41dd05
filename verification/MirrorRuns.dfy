/**
 What the run mirror shows after any run of writes, said without its write functions:
 whom a write aims at, the text a message shows, the last value of each field, the
 lists that only grow.
 */
module MirrorRuns {
  import opened Wrappers
  import opened PortFrames
  import opened ToolCallFields
  import opened ToolCallRecords
  import opened RunMirror

  datatype ChatWrite = ChatWrite(m: ChatMethod, a: seq<Json>)

  function ApplyWrites(h: Helpers, c: Conversation, writes: seq<ChatWrite>): Conversation {
    if writes == [] then c
    else
      var w := writes[|writes| - 1];
      ApplyMethod(h, ApplyWrites(h, c, writes[..|writes| - 1]), w.m, w.a)
  }

  // Any other name is unlisted.
  lemma OnlyTheseNames(m: string)
    ensures MethodNamed(m) != Unlisted ==>
      || m == "addMessage" || m == "appendText" || m == "setLastMessageContent"
      || m == "appendThinking" || m == "setThinkingDuration" || m == "setThinkingSignature"
      || m == "appendRedactedThinking" || m == "finishStreaming" || m == "cancelStreaming"
      || m == "setMessageStreamingFlag" || m == "setMessageToolCalls" || m == "deleteMessagesFrom"
      || m == "appendToolCallContext" || m == "setConversationStatus" || m == "setConversationModel"
      || m == "deactivateSkills" || m == "updateToolCall" || m == "checkpointToolCallMetadata"
      || m == "appendMessageToolCall" || m == "updateMessageUsage"
  {
  }

  // The names the methods have in frames.
  lemma MethodNames()
    ensures MethodNamed("addMessage") == AddMessage && MethodNamed("appendText") == AppendText
    ensures MethodNamed("setLastMessageContent") == SetLastMessageContent && MethodNamed("appendThinking") == AppendThinking
    ensures MethodNamed("setThinkingDuration") == SetThinkingDuration
    ensures MethodNamed("setThinkingSignature") == SetThinkingSignature
    ensures MethodNamed("appendRedactedThinking") == AppendRedactedThinking
    ensures MethodNamed("finishStreaming") == FinishStreaming && MethodNamed("cancelStreaming") == CancelStreaming
    ensures MethodNamed("setMessageStreamingFlag") == SetMessageStreamingFlag
  {
  }

  lemma MoreMethodNames()
    ensures MethodNamed("setMessageToolCalls") == SetMessageToolCalls
    ensures MethodNamed("deleteMessagesFrom") == DeleteMessagesFrom
    ensures MethodNamed("appendToolCallContext") == AppendToolCallContext
    ensures MethodNamed("setConversationStatus") == SetConversationStatus
    ensures MethodNamed("setConversationModel") == SetConversationModel && MethodNamed("deactivateSkills") == DeactivateSkills
    ensures MethodNamed("updateToolCall") == UpdateToolCall
    ensures MethodNamed("checkpointToolCallMetadata") == CheckpointToolCallMetadata
    ensures MethodNamed("appendMessageToolCall") == AppendMessageToolCall
    ensures MethodNamed("updateMessageUsage") == UpdateMessageUsage
  {
  }

  // The first message with the id.
  ghost predicate FirstWithId(messages: seq<Json>, id: Json, i: nat) {
    i < |messages| && Field(messages[i], "id") == id && forall k :: 0 <= k < i ==> Field(messages[k], "id") != id
  }

  predicate OfLoop(message: Json, loopId: Json) {
    Field(message, "role") == Str("assistant") && Field(message, "loopId") == loopId
  }

  // Message i is the one a write is about: named by id, the last one when no id is given,
  // or the latest answer of a loop.
  ghost predicate Aims(messages: seq<Json>, m: ChatMethod, a: seq<Json>, i: nat) {
    && i < |messages|
    && match m
       case SetMessageStreamingFlag => FirstWithId(messages, Arg(a, 1), i)
       case SetMessageToolCalls => FirstWithId(messages, Arg(a, 1), i)
       case UpdateToolCall => FirstWithId(messages, Arg(a, 1), i)
       case CheckpointToolCallMetadata => FirstWithId(messages, Arg(a, 1), i)
       case AppendToolCallContext =>
         OfLoop(messages[i], Arg(a, 1)) && forall k :: i < k < |messages| ==> !OfLoop(messages[k], Arg(a, 1))
       case AppendMessageToolCall =>
         OfLoop(messages[i], Arg(a, 1)) && forall k :: i < k < |messages| ==> !OfLoop(messages[k], Arg(a, 1))
       case FinishStreaming => if Arg(a, 1) == Undefined then i == |messages| - 1 else FirstWithId(messages, Arg(a, 1), i)
       case CancelStreaming => i == |messages| - 1
       case _ => if Arg(a, 2) == Undefined then i == |messages| - 1 else FirstWithId(messages, Arg(a, 2), i)
  }

  lemma {:induction false} LoopMessageIsLatest(messages: seq<Json>, loopId: Json)
    ensures var i := LoopMessage(messages, loopId);
            && (i < |messages| ==> OfLoop(messages[i], loopId))
            && forall k :: (if i < |messages| then i + 1 else 0) <= k < |messages| ==> !OfLoop(messages[k], loopId)
  {
    if messages != [] {
      LoopMessageIsLatest(messages[..|messages| - 1], loopId);
    }
  }

  lemma IndexIsFirst(messages: seq<Json>, id: Json, i: nat)
    ensures FirstWithId(messages, id, i) <==> i < |messages| && IndexOfId(messages, id) == i
  {
  }

  lemma TargetIsRight(messages: seq<Json>, id: Json, i: nat)
    ensures (i < |messages| && if id == Undefined then i == |messages| - 1 else FirstWithId(messages, id, i))
       <==> i < |messages| && TargetIndex(messages, id) == i
  {
    IndexIsFirst(messages, id, i);
  }

  lemma LoopMessageIsRight(messages: seq<Json>, loopId: Json, i: nat)
    ensures (i < |messages| && OfLoop(messages[i], loopId) && forall k :: i < k < |messages| ==> !OfLoop(messages[k], loopId))
       <==> i < |messages| && LoopMessage(messages, loopId) == i
  {
    LoopMessageIsLatest(messages, loopId);
  }

  lemma AimsExactly(messages: seq<Json>, m: ChatMethod, a: seq<Json>, i: nat)
    ensures Aims(messages, m, a, i) <==> i < |messages| && AimedAt(messages, m, a) == i
  {
    IndexIsFirst(messages, Arg(a, 1), i);
    LoopMessageIsRight(messages, Arg(a, 1), i);
    TargetIsRight(messages, Arg(a, 1), i);
    TargetIsRight(messages, Arg(a, 2), i);
    TargetIsRight(messages, Undefined, i);
  }

  // What an edit leaves alone in every message: who it is, and whose loop it is of.
  predicate SameIdentity(t: Json, u: Json) {
    && (t.Obj? <==> u.Obj?)
    && Field(u, "id") == Field(t, "id") && Field(u, "role") == Field(t, "role") && Field(u, "loopId") == Field(t, "loopId")
  }

  ghost predicate SameMessages(c: seq<Json>, d: seq<Json>) {
    |d| == |c| && forall k :: 0 <= k < |c| ==> SameIdentity(c[k], d[k])
  }

  lemma AimStays(c: seq<Json>, d: seq<Json>, m: ChatMethod, a: seq<Json>, i: nat)
    requires SameMessages(c, d)
    ensures Aims(d, m, a, i) <==> Aims(c, m, a, i)
  {
    forall k, loopId | 0 <= k < |c|
      ensures OfLoop(d[k], loopId) <==> OfLoop(c[k], loopId)
    {
      assert SameIdentity(c[k], d[k]);
    }
  }

  // The value a write gives to a field, if it sets that field.
  function Assigned(m: ChatMethod, a: seq<Json>, key: string): Option<Json> {
    match m
    case SetLastMessageContent => if key == "content" then Some(Arg(a, 1)) else None
    case AppendThinking => if key == "thinking" then Some(Arg(a, 1)) else None
    case SetThinkingDuration => if key == "thinkingDuration" then Some(Arg(a, 1)) else None
    case SetThinkingSignature => if key == "thinkingSignature" then Some(Arg(a, 1)) else None
    case FinishStreaming => if key == "isStreaming" then Some(Bool(false)) else None
    case CancelStreaming => if key == "isStreaming" then Some(Bool(false)) else None
    case SetMessageStreamingFlag => if key == "isStreaming" then Some(Arg(a, 2)) else None
    case SetMessageToolCalls =>
      if key == "toolCalls" then Some(Arg(a, 2)) else if key == "isStreaming" then Some(Bool(false)) else None
    case UpdateMessageUsage => if key == "usage" then Some(UsageOf(Arg(a, 1))) else None
    case _ => None
  }

  // The field a write builds on instead of setting it.
  function BuildsOn(m: ChatMethod): Option<string> {
    match m
    case AppendText => Some("content")
    case AppendRedactedThinking => Some("redactedThinking")
    case AppendToolCallContext => Some("toolCallsForContext")
    case UpdateToolCall => Some("toolCalls")
    case CheckpointToolCallMetadata => Some("toolCalls")
    case AppendMessageToolCall => Some("toolCalls")
    case _ => None
  }

  lemma FieldAfterSet(t: Json, written: string, v: Json, key: string)
    requires t.Obj?
    ensures SetField(t, written, v).Obj? && Field(SetField(t, written, v), key) == if key == written then v else Field(t, key)
  {
  }

  lemma CallEditsKeep(h: Helpers, t: Json, toolCallId: Json, edit: Json -> Json, toolCall: Json, key: string)
    requires t.Obj? && key != "toolCalls"
    ensures WithToolCall(t, toolCallId, edit).Obj? && Field(WithToolCall(t, toolCallId, edit), key) == Field(t, key)
    ensures WithSubagentCall(h, t, toolCall).Obj? && Field(WithSubagentCall(h, t, toolCall), key) == Field(t, key)
  {
  }

  lemma TextKeepsFields(t: Json, token: Json, key: string)
    requires t.Obj? && key != "content"
    ensures WithText(t, token).Obj? && Field(WithText(t, token), key) == Field(t, key)
  {
  }

  lemma ToolEditKeeps(h: Helpers, m: ChatMethod, a: seq<Json>, t: Json, key: string)
    requires t.Obj? && EditsToolCalls(m) && key != "toolCalls"
    ensures Edited(h, m, a, t).Obj? && Field(Edited(h, m, a, t), key) == Field(t, key)
  {
    match m {
      case UpdateToolCall => CallEditsKeep(h, t, Arg(a, 2), tc => Updated(h, tc, a), Undefined, key);
      case CheckpointToolCallMetadata =>
        CallEditsKeep(h, t, Arg(a, 2), tc => Checkpointed(h, tc, Arg(a, 1), Arg(a, 2), Arg(a, 3)), Undefined, key);
      case AppendMessageToolCall => CallEditsKeep(h, t, Undefined, tc => tc, Arg(a, 2), key);
    }
  }

  // An edit sets what it says it sets, and leaves every other field as it was.
  lemma EditField(h: Helpers, m: ChatMethod, a: seq<Json>, t: Json, key: string)
    requires t.Obj? && EditsOneMessage(m) && BuildsOn(m) != Some(key)
    ensures Edited(h, m, a, t).Obj?
    ensures Field(Edited(h, m, a, t), key) == Assigned(m, a, key).GetOr(Field(t, key))
  {
    if EditsToolCalls(m) {
      ToolEditKeeps(h, m, a, t, key);
    } else if m == AppendText {
      TextKeepsFields(t, Arg(a, 1), key);
    } else if m == SetMessageToolCalls {
      FieldAfterSet(t, "toolCalls", Arg(a, 2), key);
      FieldAfterSet(SetField(t, "toolCalls", Arg(a, 2)), "isStreaming", Bool(false), key);
    }
  }

  // The text a message shows: its content, or the text of its last block.
  function TextOf(content: Json): Option<string> {
    if content.Str? then Some(content.s)
    else if content.List? && content.items != [] then
      var last := content.items[|content.items| - 1];
      if Field(last, "type") == Str("text") && Field(last, "text").Str? then Some(Field(last, "text").s) else None
    else None
  }

  function TextShown(t: Json): Option<string> { TextOf(Field(t, "content")) }

  // What one write makes of the text its message shows.
  function TextAfter(text: Option<string>, w: ChatWrite): Option<string> {
    if w.m == AppendText && text.Some? && Arg(w.a, 1).Str? then Some(text.value + Arg(w.a, 1).s)
    else if w.m == SetLastMessageContent then TextOf(Arg(w.a, 1))
    else text
  }

  lemma AppendedTextShows(t: Json, token: Json)
    requires t.Obj?
    ensures TextShown(WithText(t, token))
         == if TextShown(t).Some? && token.Str? then Some(TextShown(t).value + token.s) else TextShown(t)
  {
    var content := Field(t, "content");
    if token.Str? && content.List? && TextShown(t).Some? {
      var k := |content.items| - 1;
      var last := content.items[k];
      FieldAfterSet(last, "text", Str(Field(last, "text").s + token.s), "type");
      FieldAfterSet(last, "text", Str(Field(last, "text").s + token.s), "text");
    }
  }

  ghost predicate KeepsAllBut(t: Json, u: Json, except: string) {
    forall key :: key != except ==> Field(u, key) == Field(t, key)
  }

  // Appending text leaves every block but the last, and every other field, as it was; a
  // message that shows no text is left alone.
  lemma AppendedTextKeeps(t: Json, token: Json)
    requires t.Obj?
    ensures var u, content := WithText(t, token), Field(t, "content");
            && KeepsAllBut(t, u, "content")
            && (TextShown(t).None? || !token.Str? ==> u == t)
            && (content.Str? <==> Field(u, "content").Str?)
            && (content.List? ==>
                  && Field(u, "content").List?
                  && var x, y := content.items, Field(u, "content").items;
                     && |y| == |x| && (forall k :: 0 <= k < |x| - 1 ==> y[k] == x[k])
                     && (x != [] ==> KeepsAllBut(x[|x| - 1], y[|x| - 1], "text")))
  {
    forall key | key != "content"
      ensures Field(WithText(t, token), key) == Field(t, key)
    {
      TextKeepsFields(t, token, key);
    }
  }

  lemma EditText(h: Helpers, m: ChatMethod, a: seq<Json>, t: Json)
    requires t.Obj? && EditsOneMessage(m)
    ensures TextShown(Edited(h, m, a, t)) == TextAfter(TextShown(t), ChatWrite(m, a))
  {
    if m == AppendText {
      AppendedTextShows(t, Arg(a, 1));
    } else {
      EditField(h, m, a, t, "content");
    }
  }

  lemma EditKeepsIdentity(h: Helpers, m: ChatMethod, a: seq<Json>, t: Json)
    requires t.Obj? && EditsOneMessage(m)
    ensures SameIdentity(t, Edited(h, m, a, t))
  {
    EditField(h, m, a, t, "id");
    EditField(h, m, a, t, "role");
    EditField(h, m, a, t, "loopId");
  }

  ghost predicate AllObjects(messages: seq<Json>) {
    forall k :: 0 <= k < |messages| ==> messages[k].Obj?
  }

  predicate AllEdits(writes: seq<ChatWrite>) {
    forall w :: w in writes ==> EditsOneMessage(w.m)
  }

  // One edit: the message it aims at becomes what the edit makes of it, the others stay.
  lemma EditLands(h: Helpers, c: Conversation, w: ChatWrite, i: nat)
    requires AllObjects(c.messages) && EditsOneMessage(w.m) && i < |c.messages|
    ensures var d := ApplyMethod(h, c, w.m, w.a);
            && d.fields == c.fields && |d.messages| == |c.messages|
            && d.messages[i] == if Aims(c.messages, w.m, w.a, i) then Edited(h, w.m, w.a, c.messages[i]) else c.messages[i]
  {
    AimsExactly(c.messages, w.m, w.a, i);
  }

  lemma {:induction false} EditsKeepMessages(h: Helpers, c: Conversation, writes: seq<ChatWrite>)
    requires AllObjects(c.messages) && AllEdits(writes)
    ensures var d := ApplyWrites(h, c, writes);
            d.fields == c.fields && SameMessages(c.messages, d.messages) && AllObjects(d.messages)
  {
    if writes != [] {
      var init, w := writes[..|writes| - 1], writes[|writes| - 1];
      assert w in writes && forall x :: x in init ==> x in writes;
      EditsKeepMessages(h, c, init);
      var d := ApplyWrites(h, c, init);
      forall i | 0 <= i < |d.messages|
        ensures SameIdentity(d.messages[i], ApplyWrites(h, c, writes).messages[i])
      {
        EditLands(h, d, w, i);
        EditKeepsIdentity(h, w.m, w.a, d.messages[i]);
      }
    }
  }

  // The writes that aim at message i, in order.
  ghost function WritesAt(messages: seq<Json>, writes: seq<ChatWrite>, i: nat): seq<ChatWrite> {
    if writes == [] then []
    else
      var w := writes[|writes| - 1];
      WritesAt(messages, writes[..|writes| - 1], i) + if Aims(messages, w.m, w.a, i) then [w] else []
  }

  function TextAfterAll(text: Option<string>, writes: seq<ChatWrite>): Option<string> {
    if writes == [] then text else TextAfter(TextAfterAll(text, writes[..|writes| - 1]), writes[|writes| - 1])
  }

  // The last edit of a run, and the message as the edits before it left it.
  lemma LastEdit(h: Helpers, c: Conversation, writes: seq<ChatWrite>, i: nat)
    requires AllObjects(c.messages) && AllEdits(writes) && writes != [] && i < |c.messages|
    ensures var w, before := writes[|writes| - 1], ApplyWrites(h, c, writes[..|writes| - 1]).messages;
            var after, at := ApplyWrites(h, c, writes).messages, WritesAt(c.messages, writes[..|writes| - 1], i);
            && |before| == |after| == |c.messages| && before[i].Obj? && EditsOneMessage(w.m)
            && if Aims(c.messages, w.m, w.a, i)
               then after[i] == Edited(h, w.m, w.a, before[i]) && WritesAt(c.messages, writes, i) == at + [w]
               else after[i] == before[i] && WritesAt(c.messages, writes, i) == at
  {
    var init, w := writes[..|writes| - 1], writes[|writes| - 1];
    assert w in writes && forall x :: x in init ==> x in writes;
    EditsKeepMessages(h, c, init);
    EditsKeepMessages(h, c, writes);
    EditLands(h, ApplyWrites(h, c, init), w, i);
    AimStays(c.messages, ApplyWrites(h, c, init).messages, w.m, w.a, i);
  }

  // The text a message shows after any run of edits is its old text and every token aimed
  // at it since, in order, or since its content was last set.
  lemma {:induction false} TextIsEveryToken(h: Helpers, c: Conversation, writes: seq<ChatWrite>, i: nat)
    requires AllObjects(c.messages) && AllEdits(writes) && i < |c.messages|
    ensures |ApplyWrites(h, c, writes).messages| == |c.messages|
    ensures TextShown(ApplyWrites(h, c, writes).messages[i])
         == TextAfterAll(TextShown(c.messages[i]), WritesAt(c.messages, writes, i))
  {
    if writes != [] {
      var init, w := writes[..|writes| - 1], writes[|writes| - 1];
      assert w in writes && forall x :: x in init ==> x in writes;
      TextIsEveryToken(h, c, init, i);
      LastEdit(h, c, writes, i);
      var at := WritesAt(c.messages, init, i);
      assert (at + [w])[..|at|] == at;
      EditText(h, w.m, w.a, ApplyWrites(h, c, init).messages[i]);
    }
  }

  // The tokens among these writes, put together in order.
  function Tokens(writes: seq<ChatWrite>): string {
    if writes == [] then ""
    else Tokens(writes[..|writes| - 1]) + Token(writes[|writes| - 1])
  }

  function Token(w: ChatWrite): string {
    if w.m == AppendText && Arg(w.a, 1).Str? then Arg(w.a, 1).s else ""
  }

  lemma TokenIsAdded(text: string, before: string, w: ChatWrite)
    requires w.m != SetLastMessageContent
    ensures TextAfter(Some(text + before), w) == Some(text + (before + Token(w)))
  {
    assert (text + before) + Token(w) == text + (before + Token(w));
    assert (text + before) + "" == text + before;
  }

  // While no write sets the content anew, nothing of the old text and of the tokens is lost.
  lemma {:induction false} TokensAreKept(text: string, writes: seq<ChatWrite>)
    requires forall w :: w in writes ==> w.m != SetLastMessageContent
    ensures TextAfterAll(Some(text), writes) == Some(text + Tokens(writes))
  {
    if writes == [] {
      assert text + "" == text;
    } else {
      var init, w := writes[..|writes| - 1], writes[|writes| - 1];
      assert w in writes && forall x :: x in init ==> x in writes;
      TokensAreKept(text, init);
      TokenIsAdded(text, Tokens(init), w);
    }
  }

  lemma NamedAppendText(other: OtherWrites, c: Conversation, a: seq<Json>)
    ensures ApplyChat(other, c, "appendText", a) == TextAppended(c, Arg(a, 1), Arg(a, 2))
  {
    StreamedMethods(other, c, a);
  }

  // One `appendText` frame: the message it aims at shows its old text followed by the
  // token, keeps everything else, and the other messages stay.
  lemma AppendTextAppends(other: OtherWrites, c: Conversation, conversation: Json, token: string, id: Json, i: nat)
    requires AllObjects(c.messages) && i < |c.messages| && TextShown(c.messages[i]).Some?
    requires if id == Undefined then i == |c.messages| - 1 else FirstWithId(c.messages, id, i)
    ensures var d := ApplyChat(other, c, "appendText", [conversation, Str(token), id]);
            && d.fields == c.fields && |d.messages| == |c.messages|
            && (forall k :: 0 <= k < |c.messages| && k != i ==> d.messages[k] == c.messages[k])
            && TextShown(d.messages[i]) == Some(TextShown(c.messages[i]).value + token)
            && KeepsAllBut(c.messages[i], d.messages[i], "content")
  {
    var a := [conversation, Str(token), id];
    NamedAppendText(other, c, a);
    forall k | 0 <= k < |c.messages|
      ensures TextAppended(c, Str(token), id).messages[k]
           == if k == i then WithText(c.messages[i], Str(token)) else c.messages[k]
    {
      AimsExactly(c.messages, AppendText, a, i);
    }
    AppendedTextShows(c.messages[i], Str(token));
    AppendedTextKeeps(c.messages[i], Str(token));
  }

  function ValueAfterAll(v: Json, writes: seq<ChatWrite>, key: string): Json {
    if writes == [] then v
    else
      var w := writes[|writes| - 1];
      Assigned(w.m, w.a, key).GetOr(ValueAfterAll(v, writes[..|writes| - 1], key))
  }

  predicate NoneBuildsOn(writes: seq<ChatWrite>, key: string) {
    forall w :: w in writes ==> BuildsOn(w.m) != Some(key)
  }

  // Every other field has the value the last write to it gave it, or the one it had.
  lemma {:induction false} LastWriteWins(h: Helpers, c: Conversation, writes: seq<ChatWrite>, i: nat, key: string)
    requires AllObjects(c.messages) && AllEdits(writes) && i < |c.messages| && NoneBuildsOn(writes, key)
    ensures |ApplyWrites(h, c, writes).messages| == |c.messages|
    ensures Field(ApplyWrites(h, c, writes).messages[i], key)
         == ValueAfterAll(Field(c.messages[i], key), WritesAt(c.messages, writes, i), key)
  {
    if writes != [] {
      var init, w := writes[..|writes| - 1], writes[|writes| - 1];
      assert w in writes && forall x :: x in init ==> x in writes;
      LastWriteWins(h, c, init, i, key);
      LastEdit(h, c, writes, i);
      var at := WritesAt(c.messages, init, i);
      assert (at + [w])[..|at|] == at;
      EditField(h, w.m, w.a, ApplyWrites(h, c, init).messages[i], key);
    }
  }

  function ItemsOf(j: Json): seq<Json> { if j.List? then j.items else [] }

  // The lists that only grow, and what a write adds to them.
  predicate Grows(key: string) { key == "redactedThinking" || key == "toolCallsForContext" }

  function Added(w: ChatWrite, key: string): seq<Json> {
    if w.m == AppendRedactedThinking && key == "redactedThinking" then [Arg(w.a, 1)]
    else if w.m == AppendToolCallContext && key == "toolCallsForContext" then [Arg(w.a, 2)]
    else []
  }

  // The list with everything these writes add to it, in order.
  function ListAfterAll(list: seq<Json>, writes: seq<ChatWrite>, key: string): seq<Json> {
    if writes == [] then list else ListAfterAll(list, writes[..|writes| - 1], key) + Added(writes[|writes| - 1], key)
  }

  lemma EditAdds(h: Helpers, m: ChatMethod, a: seq<Json>, t: Json, key: string)
    requires t.Obj? && EditsOneMessage(m) && Grows(key)
    ensures ItemsOf(Field(Edited(h, m, a, t), key)) == ItemsOf(Field(t, key)) + Added(ChatWrite(m, a), key)
  {
    if BuildsOn(m) != Some(key) {
      EditField(h, m, a, t, key);
      assert ItemsOf(Field(t, key)) + [] == ItemsOf(Field(t, key));
    }
  }

  lemma GrowthStep(h: Helpers, c: Conversation, writes: seq<ChatWrite>, i: nat, key: string)
    requires AllObjects(c.messages) && AllEdits(writes) && writes != [] && i < |c.messages| && Grows(key)
    ensures var before, after := ApplyWrites(h, c, writes[..|writes| - 1]).messages, ApplyWrites(h, c, writes).messages;
            var w, at := writes[|writes| - 1], WritesAt(c.messages, writes[..|writes| - 1], i);
            && |before| == |after| == |c.messages|
            && if Aims(c.messages, w.m, w.a, i)
               then ItemsOf(Field(after[i], key)) == ItemsOf(Field(before[i], key)) + Added(w, key)
                    && WritesAt(c.messages, writes, i) == at + [w]
               else after[i] == before[i] && WritesAt(c.messages, writes, i) == at
  {
    var w := writes[|writes| - 1];
    LastEdit(h, c, writes, i);
    EditAdds(h, w.m, w.a, ApplyWrites(h, c, writes[..|writes| - 1]).messages[i], key);
  }

  lemma ListAfterSnoc(list: seq<Json>, writes: seq<ChatWrite>, w: ChatWrite, key: string)
    ensures ListAfterAll(list, writes + [w], key) == ListAfterAll(list, writes, key) + Added(w, key)
  {
    assert (writes + [w])[..|writes|] == writes;
  }

  // Redacted thinking and tool contexts are kept whole: what was there, then every one added.
  lemma {:induction false} ListsOnlyGrow(h: Helpers, c: Conversation, writes: seq<ChatWrite>, i: nat, key: string)
    requires AllObjects(c.messages) && AllEdits(writes) && i < |c.messages| && Grows(key)
    ensures |ApplyWrites(h, c, writes).messages| == |c.messages|
    ensures ItemsOf(Field(ApplyWrites(h, c, writes).messages[i], key))
         == ListAfterAll(ItemsOf(Field(c.messages[i], key)), WritesAt(c.messages, writes, i), key)
  {
    if writes != [] {
      var init, w := writes[..|writes| - 1], writes[|writes| - 1];
      assert w in writes && forall x :: x in init ==> x in writes;
      ListsOnlyGrow(h, c, init, i, key);
      GrowthStep(h, c, writes, i, key);
      ListAfterSnoc(ItemsOf(Field(c.messages[i], key)), WritesAt(c.messages, init, i), w, key);
    }
  }

  // What the first tool call with the id becomes; all others, and their number, stay.
  ghost predicate OnlyCallBecomes(t: Json, u: Json, id: Json, edit: Json -> Json) {
    && Field(u, "toolCalls").List?
    && var x, y := Field(t, "toolCalls"), Field(u, "toolCalls").items;
       && x.List? && |y| == |x.items|
       && forall k: nat :: k < |y| ==> y[k] == if FirstCall(x.items, id, k) then edit(x.items[k]) else x.items[k]
  }

  lemma OnlyCallEdited(t: Json, id: Json, edit: Json -> Json)
    requires t.Obj? && Field(t, "toolCalls").List?
    ensures OnlyCallBecomes(t, WithToolCall(t, id, edit), id, edit)
  {
    EditsFirstCall(t, id, edit);
  }

  // A result changes the first tool call with its id, and no other.
  lemma ResultLands(h: Helpers, t: Json, a: seq<Json>)
    requires t.Obj? && Field(t, "toolCalls").List?
    ensures OnlyCallBecomes(t, Edited(h, UpdateToolCall, a, t), Arg(a, 2), tc => Updated(h, tc, a))
  {
    OnlyCallEdited(t, Arg(a, 2), tc => Updated(h, tc, a));
  }

  // So does a checkpoint.
  lemma CheckpointLands(h: Helpers, t: Json, a: seq<Json>)
    requires t.Obj? && Field(t, "toolCalls").List?
    ensures OnlyCallBecomes(t, Edited(h, CheckpointToolCallMetadata, a, t), Arg(a, 2),
                            tc => Checkpointed(h, tc, Arg(a, 1), Arg(a, 2), Arg(a, 3)))
  {
    OnlyCallEdited(t, Arg(a, 2), tc => Checkpointed(h, tc, Arg(a, 1), Arg(a, 2), Arg(a, 3)));
  }

  // A subagent's call goes behind the others, once.
  lemma SubagentCallLands(h: Helpers, t: Json, a: seq<Json>)
    requires t.Obj?
    ensures var x := ItemsOf(Field(t, "toolCalls"));
            Field(Edited(h, AppendMessageToolCall, a, t), "toolCalls")
            == List(if exists c :: c in x && Field(c, "id") == Field(Arg(a, 2), "id") then x else h.bound(x + [Arg(a, 2)]))
  {
    SubagentCallAddedOnce(h, t, Arg(a, 2));
  }

  // Chat frames write the conversation as their method says and nothing else; frames of
  // other ports leave the conversation alone.
  lemma FramesWriteTheirOwn<W>(other: OtherWrites, ports: (W, PortFrame) -> W, w: World<W>, f: PortFrame)
    ensures var u, named := ApplyFrame(other, ports, w, f), MethodNamed(f.m);
            if f.p != Chat then u == World(w.conv, ports(w.rest, f))
            else && u.rest == w.rest
                 && u.conv == if named == Unlisted then other.unlisted(w.conv, f.m, f.a)
                              else ApplyMethod(other.helpers, w.conv, named, f.a)
  {
  }

  // The counts a usage report keeps, and nothing else of it.
  lemma UsageKeepsCounts(usage: Json, key: string)
    ensures UsageOf(usage).Obj?
    ensures key in UsageOf(usage).fields <==>
              key in {"inputTokens", "outputTokens"} || (key == "promptTokens" && Field(usage, key) != Undefined)
    ensures key in UsageOf(usage).fields ==> Field(UsageOf(usage), key) == Field(usage, key)
  {
  }

  // The writes about the conversation as a whole.
  lemma ConversationWrites(h: Helpers, c: Conversation, a: seq<Json>)
    ensures ApplyMethod(h, c, AddMessage, a) == Conversation(c.messages + [Arg(a, 1)], c.fields)
    ensures ApplyMethod(h, c, SetConversationStatus, a) == Conversation(c.messages, c.fields["status" := Arg(a, 1)])
    ensures ApplyMethod(h, c, SetConversationModel, a) == Conversation(c.messages, c.fields["model" := Arg(a, 1)])
    ensures ApplyMethod(h, c, DeactivateSkills, a) == Conversation(c.messages, c.fields["activeSkills" := List([])])
    ensures ApplyMethod(h, c, Unlisted, a) == c
  {
  }

  // Deleting from a message cuts the conversation right before the first one with that id.
  lemma DeletionCuts(h: Helpers, c: Conversation, a: seq<Json>)
    ensures var d := ApplyMethod(h, c, DeleteMessagesFrom, a);
            && d.fields == c.fields && d.messages <= c.messages
            && (forall k :: 0 <= k < |d.messages| ==> Field(d.messages[k], "id") != Arg(a, 1))
            && (|d.messages| < |c.messages| ==> FirstWithId(c.messages, Arg(a, 1), |d.messages|))
  {
  }
}
