/** Which fields of a tool call's record a write sets, and that it leaves all others alone. */
module ToolCallFields {
  import opened Wrappers
  import opened PortFrames
  import opened ToolCallRecords

  predicate FirstCall(calls: seq<Json>, id: Json, i: nat) {
    i < |calls| && Field(calls[i], "id") == id && forall k :: 0 <= k < i ==> Field(calls[k], "id") != id
  }

  // An edit of a tool call changes the first call with the id and no other; a message
  // without such a call stays as it was.
  lemma EditsFirstCall(message: Json, id: Json, edit: Json -> Json)
    requires message.Obj?
    ensures var calls, after := Field(message, "toolCalls"), WithToolCall(message, id, edit);
            if calls.List? && exists i: nat :: FirstCall(calls.items, id, i)
            then
              && Field(after, "toolCalls").List?
              && var x, y := calls.items, Field(after, "toolCalls").items;
                 && |y| == |x|
                 && forall k: nat :: k < |x| ==> y[k] == if FirstCall(x, id, k) then edit(x[k]) else x[k]
            else after == message
  {
    var calls := Field(message, "toolCalls");
    if calls.List? {
      var i := IndexOfId(calls.items, id);
      assert i < |calls.items| ==> FirstCall(calls.items, id, i);
      assert forall k: nat :: FirstCall(calls.items, id, k) ==> k == i;
    }
  }

  // A subagent's call is added once, behind the others; a list that grew is bounded.
  lemma SubagentCallAddedOnce(h: Helpers, message: Json, toolCall: Json)
    requires message.Obj?
    ensures var calls := Field(message, "toolCalls");
            var x := if calls.List? then calls.items else [];
            Field(WithSubagentCall(h, message, toolCall), "toolCalls")
            == List(if exists c :: c in x && Field(c, "id") == Field(toolCall, "id") then x else h.bound(x + [toolCall]))
  {
    var calls := Field(message, "toolCalls");
    var x := if calls.List? then calls.items else [];
    var i := IndexOfId(x, Field(toolCall, "id"));
    if i < |x| {
      assert x[i] in x;
    }
  }

  predicate IsVerdictKey(key: string) { key in {"isError", "subagentStopReason", "batchTerminalSummary"} }

  // What metadata makes of a field that is no part of the verdict.
  function FromMetadata(tc: Json, metadata: Json, key: string): Json {
    if IsOutcomeKey(key) && Truthy(Field(metadata, key)) then Field(metadata, key)
    else if key == "sandboxRecovery" && Recovers(tc, metadata) then Field(metadata, key)
    else Field(tc, key)
  }

  function FromResult(tc: Json, a: seq<Json>, key: string): Json {
    if key == "result" then Arg(a, 3)
    else if key == "resultContent" && Truthy(Arg(a, 4)) then Arg(a, 4)
    else if key == "hideScreenshot" && Arg(a, 6) != Undefined then Arg(a, 6)
    else if key == "isExecuting" then Bool(false)
    else FromMetadata(tc, Arg(a, 7), key)
  }

  lemma TookField(tc: Json, metadata: Json, taken: string, key: string)
    requires tc.Obj?
    ensures var t := Took(tc, metadata, taken);
            && t.Obj?
            && Field(t, key) == if key == taken && Truthy(Field(metadata, key)) then Field(metadata, key) else Field(tc, key)
  {
  }

  lemma OutcomeFields(tc: Json, metadata: Json, key: string)
    requires tc.Obj?
    ensures var t := TookOutcomes(tc, metadata);
            && t.Obj?
            && Field(t, key) == if IsOutcomeKey(key) && Truthy(Field(metadata, key)) then Field(metadata, key) else Field(tc, key)
  {
    var t1 := Took(tc, metadata, "computerStep");
    var t2 := Took(t1, metadata, "fileChange");
    var t3 := Took(t2, metadata, "backgroundCommand");
    var t4 := Took(t3, metadata, "commandOutcome");
    var t5 := Took(t4, metadata, "fileReadOutcome");
    TookField(tc, metadata, "computerStep", key);
    TookField(t1, metadata, "fileChange", key);
    TookField(t2, metadata, "backgroundCommand", key);
    TookField(t3, metadata, "commandOutcome", key);
    TookField(t4, metadata, "fileReadOutcome", key);
    TookField(t5, metadata, "httpFetchOutcome", key);
  }

  lemma RecoveryField(tc: Json, metadata: Json, key: string)
    requires tc.Obj? && key != "isError"
    ensures var t := TookRecovery(tc, metadata);
            && t.Obj?
            && Field(t, key) == if key == "sandboxRecovery" && Recovers(tc, metadata) then Field(metadata, key)
                                else Field(tc, key)
  {
  }

  lemma VerdictTouchesItself(h: Helpers, tc: Json, metadata: Json, summary: Option<Json>, key: string)
    requires tc.Obj? && !IsVerdictKey(key)
    ensures var t := TookSummary(h, TookReason(h, tc, metadata), summary); t.Obj? && Field(t, key) == Field(tc, key)
  {
    assert TookReason(h, tc, metadata).Obj? && Field(TookReason(h, tc, metadata), key) == Field(tc, key);
  }

  lemma ResultField(tc: Json, a: seq<Json>, key: string)
    requires tc.Obj? && key != "isError"
    ensures var t := TookResult(tc, a);
            && t.Obj?
            && Field(t, key) == (if key == "result" then Arg(a, 3)
                                 else if key == "resultContent" && Truthy(Arg(a, 4)) then Arg(a, 4)
                                 else if key == "hideScreenshot" && Arg(a, 6) != Undefined then Arg(a, 6)
                                 else Field(tc, key))
  {
  }

  lemma MetadataFields(tc: Json, metadata: Json, key: string)
    requires tc.Obj? && key != "isError"
    ensures var t := TookRecovery(TookOutcomes(tc, metadata), metadata);
            t.Obj? && Field(t, key) == FromMetadata(tc, metadata, key)
  {
    OutcomeFields(tc, metadata, key);
    OutcomeFields(tc, metadata, "name");
    RecoveryField(TookOutcomes(tc, metadata), metadata, key);
  }

  lemma RunEnds(tc: Json, key: string)
    requires tc.Obj?
    ensures Field(SetField(tc, "isExecuting", Bool(false)), key) == if key == "isExecuting" then Bool(false) else Field(tc, key)
  {
  }

  lemma RecoversByName(tc: Json, t: Json, metadata: Json)
    requires Field(t, "name") == Field(tc, "name")
    ensures Recovers(t, metadata) <==> Recovers(tc, metadata)
  {
  }

  // A result sets the result, its content, the display flag, the outcomes its metadata
  // names and a recovery, ends the call, and leaves every other field alone.
  lemma ResultSetsItsFields(h: Helpers, tc: Json, a: seq<Json>, key: string)
    requires tc.Obj? && !IsVerdictKey(key)
    ensures Field(Updated(h, tc, a), key) == FromResult(tc, a, key)
  {
    var metadata, r := Arg(a, 7), TookResult(tc, a);
    var summary := SummaryIn(h, metadata, Arg(a, 1), Arg(a, 2));
    ResultField(tc, a, key);
    ResultField(tc, a, "name");
    RecoversByName(tc, r, metadata);
    MetadataFields(r, metadata, key);
    var t := TookRecovery(TookOutcomes(r, metadata), metadata);
    VerdictTouchesItself(h, t, metadata, summary, key);
    RunEnds(TookSummary(h, TookReason(h, t, metadata), summary), key);
  }

  // A checkpoint sets the outcomes its metadata names and a recovery, and nothing else.
  lemma CheckpointSetsItsFields(h: Helpers, tc: Json, messageId: Json, toolCallId: Json, metadata: Json, key: string)
    requires tc.Obj? && !IsVerdictKey(key)
    ensures Field(Checkpointed(h, tc, messageId, toolCallId, metadata), key) == FromMetadata(tc, metadata, key)
  {
    var o, summary := TookOutcomes(tc, metadata), SummaryIn(h, metadata, messageId, toolCallId);
    OutcomeFields(tc, metadata, key);
    OutcomeFields(tc, metadata, "name");
    VerdictTouchesItself(h, o, metadata, summary, key);
    VerdictTouchesItself(h, o, metadata, summary, "name");
    RecoveryField(TookSummary(h, TookReason(h, o, metadata), summary), metadata, key);
  }

  // Only a command recovers, and only when its metadata says so.
  lemma OnlyCommandsRecover(tc: Json, metadata: Json)
    ensures Field(tc, "name") != Str("run_command") || !Truthy(Field(metadata, "sandboxRecovery")) ==>
              TookRecovery(tc, metadata) == tc
    ensures tc.Obj? && Field(tc, "name") == Str("run_command") && Truthy(Field(metadata, "sandboxRecovery")) ==>
              && Field(TookRecovery(tc, metadata), "sandboxRecovery") == Field(metadata, "sandboxRecovery")
              && IsError(TookRecovery(tc, metadata))
  {
  }

  // The stop reason a write leaves: the new one if it names one, except that nothing but
  // another failure takes the place of a failure.
  lemma FailureIsNotTakenBack(tc: Json, metadata: Json)
    ensures var before, named := Field(tc, "subagentStopReason"), Field(metadata, "subagentStopReason");
            ReasonAfter(tc, metadata)
            == if !Truthy(named) then before
               else if before == Undefined || before == Str("completed") then named
               else if named == Str("completed") then before else named
  {
  }
}
