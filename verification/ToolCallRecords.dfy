/**
 What the run mirror does to the record of one tool call: a result that arrives, a
 checkpoint of its metadata, and a call a subagent adds. Records and metadata are
 JSON objects; merging the summaries of a batch is a parameter.
 */
module ToolCallRecords {
  import opened Wrappers
  import opened PortFrames

  // `normalize` may reject a summary; `nonSuccess` says whether a summary holds a task
  // that did not succeed; `bound` keeps a list of tool calls within its limits.
  datatype Helpers = Helpers(
    normalize: (Json, Json, Json) -> Option<Json>,
    merge: (Json, Json) -> Json,
    nonSuccess: Json -> bool,
    bound: seq<Json> -> seq<Json>)

  const COMPLETED := Str("completed")

  // The call with the given id, if the message has one, is edited in its place.
  function WithToolCall(message: Json, toolCallId: Json, edit: Json -> Json): Json {
    var calls := Field(message, "toolCalls");
    if !calls.List? then message
    else
      var i := IndexOfId(calls.items, toolCallId);
      if i < |calls.items| then SetField(message, "toolCalls", List(calls.items[i := edit(calls.items[i])])) else message
  }

  // A call is added once; the list is bounded only when it grew.
  function WithSubagentCall(h: Helpers, message: Json, toolCall: Json): Json {
    var calls := Field(message, "toolCalls");
    var current := if calls.List? then calls.items else [];
    if IndexOfId(current, Field(toolCall, "id")) < |current| then SetField(message, "toolCalls", List(current))
    else SetField(message, "toolCalls", List(h.bound(current + [toolCall])))
  }

  function Took(tc: Json, metadata: Json, key: string): Json {
    if Truthy(Field(metadata, key)) then SetField(tc, key, Field(metadata, key)) else tc
  }

  function TookOutcomes(tc: Json, metadata: Json): Json {
    var t := Took(Took(Took(tc, metadata, "computerStep"), metadata, "fileChange"), metadata, "backgroundCommand");
    Took(Took(Took(t, metadata, "commandOutcome"), metadata, "fileReadOutcome"), metadata, "httpFetchOutcome")
  }

  predicate Recovers(tc: Json, metadata: Json) {
    Field(tc, "name") == Str("run_command") && Truthy(Field(metadata, "sandboxRecovery"))
  }

  function TookRecovery(tc: Json, metadata: Json): Json {
    if Recovers(tc, metadata)
    then SetField(SetField(tc, "sandboxRecovery", Field(metadata, "sandboxRecovery")), "isError", Bool(true))
    else tc
  }

  predicate Unfinished(reason: Json) { reason != Undefined && reason != COMPLETED }

  // A call that stopped short never turns into one that completed.
  predicate TakesReason(tc: Json, metadata: Json) {
    var reason := Field(metadata, "subagentStopReason");
    Truthy(reason) && !(Unfinished(Field(tc, "subagentStopReason")) && reason == COMPLETED)
  }

  function TookReason(h: Helpers, tc: Json, metadata: Json): Json {
    var reason := Field(metadata, "subagentStopReason");
    if !TakesReason(tc, metadata) then tc
    else SetField(SetField(tc, "subagentStopReason", reason), "isError",
                  Bool(reason != COMPLETED || h.nonSuccess(Field(tc, "batchTerminalSummary"))))
  }

  predicate HasNonSuccess(h: Helpers, tc: Json) {
    Unfinished(Field(tc, "subagentStopReason")) || h.nonSuccess(Field(tc, "batchTerminalSummary"))
  }

  function SummaryIn(h: Helpers, metadata: Json, messageId: Json, toolCallId: Json): Option<Json> {
    h.normalize(Field(metadata, "batchTerminalSummary"), messageId, toolCallId)
  }

  function TookSummary(h: Helpers, tc: Json, summary: Option<Json>): Json {
    if summary.None? then tc
    else
      var t := SetField(tc, "batchTerminalSummary", h.merge(Field(tc, "batchTerminalSummary"), summary.value));
      if h.nonSuccess(Field(t, "batchTerminalSummary")) then SetField(t, "isError", Bool(true))
      else if !HasNonSuccess(h, t) then SetField(t, "isError", Bool(false))
      else t
  }

  // The result itself; flags that are absent say nothing.
  function TookResult(tc: Json, a: seq<Json>): Json {
    var t := SetField(tc, "result", Arg(a, 3));
    var u := if Truthy(Arg(a, 4)) then SetField(t, "resultContent", Arg(a, 4)) else t;
    var v := if Truthy(Arg(a, 5)) then SetField(u, "isError", Bool(true)) else u;
    if Arg(a, 6) != Undefined then SetField(v, "hideScreenshot", Arg(a, 6)) else v
  }

  // `updateToolCall`: the recovery comes before the stop reason and the summary.
  function Updated(h: Helpers, tc: Json, a: seq<Json>): Json {
    var metadata := Arg(a, 7);
    var t := TookRecovery(TookOutcomes(TookResult(tc, a), metadata), metadata);
    var u := TookSummary(h, TookReason(h, t, metadata), SummaryIn(h, metadata, Arg(a, 1), Arg(a, 2)));
    SetField(u, "isExecuting", Bool(false))
  }

  // `checkpointToolCallMetadata`: the recovery comes last.
  function Checkpointed(h: Helpers, tc: Json, messageId: Json, toolCallId: Json, metadata: Json): Json {
    var t := TookReason(h, TookOutcomes(tc, metadata), metadata);
    TookRecovery(TookSummary(h, t, SummaryIn(h, metadata, messageId, toolCallId)), metadata)
  }

  predicate IsError(tc: Json) { Field(tc, "isError") == Bool(true) }

  // A call that stopped short, or whose batch holds a failed task, is marked as an error.
  predicate ErrorsShow(h: Helpers, tc: Json) {
    HasNonSuccess(h, tc) ==> IsError(tc)
  }

  // Two records that differ in nothing the error mark depends on.
  predicate SameVerdict(t: Json, u: Json) {
    && (t.Obj? <==> u.Obj?)
    && Field(u, "name") == Field(t, "name")
    && Field(u, "subagentStopReason") == Field(t, "subagentStopReason")
    && Field(u, "batchTerminalSummary") == Field(t, "batchTerminalSummary")
  }

  predicate IsOutcomeKey(key: string) {
    key in {"computerStep", "fileChange", "backgroundCommand", "commandOutcome", "fileReadOutcome", "httpFetchOutcome"}
  }

  lemma TookKeepsVerdict(tc: Json, metadata: Json, key: string)
    requires IsOutcomeKey(key)
    ensures var t := Took(tc, metadata, key); SameVerdict(tc, t) && Field(t, "isError") == Field(tc, "isError")
  {
  }

  lemma OutcomesKeepVerdict(tc: Json, metadata: Json)
    ensures var t := TookOutcomes(tc, metadata); SameVerdict(tc, t) && Field(t, "isError") == Field(tc, "isError")
  {
    var t1 := Took(tc, metadata, "computerStep");
    var t2 := Took(t1, metadata, "fileChange");
    var t3 := Took(t2, metadata, "backgroundCommand");
    var t4 := Took(t3, metadata, "commandOutcome");
    var t5 := Took(t4, metadata, "fileReadOutcome");
    TookKeepsVerdict(tc, metadata, "computerStep");
    TookKeepsVerdict(t1, metadata, "fileChange");
    TookKeepsVerdict(t2, metadata, "backgroundCommand");
    TookKeepsVerdict(t3, metadata, "commandOutcome");
    TookKeepsVerdict(t4, metadata, "fileReadOutcome");
    TookKeepsVerdict(t5, metadata, "httpFetchOutcome");
  }

  lemma ResultKeepsVerdict(tc: Json, a: seq<Json>)
    ensures var t := TookResult(tc, a);
            SameVerdict(tc, t) && (tc.Obj? ==> (IsError(t) <==> IsError(tc) || Truthy(Arg(a, 5))))
  {
  }

  lemma RecoveryKeepsVerdict(tc: Json, metadata: Json)
    ensures var t := TookRecovery(tc, metadata);
            SameVerdict(tc, t) && (tc.Obj? ==> (IsError(t) <==> IsError(tc) || Recovers(tc, metadata)))
  {
  }

  // The stop reason and the batch summary the record has after a write with this metadata.
  function ReasonAfter(tc: Json, metadata: Json): Json {
    if TakesReason(tc, metadata) then Field(metadata, "subagentStopReason") else Field(tc, "subagentStopReason")
  }

  function SummaryAfter(h: Helpers, tc: Json, summary: Option<Json>): Json {
    var before := Field(tc, "batchTerminalSummary");
    if summary.Some? then h.merge(before, summary.value) else before
  }

  lemma ReasonShows(h: Helpers, tc: Json, metadata: Json)
    requires tc.Obj? && ErrorsShow(h, tc)
    ensures var t := TookReason(h, tc, metadata);
            && t.Obj? && ErrorsShow(h, t)
            && Field(t, "name") == Field(tc, "name")
            && Field(t, "subagentStopReason") == ReasonAfter(tc, metadata)
            && Field(t, "batchTerminalSummary") == Field(tc, "batchTerminalSummary")
            && (TakesReason(tc, metadata) ==> (IsError(t) <==> HasNonSuccess(h, t)))
            && (!TakesReason(tc, metadata) ==> t == tc)
  {
  }

  lemma SummaryShows(h: Helpers, tc: Json, summary: Option<Json>)
    requires tc.Obj? && ErrorsShow(h, tc)
    ensures var t := TookSummary(h, tc, summary);
            && t.Obj? && ErrorsShow(h, t)
            && Field(t, "name") == Field(tc, "name")
            && Field(t, "subagentStopReason") == Field(tc, "subagentStopReason")
            && Field(t, "batchTerminalSummary") == SummaryAfter(h, tc, summary)
            && (summary.Some? ==> (IsError(t) <==> HasNonSuccess(h, t)))
            && (summary.None? ==> t == tc)
  {
  }

  // A write judges a call when it brings a stop reason it takes, or a summary.
  predicate Judges(tc: Json, metadata: Json, summary: Option<Json>) {
    TakesReason(tc, metadata) || summary.Some?
  }

  // Whether the stop reason and the summary after the write speak of a failure.
  predicate Fails(h: Helpers, tc: Json, metadata: Json, summary: Option<Json>) {
    Unfinished(ReasonAfter(tc, metadata)) || h.nonSuccess(SummaryAfter(h, tc, summary))
  }

  lemma JudgedShows(h: Helpers, tc: Json, metadata: Json, summary: Option<Json>)
    requires tc.Obj? && ErrorsShow(h, tc)
    ensures var t := TookSummary(h, TookReason(h, tc, metadata), summary);
            && t.Obj? && ErrorsShow(h, t)
            && Field(t, "name") == Field(tc, "name")
            && Field(t, "subagentStopReason") == ReasonAfter(tc, metadata)
            && Field(t, "batchTerminalSummary") == SummaryAfter(h, tc, summary)
            && (IsError(t) <==> if Judges(tc, metadata, summary) then Fails(h, tc, metadata, summary) else IsError(tc))
  {
    ReasonShows(h, tc, metadata);
    SummaryShows(h, TookReason(h, tc, metadata), summary);
  }

  lemma IsExecutingKeepsVerdict(tc: Json)
    ensures var t := SetField(tc, "isExecuting", Bool(false)); SameVerdict(tc, t) && (IsError(t) <==> IsError(tc))
  {
  }

  // What a result makes of a call, read off the call and the result's arguments: the stop
  // reason, the summary, and whether it is marked as an error.
  lemma ResultVerdictExactly(h: Helpers, tc: Json, a: seq<Json>)
    requires tc.Obj? && ErrorsShow(h, tc)
    ensures var metadata, t := Arg(a, 7), Updated(h, tc, a);
            var summary := SummaryIn(h, metadata, Arg(a, 1), Arg(a, 2));
            && t.Obj? && ErrorsShow(h, t)
            && Field(t, "name") == Field(tc, "name") && Field(t, "isExecuting") == Bool(false)
            && Field(t, "subagentStopReason") == ReasonAfter(tc, metadata)
            && Field(t, "batchTerminalSummary") == SummaryAfter(h, tc, summary)
            && (IsError(t) <==>
                  if Judges(tc, metadata, summary) then Fails(h, tc, metadata, summary)
                  else IsError(tc) || Truthy(Arg(a, 5)) || Recovers(tc, metadata))
  {
    var metadata := Arg(a, 7);
    var summary := SummaryIn(h, metadata, Arg(a, 1), Arg(a, 2));
    var r := TookResult(tc, a);
    var o := TookOutcomes(r, metadata);
    var t := TookRecovery(o, metadata);
    ResultKeepsVerdict(tc, a);
    OutcomesKeepVerdict(r, metadata);
    RecoveryKeepsVerdict(o, metadata);
    JudgedShows(h, t, metadata, summary);
    IsExecutingKeepsVerdict(TookSummary(h, TookReason(h, t, metadata), summary));
  }

  // The same of a checkpoint, where a recovery has the last word.
  lemma CheckpointVerdictExactly(h: Helpers, tc: Json, messageId: Json, toolCallId: Json, metadata: Json)
    requires tc.Obj? && ErrorsShow(h, tc)
    ensures var t, summary := Checkpointed(h, tc, messageId, toolCallId, metadata), SummaryIn(h, metadata, messageId, toolCallId);
            && t.Obj? && ErrorsShow(h, t)
            && Field(t, "name") == Field(tc, "name")
            && Field(t, "subagentStopReason") == ReasonAfter(tc, metadata)
            && Field(t, "batchTerminalSummary") == SummaryAfter(h, tc, summary)
            && (IsError(t) <==>
                  || Recovers(tc, metadata)
                  || if Judges(tc, metadata, summary) then Fails(h, tc, metadata, summary) else IsError(tc))
  {
    var o, summary := TookOutcomes(tc, metadata), SummaryIn(h, metadata, messageId, toolCallId);
    OutcomesKeepVerdict(tc, metadata);
    JudgedShows(h, o, metadata, summary);
    RecoveryKeepsVerdict(TookSummary(h, TookReason(h, o, metadata), summary), metadata);
  }

  // So a recovery marks a command in its checkpoint always, and in its result if and only
  // if the result brings nothing to judge the call by, or that speaks of a failure.
  lemma RecoveryShowsExactly(h: Helpers, tc: Json, a: seq<Json>)
    requires tc.Obj? && ErrorsShow(h, tc) && Recovers(tc, Arg(a, 7))
    ensures var metadata := Arg(a, 7);
            var summary := SummaryIn(h, metadata, Arg(a, 1), Arg(a, 2));
            IsError(Updated(h, tc, a)) <==> !Judges(tc, metadata, summary) || Fails(h, tc, metadata, summary)
    ensures IsError(Checkpointed(h, tc, Arg(a, 1), Arg(a, 2), Arg(a, 7)))
  {
    ResultVerdictExactly(h, tc, a);
    CheckpointVerdictExactly(h, tc, Arg(a, 1), Arg(a, 2), Arg(a, 7));
  }

  datatype Write =
    | Result(a: seq<Json>)
    | Checkpoint(messageId: Json, toolCallId: Json, metadata: Json)

  function Written(h: Helpers, tc: Json, w: Write): Json {
    match w
    case Result(a) => Updated(h, tc, a)
    case Checkpoint(messageId, toolCallId, metadata) => Checkpointed(h, tc, messageId, toolCallId, metadata)
  }

  function WrittenAll(h: Helpers, tc: Json, writes: seq<Write>): Json {
    if writes == [] then tc else Written(h, WrittenAll(h, tc, writes[..|writes| - 1]), writes[|writes| - 1])
  }

  lemma WriteShows(h: Helpers, tc: Json, w: Write)
    requires tc.Obj? && ErrorsShow(h, tc)
    ensures var t := Written(h, tc, w);
            && t.Obj? && ErrorsShow(h, t)
            && (Unfinished(Field(tc, "subagentStopReason")) ==> Unfinished(Field(t, "subagentStopReason")))
  {
    match w {
      case Result(a) => ResultVerdictExactly(h, tc, a);
      case Checkpoint(messageId, toolCallId, metadata) =>
        CheckpointVerdictExactly(h, tc, messageId, toolCallId, metadata);
    }
  }

  // However results and checkpoints follow one another: a call that stopped short or has
  // a failed batch task is always marked as an error, and one that once stopped short
  // never counts as completed again.
  lemma {:induction false} FailuresStayVisible(h: Helpers, tc: Json, writes: seq<Write>)
    requires tc.Obj? && ErrorsShow(h, tc)
    ensures var t := WrittenAll(h, tc, writes);
            && t.Obj? && ErrorsShow(h, t)
            && (Unfinished(Field(tc, "subagentStopReason")) ==> Unfinished(Field(t, "subagentStopReason")))
  {
    if writes != [] {
      var init := writes[..|writes| - 1];
      FailuresStayVisible(h, tc, init);
      WriteShows(h, WrittenAll(h, tc, init), writes[|writes| - 1]);
    }
  }

  // A write without a stop reason or an accepted summary, as all writes of `run_command` are.
  predicate Silent(h: Helpers, w: Write) {
    match w
    case Result(a) =>
      !Truthy(Field(Arg(a, 7), "subagentStopReason")) && SummaryIn(h, Arg(a, 7), Arg(a, 1), Arg(a, 2)).None?
    case Checkpoint(messageId, toolCallId, metadata) =>
      !Truthy(Field(metadata, "subagentStopReason")) && SummaryIn(h, metadata, messageId, toolCallId).None?
  }

  // Such a write says that the call failed.
  predicate Marks(tc: Json, w: Write) {
    match w
    case Result(a) => Truthy(Arg(a, 5)) || Recovers(tc, Arg(a, 7))
    case Checkpoint(_, _, metadata) => Recovers(tc, metadata)
  }

  lemma MarksByName(tc: Json, t: Json, w: Write)
    requires Field(t, "name") == Field(tc, "name")
    ensures Marks(t, w) <==> Marks(tc, w)
  {
  }

  predicate SomeMarks(tc: Json, writes: seq<Write>) {
    exists i :: 0 <= i < |writes| && Marks(tc, writes[i])
  }

  lemma SomeMarksSnoc(tc: Json, writes: seq<Write>, w: Write)
    ensures SomeMarks(tc, writes + [w]) <==> SomeMarks(tc, writes) || Marks(tc, w)
  {
    var more := writes + [w];
    if SomeMarks(tc, writes) {
      var i :| 0 <= i < |writes| && Marks(tc, writes[i]);
      assert Marks(tc, more[i]);
    }
    assert more[|writes|] == w;
  }

  lemma SilentWrite(h: Helpers, tc: Json, w: Write)
    requires tc.Obj? && ErrorsShow(h, tc) && Silent(h, w)
    ensures var t := Written(h, tc, w);
            && t.Obj? && ErrorsShow(h, t) && Field(t, "name") == Field(tc, "name")
            && (IsError(t) <==> IsError(tc) || Marks(tc, w))
  {
    match w {
      case Result(a) => ResultVerdictExactly(h, tc, a);
      case Checkpoint(messageId, toolCallId, metadata) =>
        CheckpointVerdictExactly(h, tc, messageId, toolCallId, metadata);
    }
  }

  // Over every sequence of such writes a call is marked as an error if and only if it was
  // before or one of them said so: what a recovery marked is never cleared.
  lemma {:induction false} RecoveryStaysMarked(h: Helpers, tc: Json, writes: seq<Write>)
    requires tc.Obj? && ErrorsShow(h, tc) && forall w :: w in writes ==> Silent(h, w)
    ensures var t := WrittenAll(h, tc, writes);
            && t.Obj? && ErrorsShow(h, t) && Field(t, "name") == Field(tc, "name")
            && (IsError(t) <==> IsError(tc) || SomeMarks(tc, writes))
  {
    if writes != [] {
      var init, w := writes[..|writes| - 1], writes[|writes| - 1];
      assert writes == init + [w];
      RecoveryStaysMarked(h, tc, init);
      SilentWrite(h, WrittenAll(h, tc, init), w);
      MarksByName(tc, WrittenAll(h, tc, init), w);
      SomeMarksSnoc(tc, init, w);
    }
  }
}
