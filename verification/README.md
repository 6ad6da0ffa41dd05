# Verified models of the sidecar, the browser bridge and the extension

This project models the parts of the application where a guarantee has to hold over
every run, and proves those guarantees with Dafny. `dafny verify dfyconfig.toml` checks
all of it.

## What is modelled

**The delta pipeline** (`PortFrames`, `PortFrameCoalescer`, `TransportBarrier`,
`FrameContents`, `WireFences`, `WireLiveness`, `RunMirror` with `MirrorRuns`,
`ToolCallRecords` and `ToolCallFields`, on the theory in `Coalescing`). Calls on the run's
ports become wire frames. A promise tail keeps them in order while media is still being
encoded; a 16 ms window then fuses streamed text and thinking; a drain and a flush put
everything on the wire before a terminal or an abort acknowledgement. The model is a state
machine over port calls, encodings that finish or fail, promises that resolve, the `finally`
that clears the busy flag, timer firings and flushes. A frame means what the conversation
mirror does with it. `ProgressTail` is the same tail in front of a delegated run's progress
notifications; `LlmStream` is the sibling window of the language-model host.

**The Reliable Run Protocol registry** (`RunRegistry`, `RunHistory`). Starts, replays,
starts still reading their history, runs, early aborts, terminal facts, expiry and pruning.

**The batch runner** (`BatchRunner` with `BatchSafety`, `BatchTiming`, `BatchRefinement`,
`BatchStops`, `BatchAnswers`, `BatchReport`, `BatchJson`, `BatchHost`). A loop over browser
actions with pinned origins, a pin per embedded region, groups of parallel reads, a time
budget, failure accounting and a trimmed report, measured as the JSON text it is. The
browser is an adversary: it answers listings and dispatches as it likes and owns the clock.

**Extension ownership and capture** (`TabClaims`, `DownloadTracker` with `DownloadHost` and
`DownloadRuns`, `Screenshot`). Which conversation may act on which tab, which owner a
download belongs to, and the arithmetic that stitches a page from viewport-sized captures.

**Transport plumbing** (`PendingTable`, `BridgeServer` with `BridgeRuns`, `RequestIds`,
`LineSplitter`, `SettingsMirror`). Tables of requests waiting for an answer, newline framing
of chunked bytes, and the revisioned settings mirror with the reader that pins a run's
model.

Each component has its state and step functions as values, a class or loop that changes
state in place and is proved to do exactly those steps, and lemmas about every sequence of
steps. Code whose source lies elsewhere (media encoding, redaction, the agent loop, tab
listings, JSON sizes of single values) enters as function-valued parameters, so the results
hold whatever it does. A scheduler event that is not enabled changes nothing, so every
sequence of events is a run.

## Results a reader may not expect

- `TransportBarrier.FlagOutlivesDelivery`: the busy flag stays up after the last waiting
  frame was delivered, until a later microtask; a call made in that gap still queues.
- `TransportBarrier.FailedResultsAreHidden`: a tool result whose media cannot be encoded
  loses its text and content, but its metadata leaves as it came.
- `BatchReport.NoticeIsNotMeasured`: the documented bound on a batch report is checked
  before the trimming notice is added: nine reads can be reported in 32093 characters.
  `BatchReport.BoundHoldsExactly` says for every report when the bound holds, and
  `BatchReport.NothingLeftToDrop` shows the other way it fails.
- `BridgeServer.LateCloseRejectsNewRequests`: when a replaced extension connection finally
  closes, the requests already sent over its replacement are rejected with it.
  `BridgeServer.OwnCloseRejectsExactly` says in which runs that does not happen.
- `DownloadTracker.OldestWaiterLoses`: a download need not go to the owner of the oldest
  waiter that matches it; `DownloadTracker.OldestWaiterWinsExactly` says when it does.
- `DownloadHost.InterruptedSaysWhyExactly`: a download created already interrupted has no
  reason until a report names one.
- `Screenshot.InPlaceExactly`: a page shorter than the viewport is cut from the bottom of
  its only capture, so the picture is in place if and only if the page fills a viewport,
  or rounding takes all of the capture or none of it.
- `LineSplitter.RoundTripExactly`: framing and splitting lines is the identity if and only
  if no line holds a line feed or ends in a carriage return.

## Model

| member | source | states |
|---|---|---|
| Coalescing.CanonFuseLast | sidecar/src/portFrameCoalescer.ts:84-107 | Fusing the last two frames of any stream leaves its canonical form unchanged, for every lawful join |
| Coalescing.CanonMeaning | sidecar/src/portFrameCoalescer.ts:93-107 | A stream and its canonical form have the same effect when fusing two frames has the effect of both in order |
| Coalescing.CanonIrreducible | sidecar/src/portFrameCoalescer.ts:163-186 | In a canonical stream no two neighbours can still be fused |
| Coalescing.CanonFuseAnywhere | sidecar/src/portFrameCoalescer.ts:84-107 | Fusing any two neighbours, wherever they stand, leaves the canonical form unchanged |
| Coalescing.FusingIsConfluent | sidecar/src/portFrameCoalescer.ts:163-186 | Wherever and in whatever order neighbours are fused, a stream has nothing left to fuse if and only if it is the canonical form of the stream it came from |
| PortFrames.FusesExactly | sidecar/src/portFrameCoalescer.ts:62-107 | Two frames fuse if and only if both stream text, or both thinking, to the same message of the same conversation; text tokens are put together, of thinking the later one counts |
| PortFrames.FuseLawful | sidecar/src/portFrameCoalescer.ts:75-107 | The merge rule is associative, and a merge on the right never opens one on the left |
| RunMirror.TextAppendedTwice | sidecar/src/conversationRunMirror.ts:133-142 | Appending two tokens to a target is appending their concatenation, for string and block content, and moves no target |
| RunMirror.ThinkingReplacedTwice | sidecar/src/conversationRunMirror.ts:150-160 | Replacing thinking twice is replacing it with the later text |
| RunMirror.FuseRespectsMeaning | sidecar/src/portFrameCoalescer.ts:93-107 | Fusing two frames does to the shell's state what the two do in order, whatever the helpers, the unlisted methods and the other ports do |
| RunMirror.EditsTouchOneMessage | sidecar/src/conversationRunMirror.ts:133-344 | A write that edits a message changes at most the message it aims at, and never a message's id or role |
| MirrorRuns.AppendTextAppends | sidecar/src/conversationRunMirror.ts:133-142 | After an `appendText` frame the first message with its id, or the last one when it has none, shows its old text followed by the token and keeps every other field; all other messages stay |
| MirrorRuns.AppendedTextKeeps | sidecar/src/conversationRunMirror.ts:133-142 | Appending text leaves every block but the last, every field of that block but its text and every other field alone; a message that shows no text stays as it was |
| MirrorRuns.TextIsEveryToken | sidecar/src/conversationRunMirror.ts:133-148 | After any run of edits the text a message shows is its old text and every token aimed at it, in order, or all of them since its content was last set |
| MirrorRuns.TokensAreKept | sidecar/src/conversationRunMirror.ts:133-142 | While no write sets the content anew, that text is the old text followed by all the tokens put together |
| MirrorRuns.LastWriteWins | sidecar/src/conversationRunMirror.ts:143-211 | After any run of edits every field that is set has the value of the last write aimed at its message, and every other field the value it had |
| MirrorRuns.ListsOnlyGrow | sidecar/src/conversationRunMirror.ts:174-179 | Redacted thinking and tool contexts are what was there, then everything added, in order |
| MirrorRuns.AimsExactly | sidecar/src/conversationRunMirror.ts:116-120 | A write aims at a message if and only if it is the first with the id, the last one when no id is given, or the latest answer of the loop |
| MirrorRuns.DeletionCuts | sidecar/src/conversationRunMirror.ts:296-307 | Deletion cuts the conversation right before the first message with the id, and nowhere when there is none |
| RunMirror.ConversationRunMirror.ApplyChatDeltaWrite | sidecar/src/conversationRunMirror.ts:122-372 | The in-place switch does to the conversation what each method means: search for the target, then edit, add or truncate; a method it does not list changes nothing |
| RunMirror.ConversationRunMirror.FindTarget | sidecar/src/conversationRunMirror.ts:116-120 | The write goes to the first message with the id, or the last message when no id is given, or nowhere |
| RunMirror.ConversationRunMirror.AppendText | sidecar/src/conversationRunMirror.ts:133-142 | The in-place write changes exactly the target's text |
| RunMirror.ConversationRunMirror.AppendThinking | sidecar/src/conversationRunMirror.ts:150-160 | The in-place write replaces exactly the target's thinking |
| RunMirror.ConversationRunMirror.DeleteMessagesFrom | sidecar/src/conversationRunMirror.ts:296-307 | The named message and everything after it goes; an unknown id changes nothing |
| RunMirror.ConversationRunMirror.AppendToolCallContext | sidecar/src/conversationRunMirror.ts:322-333 | The context goes to the loop's latest assistant message only |
| ToolCallRecords.FailuresStayVisible | sidecar/src/conversationRunMirror.ts:212-295 | However results and checkpoints follow one another, a tool call that stopped short or has a failed batch task is marked as an error, and one that stopped short never counts as completed again |
| ToolCallRecords.ResultVerdictExactly | sidecar/src/conversationRunMirror.ts:212-256 | From the call and the result's arguments alone: which stop reason and summary the call has after the result, and that it is marked as an error if and only if those speak of a failure, or, when the result brings nothing to judge by, it was marked before or the result says error or recovery |
| ToolCallRecords.CheckpointVerdictExactly | sidecar/src/conversationRunMirror.ts:257-295 | The same of a checkpoint, where a sandbox recovery marks the call whatever else it brings |
| ToolCallRecords.RecoveryShowsExactly | sidecar/src/conversationRunMirror.ts:232-294 | A recovery marks a command in a checkpoint always, and in a result if and only if the result brings no stop reason and no accepted summary, or the reason and summary the call then has speak of a failure |
| ToolCallRecords.RecoveryStaysMarked | sidecar/src/conversationRunMirror.ts:212-295 | Over every sequence of writes without a stop reason and an accepted summary, which is all a command reports, a call is marked if and only if it was before or one write said error or recovery: what a recovery marked is never cleared |
| ToolCallFields.ResultSetsItsFields | sidecar/src/conversationRunMirror.ts:212-256 | A result sets the result, its content, the display flag, the outcomes its metadata names and a recovery, ends the call, and leaves every other field outside the verdict alone |
| ToolCallFields.CheckpointSetsItsFields | sidecar/src/conversationRunMirror.ts:257-295 | A checkpoint sets the outcomes its metadata names and a recovery, and leaves every other field outside the verdict alone |
| ToolCallFields.EditsFirstCall | sidecar/src/conversationRunMirror.ts:218-219 | A result or checkpoint changes the first tool call with its id and no other |
| MirrorRuns.ResultLands | sidecar/src/conversationRunMirror.ts:215-253 | A result changes the first tool call with its id as the switch says and no other; without such a call all stay |
| MirrorRuns.CheckpointLands | sidecar/src/conversationRunMirror.ts:255-295 | A checkpoint does the same for its call |
| ToolCallFields.FailureIsNotTakenBack | sidecar/src/conversationRunMirror.ts:236-242 | A write leaves the stop reason it names, except that completion never takes the place of a failure |
| ToolCallFields.OnlyCommandsRecover | sidecar/src/conversationRunMirror.ts:232-235 | A sandbox recovery is taken over, and marks an error, for commands whose metadata names one and for no other call |
| ToolCallFields.SubagentCallAddedOnce | sidecar/src/conversationRunMirror.ts:334-348 | A subagent's tool call is added once, behind the others, and a list that grew is bounded |
| PortFrameCoalescer.ScheduleIsInvisible | sidecar/src/portFrameCoalescer.ts:125-186 | After any pushes, timer firings and flushes, what was sent followed by what is buffered is the pushed stream up to fusing; no batch is empty, and the timer is armed exactly while something waits |
| PortFrameCoalescer.CoalescingPreservesMeaning | sidecar/src/portFrameCoalescer.ts:93-186 | Folding the mirror over sent and buffered frames gives what folding it over the raw pushes gives |
| PortFrameCoalescer.WindowMergesRuns | sidecar/src/portFrameCoalescer.ts:163-186 | While no timer fires and nothing is flushed every run of frames that can be fused is one frame |
| PortFrameCoalescer.WindowEnds | sidecar/src/portFrameCoalescer.ts:151-161 | Once the timer has fired or a flush came, everything pushed so far is on the wire and no timer is armed |
| PortFrameCoalescer.OtherFramesGoAtOnce | sidecar/src/portFrameCoalescer.ts:163-186 | A frame that is not streamed goes out at once, behind everything that was held back |
| PortFrameCoalescer.Coalescer.Push | sidecar/src/portFrameCoalescer.ts:163-186 | One push in place: fuse, buffer or flush with the frame last; a token that is not a string throws and changes nothing |
| PortFrameCoalescer.Coalescer.Flush | sidecar/src/portFrameCoalescer.ts:151-161 | A flush sends everything buffered as one batch in order, nothing if nothing is buffered, and disarms the timer |
| TransportBarrier.OrderingBarrier | sidecar/src/portFrameSenders.ts:135-303 | Under every interleaving the coalescer was handed the outcomes of the first calls, one frame per call in call order, with arguments read at call time, and the remaining calls are exactly what waits |
| FrameContents.CallsArriveAsMade | sidecar/src/portFrameSenders.ts:165-303 | The k-th delivered frame has the k-th call's port, method and arguments as they were at the call: as they are but for collapsed inline media, or with their media as an encoding of the run left it, or redacted and marked if that encoding failed |
| FrameContents.PlainCallsArriveVerbatim | sidecar/src/portFrameSenders.ts:184-193 | A call of arguments without media, which collapsing leaves alone, is delivered word for word |
| FrameContents.RedactionOnlyOnFailure | sidecar/src/portFrameSenders.ts:184-210 | A run in which no encoding fails is the same run under every redaction and every failure mark |
| FrameContents.LastWriteIsRead | sidecar/src/portFrameSenders.ts:154-177 | A live object holds what was last written to it, by a call's own apply or by the mirror |
| WireLiveness.EveryCallCanBeDelivered | sidecar/src/portFrameSenders.ts:139-152 | From every reachable state scheduler steps alone deliver every call and lower the flag, whether encodings fail or not |
| TransportBarrier.AlwaysStructured | sidecar/src/portFrameSenders.ts:139-152 | The busy flag is up exactly until the last promise's `finally` has run |
| TransportBarrier.IdleMeansDelivered | sidecar/src/portFrameSenders.ts:165-172 | While the flag is down no call is undelivered, so pushing past the tail overtakes nothing |
| TransportBarrier.FlagOutlivesDelivery | sidecar/src/portFrameSenders.ts:145-151 | In every reachable state a finished frame goes out at once if and only if the last promise's `finally` has run; before that, with nothing undelivered, the flag is up and the call waits alone |
| TransportBarrier.FlagGapIsReached | sidecar/src/portFrameSenders.ts:145-151 | A run of four steps reaches that gap, whatever the codec does |
| TransportBarrier.LocalApplyInvisible | sidecar/src/portFrameSenders.ts:174-216 | Reading arguments before or after the local apply gives the same frame when the apply writes none of the call's live objects |
| TransportBarrier.FailedEncodingsAreClean | sidecar/src/portFrameSenders.ts:108-122 | Arguments whose encoding failed leave nothing raw in the frame, if redaction leaves nothing raw and marking a tool call adds nothing raw |
| TransportBarrier.FailedCallsAreMarked | sidecar/src/portFrameSenders.ts:108-122 | Such a frame carries every tool call of the redacted arguments, each marked as failed |
| TransportBarrier.FailedResultsAreHidden | sidecar/src/portFrameSenders.ts:262-303 | A tool result never leaves with content that still needs encoding; when its media fails nothing of result, content or error flag is left, its metadata leaves as it came, and the frame is clean if and only if ids, display flag and metadata are |
| TransportBarrier.FrameChatDelta.SendFrame | sidecar/src/portFrameSenders.ts:165-177 | A plain send delivers at once when idle and otherwise queues a snapshot taken after the local apply |
| TransportBarrier.FrameChatDelta.SendPrepared | sidecar/src/portFrameSenders.ts:184-220 | A prepared send is cloned before the local apply, and queues when media needs encoding or something waits |
| TransportBarrier.FrameChatDelta.SendUpdateToolCall | sidecar/src/portFrameSenders.ts:222-303 | A tool result is sanitised and sent, or queued to be encoded, with its local values read at call time |
| TransportBarrier.FrameChatDelta.PushExecFrame | sidecar/src/portFrameSenders.ts:414-450 | Execution frames always take the tail, behind everything already on it |
| WireFences.AnswersFollowEveryCall | sidecar/src/agentLoopHost.ts:1233-1310 | Every call made before the loop settled, or before an abort arrived, precedes the line that answers it: the lines before it carry exactly the first n calls' frames, those calls among them, and do to the shell what those frames do |
| WireFences.LineHasCause | sidecar/src/agentLoopHost.ts:1233-1310 | Every terminal and acknowledgement on the wire answers exactly one loop that settled or abort that arrived, and is its only line |
| WireLiveness.AnswersCanCome | sidecar/src/agentLoopHost.ts:1233-1310 | From every reachable state scheduler steps alone bring the line of every settled loop and every arrived abort onto the wire |
| WireLiveness.EveryCallCanReachTheWire | sidecar/src/portFrameCoalescer.ts:125-161 | From every reachable state scheduler steps and the end of the window put the frame of every call made onto the wire, whether the timer or a flush ends it |
| WireLiveness.IdleAnswersAtOnce | sidecar/src/portFrameSenders.ts:305-311 | When every promise has resolved a waiting drain is four steps from its line |
| WireFences.RequestsFollowDelivered | sidecar/src/agentLoopHost.ts:961-964 | A request follows exactly the frames delivered before it; calls behind the media barrier may come after it |
| WireFences.DrainMarksEveryCall | sidecar/src/agentLoopHost.ts:1384-1417 | The drain begun when the loop settles or an abort arrives waits for every call made so far, also those still behind the media barrier, and keeps doing so |
| WireFences.AlwaysHostValid | sidecar/src/portFrameSenders.ts:305-311 | In every reachable state a drain that returned has seen every call it waits for delivered, and one that flushed has them on the wire |
| WireFences.RunHost.OnDrainResumed | sidecar/src/portFrameSenders.ts:305-311 | A drain goes on waiting if the tail grew while it waited, and otherwise returns |
| WireFences.RunHost.OnDrainReturned | sidecar/src/agentLoopHost.ts:1246-1247 | The code behind a drain flushes what came in since, as a step of its own |
| WireFences.RunHost.OnAnswer | sidecar/src/agentLoopHost.ts:1248-1250 | The line goes on the wire after the flush, once per drain |
| WireFences.RunHost.OnAbort | sidecar/src/agentLoopHost.ts:1407-1417 | An abort of an active run flushes at once and drains every call made before it |
| WireFences.RunHost.OnRequest | sidecar/src/agentLoopHost.ts:961-964 | The flush before a request covers the frames already handed to a coalescer, and only those |
| ProgressTail.ProgressInOrder | sidecar/src/subagentHost.ts:545-592 | Progress notifications are one line per event in sending order, each telling its event as it was when sent: redacted when it holds no media, else as an encoding left it or as failed; complete once the tail is idle |
| LlmStream.StreamIsFaithful | sidecar/src/llmHost.ts:135-186 | For every event sequence and timer schedule notifications are numbered 0, 1, 2, … and with the buffer are the adapter's stream up to merging; the timer is armed exactly while a delta waits |
| LlmStream.SettledCallIsComplete | sidecar/src/llmHost.ts:159-211 | Once the call settles nothing is buffered, and a consumer reads from the notifications the adapter's text, thinking and other events in the same relative order |
| LlmStream.SettledCallIsRead | sidecar/src/llmHost.ts:159-211 | A settled call's consumer has all the adapter's text, all its thinking, and every other event with as much of both before it |
| LlmStream.TimerEndsTheWindow | sidecar/src/llmHost.ts:135-158 | When the timer has fired nothing is held back and what was sent is the adapter's stream up to merging |
| LlmStream.WindowMergesRuns | sidecar/src/eventCoalescer.ts:75-105 | Without timer firings every maximal run of deltas of one type is one event |
| LlmStream.EventCoalescer.Push | sidecar/src/eventCoalescer.ts:85-101 | What goes out at once is the pending delta, then the event if it is no delta; a delta of the pending type is merged instead |
| LlmStream.ActiveCall.HandleEvent | sidecar/src/llmHost.ts:178-186 | One adapter event in place: push, number and send what goes out, arm or disarm the timer |
| RunRegistry.RunsStayConsistent | sidecar/src/agentLoopHost.ts:891-1041 | In every run the active runs are exactly the running entries, each entry's loop started at most once and its terminal was announced exactly once when terminal |
| RunRegistry.RunExactlyOnce | sidecar/src/agentLoopHost.ts:995-1041 | While a start is retained its loop starts at most once, its state only moves accepted, running, terminal, and its ids and terminal fact never change |
| RunRegistry.EarlyAbortWins | sidecar/src/agentLoopHost.ts:1384-1406 | A start whose abort was accepted before its loop began never runs a loop, and every later run request ends aborted or is refused |
| RunRegistry.FailedReadFreesRunId | sidecar/src/agentLoopHost.ts:856-889 | A failed history read registers nothing and the runId can be started again |
| RunRegistry.OwnerKeepsTheRun | sidecar/src/agentLoopHost.ts:891-1041 | From a start's first moment, its history still unread, for as long as it is retained: another identity is turned away and changes nothing, the owner's own start never conflicts, and once the run finished the owner's starts and run requests all get the terminal fact it had then |
| RunHistory.LoopResultIsTheFact | sidecar/src/agentLoopHost.ts:1233-1258 | What an active loop returned is the run's terminal fact, stamped with that moment, for as long as the start is retained, and what its owner's starts and run requests are answered with |
| RunHistory.TerminalHasCause | sidecar/src/agentLoopHost.ts:995-1041 | Every terminal fact was recorded when its loop settled with that result, or, as aborted, when its owner asked to run a start cancelled before |
| RunHistory.CancellationHasCause | sidecar/src/agentLoopHost.ts:1384-1406 | A start is cancelled only by an abort that reached it |
| RunHistory.UnabortedStartRuns | sidecar/src/agentLoopHost.ts:995-1041 | A retained start that no abort reached starts its loop as soon as its owner asks |
| RunHistory.AbortReachesTheStart | sidecar/src/agentLoopHost.ts:1384-1406 | An abort is accepted if and only if a start that has not ended holds the runId, and cancels that start unless its loop runs already |
| RunHistory.FreeRunIdIsTaken | sidecar/src/agentLoopHost.ts:856-933 | A start of a free runId is registered under its identity, at once or when its history has been read |
| RunHistory.AbortWhileReadingCounts | sidecar/src/agentLoopHost.ts:856-889 | An abort that comes while the history is read is not lost with the reading |
| RunHistory.BlankStartsAreRefused | sidecar/src/agentLoopHost.ts:891-895 | A start is invalid if and only if its message id or digest is blank, and then changes nothing |
| RunRegistry.SweepsSpareRunning | sidecar/src/agentLoopHost.ts:700-727 | No sweep removes a running entry or a start still reading |
| RunRegistry.AgentLoopHost.PruneRunRegistry | sidecar/src/agentLoopHost.ts:700-727 | Expired entries go; above the bound the oldest terminal ones go until the bound is met or none is left; nothing else changes |
| RunRegistry.AgentLoopHost.HandleAgentStart | sidecar/src/agentLoopHost.ts:891-933 | The in-place handler answers and changes the swept registry as the protocol step does |
| RunRegistry.AgentLoopHost.HandleAgentRun | sidecar/src/agentLoopHost.ts:995-1041 | The in-place handler refuses, replays, ends aborted or starts the loop as the protocol step does, sweeping after a terminal |
| RunRegistry.AgentLoopHost.FinishRun | sidecar/src/agentLoopHost.ts:1233-1258 | The end of a loop records its terminal fact, drops the active run and sweeps |
| RunRegistry.AgentLoopHost.HandleAgentAbort | sidecar/src/agentLoopHost.ts:1384-1417 | Aborts reach an active run, else a start still reading, else an accepted entry, else nothing |
| BatchSafety.BatchIsSafe | abu-browser-bridge/src/batch.ts:539-652 | For every environment and run, each dispatched group was preceded by a listing showing the tab and every region it names at their pins, except main-document steps of a gated first group whose opening listing had no origin; a refused run sends nothing |
| BatchSafety.ActionsWaitTheirTurn | abu-browser-bridge/src/batch.ts:583-676 | A fill, select, click, keyboard or wait step leaves alone, and only after every earlier step returned ok |
| BatchSafety.ReportAddsUp | abu-browser-bridge/src/batch.ts:554-569 | completed + failed + remaining is the number submitted; completed indices increase; the failed step is the first that failed; every failure was answered by the last group sent, a group of reads when there are several |
| BatchStops.StopsForItsCause | abu-browser-bridge/src/batch.ts:572-652 | A run stops for the reason it names: a failed step, the clock, a page or region at another origin than its pin, or none to check; one that names none, and did not throw, got every step answered ok |
| BatchAnswers.RunUnfolds | abu-browser-bridge/src/batch.ts:655-720 | A run is the listings and groups of its trace, one world after the other, each group with the deadlines its steps ask for within the budget, each outcome saying what the browser answered; it throws only where a listing threw |
| BatchTiming.BatchEndsInTime | abu-browser-bridge/src/batch.ts:583-699 | If every transport call returns by its deadline the run ends before 180 s, and a wait at most 5 s after the later of the 120 s ceiling and its dispatch |
| BatchTiming.SlowestIsPunctual | abu-browser-bridge/src/batch.ts:583-699 | The time bound's hypothesis is met: the environment that uses every deadline up keeps it |
| BatchRefinement.BatchRefinesSerial | abu-browser-bridge/src/batch.ts:583-676 | If reads leave the page alone, an undisturbed run has the outcomes of a runner that sends one step at a time up to the first failure, and the same failed step |
| BatchRefinement.PageBrowserActs | abu-browser-bridge/src/batch.ts:583-676 | The refinement's hypothesis is met: a browser that holds one page and executes the steps sent to it keeps it |
| BatchRunner.GroupEnd | abu-browser-bridge/src/batch.ts:611-618 | A group is one step or a longest stretch of reads |
| BatchRunner.RegionStop | abu-browser-bridge/src/batch.ts:634-652 | A group may go on if and only if every region it names has a pin and shows it |
| BatchRunner.CapStepResult | abu-browser-bridge/src/batch.ts:450-467 | A reported result or error is bounded or replaced, a cut is always marked, and an unmarked outcome is untouched |
| BatchReport.FitEnvelope | abu-browser-bridge/src/batch.ts:474-489 | The loop drops results oldest first, no more than it takes, and stops at the first level that fits or when none is left |
| BatchReport.TrimmingKeepsTheReport | abu-browser-bridge/src/batch.ts:474-489 | Trimming changes results and the truncation marks only, and takes a younger result only with every older one |
| BatchReport.NoticeIsNotMeasured | abu-browser-bridge/src/batch.ts:482-488 | Nine reads of 3846 characters each are reported in 32093 characters: the report fits before the notice is added and not with it |
| BatchReport.BoundHoldsExactly | abu-browser-bridge/src/batch.ts:474-490 | For every report, on the sizes of its trimming levels alone: what is sent is within the bound if and only if the untrimmed report is, or the first level within the bound leaves room for the notice |
| BatchReport.BoundFailsExactly | abu-browser-bridge/src/batch.ts:474-490 | It is beyond the bound if and only if the untrimmed report is and either no level is within the bound or the first that is lies within a notice of it |
| BatchReport.OvershootIsTheNotice | abu-browser-bridge/src/batch.ts:474-490 | What is sent exceeds the bound by at most the notice, unless no result is left in it |
| BatchReport.NothingLeftToDrop | abu-browser-bridge/src/batch.ts:474-490 | With a long enough approved origin even a report without steps exceeds the bound by more than the notice |
| BatchJson.SizeIsLength | abu-browser-bridge/src/batch.ts:441-448 | The measured size of a report is the length of its indented JSON text, where the notice is written as it stands |
| BatchHost.RunBatch | abu-browser-bridge/src/batch.ts:497-679 | The report names every ok answer in order, as answered or with its result dropped and marked, the first answer that was not ok, what is left of the submitted steps, the run's stop reason and the approved or else observed pins; none only when a listing threw |
| TabClaims.ParseInvertsKey | src-tauri/browser-extension/background.js:545-620 | Parsing an owner's key gives the owner back, for every pair of ids it can be made from |
| TabClaims.GrantMeansClaim | src-tauri/browser-extension/background.js:679-707 | When a request that is not legacy is granted a tab it names, the table holds the tab for its conversation |
| TabClaims.AccessIsDecided | src-tauri/browser-extension/background.js:679-707 | For every reachable table: a closed tab is stale, an open one is refused if and only if another conversation holds it, and whoever of its conversation asks is granted it, holds it if nobody did and has it as current tab; a legacy request leaves no trace |
| TabClaims.GrantsAreSeparated | src-tauri/browser-extension/background.js:564-716 | Between grants of one tab to two conversations a release of the first holder took place |
| TabClaims.LosingATabTakesARelease | src-tauri/browser-extension/background.js:586-611 | A conversation stops holding a tab only by its closing, a release covering its holder, or the socket dropping |
| TabClaims.CurrentTabIsLastGranted | src-tauri/browser-extension/background.js:582-591 | An owner's current tab is the tab it was granted last |
| TabClaims.GrantedTabStaysCurrent | src-tauri/browser-extension/background.js:582-611 | A granted tab is its owner's current tab until the owner is granted another or released, the tab closes or the socket drops |
| TabClaims.ReleaseOwnerIsExact | src-tauri/browser-extension/background.js:592-606 | A release drops exactly the claims and the current-tab pointers of owners in scope |
| TabClaims.TabClaimStore.DropOwner | src-tauri/browser-extension/background.js:592-606 | The loops drop what the specification drops and count the dropped claims |
| TabClaims.TabClaimStore.ResolveNamed | src-tauri/browser-extension/background.js:687-707 | After the tab lookup the resolver releases a closed tab, claims a free one, refuses another conversation's and touches its own |
| DownloadTracker.TrackerAgrees | src-tauri/browser-extension/background.js:101-228 | For fresh ids, after every sequence of events: both indexes map exactly the listed records, the list is every owner's newest twenty in order, queues hold exactly the waiters still waiting, and waiters and records match one to one |
| DownloadTracker.OwnersKeepNewest | src-tauri/browser-extension/background.js:193-204 | Of each owner's records exactly the newest twenty are kept, newest first |
| DownloadTracker.EarliestMatchClaims | src-tauri/browser-extension/background.js:108-128 | A new download claims the earliest still waiting waiter of its owner whose site matches, and no other |
| DownloadTracker.SuggestedOwnerStays | src-tauri/browser-extension/background.js:117-128 | The owner a suggestion filed a download under owns it until it is created, whatever happens in between |
| DownloadTracker.OldestWaiterWinsExactly | src-tauri/browser-extension/background.js:117-128 | A download no suggestion filed goes to the owner of the oldest live waiter that matches it if and only if no owner placed before that one in the map has a live matching waiter |
| DownloadTracker.OldestWaiterLoses | src-tauri/browser-extension/background.js:117-128 | Three waiters of two owners and one download that goes to the owner of the younger matching waiter |
| DownloadRuns.OwnersWait | src-tauri/browser-extension/background.js:117-128 | A download no suggestion filed finds an owner if and only if a live waiter matches it, and then one who has such a waiter |
| DownloadRuns.GivenUpNeverClaims | src-tauri/browser-extension/background.js:140-170 | A waiter that was cancelled while it waited never gets a download |
| DownloadRuns.SuggestionDecides | src-tauri/browser-extension/background.js:117-128 | Once a suggestion filed a download, it is created for that owner, whatever comes in between |
| DownloadRuns.SameSiteExactly | src-tauri/browser-extension/background.js:56-60 | Two hosts are of one site if and only if they are equal or one is a subdomain of the other |
| DownloadRuns.ReferrerDecides | src-tauri/browser-extension/background.js:61-66 | A referrer alone decides what site a download is of; only without one does the final host |
| DownloadHost.Tracker.OnCreated | src-tauri/browser-extension/background.js:176-209 | The in-place handler makes the record for the owner found, lists, indexes and trims, and claims the waiter; the indexes keep leading to the listed objects |
| DownloadHost.Tracker.OnChanged | src-tauri/browser-extension/background.js:210-228 | A change report updates the one record it names, and an unknown id nothing |
| DownloadHost.Tracker.Find | src-tauri/browser-extension/background.js:237-240 | A download is found by its owner and by nobody else |
| DownloadHost.TrimList | src-tauri/browser-extension/background.js:193-204 | The splicing loop keeps the newest twenty of the owner and unindexes exactly the others |
| DownloadHost.InterruptedSaysWhyExactly | src-tauri/browser-extension/background.js:178-228 | A record is interrupted without a reason if and only if it was created interrupted and no report since named an error or a state |
| DownloadRuns.RecordSaysTheLast | src-tauri/browser-extension/background.js:178-228 | After all reports state, path and size are what the last of creation and reports to name them said, and the reason is the last error named or the stock one |
| Screenshot.CanvasHeightAddsUp | src-tauri/browser-extension/offscreen.js:36-45 | The rounded canvas height is the whole slices' rows plus the rounded rows of the last slice, which is at most one capture |
| Screenshot.CapturesTile | src-tauri/browser-extension/offscreen.js:46-66 | The slices are drawn one after the other from the top of the canvas to its end, from rows their captures have |
| Screenshot.OneDrawPerRow | src-tauri/browser-extension/offscreen.js:46-66 | Every canvas row belongs to exactly one slice |
| Screenshot.FullPageInPlace | src-tauri/browser-extension/background.js:1604-1637 | On a page at least a viewport tall every canvas row shows the page within half a device row of its place, and exactly in place above the last slice |
| Screenshot.InPlaceExactly | src-tauri/browser-extension/offscreen.js:46-66 | The picture is in place if and only if the page fills a viewport or rounding takes the whole capture or none of it |
| Screenshot.CanvasLimitRefusal | src-tauri/browser-extension/offscreen.js:6-17 | A canvas is refused exactly when a side or the area is above its limit |
| Screenshot.StitchSlices | src-tauri/browser-extension/offscreen.js:26-66 | A refused canvas is never drawn; otherwise the drawing loop paints the slices' draws in order, for captures of any sizes |
| Screenshot.CaptureFullPage | src-tauri/browser-extension/background.js:1604-1637 | The capture loop refuses a page without area or above the limits, and otherwise yields the tiled canvas |
| PendingTable.EachSettlesOnce | abu-browser-bridge/src/wsServer.ts:289-372 | In every run each registered request is pending or settled exactly once, and of a settled one no entry, timer or listener is left |
| PendingTable.OnlyItsOwnEventsSettle | abu-browser-bridge/src/wsServer.ts:197-241 | A pending request is settled by its own answer, its own timer, its own signal or a rejection of all, with that cause, and by nothing else |
| PendingTable.LateAnswersChangeNothing | sidecar/src/rpcClient.ts:138-146 | Late or duplicate answers and stale timers change nothing |
| PendingTable.OutcomeStays | sidecar/src/rpcClient.ts:113-165 | A settled request keeps its outcome in every continuation |
| PendingTable.FiredSignalsRefuse | abu-browser-bridge/src/abortSignal.ts:26-36 | A signal that fired once stays fired, and no request is registered under it again |
| PendingTable.RpcClient.SendRequest | sidecar/src/rpcClient.ts:113-131 | A request is registered under a new ticket, with a timer unless its method is unbounded |
| PendingTable.RpcClient.RejectAllPending | sidecar/src/rpcClient.ts:159-165 | Shutdown settles every pending request once and leaves no timer |
| BridgeServer.BridgeSettlesOnce | abu-browser-bridge/src/wsServer.ts:174-207 | Whatever connections come and go, every request sent is pending or settled exactly once with nothing left behind |
| BridgeServer.SentOnlyWhenConnected | abu-browser-bridge/src/wsServer.ts:289-309 | A request goes out only over the current open connection, is filed under it, and only if its signal has not fired; otherwise nothing changes |
| BridgeRuns.ConnectedExactly | abu-browser-bridge/src/wsServer.ts:174-241 | The bridge is connected over a socket if and only if it connected last and nothing since ended its use: its own end, a newer connection, silence or a shutdown |
| BridgeRuns.EachEventSettlesItsOwn | abu-browser-bridge/src/wsServer.ts:174-241 | Its own answer, timer or signal, any close and a shutdown settle a waiting request, each with its own cause, and no other event does |
| BridgeRuns.AlwaysOneAtATime | abu-browser-bridge/src/wsServer.ts:168-207 | In every reachable state no socket but the current one is open, and a current one has connected and not closed |
| BridgeRuns.ClosedForGood | abu-browser-bridge/src/wsServer.ts:196-207 | A closed socket is never live again |
| BridgeServer.LateCloseRejectsNewRequests | abu-browser-bridge/src/wsServer.ts:196-207 | Connect, connect again, send, close the first: the request sent over the second connection is rejected as disconnected while that connection stays |
| BridgeServer.OwnCloseRejectsExactly | abu-browser-bridge/src/wsServer.ts:174-207 | In a run requests are rejected as disconnected only by the close of the socket they were sent over, if and only if no close finds a request pending that was sent over another |
| BridgeServer.WithoutOverlapCloseIsOwn | abu-browser-bridge/src/wsServer.ts:174-207 | That always holds while no connection comes before the last one has closed |
| BridgeServer.WsServer.SendToExtension | abu-browser-bridge/src/wsServer.ts:289-372 | The in-place send refuses, or registers entry, timer and listener under a fresh ticket |
| BridgeServer.WsServer.OnClose | abu-browser-bridge/src/wsServer.ts:196-207 | A close settles every pending request as disconnected and takes down its timer and listener |
| BridgeServer.WsServer.OnSignalAborted | abu-browser-bridge/src/abortSignal.ts:26-36 | A signal fires once and settles exactly the requests still listening to it |
| RequestIds.BridgeIdsDiffer | abu-browser-bridge/src/wsServer.ts:47-50 | Equal bridge ids come from equal counters, whatever clock and random part say |
| RequestIds.RpcIdsDiffer | sidecar/src/rpcClient.ts:70-73 | Equal request ids come from equal counters |
| LineSplitter.ChunkingIsInvisible | sidecar/src/stdinLineSplitter.ts:37-86 | For every chunking the lines handed over are those of the whole stream cut at line feeds with one trailing carriage return dropped, and the unfinished line is kept |
| LineSplitter.CutOfConcat | sidecar/src/stdinLineSplitter.ts:37-86 | Cutting a stream in two places only needs the unfinished line of the first part |
| LineSplitter.RoundTripExactly | sidecar/src/stdinLineSplitter.ts:32-35 | Framing and splitting is the identity if and only if no line holds a line feed or ends in a carriage return |
| LineSplitter.RoundTripOverAnyChunking | sidecar/src/stdinLineSplitter.ts:68-86 | Framable lines and an unterminated last one come out as they went in, however chunked |
| LineSplitter.StdinLineSplitter.PushChunk | sidecar/src/stdinLineSplitter.ts:68-80 | The newline loop hands over every line a chunk finishes and keeps its tail |
| SettingsMirror.MirrorIsExplained | sidecar/src/settingsMirror.ts:61-72 | The mirror holds the first push of the highest finite revision, or the first seed while no push had one |
| SettingsMirror.ArrivalOrderIsIrrelevant | sidecar/src/settingsMirror.ts:61-67 | With one snapshot per revision any two arrival orders of the same events end at the same pushed snapshot |
| SettingsMirror.RevisionsOnlyGrow | sidecar/src/settingsMirror.ts:61-67 | No event moves the mirror to an older revision |
| SettingsMirror.SharedMirror.ApplySettingsSnapshot | sidecar/src/settingsMirror.ts:61-67 | A push is applied, and reported as applied, exactly when its revision is finite and newer |
| SettingsMirror.RunScopedReader.GetSnapshot | sidecar/src/subagentHost.ts:439-464 | A read is the live snapshot with only the model pinned, the mirror's own object when the models agree, and the same object again while the mirror has not moved |

## Left out

- Media encoding, redaction, `runAgentLoop`, the model adapters and the shell's frame applier are function-valued parameters; the mirror is the meaning of a frame.
- RunMirror.ConversationRunMirror.ApplyChatDeltaWrite: what it keeps beside the conversation (index entry, skill details, `updatedAt`, thinking start time, which need the clock) is not modelled; normalising and merging batch summaries and bounding lists of tool calls are the parameter `Helpers`.
- Identity of message objects in the mirror: messages are values, and `===` on argument objects in the merge rule is equality of values.
- Calls whose streamed token is not a string throw out of the coalescer; the fence results assume the port types rule them out (`WireFences.WellTyped`).
- WireFences.RequestsFollowDelivered: a request's line promises only the frames already handed to the coalescer, as the flush before a request does not wait for media.
- The acknowledgement that joins a start to one still reading is the `Joined` answer; its message follows the first start's and is not modelled separately.
- The order in which equally old terminal entries are pruned, and the iteration order of maps other than the owner map of the download tracker.
- Aborting a loop that is already running, and `shutdownAllAgentRuns`.
- RunRegistry.AgentLoopHost.HandleAgentRun: the setup between marking an entry running and making it active is one step, as no code outside it can run there unless that setup throws.
- BatchTiming.BatchEndsInTime: time passes only inside transport calls; the time the bridge itself computes is not counted.
- BatchRefinement.BatchRefinesSerial: durations are not compared, and a run the clock or an origin check stopped is outside it.
- Wording of stop messages, parsing of steps, listings and origins: readings and messages are parameters. Of the report's JSON the layout is modelled and the sizes of single strings, numbers and results are parameters.
- The current-tab fallback of the tab resolver grants nothing to a named tab and is outside the isolation results; its release of a closed tab is the `CurrentTabGone` step. Claim times and log lines are not modelled.
- TabClaims.GrantMeansClaim: says nothing of legacy requests, which the source lets act on any tab they name.
- Waiting on a download (`wait`, `awaitDone`), file-name sanitising and URL parsing: hosts arrive parsed, and a claim is recorded with its waiter.
- Screenshot.FullPageInPlace: scrolling ends one reported viewport height above the end of the page, so it is about pages without a horizontal scrollbar; with one the browser's own viewport is lower than the `innerHeight` reported, and the last scroll ends elsewhere.
- Screenshot: arithmetic is exact and a page is still while it is scrolled; sub-pixel scrolling, image decoding and restoring the scroll position are not modelled.
- BridgeServer.WsServer.SendToExtension: `send` on an open socket is taken not to throw once the request is registered.
- The cancel message sent to the extension on an abort, the discovery endpoint, heartbeat timing and token checks of the bridge.
- Several calls of the language-model host at once: each has a record of its own, and `LlmStream` models one.
- UTF-8 decoding of a line: the splitter takes any decoder, which always sees a whole line.
