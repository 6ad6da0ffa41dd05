/**
 The ordering barrier in front of the coalescer. Port calls either push a frame
 at once or wait behind frames whose media is still being encoded. `Transport`
 is the closure's state together with the promise chain it hangs on; each step
 below is one piece of code that runs to completion.
 */
module TransportBarrier {
  import opened Wrappers
  import opened Coalescing
  import opened PortFrames
  import opened PortFrameCoalescer

  // An argument is a value, or an object the run mirror keeps writing to.
  datatype Value = Plain(json: Json) | Live(obj: nat)

  type Heap = map<nat, Json>

  function Read(h: Heap, v: Value): Json {
    match v
    case Plain(j) => j
    case Live(o) => if o in h then h[o] else Undefined
  }

  function Snapshot(h: Heap, args: seq<Value>): seq<Json> {
    seq(|args|, i requires 0 <= i < |args| => Read(h, args[i]))
  }

  // Media preparation, redaction and sanitising: arbitrary functions here.
  datatype Codec = Codec(
    needsEncoding: Json -> bool,
    collapse: seq<Json> -> seq<Json>,
    redact: seq<Json> -> seq<Json>,
    markFailed: Json -> Json,
    sanitizeInline: Json -> Json,
    sanitizeBlocks: Json -> Json,
    redactPaths: Json -> Json,
    mediaError: Json)

  // One port call; `write` is what the call's own local apply does to live objects.
  datatype Call =
    | Send(p: Port, m: string, args: seq<Value>, write: Heap)
    | Prepared(p: Port, m: string, args: seq<Value>, write: Heap)
    | ToolResult(args: seq<Value>, write: Heap)
    | ExecWrite(m: string, args: seq<Value>, write: Heap)

  // What a call leaves for the wire: a finished frame, or arguments still to be encoded.
  datatype Item =
    | Ready(frame: PortFrame)
    | Encode(p: Port, m: string, args: seq<Json>)
    | EncodeToolResult(args: seq<Json>)

  datatype EncodingResult = Failed | Encoded(items: seq<Json>) | NotAList

  // The frame a call stands for, read off the heap at the moment of the call.
  // `send` applies locally before it reads its arguments; the prepared forms clone first.
  function ItemOf(codec: Codec, h: Heap, c: Call): Item {
    match c
    case Send(p, m, args, write) => Ready(PortFrame(p, m, Snapshot(h + write, args)))
    case Prepared(p, m, args, _) => PreparedItem(codec, p, m, Snapshot(h, args))
    case ExecWrite(m, args, write) => PreparedItem(codec, Exec, m, Snapshot(h + write, args))
    case ToolResult(args, _) =>
      var w := Snapshot(h, args);
      if codec.needsEncoding(Arg(w, 4)) then EncodeToolResult(w)
      else Ready(ToolFrame(w, codec.sanitizeInline(Arg(w, 3)), codec.sanitizeBlocks(Arg(w, 4)), Arg(w, 5)))
  }

  function PreparedItem(codec: Codec, p: Port, m: string, w: seq<Json>): Item {
    if codec.needsEncoding(List(w)) then Encode(p, m, w) else Ready(PortFrame(p, m, codec.collapse(w)))
  }

  function ToolFrame(w: seq<Json>, result: Json, content: Json, isError: Json): PortFrame {
    PortFrame(Chat, "updateToolCall", [Arg(w, 0), Arg(w, 1), Arg(w, 2), result, content, isError, Arg(w, 6), Arg(w, 7)])
  }

  function FailClosedChat(codec: Codec, m: string, args: seq<Json>): seq<Json> {
    var safe := codec.redact(args);
    if m in {"appendMessageToolCall", "appendToolCallContext"} && |safe| >= 3 then
      [safe[0], safe[1], codec.markFailed(safe[2])]
    else if m == "setMessageToolCalls" && Arg(safe, 2).List? then
      var calls := safe[2].items;
      [safe[0], safe[1], List(seq(|calls|, i requires 0 <= i < |calls| => codec.markFailed(calls[i])))]
    else safe
  }

  // Preparing an argument list yields a list; preparing a tool result may not.
  predicate CanSettle(item: Item, r: EncodingResult) {
    item.EncodeToolResult? || (item.Encode? && !r.NotAList?)
  }

  function OutcomeFrame(codec: Codec, item: Item, r: EncodingResult): PortFrame
    requires CanSettle(item, r)
  {
    match item
    case Encode(p, m, args) =>
      PortFrame(p, m, if r.Encoded? then r.items
                      else if p == Chat then FailClosedChat(codec, m, args) else codec.redact(args))
    case EncodeToolResult(w) =>
      var content := if r.Encoded? then List(r.items) else Undefined;
      if r.Failed? || codec.needsEncoding(content)
      then ToolFrame(w, codec.mediaError, Undefined, Bool(true))
      else ToolFrame(w, codec.redactPaths(Arg(w, 3)), content, Arg(w, 5))
  }

  // The tool calls a chat frame carries.
  function ToolCallsOf(f: PortFrame): seq<Json> {
    if f.p != Chat then []
    else if f.m in {"appendMessageToolCall", "appendToolCallContext"} && |f.a| >= 3 then [f.a[2]]
    else if f.m == "setMessageToolCalls" && Arg(f.a, 2).List? then f.a[2].items
    else []
  }

  // Arguments whose encoding failed are redacted first. The frame then carries every tool
  // call of the redacted arguments, marked as failed, none lost and none left unmarked.
  lemma FailedCallsAreMarked(codec: Codec, p: Port, m: string, args: seq<Json>)
    ensures var f, redacted := OutcomeFrame(codec, Encode(p, m, args), Failed), PortFrame(p, m, codec.redact(args));
            && |ToolCallsOf(f)| == |ToolCallsOf(redacted)|
            && forall i :: 0 <= i < |ToolCallsOf(f)| ==> ToolCallsOf(f)[i] == codec.markFailed(ToolCallsOf(redacted)[i])
  {
  }

  // So if redaction leaves nothing raw, and marking a tool call adds nothing raw, such a
  // frame carries nothing raw.
  lemma FailedEncodingsAreClean(codec: Codec, p: Port, m: string, args: seq<Json>, clean: Json -> bool, k: nat)
    requires forall a, i :: 0 <= i < |codec.redact(a)| ==> clean(codec.redact(a)[i])
    requires forall j :: clean(j) ==> clean(codec.markFailed(j))
    requires forall items :: clean(List(items)) <==> forall i :: 0 <= i < |items| ==> clean(items[i])
    requires k < |OutcomeFrame(codec, Encode(p, m, args), Failed).a|
    ensures clean(OutcomeFrame(codec, Encode(p, m, args), Failed).a[k])
  {
    var safe := codec.redact(args);
    if p == Chat && m == "setMessageToolCalls" && Arg(safe, 2).List? {
      var calls := safe[2].items;
      assert clean(List(calls));
      var marked := seq(|calls|, i requires 0 <= i < |calls| => codec.markFailed(calls[i]));
      assert forall i :: 0 <= i < |marked| ==> marked[i] == codec.markFailed(calls[i]);
      assert clean(List(marked));
    }
  }

  // A tool result whose media could not be encoded, or is still raw afterwards.
  predicate MediaFailed(codec: Codec, r: EncodingResult) {
    r.Failed? || codec.needsEncoding(if r.Encoded? then List(r.items) else Undefined)
  }

  // However encoding a tool result ends, no content that still needs it leaves. When it
  // fails, the frame says so and nothing of the result, its content or its own error flag
  // is left in it; its ids, its display flag and its metadata leave as they came, so the
  // frame is clean if and only if those are.
  lemma FailedResultsAreHidden(codec: Codec, w: seq<Json>, v: seq<Json>, r: EncodingResult, q: EncodingResult,
                               clean: Json -> bool)
    requires !codec.needsEncoding(Undefined)
    requires clean(codec.mediaError) && clean(Undefined) && clean(Bool(true))
    ensures !codec.needsEncoding(Arg(OutcomeFrame(codec, EncodeToolResult(w), r).a, 4))
    ensures MediaFailed(codec, r) && MediaFailed(codec, q) && (forall i: nat :: i !in {3, 4, 5} ==> Arg(v, i) == Arg(w, i)) ==>
              OutcomeFrame(codec, EncodeToolResult(v), q) == OutcomeFrame(codec, EncodeToolResult(w), r)
    ensures MediaFailed(codec, r) ==>
              var f := OutcomeFrame(codec, EncodeToolResult(w), r);
              && Arg(f.a, 3) == codec.mediaError && Arg(f.a, 5) == Bool(true)
              && ((forall k :: 0 <= k < |f.a| ==> clean(f.a[k])) <==> forall i: nat :: i in {0, 1, 2, 6, 7} ==> clean(Arg(w, i)))
  {
    var f := OutcomeFrame(codec, EncodeToolResult(w), r);
    if MediaFailed(codec, r) {
      assert |f.a| == 8 && forall i: nat :: i in {0, 1, 2, 6, 7} ==> f.a[i] == Arg(w, i);
    }
  }

  // The frame delivered for an item: the frame itself, or what its encoding came to.
  ghost predicate IsOutcome(codec: Codec, item: Item, f: PortFrame) {
    match item
    case Ready(frame) => f == frame
    case _ => exists r :: CanSettle(item, r) && f == OutcomeFrame(codec, item, r)
  }

  datatype Phase = Idle | Encoding | Pushed

  /**
   `tail` counts the promises ever put on the chain, so it names `transportTail`;
   the first `settled` of them have resolved and the first `cleared` have run their
   `finally`. `queue` holds the tasks whose promise has not resolved, `phase` says
   how far the first of them is. `delivered` lists the frames handed to the coalescer.
   */
  datatype Transport = Transport(
    heap: Heap, busy: bool, tail: nat, settled: nat, cleared: nat,
    phase: Phase, queue: seq<Item>, delivered: seq<PortFrame>, buf: Buf)

  function Start(h: Heap): Transport {
    Transport(h, false, 0, 0, 0, Idle, [], [], EMPTY_BUF)
  }

  function Deliver(t: Transport, f: PortFrame): Transport {
    t.(delivered := t.delivered + [f], buf := PushBuf(t.buf, f))
  }

  function Enqueue(t: Transport, item: Item): Transport {
    t.(busy := true, tail := t.tail + 1, queue := t.queue + [item])
  }

  // Execution frames always take the chain; the others only when something is on it.
  function MakeCall(codec: Codec, t: Transport, c: Call): Transport {
    var item := ItemOf(codec, t.heap, c);
    var u := t.(heap := t.heap + c.write);
    if item.Ready? && !c.ExecWrite? && !t.busy then Deliver(u, item.frame) else Enqueue(u, item)
  }

  function RunTask(t: Transport): Transport {
    if t.queue == [] || t.phase != Idle then t
    else if t.queue[0].Ready? then Deliver(t, t.queue[0].frame).(phase := Pushed)
    else t.(phase := Encoding)
  }

  function SettleEncoding(codec: Codec, t: Transport, r: EncodingResult): Transport {
    if t.queue == [] || t.phase != Encoding || !CanSettle(t.queue[0], r) then t
    else Deliver(t, OutcomeFrame(codec, t.queue[0], r)).(phase := Pushed)
  }

  function SettleTail(t: Transport): Transport {
    if t.queue == [] || t.phase != Pushed then t
    else t.(queue := t.queue[1..], settled := t.settled + 1, phase := Idle)
  }

  // The `finally` of one promise: it clears the flag only if it is still the last one.
  function RunFinally(t: Transport): Transport {
    if t.cleared < t.settled
    then t.(cleared := t.cleared + 1, busy := t.busy && t.cleared + 1 != t.tail)
    else t
  }

  // Tasks whose frame has not been delivered yet.
  function Undelivered(t: Transport): seq<Item> {
    if t.phase == Pushed && t.queue != [] then t.queue[1..] else t.queue
  }

  // The flag is up exactly until the last promise's `finally` has run, which is
  // later than the moment that promise's frame was delivered.
  predicate Structured(t: Transport) {
    && t.settled + |t.queue| == t.tail
    && t.cleared <= t.settled
    && (t.busy <==> t.cleared < t.tail)
    && (t.phase != Idle ==> t.queue != [])
    && (t.phase == Encoding ==> !t.queue[0].Ready?)
  }

  datatype Event =
    | CallMade(c: Call)
    | MirrorWrites(write: Heap)
    | TaskRuns
    | EncodingSettles(r: EncodingResult)
    | TailSettles
    | FinallyRuns
    | TimerFires
    | CoalescerFlushed

  function Step(codec: Codec, t: Transport, e: Event): Transport {
    match e
    case CallMade(c) => MakeCall(codec, t, c)
    case MirrorWrites(write) => t.(heap := t.heap + write)
    case TaskRuns => RunTask(t)
    case EncodingSettles(r) => SettleEncoding(codec, t, r)
    case TailSettles => SettleTail(t)
    case FinallyRuns => RunFinally(t)
    case TimerFires => t.(buf := TimerBuf(t.buf))
    case CoalescerFlushed => t.(buf := FlushBuf(t.buf))
  }

  function Run(codec: Codec, h: Heap, events: seq<Event>): Transport {
    if events == [] then Start(h) else Step(codec, Run(codec, h, events[..|events| - 1]), events[|events| - 1])
  }

  function HeapAfter(h: Heap, events: seq<Event>): Heap {
    if events == [] then h
    else
      var before, e := HeapAfter(h, events[..|events| - 1]), events[|events| - 1];
      if e.CallMade? then before + e.c.write else if e.MirrorWrites? then before + e.write else before
  }

  // What the calls of a run stand for, whatever the scheduler does.
  function Issued(codec: Codec, h: Heap, events: seq<Event>): seq<Item> {
    if events == [] then []
    else
      var init, e := events[..|events| - 1], events[|events| - 1];
      Issued(codec, h, init) + if e.CallMade? then [ItemOf(codec, HeapAfter(h, init), e.c)] else []
  }

  // The delivered frames are the outcomes of the first calls, in call order, and
  // the other calls are exactly the tasks still waiting.
  ghost predicate Ordered(codec: Codec, issued: seq<Item>, t: Transport) {
    && |issued| == |t.delivered| + |Undelivered(t)|
    && Undelivered(t) == issued[|t.delivered|..]
    && forall k :: 0 <= k < |t.delivered| ==> IsOutcome(codec, issued[k], t.delivered[k])
  }

  lemma HistorySnoc(codec: Codec, h: Heap, events: seq<Event>, e: Event)
    ensures HeapAfter(h, events + [e])
         == HeapAfter(h, events) + if e.CallMade? then e.c.write else if e.MirrorWrites? then e.write else map[]
    ensures Issued(codec, h, events + [e])
         == Issued(codec, h, events) + if e.CallMade? then [ItemOf(codec, HeapAfter(h, events), e.c)] else []
  {
    assert (events + [e])[..|events|] == events;
  }

  lemma StepHeap(codec: Codec, t: Transport, e: Event)
    ensures Step(codec, t, e).heap == t.heap + if e.CallMade? then e.c.write else if e.MirrorWrites? then e.write else map[]
  {
  }

  lemma StepStructured(codec: Codec, t: Transport, e: Event)
    requires Structured(t)
    ensures Structured(Step(codec, t, e))
  {
  }

  lemma DeliverHeadOrdered(codec: Codec, issued: seq<Item>, t: Transport, f: PortFrame)
    requires Structured(t) && Ordered(codec, issued, t) && t.queue != [] && t.phase != Pushed
    requires IsOutcome(codec, t.queue[0], f)
    ensures Ordered(codec, issued, Deliver(t, f).(phase := Pushed))
  {
    assert issued[|t.delivered|] == Undelivered(t)[0];
  }

  lemma CallOrdered(codec: Codec, issued: seq<Item>, t: Transport, c: Call)
    requires Structured(t) && Ordered(codec, issued, t)
    ensures Ordered(codec, issued + [ItemOf(codec, t.heap, c)], MakeCall(codec, t, c))
  {
    var item := ItemOf(codec, t.heap, c);
    var more := issued + [item];
    if item.Ready? && !c.ExecWrite? && !t.busy {
      assert t.queue == [];
      assert more[|t.delivered|] == item;
    } else {
      assert more[|t.delivered|..] == issued[|t.delivered|..] + [item];
    }
  }

  lemma StepOrdered(codec: Codec, issued: seq<Item>, t: Transport, e: Event)
    requires Structured(t) && Ordered(codec, issued, t)
    ensures Ordered(codec, issued + if e.CallMade? then [ItemOf(codec, t.heap, e.c)] else [], Step(codec, t, e))
  {
    assert issued + [] == issued;
    match e {
      case CallMade(c) => CallOrdered(codec, issued, t, c);
      case TaskRuns =>
        if t.queue != [] && t.phase == Idle && t.queue[0].Ready? {
          DeliverHeadOrdered(codec, issued, t, t.queue[0].frame);
        }
      case EncodingSettles(r) =>
        if t.queue != [] && t.phase == Encoding && CanSettle(t.queue[0], r) {
          DeliverHeadOrdered(codec, issued, t, OutcomeFrame(codec, t.queue[0], r));
        }
      case _ =>
    }
  }

  lemma {:induction false} AlwaysStructured(codec: Codec, h: Heap, events: seq<Event>)
    ensures Structured(Run(codec, h, events))
  {
    if events != [] {
      var init := events[..|events| - 1];
      AlwaysStructured(codec, h, init);
      StepStructured(codec, Run(codec, h, init), events[|events| - 1]);
    }
  }

  lemma {:induction false} HeapHistory(codec: Codec, h: Heap, events: seq<Event>)
    ensures Run(codec, h, events).heap == HeapAfter(h, events)
  {
    if events != [] {
      var init, e := events[..|events| - 1], events[|events| - 1];
      HeapHistory(codec, h, init);
      StepHeap(codec, Run(codec, h, init), e);
    }
  }

  // Under every interleaving the coalescer is handed one frame per call, in call
  // order, each carrying the arguments the call was made with.
  lemma {:induction false} OrderingBarrier(codec: Codec, h: Heap, events: seq<Event>)
    ensures Ordered(codec, Issued(codec, h, events), Run(codec, h, events))
  {
    if events != [] {
      var init := events[..|events| - 1];
      OrderingBarrier(codec, h, init);
      AlwaysStructured(codec, h, init);
      HeapHistory(codec, h, init);
      StepOrdered(codec, Issued(codec, h, init), Run(codec, h, init), events[|events| - 1]);
    }
  }

  // While the flag is down nothing waits, so pushing past the chain overtakes nothing.
  lemma IdleMeansDelivered(codec: Codec, h: Heap, events: seq<Event>)
    ensures var t := Run(codec, h, events);
            !t.busy ==> Undelivered(t) == [] && |t.delivered| == |Issued(codec, h, events)|
  {
    AlwaysStructured(codec, h, events);
    OrderingBarrier(codec, h, events);
  }

  // The flag outlives the last delivery. In every reachable state a finished frame goes
  // out at once if and only if the last promise's `finally` has run; until then the call
  // waits behind the flag, alone if everything before it was delivered already.
  lemma FlagOutlivesDelivery(codec: Codec, h: Heap, events: seq<Event>, c: Call)
    requires ItemOf(codec, Run(codec, h, events).heap, c).Ready? && !c.ExecWrite?
    ensures var t := Run(codec, h, events);
            var u, item := MakeCall(codec, t, c), ItemOf(codec, t.heap, c);
            && (u.delivered == t.delivered + [item.frame] <==> t.cleared == t.tail)
            && (t.cleared < t.tail && Undelivered(t) == [] ==>
                  t.busy && u.delivered == t.delivered && Undelivered(u) == [item])
  {
    AlwaysStructured(codec, h, events);
  }

  lemma RunSnoc(codec: Codec, h: Heap, events: seq<Event>, e: Event)
    ensures Run(codec, h, events + [e]) == Step(codec, Run(codec, h, events), e)
  {
    assert (events + [e])[..|events|] == events;
  }

  lemma RunFour(codec: Codec, h: Heap, a: Event, b: Event, c: Event, d: Event)
    ensures Run(codec, h, [a, b, c, d]) == Step(codec, Step(codec, Step(codec, Step(codec, Start(h), a), b), c), d)
  {
    assert [] + [a] == [a] && [a] + [b] == [a, b] && [a, b] + [c] == [a, b, c] && [a, b, c] + [d] == [a, b, c, d];
    RunSnoc(codec, h, [], a);
    RunSnoc(codec, h, [a], b);
    RunSnoc(codec, h, [a, b], c);
    RunSnoc(codec, h, [a, b, c], d);
  }

  lemma FlagGap(codec: Codec, s: Transport, m: string)
    requires s.queue == [] && s.phase == Idle && s.delivered == [] && s.tail == 0 && s.cleared == 0
    ensures var t := RunTask(MakeCall(codec, s, ExecWrite(m, [], map[])));
            var u := SettleTail(SettleEncoding(codec, t, Failed));
            Undelivered(u) == [] && |u.delivered| == 1 && u.cleared < u.tail && u.busy
  {
  }

  // That gap is reached whatever the codec does: one execution frame, delivered and
  // settled, leaves the flag up with nothing behind it.
  lemma FlagGapIsReached(codec: Codec, h: Heap, m: string)
    ensures var t := Run(codec, h, [CallMade(ExecWrite(m, [], map[])), TaskRuns, EncodingSettles(Failed), TailSettles]);
            Undelivered(t) == [] && |t.delivered| == 1 && t.cleared < t.tail && t.busy
  {
    RunFour(codec, h, CallMade(ExecWrite(m, [], map[])), TaskRuns, EncodingSettles(Failed), TailSettles);
    FlagGap(codec, Start(h), m);
  }

  // A write that touches none of a call's live arguments leaves its frame alone,
  // so cloning before or after the local apply makes no difference then.
  lemma LocalApplyInvisible(h: Heap, write: Heap, args: seq<Value>)
    requires forall v :: v in args && v.Live? ==> v.obj !in write
    ensures Snapshot(h + write, args) == Snapshot(h, args)
  {
    forall i | 0 <= i < |args|
      ensures Read(h + write, args[i]) == Read(h, args[i])
    {
      assert args[i] in args;
    }
  }

  // The closure `createFrameChatDelta` returns, with the chain its tasks hang on.
  class FrameChatDelta {
    const codec: Codec
    const coalescer: Coalescer
    var heap: Heap
    var transportBusy: bool
    var transportTail: nat
    var settled: nat
    var cleared: nat
    var phase: Phase
    var queue: seq<Item>
    var delivered: seq<PortFrame>

    function View(): Transport
      reads this, coalescer, coalescer.wire
    {
      Transport(heap, transportBusy, transportTail, settled, cleared, phase, queue, delivered, coalescer.View())
    }

    constructor (codec: Codec, coalescer: Coalescer, heap: Heap)
      ensures this.codec == codec && this.coalescer == coalescer
      ensures View() == Start(heap).(buf := coalescer.View())
    {
      this.codec, this.coalescer, this.heap := codec, coalescer, heap;
      transportBusy, transportTail, settled, cleared := false, 0, 0, 0;
      phase, queue, delivered := Idle, [], [];
    }

    method PushNow(frame: PortFrame)
      modifies this`delivered, coalescer, coalescer.wire
      ensures View() == Deliver(old(View()), frame)
    {
      delivered := delivered + [frame];
      var _ := coalescer.Push(frame);
    }

    method EnqueueTransport(item: Item)
      modifies this
      ensures View() == Enqueue(old(View()), item)
    {
      transportBusy := true;
      transportTail := transportTail + 1;
      queue := queue + [item];
    }

    method PushWireFrame(frame: PortFrame)
      modifies this, coalescer, coalescer.wire
      ensures View() == if old(transportBusy) then Enqueue(old(View()), Ready(frame)) else Deliver(old(View()), frame)
    {
      if !transportBusy {
        PushNow(frame);
        return;
      }
      EnqueueTransport(Ready(frame));
    }

    method SendFrame(p: Port, m: string, args: seq<Value>, write: Heap)
      modifies this, coalescer, coalescer.wire
      ensures View() == MakeCall(codec, old(View()), Send(p, m, args, write))
    {
      heap := heap + write;
      PushWireFrame(PortFrame(p, m, Snapshot(heap, args)));
    }

    method SendPrepared(p: Port, m: string, args: seq<Value>, write: Heap)
      modifies this, coalescer, coalescer.wire
      ensures View() == MakeCall(codec, old(View()), Prepared(p, m, args, write))
    {
      var wireArgs := Snapshot(heap, args);
      heap := heap + write;
      if !codec.needsEncoding(List(wireArgs)) {
        PushWireFrame(PortFrame(p, m, codec.collapse(wireArgs)));
        return;
      }
      EnqueueTransport(Encode(p, m, wireArgs));
    }

    method SendUpdateToolCall(args: seq<Value>, write: Heap)
      modifies this, coalescer, coalescer.wire
      ensures View() == MakeCall(codec, old(View()), ToolResult(args, write))
    {
      var w := Snapshot(heap, args);
      heap := heap + write;
      if !codec.needsEncoding(Arg(w, 4)) {
        PushWireFrame(ToolFrame(w, codec.sanitizeInline(Arg(w, 3)), codec.sanitizeBlocks(Arg(w, 4)), Arg(w, 5)));
        return;
      }
      EnqueueTransport(EncodeToolResult(w));
    }

    method PushExecFrame(m: string, args: seq<Value>, write: Heap)
      modifies this
      ensures View() == MakeCall(codec, old(View()), ExecWrite(m, args, write))
    {
      heap := heap + write;
      var wireArgs := Snapshot(heap, args);
      if !codec.needsEncoding(List(wireArgs)) {
        EnqueueTransport(Ready(PortFrame(Exec, m, codec.collapse(wireArgs))));
        return;
      }
      EnqueueTransport(Encode(Exec, m, wireArgs));
    }

    // The first task whose turn has come starts: a finished frame goes out, media starts encoding.
    method StartTask()
      modifies this, coalescer, coalescer.wire
      ensures View() == RunTask(old(View()))
    {
      if queue == [] || phase != Idle { return; }
      if queue[0].Ready? {
        PushNow(queue[0].frame);
        phase := Pushed;
      } else {
        phase := Encoding;
      }
    }

    method FinishEncoding(r: EncodingResult)
      modifies this, coalescer, coalescer.wire
      ensures View() == SettleEncoding(codec, old(View()), r)
    {
      if queue == [] || phase != Encoding || !CanSettle(queue[0], r) { return; }
      PushNow(OutcomeFrame(codec, queue[0], r));
      phase := Pushed;
    }

    method ResolveTail()
      modifies this
      ensures View() == SettleTail(old(View()))
    {
      if queue == [] || phase != Pushed { return; }
      queue, settled, phase := queue[1..], settled + 1, Idle;
    }

    method Finally()
      modifies this
      ensures View() == RunFinally(old(View()))
    {
      if cleared < settled {
        cleared := cleared + 1;
        if cleared == transportTail { transportBusy := false; }
      }
    }
  }
}
