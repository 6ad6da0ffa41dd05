/**
 What the host of one run writes around its frames: the terminal notification,
 the acknowledgement of an abort, and outgoing requests. The first two first
 drain the ordering barrier and flush the coalescer; a request only flushes.
 */
module WireFences {
  import opened Wrappers
  import opened Coalescing
  import opened PortFrames
  import opened RunMirror
  import opened PortFrameCoalescer
  import opened TransportBarrier

  // How far one answer has come: its `drain()` is waiting or has returned, the flush
  // after it is done, and the line stands on the wire. Other code can run in between.
  datatype AnswerPhase = Waiting | Returned | Flushed | Written(at: nat)

  // `waiting` is the promise the drain awaits; `mark` counts the calls made before it
  // began and exists only for the proof.
  datatype Drain = Drain(kind: FenceKind, mark: nat, waiting: nat, phase: AnswerPhase)

  datatype Host = Host(t: Transport, drains: seq<Drain>)

  datatype HostEvent =
    | Inner(e: TransportBarrier.Event)
    | LoopSettles
    | AbortArrives
    | RequestSent
    | DrainResumes(i: nat)
    | DrainFlushes(i: nat)
    | LineWritten(i: nat)

  // Port calls made so far: delivered frames and tasks still to deliver theirs.
  function Emitted(t: Transport): nat {
    |t.delivered| + |Undelivered(t)|
  }

  function Flush(t: Transport): Transport {
    t.(buf := FlushBuf(t.buf))
  }

  function WriteLine(t: Transport, kind: FenceKind): Transport {
    t.(buf := t.buf.(wire := t.buf.wire + [Fence(kind)]))
  }

  function Advance(s: Host, i: nat, t: Transport, d: Drain): Host
    requires i < |s.drains|
  {
    Host(t, s.drains[i := d])
  }

  // `drain` loops: it re-reads the tail after each await and returns once the tail did not move.
  function ResumeDrain(s: Host, i: nat): Host {
    if i >= |s.drains| || s.drains[i].phase != Waiting || s.t.settled < s.drains[i].waiting then s
    else
      var d := s.drains[i];
      Advance(s, i, s.t, if d.waiting == s.t.tail then d.(phase := Returned) else d.(waiting := s.t.tail))
  }

  function FlushDrain(s: Host, i: nat): Host {
    if i >= |s.drains| || s.drains[i].phase != Returned then s
    else Advance(s, i, Flush(s.t), s.drains[i].(phase := Flushed))
  }

  // A terminal follows its flush at once; an acknowledgement is the answer of a request.
  function WriteAnswer(s: Host, i: nat): Host {
    if i >= |s.drains| || s.drains[i].phase != Flushed then s
    else
      var d := s.drains[i];
      Advance(s, i, WriteLine(s.t, d.kind), d.(phase := Written(|s.t.buf.wire|)))
  }

  function BeginDrain(t: Transport, kind: FenceKind): Drain {
    Drain(kind, Emitted(t), t.tail, Waiting)
  }

  function HostStep(codec: Codec, s: Host, e: HostEvent): Host {
    match e
    case Inner(inner) => s.(t := TransportBarrier.Step(codec, s.t, inner))
    case LoopSettles => s.(drains := s.drains + [BeginDrain(s.t, Terminal)])
    case AbortArrives => Host(Flush(s.t), s.drains + [BeginDrain(s.t, AbortAck)])
    case RequestSent => s.(t := WriteLine(Flush(s.t), Request))
    case DrainResumes(i) => ResumeDrain(s, i)
    case DrainFlushes(i) => FlushDrain(s, i)
    case LineWritten(i) => WriteAnswer(s, i)
  }

  function HostRun(codec: Codec, h: Heap, events: seq<HostEvent>): Host {
    if events == [] then Host(Start(h), [])
    else HostStep(codec, HostRun(codec, h, events[..|events| - 1]), events[|events| - 1])
  }

  // The port calls, mirror writes and scheduler steps among the host's events.
  function InnerEvents(events: seq<HostEvent>): seq<TransportBarrier.Event> {
    if events == [] then []
    else
      var e := events[|events| - 1];
      InnerEvents(events[..|events| - 1]) + if e.Inner? then [e.e] else []
  }

  function HostIssued(codec: Codec, h: Heap, events: seq<HostEvent>): seq<Item> {
    Issued(codec, h, InnerEvents(events))
  }

  // The port interface's types: streamed tokens are strings, and no prepared method is a streamed one.
  predicate WellTyped(c: Call) {
    match c
    case Send(p, m, args, _) =>
      p == Chat && (IsAppendMethod(m) || IsReplaceMethod(m)) ==> |args| > 1 && args[1].Plain? && args[1].json.Str?
    case Prepared(p, m, _, _) => !(p == Chat && (IsAppendMethod(m) || IsReplaceMethod(m)))
    case _ => true
  }

  ghost predicate AllWellTyped(events: seq<HostEvent>) {
    forall e :: e in events && e.Inner? && e.e.CallMade? ==> WellTyped(e.e.c)
  }

  predicate ItemWell(item: Item) {
    match item
    case Ready(f) => WellFormed(f)
    case Encode(p, m, _) => !(p == Chat && (IsAppendMethod(m) || IsReplaceMethod(m)))
    case EncodeToolResult(_) => true
  }

  ghost predicate QueueWell(t: Transport) {
    forall item :: item in t.queue ==> ItemWell(item)
  }

  ghost predicate Streamed(t: Transport) {
    BufValid(t.buf) && Canon(Fuse, Output(t.buf)) == Canon(Fuse, t.delivered)
  }

  ghost predicate TransportValid(t: Transport) {
    Structured(t) && QueueWell(t) && Streamed(t)
  }

  // These lines carry, up to fusing, the first n delivered frames and nothing else.
  ghost predicate CarriesFirst(wire: seq<WireLine>, delivered: seq<PortFrame>, n: nat) {
    n <= |delivered| && Canon(Fuse, Frames(wire)) == Canon(Fuse, delivered[..n])
  }

  ghost predicate Carries(wire: seq<WireLine>, delivered: seq<PortFrame>, mark: nat) {
    exists n: nat :: mark <= n && CarriesFirst(wire, delivered, n)
  }

  // What each phase of an answer has made sure of.
  ghost predicate DrainValid(t: Transport, d: Drain) {
    && d.waiting <= t.tail && d.mark <= Emitted(t)
    && match d.phase
       case Waiting => true
       case Returned => d.mark <= |t.delivered|
       case Flushed => Carries(t.buf.wire, t.delivered, d.mark)
       case Written(at) =>
         at < |t.buf.wire| && t.buf.wire[at] == Fence(d.kind) && Carries(t.buf.wire[..at], t.delivered, d.mark)
  }

  ghost predicate HostValid(s: Host) {
    TransportValid(s.t) && forall i :: 0 <= i < |s.drains| ==> DrainValid(s.t, s.drains[i])
  }

  // Nothing is taken back, and new frames reach the wire only when all of them do.
  ghost predicate Grows(t: Transport, u: Transport) {
    && t.tail <= u.tail && Emitted(t) <= Emitted(u)
    && t.buf.wire <= u.buf.wire && t.delivered <= u.delivered
    && (Frames(u.buf.wire) == Frames(t.buf.wire) || Buffered(u.buf) == [])
  }

  lemma ItemsAreWell(codec: Codec, h: Heap, c: Call)
    requires WellTyped(c)
    ensures ItemWell(ItemOf(codec, h, c))
  {
    match c {
      case Send(p, m, args, write) =>
        var f := PortFrame(p, m, Snapshot(h + write, args));
        if IsMergeable(f) {
          assert Arg(f.a, 1) == args[1].json;
        }
      case _ =>
    }
  }

  lemma PushGrows(b: Buf, f: PortFrame)
    ensures b.wire <= PushBuf(b, f).wire
    ensures Frames(PushBuf(b, f).wire) == Frames(b.wire) || Buffered(PushBuf(b, f)) == []
  {
  }

  lemma DeliverStreamed(t: Transport, f: PortFrame)
    requires Streamed(t) && WellFormed(f)
    ensures Streamed(Deliver(t, f))
  {
    PushAddsFrame(t.buf, f);
    CanonCongruent(Fuse, Output(t.buf), t.delivered, f);
  }

  lemma FlushStreamed(t: Transport)
    requires Streamed(t)
    ensures Streamed(Flush(t)) && Grows(t, Flush(t))
  {
    FlushKeepsOutput(t.buf);
  }

  lemma CallStreamed(codec: Codec, t: Transport, c: Call)
    requires QueueWell(t) && Streamed(t) && WellTyped(c)
    ensures QueueWell(MakeCall(codec, t, c)) && Streamed(MakeCall(codec, t, c))
  {
    var item := ItemOf(codec, t.heap, c);
    ItemsAreWell(codec, t.heap, c);
    if item.Ready? && !c.ExecWrite? && !t.busy {
      DeliverStreamed(t.(heap := t.heap + c.write), item.frame);
    }
  }

  lemma TaskStreamed(codec: Codec, t: Transport, e: TransportBarrier.Event)
    requires QueueWell(t) && Streamed(t) && (e.TaskRuns? || e.EncodingSettles?)
    ensures var u := TransportBarrier.Step(codec, t, e); QueueWell(u) && Streamed(u)
  {
    if t.queue != [] {
      assert ItemWell(t.queue[0]);
      if e.TaskRuns? && t.phase == Idle && t.queue[0].Ready? {
        DeliverStreamed(t, t.queue[0].frame);
      } else if e.EncodingSettles? && t.phase == Encoding && CanSettle(t.queue[0], e.r) {
        DeliverStreamed(t, OutcomeFrame(codec, t.queue[0], e.r));
      }
    }
  }

  lemma StepStreamed(codec: Codec, t: Transport, e: TransportBarrier.Event)
    requires QueueWell(t) && Streamed(t) && (e.CallMade? ==> WellTyped(e.c))
    ensures var u := TransportBarrier.Step(codec, t, e); QueueWell(u) && Streamed(u)
  {
    match e {
      case CallMade(c) => CallStreamed(codec, t, c);
      case TaskRuns => TaskStreamed(codec, t, e);
      case EncodingSettles(_) => TaskStreamed(codec, t, e);
      case TimerFires => FlushStreamed(t);
      case CoalescerFlushed => FlushStreamed(t);
      case _ =>
    }
  }

  lemma CallGrows(codec: Codec, t: Transport, c: Call)
    requires Structured(t)
    ensures Grows(t, MakeCall(codec, t, c))
  {
    var item := ItemOf(codec, t.heap, c);
    if item.Ready? { PushGrows(t.buf, item.frame); }
  }

  lemma TaskGrows(codec: Codec, t: Transport, e: TransportBarrier.Event)
    requires Structured(t) && (e.TaskRuns? || e.EncodingSettles?)
    ensures Grows(t, TransportBarrier.Step(codec, t, e))
  {
    if t.queue == [] {
    } else if e.TaskRuns? && t.queue[0].Ready? {
      PushGrows(t.buf, t.queue[0].frame);
    } else if e.EncodingSettles? && CanSettle(t.queue[0], e.r) {
      PushGrows(t.buf, OutcomeFrame(codec, t.queue[0], e.r));
    }
  }

  // A step leaves the coalescer alone, pushes one frame or flushes.
  lemma StepGrows(codec: Codec, t: Transport, e: TransportBarrier.Event)
    requires Structured(t)
    ensures Grows(t, TransportBarrier.Step(codec, t, e))
  {
    match e {
      case CallMade(c) => CallGrows(codec, t, c);
      case TaskRuns => TaskGrows(codec, t, e);
      case EncodingSettles(_) => TaskGrows(codec, t, e);
      case _ =>
    }
  }

  // Once everything is on the wire, the lines carry every frame delivered so far.
  lemma AllCarried(t: Transport, mark: nat)
    requires Streamed(t) && Buffered(t.buf) == [] && mark <= |t.delivered|
    ensures Carries(t.buf.wire, t.delivered, mark)
  {
    assert Output(t.buf) == Frames(t.buf.wire);
    assert t.delivered[..|t.delivered|] == t.delivered;
    assert CarriesFirst(t.buf.wire, t.delivered, |t.delivered|);
  }

  lemma CarriesLonger(wire: seq<WireLine>, delivered: seq<PortFrame>, more: seq<PortFrame>, mark: nat)
    requires Carries(wire, delivered, mark) && delivered <= more
    ensures Carries(wire, more, mark)
  {
    var n: nat :| mark <= n && CarriesFirst(wire, delivered, n);
    assert more[..n] == delivered[..n];
    assert CarriesFirst(wire, more, n);
  }

  lemma CarriesSame(wire: seq<WireLine>, other: seq<WireLine>, delivered: seq<PortFrame>, mark: nat)
    requires Carries(wire, delivered, mark) && Frames(other) == Frames(wire)
    ensures Carries(other, delivered, mark)
  {
    var n: nat :| mark <= n && CarriesFirst(wire, delivered, n);
    assert CarriesFirst(other, delivered, n);
  }

  // Whatever a drain has made sure of stays so.
  lemma DrainKept(t: Transport, u: Transport, d: Drain)
    requires DrainValid(t, d) && Streamed(u) && Grows(t, u)
    ensures DrainValid(u, d)
  {
    match d.phase {
      case Flushed =>
        if Frames(u.buf.wire) == Frames(t.buf.wire) {
          CarriesLonger(t.buf.wire, t.delivered, u.delivered, d.mark);
          CarriesSame(t.buf.wire, u.buf.wire, u.delivered, d.mark);
        } else {
          CarriedMark(t, d.mark);
          AllCarried(u, d.mark);
        }
      case Written(at) =>
        assert u.buf.wire[..at] == t.buf.wire[..at];
        CarriesLonger(t.buf.wire[..at], t.delivered, u.delivered, d.mark);
      case _ =>
    }
  }

  lemma CarriedMark(t: Transport, mark: nat)
    requires Carries(t.buf.wire, t.delivered, mark)
    ensures mark <= |t.delivered|
  {
    var n: nat :| mark <= n && CarriesFirst(t.buf.wire, t.delivered, n);
  }

  lemma DrainsKept(s: Host, u: Transport)
    requires HostValid(s) && TransportValid(u) && Grows(s.t, u)
    ensures HostValid(s.(t := u))
  {
    forall i | 0 <= i < |s.drains|
      ensures DrainValid(u, s.drains[i])
    {
      DrainKept(s.t, u, s.drains[i]);
    }
  }

  lemma AdvanceValid(s: Host, i: nat, u: Transport, d: Drain)
    requires HostValid(s) && TransportValid(u) && Grows(s.t, u) && i < |s.drains| && DrainValid(u, d)
    ensures HostValid(Advance(s, i, u, d))
  {
    DrainsKept(s, u);
  }

  lemma FlushValid(t: Transport)
    requires TransportValid(t)
    ensures TransportValid(Flush(t)) && Grows(t, Flush(t)) && Buffered(FlushBuf(t.buf)) == []
  {
    FlushStreamed(t);
  }

  lemma LineKeepsBuf(t: Transport, kind: FenceKind)
    ensures var b, c := t.buf, WriteLine(t, kind).buf;
            Frames(c.wire) == Frames(b.wire) && Output(c) == Output(b) && (BufValid(b) ==> BufValid(c))
  {
    FramesSnoc(t.buf.wire, Fence(kind));
  }

  lemma LineStreamed(t: Transport, kind: FenceKind)
    requires Streamed(t)
    ensures Streamed(WriteLine(t, kind))
  {
    LineKeepsBuf(t, kind);
  }

  lemma LineValid(t: Transport, kind: FenceKind)
    requires TransportValid(t)
    ensures TransportValid(WriteLine(t, kind)) && Grows(t, WriteLine(t, kind))
  {
    LineStreamed(t, kind);
    LineKeepsBuf(t, kind);
  }

  lemma GrowsReflexive(t: Transport)
    ensures Grows(t, t)
  {
  }

  // A drain returns only when every call it was to wait for has been delivered.
  lemma ResumeValid(s: Host, i: nat)
    requires HostValid(s)
    ensures HostValid(ResumeDrain(s, i))
  {
    if i < |s.drains| && s.drains[i].phase == Waiting && s.t.settled >= s.drains[i].waiting {
      var d := s.drains[i];
      assert DrainValid(s.t, d);
      GrowsReflexive(s.t);
      if d.waiting == s.t.tail {
        assert Undelivered(s.t) == [];
        AdvanceValid(s, i, s.t, d.(phase := Returned));
      } else {
        AdvanceValid(s, i, s.t, d.(waiting := s.t.tail));
      }
    }
  }

  lemma FlushDrainValid(s: Host, i: nat)
    requires HostValid(s)
    ensures HostValid(FlushDrain(s, i))
  {
    if i < |s.drains| && s.drains[i].phase == Returned {
      var d := s.drains[i];
      assert DrainValid(s.t, d);
      FlushValid(s.t);
      AllCarried(Flush(s.t), d.mark);
      AdvanceValid(s, i, Flush(s.t), d.(phase := Flushed));
    }
  }

  lemma WriteAnswerValid(s: Host, i: nat)
    requires HostValid(s)
    ensures HostValid(WriteAnswer(s, i))
  {
    if i < |s.drains| && s.drains[i].phase == Flushed {
      var d, u := s.drains[i], WriteLine(s.t, s.drains[i].kind);
      assert DrainValid(s.t, d);
      LineValid(s.t, d.kind);
      assert u.buf.wire[..|s.t.buf.wire|] == s.t.buf.wire;
      AdvanceValid(s, i, u, d.(phase := Written(|s.t.buf.wire|)));
    }
  }

  lemma BeginValid(s: Host, u: Transport, kind: FenceKind)
    requires HostValid(s) && TransportValid(u) && Grows(s.t, u)
    ensures HostValid(Host(u, s.drains + [BeginDrain(s.t, kind)]))
  {
    DrainsKept(s, u);
    assert DrainValid(u, BeginDrain(s.t, kind));
  }

  lemma RequestValid(s: Host)
    requires HostValid(s)
    ensures HostValid(s.(t := WriteLine(Flush(s.t), Request)))
  {
    FlushValid(s.t);
    DrainsKept(s, Flush(s.t));
    LineValid(Flush(s.t), Request);
    DrainsKept(s.(t := Flush(s.t)), WriteLine(Flush(s.t), Request));
  }

  lemma InnerValid(codec: Codec, s: Host, e: TransportBarrier.Event)
    requires HostValid(s) && (e.CallMade? ==> WellTyped(e.c))
    ensures HostValid(s.(t := TransportBarrier.Step(codec, s.t, e)))
  {
    StepStructured(codec, s.t, e);
    StepStreamed(codec, s.t, e);
    StepGrows(codec, s.t, e);
    DrainsKept(s, TransportBarrier.Step(codec, s.t, e));
  }

  lemma HostStepValid(codec: Codec, s: Host, e: HostEvent)
    requires HostValid(s) && (e.Inner? && e.e.CallMade? ==> WellTyped(e.e.c))
    ensures HostValid(HostStep(codec, s, e))
  {
    match e {
      case Inner(inner) => InnerValid(codec, s, inner);
      case LoopSettles =>
        GrowsReflexive(s.t);
        BeginValid(s, s.t, Terminal);
      case AbortArrives =>
        FlushValid(s.t);
        BeginValid(s, Flush(s.t), AbortAck);
      case RequestSent => RequestValid(s);
      case DrainResumes(i) => ResumeValid(s, i);
      case DrainFlushes(i) => FlushDrainValid(s, i);
      case LineWritten(i) => WriteAnswerValid(s, i);
    }
  }

  lemma {:induction false} AlwaysHostValid(codec: Codec, h: Heap, events: seq<HostEvent>)
    requires AllWellTyped(events)
    ensures HostValid(HostRun(codec, h, events))
  {
    if events != [] {
      var init, e := events[..|events| - 1], events[|events| - 1];
      assert forall x :: x in init ==> x in events;
      AlwaysHostValid(codec, h, init);
      assert e in events;
      HostStepValid(codec, HostRun(codec, h, init), e);
    }
  }

  // What the history of a run says about the heap and the frames it holds.
  ghost predicate Faithful(codec: Codec, h: Heap, history: seq<TransportBarrier.Event>, t: Transport) {
    t.heap == HeapAfter(h, history) && Ordered(codec, Issued(codec, h, history), t)
  }

  lemma InnerFaithful(codec: Codec, h: Heap, history: seq<TransportBarrier.Event>, t: Transport, e: TransportBarrier.Event)
    requires Structured(t) && Faithful(codec, h, history, t)
    ensures Faithful(codec, h, history + [e], TransportBarrier.Step(codec, t, e))
  {
    HistorySnoc(codec, h, history, e);
    StepHeap(codec, t, e);
    StepOrdered(codec, Issued(codec, h, history), t, e);
  }

  // The host's own steps touch neither.
  lemma OuterFaithful(codec: Codec, h: Heap, history: seq<TransportBarrier.Event>, s: Host, e: HostEvent)
    requires Faithful(codec, h, history, s.t) && !e.Inner?
    ensures Faithful(codec, h, history, HostStep(codec, s, e).t)
  {
    OuterKeeps(codec, s, e);
  }

  lemma OuterKeeps(codec: Codec, s: Host, e: HostEvent)
    requires !e.Inner?
    ensures var u := HostStep(codec, s, e).t;
            u.heap == s.t.heap && u.delivered == s.t.delivered && Undelivered(u) == Undelivered(s.t)
  {
  }

  lemma InnerEventsSnoc(events: seq<HostEvent>, e: HostEvent)
    ensures InnerEvents(events + [e]) == InnerEvents(events) + if e.Inner? then [e.e] else []
  {
    assert (events + [e])[..|events|] == events;
  }

  lemma HostFaithfulStep(codec: Codec, h: Heap, init: seq<HostEvent>, s: Host, e: HostEvent)
    requires Structured(s.t) && Faithful(codec, h, InnerEvents(init), s.t)
    ensures Faithful(codec, h, InnerEvents(init + [e]), HostStep(codec, s, e).t)
  {
    InnerEventsSnoc(init, e);
    if e.Inner? {
      InnerFaithful(codec, h, InnerEvents(init), s.t, e.e);
    } else {
      assert InnerEvents(init) + [] == InnerEvents(init);
      OuterFaithful(codec, h, InnerEvents(init), s, e);
    }
  }

  lemma {:induction false} HostFaithful(codec: Codec, h: Heap, events: seq<HostEvent>)
    requires AllWellTyped(events)
    ensures Faithful(codec, h, InnerEvents(events), HostRun(codec, h, events).t)
  {
    if events != [] {
      var init, e := events[..|events| - 1], events[|events| - 1];
      assert events == init + [e];
      assert forall x :: x in init ==> x in events;
      HostFaithful(codec, h, init);
      AlwaysHostValid(codec, h, init);
      HostFaithfulStep(codec, h, init, HostRun(codec, h, init), e);
    }
  }

  lemma HostRunSnoc(codec: Codec, h: Heap, events: seq<HostEvent>, e: HostEvent)
    ensures HostRun(codec, h, events + [e]) == HostStep(codec, HostRun(codec, h, events), e)
  {
    assert (events + [e])[..|events|] == events;
  }

  // Drain j has begun, for this kind of line and with these calls to wait for.
  predicate Begun(s: Host, j: nat, kind: FenceKind, mark: nat) {
    j < |s.drains| && s.drains[j].kind == kind && s.drains[j].mark == mark
  }

  lemma BegunStep(codec: Codec, s: Host, e: HostEvent, j: nat, kind: FenceKind, mark: nat)
    requires Begun(s, j, kind, mark)
    ensures Begun(HostStep(codec, s, e), j, kind, mark)
  {
  }

  lemma {:induction false} BegunStays(codec: Codec, h: Heap, events: seq<HostEvent>, k: nat,
                                      j: nat, kind: FenceKind, mark: nat)
    requires k <= |events| && Begun(HostRun(codec, h, events[..k]), j, kind, mark)
    ensures Begun(HostRun(codec, h, events), j, kind, mark)
  {
    if k == |events| {
      assert events[..k] == events;
    } else {
      var init, e := events[..|events| - 1], events[|events| - 1];
      assert init[..k] == events[..k];
      BegunStays(codec, h, init, k, j, kind, mark);
      BegunStep(codec, HostRun(codec, h, init), e, j, kind, mark);
    }
  }

  predicate StartsDrain(e: HostEvent) { e.LoopSettles? || e.AbortArrives? }

  function LineOf(e: HostEvent): FenceKind { if e.LoopSettles? then Terminal else AbortAck }

  lemma DrainBegins(codec: Codec, h: Heap, pre: seq<HostEvent>, e: HostEvent)
    requires AllWellTyped(pre) && StartsDrain(e)
    ensures Begun(HostRun(codec, h, pre + [e]), |HostRun(codec, h, pre).drains|, LineOf(e), |HostIssued(codec, h, pre)|)
  {
    HostRunSnoc(codec, h, pre, e);
    HostFaithful(codec, h, pre);
  }

  // A loop that settles, or an abort that arrives, begins a drain that waits for every
  // call made so far, also those still behind the media barrier, and keeps doing so.
  lemma DrainMarksEveryCall(codec: Codec, h: Heap, events: seq<HostEvent>, k: nat)
    requires AllWellTyped(events) && k < |events| && StartsDrain(events[k])
    ensures Begun(HostRun(codec, h, events), |HostRun(codec, h, events[..k]).drains|, LineOf(events[k]),
                  |HostIssued(codec, h, events[..k])|)
  {
    assert forall x :: x in events[..k] ==> x in events;
    DrainBegins(codec, h, events[..k], events[k]);
    assert events[..k + 1] == events[..k] + [events[k]];
    BegunStays(codec, h, events, k + 1, |HostRun(codec, h, events[..k]).drains|, LineOf(events[k]),
               |HostIssued(codec, h, events[..k])|);
  }

  // The answer to drain j stands on the wire as line i.
  predicate Answered(s: Host, j: nat, i: nat) {
    j < |s.drains| && s.drains[j].phase == Written(i)
  }

  // Lines whose frames are exactly those of the first n calls, also in their effect on the shell.
  ghost predicate SaysFirst<W(!new)>(codec: Codec, issued: seq<Item>, t: Transport, lines: seq<WireLine>, n: nat,
                                     other: OtherWrites, ports: (W, PortFrame) -> W, w: World<W>) {
    && n <= |t.delivered| <= |issued|
    && (forall k :: 0 <= k < n ==> IsOutcome(codec, issued[k], t.delivered[k]))
    && Canon(Fuse, Frames(lines)) == Canon(Fuse, t.delivered[..n])
    && ApplyAll(Meaning(other, ports), w, Frames(lines)) == ApplyAll(Meaning(other, ports), w, t.delivered[..n])
  }

  lemma CarriedIsSaid<W(!new)>(codec: Codec, h: Heap, events: seq<HostEvent>, lines: seq<WireLine>, n: nat,
                               other: OtherWrites, ports: (W, PortFrame) -> W, w: World<W>)
    requires AllWellTyped(events) && CarriesFirst(lines, HostRun(codec, h, events).t.delivered, n)
    ensures SaysFirst(codec, HostIssued(codec, h, events), HostRun(codec, h, events).t, lines, n, other, ports, w)
  {
    var t := HostRun(codec, h, events).t;
    HostFaithful(codec, h, events);
    FuseRespectsMeaning(other, ports);
    CanonMeaning(Fuse, Meaning(other, ports), w, Frames(lines));
    CanonMeaning(Fuse, Meaning(other, ports), w, t.delivered[..n]);
  }

  // When a loop settles, or an abort arrives, at step k, every call made before it
  // precedes the line that answers it, whatever happens before and after: the lines in
  // front of the terminal, or of the acknowledgement, carry exactly the first n calls'
  // frames, at least all those calls among them, and do to the shell what those frames do.
  lemma AnswersFollowEveryCall<W(!new)>(codec: Codec, h: Heap, events: seq<HostEvent>, k: nat, i: nat,
                                        other: OtherWrites, ports: (W, PortFrame) -> W, w: World<W>) returns (n: nat)
    requires AllWellTyped(events) && k < |events| && StartsDrain(events[k])
    requires Answered(HostRun(codec, h, events), |HostRun(codec, h, events[..k]).drains|, i)
    ensures var t := HostRun(codec, h, events).t;
            && i < |t.buf.wire| && t.buf.wire[i] == Fence(LineOf(events[k]))
            && |HostIssued(codec, h, events[..k])| <= n
            && SaysFirst(codec, HostIssued(codec, h, events), t, t.buf.wire[..i], n, other, ports, w)
  {
    var s, j := HostRun(codec, h, events), |HostRun(codec, h, events[..k]).drains|;
    DrainMarksEveryCall(codec, h, events, k);
    AlwaysHostValid(codec, h, events);
    assert DrainValid(s.t, s.drains[j]);
    n :| |HostIssued(codec, h, events[..k])| <= n && CarriesFirst(s.t.buf.wire[..i], s.t.delivered, n);
    CarriedIsSaid(codec, h, events, s.t.buf.wire[..i], n, other, ports, w);
  }

  lemma RequestWritten(t: Transport)
    requires Streamed(t)
    ensures var u := WriteLine(Flush(t), Request);
            var i := |u.buf.wire| - 1;
            0 <= i && u.buf.wire[i] == Fence(Request) && CarriesFirst(u.buf.wire[..i], t.delivered, |t.delivered|)
  {
    FlushStreamed(t);
    FlushKeepsOutput(t.buf);
    var u := Flush(t);
    assert WriteLine(u, Request).buf.wire[..|u.buf.wire|] == u.buf.wire;
    assert Output(u.buf) == Frames(u.buf.wire);
    assert t.delivered[..|t.delivered|] == t.delivered;
  }

  lemma RequestIsWritten(codec: Codec, h: Heap, pre: seq<HostEvent>)
    requires AllWellTyped(pre)
    ensures var t, wire := HostRun(codec, h, pre).t, HostRun(codec, h, pre + [RequestSent]).t.buf.wire;
            var i := |wire| - 1;
            0 <= i && wire[i] == Fence(Request) && CarriesFirst(wire[..i], t.delivered, |t.delivered|)
  {
    AlwaysHostValid(codec, h, pre);
    HostRunSnoc(codec, h, pre, RequestSent);
    RequestWritten(HostRun(codec, h, pre).t);
  }

  // A request only flushes: its line follows every frame delivered before it, and calls
  // still behind the media barrier may come after it.
  lemma RequestsFollowDelivered<W(!new)>(codec: Codec, h: Heap, pre: seq<HostEvent>,
                                         other: OtherWrites, ports: (W, PortFrame) -> W, w: World<W>) returns (i: nat)
    requires AllWellTyped(pre)
    ensures var wire := HostRun(codec, h, pre + [RequestSent]).t.buf.wire; i + 1 == |wire| && wire[i] == Fence(Request)
    ensures var t, wire := HostRun(codec, h, pre).t, HostRun(codec, h, pre + [RequestSent]).t.buf.wire;
            SaysFirst(codec, HostIssued(codec, h, pre), t, wire[..i], |t.delivered|, other, ports, w)
  {
    RequestIsWritten(codec, h, pre);
    var t, wire := HostRun(codec, h, pre).t, HostRun(codec, h, pre + [RequestSent]).t.buf.wire;
    i := |wire| - 1;
    CarriedIsSaid(codec, h, pre, wire[..i], |t.delivered|, other, ports, w);
  }

  // Every terminal and every acknowledgement on the wire answers one drain, and no two
  // of them the same one.
  ghost predicate LinesAnswer(s: Host) {
    && (forall i :: 0 <= i < |s.t.buf.wire| && s.t.buf.wire[i].Fence? && s.t.buf.wire[i].kind != Request ==>
          exists j: nat :: Answered(s, j, i))
    && (forall j :: 0 <= j < |s.drains| && s.drains[j].phase.Written? ==> s.drains[j].phase.at < |s.t.buf.wire|)
    && (forall j, k :: 0 <= j < k < |s.drains| && s.drains[j].phase.Written? ==> s.drains[j].phase != s.drains[k].phase)
  }

  ghost predicate OnlyDeltas(t: Transport, u: Transport) {
    t.buf.wire <= u.buf.wire && forall i :: |t.buf.wire| <= i < |u.buf.wire| ==> u.buf.wire[i].Delta?
  }

  lemma StepAddsDeltas(codec: Codec, t: Transport, e: TransportBarrier.Event)
    ensures OnlyDeltas(t, TransportBarrier.Step(codec, t, e))
  {
  }

  lemma DeltasAnswer(s: Host, u: Transport)
    requires LinesAnswer(s) && OnlyDeltas(s.t, u)
    ensures LinesAnswer(s.(t := u))
  {
    var v := s.(t := u);
    forall i | 0 <= i < |u.buf.wire| && u.buf.wire[i].Fence? && u.buf.wire[i].kind != Request
      ensures exists j: nat :: Answered(v, j, i)
    {
      var j: nat :| Answered(s, j, i);
      assert Answered(v, j, i);
    }
  }

  // A drain that begins, or moves on without writing, answers no line.
  lemma BeginAnswers(s: Host, d: Drain)
    requires LinesAnswer(s) && d.phase == Waiting
    ensures LinesAnswer(s.(drains := s.drains + [d]))
  {
    var u := s.(drains := s.drains + [d]);
    forall i | 0 <= i < |s.t.buf.wire| && s.t.buf.wire[i].Fence? && s.t.buf.wire[i].kind != Request
      ensures exists j: nat :: Answered(u, j, i)
    {
      var j: nat :| Answered(s, j, i);
      assert Answered(u, j, i);
    }
  }

  lemma MoveAnswers(s: Host, k: nat, d: Drain)
    requires LinesAnswer(s) && k < |s.drains| && !s.drains[k].phase.Written? && !d.phase.Written?
    ensures LinesAnswer(s.(drains := s.drains[k := d]))
  {
    var u := s.(drains := s.drains[k := d]);
    forall i | 0 <= i < |s.t.buf.wire| && s.t.buf.wire[i].Fence? && s.t.buf.wire[i].kind != Request
      ensures exists j: nat :: Answered(u, j, i)
    {
      var j: nat :| Answered(s, j, i);
      assert Answered(u, j, i);
    }
  }

  lemma WriteAnswers(s: Host, k: nat)
    requires LinesAnswer(s) && k < |s.drains| && s.drains[k].phase == Flushed
    ensures LinesAnswer(WriteAnswer(s, k))
  {
    var u, wire := WriteAnswer(s, k), s.t.buf.wire;
    assert Answered(u, k, |wire|);
    forall i | 0 <= i < |wire| && wire[i].Fence? && wire[i].kind != Request
      ensures exists j: nat :: Answered(u, j, i)
    {
      var j: nat :| Answered(s, j, i);
      assert Answered(u, j, i);
    }
  }

  lemma RequestAnswers(s: Host)
    requires LinesAnswer(s)
    ensures LinesAnswer(s.(t := WriteLine(s.t, Request)))
  {
    var u := s.(t := WriteLine(s.t, Request));
    forall i | 0 <= i < |s.t.buf.wire| && s.t.buf.wire[i].Fence? && s.t.buf.wire[i].kind != Request
      ensures exists j: nat :: Answered(u, j, i)
    {
      var j: nat :| Answered(s, j, i);
      assert Answered(u, j, i);
    }
  }

  lemma LinesAnswerStep(codec: Codec, s: Host, e: HostEvent)
    requires LinesAnswer(s)
    ensures LinesAnswer(HostStep(codec, s, e))
  {
    match e {
      case Inner(inner) =>
        StepAddsDeltas(codec, s.t, inner);
        DeltasAnswer(s, TransportBarrier.Step(codec, s.t, inner));
      case LoopSettles => BeginAnswers(s, BeginDrain(s.t, Terminal));
      case AbortArrives =>
        DeltasAnswer(s, Flush(s.t));
        BeginAnswers(s.(t := Flush(s.t)), BeginDrain(s.t, AbortAck));
      case RequestSent =>
        DeltasAnswer(s, Flush(s.t));
        RequestAnswers(s.(t := Flush(s.t)));
      case DrainResumes(i) =>
        if i < |s.drains| && s.drains[i].phase == Waiting {
          MoveAnswers(s, i, s.drains[i].(phase := Returned));
          MoveAnswers(s, i, s.drains[i].(waiting := s.t.tail));
        }
      case DrainFlushes(i) =>
        if i < |s.drains| && s.drains[i].phase == Returned {
          DeltasAnswer(s, Flush(s.t));
          MoveAnswers(s.(t := Flush(s.t)), i, s.drains[i].(phase := Flushed));
        }
      case LineWritten(i) =>
        if i < |s.drains| && s.drains[i].phase == Flushed {
          WriteAnswers(s, i);
        }
    }
  }

  lemma {:induction false} AlwaysLinesAnswer(codec: Codec, h: Heap, events: seq<HostEvent>)
    ensures LinesAnswer(HostRun(codec, h, events))
  {
    if events != [] {
      var init, e := events[..|events| - 1], events[|events| - 1];
      AlwaysLinesAnswer(codec, h, init);
      LinesAnswerStep(codec, HostRun(codec, h, init), e);
    }
  }

  lemma DrainCount(codec: Codec, s: Host, e: HostEvent)
    ensures |HostStep(codec, s, e).drains| == |s.drains| + if StartsDrain(e) then 1 else 0
  {
  }

  // Each drain was begun by one event.
  lemma {:induction false} DrainHasCause(codec: Codec, h: Heap, events: seq<HostEvent>, j: nat) returns (k: nat)
    requires j < |HostRun(codec, h, events).drains|
    ensures k < |events| && StartsDrain(events[k]) && |HostRun(codec, h, events[..k]).drains| == j
  {
    var init, e := events[..|events| - 1], events[|events| - 1];
    DrainCount(codec, HostRun(codec, h, init), e);
    if j < |HostRun(codec, h, init).drains| {
      k := DrainHasCause(codec, h, init, j);
      assert init[..k] == events[..k];
    } else {
      k := |init|;
    }
  }

  lemma AnswerIsOne(s: Host, j: nat, i: nat)
    requires LinesAnswer(s) && Answered(s, j, i)
    ensures forall l: nat :: Answered(s, l, i) ==> l == j
  {
  }

  lemma AnswerIsOfItsKind(s: Host, j: nat, i: nat, kind: FenceKind, mark: nat)
    requires HostValid(s) && Answered(s, j, i) && Begun(s, j, kind, mark)
    ensures i < |s.t.buf.wire| && s.t.buf.wire[i] == Fence(kind)
  {
    assert DrainValid(s.t, s.drains[j]);
  }

  // No terminal and no acknowledgement is written out of nothing or twice: each answers
  // the loop that settled, or the abort that arrived, at some step k, and it is that
  // drain's only line.
  lemma LineHasCause(codec: Codec, h: Heap, events: seq<HostEvent>, i: nat) returns (k: nat)
    requires AllWellTyped(events)
    requires var wire := HostRun(codec, h, events).t.buf.wire; i < |wire| && wire[i].Fence? && wire[i].kind != Request
    ensures k < |events| && StartsDrain(events[k])
    ensures HostRun(codec, h, events).t.buf.wire[i] == Fence(LineOf(events[k]))
    ensures forall j: nat :: Answered(HostRun(codec, h, events), j, i) <==> j == |HostRun(codec, h, events[..k]).drains|
  {
    AlwaysLinesAnswer(codec, h, events);
    AlwaysHostValid(codec, h, events);
    var s := HostRun(codec, h, events);
    var j: nat :| Answered(s, j, i);
    AnswerIsOne(s, j, i);
    k := DrainHasCause(codec, h, events, j);
    DrainMarksEveryCall(codec, h, events, k);
    AnswerIsOfItsKind(s, j, i, LineOf(events[k]), |HostIssued(codec, h, events[..k])|);
  }

  // The part of `agent.run` and `agent.abort` that writes lines of its own.
  class RunHost {
    const chatDelta: FrameChatDelta
    const coalescer: Coalescer
    const wire: Wire
    var drains: seq<Drain>

    ghost predicate Linked() {
      chatDelta.coalescer == coalescer && coalescer.wire == wire
    }

    function View(): Host
      reads this, chatDelta, chatDelta.coalescer, chatDelta.coalescer.wire
    {
      Host(chatDelta.View(), drains)
    }

    constructor (chatDelta: FrameChatDelta)
      ensures this.chatDelta == chatDelta && Linked()
      ensures View() == Host(chatDelta.View(), [])
    {
      this.chatDelta, this.coalescer, this.wire := chatDelta, chatDelta.coalescer, chatDelta.coalescer.wire;
      drains := [];
    }

    // The loop returned or threw: `await chatDelta.drain()` begins.
    method OnLoopSettled()
      requires Linked()
      modifies this
      ensures View() == HostStep(chatDelta.codec, old(View()), LoopSettles)
    {
      var mark := Emitted(chatDelta.View());
      drains := drains + [Drain(Terminal, mark, chatDelta.transportTail, Waiting)];
    }

    // An abort of an active run flushes before it drains, and again after.
    method OnAbort()
      requires Linked()
      modifies this, coalescer, wire
      ensures View() == HostStep(chatDelta.codec, old(View()), AbortArrives)
    {
      var mark := Emitted(chatDelta.View());
      coalescer.Flush();
      drains := drains + [Drain(AbortAck, mark, chatDelta.transportTail, Waiting)];
    }

    method OnRequest()
      requires Linked()
      modifies coalescer, wire
      ensures View() == HostStep(chatDelta.codec, old(View()), RequestSent)
    {
      coalescer.Flush();
      wire.Write(Fence(Request));
    }

    method OnDrainResumed(i: nat)
      requires Linked()
      modifies this
      ensures View() == HostStep(chatDelta.codec, old(View()), DrainResumes(i))
    {
      if i >= |drains| || drains[i].phase != Waiting || chatDelta.settled < drains[i].waiting { return; }
      var d := drains[i];
      if d.waiting != chatDelta.transportTail {
        drains := drains[i := d.(waiting := chatDelta.transportTail)];
        return;
      }
      drains := drains[i := d.(phase := Returned)];
    }

    // The code behind the drain goes on: it flushes what came in since.
    method OnDrainReturned(i: nat)
      requires Linked()
      modifies this, coalescer, wire
      ensures View() == HostStep(chatDelta.codec, old(View()), DrainFlushes(i))
    {
      if i >= |drains| || drains[i].phase != Returned { return; }
      coalescer.Flush();
      drains := drains[i := drains[i].(phase := Flushed)];
    }

    method OnAnswer(i: nat)
      requires Linked()
      modifies this, wire
      ensures View() == HostStep(chatDelta.codec, old(View()), LineWritten(i))
    {
      if i >= |drains| || drains[i].phase != Flushed { return; }
      var at := |wire.lines|;
      wire.Write(Fence(drains[i].kind));
      drains := drains[i := drains[i].(phase := Written(at))];
    }
  }
}
