/**
 A delegated run's progress notifications. They wait on a promise tail of their own,
 built like the one in front of the coalescer, so `TransportBarrier` models it; there
 is no coalescer, and every notification is a line of its own.
 */
module ProgressTail {
  import opened Wrappers
  import opened PortFrames
  import opened PortFrameCoalescer
  import opened TransportBarrier
  import opened FrameContents

  // What happens to an event on its way: arbitrary functions here.
  datatype Preparation = Preparation(needsEncoding: Json -> bool, redact: Json -> Json, failClosed: Json -> Json)

  const METHOD := "subagent.progress"

  function CodecOf(prep: Preparation): Codec {
    Codec(
      (j: Json) => j.List? && prep.needsEncoding(Arg(j.items, 0)),
      (a: seq<Json>) => [prep.redact(Arg(a, 0))],
      (a: seq<Json>) => [prep.failClosed(Arg(a, 0))],
      (j: Json) => j, (j: Json) => j, (j: Json) => j, (j: Json) => j, Undefined)
  }

  function SendProgress(event: Value, write: Heap): Call {
    Prepared(Session, METHOD, [event], write)
  }

  ghost predicate IsProgress(e: TransportBarrier.Event) {
    e.CallMade? ==> exists event, write :: e.c == SendProgress(event, write)
  }

  predicate ProgressItem(item: Item) {
    match item
    case Ready(f) => f.p == Session && f.m == METHOD
    case Encode(p, m, _) => p == Session && m == METHOD
    case EncodeToolResult(_) => false
  }

  // What was delivered is what is on the wire, one line each.
  ghost predicate LineByLine(t: Transport) {
    && t.buf.pending.None? && t.buf.queued == []
    && |t.buf.wire| == |t.delivered|
    && (forall k :: 0 <= k < |t.delivered| ==> t.buf.wire[k] == Delta([t.delivered[k]]))
    && (forall item :: item in t.queue ==> ProgressItem(item))
  }

  lemma DeliverLineByLine(t: Transport, f: PortFrame)
    requires LineByLine(t) && f.p == Session
    ensures LineByLine(Deliver(t, f))
  {
    assert [] + [f] + [] == [f];
  }

  lemma StepLineByLine(prep: Preparation, t: Transport, e: TransportBarrier.Event)
    requires LineByLine(t) && IsProgress(e)
    ensures LineByLine(TransportBarrier.Step(CodecOf(prep), t, e))
  {
    var codec := CodecOf(prep);
    match e {
      case CallMade(c) =>
        var item := ItemOf(codec, t.heap, c);
        assert ProgressItem(item);
        if item.Ready? && !t.busy {
          DeliverLineByLine(t.(heap := t.heap + c.write), item.frame);
        }
      case TaskRuns =>
        if t.queue != [] {
          assert ProgressItem(t.queue[0]);
          if t.phase == Idle && t.queue[0].Ready? { DeliverLineByLine(t, t.queue[0].frame); }
        }
      case EncodingSettles(r) =>
        if t.queue != [] {
          assert ProgressItem(t.queue[0]);
          if t.phase == Encoding && CanSettle(t.queue[0], r) { DeliverLineByLine(t, OutcomeFrame(codec, t.queue[0], r)); }
        }
      case _ =>
    }
  }

  lemma {:induction false} AlwaysLineByLine(prep: Preparation, h: Heap, events: seq<TransportBarrier.Event>)
    requires forall e :: e in events ==> IsProgress(e)
    ensures LineByLine(TransportBarrier.Run(CodecOf(prep), h, events))
  {
    if events != [] {
      var init, e := events[..|events| - 1], events[|events| - 1];
      assert e in events && forall x :: x in init ==> x in events;
      AlwaysLineByLine(prep, h, init);
      StepLineByLine(prep, TransportBarrier.Run(CodecOf(prep), h, init), e);
    }
  }

  // What is told of an event: itself, redacted, when it holds no media; otherwise what an
  // encoding of the run made of it, or its failure if that encoding failed.
  ghost predicate Tells(prep: Preparation, events: seq<TransportBarrier.Event>, event: Json, f: PortFrame) {
    && f.p == Session && f.m == METHOD
    && if !prep.needsEncoding(event) then f.a == [prep.redact(event)]
       else exists i :: 0 <= i < |events| && events[i].EncodingSettles?
                        && ((events[i].r.Encoded? && f.a == events[i].r.items)
                            || (events[i].r.Failed? && f.a == [prep.failClosed(event)]))
  }

  lemma CodecApplies(prep: Preparation, event: Json, w: seq<Json>)
    requires w == [event]
    ensures CodecOf(prep).needsEncoding(List(w)) <==> prep.needsEncoding(event)
    ensures CodecOf(prep).collapse(w) == [prep.redact(event)] && CodecOf(prep).redact(w) == [prep.failClosed(event)]
  {
    assert Arg(w, 0) == event && List(w).items == w;
  }

  lemma ProgressFrame(prep: Preparation, events: seq<TransportBarrier.Event>, event: Value, write: Heap, heap: Heap, f: PortFrame)
    requires Carries(CodecOf(prep), events, Made(SendProgress(event, write), heap), f)
    ensures Tells(prep, events, Read(heap, event), f)
  {
    var codec, m := CodecOf(prep), Made(SendProgress(event, write), heap);
    CodecApplies(prep, Read(heap, event), ArgsOf(m));
    if HasMedia(codec, m) {
      var i :| 0 <= i < |events| && events[i].EncodingSettles? && CarriesEncoded(codec, m, events[i].r, f.a);
      if events[i].r.Failed? {
        assert RedactedAndMarked(codec, Session, METHOD, ArgsOf(m), f.a);
      }
    }
  }

  lemma {:induction false} MadeAreProgress(h: Heap, events: seq<TransportBarrier.Event>)
    requires forall e :: e in events ==> IsProgress(e)
    ensures forall m :: m in CallsMade(h, events) ==> exists event, write :: m.c == SendProgress(event, write)
  {
    if events != [] {
      assert events[|events| - 1] in events && forall x :: x in events[..|events| - 1] ==> x in events;
      MadeAreProgress(h, events[..|events| - 1]);
    }
  }

  // Under every interleaving the notifications on the wire are the first events, one
  // line per event and in the order they were sent, each telling its event as it was
  // when it was sent. When the tail is idle none is missing.
  lemma ProgressInOrder(prep: Preparation, h: Heap, events: seq<TransportBarrier.Event>, k: nat)
    requires forall e :: e in events ==> IsProgress(e)
    requires k < |TransportBarrier.Run(CodecOf(prep), h, events).buf.wire|
    ensures var t, made := TransportBarrier.Run(CodecOf(prep), h, events), CallsMade(h, events);
            && |t.buf.wire| == |t.delivered| <= |made| && (!t.busy ==> |t.buf.wire| == |made|)
            && made[k].c.Prepared? && |made[k].c.args| == 1
            && t.buf.wire[k] == Delta([t.delivered[k]])
            && Tells(prep, events, Read(made[k].heap, made[k].c.args[0]), t.delivered[k])
  {
    var codec := CodecOf(prep);
    AlwaysLineByLine(prep, h, events);
    OrderingBarrier(codec, h, events);
    IdleMeansDelivered(codec, h, events);
    IssuedAreMade(codec, h, events);
    CallsArriveAsMade(codec, h, events, k);
    MadeAreProgress(h, events);
    var m := CallsMade(h, events)[k];
    assert m in CallsMade(h, events);
    var event, write :| m.c == SendProgress(event, write);
    ProgressFrame(prep, events, event, write, m.heap, TransportBarrier.Run(codec, h, events).delivered[k]);
  }
}
