/**
 That what was begun can be finished: from every reachable state scheduler steps alone,
 without another call and without luck in encoding, deliver every call, lower the busy
 flag and bring every drain to its line.
 */
module WireLiveness {
  import opened Wrappers
  import opened Coalescing
  import opened PortFrames
  import opened PortFrameCoalescer
  import opened TransportBarrier
  import opened WireFences

  // Steps that only let the machinery go on: tasks, encodings, promises and their `finally`.
  predicate IsProgress(e: TransportBarrier.Event) {
    e.TaskRuns? || e.EncodingSettles? || e.TailSettles? || e.FinallyRuns?
  }

  function StepsFrom(codec: Codec, t: Transport, more: seq<TransportBarrier.Event>): Transport {
    if more == [] then t
    else TransportBarrier.Step(codec, StepsFrom(codec, t, more[..|more| - 1]), more[|more| - 1])
  }

  lemma {:induction false} StepsConcat(codec: Codec, t: Transport, a: seq<TransportBarrier.Event>, b: seq<TransportBarrier.Event>)
    ensures StepsFrom(codec, t, a + b) == StepsFrom(codec, StepsFrom(codec, t, a), b)
  {
    if b == [] {
      assert a + b == a;
    } else {
      StepsConcat(codec, t, a, b[..|b| - 1]);
      assert (a + b)[..|a + b| - 1] == a + b[..|b| - 1];
    }
  }

  lemma {:induction false} RunIsSteps(codec: Codec, h: Heap, events: seq<TransportBarrier.Event>)
    ensures TransportBarrier.Run(codec, h, events) == StepsFrom(codec, TransportBarrier.Run(codec, h, []), events)
  {
    if events != [] {
      RunIsSteps(codec, h, events[..|events| - 1]);
    }
  }

  lemma RunThenSteps(codec: Codec, h: Heap, events: seq<TransportBarrier.Event>, more: seq<TransportBarrier.Event>)
    ensures TransportBarrier.Run(codec, h, events + more) == StepsFrom(codec, TransportBarrier.Run(codec, h, events), more)
  {
    RunIsSteps(codec, h, events);
    RunIsSteps(codec, h, events + more);
    StepsConcat(codec, TransportBarrier.Run(codec, h, []), events, more);
  }

  // One task's whole life, whatever phase it is in and whatever its encoding comes to.
  function OneTask(r: EncodingResult): seq<TransportBarrier.Event> {
    [TaskRuns, EncodingSettles(r), TailSettles]
  }

  lemma OneTaskSteps(codec: Codec, t: Transport, r: EncodingResult)
    ensures StepsFrom(codec, t, OneTask(r)) == SettleTail(SettleEncoding(codec, RunTask(t), r))
  {
    assert OneTask(r)[..2] == [TaskRuns, EncodingSettles(r)] && OneTask(r)[..2][..1] == [TaskRuns];
    assert [TaskRuns][..0] == [];
    assert StepsFrom(codec, t, [TaskRuns]) == RunTask(t);
    assert StepsFrom(codec, t, OneTask(r)[..2]) == SettleEncoding(codec, RunTask(t), r);
  }

  lemma OneTaskEnds(codec: Codec, t: Transport, r: EncodingResult)
    requires Structured(t) && t.queue != [] && CanSettle(Encode(Chat, "", []), r)
    ensures var u := SettleTail(SettleEncoding(codec, RunTask(t), r));
            Structured(u) && u.queue == t.queue[1..] && u.tail == t.tail && u.cleared == t.cleared
  {
    StepStructured(codec, t, TaskRuns);
    StepStructured(codec, RunTask(t), EncodingSettles(r));
    StepStructured(codec, SettleEncoding(codec, RunTask(t), r), TailSettles);
  }

  // Encodings may all fail, or all come to the same items.
  lemma {:induction false} QueueDrains(codec: Codec, t: Transport, r: EncodingResult) returns (more: seq<TransportBarrier.Event>)
    requires Structured(t) && !r.NotAList?
    ensures forall e :: e in more ==> IsProgress(e) && (e.EncodingSettles? ==> e.r == r)
    ensures var u := StepsFrom(codec, t, more);
            Structured(u) && u.queue == [] && u.tail == t.tail && u.cleared == t.cleared
    decreases |t.queue|
  {
    if t.queue == [] {
      more := [];
    } else {
      OneTaskSteps(codec, t, r);
      OneTaskEnds(codec, t, r);
      var rest := QueueDrains(codec, StepsFrom(codec, t, OneTask(r)), r);
      more := OneTask(r) + rest;
      StepsConcat(codec, t, OneTask(r), rest);
    }
  }

  lemma {:induction false} FlagFalls(codec: Codec, t: Transport) returns (more: seq<TransportBarrier.Event>)
    requires Structured(t) && t.queue == []
    ensures forall e :: e in more ==> e == FinallyRuns
    ensures var u := StepsFrom(codec, t, more); Structured(u) && u.queue == [] && !u.busy && u.delivered == t.delivered
    decreases t.tail - t.cleared
  {
    if t.cleared == t.tail {
      more := [];
    } else {
      StepStructured(codec, t, FinallyRuns);
      var rest := FlagFalls(codec, RunFinally(t));
      more := [FinallyRuns] + rest;
      StepsConcat(codec, t, [FinallyRuns], rest);
      assert [FinallyRuns][..0] == [];
      assert StepsFrom(codec, t, [FinallyRuns]) == RunFinally(t);
    }
  }

  // From every reachable state every call made can be delivered and the flag lowered,
  // whether encodings fail or not.
  lemma EveryCallCanBeDelivered(codec: Codec, h: Heap, events: seq<TransportBarrier.Event>, r: EncodingResult)
      returns (more: seq<TransportBarrier.Event>)
    requires !r.NotAList?
    ensures forall e :: e in more ==> IsProgress(e) && (e.EncodingSettles? ==> e.r == r)
    ensures var u := TransportBarrier.Run(codec, h, events + more);
            !u.busy && |u.delivered| == |Issued(codec, h, events)|
  {
    var t := TransportBarrier.Run(codec, h, events);
    AlwaysStructured(codec, h, events);
    var drained := QueueDrains(codec, t, r);
    var lowered := FlagFalls(codec, StepsFrom(codec, t, drained));
    more := drained + lowered;
    StepsConcat(codec, t, drained, lowered);
    RunThenSteps(codec, h, events, more);
    IdleMeansDelivered(codec, h, events + more);
    ProgressMakesNoCalls(codec, h, events, more);
  }

  lemma {:induction false} ProgressMakesNoCalls(codec: Codec, h: Heap, events: seq<TransportBarrier.Event>,
                                                more: seq<TransportBarrier.Event>)
    requires forall e :: e in more ==> IsProgress(e)
    ensures Issued(codec, h, events + more) == Issued(codec, h, events)
  {
    if more == [] {
      assert events + more == events;
    } else {
      var init, e := more[..|more| - 1], more[|more| - 1];
      assert e in more && forall x :: x in init ==> x in more;
      ProgressMakesNoCalls(codec, h, events, init);
      HistorySnoc(codec, h, events + init, e);
      assert events + more == (events + init) + [e];
    }
  }

  function HostStepsFrom(codec: Codec, s: Host, more: seq<HostEvent>): Host {
    if more == [] then s else HostStep(codec, HostStepsFrom(codec, s, more[..|more| - 1]), more[|more| - 1])
  }

  lemma {:induction false} HostStepsConcat(codec: Codec, s: Host, a: seq<HostEvent>, b: seq<HostEvent>)
    ensures HostStepsFrom(codec, s, a + b) == HostStepsFrom(codec, HostStepsFrom(codec, s, a), b)
  {
    if b == [] {
      assert a + b == a;
    } else {
      HostStepsConcat(codec, s, a, b[..|b| - 1]);
      assert (a + b)[..|a + b| - 1] == a + b[..|b| - 1];
    }
  }

  lemma {:induction false} HostRunIsSteps(codec: Codec, h: Heap, events: seq<HostEvent>)
    ensures HostRun(codec, h, events) == HostStepsFrom(codec, HostRun(codec, h, []), events)
  {
    if events != [] {
      HostRunIsSteps(codec, h, events[..|events| - 1]);
    }
  }

  lemma HostRunThenSteps(codec: Codec, h: Heap, events: seq<HostEvent>, more: seq<HostEvent>)
    ensures HostRun(codec, h, events + more) == HostStepsFrom(codec, HostRun(codec, h, events), more)
  {
    HostRunIsSteps(codec, h, events);
    HostRunIsSteps(codec, h, events + more);
    HostStepsConcat(codec, HostRun(codec, h, []), events, more);
  }

  function AsInner(more: seq<TransportBarrier.Event>): (r: seq<HostEvent>)
    ensures |r| == |more| && forall i :: 0 <= i < |r| ==> r[i] == Inner(more[i])
  {
    if more == [] then [] else AsInner(more[..|more| - 1]) + [Inner(more[|more| - 1])]
  }

  lemma {:induction false} InnerSteps(codec: Codec, s: Host, more: seq<TransportBarrier.Event>)
    ensures HostStepsFrom(codec, s, AsInner(more)) == s.(t := StepsFrom(codec, s.t, more))
  {
    if more != [] {
      InnerSteps(codec, s, more[..|more| - 1]);
      assert AsInner(more)[..|more| - 1] == AsInner(more[..|more| - 1]);
    }
  }

  // The steps of one answer: its drain looks at the tail twice at most, flushes, writes.
  function AnswerSteps(j: nat): seq<HostEvent> {
    [DrainResumes(j), DrainResumes(j), DrainFlushes(j), LineWritten(j)]
  }

  lemma AnswerStepsAre(codec: Codec, s: Host, j: nat)
    ensures HostStepsFrom(codec, s, AnswerSteps(j)) == WriteAnswer(FlushDrain(ResumeDrain(ResumeDrain(s, j), j), j), j)
  {
    var a, b, c, d := DrainResumes(j), DrainResumes(j), DrainFlushes(j), LineWritten(j);
    assert AnswerSteps(j) == [a] + [b] + [c] + [d];
    HostStepsConcat(codec, s, [a] + [b] + [c], [d]);
    HostStepsConcat(codec, s, [a] + [b], [c]);
    HostStepsConcat(codec, s, [a], [b]);
    OneHostStep(codec, s, a);
    OneHostStep(codec, ResumeDrain(s, j), b);
    OneHostStep(codec, ResumeDrain(ResumeDrain(s, j), j), c);
    OneHostStep(codec, FlushDrain(ResumeDrain(ResumeDrain(s, j), j), j), d);
  }

  lemma OneHostStep(codec: Codec, s: Host, e: HostEvent)
    ensures HostStepsFrom(codec, s, [e]) == HostStep(codec, s, e)
  {
    assert [e][..0] == [];
    assert HostStepsFrom(codec, s, [e][..0]) == s;
  }

  // Once every promise has resolved, a drain at any stage is four steps from its line.
  lemma SettledAnswers(s: Host, j: nat)
    requires j < |s.drains| && s.t.settled == s.t.tail && s.drains[j].waiting <= s.t.tail
    ensures var u := WriteAnswer(FlushDrain(ResumeDrain(ResumeDrain(s, j), j), j), j);
            j < |u.drains| && u.drains[j].phase.Written? && u.drains[j].kind == s.drains[j].kind
            && (s.drains[j].phase.Written? ==> u.drains[j] == s.drains[j])
  {
    var a := ResumeDrain(s, j);
    var b := ResumeDrain(a, j);
    assert s.drains[j].phase == Waiting ==> b.drains[j].phase == Returned;
  }

  predicate IsHostProgress(e: HostEvent) {
    match e
    case Inner(inner) => IsProgress(inner)
    case DrainResumes(_) => true
    case DrainFlushes(_) => true
    case LineWritten(_) => true
    case _ => false
  }

  lemma ProgressToAnswer(more: seq<TransportBarrier.Event>, j: nat)
    requires forall e :: e in more ==> IsProgress(e)
    ensures forall e :: e in AsInner(more) + AnswerSteps(j) ==> IsHostProgress(e)
  {
    forall i | 0 <= i < |more|
      ensures IsHostProgress(AsInner(more)[i])
    {
      assert more[i] in more;
    }
  }

  lemma HostDrains(codec: Codec, s: Host) returns (more: seq<TransportBarrier.Event>)
    requires Structured(s.t)
    ensures forall e :: e in more ==> IsProgress(e)
    ensures var u := HostStepsFrom(codec, s, AsInner(more));
            u.drains == s.drains && u.t.tail == s.t.tail && u.t.settled == u.t.tail
  {
    more := QueueDrains(codec, s.t, Failed);
    InnerSteps(codec, s, more);
  }

  lemma DrainCanFinish(codec: Codec, s: Host, j: nat) returns (more: seq<HostEvent>)
    requires Structured(s.t) && j < |s.drains| && s.drains[j].waiting <= s.t.tail
    ensures forall e :: e in more ==> IsHostProgress(e)
    ensures var u := HostStepsFrom(codec, s, more); j < |u.drains| && u.drains[j].phase.Written?
  {
    var drained := HostDrains(codec, s);
    more := AsInner(drained) + AnswerSteps(j);
    ProgressToAnswer(drained, j);
    HostStepsConcat(codec, s, AsInner(drained), AnswerSteps(j));
    AnswerStepsAre(codec, HostStepsFrom(codec, s, AsInner(drained)), j);
    SettledAnswers(HostStepsFrom(codec, s, AsInner(drained)), j);
  }

  lemma BegunDrainWaits(codec: Codec, h: Heap, events: seq<HostEvent>, k: nat)
    requires AllWellTyped(events) && k < |events| && StartsDrain(events[k])
    ensures var s, j := HostRun(codec, h, events), |HostRun(codec, h, events[..k]).drains|;
            Structured(s.t) && j < |s.drains| && s.drains[j].waiting <= s.t.tail
  {
    AlwaysHostValid(codec, h, events);
    DrainMarksEveryCall(codec, h, events, k);
    var s, j := HostRun(codec, h, events), |HostRun(codec, h, events[..k]).drains|;
    assert DrainValid(s.t, s.drains[j]);
  }

  // Every loop that settles and every abort that arrives can be answered: from every
  // reachable state scheduler steps alone bring its line onto the wire.
  lemma AnswersCanCome(codec: Codec, h: Heap, events: seq<HostEvent>, k: nat) returns (more: seq<HostEvent>, i: nat)
    requires AllWellTyped(events) && k < |events| && StartsDrain(events[k])
    ensures forall e :: e in more ==> IsHostProgress(e)
    ensures Answered(HostRun(codec, h, events + more), |HostRun(codec, h, events[..k]).drains|, i)
  {
    var j := |HostRun(codec, h, events[..k]).drains|;
    BegunDrainWaits(codec, h, events, k);
    more := DrainCanFinish(codec, HostRun(codec, h, events), j);
    HostRunThenSteps(codec, h, events, more);
    i := HostRun(codec, h, events + more).drains[j].phase.at;
  }

  // A drain that finds the tail where it left it returns at once: on an idle transport the
  // line is four steps away.
  lemma IdleAnswersAtOnce(codec: Codec, h: Heap, events: seq<HostEvent>, j: nat)
    requires AllWellTyped(events)
    requires var s := HostRun(codec, h, events); j < |s.drains| && s.t.settled == s.t.tail
    ensures exists i :: Answered(HostRun(codec, h, events + AnswerSteps(j)), j, i)
  {
    var s := HostRun(codec, h, events);
    AlwaysHostValid(codec, h, events);
    assert DrainValid(s.t, s.drains[j]);
    SettledAnswers(s, j);
    AnswerStepsAre(codec, s, j);
    HostRunThenSteps(codec, h, events, AnswerSteps(j));
    var u := HostRun(codec, h, events + AnswerSteps(j));
    assert Answered(u, j, u.drains[j].phase.at);
  }

  lemma WindowCloses(codec: Codec, t: Transport, e: TransportBarrier.Event)
    requires Streamed(t) && (e.TimerFires? || e.CoalescerFlushed?)
    ensures var u := TransportBarrier.Step(codec, t, e);
            && Buffered(u.buf) == [] && !u.buf.timer && u.delivered == t.delivered
            && Canon(Fuse, Frames(u.buf.wire)) == Canon(Fuse, u.delivered)
  {
    FlushKeepsOutput(t.buf);
    assert !t.buf.timer ==> Buffered(t.buf) == [];
    var u := TransportBarrier.Step(codec, t, e);
    assert Output(u.buf) == Frames(u.buf.wire);
  }

  predicate IsWindowEnd(e: TransportBarrier.Event) { e.TimerFires? || e.CoalescerFlushed? }

  lemma {:induction false} HostProgressMakesNoCalls(codec: Codec, h: Heap, events: seq<HostEvent>,
                                                    more: seq<TransportBarrier.Event>)
    requires forall e :: e in more ==> IsProgress(e)
    ensures HostIssued(codec, h, events + AsInner(more)) == HostIssued(codec, h, events)
  {
    if more == [] {
      assert events + AsInner(more) == events;
    } else {
      var init, e := more[..|more| - 1], more[|more| - 1];
      assert e in more && forall x :: x in init ==> x in more;
      HostProgressMakesNoCalls(codec, h, events, init);
      InnerEventsSnoc(events + AsInner(init), Inner(e));
      HistorySnoc(codec, h, InnerEvents(events + AsInner(init)), e);
      assert AsInner(more) == AsInner(init) + [Inner(e)];
      assert events + AsInner(more) == (events + AsInner(init)) + [Inner(e)];
    }
  }

  lemma ProgressIsWellTyped(events: seq<HostEvent>, more: seq<TransportBarrier.Event>)
    requires AllWellTyped(events) && forall e :: e in more ==> IsProgress(e)
    ensures AllWellTyped(events + AsInner(more))
  {
    forall i | 0 <= i < |more|
      ensures AsInner(more)[i] == Inner(more[i]) && !more[i].CallMade?
    {
      assert more[i] in more;
    }
  }

  lemma EmptyQueueMeansDelivered(codec: Codec, h: Heap, events: seq<HostEvent>)
    requires AllWellTyped(events)
    ensures var t := HostRun(codec, h, events).t;
            Streamed(t) && (t.queue == [] ==> |t.delivered| == |HostIssued(codec, h, events)|)
  {
    AlwaysHostValid(codec, h, events);
    HostFaithful(codec, h, events);
  }

  // What scheduler steps alone lead to: every call delivered, none added.
  lemma AllDelivered(codec: Codec, h: Heap, events: seq<HostEvent>) returns (more: seq<TransportBarrier.Event>)
    requires AllWellTyped(events)
    ensures forall e :: e in more ==> IsProgress(e)
    ensures var t := HostRun(codec, h, events + AsInner(more)).t;
            Streamed(t) && |t.delivered| == |HostIssued(codec, h, events)|
  {
    var s := HostRun(codec, h, events);
    AlwaysHostValid(codec, h, events);
    more := QueueDrains(codec, s.t, Failed);
    InnerSteps(codec, s, more);
    HostRunThenSteps(codec, h, events, AsInner(more));
    ProgressIsWellTyped(events, more);
    EmptyQueueMeansDelivered(codec, h, events + AsInner(more));
    HostProgressMakesNoCalls(codec, h, events, more);
  }

  // From every reachable state the frame of every call can reach the wire: scheduler steps
  // deliver it, and the end of the window sends it.
  lemma EveryCallCanReachTheWire(codec: Codec, h: Heap, events: seq<HostEvent>, end: TransportBarrier.Event)
      returns (more: seq<TransportBarrier.Event>)
    requires AllWellTyped(events) && IsWindowEnd(end)
    ensures forall e :: e in more ==> IsProgress(e)
    ensures var t := HostRun(codec, h, events + AsInner(more) + [Inner(end)]).t;
            && Buffered(t.buf) == [] && !t.buf.timer
            && |t.delivered| == |HostIssued(codec, h, events)| && Canon(Fuse, Frames(t.buf.wire)) == Canon(Fuse, t.delivered)
  {
    more := AllDelivered(codec, h, events);
    WindowCloses(codec, HostRun(codec, h, events + AsInner(more)).t, end);
    HostRunSnoc(codec, h, events + AsInner(more), Inner(end));
  }
}
