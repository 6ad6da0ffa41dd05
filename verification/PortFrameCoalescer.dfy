/**
 The port-frame coalescer: a window that fuses streamed text, keeps the latest
 thinking text, and lets every other frame through at once.

 `Buf` and its step functions say what one call does; the class is the closure
 itself; the lemmas say what any schedule of calls and timer firings amounts to.
 */
module PortFrameCoalescer {
  import opened Wrappers
  import opened Coalescing
  import opened PortFrames
  import opened RunMirror

  datatype FenceKind = Terminal | AbortAck | Request

  // One line on the wire: a batch of frames, or a line other than `agent.delta`.
  datatype WireLine = Delta(frames: seq<PortFrame>) | Fence(kind: FenceKind)

  function Frames(wire: seq<WireLine>): seq<PortFrame> {
    if wire == [] then []
    else
      var last := wire[|wire| - 1];
      Frames(wire[..|wire| - 1]) + if last.Delta? then last.frames else []
  }

  datatype Buf = Buf(pending: Option<PortFrame>, queued: seq<PortFrame>, timer: bool, wire: seq<WireLine>)

  const EMPTY_BUF := Buf(None, [], false, [])

  function Buffered(b: Buf): seq<PortFrame> {
    b.queued + if b.pending.Some? then [b.pending.value] else []
  }

  // Everything the coalescer was given and has not lost, in order.
  function Output(b: Buf): seq<PortFrame> {
    Frames(b.wire) + Buffered(b)
  }

  ghost predicate BufValid(b: Buf) {
    && (b.pending.None? ==> b.queued == [])
    && (b.pending.Some? ==> IsMergeable(b.pending.value) && WellFormed(b.pending.value))
    && b.timer == (Buffered(b) != [])
    && (forall line :: line in b.wire && line.Delta? ==> line.frames != [])
  }

  function FlushBuf(b: Buf): Buf {
    var batch := Buffered(b);
    Buf(None, [], false, if batch == [] then b.wire else b.wire + [Delta(batch)])
  }

  // A frame whose token is not a string throws out of the merge; nothing is buffered then.
  function PushBuf(b: Buf, f: PortFrame): Buf {
    if IsMergeable(f) then
      if b.pending.Some? && CanMergeInto(b.pending.value, f) then
        match MergeInto(b.pending.value, f)
        case None => b
        case Some(g) => b.(pending := Some(g), timer := true)
      else Buf(Some(f), Buffered(b), true, b.wire)
    else FlushBuf(Buf(None, Buffered(b) + [f], b.timer, b.wire))
  }

  function TimerBuf(b: Buf): Buf {
    if b.timer then FlushBuf(b) else b
  }

  lemma FramesSnoc(wire: seq<WireLine>, line: WireLine)
    ensures Frames(wire + [line]) == Frames(wire) + if line.Delta? then line.frames else []
  {
    assert (wire + [line])[..|wire|] == wire;
  }

  lemma FlushKeepsOutput(b: Buf)
    ensures Output(FlushBuf(b)) == Output(b)
    ensures Buffered(FlushBuf(b)) == []
    ensures BufValid(b) ==> BufValid(FlushBuf(b))
  {
    FramesSnoc(b.wire, Delta(Buffered(b)));
  }

  // A streamed frame either fuses with the pending one or follows it.
  lemma PushFuses(b: Buf, f: PortFrame)
    requires BufValid(b) && WellFormed(f)
    requires b.pending.Some? && CanMergeInto(b.pending.value, f)
    ensures BufValid(PushBuf(b, f))
    ensures Canon(Fuse, Output(PushBuf(b, f))) == Canon(Fuse, Output(b) + [f])
  {
    var p, init := b.pending.value, Frames(b.wire) + b.queued;
    assert Output(b) + [f] == init + [p, f];
    assert Output(PushBuf(b, f)) == init + [Fuse(p, f).value];
    FuseLast(init, p, f);
  }

  // Any other frame takes everything buffered with it.
  lemma PushSends(b: Buf, f: PortFrame)
    requires BufValid(b) && !IsMergeable(f)
    ensures BufValid(PushBuf(b, f)) && Output(PushBuf(b, f)) == Output(b) + [f]
  {
    var batch := Buffered(b) + [f];
    FramesSnoc(b.wire, Delta(batch));
    assert Buffered(Buf(None, batch, b.timer, b.wire)) == batch;
    assert PushBuf(b, f) == Buf(None, [], false, b.wire + [Delta(batch)]);
    assert Output(PushBuf(b, f)) == Frames(b.wire) + batch;
    assert Output(b) + [f] == Frames(b.wire) + batch;
  }

  lemma PushWaits(b: Buf, f: PortFrame)
    requires BufValid(b) && WellFormed(f) && IsMergeable(f)
    requires !(b.pending.Some? && CanMergeInto(b.pending.value, f))
    ensures BufValid(PushBuf(b, f)) && Output(PushBuf(b, f)) == Output(b) + [f]
  {
    assert PushBuf(b, f) == Buf(Some(f), Buffered(b), true, b.wire);
    assert Output(PushBuf(b, f)) == Output(b) + [f];
  }

  // One push adds one frame to the output, up to fusing it with the last one.
  lemma PushAddsFrame(b: Buf, f: PortFrame)
    requires BufValid(b) && WellFormed(f)
    ensures BufValid(PushBuf(b, f))
    ensures Canon(Fuse, Output(PushBuf(b, f))) == Canon(Fuse, Output(b) + [f])
  {
    if !IsMergeable(f) {
      PushSends(b, f);
    } else if b.pending.Some? && CanMergeInto(b.pending.value, f) {
      PushFuses(b, f);
    } else {
      PushWaits(b, f);
    }
  }

  datatype Event = Push(frame: PortFrame) | TimerFires | Flush

  function Step(b: Buf, e: Event): Buf {
    match e
    case Push(f) => PushBuf(b, f)
    case TimerFires => TimerBuf(b)
    case Flush => FlushBuf(b)
  }

  function Run(b: Buf, events: seq<Event>): Buf {
    if events == [] then b else Step(Run(b, events[..|events| - 1]), events[|events| - 1])
  }

  function Pushed(events: seq<Event>): seq<PortFrame> {
    if events == [] then []
    else
      var e := events[|events| - 1];
      Pushed(events[..|events| - 1]) + if e.Push? then [e.frame] else []
  }

  ghost predicate AllWellFormed(events: seq<Event>) {
    forall e :: e in events && e.Push? ==> WellFormed(e.frame)
  }

  // No schedule of flushes and timer firings changes what was said: every run
  // leaves the raw stream, cut at different places. No batch is empty, and the
  // window timer is armed exactly while something waits.
  lemma {:induction false} ScheduleIsInvisible(events: seq<Event>)
    requires AllWellFormed(events)
    ensures var b := Run(EMPTY_BUF, events);
            BufValid(b) && Canon(Fuse, Output(b)) == Canon(Fuse, Pushed(events))
  {
    if events != [] {
      var init, e := events[..|events| - 1], events[|events| - 1];
      ScheduleIsInvisible(init);
      var b := Run(EMPTY_BUF, init);
      match e {
        case Push(f) =>
          assert e in events;
          PushAddsFrame(b, f);
          CanonCongruent(Fuse, Output(b), Pushed(init), f);
        case _ =>
          FlushKeepsOutput(b);
          assert Pushed(events) == Pushed(init);
      }
    }
  }

  // Behind what is buffered nothing stands that the next frame could have fused with.
  ghost predicate EndsWhole(b: Buf) {
    b.pending.None? && Output(b) != [] ==> !IsMergeable(Output(b)[|Output(b)| - 1])
  }

  lemma LastOutput(b: Buf)
    requires BufValid(b) && b.pending.Some?
    ensures Output(b) == (Frames(b.wire) + b.queued) + [b.pending.value]
  {
  }

  lemma PushAppends(b: Buf, f: PortFrame)
    requires BufValid(b) && WellFormed(f) && EndsWhole(b)
    ensures Output(PushBuf(b, f)) == Append(Fuse, Output(b), f) && EndsWhole(PushBuf(b, f))
  {
    if b.pending.Some? { LastOutput(b); }
    if !IsMergeable(f) {
      PushSends(b, f);
    } else if b.pending.Some? && CanMergeInto(b.pending.value, f) {
      var init := Frames(b.wire) + b.queued;
      assert Output(b)[..|Output(b)| - 1] == init;
      assert Output(PushBuf(b, f)) == init + [Fuse(b.pending.value, f).value];
    } else {
      PushWaits(b, f);
    }
  }

  // While no timer fires and nothing is flushed the window is fully used: every run of
  // frames that can be fused is one frame.
  lemma {:induction false} WindowMergesRuns(events: seq<Event>)
    requires AllWellFormed(events) && forall e :: e in events ==> e.Push?
    ensures var b := Run(EMPTY_BUF, events); Output(b) == Canon(Fuse, Pushed(events)) && EndsWhole(b)
  {
    if events != [] {
      var init, e := events[..|events| - 1], events[|events| - 1];
      assert e in events && forall x :: x in init ==> x in events;
      WindowMergesRuns(init);
      ScheduleIsInvisible(init);
      CanonSnoc(Fuse, Pushed(init), e.frame);
      PushAppends(Run(EMPTY_BUF, init), e.frame);
    }
  }

  lemma FlushEmpties(b: Buf, e: Event)
    requires BufValid(b) && !e.Push?
    ensures Buffered(Step(b, e)) == [] && !Step(b, e).timer && Output(Step(b, e)) == Frames(Step(b, e).wire)
  {
    FlushKeepsOutput(b);
  }

  // The window ends: once the timer has fired, or a flush came, everything pushed so far
  // is on the wire and no timer is armed.
  lemma WindowEnds(events: seq<Event>)
    requires AllWellFormed(events) && events != [] && !events[|events| - 1].Push?
    ensures var b := Run(EMPTY_BUF, events);
            Buffered(b) == [] && !b.timer && Canon(Fuse, Frames(b.wire)) == Canon(Fuse, Pushed(events))
  {
    assert forall e :: e in events[..|events| - 1] ==> e in events;
    ScheduleIsInvisible(events[..|events| - 1]);
    ScheduleIsInvisible(events);
    FlushEmpties(Run(EMPTY_BUF, events[..|events| - 1]), events[|events| - 1]);
  }

  // A frame that is not streamed goes out at once, behind all that was held back.
  lemma OtherFramesGoAtOnce(events: seq<Event>, f: PortFrame)
    requires AllWellFormed(events) && !IsMergeable(f)
    ensures var b := Run(EMPTY_BUF, events + [Push(f)]);
            Buffered(b) == [] && !b.timer && Canon(Fuse, Frames(b.wire)) == Canon(Fuse, Pushed(events) + [f])
  {
    var b := Run(EMPTY_BUF, events);
    assert (events + [Push(f)])[..|events|] == events;
    ScheduleIsInvisible(events);
    PushSends(b, f);
    CanonCongruent(Fuse, Output(b), Pushed(events), f);
    assert Output(PushBuf(b, f)) == Frames(PushBuf(b, f).wire);
  }

  // Folding the shell's apply over what was sent and what is still buffered
  // gives the conversation the raw pushes give, whatever the other methods do.
  lemma CoalescingPreservesMeaning<W(!new)>(other: OtherWrites, ports: (W, PortFrame) -> W, w: World<W>, events: seq<Event>)
    requires AllWellFormed(events)
    ensures ApplyAll(Meaning(other, ports), w, Output(Run(EMPTY_BUF, events)))
         == ApplyAll(Meaning(other, ports), w, Pushed(events))
  {
    ScheduleIsInvisible(events);
    FuseRespectsMeaning(other, ports);
    CanonMeaning(Fuse, Meaning(other, ports), w, Output(Run(EMPTY_BUF, events)));
    CanonMeaning(Fuse, Meaning(other, ports), w, Pushed(events));
  }

  // Standard output of the process, shared by every sender.
  class Wire {
    var lines: seq<WireLine>

    constructor ()
      ensures lines == []
    {
      lines := [];
    }

    method Write(line: WireLine)
      modifies this
      ensures lines == old(lines) + [line]
    {
      lines := lines + [line];
    }
  }

  class Coalescer {
    const wire: Wire
    var pending: Option<PortFrame>
    var timer: bool
    var queued: seq<PortFrame>

    function View(): Buf
      reads this, wire
    {
      Buf(pending, queued, timer, wire.lines)
    }

    ghost predicate Valid()
      reads this, wire
    {
      BufValid(View())
    }

    constructor (wire: Wire)
      ensures this.wire == wire
      ensures View() == EMPTY_BUF.(wire := wire.lines)
    {
      this.wire := wire;
      pending := None;
      timer := false;
      queued := [];
    }

    method Flush()
      modifies this, wire
      ensures View() == FlushBuf(old(View()))
      ensures old(Valid()) ==> Valid()
    {
      ghost var b := View();
      timer := false;
      FlushKeepsOutput(b);
      if pending.Some? {
        queued := queued + [pending.value];
        pending := None;
      }
      assert queued == Buffered(b);
      if |queued| == 0 { return; }
      var batch := queued;
      queued := [];
      wire.Write(Delta(batch));
    }

    method Push(frame: PortFrame) returns (thrown: bool)
      modifies this, wire
      ensures View() == PushBuf(old(View()), frame)
      ensures thrown <==> old(pending).Some? && CanMergeInto(old(pending).value, frame)
                          && MergeInto(old(pending).value, frame).None?
      ensures old(Valid()) && WellFormed(frame) ==> Valid() && !thrown
    {
      ghost var b := View();
      if old(Valid()) && WellFormed(frame) {
        PushAddsFrame(b, frame);
      }
      thrown := false;
      if IsMergeable(frame) {
        if pending.Some? && CanMergeInto(pending.value, frame) {
          var merged := MergeInto(pending.value, frame);
          if merged.None? { return true; }
          pending := merged;
        } else {
          if pending.Some? { queued := queued + [pending.value]; }
          pending := Some(frame);
          assert queued == Buffered(b);
        }
        timer := true;
        return;
      }
      if pending.Some? {
        queued := queued + [pending.value];
        pending := None;
      }
      assert queued == Buffered(b);
      queued := queued + [frame];
      assert Buffered(View()) == Buffered(b) + [frame];
      Flush();
    }

    method TimerFires()
      modifies this, wire
      ensures View() == TimerBuf(old(View()))
      ensures old(Valid()) ==> Valid()
    {
      if timer {
        timer := false;
        FlushKeepsOutput(old(View()));
        Flush();
      }
    }
  }
}
