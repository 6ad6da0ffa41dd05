/**
 The event stream of one `llm.chat` call: the adapter's events, merged by type
 inside a short window, numbered, and drained when the call settles.
 */
module LlmStream {
  import opened Wrappers
  import opened Coalescing

  // `Other` is any event that is never held back: tool use, tool result, usage, done, error.
  datatype StreamEvent = Text(text: string) | Thinking(thinking: string) | Other(payload: string)

  predicate IsDelta(e: StreamEvent) { !e.Other? }

  function Merge(a: StreamEvent, b: StreamEvent): Option<StreamEvent> {
    match (a, b)
    case (Text(x), Text(y)) => Some(Text(x + y))
    case (Thinking(x), Thinking(y)) => Some(Thinking(x + y))
    case _ => None
  }

  lemma MergeLawful()
    ensures Lawful(Merge)
  {
    forall a, b, c | Merge(a, b).Some? && Merge(b, c).Some?
      ensures && Merge(Merge(a, b).value, c).Some?
              && Merge(a, Merge(b, c).value) == Merge(Merge(a, b).value, c)
    {
      match a {
        case Text(x) => assert x + (b.text + c.text) == (x + b.text) + c.text;
        case Thinking(x) => assert x + (b.thinking + c.thinking) == (x + b.thinking) + c.thinking;
      }
    }
  }

  datatype Notification = Notification(number: nat, event: StreamEvent)

  datatype Call = Call(pending: Option<StreamEvent>, timer: bool, next: nat, sent: seq<Notification>)

  const FRESH := Call(None, false, 0, [])

  function Emit(c: Call, e: StreamEvent): Call {
    c.(next := c.next + 1, sent := c.sent + [Notification(c.next, e)])
  }

  function EmitAll(c: Call, events: seq<StreamEvent>): Call
    decreases |events|
  {
    if events == [] then c else EmitAll(Emit(c, events[0]), events[1..])
  }

  lemma {:induction false} EmitFew(c: Call, events: seq<StreamEvent>)
    ensures |events| == 1 ==> EmitAll(c, events) == Emit(c, events[0])
    ensures |events| == 2 ==> EmitAll(c, events) == Emit(Emit(c, events[0]), events[1])
    decreases |events|
  {
    if |events| == 2 {
      EmitFew(Emit(c, events[0]), events[1..]);
    }
  }

  function Flush(c: Call): Call {
    if c.pending.Some? then Emit(c.(pending := None), c.pending.value) else c
  }

  function OnEvent(c: Call, e: StreamEvent): Call {
    var d := if !IsDelta(e) then Emit(Flush(c), e)
             else if c.pending.Some? && Merge(c.pending.value, e).Some? then c.(pending := Merge(c.pending.value, e))
             else Flush(c).(pending := Some(e));
    d.(timer := d.pending.Some?)
  }

  function OnTimer(c: Call): Call {
    if c.timer then Flush(c.(timer := false)) else c
  }

  // The adapter's promise settled, one way or the other.
  function Drain(c: Call): Call {
    Flush(c.(timer := false))
  }

  datatype Event = Adapter(e: StreamEvent) | TimerFires | Settles

  function Step(c: Call, event: Event): Call {
    match event
    case Adapter(e) => OnEvent(c, e)
    case TimerFires => OnTimer(c)
    case Settles => Drain(c)
  }

  function Run(events: seq<Event>): Call {
    if events == [] then FRESH else Step(Run(events[..|events| - 1]), events[|events| - 1])
  }

  function Raw(events: seq<Event>): seq<StreamEvent> {
    if events == [] then []
    else
      var last := events[|events| - 1];
      Raw(events[..|events| - 1]) + if last.Adapter? then [last.e] else []
  }

  function EventsOf(sent: seq<Notification>): seq<StreamEvent> {
    if sent == [] then [] else EventsOf(sent[..|sent| - 1]) + [sent[|sent| - 1].event]
  }

  function Output(c: Call): seq<StreamEvent> {
    EventsOf(c.sent) + if c.pending.Some? then [c.pending.value] else []
  }

  // Numbers run 0, 1, 2, ... and the window timer is armed exactly while a delta waits.
  ghost predicate CallValid(c: Call) {
    && c.next == |c.sent|
    && (forall k :: 0 <= k < |c.sent| ==> c.sent[k].number == k)
    && (c.pending.Some? ==> IsDelta(c.pending.value))
    && (c.timer <==> c.pending.Some?)
  }

  lemma EmitExtends(c: Call, e: StreamEvent)
    ensures EventsOf(Emit(c, e).sent) == EventsOf(c.sent) + [e]
  {
    assert Emit(c, e).sent[..|c.sent|] == c.sent;
  }

  lemma FlushKeepsOutput(c: Call)
    ensures Output(Flush(c)) == Output(c) && Flush(c).pending.None?
  {
    if c.pending.Some? {
      EmitExtends(c.(pending := None), c.pending.value);
    }
  }

  predicate Fuses(c: Call, e: StreamEvent) {
    c.pending.Some? && Merge(c.pending.value, e).Some?
  }

  lemma {:induction false} OnEventFollows(c: Call, e: StreamEvent)
    requires !Fuses(c, e)
    ensures Output(OnEvent(c, e)) == Output(c) + [e]
  {
    FlushKeepsOutput(c);
    if !IsDelta(e) {
      EmitExtends(Flush(c), e);
    }
  }

  lemma OnEventValid(c: Call, e: StreamEvent)
    requires CallValid(c)
    ensures CallValid(OnEvent(c, e))
  {
  }

  lemma OnEventFuses(c: Call, e: StreamEvent)
    requires Fuses(c, e)
    ensures Output(OnEvent(c, e)) == EventsOf(c.sent) + [Merge(c.pending.value, e).value]
    ensures Output(c) + [e] == EventsOf(c.sent) + [c.pending.value, e]
  {
  }

  lemma {:induction false} OnEventAddsEvent(c: Call, e: StreamEvent)
    ensures Canon(Merge, Output(OnEvent(c, e))) == Canon(Merge, Output(c) + [e])
  {
    if Fuses(c, e) {
      OnEventFuses(c, e);
      MergeLawful();
      CanonFuseLast(Merge, EventsOf(c.sent), c.pending.value, e);
    } else {
      OnEventFollows(c, e);
    }
  }

  // For every adapter event sequence and timer schedule the notifications, with
  // what is still buffered, are the adapter's stream cut at different places.
  lemma {:induction false} StreamIsFaithful(events: seq<Event>)
    ensures CallValid(Run(events))
    ensures Canon(Merge, Output(Run(events))) == Canon(Merge, Raw(events))
  {
    if events != [] {
      var init, last := events[..|events| - 1], events[|events| - 1];
      StreamIsFaithful(init);
      var c := Run(init);
      match last {
        case Adapter(e) =>
          OnEventValid(c, e);
          OnEventAddsEvent(c, e);
          CanonCongruent(Merge, Output(c), Raw(init), e);
        case _ =>
          FlushKeepsOutput(c.(timer := false));
          assert Raw(events) == Raw(init);
      }
    }
  }

  // What a consumer reads: all text, all thinking, and for every other event how
  // much of both came before it.
  datatype Mark = Mark(payload: string, textBefore: nat, thinkingBefore: nat)

  datatype Transcript = Transcript(text: string, thinking: string, marks: seq<Mark>)

  function Consume(t: Transcript, e: StreamEvent): Transcript {
    match e
    case Text(x) => t.(text := t.text + x)
    case Thinking(x) => t.(thinking := t.thinking + x)
    case Other(p) => t.(marks := t.marks + [Mark(p, |t.text|, |t.thinking|)])
  }

  lemma MergeRespectsConsume()
    ensures Respects(Merge, Consume)
  {
    forall t, a, b | Merge(a, b).Some?
      ensures Consume(t, Merge(a, b).value) == Consume(Consume(t, a), b)
    {
      match a {
        case Text(x) => assert t.text + (x + b.text) == (t.text + x) + b.text;
        case Thinking(x) => assert t.thinking + (x + b.thinking) == (t.thinking + x) + b.thinking;
      }
    }
  }

  // Once the call has settled everything is out: nothing is buffered, no timer is
  // armed, and the notifications read exactly as the adapter's own events.
  lemma SettledCallIsComplete(events: seq<Event>)
    requires events != [] && events[|events| - 1] == Settles
    ensures var c := Run(events);
            && c.pending.None? && !c.timer
            && (forall k :: 0 <= k < |c.sent| ==> c.sent[k].number == k)
            && Canon(Merge, EventsOf(c.sent)) == Canon(Merge, Raw(events))
            && forall t :: ApplyAll(Consume, t, EventsOf(c.sent)) == ApplyAll(Consume, t, Raw(events))
  {
    StreamIsFaithful(events);
    var c := Run(events);
    assert Output(c) == EventsOf(c.sent);
    MergeRespectsConsume();
    forall t
      ensures ApplyAll(Consume, t, EventsOf(c.sent)) == ApplyAll(Consume, t, Raw(events))
    {
      CanonMeaning(Merge, Consume, t, EventsOf(c.sent));
      CanonMeaning(Merge, Consume, t, Raw(events));
    }
  }

  // Two deltas of one type always merge, and nothing else does.
  lemma MergesExactly(a: StreamEvent, b: StreamEvent)
    ensures Merge(a, b).Some? <==> (a.Text? && b.Text?) || (a.Thinking? && b.Thinking?)
  {
  }

  // The timer ends the window: when it has fired nothing is held back any longer, and what
  // was sent is the adapter's stream up to merging.
  lemma TimerEndsTheWindow(events: seq<Event>)
    requires events != [] && events[|events| - 1] == TimerFires
    ensures var c := Run(events);
            && c.pending.None? && !c.timer && Canon(Merge, EventsOf(c.sent)) == Canon(Merge, Raw(events))
  {
    var init := events[..|events| - 1];
    StreamIsFaithful(init);
    StreamIsFaithful(events);
    FlushKeepsOutput(Run(init).(timer := false));
    assert Output(Run(events)) == EventsOf(Run(events).sent);
  }

  // All text of a stream, all thinking, and the payloads of its other events.
  function AllText(events: seq<StreamEvent>): string {
    if events == [] then ""
    else
      var last := events[|events| - 1];
      AllText(events[..|events| - 1]) + if last.Text? then last.text else ""
  }

  function AllThinking(events: seq<StreamEvent>): string {
    if events == [] then ""
    else
      var last := events[|events| - 1];
      AllThinking(events[..|events| - 1]) + if last.Thinking? then last.thinking else ""
  }

  // Each other event, and how much text and thinking came before it.
  function Others(events: seq<StreamEvent>): seq<Mark> {
    if events == [] then []
    else
      var init, last := events[..|events| - 1], events[|events| - 1];
      Others(init) + if last.Other? then [Mark(last.payload, |AllText(init)|, |AllThinking(init)|)] else []
  }

  const NOTHING := Transcript("", "", [])

  lemma {:induction false} ConsumedWhole(events: seq<StreamEvent>)
    ensures ApplyAll(Consume, NOTHING, events) == Transcript(AllText(events), AllThinking(events), Others(events))
  {
    if events != [] {
      var init := events[..|events| - 1];
      ConsumedWhole(init);
      assert AllText(init) + "" == AllText(init) && AllThinking(init) + "" == AllThinking(init);
      assert Others(init) + [] == Others(init);
    }
  }

  // So once a call has settled its consumer has all the adapter's text, all its thinking,
  // and every other event at its place between them.
  lemma SettledCallIsRead(events: seq<Event>)
    requires events != [] && events[|events| - 1] == Settles
    ensures var sent, raw := EventsOf(Run(events).sent), Raw(events);
            AllText(sent) == AllText(raw) && AllThinking(sent) == AllThinking(raw) && Others(sent) == Others(raw)
  {
    SettledCallIsComplete(events);
    ConsumedWhole(EventsOf(Run(events).sent));
    ConsumedWhole(Raw(events));
    assert ApplyAll(Consume, NOTHING, EventsOf(Run(events).sent)) == ApplyAll(Consume, NOTHING, Raw(events));
  }

  // Nothing follows a delta that was flushed for a later event but that event itself.
  ghost predicate EndsDiscretely(c: Call) {
    c.pending.None? && c.sent != [] ==> c.sent[|c.sent| - 1].event.Other?
  }

  lemma {:induction false} LastOutput(c: Call)
    requires CallValid(c) && EndsDiscretely(c) && Output(c) != []
    ensures var last := Output(c)[|Output(c)| - 1];
            if c.pending.Some? then last == c.pending.value else last.Other?
  {
  }

  lemma {:induction false} OnEventAppends(c: Call, e: StreamEvent)
    requires CallValid(c) && EndsDiscretely(c)
    ensures Output(OnEvent(c, e)) == Append(Merge, Output(c), e)
  {
    var o := Output(c);
    if o != [] { LastOutput(c); }
    if Fuses(c, e) {
      assert o[..|o| - 1] == EventsOf(c.sent);
    } else {
      OnEventFollows(c, e);
    }
  }

  // While no timer fires the window is fully used: every maximal run of deltas of
  // one type is one event.
  lemma {:induction false} WindowMergesRuns(events: seq<Event>)
    requires forall e :: e in events ==> e.Adapter?
    ensures Output(Run(events)) == Canon(Merge, Raw(events)) && EndsDiscretely(Run(events))
  {
    if events != [] {
      var init, last := events[..|events| - 1], events[|events| - 1];
      assert last in events && forall e :: e in init ==> e in events;
      WindowMergesRuns(init);
      StreamIsFaithful(init);
      CanonSnoc(Merge, Raw(init), last.e);
      OnEventAppends(Run(init), last.e);
      assert EndsDiscretely(OnEvent(Run(init), last.e));
    }
  }

  // Merge logic without timers: one buffered delta.
  class EventCoalescer {
    var pending: Option<StreamEvent>

    constructor ()
      ensures pending.None?
    {
      pending := None;
    }

    method FlushPending() returns (out: seq<StreamEvent>)
      modifies this
      ensures pending.None?
      ensures out == if old(pending).Some? then [old(pending).value] else []
    {
      if pending.None? { return []; }
      out := [pending.value];
      pending := None;
    }

    // What goes out at once, in order; a delta that fused or was buffered does not.
    method Push(e: StreamEvent) returns (out: seq<StreamEvent>)
      modifies this
      ensures old(pending).Some? && Merge(old(pending).value, e).Some? ==>
                out == [] && pending == Merge(old(pending).value, e)
      ensures !(old(pending).Some? && Merge(old(pending).value, e).Some?) ==>
                && pending == (if IsDelta(e) then Some(e) else None)
                && out == (if old(pending).Some? then [old(pending).value] else []) + (if IsDelta(e) then [] else [e])
    {
      if IsDelta(e) {
        if pending.Some? && Merge(pending.value, e).Some? {
          pending := Merge(pending.value, e);
          return [];
        }
        out := FlushPending();
        pending := Some(e);
        return;
      }
      out := FlushPending();
      out := out + [e];
    }
  }

  // The record of one active call and the notifications it sent.
  class ActiveCall {
    const coalescer: EventCoalescer
    var timer: bool
    var number: nat
    var sent: seq<Notification>

    ghost function View(): Call
      reads this, coalescer
    {
      Call(coalescer.pending, timer, number, sent)
    }

    constructor ()
      ensures View() == FRESH && fresh(coalescer)
    {
      coalescer := new EventCoalescer();
      timer, number, sent := false, 0, [];
    }

    method EmitOne(e: StreamEvent)
      modifies this
      ensures View() == Emit(old(View()), e)
    {
      sent := sent + [Notification(number, e)];
      number := number + 1;
    }

    method EmitEach(events: seq<StreamEvent>)
      modifies this
      ensures View() == EmitAll(old(View()), events)
    {
      var i := 0;
      while i < |events|
        invariant i <= |events| && coalescer.pending == old(coalescer.pending)
        invariant EmitAll(old(View()), events) == EmitAll(View(), events[i..])
      {
        EmitOne(events[i]);
        i := i + 1;
      }
    }

    method HandleEvent(e: StreamEvent)
      modifies this, coalescer
      ensures View() == OnEvent(old(View()), e)
    {
      var toEmit := coalescer.Push(e);
      EmitFew(View(), toEmit);
      EmitEach(toEmit);
      if coalescer.pending.Some? {
        if !timer { timer := true; }
      } else {
        timer := false;
      }
    }

    method HandleTimer()
      modifies this, coalescer
      ensures View() == OnTimer(old(View()))
    {
      if !timer { return; }
      timer := false;
      var out := coalescer.FlushPending();
      EmitEach(out);
    }

    method DrainCall()
      modifies this, coalescer
      ensures View() == Drain(old(View()))
    {
      timer := false;
      var out := coalescer.FlushPending();
      EmitEach(out);
    }
  }
}
