/**
 What the delivered frames carry, call by call: the port, the method and the arguments
 a call was made with, what encoding made of its media, and never a redaction unless
 an encoding failed.
 */
module FrameContents {
  import opened Wrappers
  import opened PortFrames
  import opened TransportBarrier

  // A call, and what the live objects held when it was made.
  datatype Made = Made(c: Call, heap: Heap)

  function CallsMade(h: Heap, events: seq<Event>): seq<Made> {
    if events == [] then []
    else
      var init, e := events[..|events| - 1], events[|events| - 1];
      CallsMade(h, init) + if e.CallMade? then [Made(e.c, HeapAfter(h, init))] else []
  }

  function PortOf(c: Call): Port {
    match c
    case Send(p, _, _, _) => p
    case Prepared(p, _, _, _) => p
    case ToolResult(_, _) => Chat
    case ExecWrite(_, _, _) => Exec
  }

  function MethodOf(c: Call): string {
    if c.ToolResult? then "updateToolCall" else c.m
  }

  // The arguments as the caller means them: a plain send and an execution frame read them
  // after their own local apply, the prepared forms before it.
  function ArgsOf(m: Made): seq<Json> {
    if m.c.Send? || m.c.ExecWrite? then Snapshot(m.heap + m.c.write, m.c.args) else Snapshot(m.heap, m.c.args)
  }

  // Whether a call holds media that has to be encoded first; a plain send never waits for any.
  predicate HasMedia(codec: Codec, m: Made) {
    match m.c
    case Send(_, _, _, _) => false
    case ToolResult(_, _) => codec.needsEncoding(Arg(ArgsOf(m), 4))
    case _ => codec.needsEncoding(List(ArgsOf(m)))
  }

  // A tool result keeps its ids, its display flag and its metadata in their places.
  predicate KeepsPlaces(w: seq<Json>, a: seq<Json>) {
    |a| == 8 && forall i: nat :: i in {0, 1, 2, 6, 7} ==> a[i] == Arg(w, i)
  }

  // The frame of a call without media.
  predicate CarriesPlain(codec: Codec, m: Made, a: seq<Json>) {
    var w := ArgsOf(m);
    match m.c
    case Send(_, _, _, _) => a == w
    case ToolResult(_, _) =>
      && KeepsPlaces(w, a)
      && a[3] == codec.sanitizeInline(Arg(w, 3)) && a[4] == codec.sanitizeBlocks(Arg(w, 4)) && a[5] == Arg(w, 5)
    case _ => a == codec.collapse(w)
  }

  // The redacted arguments, with the tool calls among them marked and nothing else touched:
  // a write that brings one tool call marks it, one that sets them all marks each.
  predicate RedactedAndMarked(codec: Codec, p: Port, m: string, w: seq<Json>, a: seq<Json>) {
    var safe := codec.redact(w);
    if p == Chat && (m == "appendMessageToolCall" || m == "appendToolCallContext") && |safe| >= 3 then
      |a| == 3 && a[..2] == safe[..2] && a[2] == codec.markFailed(safe[2])
    else if p == Chat && m == "setMessageToolCalls" && |safe| >= 3 && safe[2].List? then
      && |a| == 3 && a[..2] == safe[..2] && a[2].List? && |a[2].items| == |safe[2].items|
      && forall i :: 0 <= i < |safe[2].items| ==> a[2].items[i] == codec.markFailed(safe[2].items[i])
    else a == safe
  }

  // The frame of a call whose media came out of the encoder as r.
  predicate CarriesEncoded(codec: Codec, m: Made, r: EncodingResult, a: seq<Json>) {
    var w := ArgsOf(m);
    if m.c.ToolResult? then
      var content := if r.Encoded? then List(r.items) else Undefined;
      && KeepsPlaces(w, a)
      && if MediaFailed(codec, r) then a[3] == codec.mediaError && a[4] == Undefined && a[5] == Bool(true)
         else a[3] == codec.redactPaths(Arg(w, 3)) && a[4] == content && a[5] == Arg(w, 5)
    else
      match r
      case Encoded(items) => a == items
      case Failed => RedactedAndMarked(codec, PortOf(m.c), MethodOf(m.c), w, a)
      case NotAList => false
  }

  // f carries call m; media came out of an encoding that settled in this run.
  ghost predicate Carries(codec: Codec, events: seq<Event>, m: Made, f: PortFrame) {
    && f.p == PortOf(m.c) && f.m == MethodOf(m.c)
    && if !HasMedia(codec, m) then CarriesPlain(codec, m, f.a)
       else exists i :: 0 <= i < |events| && events[i].EncodingSettles? && CarriesEncoded(codec, m, events[i].r, f.a)
  }

  lemma {:induction false} IssuedAreMade(codec: Codec, h: Heap, events: seq<Event>)
    ensures |Issued(codec, h, events)| == |CallsMade(h, events)|
    ensures forall k :: 0 <= k < |CallsMade(h, events)| ==>
              Issued(codec, h, events)[k] == ItemOf(codec, CallsMade(h, events)[k].heap, CallsMade(h, events)[k].c)
  {
    if events != [] {
      IssuedAreMade(codec, h, events[..|events| - 1]);
    }
  }

  lemma PlainItems(codec: Codec, m: Made)
    ensures ItemOf(codec, m.heap, m.c).Ready? <==> !HasMedia(codec, m)
    ensures !HasMedia(codec, m) ==>
              var f := ItemOf(codec, m.heap, m.c).frame;
              f.p == PortOf(m.c) && f.m == MethodOf(m.c) && CarriesPlain(codec, m, f.a)
  {
  }

  lemma FailedArgs(codec: Codec, p: Port, m: string, w: seq<Json>)
    ensures RedactedAndMarked(codec, p, m, w, OutcomeFrame(codec, Encode(p, m, w), Failed).a)
  {
  }

  lemma EncodedItems(codec: Codec, m: Made, r: EncodingResult)
    requires HasMedia(codec, m) && CanSettle(ItemOf(codec, m.heap, m.c), r)
    ensures var f := OutcomeFrame(codec, ItemOf(codec, m.heap, m.c), r);
            f.p == PortOf(m.c) && f.m == MethodOf(m.c) && CarriesEncoded(codec, m, r, f.a)
  {
    if !m.c.ToolResult? && r.Failed? {
      FailedArgs(codec, PortOf(m.c), m.c.m, ArgsOf(m));
    }
  }

  // The frame delivered for an item: its own, or the outcome of an encoding of this run.
  ghost predicate Comes(codec: Codec, events: seq<Event>, item: Item, f: PortFrame) {
    if item.Ready? then f == item.frame
    else exists i :: 0 <= i < |events| && events[i].EncodingSettles? && CanSettle(item, events[i].r)
                     && f == OutcomeFrame(codec, item, events[i].r)
  }

  ghost predicate AllCome(codec: Codec, events: seq<Event>, issued: seq<Item>, t: Transport) {
    |t.delivered| <= |issued| && forall k :: 0 <= k < |t.delivered| ==> Comes(codec, events, issued[k], t.delivered[k])
  }

  lemma ComesLater(codec: Codec, events: seq<Event>, e: Event, item: Item, f: PortFrame)
    requires Comes(codec, events, item, f)
    ensures Comes(codec, events + [e], item, f)
  {
    if !item.Ready? {
      var i :| 0 <= i < |events| && events[i].EncodingSettles? && CanSettle(item, events[i].r)
               && f == OutcomeFrame(codec, item, events[i].r);
      assert (events + [e])[i] == events[i];
    }
  }

  // The one frame a step may deliver, and the item it is for.
  lemma StepDelivers(codec: Codec, issued: seq<Item>, t: Transport, e: Event)
    requires Structured(t) && Ordered(codec, issued, t)
    ensures var u := Step(codec, t, e);
            var more := issued + if e.CallMade? then [ItemOf(codec, t.heap, e.c)] else [];
            || u.delivered == t.delivered
            || (|t.delivered| < |more| && |u.delivered| == |t.delivered| + 1 && u.delivered[..|t.delivered|] == t.delivered
                && var item, f := more[|t.delivered|], u.delivered[|t.delivered|];
                   if item.Ready? then f == item.frame
                   else e.EncodingSettles? && CanSettle(item, e.r) && f == OutcomeFrame(codec, item, e.r))
  {
    if t.queue != [] && t.phase != Pushed {
      assert issued[|t.delivered|] == Undelivered(t)[0];
    }
  }

  lemma AllComeStep(codec: Codec, events: seq<Event>, issued: seq<Item>, t: Transport, e: Event)
    requires Structured(t) && Ordered(codec, issued, t) && AllCome(codec, events, issued, t)
    ensures var more := issued + if e.CallMade? then [ItemOf(codec, t.heap, e.c)] else [];
            AllCome(codec, events + [e], more, Step(codec, t, e))
  {
    var u, more := Step(codec, t, e), issued + if e.CallMade? then [ItemOf(codec, t.heap, e.c)] else [];
    StepDelivers(codec, issued, t, e);
    forall k | 0 <= k < |u.delivered|
      ensures Comes(codec, events + [e], more[k], u.delivered[k])
    {
      if k < |t.delivered| {
        assert u.delivered[k] == t.delivered[k] && more[k] == issued[k];
        ComesLater(codec, events, e, issued[k], t.delivered[k]);
      } else {
        assert (events + [e])[|events|] == e;
      }
    }
  }

  lemma {:induction false} FramesCome(codec: Codec, h: Heap, events: seq<Event>)
    ensures AllCome(codec, events, Issued(codec, h, events), Run(codec, h, events))
  {
    if events != [] {
      var init, e := events[..|events| - 1], events[|events| - 1];
      FramesCome(codec, h, init);
      OrderingBarrier(codec, h, init);
      AlwaysStructured(codec, h, init);
      HeapHistory(codec, h, init);
      AllComeStep(codec, init, Issued(codec, h, init), Run(codec, h, init), e);
      assert init + [e] == events;
    }
  }

  // In every run the k-th delivered frame carries the k-th call: its port and method, and
  // its arguments as they were when it was made. Without media only inline media is
  // collapsed; media is what an encoding of the run made of it, or redacted and marked if
  // that encoding failed.
  lemma CallsArriveAsMade(codec: Codec, h: Heap, events: seq<Event>, k: nat)
    requires k < |Run(codec, h, events).delivered|
    ensures k < |CallsMade(h, events)|
    ensures Carries(codec, events, CallsMade(h, events)[k], Run(codec, h, events).delivered[k])
  {
    FramesCome(codec, h, events);
    IssuedAreMade(codec, h, events);
    var m, f := CallsMade(h, events)[k], Run(codec, h, events).delivered[k];
    var item := ItemOf(codec, m.heap, m.c);
    assert Comes(codec, events, item, f);
    PlainItems(codec, m);
    if HasMedia(codec, m) {
      var i :| 0 <= i < |events| && events[i].EncodingSettles? && CanSettle(item, events[i].r)
               && f == OutcomeFrame(codec, item, events[i].r);
      EncodedItems(codec, m, events[i].r);
    }
  }

  // So a call of plain arguments, which collapsing leaves alone, arrives word for word.
  lemma PlainCallsArriveVerbatim(codec: Codec, h: Heap, events: seq<Event>, k: nat)
    requires k < |Run(codec, h, events).delivered| && k < |CallsMade(h, events)|
    requires var m := CallsMade(h, events)[k];
             !m.c.ToolResult? && !HasMedia(codec, m) && codec.collapse(ArgsOf(m)) == ArgsOf(m)
    ensures var m := CallsMade(h, events)[k];
            Run(codec, h, events).delivered[k] == PortFrame(PortOf(m.c), MethodOf(m.c), ArgsOf(m))
  {
    CallsArriveAsMade(codec, h, events, k);
  }

  lemma RedactionOnlyOnFailureStep(codec: Codec, redact: seq<Json> -> seq<Json>, markFailed: Json -> Json, t: Transport, e: Event)
    requires e != EncodingSettles(Failed)
    ensures Step(codec.(redact := redact, markFailed := markFailed), t, e) == Step(codec, t, e)
  {
    if e.EncodingSettles? && t.queue != [] && CanSettle(t.queue[0], e.r) {
      assert OutcomeFrame(codec.(redact := redact, markFailed := markFailed), t.queue[0], e.r)
          == OutcomeFrame(codec, t.queue[0], e.r);
    }
  }

  // While no encoding fails, redaction and failure marks leave no trace at all: another
  // redaction would give the very same run.
  lemma {:induction false} RedactionOnlyOnFailure(codec: Codec, redact: seq<Json> -> seq<Json>, markFailed: Json -> Json,
                                                  h: Heap, events: seq<Event>)
    requires EncodingSettles(Failed) !in events
    ensures Run(codec.(redact := redact, markFailed := markFailed), h, events) == Run(codec, h, events)
  {
    if events != [] {
      var init, e := events[..|events| - 1], events[|events| - 1];
      assert e in events && forall x :: x in init ==> x in events;
      RedactionOnlyOnFailure(codec, redact, markFailed, h, init);
      RedactionOnlyOnFailureStep(codec, redact, markFailed, Run(codec, h, init), e);
    }
  }

  // The heap a step leaves behind: its own writes over what was there.
  function WriteOf(e: Event): Heap {
    match e
    case CallMade(c) => c.write
    case MirrorWrites(write) => write
    case _ => map[]
  }

  // A live object holds what was last written to it, by a call's own apply or by the mirror.
  lemma {:induction false} LastWriteIsRead(h: Heap, events: seq<Event>, k: nat, o: nat)
    requires k < |events| && o in WriteOf(events[k]) && forall j :: k < j < |events| ==> o !in WriteOf(events[j])
    ensures Read(HeapAfter(h, events), Live(o)) == WriteOf(events[k])[o]
  {
    var init := events[..|events| - 1];
    if k < |init| {
      assert forall j :: 0 <= j < |init| ==> init[j] == events[j];
      LastWriteIsRead(h, init, k, o);
    }
  }
}
