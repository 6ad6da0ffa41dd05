/** The bridge over whole runs: which socket is in use, and what each event does to the waiting requests. */
module BridgeRuns {
  import opened Wrappers
  import opened PendingTable
  import opened BridgeServer

  predicate Uses(b: Bridge, s: Socket) { IsConnected(b) && b.current == Some(s) }

  // What ends the use of a socket: its own end, a newer connection, silence, a shutdown.
  predicate EndsUse(b: Bridge, e: BridgeEvent, s: Socket) {
    Happens(b, e) && (e.Connected? || e == PeerCloses(s) || e == BridgeEvent.Closed(s) || e.HeartbeatLost? || e.Stopped?)
  }

  lemma UseStep(b: Bridge, e: BridgeEvent, s: Socket)
    ensures Uses(BridgeStep(b, e), s) <==> (Happens(b, e) && e == Connected(s)) || (Uses(b, s) && !EndsUse(b, e, s))
  {
  }

  // Socket s connected at step i, and nothing since has ended its use.
  ghost predicate InUse(events: seq<BridgeEvent>, i: nat, s: Socket) {
    && i < |events| && events[i] == Connected(s) && Happens(BridgeRun(events[..i]), events[i])
    && forall j :: i < j < |events| ==> !EndsUse(BridgeRun(events[..j]), events[j], s)
  }

  lemma InUseSnoc(events: seq<BridgeEvent>, e: BridgeEvent, i: nat, s: Socket)
    ensures InUse(events + [e], i, s) <==>
              if i == |events| then e == Connected(s) && Happens(BridgeRun(events), e)
              else InUse(events, i, s) && !EndsUse(BridgeRun(events), e, s)
  {
    var more := events + [e];
    assert more[..|events|] == events;
    forall j | 0 <= j < |events|
      ensures more[..j] == events[..j] && more[j] == events[j]
    {
    }
    if i < |events| && InUse(more, i, s) {
      assert !EndsUse(BridgeRun(more[..|events|]), more[|events|], s);
      forall j | i < j < |events|
        ensures !EndsUse(BridgeRun(events[..j]), events[j], s)
      {
        assert !EndsUse(BridgeRun(more[..j]), more[j], s);
      }
    }
  }

  // The bridge is connected over exactly the socket that connected last, for as long as
  // nothing has ended its use; requests go out over no other.
  lemma {:induction false} ConnectedExactly(events: seq<BridgeEvent>, s: Socket)
    ensures Uses(BridgeRun(events), s) <==> exists i: nat :: InUse(events, i, s)
  {
    if events != [] {
      var init, e := events[..|events| - 1], events[|events| - 1];
      ConnectedExactly(init, s);
      UseStep(BridgeRun(init), e, s);
      assert init + [e] == events;
      InUseSnoc(init, e, |init|, s);
      forall i: nat
        ensures InUse(init + [e], i, s) <==>
                  if i == |init| then e == Connected(s) && Happens(BridgeRun(init), e)
                  else InUse(init, i, s) && !EndsUse(BridgeRun(init), e, s)
      {
        InUseSnoc(init, e, i, s);
      }
    }
  }

  // One connection at a time: no socket but the current one is open, and a current one has
  // connected and not closed.
  ghost predicate OneAtATime(b: Bridge) {
    && (forall s :: s in b.open ==> b.current == Some(s))
    && (b.current.Some? ==> b.current.value in b.live)
  }

  lemma {:induction false} AlwaysOneAtATime(events: seq<BridgeEvent>)
    ensures OneAtATime(BridgeRun(events))
  {
    if events != [] {
      AlwaysOneAtATime(events[..|events| - 1]);
    }
  }

  // A socket is live from its connection to its close, and never again.
  lemma LiveStep(b: Bridge, e: BridgeEvent, s: Socket)
    requires b.live <= b.seen
    ensures var c := BridgeStep(b, e);
            && c.live <= c.seen && (s in b.seen ==> s in c.seen)
            && (s in c.live <==> (e == Connected(s) && s !in b.seen) || (s in b.live && e != BridgeEvent.Closed(s)))
  {
  }

  lemma {:induction false} ClosedForGood(events: seq<BridgeEvent>, i: nat, j: nat, s: Socket)
    requires i < j <= |events| && events[i] == BridgeEvent.Closed(s) && Happens(BridgeRun(events[..i]), events[i])
    ensures s !in BridgeRun(events[..j]).live && s in BridgeRun(events[..j]).seen
    ensures forall e :: e in {Connected(s), PeerCloses(s), BridgeEvent.Closed(s)} ==> !Happens(BridgeRun(events[..j]), e)
    decreases j
  {
    AlwaysOverLive(events[..j - 1]);
    var b := BridgeRun(events[..j - 1]);
    assert events[..j][..j - 1] == events[..j - 1];
    LiveStep(b, events[j - 1], s);
    if j > i + 1 {
      ClosedForGood(events, i, j - 1, s);
    }
  }

  // What an event settles a waiting request with, if it settles it.
  function SettledBy(b: Bridge, e: BridgeEvent, k: Ticket, entry: Entry): Option<Cause> {
    match e
    case Answered(j) => if j == k then Some(Responded) else None
    case TimerFired(j) => if j == k then Some(TimedOut) else None
    case SignalAborted(s) => if entry.signal == Some(s) then Some(Aborted) else None
    case Closed(_) => Some(Disconnected)
    case Stopped => Some(ShutDown)
    case _ => None
  }

  lemma SettlingStep(t: Table, x: PendingTable.Event, k: Ticket, cause: Cause)
    requires Inv(t) && k in t.pending && Settles(x, t.pending[k], k, cause)
    ensures var u := PendingTable.Step(t, x);
            k !in u.pending && k in u.outcomes && |u.outcomes[k]| == 1 && Settles(x, t.pending[k], k, u.outcomes[k][0])
  {
    OnlyItsOwnEventsSettle(t, x, k);
  }

  lemma QuietStep(t: Table, x: PendingTable.Event, k: Ticket)
    requires Inv(t) && k in t.pending && forall cause :: !Settles(x, t.pending[k], k, cause)
    ensures var u := PendingTable.Step(t, x); k in u.pending && u.pending[k] == t.pending[k]
  {
    OnlyItsOwnEventsSettle(t, x, k);
  }

  // Every request of the bridge has a timer.
  ghost predicate AllTimed(t: Table) { forall k :: k in t.pending ==> t.pending[k].timed }

  lemma TimedStep(b: Bridge, e: BridgeEvent)
    requires AllTimed(b.table)
    ensures AllTimed(BridgeStep(b, e).table)
  {
  }

  lemma {:induction false} AlwaysTimed(events: seq<BridgeEvent>)
    ensures AllTimed(BridgeRun(events).table)
  {
    if events != [] {
      AlwaysTimed(events[..|events| - 1]);
      TimedStep(BridgeRun(events[..|events| - 1]), events[|events| - 1]);
    }
  }

  // In every reachable state: its own answer, its own timer, its own signal, any close and
  // a shutdown settle a waiting request, each with its own cause; no other event does.
  lemma EachEventSettlesItsOwn(events: seq<BridgeEvent>, e: BridgeEvent, k: Ticket)
    requires k in BridgeRun(events).table.pending && Happens(BridgeRun(events), e)
    ensures var b, c := BridgeRun(events), BridgeStep(BridgeRun(events), e);
            var cause := SettledBy(b, e, k, b.table.pending[k]);
            if cause.Some? then k !in c.table.pending && k in c.table.outcomes && c.table.outcomes[k] == [cause.value]
            else k in c.table.pending && c.table.pending[k] == b.table.pending[k]
  {
    var b := BridgeRun(events);
    BridgeInv(events);
    AlwaysTimed(events);
    var x, cause := TableEvent(b, e), SettledBy(b, e, k, b.table.pending[k]);
    if x.Some? {
      if cause.Some? {
        SettlingStep(b.table, x.value, k, cause.value);
      } else {
        QuietStep(b.table, x.value, k);
      }
    }
  }
}
