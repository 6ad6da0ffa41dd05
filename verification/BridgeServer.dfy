/** The bridge's side of the extension socket: one connection at a time, and the requests waiting on it. */
module BridgeServer {
  import opened Wrappers
  import opened PendingTable

  datatype Socket = Socket(number: nat)

  /**
   `open` holds the sockets in state OPEN; a socket told to close, or whose peer begins
   to close, leaves it at once, and its `close` event comes later. `seen` holds every socket that ever connected,
   `live` those whose `close` event has not come, `via` the socket each request was
   sent over.
   */
  datatype Bridge = Bridge(
    table: Table, current: Option<Socket>, open: set<Socket>,
    seen: set<Socket>, live: set<Socket>, via: map<Ticket, Socket>)

  const START := Bridge(EMPTY, None, {}, {}, {}, map[])

  datatype BridgeEvent =
    | Connected(s: Socket)
    | PeerCloses(s: Socket)
    | Closed(s: Socket)
    | HeartbeatLost
    | Sent(signal: Option<Signal>)
    | Answered(k: Ticket)
    | TimerFired(k: Ticket)
    | SignalAborted(signalled: Signal)
    | Stopped

  predicate IsConnected(b: Bridge) {
    b.current.Some? && b.current.value in b.open
  }

  // A socket connects once, and closes once after that.
  predicate Happens(b: Bridge, e: BridgeEvent) {
    match e
    case Connected(s) => s !in b.seen
    case PeerCloses(s) => s in b.live
    case Closed(s) => s in b.live
    case _ => true
  }

  // What an event does to the table, if it reaches it.
  function TableEvent(b: Bridge, e: BridgeEvent): Option<PendingTable.Event> {
    match e
    case Connected(_) => None
    case PeerCloses(_) => None
    case Closed(_) => Some(RejectAll(Disconnected))
    case HeartbeatLost => None
    case Sent(signal) => if IsConnected(b) then Some(Register(true, signal)) else None
    case Answered(k) => Some(Respond(k))
    case TimerFired(k) => Some(TimerFires(k))
    case SignalAborted(s) => Some(PendingTable.Event.Abort(s))
    case Stopped => Some(RejectAll(ShutDown))
  }

  function TableAfter(b: Bridge, e: BridgeEvent): Table {
    match TableEvent(b, e)
    case None => b.table
    case Some(x) => PendingTable.Step(b.table, x)
  }

  function Hung(b: Bridge): set<Socket> {
    if b.current.Some? then {b.current.value} else {}
  }

  function SocketsAfter(b: Bridge, e: BridgeEvent): Bridge {
    match e
    case Connected(s) =>
      b.(current := Some(s), open := b.open - Hung(b) + {s}, seen := b.seen + {s}, live := b.live + {s})
    case PeerCloses(s) => b.(open := b.open - {s})
    case Closed(s) =>
      b.(current := if b.current == Some(s) then None else b.current, open := b.open - {s}, live := b.live - {s})
    case HeartbeatLost => if IsConnected(b) then b.(current := None, open := b.open - Hung(b)) else b
    case Sent(signal) =>
      if IsConnected(b) && !(signal.Some? && signal.value in b.table.aborted)
      then b.(via := b.via[Ticket(b.table.counter + 1) := b.current.value]) else b
    case Stopped => b.(current := None, open := b.open - Hung(b))
    case _ => b
  }

  function BridgeStep(b: Bridge, e: BridgeEvent): Bridge {
    if Happens(b, e) then SocketsAfter(b, e).(table := TableAfter(b, e)) else b
  }

  function BridgeRun(events: seq<BridgeEvent>): Bridge {
    if events == [] then START else BridgeStep(BridgeRun(events[..|events| - 1]), events[|events| - 1])
  }

  // Every run of the bridge is a run of its table.
  lemma {:induction false} BridgeRunsTable(events: seq<BridgeEvent>) returns (inner: seq<PendingTable.Event>)
    ensures BridgeRun(events).table == RunFrom(EMPTY, inner)
  {
    if events == [] {
      inner := [];
    } else {
      var init, e := events[..|events| - 1], events[|events| - 1];
      inner := BridgeRunsTable(init);
      var step := TableEvent(BridgeRun(init), e);
      if step.Some? && Happens(BridgeRun(init), e) {
        assert (inner + [step.value])[..|inner|] == inner;
        inner := inner + [step.value];
      }
    }
  }

  lemma BridgeInv(events: seq<BridgeEvent>)
    ensures Inv(BridgeRun(events).table)
  {
    var inner := BridgeRunsTable(events);
    AlwaysInv(EMPTY, inner);
  }

  // So every request the bridge ever sent is pending or settled exactly once, and of
  // a settled one nothing is left.
  lemma BridgeSettlesOnce(events: seq<BridgeEvent>, k: Ticket)
    requires 1 <= k.number <= BridgeRun(events).table.counter
    ensures var t := BridgeRun(events).table;
            && Inv(t)
            && if k in t.pending then k !in t.outcomes
               else && k in t.outcomes && |t.outcomes[k]| == 1
                    && k !in t.timers && forall s :: Listener(s, k) !in t.listeners
  {
    var inner := BridgeRunsTable(events);
    BridgeInv(events);
    EachSettlesOnce(inner, k);
  }

  // A new ticket is new to everything the table holds.
  lemma NewTicketIsFresh(t: Table)
    requires Inv(t)
    ensures var k := Ticket(t.counter + 1); k !in t.pending && k !in t.outcomes && k !in t.timers
  {
    forall j | j in t.pending
      ensures j.number <= t.counter
    {
      assert PendingValid(t, j);
    }
  }

  // What a request to send comes to: registered, timed and filed under its socket, or nothing.
  ghost predicate SentRightly(b: Bridge, signal: Option<Signal>, c: Bridge) {
    var k := Ticket(b.table.counter + 1);
    && k !in b.table.pending && k !in b.table.outcomes
    && if IsConnected(b) && !(signal.Some? && signal.value in b.table.aborted)
       then k in c.table.pending && k in c.table.timers && k in c.via && c.via[k] == b.current.value
       else c == b
  }

  lemma SentStep(b: Bridge, signal: Option<Signal>)
    requires Inv(b.table)
    ensures SentRightly(b, signal, BridgeStep(b, Sent(signal)))
  {
    NewTicketIsFresh(b.table);
  }

  // A request goes out only over an open connection, and not at all once its signal has fired.
  lemma SentOnlyWhenConnected(events: seq<BridgeEvent>, signal: Option<Signal>)
    ensures SentRightly(BridgeRun(events), signal, BridgeStep(BridgeRun(events), Sent(signal)))
  {
    BridgeInv(events);
    SentStep(BridgeRun(events), signal);
  }

  // What is pending was sent over a socket that has not closed yet.
  ghost predicate PendingOverLive(b: Bridge) {
    && b.open <= b.live <= b.seen
    && forall k :: k in b.table.pending ==> k in b.via && b.via[k] in b.live
  }

  lemma PendingOnlyGrowsBySending(t: Table, e: PendingTable.Event, k: Ticket)
    requires k in PendingTable.Step(t, e).pending
    ensures k in t.pending || (e.Register? && k == Ticket(t.counter + 1))
    ensures !e.RejectAll?
  {
  }

  lemma StepOverLive(b: Bridge, e: BridgeEvent)
    requires PendingOverLive(b)
    ensures PendingOverLive(BridgeStep(b, e))
  {
    var c := BridgeStep(b, e);
    forall k | k in c.table.pending
      ensures k in c.via && c.via[k] in c.live
    {
      if TableEvent(b, e).Some? && Happens(b, e) {
        PendingOnlyGrowsBySending(b.table, TableEvent(b, e).value, k);
      }
    }
  }

  lemma {:induction false} AlwaysOverLive(events: seq<BridgeEvent>)
    ensures PendingOverLive(BridgeRun(events))
  {
    if events != [] {
      AlwaysOverLive(events[..|events| - 1]);
      StepOverLive(BridgeRun(events[..|events| - 1]), events[|events| - 1]);
    }
  }

  // Event i takes request k out of the table as disconnected.
  predicate DisconnectsAt(events: seq<BridgeEvent>, i: nat, k: Ticket) {
    && i < |events|
    && var b, c := BridgeRun(events[..i]), BridgeStep(BridgeRun(events[..i]), events[i]);
       k in b.table.pending && k in c.table.outcomes && c.table.outcomes[k] == [Disconnected]
  }

  // What one would expect: a request is rejected as disconnected only when the socket
  // it was sent over closes.
  ghost predicate OnlyOwnCloseRejects(events: seq<BridgeEvent>) {
    forall i: nat, k :: DisconnectsAt(events, i, k) ==>
                     && events[i].Closed? && k in BridgeRun(events[..i]).via
                     && BridgeRun(events[..i]).via[k] == events[i].s
  }

  // Every close finds only requests that were sent over the closing socket.
  predicate FindsOwn(b: Bridge, e: BridgeEvent) {
    e.Closed? && Happens(b, e) ==> forall k :: k in b.table.pending ==> k in b.via && b.via[k] == e.s
  }

  ghost predicate ClosesFindOwn(events: seq<BridgeEvent>) {
    forall i :: 0 <= i < |events| ==> FindsOwn(BridgeRun(events[..i]), events[i])
  }

  // A close disconnects all that is pending, and nothing else disconnects anything.
  lemma DisconnectsExactly(events: seq<BridgeEvent>, i: nat, k: Ticket)
    requires i < |events|
    ensures var b := BridgeRun(events[..i]);
            DisconnectsAt(events, i, k) <==> events[i].Closed? && Happens(b, events[i]) && k in b.table.pending
  {
    var b, e := BridgeRun(events[..i]), events[i];
    BridgeInv(events[..i]);
    if k in b.table.pending {
      assert PendingValid(b.table, k);
      if TableEvent(b, e).Some? {
        OnlyItsOwnEventsSettle(b.table, TableEvent(b, e).value, k);
        if e.Closed? {
          assert Settles(RejectAll(Disconnected), b.table.pending[k], k, Disconnected);
        }
      }
    }
  }

  // Over all runs: the expectation holds if and only if no close finds a request
  // pending that was sent over another socket.
  lemma OwnCloseRejectsExactly(events: seq<BridgeEvent>)
    ensures OnlyOwnCloseRejects(events) <==> ClosesFindOwn(events)
  {
    if ClosesFindOwn(events) {
      forall i: nat, k | DisconnectsAt(events, i, k)
        ensures events[i].Closed? && k in BridgeRun(events[..i]).via && BridgeRun(events[..i]).via[k] == events[i].s
      {
        DisconnectsExactly(events, i, k);
        assert FindsOwn(BridgeRun(events[..i]), events[i]);
      }
    }
    if OnlyOwnCloseRejects(events) {
      forall i | 0 <= i < |events|
        ensures FindsOwn(BridgeRun(events[..i]), events[i])
      {
        var b := BridgeRun(events[..i]);
        forall k | k in b.table.pending && events[i].Closed? && Happens(b, events[i])
          ensures k in b.via && b.via[k] == events[i].s
        {
          DisconnectsExactly(events, i, k);
        }
      }
    }
  }

  // Connections do not overlap: none comes before the close of the last one has.
  ghost predicate NoOverlap(events: seq<BridgeEvent>) {
    forall i :: 0 <= i < |events| ==> (events[i].Connected? ==> BridgeRun(events[..i]).live == {})
  }

  lemma {:induction false} OneLiveSocket(events: seq<BridgeEvent>)
    requires NoOverlap(events)
    ensures forall p, q :: p in BridgeRun(events).live && q in BridgeRun(events).live ==> p == q
  {
    if events != [] {
      var init := events[..|events| - 1];
      assert forall i :: 0 <= i < |init| ==> init[..i] == events[..i] && init[i] == events[i];
      OneLiveSocket(init);
    }
  }

  // It always holds while connections do not overlap.
  lemma WithoutOverlapCloseIsOwn(events: seq<BridgeEvent>)
    requires NoOverlap(events)
    ensures OnlyOwnCloseRejects(events)
  {
    forall i | 0 <= i < |events|
      ensures FindsOwn(BridgeRun(events[..i]), events[i])
    {
      var init := events[..i];
      assert forall j :: 0 <= j < i ==> init[..j] == events[..j] && init[j] == events[j];
      OneLiveSocket(init);
      AlwaysOverLive(init);
    }
    OwnCloseRejectsExactly(events);
  }

  lemma RunSnoc(events: seq<BridgeEvent>, e: BridgeEvent)
    ensures BridgeRun(events + [e]) == BridgeStep(BridgeRun(events), e)
  {
    assert (events + [e])[..|events|] == events;
  }

  // It fails when a replaced connection closes late: the request sent over the new
  // connection is rejected as disconnected, and that connection is still there.
  lemma LateCloseRejectsNewRequests()
    ensures var events := [Connected(Socket(0)), Connected(Socket(1)), Sent(None), Closed(Socket(0))];
            var b, k := BridgeRun(events), Ticket(1);
            && k in b.via && b.via[k] == Socket(1) && IsConnected(b) && b.current == Some(Socket(1))
            && DisconnectsAt(events, 3, k) && !OnlyOwnCloseRejects(events)
  {
    var a, b, c, d := Connected(Socket(0)), Connected(Socket(1)), Sent(None), Closed(Socket(0));
    var events := [a, b, c, d];
    assert events[..1] == [] + [a] && events[..2] == [a] + [b] && events[..3] == [a, b] + [c] && events == [a, b, c] + [d];
    RunSnoc([], a);
    RunSnoc([a], b);
    RunSnoc([a, b], c);
    RunSnoc([a, b, c], d);
    var s := BridgeRun([a, b, c]);
    assert s.current == Some(Socket(1)) && s.live == {Socket(0), Socket(1)} && Ticket(1) in s.table.pending;
    DisconnectsExactly(events, 3, Ticket(1));
  }

  // The module state of the bridge process. The last three fields are history.
  class WsServer {
    var counter: nat
    var pending: map<Ticket, Entry>
    var timers: set<Ticket>
    var listeners: set<Listener>
    var aborted: set<Signal>
    var current: Option<Socket>
    var open: set<Socket>
    ghost var outcomes: map<Ticket, seq<Cause>>
    ghost var seen: set<Socket>
    ghost var live: set<Socket>
    ghost var via: map<Ticket, Socket>

    ghost function View(): Bridge
      reads this
    {
      Bridge(Table(counter, pending, timers, listeners, aborted, outcomes), current, open, seen, live, via)
    }

    constructor ()
      ensures View() == START
    {
      counter, pending, timers, listeners, aborted := 0, map[], {}, {}, {};
      current, open, outcomes, seen, live, via := None, {}, map[], {}, {}, map[];
    }

    // Takes requests out of the table, with everything set up for them, and settles them.
    method SettleEach(ks: set<Ticket>, cause: Cause)
      modifies this`pending, this`timers, this`listeners, this`outcomes
      ensures View() == old(View()).(table := Settle(old(View()).table, ks, cause))
    {
      timers, listeners, outcomes := RejectEach(ks, timers, listeners, outcomes, cause);
      pending := pending - ks;
    }

    // The new connection replaces an open one, which is told to close.
    method OnConnection(s: Socket)
      requires s !in seen
      modifies this
      ensures View() == BridgeStep(old(View()), Connected(s))
    {
      if current.Some? && current.value in open { open := open - {current.value}; }
      current, open := Some(s), open + {s};
      seen, live := seen + {s}, live + {s};
    }

    // The socket's own state changes before its `close` event comes; no code of the bridge runs.
    method LeaveOpen(s: Socket)
      requires s in live
      modifies this`open
      ensures View() == BridgeStep(old(View()), PeerCloses(s))
    {
      open := open - {s};
    }

    method OnClose(s: Socket)
      requires s in live
      modifies this
      ensures View() == BridgeStep(old(View()), Closed(s))
    {
      if current == Some(s) { current := None; }
      open, live := open - {s}, live - {s};
      SettleEach(pending.Keys, Disconnected);
    }

    method OnHeartbeatLost()
      modifies this
      ensures View() == BridgeStep(old(View()), HeartbeatLost)
    {
      if current.Some? && current.value in open {
        open := open - {current.value};
        current := None;
      }
    }

    // None when the request is refused: no connection, or its signal has fired already.
    method SendToExtension(signal: Option<Signal>) returns (sent: Option<Ticket>)
      modifies this
      ensures View() == BridgeStep(old(View()), Sent(signal))
      ensures sent == if View().table.counter > old(View()).table.counter then Some(Ticket(View().table.counter)) else None
    {
      if current.None? || current.value !in open { return None; }
      if signal.Some? && signal.value in aborted { return None; }
      counter := counter + 1;
      var k := Ticket(counter);
      if signal.Some? { listeners := listeners + {Listener(signal.value, k)}; }
      timers := timers + {k};
      pending := pending[k := Entry(true, signal)];
      via := via[k := current.value];
      sent := Some(k);
    }

    method HandleResponse(k: Ticket)
      modifies this
      ensures View() == BridgeStep(old(View()), Answered(k))
    {
      if k !in pending { return; }
      SettleEach({k}, Responded);
    }

    method OnTimer(k: Ticket)
      modifies this
      ensures View() == BridgeStep(old(View()), TimerFired(k))
    {
      if k !in timers { return; }
      SettleEach({k}, TimedOut);
    }

    // An abort signal fires once, and calls every listener still on it.
    method OnSignalAborted(s: Signal)
      modifies this
      ensures View() == BridgeStep(old(View()), SignalAborted(s))
    {
      if s in aborted { return; }
      SettleEach(set l | l in listeners && l.signal == s :: l.ticket, Aborted);
      aborted := aborted + {s};
    }

    method Stop()
      modifies this
      ensures View() == BridgeStep(old(View()), Stopped)
    {
      SettleEach(pending.Keys, ShutDown);
      if current.Some? { open := open - {current.value}; }
      current := None;
    }
  }
}
