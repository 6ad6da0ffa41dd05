/**
 The tables of requests waiting for an answer: the browser bridge's, whose requests
 have a timer and may have an abort signal, and the sidecar's, whose requests have
 no signal and some no timer. Both mint request ids from a counter.
 */
module PendingTable {
  import opened Wrappers

  // The counter value a request id was minted from; `RequestIds` shows the id determines it.
  datatype Ticket = Ticket(number: nat)

  datatype Signal = Signal(name: nat)

  datatype Entry = Entry(timed: bool, signal: Option<Signal>)

  datatype Listener = Listener(signal: Signal, ticket: Ticket)

  datatype Cause = Responded | TimedOut | Aborted | Disconnected | ShutDown

  // `outcomes` lists, for every request, each time its promise was settled.
  datatype Table = Table(
    counter: nat, pending: map<Ticket, Entry>, timers: set<Ticket>, listeners: set<Listener>,
    aborted: set<Signal>, outcomes: map<Ticket, seq<Cause>>)

  const EMPTY := Table(0, map[], {}, {}, {}, map[])

  // One more settlement for each of the requests.
  function Recorded(outcomes: map<Ticket, seq<Cause>>, ks: set<Ticket>, cause: Cause): map<Ticket, seq<Cause>> {
    map k | k in outcomes.Keys + ks :: (if k in outcomes then outcomes[k] else []) + (if k in ks then [cause] else [])
  }

  function Unlinked(listeners: set<Listener>, ks: set<Ticket>): set<Listener> {
    set l | l in listeners && l.ticket !in ks
  }

  // Settles requests and takes down what was set up for them.
  function Settle(t: Table, ks: set<Ticket>, cause: Cause): Table {
    t.(pending := t.pending - ks, timers := t.timers - ks,
       listeners := Unlinked(t.listeners, ks),
       outcomes := Recorded(t.outcomes, ks, cause))
  }

  function Waiting(t: Table, s: Signal): set<Ticket> {
    set l | l in t.listeners && l.signal == s :: l.ticket
  }

  datatype Event =
    | Register(timed: bool, signal: Option<Signal>)
    | Respond(k: Ticket)
    | TimerFires(k: Ticket)
    | Abort(s: Signal)
    | RejectAll(cause: Cause)

  // A request whose signal is already aborted is refused without being registered.
  function Step(t: Table, e: Event): Table {
    match e
    case Register(timed, signal) =>
      if signal.Some? && signal.value in t.aborted then t
      else
        var k := Ticket(t.counter + 1);
        t.(counter := t.counter + 1, pending := t.pending[k := Entry(timed, signal)],
           timers := if timed then t.timers + {k} else t.timers,
           listeners := if signal.Some? then t.listeners + {Listener(signal.value, k)} else t.listeners)
    case Respond(k) => if k in t.pending then Settle(t, {k}, Responded) else t
    case TimerFires(k) => if k in t.timers then Settle(t, {k}, TimedOut) else t
    case Abort(s) => if s in t.aborted then t else Settle(t, Waiting(t, s), Aborted).(aborted := t.aborted + {s})
    case RejectAll(cause) => Settle(t, t.pending.Keys, cause)
  }

  function RunFrom(t: Table, events: seq<Event>): Table {
    if events == [] then t else Step(RunFrom(t, events[..|events| - 1]), events[|events| - 1])
  }

  // A pending request has its entry, its timer and its listener; nothing else has any.
  ghost predicate PendingValid(t: Table, k: Ticket)
    requires k in t.pending
  {
    && 1 <= k.number <= t.counter
    && k !in t.outcomes
    && (k in t.timers <==> t.pending[k].timed)
    && (forall s :: Listener(s, k) in t.listeners <==> t.pending[k].signal == Some(s))
    && (t.pending[k].signal.Some? ==> t.pending[k].signal.value !in t.aborted)
  }

  ghost predicate Inv(t: Table) {
    && (forall k :: k in t.pending ==> PendingValid(t, k))
    && (forall k :: k in t.timers ==> k in t.pending)
    && (forall l :: l in t.listeners ==> l.ticket in t.pending)
    && (forall k :: k in t.outcomes ==> 1 <= k.number <= t.counter && |t.outcomes[k]| == 1)
    && (forall k: Ticket :: 1 <= k.number <= t.counter ==> k in t.pending || k in t.outcomes)
  }

  lemma SettleInv(t: Table, ks: set<Ticket>, cause: Cause)
    requires Inv(t) && forall k :: k in ks ==> k in t.pending
    ensures Inv(Settle(t, ks, cause))
  {
    var u := Settle(t, ks, cause);
    forall k | k in u.pending
      ensures PendingValid(u, k)
    {
      assert PendingValid(t, k);
    }
    forall k | k in ks
      ensures u.outcomes[k] == [cause]
    {
      assert PendingValid(t, k);
    }
  }

  lemma RegisterInv(t: Table, timed: bool, signal: Option<Signal>)
    requires Inv(t)
    ensures Inv(Step(t, Register(timed, signal)))
  {
    var u := Step(t, Register(timed, signal));
    forall k | k in u.pending
      ensures PendingValid(u, k)
    {
      if k in t.pending {
        assert PendingValid(t, k);
      }
    }
  }

  lemma AbortInv(t: Table, s: Signal)
    requires Inv(t) && s !in t.aborted
    ensures Inv(Step(t, Abort(s)))
  {
    var u := Settle(t, Waiting(t, s), Aborted);
    SettleInv(t, Waiting(t, s), Aborted);
    forall k | k in u.pending
      ensures PendingValid(u.(aborted := t.aborted + {s}), k)
    {
      assert PendingValid(u, k) && PendingValid(t, k);
      assert Listener(s, k) !in t.listeners;
    }
  }

  lemma StepInv(t: Table, e: Event)
    requires Inv(t)
    ensures Inv(Step(t, e))
  {
    match e {
      case Register(timed, signal) => RegisterInv(t, timed, signal);
      case Respond(k) => if k in t.pending { SettleInv(t, {k}, Responded); }
      case TimerFires(k) => if k in t.timers { SettleInv(t, {k}, TimedOut); }
      case Abort(s) => if s !in t.aborted { AbortInv(t, s); }
      case RejectAll(cause) => SettleInv(t, t.pending.Keys, cause);
    }
  }

  lemma {:induction false} AlwaysInv(t: Table, events: seq<Event>)
    requires Inv(t)
    ensures Inv(RunFrom(t, events))
  {
    if events != [] {
      AlwaysInv(t, events[..|events| - 1]);
      StepInv(RunFrom(t, events[..|events| - 1]), events[|events| - 1]);
    }
  }

  // In every run each request ever registered is either still pending or settled
  // exactly once, and of a settled one no entry, timer or listener is left.
  lemma EachSettlesOnce(events: seq<Event>, k: Ticket)
    requires 1 <= k.number <= RunFrom(EMPTY, events).counter
    ensures var t := RunFrom(EMPTY, events);
            if k in t.pending then k !in t.outcomes
            else && k in t.outcomes && |t.outcomes[k]| == 1
                 && k !in t.timers && forall s :: Listener(s, k) !in t.listeners
  {
    AlwaysInv(EMPTY, events);
    var t := RunFrom(EMPTY, events);
    if k in t.pending {
      assert PendingValid(t, k);
    }
  }

  // The events that may settle a request, and how.
  predicate Settles(e: Event, entry: Entry, k: Ticket, cause: Cause) {
    match e
    case Register(_, _) => false
    case Respond(r) => r == k && cause == Responded
    case TimerFires(r) => r == k && entry.timed && cause == TimedOut
    case Abort(s) => entry.signal == Some(s) && cause == Aborted
    case RejectAll(c) => cause == c
  }

  // A pending request is settled by an event that may settle it, with that event's
  // cause, and by no other: everything else leaves its entry as it was.
  lemma OnlyItsOwnEventsSettle(t: Table, e: Event, k: Ticket)
    requires Inv(t) && k in t.pending
    ensures var u := Step(t, e);
            if exists cause :: Settles(e, t.pending[k], k, cause)
            then k !in u.pending && k in u.outcomes && |u.outcomes[k]| == 1 && Settles(e, t.pending[k], k, u.outcomes[k][0])
            else k in u.pending && u.pending[k] == t.pending[k]
  {
    assert PendingValid(t, k);
    match e {
      case Register(_, _) =>
      case Respond(r) => assert Settles(e, t.pending[k], k, Responded) <==> r == k;
      case TimerFires(r) => assert Settles(e, t.pending[k], k, TimedOut) <==> r == k && k in t.timers;
      case Abort(s) =>
        assert Settles(e, t.pending[k], k, Aborted) <==> Listener(s, k) in t.listeners;
        assert k in Waiting(t, s) <==> Listener(s, k) in t.listeners;
      case RejectAll(c) => assert Settles(e, t.pending[k], k, c);
    }
  }

  // Late and duplicate answers, and stale timers, change nothing at all.
  lemma LateAnswersChangeNothing(t: Table, k: Ticket)
    requires Inv(t) && k !in t.pending
    ensures Step(t, Respond(k)) == t && Step(t, TimerFires(k)) == t
  {
  }

  // Once settled, always settled, and always the same way.
  lemma {:induction false} OutcomeStays(t: Table, events: seq<Event>, k: Ticket)
    requires Inv(t) && k in t.outcomes
    ensures var u := RunFrom(t, events);
            k in u.outcomes && u.outcomes[k] == t.outcomes[k] && k !in u.pending && k !in u.timers
  {
    if events != [] {
      var init := events[..|events| - 1];
      OutcomeStays(t, init, k);
      AlwaysInv(t, init);
      SettledUntouched(RunFrom(t, init), events[|events| - 1], k);
    } else {
      assert k in t.pending ==> PendingValid(t, k);
    }
  }

  lemma SettledUntouched(t: Table, e: Event, k: Ticket)
    requires Inv(t) && k in t.outcomes
    ensures var u := Step(t, e);
            k in u.outcomes && u.outcomes[k] == t.outcomes[k] && k !in u.pending && k !in u.timers
  {
    assert k in t.pending ==> PendingValid(t, k);
    StepInv(t, e);
    assert k !in t.pending && forall s :: k !in Waiting(t, s);
  }

  lemma AbortedStays(t: Table, e: Event, s: Signal)
    requires s in t.aborted || e == Abort(s)
    ensures s in Step(t, e).aborted
  {
  }

  // A signal that fired once counts as fired ever after: no request is registered under it
  // any more, so none is left waiting for a signal that will not fire again.
  lemma {:induction false} FiredSignalsRefuse(t: Table, events: seq<Event>, i: nat, s: Signal, timed: bool)
    requires i < |events| && events[i] == Abort(s)
    ensures var u := RunFrom(t, events); s in u.aborted && Step(u, Register(timed, Some(s))) == u
  {
    var init := events[..|events| - 1];
    if i < |init| {
      FiredSignalsRefuse(t, init, i, s, timed);
    }
    AbortedStays(RunFrom(t, init), events[|events| - 1], s);
  }

  ghost predicate IsRecorded(outcomes: map<Ticket, seq<Cause>>, ks: set<Ticket>, cause: Cause, now: map<Ticket, seq<Cause>>) {
    && now.Keys == outcomes.Keys + ks
    && forall k :: k in now ==> now[k] == (if k in outcomes then outcomes[k] else []) + (if k in ks then [cause] else [])
  }

  lemma NothingRecorded(outcomes: map<Ticket, seq<Cause>>, cause: Cause)
    ensures IsRecorded(outcomes, {}, cause, outcomes)
  {
    forall k | k in outcomes
      ensures outcomes[k] + [] == outcomes[k]
    {
    }
  }

  lemma RecordedIs(outcomes: map<Ticket, seq<Cause>>, ks: set<Ticket>, cause: Cause, now: map<Ticket, seq<Cause>>)
    requires IsRecorded(outcomes, ks, cause, now)
    ensures now == Recorded(outcomes, ks, cause)
  {
  }

  function Once(outcomes: map<Ticket, seq<Cause>>, k: Ticket, cause: Cause): map<Ticket, seq<Cause>> {
    outcomes[k := (if k in outcomes then outcomes[k] else []) + [cause]]
  }

  lemma OnceMore(outcomes: map<Ticket, seq<Cause>>, ks: set<Ticket>, cause: Cause, now: map<Ticket, seq<Cause>>, k: Ticket)
    requires IsRecorded(outcomes, ks, cause, now) && k !in ks
    ensures IsRecorded(outcomes, ks + {k}, cause, Once(now, k, cause))
  {
  }

  lemma OnceIs(outcomes: map<Ticket, seq<Cause>>, k: Ticket, cause: Cause)
    ensures Once(outcomes, k, cause) == Recorded(outcomes, {k}, cause)
  {
    RecordedIs(outcomes, {k}, cause, Once(outcomes, k, cause));
  }

  lemma RejectAllEmpties(t: Table, cause: Cause)
    ensures Step(t, RejectAll(cause))
         == t.(pending := map[], timers := t.timers - t.pending.Keys,
               listeners := Unlinked(t.listeners, t.pending.Keys),
               outcomes := Recorded(t.outcomes, t.pending.Keys, cause))
  {
    assert t.pending - t.pending.Keys == map[];
  }

  // Clears the timer of every request of a set, takes its listener off and settles it.
  method RejectEach(ks: set<Ticket>, timers: set<Ticket>, listeners: set<Listener>,
                    ghost outcomes: map<Ticket, seq<Cause>>, cause: Cause)
      returns (left: set<Ticket>, linked: set<Listener>, ghost now: map<Ticket, seq<Cause>>)
    ensures left == timers - ks && linked == Unlinked(listeners, ks)
    ensures now == Recorded(outcomes, ks, cause)
  {
    left, linked, now := timers, listeners, outcomes;
    var todo := ks;
    NothingRejected(ks, timers, listeners, outcomes, cause);
    while todo != {}
      invariant todo <= ks && Rejecting(ks - todo, timers, left, listeners, linked, outcomes, now, cause)
      decreases |todo|
    {
      var k :| k in todo;
      OneRejected(ks, todo, timers, left, listeners, linked, outcomes, now, cause, k);
      left, linked, now, todo := left - {k}, Unlinked(linked, {k}), Once(now, k, cause), todo - {k};
    }
    AllRejected(ks, timers, left, listeners, linked, outcomes, now, cause);
  }

  ghost predicate Rejecting(done: set<Ticket>, timers: set<Ticket>, left: set<Ticket>,
                            listeners: set<Listener>, linked: set<Listener>,
                            outcomes: map<Ticket, seq<Cause>>, now: map<Ticket, seq<Cause>>, cause: Cause) {
    left == timers - done && linked == Unlinked(listeners, done) && IsRecorded(outcomes, done, cause, now)
  }

  lemma NothingRejected(ks: set<Ticket>, timers: set<Ticket>, listeners: set<Listener>,
                        outcomes: map<Ticket, seq<Cause>>, cause: Cause)
    ensures Rejecting(ks - ks, timers, timers, listeners, listeners, outcomes, outcomes, cause)
  {
    NothingRecorded(outcomes, cause);
    assert ks - ks == {} && Unlinked(listeners, {}) == listeners;
  }

  lemma OneRejected(ks: set<Ticket>, todo: set<Ticket>, timers: set<Ticket>, left: set<Ticket>,
                    listeners: set<Listener>, linked: set<Listener>,
                    outcomes: map<Ticket, seq<Cause>>, now: map<Ticket, seq<Cause>>, cause: Cause, k: Ticket)
    requires todo <= ks && k in todo && Rejecting(ks - todo, timers, left, listeners, linked, outcomes, now, cause)
    ensures Rejecting(ks - (todo - {k}), timers, left - {k}, listeners, Unlinked(linked, {k}),
                      outcomes, Once(now, k, cause), cause)
  {
    assert ks - (todo - {k}) == (ks - todo) + {k};
    assert Unlinked(Unlinked(listeners, ks - todo), {k}) == Unlinked(listeners, (ks - todo) + {k});
    OnceMore(outcomes, ks - todo, cause, now, k);
  }

  lemma AllRejected(ks: set<Ticket>, timers: set<Ticket>, left: set<Ticket>,
                    listeners: set<Listener>, linked: set<Listener>,
                    outcomes: map<Ticket, seq<Cause>>, now: map<Ticket, seq<Cause>>, cause: Cause)
    requires Rejecting(ks - {}, timers, left, listeners, linked, outcomes, now, cause)
    ensures left == timers - ks && linked == Unlinked(listeners, ks) && now == Recorded(outcomes, ks, cause)
  {
    assert ks - {} == ks;
    RecordedIs(outcomes, ks, cause, now);
  }

  // A request, with nothing to take down but a timer, leaves the table of the sidecar.
  class RpcClient {
    var counter: nat
    var pending: map<Ticket, Entry>
    var timers: set<Ticket>
    ghost var outcomes: map<Ticket, seq<Cause>>

    ghost function View(): Table
      reads this
    {
      Table(counter, pending, timers, {}, {}, outcomes)
    }

    constructor ()
      ensures View() == EMPTY
    {
      counter, pending, timers, outcomes := 0, map[], {}, map[];
    }

    ghost method Record(k: Ticket, cause: Cause)
      modifies this`outcomes
      ensures outcomes == Recorded(old(outcomes), {k}, cause)
    {
      OnceIs(outcomes, k, cause);
      outcomes := Once(outcomes, k, cause);
    }

    // `timed` is false for the methods whose duration belongs to the user.
    method SendRequest(timed: bool) returns (k: Ticket)
      modifies this
      ensures View() == Step(old(View()), Register(timed, None))
      ensures k == Ticket(old(counter) + 1)
    {
      counter := counter + 1;
      k := Ticket(counter);
      if timed { timers := timers + {k}; }
      pending := pending[k := Entry(timed, None)];
    }

    method ResolvePendingResponse(k: Ticket)
      modifies this
      ensures View() == Step(old(View()), Respond(k))
    {
      if k !in pending { return; }
      Record(k, Responded);
      pending := pending - {k};
      timers := timers - {k};
    }

    // The timer's own guard never matters: an armed timer has its entry.
    method TimerFired(k: Ticket)
      requires Inv(View())
      modifies this
      ensures View() == Step(old(View()), TimerFires(k))
    {
      if k !in timers { return; }
      Record(k, TimedOut);
      timers := timers - {k};
      if k !in pending { return; }
      pending := pending - {k};
    }

    method RejectAllPending(cause: Cause)
      modifies this
      ensures View() == Step(old(View()), RejectAll(cause))
    {
      RejectAllEmpties(View(), cause);
      var linked;
      timers, linked, outcomes := RejectEach(pending.Keys, timers, {}, outcomes, cause);
      pending := map[];
    }
  }
}
