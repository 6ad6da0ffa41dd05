/**
 The Reliable Run Protocol registry: starts, replays, starts still reading their
 ledger history, runs, early aborts, terminal facts and pruning.

 Three fields exist only to state results: `gen` numbers every start that took
 ownership of a runId, so equal numbers mean the same start retained throughout;
 `loops` and `notices` count an entry's loop starts and terminal notifications.
 */
module RunRegistry {
  import opened Wrappers

  const MAX_ENTRIES := 128
  const TERMINAL_TTL_MS := 60 * 60 * 1000
  const ACCEPTED_TTL_MS := 10 * 60 * 1000

  type RunId = string

  datatype RunState = Accepted | Running | Finished

  datatype LoopResult = Aborted | Completed(text: string) | Errored(message: string)

  datatype Identity = Identity(payloadDigest: string, clientMessageId: string)

  datatype Entry = Entry(
    gen: nat, id: Identity, fromLedger: bool, acceptedAt: int, state: RunState,
    cancelRequested: bool, terminal: Option<LoopResult>, terminalAt: int, loops: nat, notices: nat)

  // A ledger start whose history is still being read.
  datatype PendingStart = PendingStart(gen: nat, id: Identity, cancel: bool)

  datatype Registry = Registry(
    entries: map<RunId, Entry>, pending: map<RunId, PendingStart>, active: set<RunId>,
    nextGen: nat)

  const EMPTY := Registry(map[], map[], {}, 0)

  datatype Event =
    | Start(r: RunId, id: Identity, ledger: bool, now: int)
    | HistoryRead(r: RunId, ok: bool, now: int)
    | RunRequest(r: RunId, id: Identity, compact: bool, now: int)
    | LoopSettles(r: RunId, result: LoopResult, now: int)
    | Abort(r: RunId)
    | GetState(r: RunId)

  datatype Response =
    | Acked(state: RunState, terminal: Option<LoopResult>, replay: bool)
    | Reading
    | Joined
    | Invalid
    | Conflict
    | HistoryUnavailable
    | NeedsStart
    | CompactRefused
    | AlreadyActive
    | LoopStarted
    | Result(result: LoopResult)
    | AbortAccepted
    | NotFound
    | Observed(state: RunState, terminal: Option<LoopResult>)
    | Nothing

  function AckOf(e: Entry, replay: bool): Response {
    Acked(e.state, e.terminal, replay)
  }

  function Accept(s: Registry, r: RunId, gen: nat, id: Identity, ledger: bool, cancel: bool, now: int): Registry {
    s.(entries := s.entries[r := Entry(gen, id, ledger, now, Accepted, cancel, None, 0, 0, 0)])
  }

  // The terminal fact is recorded and announced in one step; a recorded one never changes.
  function Remember(s: Registry, r: RunId, result: LoopResult, now: int): Registry
    requires r in s.entries
  {
    var e := s.entries[r];
    var f := e.(notices := e.notices + 1);
    s.(entries := s.entries[r := if e.terminal.Some? then f
                                 else f.(state := Finished, terminal := Some(result), terminalAt := now)])
  }

  function HandleStart(s: Registry, r: RunId, id: Identity, ledger: bool, now: int): (Registry, Response) {
    if id.clientMessageId == "" || id.payloadDigest == "" then (s, Invalid)
    else if r in s.entries then
      if s.entries[r].id != id then (s, Conflict) else (s, AckOf(s.entries[r], true))
    else if r in s.pending then
      if s.pending[r].id != id then (s, Conflict) else (s, Joined)
    else if ledger then
      (s.(pending := s.pending[r := PendingStart(s.nextGen, id, false)], nextGen := s.nextGen + 1), Reading)
    else
      var t := Accept(s, r, s.nextGen, id, false, false, now).(nextGen := s.nextGen + 1);
      (t, AckOf(t.entries[r], false))
  }

  // Settling the read, registering the entry and dropping the pending record are one step.
  function HandleHistory(s: Registry, r: RunId, ok: bool, now: int): (Registry, Response) {
    if r !in s.pending then (s, Nothing)
    else
      var p, t := s.pending[r], s.(pending := s.pending - {r});
      if !ok then (t, HistoryUnavailable)
      else (Accept(t, r, p.gen, p.id, true, p.cancel, now), Acked(Accepted, None, false))
  }

  function HandleRun(s: Registry, r: RunId, id: Identity, compact: bool, now: int): (Registry, Response) {
    if r !in s.entries then (s, NeedsStart)
    else
      var e := s.entries[r];
      if e.id != id then (s, Conflict)
      else if compact && !e.fromLedger then (s, CompactRefused)
      else if e.state == Finished && e.terminal.Some? then (s, Result(e.terminal.value))
      else if e.cancelRequested then
        (Remember(s, r, Aborted, now), Result(Aborted))
      else if r in s.active then (s.(entries := s.entries[r := e.(state := Running)]), AlreadyActive)
      else
        (s.(entries := s.entries[r := e.(state := Running, loops := e.loops + 1)], active := s.active + {r}), LoopStarted)
  }

  // The loop is over and its frames are on the wire.
  function HandleSettled(s: Registry, r: RunId, result: LoopResult, now: int): (Registry, Response) {
    if r !in s.active || r !in s.entries then (s, Nothing)
    else (Remember(s, r, result, now).(active := s.active - {r}), Result(result))
  }

  function HandleAbort(s: Registry, r: RunId): (Registry, Response) {
    if r in s.active then (s, AbortAccepted)
    else if r in s.pending then (s.(pending := s.pending[r := s.pending[r].(cancel := true)]), AbortAccepted)
    else if r !in s.entries || s.entries[r].state == Finished then (s, NotFound)
    else (s.(entries := s.entries[r := s.entries[r].(cancelRequested := true)]), AbortAccepted)
  }

  function Handle(s: Registry, e: Event): (Registry, Response) {
    match e
    case Start(r, id, ledger, now) => HandleStart(s, r, id, ledger, now)
    case HistoryRead(r, ok, now) => HandleHistory(s, r, ok, now)
    case RunRequest(r, id, compact, now) => HandleRun(s, r, id, compact, now)
    case LoopSettles(r, result, now) => HandleSettled(s, r, result, now)
    case Abort(r) => HandleAbort(s, r)
    case GetState(r) =>
      (s, if r in s.entries then Observed(s.entries[r].state, s.entries[r].terminal) else NotFound)
  }

  predicate Expired(e: Entry, now: int) {
    || (e.state == Finished && now - e.terminalAt > TERMINAL_TTL_MS)
    || (e.state == Accepted && now - e.acceptedAt > ACCEPTED_TTL_MS)
  }

  // What a sweep may do: expired entries go; if too many are left, the oldest
  // terminal ones go until the bound is met or no terminal one is left.
  ghost predicate Pruned(s: Registry, t: Registry, now: int) {
    && t == s.(entries := t.entries)
    && t.entries.Keys <= s.entries.Keys
    && (forall r :: r in t.entries ==> t.entries[r] == s.entries[r] && !Expired(s.entries[r], now))
    && (forall r :: r in s.entries && r !in t.entries && !Expired(s.entries[r], now) ==>
          && s.entries[r].state == Finished
          && |t.entries| >= MAX_ENTRIES
          && forall k :: k in t.entries && t.entries[k].state == Finished ==> s.entries[r].terminalAt <= t.entries[k].terminalAt)
    && (|t.entries| > MAX_ENTRIES ==> forall r :: r in t.entries ==> t.entries[r].state != Finished)
  }

  datatype Action = Do(e: Event) | Sweep(now: int)

  ghost predicate Follows(s: Registry, a: Action, t: Registry) {
    match a
    case Do(e) => t == Handle(s, e).0
    case Sweep(now) => Pruned(s, t, now)
  }

  ghost predicate IsRun(states: seq<Registry>, actions: seq<Action>) {
    && |states| == |actions| + 1
    && states[0] == EMPTY
    && forall i {:trigger actions[i]} :: 0 <= i < |actions| ==> Follows(states[i], actions[i], states[i + 1])
  }

  ghost predicate EntryValid(s: Registry, r: RunId)
    requires r in s.entries
  {
    var e := s.entries[r];
    && e.gen < s.nextGen
    && r !in s.pending
    && (e.state == Running <==> r in s.active)
    && match e.state
       case Accepted => e.terminal.None? && e.loops == 0 && e.notices == 0
       case Running => e.terminal.None? && e.loops == 1 && e.notices == 0 && !e.cancelRequested
       case Finished => e.terminal.Some? && e.loops <= 1 && e.notices == 1
  }

  ghost predicate Inv(s: Registry) {
    && (forall r :: r in s.entries ==> EntryValid(s, r))
    && (forall r :: r in s.pending ==> s.pending[r].gen < s.nextGen)
    && s.active <= s.entries.Keys
  }

  // Every handler touches one runId only.
  predicate OnlyAt(s: Registry, t: Registry, r: RunId) {
    && t.entries - {r} == s.entries - {r}
    && t.pending - {r} == s.pending - {r}
    && t.active - {r} == s.active - {r}
    && s.nextGen <= t.nextGen
  }

  lemma HandleOnlyAt(s: Registry, e: Event)
    ensures OnlyAt(s, Handle(s, e).0, e.r)
  {
    var t := Handle(s, e).0;
    assert t.entries - {e.r} == s.entries - {e.r};
    assert t.pending - {e.r} == s.pending - {e.r};
  }

  lemma Elsewhere(s: Registry, t: Registry, r: RunId, q: RunId)
    requires OnlyAt(s, t, r) && q != r
    ensures q in t.entries <==> q in s.entries
    ensures q in t.pending <==> q in s.pending
    ensures q in t.active <==> q in s.active
    ensures q in t.entries ==> t.entries[q] == s.entries[q]
    ensures q in t.pending ==> t.pending[q] == s.pending[q]
  {
    assert q in t.entries <==> q in t.entries - {r};
    assert q in s.entries <==> q in s.entries - {r};
    assert q in t.pending <==> q in t.pending - {r};
    assert q in s.pending <==> q in s.pending - {r};
    assert q in t.active <==> q in t.active - {r};
    assert q in s.active <==> q in s.active - {r};
    assert q in t.entries ==> (t.entries - {r})[q] == t.entries[q] && (s.entries - {r})[q] == s.entries[q];
    assert q in t.pending ==> (t.pending - {r})[q] == t.pending[q] && (s.pending - {r})[q] == s.pending[q];
  }

  // The handled runId stays consistent.
  lemma HandleValidAt(s: Registry, e: Event)
    requires Inv(s)
    ensures var t := Handle(s, e).0;
            && (e.r in t.entries ==> EntryValid(t, e.r))
            && (e.r in t.pending ==> t.pending[e.r].gen < t.nextGen)
            && (e.r in t.active ==> e.r in t.entries)
  {
    assert e.r in s.entries ==> EntryValid(s, e.r);
  }

  lemma HandleInv(s: Registry, e: Event)
    requires Inv(s)
    ensures Inv(Handle(s, e).0)
  {
    var t := Handle(s, e).0;
    HandleOnlyAt(s, e);
    HandleValidAt(s, e);
    forall q | q != e.r
      ensures q in t.entries ==> EntryValid(t, q)
      ensures q in t.pending ==> t.pending[q].gen < t.nextGen
      ensures q in t.active ==> q in t.entries
    {
      Elsewhere(s, t, e.r, q);
      assert q in s.entries ==> EntryValid(s, q);
    }
  }

  lemma SweepInv(s: Registry, t: Registry, now: int)
    requires Inv(s) && Pruned(s, t, now)
    ensures Inv(t)
  {
  }

  // What may become of one entry: ids and acceptance never change, the state only
  // moves forward, a terminal fact and a cancellation stay, and an entry cancelled
  // before its loop started can only end as aborted, without a loop.
  ghost predicate Later(e: Entry, f: Entry) {
    && f.gen == e.gen && f.id == e.id && f.fromLedger == e.fromLedger && f.acceptedAt == e.acceptedAt
    && (f.state == Accepted ==> e.state == Accepted)
    && (e.state == Finished ==>
          f.state == Finished && f.terminal == e.terminal && f.terminalAt == e.terminalAt && f.loops == e.loops)
    && e.loops <= f.loops
    && (e.cancelRequested ==> f.cancelRequested)
    && (e.cancelRequested && e.state == Accepted ==>
          && f.loops == e.loops
          && (f.state == Accepted || (f.state == Finished && f.terminal == Some(Aborted))))
  }

  // What may become of a start still reading its history once the read is done.
  ghost predicate Registered(p: PendingStart, f: Entry) {
    && f.gen == p.gen && f.id == p.id && f.fromLedger
    && (p.cancel ==>
          && f.cancelRequested && f.loops == 0
          && (f.state == Accepted || (f.state == Finished && f.terminal == Some(Aborted))))
  }

  ghost predicate StillReading(p: PendingStart, q: PendingStart) {
    q.gen == p.gen && q.id == p.id && (p.cancel ==> q.cancel)
  }

  // Everything old found in t was in s already and developed as it may.
  ghost predicate Evolves(s: Registry, t: Registry) {
    s.nextGen <= t.nextGen && forall r :: EvolvesAt(s, t, r)
  }

  ghost predicate EvolvesAt(s: Registry, t: Registry, r: RunId) {
    && (r in t.pending && t.pending[r].gen < s.nextGen ==> r in s.pending && StillReading(s.pending[r], t.pending[r]))
    && (r in t.entries && t.entries[r].gen < s.nextGen ==>
          || (r in s.entries && Later(s.entries[r], t.entries[r]))
          || (r in s.pending && Registered(s.pending[r], t.entries[r])))
  }

  lemma HandleEvolvesAt(s: Registry, e: Event)
    requires Inv(s)
    ensures EvolvesAt(s, Handle(s, e).0, e.r)
  {
    assert e.r in s.entries ==> EntryValid(s, e.r);
  }

  lemma HandleEvolves(s: Registry, e: Event)
    requires Inv(s)
    ensures Evolves(s, Handle(s, e).0)
  {
    var t := Handle(s, e).0;
    HandleOnlyAt(s, e);
    HandleEvolvesAt(s, e);
    forall q
      ensures EvolvesAt(s, t, q)
    {
      if q != e.r {
        Elsewhere(s, t, e.r, q);
      }
    }
  }

  lemma StepEvolves(s: Registry, a: Action, t: Registry)
    requires Inv(s) && Follows(s, a, t)
    ensures Evolves(s, t)
  {
    if a.Do? {
      HandleEvolves(s, a.e);
    }
  }

  lemma EvolvesTransitive(s: Registry, t: Registry, u: Registry)
    requires Inv(s) && Inv(t) && Inv(u) && Evolves(s, t) && Evolves(t, u)
    ensures Evolves(s, u)
  {
    forall r
      ensures EvolvesAt(s, u, r)
    {
      assert EvolvesAt(s, t, r) && EvolvesAt(t, u, r);
    }
  }

  lemma EvolvesOn(s: Registry, t: Registry, a: Action, u: Registry)
    requires Inv(s) && Inv(t) && Inv(u) && Evolves(s, t) && Follows(t, a, u)
    ensures Evolves(s, u)
  {
    StepEvolves(t, a, u);
    EvolvesTransitive(s, t, u);
  }

  lemma EvolvesReflexive(s: Registry)
    ensures Evolves(s, s)
  {
  }

  // Every reachable registry is consistent: at most one loop per retained start,
  // exactly one terminal notification once finished, and the active runs are
  // precisely the running entries.
  lemma {:induction false} RunsStayConsistent(states: seq<Registry>, actions: seq<Action>, i: nat)
    requires IsRun(states, actions) && i < |states|
    ensures Inv(states[i])
    decreases i
  {
    if i > 0 {
      RunsStayConsistent(states, actions, i - 1);
      assert Follows(states[i - 1], actions[i - 1], states[i]);
      match actions[i - 1] {
        case Do(e) => HandleInv(states[i - 1], e);
        case Sweep(now) => SweepInv(states[i - 1], states[i], now);
      }
    }
  }

  lemma RunsEvolveOn(states: seq<Registry>, actions: seq<Action>, i: nat, j: nat)
    requires IsRun(states, actions) && i <= j < |actions| && Evolves(states[i], states[j])
    ensures Evolves(states[i], states[j + 1])
  {
    var s, t, a, u := states[i], states[j], actions[j], states[j + 1];
    assert Follows(t, a, u);
    RunsStayConsistent(states, actions, i);
    RunsStayConsistent(states, actions, j);
    RunsStayConsistent(states, actions, j + 1);
    EvolvesOn(s, t, a, u);
  }

  // Between any two moments of a run, whatever was registered developed as `Evolves` says.
  lemma {:induction false} RunsEvolve(states: seq<Registry>, actions: seq<Action>, i: nat, j: nat)
    requires IsRun(states, actions) && i <= j < |states|
    ensures Evolves(states[i], states[j])
    decreases j - i
  {
    if i == j {
      EvolvesReflexive(states[i]);
    } else {
      RunsEvolve(states, actions, i, j - 1);
      RunsEvolveOn(states, actions, i, j - 1);
    }
  }

  // While a start is retained its loop starts at most once, its state only moves
  // accepted, running, terminal, and its terminal fact and ids never change.
  lemma RunExactlyOnce(states: seq<Registry>, actions: seq<Action>, i: nat, j: nat, r: RunId)
    requires IsRun(states, actions) && i <= j < |states|
    requires r in states[i].entries && r in states[j].entries && states[j].entries[r].gen == states[i].entries[r].gen
    ensures Later(states[i].entries[r], states[j].entries[r])
    ensures states[j].entries[r].loops <= 1
    ensures states[j].entries[r].notices == if states[j].entries[r].state == Finished then 1 else 0
  {
    RunsStayConsistent(states, actions, i);
    RunsStayConsistent(states, actions, j);
    RunsEvolve(states, actions, i, j);
    assert EvolvesAt(states[i], states[j], r);
    assert EntryValid(states[i], r) && EntryValid(states[j], r);
  }

  // An abort that is answered accepted before the loop started wins: from then on
  // the start it hit never starts a loop, and once finished it is aborted.
  lemma EarlyAbortWins(states: seq<Registry>, actions: seq<Action>, i: nat, j: nat, r: RunId, gen: nat)
    requires IsRun(states, actions) && i < j < |states|
    requires actions[i] == Do(Abort(r)) && HandleAbort(states[i], r).1 == AbortAccepted && r !in states[i].active
    requires gen == if r in states[i].pending then states[i].pending[r].gen else states[i].entries[r].gen
    requires r in states[j].entries && states[j].entries[r].gen == gen
    ensures var e := states[j].entries[r];
            && e.cancelRequested && e.loops == 0 && r !in states[j].active
            && (e.state == Accepted || (e.state == Finished && e.terminal == Some(Aborted)))
    ensures forall id, compact, now :: var (t, resp) := HandleRun(states[j], r, id, compact, now);
                                       resp in {Conflict, CompactRefused, Result(Aborted)}
  {
    RunsStayConsistent(states, actions, i);
    RunsStayConsistent(states, actions, i + 1);
    RunsStayConsistent(states, actions, j);
    RunsEvolve(states, actions, i + 1, j);
    assert EvolvesAt(states[i + 1], states[j], r);
    assert Follows(states[i], actions[i], states[i + 1]);
    if r in states[i].entries {
      assert EntryValid(states[i], r);
    }
    assert EntryValid(states[j], r);
  }

  // A failed history read registers nothing and frees the runId: the same start
  // may come again and is taken as new.
  lemma FailedReadFreesRunId(s: Registry, r: RunId, now: int, id: Identity, ledger: bool, later: int)
    requires Inv(s) && r in s.pending && id.payloadDigest != "" && id.clientMessageId != ""
    ensures var t := HandleHistory(s, r, false, now).0;
            && r !in t.pending && r !in t.entries && t.entries == s.entries
            && HandleStart(t, r, id, ledger, later).1 == if ledger then Reading else Acked(Accepted, None, false)
  {
    assert r in s.entries ==> EntryValid(s, r);
  }

  lemma OnlyTheIdenticalReplay(s: Registry, r: RunId, id: Identity, ledger: bool, now: int)
    requires Inv(s) && (r in s.entries || r in s.pending) && id.payloadDigest != "" && id.clientMessageId != ""
    ensures var owner := if r in s.entries then s.entries[r].id else s.pending[r].id;
            var (t, resp) := HandleStart(s, r, id, ledger, now);
            && t == s
            && (id == owner <==> resp != Conflict)
            && (id == owner ==> resp == if r in s.entries then AckOf(s.entries[r], true) else Joined)
  {
    if r in s.entries {
      assert EntryValid(s, r);
    }
  }

  lemma RunAnswersExactly(s: Registry, r: RunId, id: Identity, compact: bool, now: int)
    requires Inv(s)
    ensures var (t, resp) := HandleRun(s, r, id, compact, now);
            var mine := r in s.entries && s.entries[r].id == id && (compact ==> s.entries[r].fromLedger);
            && (resp == LoopStarted <==> mine && s.entries[r].state == Accepted && !s.entries[r].cancelRequested)
            && (resp == LoopStarted ==> r in t.active && t.entries[r].loops == 1)
            && (resp == AlreadyActive <==> mine && r in s.active)
            && (mine && s.entries[r].state == Finished ==> resp == Result(s.entries[r].terminal.value))
            && (resp != LoopStarted && !(mine && s.entries[r].state == Accepted) ==> t == s)
  {
    if r in s.entries {
      assert EntryValid(s, r);
      assert s.entries[r].state == Running ==> s.entries[r := s.entries[r].(state := Running)] == s.entries;
    }
  }

  // A runId is held by an entry, or by a start still reading its history.
  predicate Held(s: Registry, r: RunId) { r in s.entries || r in s.pending }

  function HolderGen(s: Registry, r: RunId): nat
    requires Held(s, r)
  {
    if r in s.entries then s.entries[r].gen else s.pending[r].gen
  }

  function HolderId(s: Registry, r: RunId): Identity
    requires Held(s, r)
  {
    if r in s.entries then s.entries[r].id else s.pending[r].id
  }

  // The same start held the runId at both moments, so under the same identity; it may
  // have been registered in between, but not taken back.
  lemma HolderStays(states: seq<Registry>, actions: seq<Action>, i: nat, j: nat, r: RunId)
    requires IsRun(states, actions) && i <= j < |states| && Held(states[i], r) && Held(states[j], r)
    requires HolderGen(states[j], r) == HolderGen(states[i], r)
    ensures HolderId(states[j], r) == HolderId(states[i], r)
    ensures r in states[i].entries ==> r in states[j].entries && Later(states[i].entries[r], states[j].entries[r])
  {
    RunsStayConsistent(states, actions, i);
    RunsStayConsistent(states, actions, j);
    RunsEvolve(states, actions, i, j);
    assert EvolvesAt(states[i], states[j], r);
    if r in states[i].entries {
      assert EntryValid(states[i], r);
    }
    if r in states[j].entries {
      assert EntryValid(states[j], r);
    }
  }

  // Whoever started a run owns its runId from the first moment, history still unread,
  // for as long as the start is retained: at any later moment another identity is turned
  // away and changes nothing, the owner's own start never conflicts, and once the run had
  // finished the owner's starts and run requests all get the terminal fact it had then.
  lemma OwnerKeepsTheRun(states: seq<Registry>, actions: seq<Action>, i: nat, j: nat, r: RunId,
                         id: Identity, ledger: bool, compact: bool, now: int)
    requires IsRun(states, actions) && i <= j < |states| && Held(states[i], r) && Held(states[j], r)
    requires HolderGen(states[j], r) == HolderGen(states[i], r)
    requires id.payloadDigest != "" && id.clientMessageId != ""
    ensures var owner := HolderId(states[i], r);
            var (t, started) := HandleStart(states[j], r, id, ledger, now);
            var (u, ran) := HandleRun(states[j], r, id, compact, now);
            && t == states[j] && (started == Conflict <==> id != owner)
            && (id != owner ==> u == states[j] && ran == if r in states[j].entries then Conflict else NeedsStart)
    ensures r in states[i].entries && states[i].entries[r].state == Finished && id == states[i].entries[r].id ==>
              var e := states[i].entries[r];
              && e.terminal.Some? && HandleStart(states[j], r, id, ledger, now).1 == Acked(Finished, e.terminal, true)
              && HandleRun(states[j], r, id, compact, now)
                 == (states[j], if compact && !e.fromLedger then CompactRefused else Result(e.terminal.value))
  {
    RunsStayConsistent(states, actions, i);
    RunsStayConsistent(states, actions, j);
    HolderStays(states, actions, i, j, r);
    OnlyTheIdenticalReplay(states[j], r, id, ledger, now);
    RunAnswersExactly(states[j], r, id, compact, now);
    if r in states[i].entries {
      assert EntryValid(states[i], r);
    }
  }

  // Sweeps never take a running entry, nor one whose history is being read.
  lemma SweepsSpareRunning(s: Registry, t: Registry, now: int, r: RunId)
    requires Inv(s) && Pruned(s, t, now) && r in s.active
    ensures r in t.entries && t.entries[r] == s.entries[r] && t.pending == s.pending && t.active == s.active
  {
    assert EntryValid(s, r);
  }

  // The module state of the host: two maps and the set of active runs.
  class AgentLoopHost {
    var runRegistry: map<RunId, Entry>
    var pendingLedgerStarts: map<RunId, PendingStart>
    var activeRuns: set<RunId>
    var nextGen: nat

    function View(): Registry
      reads this
    {
      Registry(runRegistry, pendingLedgerStarts, activeRuns, nextGen)
    }

    constructor ()
      ensures View() == EMPTY
    {
      runRegistry, pendingLedgerStarts, activeRuns, nextGen := map[], map[], {}, 0;
    }

    method DropExpired(now: int)
      modifies this`runRegistry
      ensures runRegistry.Keys <= old(runRegistry).Keys
      ensures forall r :: r in runRegistry ==> runRegistry[r] == old(runRegistry)[r] && !Expired(runRegistry[r], now)
      ensures forall r :: r in old(runRegistry) && r !in runRegistry ==> Expired(old(runRegistry)[r], now)
    {
      var keys := runRegistry.Keys;
      while keys != {}
        invariant keys <= runRegistry.Keys <= old(runRegistry).Keys
        invariant forall r :: r in runRegistry ==> runRegistry[r] == old(runRegistry)[r]
        invariant forall r :: r in runRegistry && r !in keys ==> !Expired(runRegistry[r], now)
        invariant forall r :: r in old(runRegistry) && r !in runRegistry ==> Expired(old(runRegistry)[r], now)
        decreases |keys|
      {
        var r :| r in keys;
        keys := keys - {r};
        if Expired(runRegistry[r], now) {
          runRegistry := runRegistry - {r};
        }
      }
    }

    // The terminal entry that has been terminal longest, if any.
    method OldestTerminal() returns (found: Option<RunId>)
      ensures found.Some? ==> found.value in runRegistry && runRegistry[found.value].state == Finished
      ensures found.Some? ==> forall k :: k in runRegistry && runRegistry[k].state == Finished ==>
                                            runRegistry[found.value].terminalAt <= runRegistry[k].terminalAt
      ensures found.None? ==> forall k :: k in runRegistry ==> runRegistry[k].state != Finished
    {
      found := None;
      var keys := runRegistry.Keys;
      while keys != {}
        invariant keys <= runRegistry.Keys
        invariant found.Some? ==> found.value in runRegistry && runRegistry[found.value].state == Finished
        invariant forall k :: k in runRegistry && k !in keys && runRegistry[k].state == Finished ==>
                                found.Some? && runRegistry[found.value].terminalAt <= runRegistry[k].terminalAt
        decreases |keys|
      {
        var r :| r in keys;
        keys := keys - {r};
        if runRegistry[r].state == Finished
           && (found.None? || runRegistry[r].terminalAt < runRegistry[found.value].terminalAt) {
          found := Some(r);
        }
      }
    }

    method PruneRunRegistry(now: int)
      modifies this`runRegistry
      ensures Pruned(old(View()), View(), now)
    {
      DropExpired(now);
      ghost var unexpired := runRegistry;
      while |runRegistry| > MAX_ENTRIES
        invariant runRegistry.Keys <= unexpired.Keys
        invariant forall r :: r in runRegistry ==> runRegistry[r] == unexpired[r]
        invariant forall r :: r in unexpired && r !in runRegistry ==>
                                && unexpired[r].state == Finished && |runRegistry| >= MAX_ENTRIES
                                && forall k :: k in runRegistry && runRegistry[k].state == Finished ==>
                                                 unexpired[r].terminalAt <= runRegistry[k].terminalAt
        decreases |runRegistry|
      {
        var oldest := OldestTerminal();
        if oldest.None? { break; }
        assert |runRegistry - {oldest.value}| == |runRegistry| - 1 by {
          assert (runRegistry - {oldest.value}).Keys == runRegistry.Keys - {oldest.value};
        }
        runRegistry := runRegistry - {oldest.value};
      }
    }

    // `agent.start` sweeps first; `swept` is the registry it then decides on.
    method HandleAgentStart(r: RunId, id: Identity, ledger: bool, now: int) returns (resp: Response, ghost swept: Registry)
      modifies this
      ensures (resp == Invalid && swept == old(View())) || Pruned(old(View()), swept, now)
      ensures (View(), resp) == Handle(swept, Event.Start(r, id, ledger, now))
    {
      if id.clientMessageId == "" || id.payloadDigest == "" { return Invalid, View(); }
      PruneRunRegistry(now);
      swept := View();
      if r in runRegistry {
        resp := if runRegistry[r].id != id then Conflict else AckOf(runRegistry[r], true);
        return;
      }
      if r in pendingLedgerStarts {
        resp := if pendingLedgerStarts[r].id != id then Conflict else Joined;
        return;
      }
      if ledger {
        pendingLedgerStarts := pendingLedgerStarts[r := PendingStart(nextGen, id, false)];
        resp := Reading;
      } else {
        runRegistry := runRegistry[r := Entry(nextGen, id, false, now, Accepted, false, None, 0, 0, 0)];
        resp := Acked(Accepted, None, false);
      }
      nextGen := nextGen + 1;
    }

    method HistorySettled(r: RunId, ok: bool, now: int) returns (resp: Response)
      modifies this
      ensures (View(), resp) == Handle(old(View()), HistoryRead(r, ok, now))
    {
      if r !in pendingLedgerStarts { return Nothing; }
      var p := pendingLedgerStarts[r];
      pendingLedgerStarts := pendingLedgerStarts - {r};
      if !ok { return HistoryUnavailable; }
      runRegistry := runRegistry[r := Entry(p.gen, p.id, true, now, Accepted, p.cancel, None, 0, 0, 0)];
      resp := Acked(Accepted, None, false);
    }

    // Records and announces; the callers sweep afterwards.
    method RememberTerminal(r: RunId, result: LoopResult, now: int)
      requires r in runRegistry
      modifies this`runRegistry
      ensures View() == Remember(old(View()), r, result, now)
    {
      var e := runRegistry[r];
      var f := e.(notices := e.notices + 1);
      if e.terminal.None? {
        f := f.(state := Finished, terminal := Some(result), terminalAt := now);
      }
      runRegistry := runRegistry[r := f];
    }

    // Ends with a sweep when it recorded a terminal fact.
    method HandleAgentRun(r: RunId, id: Identity, compact: bool, now: int) returns (resp: Response, ghost decided: Registry)
      modifies this
      ensures (decided, resp) == Handle(old(View()), RunRequest(r, id, compact, now))
      ensures View() == decided || Pruned(decided, View(), now)
    {
      decided := View();
      if r !in runRegistry { return NeedsStart, decided; }
      var e := runRegistry[r];
      if e.id != id { return Conflict, decided; }
      if compact && !e.fromLedger { return CompactRefused, decided; }
      if e.state == Finished && e.terminal.Some? { return Result(e.terminal.value), decided; }
      if e.cancelRequested {
        RememberTerminal(r, Aborted, now);
        decided := View();
        PruneRunRegistry(now);
        return Result(Aborted), decided;
      }
      if r in activeRuns {
        runRegistry := runRegistry[r := e.(state := Running)];
        return AlreadyActive, View();
      }
      runRegistry := runRegistry[r := e.(state := Running, loops := e.loops + 1)];
      activeRuns := activeRuns + {r};
      return LoopStarted, View();
    }

    // The loop settled and its frames are on the wire.
    method FinishRun(r: RunId, result: LoopResult, now: int) returns (ghost decided: Registry)
      requires r in activeRuns && r in runRegistry
      modifies this
      ensures (decided, Result(result)) == Handle(old(View()), LoopSettles(r, result, now))
      ensures Pruned(decided, View(), now)
    {
      RememberTerminal(r, result, now);
      activeRuns := activeRuns - {r};
      decided := View();
      PruneRunRegistry(now);
    }

    method HandleAgentAbort(r: RunId) returns (resp: Response)
      modifies this
      ensures (View(), resp) == Handle(old(View()), Abort(r))
    {
      if r in activeRuns { return AbortAccepted; }
      if r in pendingLedgerStarts {
        pendingLedgerStarts := pendingLedgerStarts[r := pendingLedgerStarts[r].(cancel := true)];
        return AbortAccepted;
      }
      if r !in runRegistry || runRegistry[r].state == Finished { return NotFound; }
      runRegistry := runRegistry[r := runRegistry[r].(cancelRequested := true)];
      return AbortAccepted;
    }

    method HandleAgentGetState(r: RunId, now: int) returns (resp: Response)
      modifies this`runRegistry
      ensures Pruned(old(View()), View(), now)
      ensures (View(), resp) == Handle(View(), GetState(r))
    {
      PruneRunRegistry(now);
      resp := if r in runRegistry then Observed(runRegistry[r].state, runRegistry[r].terminal) else NotFound;
    }
  }
}
