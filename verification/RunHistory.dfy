/**
 Where the facts of the run registry come from: a terminal fact is the result of the
 loop that ran, a cancellation is an abort, and a start nobody aborted runs when asked.
 */
module RunHistory {
  import opened Wrappers
  import opened RunRegistry

  // From one moment on the same start held the runId as an entry.
  predicate SameStart(s: Registry, t: Registry, r: RunId) {
    r in s.entries && r in t.entries && t.entries[r].gen == s.entries[r].gen
  }

  // What a loop returned is the run's terminal fact, stamped with that moment, for as long
  // as the start is retained, and what its owner is told ever after.
  lemma LoopResultIsTheFact(states: seq<Registry>, actions: seq<Action>, i: nat, j: nat, r: RunId, result: LoopResult, now: int,
                            ledger: bool, compact: bool, later: int)
    requires IsRun(states, actions) && i < j < |states|
    requires actions[i] == Do(LoopSettles(r, result, now)) && r in states[i].active && SameStart(states[i], states[j], r)
    ensures Handle(states[i], LoopSettles(r, result, now)).1 == Result(result)
    ensures var e := states[j].entries[r];
            && e.state == Finished && e.terminal == Some(result) && e.terminalAt == now && r !in states[j].active
            && (e.id.payloadDigest != "" && e.id.clientMessageId != "" ==>
                  HandleStart(states[j], r, e.id, ledger, later) == (states[j], Acked(Finished, Some(result), true)))
            && ((compact ==> e.fromLedger) ==> HandleRun(states[j], r, e.id, compact, later) == (states[j], Result(result)))
  {
    RunsStayConsistent(states, actions, i);
    RunsStayConsistent(states, actions, i + 1);
    RunsStayConsistent(states, actions, j);
    assert Follows(states[i], actions[i], states[i + 1]);
    assert EntryValid(states[i], r);
    RunExactlyOnce(states, actions, i + 1, j, r);
    assert EntryValid(states[j], r);
  }

  // Step i made the entry terminal: its loop settled, or its owner asked to run a start
  // that had been aborted before its loop began.
  ghost predicate EndsAt(states: seq<Registry>, actions: seq<Action>, i: nat, r: RunId, e: Entry) {
    && i < |actions| && i < |states| && r in states[i].entries && states[i].entries[r].gen == e.gen
    && e.terminal.Some? && actions[i].Do?
    && match actions[i].e
       case LoopSettles(q, result, now) =>
         q == r && r in states[i].active && e.terminal.value == result && e.terminalAt == now
       case RunRequest(q, id, _, now) =>
         && q == r && id == e.id && e.terminal.value == Aborted && e.terminalAt == now
         && states[i].entries[r].state == Accepted && states[i].entries[r].cancelRequested
       case _ => false
  }

  lemma FinishingStep(states: seq<Registry>, actions: seq<Action>, i: nat, r: RunId)
    requires IsRun(states, actions) && i < |actions|
    requires r in states[i + 1].entries && states[i + 1].entries[r].state == Finished
    requires !(SameStart(states[i], states[i + 1], r) && states[i].entries[r].state == Finished)
    ensures EndsAt(states, actions, i, r, states[i + 1].entries[r])
  {
    RunsStayConsistent(states, actions, i);
    RunsStayConsistent(states, actions, i + 1);
    assert Follows(states[i], actions[i], states[i + 1]);
    assert EntryValid(states[i + 1], r);
    if r in states[i].entries {
      assert EntryValid(states[i], r);
    }
    if actions[i].Do? && actions[i].e.r != r {
      HandleOnlyAt(states[i], actions[i].e);
      Elsewhere(states[i], states[i + 1], actions[i].e.r, r);
    }
  }

  // Every terminal fact has such a step behind it; nothing else ends a run.
  lemma {:induction false} TerminalHasCause(states: seq<Registry>, actions: seq<Action>, j: nat, r: RunId) returns (i: nat)
    requires IsRun(states, actions) && j < |states| && r in states[j].entries && states[j].entries[r].state == Finished
    ensures i < j && EndsAt(states, actions, i, r, states[j].entries[r])
    decreases j
  {
    i := j - 1;
    if SameStart(states[i], states[j], r) && states[i].entries[r].state == Finished {
      RunExactlyOnce(states, actions, i, j, r);
      i := TerminalHasCause(states, actions, i, r);
    } else {
      FinishingStep(states, actions, i, r);
    }
  }

  predicate Cancelled(s: Registry, r: RunId) {
    if r in s.entries then s.entries[r].cancelRequested else r in s.pending && s.pending[r].cancel
  }

  // Step i is an abort that reached the start of this generation.
  ghost predicate AbortsAt(states: seq<Registry>, actions: seq<Action>, i: nat, r: RunId, gen: nat) {
    i < |actions| && i < |states| && actions[i] == Do(Abort(r)) && Held(states[i], r) && HolderGen(states[i], r) == gen
  }

  lemma CancellingStep(states: seq<Registry>, actions: seq<Action>, i: nat, r: RunId)
    requires IsRun(states, actions) && i < |actions| && Cancelled(states[i + 1], r)
    requires !(Held(states[i], r) && HolderGen(states[i], r) == HolderGen(states[i + 1], r) && Cancelled(states[i], r))
    ensures AbortsAt(states, actions, i, r, HolderGen(states[i + 1], r))
  {
    RunsStayConsistent(states, actions, i);
    RunsStayConsistent(states, actions, i + 1);
    assert Follows(states[i], actions[i], states[i + 1]);
    if r in states[i].entries {
      assert EntryValid(states[i], r);
    }
    if actions[i].Do? && actions[i].e.r != r {
      HandleOnlyAt(states[i], actions[i].e);
      Elsewhere(states[i], states[i + 1], actions[i].e.r, r);
    }
  }

  // A start is cancelled only by an abort that reached it.
  lemma {:induction false} CancellationHasCause(states: seq<Registry>, actions: seq<Action>, j: nat, r: RunId) returns (i: nat)
    requires IsRun(states, actions) && j < |states| && Cancelled(states[j], r)
    ensures i < j && AbortsAt(states, actions, i, r, HolderGen(states[j], r))
    decreases j
  {
    if j > 0 {
      i := j - 1;
      if Held(states[i], r) && HolderGen(states[i], r) == HolderGen(states[j], r) && Cancelled(states[i], r) {
        i := CancellationHasCause(states, actions, i, r);
      } else {
        CancellingStep(states, actions, i, r);
      }
    }
  }

  // So a retained start that no abort reached runs as soon as its owner asks.
  lemma UnabortedStartRuns(states: seq<Registry>, actions: seq<Action>, j: nat, r: RunId, compact: bool, now: int)
    requires IsRun(states, actions) && j < |states| && r in states[j].entries && states[j].entries[r].state == Accepted
    requires forall i :: !AbortsAt(states, actions, i, r, states[j].entries[r].gen)
    requires compact ==> states[j].entries[r].fromLedger
    ensures var e := states[j].entries[r];
            var (t, resp) := HandleRun(states[j], r, e.id, compact, now);
            && resp == LoopStarted && t.active == states[j].active + {r}
            && t == states[j].(active := t.active, entries := states[j].entries[r := e.(state := Running, loops := 1)])
  {
    RunsStayConsistent(states, actions, j);
    assert EntryValid(states[j], r);
    if Cancelled(states[j], r) {
      var i := CancellationHasCause(states, actions, j, r);
    }
  }

  // A start nobody holds the runId of is taken: registered at once, or once its history
  // has been read, under its own identity, uncancelled and stamped with the moment.
  lemma FreeRunIdIsTaken(s: Registry, r: RunId, id: Identity, ledger: bool, now: int, read: int)
    requires Inv(s) && !Held(s, r) && id.payloadDigest != "" && id.clientMessageId != ""
    ensures var (t, resp) := HandleStart(s, r, id, ledger, now);
            var u := if ledger then HandleHistory(t, r, true, read).0 else t;
            && resp == (if ledger then Reading else Acked(Accepted, None, false))
            && (ledger ==> r in t.pending && t.entries == s.entries
                           && HandleHistory(t, r, true, read).1 == Acked(Accepted, None, false))
            && r in u.entries && r !in u.pending && r !in u.active
            && u.entries[r] == Entry(s.nextGen, id, ledger, if ledger then read else now, Accepted, false, None, 0, 0, 0)
  {
    assert r in s.active ==> r in s.entries;
  }

  // An abort that comes while the history is read is not lost with the reading.
  lemma AbortWhileReadingCounts(s: Registry, r: RunId, read: int)
    requires Inv(s) && r in s.pending
    ensures var (t, resp) := HandleAbort(s, r);
            var u := HandleHistory(t, r, true, read).0;
            resp == AbortAccepted && r in u.entries && u.entries[r].cancelRequested && u.entries[r].id == s.pending[r].id
  {
    assert r in s.active ==> r in s.entries;
    assert r in s.entries ==> EntryValid(s, r);
  }

  // A start without a message id or a digest is refused and changes nothing; no other is
  // called invalid.
  lemma BlankStartsAreRefused(s: Registry, r: RunId, id: Identity, ledger: bool, now: int)
    ensures var (t, resp) := HandleStart(s, r, id, ledger, now);
            && (resp == Invalid <==> id.clientMessageId == "" || id.payloadDigest == "")
            && (resp == Invalid ==> t == s)
  {
  }

  // An abort is accepted if and only if a start holds the runId that has not ended; unless
  // its loop runs already, that very start is cancelled by it.
  lemma AbortReachesTheStart(s: Registry, r: RunId)
    requires Inv(s)
    ensures var (t, resp) := HandleAbort(s, r);
            && (resp == AbortAccepted <==> Held(s, r) && (r in s.entries ==> s.entries[r].state != Finished))
            && (resp != AbortAccepted ==> resp == NotFound && t == s)
            && (resp == AbortAccepted && r !in s.active ==> Held(t, r) && HolderGen(t, r) == HolderGen(s, r) && Cancelled(t, r))
            && (r in s.active ==> t == s)
  {
    if r in s.entries {
      assert EntryValid(s, r);
    }
  }

  // A query is answered from the entry, and changes nothing.
  lemma QueriesObserve(s: Registry, r: RunId)
    ensures var (t, resp) := Handle(s, GetState(r));
            && t == s
            && (resp == NotFound <==> r !in s.entries)
            && (r in s.entries ==> resp == Observed(s.entries[r].state, s.entries[r].terminal))
  {
  }

  // An ended run is kept for an hour, an accepted start that was never run ten minutes,
  // both to the full; a running one does not expire.
  lemma RetentionIsExact(e: Entry, now: int)
    ensures Expired(e, now) <==>
              match e.state
              case Accepted => now > e.acceptedAt + 600000
              case Running => false
              case Finished => now > e.terminalAt + 3600000
  {
  }
}
