/**
 The sidecar's mirror of the shell's settings, fed by pushes that may arrive in any
 order, and the reader that pins one run's model on top of it.
 */
module SettingsMirror {
  import opened Wrappers

  // A revision that is not a finite number orders nothing.
  datatype Revision = Finite(n: real) | NotFinite

  datatype Event<S> = Pushed(snapshot: S, revision: Revision) | Seeded(snapshot: S)

  datatype Mirror<S> = Mirror(current: Option<S>, applied: Option<real>)

  function Step<S>(m: Mirror<S>, e: Event<S>): Mirror<S> {
    match e
    case Pushed(snapshot, revision) =>
      if revision.NotFinite? || (m.applied.Some? && revision.n <= m.applied.value) then m
      else Mirror(Some(snapshot), Some(revision.n))
    case Seeded(snapshot) => if m.current.None? then m.(current := Some(snapshot)) else m
  }

  function Run<S>(events: seq<Event<S>>): Mirror<S> {
    if events == [] then Mirror(None, None) else Step(Run(events[..|events| - 1]), events[|events| - 1])
  }

  predicate Ordered<S>(e: Event<S>) {
    e.Pushed? && e.revision.Finite?
  }

  // Event i is the first of the highest revision among the pushes that have one.
  ghost predicate IsHighest<S>(events: seq<Event<S>>, i: nat) {
    && i < |events| && Ordered(events[i])
    && (forall j :: 0 <= j < |events| && Ordered(events[j]) ==> events[j].revision.n <= events[i].revision.n)
    && (forall j :: 0 <= j < i && Ordered(events[j]) ==> events[j].revision.n < events[i].revision.n)
  }

  ghost predicate IsFirstSeed<S>(events: seq<Event<S>>, i: nat) {
    i < |events| && events[i].Seeded? && forall j :: 0 <= j < i ==> !events[j].Seeded?
  }

  // Where the mirror's value comes from: the highest revision, or failing any the first seed.
  ghost predicate Explained<S>(events: seq<Event<S>>, m: Mirror<S>, i: nat) {
    && i <= |events|
    && (if m.applied.Some?
        then IsHighest(events, i) && m == Mirror(Some(events[i].snapshot), Some(events[i].revision.n))
        else
          && (forall j :: 0 <= j < |events| ==> !Ordered(events[j]))
          && if m.current.Some? then IsFirstSeed(events, i) && m.current.value == events[i].snapshot
             else forall j :: 0 <= j < |events| ==> !events[j].Seeded?)
  }

  lemma {:induction false} StepExplained<S>(events: seq<Event<S>>, m: Mirror<S>, i: nat, e: Event<S>) returns (k: nat)
    requires Explained(events, m, i)
    ensures Explained(events + [e], Step(m, e), k)
  {
    var more, n := events + [e], Step(m, e);
    assert forall j :: 0 <= j < |events| ==> more[j] == events[j];
    assert more[|events|] == e;
    k := if n == m then i else |events|;
  }

  // Whatever order pushes and seeds arrive in, the mirror ends at the push with the
  // highest revision, or at the first seed while no push had one.
  lemma {:induction false} MirrorIsExplained<S>(events: seq<Event<S>>) returns (i: nat)
    ensures Explained(events, Run(events), i)
  {
    if events == [] {
      i := 0;
    } else {
      var init, e := events[..|events| - 1], events[|events| - 1];
      i := MirrorIsExplained(init);
      i := StepExplained(init, Run(init), i, e);
      assert init + [e] == events;
    }
  }

  ghost predicate DistinctRevisions<S>(events: seq<Event<S>>) {
    forall x, y :: x in events && y in events && Ordered(x) && Ordered(y) && x.revision == y.revision ==> x == y
  }

  // With one snapshot per revision the order of arrival does not matter.
  lemma ArrivalOrderIsIrrelevant<S>(a: seq<Event<S>>, b: seq<Event<S>>)
    requires DistinctRevisions(a) && multiset(a) == multiset(b)
    ensures Run(a).applied == Run(b).applied
    ensures Run(a).applied.Some? ==> Run(a) == Run(b)
  {
    var i := MirrorIsExplained(a);
    var j := MirrorIsExplained(b);
    assert forall x :: x in a <==> x in multiset(a);
    assert forall x :: x in b <==> x in multiset(b);
    HighestIsAboveAll(a, b, i);
    HighestIsAboveAll(b, a, j);
  }

  lemma HighestIsAboveAll<S>(a: seq<Event<S>>, b: seq<Event<S>>, i: nat)
    requires Explained(a, Run(a), i) && forall x :: x in a <==> x in b
    ensures Run(a).applied.Some? ==> a[i] in b && Ordered(a[i])
    ensures forall y :: y in b && Ordered(y) ==> Run(a).applied.Some? && y.revision.n <= Run(a).applied.value
  {
    forall y | y in b && Ordered(y)
      ensures Run(a).applied.Some? && y.revision.n <= Run(a).applied.value
    {
      var j :| 0 <= j < |a| && a[j] == y;
    }
  }

  // A push never moves the mirror to an older revision.
  lemma RevisionsOnlyGrow<S>(events: seq<Event<S>>, e: Event<S>)
    requires Run(events).applied.Some?
    ensures var m, n := Run(events), Step(Run(events), e);
            n.applied.Some? && m.applied.value <= n.applied.value && (n.applied == m.applied ==> n == m)
  {
    var i := MirrorIsExplained(events);
  }

  datatype Model = Model(providerId: string, modelId: string)

  // A snapshot object: the model, and everything else.
  class SettingsState {
    const activeModel: Option<Model>
    const rest: map<string, string>

    constructor (activeModel: Option<Model>, rest: map<string, string>)
      ensures this.activeModel == activeModel && this.rest == rest
    {
      this.activeModel, this.rest := activeModel, rest;
    }
  }

  // The module's two variables.
  class SharedMirror {
    var current: SettingsState?
    var appliedRevision: Option<real>

    ghost function View(): Mirror<SettingsState>
      reads this
    {
      if current == null then Mirror(None, appliedRevision)
      else
        var held: SettingsState := current;
        Mirror(Some(held), appliedRevision)
    }

    constructor ()
      ensures View() == Mirror(None, None)
    {
      current, appliedRevision := null, None;
    }

    method ApplySettingsSnapshot(snapshot: SettingsState, revision: Revision) returns (applied: bool)
      modifies this
      ensures View() == Step(old(View()), Pushed(snapshot, revision))
      ensures applied <==> appliedRevision != old(appliedRevision)
    {
      if revision.NotFinite? { return false; }
      if appliedRevision.Some? && revision.n <= appliedRevision.value { return false; }
      current := snapshot;
      appliedRevision := Some(revision.n);
      return true;
    }

    method SeedIfEmpty(snapshot: SettingsState)
      modifies this
      ensures View() == Step(old(View()), Seeded(snapshot))
    {
      if current == null { current := snapshot; }
    }
  }

  // The live mirror with the run's model pinned. `pinned` is None for a run without one.
  class RunScopedReader {
    const live: SharedMirror
    const pinned: Option<Model>
    var lastLive: SettingsState?
    var lastOverlay: SettingsState?

    ghost predicate Valid()
      reads this
    {
      lastOverlay != null ==> lastLive != null && lastOverlay.activeModel == pinned && lastOverlay.rest == lastLive.rest
    }

    // The mirror's own object serves when nothing is pinned or its model is the pinned one.
    predicate Follows()
      reads live
    {
      pinned.None? || (live.current != null && live.current.activeModel == pinned)
    }

    // The object the next read returns if the mirror does not move; null if it is still to be minted.
    ghost function NextRead(): SettingsState?
      reads this, live
    {
      if Follows() then live.current else if lastLive == live.current then lastOverlay else null
    }

    constructor (live: SharedMirror, pinned: Option<Model>)
      ensures this.live == live && this.pinned == pinned && Valid()
      ensures lastLive == null && lastOverlay == null
    {
      this.live, this.pinned, lastLive, lastOverlay := live, pinned, null, null;
    }

    // Null is the error of a mirror read before anything was seeded or pushed.
    method GetSnapshot() returns (r: SettingsState?)
      requires Valid()
      modifies this
      ensures Valid()
      ensures r == null <==> live.current == null
      ensures r != null ==>
                && r.rest == live.current.rest
                && r.activeModel == (if pinned.Some? then pinned else live.current.activeModel)
                && r == NextRead()
      ensures r != null && old(NextRead()) != null ==> r == old(NextRead())
      ensures r != null && (pinned.None? || live.current.activeModel == pinned) ==> r == live.current
    {
      var snapshot := live.current;
      if snapshot == null { return null; }
      if pinned.None? { return snapshot; }
      if snapshot.activeModel.Some?
         && snapshot.activeModel.value.providerId == pinned.value.providerId
         && snapshot.activeModel.value.modelId == pinned.value.modelId {
        return snapshot;
      }
      if snapshot != lastLive || lastOverlay == null {
        lastLive := snapshot;
        lastOverlay := new SettingsState(pinned, snapshot.rest);
      }
      return lastOverlay;
    }
  }
}
