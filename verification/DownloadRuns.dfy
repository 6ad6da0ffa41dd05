/**
 The download tracker over whole runs: which site a download is matched against, what
 becomes of a waiter that gives up, and what a record says after all the browser's reports.
 */
module DownloadRuns {
  import opened Wrappers
  import opened DownloadTracker
  import DownloadHost

  ghost predicate UnderHost(host: string, parent: string) {
    exists x: string :: host == Below(x, parent)
  }

  function Below(name: string, parent: string): string { name + "." + parent }

  lemma EndsWithExactly(s: string, parent: string)
    ensures EndsWith(s, "." + parent) <==> UnderHost(s, parent)
  {
    if EndsWith(s, "." + parent) {
      var x := s[..|s| - |"." + parent|];
      assert s == x + ("." + parent);
      assert s == Below(x, parent);
    }
    if UnderHost(s, parent) {
      var x :| s == Below(x, parent);
      assert s == x + ("." + parent);
    }
  }

  // Two hosts are of one site if they are equal or one is a subdomain of the other.
  lemma SameSiteExactly(a: string, b: string)
    ensures SameSiteHost(Some(a), Some(b)) <==> a == b || UnderHost(a, b) || UnderHost(b, a)
  {
    EndsWithExactly(a, b);
    EndsWithExactly(b, a);
  }

  // Where there is a referrer it alone decides; only without one does the final host. A
  // waiter without a site, and a download without any host, match nothing.
  lemma ReferrerDecides(item: Item, site: Option<string>)
    ensures site.None? ==> !MatchesSite(item, site)
    ensures item.referrerHost.Some? ==> (MatchesSite(item, site) <==> SameSiteHost(item.referrerHost, site))
    ensures item.referrerHost.None? ==> (MatchesSite(item, site) <==> SameSiteHost(item.finalHost, site))
    ensures item.referrerHost.None? && item.finalHost.None? ==> !MatchesSite(item, site)
  {
  }

  lemma HasMatchExactly(item: Item, waiters: seq<Waiter>)
    ensures HasMatch(item, waiters) <==> exists w :: w in waiters && MatchesSite(item, w.site)
  {
    var i := FirstMatch(item, waiters);
    if i < |waiters| {
      assert waiters[i] in waiters;
    }
  }

  // A waiter still waiting, of any owner.
  ghost predicate Waits(s: State, w: Waiter) { w in s.expected && w !in Gone(s) }

  // A download finds an owner if and only if a suggestion filed it or someone still waits
  // for its site; it is then one of those who do.
  lemma OwnersWait(events: seq<Event>, item: Item)
    requires AllFit(events) && item.id !in Run(events).pendingOwner
    ensures var s := Run(events);
            && (OwnerFor(s, item).1.Some? <==> exists w :: Waits(s, w) && MatchesSite(item, w.site))
            && (OwnerFor(s, item).1.Some? ==>
                  exists w :: Waits(s, w) && MatchesSite(item, w.site) && w.ownerKey == OwnerFor(s, item).1.value)
  {
    var s := Run(events);
    TrackerAgrees(events);
    var found := MatchingOwner(item, s.queues, s.queues.order);
    if found.Some? {
      HasMatchExactly(item, QueueOf(s.queues, found.value));
      var w :| w in QueueOf(s.queues, found.value) && MatchesSite(item, w.site);
      LiveMembers(s.expected, Gone(s), found.value);
      assert Waits(s, w);
    }
    forall w | Waits(s, w) && MatchesSite(item, w.site)
      ensures found.Some?
    {
      LiveMembers(s.expected, Gone(s), w.ownerKey);
      assert w in QueueOf(s.queues, w.ownerKey);
      HasMatchExactly(item, QueueOf(s.queues, w.ownerKey));
    }
  }

  lemma CancelCancels(s: State, w: Waiter)
    requires WaitersValid(s) && Waits(s, w)
    ensures w in Step(s, Cancelled(w)).cancelled
  {
    LiveMembers(s.expected, Gone(s), w.ownerKey);
    assert w in QueueOf(s.queues, w.ownerKey);
  }

  lemma CancelledStaysSo(s: State, e: Event, w: Waiter)
    requires w in s.cancelled
    ensures w in Step(s, e).cancelled
  {
  }

  lemma FitPrefix(events: seq<Event>, n: nat)
    requires AllFit(events) && n <= |events|
    ensures AllFit(events[..n])
  {
    forall i | 0 <= i < n
      ensures Fits(Run(events[..n][..i]), events[..n][i])
    {
      assert events[..n][..i] == events[..i];
    }
  }

  lemma RunAt(events: seq<Event>, i: nat)
    requires i < |events|
    ensures Run(events[..i + 1]) == Step(Run(events[..i]), events[i])
  {
    assert events[..i + 1][..i] == events[..i];
  }

  lemma {:induction false} CancelledForGood(events: seq<Event>, i: nat, j: nat, w: Waiter)
    requires i <= j <= |events| && w in Run(events[..i]).cancelled
    ensures w in Run(events[..j]).cancelled
    decreases j
  {
    if i < j {
      CancelledForGood(events, i, j - 1, w);
      RunAt(events, j - 1);
      CancelledStaysSo(Run(events[..j - 1]), events[j - 1], w);
    }
  }

  lemma CancelledHasNoMatch(events: seq<Event>, w: Waiter)
    requires AllFit(events) && w in Run(events).cancelled
    ensures forall m :: m in Run(events).matches ==> m.waiter != w
  {
    TrackerAgrees(events);
  }

  lemma WaitersAreValid(events: seq<Event>, i: nat)
    requires AllFit(events) && i <= |events|
    ensures WaitersValid(Run(events[..i]))
  {
    FitPrefix(events, i);
    TrackerAgrees(events[..i]);
  }

  lemma CancelledNow(events: seq<Event>, i: nat, w: Waiter)
    requires AllFit(events) && i < |events| && events[i] == Cancelled(w) && Waits(Run(events[..i]), w)
    ensures w in Run(events[..i + 1]).cancelled
  {
    WaitersAreValid(events, i);
    CancelCancels(Run(events[..i]), w);
    RunAt(events, i);
  }

  // A waiter that gave up while it was waiting never gets a download again.
  lemma GivenUpNeverClaims(events: seq<Event>, i: nat, j: nat, w: Waiter)
    requires AllFit(events) && i < j <= |events| && events[i] == Cancelled(w) && Waits(Run(events[..i]), w)
    ensures w in Run(events[..j]).cancelled && forall m :: m in Run(events[..j]).matches ==> m.waiter != w
  {
    CancelledNow(events, i, w);
    CancelledForGood(events, i + 1, j, w);
    FitPrefix(events, j);
    CancelledHasNoMatch(events[..j], w);
  }

  // Once a suggestion filed a download, whatever happens before it is created, it is
  // created for the owner the suggestion named.
  lemma SuggestionDecides(s: State, item: Item, more: seq<Event>, again: Item)
    requires OwnerFor(s, item).1.Some? && again.id == item.id
    requires forall e :: e in more && e.Created? ==> e.item.id != item.id
    ensures OwnerFor(RunFrom(Step(s, Suggested(item)), more), again).1 == OwnerFor(s, item).1
  {
    SuggestedOwnerStays(s, item, more);
  }

  // Each part of a record says what the last report to name it said.
  function LastPath(path: string, deltas: seq<DownloadHost.Delta>): string {
    if deltas == [] then path
    else
      var d := deltas[|deltas| - 1];
      if d.path.Some? && d.path.value != "" then d.path.value else LastPath(path, deltas[..|deltas| - 1])
  }

  function LastSize(size: int, deltas: seq<DownloadHost.Delta>): int {
    if deltas == [] then size
    else
      var d := deltas[|deltas| - 1];
      if d.size.Some? then d.size.value else LastSize(size, deltas[..|deltas| - 1])
  }

  function LastState(state: string, deltas: seq<DownloadHost.Delta>): string {
    if deltas == [] then state
    else
      var d := deltas[|deltas| - 1];
      if d.state.Some? && d.state.value != "" then d.state.value else LastState(state, deltas[..|deltas| - 1])
  }

  // The reason is the last error named; without one, the stock reason from the first
  // report that calls the download interrupted on.
  function LastReason(reason: string, deltas: seq<DownloadHost.Delta>): string {
    if deltas == [] then reason
    else
      var d, before := deltas[|deltas| - 1], LastReason(reason, deltas[..|deltas| - 1]);
      if d.error.Some? && d.error.value != "" then d.error.value
      else if d.state == Some("interrupted") && before == "" then DownloadHost.DEFAULT_REASON
      else before
  }

  lemma {:induction false} ChangesSayTheLast(s: DownloadHost.Status, deltas: seq<DownloadHost.Delta>)
    ensures DownloadHost.ChangedByAll(s, deltas)
         == DownloadHost.Status(LastState(s.state, deltas), LastPath(s.path, deltas), LastSize(s.size, deltas),
                                LastReason(s.interruptReason, deltas))
  {
    if deltas != [] {
      ChangesSayTheLast(s, deltas[..|deltas| - 1]);
    }
  }

  // Whatever was not said, at creation or later, is in progress, nameless, empty and without reason.
  lemma RecordSaysTheLast(created: DownloadHost.Details, deltas: seq<DownloadHost.Delta>)
    ensures var state := if created.state.Some? then created.state.value else "in_progress";
            var path := if created.path.Some? then created.path.value else "";
            var size := if created.size.Some? then created.size.value else 0;
            DownloadHost.ChangedByAll(DownloadHost.StatusAtCreation(created), deltas) ==
            DownloadHost.Status(LastState(state, deltas), LastPath(path, deltas), LastSize(size, deltas),
                                LastReason("", deltas))
  {
    ChangesSayTheLast(DownloadHost.StatusAtCreation(created), deltas);
  }
}
