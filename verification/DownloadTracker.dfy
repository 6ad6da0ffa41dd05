/**
 Which task a download belongs to. The tracker keeps one list of records, newest
 first, two indexes into it, and for every owner a queue of waiters whose click
 may start a download.
 */
module DownloadTracker {
  import opened Wrappers

  const MAX_RECENT := 20

  datatype ChromeId = ChromeId(number: int)

  // What the browser says about a download: its id and its already parsed hosts.
  datatype Item = Item(id: ChromeId, referrerHost: Option<string>, finalHost: Option<string>)

  // The part of a record that never changes.
  datatype Record = Record(downloadId: string, chromeId: ChromeId, ownerKey: string)

  datatype Waiter = Waiter(id: nat, ownerKey: string, site: Option<string>)

  // A `Map` from owners to their waiters: what it holds, and the order in which it is iterated.
  datatype Queues = Queues(order: seq<string>, of: map<string, seq<Waiter>>)

  predicate EndsWith(s: string, suffix: string) {
    |suffix| <= |s| && s[|s| - |suffix|..] == suffix
  }

  predicate SameSiteHost(a: Option<string>, b: Option<string>) {
    a.Some? && b.Some? && (a == b || EndsWith(a.value, "." + b.value) || EndsWith(b.value, "." + a.value))
  }

  // The referrer decides when there is one; a waiter without a site matches nothing.
  predicate MatchesSite(item: Item, site: Option<string>) {
    site.Some? && SameSiteHost(if item.referrerHost.Some? then item.referrerHost else item.finalHost, site)
  }

  // Index of the first waiter whose site matches, or |waiters|.
  function FirstMatch(item: Item, waiters: seq<Waiter>): (i: nat)
    ensures i <= |waiters|
    ensures i < |waiters| ==> MatchesSite(item, waiters[i].site)
    ensures forall k :: 0 <= k < i ==> !MatchesSite(item, waiters[k].site)
  {
    if waiters == [] || MatchesSite(item, waiters[0].site) then 0 else 1 + FirstMatch(item, waiters[1..])
  }

  function QueueOf(queues: Queues, ownerKey: string): seq<Waiter> {
    if ownerKey in queues.of then queues.of[ownerKey] else []
  }

  function WithoutKey(order: seq<string>, key: string): (r: seq<string>)
    ensures forall k :: k in r <==> k in order && k != key
  {
    if order == [] then []
    else if order[0] == key then WithoutKey(order[1..], key)
    else [order[0]] + WithoutKey(order[1..], key)
  }

  // `Map.set` on a known key keeps its place; an emptied queue is deleted.
  function WithQueue(queues: Queues, ownerKey: string, waiters: seq<Waiter>): Queues {
    if waiters == [] then Queues(WithoutKey(queues.order, ownerKey), queues.of - {ownerKey})
    else Queues(if ownerKey in queues.of then queues.order else queues.order + [ownerKey], queues.of[ownerKey := waiters])
  }

  predicate HasMatch(item: Item, waiters: seq<Waiter>) {
    FirstMatch(item, waiters) < |waiters|
  }

  // First owner, in the order of the map, with a waiter that matches.
  function MatchingOwner(item: Item, queues: Queues, order: seq<string>): (o: Option<string>)
    ensures o.Some? ==> o.value in order && HasMatch(item, QueueOf(queues, o.value))
    ensures o.None? ==> forall k :: k in order ==> !HasMatch(item, QueueOf(queues, k))
  {
    if order == [] then None
    else if HasMatch(item, QueueOf(queues, order[0])) then Some(order[0])
    else MatchingOwner(item, queues, order[1..])
  }

  function Without(waiters: seq<Waiter>, i: nat): seq<Waiter>
    requires i < |waiters|
  {
    waiters[..i] + waiters[i + 1..]
  }

  function CountOf(records: seq<Record>, ownerKey: string): (n: nat)
    ensures n <= |records|
  {
    if records == [] then 0
    else
      var last := |records| - 1;
      CountOf(records[..last], ownerKey) + if records[last].ownerKey == ownerKey then 1 else 0
  }

  // The last record of the list has MAX_RECENT newer ones of its owner before it.
  predicate Excess(records: seq<Record>, ownerKey: string)
    requires records != []
  {
    records[|records| - 1].ownerKey == ownerKey && CountOf(records[..|records| - 1], ownerKey) >= MAX_RECENT
  }

  function Trimmed(records: seq<Record>, ownerKey: string): seq<Record> {
    if records == [] then []
    else
      var last := |records| - 1;
      Trimmed(records[..last], ownerKey) + if Excess(records, ownerKey) then [] else [records[last]]
  }

  function Dropped(records: seq<Record>, ownerKey: string): set<Record> {
    if records == [] then {}
    else
      var last := |records| - 1;
      Dropped(records[..last], ownerKey) + if Excess(records, ownerKey) then {records[last]} else {}
  }

  function ChromeIds(records: set<Record>): set<ChromeId> { set r | r in records :: r.chromeId }

  function DownloadIds(records: set<Record>): set<string> { set r | r in records :: r.downloadId }

  datatype Match = Match(waiter: Waiter, record: Record)

  /**
   The tracker's state. `created`, `expected`, `cancelled` and `matches` are history,
   kept to state results: every record made, newest first, every waiter in the order
   it was announced, and what became of the waiters.
   */
  datatype State = State(
    recent: seq<Record>, byChromeId: map<ChromeId, Record>, byDownloadId: map<string, Record>,
    queues: Queues, pendingOwner: map<ChromeId, string>,
    created: seq<Record>, expected: seq<Waiter>, cancelled: set<Waiter>, matches: seq<Match>)

  const EMPTY := State([], map[], map[], Queues([], map[]), map[], [], [], {}, [])

  function Expect(s: State, w: Waiter): State {
    s.(queues := WithQueue(s.queues, w.ownerKey, QueueOf(s.queues, w.ownerKey) + [w]), expected := s.expected + [w])
  }

  function IndexOfWaiter(waiters: seq<Waiter>, w: Waiter): (i: nat)
    ensures i <= |waiters| && (i < |waiters| <==> w in waiters) && (i < |waiters| ==> waiters[i] == w)
  {
    if waiters == [] || waiters[0] == w then 0 else 1 + IndexOfWaiter(waiters[1..], w)
  }

  function Cancel(s: State, w: Waiter): State {
    var queue := QueueOf(s.queues, w.ownerKey);
    var i := IndexOfWaiter(queue, w);
    if i == |queue| then s
    else s.(queues := WithQueue(s.queues, w.ownerKey, Without(queue, i)), cancelled := s.cancelled + {w})
  }

  // A remembered owner wins; otherwise the first matching owner is remembered.
  function OwnerFor(s: State, item: Item): (State, Option<string>) {
    if item.id in s.pendingOwner then (s, Some(s.pendingOwner[item.id]))
    else
      match MatchingOwner(item, s.queues, s.queues.order)
      case None => (s, None)
      case Some(owner) => (s.(pendingOwner := s.pendingOwner[item.id := owner]), Some(owner))
  }

  function TakeWaiter(s: State, item: Item, r: Record): State {
    var queue := QueueOf(s.queues, r.ownerKey);
    var i := FirstMatch(item, queue);
    if i == |queue| then s
    else s.(queues := WithQueue(s.queues, r.ownerKey, Without(queue, i)), matches := s.matches + [Match(queue[i], r)])
  }

  // The record is listed and indexed, and what its owner has too many of goes.
  function Store(s: State, r: Record): State {
    var listed, dropped := [r] + s.recent, Dropped([r] + s.recent, r.ownerKey);
    s.(recent := Trimmed(listed, r.ownerKey),
       byChromeId := s.byChromeId[r.chromeId := r] - ChromeIds(dropped),
       byDownloadId := s.byDownloadId[r.downloadId := r] - DownloadIds(dropped),
       created := [r] + s.created)
  }

  // The remembered owner has done its duty.
  function Forget(s: State, id: ChromeId): State {
    s.(pendingOwner := s.pendingOwner - {id})
  }

  function Create(s: State, item: Item, r: Record): State {
    TakeWaiter(Store(Forget(s, item.id), r), item, r)
  }

  datatype Event =
    | Expected(w: Waiter)
    | Cancelled(w: Waiter)
    | Suggested(item: Item)
    | Created(item: Item, r: Record)

  function Step(s: State, e: Event): State {
    match e
    case Expected(w) => Expect(s, w)
    case Cancelled(w) => Cancel(s, w)
    case Suggested(item) => OwnerFor(s, item).0
    case Created(item, r) => if OwnerFor(s, item).1.Some? then Create(s, item, r) else s
  }

  // Fresh waiters, fresh ids, and a record made for the owner the tracker found.
  predicate Fits(s: State, e: Event) {
    match e
    case Expected(w) => w !in s.expected
    case Created(item, r) =>
      OwnerFor(s, item).1.Some? ==>
        && r.ownerKey == OwnerFor(s, item).1.value && r.chromeId == item.id
        && forall q :: q in s.created ==> !SharesId(q, r)
    case _ => true
  }

  function RunFrom(s: State, events: seq<Event>): State {
    if events == [] then s else Step(RunFrom(s, events[..|events| - 1]), events[|events| - 1])
  }

  function Run(events: seq<Event>): State {
    RunFrom(EMPTY, events)
  }

  predicate AllFit(events: seq<Event>) {
    forall i :: 0 <= i < |events| ==> Fits(Run(events[..i]), events[i])
  }

  function ChromeIdOf(r: Record): ChromeId { r.chromeId }

  function DownloadIdOf(r: Record): string { r.downloadId }

  // The index maps exactly the records of the list, each under its own key.
  ghost predicate IndexedBy<K(!new)>(records: seq<Record>, index: map<K, Record>, key: Record -> K) {
    && (forall r :: r in records ==> key(r) in index && index[key(r)] == r)
    && (forall k :: k in index ==> index[k] in records && key(index[k]) == k)
  }

  ghost predicate Indexed(s: State) {
    IndexedBy(s.recent, s.byChromeId, ChromeIdOf) && IndexedBy(s.recent, s.byDownloadId, DownloadIdOf)
  }

  predicate SharesId(q: Record, r: Record) {
    q.chromeId == r.chromeId || q.downloadId == r.downloadId
  }

  ghost predicate DistinctIds(records: seq<Record>) {
    forall i, j :: 0 <= i < j < |records| ==> !SharesId(records[i], records[j])
  }

  // Of every owner the newest MAX_RECENT, in the order of the history.
  function Newest(history: seq<Record>): seq<Record> {
    if history == [] then []
    else
      var last := |history| - 1;
      Newest(history[..last])
      + if CountOf(history[..last], history[last].ownerKey) < MAX_RECENT then [history[last]] else []
  }

  lemma CountOfConcat(a: seq<Record>, r: Record, ownerKey: string)
    ensures CountOf(a + [r], ownerKey) == CountOf(a, ownerKey) + if r.ownerKey == ownerKey then 1 else 0
  {
    assert (a + [r])[..|a|] == a;
  }

  lemma {:induction false} CountOfFirst(r: Record, a: seq<Record>, ownerKey: string)
    ensures CountOf([r] + a, ownerKey) == CountOf(a, ownerKey) + if r.ownerKey == ownerKey then 1 else 0
  {
    if a == [] {
      assert [r] + a == [] + [r];
      CountOfConcat([], r, ownerKey);
    } else {
      var init, last := a[..|a| - 1], a[|a| - 1];
      CountOfFirst(r, init, ownerKey);
      assert [r] + a == ([r] + init) + [last];
      CountOfConcat([r] + init, last, ownerKey);
    }
  }

  lemma {:induction false} CountOfNewest(history: seq<Record>, ownerKey: string)
    ensures CountOf(Newest(history), ownerKey)
         == if CountOf(history, ownerKey) < MAX_RECENT then CountOf(history, ownerKey) else MAX_RECENT
  {
    if history != [] {
      var init, last := history[..|history| - 1], history[|history| - 1];
      CountOfNewest(init, ownerKey);
      CountOfConcat(Newest(init), last, ownerKey);
      assert Newest(init) + [] == Newest(init);
    }
  }

  lemma TrimmedSnoc(records: seq<Record>, last: Record, ownerKey: string)
    ensures Trimmed(records + [last], ownerKey)
         == Trimmed(records, ownerKey)
            + if last.ownerKey == ownerKey && CountOf(records, ownerKey) >= MAX_RECENT then [] else [last]
  {
    assert (records + [last])[..|records|] == records;
  }

  lemma NewestSnoc(records: seq<Record>, last: Record)
    ensures Newest(records + [last])
         == Newest(records) + if CountOf(records, last.ownerKey) < MAX_RECENT then [last] else []
  {
    assert (records + [last])[..|records|] == records;
  }

  lemma {:induction false} TrimmedIsNewestStep(r: Record, init: seq<Record>, last: Record)
    requires Trimmed([r] + Newest(init), r.ownerKey) == Newest([r] + init)
    requires CountOf(init, last.ownerKey) < MAX_RECENT
    ensures Trimmed([r] + (Newest(init) + [last]), r.ownerKey) == Newest(([r] + init) + [last])
  {
    NewestSnoc([r] + init, last);
    CountOfFirst(r, init, last.ownerKey);
    assert [r] + (Newest(init) + [last]) == ([r] + Newest(init)) + [last];
    TrimmedSnoc([r] + Newest(init), last, r.ownerKey);
    CountOfFirst(r, Newest(init), r.ownerKey);
    CountOfNewest(init, r.ownerKey);
  }

  lemma {:induction false} TrimmedIsNewestSkip(r: Record, init: seq<Record>, last: Record)
    requires Trimmed([r] + Newest(init), r.ownerKey) == Newest([r] + init)
    requires CountOf(init, last.ownerKey) >= MAX_RECENT
    ensures Trimmed([r] + Newest(init + [last]), r.ownerKey) == Newest(([r] + init) + [last])
  {
    NewestSnoc(init, last);
    NewestSnoc([r] + init, last);
    CountOfFirst(r, init, last.ownerKey);
    assert Newest(init + [last]) == Newest(init);
    assert Newest(([r] + init) + [last]) == Newest([r] + init);
  }

  // Trimming one owner after each new record keeps exactly every owner's newest ones.
  lemma {:induction false} TrimmedIsNewest(r: Record, history: seq<Record>)
    ensures Trimmed([r] + Newest(history), r.ownerKey) == Newest([r] + history)
  {
    if history == [] {
      assert [r] + [] == [] + [r];
      TrimmedSnoc([], r, r.ownerKey);
      NewestSnoc([], r);
    } else {
      var init, last := history[..|history| - 1], history[|history| - 1];
      TrimmedIsNewest(r, init);
      assert history == init + [last] && [r] + history == ([r] + init) + [last];
      if CountOf(init, last.ownerKey) < MAX_RECENT {
        NewestSnoc(init, last);
        TrimmedIsNewestStep(r, init, last);
      } else {
        TrimmedIsNewestSkip(r, init, last);
      }
    }
  }

  lemma {:induction false} KeptOrDropped(records: seq<Record>, ownerKey: string)
    requires DistinctIds(records)
    ensures forall r :: r in records <==> r in Trimmed(records, ownerKey) || r in Dropped(records, ownerKey)
    ensures forall r :: !(r in Trimmed(records, ownerKey) && r in Dropped(records, ownerKey))
  {
    if records != [] {
      var init, last := records[..|records| - 1], records[|records| - 1];
      KeptOrDropped(init, ownerKey);
      DistinctSnoc(init, last);
      assert records == init + [last];
    }
  }

  lemma DistinctSnoc(records: seq<Record>, last: Record)
    ensures DistinctIds(records + [last]) <==> DistinctIds(records) && forall r :: r in records ==> !SharesId(r, last)
  {
    var more := records + [last];
    if DistinctIds(more) {
      forall i, j | 0 <= i < j < |records|
        ensures !SharesId(records[i], records[j])
      {
        assert more[i] == records[i] && more[j] == records[j];
      }
      forall r | r in records
        ensures !SharesId(r, last)
      {
        var i :| 0 <= i < |records| && records[i] == r;
        assert more[i] == r && more[|records|] == last;
      }
    }
  }

  lemma {:induction false} TrimmedDistinct(records: seq<Record>, ownerKey: string)
    requires DistinctIds(records)
    ensures DistinctIds(Trimmed(records, ownerKey))
  {
    if records != [] {
      var init, last := records[..|records| - 1], records[|records| - 1];
      var kept := Trimmed(init, ownerKey);
      assert records == init + [last];
      DistinctSnoc(init, last);
      TrimmedDistinct(init, ownerKey);
      KeptOrDropped(init, ownerKey);
      assert forall r :: r in kept ==> r in init;
      DistinctSnoc(kept, last);
      TrimmedSnoc(init, last, ownerKey);
      assert kept + [] == kept;
    }
  }

  // Different records of a list have different ids.
  lemma IdsIdentify(records: seq<Record>, q: Record, r: Record)
    requires DistinctIds(records) && q in records && r in records && SharesId(q, r)
    ensures q == r
  {
    var i :| 0 <= i < |records| && records[i] == q;
    var j :| 0 <= j < |records| && records[j] == r;
  }

  lemma DistinctFirst(r: Record, records: seq<Record>)
    ensures DistinctIds([r] + records) <==> DistinctIds(records) && forall q :: q in records ==> !SharesId(q, r)
  {
    var more := [r] + records;
    if DistinctIds(more) {
      forall i, j | 0 <= i < j < |records|
        ensures !SharesId(records[i], records[j])
      {
        assert more[i + 1] == records[i] && more[j + 1] == records[j];
      }
      forall q | q in records
        ensures !SharesId(q, r)
      {
        var i :| 0 <= i < |records| && records[i] == q;
        assert more[0] == r && more[i + 1] == q;
      }
    } else {
      var i, j :| 0 <= i < j < |more| && SharesId(more[i], more[j]);
      assert more[j] == records[j - 1] && records[j - 1] in records;
      if i == 0 {
        assert SharesId(records[j - 1], r);
      } else {
        assert SharesId(records[i - 1], records[j - 1]);
      }
    }
  }

  lemma ListedMember(r: Record, records: seq<Record>, q: Record)
    ensures q in [r] + records <==> q == r || q in records
  {
    var listed := [r] + records;
    if q == r {
      assert listed[0] == q;
    } else if q in records {
      var i :| 0 <= i < |records| && records[i] == q;
      assert listed[i + 1] == q;
    }
  }

  // Nothing that stays listed shares an id with what is dropped.
  lemma {:induction false} DroppedShareNothing(records: seq<Record>, ownerKey: string, q: Record, d: Record)
    requires DistinctIds(records) && q in Trimmed(records, ownerKey) && d in Dropped(records, ownerKey)
    ensures !SharesId(q, d)
  {
    KeptOrDropped(records, ownerKey);
    if SharesId(q, d) {
      IdsIdentify(records, q, d);
    }
  }

  // Adding one record under a new key and dropping others with their keys keeps an index exact.
  lemma IndexKept<K(!new)>(records: seq<Record>, index: map<K, Record>, key: Record -> K, r: Record,
                           kept: seq<Record>, dropped: set<Record>, keys: set<K>)
    requires IndexedBy(records, index, key) && key(r) !in index
    requires forall q :: q == r || q in records <==> q in kept || q in dropped
    requires (forall q :: q in kept ==> key(q) !in keys) && (forall d :: d in dropped ==> key(d) in keys)
    ensures IndexedBy(kept, index[key(r) := r] - keys, key)
  {
  }

  lemma {:induction false} StoreIndexed(s: State, r: Record)
    requires Indexed(s) && DistinctIds([r] + s.recent)
    ensures Indexed(Store(s, r))
  {
    var listed := [r] + s.recent;
    var kept, dropped := Trimmed(listed, r.ownerKey), Dropped(listed, r.ownerKey);
    KeptOrDropped(listed, r.ownerKey);
    DistinctFirst(r, s.recent);
    forall q
      ensures q == r || q in s.recent <==> q in kept || q in dropped
    {
      ListedMember(r, s.recent, q);
    }
    forall q, d | q in kept && d in dropped
      ensures !SharesId(q, d)
    {
      DroppedShareNothing(listed, r.ownerKey, q, d);
    }
    IndexKept(s.recent, s.byChromeId, ChromeIdOf, r, kept, dropped, ChromeIds(dropped));
    IndexKept(s.recent, s.byDownloadId, DownloadIdOf, r, kept, dropped, DownloadIds(dropped));
  }

  // Waiters announced for an owner and not gone yet, in the order of their announcement.
  function Live(expected: seq<Waiter>, gone: set<Waiter>, ownerKey: string): seq<Waiter> {
    if expected == [] then []
    else
      var last := expected[|expected| - 1];
      Live(expected[..|expected| - 1], gone, ownerKey)
      + if last.ownerKey == ownerKey && last !in gone then [last] else []
  }

  function Claimed(matches: seq<Match>): set<Waiter> {
    set m | m in matches :: m.waiter
  }

  function Gone(s: State): set<Waiter> {
    s.cancelled + Claimed(s.matches)
  }

  ghost predicate QueuesValid(queues: Queues) {
    && (forall o :: o in queues.order <==> o in queues.of)
    && (forall o :: o in queues.of ==> queues.of[o] != [])
  }

  // Every queue holds exactly the waiters of its owner that still wait, in order.
  ghost predicate QueuesAreLive(queues: Queues, expected: seq<Waiter>, gone: set<Waiter>) {
    QueuesValid(queues) && forall o :: QueueOf(queues, o) == Live(expected, gone, o)
  }

  ghost predicate Distinct(waiters: seq<Waiter>) {
    forall i, j :: 0 <= i < j < |waiters| ==> waiters[i] != waiters[j]
  }

  // Waiters and records are matched one to one, and no cancelled waiter is matched.
  ghost predicate OneToOne(s: State) {
    && (forall i, j :: 0 <= i < j < |s.matches| ==>
          s.matches[i].waiter != s.matches[j].waiter && s.matches[i].record != s.matches[j].record)
    && (forall m :: m in s.matches ==>
          m.waiter in s.expected && m.record in s.created && m.waiter.ownerKey == m.record.ownerKey && m.waiter !in s.cancelled)
    && (forall w :: w in s.cancelled ==> w in s.expected)
    && Distinct(s.expected)
  }

  ghost predicate Valid(s: State) {
    && Indexed(s) && DistinctIds(s.recent)
    && s.recent == Newest(s.created)
    && QueuesAreLive(s.queues, s.expected, Gone(s)) && OneToOne(s)
  }

  lemma QueueOfWith(queues: Queues, ownerKey: string, waiters: seq<Waiter>)
    requires QueuesValid(queues)
    ensures QueuesValid(WithQueue(queues, ownerKey, waiters))
    ensures forall o :: QueueOf(WithQueue(queues, ownerKey, waiters), o) == if o == ownerKey then waiters else QueueOf(queues, o)
  {
  }

  lemma LiveSnoc(expected: seq<Waiter>, w: Waiter, gone: set<Waiter>, ownerKey: string)
    ensures Live(expected + [w], gone, ownerKey)
         == Live(expected, gone, ownerKey) + if w.ownerKey == ownerKey && w !in gone then [w] else []
  {
    assert (expected + [w])[..|expected|] == expected;
  }

  lemma {:induction false} LiveMembers(expected: seq<Waiter>, gone: set<Waiter>, ownerKey: string)
    ensures forall w :: w in Live(expected, gone, ownerKey) <==> w in expected && w.ownerKey == ownerKey && w !in gone
  {
    if expected != [] {
      LiveMembers(expected[..|expected| - 1], gone, ownerKey);
      assert expected == expected[..|expected| - 1] + [expected[|expected| - 1]];
    }
  }

  lemma {:induction false} LiveUntouched(expected: seq<Waiter>, gone: set<Waiter>, w: Waiter, ownerKey: string)
    requires w !in expected || w.ownerKey != ownerKey
    ensures Live(expected, gone + {w}, ownerKey) == Live(expected, gone, ownerKey)
  {
    if expected != [] {
      LiveUntouched(expected[..|expected| - 1], gone, w, ownerKey);
    }
  }

  // A waiter that goes leaves the others in place.
  lemma {:induction false} LiveWithout(expected: seq<Waiter>, gone: set<Waiter>, ownerKey: string, i: nat)
    requires Distinct(expected) && i < |Live(expected, gone, ownerKey)|
    ensures var live := Live(expected, gone, ownerKey);
            Live(expected, gone + {live[i]}, ownerKey) == Without(live, i)
  {
    var init, last := expected[..|expected| - 1], expected[|expected| - 1];
    var live, w := Live(init, gone, ownerKey), Live(expected, gone, ownerKey)[i];
    assert expected == init + [last];
    LiveSnoc(init, last, gone, ownerKey);
    LiveSnoc(init, last, gone + {w}, ownerKey);
    if i < |live| {
      LiveMembers(init, gone, ownerKey);
      assert w == live[i] && w in init && w != last;
      LiveWithout(init, gone, ownerKey, i);
      WithoutSnoc(live, i, last);
      assert live + [] == live && Without(live, i) + [] == Without(live, i);
    } else {
      assert w == last && w !in init;
      LiveUntouched(init, gone, w, ownerKey);
      assert Without(live + [w], |live|) == live;
    }
  }

  lemma WithoutSnoc(waiters: seq<Waiter>, i: nat, w: Waiter)
    requires i < |waiters|
    ensures Without(waiters + [w], i) == Without(waiters, i) + [w]
  {
  }

  // A waiter that is cancelled or claimed leaves its queue and no other.
  lemma {:induction false} WaiterGoes(queues: Queues, expected: seq<Waiter>, gone: set<Waiter>, o: string, i: nat)
    requires QueuesAreLive(queues, expected, gone) && Distinct(expected) && i < |QueueOf(queues, o)|
    ensures var queue := QueueOf(queues, o);
            && queue[i] in expected && queue[i].ownerKey == o && queue[i] !in gone
            && QueuesAreLive(WithQueue(queues, o, Without(queue, i)), expected, gone + {queue[i]})
  {
    var queue := QueueOf(queues, o);
    var w, more := queue[i], WithQueue(queues, o, Without(queue, i));
    LiveMembers(expected, gone, o);
    assert w in queue;
    QueueOfWith(queues, o, Without(queue, i));
    forall q
      ensures QueueOf(more, q) == Live(expected, gone + {w}, q)
    {
      if q == o {
        LiveWithout(expected, gone, o, i);
      } else {
        LiveUntouched(expected, gone, w, q);
      }
    }
  }

  lemma ClaimedSnoc(matches: seq<Match>, m: Match)
    ensures Claimed(matches + [m]) == Claimed(matches) + {m.waiter}
  {
    assert forall x :: x in matches + [m] <==> x in matches || x == m;
  }

  ghost predicate WaitersValid(s: State) {
    QueuesAreLive(s.queues, s.expected, Gone(s)) && OneToOne(s)
  }

  lemma OnlyKnownWaitersGo(s: State)
    requires OneToOne(s)
    ensures forall w :: w in Gone(s) ==> w in s.expected
  {
    forall w | w in Claimed(s.matches)
      ensures w in s.expected
    {
      var m :| m in s.matches && m.waiter == w;
    }
  }

  lemma {:induction false} ExpectLive(queues: Queues, expected: seq<Waiter>, gone: set<Waiter>, w: Waiter)
    requires QueuesAreLive(queues, expected, gone) && w !in gone
    ensures QueuesAreLive(WithQueue(queues, w.ownerKey, QueueOf(queues, w.ownerKey) + [w]), expected + [w], gone)
  {
    var more := WithQueue(queues, w.ownerKey, QueueOf(queues, w.ownerKey) + [w]);
    QueueOfWith(queues, w.ownerKey, QueueOf(queues, w.ownerKey) + [w]);
    forall o
      ensures QueueOf(more, o) == Live(expected + [w], gone, o)
    {
      LiveSnoc(expected, w, gone, o);
    }
  }

  lemma {:induction false} ExpectValid(s: State, w: Waiter)
    requires WaitersValid(s) && w !in s.expected
    ensures WaitersValid(Expect(s, w))
  {
    OnlyKnownWaitersGo(s);
    ExpectLive(s.queues, s.expected, Gone(s), w);
    assert Gone(Expect(s, w)) == Gone(s);
    assert forall x :: x in s.expected ==> x in s.expected + [w];
  }

  lemma {:induction false} CancelValid(s: State, w: Waiter)
    requires WaitersValid(s)
    ensures WaitersValid(Cancel(s, w))
  {
    var queue := QueueOf(s.queues, w.ownerKey);
    var i := IndexOfWaiter(queue, w);
    if i < |queue| {
      WaiterGoes(s.queues, s.expected, Gone(s), w.ownerKey, i);
      assert Gone(Cancel(s, w)) == Gone(s) + {w};
      assert forall m :: m in s.matches ==> m.waiter in Claimed(s.matches);
    }
  }

  lemma MatchAdded(s: State, w: Waiter, r: Record, queues: Queues)
    requires OneToOne(s) && r in s.created && (forall m :: m in s.matches ==> m.record != r)
    requires w in s.expected && w.ownerKey == r.ownerKey && w !in Gone(s)
    ensures OneToOne(s.(queues := queues, matches := s.matches + [Match(w, r)]))
  {
    assert forall m :: m in s.matches ==> m.waiter in Claimed(s.matches);
    assert forall m :: m in s.matches + [Match(w, r)] <==> m in s.matches || m == Match(w, r);
  }

  lemma {:induction false} TakeWaiterValid(s: State, item: Item, r: Record)
    requires WaitersValid(s) && r in s.created && forall m :: m in s.matches ==> m.record != r
    ensures WaitersValid(TakeWaiter(s, item, r))
  {
    var queue := QueueOf(s.queues, r.ownerKey);
    var i := FirstMatch(item, queue);
    if i < |queue| {
      WaiterGoes(s.queues, s.expected, Gone(s), r.ownerKey, i);
      ClaimedSnoc(s.matches, Match(queue[i], r));
      assert Gone(TakeWaiter(s, item, r)) == Gone(s) + {queue[i]};
      MatchAdded(s, queue[i], r, WithQueue(s.queues, r.ownerKey, Without(queue, i)));
    }
  }

  lemma {:induction false} NewestMembers(history: seq<Record>)
    ensures forall r :: r in Newest(history) ==> r in history
  {
    if history != [] {
      NewestMembers(history[..|history| - 1]);
      assert history == history[..|history| - 1] + [history[|history| - 1]];
    }
  }

  lemma {:induction false} CreateValid(s: State, item: Item, r: Record)
    requires Valid(s) && forall q :: q in s.created ==> !SharesId(q, r)
    ensures Valid(Create(s, item, r))
  {
    NewestMembers(s.created);
    DistinctFirst(r, s.recent);
    StoreIndexed(s, r);
    TrimmedDistinct([r] + s.recent, r.ownerKey);
    TrimmedIsNewest(r, s.created);
    var u := Store(Forget(s, item.id), r);
    assert forall m :: m in s.matches ==> m.record in s.created;
    forall q
      ensures q in u.created <==> q == r || q in s.created
    {
      ListedMember(r, s.created, q);
    }
    assert WaitersValid(u);
    TakeWaiterValid(u, item, r);
  }

  lemma {:induction false} StepValid(s: State, e: Event)
    requires Valid(s) && Fits(s, e)
    ensures Valid(Step(s, e))
  {
    match e {
      case Expected(w) => ExpectValid(s, w);
      case Cancelled(w) => CancelValid(s, w);
      case Suggested(item) =>
      case Created(item, r) =>
        if OwnerFor(s, item).1.Some? {
          CreateValid(s, item, r);
        }
    }
  }

  // For fresh ids, after any sequence of clicks, cancellations, suggestions and
  // downloads: both indexes map exactly the records of the list, the list is every
  // owner's newest records in their order of creation, the queues hold exactly the
  // waiters still waiting, and waiters and records are matched one to one.
  lemma {:induction false} TrackerAgrees(events: seq<Event>)
    requires AllFit(events)
    ensures Valid(Run(events))
  {
    if events != [] {
      var init, e := events[..|events| - 1], events[|events| - 1];
      forall i | 0 <= i < |init|
        ensures Fits(Run(init[..i]), init[i])
      {
        assert events[..i] == init[..i] && events[i] == init[i];
      }
      TrackerAgrees(init);
      assert Fits(Run(events[..|init|]), events[|init|]);
      StepValid(Run(init), e);
    }
  }

  function OwnedBy(records: seq<Record>, ownerKey: string): seq<Record> {
    if records == [] then []
    else
      var last := records[|records| - 1];
      OwnedBy(records[..|records| - 1], ownerKey) + if last.ownerKey == ownerKey then [last] else []
  }

  // Each owner keeps exactly its newest twenty records, newest first.
  lemma {:induction false} OwnersKeepNewest(history: seq<Record>, ownerKey: string)
    ensures |OwnedBy(history, ownerKey)| == CountOf(history, ownerKey)
    ensures var all := OwnedBy(history, ownerKey);
            OwnedBy(Newest(history), ownerKey) == if |all| <= MAX_RECENT then all else all[..MAX_RECENT]
  {
    if history != [] {
      var init, last := history[..|history| - 1], history[|history| - 1];
      OwnersKeepNewest(init, ownerKey);
      assert (Newest(init) + [last])[..|Newest(init)|] == Newest(init);
      assert Newest(init) + [] == Newest(init);
    }
  }

  // A new download claims the earliest waiter of its owner, among those still
  // waiting, whose site matches; every other waiter stays as it was.
  lemma EarliestMatchClaims(events: seq<Event>, item: Item, r: Record)
    requires AllFit(events) && Fits(Run(events), Created(item, r)) && OwnerFor(Run(events), item).1.Some?
    ensures var s := Run(events);
            var t, live := Step(s, Created(item, r)), Live(s.expected, Gone(s), r.ownerKey);
            var i := FirstMatch(item, live);
            t.matches == s.matches + if i < |live| then [Match(live[i], r)] else []
    ensures var s := Run(events);
            item.id !in s.pendingOwner ==> HasMatch(item, Live(s.expected, Gone(s), r.ownerKey))
  {
    TrackerAgrees(events);
  }

  lemma PendingOwnerKept(s: State, e: Event, id: ChromeId)
    requires id in s.pendingOwner && (e.Created? ==> e.item.id != id)
    ensures id in Step(s, e).pendingOwner && Step(s, e).pendingOwner[id] == s.pendingOwner[id]
  {
  }

  predicate FiledUnder(s: State, id: ChromeId, ownerKey: string) {
    id in s.pendingOwner && s.pendingOwner[id] == ownerKey
  }

  // Whoever a suggestion filed the download under still owns it when it is created,
  // whatever happens in between.
  lemma {:induction false} SuggestedOwnerStays(s: State, item: Item, more: seq<Event>)
    requires OwnerFor(s, item).1.Some? && forall e :: e in more && e.Created? ==> e.item.id != item.id
    ensures FiledUnder(RunFrom(OwnerFor(s, item).0, more), item.id, OwnerFor(s, item).1.value)
  {
    var t, owner := OwnerFor(s, item).0, OwnerFor(s, item).1.value;
    assert FiledUnder(t, item.id, owner);
    FiledUnderStays(t, item.id, owner, more);
  }

  lemma {:induction false} FiledUnderStays(s: State, id: ChromeId, ownerKey: string, more: seq<Event>)
    requires FiledUnder(s, id, ownerKey) && forall e :: e in more && e.Created? ==> e.item.id != id
    ensures FiledUnder(RunFrom(s, more), id, ownerKey)
  {
    if more != [] {
      var init, e := more[..|more| - 1], more[|more| - 1];
      assert e in more && forall x :: x in init ==> x in more;
      FiledUnderStays(s, id, ownerKey, init);
      PendingOwnerKept(RunFrom(s, init), e, id);
    }
  }

  // First position of an owner in the order of the map, or |order|.
  function Place(order: seq<string>, ownerKey: string): (i: nat)
    ensures i <= |order| && (i < |order| <==> ownerKey in order)
  {
    if order == [] || order[0] == ownerKey then 0 else 1 + Place(order[1..], ownerKey)
  }

  // The owner found is the one placed first among those with a waiter that matches.
  lemma {:induction false} MatchingOwnerIsFirst(item: Item, queues: Queues, order: seq<string>, o: string)
    ensures MatchingOwner(item, queues, order) == Some(o) <==>
              && o in order && HasMatch(item, QueueOf(queues, o))
              && forall p :: p in order && Place(order, p) < Place(order, o) ==> !HasMatch(item, QueueOf(queues, p))
  {
    if order != [] {
      MatchingOwnerIsFirst(item, queues, order[1..], o);
      assert order == [order[0]] + order[1..];
      assert forall p :: p != order[0] ==> Place(order, p) == 1 + Place(order[1..], p);
    }
  }

  lemma {:induction false} MatchingWaiter(item: Item, waiters: seq<Waiter>, w: Waiter)
    requires w in waiters && MatchesSite(item, w.site)
    ensures HasMatch(item, waiters)
  {
  }

  // Waiter i is the oldest, of any owner, that still waits and matches.
  ghost predicate OldestMatch(s: State, item: Item, i: nat) {
    && i < |s.expected| && s.expected[i] !in Gone(s) && MatchesSite(item, s.expected[i].site)
    && forall j :: 0 <= j < i ==> s.expected[j] in Gone(s) || !MatchesSite(item, s.expected[j].site)
  }

  // A new download goes to the owner of the oldest matching waiter if and only if no
  // owner placed before it in the map has a matching waiter too.
  lemma OldestWaiterWinsExactly(events: seq<Event>, item: Item, i: nat)
    requires AllFit(events) && item.id !in Run(events).pendingOwner && OldestMatch(Run(events), item, i)
    ensures var s := Run(events);
            var owner := s.expected[i].ownerKey;
            OwnerFor(s, item).1 == Some(owner) <==>
              forall p :: p in s.queues.order && Place(s.queues.order, p) < Place(s.queues.order, owner) ==>
                            !HasMatch(item, Live(s.expected, Gone(s), p))
  {
    var s := Run(events);
    var w := s.expected[i];
    TrackerAgrees(events);
    LiveMembers(s.expected, Gone(s), w.ownerKey);
    assert w in QueueOf(s.queues, w.ownerKey);
    MatchingWaiter(item, QueueOf(s.queues, w.ownerKey), w);
    MatchingOwnerIsFirst(item, s.queues, s.queues.order, w.ownerKey);
  }

  lemma RunThree(a: Event, b: Event, c: Event)
    ensures Run([]) == EMPTY && Run([a]) == Step(EMPTY, a) && Run([a, b]) == Step(Step(EMPTY, a), b)
    ensures Run([a, b, c]) == Step(Step(Step(EMPTY, a), b), c)
  {
    assert [a][..0] == [];
    assert [a, b][..1] == [a];
    assert [a, b, c][..2] == [a, b];
  }

  // Owner a announces waiter x, owner b waiter y, and a waiter z.
  lemma ThreeWaiters(x: Waiter, y: Waiter, z: Waiter)
    requires x.ownerKey == z.ownerKey != y.ownerKey
    ensures var s := Expect(Expect(Expect(EMPTY, x), y), z);
            && s.expected == [x, y, z] && Gone(s) == {} && s.pendingOwner == map[]
            && s.queues.order == [x.ownerKey, y.ownerKey] && QueueOf(s.queues, x.ownerKey) == [x, z]
  {
    var s := Expect(Expect(EMPTY, x), y);
    assert QueueOf(EMPTY.queues, x.ownerKey) == [];
    assert s.queues.order == [x.ownerKey, y.ownerKey] && QueueOf(s.queues, x.ownerKey) == [x];
  }

  lemma ThreeFit(x: Waiter, y: Waiter, z: Waiter)
    requires x != y && y != z && x != z
    ensures AllFit([Expected(x), Expected(y), Expected(z)])
  {
    var events := [Expected(x), Expected(y), Expected(z)];
    RunThree(Expected(x), Expected(y), Expected(z));
    forall i | 0 <= i < 3
      ensures Fits(Run(events[..i]), events[i])
    {
      if i == 0 {
        assert events[..i] == [];
      } else if i == 1 {
        assert events[..i] == [Expected(x)];
        assert Step(EMPTY, Expected(x)).expected == [x];
      } else {
        assert events[..i] == [Expected(x), Expected(y)];
        assert Step(Step(EMPTY, Expected(x)), Expected(y)).expected == [x, y];
      }
    }
  }

  // It need not go there: owner a announces a waiter for site x, owner b one for site y,
  // and a another for y. A download from y goes to a, although b's waiter is older.
  lemma OldestWaiterLoses()
    ensures var x, y := Waiter(0, "a", Some("x")), Waiter(1, "b", Some("y"));
            var events := [Expected(x), Expected(y), Expected(Waiter(2, "a", Some("y")))];
            var item := Item(ChromeId(7), None, Some("y"));
            AllFit(events) && OldestMatch(Run(events), item, 1) && OwnerFor(Run(events), item).1 == Some("a")
  {
    var x, y, z := Waiter(0, "a", Some("x")), Waiter(1, "b", Some("y")), Waiter(2, "a", Some("y"));
    var item := Item(ChromeId(7), None, Some("y"));
    ThreeFit(x, y, z);
    RunThree(Expected(x), Expected(y), Expected(z));
    ThreeWaiters(x, y, z);
    assert !MatchesSite(item, x.site) && MatchesSite(item, z.site);
    MatchingWaiter(item, [x, z], z);
  }
}
