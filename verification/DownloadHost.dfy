/**
 The download tracker as the object it is: records are shared by the list, both
 indexes and the waiter that claimed them, and change in place.
 */
module DownloadHost {
  import opened Wrappers
  import opened DownloadTracker

  datatype Status = Status(state: string, path: string, size: int, interruptReason: string)

  // The browser's report of a change; absent parts say nothing.
  datatype Delta = Delta(id: ChromeId, path: Option<string>, size: Option<int>, error: Option<string>, state: Option<string>)

  const INTERRUPTED := "interrupted"
  const DEFAULT_REASON := "the download was interrupted before it finished"

  predicate Said(part: Option<string>) { part.Some? && part.value != "" }

  // What one report of the browser changes; an empty part says nothing.
  function Changed(s: Status, d: Delta): Status {
    var t := s.(path := if Said(d.path) then d.path.value else s.path,
                size := d.size.GetOr(s.size),
                interruptReason := if Said(d.error) then d.error.value else s.interruptReason);
    if !Said(d.state) then t
    else t.(state := d.state.value,
            interruptReason := if d.state.value == INTERRUPTED && t.interruptReason == "" then DEFAULT_REASON
                               else t.interruptReason)
  }

  function ChangedByAll(s: Status, deltas: seq<Delta>): Status {
    if deltas == [] then s else Changed(ChangedByAll(s, deltas[..|deltas| - 1]), deltas[|deltas| - 1])
  }

  // What the browser says of a download when it creates it; absent parts are filled in.
  datatype Details = Details(state: Option<string>, path: Option<string>, size: Option<int>)

  function StatusAtCreation(d: Details): Status {
    Status(d.state.GetOr("in_progress"), d.path.GetOr(""), d.size.GetOr(0), "")
  }

  predicate Unexplained(s: Status) { s.state == INTERRUPTED && s.interruptReason == "" }

  predicate SaysNothingOfIt(d: Delta) { !Said(d.error) && !Said(d.state) }

  lemma ChangeExplains(s: Status, d: Delta)
    ensures Unexplained(Changed(s, d)) <==> Unexplained(s) && SaysNothingOfIt(d)
  {
    assert |DEFAULT_REASON| > 0;
  }

  lemma {:induction false} StaysUnexplainedExactly(s: Status, deltas: seq<Delta>)
    ensures Unexplained(ChangedByAll(s, deltas)) <==> Unexplained(s) && forall d :: d in deltas ==> SaysNothingOfIt(d)
  {
    if deltas != [] {
      var init, d := deltas[..|deltas| - 1], deltas[|deltas| - 1];
      StaysUnexplainedExactly(s, init);
      ChangeExplains(ChangedByAll(s, init), d);
      assert deltas == init + [d];
    }
  }

  // A download says why it was interrupted, unless it was created interrupted, which
  // names no reason, and no report since named an error or a state.
  lemma InterruptedSaysWhyExactly(created: Details, deltas: seq<Delta>)
    ensures Unexplained(ChangedByAll(StatusAtCreation(created), deltas)) <==>
              created.state == Some(INTERRUPTED) && forall d :: d in deltas ==> SaysNothingOfIt(d)
  {
    StaysUnexplainedExactly(StatusAtCreation(created), deltas);
  }

  // One record, shared by the list, both indexes and the waiter that claimed it.
  class DownloadRecord {
    const ids: Record
    var status: Status

    constructor (ids: Record, status: Status)
      ensures this.ids == ids && this.status == status
    {
      this.ids, this.status := ids, status;
    }
  }

  function IdsOf(records: seq<DownloadRecord>): (ids: seq<Record>)
    ensures |ids| == |records| && forall i :: 0 <= i < |ids| ==> ids[i] == records[i].ids
  {
    if records == [] then [] else IdsOf(records[..|records| - 1]) + [records[|records| - 1].ids]
  }

  function IdsIn<K>(index: map<K, DownloadRecord>): map<K, Record> {
    map k | k in index :: index[k].ids
  }

  // The indexes lead to the listed objects themselves.
  ghost predicate SharedIn(recent: seq<DownloadRecord>, chrome: map<ChromeId, DownloadRecord>,
                           download: map<string, DownloadRecord>) {
    (forall k :: k in chrome ==> chrome[k] in recent) && (forall k :: k in download ==> download[k] in recent)
  }

  class Tracker {
    var recent: seq<DownloadRecord>
    var byChromeId: map<ChromeId, DownloadRecord>
    var byDownloadId: map<string, DownloadRecord>
    var queues: Queues
    var pendingOwner: map<ChromeId, string>
    var claimed: map<Waiter, DownloadRecord>
    ghost var created: seq<Record>
    ghost var expected: seq<Waiter>
    ghost var cancelled: set<Waiter>
    ghost var matches: seq<Match>

    ghost function View(): State
      reads this
    {
      State(IdsOf(recent), IdsIn(byChromeId), IdsIn(byDownloadId), queues, pendingOwner, created, expected, cancelled, matches)
    }

    ghost predicate Shared()
      reads this
    {
      SharedIn(recent, byChromeId, byDownloadId)
    }

    constructor ()
      ensures View() == EMPTY && Shared()
    {
      recent, byChromeId, byDownloadId := [], map[], map[];
      queues, pendingOwner, claimed := Queues([], map[]), map[], map[];
      created, expected, cancelled, matches := [], [], {}, [];
    }

    method ExpectDownload(w: Waiter)
      modifies this
      ensures View() == Expect(old(View()), w)
      ensures recent == old(recent) && byChromeId == old(byChromeId) && byDownloadId == old(byDownloadId)
    {
      var queue := if w.ownerKey in queues.of then queues.of[w.ownerKey] else [];
      queues := WithQueue(queues, w.ownerKey, queue + [w]);
      expected := expected + [w];
    }

    method CancelWaiter(w: Waiter)
      modifies this
      ensures View() == Cancel(old(View()), w)
      ensures recent == old(recent) && byChromeId == old(byChromeId) && byDownloadId == old(byDownloadId)
    {
      if w.ownerKey !in queues.of { return; }
      var live := queues.of[w.ownerKey];
      var at := IndexOfWaiter(live, w);
      if at < |live| {
        queues := WithQueue(queues, w.ownerKey, live[..at] + live[at + 1..]);
        cancelled := cancelled + {w};
      }
    }

    method FindMatch(item: Item, waiters: seq<Waiter>) returns (i: nat)
      ensures i == FirstMatch(item, waiters)
    {
      i := 0;
      while i < |waiters| && !MatchesSite(item, waiters[i].site)
        invariant i <= |waiters| && FirstMatch(item, waiters) == i + FirstMatch(item, waiters[i..])
      {
        assert waiters[i..][1..] == waiters[i + 1..];
        i := i + 1;
      }
    }

    method FindOwner(item: Item) returns (owner: Option<string>)
      modifies this`pendingOwner
      ensures (View(), owner) == OwnerFor(old(View()), item)
    {
      if item.id in pendingOwner { return Some(pendingOwner[item.id]); }
      var order := queues.order;
      assert order[0..] == order;
      for i := 0 to |order|
        invariant MatchingOwner(item, queues, order) == MatchingOwner(item, queues, order[i..])
        invariant pendingOwner == old(pendingOwner)
      {
        assert order[i..][1..] == order[i + 1..];
        var queue := if order[i] in queues.of then queues.of[order[i]] else [];
        var at := FindMatch(item, queue);
        if at < |queue| {
          pendingOwner := pendingOwner[item.id := order[i]];
          return Some(order[i]);
        }
      }
      return None;
    }

    method ClaimWaiter(item: Item, r: DownloadRecord)
      modifies this
      ensures View() == TakeWaiter(old(View()), item, r.ids)
      ensures recent == old(recent) && byChromeId == old(byChromeId) && byDownloadId == old(byDownloadId)
      ensures var queue := QueueOf(old(queues), r.ids.ownerKey);
              var i := FirstMatch(item, queue);
              claimed == if i < |queue| then old(claimed)[queue[i] := r] else old(claimed)
    {
      if r.ids.ownerKey !in queues.of { return; }
      var queue := queues.of[r.ids.ownerKey];
      var at := FindMatch(item, queue);
      if at == |queue| { return; }
      queues := WithQueue(queues, r.ids.ownerKey, queue[..at] + queue[at + 1..]);
      claimed := claimed[queue[at] := r];
      matches := matches + [Match(queue[at], r.ids)];
    }

    method StoreRecord(r: DownloadRecord)
      modifies this`recent, this`byChromeId, this`byDownloadId, this`created
      ensures View() == Store(old(View()), r.ids)
      ensures old(Shared()) && Indexed(old(View())) && DistinctIds([r.ids] + old(View()).recent) ==> Shared()
    {
      recent, byChromeId, byDownloadId := ListRecord(View(), recent, byChromeId, byDownloadId, r);
      created := [r.ids] + created;
    }

    // What `onCreated` does once it knows the owner.
    method FileRecord(item: Item, r: DownloadRecord)
      modifies this
      ensures View() == Create(old(View()), item, r.ids)
      ensures old(Shared()) && Indexed(old(View())) && DistinctIds([r.ids] + old(View()).recent) ==> Shared()
    {
      StoreRecord(r);
      pendingOwner := pendingOwner - {item.id};
      ClaimWaiter(item, r);
    }

    method OnCreated(item: Item, downloadId: string, details: Details) returns (r: DownloadRecord?)
      modifies this
      ensures r == null <==> OwnerFor(old(View()), item).1.None?
      ensures r == null ==> View() == old(View())
      ensures r != null ==>
                && fresh(r) && r.ids == Record(downloadId, item.id, OwnerFor(old(View()), item).1.value)
                && r.status == StatusAtCreation(details)
                && View() == Step(old(View()), Created(item, r.ids))
      ensures old(Shared()) && Valid(old(View())) && (r != null ==> Fits(old(View()), Created(item, r.ids))) ==>
                Shared() && Valid(View())
    {
      ghost var s := View();
      var owner := FindOwner(item);
      if owner.None? { return null; }
      r := new DownloadRecord(Record(downloadId, item.id, owner.value), StatusAtCreation(details));
      OwnerIsForgotten(s, item);
      if Valid(s) && Fits(s, Created(item, r.ids)) {
        StepValid(s, Created(item, r.ids));
        FreshIsDistinct(s, r.ids);
      }
      FileRecord(item, r);
    }

    // A report about an unknown download changes nothing; a known one changes its
    // record, which the list and both indexes share.
    method OnChanged(d: Delta)
      modifies if d.id in byChromeId then {byChromeId[d.id]} else {}
      ensures d.id in byChromeId ==> byChromeId[d.id].status == Changed(old(byChromeId[d.id].status), d)
    {
      if d.id !in byChromeId { return; }
      var record := byChromeId[d.id];
      record.status := Changed(record.status, d);
    }

    // Only the owner finds its download.
    method Find(ownerKey: string, downloadId: string) returns (r: DownloadRecord?)
      requires Valid(View()) && Shared()
      ensures r != null ==> r in recent && r.ids.ownerKey == ownerKey && r.ids.downloadId == downloadId
      ensures r == null ==> forall q :: q in recent ==> q.ids.ownerKey != ownerKey || q.ids.downloadId != downloadId
    {
      forall q | q in recent
        ensures q.ids.downloadId in byDownloadId && byDownloadId[q.ids.downloadId].ids == q.ids
      {
        var i :| 0 <= i < |recent| && recent[i] == q;
        assert IdsOf(recent)[i] == q.ids && q.ids in View().recent;
      }
      if downloadId !in byDownloadId { return null; }
      r := byDownloadId[downloadId];
      assert IdsIn(byDownloadId)[downloadId] == r.ids && r.ids.downloadId == downloadId;
      if r.ids.ownerKey != ownerKey { r := null; }
    }
  }

  lemma IdsOfFirst(r: DownloadRecord, records: seq<DownloadRecord>)
    ensures IdsOf([r] + records) == [r.ids] + IdsOf(records)
  {
  }

  lemma IdsInUpdate<K>(index: map<K, DownloadRecord>, k: K, r: DownloadRecord)
    ensures IdsIn(index[k := r]) == IdsIn(index)[k := r.ids]
  {
  }

  lemma IdsInMinus<K>(index: map<K, DownloadRecord>, keys: set<K>)
    ensures IdsIn(index - keys) == IdsIn(index) - keys
  {
  }

  lemma OwnerIsForgotten(s: State, item: Item)
    ensures Forget(OwnerFor(s, item).0, item.id) == Forget(s, item.id)
  {
  }

  lemma FreshIsDistinct(s: State, r: Record)
    requires Valid(s) && forall q :: q in s.created ==> !SharesId(q, r)
    ensures DistinctIds([r] + s.recent)
  {
    NewestMembers(s.created);
    DistinctFirst(r, s.recent);
  }

  // An index whose entries are all still listed leads to the listed objects themselves.
  lemma {:induction false} KeptShared<K(!new)>(list: seq<DownloadRecord>, kept: seq<DownloadRecord>,
                                               index: map<K, DownloadRecord>, key: Record -> K)
    requires DistinctIds(IdsOf(list)) && forall q :: q in kept ==> q in list
    requires forall k :: k in index ==> index[k] in list
    requires IndexedBy(IdsOf(kept), IdsIn(index), key)
    ensures forall k :: k in index ==> index[k] in kept
  {
    forall k | k in index
      ensures index[k] in kept
    {
      assert IdsIn(index)[k] == index[k].ids;
      var j :| 0 <= j < |kept| && IdsOf(kept)[j] == index[k].ids;
      assert kept[j] in kept;
      var a :| 0 <= a < |list| && list[a] == index[k];
      var b :| 0 <= b < |list| && list[b] == kept[j];
      assert SharesId(IdsOf(list)[a], IdsOf(list)[b]) && SharesId(IdsOf(list)[b], IdsOf(list)[a]);
    }
  }

  lemma {:induction false} StoredShared(s: State, r: DownloadRecord, recent: seq<DownloadRecord>,
                      chrome: map<ChromeId, DownloadRecord>, download: map<string, DownloadRecord>, kept: seq<DownloadRecord>,
                      chromeNow: map<ChromeId, DownloadRecord>, downloadNow: map<string, DownloadRecord>)
    requires s.recent == IdsOf(recent) && Indexed(s) && DistinctIds([r.ids] + s.recent)
    requires SharedIn(recent, chrome, download)
    requires forall k :: k in chromeNow ==> chromeNow[k] == r || (k in chrome && chromeNow[k] == chrome[k])
    requires forall k :: k in downloadNow ==> downloadNow[k] == r || (k in download && downloadNow[k] == download[k])
    requires forall q :: q in kept ==> q in [r] + recent
    requires var t := Store(s, r.ids);
             IdsOf(kept) == t.recent && IdsIn(chromeNow) == t.byChromeId && IdsIn(downloadNow) == t.byDownloadId
    ensures SharedIn(kept, chromeNow, downloadNow)
  {
    StoreIndexed(s, r.ids);
    IdsOfFirst(r, recent);
    assert ([r] + recent)[0] == r;
    KeptShared([r] + recent, kept, chromeNow, ChromeIdOf);
    KeptShared([r] + recent, kept, downloadNow, DownloadIdOf);
  }

  // The new record goes first, under both its ids; then the list is trimmed.
  method ListRecord(ghost s: State, recent: seq<DownloadRecord>, chrome: map<ChromeId, DownloadRecord>,
                    download: map<string, DownloadRecord>, r: DownloadRecord)
      returns (kept: seq<DownloadRecord>, chromeNow: map<ChromeId, DownloadRecord>, downloadNow: map<string, DownloadRecord>)
    requires s.recent == IdsOf(recent) && s.byChromeId == IdsIn(chrome) && s.byDownloadId == IdsIn(download)
    ensures var t := Store(s, r.ids);
            IdsOf(kept) == t.recent && IdsIn(chromeNow) == t.byChromeId && IdsIn(downloadNow) == t.byDownloadId
    ensures SharedIn(recent, chrome, download) && Indexed(s) && DistinctIds([r.ids] + s.recent) ==>
              SharedIn(kept, chromeNow, downloadNow)
  {
    var seen;
    kept, chromeNow, downloadNow, seen :=
      TrimList([r] + recent, chrome[r.ids.chromeId := r], download[r.ids.downloadId := r], r.ids.ownerKey);
    StoredIndexes(s, r, recent, chrome, download, kept, seen, chromeNow, downloadNow);
    if SharedIn(recent, chrome, download) && Indexed(s) && DistinctIds([r.ids] + s.recent) {
      StoredShared(s, r, recent, chrome, download, kept, chromeNow, downloadNow);
    }
  }

  lemma {:induction false} StoredIndexes(s: State, r: DownloadRecord, recent: seq<DownloadRecord>,
                      chrome: map<ChromeId, DownloadRecord>, download: map<string, DownloadRecord>,
                      kept: seq<DownloadRecord>, seen: nat,
                      chromeNow: map<ChromeId, DownloadRecord>, downloadNow: map<string, DownloadRecord>)
    requires s.recent == IdsOf(recent) && s.byChromeId == IdsIn(chrome) && s.byDownloadId == IdsIn(download)
    requires TrimmedSoFar(IdsOf([r] + recent), r.ids.ownerKey, kept, seen, chrome[r.ids.chromeId := r], chromeNow,
                          download[r.ids.downloadId := r], downloadNow)
    ensures var t := Store(s, r.ids);
            IdsOf(kept) == t.recent && IdsIn(chromeNow) == t.byChromeId && IdsIn(downloadNow) == t.byDownloadId
  {
    var dropped := Dropped([r.ids] + s.recent, r.ids.ownerKey);
    IdsOfFirst(r, recent);
    IdsInUpdate(chrome, r.ids.chromeId, r);
    IdsInUpdate(download, r.ids.downloadId, r);
    IdsInMinus(chrome[r.ids.chromeId := r], ChromeIds(dropped));
    IdsInMinus(download[r.ids.downloadId := r], DownloadIds(dropped));
  }

  // Walks the list and splices out what its owner has too many of.
  method TrimList(list: seq<DownloadRecord>, chrome: map<ChromeId, DownloadRecord>, download: map<string, DownloadRecord>,
                  ownerKey: string)
      returns (kept: seq<DownloadRecord>, chromeNow: map<ChromeId, DownloadRecord>, downloadNow: map<string, DownloadRecord>,
               seen: nat)
    ensures TrimmedSoFar(IdsOf(list), ownerKey, kept, seen, chrome, chromeNow, download, downloadNow)
    ensures forall q :: q in kept ==> q in list
  {
    kept, chromeNow, downloadNow, seen := list, chrome, download, 0;
    var i := 0;
    ghost var walked: seq<DownloadRecord> := [];
    while i < |kept|
      invariant i <= |kept| && walked + kept[i..] == list
      invariant forall q :: q in kept ==> q in list
      invariant TrimmedSoFar(IdsOf(walked), ownerKey, kept[..i], seen, chrome, chromeNow, download, downloadNow)
      decreases |kept| - i
    {
      var r := kept[i];
      NextOf(walked, kept, i);
      if r.ids.ownerKey == ownerKey && seen >= MAX_RECENT {
        DropOne(walked, ownerKey, kept[..i], seen, chrome, chromeNow, download, downloadNow, r);
        chromeNow := chromeNow - {r.ids.chromeId};
        downloadNow := downloadNow - {r.ids.downloadId};
        kept := kept[..i] + kept[i + 1..];
        seen := seen + 1;
      } else {
        KeepOne(walked, ownerKey, kept[..i], seen, chrome, chromeNow, download, downloadNow, r);
        seen := if r.ids.ownerKey == ownerKey then seen + 1 else seen;
        i := i + 1;
      }
      walked := walked + [r];
    }
    assert kept[..i] == kept && walked == list;
  }

  // Moving on by one record, keeping it or splicing it out.
  lemma NextOf<T>(walked: seq<T>, s: seq<T>, i: nat)
    requires i < |s|
    ensures (walked + [s[i]]) + s[i + 1..] == walked + s[i..] && s[..i + 1] == s[..i] + [s[i]]
    ensures (s[..i] + s[i + 1..])[..i] == s[..i] && (s[..i] + s[i + 1..])[i..] == s[i + 1..]
  {
  }

  // What the walk over the list has done once it is past the records `done`.
  ghost predicate TrimmedSoFar(done: seq<Record>, ownerKey: string, kept: seq<DownloadRecord>, seen: nat,
                               chrome: map<ChromeId, DownloadRecord>, chromeNow: map<ChromeId, DownloadRecord>,
                               download: map<string, DownloadRecord>, downloadNow: map<string, DownloadRecord>) {
    && IdsOf(kept) == Trimmed(done, ownerKey)
    && seen == CountOf(done, ownerKey)
    && chromeNow == chrome - ChromeIds(Dropped(done, ownerKey))
    && downloadNow == download - DownloadIds(Dropped(done, ownerKey))
  }

  lemma {:induction false} KeepOne(walked: seq<DownloadRecord>, ownerKey: string, kept: seq<DownloadRecord>, seen: nat,
                chrome: map<ChromeId, DownloadRecord>, chromeNow: map<ChromeId, DownloadRecord>,
                download: map<string, DownloadRecord>, downloadNow: map<string, DownloadRecord>, r: DownloadRecord)
    requires TrimmedSoFar(IdsOf(walked), ownerKey, kept, seen, chrome, chromeNow, download, downloadNow)
    requires !(r.ids.ownerKey == ownerKey && seen >= MAX_RECENT)
    ensures TrimmedSoFar(IdsOf(walked + [r]), ownerKey, kept + [r], if r.ids.ownerKey == ownerKey then seen + 1 else seen,
                         chrome, chromeNow, download, downloadNow)
  {
    IdsOfSnoc(kept, r);
    IdsOfSnoc(walked, r);
    TrimStep(IdsOf(walked), r.ids, ownerKey);
    assert Dropped(IdsOf(walked + [r]), ownerKey) == Dropped(IdsOf(walked), ownerKey);
  }

  lemma MinusMore<K, V>(m: map<K, V>, keys: set<K>, k: K)
    ensures m - keys - {k} == m - (keys + {k})
  {
  }

  lemma {:induction false} DropOne(walked: seq<DownloadRecord>, ownerKey: string, kept: seq<DownloadRecord>, seen: nat,
                chrome: map<ChromeId, DownloadRecord>, chromeNow: map<ChromeId, DownloadRecord>,
                download: map<string, DownloadRecord>, downloadNow: map<string, DownloadRecord>, r: DownloadRecord)
    requires TrimmedSoFar(IdsOf(walked), ownerKey, kept, seen, chrome, chromeNow, download, downloadNow)
    requires r.ids.ownerKey == ownerKey && seen >= MAX_RECENT
    ensures TrimmedSoFar(IdsOf(walked + [r]), ownerKey, kept, seen + 1,
                         chrome, chromeNow - {r.ids.chromeId}, download, downloadNow - {r.ids.downloadId})
  {
    IdsOfSnoc(walked, r);
    TrimStep(IdsOf(walked), r.ids, ownerKey);
    MinusMore(chrome, ChromeIds(Dropped(IdsOf(walked), ownerKey)), r.ids.chromeId);
    MinusMore(download, DownloadIds(Dropped(IdsOf(walked), ownerKey)), r.ids.downloadId);
  }

  lemma IdsOfSnoc(records: seq<DownloadRecord>, r: DownloadRecord)
    ensures IdsOf(records + [r]) == IdsOf(records) + [r.ids]
  {
    assert (records + [r])[..|records|] == records;
  }

  lemma {:induction false} TrimStep(ids: seq<Record>, r: Record, ownerKey: string)
    ensures var excess := r.ownerKey == ownerKey && CountOf(ids, ownerKey) >= MAX_RECENT;
            && CountOf(ids + [r], ownerKey) == CountOf(ids, ownerKey) + (if r.ownerKey == ownerKey then 1 else 0)
            && Trimmed(ids + [r], ownerKey) == Trimmed(ids, ownerKey) + (if excess then [] else [r])
            && Dropped(ids + [r], ownerKey) == Dropped(ids, ownerKey) + (if excess then {r} else {})
            && ChromeIds(Dropped(ids + [r], ownerKey))
               == ChromeIds(Dropped(ids, ownerKey)) + (if excess then {r.chromeId} else {})
            && DownloadIds(Dropped(ids + [r], ownerKey))
               == DownloadIds(Dropped(ids, ownerKey)) + (if excess then {r.downloadId} else {})
  {
    assert (ids + [r])[..|ids|] == ids;
  }
}
