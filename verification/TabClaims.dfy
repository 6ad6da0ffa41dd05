/**
 Which conversation may act on which browser tab. Resolvers interleave freely:
 each one looks the tab up asynchronously and then runs to completion, so a run
 of the table is any sequence of the steps below.
 */
module TabClaims {
  import opened Wrappers

  const SEPARATOR: char := 0 as char
  const LEGACY := "legacy"
  const MAIN_RUN := "main"

  datatype Owner = Owner(conversation: string, run: string)

  const LEGACY_OWNER := Owner(LEGACY, MAIN_RUN)

  function KeyOf(o: Owner): string {
    o.conversation + [SEPARATOR] + o.run
  }

  predicate IsLegacy(o: Owner) { o.conversation == LEGACY }

  // The white space `trim` strips.
  predicate IsSpace(c: char) {
    c in {' ', '\t', '\n', '\r', '\U{000B}', '\U{000C}', '\U{00A0}', '\U{1680}', '\U{2028}', '\U{2029}',
          '\U{202F}', '\U{205F}', '\U{3000}', '\U{FEFF}'}
    || '\U{2000}' <= c <= '\U{200A}'
  }

  function WithoutSeparator(s: string): (r: string)
    ensures SEPARATOR !in r
    ensures SEPARATOR !in s ==> r == s
  {
    if s == "" then ""
    else if s[0] == SEPARATOR then WithoutSeparator(s[1..])
    else [s[0]] + WithoutSeparator(s[1..])
  }

  function TrimLeft(s: string): (r: string)
    ensures r == "" || !IsSpace(r[0])
    ensures s == "" || !IsSpace(s[0]) ==> r == s
    ensures forall c :: c in r ==> c in s
    ensures r != "" ==> r[|r| - 1] == s[|s| - 1]
  {
    if s == "" || !IsSpace(s[0]) then s else TrimLeft(s[1..])
  }

  function TrimRight(s: string): (r: string)
    ensures r == "" || !IsSpace(r[|r| - 1])
    ensures s == "" || !IsSpace(s[|s| - 1]) ==> r == s
    ensures r <= s
  {
    if s == "" || !IsSpace(s[|s| - 1]) then s else TrimRight(s[..|s| - 1])
  }

  // A part that is not a string reads as the empty string.
  function SanitizePart(part: Option<string>): (r: string)
    ensures SEPARATOR !in r
    ensures r == "" || (!IsSpace(r[0]) && !IsSpace(r[|r| - 1]))
  {
    TrimRight(TrimLeft(WithoutSeparator(part.GetOr(""))))
  }

  function MakeOwner(conversation: Option<string>, run: Option<string>): Owner {
    var c, r := SanitizePart(conversation), SanitizePart(run);
    if c == "" || c == LEGACY then LEGACY_OWNER else Owner(c, if r == "" then MAIN_RUN else r)
  }

  function IndexOf(s: string, c: char): (i: nat)
    ensures i <= |s| && (i < |s| <==> c in s) && (i < |s| ==> s[i] == c) && c !in s[..i]
  {
    if s == "" || s[0] == c then 0 else 1 + IndexOf(s[1..], c)
  }

  function ParseOwnerKey(key: string): Owner {
    var at := IndexOf(key, SEPARATOR);
    if at == |key| then MakeOwner(Some(key), Some(MAIN_RUN))
    else MakeOwner(Some(key[..at]), Some(key[at + 1..]))
  }

  // What `makeOwner` can produce.
  predicate Clean(s: string) {
    s != "" && SEPARATOR !in s && !IsSpace(s[0]) && !IsSpace(s[|s| - 1])
  }

  predicate WellMade(o: Owner) {
    Clean(o.conversation) && Clean(o.run) && (IsLegacy(o) ==> o == LEGACY_OWNER)
  }

  lemma SanitizeIsIdentityOnClean(s: string)
    requires Clean(s)
    ensures SanitizePart(Some(s)) == s
  {
  }

  lemma NamesAreClean()
    ensures Clean(LEGACY) && Clean(MAIN_RUN)
  {
  }

  lemma PartsAreClean(part: Option<string>)
    ensures SanitizePart(part) == "" || Clean(SanitizePart(part))
  {
  }

  lemma MadeOwnersAreWellMade(conversation: Option<string>, run: Option<string>)
    ensures WellMade(MakeOwner(conversation, run))
  {
    NamesAreClean();
    PartsAreClean(conversation);
    PartsAreClean(run);
  }

  // Parsing an owner's key gives the owner back, for every pair of parts.
  lemma ParseInvertsKey(conversation: Option<string>, run: Option<string>)
    ensures var o := MakeOwner(conversation, run); ParseOwnerKey(KeyOf(o)) == o
  {
    MadeOwnersAreWellMade(conversation, run);
    WellMadeRoundTrip(MakeOwner(conversation, run));
  }

  lemma WellMadeRoundTrip(o: Owner)
    requires WellMade(o)
    ensures ParseOwnerKey(KeyOf(o)) == o
  {
    var key := KeyOf(o);
    var at := IndexOf(key, SEPARATOR);
    assert key[|o.conversation|] == SEPARATOR;
    assert forall i :: 0 <= i < |o.conversation| ==> key[i] == o.conversation[i] && o.conversation[i] in o.conversation;
    assert at == |o.conversation|;
    assert key[..at] == o.conversation && key[at + 1..] == o.run;
    SanitizeIsIdentityOnClean(o.conversation);
    SanitizeIsIdentityOnClean(o.run);
  }

  lemma KeysAreInjective(o: Owner, q: Owner)
    requires WellMade(o) && WellMade(q) && KeyOf(o) == KeyOf(q)
    ensures o == q
  {
    WellMadeRoundTrip(o);
    WellMadeRoundTrip(q);
  }

  // A browser's number for one of its tabs.
  datatype TabId = TabId(number: int)

  datatype Store = Store(claims: map<TabId, Owner>, current: map<string, TabId>)

  const EMPTY := Store(map[], map[])

  predicate InScope(o: Owner, conversation: string, run: Option<string>) {
    o.conversation == conversation && (run.None? || o.run == run.value)
  }

  function Claim(s: Store, tab: TabId, o: Owner): Store {
    if IsLegacy(o) || tab in s.claims then s else s.(claims := s.claims[tab := o])
  }

  function Touch(s: Store, tab: TabId, o: Owner): Store {
    if IsLegacy(o) then s else s.(current := s.current[KeyOf(o) := tab])
  }

  function ReleaseTab(s: Store, tab: TabId): Store {
    Store(s.claims - {tab}, map k | k in s.current && s.current[k] != tab :: s.current[k])
  }

  function ReleaseOwner(s: Store, conversation: string, run: Option<string>): Store {
    Store(map t | t in s.claims && !InScope(s.claims[t], conversation, run) :: s.claims[t],
          map k | k in s.current && !InScope(ParseOwnerKey(k), conversation, run) :: s.current[k])
  }

  datatype Verdict = Granted(tab: TabId) | StaleTab | OtherConversation

  // What a resolver does once it knows whether the named tab is open.
  function ResolveExplicit(s: Store, o: Owner, tab: TabId, open: bool): (Store, Verdict) {
    if IsLegacy(o) then (s, Granted(tab))
    else if !open then (ReleaseTab(s, tab), StaleTab)
    else if tab !in s.claims then (Touch(Claim(s, tab, o), tab, o), Granted(tab))
    else if KeyOf(s.claims[tab]) != KeyOf(o) && s.claims[tab].conversation != o.conversation then (s, OtherConversation)
    else (Touch(s, tab, o), Granted(tab))
  }

  datatype Event =
    | Resolve(o: Owner, tab: TabId, open: bool)
    | CurrentTabGone(tab: TabId)
    | TabClosed(tab: TabId)
    | Release(conversation: string, run: Option<string>)
    | SocketDropped

  function Step(s: Store, e: Event): Store {
    match e
    case Resolve(o, tab, open) => ResolveExplicit(s, o, tab, open).0
    case CurrentTabGone(tab) => ReleaseTab(s, tab)
    case TabClosed(tab) => ReleaseTab(s, tab)
    case Release(c, r) => ReleaseOwner(s, c, r)
    case SocketDropped => EMPTY
  }

  function Run(events: seq<Event>): Store {
    if events == [] then EMPTY else Step(Run(events[..|events| - 1]), events[|events| - 1])
  }

  // Requests carry owners made by `makeOwner`.
  predicate OwnersWellMade(events: seq<Event>) {
    forall e :: e in events && e.Resolve? ==> WellMade(e.o)
  }

  // Event i grants an explicitly named tab to a request that is not legacy.
  predicate GrantsAt(events: seq<Event>, i: nat, tab: TabId, o: Owner) {
    i < |events| && GrantsNow(Run(events[..i]), events[i], tab, o)
  }

  predicate GrantsNow(s: Store, e: Event, tab: TabId, o: Owner) {
    e.Resolve? && e.tab == tab && e.o == o && !IsLegacy(o) && ResolveExplicit(s, o, tab, e.open).1 == Granted(tab)
  }

  ghost predicate Valid(s: Store) {
    && (forall t :: t in s.claims ==> WellMade(s.claims[t]) && !IsLegacy(s.claims[t]))
    && (forall k :: k in s.current ==> exists o :: WellMade(o) && !IsLegacy(o) && KeyOf(o) == k)
  }

  lemma StepValid(s: Store, e: Event)
    requires Valid(s) && (e.Resolve? ==> WellMade(e.o))
    ensures Valid(Step(s, e))
  {
    var t := Step(s, e);
    forall k | k in t.current
      ensures exists o :: WellMade(o) && !IsLegacy(o) && KeyOf(o) == k
    {
      assert k in s.current || (e.Resolve? && k == KeyOf(e.o));
    }
  }

  lemma {:induction false} RunValid(events: seq<Event>)
    requires OwnersWellMade(events)
    ensures Valid(Run(events))
  {
    if events != [] {
      var init, e := events[..|events| - 1], events[|events| - 1];
      assert e in events && forall x :: x in init ==> x in events;
      RunValid(init);
      StepValid(Run(init), e);
    }
  }

  predicate HeldBy(s: Store, tab: TabId, conversation: string) {
    tab in s.claims && s.claims[tab].conversation == conversation
  }

  lemma RunSnoc(events: seq<Event>, i: nat)
    requires i < |events|
    ensures Run(events[..i + 1]) == Step(Run(events[..i]), events[i])
  {
    assert events[..i + 1][..i] == events[..i];
  }

  // A grant is only ever given with the table holding the tab for the same conversation.
  lemma GrantMeansClaim(events: seq<Event>, i: nat, tab: TabId, o: Owner)
    requires OwnersWellMade(events) && GrantsAt(events, i, tab, o)
    ensures HeldBy(Run(events[..i + 1]), tab, o.conversation)
    ensures tab in Run(events[..i]).claims ==> HeldBy(Run(events[..i]), tab, o.conversation)
  {
    var s := Run(events[..i]);
    RunSnoc(events, i);
    assert forall x :: x in events[..i] ==> x in events;
    RunValid(events[..i]);
    assert events[i] in events;
    if tab in s.claims && KeyOf(s.claims[tab]) == KeyOf(o) {
      KeysAreInjective(s.claims[tab], o);
    }
  }

  // What a resolver answers about a named tab, for every reachable table: a legacy request
  // is let through and leaves no trace; a closed tab is stale; an open one is refused if
  // and only if another conversation holds it. Whoever of the same conversation asks is
  // granted it, becomes its holder if it had none, and has it as current tab.
  lemma AccessIsDecided(events: seq<Event>, o: Owner, tab: TabId, open: bool)
    requires OwnersWellMade(events) && WellMade(o)
    ensures var s := Run(events);
            var (t, v) := ResolveExplicit(s, o, tab, open);
            if IsLegacy(o) then t == s && v == Granted(tab)
            else if !open then v == StaleTab && tab !in t.claims && forall k :: k in t.current ==> t.current[k] != tab
            else if tab in s.claims && s.claims[tab].conversation != o.conversation then t == s && v == OtherConversation
            else && v == Granted(tab)
                 && t.claims == (if tab in s.claims then s.claims else s.claims[tab := o])
                 && t.current == s.current[KeyOf(o) := tab]
  {
    RunValid(events);
    var s := Run(events);
    if tab in s.claims && KeyOf(s.claims[tab]) == KeyOf(o) {
      KeysAreInjective(s.claims[tab], o);
    }
  }

  // The steps that take a tab away from its holder: closing it, finding it closed,
  // a release whose scope covers the holder, and the socket dropping.
  predicate ReleasesHolder(s: Store, e: Event, tab: TabId) {
    && tab in s.claims
    && match e
       case Resolve(o, t, open) => t == tab && !open && !IsLegacy(o)
       case CurrentTabGone(t) => t == tab
       case TabClosed(t) => t == tab
       case Release(c, r) => InScope(s.claims[tab], c, r)
       case SocketDropped => true
  }

  lemma ClaimStaysUnlessReleased(s: Store, e: Event, tab: TabId)
    requires tab in s.claims
    ensures var t := Step(s, e);
            if ReleasesHolder(s, e, tab) then tab !in t.claims else tab in t.claims && t.claims[tab] == s.claims[tab]
  {
  }

  // From a moment when one conversation holds a tab to one when it no longer does,
  // a release of that holder took place.
  lemma {:induction false} LosingATabTakesARelease(events: seq<Event>, i: nat, j: nat, tab: TabId, conversation: string)
      returns (k: nat)
    requires i <= j <= |events| && HeldBy(Run(events[..i]), tab, conversation) && !HeldBy(Run(events[..j]), tab, conversation)
    ensures i <= k < j && HeldBy(Run(events[..k]), tab, conversation) && ReleasesHolder(Run(events[..k]), events[k], tab)
    decreases j - i
  {
    RunSnoc(events, i);
    ClaimStaysUnlessReleased(Run(events[..i]), events[i], tab);
    if ReleasesHolder(Run(events[..i]), events[i], tab) {
      k := i;
    } else {
      k := LosingATabTakesARelease(events, i + 1, j, tab, conversation);
    }
  }

  // Two conversations are never granted the same tab without a release in between.
  lemma GrantsAreSeparated(events: seq<Event>, i: nat, j: nat, tab: TabId, o: Owner, q: Owner) returns (k: nat)
    requires OwnersWellMade(events) && i < j
    requires GrantsAt(events, i, tab, o) && GrantsAt(events, j, tab, q) && o.conversation != q.conversation
    ensures i < k < j && HeldBy(Run(events[..k]), tab, o.conversation) && ReleasesHolder(Run(events[..k]), events[k], tab)
  {
    GrantMeansClaim(events, i, tab, o);
    GrantMeansClaim(events, j, tab, q);
    k := LosingATabTakesARelease(events, i + 1, j, tab, o.conversation);
  }

  // Other steps neither move a current-tab pointer nor set one up.
  lemma PointerMovesByGrant(s: Store, e: Event, o: Owner)
    requires WellMade(o) && !IsLegacy(o) && (e.Resolve? ==> WellMade(e.o)) && KeyOf(o) in Step(s, e).current
    ensures var tab := Step(s, e).current[KeyOf(o)];
            || (e.Resolve? && e.o == o && e.tab == tab && ResolveExplicit(s, o, tab, e.open).1 == Granted(tab))
            || (KeyOf(o) in s.current && s.current[KeyOf(o)] == tab
                && (e.Resolve? && e.o == o ==> ResolveExplicit(s, o, e.tab, e.open).1 != Granted(e.tab)))
  {
    if e.Resolve? && KeyOf(e.o) == KeyOf(o) {
      KeysAreInjective(e.o, o);
    }
  }

  // Event i grants o the tab, and no later event grants o any.
  ghost predicate LastGrant(events: seq<Event>, i: nat, tab: TabId, o: Owner) {
    GrantsAt(events, i, tab, o) && forall j, t :: i < j < |events| ==> !GrantsAt(events, j, t, o)
  }

  lemma GrantsSnoc(events: seq<Event>, e: Event, i: nat, tab: TabId, o: Owner)
    ensures GrantsAt(events + [e], i, tab, o)
       <==> if i == |events| then GrantsNow(Run(events), e, tab, o) else GrantsAt(events, i, tab, o)
  {
    var more := events + [e];
    if i < |events| {
      assert more[..i] == events[..i] && more[i] == events[i];
    } else if i == |events| {
      assert more[..i] == events && more[i] == e;
    }
  }

  lemma LastGrantSnoc(events: seq<Event>, e: Event, i: nat, tab: TabId, o: Owner)
    requires if i == |events| then GrantsNow(Run(events), e, tab, o)
             else LastGrant(events, i, tab, o) && forall t :: !GrantsNow(Run(events), e, t, o)
    ensures LastGrant(events + [e], i, tab, o)
  {
    GrantsSnoc(events, e, i, tab, o);
    forall j, t | i < j < |events + [e]|
      ensures !GrantsAt(events + [e], j, t, o)
    {
      GrantsSnoc(events, e, j, t, o);
    }
  }

  // If o has a current tab, event i granted it, and o was granted none since.
  ghost predicate CurrentFrom(events: seq<Event>, s: Store, i: nat, o: Owner) {
    KeyOf(o) in s.current ==> LastGrant(events, i, s.current[KeyOf(o)], o)
  }

  lemma CurrentTabStep(events: seq<Event>, e: Event, o: Owner, i: nat) returns (k: nat)
    requires WellMade(o) && !IsLegacy(o) && (e.Resolve? ==> WellMade(e.o))
    requires CurrentFrom(events, Run(events), i, o)
    ensures CurrentFrom(events + [e], Step(Run(events), e), k, o)
  {
    var s := Run(events);
    k := i;
    if KeyOf(o) in Step(s, e).current {
      var tab := Step(s, e).current[KeyOf(o)];
      PointerMovesByGrant(s, e, o);
      if GrantsNow(s, e, tab, o) { k := |events|; }
      LastGrantSnoc(events, e, k, tab, o);
    }
  }

  // An owner's current tab is the tab it was granted last.
  lemma {:induction false} CurrentTabIsLastGranted(events: seq<Event>, o: Owner) returns (k: nat)
    requires OwnersWellMade(events) && WellMade(o) && !IsLegacy(o)
    ensures CurrentFrom(events, Run(events), k, o)
  {
    if events == [] {
      k := 0;
    } else {
      var init, e := events[..|events| - 1], events[|events| - 1];
      assert e in events && forall x :: x in init ==> x in events;
      k := CurrentTabIsLastGranted(init, o);
      k := CurrentTabStep(init, e, o, k);
      assert init + [e] == events;
    }
  }

  // The steps after which an owner has no current tab, or another one.
  predicate MovesPointer(s: Store, e: Event, o: Owner, tab: TabId) {
    match e
    case Resolve(q, t, open) =>
      !IsLegacy(q) && if open then q == o && ResolveExplicit(s, o, t, open).1 == Granted(t) else t == tab
    case CurrentTabGone(t) => t == tab
    case TabClosed(t) => t == tab
    case Release(c, r) => o.conversation == c && (r == None || r == Some(o.run))
    case SocketDropped => true
  }

  predicate HasCurrent(s: Store, o: Owner, tab: TabId) {
    KeyOf(o) in s.current && s.current[KeyOf(o)] == tab
  }

  lemma ResolvingKeepsPointer(s: Store, q: Owner, t: TabId, open: bool, o: Owner, tab: TabId)
    requires WellMade(o) && !IsLegacy(o) && WellMade(q)
    requires HasCurrent(s, o, tab) && !MovesPointer(s, Resolve(q, t, open), o, tab)
    ensures HasCurrent(ResolveExplicit(s, q, t, open).0, o, tab)
  {
    if KeyOf(q) == KeyOf(o) {
      KeysAreInjective(q, o);
    }
  }

  lemma PointerStays(s: Store, e: Event, o: Owner, tab: TabId)
    requires WellMade(o) && !IsLegacy(o) && (e.Resolve? ==> WellMade(e.o))
    requires HasCurrent(s, o, tab) && !MovesPointer(s, e, o, tab)
    ensures HasCurrent(Step(s, e), o, tab)
  {
    if e.Resolve? {
      ResolvingKeepsPointer(s, e.o, e.tab, e.open, o, tab);
    } else {
      WellMadeRoundTrip(o);
    }
  }

  lemma GrantSetsPointer(events: seq<Event>, i: nat, tab: TabId, o: Owner)
    requires OwnersWellMade(events) && GrantsAt(events, i, tab, o)
    ensures HasCurrent(Run(events[..i + 1]), o, tab)
  {
    assert events[i] in events && forall x :: x in events[..i] ==> x in events;
    RunSnoc(events, i);
    AccessIsDecided(events[..i], o, tab, events[i].open);
  }

  lemma PointerStaysAt(events: seq<Event>, j: nat, tab: TabId, o: Owner)
    requires OwnersWellMade(events) && WellMade(o) && !IsLegacy(o) && j < |events|
    requires HasCurrent(Run(events[..j]), o, tab) && !MovesPointer(Run(events[..j]), events[j], o, tab)
    ensures HasCurrent(Run(events[..j + 1]), o, tab)
  {
    assert events[j] in events;
    RunSnoc(events, j);
    PointerStays(Run(events[..j]), events[j], o, tab);
  }

  predicate Undisturbed(events: seq<Event>, k: nat, tab: TabId, o: Owner)
    requires k < |events|
  {
    !MovesPointer(Run(events[..k]), events[k], o, tab)
  }

  lemma {:induction false} PointerStaysOver(events: seq<Event>, i: nat, j: nat, tab: TabId, o: Owner)
    requires OwnersWellMade(events) && WellMade(o) && !IsLegacy(o) && i <= j <= |events|
    requires HasCurrent(Run(events[..i]), o, tab) && forall k :: i <= k < j ==> Undisturbed(events, k, tab, o)
    ensures HasCurrent(Run(events[..j]), o, tab)
    decreases j
  {
    if i < j {
      PointerStaysOver(events, i, j - 1, tab, o);
      assert Undisturbed(events, j - 1, tab, o);
      PointerStaysAt(events, j - 1, tab, o);
    }
  }

  // The tab an owner was granted is its current tab until it is granted another, that tab
  // closes, the owner is released or the socket drops.
  lemma GrantedTabStaysCurrent(events: seq<Event>, i: nat, j: nat, tab: TabId, o: Owner)
    requires OwnersWellMade(events) && GrantsAt(events, i, tab, o) && i < j <= |events|
    requires forall k :: i < k < j ==> Undisturbed(events, k, tab, o)
    ensures HasCurrent(Run(events[..j]), o, tab)
  {
    GrantSetsPointer(events, i, tab, o);
    assert events[i] in events;
    PointerStaysOver(events, i + 1, j, tab, o);
  }

  // A release drops exactly the claims and the current-tab pointers of owners in its
  // scope; the pointers are found again by parsing their keys.
  lemma ReleaseOwnerIsExact(events: seq<Event>, conversation: string, run: Option<string>)
    requires OwnersWellMade(events)
    ensures var s, t := Run(events), ReleaseOwner(Run(events), conversation, run);
            && t.claims.Keys <= s.claims.Keys && t.current.Keys <= s.current.Keys
            && (forall tab :: tab in s.claims ==>
                  var o := s.claims[tab];
                  tab !in t.claims <==> o.conversation == conversation && (run == None || run == Some(o.run)))
            && (forall tab :: tab in t.claims ==> t.claims[tab] == s.claims[tab])
            && (forall o :: WellMade(o) && KeyOf(o) in s.current ==>
                  (KeyOf(o) !in t.current <==> o.conversation == conversation && (run == None || run == Some(o.run))))
            && (forall k :: k in t.current ==> t.current[k] == s.current[k])
  {
    forall o | WellMade(o)
      ensures ParseOwnerKey(KeyOf(o)) == o
    {
      WellMadeRoundTrip(o);
    }
  }

  lemma CountWithout<K, V>(m: map<K, V>, k: K)
    requires k in m
    ensures |m - {k}| == |m| - 1
  {
    assert (m - {k}).Keys == m.Keys - {k};
  }

  // The table itself.
  class TabClaimStore {
    var claims: map<TabId, Owner>
    var currentTabByOwner: map<string, TabId>

    function View(): Store
      reads this
    {
      Store(claims, currentTabByOwner)
    }

    constructor ()
      ensures View() == EMPTY
    {
      claims, currentTabByOwner := map[], map[];
    }

    method ClaimTab(tab: TabId, o: Owner)
      modifies this
      ensures View() == Claim(old(View()), tab, o)
    {
      if IsLegacy(o) { return; }
      if tab !in claims { claims := claims[tab := o]; }
    }

    method TouchTab(tab: TabId, o: Owner)
      modifies this
      ensures View() == Touch(old(View()), tab, o)
    {
      if IsLegacy(o) { return; }
      currentTabByOwner := currentTabByOwner[KeyOf(o) := tab];
    }

    method DropTab(tab: TabId)
      modifies this
      ensures View() == ReleaseTab(old(View()), tab)
    {
      claims := claims - {tab};
      var keys := currentTabByOwner.Keys;
      while keys != {}
        invariant claims == old(claims) - {tab}
        invariant keys <= currentTabByOwner.Keys <= old(currentTabByOwner).Keys
        invariant forall k :: k in currentTabByOwner ==> currentTabByOwner[k] == old(currentTabByOwner)[k]
        invariant forall k :: k in currentTabByOwner && k !in keys ==> currentTabByOwner[k] != tab
        invariant forall k :: k in old(currentTabByOwner) && k !in currentTabByOwner ==> old(currentTabByOwner)[k] == tab
        decreases |keys|
      {
        var k :| k in keys;
        keys := keys - {k};
        if currentTabByOwner[k] == tab { currentTabByOwner := currentTabByOwner - {k}; }
      }
    }

    method DropOwner(conversation: string, run: Option<string>) returns (dropped: nat)
      modifies this
      ensures View() == ReleaseOwner(old(View()), conversation, run)
      ensures dropped == |old(claims)| - |claims|
    {
      dropped := DropClaims(conversation, run);
      DropPointers(conversation, run);
    }

    method DropClaims(conversation: string, run: Option<string>) returns (dropped: nat)
      modifies this`claims
      ensures claims == map t | t in old(claims) && !InScope(old(claims)[t], conversation, run) :: old(claims)[t]
      ensures dropped == |old(claims)| - |claims|
    {
      dropped := 0;
      var tabs := claims.Keys;
      while tabs != {}
        invariant tabs <= claims.Keys <= old(claims).Keys
        invariant dropped == |old(claims)| - |claims|
        invariant forall t :: t in claims ==> claims[t] == old(claims)[t]
        invariant forall t :: t in claims && t !in tabs ==> !InScope(claims[t], conversation, run)
        invariant forall t :: t in old(claims) && t !in claims ==> InScope(old(claims)[t], conversation, run)
        decreases |tabs|
      {
        var t :| t in tabs;
        tabs := tabs - {t};
        if InScope(claims[t], conversation, run) {
          CountWithout(claims, t);
          claims := claims - {t};
          dropped := dropped + 1;
        }
      }
    }

    method DropPointers(conversation: string, run: Option<string>)
      modifies this`currentTabByOwner
      ensures currentTabByOwner == map k | k in old(currentTabByOwner) && !InScope(ParseOwnerKey(k), conversation, run)
                                       :: old(currentTabByOwner)[k]
    {
      var keys := currentTabByOwner.Keys;
      while keys != {}
        invariant keys <= currentTabByOwner.Keys <= old(currentTabByOwner).Keys
        invariant forall k :: k in currentTabByOwner ==> currentTabByOwner[k] == old(currentTabByOwner)[k]
        invariant forall k :: k in currentTabByOwner && k !in keys ==> !InScope(ParseOwnerKey(k), conversation, run)
        invariant forall k :: k in old(currentTabByOwner) && k !in currentTabByOwner ==>
                                InScope(ParseOwnerKey(k), conversation, run)
        decreases |keys|
      {
        var k :| k in keys;
        keys := keys - {k};
        if InScope(ParseOwnerKey(k), conversation, run) { currentTabByOwner := currentTabByOwner - {k}; }
      }
    }

    // The part of `resolveTargetTab` that runs after the tab lookup, for a named tab.
    method ResolveNamed(o: Owner, tab: TabId, open: bool) returns (v: Verdict)
      modifies this
      ensures (View(), v) == ResolveExplicit(old(View()), o, tab, open)
    {
      if IsLegacy(o) { return Granted(tab); }
      if !open {
        DropTab(tab);
        return StaleTab;
      }
      if tab !in claims {
        ClaimTab(tab, o);
      } else if KeyOf(claims[tab]) != KeyOf(o) {
        if claims[tab].conversation != o.conversation { return OtherConversation; }
      }
      TouchTab(tab, o);
      return Granted(tab);
    }
  }
}
