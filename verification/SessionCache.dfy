/**
 The per-session offer cache of the example resource server: a Map kept in
 last-touch order, bounded to 256 entries, pruned by expiry, and sharing one
 in-flight build between the requests of a session.

 An entry object is identified by its index in `entries`; the index also stands
 for the build promise the entry holds, so "the very same promise" is "the same
 index". The Map itself is the sequence of its slots in iteration order.
 */
module SessionCache {
  import opened Wrappers

  type SessionId = string
  type EntryId = nat

  const MAX_SESSION_CACHE_ENTRIES: nat := 256

  // Number.MAX_SAFE_INTEGER: the expiry of an entry whose build is still pending.
  const PROVISIONAL_EXPIRY: int := 9007199254740991

  const SESSION_CACHE_TTL_BUFFER_MS: int := 5000
  const SESSION_CACHE_MIN_TTL_MS: int := 60000

  datatype Slot = Slot(session: SessionId, entry: EntryId)

  datatype Entry = Entry(session: SessionId, expiresAt: int, settled: bool)

  /** The Map in iteration order, and every entry object ever created. */
  datatype Cache = Cache(slots: seq<Slot>, entries: seq<Entry>)

  /** What can happen to the cache. A request reads the clock twice: once to prune, once inside `set`. */
  datatype Event =
    | Request(session: SessionId, pruneAt: int, setAt: int)
    | BuildSucceeded(entry: EntryId, at: int)
    | BuildFailed(entry: EntryId)

  // ----- the cache as a function of its events -----

  function SessionTtl(maxTimeoutSeconds: int): int {
    var derived := maxTimeoutSeconds * 1000 + SESSION_CACHE_TTL_BUFFER_MS;
    if derived > 0 && derived > SESSION_CACHE_MIN_TTL_MS then derived else SESSION_CACHE_MIN_TTL_MS
  }

  predicate Expired(entries: seq<Entry>, slot: Slot, now: int) {
    slot.entry < |entries| && now >= entries[slot.entry].expiresAt
  }

  function Prune(slots: seq<Slot>, entries: seq<Entry>, now: int): seq<Slot> {
    if slots == [] then []
    else if Expired(entries, slots[0], now) then Prune(slots[1..], entries, now)
    else [slots[0]] + Prune(slots[1..], entries, now)
  }

  function Lookup(slots: seq<Slot>, session: SessionId): Option<EntryId> {
    if slots == [] then None
    else if slots[0].session == session then Some(slots[0].entry)
    else Lookup(slots[1..], session)
  }

  function Without(slots: seq<Slot>, session: SessionId): seq<Slot> {
    if slots == [] then []
    else if slots[0].session == session then Without(slots[1..], session)
    else [slots[0]] + Without(slots[1..], session)
  }

  function EvictOldest(slots: seq<Slot>): seq<Slot> {
    if |slots| < MAX_SESSION_CACHE_ENTRIES then slots
    else slots[|slots| - MAX_SESSION_CACHE_ENTRIES + 1..]
  }

  function MakeRoom(slots: seq<Slot>, session: SessionId): seq<Slot> {
    if Lookup(slots, session).Some? then Without(slots, session) else EvictOldest(slots)
  }

  /** The overriding `set`: prune, drop the old slot or evict the oldest ones, append. */
  function SetSlot(slots: seq<Slot>, entries: seq<Entry>, slot: Slot, now: int): seq<Slot> {
    MakeRoom(Prune(slots, entries, now), slot.session) + [slot]
  }

  /** `resolveRequirements` up to its first await: the new cache and the entry whose promise is returned. */
  function Resolve(c: Cache, session: SessionId, pruneAt: int, setAt: int): (Cache, EntryId) {
    var live := Prune(c.slots, c.entries, pruneAt);
    match Lookup(live, session)
    case Some(e) =>
      (Cache(SetSlot(live, c.entries, Slot(session, e), setAt), c.entries), e)
    case None =>
      var e := |c.entries|;
      (Cache(SetSlot(live, c.entries, Slot(session, e), setAt),
             c.entries + [Entry(session, PROVISIONAL_EXPIRY, false)]), e)
  }

  predicate Pending(c: Cache, e: EntryId) {
    e < |c.entries| && !c.entries[e].settled
  }

  /** One event. A build settles once; an event for no pending build changes nothing. */
  function Step(c: Cache, ev: Event, ttl: int): Cache {
    match ev
    case Request(session, pruneAt, setAt) => Resolve(c, session, pruneAt, setAt).0
    case BuildSucceeded(e, at) =>
      if Pending(c, e) then
        c.(entries := c.entries[e := c.entries[e].(expiresAt := at + ttl, settled := true)])
      else c
    case BuildFailed(e) =>
      if Pending(c, e) then
        var session := c.entries[e].session;
        Cache(if Lookup(c.slots, session) == Some(e) then Without(c.slots, session) else c.slots,
              c.entries[e := c.entries[e].(settled := true)])
      else c
  }

  function Run(c: Cache, events: seq<Event>, ttl: int): Cache
    decreases |events|
  {
    if events == [] then c else Run(Step(c, events[0], ttl), events[1..], ttl)
  }

  const EMPTY := Cache([], [])

  // ----- invariants -----

  ghost predicate UniqueSessions(slots: seq<Slot>) {
    forall i, j | 0 <= i < j < |slots| :: slots[i].session != slots[j].session
  }

  /** An entry whose build is pending carries the provisional expiry. */
  ghost predicate Provisional(entries: seq<Entry>) {
    forall i | 0 <= i < |entries| :: entries[i].settled || entries[i].expiresAt == PROVISIONAL_EXPIRY
  }

  ghost predicate Valid(c: Cache) {
    && UniqueSessions(c.slots)
    && Provisional(c.entries)
    && |c.slots| <= MAX_SESSION_CACHE_ENTRIES
    && forall i | 0 <= i < |c.slots| ::
         c.slots[i].entry < |c.entries| && c.entries[c.slots[i].entry].session == c.slots[i].session
  }

  ghost function Sessions(slots: seq<Slot>): set<SessionId> {
    set s | s in slots :: s.session
  }

  /** The sessions touched after `session`: the ones behind it in iteration order. */
  ghost function SessionsAfter(slots: seq<Slot>, session: SessionId): set<SessionId> {
    if slots == [] then {}
    else if slots[0].session == session then Sessions(slots[1..])
    else SessionsAfter(slots[1..], session)
  }

  lemma {:induction false} UniqueTail(slots: seq<Slot>)
    requires UniqueSessions(slots) && slots != []
    ensures UniqueSessions(slots[1..])
    ensures slots[0].session !in Sessions(slots[1..])
    ensures Sessions(slots) == {slots[0].session} + Sessions(slots[1..])
  {
    assert slots == [slots[0]] + slots[1..];
    forall s | s in slots[1..] ensures s.session != slots[0].session {
      var i :| 0 <= i < |slots[1..]| && slots[1..][i] == s;
      assert slots[i + 1] == s;
    }
  }

  lemma {:induction false} LookupFinds(slots: seq<Slot>, session: SessionId)
    ensures Lookup(slots, session).Some? <==> session in Sessions(slots)
    ensures Lookup(slots, session).Some? ==> Slot(session, Lookup(slots, session).value) in slots
  {
    if slots != [] {
      LookupFinds(slots[1..], session);
      assert slots == [slots[0]] + slots[1..];
      assert Sessions(slots) == {slots[0].session} + Sessions(slots[1..]);
    }
  }

  lemma {:induction false} LookupUnique(slots: seq<Slot>, slot: Slot)
    requires UniqueSessions(slots) && slot in slots
    ensures Lookup(slots, slot.session) == Some(slot.entry)
  {
    assert slots == [slots[0]] + slots[1..];
    if slots[0].session != slot.session {
      UniqueTail(slots);
      LookupUnique(slots[1..], slot);
    } else if slots[0] != slot {
      UniqueTail(slots);
      assert false;
    }
  }

  /** Pruning keeps exactly the unexpired slots, in order. */
  lemma {:induction false} PruneKeepsLive(slots: seq<Slot>, entries: seq<Entry>, now: int)
    requires UniqueSessions(slots)
    ensures forall s :: s in Prune(slots, entries, now) <==> s in slots && !Expired(entries, s, now)
    ensures UniqueSessions(Prune(slots, entries, now))
    ensures |Prune(slots, entries, now)| <= |slots|
  {
    if slots != [] {
      UniqueTail(slots);
      PruneKeepsLive(slots[1..], entries, now);
      assert slots == [slots[0]] + slots[1..];
      var rest := Prune(slots[1..], entries, now);
      forall i | 0 <= i < |rest| ensures rest[i].session != slots[0].session {
        assert rest[i] in slots[1..];
      }
    }
  }

  lemma {:induction false} WithoutRemoves(slots: seq<Slot>, session: SessionId)
    requires UniqueSessions(slots)
    ensures forall s :: s in Without(slots, session) <==> s in slots && s.session != session
    ensures UniqueSessions(Without(slots, session))
    ensures |Without(slots, session)| == |slots| - (if session in Sessions(slots) then 1 else 0)
  {
    if slots != [] {
      UniqueTail(slots);
      WithoutRemoves(slots[1..], session);
      assert slots == [slots[0]] + slots[1..];
      var rest := Without(slots[1..], session);
      forall i | 0 <= i < |rest| ensures rest[i].session != slots[0].session {
        assert rest[i] in slots[1..];
      }
    }
  }

  lemma {:induction false} SessionCount(slots: seq<Slot>)
    requires UniqueSessions(slots)
    ensures |Sessions(slots)| == |slots|
  {
    if slots != [] {
      UniqueTail(slots);
      SessionCount(slots[1..]);
    }
  }

  // ----- how the sessions behind a slot change -----

  lemma {:induction false} AfterIsInside(slots: seq<Slot>, session: SessionId)
    requires UniqueSessions(slots)
    ensures SessionsAfter(slots, session) <= Sessions(slots) - {session}
  {
    if slots != [] {
      UniqueTail(slots);
      AfterIsInside(slots[1..], session);
    }
  }

  lemma {:induction false} AfterPrune(slots: seq<Slot>, entries: seq<Entry>, now: int, slot: Slot)
    requires UniqueSessions(slots) && slot in slots && !Expired(entries, slot, now)
    ensures SessionsAfter(Prune(slots, entries, now), slot.session) <= SessionsAfter(slots, slot.session)
  {
    UniqueTail(slots);
    assert slots == [slots[0]] + slots[1..];
    PruneKeepsLive(slots[1..], entries, now);
    if slots[0].session == slot.session {
      assert slots[0] == slot;
    } else {
      AfterPrune(slots[1..], entries, now, slot);
    }
  }

  lemma {:induction false} AfterWithout(slots: seq<Slot>, session: SessionId, other: SessionId)
    requires UniqueSessions(slots) && session in Sessions(slots) && other != session
    ensures SessionsAfter(Without(slots, other), session) == SessionsAfter(slots, session) - {other}
  {
    UniqueTail(slots);
    WithoutRemoves(slots[1..], other);
    if slots[0].session != session {
      AfterWithout(slots[1..], session, other);
    }
  }

  lemma {:induction false} AfterAppend(slots: seq<Slot>, session: SessionId, last: Slot)
    ensures SessionsAfter(slots + [last], session) ==
      if session in Sessions(slots) then SessionsAfter(slots, session) + {last.session} else {}
  {
    if slots == [] {
      assert slots + [last] == [last];
    } else {
      assert (slots + [last])[1..] == slots[1..] + [last];
      assert slots == [slots[0]] + slots[1..];
      AfterAppend(slots[1..], session, last);
    }
  }

  /** A session at the front of a full Map has 255 sessions behind it. */
  lemma AfterFront(slots: seq<Slot>)
    requires UniqueSessions(slots) && slots != []
    ensures |SessionsAfter(slots, slots[0].session)| == |slots| - 1
  {
    UniqueTail(slots);
    SessionCount(slots[1..]);
  }

  // ----- the invariant -----

  lemma MakeRoomFacts(slots: seq<Slot>, session: SessionId)
    requires UniqueSessions(slots) && |slots| <= MAX_SESSION_CACHE_ENTRIES
    ensures UniqueSessions(MakeRoom(slots, session))
    ensures |MakeRoom(slots, session)| < MAX_SESSION_CACHE_ENTRIES
    ensures forall s | s in MakeRoom(slots, session) :: s in slots && s.session != session
  {
    LookupFinds(slots, session);
    WithoutRemoves(slots, session);
    if session in Sessions(slots) {
      var s :| s in slots && s.session == session;
    }
  }

  /** What `set` leaves in the Map: the touched slot last, everything else as pruning and eviction left it. */
  lemma SetSlotValid(slots: seq<Slot>, entries: seq<Entry>, slot: Slot, now: int)
    requires UniqueSessions(slots) && |slots| <= MAX_SESSION_CACHE_ENTRIES
    ensures UniqueSessions(SetSlot(slots, entries, slot, now))
    ensures 0 < |SetSlot(slots, entries, slot, now)| <= MAX_SESSION_CACHE_ENTRIES
    ensures forall s | s in SetSlot(slots, entries, slot, now) ::
      s == slot || (s in slots && s.session != slot.session)
    ensures SessionsAfter(SetSlot(slots, entries, slot, now), slot.session) == {}
  {
    var live := Prune(slots, entries, now);
    PruneKeepsLive(slots, entries, now);
    MakeRoomFacts(live, slot.session);
    var kept := MakeRoom(live, slot.session);
    forall i | 0 <= i < |kept| ensures kept[i].session != slot.session {
      assert kept[i] in kept;
    }
    AfterAppend(kept, slot.session, slot);
  }

  lemma ResolveValid(c: Cache, session: SessionId, pruneAt: int, setAt: int)
    requires Valid(c)
    ensures var (c', e) := Resolve(c, session, pruneAt, setAt);
      && Valid(c')
      && Slot(session, e) in c'.slots
      && SessionsAfter(c'.slots, session) == {}
  {
    var live := Prune(c.slots, c.entries, pruneAt);
    PruneKeepsLive(c.slots, c.entries, pruneAt);
    LookupFinds(live, session);
    var (c', e) := Resolve(c, session, pruneAt, setAt);
    SetSlotValid(live, c.entries, Slot(session, e), setAt);
    var r := c'.slots;
    assert r[|r| - 1] == Slot(session, e);
    forall i | 0 <= i < |r|
      ensures r[i].entry < |c'.entries| && c'.entries[r[i].entry].session == r[i].session
    {
      assert r[i] in r;
    }
  }

  lemma StepValid(c: Cache, ev: Event, ttl: int)
    requires Valid(c)
    ensures Valid(Step(c, ev, ttl))
  {
    match ev
    case Request(session, pruneAt, setAt) => ResolveValid(c, session, pruneAt, setAt);
    case BuildSucceeded(_, _) =>
    case BuildFailed(e) =>
      if Pending(c, e) {
        var session := c.entries[e].session;
        WithoutRemoves(c.slots, session);
        var r := Without(c.slots, session);
        forall i | 0 <= i < |r| ensures r[i] in c.slots {
        }
      }
  }

  lemma {:induction false} RunValid(c: Cache, events: seq<Event>, ttl: int)
    requires Valid(c)
    ensures Valid(Run(c, events, ttl))
    decreases |events|
  {
    if events != [] {
      StepValid(c, events[0], ttl);
      RunValid(Step(c, events[0], ttl), events[1..], ttl);
    }
  }

  // ----- the sharing theorem -----

  /** The sessions named by the requests of a run. */
  ghost function Touched(events: seq<Event>): set<SessionId> {
    set ev | ev in events && ev.Request? :: ev.session
  }

  lemma TouchedSplit(events: seq<Event>)
    requires events != []
    ensures Touched(events) == Touched([events[0]]) + Touched(events[1..])
    ensures Touched([events[0]]) == if events[0].Request? then {events[0].session} else {}
  {
    assert events == [events[0]] + events[1..];
  }

  /** Along the run no clock reading finds entry `e` expired and its own build does not fail. */
  ghost predicate Survives(c: Cache, events: seq<Event>, ttl: int, e: EntryId)
    decreases |events|
  {
    events == [] ||
    (SurvivesEvent(c, events[0], e) && Survives(Step(c, events[0], ttl), events[1..], ttl, e))
  }

  predicate SurvivesEvent(c: Cache, ev: Event, e: EntryId) {
    e < |c.entries|
    && match ev
       case Request(_, pruneAt, setAt) => pruneAt < c.entries[e].expiresAt && setAt < c.entries[e].expiresAt
       case BuildSucceeded(_, _) => true
       case BuildFailed(x) => !(x == e && Pending(c, e))
  }

  /** `slot` is in the Map and everything behind it is one of the sessions `seen`. */
  ghost predicate HeldAt(c: Cache, slot: Slot, seen: set<SessionId>) {
    slot in c.slots && SessionsAfter(c.slots, slot.session) <= seen
  }

  /** Making room for another session keeps a slot with few sessions behind it. */
  lemma MakeRoomKeeps(slots: seq<Slot>, slot: Slot, other: SessionId, seen: set<SessionId>)
    requires UniqueSessions(slots) && |slots| <= MAX_SESSION_CACHE_ENTRIES
    requires slot in slots && other != slot.session
    requires SessionsAfter(slots, slot.session) <= seen && other in seen
    requires |seen| < MAX_SESSION_CACHE_ENTRIES
    ensures slot in MakeRoom(slots, other)
    ensures SessionsAfter(MakeRoom(slots, other), slot.session) <= seen
  {
    LookupFinds(slots, other);
    if other in Sessions(slots) {
      WithoutRemoves(slots, other);
      AfterWithout(slots, slot.session, other);
    } else if |slots| == MAX_SESSION_CACHE_ENTRIES {
      NotAtFront(slots, slot, other, seen);
      assert slots == [slots[0]] + slots[1..];
      UniqueTail(slots);
    }
  }

  /** A slot with fewer than 255 sessions after it is not the oldest of 256. */
  lemma NotAtFront(slots: seq<Slot>, slot: Slot, other: SessionId, seen: set<SessionId>)
    requires UniqueSessions(slots) && |slots| == MAX_SESSION_CACHE_ENTRIES && slot in slots
    requires other !in Sessions(slots) && SessionsAfter(slots, slot.session) + {other} <= seen
    requires |seen| < MAX_SESSION_CACHE_ENTRIES
    ensures slots[0].session != slot.session
  {
    AfterFront(slots);
    AfterIsInside(slots, slot.session);
    SubsetSize(SessionsAfter(slots, slot.session) + {other}, seen);
  }

  lemma SubsetSize<T>(a: set<T>, b: set<T>)
    requires a <= b
    ensures |a| <= |b|
  {
    assert b == a + (b - a);
  }

  /** A request for another session, within the 256 bound, leaves the slot where it counts. */
  lemma OtherRequestKeeps(c: Cache, slot: Slot, seen: set<SessionId>, other: SessionId, pruneAt: int, setAt: int)
    requires Valid(c) && HeldAt(c, slot, seen)
    requires other != slot.session && other in seen && |seen| < MAX_SESSION_CACHE_ENTRIES
    requires pruneAt < c.entries[slot.entry].expiresAt && setAt < c.entries[slot.entry].expiresAt
    ensures HeldAt(Resolve(c, other, pruneAt, setAt).0, slot, seen)
  {
    var once := Prune(c.slots, c.entries, pruneAt);
    PruneKeepsLive(c.slots, c.entries, pruneAt);
    AfterPrune(c.slots, c.entries, pruneAt, slot);
    var twice := Prune(once, c.entries, setAt);
    PruneKeepsLive(once, c.entries, setAt);
    AfterPrune(once, c.entries, setAt, slot);
    MakeRoomKeeps(twice, slot, other, seen);
    var (c', e) := Resolve(c, other, pruneAt, setAt);
    assert c'.slots == MakeRoom(twice, other) + [Slot(other, e)];
    AfterAppend(MakeRoom(twice, other), slot.session, Slot(other, e));
  }

  /** A request that finds its session's entry unexpired returns that entry's promise. */
  lemma RequestHits(c: Cache, slot: Slot, pruneAt: int, setAt: int)
    requires Valid(c) && slot in c.slots && pruneAt < c.entries[slot.entry].expiresAt
    ensures Resolve(c, slot.session, pruneAt, setAt).1 == slot.entry
  {
    PruneKeepsLive(c.slots, c.entries, pruneAt);
    LookupUnique(Prune(c.slots, c.entries, pruneAt), slot);
  }

  lemma StepKeeps(c: Cache, slot: Slot, seen: set<SessionId>, ev: Event, ttl: int)
    requires Valid(c) && HeldAt(c, slot, seen)
    requires SurvivesEvent(c, ev, slot.entry)
    requires ev.Request? ==> ev.session == slot.session || ev.session in seen
    requires |seen| < MAX_SESSION_CACHE_ENTRIES
    ensures HeldAt(Step(c, ev, ttl), slot, seen)
  {
    match ev
    case Request(session, pruneAt, setAt) =>
      if session == slot.session {
        RequestHits(c, slot, pruneAt, setAt);
        ResolveValid(c, session, pruneAt, setAt);
      } else {
        OtherRequestKeeps(c, slot, seen, session, pruneAt, setAt);
      }
    case BuildSucceeded(_, _) =>
    case BuildFailed(x) =>
      if Pending(c, x) {
        var session := c.entries[x].session;
        LookupFinds(c.slots, session);
        if Lookup(c.slots, session) == Some(x) {
          LookupUnique(c.slots, slot);
          assert session != slot.session;
          WithoutRemoves(c.slots, session);
          AfterWithout(c.slots, slot.session, session);
        }
      }
  }

  lemma {:induction false} RunKeeps(c: Cache, slot: Slot, seen: set<SessionId>, events: seq<Event>, ttl: int)
    requires Valid(c) && HeldAt(c, slot, seen)
    requires Survives(c, events, ttl, slot.entry)
    requires Touched(events) <= seen + {slot.session} && |seen| < MAX_SESSION_CACHE_ENTRIES
    ensures slot in Run(c, events, ttl).slots
    decreases |events|
  {
    if events != [] {
      TouchedSplit(events);
      StepKeeps(c, slot, seen, events[0], ttl);
      StepValid(c, events[0], ttl);
      RunKeeps(Step(c, events[0], ttl), slot, seen, events[1..], ttl);
    }
  }

  /** No clock reading of the run is later than `now`. */
  ghost predicate ClockUpTo(events: seq<Event>, now: int) {
    forall i | 0 <= i < |events| :: ReadBy(events[i], now)
  }

  predicate ReadBy(ev: Event, now: int) {
    match ev
    case Request(_, pruneAt, setAt) => pruneAt <= now && setAt <= now
    case BuildSucceeded(_, at) => at <= now
    case BuildFailed(_) => true
  }

  ghost predicate BuildNeverFails(c: Cache, events: seq<Event>, ttl: int, e: EntryId)
    decreases |events|
  {
    events == [] ||
    (!(events[0] == BuildFailed(e) && Pending(c, e)) && BuildNeverFails(Step(c, events[0], ttl), events[1..], ttl, e))
  }

  lemma {:induction false} EntriesGrow(c: Cache, events: seq<Event>, ttl: int, e: EntryId)
    requires e < |c.entries|
    ensures e < |Run(c, events, ttl).entries|
    ensures c.entries[e].settled ==> Run(c, events, ttl).entries[e] == c.entries[e]
    decreases |events|
  {
    if events != [] {
      EntriesGrow(Step(c, events[0], ttl), events[1..], ttl, e);
    }
  }

  /** Expiry is fixed once, so an entry unexpired now was unexpired at every earlier reading. */
  lemma {:induction false} UnexpiredNowUnexpiredBefore(c: Cache, events: seq<Event>, ttl: int, e: EntryId, now: int)
    requires e < |c.entries| && (c.entries[e].settled || c.entries[e].expiresAt == PROVISIONAL_EXPIRY)
    requires ClockUpTo(events, now) && now < PROVISIONAL_EXPIRY
    requires BuildNeverFails(c, events, ttl, e)
    requires e < |Run(c, events, ttl).entries| && now < Run(c, events, ttl).entries[e].expiresAt
    ensures Survives(c, events, ttl, e)
    ensures now < c.entries[e].expiresAt
    decreases |events|
  {
    EntriesGrow(c, events, ttl, e);
    if events != [] {
      assert ReadBy(events[0], now);
      forall i | 0 <= i < |events[1..]| ensures ReadBy(events[1..][i], now) {
        assert events[1..][i] == events[i + 1];
      }
      UnexpiredNowUnexpiredBefore(Step(c, events[0], ttl), events[1..], ttl, e, now);
    }
  }

  /**
   The sharing theorem. Two requests of one session, with any run of requests and build
   completions between them, get the very same promise unless in between the entry
   expired, its own build failed, or at least 256 distinct other sessions were touched.
   */
  lemma SharedPromise(c: Cache, session: SessionId, pruneAt: int, setAt: int,
                      events: seq<Event>, pruneAt': int, setAt': int, ttl: int)
    requires Valid(c)
    requires ClockUpTo(events, pruneAt') && pruneAt' < PROVISIONAL_EXPIRY
    ensures
      var (first, e) := Resolve(c, session, pruneAt, setAt);
      var last := Run(first, events, ttl);
      || Resolve(last, session, pruneAt', setAt').1 == e
      || (e < |last.entries| && last.entries[e].expiresAt <= pruneAt')
      || !BuildNeverFails(first, events, ttl, e)
      || |Touched(events) - {session}| >= 256
  {
    var (first, e) := Resolve(c, session, pruneAt, setAt);
    var last := Run(first, events, ttl);
    ResolveValid(c, session, pruneAt, setAt);
    EntriesGrow(first, events, ttl, e);
    if pruneAt' < last.entries[e].expiresAt && BuildNeverFails(first, events, ttl, e)
       && |Touched(events) - {session}| < MAX_SESSION_CACHE_ENTRIES {
      UnexpiredNowUnexpiredBefore(first, events, ttl, e, pruneAt');
      RunValid(first, events, ttl);
      RunKeeps(first, Slot(session, e), Touched(events) - {session}, events, ttl);
      RequestHits(last, Slot(session, e), pruneAt', setAt');
    }
  }

  // ----- the exact stack distance -----

  /** No slot is found expired, no cached build fails, and `session` itself is not requested. */
  ghost predicate Quiet(c: Cache, events: seq<Event>, ttl: int, session: SessionId)
    decreases |events|
  {
    events == [] ||
    (QuietEvent(c, events[0], session) && Quiet(Step(c, events[0], ttl), events[1..], ttl, session))
  }

  predicate QuietEvent(c: Cache, ev: Event, session: SessionId) {
    match ev
    case Request(other, pruneAt, setAt) =>
      && other != session
      && Prune(c.slots, c.entries, pruneAt) == c.slots
      && Prune(c.slots, c.entries, setAt) == c.slots
    case BuildSucceeded(_, _) => true
    case BuildFailed(x) => Pending(c, x) ==> Lookup(c.slots, c.entries[x].session) != Some(x)
  }

  /** Either the slot is held with exactly `seen` behind it, or 256 others pushed its session out. */
  ghost predicate Exactly(c: Cache, slot: Slot, seen: set<SessionId>) {
    if |seen| < MAX_SESSION_CACHE_ENTRIES then
      slot in c.slots && SessionsAfter(c.slots, slot.session) == seen
    else slot.session !in Sessions(c.slots)
  }

  lemma AfterBound(slots: seq<Slot>, session: SessionId)
    requires UniqueSessions(slots) && session in Sessions(slots)
    ensures |SessionsAfter(slots, session)| < |slots|
    ensures slots[0].session != session ==> |SessionsAfter(slots, session)| < |slots| - 1
    decreases slots
  {
    UniqueTail(slots);
    if slots[0].session == session {
      AfterFront(slots);
    } else {
      AfterBound(slots[1..], session);
    }
  }

  lemma MakeRoomExact(slots: seq<Slot>, slot: Slot, other: SessionId)
    requires UniqueSessions(slots) && |slots| <= MAX_SESSION_CACHE_ENTRIES
    requires slot in slots && other != slot.session
    ensures var seen := SessionsAfter(slots, slot.session);
      if |seen + {other}| < MAX_SESSION_CACHE_ENTRIES
      then slot in MakeRoom(slots, other) && SessionsAfter(MakeRoom(slots, other), slot.session) == seen - {other}
      else slot.session !in Sessions(MakeRoom(slots, other))
  {
    var seen := SessionsAfter(slots, slot.session);
    LookupFinds(slots, other);
    if other in Sessions(slots) {
      MakeRoomReplaces(slots, slot, other);
    } else {
      MakeRoomEvicts(slots, slot, other);
    }
  }

  lemma MakeRoomReplaces(slots: seq<Slot>, slot: Slot, other: SessionId)
    requires UniqueSessions(slots) && |slots| <= MAX_SESSION_CACHE_ENTRIES
    requires slot in slots && other != slot.session && other in Sessions(slots)
    ensures |SessionsAfter(slots, slot.session) + {other}| < MAX_SESSION_CACHE_ENTRIES
    ensures slot in Without(slots, other)
    ensures SessionsAfter(Without(slots, other), slot.session) == SessionsAfter(slots, slot.session) - {other}
  {
    AfterIsInside(slots, slot.session);
    SessionCount(slots);
    WithoutRemoves(slots, other);
    AfterWithout(slots, slot.session, other);
    SubsetSize(SessionsAfter(slots, slot.session) + {other}, Sessions(slots) - {slot.session});
  }

  lemma MakeRoomEvicts(slots: seq<Slot>, slot: Slot, other: SessionId)
    requires UniqueSessions(slots) && |slots| <= MAX_SESSION_CACHE_ENTRIES
    requires slot in slots && other !in Sessions(slots)
    ensures var seen := SessionsAfter(slots, slot.session);
      if |seen + {other}| < MAX_SESSION_CACHE_ENTRIES
      then slot in EvictOldest(slots) && SessionsAfter(EvictOldest(slots), slot.session) == seen - {other}
      else slot.session !in Sessions(EvictOldest(slots))
  {
    var seen := SessionsAfter(slots, slot.session);
    AfterIsInside(slots, slot.session);
    AfterBound(slots, slot.session);
    assert seen - {other} == seen;
    assert |seen + {other}| == |seen| + 1;
    if |slots| == MAX_SESSION_CACHE_ENTRIES {
      UniqueTail(slots);
      assert EvictOldest(slots) == slots[1..];
      if slots[0].session == slot.session {
        AfterFront(slots);
      } else {
        assert slots == [slots[0]] + slots[1..];
      }
    }
  }

  /** The Map after a request that prunes nothing. */
  lemma QuietSlots(c: Cache, other: SessionId, pruneAt: int, setAt: int)
    requires Prune(c.slots, c.entries, pruneAt) == c.slots && Prune(c.slots, c.entries, setAt) == c.slots
    ensures var (c', e) := Resolve(c, other, pruneAt, setAt); c'.slots == MakeRoom(c.slots, other) + [Slot(other, e)]
  {
  }

  lemma AppendExact(kept: seq<Slot>, slot: Slot, seen: set<SessionId>, last: Slot)
    requires slot in kept && SessionsAfter(kept, slot.session) == seen - {last.session}
    ensures slot in kept + [last] && SessionsAfter(kept + [last], slot.session) == seen + {last.session}
  {
    AfterAppend(kept, slot.session, last);
    assert slot.session in Sessions(kept);
    assert seen - {last.session} + {last.session} == seen + {last.session};
  }

  lemma AppendAbsent(kept: seq<Slot>, session: SessionId, last: Slot)
    requires session !in Sessions(kept) && last.session != session
    ensures session !in Sessions(kept + [last])
  {
  }

  lemma OtherRequestExact(c: Cache, slot: Slot, seen: set<SessionId>, other: SessionId, pruneAt: int, setAt: int)
    requires Valid(c) && Exactly(c, slot, seen) && other != slot.session
    requires Prune(c.slots, c.entries, pruneAt) == c.slots && Prune(c.slots, c.entries, setAt) == c.slots
    ensures Exactly(Resolve(c, other, pruneAt, setAt).0, slot, seen + {other})
  {
    var e := Resolve(c, other, pruneAt, setAt).1;
    var kept := MakeRoom(c.slots, other);
    QuietSlots(c, other, pruneAt, setAt);
    if |seen| < MAX_SESSION_CACHE_ENTRIES {
      MakeRoomExact(c.slots, slot, other);
      if |seen + {other}| < MAX_SESSION_CACHE_ENTRIES {
        AppendExact(kept, slot, seen, Slot(other, e));
      } else {
        AppendAbsent(kept, slot.session, Slot(other, e));
      }
    } else {
      SubsetSize(seen, seen + {other});
      MakeRoomFacts(c.slots, other);
      AppendAbsent(kept, slot.session, Slot(other, e));
    }
  }

  lemma TouchedJoin(seen: set<SessionId>, events: seq<Event>)
    requires events != []
    ensures seen + Touched(events) == seen + Touched([events[0]]) + Touched(events[1..])
  {
    TouchedSplit(events);
  }

  lemma StepExact(c: Cache, slot: Slot, seen: set<SessionId>, ev: Event, ttl: int)
    requires Valid(c) && Exactly(c, slot, seen) && QuietEvent(c, ev, slot.session)
    ensures Exactly(Step(c, ev, ttl), slot, seen + Touched([ev]))
  {
    TouchedSplit([ev]);
    if ev.Request? {
      OtherRequestExact(c, slot, seen, ev.session, ev.pruneAt, ev.setAt);
    } else {
      assert seen + Touched([ev]) == seen;
    }
  }

  lemma {:induction false} RunExact(c: Cache, slot: Slot, seen: set<SessionId>, events: seq<Event>, ttl: int)
    requires Valid(c) && Exactly(c, slot, seen) && Quiet(c, events, ttl, slot.session)
    ensures Exactly(Run(c, events, ttl), slot, seen + Touched(events))
    decreases |events|
  {
    if events == [] {
      assert seen + Touched(events) == seen;
    } else {
      StepValid(c, events[0], ttl);
      StepExact(c, slot, seen, events[0], ttl);
      RunExact(Step(c, events[0], ttl), slot, seen + Touched([events[0]]), events[1..], ttl);
      TouchedJoin(seen, events);
    }
  }

  /**
   The bound is exact: when nothing expires and no cached build fails in between, the next
   request of the session joins the same promise if and only if fewer than 256 distinct
   other sessions were touched since its last one.
   */
  lemma StackDistance(c: Cache, session: SessionId, pruneAt: int, setAt: int,
                      events: seq<Event>, pruneAt': int, setAt': int, ttl: int)
    requires Valid(c)
    requires var first := Resolve(c, session, pruneAt, setAt).0;
      var last := Run(first, events, ttl);
      Quiet(first, events, ttl, session) && Prune(last.slots, last.entries, pruneAt') == last.slots
    ensures
      var (first, e) := Resolve(c, session, pruneAt, setAt);
      var last := Run(first, events, ttl);
      Resolve(last, session, pruneAt', setAt').1 == e <==> |Touched(events)| < 256
  {
    var (first, e) := Resolve(c, session, pruneAt, setAt);
    var last := Run(first, events, ttl);
    ResolveValid(c, session, pruneAt, setAt);
    RunValid(first, events, ttl);
    RunExact(first, Slot(session, e), {}, events, ttl);
    assert {} + Touched(events) == Touched(events);
    LookupFinds(last.slots, session);
    EntriesGrow(first, events, ttl, e);
    if |Touched(events)| < MAX_SESSION_CACHE_ENTRIES {
      LookupUnique(last.slots, Slot(session, e));
    }
  }

  // ----- iteration order is last-touch order -----

  function Touches(events: seq<Event>): seq<SessionId> {
    if events == [] then []
    else (if events[0].Request? then [events[0].session] else []) + Touches(events[1..])
  }

  /** When `session` was last touched in `history`, or -1. */
  function LastTouch(history: seq<SessionId>, session: SessionId): (at: int)
    ensures -1 <= at < |history|
    ensures at >= 0 ==> history[at] == session
    ensures forall i | at < i < |history| :: history[i] != session
  {
    if history == [] then -1
    else if history[|history| - 1] == session then |history| - 1
    else LastTouch(history[..|history| - 1], session)
  }

  ghost predicate InTouchOrder(slots: seq<Slot>, history: seq<SessionId>) {
    && (forall i | 0 <= i < |slots| :: 0 <= LastTouch(history, slots[i].session))
    && (forall i, j | 0 <= i < j < |slots| ::
          LastTouch(history, slots[i].session) < LastTouch(history, slots[j].session))
  }

  lemma {:induction false} OrderTail(slots: seq<Slot>, history: seq<SessionId>)
    requires InTouchOrder(slots, history) && slots != []
    ensures InTouchOrder(slots[1..], history)
    ensures forall s | s in slots[1..] :: LastTouch(history, slots[0].session) < LastTouch(history, s.session)
  {
    forall s | s in slots[1..]
      ensures LastTouch(history, slots[0].session) < LastTouch(history, s.session)
    {
      var i :| 0 <= i < |slots[1..]| && slots[1..][i] == s;
      assert slots[i + 1] == s;
    }
  }

  lemma OrderCons(slot: Slot, rest: seq<Slot>, history: seq<SessionId>)
    requires InTouchOrder(rest, history) && 0 <= LastTouch(history, slot.session)
    requires forall s | s in rest :: LastTouch(history, slot.session) < LastTouch(history, s.session)
    ensures InTouchOrder([slot] + rest, history)
  {
    forall i | 0 <= i < |rest|
      ensures LastTouch(history, slot.session) < LastTouch(history, rest[i].session)
    {
      assert rest[i] in rest;
    }
  }

  lemma {:induction false} PruneOrdered(slots: seq<Slot>, entries: seq<Entry>, now: int, history: seq<SessionId>)
    requires InTouchOrder(slots, history) && UniqueSessions(slots)
    ensures InTouchOrder(Prune(slots, entries, now), history)
  {
    if slots != [] {
      OrderTail(slots, history);
      UniqueTail(slots);
      PruneOrdered(slots[1..], entries, now, history);
      PruneKeepsLive(slots[1..], entries, now);
      OrderCons(slots[0], Prune(slots[1..], entries, now), history);
    }
  }

  lemma {:induction false} WithoutOrdered(slots: seq<Slot>, session: SessionId, history: seq<SessionId>)
    requires InTouchOrder(slots, history) && UniqueSessions(slots)
    ensures InTouchOrder(Without(slots, session), history)
  {
    if slots != [] {
      OrderTail(slots, history);
      UniqueTail(slots);
      WithoutOrdered(slots[1..], session, history);
      WithoutRemoves(slots[1..], session);
      OrderCons(slots[0], Without(slots[1..], session), history);
    }
  }

  lemma OrderTouch(slots: seq<Slot>, slot: Slot, history: seq<SessionId>)
    requires InTouchOrder(slots, history)
    requires forall i | 0 <= i < |slots| :: slots[i].session != slot.session
    ensures InTouchOrder(slots + [slot], history + [slot.session])
  {
    var later := history + [slot.session];
    assert later[..|later| - 1] == history;
    forall i | 0 <= i < |slots|
      ensures LastTouch(later, slots[i].session) == LastTouch(history, slots[i].session)
    {
    }
    assert LastTouch(later, slot.session) == |history|;
  }

  lemma StepOrdered(c: Cache, ev: Event, ttl: int, history: seq<SessionId>)
    requires Valid(c) && InTouchOrder(c.slots, history)
    ensures InTouchOrder(Step(c, ev, ttl).slots, history + Touches([ev]))
  {
    match ev
    case Request(session, pruneAt, setAt) =>
      var once := Prune(c.slots, c.entries, pruneAt);
      PruneKeepsLive(c.slots, c.entries, pruneAt);
      PruneOrdered(c.slots, c.entries, pruneAt, history);
      var twice := Prune(once, c.entries, setAt);
      PruneKeepsLive(once, c.entries, setAt);
      PruneOrdered(once, c.entries, setAt, history);
      WithoutOrdered(twice, session, history);
      MakeRoomFacts(twice, session);
      var kept := MakeRoom(twice, session);
      forall i | 0 <= i < |kept| ensures kept[i].session != session {
        assert kept[i] in kept;
      }
      OrderTouch(kept, Slot(session, Resolve(c, session, pruneAt, setAt).1), history);
      assert Touches([ev]) == [session];
    case BuildSucceeded(_, _) =>
      assert history + Touches([ev]) == history;
    case BuildFailed(e) =>
      assert history + Touches([ev]) == history;
      if Pending(c, e) {
        WithoutOrdered(c.slots, c.entries[e].session, history);
      }
  }

  lemma TouchesSplit(history: seq<SessionId>, events: seq<Event>)
    requires events != []
    ensures history + Touches([events[0]]) + Touches(events[1..]) == history + Touches(events)
  {
    TouchesOne(events[0]);
    RegroupTouches(history, Touches([events[0]]), Touches(events[1..]));
  }

  lemma TouchesOne(ev: Event)
    ensures Touches([ev]) == if ev.Request? then [ev.session] else []
  {
    assert [ev][1..] == [];
  }

  lemma RegroupTouches(a: seq<SessionId>, b: seq<SessionId>, c: seq<SessionId>)
    ensures a + b + c == a + (b + c)
  {
  }

  /** In every run the Map iterates its sessions in the order they were last touched. */
  lemma {:induction false} IterationIsTouchOrder(c: Cache, events: seq<Event>, ttl: int, history: seq<SessionId>)
    requires Valid(c) && InTouchOrder(c.slots, history)
    ensures InTouchOrder(Run(c, events, ttl).slots, history + Touches(events))
    decreases |events|
  {
    if events == [] {
      assert history + Touches(events) == history;
    } else {
      StepOrdered(c, events[0], ttl, history);
      StepValid(c, events[0], ttl);
      IterationIsTouchOrder(Step(c, events[0], ttl), events[1..], ttl, history + Touches([events[0]]));
      TouchesSplit(history, events);
    }
  }

  // ----- the lifetime of an entry -----

  lemma {:induction false} RunConcat(c: Cache, before: seq<Event>, after: seq<Event>, ttl: int)
    ensures Run(c, before + after, ttl) == Run(Run(c, before, ttl), after, ttl)
    decreases |before|
  {
    if before == [] {
      assert before + after == after;
    } else {
      assert (before + after)[1..] == before[1..] + after;
      RunConcat(Step(c, before[0], ttl), before[1..], after, ttl);
    }
  }

  lemma ExpiryAfterBuild(c: Cache, before: seq<Event>, e: EntryId, builtAt: int, after: seq<Event>, ttl: int)
    requires Pending(Run(c, before, ttl), e)
    ensures var last := Run(c, before + [BuildSucceeded(e, builtAt)] + after, ttl);
      e < |last.entries| && last.entries[e].expiresAt == builtAt + ttl
  {
    var built := BuildSucceeded(e, builtAt);
    assert before + [built] + after == before + ([built] + after);
    RunConcat(c, before, [built] + after, ttl);
    assert ([built] + after)[0] == built && ([built] + after)[1..] == after;
    EntriesGrow(Step(Run(c, before, ttl), built, ttl), after, ttl, e);
  }

  /**
   What the cache is for: the paid retry sees the offer of its 402 challenge. Once the
   challenge's build has resolved, a retry of the session within `maxTimeoutSeconds` joins
   that very promise unless 256 other sessions were touched meanwhile.
   */
  lemma PaidRetrySeesTheChallengedOffer(c: Cache, session: SessionId, pruneAt: int, setAt: int,
                                        before: seq<Event>, builtAt: int, after: seq<Event>,
                                        retryAt: int, retrySetAt: int, maxTimeoutSeconds: int)
    requires Valid(c)
    requires
      var ttl := SessionTtl(maxTimeoutSeconds);
      var (first, e) := Resolve(c, session, pruneAt, setAt);
      var events := before + [BuildSucceeded(e, builtAt)] + after;
      && Pending(Run(first, before, ttl), e)
      && BuildNeverFails(first, events, ttl, e)
      && ClockUpTo(events, retryAt) && retryAt < PROVISIONAL_EXPIRY
      && retryAt <= builtAt + maxTimeoutSeconds * 1000
      && |Touched(events) - {session}| < 256
    ensures
      var ttl := SessionTtl(maxTimeoutSeconds);
      var (first, e) := Resolve(c, session, pruneAt, setAt);
      var events := before + [BuildSucceeded(e, builtAt)] + after;
      Resolve(Run(first, events, ttl), session, retryAt, retrySetAt).1 == e
  {
    var ttl := SessionTtl(maxTimeoutSeconds);
    var (first, e) := Resolve(c, session, pruneAt, setAt);
    var events := before + [BuildSucceeded(e, builtAt)] + after;
    ExpiryAfterBuild(first, before, e, builtAt, after, ttl);
    SharedPromise(c, session, pruneAt, setAt, events, retryAt, retrySetAt, ttl);
  }
}
