/**
 When an offer of the session cache is never handed out again: after its build has failed,
 and once a request has found it expired. Everything here holds from any valid cache on,
 and every run of the cache is valid (`SessionCache.RunValid`).
 */
module OfferLifetime {
  import opened SessionCache
  import opened Wrappers

  /** Entry `e` exists, and no session is served it any more. */
  ghost predicate Gone(c: Cache, e: EntryId) {
    e < |c.entries| && forall s | s in c.slots :: s.entry != e
  }

  lemma MakeRoomOnlyRemoves(slots: seq<Slot>, session: SessionId)
    requires UniqueSessions(slots)
    ensures forall s | s in MakeRoom(slots, session) :: s in slots
  {
    WithoutRemoves(slots, session);
  }

  /** A request serves what pruning left of its session, or a new entry; every other slot was there before. */
  lemma ResolveServes(c: Cache, session: SessionId, pruneAt: int, setAt: int)
    requires Valid(c)
    ensures var (c', f) := Resolve(c, session, pruneAt, setAt);
      && (f == |c.entries| || (Slot(session, f) in c.slots && !Expired(c.entries, Slot(session, f), pruneAt)))
      && (f == |c.entries| <==> session !in Sessions(Prune(c.slots, c.entries, pruneAt)))
      && forall s | s in c'.slots ::
           s == Slot(session, f)
           || (s in c.slots && !Expired(c.entries, s, pruneAt) && !Expired(c.entries, s, setAt))
  {
    var live := Prune(c.slots, c.entries, pruneAt);
    PruneKeepsLive(c.slots, c.entries, pruneAt);
    LookupFinds(live, session);
    PruneKeepsLive(live, c.entries, setAt);
    MakeRoomOnlyRemoves(Prune(live, c.entries, setAt), session);
    var found := Lookup(live, session);
    if found.Some? {
      assert Slot(session, found.value) in c.slots;
      var i :| 0 <= i < |c.slots| && c.slots[i] == Slot(session, found.value);
      assert found.value < |c.entries|;
    }
  }

  lemma GoneStays(c: Cache, ev: Event, ttl: int, e: EntryId)
    requires Valid(c) && Gone(c, e)
    ensures Gone(Step(c, ev, ttl), e)
  {
    match ev
    case Request(session, pruneAt, setAt) => ResolveServes(c, session, pruneAt, setAt);
    case BuildSucceeded(_, _) =>
    case BuildFailed(x) =>
      if Pending(c, x) {
        WithoutRemoves(c.slots, c.entries[x].session);
      }
  }

  lemma {:induction false} GoneForever(c: Cache, events: seq<Event>, ttl: int, e: EntryId)
    requires Valid(c) && Gone(c, e)
    ensures Valid(Run(c, events, ttl)) && Gone(Run(c, events, ttl), e)
    decreases |events|
  {
    if events != [] {
      StepValid(c, events[0], ttl);
      GoneStays(c, events[0], ttl, e);
      GoneForever(Step(c, events[0], ttl), events[1..], ttl, e);
    }
  }

  lemma FailureRemoves(c: Cache, e: EntryId, ttl: int)
    requires Valid(c) && Pending(c, e)
    ensures Gone(Step(c, BuildFailed(e), ttl), e)
  {
    var session := c.entries[e].session;
    WithoutRemoves(c.slots, session);
    forall s | s in c.slots && s.entry == e ensures Lookup(c.slots, session) == Some(e) && s.session == session {
      var i :| 0 <= i < |c.slots| && c.slots[i] == s;
      LookupUnique(c.slots, s);
    }
  }

  lemma ExpiryRemoves(c: Cache, session: SessionId, pruneAt: int, setAt: int, e: EntryId)
    requires Valid(c) && e < |c.entries| && c.entries[e].expiresAt <= pruneAt
    ensures Resolve(c, session, pruneAt, setAt).1 != e && Gone(Resolve(c, session, pruneAt, setAt).0, e)
  {
    ResolveServes(c, session, pruneAt, setAt);
  }

  lemma GoneIsNotServed(c: Cache, session: SessionId, pruneAt: int, setAt: int, e: EntryId)
    requires Valid(c) && Gone(c, e)
    ensures Resolve(c, session, pruneAt, setAt).1 != e
  {
    ResolveServes(c, session, pruneAt, setAt);
  }

  /** In every run: once its build has failed, a promise is never handed out again, to any session. */
  lemma FailedPromiseIsNeverServed(c: Cache, e: EntryId, after: seq<Event>, session: SessionId, pruneAt: int, setAt: int, ttl: int)
    requires Valid(c) && Pending(c, e)
    ensures Resolve(Run(c, [BuildFailed(e)] + after, ttl), session, pruneAt, setAt).1 != e
  {
    var failed := Step(c, BuildFailed(e), ttl);
    RunFrom(c, BuildFailed(e), after, ttl);
    StepValid(c, BuildFailed(e), ttl);
    FailureRemoves(c, e, ttl);
    GoneForever(failed, after, ttl, e);
    GoneIsNotServed(Run(failed, after, ttl), session, pruneAt, setAt, e);
  }

  /** Nor is one that any request, of whatever session, found expired; that request included. */
  lemma ExpiredPromiseIsNeverServed(c: Cache, e: EntryId, other: SessionId, seenAt: int, setSeenAt: int,
                                    after: seq<Event>, session: SessionId, pruneAt: int, setAt: int, ttl: int)
    requires Valid(c) && e < |c.entries| && c.entries[e].expiresAt <= seenAt
    ensures Resolve(c, other, seenAt, setSeenAt).1 != e
    ensures Resolve(Run(c, [Request(other, seenAt, setSeenAt)] + after, ttl), session, pruneAt, setAt).1 != e
  {
    var seen := Request(other, seenAt, setSeenAt);
    RunFrom(c, seen, after, ttl);
    StepValid(c, seen, ttl);
    ExpiryRemoves(c, other, seenAt, setSeenAt, e);
    GoneForever(Step(c, seen, ttl), after, ttl, e);
    GoneIsNotServed(Run(Step(c, seen, ttl), after, ttl), session, pruneAt, setAt, e);
  }

  lemma RunFrom(c: Cache, ev: Event, after: seq<Event>, ttl: int)
    ensures Run(c, [ev] + after, ttl) == Run(Step(c, ev, ttl), after, ttl)
  {
    assert ([ev] + after)[0] == ev && ([ev] + after)[1..] == after;
  }

  /** The session is served `e` or nothing. */
  ghost predicate ServedOnly(c: Cache, session: SessionId, e: EntryId) {
    && e < |c.entries| && c.entries[e].session == session
    && forall s | s in c.slots && s.session == session :: s.entry == e
  }

  ghost predicate NotRequested(events: seq<Event>, session: SessionId) {
    forall i | 0 <= i < |events| && events[i].Request? :: events[i].session != session
  }

  /** Every request of the session among the events is handed `e`. */
  ghost predicate OnlyServed(c: Cache, events: seq<Event>, ttl: int, session: SessionId, e: EntryId)
    decreases |events|
  {
    events == [] || (
      && (events[0].Request? && events[0].session == session ==>
            Resolve(c, session, events[0].pruneAt, events[0].setAt).1 == e)
      && OnlyServed(Step(c, events[0], ttl), events[1..], ttl, session, e))
  }

  lemma {:induction false} NotRequestedIsServed(c: Cache, events: seq<Event>, ttl: int, session: SessionId, e: EntryId)
    requires NotRequested(events, session)
    ensures OnlyServed(c, events, ttl, session, e)
    decreases |events|
  {
    if events != [] {
      assert forall i | 0 <= i < |events[1..]| :: events[1..][i] == events[i + 1];
      NotRequestedIsServed(Step(c, events[0], ttl), events[1..], ttl, session, e);
    }
  }

  lemma OthersKeepServed(c: Cache, ev: Event, ttl: int, session: SessionId, e: EntryId)
    requires Valid(c) && ServedOnly(c, session, e) && (ev.Request? ==> ev.session != session)
    ensures ServedOnly(Step(c, ev, ttl), session, e)
  {
    match ev
    case Request(other, pruneAt, setAt) => ResolveServes(c, other, pruneAt, setAt);
    case BuildSucceeded(_, _) =>
    case BuildFailed(x) =>
      if Pending(c, x) {
        WithoutRemoves(c.slots, c.entries[x].session);
      }
  }

  lemma RequestServesOnly(c: Cache, session: SessionId, pruneAt: int, setAt: int)
    requires Valid(c)
    ensures var (first, e) := Resolve(c, session, pruneAt, setAt); Valid(first) && ServedOnly(first, session, e)
  {
    ResolveValid(c, session, pruneAt, setAt);
    var (first, e) := Resolve(c, session, pruneAt, setAt);
    forall s | s in first.slots && s.session == session ensures s.entry == e {
      LookupUnique(first.slots, s);
      LookupUnique(first.slots, Slot(session, e));
    }
    var i :| 0 <= i < |first.slots| && first.slots[i] == Slot(session, e);
  }

  lemma {:induction false} ServedRun(c: Cache, events: seq<Event>, ttl: int, session: SessionId, e: EntryId)
    requires Valid(c) && ServedOnly(c, session, e) && OnlyServed(c, events, ttl, session, e)
    ensures Valid(Run(c, events, ttl)) && ServedOnly(Run(c, events, ttl), session, e)
    decreases |events|
  {
    if events != [] {
      StepValid(c, events[0], ttl);
      if events[0].Request? && events[0].session == session {
        RequestServesOnly(c, session, events[0].pruneAt, events[0].setAt);
      } else {
        OthersKeepServed(c, events[0], ttl, session, e);
      }
      ServedRun(Step(c, events[0], ttl), events[1..], ttl, session, e);
    }
  }

  /** The request starts a build of its own. */
  ghost predicate StartsBuild(c: Cache, session: SessionId, pruneAt: int, setAt: int) {
    var (c', f) := Resolve(c, session, pruneAt, setAt);
    f == |c.entries| && Pending(c', f) && c'.entries[f].session == session
  }

  /** With `e` gone, a session that is served nothing else starts a build. */
  lemma GoneStartsBuild(c: Cache, session: SessionId, e: EntryId, pruneAt: int, setAt: int)
    requires Valid(c) && ServedOnly(c, session, e)
    requires Gone(c, e) || c.entries[e].expiresAt <= pruneAt
    ensures StartsBuild(c, session, pruneAt, setAt)
  {
    ResolveServes(c, session, pruneAt, setAt);
    PruneKeepsLive(c.slots, c.entries, pruneAt);
    LookupFinds(Prune(c.slots, c.entries, pruneAt), session);
  }

  lemma HeldOnly(c: Cache, e: EntryId)
    requires Valid(c) && e < |c.entries| && Lookup(c.slots, c.entries[e].session) in {None, Some(e)}
    ensures ServedOnly(c, c.entries[e].session, e)
  {
    forall s | s in c.slots && s.session == c.entries[e].session ensures s.entry == e {
      LookupUnique(c.slots, s);
    }
  }

  /**
   After a failed build the session's next request starts a new one, whatever other sessions
   did in between; unless the session had lost the failed entry to eviction and been given
   another before the failure.
   */
  lemma FailedSessionRebuilds(c: Cache, e: EntryId, after: seq<Event>, pruneAt: int, setAt: int, ttl: int)
    requires Valid(c) && Pending(c, e) && Lookup(c.slots, c.entries[e].session) in {None, Some(e)}
    requires NotRequested(after, c.entries[e].session)
    ensures StartsBuild(Run(c, [BuildFailed(e)] + after, ttl), c.entries[e].session, pruneAt, setAt)
  {
    var session, failed := c.entries[e].session, Step(c, BuildFailed(e), ttl);
    RunFrom(c, BuildFailed(e), after, ttl);
    StepValid(c, BuildFailed(e), ttl);
    HeldOnly(c, e);
    OthersKeepServed(c, BuildFailed(e), ttl, session, e);
    FailureRemoves(c, e, ttl);
    NotRequestedIsServed(failed, after, ttl, session, e);
    ServedRun(failed, after, ttl, session, e);
    GoneForever(failed, after, ttl, e);
    GoneStartsBuild(Run(failed, after, ttl), session, e, pruneAt, setAt);
  }

  /**
   An offer built at `builtAt` is served no longer than its time to live: however often the session
   was served it, a request at or past `builtAt` plus the larger of one minute and
   maxTimeoutSeconds plus five seconds starts a new build.
   */
  lemma ExpiredOfferIsRebuilt(c: Cache, e: EntryId, builtAt: int, after: seq<Event>, maxTimeoutSeconds: int, pruneAt: int, setAt: int)
    requires Valid(c) && Pending(c, e) && Lookup(c.slots, c.entries[e].session) in {None, Some(e)}
    requires OnlyServed(c, [BuildSucceeded(e, builtAt)] + after, SessionTtl(maxTimeoutSeconds), c.entries[e].session, e)
    requires pruneAt >= builtAt + 60000 && pruneAt >= builtAt + maxTimeoutSeconds * 1000 + 5000
    ensures
      var last := Run(c, [BuildSucceeded(e, builtAt)] + after, SessionTtl(maxTimeoutSeconds));
      StartsBuild(last, c.entries[e].session, pruneAt, setAt)
  {
    var ttl := SessionTtl(maxTimeoutSeconds);
    var events := [BuildSucceeded(e, builtAt)] + after;
    HeldOnly(c, e);
    assert Run(c, [], ttl) == c && [] + [BuildSucceeded(e, builtAt)] + after == events;
    ExpiryAfterBuild(c, [], e, builtAt, after, ttl);
    ServedRun(c, events, ttl, c.entries[e].session, e);
    GoneStartsBuild(Run(c, events, ttl), c.entries[e].session, e, pruneAt, setAt);
  }
}
