/**
 The session cache in its own form: an object whose methods update the Map in place, each
 proved to leave it exactly as the event of the session cache model does.
 */
module OfferCacheHost {
  import opened SessionCache
  import opened Wrappers

  lemma {:induction false} PruneFrame(slots: seq<Slot>, entries: seq<Entry>, more: seq<Entry>, now: int)
    requires forall i | 0 <= i < |slots| :: slots[i].entry < |entries|
    ensures Prune(slots, entries + more, now) == Prune(slots, entries, now)
  {
    if slots != [] {
      PruneFrame(slots[1..], entries, more, now);
    }
  }

  /** One turn of the pruning loop: the slot at `i` is deleted or kept. */
  lemma PruneTurn(slots: seq<Slot>, i: nat, entries: seq<Entry>, now: int)
    requires i < |slots|
    ensures
      var rest := Prune(slots[i..], entries, now);
      var without := slots[..i] + slots[i + 1..];
      if Expired(entries, slots[i], now)
      then without[..i] == slots[..i] && Prune(without[i..], entries, now) == rest
      else slots[..i + 1] + Prune(slots[i + 1..], entries, now) == slots[..i] + rest
  {
    var without := slots[..i] + slots[i + 1..];
    assert without[i..] == slots[i + 1..];
    assert slots[i..][1..] == slots[i + 1..];
    assert slots[..i + 1] == slots[..i] + [slots[i]];
  }

  class OfferCache {
    var slots: seq<Slot>
    var entries: seq<Entry>
    const ttl: int

    constructor (maxTimeoutSeconds: int)
      ensures View() == EMPTY && ttl == SessionTtl(maxTimeoutSeconds)
    {
      slots := [];
      entries := [];
      ttl := SessionTtl(maxTimeoutSeconds);
    }

    function View(): Cache
      reads this
    {
      Cache(slots, entries)
    }

    /** `pruneExpiredSessions`: delete every expired slot while iterating the Map. */
    method PruneExpired(now: int)
      modifies this`slots
      ensures slots == Prune(old(slots), entries, now)
    {
      var i := 0;
      while i < |slots|
        invariant 0 <= i <= |slots|
        invariant slots[..i] + Prune(slots[i..], entries, now) == Prune(old(slots), entries, now)
        decreases |slots| - i
      {
        PruneTurn(slots, i, entries, now);
        if Expired(entries, slots[i], now) {
          slots := slots[..i] + slots[i + 1..];
        } else {
          i := i + 1;
        }
      }
      assert slots[..i] == slots && slots[i..] == [];
    }

    /** The overriding `set`. */
    method Set(session: SessionId, entry: EntryId, now: int)
      modifies this`slots
      ensures slots == SetSlot(old(slots), entries, Slot(session, entry), now)
    {
      PruneExpired(now);
      var live := slots;
      if Lookup(slots, session).Some? {
        slots := Without(slots, session);
      } else {
        while |slots| >= MAX_SESSION_CACHE_ENTRIES
          invariant EvictOldest(slots) == EvictOldest(live)
        {
          slots := slots[1..];
        }
      }
      slots := slots + [Slot(session, entry)];
    }

    /** `resolveRequirements` up to its first await; the result stands for the returned promise. */
    method ResolveRequirements(session: SessionId, pruneAt: int, setAt: int) returns (entry: EntryId)
      requires Valid(View())
      modifies this
      ensures Valid(View())
      ensures (View(), entry) == Resolve(old(View()), session, pruneAt, setAt)
    {
      ResolveValid(View(), session, pruneAt, setAt);
      PruneKeepsLive(slots, entries, pruneAt);
      PruneExpired(pruneAt);
      var existing := Lookup(slots, session);
      if existing.Some? {
        entry := existing.value;
        Set(session, entry, setAt);
      } else {
        entry := |entries|;
        forall i | 0 <= i < |slots| ensures slots[i].entry < |entries| {
          assert slots[i] in slots;
        }
        PruneFrame(slots, entries, [Entry(session, PROVISIONAL_EXPIRY, false)], setAt);
        entries := entries + [Entry(session, PROVISIONAL_EXPIRY, false)];
        Set(session, entry, setAt);
      }
    }

    /** The continuation of `await promise` when the build resolves. */
    method BuildDone(entry: EntryId, at: int)
      requires Valid(View()) && Pending(View(), entry)
      modifies this`entries
      ensures Valid(View())
      ensures View() == Step(old(View()), BuildSucceeded(entry, at), ttl)
    {
      entries := entries[entry := entries[entry].(expiresAt := at + ttl, settled := true)];
    }

    /** The `catch` branch: forget the session only if it still holds this very entry. */
    method BuildThrew(entry: EntryId)
      requires Valid(View()) && Pending(View(), entry)
      modifies this
      ensures Valid(View())
      ensures View() == Step(old(View()), BuildFailed(entry), ttl)
    {
      StepValid(View(), BuildFailed(entry), ttl);
      var session := entries[entry].session;
      if Lookup(slots, session) == Some(entry) {
        slots := Without(slots, session);
      }
      entries := entries[entry := entries[entry].(settled := true)];
    }
  }
}
