/**
 The three pieces of code behind the recovery journal in their own form: the redeem
 handler, the Flow B tail of the commit handler, and `recovery.replay`. Each is an object
 that updates the stores in place, with its `try`/`catch` structure written out, and is
 proved to do exactly what the process of the journal model does under the same replies.
 */
module RecoveryHost {
  import opened Fulfillment
  import opened Json
  import opened RecoveryJournal
  import opened Wrappers

  /** How many awaits a process has left at most. */
  function AwaitsLeft(p: Process): nat {
    match p
    case Gate(_, _, _) => 12
    case Settle(_, _) => 11
    case Tail(_, _, _, WritePending) => 10
    case Tail(_, _, _, CallCommit) => 9
    case Tail(_, _, _, WriteDelivery) => 8
    case Tail(_, _, _, CallFulfill) => 7
    case Tail(_, _, _, ClearDelivered) => 6
    case Tail(_, _, _, WriteDeliveryError(_)) => 5
    case Tail(_, _, _, ClearCommitted) => 5
    case Tail(_, _, _, WriteCommitError(_)) => 4
    case Tail(_, _, _, WriteMissing) => 4
    case ReplayRead(_) => 4
    case ReplayCall(_, _, _) => 3
    case ReplayDelete(_, _) => 2
    case ReplayError(_, _, _) => 1
    case DropOptions(_) => 3
    case Recording(_, _) => 3
    case Ended(_) => 0
  }

  /** Run one process to its end with nobody else about, await `k` answered by `replies(k)`. */
  function Drive(config: Config, replies: nat -> Reply, k: nat, s: Shared, p: Process): (Shared, bool)
    decreases AwaitsLeft(p)
  {
    if p.Ended? then (s, p.ok)
    else
      var (t, q) := ProcessStep(config, s, p, replies(k));
      Drive(config, replies, k + 1, t, q)
  }

  datatype Warning =
    | FULFILLMENT_UPDATE_DEFERRED(error: string)
    | FULFILLMENT_COMMIT_DEFERRED(error: string)
    | FULFILLMENT_DELIVERY_DEFERRED(error: string)

  /** The entry left for an operator: the buyer's own selection, the phase to resume from, and why. */
  ghost predicate Recorded(store: map<ExchangeId, Entry>, job: Job, phase: Phase, error: string) {
    && job.exchange in store
    && var e := store[job.exchange];
       e == Entry(job.exchange, job.option, job.data, job.redeemer, e.recordedAt, phase, Some(error))
  }

  // ----- what a process does when nothing else is about -----

  /** The awaits from `first` on, up to `end`, are all answered without a rejection. */
  ghost predicate AllDone(replies: nat -> Reply, first: nat, end: nat) {
    forall k | first <= k < end :: replies(k).outcome.Done?
  }

  function OptionsAfter(job: Job, options: map<ExchangeId, seq<OptionId>>): map<ExchangeId, seq<OptionId>> {
    if job.flow.FlowA? then options - {job.exchange} else options
  }

  /** The last steps of a tail: delete the entry, and in the redeem handler the option list. */
  lemma ClearInPeace(config: Config, replies: nat -> Reply, k: nat, s: Shared, p: Process)
    requires p.Tail? && (p.pc.ClearDelivered? || p.pc.ClearCommitted?) && AllDone(replies, k, k + 2)
    ensures Drive(config, replies, k, s, p) ==
      (Shared(s.store - {p.job.exchange}, OptionsAfter(p.job, s.options), s.log), true)
  {
    var t := Erase(s, p.job.exchange, Done);
    assert ProcessStep(config, s, p, replies(k)) == (t, Finish(p.job));
    assert Drive(config, replies, k, s, p) == Drive(config, replies, k + 1, t, Finish(p.job));
    if p.job.flow.FlowA? {
      var u := t.(options := t.options - {p.job.exchange});
      assert ProcessStep(config, t, DropOptions(p.job.exchange), replies(k + 1)) == (u, Ended(true));
      assert Drive(config, replies, k + 2, u, Ended(true)) == (u, true);
    }
  }

  lemma DeliverInPeace(config: Config, replies: nat -> Reply, k: nat, s: Shared, p: Process)
    requires p.Tail? && p.pc.WriteDelivery? && p.pending.exchangeId == p.job.exchange && AllDone(replies, k, k + 4)
    ensures Drive(config, replies, k, s, p) ==
      (Shared(s.store - {p.job.exchange}, OptionsAfter(p.job, s.options),
              s.log + [Fulfilled(p.job.exchange, p.job.option)]), true)
  {
    var t := Write(s, DeliveryEntry(p.pending, p.deliveryAt), Done);
    var u := Resolve(t, Fulfilled(p.job.exchange, p.job.option));
    assert ProcessStep(config, s, p, replies(k)) == (t, p.(pc := CallFulfill));
    assert ProcessStep(config, t, p.(pc := CallFulfill), replies(k + 1)) == (u, p.(pc := ClearDelivered));
    assert Drive(config, replies, k, s, p) == Drive(config, replies, k + 1, t, p.(pc := CallFulfill))
      == Drive(config, replies, k + 2, u, p.(pc := ClearDelivered));
    ClearInPeace(config, replies, k + 2, u, p.(pc := ClearDelivered));
    assert u.store - {p.job.exchange} == s.store - {p.job.exchange};
  }

  /**
   With every call answered, a handler calls `onCommit`, then `onFulfill` if the channel has
   one, and leaves no entry behind; the redeem handler also drops the option list.
   */
  lemma TailInPeace(config: Config, replies: nat -> Reply, k: nat, s: Shared, job: Job, now: int)
    requires job.channel.Some? && AllDone(replies, k, k + 6)
    ensures
      var x, committed := job.exchange, Committed(job.exchange, job.option, job.data);
      Drive(config, replies, k, s, Tail(job, PendingEntry(job, now), now, WritePending)) ==
        (Shared(s.store - {x},
                if job.flow.FlowA? then s.options - {x} else s.options,
                s.log + if job.channel.value.dispatches then [committed, Fulfilled(x, job.option)] else [committed]),
         true)
  {
    var x, committed := job.exchange, Committed(job.exchange, job.option, job.data);
    var p := Tail(job, PendingEntry(job, now), now, WritePending);
    var t := Write(s, p.pending, Done);
    var u := Resolve(t, committed);
    assert ProcessStep(config, s, p, replies(k)) == (t, p.(pc := CallCommit));
    assert Drive(config, replies, k, s, p) == Drive(config, replies, k + 1, t, p.(pc := CallCommit));
    assert u.store - {x} == s.store - {x};
    if job.channel.value.dispatches {
      var q := p.(deliveryAt := replies(k + 1).now, pc := WriteDelivery);
      assert ProcessStep(config, t, p.(pc := CallCommit), replies(k + 1)) == (u, q);
      DeliverInPeace(config, replies, k + 2, u, q);
      assert u.log + [Fulfilled(x, job.option)] == s.log + [committed, Fulfilled(x, job.option)];
    } else {
      assert ProcessStep(config, t, p.(pc := CallCommit), replies(k + 1)) == (u, p.(pc := ClearCommitted));
      ClearInPeace(config, replies, k + 2, u, p.(pc := ClearCommitted));
    }
  }

  /**
   Replay succeeds exactly when there is an entry, a channel of its option is registered and
   has the callback the entry's phase asks for, and the read, the call and the deletion are
   all answered. It then has made that call, once, and removed the entry; a failed replay
   leaves the entry as it was but for `error`, unless the deletion took effect after all.
   */
  lemma ReplaySucceedsIff(config: Config, replies: nat -> Reply, k: nat, s: Shared, x: ExchangeId)
    ensures
      var (t, ok) := Drive(config, replies, k, s, ReplayRead(x));
      && (ok <==>
            && x in s.store
            && (exists c | c in Channels(config) :: c.id == s.store[x].option)
            && (s.store[x].phase.Delivery? ==> Dispatches(config, s.store[x].option))
            && AllDone(replies, k, k + 3))
      && t.options == s.options
      && (x !in s.store ==> t == s)
      && (x in s.store ==>
            var e := s.store[x];
            var call := if e.phase.Delivery? then Fulfilled(x, e.option) else Committed(x, e.option, e.data);
            && (t.log == s.log || t.log == s.log + [call])
            && (ok ==> t.store == s.store - {x} && t.log == s.log + [call])
            && (x in t.store ==> t.store == s.store[x := e.(error := t.store[x].error)])
            && (x !in t.store ==> t.store == s.store - {x} && t.log == s.log + [call]))
  {
    var (t, p) := ProcessStep(config, s, ReplayRead(x), replies(k));
    DriveOne(config, replies, k, s, ReplayRead(x));
    if x in s.store {
      LookupsMatch(Channels(config), s.store[x].option);
      var channel := Find(Channels(config), s.store[x].option);
      if p.ReplayCall? {
        ReplayFromCall(config, replies, k + 1, s, x, s.store[x], channel.value);
        assert AllDone(replies, k, k + 3) <==> AllDone(replies, k + 1, k + 3);
      } else if p.ReplayError? {
        ErrorEnds(config, replies, k + 1, s, x, s.store[x], p.reason);
      }
    }
  }

  lemma DriveOne(config: Config, replies: nat -> Reply, k: nat, s: Shared, p: Process)
    requires !p.Ended?
    ensures var (t, q) := ProcessStep(config, s, p, replies(k));
      Drive(config, replies, k, s, p) == Drive(config, replies, k + 1, t, q)
  {
  }

  lemma ErrorEnds(config: Config, replies: nat -> Reply, k: nat, s: Shared, x: ExchangeId, e: Entry, reason: string)
    ensures var (t, ok) := Drive(config, replies, k, s, ReplayError(x, e, reason));
      !ok && t.options == s.options && t.log == s.log
      && (t.store == s.store || t.store == s.store[x := e.(error := Some(reason))])
  {
    DriveOne(config, replies, k, s, ReplayError(x, e, reason));
    var (t, q) := ProcessStep(config, s, ReplayError(x, e, reason), replies(k));
    assert Drive(config, replies, k + 1, t, q) == (t, false);
  }

  lemma ReplayFromCall(config: Config, replies: nat -> Reply, k: nat, s: Shared, x: ExchangeId, e: Entry, channel: Channel)
    requires Lookup(s.store, x) == Some(e)
    ensures
      var (t, ok) := Drive(config, replies, k, s, ReplayCall(x, e, channel));
      && (ok <==> AllDone(replies, k, k + 2))
      && t.options == s.options
      && (t.log == s.log || t.log == s.log + [NamedStep(x, e)])
      && (ok ==> t.store == s.store - {x} && t.log == s.log + [NamedStep(x, e)])
      && (x in t.store ==> t.store == s.store[x := e.(error := t.store[x].error)])
      && (x !in t.store ==> t.store == s.store - {x} && t.log == s.log + [NamedStep(x, e)])
  {
    var (t, p) := ProcessStep(config, s, ReplayCall(x, e, channel), replies(k));
    DriveOne(config, replies, k, s, ReplayCall(x, e, channel));
    if p.ReplayDelete? {
      DriveOne(config, replies, k + 1, t, p);
      var (u, q) := ProcessStep(config, t, p, replies(k + 1));
      if q.ReplayError? {
        ErrorEnds(config, replies, k + 2, u, x, e, q.reason);
        assert (s.store - {x})[x := e.(error := Some(q.reason))] == s.store[x := e.(error := Some(q.reason))];
      } else {
        assert Drive(config, replies, k + 2, u, q) == (u, true);
      }
      assert AllDone(replies, k, k + 2) <==> replies(k + 1).outcome.Done?;
    } else {
      ErrorEnds(config, replies, k + 1, t, x, e, p.reason);
    }
    assert s.store[x := e.(error := s.store[x].error)] == s.store;
  }

  /** The process works on another exchange than `y`. */
  ghost predicate Elsewhere(p: Process, y: ExchangeId) {
    match p
    case Tail(job, pending, _, _) => job.exchange != y && pending.exchangeId != y
    case Settle(x, checked) => x != y && (checked.Some? ==> checked.value.exchange != y)
    case Ended(_) => true
    case _ => p.exchange != y
  }

  lemma StepElsewhere(config: Config, s: Shared, p: Process, r: Reply, y: ExchangeId)
    requires Elsewhere(p, y)
    ensures var (t, q) := ProcessStep(config, s, p, r);
      && Elsewhere(q, y)
      && Lookup(t.store, y) == Lookup(s.store, y) && Lookup(t.options, y) == Lookup(s.options, y)
  {
    if p.Tail? {
      TailElsewhere(s, p, r, y);
    } else if IsReplay(p) {
      ReplayElsewhere(config, s, p, r, y);
    } else if !p.Ended? {
      assert Elsewhere(GateStep(config, s, p, r).1, y);
    }
  }

  lemma TailElsewhere(s: Shared, p: Process, r: Reply, y: ExchangeId)
    requires p.Tail? && Elsewhere(p, y)
    ensures var (t, q) := TailStep(s, p, r);
      Elsewhere(q, y) && Lookup(t.store, y) == Lookup(s.store, y) && t.options == s.options
  {
    TailStaysElsewhere(s, p, r, y);
    TailFrame(s, p, r, y);
  }

  lemma TailStaysElsewhere(s: Shared, p: Process, r: Reply, y: ExchangeId)
    requires p.Tail? && Elsewhere(p, y)
    ensures Elsewhere(TailStep(s, p, r).1, y)
  {
  }

  lemma TailFrame(s: Shared, p: Process, r: Reply, y: ExchangeId)
    requires p.Tail? && Elsewhere(p, y)
    ensures var t := TailStep(s, p, r).0;
      Lookup(t.store, y) == Lookup(s.store, y) && t.options == s.options
  {
  }

  lemma ReplayElsewhere(config: Config, s: Shared, p: Process, r: Reply, y: ExchangeId)
    requires IsReplay(p) && Elsewhere(p, y)
    ensures var (t, q) := ReplayStep(config, s, p, r);
      Elsewhere(q, y) && Lookup(t.store, y) == Lookup(s.store, y) && t.options == s.options
  {
  }

  /** A handler or a replay touches the stores at its own exchange only. */
  lemma {:induction false} DriveElsewhere(config: Config, replies: nat -> Reply, k: nat, s: Shared, p: Process, y: ExchangeId)
    requires Elsewhere(p, y)
    ensures var t := Drive(config, replies, k, s, p).0;
      Lookup(t.store, y) == Lookup(s.store, y) && Lookup(t.options, y) == Lookup(s.options, y)
    decreases AwaitsLeft(p)
  {
    if !p.Ended? {
      StepElsewhere(config, s, p, replies(k), y);
      var (t, q) := ProcessStep(config, s, p, replies(k));
      DriveElsewhere(config, replies, k + 1, t, q, y);
    }
  }

  class Host {
    var store: map<ExchangeId, Entry>
    var options: map<ExchangeId, seq<OptionId>>
    var log: seq<Call>
    var answered: nat
    const config: Config
    const replies: nat -> Reply

    ghost function View(): Shared
      reads this
    {
      Shared(store, options, log)
    }

    /** What is left to happen if the process stood at `p` now. */
    ghost function Rest(p: Process): (Shared, bool)
      reads this
    {
      Drive(config, replies, answered, View(), p)
    }

    constructor (config: Config, replies: nat -> Reply)
      ensures this.config == config && this.replies == replies
      ensures View() == START.shared && answered == 0
    {
      this.config, this.replies := config, replies;
      store, options, log, answered := map[], map[], [], 0;
    }

    method Await() returns (r: Reply)
      modifies `answered
      ensures r == replies(old(answered)) && answered == old(answered) + 1
    {
      r := replies(answered);
      answered := answered + 1;
    }

    method SetEntry(x: ExchangeId, e: Entry) returns (r: Reply)
      modifies `answered, `store
      ensures r == replies(old(answered)) && answered == old(answered) + 1
      ensures View() == old(View()).(store := Put(old(store), x, e, r.outcome))
      ensures store == if r.outcome.FailedLost? then old(store) else old(store)[x := e]
    {
      r := Await();
      store := Put(store, x, e, r.outcome);
    }

    method DeleteEntry(x: ExchangeId) returns (r: Reply)
      modifies `answered, `store
      ensures r == replies(old(answered)) && answered == old(answered) + 1
      ensures View() == Erase(old(View()), x, r.outcome)
      ensures store == if r.outcome.FailedLost? then old(store) else old(store) - {x}
    {
      r := Await();
      store := Drop(store, x, r.outcome);
    }

    /** `channel.onCommit(...)`, or `channel.onFulfill(...)` in a replay. */
    method CallChannel(call: Call) returns (r: Reply)
      modifies `answered, `log
      ensures r == replies(old(answered)) && answered == old(answered) + 1
      ensures View() == if r.outcome.Done? then Resolve(old(View()), call) else old(View())
    {
      r := Await();
      if r.outcome.Done? {
        log := log + [call];
      }
    }

    /** `serializeFulfillmentResult(await channel.onFulfill(...))`: the dispatch may resolve and the rest still throw. */
    method Dispatch(call: Call) returns (r: Reply)
      modifies `answered, `log
      ensures r == replies(old(answered)) && answered == old(answered) + 1
      ensures View() == if r.outcome.FailedLost? then old(View()) else Resolve(old(View()), call)
    {
      r := Await();
      if !r.outcome.FailedLost? {
        log := log + [call];
      }
    }

    method DeleteOptions(x: ExchangeId) returns (r: Reply)
      modifies `answered, `options
      ensures r == replies(old(answered)) && answered == old(answered) + 1
      ensures View() == old(View()).(options := Drop(old(options), x, r.outcome))
      ensures options == if r.outcome.FailedLost? then old(options) else old(options) - {x}
    {
      r := Await();
      options := Drop(options, x, r.outcome);
    }

    /**
     The redeem handler's delivery step, from its journal write on: `p` is where the
     journal process stands. `failure` is what the inner `try` caught.
     */
    method RedeemDelivery(job: Job, deliveryPending: Entry, ghost p: Process)
      returns (threw: bool, failure: Option<string>, delivered: bool)
      requires p.Tail? && p.job == job && p.pc.WriteDelivery? && job.flow.FlowA?
      requires deliveryPending == DeliveryEntry(p.pending, p.deliveryAt) && deliveryPending.exchangeId == job.exchange
      modifies this
      ensures Rest(if threw then Ended(false) else DropOptions(job.exchange)) == old(Rest(p))
      ensures !threw ==> (failure.None? <==> job.exchange !in store)
      ensures !threw && failure.Some? ==> store[job.exchange] == deliveryPending.(error := failure)
      ensures log == old(log) || log == old(log) + [Fulfilled(job.exchange, job.option)]
      ensures delivered || (!threw && failure.None?) ==> log != old(log)
    {
      threw, failure, delivered := false, None, false;
      var x := job.exchange;
      var r := SetEntry(x, deliveryPending);
      if !r.outcome.Done? {
        assert Rest(Ended(false)) == old(Rest(p));
        return true, None, false;
      }
      assert Rest(p.(pc := CallFulfill)) == old(Rest(p));
      r := Dispatch(Fulfilled(x, job.option));
      if r.outcome.Done? {
        delivered := true;
        assert Rest(p.(pc := ClearDelivered)) == old(Rest(p));
        r := DeleteEntry(x);
      }
      if !r.outcome.Done? {
        failure := Some(r.reason);
        assert Rest(p.(pc := WriteDeliveryError(r.reason))) == old(Rest(p));
        r := SetEntry(x, deliveryPending.(error := failure));
        if !r.outcome.Done? {
          assert Rest(Ended(false)) == old(Rest(p));
          return true, failure, delivered;
        }
      }
      assert Rest(DropOptions(x)) == old(Rest(p));
    }

    /** The redeem handler's `onCommit` step: write ahead, call, record a failure. */
    method RedeemCommit(job: Job, pending: Entry, ghost p: Process)
      returns (threw: bool, failure: Option<string>, at: int)
      requires p.Tail? && p.job == job && p.pc.WritePending? && job.flow.FlowA? && job.channel.Some?
      requires pending == p.pending && pending.exchangeId == job.exchange
      modifies this
      ensures threw ==> Rest(Ended(false)) == old(Rest(p))
      ensures !threw && failure.Some? ==>
        && Rest(DropOptions(job.exchange)) == old(Rest(p))
        && job.exchange in store && store[job.exchange] == pending.(error := failure)
      ensures !threw && failure.None? ==>
        && log == old(log) + [Committed(job.exchange, job.option, job.data)]
        && old(Rest(p)) == if job.channel.value.dispatches then Rest(p.(deliveryAt := at, pc := WriteDelivery))
                           else Rest(p.(pc := ClearCommitted))
      ensures threw || failure.Some? ==> log == old(log)
    {
      threw, failure, at := false, None, 0;
      var x := job.exchange;
      var r := SetEntry(x, pending);
      if !r.outcome.Done? {
        assert Rest(Ended(false)) == old(Rest(p));
        return true, None, 0;
      }
      assert Rest(p.(pc := CallCommit)) == old(Rest(p));
      r := CallChannel(Committed(x, job.option, job.data));
      if r.outcome.Done? {
        at := r.now;
      } else {
        failure := Some(r.reason);
        assert Rest(p.(pc := WriteCommitError(r.reason))) == old(Rest(p));
        r := SetEntry(x, pending.(error := failure));
        threw := !r.outcome.Done?;
        assert Rest(if threw then Ended(false) else DropOptions(x)) == old(Rest(p));
      }
    }

    /**
     The redeem handler once the exchange is REDEEMED. A response without warnings means
     the entry is gone and everything owed has been done; with a warning, the buyer's own
     selection is on record in the phase to resume from. Either way the option list is gone,
     and no other exchange was touched.
     */
    method RedeemTail(job: Job, now: int) returns (threw: bool, warnings: seq<Warning>, delivered: bool)
      requires job.flow.FlowA? && job.channel.Some?
      modifies this
      ensures (View(), !threw) == old(Rest(Tail(job, PendingEntry(job, now), now, WritePending)))
      ensures !threw ==> (warnings == [] <==> job.exchange !in store)
      ensures old(log) <= log
      ensures !threw && warnings == [] ==> Complete(log[|old(log)|..], job)
      ensures delivered ==> Fulfilled(job.exchange, job.option) in log[|old(log)|..]
      ensures !threw && warnings != [] ==>
        && |warnings| == 1
        && match warnings[0]
           case FULFILLMENT_UPDATE_DEFERRED(e) =>
             Recorded(store, job, Commit, e) && store[job.exchange].recordedAt == now && log == old(log)
           case FULFILLMENT_DELIVERY_DEFERRED(e) =>
             Recorded(store, job, Delivery, e) && Committed(job.exchange, job.option, job.data) in log[|old(log)|..]
           case FULFILLMENT_COMMIT_DEFERRED(_) => false
      ensures !threw ==> job.exchange !in options
    {
      threw, warnings, delivered := false, [], false;
      var x, pending := job.exchange, PendingEntry(job, now);
      ghost var p := Tail(job, pending, now, WritePending);
      var failure, at;
      threw, failure, at := RedeemCommit(job, pending, p);
      if threw {
        return;
      }
      if failure.Some? {
        warnings := [FULFILLMENT_UPDATE_DEFERRED(failure.value)];
      } else if job.channel.value.dispatches {
        threw, failure, delivered :=
          RedeemDelivery(job, DeliveryEntry(pending, at), p.(deliveryAt := at, pc := WriteDelivery));
        assert delivered || (!threw && failure.None?) ==>
          log[|old(log)|..] == [Committed(x, job.option, job.data), Fulfilled(x, job.option)];
        if threw {
          return;
        }
        if failure.Some? {
          warnings := [FULFILLMENT_DELIVERY_DEFERRED(failure.value)];
        }
      } else {
        assert log[|old(log)|..] == [Committed(x, job.option, job.data)];
        var r := DeleteEntry(x);
        if !r.outcome.Done? {
          assert Rest(Ended(false)) == old(Rest(p));
          return true, [], false;
        }
      }
      assert Rest(DropOptions(x)) == old(Rest(p));
      var r := DeleteOptions(x);
      threw := !r.outcome.Done?;
      assert Rest(Ended(!threw)) == old(Rest(p));
    }

    /**
     The part of Flow B's outer `try` that starts with the delivery write. `failure` is
     what escapes to the outer `catch`, `deferred` what the inner one recorded.
     */
    method CommitDelivery(job: Job, deliveryPending: Entry, ghost p: Process)
      returns (failure: Option<string>, deferred: Option<string>, delivered: bool)
      requires p.Tail? && p.job == job && p.pc.WriteDelivery? && job.flow.FlowB?
      requires deliveryPending == DeliveryEntry(p.pending, p.deliveryAt) && deliveryPending.exchangeId == job.exchange
      modifies this
      ensures failure.Some? ==> Rest(p.(pc := WriteCommitError(failure.value))) == old(Rest(p))
      ensures failure.None? ==> Rest(Ended(true)) == old(Rest(p)) && (deferred.None? <==> job.exchange !in store)
      ensures failure.None? && deferred.Some? ==> store[job.exchange] == deliveryPending.(error := deferred)
      ensures log == old(log) || log == old(log) + [Fulfilled(job.exchange, job.option)]
      ensures delivered || (failure.None? && deferred.None?) ==> log != old(log)
    {
      failure, deferred, delivered := None, None, false;
      var x := job.exchange;
      var r := SetEntry(x, deliveryPending);
      if !r.outcome.Done? {
        assert Rest(p.(pc := WriteCommitError(r.reason))) == old(Rest(p));
        return Some(r.reason), None, false;
      }
      assert Rest(p.(pc := CallFulfill)) == old(Rest(p));
      r := Dispatch(Fulfilled(x, job.option));
      if r.outcome.Done? {
        delivered := true;
        assert Rest(p.(pc := ClearDelivered)) == old(Rest(p));
        r := DeleteEntry(x);
      }
      if !r.outcome.Done? {
        deferred := Some(r.reason);
        assert Rest(p.(pc := WriteDeliveryError(r.reason))) == old(Rest(p));
        r := SetEntry(x, deliveryPending.(error := deferred));
        if !r.outcome.Done? {
          assert Rest(p.(pc := WriteCommitError(r.reason))) == old(Rest(p));
          return Some(r.reason), None, delivered;
        }
      }
      assert Rest(Ended(true)) == old(Rest(p));
    }

    /** The inside of Flow B's outer `try`, from `onCommit` on. */
    method CommitTry(job: Job, pending: Entry, ghost p: Process)
      returns (failure: Option<string>, deferred: Option<string>, delivered: bool, ghost at: int)
      requires p.Tail? && p.job == job && p.pc.CallCommit? && job.flow.FlowB? && job.channel.Some?
      requires pending == p.pending && pending.exchangeId == job.exchange
      modifies this
      ensures failure.Some? ==> Rest(p.(deliveryAt := at, pc := WriteCommitError(failure.value))) == old(Rest(p))
      ensures failure.None? ==> Rest(Ended(true)) == old(Rest(p)) && (deferred.None? <==> job.exchange !in store)
      ensures old(log) <= log
      ensures failure.None? && deferred.Some? ==>
        && store[job.exchange] == DeliveryEntry(pending, at).(error := deferred)
        && Committed(job.exchange, job.option, job.data) in log[|old(log)|..]
      ensures failure.None? && deferred.None? ==> Complete(log[|old(log)|..], job)
    {
      failure, deferred, delivered, at := None, None, false, p.deliveryAt;
      var x := job.exchange;
      var committed, fulfilled := Committed(x, job.option, job.data), Fulfilled(x, job.option);
      var r := CallChannel(committed);
      if !r.outcome.Done? {
        assert Rest(p.(pc := WriteCommitError(r.reason))) == old(Rest(p));
        failure := Some(r.reason);
      } else if job.channel.value.dispatches {
        at := r.now;
        assert Rest(p.(deliveryAt := at, pc := WriteDelivery)) == old(Rest(p));
        failure, deferred, delivered :=
          CommitDelivery(job, DeliveryEntry(pending, r.now), p.(deliveryAt := at, pc := WriteDelivery));
        assert log[|old(log)|..] == [committed] || log[|old(log)|..] == [committed, fulfilled];
      } else {
        assert Rest(p.(pc := ClearCommitted)) == old(Rest(p));
        r := DeleteEntry(x);
        assert log[|old(log)|..] == [committed];
        if r.outcome.Done? {
          assert Rest(Ended(true)) == old(Rest(p));
        } else {
          failure := Some(r.reason);
          assert Rest(p.(pc := WriteCommitError(r.reason))) == old(Rest(p));
        }
      }
    }

    /**
     The Flow B tail once the exchange is REDEEMED. Its outer `catch` turns every failure
     after `onCommit` was tried into a commit-phase entry and a warning.
     */
    method CommitTail(job: Job, now: int) returns (threw: bool, warnings: seq<Warning>, delivered: bool)
      requires job.flow.FlowB?
      modifies this
      ensures (View(), !threw) == old(Rest(Tail(job, PendingEntry(job, now), now, WritePending)))
      ensures !threw ==> (warnings == [] <==> job.exchange !in store)
      ensures old(log) <= log
      ensures !threw && warnings == [] ==> Complete(log[|old(log)|..], job)
      ensures !threw && warnings != [] ==>
        && |warnings| == 1
        && match warnings[0]
           case FULFILLMENT_COMMIT_DEFERRED(e) =>
             Recorded(store, job, Commit, e) && store[job.exchange].recordedAt == now
           case FULFILLMENT_DELIVERY_DEFERRED(e) =>
             Recorded(store, job, Delivery, e) && Committed(job.exchange, job.option, job.data) in log[|old(log)|..]
           case FULFILLMENT_UPDATE_DEFERRED(_) => false
    {
      threw, warnings, delivered := false, [], false;
      var x, pending := job.exchange, PendingEntry(job, now);
      ghost var p := Tail(job, pending, now, WritePending);
      var r := SetEntry(x, pending);
      if !r.outcome.Done? {
        assert Rest(Ended(false)) == old(Rest(p));
        return true, [], false;
      }
      if job.channel.None? {
        var reason := "no channel adapter is registered";
        assert Rest(p.(pc := WriteMissing)) == old(Rest(p));
        r := SetEntry(x, pending.(error := Some(reason)));
        assert Rest(Ended(r.outcome.Done?)) == old(Rest(p));
        return !r.outcome.Done?, [FULFILLMENT_COMMIT_DEFERRED(reason)], false;
      }
      assert Rest(p.(pc := CallCommit)) == old(Rest(p));
      var failure, deferred;
      ghost var at;
      failure, deferred, delivered, at := CommitTry(job, pending, p.(pc := CallCommit));
      if failure.Some? {
        r := SetEntry(x, pending.(error := failure));
        threw, warnings := !r.outcome.Done?, [FULFILLMENT_COMMIT_DEFERRED(failure.value)];
        assert Rest(Ended(!threw)) == old(Rest(p));
      } else if deferred.Some? {
        warnings := [FULFILLMENT_DELIVERY_DEFERRED(deferred.value)];
      }
    }

    /** The `try` of a replay: the call the entry's phase names, then the deletion. */
    method ReplayTry(x: ExchangeId, entry: Entry, ghost channel: Channel) returns (failure: Option<string>)
      modifies this
      ensures options == old(options)
      ensures failure.None? ==>
        Rest(Ended(true)) == old(Rest(ReplayCall(x, entry, channel)))
        && x !in store && log == old(log) + [NamedStep(x, entry)]
      ensures failure.Some? ==> Rest(ReplayError(x, entry, failure.value)) == old(Rest(ReplayCall(x, entry, channel)))
    {
      failure := None;
      var r := CallChannel(NamedStep(x, entry));
      if r.outcome.Done? {
        assert Rest(ReplayDelete(x, entry)) == old(Rest(ReplayCall(x, entry, channel)));
        r := DeleteEntry(x);
      }
      if !r.outcome.Done? {
        failure := Some(r.reason);
      } else {
        assert Rest(Ended(true)) == old(Rest(ReplayCall(x, entry, channel)));
      }
    }

    /** `recovery.replay(exchangeId)`; `ok` is the field of its result, false also when it throws. */
    method Replay(x: ExchangeId) returns (ok: bool)
      modifies this
      ensures (View(), ok) == old(Rest(ReplayRead(x)))
      ensures ok ==> x in old(store) && x !in store && log == old(log) + [NamedStep(x, old(store)[x])]
      ensures options == old(options)
    {
      var r := Await();
      if !r.outcome.Done? || x !in store {
        assert Rest(Ended(false)) == old(Rest(ReplayRead(x)));
        return false;
      }
      var entry := store[x];
      var channel := Find(if config.channels.Some? then config.channels.value else [], entry.option);
      var failure: Option<string>;
      if channel.None? {
        failure := Some("no channel adapter is registered");
      } else if entry.phase.Delivery? && !channel.value.dispatches {
        failure := Some("no onFulfill");
      } else {
        failure := ReplayTry(x, entry, channel.value);
        if failure.None? {
          return true;
        }
      }
      assert Rest(ReplayError(x, entry, failure.value)) == old(Rest(ReplayRead(x)));
      r := SetEntry(x, entry.(error := failure));
      assert Rest(Ended(false)) == old(Rest(ReplayRead(x)));
      return false;
    }
  }
}
