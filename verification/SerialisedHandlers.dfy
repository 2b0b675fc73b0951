/**
 One server process: the redeem handler runs inside `exchangeMutex.runExclusive`, keyed by
 the exchange, next to whatever else works on the journal without the lock. A crash of the
 process forgets the mutex with everything else it held in memory.
 */
module SerialisedHandlers {
  import KeyedMutex
  import RecoveryJournal
  import opened Wrappers

  type CallId = KeyedMutex.CallId

  /** `runner[pid]` is the mutex call whose `fn` the journal process `pid` is, if it runs under the mutex. */
  datatype Server = Server(mutex: KeyedMutex.State, world: RecoveryJournal.World, runner: seq<Option<CallId>>)

  /**
   `Begin`: a queued call's `fn` starts and with it its redeem handler. `Finish`: an `fn`
   settles; a redeem's does once its handler has returned or thrown. `Bookkeeping`: new
   calls, the other microtasks of the mutex, and the start of an `fn` of another action,
   which has no part in the journal. `Journal`: a step of any journal process, or the start
   of one that takes no lock.
   */
  datatype Event =
    | Begin(call: CallId, redeem: RecoveryJournal.Process)
    | Finish(call: CallId, rejected: bool)
    | Bookkeeping(mutex: KeyedMutex.Event)
    | Journal(journal: RecoveryJournal.Event)
    | Crash

  const START := Server(KeyedMutex.IDLE, RecoveryJournal.START, [])

  /** A redeem handler from its gate to its last await. */
  predicate IsRedeem(p: RecoveryJournal.Process) {
    p.Gate? || p.Settle? || (p.Tail? && p.job.flow.FlowA?) || p.DropOptions?
  }

  function ExchangeOf(p: RecoveryJournal.Process): RecoveryJournal.ExchangeId
    requires IsRedeem(p)
  {
    if p.Tail? then p.job.exchange else p.exchange
  }

  ghost predicate Enabled(config: RecoveryJournal.Config, v: Server, ev: Event) {
    match ev
    case Begin(i, redeem) =>
      && KeyedMutex.Enabled(v.mutex, KeyedMutex.Start(i))
      && redeem.Gate? && redeem.exchange == v.mutex.calls[i].key
    case Finish(i, rejected) =>
      && KeyedMutex.Enabled(v.mutex, KeyedMutex.Settle(i, rejected))
      && forall pid | 0 <= pid < |v.runner| && pid < |v.world.processes| && v.runner[pid] == Some(i) ::
           v.world.processes[pid].Ended?
    case Bookkeeping(ev) => KeyedMutex.Enabled(v.mutex, ev) && !ev.Settle?
    case Journal(ev) =>
      && RecoveryJournal.Enabled(config, ev) && !ev.Crash?
      && (ev.Spawn? ==> !IsRedeem(ev.process))
    case Crash => true
  }

  function Step(config: RecoveryJournal.Config, v: Server, ev: Event): Server
    requires Enabled(config, v, ev)
  {
    match ev
    case Begin(i, redeem) =>
      Server(KeyedMutex.Step(v.mutex, KeyedMutex.Start(i)),
             RecoveryJournal.Step(config, v.world, RecoveryJournal.Spawn(redeem)), v.runner + [Some(i)])
    case Finish(i, rejected) => v.(mutex := KeyedMutex.Step(v.mutex, KeyedMutex.Settle(i, rejected)))
    case Bookkeeping(ev) => v.(mutex := KeyedMutex.Step(v.mutex, ev))
    case Journal(ev) =>
      Server(v.mutex, RecoveryJournal.Step(config, v.world, ev), if ev.Spawn? then v.runner + [None] else v.runner)
    case Crash =>
      Server(KeyedMutex.IDLE, RecoveryJournal.Step(config, v.world, RecoveryJournal.Crash), v.runner)
  }

  ghost predicate Legal(config: RecoveryJournal.Config, v: Server, events: seq<Event>)
    decreases |events|
  {
    events != [] ==> Enabled(config, v, events[0]) && Legal(config, Step(config, v, events[0]), events[1..])
  }

  ghost function Run(config: RecoveryJournal.Config, v: Server, events: seq<Event>): Server
    requires Legal(config, v, events)
    decreases |events|
  {
    if events == [] then v else Run(config, Step(config, v, events[0]), events[1..])
  }

  /** A live redeem handler runs in a running call of its exchange. */
  ghost predicate RunsInCall(v: Server, pid: nat)
    requires pid < |v.runner| == |v.world.processes|
  {
    var p := v.world.processes[pid];
    IsRedeem(p) ==>
      && v.runner[pid].Some?
      && var i := v.runner[pid].value;
         i < |v.mutex.calls| && v.mutex.calls[i].phase.Running? && v.mutex.calls[i].key == ExchangeOf(p)
  }

  /** And no two handlers run in one call. */
  ghost predicate OnePerCall(v: Server)
    requires |v.runner| == |v.world.processes|
  {
    forall a, b | 0 <= a < b < |v.runner| && IsRedeem(v.world.processes[a]) && IsRedeem(v.world.processes[b]) ::
      v.runner[a] != v.runner[b]
  }

  ghost predicate Valid(config: RecoveryJournal.Config, v: Server) {
    && KeyedMutex.Valid(v.mutex) && RecoveryJournal.Valid(config, v.world)
    && |v.runner| == |v.world.processes|
    && (forall pid | 0 <= pid < |v.runner| :: RunsInCall(v, pid))
    && OnePerCall(v)
  }

  /** A journal step keeps a redeem handler at its exchange and never turns another process into one. */
  lemma StaysRedeem(config: RecoveryJournal.Config, s: RecoveryJournal.Shared, p: RecoveryJournal.Process, r: RecoveryJournal.Reply)
    requires RecoveryJournal.ProcessValid(config, s.log, p)
    ensures var q := RecoveryJournal.ProcessStep(config, s, p, r).1;
      IsRedeem(q) ==> IsRedeem(p) && ExchangeOf(q) == ExchangeOf(p)
  {
  }

  /** An event of the mutex alone: a running call goes on running unless it is the one that settles. */
  lemma MutexStepKeeps(v: Server, ev: KeyedMutex.Event, pid: nat)
    requires |v.runner| == |v.world.processes| && pid < |v.runner| && RunsInCall(v, pid)
    requires KeyedMutex.Enabled(v.mutex, ev)
    requires ev.Settle? && IsRedeem(v.world.processes[pid]) ==> v.runner[pid] != Some(ev.call)
    ensures RunsInCall(v.(mutex := KeyedMutex.Step(v.mutex, ev)), pid)
  {
  }

  lemma MutexStepValid(config: RecoveryJournal.Config, v: Server, ev: KeyedMutex.Event)
    requires Valid(config, v) && KeyedMutex.Enabled(v.mutex, ev)
    requires ev.Settle? ==>
      forall pid | 0 <= pid < |v.runner| && v.runner[pid] == Some(ev.call) :: v.world.processes[pid].Ended?
    ensures Valid(config, v.(mutex := KeyedMutex.Step(v.mutex, ev)))
  {
    KeyedMutex.StepValid(v.mutex, ev);
    var u := v.(mutex := KeyedMutex.Step(v.mutex, ev));
    forall pid | 0 <= pid < |v.runner| ensures RunsInCall(u, pid) {
      MutexStepKeeps(v, ev, pid);
    }
  }

  /** A call that is still queued runs no handler yet. */
  lemma BeginValid(config: RecoveryJournal.Config, v: Server, i: CallId, redeem: RecoveryJournal.Process)
    requires RecoveryJournal.ConfigValid(config) && Valid(config, v) && Enabled(config, v, Begin(i, redeem))
    ensures Valid(config, Step(config, v, Begin(i, redeem)))
  {
    MutexStepValid(config, v, KeyedMutex.Start(i));
    var m := v.(mutex := KeyedMutex.Step(v.mutex, KeyedMutex.Start(i)));
    var u := Step(config, v, Begin(i, redeem));
    RecoveryJournal.StepValid(config, v.world, RecoveryJournal.Spawn(redeem));
    forall pid | 0 <= pid < |u.runner| ensures RunsInCall(u, pid) {
      assert pid < |v.runner| ==> RunsInCall(m, pid);
    }
    forall a, b | 0 <= a < b < |u.runner| && IsRedeem(u.world.processes[a]) && IsRedeem(u.world.processes[b])
      ensures u.runner[a] != u.runner[b]
    {
      assert RunsInCall(v, a);
    }
  }

  lemma JournalStepValid(config: RecoveryJournal.Config, v: Server, ev: RecoveryJournal.Event)
    requires RecoveryJournal.ConfigValid(config) && Valid(config, v) && Enabled(config, v, Journal(ev))
    ensures Valid(config, Step(config, v, Journal(ev)))
  {
    RecoveryJournal.StepValid(config, v.world, ev);
    var u := Step(config, v, Journal(ev));
    if ev.Advance? && ev.pid < |v.world.processes| {
      var p := v.world.processes[ev.pid];
      assert RecoveryJournal.ProcessValid(config, v.world.shared.log, p);
      StaysRedeem(config, v.world.shared, p, ev.reply);
    }
    forall pid | 0 <= pid < |u.runner| ensures RunsInCall(u, pid) {
      assert pid < |v.runner| ==> RunsInCall(v, pid);
    }
  }

  lemma StepValid(config: RecoveryJournal.Config, v: Server, ev: Event)
    requires RecoveryJournal.ConfigValid(config) && Valid(config, v) && Enabled(config, v, ev)
    ensures Valid(config, Step(config, v, ev))
  {
    match ev
    case Begin(i, redeem) => BeginValid(config, v, i, redeem);
    case Finish(i, rejected) => MutexStepValid(config, v, KeyedMutex.Settle(i, rejected));
    case Bookkeeping(ev) => MutexStepValid(config, v, ev);
    case Journal(ev) => JournalStepValid(config, v, ev);
    case Crash => RecoveryJournal.StepValid(config, v.world, RecoveryJournal.Crash);
  }

  lemma {:induction false} RunValid(config: RecoveryJournal.Config, v: Server, events: seq<Event>)
    requires RecoveryJournal.ConfigValid(config) && Valid(config, v) && Legal(config, v, events)
    ensures Valid(config, Run(config, v, events))
    decreases |events|
  {
    if events != [] {
      StepValid(config, v, events[0]);
      RunValid(config, Step(config, v, events[0]), events[1..]);
    }
  }

  /** Of the journal processes, only redeem handlers are at work on `x`: no replay and no commit-and-redeem. */
  ghost predicate OnlyRedeems(w: RecoveryJournal.World, x: RecoveryJournal.ExchangeId) {
    forall i | 0 <= i < |w.processes| && RecoveryJournal.JournalOf(w.processes[i]) == Some(x) :: IsRedeem(w.processes[i])
  }

  /**
   What the mutex gives the journal. In every run of one server process, crashes and
   restarts included, no two redeem handlers of one exchange are ever live together; so
   wherever neither a replay nor a commit-and-redeem works on the exchange, a redeem handler
   works on it alone, which is what crash safety asks for.
   */
  lemma RedeemsRunAlone(config: RecoveryJournal.Config, events: seq<Event>, pid: nat)
    requires RecoveryJournal.ConfigValid(config) && Legal(config, START, events)
    requires var w := Run(config, START, events).world; pid < |w.processes| && IsRedeem(w.processes[pid])
    ensures var w := Run(config, START, events).world;
      var x := ExchangeOf(w.processes[pid]);
      && (forall i | 0 <= i < |w.processes| && i != pid && IsRedeem(w.processes[i]) :: ExchangeOf(w.processes[i]) != x)
      && (OnlyRedeems(w, x) ==> RecoveryJournal.Alone(w, x, pid))
  {
    RunValid(config, START, events);
    var v := Run(config, START, events);
    var x := ExchangeOf(v.world.processes[pid]);
    forall i | 0 <= i < |v.world.processes| && i != pid && IsRedeem(v.world.processes[i])
      ensures ExchangeOf(v.world.processes[i]) != x
    {
      TwoCallsTwoKeys(config, v, i, pid);
    }
  }

  lemma TwoCallsTwoKeys(config: RecoveryJournal.Config, v: Server, a: nat, b: nat)
    requires Valid(config, v) && a != b && a < |v.runner| && b < |v.runner|
    requires IsRedeem(v.world.processes[a]) && IsRedeem(v.world.processes[b])
    ensures ExchangeOf(v.world.processes[a]) != ExchangeOf(v.world.processes[b])
  {
    assert RunsInCall(v, a) && RunsInCall(v, b);
    var i, j := v.runner[a].value, v.runner[b].value;
    if v.mutex.calls[i].key == v.mutex.calls[j].key {
      KeyedMutex.RunningOnce(v.mutex, i, j);
    }
  }
}
