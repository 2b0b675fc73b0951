/**
 The fulfillment recovery journal: the tails of the redeem and the commit-and-redeem
 handlers, which write it, and `recovery.replay`, which reads it back.

 Every `await` is one step of a process, so any other process, or a crash of the whole
 server, can come between two of them. The stores outlive a crash; processes do not.
 Replay takes no lock, and several server instances share the stores, so any processes
 may interleave.
 */
module RecoveryJournal {
  import opened Fulfillment
  import opened Json
  import opened StateMachine
  import opened Wrappers

  type ExchangeId = string

  datatype Phase = Commit | Delivery

  datatype Entry = Entry(exchangeId: ExchangeId, option: OptionId, data: Json, redeemer: string,
                         recordedAt: int, phase: Phase, error: Option<string>)

  /**
   How an awaited call ends. A store operation that rejects may or may not have taken
   effect. For `onFulfill` inside a handler, `FailedApplied` is a dispatch that resolved
   with a result that could not be serialised.
   */
  datatype Outcome = Done | FailedApplied | FailedLost

  /** The channel calls that resolved, in order. */
  datatype Call =
    | Committed(exchange: ExchangeId, option: OptionId, data: Json)
    | Fulfilled(exchange: ExchangeId, option: OptionId)

  /** What outlives a crash: the recovery store, the option store and the outside world. */
  datatype Shared = Shared(store: map<ExchangeId, Entry>, options: map<ExchangeId, seq<OptionId>>, log: seq<Call>)

  datatype Flow = FlowA | FlowB

  /** `advertised` is the option list the gate saw, if there was one. */
  datatype Job = Job(flow: Flow, exchange: ExchangeId, option: OptionId, data: Json, redeemer: string,
                     channel: Option<Channel>, advertised: Option<seq<OptionId>>)

  /** Where a handler's tail stands: the `await` it is about to make. */
  datatype Pc =
    | WritePending
    | WriteMissing
    | CallCommit
    | WriteCommitError(reason: string)
    | WriteDelivery
    | CallFulfill
    | ClearDelivered
    | ClearCommitted
    | WriteDeliveryError(reason: string)

  datatype Process =
    | Gate(exchange: ExchangeId, redeemer: string, selection: Option<(OptionId, Json)>)
    | Settle(exchange: ExchangeId, checked: Option<Job>)
    | Tail(job: Job, pending: Entry, deliveryAt: int, pc: Pc)
    | DropOptions(exchange: ExchangeId)
    | Recording(exchange: ExchangeId, ids: seq<OptionId>)
    | ReplayRead(exchange: ExchangeId)
    | ReplayCall(exchange: ExchangeId, entry: Entry, channel: Channel)
    | ReplayDelete(exchange: ExchangeId, entry: Entry)
    | ReplayError(exchange: ExchangeId, entry: Entry, reason: string)
    | Ended(ok: bool)

  /** What one `await` brings back: its outcome, the clock afterwards and an error message. */
  datatype Reply = Reply(outcome: Outcome, now: int, reason: string)

  datatype World = World(shared: Shared, processes: seq<Process>)

  datatype Event =
    | Spawn(process: Process)
    | Advance(pid: nat, reply: Reply)
    | Crash

  datatype Config = Config(channels: Option<seq<Channel>>)

  const START := World(Shared(map[], map[], []), [])

  // ----- one step -----

  function Put<K, V>(m: map<K, V>, key: K, value: V, outcome: Outcome): map<K, V> {
    if outcome.FailedLost? then m else m[key := value]
  }

  function Drop<K, V>(m: map<K, V>, key: K, outcome: Outcome): map<K, V> {
    if outcome.FailedLost? then m else m - {key}
  }

  function PendingEntry(job: Job, now: int): Entry {
    Entry(job.exchange, job.option, job.data, job.redeemer, now, Commit, None)
  }

  function DeliveryEntry(pending: Entry, at: int): Entry {
    pending.(phase := Delivery, recordedAt := at)
  }

  function Write(s: Shared, e: Entry, outcome: Outcome): Shared {
    s.(store := Put(s.store, e.exchangeId, e, outcome))
  }

  function Erase(s: Shared, x: ExchangeId, outcome: Outcome): Shared {
    s.(store := Drop(s.store, x, outcome))
  }

  function Resolve(s: Shared, call: Call): Shared {
    s.(log := s.log + [call])
  }

  /** The handler's way out once the journal part is over. */
  function Finish(job: Job): Process {
    if job.flow.FlowA? then DropOptions(job.exchange) else Ended(true)
  }

  /** A rejection outside Flow A's inner `try` propagates; Flow B's outer `catch` records it. */
  function Escape(p: Process, reason: string): Process
    requires p.Tail?
  {
    if p.job.flow.FlowA? then Ended(false) else p.(pc := WriteCommitError(reason))
  }

  /** The step of the tail at `p.pc`: new shared state and next process. */
  function TailStep(s: Shared, p: Process, r: Reply): (Shared, Process)
    requires p.Tail?
  {
    var job, x, delivery := p.job, p.job.exchange, DeliveryEntry(p.pending, p.deliveryAt);
    match p.pc
    case WritePending =>
      (Write(s, p.pending, r.outcome),
       if !r.outcome.Done? then Ended(false)
       else p.(pc := if job.channel.None? then WriteMissing else CallCommit))
    case WriteMissing =>
      (Write(s, p.pending.(error := Some("no channel adapter is registered")), r.outcome),
       if r.outcome.Done? then Finish(job) else Ended(false))
    case CallCommit =>
      if r.outcome.Done? then
        (Resolve(s, Committed(x, job.option, job.data)),
         if job.channel.Some? && job.channel.value.dispatches then p.(deliveryAt := r.now, pc := WriteDelivery)
         else p.(pc := ClearCommitted))
      else (s, p.(pc := WriteCommitError(r.reason)))
    case WriteCommitError(reason) =>
      (Write(s, p.pending.(error := Some(reason)), r.outcome),
       if r.outcome.Done? then Finish(job) else Ended(false))
    case WriteDelivery =>
      (Write(s, delivery, r.outcome),
       if r.outcome.Done? then p.(pc := CallFulfill) else Escape(p, r.reason))
    case CallFulfill =>
      (if r.outcome.FailedLost? then s else Resolve(s, Fulfilled(x, job.option)),
       p.(pc := if r.outcome.Done? then ClearDelivered else WriteDeliveryError(r.reason)))
    case ClearDelivered =>
      (Erase(s, x, r.outcome),
       if r.outcome.Done? then Finish(job) else p.(pc := WriteDeliveryError(r.reason)))
    case ClearCommitted =>
      (Erase(s, x, r.outcome),
       if r.outcome.Done? then Finish(job) else Escape(p, r.reason))
    case WriteDeliveryError(reason) =>
      (Write(s, delivery.(error := Some(reason)), r.outcome),
       if r.outcome.Done? then Finish(job) else Escape(p, r.reason))
  }

  function ReplayStep(config: Config, s: Shared, p: Process, r: Reply): (Shared, Process)
    requires p.ReplayRead? || p.ReplayCall? || p.ReplayDelete? || p.ReplayError?
  {
    match p
    case ReplayRead(x) =>
      if !r.outcome.Done? || x !in s.store then (s, Ended(false))
      else
        var entry := s.store[x];
        var channel := Find(if config.channels.Some? then config.channels.value else [], entry.option);
        (s,
         if channel.None? then ReplayError(x, entry, "no channel adapter is registered")
         else if entry.phase.Delivery? && !channel.value.dispatches then ReplayError(x, entry, "no onFulfill")
         else ReplayCall(x, entry, channel.value))
    case ReplayCall(x, entry, _) =>
      if r.outcome.Done? then (Resolve(s, NamedStep(x, entry)), ReplayDelete(x, entry))
      else (s, ReplayError(x, entry, r.reason))
    case ReplayDelete(x, entry) =>
      (Erase(s, x, r.outcome), if r.outcome.Done? then Ended(true) else ReplayError(x, entry, r.reason))
    case ReplayError(x, entry, reason) =>
      (s.(store := Put(s.store, x, entry.(error := Some(reason)), r.outcome)), Ended(false))
  }

  /** The call an entry's phase names. */
  function NamedStep(x: ExchangeId, entry: Entry): Call {
    if entry.phase.Delivery? then Fulfilled(x, entry.option) else Committed(x, entry.option, entry.data)
  }

  function Lookup<K, V>(m: map<K, V>, key: K): Option<V> {
    if key in m then Some(m[key]) else None
  }

  /** The redeem handler up to its tail, and the two steps on the option store. */
  function GateStep(config: Config, s: Shared, p: Process, r: Reply): (Shared, Process)
    requires p.Gate? || p.Settle? || p.DropOptions? || p.Recording?
  {
    match p
    case Gate(x, redeemer, selection) =>
      if selection.None? then (s, Settle(x, None))
      else if !r.outcome.Done? then (s, Ended(false))
      else
        var (option, data) := selection.value;
        var advertised := Lookup(s.options, x);
        (s, match RedeemGate(advertised, config.channels, option, data)
            case Err(_) => Ended(false)
            case Ok(channel) => Settle(x, Some(Job(FlowA, x, option, data, redeemer, Some(channel), advertised))))
    case Settle(x, job) =>
      (s, if !r.outcome.Done? then Ended(false)
          else if job.None? then DropOptions(x)
          else Tail(job.value, PendingEntry(job.value, r.now), r.now, WritePending))
    case DropOptions(x) =>
      (s.(options := Drop(s.options, x, r.outcome)), Ended(r.outcome.Done?))
    case Recording(x, ids) =>
      (s.(options := Put(s.options, x, ids, r.outcome)), Ended(r.outcome.Done?))
  }

  function ProcessStep(config: Config, s: Shared, p: Process, r: Reply): (Shared, Process) {
    match p
    case Ended(_) => (s, p)
    case Tail(_, _, _, _) => TailStep(s, p, r)
    case Gate(_, _, _) => GateStep(config, s, p, r)
    case Settle(_, _) => GateStep(config, s, p, r)
    case DropOptions(_) => GateStep(config, s, p, r)
    case Recording(_, _) => GateStep(config, s, p, r)
    case _ => ReplayStep(config, s, p, r)
  }

  /**
   Where a process starts. Flow B enters at its first journal write, with a payload
   that passed rule 13 and the channel found in the handler's Map.
   */
  ghost predicate Initial(config: Config, p: Process) {
    match p
    case Gate(_, _, _) => true
    case ReplayRead(_) => true
    case Recording(_, _) => true
    case Tail(job, pending, _, pc) =>
      var channels := if config.channels.Some? then config.channels.value else [];
      && pc.WritePending? && job.flow.FlowB? && pending == PendingEntry(job, pending.recordedAt)
      && job.channel == ById(channels, job.option)
      && exists required: Option<FulfillmentRequirements> ::
           && job.advertised == Some(AdvertisedIds(required))
           && CheckFulfillment(required, Some(Selection(job.option, Some(job.data))), Name(CreateOfferCommitAndRedeem),
                               Some(ChannelValidator(channels))) == Pass
    case _ => false
  }

  function Step(config: Config, w: World, ev: Event): World {
    match ev
    case Spawn(p) => World(w.shared, w.processes + [p])
    case Advance(pid, reply) =>
      if pid >= |w.processes| then w
      else
        var (s, p) := ProcessStep(config, w.shared, w.processes[pid], reply);
        World(s, w.processes[pid := p])
    case Crash => World(w.shared, seq(|w.processes|, i => Ended(false)))
  }

  ghost predicate Enabled(config: Config, ev: Event) {
    ev.Spawn? ==> Initial(config, ev.process)
  }

  ghost predicate AllEnabled(config: Config, events: seq<Event>) {
    forall i | 0 <= i < |events| :: Enabled(config, events[i])
  }

  function Run(config: Config, w: World, events: seq<Event>): World
    decreases |events|
  {
    if events == [] then w
    else Step(config, Run(config, w, events[..|events| - 1]), events[|events| - 1])
  }

  // ----- what every interleaving keeps -----

  /** A delivery-phase entry stands only where `onCommit` resolved with its option and data. */
  ghost predicate Backed(log: seq<Call>, e: Entry) {
    e.phase.Delivery? ==> Committed(e.exchangeId, e.option, e.data) in log
  }

  ghost predicate StoreValid(s: Shared) {
    forall x | x in s.store :: s.store[x].exchangeId == x && Backed(s.log, s.store[x])
  }

  ghost predicate PastCommit(pc: Pc) {
    pc.WriteDelivery? || pc.CallFulfill? || pc.ClearDelivered? || pc.ClearCommitted? || pc.WriteDeliveryError?
  }

  /** The channel of a job is registered, accepted the data, and is one the gate's list names. */
  ghost predicate Vetted(config: Config, job: Job) {
    && job.channel.Some? && config.channels.Some?
    && job.channel.value in config.channels.value && job.channel.value.id == job.option
    && job.channel.value.validate(job.data).Accepted?
    && (job.advertised.Some? ==> job.option in job.advertised.value)
  }

  ghost predicate ProcessValid(config: Config, log: seq<Call>, p: Process) {
    match p
    case Settle(x, job) => job.Some? ==> Vetted(config, job.value) && job.value.exchange == x && job.value.flow.FlowA?
    case Tail(job, pending, _, pc) =>
      && Vetted(config, job)
      && pending == PendingEntry(job, pending.recordedAt)
      && !pc.WriteMissing?
      && (PastCommit(pc) ==> Committed(job.exchange, job.option, job.data) in log)
      && (pc.ClearDelivered? ==> Fulfilled(job.exchange, job.option) in log)
      && (pc.ClearCommitted? ==> !(job.channel.Some? && job.channel.value.dispatches))
    case ReplayCall(x, entry, _) => entry.exchangeId == x && Backed(log, entry)
    case ReplayDelete(x, entry) => entry.exchangeId == x && Backed(log, entry) && NamedStep(x, entry) in log
    case ReplayError(x, entry, _) => entry.exchangeId == x && Backed(log, entry)
    case _ => true
  }

  ghost predicate Valid(config: Config, w: World) {
    && StoreValid(w.shared)
    && forall i | 0 <= i < |w.processes| :: ProcessValid(config, w.shared.log, w.processes[i])
  }

  ghost predicate ConfigValid(config: Config) {
    config.channels.Some? ==> DistinctIds(config.channels.value)
  }

  lemma LogGrows(config: Config, log: seq<Call>, more: seq<Call>, p: Process)
    requires log <= more && ProcessValid(config, log, p)
    ensures ProcessValid(config, more, p)
  {
    assert forall c | c in log :: c in more;
  }

  lemma WriteValid(s: Shared, e: Entry, outcome: Outcome)
    requires StoreValid(s) && Backed(s.log, e)
    ensures StoreValid(Write(s, e, outcome)) && Write(s, e, outcome).log == s.log
  {
  }

  lemma EraseValid(s: Shared, x: ExchangeId, outcome: Outcome)
    requires StoreValid(s)
    ensures StoreValid(Erase(s, x, outcome)) && Erase(s, x, outcome).log == s.log
  {
  }

  lemma ResolveKeepsStore(s: Shared, call: Call)
    requires StoreValid(s)
    ensures StoreValid(Resolve(s, call)) && s.log <= Resolve(s, call).log
    ensures call in Resolve(s, call).log && forall c | c in s.log :: c in Resolve(s, call).log
  {
  }

  lemma TailStepKeepsStore(config: Config, s: Shared, p: Process, r: Reply)
    requires p.Tail? && StoreValid(s) && ProcessValid(config, s.log, p)
    ensures StoreValid(TailStep(s, p, r).0) && s.log <= TailStep(s, p, r).0.log
  {
    var job, delivery := p.job, DeliveryEntry(p.pending, p.deliveryAt);
    match p.pc
    case WritePending => WriteValid(s, p.pending, r.outcome);
    case WriteMissing =>
    case CallCommit => ResolveKeepsStore(s, Committed(job.exchange, job.option, job.data));
    case WriteCommitError(reason) => WriteValid(s, p.pending.(error := Some(reason)), r.outcome);
    case WriteDelivery => WriteValid(s, delivery, r.outcome);
    case CallFulfill => ResolveKeepsStore(s, Fulfilled(job.exchange, job.option));
    case ClearDelivered => EraseValid(s, job.exchange, r.outcome);
    case ClearCommitted => EraseValid(s, job.exchange, r.outcome);
    case WriteDeliveryError(reason) => WriteValid(s, delivery.(error := Some(reason)), r.outcome);
  }

  lemma TailStepKeepsProcess(config: Config, s: Shared, p: Process, r: Reply)
    requires p.Tail? && StoreValid(s) && ProcessValid(config, s.log, p)
    ensures ProcessValid(config, TailStep(s, p, r).0.log, TailStep(s, p, r).1)
  {
    var job := p.job;
    if p.pc.CallCommit? {
      ResolveKeepsStore(s, Committed(job.exchange, job.option, job.data));
    } else if p.pc.CallFulfill? {
      ResolveKeepsStore(s, Fulfilled(job.exchange, job.option));
    } else {
      assert TailStep(s, p, r).0.log == s.log;
    }
  }

  lemma TailStepValid(config: Config, s: Shared, p: Process, r: Reply)
    requires p.Tail? && StoreValid(s) && ProcessValid(config, s.log, p)
    ensures var (t, q) := TailStep(s, p, r);
      StoreValid(t) && ProcessValid(config, t.log, q) && s.log <= t.log
  {
    TailStepKeepsStore(config, s, p, r);
    TailStepKeepsProcess(config, s, p, r);
  }

  lemma ReplayStepValid(config: Config, s: Shared, p: Process, r: Reply)
    requires p.ReplayRead? || p.ReplayCall? || p.ReplayDelete? || p.ReplayError?
    requires StoreValid(s) && ProcessValid(config, s.log, p)
    ensures var (t, q) := ReplayStep(config, s, p, r);
      StoreValid(t) && ProcessValid(config, t.log, q) && s.log <= t.log
  {
    assert forall c, call | c in s.log :: c in s.log + [call];
  }

  lemma GateStepValid(config: Config, s: Shared, p: Process, r: Reply)
    requires ConfigValid(config)
    requires p.Gate? || p.Settle? || p.DropOptions? || p.Recording?
    requires StoreValid(s) && ProcessValid(config, s.log, p)
    ensures var (t, q) := GateStep(config, s, p, r);
      StoreValid(t) && ProcessValid(config, t.log, q) && s.log <= t.log
  {
    if p.Gate? && p.selection.Some? {
      var (option, data) := p.selection.value;
      GateOpensIff(Lookup(s.options, p.exchange), config.channels, option, data);
    }
  }

  lemma ProcessStepValid(config: Config, s: Shared, p: Process, r: Reply)
    requires ConfigValid(config) && StoreValid(s) && ProcessValid(config, s.log, p)
    ensures var (t, q) := ProcessStep(config, s, p, r);
      StoreValid(t) && ProcessValid(config, t.log, q) && s.log <= t.log
  {
    match p
    case Ended(_) =>
    case Tail(_, _, _, _) => TailStepValid(config, s, p, r);
    case Gate(_, _, _) => GateStepValid(config, s, p, r);
    case Settle(_, _) => GateStepValid(config, s, p, r);
    case DropOptions(_) => GateStepValid(config, s, p, r);
    case Recording(_, _) => GateStepValid(config, s, p, r);
    case _ => ReplayStepValid(config, s, p, r);
  }

  lemma InitialValid(config: Config, log: seq<Call>, p: Process)
    requires Initial(config, p)
    ensures ProcessValid(config, log, p)
  {
    if p.Tail? {
      var channels := if config.channels.Some? then config.channels.value else [];
      var job := p.job;
      var required: Option<FulfillmentRequirements> :|
        && job.advertised == Some(AdvertisedIds(required))
        && CheckFulfillment(required, Some(Selection(job.option, Some(job.data))), Name(CreateOfferCommitAndRedeem),
                            Some(ChannelValidator(channels))) == Pass;
      PassedSelectionIsServable(required, Some(Selection(job.option, Some(job.data))), Name(CreateOfferCommitAndRedeem), channels);
    }
  }

  lemma StepValid(config: Config, w: World, ev: Event)
    requires ConfigValid(config) && Valid(config, w) && Enabled(config, ev)
    ensures Valid(config, Step(config, w, ev))
  {
    match ev
    case Spawn(p) => InitialValid(config, w.shared.log, p);
    case Crash =>
    case Advance(pid, reply) =>
      if pid < |w.processes| {
        ProcessStepValid(config, w.shared, w.processes[pid], reply);
        var (t, q) := ProcessStep(config, w.shared, w.processes[pid], reply);
        forall i | 0 <= i < |w.processes| && i != pid ensures ProcessValid(config, t.log, w.processes[i]) {
          LogGrows(config, w.shared.log, t.log, w.processes[i]);
        }
      }
  }

  lemma {:induction false} RunValid(config: Config, events: seq<Event>)
    requires ConfigValid(config) && AllEnabled(config, events)
    ensures Valid(config, Run(config, START, events))
    decreases |events|
  {
    if events != [] {
      var before := events[..|events| - 1];
      assert AllEnabled(config, before);
      RunValid(config, before);
      assert Enabled(config, events[|events| - 1]);
      StepValid(config, Run(config, START, before), events[|events| - 1]);
    }
  }

  /**
   Over every interleaving of redeems, commits, replays and crashes: an entry in the
   delivery phase exists only if `onCommit` already resolved with its option and data.
   */
  lemma DeliveryOnlyAfterCommit(config: Config, events: seq<Event>, x: ExchangeId)
    requires ConfigValid(config) && AllEnabled(config, events)
    ensures var s := Run(config, START, events).shared;
      x in s.store && s.store[x].phase.Delivery? ==> Committed(x, s.store[x].option, s.store[x].data) in s.log
  {
    RunValid(config, events);
  }

  predicate IsReplay(p: Process) {
    p.ReplayRead? || p.ReplayCall? || p.ReplayDelete? || p.ReplayError?
  }

  /** The entry a replay has read, once it has read one. */
  function EntryRead(p: Process): Option<Entry> {
    match p
    case ReplayCall(_, entry, _) => Some(entry)
    case ReplayDelete(_, entry) => Some(entry)
    case ReplayError(_, entry, _) => Some(entry)
    case _ => None
  }

  /**
   In every reachable world a replay step touches only its own exchange: it removes the
   entry only once the step named by the phase it read has resolved, or writes back what
   it read with nothing but `error` changed.
   */
  lemma ReplayWrites(config: Config, events: seq<Event>, pid: nat, reply: Reply)
    requires ConfigValid(config) && AllEnabled(config, events)
    requires var w := Run(config, START, events); pid < |w.processes| && IsReplay(w.processes[pid])
    ensures var w := Run(config, START, events);
      var p := w.processes[pid];
      var t := Step(config, w, Advance(pid, reply)).shared;
      && t.options == w.shared.options
      && (forall y | y != p.exchange :: Lookup(t.store, y) == Lookup(w.shared.store, y))
      && (Lookup(t.store, p.exchange) != Lookup(w.shared.store, p.exchange) ==>
            && EntryRead(p).Some?
            && var e := EntryRead(p).value;
               match Lookup(t.store, p.exchange)
               case None => NamedStep(p.exchange, e) in w.shared.log
               case Some(written) => written == e.(error := written.error) && written.error.Some?)
  {
    RunValid(config, events);
    var w := Run(config, START, events);
    assert ProcessValid(config, w.shared.log, w.processes[pid]);
  }

  // ----- concrete runs, one event at a time -----

  const OK := Reply(Done, 0, "")
  const FAILED := Reply(FailedLost, 0, "rejected")

  lemma Then(config: Config, before: seq<Event>, w: World, ev: Event) returns (events: seq<Event>)
    requires AllEnabled(config, before) && Run(config, START, before) == w && Enabled(config, ev)
    ensures AllEnabled(config, events) && Run(config, START, events) == Step(config, w, ev)
  {
    events := before + [ev];
    assert events[..|events| - 1] == before;
  }

  /** A commit-and-redeem after its first write. */
  function AfterFirstWrite(p: Process): Process
    requires p.Tail?
  {
    p.(pc := if p.job.channel.None? then WriteMissing else CallCommit)
  }

  lemma FirstWrite(config: Config, p: Process) returns (events: seq<Event>)
    requires Initial(config, p) && p.Tail?
    ensures AllEnabled(config, events)
    ensures Run(config, START, events) ==
      World(Shared(map[p.job.exchange := p.pending], map[], []), [AfterFirstWrite(p)])
  {
    assert Run(config, START, []) == START;
    events := Then(config, [], START, Spawn(p));
    events := Then(config, events, World(START.shared, [p]), Advance(0, OK));
  }

  // ----- crash safety -----

  /** The exchange whose journal entry a process may still write or delete. */
  function JournalOf(p: Process): Option<ExchangeId> {
    match p
    case Gate(x, _, _) => Some(x)
    case Settle(x, _) => Some(x)
    case Tail(job, _, _, _) => Some(job.exchange)
    case ReplayRead(x) => Some(x)
    case ReplayCall(x, _, _) => Some(x)
    case ReplayDelete(x, _) => Some(x)
    case ReplayError(x, _, _) => Some(x)
    case _ => None
  }

  ghost predicate Alone(w: World, x: ExchangeId, pid: nat) {
    forall i | 0 <= i < |w.processes| && i != pid :: JournalOf(w.processes[i]) != Some(x)
  }

  ghost predicate NoneJoins(events: seq<Event>, x: ExchangeId) {
    forall i | 0 <= i < |events| && events[i].Spawn? :: JournalOf(events[i].process) != Some(x)
  }

  /** Nothing is owed any more: `onCommit` resolved, and so did `onFulfill` if there is one. */
  ghost predicate Complete(log: seq<Call>, job: Job) {
    && Committed(job.exchange, job.option, job.data) in log
    && (job.channel.Some? && job.channel.value.dispatches ==> Fulfilled(job.exchange, job.option) in log)
  }

  /** The buyer's delivery target is on record, or the calls made since it was recorded are all it needs. */
  ghost predicate Covered(s: Shared, job: Job, since: nat)
    requires since <= |s.log|
  {
    || (job.exchange in s.store
        && var e := s.store[job.exchange]; e.option == job.option && e.data == job.data && e.redeemer == job.redeemer)
    || Complete(s.log[since..], job)
  }

  /** What the tail's position says about the calls made since its first write. */
  ghost predicate OnTrack(log: seq<Call>, p: Process, job: Job) {
    && p.Tail? && p.job == job && !p.pc.WritePending?
    && p.pending == PendingEntry(job, p.pending.recordedAt)
    && (p.pc.WriteMissing? ==> job.channel.None?)
    && (PastCommit(p.pc) ==> Committed(job.exchange, job.option, job.data) in log)
    && (p.pc.ClearDelivered? ==> Fulfilled(job.exchange, job.option) in log)
    && (p.pc.ClearCommitted? ==> !(job.channel.Some? && job.channel.value.dispatches))
  }

  ghost predicate Guarded(w: World, job: Job, pid: nat, since: nat) {
    && pid < |w.processes| && since <= |w.shared.log|
    && Alone(w, job.exchange, pid)
    && Covered(w.shared, job, since)
    && (JournalOf(w.processes[pid]).Some? ==> OnTrack(w.shared.log[since..], w.processes[pid], job))
  }

  lemma SinceGrows(log: seq<Call>, call: Call, since: nat)
    requires since <= |log|
    ensures (log + [call])[since..] == log[since..] + [call]
  {
  }

  lemma OwnStepGuarded(s: Shared, p: Process, r: Reply, job: Job, since: nat)
    requires since <= |s.log| && Covered(s, job, since) && OnTrack(s.log[since..], p, job)
    ensures var (t, q) := TailStep(s, p, r);
      && since <= |t.log| && Covered(t, job, since)
      && (JournalOf(q).Some? ==> OnTrack(t.log[since..], q, job))
  {
    SinceGrows(s.log, Committed(job.exchange, job.option, job.data), since);
    SinceGrows(s.log, Fulfilled(job.exchange, job.option), since);
  }

  /** A process busy with another exchange leaves this one's entry alone. */
  lemma OtherStepFrames(config: Config, s: Shared, p: Process, r: Reply, x: ExchangeId)
    requires JournalOf(p) != Some(x)
    requires StoreValid(s) && ProcessValid(config, s.log, p)
    ensures var (t, q) := ProcessStep(config, s, p, r);
      && Lookup(t.store, x) == Lookup(s.store, x) && s.log <= t.log && JournalOf(q) != Some(x)
      && (forall o | Fulfilled(x, o) in t.log :: Fulfilled(x, o) in s.log)
  {
    if p.Tail? {
      OtherTailFrames(config, s, p, r, x);
    } else if IsReplay(p) {
      OtherReplayFrames(config, s, p, r, x);
    }
  }

  lemma OtherTailFrames(config: Config, s: Shared, p: Process, r: Reply, x: ExchangeId)
    requires p.Tail? && p.job.exchange != x && ProcessValid(config, s.log, p)
    ensures var (t, q) := TailStep(s, p, r);
      && Lookup(t.store, x) == Lookup(s.store, x) && s.log <= t.log && JournalOf(q) != Some(x)
      && (forall o | Fulfilled(x, o) in t.log :: Fulfilled(x, o) in s.log)
  {
  }

  lemma OtherReplayFrames(config: Config, s: Shared, p: Process, r: Reply, x: ExchangeId)
    requires IsReplay(p) && p.exchange != x
    ensures var (t, q) := ReplayStep(config, s, p, r);
      && Lookup(t.store, x) == Lookup(s.store, x) && s.log <= t.log && JournalOf(q) != Some(x)
      && (forall o | Fulfilled(x, o) in t.log :: Fulfilled(x, o) in s.log)
  {
  }

  lemma OnTrackGrows(log: seq<Call>, more: seq<Call>, p: Process, job: Job)
    requires log <= more
    ensures OnTrack(log, p, job) ==> OnTrack(more, p, job)
    ensures Complete(log, job) ==> Complete(more, job)
  {
    assert forall c | c in log :: c in more;
  }

  lemma GuardedStep(config: Config, w: World, ev: Event, job: Job, pid: nat, since: nat)
    requires ConfigValid(config) && Valid(config, w) && Enabled(config, ev) && Guarded(w, job, pid, since)
    requires ev.Spawn? ==> JournalOf(ev.process) != Some(job.exchange)
    ensures Guarded(Step(config, w, ev), job, pid, since)
  {
    if ev.Advance? && ev.pid < |w.processes| {
      var p := w.processes[ev.pid];
      var (t, q) := ProcessStep(config, w.shared, p, ev.reply);
      if ev.pid == pid && JournalOf(p).Some? {
        OwnStepGuarded(w.shared, p, ev.reply, job, since);
      } else {
        OtherStepKeeps(config, w, ev, job, pid, since);
      }
    }
  }

  lemma OtherStepKeeps(config: Config, w: World, ev: Event, job: Job, pid: nat, since: nat)
    requires Valid(config, w) && Guarded(w, job, pid, since)
    requires ev.Advance? && ev.pid < |w.processes| && (ev.pid == pid ==> JournalOf(w.processes[pid]).None?)
    ensures Guarded(Step(config, w, ev), job, pid, since)
  {
    var p := w.processes[ev.pid];
    var (t, q) := ProcessStep(config, w.shared, p, ev.reply);
    assert ProcessValid(config, w.shared.log, p);
    OtherStepFrames(config, w.shared, p, ev.reply, job.exchange);
    assert w.shared.log[since..] <= t.log[since..];
    OnTrackGrows(w.shared.log[since..], t.log[since..], w.processes[pid], job);
    assert Lookup(t.store, job.exchange) == Lookup(w.shared.store, job.exchange);
    assert Covered(t, job, since);
  }

  lemma {:induction false} GuardedRun(config: Config, w: World, events: seq<Event>, job: Job, pid: nat, since: nat)
    requires ConfigValid(config) && Valid(config, w) && Guarded(w, job, pid, since)
    requires AllEnabled(config, events) && NoneJoins(events, job.exchange)
    ensures Valid(config, Run(config, w, events)) && Guarded(Run(config, w, events), job, pid, since)
    decreases |events|
  {
    if events != [] {
      var before, last := events[..|events| - 1], events[|events| - 1];
      assert forall i | 0 <= i < |before| :: before[i] == events[i];
      GuardedRun(config, w, before, job, pid, since);
      assert Enabled(config, last);
      StepValid(config, Run(config, w, before), last);
      GuardedStep(config, Run(config, w, before), last, job, pid, since);
    }
  }

  /**
   Crash safety. Once the first journal write of a redeem or commit-and-redeem has
   succeeded, then at every later point of every run in which nothing else works on that
   exchange, a crash at any `await` included, the store holds an entry with the
   redeemer and the buyer's option and data unless `onCommit` and, if the channel has one, `onFulfill` resolved
   after that write.
   */
  lemma CrashSafety(config: Config, past: seq<Event>, pid: nat, now: int, reason: string, events: seq<Event>)
    requires ConfigValid(config) && AllEnabled(config, past) && AllEnabled(config, events)
    requires var w := Run(config, START, past);
      && pid < |w.processes| && w.processes[pid].Tail? && w.processes[pid].pc.WritePending?
      && Alone(w, w.processes[pid].job.exchange, pid)
      && NoneJoins(events, w.processes[pid].job.exchange)
    ensures var w := Run(config, START, past);
      var after := Run(config, Step(config, w, Advance(pid, Reply(Done, now, reason))), events).shared;
      |w.shared.log| <= |after.log| && Covered(after, w.processes[pid].job, |w.shared.log|)
  {
    RunValid(config, past);
    var w := Run(config, START, past);
    var ev := Advance(pid, Reply(Done, now, reason));
    assert ProcessValid(config, w.shared.log, w.processes[pid]);
    StepValid(config, w, ev);
    GuardedRun(config, Step(config, w, ev), events, w.processes[pid].job, pid, |w.shared.log|);
  }

  /** Two handlers of different data on one exchange: the second write replaces the first, so a crash loses the first job. */
  lemma SecondHandlerReplacesEntry(config: Config, p: Process, q: Process) returns (events: seq<Event>)
    requires Initial(config, p) && p.Tail? && Initial(config, q) && q.Tail?
    requires p.job.exchange == q.job.exchange && p.job.data != q.job.data
    ensures AllEnabled(config, events)
    ensures var after := Run(config, START, events).shared;
      Lookup(after.store, p.job.exchange) == Some(q.pending) && !Covered(after, p.job, 0)
  {
    events := FirstWrite(config, p);
    var w := World(Shared(map[p.job.exchange := p.pending], map[], []), [AfterFirstWrite(p)]);
    events := Then(config, events, w, Spawn(q));
    events := Then(config, events, Step(config, w, Spawn(q)), Advance(1, OK));
  }

  // ----- an exchange is never forgotten -----

  function Channels(config: Config): seq<Channel> {
    if config.channels.Some? then config.channels.value else []
  }

  /** The option's registered channel has an `onFulfill`. */
  predicate Dispatches(config: Config, option: OptionId) {
    var channel := Find(Channels(config), option);
    channel.Some? && channel.value.dispatches
  }

  /** `onCommit` resolved for some option, and so did `onFulfill` if the option's registered channel has one. */
  ghost predicate Settled(config: Config, log: seq<Call>, x: ExchangeId) {
    exists o: OptionId, d: Json :: Committed(x, o, d) in log && (Dispatches(config, o) ==> Fulfilled(x, o) in log)
  }

  /** The journal holds an entry of the exchange, or nothing is owed on it. */
  ghost predicate Remembered(config: Config, s: Shared, x: ExchangeId) {
    x in s.store || Settled(config, s.log, x)
  }

  /** What an operator can check on an entry before replaying it: the call its phase names is the last one owed. */
  predicate Harmless(config: Config, e: Entry) {
    e.phase.Delivery? || !Dispatches(config, e.option)
  }

  predicate ReplaysExchange(p: Process, x: ExchangeId) {
    IsReplay(p) && p.exchange == x
  }

  /** Every replay of `x` that has read an entry read a harmless one. */
  ghost predicate HarmlessReplays(config: Config, w: World, x: ExchangeId) {
    forall i | 0 <= i < |w.processes| && ReplaysExchange(w.processes[i], x) && EntryRead(w.processes[i]).Some? ::
      Harmless(config, EntryRead(w.processes[i]).value)
  }

  lemma SettledGrows(config: Config, log: seq<Call>, more: seq<Call>, x: ExchangeId)
    requires log <= more && Settled(config, log, x)
    ensures Settled(config, more, x)
  {
    assert forall c | c in log :: c in more;
  }

  /** The channel of a vetted job is the one its option is registered under. */
  lemma VettedDispatches(config: Config, job: Job)
    requires ConfigValid(config) && Vetted(config, job)
    ensures Dispatches(config, job.option) <==> job.channel.value.dispatches
  {
    FindOnly(config.channels.value, job.channel.value);
  }

  lemma TailEraseSettles(config: Config, s: Shared, p: Process, r: Reply, x: ExchangeId)
    requires ConfigValid(config) && p.Tail? && ProcessValid(config, s.log, p)
    requires x in s.store && x !in TailStep(s, p, r).0.store
    ensures Settled(config, s.log, x)
  {
    assert (p.pc.ClearDelivered? || p.pc.ClearCommitted?) && p.job.exchange == x;
    VettedDispatches(config, p.job);
    assert Committed(x, p.job.option, p.job.data) in s.log;
  }

  lemma ReplayEraseSettles(config: Config, s: Shared, p: Process, r: Reply, x: ExchangeId)
    requires IsReplay(p) && ProcessValid(config, s.log, p)
    requires ReplaysExchange(p, x) && EntryRead(p).Some? ==> Harmless(config, EntryRead(p).value)
    requires x in s.store && x !in ReplayStep(config, s, p, r).0.store
    ensures Settled(config, s.log, x)
  {
    assert p.ReplayDelete? && p.exchange == x;
    assert Committed(x, p.entry.option, p.entry.data) in s.log;
  }

  lemma StepRemembers(config: Config, s: Shared, p: Process, r: Reply, x: ExchangeId)
    requires ConfigValid(config) && StoreValid(s) && ProcessValid(config, s.log, p) && Remembered(config, s, x)
    requires ReplaysExchange(p, x) && EntryRead(p).Some? ==> Harmless(config, EntryRead(p).value)
    ensures Remembered(config, ProcessStep(config, s, p, r).0, x)
  {
    ProcessStepValid(config, s, p, r);
    var t := ProcessStep(config, s, p, r).0;
    if x in s.store && x !in t.store {
      if p.Tail? {
        TailEraseSettles(config, s, p, r, x);
      } else {
        ReplayEraseSettles(config, s, p, r, x);
      }
    }
    if Settled(config, s.log, x) {
      SettledGrows(config, s.log, t.log, x);
    }
  }

  /**
   Crash safety at full generality. With any number of handlers, replays and server
   instances overlapping on an exchange, and crashes anywhere: once the journal has held an
   entry for it, it still holds one, or `onCommit` and, if the option's channel has one,
   `onFulfill` resolved, as long as every replay of it that read an entry read a harmless one.
   */
  lemma {:induction false} NeverForgotten(config: Config, w: World, events: seq<Event>, x: ExchangeId)
    requires ConfigValid(config) && Valid(config, w) && AllEnabled(config, events)
    requires x in w.shared.store
    requires forall k | 0 <= k < |events| :: HarmlessReplays(config, Run(config, w, events[..k]), x)
    ensures Valid(config, Run(config, w, events)) && Remembered(config, Run(config, w, events).shared, x)
    decreases |events|
  {
    if events != [] {
      var n := |events| - 1;
      var before, last := events[..n], events[n];
      forall k | 0 <= k < n ensures HarmlessReplays(config, Run(config, w, before[..k]), x) {
        assert before[..k] == events[..k];
      }
      NeverForgotten(config, w, before, x);
      var u := Run(config, w, before);
      assert Enabled(config, last) && HarmlessReplays(config, u, x);
      StepValid(config, u, last);
      if last.Advance? && last.pid < |u.processes| {
        StepRemembers(config, u.shared, u.processes[last.pid], last.reply, x);
      }
    }
  }

  ghost predicate NoReplay(w: World, x: ExchangeId) {
    forall i | 0 <= i < |w.processes| :: !ReplaysExchange(w.processes[i], x)
  }

  lemma NoReplayStep(config: Config, w: World, ev: Event, x: ExchangeId)
    requires NoReplay(w, x) && (ev.Spawn? ==> !ReplaysExchange(ev.process, x))
    ensures NoReplay(Step(config, w, ev), x)
  {
    if ev.Advance? && ev.pid < |w.processes| {
      var p := w.processes[ev.pid];
      if IsReplay(p) {
        assert !ReplaysExchange(ReplayStep(config, w.shared, p, ev.reply).1, x);
      } else if p.Tail? {
        assert !IsReplay(TailStep(w.shared, p, ev.reply).1);
      }
    }
  }

  lemma {:induction false} NoReplayRun(config: Config, w: World, events: seq<Event>, x: ExchangeId)
    requires NoReplay(w, x)
    requires forall i | 0 <= i < |events| && events[i].Spawn? :: !ReplaysExchange(events[i].process, x)
    ensures NoReplay(Run(config, w, events), x)
    decreases |events|
  {
    if events != [] {
      var n := |events| - 1;
      assert forall i | 0 <= i < n :: events[..n][i] == events[i];
      NoReplayRun(config, w, events[..n], x);
      NoReplayStep(config, Run(config, w, events[..n]), events[n], x);
    }
  }

  /** In particular handlers alone, however many overlap and wherever they crash, never forget an exchange. */
  lemma HandlersNeverForget(config: Config, w: World, events: seq<Event>, x: ExchangeId)
    requires ConfigValid(config) && Valid(config, w) && AllEnabled(config, events)
    requires x in w.shared.store && NoReplay(w, x)
    requires forall i | 0 <= i < |events| && events[i].Spawn? :: !ReplaysExchange(events[i].process, x)
    ensures Remembered(config, Run(config, w, events).shared, x)
  {
    forall k | 0 <= k < |events| ensures HarmlessReplays(config, Run(config, w, events[..k]), x) {
      assert forall i | 0 <= i < k :: events[..k][i] == events[i];
      NoReplayRun(config, w, events[..k], x);
    }
    NeverForgotten(config, w, events, x);
  }

  // ----- and the condition on replays is exact -----

  ghost predicate CommittedOption(log: seq<Call>, x: ExchangeId, o: OptionId) {
    exists d: Json :: Committed(x, o, d) in log
  }

  /** No `onFulfill` without an `onCommit` of the same option before it. */
  ghost predicate FulfilledBacked(log: seq<Call>) {
    forall x, o | Fulfilled(x, o) in log :: CommittedOption(log, x, o)
  }

  lemma ResolveBacked(log: seq<Call>, call: Call)
    requires FulfilledBacked(log) && (call.Fulfilled? ==> CommittedOption(log, call.exchange, call.option))
    ensures FulfilledBacked(log + [call])
  {
    var more := log + [call];
    assert forall c | c in log :: c in more;
    forall x, o | Fulfilled(x, o) in more ensures CommittedOption(more, x, o) {
      assert CommittedOption(log, x, o);
      var d :| Committed(x, o, d) in log;
      assert Committed(x, o, d) in more;
    }
  }

  lemma StepBacked(config: Config, s: Shared, p: Process, r: Reply)
    requires ProcessValid(config, s.log, p) && FulfilledBacked(s.log)
    ensures FulfilledBacked(ProcessStep(config, s, p, r).0.log)
  {
    var t := ProcessStep(config, s, p, r).0;
    if t.log != s.log {
      if p.Tail? {
        ResolveBacked(s.log, if p.pc.CallCommit? then Committed(p.job.exchange, p.job.option, p.job.data)
                             else Fulfilled(p.job.exchange, p.job.option));
      } else {
        ResolveBacked(s.log, NamedStep(p.exchange, p.entry));
      }
    }
  }

  lemma {:induction false} RunBacked(config: Config, events: seq<Event>)
    requires ConfigValid(config) && AllEnabled(config, events)
    ensures FulfilledBacked(Run(config, START, events).shared.log)
    decreases |events|
  {
    if events != [] {
      var n := |events| - 1;
      var w := Run(config, START, events[..n]);
      RunBacked(config, events[..n]);
      RunValid(config, events[..n]);
      if events[n].Advance? && events[n].pid < |w.processes| {
        StepBacked(config, w.shared, w.processes[events[n].pid], events[n].reply);
      }
    }
  }

  lemma TwoSteps(config: Config, w: World, a: Event, b: Event)
    ensures Run(config, w, [a, b]) == Step(config, Step(config, w, a), b)
  {
    assert [a, b][..1] == [a] && [a][..0] == [];
    assert Run(config, w, []) == w;
    assert Run(config, w, [a]) == Step(config, w, a);
  }

  lemma FulfilledSettles(config: Config, log: seq<Call>, x: ExchangeId, o: OptionId)
    requires FulfilledBacked(log)
    ensures Fulfilled(x, o) in log ==> Settled(config, log, x)
  {
    if Fulfilled(x, o) in log {
      assert CommittedOption(log, x, o);
      var d :| Committed(x, o, d) in log;
    }
  }

  lemma CommitOnlyUnsettled(config: Config, log: seq<Call>, x: ExchangeId, o: OptionId, d: Json)
    requires !Settled(config, log, x) && FulfilledBacked(log) && Dispatches(config, o)
    ensures !Settled(config, log + [Committed(x, o, d)], x)
  {
    var more := log + [Committed(x, o, d)];
    FulfilledSettles(config, log, x, o);
    forall o': OptionId, d': Json | Committed(x, o', d') in more
      ensures Dispatches(config, o') && Fulfilled(x, o') !in more
    {
      if o' != o {
        assert Committed(x, o', d') in log;
      }
    }
  }

  /**
   The exact condition. In any reachable world in which a replay of an exchange on which
   something is still owed is about to make its call: if its call and its deletion succeed,
   the exchange is forgotten if and only if the entry it read is not harmless.
   */
  lemma ReplayForgetsIff(config: Config, past: seq<Event>, pid: nat)
    requires ConfigValid(config) && AllEnabled(config, past)
    requires var w := Run(config, START, past);
      pid < |w.processes| && w.processes[pid].ReplayCall? && !Settled(config, w.shared.log, w.processes[pid].exchange)
    ensures var w := Run(config, START, past);
      var after := Run(config, w, [Advance(pid, OK), Advance(pid, OK)]).shared;
      !Remembered(config, after, w.processes[pid].exchange) <==> !Harmless(config, w.processes[pid].entry)
  {
    var w := Run(config, START, past);
    var x, e := w.processes[pid].exchange, w.processes[pid].entry;
    RunValid(config, past);
    RunBacked(config, past);
    assert ProcessValid(config, w.shared.log, w.processes[pid]);
    TwoSteps(config, w, Advance(pid, OK), Advance(pid, OK));
    var after := Run(config, w, [Advance(pid, OK), Advance(pid, OK)]).shared;
    assert after.log == w.shared.log + [NamedStep(x, e)] && x !in after.store;
    if Harmless(config, e) {
      assert Committed(x, e.option, e.data) in after.log;
    } else {
      CommitOnlyUnsettled(config, w.shared.log, x, e.option, e.data);
    }
  }

  // ----- replay with nothing else at work on the exchange -----

  /** What is known of a lone replay of entry `e`; `had` tells whether delivery had resolved before it began. */
  ghost predicate Replaying(w: World, x: ExchangeId, pid: nat, e: Entry, had: bool) {
    && pid < |w.processes| && Alone(w, x, pid) && e.exchangeId == x && Backed(w.shared.log, e)
    && var s := w.shared;
       var held := Lookup(s.store, x) == Some(e);
       var delivered := Fulfilled(x, e.option) in s.log;
       match w.processes[pid]
       case ReplayRead(y) => y == x && held && (delivered <==> had)
       case ReplayCall(y, f, _) => y == x && f == e && held && (delivered <==> had)
       case ReplayDelete(y, f) =>
         y == x && f == e && held && NamedStep(x, e) in s.log && (delivered <==> had || e.phase.Delivery?)
       case ReplayError(y, f, _) => y == x && f == e && Untouched(s, x, e)
       case Ended(ok) =>
         if ok then x !in s.store && NamedStep(x, e) in s.log && (delivered <==> had || e.phase.Delivery?)
         else Untouched(s, x, e)
       case _ => false
  }

  /** The entry is as it was, up to `error`, unless the step it names has resolved. */
  ghost predicate Untouched(s: Shared, x: ExchangeId, e: Entry) {
    if x in s.store then s.store[x] == e.(error := s.store[x].error)
    else NamedStep(x, e) in s.log
  }

  lemma OwnReplayStep(config: Config, w: World, reply: Reply, x: ExchangeId, pid: nat, e: Entry, had: bool)
    requires Replaying(w, x, pid, e, had)
    ensures Replaying(Step(config, w, Advance(pid, reply)), x, pid, e, had)
  {
    assert forall c, call | c in w.shared.log :: c in w.shared.log + [call];
  }

  lemma ReplayingStep(config: Config, w: World, ev: Event, x: ExchangeId, pid: nat, e: Entry, had: bool)
    requires Valid(config, w) && Replaying(w, x, pid, e, had)
    requires ev.Spawn? ==> JournalOf(ev.process) != Some(x)
    ensures Replaying(Step(config, w, ev), x, pid, e, had)
  {
    if ev.Advance? && ev.pid < |w.processes| {
      if ev.pid == pid {
        OwnReplayStep(config, w, ev.reply, x, pid, e, had);
      } else {
        var p := w.processes[ev.pid];
        assert ProcessValid(config, w.shared.log, p);
        OtherStepFrames(config, w.shared, p, ev.reply, x);
        var (t, _) := ProcessStep(config, w.shared, p, ev.reply);
        assert forall c | c in w.shared.log :: c in t.log;
        assert Lookup(t.store, x) == Lookup(w.shared.store, x);
      }
    }
  }

  lemma {:induction false} ReplayingRun(config: Config, w: World, events: seq<Event>, x: ExchangeId, pid: nat, e: Entry, had: bool)
    requires ConfigValid(config) && Valid(config, w) && Replaying(w, x, pid, e, had)
    requires AllEnabled(config, events) && NoneJoins(events, x)
    ensures Valid(config, Run(config, w, events)) && Replaying(Run(config, w, events), x, pid, e, had)
    decreases |events|
  {
    if events != [] {
      var before, last := events[..|events| - 1], events[|events| - 1];
      assert forall i | 0 <= i < |before| :: before[i] == events[i];
      ReplayingRun(config, w, before, x, pid, e, had);
      assert Enabled(config, last);
      StepValid(config, Run(config, w, before), last);
      ReplayingStep(config, Run(config, w, before), last, x, pid, e, had);
    }
  }

  lemma ReplayBegins(config: Config, past: seq<Event>, pid: nat)
    requires ConfigValid(config) && AllEnabled(config, past)
    requires LoneReplay(Run(config, START, past), pid)
    ensures var w := Run(config, START, past);
      var x := w.processes[pid].exchange;
      Valid(config, w)
      && Replaying(w, x, pid, w.shared.store[x], Fulfilled(x, w.shared.store[x].option) in w.shared.log)
  {
    RunValid(config, past);
  }

  /** A replay about to read an entry that no other process is working on. */
  ghost predicate LoneReplay(w: World, pid: nat) {
    && pid < |w.processes| && w.processes[pid].ReplayRead?
    && w.processes[pid].exchange in w.shared.store
    && Alone(w, w.processes[pid].exchange, pid)
  }

  /**
   A replay with nothing else at work on its exchange loses nothing: at every later point
   the entry is still there with at most `error` changed, or the step it names resolved.
   */
  lemma LoneReplayIsSafe(config: Config, past: seq<Event>, pid: nat, events: seq<Event>)
    requires ConfigValid(config) && AllEnabled(config, past) && AllEnabled(config, events)
    requires LoneReplay(Run(config, START, past), pid)
    requires NoneJoins(events, Run(config, START, past).processes[pid].exchange)
    ensures var w := Run(config, START, past);
      var x := w.processes[pid].exchange;
      Untouched(Run(config, w, events).shared, x, w.shared.store[x])
  {
    ReplayBegins(config, past, pid);
    var w := Run(config, START, past);
    var x := w.processes[pid].exchange;
    ReplayingRun(config, w, events, x, pid, w.shared.store[x], Fulfilled(x, w.shared.store[x].option) in w.shared.log);
  }

  /**
   After a successful replay the entry is gone, and the delivery flow is fully complete
   if and only if the entry was in the delivery phase, or its channel has no `onFulfill`,
   or `onFulfill` had already resolved before. The guide promises it always is.
   */
  lemma ReplayCompletesIff(config: Config, past: seq<Event>, pid: nat, events: seq<Event>)
    requires ConfigValid(config) && AllEnabled(config, past) && AllEnabled(config, events)
    requires LoneReplay(Run(config, START, past), pid)
    requires NoneJoins(events, Run(config, START, past).processes[pid].exchange)
    requires var w := Run(config, START, past);
      pid < |Run(config, w, events).processes| && Run(config, w, events).processes[pid] == Ended(true)
    ensures var w := Run(config, START, past);
      var x := w.processes[pid].exchange;
      var e := w.shared.store[x];
      var after := Run(config, w, events).shared;
      && x !in after.store
      && (Committed(x, e.option, e.data) in after.log
          && (Dispatches(config, e.option) ==> Fulfilled(x, e.option) in after.log)
          <==>
          e.phase.Delivery? || !Dispatches(config, e.option) || Fulfilled(x, e.option) in w.shared.log)
  {
    ReplayBegins(config, past, pid);
    var w := Run(config, START, past);
    var x := w.processes[pid].exchange;
    ReplayingRun(config, w, events, x, pid, w.shared.store[x], Fulfilled(x, w.shared.store[x].option) in w.shared.log);
  }

  // ----- what does go wrong -----

  /** A commit-and-redeem of a dispatching channel, about to write its first entry. */
  ghost predicate DispatchingStart(config: Config, p: Process) {
    && Initial(config, p) && p.Tail?
    && p.job.channel.Some? && p.job.channel.value.dispatches
    && Find(Channels(config), p.job.option) == p.job.channel
  }

  /** `onCommit` rejects. */
  lemma CommitRejected(config: Config, p: Process) returns (events: seq<Event>)
    requires DispatchingStart(config, p)
    ensures AllEnabled(config, events)
    ensures Run(config, START, events) ==
      World(Shared(map[p.job.exchange := p.pending], map[], []), [p.(pc := WriteCommitError("rejected"))])
  {
    events := FirstWrite(config, p);
    var w := World(Shared(map[p.job.exchange := p.pending], map[], []), [AfterFirstWrite(p)]);
    events := Then(config, events, w, Advance(0, FAILED));
  }

  /** The flow in which `onCommit` fails and the handler leaves its commit-phase entry behind. */
  lemma CommitFails(config: Config, p: Process) returns (events: seq<Event>)
    requires DispatchingStart(config, p)
    ensures AllEnabled(config, events)
    ensures var e := p.pending.(error := Some("rejected"));
      Run(config, START, events) == World(Shared(map[p.job.exchange := e], map[], []), [Ended(true)])
  {
    var x, e := p.job.exchange, p.pending.(error := Some("rejected"));
    events := CommitRejected(config, p);
    var w := World(Shared(map[x := p.pending], map[], []), [p.(pc := WriteCommitError("rejected"))]);
    events := Then(config, events, w, Advance(0, OK));
    assert map[x := p.pending][x := e] == map[x := e];
  }

  /** A replay joins `processes` and reads the entry `e` of its exchange. */
  lemma ReplayReads(config: Config, before: seq<Event>, s: Shared, p: Process, x: ExchangeId, e: Entry)
    returns (events: seq<Event>)
    requires AllEnabled(config, before) && Run(config, START, before) == World(s, [p])
    requires Lookup(s.store, x) == Some(e) && e.phase.Commit? && Find(Channels(config), e.option).Some?
    ensures AllEnabled(config, events)
    ensures Run(config, START, events) == World(s, [p, ReplayCall(x, e, Find(Channels(config), e.option).value)])
  {
    events := Then(config, before, World(s, [p]), Spawn(ReplayRead(x)));
    events := Then(config, events, World(s, [p, ReplayRead(x)]), Advance(1, OK));
  }

  /** It calls `onCommit` and is about to delete. */
  lemma ReplayCalls(config: Config, before: seq<Event>, s: Shared, p: Process, x: ExchangeId, e: Entry)
    returns (events: seq<Event>)
    requires AllEnabled(config, before) && Run(config, START, before) == World(s, [p])
    requires Lookup(s.store, x) == Some(e) && e.phase.Commit? && Find(Channels(config), e.option).Some?
    ensures AllEnabled(config, events)
    ensures Run(config, START, events) == World(Resolve(s, Committed(x, e.option, e.data)), [p, ReplayDelete(x, e)])
  {
    events := ReplayReads(config, before, s, p, x, e);
    var w := World(s, [p, ReplayCall(x, e, Find(Channels(config), e.option).value)]);
    events := Then(config, events, w, Advance(1, OK));
  }

  /**
   The guide's promise fails: replaying that entry succeeds and deletes it although
   `onFulfill` was never called.
   */
  lemma CommitReplayLeavesDeliveryOwed(config: Config, p: Process) returns (events: seq<Event>)
    requires DispatchingStart(config, p)
    ensures AllEnabled(config, events)
    ensures var w := Run(config, START, events);
      && w.processes == [Ended(true), Ended(true)]
      && !Remembered(config, w.shared, p.job.exchange)
      && !Complete(w.shared.log, p.job)
  {
    var x, e := p.job.exchange, p.pending.(error := Some("rejected"));
    var s := Shared(map[x := e], map[], []);
    events := CommitFails(config, p);
    events := ReplayCalls(config, events, s, Ended(true), x, e);
    var w := World(Resolve(s, Committed(x, e.option, e.data)), [Ended(true), ReplayDelete(x, e)]);
    events := Then(config, events, w, Advance(1, OK));
  }

  /** A replay reads the commit-phase entry and calls `onCommit` while the handler is still at work. */
  lemma ReplayOverlaps(config: Config, p: Process) returns (events: seq<Event>)
    requires DispatchingStart(config, p)
    ensures AllEnabled(config, events)
    ensures var x := p.job.exchange;
      Run(config, START, events) ==
        World(Shared(map[x := p.pending], map[], [Committed(x, p.job.option, p.job.data)]),
              [p.(pc := CallCommit), ReplayDelete(x, p.pending)])
  {
    var x := p.job.exchange;
    events := FirstWrite(config, p);
    events := ReplayCalls(config, events, Shared(map[x := p.pending], map[], []), AfterFirstWrite(p), x, p.pending);
  }

  /** The handler's own `onCommit` resolves too. */
  lemma HandlerCommits(config: Config, p: Process) returns (events: seq<Event>)
    requires DispatchingStart(config, p)
    ensures AllEnabled(config, events)
    ensures var x, call := p.job.exchange, Committed(p.job.exchange, p.job.option, p.job.data);
      Run(config, START, events) ==
        World(Shared(map[x := p.pending], map[], [call, call]),
              [p.(deliveryAt := 0, pc := WriteDelivery), ReplayDelete(x, p.pending)])
  {
    var x, call := p.job.exchange, Committed(p.job.exchange, p.job.option, p.job.data);
    events := ReplayOverlaps(config, p);
    var w := World(Shared(map[x := p.pending], map[], [call]), [p.(pc := CallCommit), ReplayDelete(x, p.pending)]);
    events := Then(config, events, w, Advance(0, OK));
  }

  /** The handler goes on to its delivery phase with the replay still waiting to delete. */
  lemma HandlerDispatches(config: Config, p: Process) returns (events: seq<Event>)
    requires DispatchingStart(config, p)
    ensures AllEnabled(config, events)
    ensures var x, call := p.job.exchange, Committed(p.job.exchange, p.job.option, p.job.data);
      Run(config, START, events) ==
        World(Shared(map[x := DeliveryEntry(p.pending, 0)], map[], [call, call]),
              [p.(deliveryAt := 0, pc := CallFulfill), ReplayDelete(x, p.pending)])
  {
    var x, d := p.job.exchange, DeliveryEntry(p.pending, 0);
    var call := Committed(x, p.job.option, p.job.data);
    events := HandlerCommits(config, p);
    var w := World(Shared(map[x := p.pending], map[], [call, call]),
                   [p.(deliveryAt := 0, pc := WriteDelivery), ReplayDelete(x, p.pending)]);
    events := Then(config, events, w, Advance(0, OK));
    assert map[x := p.pending][x := d] == map[x := d];
  }

  /** `onFulfill` rejects. */
  lemma DispatchRejected(config: Config, p: Process) returns (events: seq<Event>)
    requires DispatchingStart(config, p)
    ensures AllEnabled(config, events)
    ensures var x, call := p.job.exchange, Committed(p.job.exchange, p.job.option, p.job.data);
      Run(config, START, events) ==
        World(Shared(map[x := DeliveryEntry(p.pending, 0)], map[], [call, call]),
              [p.(deliveryAt := 0, pc := WriteDeliveryError("rejected")), ReplayDelete(x, p.pending)])
  {
    var x, call := p.job.exchange, Committed(p.job.exchange, p.job.option, p.job.data);
    events := HandlerDispatches(config, p);
    var w := World(Shared(map[x := DeliveryEntry(p.pending, 0)], map[], [call, call]),
                   [p.(deliveryAt := 0, pc := CallFulfill), ReplayDelete(x, p.pending)]);
    events := Then(config, events, w, Advance(0, FAILED));
  }

  /** The handler ends, leaving its delivery-phase entry. */
  lemma HandlerDefersDelivery(config: Config, p: Process) returns (events: seq<Event>)
    requires DispatchingStart(config, p)
    ensures AllEnabled(config, events)
    ensures var x, call := p.job.exchange, Committed(p.job.exchange, p.job.option, p.job.data);
      Run(config, START, events) ==
        World(Shared(map[x := DeliveryEntry(p.pending, 0).(error := Some("rejected"))], map[], [call, call]),
              [Ended(true), ReplayDelete(x, p.pending)])
  {
    var x, d := p.job.exchange, DeliveryEntry(p.pending, 0);
    var call, failed := Committed(x, p.job.option, p.job.data), d.(error := Some("rejected"));
    events := DispatchRejected(config, p);
    var w := World(Shared(map[x := d], map[], [call, call]),
                   [p.(deliveryAt := 0, pc := WriteDeliveryError("rejected")), ReplayDelete(x, p.pending)]);
    events := Then(config, events, w, Advance(0, OK));
    assert map[x := d][x := failed] == map[x := failed];
  }

  /**
   A replay that overlaps its handler deletes the delivery-phase entry the handler has just
   written, although `onFulfill` never resolved.
   */
  lemma OverlappingReplayLosesDelivery(config: Config, p: Process) returns (events: seq<Event>)
    requires DispatchingStart(config, p)
    ensures AllEnabled(config, events)
    ensures var w := Run(config, START, events);
      && w.processes == [Ended(true), Ended(true)]
      && !Remembered(config, w.shared, p.job.exchange)
      && Fulfilled(p.job.exchange, p.job.option) !in w.shared.log
  {
    var x, call := p.job.exchange, Committed(p.job.exchange, p.job.option, p.job.data);
    var failed := DeliveryEntry(p.pending, 0).(error := Some("rejected"));
    events := HandlerDefersDelivery(config, p);
    var w := World(Shared(map[x := failed], map[], [call, call]), [Ended(true), ReplayDelete(x, p.pending)]);
    events := Then(config, events, w, Advance(1, OK));
  }

  // ----- the option gate across handlers -----

  /** What the option store holds, and what the gate saw of it, was recorded by a commit handler. */
  ghost predicate FromCommits(events: seq<Event>, w: World) {
    && (forall x | x in w.shared.options :: Spawn(Recording(x, w.shared.options[x])) in events)
    && (forall i | 0 <= i < |w.processes| :: ProcessFromCommits(events, w.processes[i]))
  }

  ghost predicate ProcessFromCommits(events: seq<Event>, p: Process) {
    match p
    case Recording(_, _) => Spawn(p) in events
    case Settle(_, checked) => checked.Some? ==> JobFromCommits(events, checked.value)
    case Tail(job, _, _, _) => JobFromCommits(events, job)
    case _ => true
  }

  ghost predicate JobFromCommits(events: seq<Event>, job: Job) {
    job.flow.FlowA? && job.advertised.Some? ==> Spawn(Recording(job.exchange, job.advertised.value)) in events
  }

  lemma OwnStepFromCommits(config: Config, events: seq<Event>, w: World, pid: nat, reply: Reply)
    requires FromCommits(events, w) && pid < |w.processes|
    ensures var (t, q) := ProcessStep(config, w.shared, w.processes[pid], reply);
      && (forall x | x in t.options :: Spawn(Recording(x, t.options[x])) in events)
      && ProcessFromCommits(events, q)
  {
    assert ProcessFromCommits(events, w.processes[pid]);
  }

  lemma StepFromCommits(config: Config, events: seq<Event>, w: World, ev: Event)
    requires FromCommits(events, w) && Enabled(config, ev)
    ensures FromCommits(events + [ev], Step(config, w, ev))
  {
    var all := events + [ev];
    assert forall e | e in events :: e in all;
    assert ev in all;
    if ev.Advance? && ev.pid < |w.processes| {
      OwnStepFromCommits(config, events, w, ev.pid, ev.reply);
    }
  }

  lemma {:induction false} RunFromCommits(config: Config, events: seq<Event>)
    requires AllEnabled(config, events)
    ensures FromCommits(events, Run(config, START, events))
    decreases |events|
  {
    if events != [] {
      var before, last := events[..|events| - 1], events[|events| - 1];
      RunFromCommits(config, before);
      assert Enabled(config, last);
      StepFromCommits(config, before, Run(config, START, before), last);
      assert before + [last] == events;
    }
  }

  /**
   The gate across handlers: whenever the redeem handler is about to call `onCommit`, the
   channel is registered and accepted the data, and if the option store held a list for
   the exchange at the gate, a commit handler of that exchange recorded that list and it
   names the option.
   */
  lemma GateGuardsEveryOnCommit(config: Config, events: seq<Event>, pid: nat)
    requires ConfigValid(config) && AllEnabled(config, events)
    requires var w := Run(config, START, events);
      pid < |w.processes| && w.processes[pid].Tail? && w.processes[pid].pc.CallCommit?
    ensures var job := Run(config, START, events).processes[pid].job;
      && Vetted(config, job)
      && JobFromCommits(events, job)
  {
    RunValid(config, events);
    RunFromCommits(config, events);
    var w := Run(config, START, events);
    assert ProcessValid(config, w.shared.log, w.processes[pid]);
    assert ProcessFromCommits(events, w.processes[pid]);
  }

  /**
   What the redeem gate decides, on the stores themselves. In every reachable world a redeem
   that carries a selection goes on to settle if and only if the list on record for its
   exchange, if there is one, names the option, and a registered channel of that id accepts
   the data; it then carries exactly that selection and that channel, and otherwise it ends.
   */
  lemma GateReadsTheStore(config: Config, events: seq<Event>, pid: nat, reply: Reply)
    requires ConfigValid(config) && AllEnabled(config, events)
    requires var w := Run(config, START, events);
      pid < |w.processes| && w.processes[pid].Gate? && w.processes[pid].selection.Some?
    ensures
      var w := Run(config, START, events);
      var Gate(x, redeemer, Some((option, data))) := w.processes[pid];
      var after := Step(config, w, Advance(pid, reply));
      var opens :=
        && reply.outcome.Done?
        && (x in w.shared.options ==> option in w.shared.options[x])
        && config.channels.Some?
        && exists c | c in config.channels.value :: c.id == option && c.validate(data).Accepted?;
      && after.shared == w.shared
      && match after.processes[pid]
         case Settle(y, Some(job)) =>
           && opens && y == job.exchange == x && job.flow.FlowA?
           && job.option == option && job.data == data && job.redeemer == redeemer
           && job.channel.Some? && job.channel.value in config.channels.value
           && job.channel.value.id == option && job.channel.value.validate(data).Accepted?
         case next => !opens && next == Ended(false)
  {
    var w := Run(config, START, events);
    var (option, data) := w.processes[pid].selection.value;
    GateOpensIff(Lookup(w.shared.options, w.processes[pid].exchange), config.channels, option, data);
  }

  /** A redeem without a selection settles and drops the list; it never reaches the journal or a channel. */
  lemma PlainRedeemSettles(config: Config, s: Shared, x: ExchangeId, redeemer: string, a: Reply, b: Reply)
    ensures
      var (t, p) := ProcessStep(config, s, Gate(x, redeemer, None), a);
      t == s && p == Settle(x, None)
      && ProcessStep(config, s, p, b) == (s, if b.outcome.Done? then DropOptions(x) else Ended(false))
  {
  }

  /** Past settlement the journal entry a redeem is about to write is the buyer's own, in the commit phase. */
  lemma SettledRedeemRecords(config: Config, s: Shared, job: Job, reply: Reply)
    ensures
      var (t, p) := ProcessStep(config, s, Settle(job.exchange, Some(job)), reply);
      && t == s
      && (reply.outcome.Done? ==>
            var entry := Entry(job.exchange, job.option, job.data, job.redeemer, reply.now, Commit, None);
            var (u, q) := ProcessStep(config, s, p, OK);
            && p.Tail? && p.job == job
            && u.store == s.store[job.exchange := entry] && u.options == s.options && u.log == s.log)
      && (!reply.outcome.Done? ==> p == Ended(false))
  {
  }

  predicate WritesOptions(p: Process, x: ExchangeId) {
    (p.DropOptions? || p.Recording?) && p.exchange == x
  }

  /** At no event does a process move that drops or replaces the option list of `x`. */
  ghost predicate ListUntouched(config: Config, w: World, events: seq<Event>, x: ExchangeId) {
    forall k | 0 <= k < |events| :: ListKept(Run(config, w, events[..k]), events[k], x)
  }

  predicate ListKept(w: World, ev: Event, x: ExchangeId) {
    ev.Advance? && ev.pid < |w.processes| ==> !WritesOptions(w.processes[ev.pid], x)
  }

  lemma StepKeepsList(config: Config, w: World, ev: Event, x: ExchangeId)
    requires ListKept(w, ev, x)
    ensures Lookup(Step(config, w, ev).shared.options, x) == Lookup(w.shared.options, x)
  {
    if ev.Advance? && ev.pid < |w.processes| {
      var p := w.processes[ev.pid];
      if p.Tail? {
        assert TailStep(w.shared, p, ev.reply).0.options == w.shared.options;
      } else if IsReplay(p) {
        assert ReplayStep(config, w.shared, p, ev.reply).0.options == w.shared.options;
      }
    }
  }

  lemma {:induction false} RunKeepsList(config: Config, w: World, events: seq<Event>, x: ExchangeId)
    requires ListUntouched(config, w, events, x)
    ensures Lookup(Run(config, w, events).shared.options, x) == Lookup(w.shared.options, x)
    decreases |events|
  {
    if events != [] {
      var n := |events| - 1;
      forall k | 0 <= k < n ensures ListKept(Run(config, w, events[..n][..k]), events[..n][k], x) {
        assert events[..n][..k] == events[..k];
        assert ListKept(Run(config, w, events[..k]), events[k], x);
      }
      RunKeepsList(config, w, events[..n], x);
      assert ListKept(Run(config, w, events[..n]), events[n], x);
      StepKeepsList(config, Run(config, w, events[..n]), events[n], x);
    }
  }

  /**
   A list a commit handler has recorded stays on record, crashes and other exchanges'
   traffic included, until a settled redeem drops it or another commit of the exchange
   records its own.
   */
  lemma RecordedStays(config: Config, w: World, pid: nat, now: int, reason: string, events: seq<Event>)
    requires pid < |w.processes| && w.processes[pid].Recording?
    requires ListUntouched(config, Step(config, w, Advance(pid, Reply(Done, now, reason))), events, w.processes[pid].exchange)
    ensures
      var Recording(x, ids) := w.processes[pid];
      var after := Run(config, Step(config, w, Advance(pid, Reply(Done, now, reason))), events).shared;
      x in after.options && after.options[x] == ids
  {
    var next := Step(config, w, Advance(pid, Reply(Done, now, reason)));
    RunKeepsList(config, next, events, w.processes[pid].exchange);
    assert Lookup(next.shared.options, w.processes[pid].exchange) == Some(w.processes[pid].ids);
  }

  lemma {:induction false} RunOn(config: Config, w: World, past: seq<Event>, events: seq<Event>)
    ensures Run(config, w, past + events) == Run(config, Run(config, w, past), events)
    decreases |events|
  {
    if events == [] {
      assert past + events == past;
    } else {
      var n := |events| - 1;
      assert (past + events)[..|past| + n] == past + events[..n];
      RunOn(config, w, past, events[..n]);
    }
  }

  /**
   The two handlers together. Once a commit handler has recorded the options it advertised,
   a later redeem of the exchange settles only for one of them that a registered channel
   accepts, as long as no redeem has dropped the list and no commit has replaced it.
   */
  lemma RecordedListDecides(config: Config, past: seq<Event>, pid: nat, now: int, reason: string,
                            events: seq<Event>, redeem: nat, reply: Reply)
    requires ConfigValid(config) && AllEnabled(config, past) && AllEnabled(config, events)
    requires var w := Run(config, START, past); pid < |w.processes| && w.processes[pid].Recording?
    requires
      var w := Run(config, START, past);
      var later := Step(config, w, Advance(pid, Reply(Done, now, reason)));
      var last := Run(config, later, events);
      && ListUntouched(config, later, events, w.processes[pid].exchange)
      && redeem < |last.processes| && last.processes[redeem].Gate? && last.processes[redeem].selection.Some?
      && last.processes[redeem].exchange == w.processes[pid].exchange
    ensures
      var w := Run(config, START, past);
      var last := Run(config, Step(config, w, Advance(pid, Reply(Done, now, reason))), events);
      var (option, data) := last.processes[redeem].selection.value;
      Step(config, last, Advance(redeem, reply)).processes[redeem].Settle? <==>
        && reply.outcome.Done? && option in w.processes[pid].ids && config.channels.Some?
        && exists c | c in config.channels.value :: c.id == option && c.validate(data).Accepted?
  {
    var w := Run(config, START, past);
    var recorded := Advance(pid, Reply(Done, now, reason));
    RecordedStays(config, w, pid, now, reason, events);
    RunOn(config, START, past, [recorded]);
    assert [recorded][..0] == [];
    assert Run(config, w, [recorded]) == Step(config, w, recorded);
    RunOn(config, START, past + [recorded], events);
    GateReadsTheStore(config, past + [recorded] + events, redeem, reply);
  }

  /** Rule 13 at work: Flow B never reaches its "no channel adapter" branch. */
  lemma AdapterNeverMissing(config: Config, events: seq<Event>, pid: nat)
    requires ConfigValid(config) && AllEnabled(config, events)
    requires var w := Run(config, START, events); pid < |w.processes| && w.processes[pid].Tail?
    ensures !Run(config, START, events).processes[pid].pc.WriteMissing?
  {
    RunValid(config, events);
    var w := Run(config, START, events);
    assert ProcessValid(config, w.shared.log, w.processes[pid]);
  }
}
