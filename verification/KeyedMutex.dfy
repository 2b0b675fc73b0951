/**
 The keyed promise-chain mutex that serialises the exchange handlers.

 Call `i` owns three promises: the one handed to the caller (`run`), the swallowed copy
 kept in the Map (`tracked`), and the cleanup hung on `tracked`. Each of them advances in a
 microtask of its own; the model lets those microtasks interleave in any order with each
 other and with new calls, so it covers every schedule of the event loop.
 */
module KeyedMutex {
  import opened Wrappers

  type Key = string
  type CallId = nat

  /** How far a call has come. `Tracked`: its tracked promise is fulfilled; `Cleaned`: its cleanup ran. */
  datatype Phase = Queued | Running | Settled | Tracked | Cleaned

  datatype Call = Call(key: Key, prev: Option<CallId>, phase: Phase)

  /** Every call made so far, in call order, and the Map from key to the call whose tracked promise it holds. */
  datatype State = State(calls: seq<Call>, chains: map<Key, CallId>)

  /** `Settle` stands for both outcomes of `fn`: `then(fn, fn)` and `catch` treat them alike. */
  datatype Event =
    | RunExclusive(key: Key)
    | Start(call: CallId)
    | Settle(call: CallId, rejected: bool)
    | Track(call: CallId)
    | CleanUp(call: CallId)

  const IDLE := State([], map[])

  predicate Done(c: Call) {
    c.phase == Tracked || c.phase == Cleaned
  }

  predicate Enabled(s: State, ev: Event) {
    match ev
    case RunExclusive(_) => true
    case Start(i) =>
      && i < |s.calls| && s.calls[i].phase == Queued
      && (s.calls[i].prev.Some? ==>
            s.calls[i].prev.value < |s.calls| && Done(s.calls[s.calls[i].prev.value]))
    case Settle(i, _) => i < |s.calls| && s.calls[i].phase == Running
    case Track(i) => i < |s.calls| && s.calls[i].phase == Settled
    case CleanUp(i) => i < |s.calls| && s.calls[i].phase == Tracked
  }

  function SetPhase(calls: seq<Call>, i: CallId, phase: Phase): seq<Call>
    requires i < |calls|
  {
    calls[i := calls[i].(phase := phase)]
  }

  /** The phase a call reaches by one of its own events. */
  function PhaseAfter(ev: Event): Phase {
    match ev
    case RunExclusive(_) => Queued
    case Start(_) => Running
    case Settle(_, _) => Settled
    case Track(_) => Tracked
    case CleanUp(_) => Cleaned
  }

  function ChainsAfter(s: State, ev: Event): map<Key, CallId>
    requires Enabled(s, ev)
  {
    match ev
    case RunExclusive(key) => s.chains[key := |s.calls|]
    case CleanUp(i) =>
      var key := s.calls[i].key;
      if key in s.chains && s.chains[key] == i then s.chains - {key} else s.chains
    case _ => s.chains
  }

  function Step(s: State, ev: Event): State
    requires Enabled(s, ev)
  {
    if ev.RunExclusive? then
      var prev := if ev.key in s.chains then Some(s.chains[ev.key]) else None;
      State(s.calls + [Call(ev.key, prev, Queued)], ChainsAfter(s, ev))
    else
      State(SetPhase(s.calls, ev.call, PhaseAfter(ev)), ChainsAfter(s, ev))
  }

  /** The events of a run, each enabled where it happens. */
  predicate Legal(s: State, events: seq<Event>)
    decreases |events|
  {
    events == [] || (Enabled(s, events[0]) && Legal(Step(s, events[0]), events[1..]))
  }

  function Run(s: State, events: seq<Event>): State
    requires Legal(s, events)
    decreases |events|
  {
    if events == [] then s else Run(Step(s, events[0]), events[1..])
  }

  // ----- the invariant -----

  /** The Map holds the latest call of each key, not yet cleaned up; a key not in the Map is idle. */
  ghost predicate TailsAreLatest(s: State) {
    && (forall key | key in s.chains ::
          var i := s.chains[key];
          && i < |s.calls| && s.calls[i].key == key && s.calls[i].phase != Cleaned
          && forall j | i < j < |s.calls| :: s.calls[j].key != key)
    && (forall i | 0 <= i < |s.calls| :: s.calls[i].key !in s.chains ==> Done(s.calls[i]))
  }

  /** Each call waits for the call of its key made just before it, or for none when those were all done. */
  ghost predicate PrevIsPredecessor(s: State) {
    forall i | 0 <= i < |s.calls| ::
      match s.calls[i].prev
      case Some(p) =>
        && p < i && s.calls[p].key == s.calls[i].key
        && forall j | p < j < i :: s.calls[j].key != s.calls[i].key
      case None => forall j | 0 <= j < i && s.calls[j].key == s.calls[i].key :: Done(s.calls[j])
  }

  /** A call has left the queue only if every earlier call of its key is done. */
  ghost predicate InOrder(s: State) {
    forall i, j | 0 <= i < j < |s.calls| && s.calls[i].key == s.calls[j].key ::
      s.calls[j].phase != Queued ==> Done(s.calls[i])
  }

  ghost predicate Valid(s: State) {
    TailsAreLatest(s) && PrevIsPredecessor(s) && InOrder(s)
  }

  lemma EnqueueKeepsPrev(s: State, key: Key)
    requires Valid(s)
    ensures PrevIsPredecessor(Step(s, RunExclusive(key)))
  {
    var calls' := Step(s, RunExclusive(key)).calls;
    forall i | 0 <= i < |calls'|
      ensures match calls'[i].prev
        case Some(p) =>
          && p < i && calls'[p].key == calls'[i].key
          && forall j | p < j < i :: calls'[j].key != calls'[i].key
        case None => forall j | 0 <= j < i && calls'[j].key == calls'[i].key :: Done(calls'[j])
    {
      if i < |s.calls| {
        assert calls'[i] == s.calls[i];
      }
    }
  }

  lemma EnqueueKeepsTails(s: State, key: Key)
    requires Valid(s)
    ensures TailsAreLatest(Step(s, RunExclusive(key)))
  {
  }

  lemma EnqueueValid(s: State, key: Key)
    requires Valid(s)
    ensures Valid(Step(s, RunExclusive(key)))
  {
    EnqueueKeepsPrev(s, key);
    EnqueueKeepsTails(s, key);
  }

  /** The earlier calls of a key are done once its predecessor is. */
  lemma PredecessorDone(s: State, i: CallId)
    requires Valid(s) && Enabled(s, Start(i))
    ensures forall j | 0 <= j < i && s.calls[j].key == s.calls[i].key :: Done(s.calls[j])
  {
    var prev := s.calls[i].prev;
    forall j | 0 <= j < i && s.calls[j].key == s.calls[i].key ensures Done(s.calls[j]) {
      if prev.Some? && j != prev.value {
        assert j < prev.value;
        EarlierDone(s, j, prev.value);
      }
    }
  }

  lemma EarlierDone(s: State, i: CallId, j: CallId)
    requires InOrder(s) && i < j < |s.calls| && s.calls[i].key == s.calls[j].key && s.calls[j].phase != Queued
    ensures Done(s.calls[i])
  {
  }

  /** What a call's own event leaves alone. */
  ghost predicate SameCalls(calls: seq<Call>, calls': seq<Call>) {
    && |calls'| == |calls|
    && forall i | 0 <= i < |calls| ::
         calls'[i].key == calls[i].key && calls'[i].prev == calls[i].prev && (Done(calls[i]) ==> Done(calls'[i]))
  }

  lemma SameCallsKeepPrev(s: State, s': State)
    requires PrevIsPredecessor(s) && SameCalls(s.calls, s'.calls)
    ensures PrevIsPredecessor(s')
  {
    forall i | 0 <= i < |s'.calls|
      ensures match s'.calls[i].prev
        case Some(p) =>
          && p < i && s'.calls[p].key == s'.calls[i].key
          && forall j | p < j < i :: s'.calls[j].key != s'.calls[i].key
        case None => forall j | 0 <= j < i && s'.calls[j].key == s'.calls[i].key :: Done(s'.calls[j])
    {
      assert s'.calls[i].prev == s.calls[i].prev;
    }
  }

  lemma OwnStepKeepsInOrder(s: State, ev: Event)
    requires InOrder(s) && Enabled(s, ev) && !ev.RunExclusive?
    requires ev.Start? ==> forall j | 0 <= j < ev.call && s.calls[j].key == s.calls[ev.call].key :: Done(s.calls[j])
    ensures InOrder(Step(s, ev))
  {
    var calls, calls' := s.calls, Step(s, ev).calls;
    forall i, j | 0 <= i < j < |calls| && calls[i].key == calls[j].key && calls'[j].phase != Queued
      ensures Done(calls'[i])
    {
      if !(ev.Start? && j == ev.call) {
        EarlierDone(s, i, j);
      }
    }
  }

  lemma OwnStepKeepsOrder(s: State, ev: Event)
    requires Valid(s) && Enabled(s, ev) && !ev.RunExclusive?
    ensures PrevIsPredecessor(Step(s, ev)) && InOrder(Step(s, ev))
  {
    assert SameCalls(s.calls, Step(s, ev).calls);
    SameCallsKeepPrev(s, Step(s, ev));
    if ev.Start? {
      PredecessorDone(s, ev.call);
    }
    OwnStepKeepsInOrder(s, ev);
  }

  lemma AdvanceValid(s: State, ev: Event)
    requires Valid(s) && Enabled(s, ev) && (ev.Start? || ev.Settle? || ev.Track?)
    ensures Valid(Step(s, ev))
  {
    OwnStepKeepsOrder(s, ev);
    AdvanceKeepsTails(s, ev);
  }

  lemma AdvanceKeepsTails(s: State, ev: Event)
    requires TailsAreLatest(s) && Enabled(s, ev) && (ev.Start? || ev.Settle? || ev.Track?)
    ensures TailsAreLatest(Step(s, ev))
  {
    assert SameCalls(s.calls, Step(s, ev).calls);
    assert Step(s, ev).chains == s.chains;
  }

  lemma CleanUpValid(s: State, i: CallId)
    requires Valid(s) && Enabled(s, CleanUp(i))
    ensures Valid(Step(s, CleanUp(i)))
  {
    OwnStepKeepsOrder(s, CleanUp(i));
    var s' := Step(s, CleanUp(i));
    var key := s.calls[i].key;
    if key in s.chains && s.chains[key] == i {
      forall j | 0 <= j < |s'.calls| && s'.calls[j].key == key ensures Done(s'.calls[j]) {
        if j < i {
          assert s.calls[i].phase != Queued;
        }
      }
    }
  }

  lemma StepValid(s: State, ev: Event)
    requires Valid(s) && Enabled(s, ev)
    ensures Valid(Step(s, ev))
  {
    match ev
    case RunExclusive(key) => EnqueueValid(s, key);
    case Start(_) => AdvanceValid(s, ev);
    case Settle(_, _) => AdvanceValid(s, ev);
    case Track(_) => AdvanceValid(s, ev);
    case CleanUp(i) => CleanUpValid(s, i);
  }

  lemma {:induction false} RunValid(s: State, events: seq<Event>)
    requires Valid(s) && Legal(s, events)
    ensures Valid(Run(s, events))
    decreases |events|
  {
    if events != [] {
      StepValid(s, events[0]);
      RunValid(Step(s, events[0]), events[1..]);
    }
  }

  // ----- safety over every run -----

  /** At most one `fn` per key is running, whatever the interleaving. */
  lemma MutualExclusion(events: seq<Event>, i: CallId, j: CallId)
    requires Legal(IDLE, events)
    requires var s := Run(IDLE, events);
      i < |s.calls| && j < |s.calls| && s.calls[i].key == s.calls[j].key
      && s.calls[i].phase == Running && s.calls[j].phase == Running
    ensures i == j
  {
    RunValid(IDLE, events);
    RunningOnce(Run(IDLE, events), i, j);
  }

  lemma RunningOnce(s: State, i: CallId, j: CallId)
    requires Valid(s) && i < |s.calls| && j < |s.calls| && s.calls[i].key == s.calls[j].key
    requires s.calls[i].phase == Running && s.calls[j].phase == Running
    ensures i == j
  {
  }

  /** First in, first out: when a call's `fn` starts, every earlier call of its key has settled and later ones still wait. */
  lemma StartsInCallOrder(events: seq<Event>, i: CallId)
    requires Legal(IDLE, events) && Enabled(Run(IDLE, events), Start(i))
    ensures var s := Run(IDLE, events);
      forall j | 0 <= j < |s.calls| && j != i && s.calls[j].key == s.calls[i].key ::
        if j < i then Done(s.calls[j]) else s.calls[j].phase == Queued
  {
    RunValid(IDLE, events);
    PredecessorDone(Run(IDLE, events), i);
  }

  /** A cleanup removes its key only when the key has no later caller and none of its calls is unsettled. */
  lemma CleanUpSparesLaterCallers(events: seq<Event>, i: CallId, key: Key)
    requires Legal(IDLE, events) && Enabled(Run(IDLE, events), CleanUp(i))
    requires key in Run(IDLE, events).chains
    ensures var s := Run(IDLE, events); var s' := Step(s, CleanUp(i));
      key !in s'.chains <==> key == s.calls[i].key && forall j | i < j < |s.calls| :: s.calls[j].key != key
    ensures var s := Run(IDLE, events); var s' := Step(s, CleanUp(i));
      if key in s'.chains then s'.chains[key] == s.chains[key]
      else forall j | 0 <= j < |s.calls| && s.calls[j].key == key :: Done(s'.calls[j])
  {
    var s := Run(IDLE, events);
    RunValid(IDLE, events);
    CleanUpValid(s, i);
  }

  // ----- different keys never block each other -----

  function KeyOf(s: State, ev: Event): Key
    requires ev.RunExclusive? || ev.call < |s.calls|
  {
    if ev.RunExclusive? then ev.key else s.calls[ev.call].key
  }

  /**
   An event of one key neither enables nor disables an event of another, and unless both are
   new calls, which are numbered as they come, their order does not matter.
   */
  lemma KeysAreIndependent(s: State, mine: Event, other: Event)
    requires Valid(s) && Enabled(s, mine)
    requires other.RunExclusive? || other.call < |s.calls|
    requires KeyOf(s, other) != KeyOf(s, mine)
    ensures Enabled(Step(s, mine), other) <==> Enabled(s, other)
    ensures Enabled(s, other) && !(mine.RunExclusive? && other.RunExclusive?) ==>
      && Enabled(Step(s, other), mine)
      && Step(Step(s, mine), other) == Step(Step(s, other), mine)
  {
    EnabledByOwnKey(s, mine, other);
    if Enabled(s, other) && !(mine.RunExclusive? && other.RunExclusive?) {
      EnabledByOwnKey(s, other, mine);
      Commute(s, mine, other);
    }
  }

  lemma EnabledByOwnKey(s: State, mine: Event, other: Event)
    requires Valid(s) && Enabled(s, mine)
    requires other.RunExclusive? || other.call < |s.calls|
    requires KeyOf(s, other) != KeyOf(s, mine)
    ensures Enabled(Step(s, mine), other) <==> Enabled(s, other)
  {
    var s' := Step(s, mine);
    forall i | 0 <= i < |s.calls| && s.calls[i].key != KeyOf(s, mine) ensures s'.calls[i] == s.calls[i] {
    }
  }

  lemma Commute(s: State, a: Event, b: Event)
    requires Valid(s) && Enabled(s, a) && Enabled(s, b) && KeyOf(s, a) != KeyOf(s, b)
    requires !(a.RunExclusive? && b.RunExclusive?)
    requires Enabled(Step(s, a), b) && Enabled(Step(s, b), a)
    ensures Step(Step(s, a), b) == Step(Step(s, b), a)
  {
    if a.RunExclusive? {
      CommuteNewCall(s, a.key, b);
    } else if b.RunExclusive? {
      CommuteNewCall(s, b.key, a);
    } else {
      CommuteOwnSteps(s, a, b);
    }
  }

  lemma CommuteOwnSteps(s: State, a: Event, b: Event)
    requires Enabled(s, a) && Enabled(s, b) && !a.RunExclusive? && !b.RunExclusive?
    requires KeyOf(s, a) != KeyOf(s, b)
    requires Enabled(Step(s, a), b) && Enabled(Step(s, b), a)
    ensures Step(Step(s, a), b) == Step(Step(s, b), a)
  {
    var ab, ba := Step(Step(s, a), b), Step(Step(s, b), a);
    assert ab.calls == ba.calls;
    assert s.chains - {KeyOf(s, a)} - {KeyOf(s, b)} == s.chains - {KeyOf(s, b)} - {KeyOf(s, a)};
  }

  lemma CommuteNewCall(s: State, key: Key, b: Event)
    requires Valid(s) && Enabled(s, b) && !b.RunExclusive? && KeyOf(s, b) != key
    requires Enabled(Step(s, RunExclusive(key)), b)
    ensures Step(Step(s, RunExclusive(key)), b) == Step(Step(s, b), RunExclusive(key))
  {
    var n := Step(s, RunExclusive(key));
    var m := Step(s, b);
    var call := Call(key, if key in s.chains then Some(s.chains[key]) else None, Queued);
    assert n.calls == s.calls + [call];
    SetPhaseBelow(s.calls, call, b.call, PhaseAfter(b));
    ChainsBelow(s, key, b);
    assert Step(m, RunExclusive(key)).calls == m.calls + [call];
  }

  lemma SetPhaseBelow(calls: seq<Call>, call: Call, i: CallId, phase: Phase)
    requires i < |calls|
    ensures SetPhase(calls + [call], i, phase) == SetPhase(calls, i, phase) + [call]
  {
  }

  lemma ChainsBelow(s: State, key: Key, b: Event)
    requires Valid(s) && Enabled(s, b) && !b.RunExclusive? && KeyOf(s, b) != key
    requires Enabled(Step(s, RunExclusive(key)), b)
    ensures ChainsAfter(Step(s, RunExclusive(key)), b) == ChainsAfter(s, b)[key := |s.calls|]
    ensures Lookup(ChainsAfter(s, b), key) == Lookup(s.chains, key)
  {
    var own := KeyOf(s, b);
    assert s.chains[key := |s.calls|] - {own} == (s.chains - {own})[key := |s.calls|];
  }

  function Lookup(chains: map<Key, CallId>, key: Key): Option<CallId> {
    if key in chains then Some(chains[key]) else None
  }

  // ----- liveness -----

  function Remaining(phase: Phase): nat {
    match phase
    case Queued => 4
    case Running => 3
    case Settled => 2
    case Tracked => 1
    case Cleaned => 0
  }

  /** Counting over one key, or over all of them. */
  predicate Counts(only: Option<Key>, c: Call) {
    only.None? || c.key == only.value
  }

  /** The number of microtasks and settlements still to come for the counted calls made so far. */
  function Outstanding(calls: seq<Call>, only: Option<Key>): nat {
    if calls == [] then 0
    else
      var n := |calls| - 1;
      Outstanding(calls[..n], only) + if Counts(only, calls[n]) then Remaining(calls[n].phase) else 0
  }

  /** `ev` is a step of a counted call already made. */
  predicate Mine(s: State, ev: Event, only: Option<Key>) {
    !ev.RunExclusive? && ev.call < |s.calls| && Counts(only, s.calls[ev.call])
  }

  function OwnSteps(s: State, events: seq<Event>, only: Option<Key>): nat
    requires Legal(s, events)
    decreases |events|
  {
    if events == [] then 0
    else (if Mine(s, events[0], only) then 1 else 0) + OwnSteps(Step(s, events[0]), events[1..], only)
  }

  lemma {:induction false} OutstandingUpdate(calls: seq<Call>, i: CallId, phase: Phase, only: Option<Key>)
    requires i < |calls|
    ensures Outstanding(SetPhase(calls, i, phase), only) == Outstanding(calls, only) +
      if Counts(only, calls[i]) then Remaining(phase) - Remaining(calls[i].phase) else 0
  {
    var calls' := SetPhase(calls, i, phase);
    var n := |calls| - 1;
    if i == n {
      assert calls'[..n] == calls[..n];
    } else {
      assert calls'[..n] == SetPhase(calls[..n], i, phase);
      OutstandingUpdate(calls[..n], i, phase, only);
    }
  }

  lemma StepCounts(s: State, ev: Event, only: Option<Key>)
    requires Enabled(s, ev) && (ev.RunExclusive? ==> only.Some? && ev.key != only.value)
    ensures Outstanding(Step(s, ev).calls, only) == Outstanding(s.calls, only) - if Mine(s, ev, only) then 1 else 0
  {
    match ev
    case RunExclusive(key) => assert Step(s, ev).calls[..|s.calls|] == s.calls;
    case Start(i) => OutstandingUpdate(s.calls, i, Running, only);
    case Settle(i, _) => OutstandingUpdate(s.calls, i, Settled, only);
    case Track(i) => OutstandingUpdate(s.calls, i, Tracked, only);
    case CleanUp(i) => OutstandingUpdate(s.calls, i, Cleaned, only);
  }

  /** Nothing is stuck: unless a call is cleaned up, some step of a call of its own key is enabled. */
  lemma {:induction false} Progress(s: State, i: CallId) returns (ev: Event)
    requires Valid(s) && i < |s.calls| && s.calls[i].phase != Cleaned
    ensures !ev.RunExclusive? && Enabled(s, ev)
    ensures ev.call < |s.calls| && s.calls[ev.call].key == s.calls[i].key
    decreases i
  {
    match s.calls[i].phase
    case Queued =>
      if s.calls[i].prev.Some? && !Done(s.calls[s.calls[i].prev.value]) {
        ev := Progress(s, s.calls[i].prev.value);
      } else {
        ev := Start(i);
      }
    case Running => ev := Settle(i, false);
    case Settled => ev := Track(i);
    case Tracked => ev := CleanUp(i);
  }

  lemma {:induction false} SomethingOutstanding(calls: seq<Call>, only: Option<Key>)
    ensures Outstanding(calls, only) == 0 <==>
      forall i | 0 <= i < |calls| && Counts(only, calls[i]) :: calls[i].phase == Cleaned
  {
    if calls != [] {
      var n := |calls| - 1;
      SomethingOutstanding(calls[..n], only);
      assert forall i | 0 <= i < n :: calls[..n][i] == calls[i];
      assert Outstanding(calls, only) == 0 <==>
        Outstanding(calls[..n], only) == 0 && (Counts(only, calls[n]) ==> calls[n].phase == Cleaned);
    }
  }

  /** No further call of a counted key. */
  ghost predicate NoNewCalls(events: seq<Event>, only: Option<Key>) {
    forall i | 0 <= i < |events| && events[i].RunExclusive? :: only.Some? && events[i].key != only.value
  }

  lemma {:induction false} RunCounts(s: State, events: seq<Event>, only: Option<Key>)
    requires Legal(s, events) && NoNewCalls(events, only)
    ensures Outstanding(Run(s, events).calls, only) == Outstanding(s.calls, only) - OwnSteps(s, events, only)
    decreases |events|
  {
    if events != [] {
      StepCounts(s, events[0], only);
      forall i | 0 <= i < |events[1..]| && events[1..][i].RunExclusive?
        ensures only.Some? && events[1..][i].key != only.value
      {
        assert events[1..][i] == events[i + 1];
      }
      RunCounts(Step(s, events[0]), events[1..], only);
    }
  }

  lemma NothingOutstanding(s: State, only: Option<Key>)
    requires Valid(s)
    ensures Outstanding(s.calls, only) == 0 ==> forall key | key in s.chains :: only.Some? && key != only.value
    ensures Outstanding(s.calls, only) > 0 <==> exists ev: Event :: Mine(s, ev, only) && Enabled(s, ev)
  {
    SomethingOutstanding(s.calls, only);
    if Outstanding(s.calls, only) > 0 {
      var i :| 0 <= i < |s.calls| && Counts(only, s.calls[i]) && s.calls[i].phase != Cleaned;
      var ev := Progress(s, i);
    }
  }

  /**
   Liveness of one key, whatever the others do. Once no further call of `key` arrives, any
   events of other keys may go on for ever, new calls and never-settling `fn`s included:
   the calls of `key` have a fixed number of steps left; as long as one is left, one is
   enabled; and when all are made, every call of `key` has run and `key` is out of the Map.
   */
  lemma KeyDrains(before: seq<Event>, after: seq<Event>, key: Key)
    requires Legal(IDLE, before) && Legal(Run(IDLE, before), after) && NoNewCalls(after, Some(key))
    ensures var s := Run(IDLE, before); var s' := Run(s, after);
      var left, made := Outstanding(s.calls, Some(key)), OwnSteps(s, after, Some(key));
      && made <= left
      && (made < left <==> exists ev: Event :: Mine(s', ev, Some(key)) && Enabled(s', ev))
      && (made == left ==>
            key !in s'.chains && forall i | 0 <= i < |s'.calls| && s'.calls[i].key == key :: s'.calls[i].phase == Cleaned)
  {
    var s := Run(IDLE, before);
    RunValid(IDLE, before);
    RunValid(s, after);
    RunCounts(s, after, Some(key));
    SomethingOutstanding(Run(s, after).calls, Some(key));
    NothingOutstanding(Run(s, after), Some(key));
  }

  lemma {:induction false} AllStepsAreOwn(s: State, events: seq<Event>)
    requires Legal(s, events) && NoNewCalls(events, None)
    ensures OwnSteps(s, events, None) == |events|
    decreases |events|
  {
    if events != [] {
      forall i | 0 <= i < |events[1..]| ensures !events[1..][i].RunExclusive? {
        assert events[1..][i] == events[i + 1];
      }
      AllStepsAreOwn(Step(s, events[0]), events[1..]);
    }
  }

  /**
   Liveness. Whatever happened before, once no further call arrives: every schedule has at
   most `Outstanding` steps left, it can always be continued until exactly that many have
   happened, and then every call has run and been cleaned up and the Map is empty.
   */
  lemma QueueDrains(before: seq<Event>, after: seq<Event>)
    requires Legal(IDLE, before) && Legal(Run(IDLE, before), after) && NoNewCalls(after, None)
    ensures var s := Run(IDLE, before); var s' := Run(s, after);
      var left := Outstanding(s.calls, None);
      && |after| <= left
      && (|after| < left <==> exists ev: Event :: !ev.RunExclusive? && Enabled(s', ev))
      && (|after| == left ==>
            s'.chains == map[] && forall i | 0 <= i < |s'.calls| :: s'.calls[i].phase == Cleaned)
  {
    var s := Run(IDLE, before);
    var s' := Run(s, after);
    RunValid(IDLE, before);
    RunValid(s, after);
    RunCounts(s, after, None);
    AllStepsAreOwn(s, after);
    SomethingOutstanding(s'.calls, None);
    NothingOutstanding(s', None);
    forall ev: Event ensures !ev.RunExclusive? && Enabled(s', ev) ==> Mine(s', ev, None) {
    }
  }

  // ----- the mutex object -----

  class Mutex {
    var chains: map<Key, CallId>
    var calls: seq<Call>

    constructor ()
      ensures View() == IDLE
    {
      chains := map[];
      calls := [];
    }

    function View(): State
      reads this
    {
      State(calls, chains)
    }

    /** The synchronous part of `runExclusive`; the result names the promise handed to the caller. */
    method RunExclusive(key: Key) returns (run: CallId)
      requires Valid(View())
      modifies this
      ensures Valid(View())
      ensures View() == Step(old(View()), Event.RunExclusive(key)) && run == |old(calls)|
    {
      StepValid(View(), Event.RunExclusive(key));
      var prev := if key in chains then Some(chains[key]) else None;
      run := |calls|;
      calls := calls + [Call(key, prev, Queued)];
      chains := chains[key := run];
    }

    /** `fn` starts, `fn` settles, or the `catch` copy is fulfilled. */
    method Advance(ev: Event)
      requires Valid(View()) && Enabled(View(), ev) && (ev.Start? || ev.Settle? || ev.Track?)
      modifies this`calls
      ensures Valid(View())
      ensures View() == Step(old(View()), ev)
    {
      StepValid(View(), ev);
      match ev
      case Start(i) => calls := SetPhase(calls, i, Running);
      case Settle(i, _) => calls := SetPhase(calls, i, Settled);
      case Track(i) => calls := SetPhase(calls, i, Tracked);
    }

    /** The cleanup microtask: delete the key if it still holds this call's promise. */
    method CleanUp(call: CallId)
      requires Valid(View()) && Enabled(View(), Event.CleanUp(call))
      modifies this
      ensures Valid(View())
      ensures View() == Step(old(View()), Event.CleanUp(call))
    {
      StepValid(View(), Event.CleanUp(call));
      var key := calls[call].key;
      if key in chains && chains[key] == call {
        chains := chains - {key};
      }
      calls := SetPhase(calls, call, Cleaned);
    }
  }
}
