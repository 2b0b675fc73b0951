/**
 The lag-tolerant check of an exchange's on-chain state, and the post-commit action
 handler built on it.
 */
module ExchangeVerification {
  import opened NextActions
  import opened Sequences
  import opened StateMachine
  import opened Wrappers

  datatype Snapshot = Snapshot(state: ExchangeState, disputeState: Option<DisputeState>,
                               seller: string, exchangeToken: string, price: string)

  datatype Expected = Expected(state: ExchangeState, disputeState: Option<DisputeState>,
                               seller: string, exchangeToken: string, price: string)

  datatype Code =
    | EXCHANGE_NOT_FOUND
    | STATE_MISMATCH
    | DISPUTE_STATE_MISMATCH
    | SELLER_MISMATCH
    | TOKEN_MISMATCH
    | PRICE_MISMATCH

  datatype Verdict = Verified | Mismatch(code: Code)

  function VerifySnapshot(read: Option<Snapshot>, expected: Expected): Verdict {
    if read.None? then Mismatch(EXCHANGE_NOT_FOUND)
    else
      var snapshot := read.value;
      if snapshot.state != expected.state then Mismatch(STATE_MISMATCH)
      else if expected.state.DISPUTED? && snapshot.disputeState != expected.disputeState then
        Mismatch(DISPUTE_STATE_MISMATCH)
      else if Lower(snapshot.seller) != Lower(expected.seller) then Mismatch(SELLER_MISMATCH)
      else if Lower(snapshot.exchangeToken) != Lower(expected.exchangeToken) then Mismatch(TOKEN_MISMATCH)
      else if snapshot.price != expected.price then Mismatch(PRICE_MISMATCH)
      else Verified
  }

  predicate Retryable(v: Verdict) {
    v.Mismatch? && (v.code.EXCHANGE_NOT_FOUND? || v.code.STATE_MISMATCH? || v.code.DISPUTE_STATE_MISMATCH?)
  }

  /** The exchange stands where it should. */
  predicate InPlace(read: Option<Snapshot>, expected: Expected) {
    && read.Some? && read.value.state == expected.state
    && (expected.state.DISPUTED? ==> read.value.disputeState == expected.disputeState)
  }

  /** And on the agreed terms; addresses compare without case, prices exactly. */
  predicate OnTerms(snapshot: Snapshot, expected: Expected) {
    && Lower(snapshot.seller) == Lower(expected.seller)
    && Lower(snapshot.exchangeToken) == Lower(expected.exchangeToken)
    && snapshot.price == expected.price
  }

  /** Only lag is retried: a mismatch in the terms is final as soon as the exchange is in place. */
  lemma VerdictExactly(read: Option<Snapshot>, expected: Expected)
    ensures VerifySnapshot(read, expected).Verified? <==> InPlace(read, expected) && OnTerms(read.value, expected)
    ensures Retryable(VerifySnapshot(read, expected)) <==> !InPlace(read, expected)
  {
  }

  /** A mismatch names the first thing that differs, looked at in the order state, dispute, seller, token, price. */
  lemma MismatchNames(read: Option<Snapshot>, expected: Expected)
    ensures
      var sellers := read.Some? && Lower(read.value.seller) == Lower(expected.seller);
      var tokens := read.Some? && Lower(read.value.exchangeToken) == Lower(expected.exchangeToken);
      match VerifySnapshot(read, expected)
      case Verified => true
      case Mismatch(EXCHANGE_NOT_FOUND) => read.None?
      case Mismatch(STATE_MISMATCH) => read.Some? && read.value.state != expected.state
      case Mismatch(DISPUTE_STATE_MISMATCH) =>
        && read.Some? && read.value.state == expected.state == DISPUTED && read.value.disputeState != expected.disputeState
      case Mismatch(SELLER_MISMATCH) => InPlace(read, expected) && !sellers
      case Mismatch(TOKEN_MISMATCH) => InPlace(read, expected) && sellers && !tokens
      case Mismatch(PRICE_MISMATCH) => InPlace(read, expected) && sellers && tokens && read.value.price != expected.price
  {
  }

  /** `Math.max(1, Math.floor(options.attempts ?? 3))`. */
  function Attempts(option: Option<real>): (n: int)
    ensures n >= 1
  {
    var n := if option.Some? then option.value.Floor else 3;
    if n < 1 then 1 else n
  }

  function DelayMs(option: Option<real>): (d: nat) {
    var d := if option.Some? then option.value.Floor else 50;
    if d < 0 then 0 else d
  }

  /** Three reads 50 ms apart unless told otherwise; a fraction counts for nothing, and one read is always made. */
  lemma BoundsMean(n: int, x: real)
    requires n as real <= x < (n + 1) as real
    ensures Attempts(None) == 3 && DelayMs(None) == 50
    ensures Attempts(Some(x)) == if n >= 1 then n else 1
    ensures DelayMs(Some(x)) == if n >= 0 then n else 0
  {
  }

  /** Read `k` is the one whose comparison the loop returns. */
  ghost predicate DecidedBy(reader: nat -> Option<Snapshot>, expected: Expected, n: int, k: nat) {
    && k < n
    && (forall i | 0 <= i < k :: Retryable(VerifySnapshot(reader(i), expected)))
    && (k + 1 < n ==> !Retryable(VerifySnapshot(reader(k), expected)))
  }

  /**
   The retry loop. It returns the comparison of the last of `readsMade` reads; every earlier
   one was retryable, and it stopped early only because that last one is not.
   */
  method VerifyExchange(reader: nat -> Option<Snapshot>, expected: Expected, attempts: Option<real>, delay: Option<real>)
    returns (result: Verdict, readsMade: nat, waited: nat)
    ensures 1 <= readsMade <= Attempts(attempts)
    ensures result == VerifySnapshot(reader(readsMade - 1), expected)
    ensures DecidedBy(reader, expected, Attempts(attempts), readsMade - 1)
    ensures waited == (readsMade - 1) * DelayMs(delay)
  {
    var n, ms := Attempts(attempts), DelayMs(delay);
    result, readsMade, waited := Mismatch(EXCHANGE_NOT_FOUND), 0, 0;
    var attempt := 1;
    while attempt <= n
      invariant 1 <= attempt <= n && readsMade == attempt - 1 && waited == readsMade * ms
      invariant forall i | 0 <= i < readsMade :: Retryable(VerifySnapshot(reader(i), expected))
      decreases n - attempt
    {
      var snapshot := reader(readsMade);
      readsMade := readsMade + 1;
      result := VerifySnapshot(snapshot, expected);
      if result.Verified? || !Retryable(result) || attempt == n {
        return;
      }
      waited := waited + ms;
      attempt := attempt + 1;
    }
  }

  /** What those clauses amount to: lag is tolerated up to the bound, and nothing else is. */
  ghost predicate SettlesWithin(reader: nat -> Option<Snapshot>, expected: Expected, n: int) {
    exists k | 0 <= k < n ::
      && VerifySnapshot(reader(k), expected).Verified?
      && forall i | 0 <= i < k :: Retryable(VerifySnapshot(reader(i), expected))
  }

  lemma VerifiedIff(reader: nat -> Option<Snapshot>, expected: Expected, n: int, k: nat)
    requires DecidedBy(reader, expected, n, k)
    ensures VerifySnapshot(reader(k), expected).Verified? <==> SettlesWithin(reader, expected, n)
  {
    if SettlesWithin(reader, expected, n) {
      var j :| 0 <= j < n && VerifySnapshot(reader(j), expected).Verified?
        && forall i | 0 <= i < j :: Retryable(VerifySnapshot(reader(i), expected));
      assert j >= k;
      if k + 1 < n {
        assert j == k;
      }
    }
  }

  // ----- the post-commit action handler -----

  /** How the facilitator round trip ends. */
  datatype FacilitatorReply = NoAnswer | Rejected | Performed(txHash: string)

  datatype Failure =
    | REFERENCE_NOT_FOUND
    | FACILITATOR_UNREACHABLE
    | FACILITATOR_REJECTED
    | STATE_VERIFY(code: Code)
    | EMISSION_THREW

  /** `Answered` is a 200, every `Refused` one a 502 except the last, which is an exception. */
  datatype Response =
    | Answered(txHash: string, state: State, nextActions: Envelope)
    | Refused(failure: Failure)

  function ExpectedAfter(action: ActionId, reference: Snapshot): Expected
    requires !IsEntityKeyed(action)
  {
    var post := PostState(action);
    Expected(post.exchange, post.dispute, reference.seller, reference.exchangeToken, reference.price)
  }

  /** The reads that follow the reference read. */
  function Later(reader: nat -> Option<Snapshot>): nat -> Option<Snapshot> {
    (i: nat) => reader(i + 1)
  }

  // ----- with a lagging reader, over a whole run -----

  function SnapshotOf(s: State, terms: Snapshot): Snapshot
    requires s.At?
  {
    terms.(state := s.exchange, disputeState := s.dispute)
  }

  /** A state the run was in at some point. */
  ghost predicate WasReached(s: State, moves: seq<Move>) {
    exists j :: 0 <= j <= |moves| && Final(PreCommit, moves[..j]) == s
  }

  /**
   Every read comes back empty or shows some state the exchange went through, however
   old, with the exchange's fixed seller, token and price.
   */
  ghost predicate Lagging(reader: nat -> Option<Snapshot>, moves: seq<Move>, terms: Snapshot) {
    forall i: nat | reader(i).Some? ::
      exists j :: 0 <= j <= |moves| && Final(PreCommit, moves[..j]).At?
        && reader(i).value == SnapshotOf(Final(PreCommit, moves[..j]), terms)
  }

  lemma VerifiedMeansReached(action: ActionId, read: Option<Snapshot>, reference: Snapshot, s: State, terms: Snapshot)
    requires !IsEntityKeyed(action) && WellFormed(s) && s.At?
    requires read == Some(SnapshotOf(s, terms)) && VerifySnapshot(read, ExpectedAfter(action, reference)).Verified?
    ensures s == PostState(action)
  {
  }

  lemma PrefixWellFormed(moves: seq<Move>, j: nat)
    requires LegalRun(PreCommit, moves) && j <= |moves|
    ensures WellFormed(Final(PreCommit, moves[..j]))
  {
    assert moves == moves[..j] + moves[j..];
    RunSplits(PreCommit, moves[..j], moves[j..]);
  }

  /** A 200 that tells the truth about a run: a state it went through, and exactly the client's moves from there. */
  ghost predicate Truthful(r: Response, moves: seq<Move>) {
    r.Answered? && WellFormed(r.state) && WasReached(r.state, moves) && ListsLegal(r.state, r.nextActions.next)
  }

  /**
   With any interleaving of buyer and seller moves behind it and a reader that may lag, a
   200 given on a read that verified is truthful.
   */
  lemma AnswersAreTrue(moves: seq<Move>, terms: Snapshot, reader: nat -> Option<Snapshot>, action: ActionId,
                       registry: Registry, url: string, k: nat, r: Response)
    requires LegalRun(PreCommit, moves) && Lagging(reader, moves, terms)
    requires !IsEntityKeyed(action) && reader(0).Some?
    requires VerifySnapshot(reader(k), ExpectedAfter(action, reader(0).value)).Verified?
    requires r.Answered? && r.state == PostState(action)
    requires EmitNextActions(PostState(action), registry, Some(url)) == Ok(r.nextActions)
    ensures Truthful(r, moves)
  {
    assert reader(k).Some?;
    var j :| 0 <= j <= |moves| && Final(PreCommit, moves[..j]).At?
      && reader(k).value == SnapshotOf(Final(PreCommit, moves[..j]), terms);
    PrefixWellFormed(moves, j);
    VerifiedMeansReached(action, reader(k), reader(0).value, Final(PreCommit, moves[..j]), terms);
    EmissionIsSound(PostState(action), registry, Some(url));
  }

  lemma EmissionIsSoundHere(action: ActionId, registry: Registry, url: string)
    requires !IsEntityKeyed(action)
    ensures |registry.escrow| > 0 ==> EmitNextActions(PostState(action), registry, Some(url)).Ok?
  {
    if |registry.escrow| > 0 {
      EmissionIsSound(PostState(action), registry, Some(url));
    }
  }

  // ----- the handler -----

  /**
   Read 0 is the reference; the verification makes up to three more. Every outcome has its
   exact condition, and behind any run of the exchange that the reader may lag behind every
   200 is truthful.
   */
  method HandlePerformAction(action: ActionId, reader: nat -> Option<Snapshot>, reply: FacilitatorReply,
                             registry: Registry, facilitatorUrl: string)
    returns (r: Response)
    requires !IsEntityKeyed(action)
    ensures r == Refused(REFERENCE_NOT_FOUND) <==> reader(0).None?
    ensures r == Refused(FACILITATOR_UNREACHABLE) <==> reader(0).Some? && reply.NoAnswer?
    ensures r == Refused(FACILITATOR_REJECTED) <==> reader(0).Some? && reply.Rejected?
    ensures r.Refused? && r.failure.STATE_VERIFY? <==>
      && reader(0).Some? && reply.Performed?
      && !SettlesWithin(Later(reader), ExpectedAfter(action, reader(0).value), 3)
    ensures r.Refused? && r.failure.STATE_VERIFY? ==>
      exists k | 0 <= k < 3 ::
        && DecidedBy(Later(reader), ExpectedAfter(action, reader(0).value), 3, k)
        && VerifySnapshot(Later(reader)(k), ExpectedAfter(action, reader(0).value)) == Mismatch(r.failure.code)
    ensures r == Refused(EMISSION_THREW) <==>
      && reader(0).Some? && reply.Performed?
      && SettlesWithin(Later(reader), ExpectedAfter(action, reader(0).value), 3)
      && EmitNextActions(PostState(action), registry, Some(facilitatorUrl)).Err?
    ensures r.Answered? ==>
      && reply == Performed(r.txHash) && r.state == PostState(action)
      && EmitNextActions(PostState(action), registry, Some(facilitatorUrl)) == Ok(r.nextActions)
    ensures |registry.escrow| > 0 ==> r != Refused(EMISSION_THREW)
    ensures r.Answered? ==>
      forall moves, terms | LegalRun(PreCommit, moves) && Lagging(reader, moves, terms) :: Truthful(r, moves)
  {
    var reference := reader(0);
    if reference.None? {
      return Refused(REFERENCE_NOT_FOUND);
    }
    if reply.NoAnswer? {
      return Refused(FACILITATOR_UNREACHABLE);
    }
    if reply.Rejected? {
      return Refused(FACILITATOR_REJECTED);
    }
    var expected := ExpectedAfter(action, reference.value);
    var later := Later(reader);
    var result, readsMade, _ := VerifyExchange(later, expected, None, None);
    VerifiedIff(later, expected, 3, readsMade - 1);
    if result.Mismatch? {
      return Refused(STATE_VERIFY(result.code));
    }
    assert later(readsMade - 1) == reader(readsMade);
    EmissionIsSoundHere(action, registry, facilitatorUrl);
    var nextActions := EmitNextActions(PostState(action), registry, Some(facilitatorUrl));
    if nextActions.Err? {
      return Refused(EMISSION_THREW);
    }
    r := Answered(reply.txHash, PostState(action), nextActions.value);
    forall moves, terms | LegalRun(PreCommit, moves) && Lagging(reader, moves, terms) ensures Truthful(r, moves) {
      AnswersAreTrue(moves, terms, reader, action, registry, facilitatorUrl, readsMade, r);
    }
  }

  // ----- lag is tolerated -----

  /** A lagging read either verifies or is retried, and one that shows the post-state verifies. */
  lemma LagIsRetried(moves: seq<Move>, terms: Snapshot, reader: nat -> Option<Snapshot>, action: ActionId, i: nat)
    requires Lagging(reader, moves, terms) && !IsEntityKeyed(action) && reader(0).Some?
    ensures var v := VerifySnapshot(reader(i), ExpectedAfter(action, reader(0).value));
      && (v.Verified? || Retryable(v))
      && (reader(i) == Some(SnapshotOf(PostState(action), terms)) ==> v.Verified?)
  {
    VerdictExactly(reader(i), ExpectedAfter(action, reader(0).value));
    LaggingTerms(moves, terms, reader, 0);
    LaggingTerms(moves, terms, reader, i);
  }

  lemma LaggingTerms(moves: seq<Move>, terms: Snapshot, reader: nat -> Option<Snapshot>, i: nat)
    requires Lagging(reader, moves, terms)
    ensures reader(i).Some? ==> SameTerms(reader(i).value, terms)
  {
    if reader(i).Some? {
      var j :| 0 <= j <= |moves| && Final(PreCommit, moves[..j]).At?
        && reader(i).value == SnapshotOf(Final(PreCommit, moves[..j]), terms);
    }
  }

  /**
   Lag alone never turns a performed action into an error: if nothing moved the exchange
   past the post-state and one of the three reads shows it, the handler's check settles.
   */
  lemma LagIsTolerated(moves: seq<Move>, terms: Snapshot, reader: nat -> Option<Snapshot>, action: ActionId, k: nat)
    requires LegalRun(PreCommit, moves) && Lagging(reader, moves, terms)
    requires !IsEntityKeyed(action) && reader(0).Some?
    requires 1 <= k <= 3 && reader(k) == Some(SnapshotOf(PostState(action), terms))
    ensures SettlesWithin(Later(reader), ExpectedAfter(action, reader(0).value), 3)
  {
    var later := Later(reader);
    var expected := ExpectedAfter(action, reader(0).value);
    var first := 1;
    LagIsRetried(moves, terms, reader, action, k);
    while !VerifySnapshot(reader(first), expected).Verified?
      invariant 1 <= first <= k
      invariant forall i | 1 <= i < first :: Retryable(VerifySnapshot(reader(i), expected))
      decreases k - first
    {
      LagIsRetried(moves, terms, reader, action, first);
      first := first + 1;
    }
    assert later(first - 1) == reader(first);
    assert forall i | 0 <= i < first - 1 :: later(i) == reader(i + 1);
  }

  predicate SameTerms(a: Snapshot, b: Snapshot) {
    a.seller == b.seller && a.exchangeToken == b.exchangeToken && a.price == b.price
  }
}
