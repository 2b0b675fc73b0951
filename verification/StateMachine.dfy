/**
 The exchange and dispute state machine: the tables of legal actions per side, the
 post-state of every action, and what they imply for whole runs in which buyer and
 seller move in any order.
 */
module StateMachine {
  import opened Wrappers

  datatype ExchangeState = COMMITTED | REDEEMED | DISPUTED | CANCELLED | COMPLETED | REVOKED

  datatype DisputeState = RESOLVING | RESOLVED | ESCALATED | RETRACTED | DECIDED | REFUSED

  datatype ActionId =
    | CreateOfferAndCommit
    | CreateOfferCommitAndRedeem
    | Redeem
    | CancelVoucher
    | RevokeVoucher
    | CompleteExchange
    | RaiseDispute
    | ResolveDispute
    | EscalateDispute
    | RetractDispute
    | WithdrawFunds

  /** The wire form of an action id. */
  function Name(action: ActionId): string {
    match action
    case CreateOfferAndCommit => "boson-createOfferAndCommit"
    case CreateOfferCommitAndRedeem => "boson-createOfferCommitAndRedeem"
    case Redeem => "boson-redeem"
    case CancelVoucher => "boson-cancelVoucher"
    case RevokeVoucher => "boson-revokeVoucher"
    case CompleteExchange => "boson-completeExchange"
    case RaiseDispute => "boson-raiseDispute"
    case ResolveDispute => "boson-resolveDispute"
    case EscalateDispute => "boson-escalateDispute"
    case RetractDispute => "boson-retractDispute"
    case WithdrawFunds => "boson-withdrawFunds"
  }

  /** The ids of the protocol, each its own. */
  lemma NamesOnTheWire(a: ActionId, b: ActionId)
    ensures Name(a) == Name(b) ==> a == b
    ensures Name(CreateOfferAndCommit) == "boson-createOfferAndCommit"
    ensures Name(CreateOfferCommitAndRedeem) == "boson-createOfferCommitAndRedeem"
    ensures Name(Redeem) == "boson-redeem"
    ensures Name(CancelVoucher) == "boson-cancelVoucher"
    ensures Name(RevokeVoucher) == "boson-revokeVoucher"
    ensures Name(CompleteExchange) == "boson-completeExchange"
    ensures Name(RaiseDispute) == "boson-raiseDispute"
    ensures Name(ResolveDispute) == "boson-resolveDispute"
    ensures Name(EscalateDispute) == "boson-escalateDispute"
    ensures Name(RetractDispute) == "boson-retractDispute"
    ensures Name(WithdrawFunds) == "boson-withdrawFunds"
  {
  }

  predicate IsCommitAction(action: ActionId) {
    action.CreateOfferAndCommit? || action.CreateOfferCommitAndRedeem?
  }

  predicate IsEntityKeyed(action: ActionId) {
    action.WithdrawFunds?
  }

  /** An exchange snapshot, or the state before any exchange exists. */
  datatype State =
    | PreCommit
    | At(exchange: ExchangeState, dispute: Option<DisputeState>)

  /** The discriminated union of `ClientState`: a dispute exactly in DISPUTED. */
  predicate WellFormed(s: State) {
    s.At? ==> (s.dispute.Some? <==> s.exchange.DISPUTED?)
  }

  datatype Side = Client | Server

  function ClientByExchange(exchange: ExchangeState): seq<ActionId> {
    match exchange
    case COMMITTED => [Redeem, CancelVoucher]
    case REDEEMED => [CompleteExchange, RaiseDispute]
    case _ => []
  }

  function ClientByDispute(dispute: DisputeState): seq<ActionId> {
    match dispute
    case RESOLVING => [ResolveDispute, EscalateDispute, RetractDispute]
    case RESOLVED => [WithdrawFunds]
    case _ => []
  }

  function ServerByExchange(exchange: ExchangeState): seq<ActionId> {
    match exchange
    case COMMITTED => [RevokeVoucher]
    case _ => []
  }

  function ServerByDispute(dispute: DisputeState): seq<ActionId> {
    match dispute
    case RESOLVING => [ResolveDispute]
    case RESOLVED => [WithdrawFunds]
    case _ => []
  }

  function LegalActions(s: State, side: Side): seq<ActionId>
    requires WellFormed(s)
  {
    match side
    case Client =>
      if s.PreCommit? then [CreateOfferAndCommit, CreateOfferCommitAndRedeem]
      else if s.exchange.DISPUTED? then ClientByDispute(s.dispute.value)
      else ClientByExchange(s.exchange)
    case Server =>
      if s.PreCommit? then []
      else if s.exchange.DISPUTED? then ServerByDispute(s.dispute.value)
      else ServerByExchange(s.exchange)
  }

  /** The post-state table; entity-keyed actions have no entry. */
  function PostState(action: ActionId): State
    requires !IsEntityKeyed(action)
  {
    match action
    case CreateOfferAndCommit => At(COMMITTED, None)
    case CreateOfferCommitAndRedeem => At(REDEEMED, None)
    case Redeem => At(REDEEMED, None)
    case CancelVoucher => At(CANCELLED, None)
    case RevokeVoucher => At(REVOKED, None)
    case CompleteExchange => At(COMPLETED, None)
    case RaiseDispute => At(DISPUTED, Some(RESOLVING))
    case ResolveDispute => At(DISPUTED, Some(RESOLVED))
    case EscalateDispute => At(DISPUTED, Some(ESCALATED))
    case RetractDispute => At(DISPUTED, Some(RETRACTED))
  }

  // ----- the tables read by action -----

  /** The one state an action can be taken from, by whichever side may take it. */
  function PreState(action: ActionId): State {
    match action
    case CreateOfferAndCommit => PreCommit
    case CreateOfferCommitAndRedeem => PreCommit
    case Redeem => At(COMMITTED, None)
    case CancelVoucher => At(COMMITTED, None)
    case RevokeVoucher => At(COMMITTED, None)
    case CompleteExchange => At(REDEEMED, None)
    case RaiseDispute => At(REDEEMED, None)
    case WithdrawFunds => At(DISPUTED, Some(RESOLVED))
    case _ => At(DISPUTED, Some(RESOLVING))
  }

  /** Revoking is the seller's; resolving and withdrawing are open to both; all else is the buyer's. */
  predicate MayInvoke(side: Side, action: ActionId) {
    match side
    case Client => !action.RevokeVoucher?
    case Server => action.RevokeVoucher? || action.ResolveDispute? || action.WithdrawFunds?
  }

  /** The four tables by state and side say the same as one pre-state per action and who may invoke it. */
  lemma LegalIff(s: State, side: Side, action: ActionId)
    requires WellFormed(s)
    ensures action in LegalActions(s, side) <==> s == PreState(action) && MayInvoke(side, action)
  {
  }

  /** Each state is entered by the action that is named for it, and by no other; only the buyer cancels, only the seller revokes. */
  lemma PostStateIff(action: ActionId)
    requires !IsEntityKeyed(action)
    ensures PostState(action) == At(COMMITTED, None) <==> action == CreateOfferAndCommit
    ensures PostState(action) == At(REDEEMED, None) <==> action == Redeem || action == CreateOfferCommitAndRedeem
    ensures PostState(action) == At(CANCELLED, None) <==> action == CancelVoucher
    ensures PostState(action) == At(REVOKED, None) <==> action == RevokeVoucher
    ensures PostState(action) == At(COMPLETED, None) <==> action == CompleteExchange
    ensures PostState(action) == At(DISPUTED, Some(RESOLVING)) <==> action == RaiseDispute
    ensures PostState(action) == At(DISPUTED, Some(RESOLVED)) <==> action == ResolveDispute
    ensures PostState(action) == At(DISPUTED, Some(ESCALATED)) <==> action == EscalateDispute
    ensures PostState(action) == At(DISPUTED, Some(RETRACTED)) <==> action == RetractDispute
  {
  }

  // ----- whole runs -----

  datatype Move = Move(side: Side, action: ActionId)

  function Next(s: State, action: ActionId): State {
    if IsEntityKeyed(action) then s else PostState(action)
  }

  predicate LegalRun(s: State, moves: seq<Move>)
    requires WellFormed(s)
    decreases |moves|
  {
    moves != [] ==>
    && moves[0].action in LegalActions(s, moves[0].side)
    && WellFormed(Next(s, moves[0].action))
    && LegalRun(Next(s, moves[0].action), moves[1..])
  }

  function Final(s: State, moves: seq<Move>): State
    decreases |moves|
  {
    if moves == [] then s else Final(Next(s, moves[0].action), moves[1..])
  }

  function Transitions(moves: seq<Move>): nat {
    if moves == [] then 0
    else (if IsEntityKeyed(moves[0].action) then 0 else 1) + Transitions(moves[1..])
  }

  /** How many exchange-keyed transitions can still follow. */
  function Rank(s: State): nat {
    match s
    case PreCommit => 4
    case At(COMMITTED, _) => 3
    case At(REDEEMED, _) => 2
    case At(DISPUTED, Some(RESOLVING)) => 1
    case _ => 0
  }

  lemma MoveLowersRank(s: State, side: Side, action: ActionId)
    requires WellFormed(s) && action in LegalActions(s, side)
    ensures WellFormed(Next(s, action))
    ensures IsEntityKeyed(action) ==> Next(s, action) == s
    ensures !IsEntityKeyed(action) ==> Rank(Next(s, action)) < Rank(s)
  {
  }

  /** Every transition spends rank; in particular no run has more than four. */
  lemma {:induction false} RunSpendsRank(s: State, moves: seq<Move>)
    requires WellFormed(s) && LegalRun(s, moves)
    ensures WellFormed(Final(s, moves))
    ensures Transitions(moves) + Rank(Final(s, moves)) <= Rank(s)
    ensures Transitions(moves) == 0 ==> Final(s, moves) == s
    decreases |moves|
  {
    if moves != [] {
      MoveLowersRank(s, moves[0].side, moves[0].action);
      RunSpendsRank(Next(s, moves[0].action), moves[1..]);
    }
  }

  lemma {:induction false} RunSplits(s: State, moves: seq<Move>, more: seq<Move>)
    requires WellFormed(s) && LegalRun(s, moves + more)
    ensures LegalRun(s, moves)
    ensures WellFormed(Final(s, moves)) && LegalRun(Final(s, moves), more)
    ensures Final(s, moves + more) == Final(Final(s, moves), more)
    decreases |moves|
  {
    if moves == [] {
      assert moves + more == more;
    } else {
      assert (moves + more)[1..] == moves[1..] + more;
      RunSplits(Next(s, moves[0].action), moves[1..], more);
    }
  }

  /**
   Any interleaving of buyer and seller moves makes at most four exchange-keyed
   transitions, keeps a dispute exactly in DISPUTED, and never comes back to a state
   it has left.
   */
  lemma {:induction false} RunsAreShort(moves: seq<Move>)
    requires LegalRun(PreCommit, moves)
    ensures Transitions(moves) <= 4
    ensures WellFormed(Final(PreCommit, moves))
    ensures forall i, j | 0 <= i <= j <= |moves| ::
      Final(PreCommit, moves[..i]) == Final(PreCommit, moves[..j]) <==> Transitions(moves[i..j]) == 0
  {
    RunSpendsRank(PreCommit, moves);
    forall i, j | 0 <= i <= j <= |moves|
      ensures Final(PreCommit, moves[..i]) == Final(PreCommit, moves[..j]) <==> Transitions(moves[i..j]) == 0
    {
      NoReturn(moves, i, j);
    }
  }

  lemma {:induction false} NoReturn(moves: seq<Move>, i: nat, j: nat)
    requires LegalRun(PreCommit, moves) && i <= j <= |moves|
    ensures Final(PreCommit, moves[..i]) == Final(PreCommit, moves[..j]) <==> Transitions(moves[i..j]) == 0
  {
    assert moves == moves[..j] + moves[j..];
    RunSplits(PreCommit, moves[..j], moves[j..]);
    assert moves[..j] == moves[..i] + moves[i..j];
    RunSplits(PreCommit, moves[..i], moves[i..j]);
    RunSpendsRank(Final(PreCommit, moves[..i]), moves[i..j]);
  }

  // ----- how a run came to be where it is -----

  /** The last exchange-keyed move of a run, if it made one. */
  function LastTransition(moves: seq<Move>): Option<Move> {
    if moves == [] then None
    else
      var n := |moves| - 1;
      if IsEntityKeyed(moves[n].action) then LastTransition(moves[..n]) else Some(moves[n])
  }

  lemma {:induction false} RunEndsWith(s: State, moves: seq<Move>)
    requires WellFormed(s) && LegalRun(s, moves)
    ensures match LastTransition(moves)
      case None => Final(s, moves) == s
      case Some(m) => !IsEntityKeyed(m.action) && MayInvoke(m.side, m.action) && Final(s, moves) == PostState(m.action)
    decreases |moves|
  {
    if moves != [] {
      var n := |moves| - 1;
      assert moves == moves[..n] + [moves[n]];
      RunSplits(s, moves[..n], [moves[n]]);
      RunEndsWith(s, moves[..n]);
      var before := Final(s, moves[..n]);
      assert [moves[n]][1..] == [];
      assert Final(before, [moves[n]]) == Final(Next(before, moves[n].action), []);
      LegalIff(before, moves[n].side, moves[n].action);
    }
  }

  /**
   An exchange is cancelled only because the buyer cancelled it, revoked only because the
   seller did, and so on for every state: in any run, whoever moved in between.
   */
  lemma StateNamesItsCause(moves: seq<Move>)
    requires LegalRun(PreCommit, moves)
    ensures
      var last := LastTransition(moves);
      match Final(PreCommit, moves)
      case PreCommit => moves == []
      case At(COMMITTED, _) => last == Some(Move(Client, CreateOfferAndCommit))
      case At(REDEEMED, _) => last == Some(Move(Client, Redeem)) || last == Some(Move(Client, CreateOfferCommitAndRedeem))
      case At(CANCELLED, _) => last == Some(Move(Client, CancelVoucher))
      case At(REVOKED, _) => last == Some(Move(Server, RevokeVoucher))
      case At(COMPLETED, _) => last == Some(Move(Client, CompleteExchange))
      case At(DISPUTED, Some(RESOLVING)) => last == Some(Move(Client, RaiseDispute))
      case At(DISPUTED, Some(RESOLVED)) => last.Some? && last.value.action == ResolveDispute
      case At(DISPUTED, Some(ESCALATED)) => last == Some(Move(Client, EscalateDispute))
      case At(DISPUTED, Some(RETRACTED)) => last == Some(Move(Client, RetractDispute))
      case At(DISPUTED, _) => false
  {
    RunEndsWith(PreCommit, moves);
    if LastTransition(moves).None? && moves != [] {
      assert moves == [moves[0]] + moves[1..];
      RunSplits(PreCommit, [moves[0]], moves[1..]);
      assert moves[0].action in LegalActions(PreCommit, moves[0].side);
      NoTransition(moves, 0);
    }
  }

  lemma {:induction false} NoTransition(moves: seq<Move>, i: nat)
    requires LastTransition(moves).None? && i < |moves|
    ensures IsEntityKeyed(moves[i].action)
  {
    if i < |moves| - 1 {
      NoTransition(moves[..|moves| - 1], i);
    }
  }

  // ----- which states the two parties can reach -----

  ghost predicate Reachable(s: State) {
    exists moves :: LegalRun(PreCommit, moves) && Final(PreCommit, moves) == s
  }

  /** Only the dispute resolver can decide or refuse; everything else well-formed is within reach. */
  predicate WithinReach(s: State) {
    WellFormed(s) && (s.At? && s.exchange.DISPUTED? ==> !s.dispute.value.DECIDED? && !s.dispute.value.REFUSED?)
  }

  lemma {:induction false} RunStaysWithinReach(s: State, moves: seq<Move>)
    requires WithinReach(s) && LegalRun(s, moves)
    ensures WithinReach(Final(s, moves))
    decreases |moves|
  {
    if moves != [] {
      RunStaysWithinReach(Next(s, moves[0].action), moves[1..]);
    }
  }

  lemma {:induction false} RunExtends(s: State, moves: seq<Move>, m: Move)
    requires WellFormed(s) && LegalRun(s, moves)
    requires WellFormed(Final(s, moves)) && m.action in LegalActions(Final(s, moves), m.side)
    ensures LegalRun(s, moves + [m])
    ensures Final(s, moves + [m]) == Next(Final(s, moves), m.action)
    decreases |moves|
  {
    if moves == [] {
      assert moves + [m] == [m] && [m][1..] == [];
    } else {
      assert (moves + [m])[1..] == moves[1..] + [m];
      RunExtends(Next(s, moves[0].action), moves[1..], m);
    }
  }

  /** One way into each state: the state before it and the move that enters it. */
  function Before(s: State): State
    requires WithinReach(s) && s.At?
  {
    match s.exchange
    case COMMITTED => PreCommit
    case COMPLETED => At(REDEEMED, None)
    case DISPUTED => if s.dispute.value.RESOLVING? then At(REDEEMED, None) else At(DISPUTED, Some(RESOLVING))
    case _ => At(COMMITTED, None)
  }

  function Enter(s: State): Move
    requires WithinReach(s) && s.At?
  {
    match s.exchange
    case COMMITTED => Move(Client, CreateOfferAndCommit)
    case REDEEMED => Move(Client, Redeem)
    case CANCELLED => Move(Client, CancelVoucher)
    case REVOKED => Move(Server, RevokeVoucher)
    case COMPLETED => Move(Client, CompleteExchange)
    case DISPUTED =>
      match s.dispute.value
      case RESOLVED => Move(Server, ResolveDispute)
      case ESCALATED => Move(Client, EscalateDispute)
      case RETRACTED => Move(Client, RetractDispute)
      case _ => Move(Client, RaiseDispute)
  }

  lemma EnterWorks(s: State)
    requires WithinReach(s) && s.At?
    ensures WithinReach(Before(s)) && Rank(Before(s)) > Rank(s)
    ensures Enter(s).action in LegalActions(Before(s), Enter(s).side) && Next(Before(s), Enter(s).action) == s
  {
  }

  lemma {:induction false} PathTo(s: State) returns (moves: seq<Move>)
    requires WithinReach(s)
    ensures LegalRun(PreCommit, moves) && Final(PreCommit, moves) == s
    decreases 4 - Rank(s)
  {
    if s.PreCommit? {
      moves := [];
    } else {
      EnterWorks(s);
      moves := PathTo(Before(s));
      RunExtends(PreCommit, moves, Enter(s));
      moves := moves + [Enter(s)];
    }
  }

  /** Exactly the states the two tables let buyer and seller reach. */
  lemma ReachableIff(s: State)
    ensures Reachable(s) <==> WithinReach(s)
  {
    if WithinReach(s) {
      var moves := PathTo(s);
    } else if Reachable(s) {
      var moves :| LegalRun(PreCommit, moves) && Final(PreCommit, moves) == s;
      RunStaysWithinReach(PreCommit, moves);
      assert false;
    }
  }

  lemma OneMore(m: Move, moves: seq<Move>)
    ensures Transitions([m] + moves) == (if IsEntityKeyed(m.action) then 0 else 1) + Transitions(moves)
  {
    assert ([m] + moves)[1..] == moves;
  }

  /** The bound of four is met: commit, redeem, raise, resolve. */
  lemma FourTransitionsHappen()
    ensures exists moves :: LegalRun(PreCommit, moves) && Transitions(moves) == 4
  {
    var m1, m2 := Move(Client, CreateOfferAndCommit), Move(Client, Redeem);
    var m3, m4 := Move(Client, RaiseDispute), Move(Server, ResolveDispute);
    assert LegalRun(PreCommit, []);
    RunExtends(PreCommit, [], m1);
    RunExtends(PreCommit, [] + [m1], m2);
    RunExtends(PreCommit, [] + [m1] + [m2], m3);
    RunExtends(PreCommit, [] + [m1] + [m2] + [m3], m4);
    var moves := [] + [m1] + [m2] + [m3] + [m4];
    OneMore(m4, []);
    OneMore(m3, [m4] + []);
    OneMore(m2, [m3] + ([m4] + []));
    OneMore(m1, [m2] + ([m3] + ([m4] + [])));
    assert moves == [m1] + ([m2] + ([m3] + ([m4] + [])));
  }
}
