/** The facilitator's `verify`, up to the on-chain simulation. */
module PaymentFacilitator {
  import opened CanonicalJson
  import opened Fulfillment
  import opened Json
  import opened Numerals
  import opened Payment
  import opened Sequences
  import opened Wrappers

  datatype Code =
    | NETWORK_MISMATCH
    | INVALID_PAYLOAD
    | SCHEME_MISMATCH
    | ACTION_NOT_IN_REQUIREMENTS
    | UNSUPPORTED_ACTION
    | TOKEN_AUTH_NOT_IN_REQUIREMENTS
    | INTERNAL_ERROR
    | BAD_META_TX_SIGNATURE
    | BAD_TOKEN_AUTH_SIGNATURE

  datatype Config = Config(supportedNetworks: seq<string>, escrows: map<string, Address>, hasAccount: bool)

  datatype Input = Input(scheme: string, network: string, payload: Payload, req: Requirements)

  /** Structure, scheme, network and action: the steps before the offer is looked at. */
  function CheckEnvelope(p: Platform, config: Config, input: Input): Option<Code> {
    if input.network !in config.supportedNetworks then Some(NETWORK_MISMATCH)
    else if !p.payloadSchema(input.payload) || !p.requirementsSchema(input.req) then Some(INVALID_PAYLOAD)
    else if input.scheme != ESCROW || input.payload.scheme != ESCROW then Some(SCHEME_MISMATCH)
    else if input.network != input.payload.network || input.network != input.req.network then Some(NETWORK_MISMATCH)
    else if forall i | 0 <= i < |input.req.next| :: input.req.next[i].id != input.payload.action then
      Some(ACTION_NOT_IN_REQUIREMENTS)
    else None
  }

  /** The echoed offer, compared as canonical text, and the seller's signature, compared without case. */
  function CheckOffer(le: KeyOrder, payload: Payload, req: Requirements): Option<Code> {
    if Canonical(le, JObject(payload.fullOffer)) != Canonical(le, JObject(req.fullOffer)) then Some(INVALID_PAYLOAD)
    else if Lower(payload.sellerSig) != Lower(req.sellerSig) then Some(INVALID_PAYLOAD)
    else None
  }

  /** The calldata is rebuilt from the requirements' offer, with the payload's buyer as committer. */
  function CheckCalldata(p: Platform, payload: Payload, req: Requirements): Option<Code> {
    if payload.action != FLOW_A && payload.action != FLOW_B then Some(UNSUPPORTED_ACTION)
    else
      var arguments := AsArguments(VerifierSplice(req.fullOffer, req.sellerSig, payload.buyer));
      match p.calldata(payload.action == FLOW_B, arguments)
      case None => Some(INVALID_PAYLOAD)
      case Some(expected) =>
        if payload.metaTx.functionName != expected.functionName then Some(INVALID_PAYLOAD)
        else if Lower(payload.metaTx.functionSignature) != Lower(expected.functionSignature) then Some(INVALID_PAYLOAD)
        else None
  }

  function CheckStrategy(payload: Payload, req: Requirements): Option<Code> {
    if payload.strategy !in req.strategies then Some(TOKEN_AUTH_NOT_IN_REQUIREMENTS)
    else if payload.strategy.NONE? && payload.tokenAuth.Some? then Some(INVALID_PAYLOAD)
    else if !payload.strategy.NONE? && payload.tokenAuth.None? then Some(INVALID_PAYLOAD)
    else if payload.tokenAuth.Some? && StrategyOf(payload.tokenAuth.value) != payload.strategy then Some(INVALID_PAYLOAD)
    else None
  }

  predicate LegacyV(sig: Sig) {
    sig.v == 27 || sig.v == 28
  }

  /** `verifyMetaTxSignature`, under the allowlisted escrow. */
  function CheckMetaTx(p: Platform, payload: Payload, escrow: Address, chainId: nat): Option<Code> {
    var metaTx := payload.metaTx;
    if !LegacyV(metaTx.sig) then Some(BAD_META_TX_SIGNATURE)
    else
      var data := MetaTxData(chainId, escrow, metaTx.nonce, metaTx.from, metaTx.functionName, metaTx.functionSignature);
      match p.recover(data, metaTx.sig)
      case None => Some(BAD_META_TX_SIGNATURE)
      case Some(signer) =>
        if Lower(signer) != Lower(payload.buyer) || Lower(metaTx.from) != Lower(payload.buyer) then
          Some(BAD_META_TX_SIGNATURE)
        else None
  }

  /** The fields of an authorisation against the payment, at the facilitator's second `now`. */
  predicate AuthFieldsMatch(auth: TokenAuth, buyer: Address, escrow: Address, req: Requirements, now: int) {
    match auth
    case Erc3009Auth(from, to, value, validAfter, validBefore, _, sig) =>
      && LegacyV(sig) && Lower(from) == Lower(buyer) && Lower(to) == Lower(escrow) && value == req.amount
      && validAfter < now && WithinWindow(validBefore, req.maxTimeoutSeconds, now)
    case PermitAuth(owner, spender, value, deadline, _, sig) =>
      && LegacyV(sig) && Lower(owner) == Lower(buyer) && Lower(spender) == Lower(escrow) && value == req.amount
      && WithinWindow(deadline, req.maxTimeoutSeconds, now)
    case Permit2Auth(token, amount, spender, _, deadline, _) =>
      && Lower(token) == Lower(req.asset) && Lower(spender) == Lower(escrow) && amount == req.amount
      && WithinWindow(deadline, req.maxTimeoutSeconds, now)
  }

  /** The domain an authorisation is checked under, or nothing if it cannot be fetched; Permit2 needs none. */
  function AuthDomain(p: Platform, auth: TokenAuth, req: Requirements, chainId: nat): Option<Domain> {
    if auth.Permit2Auth? then Some(Domain("", "", chainId, req.asset)) else p.tokenDomain(req.asset, chainId)
  }

  function CheckTokenAuth(p: Platform, payload: Payload, req: Requirements, escrow: Address, chainId: nat, now: int): Option<Code> {
    if payload.strategy.NONE? || payload.tokenAuth.None? then None
    else
      var auth := payload.tokenAuth.value;
      if !AuthFieldsMatch(auth, payload.buyer, escrow, req, now) then Some(BAD_TOKEN_AUTH_SIGNATURE)
      else
        match AuthDomain(p, auth, req, chainId)
        case None => Some(INTERNAL_ERROR)
        case Some(domain) =>
          match AuthData(chainId, domain, auth)
          case None => Some(BAD_TOKEN_AUTH_SIGNATURE)
          case Some(data) =>
            match p.recover(data, auth.sig)
            case None => Some(BAD_TOKEN_AUTH_SIGNATURE)
            case Some(signer) => if Lower(signer) != Lower(payload.buyer) then Some(BAD_TOKEN_AUTH_SIGNATURE) else None
  }

  /** The escrow of the operator's allowlist, if the requirements name that one. */
  function AllowlistedEscrow(config: Config, input: Input): Result<Address, Code> {
    if input.network !in config.escrows || config.escrows[input.network] == [] then Err(NETWORK_MISMATCH)
    else if Lower(input.req.escrow) != Lower(config.escrows[input.network]) then Err(INVALID_PAYLOAD)
    else Ok(config.escrows[input.network])
  }

  /** Every step before the two signature recoveries; it yields the chain id and the escrow they use. */
  function CheckBeforeSignatures(p: Platform, le: KeyOrder, config: Config, input: Input): Result<(nat, Address), Code> {
    var envelope := CheckEnvelope(p, config, input);
    if envelope.Some? then Err(envelope.value)
    else
      var offer := CheckOffer(le, input.payload, input.req);
      if offer.Some? then Err(offer.value)
      else
        var calldata := CheckCalldata(p, input.payload, input.req);
        if calldata.Some? then Err(calldata.value)
        else
          var strategy := CheckStrategy(input.payload, input.req);
          if strategy.Some? then Err(strategy.value)
          else
            match ParseChainId(input.network)
            case None => Err(NETWORK_MISMATCH)
            case Some(chainId) =>
              if !config.hasAccount then Err(INTERNAL_ERROR)
              else
                match AllowlistedEscrow(config, input)
                case Err(code) => Err(code)
                case Ok(escrow) => Ok((chainId, escrow))
  }

  /** `None` means every step before the simulation passed. */
  function Verify(p: Platform, le: KeyOrder, config: Config, input: Input, now: int): Option<Code> {
    match CheckBeforeSignatures(p, le, config, input)
    case Err(code) => Some(code)
    case Ok((chainId, escrow)) =>
      var metaTx := CheckMetaTx(p, input.payload, escrow, chainId);
      if metaTx.Some? then metaTx else CheckTokenAuth(p, input.payload, input.req, escrow, chainId, now)
  }

  // ----- what the steps ask of any payload -----

  /** What the authorisation says about its own signer and start; Permit2 names neither. */
  predicate HolderAndStart(auth: TokenAuth, buyer: Address, now: int) {
    match auth
    case Erc3009Auth(from, _, _, validAfter, _, _, sig) =>
      (sig.v == 27 || sig.v == 28) && Lower(from) == Lower(buyer) && validAfter < now
    case PermitAuth(owner, _, _, _, _, sig) => (sig.v == 27 || sig.v == 28) && Lower(owner) == Lower(buyer)
    case Permit2Auth(_, _, _, _, _, _) => true
  }

  /** It pays the price in the required token to the escrow, and is live at `now`, for no more than M seconds. */
  predicate AuthLive(auth: TokenAuth, buyer: Address, escrow: Address, req: Requirements, now: int) {
    && PaysExactly(auth, req, escrow)
    && now < DeadlineOf(auth) <= now + req.maxTimeoutSeconds
    && HolderAndStart(auth, buyer, now)
  }

  /** The token's own domain can be read, where the authorisation is signed under it. */
  predicate DomainKnown(p: Platform, auth: TokenAuth, req: Requirements, chainId: nat) {
    auth.Permit2Auth? || p.tokenDomain(req.asset, chainId).Some?
  }

  /** The authorisation is the buyer's own signature over those very fields, under the domain of the required token. */
  predicate AuthSignedByBuyer(p: Platform, auth: TokenAuth, buyer: Address, req: Requirements, chainId: nat) {
    DomainKnown(p, auth, req, chainId) &&
    match auth
    case Erc3009Auth(from, to, value, validAfter, validBefore, nonce, sig) =>
      IsDigits(value) &&
      Recovers(p, ReceiveWithAuthorization(p.tokenDomain(req.asset, chainId).value, Lower(from), Lower(to),
                                           DecimalValue(value), validAfter, validBefore, Lower(nonce)), sig, buyer)
    case PermitAuth(owner, spender, value, deadline, nonce, sig) =>
      IsDigits(value) &&
      Recovers(p, PermitMessage(p.tokenDomain(req.asset, chainId).value, Lower(owner), Lower(spender),
                                DecimalValue(value), nonce, deadline), sig, buyer)
    case Permit2Auth(token, amount, spender, nonce, deadline, sig) =>
      IsDigits(amount) &&
      Recovers(p, PermitTransferFrom(chainId, Lower(token), DecimalValue(amount), Lower(spender), nonce, deadline), sig, buyer)
  }

  /** For every payload the meta-transaction step passes exactly a legacy `v` and the buyer's own signature. */
  lemma CheckMetaTxIff(p: Platform, payload: Payload, escrow: Address, chainId: nat)
    ensures CheckMetaTx(p, payload, escrow, chainId).None? <==>
      var sig := payload.metaTx.sig;
      (sig.v == 27 || sig.v == 28) && SignedByBuyer(p, payload, escrow, chainId, sig)
    ensures CheckMetaTx(p, payload, escrow, chainId).Some? ==>
      CheckMetaTx(p, payload, escrow, chainId) == Some(BAD_META_TX_SIGNATURE)
  {
  }

  lemma FieldsMatchIff(auth: TokenAuth, buyer: Address, escrow: Address, req: Requirements, now: int)
    ensures AuthFieldsMatch(auth, buyer, escrow, req, now) <==> AuthLive(auth, buyer, escrow, req, now)
  {
  }

  lemma RecoversIff(p: Platform, auth: TokenAuth, buyer: Address, req: Requirements, chainId: nat)
    ensures AuthSignedByBuyer(p, auth, buyer, req, chainId) <==>
      var domain := AuthDomain(p, auth, req, chainId);
      && domain.Some?
      && var data := AuthData(chainId, domain.value, auth);
         data.Some? && p.recover(data.value, auth.sig).Some?
         && Lower(p.recover(data.value, auth.sig).value) == Lower(buyer)
    ensures DomainKnown(p, auth, req, chainId) <==> AuthDomain(p, auth, req, chainId).Some?
  {
  }

  /**
   Exactly what the facilitator demands of an authorisation: it pays the price in the
   required token to the allowlisted escrow, is live at `now` and not beyond M seconds ahead,
   names the buyer, has started, and is the buyer's signature under the token's own domain.
   */
  lemma FacilitatorDemandsExactly(p: Platform, payload: Payload, req: Requirements, escrow: Address, chainId: nat, now: int)
    ensures
      var r := CheckTokenAuth(p, payload, req, escrow, chainId, now);
      if payload.strategy.NONE? || payload.tokenAuth.None? then r.None?
      else
        var auth := payload.tokenAuth.value;
        var live := AuthLive(auth, payload.buyer, escrow, req, now);
        match r
        case None => live && AuthSignedByBuyer(p, auth, payload.buyer, req, chainId)
        case Some(code) =>
          if live && !DomainKnown(p, auth, req, chainId) then code == INTERNAL_ERROR
          else code == BAD_TOKEN_AUTH_SIGNATURE && !(live && AuthSignedByBuyer(p, auth, payload.buyer, req, chainId))
  {
    if payload.tokenAuth.Some? {
      FieldsMatchIff(payload.tokenAuth.value, payload.buyer, escrow, req, now);
      RecoversIff(p, payload.tokenAuth.value, payload.buyer, req, chainId);
    }
  }

  /** What each step asks, in the order they are taken, whatever the others find. */
  ghost predicate StepHolds(n: nat, p: Platform, le: KeyOrder, config: Config, input: Input, now: int) {
    var payload, req := input.payload, input.req;
    var escrow := if input.network in config.escrows then config.escrows[input.network] else "";
    var chainId := if ParseChainId(input.network).Some? then ParseChainId(input.network).value else 0;
    match n
    case 1 => input.network in config.supportedNetworks
    case 2 => p.payloadSchema(payload) && p.requirementsSchema(req)
    case 3 => input.scheme == "escrow" && payload.scheme == "escrow"
    case 4 => payload.network == input.network && req.network == input.network
    case 5 => exists a | a in req.next :: a.id == payload.action
    case 6 => Canonical(le, JObject(payload.fullOffer)) == Canonical(le, JObject(req.fullOffer))
    case 7 => Lower(payload.sellerSig) == Lower(req.sellerSig)
    case 8 => payload.action == FLOW_A || payload.action == FLOW_B
    case 9 => CalldataIs(p, payload, req.fullOffer, req.sellerSig)
    case 10 => payload.strategy in req.strategies
    case 11 => CarriesItsKind(payload.strategy, payload.tokenAuth)
    case 12 => ParseChainId(input.network).Some?
    case 13 => config.hasAccount
    case 14 => escrow != ""
    case 15 => Lower(req.escrow) == Lower(escrow)
    case 16 =>
      var sig := payload.metaTx.sig;
      (sig.v == 27 || sig.v == 28) && SignedByBuyer(p, payload, escrow, chainId, sig)
    case 17 => payload.tokenAuth.Some? ==> AuthLive(payload.tokenAuth.value, payload.buyer, escrow, req, now)
    case 18 => payload.tokenAuth.Some? ==> DomainKnown(p, payload.tokenAuth.value, req, chainId)
    case 19 => payload.tokenAuth.Some? ==> AuthSignedByBuyer(p, payload.tokenAuth.value, payload.buyer, req, chainId)
    case _ => true
  }

  /** The code a failing step answers with. */
  function StepCode(n: nat): Code {
    match n
    case 1 => NETWORK_MISMATCH
    case 3 => SCHEME_MISMATCH
    case 4 => NETWORK_MISMATCH
    case 5 => ACTION_NOT_IN_REQUIREMENTS
    case 8 => UNSUPPORTED_ACTION
    case 10 => TOKEN_AUTH_NOT_IN_REQUIREMENTS
    case 12 => NETWORK_MISMATCH
    case 13 => INTERNAL_ERROR
    case 14 => NETWORK_MISMATCH
    case 16 => BAD_META_TX_SIGNATURE
    case 17 => BAD_TOKEN_AUTH_SIGNATURE
    case 18 => INTERNAL_ERROR
    case 19 => BAD_TOKEN_AUTH_SIGNATURE
    case _ => INVALID_PAYLOAD
  }

  /** The code of the first step from `first` up to `end` that fails, if any does. */
  ghost function FirstFailure(first: nat, end: nat, p: Platform, le: KeyOrder, config: Config, input: Input, now: int): Option<Code>
    decreases end - first
  {
    if first >= end then None
    else if !StepHolds(first, p, le, config, input, now) then Some(StepCode(first))
    else FirstFailure(first + 1, end, p, le, config, input, now)
  }

  lemma {:induction false} NoFailureIff(first: nat, end: nat, p: Platform, le: KeyOrder, config: Config, input: Input, now: int)
    ensures FirstFailure(first, end, p, le, config, input, now).None? <==>
      forall n: nat | first <= n < end :: StepHolds(n, p, le, config, input, now)
    decreases end - first
  {
    if first < end {
      NoFailureIff(first + 1, end, p, le, config, input, now);
    }
  }

  lemma {:induction false} FailureSplits(first: nat, mid: nat, end: nat, p: Platform, le: KeyOrder, config: Config, input: Input, now: int)
    requires first <= mid <= end
    ensures
      var r := FirstFailure(first, mid, p, le, config, input, now);
      FirstFailure(first, end, p, le, config, input, now) ==
        if r.Some? then r else FirstFailure(mid, end, p, le, config, input, now)
    decreases mid - first
  {
    if first < mid {
      FailureSplits(first + 1, mid, end, p, le, config, input, now);
    }
  }

  lemma Unfold(first: nat, end: nat, p: Platform, le: KeyOrder, config: Config, input: Input, now: int)
    ensures FirstFailure(first, end, p, le, config, input, now) ==
      if first >= end then None
      else if !StepHolds(first, p, le, config, input, now) then Some(StepCode(first))
      else FirstFailure(first + 1, end, p, le, config, input, now)
  {
  }

  lemma EnvelopeSteps(p: Platform, le: KeyOrder, config: Config, input: Input, now: int)
    ensures CheckEnvelope(p, config, input) == FirstFailure(1, 6, p, le, config, input, now)
  {
    Unfold(1, 6, p, le, config, input, now);
    Unfold(2, 6, p, le, config, input, now);
    Unfold(3, 6, p, le, config, input, now);
    Unfold(4, 6, p, le, config, input, now);
    Unfold(5, 6, p, le, config, input, now);
    Unfold(6, 6, p, le, config, input, now);
    var next := input.req.next;
    if a :| a in next && a.id == input.payload.action {
      var i :| 0 <= i < |next| && next[i] == a;
    }
    forall i | 0 <= i < |next| ensures next[i] in next {
    }
  }

  lemma OfferSteps(p: Platform, le: KeyOrder, config: Config, input: Input, now: int)
    ensures CheckOffer(le, input.payload, input.req) == FirstFailure(6, 8, p, le, config, input, now)
  {
    Unfold(6, 8, p, le, config, input, now);
    Unfold(7, 8, p, le, config, input, now);
    Unfold(8, 8, p, le, config, input, now);
  }

  lemma CalldataSteps(p: Platform, le: KeyOrder, config: Config, input: Input, now: int)
    ensures CheckCalldata(p, input.payload, input.req) == FirstFailure(8, 10, p, le, config, input, now)
  {
    SplicesAgree(input.req.fullOffer, input.req.sellerSig, input.payload.buyer);
    Unfold(8, 10, p, le, config, input, now);
    Unfold(9, 10, p, le, config, input, now);
    Unfold(10, 10, p, le, config, input, now);
  }

  lemma StrategySteps(p: Platform, le: KeyOrder, config: Config, input: Input, now: int)
    ensures CheckStrategy(input.payload, input.req) == FirstFailure(10, 12, p, le, config, input, now)
  {
    Unfold(10, 12, p, le, config, input, now);
    Unfold(11, 12, p, le, config, input, now);
    Unfold(12, 12, p, le, config, input, now);
  }

  /** Network, account and allowlist, and what the signature steps then work with. */
  lemma OperatorSteps(p: Platform, le: KeyOrder, config: Config, input: Input, now: int)
    ensures FirstFailure(12, 16, p, le, config, input, now) ==
      if ParseChainId(input.network).None? then Some(NETWORK_MISMATCH)
      else if !config.hasAccount then Some(INTERNAL_ERROR)
      else match AllowlistedEscrow(config, input)
           case Err(code) => Some(code)
           case Ok(_) => None
  {
    Unfold(12, 16, p, le, config, input, now);
    Unfold(13, 16, p, le, config, input, now);
    Unfold(14, 16, p, le, config, input, now);
    Unfold(15, 16, p, le, config, input, now);
    Unfold(16, 16, p, le, config, input, now);
  }

  lemma BeforeSignatureSteps(p: Platform, le: KeyOrder, config: Config, input: Input, now: int)
    ensures match CheckBeforeSignatures(p, le, config, input)
      case Err(code) => FirstFailure(1, 16, p, le, config, input, now) == Some(code)
      case Ok((chainId, escrow)) =>
        && FirstFailure(1, 16, p, le, config, input, now).None?
        && ParseChainId(input.network) == Some(chainId)
        && input.network in config.escrows && config.escrows[input.network] == escrow
  {
    EnvelopeSteps(p, le, config, input, now);
    OfferSteps(p, le, config, input, now);
    CalldataSteps(p, le, config, input, now);
    StrategySteps(p, le, config, input, now);
    OperatorSteps(p, le, config, input, now);
    FailureSplits(1, 6, 16, p, le, config, input, now);
    FailureSplits(6, 8, 16, p, le, config, input, now);
    FailureSplits(8, 10, 16, p, le, config, input, now);
    FailureSplits(10, 12, 16, p, le, config, input, now);
  }

  lemma SignatureSteps(p: Platform, le: KeyOrder, config: Config, input: Input, now: int, chainId: nat, escrow: Address)
    requires ParseChainId(input.network) == Some(chainId)
    requires input.network in config.escrows && config.escrows[input.network] == escrow
    requires CarriesItsKind(input.payload.strategy, input.payload.tokenAuth)
    ensures FirstFailure(16, 20, p, le, config, input, now) ==
      var metaTx := CheckMetaTx(p, input.payload, escrow, chainId);
      if metaTx.Some? then metaTx else CheckTokenAuth(p, input.payload, input.req, escrow, chainId, now)
  {
    CheckMetaTxIff(p, input.payload, escrow, chainId);
    FacilitatorDemandsExactly(p, input.payload, input.req, escrow, chainId, now);
    Unfold(16, 20, p, le, config, input, now);
    Unfold(17, 20, p, le, config, input, now);
    Unfold(18, 20, p, le, config, input, now);
    Unfold(19, 20, p, le, config, input, now);
    Unfold(20, 20, p, le, config, input, now);
  }

  /**
   The facilitator's verdict, for any input and clock: it answers with the code of the first of
   its nineteen steps that does not hold, and passes exactly when they all do.
   */
  lemma VerdictIsFirstFailure(p: Platform, le: KeyOrder, config: Config, input: Input, now: int)
    ensures Verify(p, le, config, input, now) == FirstFailure(1, 20, p, le, config, input, now)
    ensures Verify(p, le, config, input, now).None? <==>
      forall n: nat | 1 <= n < 20 :: StepHolds(n, p, le, config, input, now)
  {
    BeforeSignatureSteps(p, le, config, input, now);
    FailureSplits(1, 16, 20, p, le, config, input, now);
    NoFailureIff(1, 20, p, le, config, input, now);
    match CheckBeforeSignatures(p, le, config, input)
    case Err(_) =>
    case Ok((chainId, escrow)) =>
      NoFailureIff(1, 16, p, le, config, input, now);
      assert StepHolds(11, p, le, config, input, now);
      SignatureSteps(p, le, config, input, now, chainId, escrow);
  }
}
