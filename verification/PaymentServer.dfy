/** The resource server's validation of a payment payload: thirteen rules, first failure wins. */
module PaymentServer {
  import opened CanonicalJson
  import opened Fulfillment
  import opened Json
  import opened Payment
  import opened Sequences
  import opened Wrappers

  datatype Code =
    | SCHEME_MISMATCH
    | NETWORK_MISMATCH
    | FULL_OFFER_MISMATCH
    | SELLER_SIG_MISMATCH
    | ACTION_NOT_IN_REQUIREMENTS
    | TOKEN_AUTH_NOT_IN_REQUIREMENTS
    | CALLDATA_MISMATCH
    | BAD_META_TX_SIGNATURE
    | TOKEN_AUTH_UNEXPECTED
    | TOKEN_AUTH_MISSING
    | TOKEN_AUTH_AMOUNT_MISMATCH
    | TOKEN_AUTH_RECIPIENT_MISMATCH
    | TOKEN_AUTH_SPENDER_MISMATCH
    | TOKEN_AUTH_TOKEN_MISMATCH
    | TOKEN_AUTH_DEADLINE_EXCEEDED
    | FULFILLMENT(why: Rule13)

  datatype Failure = Failure(rule: nat, code: Code)

  predicate ActionAdvertised(next: seq<Advertised>, action: string) {
    exists i | 0 <= i < |next| :: next[i].id == action
  }

  /** Rules 1 to 6. */
  function CheckEcho(payload: Payload, req: Requirements): Option<Failure> {
    if payload.scheme != ESCROW || req.scheme != ESCROW then Some(Failure(1, SCHEME_MISMATCH))
    else if payload.network != req.network then Some(Failure(2, NETWORK_MISMATCH))
    else if !DeepEqual(JObject(payload.fullOffer), JObject(req.fullOffer)) then Some(Failure(3, FULL_OFFER_MISMATCH))
    else if payload.sellerSig != req.sellerSig then Some(Failure(4, SELLER_SIG_MISMATCH))
    else if !ActionAdvertised(req.next, payload.action) then Some(Failure(5, ACTION_NOT_IN_REQUIREMENTS))
    else if payload.strategy !in req.strategies then Some(Failure(6, TOKEN_AUTH_NOT_IN_REQUIREMENTS))
    else None
  }

  /** Rule 7: the signed calldata is the one rebuilt from the payload's own offer. */
  function CheckCalldata(p: Platform, payload: Payload): Option<Failure> {
    if payload.action != FLOW_A && payload.action != FLOW_B then Some(Failure(7, CALLDATA_MISMATCH))
    else
      var arguments := AsArguments(VerifierSplice(payload.fullOffer, payload.sellerSig, payload.buyer));
      match p.calldata(payload.action == FLOW_B, arguments)
      case None => Some(Failure(7, CALLDATA_MISMATCH))
      case Some(expected) =>
        if expected.functionName != payload.metaTx.functionName then Some(Failure(7, CALLDATA_MISMATCH))
        else if Lower(expected.functionSignature) != Lower(payload.metaTx.functionSignature) then
          Some(Failure(7, CALLDATA_MISMATCH))
        else None
  }

  /** `encodeRsv`: 0 and 1 are read as 27 and 28; anything else but those throws. */
  function NormaliseV(sig: Sig): Option<Sig> {
    if sig.v == 0 || sig.v == 1 then Some(sig.(v := sig.v + 27))
    else if sig.v == 27 || sig.v == 28 then Some(sig)
    else None
  }

  /** Rule 8. */
  function CheckMetaTx(p: Platform, payload: Payload, req: Requirements, chainId: nat): Option<Failure> {
    var metaTx := payload.metaTx;
    var bad := Some(Failure(8, BAD_META_TX_SIGNATURE));
    if Lower(payload.buyer) != Lower(metaTx.from) then bad
    else
      match NormaliseV(metaTx.sig)
      case None => bad
      case Some(sig) =>
        var data := MetaTxData(chainId, req.escrow, metaTx.nonce, metaTx.from, metaTx.functionName, metaTx.functionSignature);
        match p.recover(data, sig)
        case None => bad
        case Some(signer) => if Lower(signer) != Lower(payload.buyer) then bad else None
  }

  /** Rules 9 to 11, at the server's second `now`. */
  function CheckTokenAuth(payload: Payload, req: Requirements, now: int): Option<Failure> {
    if payload.strategy.NONE? then
      if payload.tokenAuth.Some? then Some(Failure(9, TOKEN_AUTH_UNEXPECTED)) else None
    else if payload.tokenAuth.None? then Some(Failure(9, TOKEN_AUTH_MISSING))
    else if StrategyOf(payload.tokenAuth.value) != payload.strategy then Some(Failure(9, TOKEN_AUTH_MISSING))
    else
      match payload.tokenAuth.value
      case Erc3009Auth(_, to, value, _, validBefore, _, _) =>
        if value != req.amount then Some(Failure(9, TOKEN_AUTH_AMOUNT_MISMATCH))
        else if Lower(to) != Lower(req.escrow) then Some(Failure(9, TOKEN_AUTH_RECIPIENT_MISMATCH))
        else if !WithinHorizon(validBefore, req.maxTimeoutSeconds, now) then Some(Failure(9, TOKEN_AUTH_DEADLINE_EXCEEDED))
        else None
      case PermitAuth(_, spender, value, deadline, _, _) =>
        if value != req.amount then Some(Failure(10, TOKEN_AUTH_AMOUNT_MISMATCH))
        else if Lower(spender) != Lower(req.escrow) then Some(Failure(10, TOKEN_AUTH_SPENDER_MISMATCH))
        else if !WithinHorizon(deadline, req.maxTimeoutSeconds, now) then Some(Failure(10, TOKEN_AUTH_DEADLINE_EXCEEDED))
        else None
      case Permit2Auth(token, amount, spender, _, deadline, _) =>
        if amount != req.amount then Some(Failure(11, TOKEN_AUTH_AMOUNT_MISMATCH))
        else if Lower(token) != Lower(req.asset) then Some(Failure(11, TOKEN_AUTH_TOKEN_MISMATCH))
        else if Lower(spender) != Lower(req.escrow) then Some(Failure(11, TOKEN_AUTH_SPENDER_MISMATCH))
        else if !WithinHorizon(deadline, req.maxTimeoutSeconds, now) then Some(Failure(11, TOKEN_AUTH_DEADLINE_EXCEEDED))
        else None
  }

  function CheckRule13(payload: Payload, req: Requirements, validator: Option<(OptionId, Json) -> Verdict>): Option<Failure> {
    var r := CheckFulfillment(req.fulfillment, payload.fulfillment, payload.action, validator);
    if r.Pass? then None else Some(Failure(13, FULFILLMENT(r)))
  }

  /** All rules in order. Rule 12 is not enforced here. */
  function ValidatePayload(p: Platform, payload: Payload, req: Requirements, chainId: nat, now: int,
                           validator: Option<(OptionId, Json) -> Verdict>): Option<Failure>
  {
    var echo := CheckEcho(payload, req);
    if echo.Some? then echo
    else
      var calldata := CheckCalldata(p, payload);
      if calldata.Some? then calldata
      else
        var metaTx := CheckMetaTx(p, payload, req, chainId);
        if metaTx.Some? then metaTx
        else
          var tokenAuth := CheckTokenAuth(payload, req, now);
          if tokenAuth.Some? then tokenAuth else CheckRule13(payload, req, validator)
  }

  // ----- what the rules ask of any payload -----

  /** An authorisation in order: the price, in the right token, to the escrow, lapsing by now + M. */
  predicate AuthInOrder(auth: TokenAuth, req: Requirements, now: int) {
    PaysExactly(auth, req, req.escrow) && DeadlineOf(auth) <= now + req.maxTimeoutSeconds
  }

  /** What each rule of the scheme asks, whatever the other rules say. Rule 12 is not enforced by the server. */
  ghost predicate RuleHolds(rule: nat, p: Platform, payload: Payload, req: Requirements, chainId: nat, now: int,
                            validator: Option<(OptionId, Json) -> Verdict>)
  {
    match rule
    case 1 => payload.scheme == "escrow" && req.scheme == "escrow"
    case 2 => payload.network == req.network
    case 3 => DeepEqual(JObject(payload.fullOffer), JObject(req.fullOffer))
    case 4 => payload.sellerSig == req.sellerSig
    case 5 => exists a | a in req.next :: a.id == payload.action
    case 6 => payload.strategy in req.strategies
    case 7 => CalldataIs(p, payload, payload.fullOffer, payload.sellerSig)
    case 8 =>
      var sig := payload.metaTx.sig;
      || ((sig.v == 27 || sig.v == 28) && SignedByBuyer(p, payload, req.escrow, chainId, sig))
      || (sig.v == 0 && SignedByBuyer(p, payload, req.escrow, chainId, sig.(v := 27)))
      || (sig.v == 1 && SignedByBuyer(p, payload, req.escrow, chainId, sig.(v := 28)))
    case 9 =>
      && CarriesItsKind(payload.strategy, payload.tokenAuth)
      && (payload.strategy.ERC3009? ==> AuthInOrder(payload.tokenAuth.value, req, now))
    case 10 =>
      payload.strategy.PERMIT? && payload.tokenAuth.Some? && payload.tokenAuth.value.PermitAuth? ==>
        AuthInOrder(payload.tokenAuth.value, req, now)
    case 11 =>
      payload.strategy.PERMIT2? && payload.tokenAuth.Some? && payload.tokenAuth.value.Permit2Auth? ==>
        AuthInOrder(payload.tokenAuth.value, req, now)
    case 13 => FulfillmentHolds(req.fulfillment, payload.fulfillment, payload.action, validator)
    case _ => true
  }

  lemma EchoRules(p: Platform, payload: Payload, req: Requirements, chainId: nat, now: int,
                  validator: Option<(OptionId, Json) -> Verdict>)
    ensures match CheckEcho(payload, req)
      case None => forall n: nat | n <= 6 :: RuleHolds(n, p, payload, req, chainId, now, validator)
      case Some(f) =>
        && f.rule <= 6 && !RuleHolds(f.rule, p, payload, req, chainId, now, validator)
        && forall n: nat | n < f.rule :: RuleHolds(n, p, payload, req, chainId, now, validator)
  {
    if ActionAdvertised(req.next, payload.action) {
      var i :| 0 <= i < |req.next| && req.next[i].id == payload.action;
      assert req.next[i] in req.next;
    }
  }

  lemma CalldataRule(p: Platform, payload: Payload)
    ensures CheckCalldata(p, payload).None? <==> CalldataIs(p, payload, payload.fullOffer, payload.sellerSig)
    ensures CheckCalldata(p, payload).Some? ==> CheckCalldata(p, payload).value == Failure(7, CALLDATA_MISMATCH)
  {
    SplicesAgree(payload.fullOffer, payload.sellerSig, payload.buyer);
  }

  lemma MetaTxRule(p: Platform, payload: Payload, req: Requirements, chainId: nat, now: int,
                   validator: Option<(OptionId, Json) -> Verdict>)
    ensures CheckMetaTx(p, payload, req, chainId).None? <==> RuleHolds(8, p, payload, req, chainId, now, validator)
    ensures CheckMetaTx(p, payload, req, chainId).Some? ==>
      CheckMetaTx(p, payload, req, chainId).value == Failure(8, BAD_META_TX_SIGNATURE)
  {
  }

  lemma TokenRules(p: Platform, payload: Payload, req: Requirements, chainId: nat, now: int,
                   validator: Option<(OptionId, Json) -> Verdict>)
    ensures match CheckTokenAuth(payload, req, now)
      case None => forall n | 9 <= n <= 11 :: RuleHolds(n, p, payload, req, chainId, now, validator)
      case Some(f) =>
        && 9 <= f.rule <= 11 && !RuleHolds(f.rule, p, payload, req, chainId, now, validator)
        && forall n | 9 <= n < f.rule :: RuleHolds(n, p, payload, req, chainId, now, validator)
  {
  }

  /**
   Exactly what the server's signature and token rules demand of any payload: the buyer
   signed, and the authorisation is absent for `none` and otherwise of the announced kind,
   pays exactly the price to the escrow, and lapses by now + M.
   */
  lemma ServerDemandsExactly(p: Platform, payload: Payload, req: Requirements, chainId: nat, now: int)
    ensures CheckMetaTx(p, payload, req, chainId).None? <==>
      var sig := payload.metaTx.sig;
      && sig.v in {0, 1, 27, 28}
      && SignedByBuyer(p, payload, req.escrow, chainId, if sig.v < 27 then sig.(v := sig.v + 27) else sig)
    ensures CheckTokenAuth(payload, req, now).None? <==>
      && CarriesItsKind(payload.strategy, payload.tokenAuth)
      && (payload.tokenAuth.Some? ==> AuthInOrder(payload.tokenAuth.value, req, now))
  {
  }

  /**
   The order of the rules. For any payload, requirements and clock: the server accepts exactly
   when all its rules hold, and the rule it reports is the first that does not.
   */
  lemma FirstFailedRule(p: Platform, payload: Payload, req: Requirements, chainId: nat, now: int,
                        validator: Option<(OptionId, Json) -> Verdict>)
    ensures match ValidatePayload(p, payload, req, chainId, now, validator)
      case None => forall n: nat :: RuleHolds(n, p, payload, req, chainId, now, validator)
      case Some(f) =>
        && !RuleHolds(f.rule, p, payload, req, chainId, now, validator)
        && forall n: nat | n < f.rule :: RuleHolds(n, p, payload, req, chainId, now, validator)
  {
    EchoRules(p, payload, req, chainId, now, validator);
    CalldataRule(p, payload);
    MetaTxRule(p, payload, req, chainId, now, validator);
    TokenRules(p, payload, req, chainId, now, validator);
    CheckFulfillmentIff(req.fulfillment, payload.fulfillment, payload.action, validator);
    var r := ValidatePayload(p, payload, req, chainId, now, validator);
    var last := if r.None? then 13 else r.value.rule;
    forall n: nat | n < last ensures RuleHolds(n, p, payload, req, chainId, now, validator) {
      RuleBelow(n, p, payload, req, chainId, now, validator);
    }
    if r.None? {
      forall n: nat ensures RuleHolds(n, p, payload, req, chainId, now, validator) {
      }
    }
  }

  /** A rule below the reported one has held. */
  lemma RuleBelow(n: nat, p: Platform, payload: Payload, req: Requirements, chainId: nat, now: int,
                  validator: Option<(OptionId, Json) -> Verdict>)
    requires var r := ValidatePayload(p, payload, req, chainId, now, validator); r.None? || n < r.value.rule
    ensures n < 13 ==> RuleHolds(n, p, payload, req, chainId, now, validator)
  {
    EchoRules(p, payload, req, chainId, now, validator);
    CalldataRule(p, payload);
    MetaTxRule(p, payload, req, chainId, now, validator);
    TokenRules(p, payload, req, chainId, now, validator);
  }

  /** The code says what is wrong; the fields of an authorisation are looked at in the order amount, parties, deadline. */
  predicate CodeFits(f: Failure, payload: Payload, req: Requirements, now: int, validator: Option<(OptionId, Json) -> Verdict>) {
    match f.code
    case SCHEME_MISMATCH => f.rule == 1
    case NETWORK_MISMATCH => f.rule == 2
    case FULL_OFFER_MISMATCH => f.rule == 3
    case SELLER_SIG_MISMATCH => f.rule == 4
    case ACTION_NOT_IN_REQUIREMENTS => f.rule == 5
    case TOKEN_AUTH_NOT_IN_REQUIREMENTS => f.rule == 6
    case CALLDATA_MISMATCH => f.rule == 7
    case BAD_META_TX_SIGNATURE => f.rule == 8
    case FULFILLMENT(why) =>
      f.rule == 13 && why == CheckFulfillment(req.fulfillment, payload.fulfillment, payload.action, validator)
    case TOKEN_AUTH_UNEXPECTED => f.rule == 9 && payload.strategy.NONE? && payload.tokenAuth.Some?
    case TOKEN_AUTH_MISSING =>
      f.rule == 9 && !payload.strategy.NONE? && !CarriesItsKind(payload.strategy, payload.tokenAuth)
    case _ =>
      && 9 <= f.rule <= 11 && payload.tokenAuth.Some? && CarriesItsKind(payload.strategy, payload.tokenAuth)
      && TokenCodeFits(f.code, payload.tokenAuth.value, req, now)
  }

  predicate TokenCodeFits(code: Code, auth: TokenAuth, req: Requirements, now: int) {
    var paid := AmountOf(auth) == req.amount;
    var toEscrow := Lower(BeneficiaryOf(auth)) == Lower(req.escrow);
    match code
    case TOKEN_AUTH_AMOUNT_MISMATCH => !paid
    case TOKEN_AUTH_RECIPIENT_MISMATCH => paid && auth.Erc3009Auth? && !toEscrow
    case TOKEN_AUTH_SPENDER_MISMATCH => paid && !auth.Erc3009Auth? && !toEscrow
    case TOKEN_AUTH_TOKEN_MISMATCH => paid && auth.Permit2Auth? && Lower(auth.token) != Lower(req.asset)
    case TOKEN_AUTH_DEADLINE_EXCEEDED => PaysExactly(auth, req, req.escrow) && DeadlineOf(auth) > now + req.maxTimeoutSeconds
    case _ => false
  }

  lemma TokenCode(payload: Payload, req: Requirements, now: int, validator: Option<(OptionId, Json) -> Verdict>)
    requires CheckTokenAuth(payload, req, now).Some?
    ensures CodeFits(CheckTokenAuth(payload, req, now).value, payload, req, now, validator)
  {
  }

  lemma EchoCode(payload: Payload, req: Requirements, now: int, validator: Option<(OptionId, Json) -> Verdict>)
    requires CheckEcho(payload, req).Some?
    ensures CodeFits(CheckEcho(payload, req).value, payload, req, now, validator)
  {
  }

  /** Every refusal carries the code of what is wrong. */
  lemma CodeSaysWhat(p: Platform, payload: Payload, req: Requirements, chainId: nat, now: int,
                     validator: Option<(OptionId, Json) -> Verdict>)
    requires ValidatePayload(p, payload, req, chainId, now, validator).Some?
    ensures CodeFits(ValidatePayload(p, payload, req, chainId, now, validator).value, payload, req, now, validator)
  {
    CalldataRule(p, payload);
    MetaTxRule(p, payload, req, chainId, now, validator);
    if CheckEcho(payload, req).Some? {
      EchoCode(payload, req, now, validator);
    } else if CheckCalldata(p, payload).None? && CheckMetaTx(p, payload, req, chainId).None? && CheckTokenAuth(payload, req, now).Some? {
      TokenCode(payload, req, now, validator);
    }
  }
}
