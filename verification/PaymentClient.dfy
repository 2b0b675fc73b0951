/**
 The buyer's side of a payment: choosing an action and a token-authorisation strategy,
 signing, and assembling the payload that answers a 402 challenge.
 */
module PaymentClient {
  import opened Fulfillment
  import opened Json
  import opened Numerals
  import opened Payment
  import opened Sequences
  import opened Wrappers

  datatype RedeemMode = CommitOnly | CommitAndRedeem | Auto

  datatype Policy = Policy(redeemMode: Option<RedeemMode>, maxAmount: Option<string>, forced: Option<Strategy>)

  type DomainResolver = (Address, nat) -> Domain

  /** `fulfillment` is the buyer's option and data. */
  datatype Config = Config(key: Key, policy: Policy, fulfillment: Option<(OptionId, Json)>,
                           resolver: Option<DomainResolver>, hasPublicClient: bool)

  /**
   What the run draws from outside: the clock, random nonces, and the token's permit nonce
   as read before signing, as used by the SDK while signing, and as read afterwards.
   */
  datatype Env = Env(nowMs: int, metaNonce: nat, authNonce: Hex, permit2Nonce: nat,
                     noncePre: Option<nat>, nonceSdk: nat, noncePost: Option<nat>)

  /** On-chain permit nonces only grow. */
  ghost predicate NoncesGrow(env: Env) {
    env.noncePre.Some? && env.noncePost.Some? ==> env.noncePre.value <= env.nonceSdk <= env.noncePost.value
  }

  datatype ClientError =
    | INVALID_REQUIREMENTS
    | NO_COMPATIBLE_ACTION
    | FULFILLMENT_VALIDATION
    | MAX_AMOUNT_EXCEEDED
    | UNSUPPORTED_NETWORK
    | UNSUPPORTED_TOKEN_AUTH
    | CALLDATA_FAILED
    | INVALID_PAYLOAD

  predicate Offers(next: seq<Advertised>, id: string) {
    exists i | 0 <= i < |next| :: next[i].id == id && next[i].onServer
  }

  function PickAction(next: seq<Advertised>, mode: Option<RedeemMode>): Result<string, ClientError> {
    match if mode.Some? then mode.value else Auto
    case CommitAndRedeem => if Offers(next, FLOW_B) then Ok(FLOW_B) else Err(NO_COMPATIBLE_ACTION)
    case CommitOnly => if Offers(next, FLOW_A) then Ok(FLOW_A) else Err(NO_COMPATIBLE_ACTION)
    case Auto =>
      if Offers(next, FLOW_A) then Ok(FLOW_A)
      else if Offers(next, FLOW_B) then Ok(FLOW_B)
      else Err(NO_COMPATIBLE_ACTION)
  }

  function FindOption(options: seq<FulfillmentOption>, id: OptionId): Option<FulfillmentOption> {
    if options == [] then None
    else if options[0].id == id then Some(options[0])
    else FindOption(options[1..], id)
  }

  function ResolveFulfillment(p: Platform, required: Option<FulfillmentRequirements>, chosen: Option<(OptionId, Json)>)
    : Result<Option<(OptionId, Json)>, ClientError>
  {
    if required.None? || !required.value.required then Ok(None)
    else if chosen.None? then Err(FULFILLMENT_VALIDATION)
    else
      var option := FindOption(required.value.options, chosen.value.0);
      if option.None? then Err(FULFILLMENT_VALIDATION)
      else if option.value.schema.None? && chosen.value.1 != JNull then Err(FULFILLMENT_VALIDATION)
      else if option.value.schema.Some? && !p.matchesSchema(option.value.schema.value, chosen.value.1) then
        Err(FULFILLMENT_VALIDATION)
      else Ok(Some(chosen.value))
  }

  predicate WithinMaxAmount(amount: string, maxAmount: Option<string>) {
    maxAmount.None? || (IsDigits(amount) && IsDigits(maxAmount.value) && DecimalValue(amount) <= DecimalValue(maxAmount.value))
  }

  // ----- token authorisation -----

  const MAX_SAFE_INTEGER: nat := 0x1F_FFFF_FFFF_FFFF

  function ClientChainId(network: string): Option<nat> {
    var id := ParseChainId(network);
    if id.Some? && 0 < id.value <= MAX_SAFE_INTEGER then id else None
  }

  predicate IsAvailable(s: Strategy, cfg: Config) {
    match s
    case ERC3009 => cfg.resolver.Some?
    case PERMIT => cfg.resolver.Some? && cfg.hasPublicClient
    case PERMIT2 => true
    case NONE => false
  }

  const STRATEGY_PREFERENCE := [ERC3009, PERMIT2, PERMIT]

  function ChooseStrategy(preference: seq<Strategy>, advertised: seq<Strategy>, cfg: Config): Option<Strategy> {
    if preference == [] then None
    else if preference[0] in advertised && IsAvailable(preference[0], cfg) then Some(preference[0])
    else ChooseStrategy(preference[1..], advertised, cfg)
  }

  const UNSIGNED := Sig(0, "", "")

  /** The fields the client assembles for a strategy, before signing. */
  function Unsigned(s: Strategy, req: Requirements, buyer: Address, env: Env): TokenAuth
    requires s != NONE
  {
    var deadline := TokenAuthDeadline(req.maxTimeoutSeconds, env.nowMs);
    match s
    case ERC3009 => Erc3009Auth(buyer, req.escrow, req.amount, 0, deadline, env.authNonce, UNSIGNED)
    case PERMIT => PermitAuth(buyer, req.escrow, req.amount, deadline, env.nonceSdk, UNSIGNED)
    case PERMIT2 => Permit2Auth(req.asset, req.amount, req.escrow, env.permit2Nonce, deadline, UNSIGNED)
  }

  /** The domain signed under; Permit2 has its own, which `AuthData` does not take from here. */
  function SigningDomain(cfg: Config, req: Requirements, chainId: nat): Domain {
    if cfg.resolver.Some? then cfg.resolver.value(req.asset, chainId) else Domain("", "", chainId, req.asset)
  }

  function SignAuth(p: Platform, cfg: Config, env: Env, req: Requirements, chainId: nat, s: Strategy)
    : Result<TokenAuth, ClientError>
    requires s != NONE
  {
    if s.PERMIT? && (env.noncePre.None? || env.noncePost.None? || env.noncePre != env.noncePost) then
      Err(UNSUPPORTED_TOKEN_AUTH)
    else
      var auth := Unsigned(s, req, p.address(cfg.key), env);
      var data := AuthData(chainId, SigningDomain(cfg, req, chainId), auth);
      if data.None? then Err(UNSUPPORTED_TOKEN_AUTH)
      else
        var signed := auth.(sig := p.sign(cfg.key, data.value));
        Ok(if s.PERMIT? then signed.(permitNonce := env.noncePre.value) else signed)
  }

  lemma {:induction false} ChosenIsAdvertised(preference: seq<Strategy>, advertised: seq<Strategy>, cfg: Config)
    ensures var s := ChooseStrategy(preference, advertised, cfg);
      s.Some? ==> s.value in advertised && s.value in preference && IsAvailable(s.value, cfg)
  {
    if preference != [] {
      ChosenIsAdvertised(preference[1..], advertised, cfg);
      assert preference == [preference[0]] + preference[1..];
    }
  }

  predicate Usable(s: Strategy, advertised: seq<Strategy>, cfg: Config) {
    s in advertised && IsAvailable(s, cfg)
  }

  ghost predicate FirstUsable(preference: seq<Strategy>, advertised: seq<Strategy>, cfg: Config, s: Strategy) {
    && Usable(s, advertised, cfg)
    && exists k | 0 <= k < |preference| ::
         preference[k] == s && forall j | 0 <= j < k :: !Usable(preference[j], advertised, cfg)
  }

  /** The choice is the first usable strategy in preference order; there is none only if none is usable. */
  lemma {:induction false} ChoiceIsFirstUsable(preference: seq<Strategy>, advertised: seq<Strategy>, cfg: Config)
    ensures match ChooseStrategy(preference, advertised, cfg)
      case None => forall s | s in preference :: !Usable(s, advertised, cfg)
      case Some(s) => FirstUsable(preference, advertised, cfg, s)
  {
    if preference != [] {
      var rest := preference[1..];
      ChoiceIsFirstUsable(rest, advertised, cfg);
      assert preference == [preference[0]] + rest;
      var choice := ChooseStrategy(rest, advertised, cfg);
      if choice.Some? && !Usable(preference[0], advertised, cfg) {
        var k :| 0 <= k < |rest| && rest[k] == choice.value && forall j | 0 <= j < k :: !Usable(rest[j], advertised, cfg);
        assert preference[k + 1] == choice.value;
        assert forall j | 0 < j < k + 1 :: preference[j] == rest[j - 1];
      } else if Usable(preference[0], advertised, cfg) {
        assert preference[0] == ChooseStrategy(preference, advertised, cfg).value;
      }
    }
  }

  function BuildTokenAuth(p: Platform, cfg: Config, env: Env, req: Requirements, chainId: nat, advertised: seq<Strategy>)
    : Result<(Strategy, TokenAuth), ClientError>
  {
    ChosenIsAdvertised(STRATEGY_PREFERENCE, advertised, cfg);
    match ChooseStrategy(STRATEGY_PREFERENCE, advertised, cfg)
    case None => Err(UNSUPPORTED_TOKEN_AUTH)
    case Some(s) =>
      match SignAuth(p, cfg, env, req, chainId, s)
      case Err(e) => Err(e)
      case Ok(auth) => Ok((s, auth))
  }

  /** The policy may force one advertised strategy; `none` carries no authorisation. */
  function ResolveStrategy(p: Platform, cfg: Config, env: Env, req: Requirements, chainId: nat)
    : Result<(Strategy, Option<TokenAuth>), ClientError>
  {
    var forced := cfg.policy.forced;
    if forced.Some? && forced.value !in req.strategies then Err(UNSUPPORTED_TOKEN_AUTH)
    else if forced == Some(NONE) then Ok((NONE, None))
    else
      match BuildTokenAuth(p, cfg, env, req, chainId, if forced.Some? then [forced.value] else req.strategies)
      case Err(e) => Err(e)
      case Ok((s, auth)) => Ok((s, Some(auth)))
  }

  // ----- the meta-transaction and the payload -----

  function SignMetaTx(p: Platform, cfg: Config, env: Env, req: Requirements, chainId: nat, atomic: bool)
    : Result<MetaTx, ClientError>
  {
    var buyer := p.address(cfg.key);
    match p.calldata(atomic, AsArguments(ClientSplice(req.fullOffer, req.sellerSig, buyer)))
    case None => Err(CALLDATA_FAILED)
    case Some(Calldata(functionName, functionSignature)) =>
      var data := MetaTxData(chainId, req.escrow, env.metaNonce, buyer, functionName, functionSignature);
      Ok(MetaTx(buyer, env.metaNonce, functionName, functionSignature, p.sign(cfg.key, data)))
  }

  /** Delivery data rides along only in the atomic flow. */
  function FulfillmentSlot(action: string, resolved: Option<(OptionId, Json)>): Option<Selection> {
    if resolved.None? then None
    else if action == FLOW_B then Some(Selection(resolved.value.0, Some(resolved.value.1)))
    else Some(Selection(resolved.value.0, None))
  }

  function AssemblePayload(p: Platform, req: Requirements, action: string, strategy: Strategy, metaTx: MetaTx,
                           tokenAuth: Option<TokenAuth>, resolved: Option<(OptionId, Json)>, buyer: Address)
    : Result<Payload, ClientError>
  {
    var payload := Payload(ESCROW, req.network, action, strategy, req.fullOffer, req.sellerSig, buyer, metaTx,
                           tokenAuth, FulfillmentSlot(action, resolved));
    if p.payloadSchema(payload) then Ok(payload) else Err(INVALID_PAYLOAD)
  }

  /** The whole answer to a challenge. */
  function Handle402(p: Platform, cfg: Config, env: Env, req: Requirements): Result<Payload, ClientError> {
    if !p.requirementsSchema(req) then Err(INVALID_REQUIREMENTS)
    else
      match PickAction(req.next, cfg.policy.redeemMode)
      case Err(e) => Err(e)
      case Ok(action) =>
        match ResolveFulfillment(p, req.fulfillment, cfg.fulfillment)
        case Err(e) => Err(e)
        case Ok(resolved) =>
          if !WithinMaxAmount(req.amount, cfg.policy.maxAmount) then Err(MAX_AMOUNT_EXCEEDED)
          else
            match ClientChainId(req.network)
            case None => Err(UNSUPPORTED_NETWORK)
            case Some(chainId) =>
              match ResolveStrategy(p, cfg, env, req, chainId)
              case Err(e) => Err(e)
              case Ok((strategy, tokenAuth)) =>
                match SignMetaTx(p, cfg, env, req, chainId, action == FLOW_B)
                case Err(e) => Err(e)
                case Ok(metaTx) =>
                  AssemblePayload(p, req, action, strategy, metaTx, tokenAuth, resolved, p.address(cfg.key))
  }

  // ----- what an answer is -----

  /** The action the policy asks for and the server offers; left to itself the client takes Flow A if it can. */
  predicate ActionFits(mode: Option<RedeemMode>, next: seq<Advertised>, action: string) {
    && Advertised(action, true) in next
    && match if mode.Some? then mode.value else Auto
       case CommitOnly => action == FLOW_A
       case CommitAndRedeem => action == FLOW_B
       case Auto => action == FLOW_A || (action == FLOW_B && Advertised(FLOW_A, true) !in next)
  }

  predicate Accepts(p: Platform, option: FulfillmentOption, data: Json) {
    if option.schema.None? then data == JNull else p.matchesSchema(option.schema.value, data)
  }

  /** The buyer's selection goes along exactly when one is required, and then the first option of its id accepts the data. */
  ghost predicate SelectionFits(p: Platform, required: Option<FulfillmentRequirements>, chosen: Option<(OptionId, Json)>,
                                resolved: Option<(OptionId, Json)>)
  {
    if required.None? || !required.value.required then resolved.None?
    else
      var options := required.value.options;
      && resolved.Some? && resolved == chosen
      && exists k | 0 <= k < |options| ::
           && options[k].id == chosen.value.0 && Accepts(p, options[k], chosen.value.1)
           && forall j | 0 <= j < k :: options[j].id != chosen.value.0
  }

  /**
   The forced strategy if the buyer has what it takes; otherwise ERC-3009 before Permit2 before
   permit: ERC-3009 takes a domain resolver, permit a public client besides, Permit2 nothing.
   Only a forced choice can be `none`.
   */
  ghost predicate StrategyFits(cfg: Config, advertised: seq<Strategy>, s: Strategy) {
    && s in advertised
    && if cfg.policy.forced.Some? then
         && s == cfg.policy.forced.value
         && (s.ERC3009? || s.PERMIT? ==> cfg.resolver.Some?)
         && (s.PERMIT? ==> cfg.hasPublicClient)
       else
         match s
         case NONE => false
         case ERC3009 => cfg.resolver.Some?
         case PERMIT2 => !(ERC3009 in advertised && cfg.resolver.Some?)
         case PERMIT => cfg.resolver.Some? && cfg.hasPublicClient && ERC3009 !in advertised && PERMIT2 !in advertised
  }

  /**
   The authorisation is for the price and the escrow, lapses a minute before the buyer's time is
   up, and carries the buyer's signature over exactly that; a permit's nonce did not move meanwhile.
   */
  ghost predicate AuthSigned(p: Platform, cfg: Config, env: Env, req: Requirements, chainId: nat, s: Strategy, auth: TokenAuth)
    requires s != NONE
  {
    var buyer, price := p.address(cfg.key), req.amount;
    var deadline := env.nowMs / 1000 + if req.maxTimeoutSeconds > 61 then req.maxTimeoutSeconds - 60 else 1;
    IsDigits(price) &&
    match s
    case ERC3009 =>
      && cfg.resolver.Some?
      && var data := ReceiveWithAuthorization(cfg.resolver.value(req.asset, chainId), Lower(buyer), Lower(req.escrow),
                                              DecimalValue(price), 0, deadline, Lower(env.authNonce));
         auth == Erc3009Auth(buyer, req.escrow, price, 0, deadline, env.authNonce, p.sign(cfg.key, data))
    case PERMIT =>
      && cfg.resolver.Some? && env.noncePre.Some? && env.noncePost == env.noncePre
      && var data := PermitMessage(cfg.resolver.value(req.asset, chainId), Lower(buyer), Lower(req.escrow),
                                   DecimalValue(price), env.nonceSdk, deadline);
         auth == PermitAuth(buyer, req.escrow, price, deadline, env.noncePre.value, p.sign(cfg.key, data))
    case PERMIT2 =>
      var data := PermitTransferFrom(chainId, Lower(req.asset), DecimalValue(price), Lower(req.escrow), env.permit2Nonce, deadline);
      auth == Permit2Auth(req.asset, price, req.escrow, env.permit2Nonce, deadline, p.sign(cfg.key, data))
  }

  ghost predicate AuthBuilt(p: Platform, cfg: Config, env: Env, req: Requirements, chainId: nat, s: Strategy, auth: Option<TokenAuth>) {
    && StrategyFits(cfg, req.strategies, s)
    && (s == NONE <==> auth.None?)
    && (auth.Some? ==> AuthSigned(p, cfg, env, req, chainId, s, auth.value))
  }

  /** The meta-transaction carries the calldata of the offer and the buyer's signature over exactly itself. */
  ghost predicate MetaTxSigned(p: Platform, cfg: Config, env: Env, req: Requirements, chainId: nat, atomic: bool, m: MetaTx) {
    var buyer := p.address(cfg.key);
    && p.calldata(atomic, CommitArguments(req.fullOffer, req.sellerSig, buyer)) == Some(Calldata(m.functionName, m.functionSignature))
    && m.from == buyer && m.nonce == env.metaNonce
    && m.sig == p.sign(cfg.key, MetaTransaction(chainId, Lower(req.escrow), m.nonce, Lower(buyer), m.functionName,
                                                Lower(m.functionSignature)))
  }

  /** The price is no more than the policy's ceiling, if it sets one; both then have to be numbers. */
  ghost predicate Affordable(amount: string, ceiling: Option<string>) {
    ceiling.Some? ==>
      IsDigits(amount) && IsDigits(ceiling.value) && DecimalValue(amount) <= DecimalValue(ceiling.value)
  }

  /** The chain the network names, where a JavaScript number can hold its id. */
  ghost predicate OnChain(network: string, chainId: nat) {
    ParseChainId(network) == Some(chainId) && 0 < chainId <= 9007199254740991
  }

  /** `payload` is a proper answer to `req` under the policy: everything a caller may rely on. */
  ghost predicate Built(p: Platform, cfg: Config, env: Env, req: Requirements, chainId: nat, payload: Payload) {
    && p.requirementsSchema(req) && p.payloadSchema(payload)
    && OnChain(req.network, chainId)
    && Affordable(req.amount, cfg.policy.maxAmount)
    && payload.scheme == "escrow" && payload.network == req.network
    && payload.fullOffer == req.fullOffer && payload.sellerSig == req.sellerSig
    && payload.buyer == p.address(cfg.key)
    && ActionFits(cfg.policy.redeemMode, req.next, payload.action)
    && MetaTxSigned(p, cfg, env, req, chainId, payload.action == FLOW_B, payload.metaTx)
    && AuthBuilt(p, cfg, env, req, chainId, payload.strategy, payload.tokenAuth)
    && exists resolved ::
         && SelectionFits(p, req.fulfillment, cfg.fulfillment, resolved)
         && match resolved
            case None => payload.fulfillment.None?
            case Some((option, data)) =>
              payload.fulfillment == Some(Selection(option, if payload.action == FLOW_B then Some(data) else None))
  }

  ghost predicate Answers(p: Platform, cfg: Config, env: Env, req: Requirements, payload: Payload) {
    exists chainId :: Built(p, cfg, env, req, chainId, payload)
  }

  // ----- the client gives exactly the proper answer -----

  lemma OffersIff(next: seq<Advertised>, id: string)
    ensures Offers(next, id) <==> Advertised(id, true) in next
  {
    if Advertised(id, true) in next {
      var i :| 0 <= i < |next| && next[i] == Advertised(id, true);
    }
  }

  lemma PickActionIff(next: seq<Advertised>, mode: Option<RedeemMode>)
    ensures forall action :: PickAction(next, mode) == Ok(action) <==> ActionFits(mode, next, action)
  {
    assert FLOW_A != FLOW_B by {
      assert |FLOW_A| != |FLOW_B|;
    }
    OffersIff(next, FLOW_A);
    OffersIff(next, FLOW_B);
  }

  lemma {:induction false} FindOptionFirst(options: seq<FulfillmentOption>, id: OptionId)
    ensures match FindOption(options, id)
      case None => forall k | 0 <= k < |options| :: options[k].id != id
      case Some(o) => exists k | 0 <= k < |options| :: options[k] == o && o.id == id && forall j | 0 <= j < k :: options[j].id != id
  {
    if options != [] && options[0].id != id {
      var rest := options[1..];
      FindOptionFirst(rest, id);
      assert options == [options[0]] + rest;
      if FindOption(rest, id).Some? {
        var o := FindOption(rest, id).value;
        var k :| 0 <= k < |rest| && rest[k] == o && o.id == id && forall j | 0 <= j < k :: rest[j].id != id;
        assert options[k + 1] == o;
        assert forall j | 0 < j < k + 1 :: options[j] == rest[j - 1];
      }
    }
  }

  lemma ResolveIff(p: Platform, required: Option<FulfillmentRequirements>, chosen: Option<(OptionId, Json)>)
    ensures forall resolved :: ResolveFulfillment(p, required, chosen) == Ok(resolved) <==>
      SelectionFits(p, required, chosen, resolved)
  {
    if required.Some? && required.value.required && chosen.Some? {
      FindOptionFirst(required.value.options, chosen.value.0);
    }
  }

  lemma SignAuthIff(p: Platform, cfg: Config, env: Env, req: Requirements, chainId: nat, s: Strategy, auth: TokenAuth)
    requires s != NONE && IsAvailable(s, cfg)
    ensures SignAuth(p, cfg, env, req, chainId, s) == Ok(auth) <==> AuthSigned(p, cfg, env, req, chainId, s, auth)
  {
    DeadlineMeans(req.maxTimeoutSeconds, env.nowMs);
  }

  lemma SignMetaTxIff(p: Platform, cfg: Config, env: Env, req: Requirements, chainId: nat, atomic: bool)
    ensures forall m :: SignMetaTx(p, cfg, env, req, chainId, atomic) == Ok(m) <==> MetaTxSigned(p, cfg, env, req, chainId, atomic, m)
  {
    SplicesAgree(req.fullOffer, req.sellerSig, p.address(cfg.key));
  }

  lemma ForcedChoice(cfg: Config, s: Strategy)
    requires s != NONE
    ensures ChooseStrategy(STRATEGY_PREFERENCE, [s], cfg) == if IsAvailable(s, cfg) then Some(s) else None
  {
    ChoiceIsFirstUsable(STRATEGY_PREFERENCE, [s], cfg);
    assert STRATEGY_PREFERENCE == [ERC3009, PERMIT2, PERMIT];
    assert s in STRATEGY_PREFERENCE;
  }

  /** The preference order, written out. */
  lemma PreferenceMeans(cfg: Config, advertised: seq<Strategy>)
    ensures ChooseStrategy(STRATEGY_PREFERENCE, advertised, cfg) ==
      if ERC3009 in advertised && cfg.resolver.Some? then Some(ERC3009)
      else if PERMIT2 in advertised then Some(PERMIT2)
      else if PERMIT in advertised && cfg.resolver.Some? && cfg.hasPublicClient then Some(PERMIT)
      else None
  {
    assert STRATEGY_PREFERENCE[1..] == [PERMIT2, PERMIT] && [PERMIT2, PERMIT][1..] == [PERMIT] && [PERMIT][1..] == [];
    var permit := if Usable(PERMIT, advertised, cfg) then Some(PERMIT) else None;
    assert ChooseStrategy([], advertised, cfg) == None;
    assert ChooseStrategy([PERMIT], advertised, cfg) == permit;
    assert ChooseStrategy([PERMIT2, PERMIT], advertised, cfg) == if Usable(PERMIT2, advertised, cfg) then Some(PERMIT2) else permit;
  }

  /** The ceiling is a comparison of numbers. */
  lemma CeilingMeans(amount: nat, ceiling: nat)
    ensures WithinMaxAmount(Decimal(amount), Some(Decimal(ceiling))) <==> amount <= ceiling
  {
    ValueOfDecimal(amount);
    ValueOfDecimal(ceiling);
  }

  /** The strategy the dispatcher is asked to sign for, if any. */
  function Wanted(cfg: Config, advertised: seq<Strategy>): Option<Strategy> {
    ChooseStrategy(STRATEGY_PREFERENCE, if cfg.policy.forced.Some? then [cfg.policy.forced.value] else advertised, cfg)
  }

  lemma WantedIff(cfg: Config, advertised: seq<Strategy>, s: Strategy)
    requires cfg.policy.forced.Some? ==> cfg.policy.forced.value in advertised && cfg.policy.forced != Some(NONE)
    ensures Wanted(cfg, advertised) == Some(s) <==> StrategyFits(cfg, advertised, s)
  {
    if cfg.policy.forced.Some? {
      ForcedChoice(cfg, cfg.policy.forced.value);
    } else {
      PreferenceMeans(cfg, advertised);
    }
  }

  lemma StrategyIff(p: Platform, cfg: Config, env: Env, req: Requirements, chainId: nat, s: Strategy, auth: Option<TokenAuth>)
    ensures ResolveStrategy(p, cfg, env, req, chainId) == Ok((s, auth)) <==> AuthBuilt(p, cfg, env, req, chainId, s, auth)
  {
    var forced := cfg.policy.forced;
    if forced.None? || (forced.value in req.strategies && forced.value != NONE) {
      WantedIff(cfg, req.strategies, s);
      ChosenIsAdvertised(STRATEGY_PREFERENCE, if forced.Some? then [forced.value] else req.strategies, cfg);
      if auth.Some? && s != NONE && IsAvailable(s, cfg) {
        SignAuthIff(p, cfg, env, req, chainId, s, auth.value);
      }
    }
  }

  lemma HandleIff(p: Platform, cfg: Config, env: Env, req: Requirements, payload: Payload)
    ensures Handle402(p, cfg, env, req) == Ok(payload) <==> Answers(p, cfg, env, req, payload)
  {
    PickActionIff(req.next, cfg.policy.redeemMode);
    ResolveIff(p, req.fulfillment, cfg.fulfillment);
    if ClientChainId(req.network).Some? {
      var chainId := ClientChainId(req.network).value;
      StrategyIff(p, cfg, env, req, chainId, payload.strategy, payload.tokenAuth);
      SignMetaTxIff(p, cfg, env, req, chainId, payload.action == FLOW_B);
      if Handle402(p, cfg, env, req) == Ok(payload) {
        assert Built(p, cfg, env, req, chainId, payload);
      }
    }
  }

  // ----- and every refusal names the first obstacle -----

  /** The order in which the client looks. */
  function Stage(e: ClientError): nat {
    match e
    case INVALID_REQUIREMENTS => 0
    case NO_COMPATIBLE_ACTION => 1
    case FULFILLMENT_VALIDATION => 2
    case MAX_AMOUNT_EXCEEDED => 3
    case UNSUPPORTED_NETWORK => 4
    case UNSUPPORTED_TOKEN_AUTH => 5
    case CALLDATA_FAILED => 6
    case INVALID_PAYLOAD => 7
  }

  /** Nothing of the kind that `e` names stands in the way of an answer. */
  ghost predicate Clears(p: Platform, cfg: Config, env: Env, req: Requirements, e: ClientError) {
    match e
    case INVALID_REQUIREMENTS => p.requirementsSchema(req)
    case NO_COMPATIBLE_ACTION => exists action :: ActionFits(cfg.policy.redeemMode, req.next, action)
    case FULFILLMENT_VALIDATION => exists resolved :: SelectionFits(p, req.fulfillment, cfg.fulfillment, resolved)
    case MAX_AMOUNT_EXCEEDED => Affordable(req.amount, cfg.policy.maxAmount)
    case UNSUPPORTED_NETWORK => exists chainId :: OnChain(req.network, chainId)
    case UNSUPPORTED_TOKEN_AUTH =>
      exists chainId, s, auth :: OnChain(req.network, chainId) && AuthBuilt(p, cfg, env, req, chainId, s, auth)
    case CALLDATA_FAILED =>
      exists action, m :: MetaTxFor(p, cfg, env, req, action, m)
    case INVALID_PAYLOAD => exists payload :: Answers(p, cfg, env, req, payload)
  }

  /** A signed meta-transaction for the action the policy picks. */
  ghost predicate MetaTxFor(p: Platform, cfg: Config, env: Env, req: Requirements, action: string, m: MetaTx) {
    && ActionFits(cfg.policy.redeemMode, req.next, action)
    && exists chainId :: OnChain(req.network, chainId) && MetaTxSigned(p, cfg, env, req, chainId, action == FLOW_B, m)
  }

  ghost predicate FirstObstacle(p: Platform, cfg: Config, env: Env, req: Requirements, e: ClientError) {
    && !Clears(p, cfg, env, req, e)
    && forall earlier: ClientError | Stage(earlier) < Stage(e) :: Clears(p, cfg, env, req, earlier)
  }

  lemma StrategyClears(p: Platform, cfg: Config, env: Env, req: Requirements)
    requires ClientChainId(req.network).Some? && ResolveStrategy(p, cfg, env, req, ClientChainId(req.network).value).Ok?
    ensures Clears(p, cfg, env, req, UNSUPPORTED_TOKEN_AUTH)
  {
    var chainId := ClientChainId(req.network).value;
    var (s, auth) := ResolveStrategy(p, cfg, env, req, chainId).value;
    StrategyIff(p, cfg, env, req, chainId, s, auth);
    assert OnChain(req.network, chainId);
  }

  lemma CalldataClears(p: Platform, cfg: Config, env: Env, req: Requirements, action: string)
    requires ClientChainId(req.network).Some? && ActionFits(cfg.policy.redeemMode, req.next, action)
    requires SignMetaTx(p, cfg, env, req, ClientChainId(req.network).value, action == FLOW_B).Ok?
    ensures Clears(p, cfg, env, req, CALLDATA_FAILED)
  {
    var chainId := ClientChainId(req.network).value;
    var m := SignMetaTx(p, cfg, env, req, chainId, action == FLOW_B).value;
    SignMetaTxIff(p, cfg, env, req, chainId, action == FLOW_B);
    assert OnChain(req.network, chainId) && MetaTxSigned(p, cfg, env, req, chainId, action == FLOW_B, m);
    assert MetaTxFor(p, cfg, env, req, action, m);
  }

  lemma RefusalClears(p: Platform, cfg: Config, env: Env, req: Requirements, e: ClientError)
    requires Handle402(p, cfg, env, req) == Err(e)
    ensures forall earlier: ClientError | Stage(earlier) < Stage(e) :: Clears(p, cfg, env, req, earlier)
  {
    PickActionIff(req.next, cfg.policy.redeemMode);
    ResolveIff(p, req.fulfillment, cfg.fulfillment);
    if Stage(e) > Stage(NO_COMPATIBLE_ACTION) {
      var action := PickAction(req.next, cfg.policy.redeemMode).value;
      assert ActionFits(cfg.policy.redeemMode, req.next, action);
      if Stage(e) > Stage(FULFILLMENT_VALIDATION) {
        assert SelectionFits(p, req.fulfillment, cfg.fulfillment, ResolveFulfillment(p, req.fulfillment, cfg.fulfillment).value);
      }
      if Stage(e) > Stage(UNSUPPORTED_NETWORK) {
        assert OnChain(req.network, ClientChainId(req.network).value);
      }
      if Stage(e) > Stage(UNSUPPORTED_TOKEN_AUTH) {
        StrategyClears(p, cfg, env, req);
      }
      if Stage(e) > Stage(CALLDATA_FAILED) {
        CalldataClears(p, cfg, env, req, action);
      }
    }
  }

  lemma StrategyRefused(p: Platform, cfg: Config, env: Env, req: Requirements, chainId: nat)
    requires ResolveStrategy(p, cfg, env, req, chainId).Err?
    ensures forall s, auth :: !AuthBuilt(p, cfg, env, req, chainId, s, auth)
  {
    forall s, auth ensures !AuthBuilt(p, cfg, env, req, chainId, s, auth) {
      StrategyIff(p, cfg, env, req, chainId, s, auth);
    }
  }

  lemma RefusalIsObstacle(p: Platform, cfg: Config, env: Env, req: Requirements, e: ClientError)
    requires Handle402(p, cfg, env, req) == Err(e)
    ensures !Clears(p, cfg, env, req, e)
  {
    match e
    case UNSUPPORTED_TOKEN_AUTH => StrategyRefused(p, cfg, env, req, ClientChainId(req.network).value);
    case CALLDATA_FAILED => CalldataRefused(p, cfg, env, req, PickAction(req.next, cfg.policy.redeemMode).value);
    case INVALID_PAYLOAD => NoAnswer(p, cfg, env, req);
    case _ =>
      RefusedAt(p, cfg, env, req, e);
      EarlyObstacle(p, cfg, env, req, e);
  }

  /** Which check refused. */
  lemma RefusedAt(p: Platform, cfg: Config, env: Env, req: Requirements, e: ClientError)
    requires Handle402(p, cfg, env, req) == Err(e)
    ensures match e
      case INVALID_REQUIREMENTS => !p.requirementsSchema(req)
      case NO_COMPATIBLE_ACTION => PickAction(req.next, cfg.policy.redeemMode).Err?
      case FULFILLMENT_VALIDATION => ResolveFulfillment(p, req.fulfillment, cfg.fulfillment).Err?
      case MAX_AMOUNT_EXCEEDED => !WithinMaxAmount(req.amount, cfg.policy.maxAmount)
      case UNSUPPORTED_NETWORK => ClientChainId(req.network).None?
      case _ => true
  {
  }

  lemma EarlyObstacle(p: Platform, cfg: Config, env: Env, req: Requirements, e: ClientError)
    requires Stage(e) <= Stage(UNSUPPORTED_NETWORK)
    requires match e
      case INVALID_REQUIREMENTS => !p.requirementsSchema(req)
      case NO_COMPATIBLE_ACTION => PickAction(req.next, cfg.policy.redeemMode).Err?
      case FULFILLMENT_VALIDATION => ResolveFulfillment(p, req.fulfillment, cfg.fulfillment).Err?
      case MAX_AMOUNT_EXCEEDED => !WithinMaxAmount(req.amount, cfg.policy.maxAmount)
      case UNSUPPORTED_NETWORK => ClientChainId(req.network).None?
      case _ => true
    ensures !Clears(p, cfg, env, req, e)
  {
    PickActionIff(req.next, cfg.policy.redeemMode);
    ResolveIff(p, req.fulfillment, cfg.fulfillment);
  }

  lemma CalldataRefused(p: Platform, cfg: Config, env: Env, req: Requirements, action: string)
    requires PickAction(req.next, cfg.policy.redeemMode) == Ok(action) && ClientChainId(req.network).Some?
    requires SignMetaTx(p, cfg, env, req, ClientChainId(req.network).value, action == FLOW_B).Err?
    ensures forall a, m :: !MetaTxFor(p, cfg, env, req, a, m)
  {
    PickActionIff(req.next, cfg.policy.redeemMode);
    SignMetaTxIff(p, cfg, env, req, ClientChainId(req.network).value, action == FLOW_B);
  }

  lemma NoAnswer(p: Platform, cfg: Config, env: Env, req: Requirements)
    requires Handle402(p, cfg, env, req).Err?
    ensures forall payload :: !Answers(p, cfg, env, req, payload)
  {
    forall payload ensures !Answers(p, cfg, env, req, payload) {
      HandleIff(p, cfg, env, req, payload);
    }
  }

  /** `r` is a proper answer, which there is at most one of, or names the first obstacle to any. */
  ghost predicate Proper(p: Platform, cfg: Config, env: Env, req: Requirements, r: Result<Payload, ClientError>) {
    match r
    case Ok(payload) => forall other :: Answers(p, cfg, env, req, other) <==> other == payload
    case Err(e) => FirstObstacle(p, cfg, env, req, e)
  }

  lemma HandleIsProper(p: Platform, cfg: Config, env: Env, req: Requirements)
    ensures Proper(p, cfg, env, req, Handle402(p, cfg, env, req))
  {
    match Handle402(p, cfg, env, req)
    case Ok(payload) =>
      forall other ensures Answers(p, cfg, env, req, other) <==> other == payload {
        HandleIff(p, cfg, env, req, other);
      }
    case Err(e) =>
      RefusalClears(p, cfg, env, req, e);
      RefusalIsObstacle(p, cfg, env, req, e);
  }

  /**
   `handle402` in the source's form, assigning `strategy` and `tokenAuth` branch by branch.
   It gives the one proper answer to the challenge under the buyer's policy, and when there
   is none it names the first obstacle in the order the client looks.
   */
  method HandleChallenge(p: Platform, cfg: Config, env: Env, req: Requirements) returns (r: Result<Payload, ClientError>)
    ensures r == Handle402(p, cfg, env, req)
    ensures Proper(p, cfg, env, req, r)
  {
    HandleIsProper(p, cfg, env, req);
    if !p.requirementsSchema(req) {
      return Err(INVALID_REQUIREMENTS);
    }
    var action := PickAction(req.next, cfg.policy.redeemMode);
    if action.Err? {
      return Err(action.error);
    }
    var fulfillment := ResolveFulfillment(p, req.fulfillment, cfg.fulfillment);
    if fulfillment.Err? {
      return Err(fulfillment.error);
    }
    if !WithinMaxAmount(req.amount, cfg.policy.maxAmount) {
      return Err(MAX_AMOUNT_EXCEEDED);
    }
    var buyer, chainId := p.address(cfg.key), ClientChainId(req.network);
    if chainId.None? {
      return Err(UNSUPPORTED_NETWORK);
    }
    var tokenAuth: Option<TokenAuth>, strategy: Strategy := None, NONE;
    var forced := cfg.policy.forced;
    if forced.Some? {
      if forced.value !in req.strategies {
        return Err(UNSUPPORTED_TOKEN_AUTH);
      }
      if !forced.value.NONE? {
        var built := BuildTokenAuth(p, cfg, env, req, chainId.value, [forced.value]);
        if built.Err? {
          return Err(built.error);
        }
        strategy, tokenAuth := built.value.0, Some(built.value.1);
      }
    } else {
      var built := BuildTokenAuth(p, cfg, env, req, chainId.value, req.strategies);
      if built.Err? {
        return Err(built.error);
      }
      strategy, tokenAuth := built.value.0, Some(built.value.1);
    }
    var metaTx := SignMetaTx(p, cfg, env, req, chainId.value, action.value == FLOW_B);
    if metaTx.Err? {
      return Err(metaTx.error);
    }
    r := AssemblePayload(p, req, action.value, strategy, metaTx.value, tokenAuth, fulfillment.value, buyer);
  }

  lemma EmittedIsBuilt(p: Platform, cfg: Config, env: Env, req: Requirements, payload: Payload) returns (chainId: nat)
    requires Handle402(p, cfg, env, req) == Ok(payload)
    ensures Built(p, cfg, env, req, chainId, payload)
  {
    HandleIff(p, cfg, env, req, payload);
    chainId :| Built(p, cfg, env, req, chainId, payload);
  }
}
