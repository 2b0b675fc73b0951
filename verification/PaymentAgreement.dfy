/**
 Three-party agreement: what the client emits, the server and the facilitator accept, and
 exactly when clocks make the difference; and what a server's acceptance of an arbitrary
 payload guarantees at the facilitator.
 */
module PaymentAgreement {
  import opened CanonicalJson
  import opened Fulfillment
  import opened Json
  import opened Numerals
  import opened Payment
  import opened Sequences
  import opened Wrappers
  import PaymentClient
  import PaymentFacilitator
  import PaymentServer

  // ----- the server's rules on an emitted payload -----

  lemma EmittedEcho(p: Platform, cfg: PaymentClient.Config, env: PaymentClient.Env, req: Requirements, chainId: nat, payload: Payload)
    requires SchemaSays(p) && PaymentClient.Built(p, cfg, env, req, chainId, payload)
    ensures PaymentServer.CheckEcho(payload, req).None?
  {
    DeepEqualReflexive(JObject(req.fullOffer));
    var i :| 0 <= i < |req.next| && req.next[i].id == payload.action && req.next[i].onServer;
  }

  lemma EmittedCalldata(p: Platform, cfg: PaymentClient.Config, env: PaymentClient.Env, req: Requirements, chainId: nat, payload: Payload)
    requires PaymentClient.Built(p, cfg, env, req, chainId, payload)
    ensures PaymentServer.CheckCalldata(p, payload).None?
    ensures PaymentFacilitator.CheckCalldata(p, payload, req).None?
  {
    SplicesAgree(req.fullOffer, req.sellerSig, payload.buyer);
  }

  lemma EmittedMetaTx(p: Platform, cfg: PaymentClient.Config, env: PaymentClient.Env, req: Requirements, chainId: nat,
                      payload: Payload, escrow: Address)
    requires Trustworthy(p) && PaymentClient.Built(p, cfg, env, req, chainId, payload)
    requires Lower(escrow) == Lower(req.escrow)
    ensures PaymentServer.CheckMetaTx(p, payload, req, chainId).None?
    ensures PaymentFacilitator.CheckMetaTx(p, payload, escrow, chainId).None?
  {
    var m := payload.metaTx;
    var data := MetaTxData(chainId, req.escrow, m.nonce, m.from, m.functionName, m.functionSignature);
    assert m.sig == p.sign(cfg.key, data);
    assert PaymentFacilitator.LegacyV(m.sig) && PaymentServer.NormaliseV(m.sig) == Some(m.sig);
  }

  /** The field-by-field content of a signed authorisation. */
  lemma SignedFields(p: Platform, cfg: PaymentClient.Config, env: PaymentClient.Env, req: Requirements, chainId: nat, s: Strategy, auth: TokenAuth)
    requires s != NONE && PaymentClient.NoncesGrow(env)
    requires PaymentClient.AuthSigned(p, cfg, env, req, chainId, s, auth)
    ensures StrategyOf(auth) == s && AmountOf(auth) == req.amount
    ensures DeadlineOf(auth) == TokenAuthDeadline(req.maxTimeoutSeconds, env.nowMs)
    ensures auth == PaymentClient.Unsigned(s, req, p.address(cfg.key), env).(sig := auth.sig)
    ensures var data := AuthData(chainId, PaymentClient.SigningDomain(cfg, req, chainId), auth);
      data.Some? && auth.sig == p.sign(cfg.key, data.value)
  {
  }

  lemma EmittedTokenAuth(p: Platform, cfg: PaymentClient.Config, env: PaymentClient.Env, req: Requirements, chainId: nat,
                         payload: Payload, t: int)
    requires SchemaSays(p) && PaymentClient.NoncesGrow(env) && PaymentClient.Built(p, cfg, env, req, chainId, payload)
    ensures PaymentServer.CheckTokenAuth(payload, req, t).None? <==>
      payload.strategy.NONE? || env.nowMs / 1000 - t <= Grace(req.maxTimeoutSeconds)
  {
    if !payload.strategy.NONE? {
      SignedFields(p, cfg, env, req, chainId, payload.strategy, payload.tokenAuth.value);
      ExactHorizon(req.maxTimeoutSeconds, env.nowMs, t);
    }
  }

  /** The server's data validator accepts the delivery data, if the payload carries any. */
  ghost predicate DataAccepted(payload: Payload, validator: Option<(OptionId, Json) -> Verdict>) {
    payload.fulfillment.Some? && payload.fulfillment.value.data.Some? && validator.Some? ==>
      validator.value(payload.fulfillment.value.option, payload.fulfillment.value.data.value).Accepted?
  }

  lemma EmittedRule13(p: Platform, cfg: PaymentClient.Config, env: PaymentClient.Env, req: Requirements, chainId: nat,
                      payload: Payload, validator: Option<(OptionId, Json) -> Verdict>)
    requires PaymentClient.Built(p, cfg, env, req, chainId, payload) && DataAccepted(payload, validator)
    ensures PaymentServer.CheckRule13(payload, req, validator).None?
  {
    var resolved :|
      && PaymentClient.SelectionFits(p, req.fulfillment, cfg.fulfillment, resolved)
      && payload.fulfillment == PaymentClient.FulfillmentSlot(payload.action, resolved);
    if resolved.Some? {
      var options := req.fulfillment.value.options;
      var k :| 0 <= k < |options| && options[k].id == resolved.value.0;
      assert AdvertisedIds(req.fulfillment)[k] == resolved.value.0;
    }
  }

  /**
   Client to server. For all requirements, policies, keys, nonces and clocks: a payload the
   client emits passes all thirteen rules on those requirements if and only if it carries
   no token authorisation or the server's clock lags the client's by at most min(60, M - 1)
   seconds, given that the per-channel validator accepts the delivery data.
   */
  lemma ServerAcceptsEmittedIff(p: Platform, cfg: PaymentClient.Config, env: PaymentClient.Env, req: Requirements,
                                payload: Payload, chainId: nat, t: int, validator: Option<(OptionId, Json) -> Verdict>)
    requires Trustworthy(p) && SchemaSays(p) && PaymentClient.NoncesGrow(env)
    requires PaymentClient.Handle402(p, cfg, env, req) == Ok(payload)
    requires ParseChainId(req.network) == Some(chainId) && DataAccepted(payload, validator)
    ensures PaymentServer.ValidatePayload(p, payload, req, chainId, t, validator).None? <==>
      payload.strategy.NONE? || env.nowMs / 1000 - t <= Grace(req.maxTimeoutSeconds)
  {
    var id := PaymentClient.EmittedIsBuilt(p, cfg, env, req, payload);
    EmittedEcho(p, cfg, env, req, chainId, payload);
    EmittedCalldata(p, cfg, env, req, chainId, payload);
    EmittedMetaTx(p, cfg, env, req, chainId, payload, req.escrow);
    EmittedTokenAuth(p, cfg, env, req, chainId, payload, t);
    EmittedRule13(p, cfg, env, req, chainId, payload, validator);
  }

  // ----- the facilitator's steps on an emitted payload -----

  /** The operator relays for this network and for the escrow the requirements name. */
  ghost predicate Serves(config: PaymentFacilitator.Config, req: Requirements) {
    && req.network in config.supportedNetworks && config.hasAccount
    && req.network in config.escrows && config.escrows[req.network] != []
    && Lower(config.escrows[req.network]) == Lower(req.escrow)
  }

  /** The client's resolver returns the domain the token itself reports. */
  ghost predicate DomainsAgree(p: Platform, cfg: PaymentClient.Config) {
    cfg.resolver.Some? ==> forall a, c :: p.tokenDomain(a, c) == Some(cfg.resolver.value(a, c))
  }

  function InputFor(payload: Payload, req: Requirements): PaymentFacilitator.Input {
    PaymentFacilitator.Input(ESCROW, req.network, payload, req)
  }

  lemma EmittedBeforeSignatures(p: Platform, le: KeyOrder, cfg: PaymentClient.Config, env: PaymentClient.Env, req: Requirements,
                                chainId: nat, payload: Payload, config: PaymentFacilitator.Config)
    requires SchemaSays(p) && PaymentClient.NoncesGrow(env) && PaymentClient.Built(p, cfg, env, req, chainId, payload)
    requires Serves(config, req)
    ensures PaymentFacilitator.CheckBeforeSignatures(p, le, config, InputFor(payload, req)) ==
      Ok((chainId, config.escrows[req.network]))
  {
    var input := InputFor(payload, req);
    var i :| 0 <= i < |req.next| && req.next[i].id == payload.action && req.next[i].onServer;
    assert PaymentFacilitator.CheckEnvelope(p, config, input).None?;
    assert PaymentFacilitator.CheckOffer(le, payload, req).None?;
    EmittedCalldata(p, cfg, env, req, chainId, payload);
    if !payload.strategy.NONE? {
      SignedFields(p, cfg, env, req, chainId, payload.strategy, payload.tokenAuth.value);
    }
    assert PaymentFacilitator.CheckStrategy(payload, req).None?;
  }

  /** When the facilitator's clock lets an authorisation made at `nowMs` through. */
  predicate InTime(s: Strategy, maxTimeoutSeconds: int, nowMs: int, f: int) {
    var c, g := nowMs / 1000, Grace(maxTimeoutSeconds);
    c - f <= g && f - c < maxTimeoutSeconds - g && (s.ERC3009? ==> f > 0)
  }

  lemma EmittedFieldsMatch(p: Platform, cfg: PaymentClient.Config, env: PaymentClient.Env, req: Requirements, chainId: nat,
                           s: Strategy, auth: TokenAuth, escrow: Address, f: int)
    requires Trustworthy(p) && PaymentClient.NoncesGrow(env) && req.maxTimeoutSeconds >= 1 && s != NONE
    requires PaymentClient.AuthSigned(p, cfg, env, req, chainId, s, auth) && Lower(escrow) == Lower(req.escrow)
    ensures PaymentFacilitator.AuthFieldsMatch(auth, p.address(cfg.key), escrow, req, f) <==>
      InTime(s, req.maxTimeoutSeconds, env.nowMs, f)
  {
    SignedFields(p, cfg, env, req, chainId, s, auth);
    ExactSkewBound(req.maxTimeoutSeconds, env.nowMs, f);
    assert PaymentFacilitator.LegacyV(auth.sig);
  }

  lemma EmittedAuthRecovers(p: Platform, cfg: PaymentClient.Config, env: PaymentClient.Env, req: Requirements, chainId: nat,
                            payload: Payload, escrow: Address, f: int)
    requires Trustworthy(p) && SchemaSays(p) && PaymentClient.NoncesGrow(env) && DomainsAgree(p, cfg)
    requires PaymentClient.Built(p, cfg, env, req, chainId, payload) && Lower(escrow) == Lower(req.escrow)
    ensures PaymentFacilitator.CheckTokenAuth(p, payload, req, escrow, chainId, f).None? <==>
      payload.strategy.NONE? || InTime(payload.strategy, req.maxTimeoutSeconds, env.nowMs, f)
  {
    if !payload.strategy.NONE? {
      var s, auth := payload.strategy, payload.tokenAuth.value;
      SignedFields(p, cfg, env, req, chainId, s, auth);
      EmittedFieldsMatch(p, cfg, env, req, chainId, s, auth, escrow, f);
      assert s.PERMIT2? || PaymentFacilitator.AuthDomain(p, auth, req, chainId) == Some(PaymentClient.SigningDomain(cfg, req, chainId));
      var data := AuthData(chainId, PaymentClient.SigningDomain(cfg, req, chainId), auth).value;
      assert AuthData(chainId, PaymentFacilitator.AuthDomain(p, auth, req, chainId).value, auth) == Some(data);
      assert p.recover(data, p.sign(cfg.key, data)).Some?;
    }
  }

  /**
   Client to facilitator. On an escrow the operator serves, the same payload passes every
   step before the simulation if and only if it carries no token authorisation or the
   facilitator's second f satisfies c - f <= g and f - c < M - g, with c the client's
   second and g = min(60, M - 1). The key comparator plays no part.
   */
  lemma FacilitatorAcceptsEmittedIff(p: Platform, le: KeyOrder, cfg: PaymentClient.Config, env: PaymentClient.Env, req: Requirements,
                                     payload: Payload, config: PaymentFacilitator.Config, f: int)
    requires Trustworthy(p) && SchemaSays(p) && PaymentClient.NoncesGrow(env) && DomainsAgree(p, cfg)
    requires PaymentClient.Handle402(p, cfg, env, req) == Ok(payload) && Serves(config, req)
    ensures PaymentFacilitator.Verify(p, le, config, InputFor(payload, req), f).None? <==>
      payload.strategy.NONE? || InTime(payload.strategy, req.maxTimeoutSeconds, env.nowMs, f)
  {
    var chainId := PaymentClient.EmittedIsBuilt(p, cfg, env, req, payload);
    var escrow := config.escrows[req.network];
    EmittedBeforeSignatures(p, le, cfg, env, req, chainId, payload, config);
    EmittedMetaTx(p, cfg, env, req, chainId, payload, escrow);
    EmittedAuthRecovers(p, cfg, env, req, chainId, payload, escrow, f);
  }

  /** No emitted authorisation lets the escrow take more than the policy's ceiling. */
  lemma AuthorisedWithinPolicy(p: Platform, cfg: PaymentClient.Config, env: PaymentClient.Env, req: Requirements, payload: Payload)
    requires PaymentClient.NoncesGrow(env) && PaymentClient.Handle402(p, cfg, env, req) == Ok(payload)
    requires payload.tokenAuth.Some? && cfg.policy.maxAmount.Some?
    ensures var amount, ceiling := AmountOf(payload.tokenAuth.value), cfg.policy.maxAmount.value;
      IsDigits(amount) && IsDigits(ceiling) && DecimalValue(amount) <= DecimalValue(ceiling)
  {
    var chainId := PaymentClient.EmittedIsBuilt(p, cfg, env, req, payload);
    SignedFields(p, cfg, env, req, chainId, payload.strategy, payload.tokenAuth.value);
  }

  // ----- what the server's acceptance of any payload is worth at the facilitator -----

  /** Two argument records a calldata builder cannot tell apart: nested members may stand in another order. */
  ghost predicate SameArguments(a: Arguments, b: Arguments) {
    a.Keys == b.Keys && forall k | k in a :: DeepEqual(a[k], b[k])
  }

  ghost predicate CalldataRespectsEquality(p: Platform) {
    forall atomic, a, b | SameArguments(a, b) :: p.calldata(atomic, a) == p.calldata(atomic, b)
  }

  lemma {:induction false} GetIsArgument(members: seq<Member>, key: JsString)
    ensures key in AsArguments(members) <==> Get(members, key).Some?
    ensures key in AsArguments(members) ==> AsArguments(members)[key] == Get(members, key).value
  {
    if members != [] {
      GetIsArgument(members[1..], key);
    }
  }

  lemma EqualOffersSameArguments(a: seq<Member>, b: seq<Member>)
    requires WellFormed(JObject(a)) && WellFormed(JObject(b)) && DeepEqual(JObject(a), JObject(b))
    ensures SameArguments(AsArguments(a), AsArguments(b))
  {
    SameKeys(a, b);
    forall k: JsString
      ensures k in AsArguments(a) <==> k in AsArguments(b)
      ensures k in AsArguments(a) && k in AsArguments(b) ==> DeepEqual(AsArguments(a)[k], AsArguments(b)[k])
    {
      EqualOffersAt(a, b, k);
    }
  }

  lemma EqualOffersAt(a: seq<Member>, b: seq<Member>, k: JsString)
    requires UniqueKeys(a) && DeepEqual(JObject(a), JObject(b)) && Keys(a) == Keys(b)
    ensures k in AsArguments(a) <==> k in AsArguments(b)
    ensures k in AsArguments(a) && k in AsArguments(b) ==> DeepEqual(AsArguments(a)[k], AsArguments(b)[k])
  {
    GetIsArgument(a, k);
    GetIsArgument(b, k);
    GetFinds(a, k);
    GetFinds(b, k);
    if Get(a, k).Some? {
      var m := Member(k, Get(a, k).value);
      var i :| 0 <= i < |a| && a[i] == m;
      assert Get(b, a[i].key).Some?;
    }
    assert Get(a, k).Some? <==> k in Keys(a);
    assert Get(b, k).Some? <==> k in Keys(b);
  }

  lemma SplicedSameArguments(a: seq<Member>, b: seq<Member>, sellerSig: Hex, buyer: Address)
    requires SameArguments(AsArguments(a), AsArguments(b))
    ensures SameArguments(AsArguments(VerifierSplice(a, sellerSig, buyer)), AsArguments(VerifierSplice(b, sellerSig, buyer)))
  {
    var s, c := JString(Units(sellerSig)), JString(Units(buyer));
    SetMemberMeans(SetMember(a, COMMITTER_KEY, c), SIGNATURE_KEY, s);
    SetMemberMeans(a, COMMITTER_KEY, c);
    SetMemberMeans(SetMember(b, COMMITTER_KEY, c), SIGNATURE_KEY, s);
    SetMemberMeans(b, COMMITTER_KEY, c);
  }

  lemma AcceptedOfferPasses(p: Platform, le: KeyOrder, payload: Payload, req: Requirements)
    requires TotalPreorder(le) && Antisymmetric(le) && CalldataRespectsEquality(p)
    requires WellFormed(JObject(payload.fullOffer)) && WellFormed(JObject(req.fullOffer))
    requires PaymentServer.CheckEcho(payload, req).None? && PaymentServer.CheckCalldata(p, payload).None?
    ensures PaymentFacilitator.CheckOffer(le, payload, req).None?
    ensures PaymentFacilitator.CheckCalldata(p, payload, req).None?
  {
    ChecksAgreeOnTotalOrder(le, JObject(payload.fullOffer), JObject(req.fullOffer));
    EqualOffersSameArguments(payload.fullOffer, req.fullOffer);
    SplicedSameArguments(payload.fullOffer, req.fullOffer, req.sellerSig, payload.buyer);
    var mine := AsArguments(VerifierSplice(payload.fullOffer, req.sellerSig, payload.buyer));
    var theirs := AsArguments(VerifierSplice(req.fullOffer, req.sellerSig, payload.buyer));
    assert p.calldata(payload.action == FLOW_B, mine) == p.calldata(payload.action == FLOW_B, theirs);
  }

  /**
   Server to facilitator, for any payload whatever. If the server accepted it, then on an
   escrow the operator serves, every facilitator step before the signatures passes, and the
   meta-transaction step passes if and only if its `v` has the legacy form: the server also
   takes 0 and 1.
   */
  lemma AcceptedPayloadReachesSignatures(p: Platform, le: KeyOrder, payload: Payload, req: Requirements, chainId: nat, t: int,
                                         validator: Option<(OptionId, Json) -> Verdict>, config: PaymentFacilitator.Config)
    requires TotalPreorder(le) && Antisymmetric(le) && CalldataRespectsEquality(p)
    requires p.payloadSchema(payload) && p.requirementsSchema(req)
    requires WellFormed(JObject(payload.fullOffer)) && WellFormed(JObject(req.fullOffer))
    requires PaymentServer.ValidatePayload(p, payload, req, chainId, t, validator).None?
    requires Serves(config, req) && ParseChainId(req.network) == Some(chainId)
    ensures var escrow := config.escrows[req.network];
      && PaymentFacilitator.CheckBeforeSignatures(p, le, config, InputFor(payload, req)) == Ok((chainId, escrow))
      && (PaymentFacilitator.CheckMetaTx(p, payload, escrow, chainId).None? <==> PaymentFacilitator.LegacyV(payload.metaTx.sig))
  {
    AcceptedOfferPasses(p, le, payload, req);
    AcceptedEnvelopePasses(p, payload, req, t, config);
    AcceptedMetaTxIff(p, payload, req, config.escrows[req.network], chainId);
  }

  lemma AcceptedEnvelopePasses(p: Platform, payload: Payload, req: Requirements, t: int, config: PaymentFacilitator.Config)
    requires p.payloadSchema(payload) && p.requirementsSchema(req) && Serves(config, req)
    requires PaymentServer.CheckEcho(payload, req).None? && PaymentServer.CheckTokenAuth(payload, req, t).None?
    ensures PaymentFacilitator.CheckEnvelope(p, config, InputFor(payload, req)).None?
    ensures PaymentFacilitator.CheckStrategy(payload, req).None?
  {
    var i :| 0 <= i < |req.next| && req.next[i].id == payload.action;
  }

  lemma AcceptedMetaTxIff(p: Platform, payload: Payload, req: Requirements, escrow: Address, chainId: nat)
    requires PaymentServer.CheckMetaTx(p, payload, req, chainId).None? && Lower(escrow) == Lower(req.escrow)
    ensures PaymentFacilitator.CheckMetaTx(p, payload, escrow, chainId).None? <==>
      PaymentFacilitator.LegacyV(payload.metaTx.sig)
  {
    var m := payload.metaTx;
    assert MetaTxData(chainId, escrow, m.nonce, m.from, m.functionName, m.functionSignature)
      == MetaTxData(chainId, req.escrow, m.nonce, m.from, m.functionName, m.functionSignature);
  }

  /** And with the clock at the facilitator not before the server's, its deadline fails there only by having expired. */
  lemma AcceptedDeadlineFailsOnlyByExpiry(payload: Payload, req: Requirements, t0: int, t1: int)
    requires PaymentServer.CheckTokenAuth(payload, req, t0).None? && !payload.strategy.NONE? && t0 <= t1
    ensures !WithinWindow(DeadlineOf(payload.tokenAuth.value), req.maxTimeoutSeconds, t1) <==>
      DeadlineOf(payload.tokenAuth.value) <= t1
  {
    OnlyExpiryFailsLater(DeadlineOf(payload.tokenAuth.value), req.maxTimeoutSeconds, t0, t1);
  }
}
