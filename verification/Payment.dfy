/**
 The wire types of the escrow payment scheme, the platform functions its three parties
 call, and the arithmetic and splicing they have in common.
 */
module Payment {
  import opened Fulfillment
  import opened Json
  import opened Numerals
  import opened Sequences
  import StateMachine
  import opened Wrappers

  type Address = string
  type Hex = string

  datatype Strategy = NONE | ERC3009 | PERMIT | PERMIT2

  /** A split ECDSA signature; packing it into 65 bytes loses nothing. */
  datatype Sig = Sig(v: int, r: Hex, s: Hex)

  datatype MetaTx = MetaTx(from: Address, nonce: nat, functionName: string, functionSignature: Hex, sig: Sig)

  datatype TokenAuth =
    | Erc3009Auth(from: Address, to: Address, value: string, validAfter: int, validBefore: int, nonce: Hex, sig: Sig)
    | PermitAuth(owner: Address, spender: Address, value: string, deadline: int, permitNonce: nat, sig: Sig)
    | Permit2Auth(token: Address, amount: string, spender: Address, permit2Nonce: nat, deadline: int, sig: Sig)

  function StrategyOf(auth: TokenAuth): Strategy {
    match auth
    case Erc3009Auth(_, _, _, _, _, _, _) => ERC3009
    case PermitAuth(_, _, _, _, _, _) => PERMIT
    case Permit2Auth(_, _, _, _, _, _) => PERMIT2
  }

  /** An action the 402 challenge advertises: its id, and whether the `server` channel is among its channels. */
  datatype Advertised = Advertised(id: string, onServer: bool)

  datatype Requirements = Requirements(
    scheme: string, network: string, asset: Address, amount: string, escrow: Address,
    maxTimeoutSeconds: int, fullOffer: seq<Member>, sellerSig: Hex, strategies: seq<Strategy>,
    fulfillment: Option<FulfillmentRequirements>, next: seq<Advertised>)

  datatype Payload = Payload(
    scheme: string, network: string, action: string, strategy: Strategy, fullOffer: seq<Member>,
    sellerSig: Hex, buyer: Address, metaTx: MetaTx, tokenAuth: Option<TokenAuth>, fulfillment: Option<Selection>)

  const ESCROW := "escrow"
  const FLOW_A := StateMachine.Name(StateMachine.CreateOfferAndCommit)
  const FLOW_B := StateMachine.Name(StateMachine.CreateOfferCommitAndRedeem)

  /** The names on the wire. */
  lemma WireNames()
    ensures ESCROW == "escrow" && FLOW_A == "boson-createOfferAndCommit" && FLOW_B == "boson-createOfferCommitAndRedeem"
  {
  }

  // ----- networks -----

  const CAIP2_PREFIX := "eip155:"

  /** The chain id of `eip155:<digits>`. */
  function ParseChainId(network: string): Option<nat> {
    if CAIP2_PREFIX <= network && IsDigits(network[|CAIP2_PREFIX|..])
    then Some(DecimalValue(network[|CAIP2_PREFIX|..]))
    else None
  }

  /** A network names a chain exactly as `eip155:` and the chain's number in decimal, leading zeros allowed. */
  lemma ParseChainIdIff(network: string, id: nat)
    ensures ParseChainId(network) == Some(id) <==>
      exists digits :: network == "eip155:" + digits && IsDigits(digits) && DecimalValue(digits) == id
    ensures ParseChainId("eip155:" + Decimal(id)) == Some(id)
  {
    forall digits | network == "eip155:" + digits ensures network[7..] == digits {
    }
    if ParseChainId(network).Some? {
      assert network == "eip155:" + network[7..];
    }
    ValueOfDecimal(id);
    assert ("eip155:" + Decimal(id))[7..] == Decimal(id);
  }

  // ----- typed data -----

  datatype Domain = Domain(name: string, version: string, chainId: nat, token: Address)

  /** What gets hashed and signed. Addresses and byte strings are hashed as bytes, so they stand here in lower case. */
  datatype TypedData =
    | MetaTransaction(chainId: nat, escrow: Address, nonce: nat, from: Address, functionName: string, functionSignature: Hex)
    | ReceiveWithAuthorization(domain: Domain, from: Address, to: Address, value: nat, validAfter: int, validBefore: int, authNonce: Hex)
    | PermitMessage(domain: Domain, owner: Address, spender: Address, value: nat, nonce: nat, deadline: int)
    | PermitTransferFrom(chainId: nat, token: Address, amount: nat, spender: Address, nonce: nat, deadline: int)

  function MetaTxData(chainId: nat, escrow: Address, nonce: nat, from: Address, functionName: string, functionSignature: Hex): TypedData {
    MetaTransaction(chainId, Lower(escrow), nonce, Lower(from), functionName, Lower(functionSignature))
  }

  function AuthData(chainId: nat, domain: Domain, auth: TokenAuth): Option<TypedData> {
    match auth
    case Erc3009Auth(from, to, value, validAfter, validBefore, nonce, _) =>
      if !IsDigits(value) then None
      else Some(ReceiveWithAuthorization(domain, Lower(from), Lower(to), DecimalValue(value), validAfter, validBefore, Lower(nonce)))
    case PermitAuth(owner, spender, value, deadline, nonce, _) =>
      if !IsDigits(value) then None
      else Some(PermitMessage(domain, Lower(owner), Lower(spender), DecimalValue(value), nonce, deadline))
    case Permit2Auth(token, amount, spender, nonce, deadline, _) =>
      if !IsDigits(amount) then None
      else Some(PermitTransferFrom(chainId, Lower(token), DecimalValue(amount), Lower(spender), nonce, deadline))
  }

  // ----- the platform -----

  type Key = nat

  datatype Calldata = Calldata(functionName: string, functionSignature: Hex)

  /** The argument record of the two calldata builders. */
  type Arguments = map<JsString, Json>

  /**
   Everything the parties call and this model does not look into. `recover` and `calldata`
   may throw; `tokenDomain` is the token's EIP-712 domain as read from the chain.
   */
  datatype Platform = Platform(
    sign: (Key, TypedData) -> Sig,
    recover: (TypedData, Sig) -> Option<Address>,
    address: Key -> Address,
    calldata: (bool, Arguments) -> Option<Calldata>,
    tokenDomain: (Address, nat) -> Option<Domain>,
    matchesSchema: (Json, Json) -> bool,
    payloadSchema: Payload -> bool,
    requirementsSchema: Requirements -> bool)

  /** What is assumed of it: recovery undoes signing, and signers produce the legacy `v`. */
  ghost predicate Trustworthy(p: Platform) {
    && (forall k, d :: p.recover(d, p.sign(k, d)).Some? && Lower(p.recover(d, p.sign(k, d)).value) == Lower(p.address(k)))
    && (forall k, d :: p.sign(k, d).v == 27 || p.sign(k, d).v == 28)
  }

  /** What the requirements schema guarantees, as far as the checks depend on it. */
  ghost predicate SchemaSays(p: Platform) {
    forall r | p.requirementsSchema(r) ::
      && r.scheme == ESCROW && r.maxTimeoutSeconds >= 1 && IsDigits(r.amount)
      && WellFormed(JObject(r.fullOffer))
  }

  // ----- what a payload says -----

  /** The deadline of an authorisation. */
  function DeadlineOf(auth: TokenAuth): int {
    match auth
    case Erc3009Auth(_, _, _, _, validBefore, _, _) => validBefore
    case PermitAuth(_, _, _, deadline, _, _) => deadline
    case Permit2Auth(_, _, _, _, deadline, _) => deadline
  }

  /** The amount an authorisation lets the escrow take. */
  function AmountOf(auth: TokenAuth): string {
    match auth
    case Erc3009Auth(_, _, value, _, _, _, _) => value
    case PermitAuth(_, _, value, _, _, _) => value
    case Permit2Auth(_, amount, _, _, _, _) => amount
  }

  /** The account an authorisation lets draw the amount. */
  function BeneficiaryOf(auth: TokenAuth): Address {
    match auth
    case Erc3009Auth(_, to, _, _, _, _, _) => to
    case PermitAuth(_, spender, _, _, _, _) => spender
    case Permit2Auth(_, _, spender, _, _, _) => spender
  }

  /** Whatever its kind, the authorisation is for exactly the price, in the right token, to the escrow. */
  predicate PaysExactly(auth: TokenAuth, req: Requirements, escrow: Address) {
    && AmountOf(auth) == req.amount
    && Lower(BeneficiaryOf(auth)) == Lower(escrow)
    && (auth.Permit2Auth? ==> Lower(auth.token) == Lower(req.asset))
  }

  /** An authorisation of the announced kind is there, or none for `none`. */
  predicate CarriesItsKind(strategy: Strategy, auth: Option<TokenAuth>) {
    match strategy
    case NONE => auth.None?
    case ERC3009 => auth.Some? && auth.value.Erc3009Auth?
    case PERMIT => auth.Some? && auth.value.PermitAuth?
    case PERMIT2 => auth.Some? && auth.value.Permit2Auth?
  }

  /** The signature over `data` is the account's own. */
  predicate Recovers(p: Platform, data: TypedData, sig: Sig, account: Address) {
    var signer := p.recover(data, sig);
    signer.Some? && Lower(signer.value) == Lower(account)
  }

  /** The meta-transaction is the buyer's own signature over this chain, this escrow, this calldata and this nonce. */
  predicate SignedByBuyer(p: Platform, payload: Payload, escrow: Address, chainId: nat, sig: Sig) {
    var m := payload.metaTx;
    var data := MetaTransaction(chainId, Lower(escrow), m.nonce, Lower(m.from), m.functionName, Lower(m.functionSignature));
    Lower(m.from) == Lower(payload.buyer) && Recovers(p, data, sig, payload.buyer)
  }

  // ----- deadlines -----

  const SAFETY_MARGIN_SECONDS := 60

  function Max(a: int, b: int): int {
    if a >= b then a else b
  }

  function Min(a: int, b: int): int {
    if a <= b then a else b
  }

  /** The client's deadline, from its clock in milliseconds. */
  function TokenAuthDeadline(maxTimeoutSeconds: int, nowMs: int): int {
    var timeout := Max(1, maxTimeoutSeconds);
    var margin := Min(SAFETY_MARGIN_SECONDS, Max(0, timeout - 1));
    nowMs / 1000 + timeout - margin
  }

  /** The facilitator's window at its own second `now`. */
  predicate WithinWindow(deadline: int, maxTimeoutSeconds: int, now: int) {
    now < deadline && deadline - now <= maxTimeoutSeconds
  }

  /** The server's bound at its own second `now`. */
  predicate WithinHorizon(deadline: int, maxTimeoutSeconds: int, now: int) {
    deadline <= now + maxTimeoutSeconds
  }

  /** How far the verifier's clock may lag behind the client's. */
  function Grace(maxTimeoutSeconds: int): int {
    if maxTimeoutSeconds > 60 then 60 else maxTimeoutSeconds - 1
  }

  /** The deadline for any timeout: a minute short of it, but never less than one second ahead. */
  lemma DeadlineMeans(maxTimeoutSeconds: int, nowMs: int)
    ensures TokenAuthDeadline(maxTimeoutSeconds, nowMs) ==
      nowMs / 1000 + if maxTimeoutSeconds > 61 then maxTimeoutSeconds - 60 else 1
  {
  }

  /**
   The exact skew bound. With client second `c`, verifier second `f` and an integer
   timeout M >= 1, the facilitator accepts the client's deadline exactly when
   c - f <= g and f - c < M - g, where g = min(60, M - 1).
   */
  lemma ExactSkewBound(maxTimeoutSeconds: int, nowMs: int, f: int)
    requires maxTimeoutSeconds >= 1
    ensures var c := nowMs / 1000;
      var g := if maxTimeoutSeconds > 60 then 60 else maxTimeoutSeconds - 1;
      WithinWindow(TokenAuthDeadline(maxTimeoutSeconds, nowMs), maxTimeoutSeconds, f) <==>
      c - f <= g && f - c < maxTimeoutSeconds - g
  {
    DeadlineMeans(maxTimeoutSeconds, nowMs);
  }

  /** The server accepts it exactly when c - t <= g; being late never fails there. */
  lemma ExactHorizon(maxTimeoutSeconds: int, nowMs: int, t: int)
    requires maxTimeoutSeconds >= 1
    ensures WithinHorizon(TokenAuthDeadline(maxTimeoutSeconds, nowMs), maxTimeoutSeconds, t) <==>
      nowMs / 1000 - t <= Grace(maxTimeoutSeconds)
  {
    DeadlineMeans(maxTimeoutSeconds, nowMs);
  }

  /** A deadline the server let pass can fail the facilitator's window later only by having expired. */
  lemma OnlyExpiryFailsLater(deadline: int, maxTimeoutSeconds: int, t0: int, t1: int)
    requires WithinHorizon(deadline, maxTimeoutSeconds, t0) && t0 <= t1
    ensures !WithinWindow(deadline, maxTimeoutSeconds, t1) <==> deadline <= t1
  {
  }

  // ----- splicing arguments into the offer -----

  /** The code units of ASCII text. */
  function Units(s: string): JsString {
    seq(|s|, i requires 0 <= i < |s| => s[i] as int % 0x10000)
  }

  lemma UnitsAreTheText(s: string)
    requires forall c | c in s :: c as int < 0x10000
    ensures |Units(s)| == |s| && forall i | 0 <= i < |s| :: Units(s)[i] == s[i] as int
  {
    forall i | 0 <= i < |s| ensures s[i] as int % 0x10000 == s[i] as int {
      assert s[i] in s;
    }
  }

  /** `{ ...members, [key]: value }`: an existing key keeps its place, a new one goes last. */
  function SetMember(members: seq<Member>, key: JsString, value: Json): seq<Member> {
    if members == [] then [Member(key, value)]
    else if members[0].key == key then [Member(key, value)] + members[1..]
    else [members[0]] + SetMember(members[1..], key, value)
  }

  function AsArguments(members: seq<Member>): Arguments {
    if members == [] then map[]
    else AsArguments(members[1..])[members[0].key := members[0].value]
  }

  const SIGNATURE_KEY := Units("signature")
  const COMMITTER_KEY := Units("committer")

  /** The client writes `signature` and then `committer`; server and facilitator the other way round. */
  function ClientSplice(fullOffer: seq<Member>, sellerSig: Hex, buyer: Address): seq<Member> {
    SetMember(SetMember(fullOffer, SIGNATURE_KEY, JString(Units(sellerSig))), COMMITTER_KEY, JString(Units(buyer)))
  }

  function VerifierSplice(fullOffer: seq<Member>, sellerSig: Hex, buyer: Address): seq<Member> {
    SetMember(SetMember(fullOffer, COMMITTER_KEY, JString(Units(buyer))), SIGNATURE_KEY, JString(Units(sellerSig)))
  }

  lemma {:induction false} SetMemberMeans(members: seq<Member>, key: JsString, value: Json)
    ensures AsArguments(SetMember(members, key, value)) == AsArguments(members)[key := value]
  {
    if members != [] {
      if members[0].key == key {
        assert SetMember(members, key, value)[1..] == members[1..];
      } else {
        assert SetMember(members, key, value)[1..] == SetMember(members[1..], key, value);
        SetMemberMeans(members[1..], key, value);
      }
    }
  }

  /**
   The argument record: every member of the offer under its own key, but for `signature` and
   `committer`, which are the seller's signature and the buyer.
   */
  function CommitArguments(fullOffer: seq<Member>, sellerSig: Hex, buyer: Address): Arguments {
    AsArguments(fullOffer)[Units("signature") := JString(Units(sellerSig))][Units("committer") := JString(Units(buyer))]
  }

  lemma KeysDiffer()
    ensures SIGNATURE_KEY != COMMITTER_KEY
  {
    assert "signature"[0] == 's' && "committer"[0] == 'c';
    assert SIGNATURE_KEY[0] == 's' as int && COMMITTER_KEY[0] == 'c' as int;
  }

  lemma ClientSpliceMeans(fullOffer: seq<Member>, sellerSig: Hex, buyer: Address)
    ensures AsArguments(ClientSplice(fullOffer, sellerSig, buyer)) == CommitArguments(fullOffer, sellerSig, buyer)
  {
    var s, c := JString(Units(sellerSig)), JString(Units(buyer));
    SetMemberMeans(SetMember(fullOffer, SIGNATURE_KEY, s), COMMITTER_KEY, c);
    SetMemberMeans(fullOffer, SIGNATURE_KEY, s);
  }

  lemma Commute(m: Arguments, k: JsString, v: Json, l: JsString, w: Json)
    requires k != l
    ensures m[k := v][l := w] == m[l := w][k := v]
  {
  }

  /** Either order of splicing gives that record, for every offer: all three parties hand the calldata builder the same. */
  lemma SplicesAgree(fullOffer: seq<Member>, sellerSig: Hex, buyer: Address)
    ensures AsArguments(ClientSplice(fullOffer, sellerSig, buyer)) == CommitArguments(fullOffer, sellerSig, buyer)
    ensures AsArguments(VerifierSplice(fullOffer, sellerSig, buyer)) == CommitArguments(fullOffer, sellerSig, buyer)
  {
    var s, c := JString(Units(sellerSig)), JString(Units(buyer));
    ClientSpliceMeans(fullOffer, sellerSig, buyer);
    SetMemberMeans(SetMember(fullOffer, COMMITTER_KEY, c), SIGNATURE_KEY, s);
    SetMemberMeans(fullOffer, COMMITTER_KEY, c);
    KeysDiffer();
    Commute(AsArguments(fullOffer), SIGNATURE_KEY, s, COMMITTER_KEY, c);
  }

  /** The calldata and function name are what the builder gives for this offer, up to the case of hex digits. */
  predicate CalldataIs(p: Platform, payload: Payload, fullOffer: seq<Member>, sellerSig: Hex) {
    && (payload.action == FLOW_A || payload.action == FLOW_B)
    && var built := p.calldata(payload.action == FLOW_B, CommitArguments(fullOffer, sellerSig, payload.buyer));
       && built.Some? && built.value.functionName == payload.metaTx.functionName
       && Lower(built.value.functionSignature) == Lower(payload.metaTx.functionSignature)
  }
}
