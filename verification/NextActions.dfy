/**
 The `nextActions` envelope a server emits, and the client's walk over the HTTP channels
 of one of its entries.
 */
module NextActions {
  import opened Sequences
  import opened StateMachine
  import opened Wrappers

  datatype ChannelId = SERVER | FACILITATOR | ONCHAIN | XMTP | MCP

  datatype Registry = Registry(channels: seq<ChannelId>, endpoints: map<ActionId, string>,
                               xmtp: Option<string>, mcp: Option<string>, escrow: string)

  datatype Entry = Entry(id: ActionId, channels: seq<ChannelId>, endpoints: map<ChannelId, string>)

  datatype OnchainHints = OnchainHints(escrow: string, actionFacets: map<ActionId, string>)

  datatype Fallback = Fallback(onchainHints: OnchainHints, xmtp: Option<string>, mcp: Option<string>)

  datatype Envelope = Envelope(next: seq<Entry>, fallback: Fallback)

  datatype DeriveError = NoUsableChannel(action: ActionId)

  /** The facet that exposes an action on chain; the table covers every action id. */
  function Facet(action: ActionId): string {
    match action
    case CreateOfferAndCommit => "ExchangeCommitFacet"
    case CreateOfferCommitAndRedeem => "OrchestrationHandlerFacet2"
    case Redeem => "ExchangeHandlerFacet"
    case CancelVoucher => "ExchangeHandlerFacet"
    case RevokeVoucher => "ExchangeHandlerFacet"
    case CompleteExchange => "ExchangeHandlerFacet"
    case RaiseDispute => "DisputeHandlerFacet"
    case ResolveDispute => "DisputeHandlerFacet"
    case EscalateDispute => "DisputeHandlerFacet"
    case RetractDispute => "DisputeHandlerFacet"
    case WithdrawFunds => "FundsHandlerFacet"
  }

  /** An action's facet is the part of the protocol it belongs to. */
  lemma FacetByTransition(action: ActionId)
    ensures Facet(action) == "ExchangeCommitFacet" <==>
      !IsEntityKeyed(action) && PostState(action) == At(COMMITTED, None)
    ensures Facet(action) == "OrchestrationHandlerFacet2" <==>
      !IsEntityKeyed(action) && PreState(action) == PreCommit && PostState(action) == At(REDEEMED, None)
    ensures Facet(action) == "ExchangeHandlerFacet" <==>
      !IsEntityKeyed(action) && PreState(action).At? && !PostState(action).exchange.DISPUTED?
    ensures Facet(action) == "DisputeHandlerFacet" <==>
      !IsEntityKeyed(action) && PostState(action).exchange.DISPUTED?
    ensures Facet(action) == "FundsHandlerFacet" <==> action.WithdrawFunds?
  {
    FacetNamesDiffer();
  }

  lemma FacetNamesDiffer()
    ensures "ExchangeCommitFacet" != "ExchangeHandlerFacet" && "ExchangeCommitFacet" != "DisputeHandlerFacet"
    ensures "ExchangeHandlerFacet" != "DisputeHandlerFacet"
    ensures "OrchestrationHandlerFacet2" !in {"ExchangeCommitFacet", "ExchangeHandlerFacet", "DisputeHandlerFacet", "FundsHandlerFacet"}
    ensures "FundsHandlerFacet" !in {"ExchangeCommitFacet", "ExchangeHandlerFacet", "DisputeHandlerFacet"}
  {
    assert "ExchangeCommitFacet"[8] == 'C' && "ExchangeHandlerFacet"[8] == 'H';
    assert "ExchangeCommitFacet"[0] == 'E' && "DisputeHandlerFacet"[0] == 'D' && "FundsHandlerFacet"[0] == 'F';
  }

  // ----- building the envelope -----

  function EffectiveChannels(registry: Registry): seq<ChannelId> {
    if ONCHAIN in registry.channels then registry.channels else registry.channels + [ONCHAIN]
  }

  predicate Usable(channel: ChannelId, action: ActionId, registry: Registry) {
    match channel
    case SERVER => action in registry.endpoints
    case MCP => registry.mcp.Some?
    case XMTP => registry.xmtp.Some?
    case ONCHAIN => |registry.escrow| > 0
    case FACILITATOR => true
  }

  function UsableChannels(action: ActionId, registry: Registry): seq<ChannelId> {
    FirstOccurrences(EffectiveChannels(registry), channel => Usable(channel, action, registry))
  }

  function EntryFor(action: ActionId, registry: Registry): Entry {
    Entry(action, UsableChannels(action, registry),
          if action in registry.endpoints then map[SERVER := registry.endpoints[action]] else map[])
  }

  function Hints(registry: Registry, actions: seq<ActionId>): OnchainHints {
    OnchainHints(registry.escrow, map a | a in actions :: Facet(a))
  }

  function FallbackFor(registry: Registry, actions: seq<ActionId>): Fallback {
    Fallback(Hints(registry, actions), registry.xmtp, registry.mcp)
  }

  /** The entries for `actions`, or the first action that no channel can serve. */
  function Entries(actions: seq<ActionId>, registry: Registry): Result<seq<Entry>, DeriveError> {
    if actions == [] then Ok([])
    else if UsableChannels(actions[0], registry) == [] then Err(NoUsableChannel(actions[0]))
    else
      match Entries(actions[1..], registry)
      case Err(e) => Err(e)
      case Ok(rest) => Ok([EntryFor(actions[0], registry)] + rest)
  }

  /** The filter of `buildEnvelope`, with its mutable `seen` set. */
  method FilterChannels(action: ActionId, registry: Registry) returns (channels: seq<ChannelId>)
    ensures channels == UsableChannels(action, registry)
  {
    var effective := EffectiveChannels(registry);
    var keep := (channel: ChannelId) => Usable(channel, action, registry);
    var seen: set<ChannelId> := {};
    channels := [];
    for i := 0 to |effective|
      invariant channels == FirstOccurrences(effective[..i], keep)
      invariant forall c :: c in seen <==> c in effective[..i] && keep(c)
    {
      var c := effective[i];
      FirstOccurrencesStep(effective, keep, i);
      if c !in seen && Usable(c, action, registry) {
        seen := seen + {c};
        channels := channels + [c];
      }
    }
    assert effective[..|effective|] == effective;
  }

  /** `actionFacetsFor` fills its record one id at a time. */
  method ActionFacetsFor(actions: seq<ActionId>) returns (facets: map<ActionId, string>)
    ensures facets == map a | a in actions :: Facet(a)
  {
    facets := map[];
    for i := 0 to |actions|
      invariant facets == map a | a in actions[..i] :: Facet(a)
    {
      assert actions[..i + 1] == actions[..i] + [actions[i]];
      facets := facets[actions[i] := Facet(actions[i])];
    }
    assert actions[..|actions|] == actions;
  }

  function Prepend(done: seq<Entry>, r: Result<seq<Entry>, DeriveError>): Result<seq<Entry>, DeriveError> {
    match r
    case Err(e) => Err(e)
    case Ok(rest) => Ok(done + rest)
  }

  lemma PrependOne(done: seq<Entry>, entry: Entry, r: Result<seq<Entry>, DeriveError>)
    ensures Prepend(done, Prepend([entry], r)) == Prepend(done + [entry], r)
  {
    if r.Ok? {
      assert done + ([entry] + r.value) == done + [entry] + r.value;
    }
  }

  lemma PrependNone(r: Result<seq<Entry>, DeriveError>)
    ensures Prepend([], r) == r
  {
    assert r.Ok? ==> [] + r.value == r.value;
  }

  method BuildEnvelope(actions: seq<ActionId>, registry: Registry) returns (r: Result<Envelope, DeriveError>)
    ensures match Entries(actions, registry)
      case Err(e) => r == Err(e)
      case Ok(next) => r == Ok(Envelope(next, FallbackFor(registry, actions)))
  {
    var next: seq<Entry> := [];
    assert actions[0..] == actions;
    PrependNone(Entries(actions, registry));
    for i := 0 to |actions|
      invariant Entries(actions, registry) == Prepend(next, Entries(actions[i..], registry))
    {
      var action := actions[i];
      assert actions[i..][1..] == actions[i + 1..];
      var channels := FilterChannels(action, registry);
      if |channels| == 0 {
        return Err(NoUsableChannel(action));
      }
      var entry := Entry(action, channels, map[]);
      if action in registry.endpoints {
        entry := entry.(endpoints := map[SERVER := registry.endpoints[action]]);
      }
      PrependOne(next, entry, Entries(actions[i + 1..], registry));
      next := next + [entry];
    }
    assert next + [] == next;
    var facets := ActionFacetsFor(actions);
    r := Ok(Envelope(next, Fallback(OnchainHints(registry.escrow, facets), registry.xmtp, registry.mcp)));
  }

  // ----- stamping the facilitator -----

  function FacilitatorEndpoint(action: ActionId, url: string): string {
    var base := StripTrailingSlashes(url);
    if IsCommitAction(action) then base + "/settle" else base + "/perform-action?action=" + Name(action)
  }

  /** Configuring the URL with or without trailing slashes makes no difference. */
  lemma EndpointIgnoresTrailingSlash(action: ActionId, url: string)
    ensures FacilitatorEndpoint(action, url + "/") == FacilitatorEndpoint(action, url)
  {
    assert (url + "/")[..|url + "/"| - 1] == url;
  }

  /**
   The endpoint is the URL without its trailing slashes and the action's path behind it: both
   commit actions are settled, every other action is performed under its own name.
   */
  ghost predicate EndpointOf(action: ActionId, url: string, endpoint: string) {
    exists base: string ::
      && base <= url && (forall i | |base| <= i < |url| :: url[i] == '/')
      && (base == "" || base[|base| - 1] != '/')
      && match action
         case CreateOfferAndCommit => endpoint == base + "/settle"
         case CreateOfferCommitAndRedeem => endpoint == base + "/settle"
         case _ => endpoint == base + "/perform-action?action=" + Name(action)
  }

  lemma EndpointMeans(action: ActionId, url: string)
    ensures EndpointOf(action, url, FacilitatorEndpoint(action, url))
  {
    var base := StripTrailingSlashes(url);
    assert action.CreateOfferAndCommit? || action.CreateOfferCommitAndRedeem? ==>
      FacilitatorEndpoint(action, url) == base + "/settle";
  }

  function Stamp(entry: Entry, url: string): Entry {
    if FACILITATOR !in entry.channels || FACILITATOR in entry.endpoints then entry
    else entry.(endpoints := entry.endpoints[FACILITATOR := FacilitatorEndpoint(entry.id, url)])
  }

  function StampAll(next: seq<Entry>, url: string): (stamped: seq<Entry>)
    ensures |stamped| == |next| && forall i | 0 <= i < |next| :: stamped[i] == Stamp(next[i], url)
  {
    seq(|next|, i requires 0 <= i < |next| => Stamp(next[i], url))
  }

  function EmitNextActions(s: State, registry: Registry, facilitatorUrl: Option<string>): Result<Envelope, DeriveError>
    requires WellFormed(s)
  {
    var actions := LegalActions(s, Client);
    match Entries(actions, registry)
    case Err(e) => Err(e)
    case Ok(next) =>
      Ok(Envelope(if facilitatorUrl.Some? then StampAll(next, facilitatorUrl.value) else next,
                  FallbackFor(registry, actions)))
  }

  lemma {:induction false} EntriesErrIff(actions: seq<ActionId>, registry: Registry)
    ensures Entries(actions, registry).Err? <==> exists a :: a in actions && UsableChannels(a, registry) == []
  {
    if actions != [] {
      EntriesErrIff(actions[1..], registry);
      assert actions == [actions[0]] + actions[1..];
    }
  }

  lemma {:induction false} EntriesAt(actions: seq<ActionId>, registry: Registry)
    requires Entries(actions, registry).Ok?
    ensures var next := Entries(actions, registry).value;
      |next| == |actions| && forall i | 0 <= i < |next| :: next[i] == EntryFor(actions[i], registry)
  {
    if actions != [] {
      EntriesAt(actions[1..], registry);
    }
  }

  /** The channels of an entry, in terms of the registry: `onchain` is always added, and needs only an escrow. */
  predicate Serves(channel: ChannelId, action: ActionId, registry: Registry) {
    match channel
    case SERVER => SERVER in registry.channels && action in registry.endpoints
    case FACILITATOR => FACILITATOR in registry.channels
    case XMTP => XMTP in registry.channels && registry.xmtp.Some?
    case MCP => MCP in registry.channels && registry.mcp.Some?
    case ONCHAIN => registry.escrow != ""
  }

  lemma UsableChannelsMember(action: ActionId, registry: Registry, c: ChannelId)
    ensures c in UsableChannels(action, registry) <==> Serves(c, action, registry)
  {
    FirstOccurrencesMember(EffectiveChannels(registry), channel => Usable(channel, action, registry), c);
  }

  lemma UsableChannelsEmptyIff(action: ActionId, registry: Registry)
    ensures UsableChannels(action, registry) == [] <==> forall c :: !Serves(c, action, registry)
  {
    forall c: ChannelId ensures c in UsableChannels(action, registry) <==> Serves(c, action, registry) {
      UsableChannelsMember(action, registry, c);
    }
    if UsableChannels(action, registry) != [] {
      assert UsableChannels(action, registry)[0] in UsableChannels(action, registry);
    }
  }

  /** For any registry, an empty escrow included: emission throws exactly when a legal action has no channel left. */
  lemma EmissionThrowsIff(s: State, registry: Registry, url: Option<string>)
    requires WellFormed(s)
    ensures EmitNextActions(s, registry, url).Err? <==>
      exists a :: a in LegalActions(s, Client) && forall c :: !Serves(c, a, registry)
  {
    EntriesErrIff(LegalActions(s, Client), registry);
    forall a: ActionId ensures UsableChannels(a, registry) == [] <==> forall c :: !Serves(c, a, registry) {
      UsableChannelsEmptyIff(a, registry);
    }
  }

  /** The entries are those of exactly the client's legal actions, in table order. */
  ghost predicate ListsLegal(s: State, next: seq<Entry>)
    requires WellFormed(s)
  {
    var legal := LegalActions(s, Client);
    |next| == |legal| && forall i | 0 <= i < |legal| :: next[i].id == legal[i]
  }

  /** In the order of the registry, `onchain` last unless the registry lists it earlier. */
  ghost predicate InRegistryOrder(channels: seq<ChannelId>, registry: Registry) {
    var order := registry.channels + [ONCHAIN];
    forall i, j | 0 <= i < j < |channels| ::
      channels[i] in order && channels[j] in order && IndexOf(order, channels[i]) < IndexOf(order, channels[j])
  }

  /** What an emitted entry promises the client: its channels, their order, and exactly the endpoints of the HTTP ones. */
  ghost predicate Sound(entry: Entry, registry: Registry, url: Option<string>) {
    && Distinct(entry.channels) && InRegistryOrder(entry.channels, registry)
    && (forall c :: c in entry.channels <==> Serves(c, entry.id, registry))
    && (forall c | c in entry.endpoints :: c.SERVER? || c.FACILITATOR?)
    && (SERVER in entry.endpoints <==> entry.id in registry.endpoints)
    && (SERVER in entry.endpoints ==> entry.endpoints[SERVER] == registry.endpoints[entry.id])
    && (FACILITATOR in entry.endpoints <==> url.Some? && FACILITATOR in entry.channels)
    && (FACILITATOR in entry.endpoints ==> EndpointOf(entry.id, url.value, entry.endpoints[FACILITATOR]))
  }

  lemma UsableInOrder(action: ActionId, registry: Registry)
    ensures Distinct(UsableChannels(action, registry)) && InRegistryOrder(UsableChannels(action, registry), registry)
  {
    var effective, order := EffectiveChannels(registry), registry.channels + [ONCHAIN];
    var keep := (channel: ChannelId) => Usable(channel, action, registry);
    var channels := UsableChannels(action, registry);
    FirstOccurrencesDistinct(effective, keep);
    assert effective == order[..|effective|];
    forall i, j | 0 <= i < j < |channels|
      ensures channels[i] in order && channels[j] in order
      ensures IndexOf(order, channels[i]) < IndexOf(order, channels[j])
    {
      FirstOccurrencesOrdered(effective, keep, i, j);
      IndexOfPrefix(order, |effective|, channels[i]);
      IndexOfPrefix(order, |effective|, channels[j]);
    }
  }

  function StampIf(entry: Entry, url: Option<string>): Entry {
    if url.Some? then Stamp(entry, url.value) else entry
  }

  lemma StampedEntrySound(action: ActionId, registry: Registry, url: Option<string>)
    ensures Sound(StampIf(EntryFor(action, registry), url), registry, url)
  {
    UsableInOrder(action, registry);
    forall c: ChannelId ensures c in UsableChannels(action, registry) <==> Serves(c, action, registry) {
      UsableChannelsMember(action, registry, c);
    }
    StampedEndpoints(action, registry, url);
  }

  lemma StampedEndpoints(action: ActionId, registry: Registry, url: Option<string>)
    ensures
      var entry := StampIf(EntryFor(action, registry), url);
      && entry.id == action && entry.channels == UsableChannels(action, registry)
      && (forall c | c in entry.endpoints :: c.SERVER? || c.FACILITATOR?)
      && (SERVER in entry.endpoints <==> action in registry.endpoints)
      && (SERVER in entry.endpoints ==> entry.endpoints[SERVER] == registry.endpoints[action])
      && (FACILITATOR in entry.endpoints <==> url.Some? && FACILITATOR in entry.channels)
      && (FACILITATOR in entry.endpoints ==> EndpointOf(action, url.value, entry.endpoints[FACILITATOR]))
  {
    if url.Some? {
      var endpoint := FacilitatorEndpoint(action, url.value);
      assert EndpointOf(action, url.value, endpoint) by {
        EndpointMeans(action, url.value);
      }
    }
  }

  /** The fallback names the escrow, the facets of exactly the listed actions, and the registry's own contacts. */
  ghost predicate FallbackSound(fallback: Fallback, registry: Registry, actions: seq<ActionId>) {
    && fallback.onchainHints.escrow == registry.escrow
    && fallback.xmtp == registry.xmtp && fallback.mcp == registry.mcp
    && (forall a :: a in fallback.onchainHints.actionFacets <==> a in actions)
    && (forall a | a in actions :: fallback.onchainHints.actionFacets[a] == Facet(a))
  }

  /**
   For every registry and every client state, with or without a facilitator URL: an emitted
   envelope lists exactly the client's legal actions, in table order; each entry's channels
   are duplicate-free, in registry order and exactly those that serve the action; its
   endpoints are exactly those of its HTTP channels. With an escrow, emission never throws.
   */
  lemma EmissionIsSound(s: State, registry: Registry, url: Option<string>)
    requires WellFormed(s)
    ensures registry.escrow != "" ==> EmitNextActions(s, registry, url).Ok?
    ensures
      var r := EmitNextActions(s, registry, url);
      r.Ok? ==>
        && ListsLegal(s, r.value.next)
        && FallbackSound(r.value.fallback, registry, LegalActions(s, Client))
        && forall i | 0 <= i < |r.value.next| :: Sound(r.value.next[i], registry, url)
  {
    var actions := LegalActions(s, Client);
    if registry.escrow != "" {
      EntriesOk(actions, registry);
    }
    if Entries(actions, registry).Ok? {
      EntriesAt(actions, registry);
      var next := EmitNextActions(s, registry, url).value.next;
      forall i | 0 <= i < |next| ensures Sound(next[i], registry, url) {
        StampedEntrySound(actions[i], registry, url);
        assert next[i] == StampIf(EntryFor(actions[i], registry), url);
      }
    }
  }

  lemma EntriesOk(actions: seq<ActionId>, registry: Registry)
    requires |registry.escrow| > 0
    ensures Entries(actions, registry).Ok?
  {
    EntriesErrIff(actions, registry);
    forall a: ActionId ensures UsableChannels(a, registry) != [] {
      UsableChannelsEmptyIff(a, registry);
      assert Serves(ONCHAIN, a, registry);
    }
  }

  // ----- the client's walk -----

  predicate IsHttp(c: ChannelId) {
    c.SERVER? || c.FACILITATOR?
  }

  /** `parsed` is the result a 2xx body holds, if it has the channel's shape. */
  datatype Response<R> = NetworkError | TimedOut | Http(status: nat, parsed: Option<R>)

  datatype Reason = FiveXX | FourXX | Network | Timeout | NoEndpoint | InvalidResponse

  datatype Attempt = Succeeded(channel: ChannelId, status: nat) | Failed(channel: ChannelId, reason: Reason)

  datatype Submission<R> =
    | Submitted(result: R, channelUsed: ChannelId, attempts: seq<Attempt>)
    | NoCompatibleChannel
    | AllChannelsFailed(attempts: seq<Attempt>)

  /** Any status outside 2xx and below 500 counts as "4xx", a redirect included. */
  function Classify<R>(c: ChannelId, response: Response<R>): Attempt {
    match response
    case NetworkError => Failed(c, Network)
    case TimedOut => Failed(c, Timeout)
    case Http(status, parsed) =>
      if status >= 500 then Failed(c, FiveXX)
      else if !(200 <= status < 300) then Failed(c, FourXX)
      else if parsed.None? then Failed(c, InvalidResponse)
      else Succeeded(c, status)
  }

  function AttemptAt<R>(entry: Entry, replies: ChannelId -> Response<R>, c: ChannelId): Attempt {
    if c !in entry.endpoints then Failed(c, NoEndpoint) else Classify(c, replies(c))
  }

  predicate Stops(a: Attempt) {
    a.Succeeded? || a.reason.FourXX?
  }

  /** What each recorded outcome says about the answer. */
  lemma ClassifyExactly<R>(c: ChannelId, response: Response<R>)
    ensures
      var http := response.Http?;
      var ok := http && 200 <= response.status < 300;
      match Classify(c, response)
      case Succeeded(channel, status) => channel == c && ok && response.status == status && response.parsed.Some?
      case Failed(channel, reason) =>
        && channel == c
        && match reason
           case Network => response.NetworkError?
           case Timeout => response.TimedOut?
           case FiveXX => http && response.status >= 500
           case FourXX => http && response.status < 500 && !ok
           case InvalidResponse => ok && response.parsed.None?
           case NoEndpoint => false
  {
  }

  /** The walk ends on a well-shaped 2xx and on any other answer below 500; all else moves on. */
  lemma StopsIff<R>(c: ChannelId, response: Response<R>)
    ensures Classify(c, response).Succeeded? <==>
      response.Http? && 200 <= response.status < 300 && response.parsed.Some?
    ensures Stops(Classify(c, response)) <==>
      response.Http? && response.status < 500 && (200 <= response.status < 300 ==> response.parsed.Some?)
  {
  }

  /** The walk's channels are the two HTTP ones among the entry's. */
  lemma HttpChannels(channels: seq<ChannelId>, c: ChannelId)
    ensures c in FirstOccurrences(channels, IsHttp) <==> c in channels && (c == SERVER || c == FACILITATOR)
  {
    FirstOccurrencesMember(channels, IsHttp, c);
  }

  method OrderedChannels(channels: seq<ChannelId>) returns (ordered: seq<ChannelId>)
    ensures ordered == FirstOccurrences(channels, IsHttp)
  {
    var seen: set<ChannelId> := {};
    ordered := [];
    for i := 0 to |channels|
      invariant ordered == FirstOccurrences(channels[..i], IsHttp)
      invariant forall c :: c in seen <==> c in channels[..i] && IsHttp(c)
    {
      var c := channels[i];
      FirstOccurrencesStep(channels, IsHttp, i);
      if IsHttp(c) && c !in seen {
        seen := seen + {c};
        ordered := ordered + [c];
      }
    }
    assert channels[..|channels|] == channels;
  }

  /** `attempts` records what happened on a prefix of `ordered`, none but the last of which ended the walk. */
  ghost predicate WalkLog<R>(entry: Entry, replies: ChannelId -> Response<R>, ordered: seq<ChannelId>, attempts: seq<Attempt>) {
    && |attempts| <= |ordered|
    && (forall k | 0 <= k < |attempts| :: attempts[k] == AttemptAt(entry, replies, ordered[k]))
    && (forall k | 0 <= k < |attempts| - 1 :: !Stops(attempts[k]))
  }

  /** Some channel succeeds before any answers with a client error. */
  ghost predicate SuccessComesFirst<R>(entry: Entry, replies: ChannelId -> Response<R>, ordered: seq<ChannelId>) {
    exists k | 0 <= k < |ordered| ::
      && AttemptAt(entry, replies, ordered[k]).Succeeded?
      && forall j | 0 <= j < k :: !IsClientError(AttemptAt(entry, replies, ordered[j]))
  }

  predicate IsClientError(a: Attempt) {
    a.Failed? && a.reason.FourXX?
  }

  /**
   The walk tries the HTTP channels in order of first mention and stops at the first
   success or client error; it returns a result if and only if a success precedes every
   client error.
   */
  method SubmitAction<R>(entry: Entry, replies: ChannelId -> Response<R>) returns (r: Submission<R>)
    ensures var ordered := FirstOccurrences(entry.channels, IsHttp);
      && (r.NoCompatibleChannel? <==> ordered == [])
      && (r.NoCompatibleChannel? <==> SERVER !in entry.channels && FACILITATOR !in entry.channels)
      && (!r.NoCompatibleChannel? ==>
            && WalkLog(entry, replies, ordered, r.attempts)
            && (|r.attempts| < |ordered| ==> r.attempts != [] && Stops(r.attempts[|r.attempts| - 1])))
      && (r.Submitted? <==> SuccessComesFirst(entry, replies, ordered))
      && (r.Submitted? ==>
            && r.attempts != [] && r.attempts[|r.attempts| - 1].Succeeded?
            && r.channelUsed == r.attempts[|r.attempts| - 1].channel
            && replies(r.channelUsed).Http? && replies(r.channelUsed).parsed == Some(r.result))
  {
    var ordered := OrderedChannels(entry.channels);
    HttpChannels(entry.channels, SERVER);
    HttpChannels(entry.channels, FACILITATOR);
    assert ordered != [] ==> ordered[0] in ordered;
    if |ordered| > 0 {
      HttpChannels(entry.channels, ordered[0]);
    }
    if |ordered| == 0 {
      return NoCompatibleChannel;
    }
    var attempts: seq<Attempt> := [];
    for i := 0 to |ordered|
      invariant |attempts| == i && WalkLog(entry, replies, ordered, attempts)
      invariant forall k | 0 <= k < i :: !Stops(AttemptAt(entry, replies, ordered[k]))
    {
      var c := ordered[i];
      if c !in entry.endpoints {
        attempts := attempts + [Failed(c, NoEndpoint)];
      } else {
        var response := replies(c);
        var attempt := Classify(c, response);
        attempts := attempts + [attempt];
        assert attempt == AttemptAt(entry, replies, ordered[i]);
        if attempt.Succeeded? {
          return Submitted(response.parsed.value, c, attempts);
        }
        if attempt.reason.FourXX? {
          return AllChannelsFailed(attempts);
        }
      }
    }
    r := AllChannelsFailed(attempts);
  }

  lemma WalkOfSoundEntry<R>(entry: Entry, registry: Registry, url: Option<string>, replies: ChannelId -> Response<R>, attempts: seq<Attempt>)
    requires url.Some? && Sound(entry, registry, url) && WalkLog(entry, replies, FirstOccurrences(entry.channels, IsHttp), attempts)
    ensures forall k | 0 <= k < |attempts| :: !LacksEndpoint(attempts[k])
  {
    var ordered := FirstOccurrences(entry.channels, IsHttp);
    forall k | 0 <= k < |attempts| ensures !LacksEndpoint(attempts[k]) {
      FirstOccurrencesMember(entry.channels, IsHttp, ordered[k]);
      assert ordered[k] in entry.endpoints;
      assert attempts[k] == AttemptAt(entry, replies, ordered[k]);
    }
  }

  predicate LacksEndpoint(a: Attempt) {
    a.Failed? && a.reason.NoEndpoint?
  }

  /** Emission meets submission: walking any emitted entry never records `no-endpoint`. */
  lemma WalkNeverLacksAnEndpoint<R>(s: State, registry: Registry, url: string, entry: Entry,
                                    replies: ChannelId -> Response<R>, attempts: seq<Attempt>)
    requires WellFormed(s)
    requires EmitNextActions(s, registry, Some(url)).Ok? && entry in EmitNextActions(s, registry, Some(url)).value.next
    requires WalkLog(entry, replies, FirstOccurrences(entry.channels, IsHttp), attempts)
    ensures forall k | 0 <= k < |attempts| :: !LacksEndpoint(attempts[k])
  {
    EmissionIsSound(s, registry, Some(url));
    assert Sound(entry, registry, Some(url));
    WalkOfSoundEntry(entry, registry, Some(url), replies, attempts);
  }
}
