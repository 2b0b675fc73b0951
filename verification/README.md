# x402B payment SDK: verified models

x402B is a payment SDK over an external escrow contract. A resource server answers a
request with a 402 challenge that carries a signed offer; the buyer's client signs a
meta-transaction and a token authorisation and sends them back in a header; the server
validates them, a facilitator verifies and relays them, and afterwards both sides move the
exchange through its states while delivery data passes through fulfillment channels.

This project models the SDK's own logic in Dafny and proves what it is meant to guarantee.
Run `dafny verify dfyconfig.toml` in this directory.

| file | what it models |
|---|---|
| `SessionCache.dfy`, `OfferLifetime.dfy`, `OfferCacheHost.dfy` | the per-session offer cache: LRU order, capacity 256, TTL, in-flight sharing; when an offer is never handed out again; the cache object that is updated in place |
| `KeyedMutex.dfy` | the keyed promise-chain mutex, microtask by microtask |
| `Fulfillment.dfy`, `RecoveryJournal.dfy`, `RecoveryHost.dfy`, `SerialisedHandlers.dfy` | channels and gates; the two-phase recovery journal with every `await` a crash point; the handlers in their own imperative form; the redeem handlers under the mutex |
| `Json.dfy`, `CanonicalJson.dfy` | JSON values and printing; the server's and the facilitator's offer comparison |
| `Utf8.dfy`, `Base64.dfy`, `HeaderCodec.dfy` | the X-PAYMENT and X-PAYMENT-RESPONSE header codec |
| `Payment.dfy`, `PaymentClient.dfy`, `PaymentServer.dfy`, `PaymentFacilitator.dfy`, `PaymentAgreement.dfy` | building, validating and verifying a payment, and the agreement of the three parties |
| `StateMachine.dfy`, `NextActions.dfy`, `ExchangeVerification.dfy` | the exchange state machine, the `nextActions` envelope and the client's channel walk, lag-tolerant verification |
| `FacilitatorClient.dfy`, `Negotiation.dfy` | the retry loop; ordering and choosing a fulfillment option |
| `Wrappers.dfy`, `Sequences.dfy`, `Numerals.dfy` | options and results; first occurrences in a sequence; decimal numerals |

## How to read the models

- **Concurrency.** The cache, the mutex and the journal are state machines over events;
  theorems quantify over all event sequences. Time is an integer that events carry.
- **Outside calls.** Network replies, store operations, channel callbacks, clocks and
  random numbers are parameters. A rejected store operation may or may not have taken
  effect, and both are covered.
- **Imperative code.** The cache, the mutex and the journal handlers also appear as
  classes whose methods update their fields; each is proved to do exactly what the step
  function does. Loops in the source are methods with loops.
- **Cryptography.** Signing, recovery and the calldata builders are arbitrary functions.
  `Payment.Trustworthy` says what is assumed of them: recovery undoes signing up to the case
  of the address, and a signer's `v` is 27 or 28. Calldata is any function of the
  argument record.
- **Overlapping work on an exchange.** `NeverForgotten` allows any number of handlers, replays
  and server instances; its only condition is on the entries that replays read, and
  `ReplayForgetsIff` shows it exact. `CrashSafety` and the lone-replay theorems speak of one
  job or one entry and ask that nothing else works on its exchange. Among the redeem handlers
  of one server process the mutex provides that (`SerialisedHandlers.RedeemsRunAlone`); replay
  and other server instances take no lock.

## Where code and documentation differ

The models follow the code.

- `docs/boson-impl-05-server-sdk.md:310` says that after a successful replay the buyer's
  redeem flow is fully complete. A commit-phase replay never calls `onFulfill`;
  `ReplayCompletesIff` gives the exact condition and `CommitReplayLeavesDeliveryOwed` a run
  in which it fails. The comment at `typescript/packages/server/src/server.ts:68-73` says that
  success means `onCommit` succeeded; for a delivery-phase entry it means `onFulfill` did.
- `typescript/packages/server/src/facilitator/client.ts:74-75` promises a retry on every HTTP
  5xx. A 5xx whose body is not JSON is not retried (`RetriesAsPromisedIff`).
- The two offer comparisons agree on all values exactly when the key comparator never calls
  two different keys equal (`ChecksAgreeIff`); `localeCompare` does not promise that.
- `typescript/packages/client/src/submit.ts:236-240` labels every status outside 2xx and below
  500 as "4xx", redirects included.
- Server and facilitator differ on `v`: rule 8 accepts 0, 1, 27 and 28
  (`typescript/packages/server/src/validate/payment-payload.ts:572-581`), the facilitator only 27 and 28
  (`AcceptedPayloadReachesSignatures`).

## Model

| member | source | states |
|---|---|---|
| SessionCache.SharedPromise | examples/resource-server/src/app.ts:251-297 | two requests of one session, with any requests and build completions between them, get the very same promise unless in between the entry expired, its own build failed, or at least 256 distinct other sessions were touched |
| SessionCache.StackDistance | examples/resource-server/src/app.ts:203-224 | the 256 bound is exact: with no expiry and no failing build in between, the next request joins the promise if and only if fewer than 256 distinct other sessions were touched |
| SessionCache.IterationIsTouchOrder | examples/resource-server/src/app.ts:203-224 | in every run the Map iterates its sessions in the order they were last touched |
| SessionCache.PaidRetrySeesTheChallengedOffer | examples/resource-server/src/app.ts:191-297 | once the challenge's build has resolved, a retry within maxTimeoutSeconds joins the very promise of the challenge unless 256 other sessions were touched meanwhile |
| OfferLifetime.FailedPromiseIsNeverServed | examples/resource-server/src/app.ts:292-294 | in every run, from any valid cache on (RunValid): once an entry's own build has failed, no later request of any session is handed its promise again |
| OfferLifetime.ExpiredPromiseIsNeverServed | examples/resource-server/src/app.ts:226-260 | an entry that any request found expired when it pruned is handed out neither by that request nor by any later one |
| OfferLifetime.FailedSessionRebuilds | examples/resource-server/src/app.ts:262-294 | after a failed build the session's next request starts a new build, whatever other sessions did in between, unless eviction had already given the session another entry before the failure |
| OfferLifetime.ExpiredOfferIsRebuilt | examples/resource-server/src/app.ts:191-201 | an offer built at t is served no longer than its time to live: a request of its session at or past t plus the larger of 60 000 ms and maxTimeoutSeconds * 1000 + 5000 starts a new build |
| OfferLifetime.ResolveServes | examples/resource-server/src/app.ts:251-288 | a request serves what pruning left of its own session or a new entry, and leaves no slot but its own that was expired at either clock reading |
| SessionCache.RunValid | examples/resource-server/src/app.ts:203-297 | every run keeps at most 256 slots, one per session, each naming an entry of its own session |
| SessionCache.PruneKeepsLive | examples/resource-server/src/app.ts:226-233 | pruning keeps exactly the unexpired slots, in order |
| OfferCacheHost.OfferCache.PruneExpired | examples/resource-server/src/app.ts:226-233 | the in-place pruning loop leaves the cache as the specification says |
| OfferCacheHost.OfferCache.Set | examples/resource-server/src/app.ts:204-223 | the overriding set, with its pruning and eviction loops, leaves the cache as the specification says |
| OfferCacheHost.OfferCache.ResolveRequirements | examples/resource-server/src/app.ts:251-288 | a request returns the promise of the specification and leaves its cache |
| OfferCacheHost.OfferCache.BuildDone | examples/resource-server/src/app.ts:290-291 | a finished build sets the entry's expiry and nothing else |
| OfferCacheHost.OfferCache.BuildThrew | examples/resource-server/src/app.ts:292-294 | the catch branch leaves the cache as the specification says, which FailedPromiseIsNeverServed pins: a slot that holds this entry is gone, any other stays |
| KeyedMutex.MutualExclusion | typescript/packages/server/src/concurrency.ts:30-43 | in every interleaving of calls, settlements and cleanups at most one fn per key is running |
| KeyedMutex.StartsInCallOrder | typescript/packages/server/src/concurrency.ts:30-43 | when an fn starts, all earlier calls of its key are done and all later ones still wait |
| KeyedMutex.CleanUpSparesLaterCallers | typescript/packages/server/src/concurrency.ts:36-41 | a cleanup removes its key if and only if no later call of the key was made, and leaves any other entry as it is; the removed key has no unsettled call |
| KeyedMutex.RunValid | typescript/packages/server/src/concurrency.ts:27-45 | the tail invariant: the Map holds the latest call of each key, or nothing with every earlier call settled |
| KeyedMutex.KeysAreIndependent | typescript/packages/server/src/concurrency.ts:30-43 | an event of one key neither enables nor disables an event of another, and the two commute |
| KeyedMutex.QueueDrains | typescript/packages/server/src/concurrency.ts:30-43 | once calls stop coming, every schedule can be continued until a fixed number of steps has been made, and then every call has run and the Map is empty |
| KeyedMutex.KeyDrains | typescript/packages/server/src/concurrency.ts:30-43 | liveness of one key whatever the other keys do, new calls and never-settling fns included: its calls have a fixed number of steps left, while one is left one is enabled, and when all are made every call of the key has run and the key is out of the Map |
| KeyedMutex.Progress | typescript/packages/server/src/concurrency.ts:31-41 | while a call is unfinished, some event of a call of its own key is enabled |
| KeyedMutex.Mutex.RunExclusive | typescript/packages/server/src/concurrency.ts:30-36 | the synchronous part of runExclusive makes exactly the model's step |
| KeyedMutex.Mutex.CleanUp | typescript/packages/server/src/concurrency.ts:39-41 | the cleanup by identity makes exactly the model's step |
| Fulfillment.LookupsAgree | typescript/packages/server/src/handlers/commit-and-redeem.ts:131-132 | with distinct ids, which the configuration enforces, the commit handler's Map and the other handlers' find pick the same channel |
| Fulfillment.PassedSelectionIsServable | typescript/packages/server/src/validate/payment-payload.ts:472-540 | what passes rule 13 names an advertised option; it carries data exactly in the atomic flow, and then a registered channel accepted it |
| Fulfillment.GateOpensIff | typescript/packages/server/src/handlers/perform-action.ts:203-248 | the redeem gate opens exactly for a registered, validating channel that the recorded option list, if any, names |
| Fulfillment.GateRefusesBecause | typescript/packages/server/src/handlers/perform-action.ts:203-248 | a closed gate names the first of its four conditions that fails |
| Fulfillment.CheckFulfillmentIff | typescript/packages/server/src/validate/payment-payload.ts:472-540 | rule 13 passes if and only if a required selection is there and a carried one is on offer, with data exactly in the atomic flow and accepted by the validator; each refusal names its own cause |
| Fulfillment.ValidatorAcceptsIff | typescript/packages/server/src/handlers/commit-and-redeem.ts:131-132 | the validator the commit handler passes accepts exactly what the registered channel of the option accepts |
| RecoveryJournal.NeverForgotten | typescript/packages/server/src/handlers/perform-action.ts:262-342 | with any number of overlapping handlers, replays and server instances and crashes anywhere: once the journal has held an entry of an exchange, it holds one still, or onCommit resolved for an option and, if the channel registered for it has an onFulfill, that resolved too, as long as every replay of the exchange that read an entry read one in the delivery phase or of a channel without onFulfill |
| RecoveryJournal.ReplayForgetsIff | typescript/packages/server/src/server.ts:276-313 | that condition is exact: in every reachable world where something is still owed and a replay is about to make its call, a successful call and deletion forget the exchange if and only if the entry it read is in the commit phase of a channel with onFulfill |
| RecoveryJournal.CrashSafety | typescript/packages/server/src/handlers/perform-action.ts:262-342 | for one handler's own job: after its first journal write, at every await and across crashes, the store holds an entry with the redeemer and the buyer's option and data unless onCommit and, if there is one, onFulfill resolved after that write; nothing else working on the exchange |
| RecoveryJournal.SecondHandlerReplacesEntry | typescript/packages/server/src/handlers/perform-action.ts:272 | why: two handlers of different data on one exchange, and the second first write replaces the first entry |
| RecoveryJournal.HandlersNeverForget | typescript/packages/server/src/handlers/perform-action.ts:262-342 | in particular any number of overlapping handlers and crashes without a replay of the exchange: the journal holds an entry of it still, or onCommit and, if the option's registered channel has one, onFulfill resolved |
| RecoveryJournal.DeliveryOnlyAfterCommit | typescript/packages/server/src/handlers/perform-action.ts:310-337 | over all interleavings of redeem, commit-and-redeem, replay and crashes, a delivery-phase entry exists only if onCommit resolved with its option and data |
| RecoveryJournal.ReplayWrites | typescript/packages/server/src/server.ts:260-331 | a replay step touches only its exchange; it removes the entry only after the step its phase names resolved, and otherwise changes nothing of what it read but error |
| RecoveryJournal.LoneReplayIsSafe | typescript/packages/server/src/server.ts:260-331 | with nothing else at work on the exchange, a replay at every point leaves the entry up to error or has seen the step it names resolve |
| RecoveryJournal.ReplayCompletesIff | typescript/packages/server/src/server.ts:276-319 | after a successful replay the entry is gone, and the delivery flow is complete if and only if the entry was in the delivery phase, its channel has no onFulfill, or onFulfill had resolved before |
| RecoveryJournal.CommitReplayLeavesDeliveryOwed | typescript/packages/server/src/server.ts:311-319 | for every channel with onFulfill there is a run in which a replay that read the commit-phase entry succeeds, deletes it and leaves the exchange forgotten, onFulfill never called |
| RecoveryJournal.OverlappingReplayLosesDelivery | typescript/packages/server/src/server.ts:311-313 | a replay that read the commit-phase entry and overlaps its handler deletes the delivery-phase entry, and the exchange is forgotten although onFulfill never resolved |
| RecoveryJournal.GateGuardsEveryOnCommit | typescript/packages/server/src/handlers/perform-action.ts:203-279 | every onCommit reached from handleRedeem uses a registered channel that accepted the data, and the option is in the list a commit handler recorded for the exchange whenever the gate saw one |
| RecoveryJournal.GateReadsTheStore | typescript/packages/server/src/handlers/perform-action.ts:203-279 | in every reachable world a redeem with a selection goes on to settle if and only if the list on record for its exchange, if any, names the option and a registered channel of that id accepts the data; it carries on exactly that selection, that channel and that redeemer, and otherwise ends |
| RecoveryJournal.RecordedStays | typescript/packages/server/src/handlers/commit-and-redeem.ts:206-222 | a recorded option list stays on record through any run until a settled redeem drops it or another commit of the exchange replaces it |
| RecoveryJournal.RecordedListDecides | typescript/packages/server/src/handlers/perform-action.ts:203-248 | commit and redeem together: after a list was recorded, a later redeem of the exchange settles if and only if its option is on that list and a registered channel accepts the data |
| RecoveryJournal.AdapterNeverMissing | typescript/packages/server/src/handlers/commit-and-redeem.ts:245-267 | the commit handler's branch for a missing channel adapter is unreachable |
| RecoveryJournal.RunValid | typescript/packages/server/src/handlers/perform-action.ts:187-362 | every reachable world keeps the journal invariant, process by process |
| SerialisedHandlers.RedeemsRunAlone | typescript/packages/server/src/server.ts:384-394 | in every run of one server process, restarts included, no two redeem handlers of one exchange are ever live together, so that where neither a replay nor a commit-and-redeem works on the exchange a redeem handler works on it alone |
| RecoveryHost.Host.RedeemTail | typescript/packages/server/src/handlers/perform-action.ts:262-346 | the redeem handler's tail does exactly what the journal process does; a response without warnings means everything owed is done and the entry is gone; with a warning the entry holds the redeemer, the option, the data, the phase to resume from and the error of the warning |
| RecoveryHost.Host.RedeemCommit | typescript/packages/server/src/handlers/perform-action.ts:263-303 | write ahead, call onCommit, record a failure: the same steps as the journal process |
| RecoveryHost.Host.RedeemDelivery | typescript/packages/server/src/handlers/perform-action.ts:311-337 | the delivery write, the dispatch and the inner catch: the same steps as the journal process |
| RecoveryHost.Host.CommitTail | typescript/packages/server/src/handlers/commit-and-redeem.ts:225-337 | the Flow B tail with its outer catch does exactly what the journal process does, and a warning again says what the entry left behind holds |
| RecoveryHost.Host.CommitTry | typescript/packages/server/src/handlers/commit-and-redeem.ts:269-315 | the outer try of Flow B from onCommit on: what escapes it, what it records, when everything is done |
| RecoveryHost.Host.Replay | typescript/packages/server/src/server.ts:260-331 | replay does exactly what the journal process does; ok means the entry was removed after the one call its phase names |
| RecoveryHost.TailInPeace | typescript/packages/server/src/handlers/perform-action.ts:262-346 | with every call answered, a handler calls onCommit and then onFulfill if the channel has one, each once, leaves no entry, and in the redeem flow drops the option list |
| RecoveryHost.ReplaySucceedsIff | typescript/packages/server/src/server.ts:260-331 | a replay by itself succeeds if and only if there is an entry, its channel is registered and has the callback its phase asks for, and the read, the call and the deletion are answered; a failed one leaves the entry as it was but for error |
| RecoveryHost.DriveElsewhere | typescript/packages/server/src/handlers/perform-action.ts:187-362 | a handler or a replay leaves the journal entry and the option list of every other exchange alone |
| CanonicalJson.ChecksAgreeIff | typescript/packages/facilitator/src/verify/structural.ts:275-291 | for any comparator that is a total preorder, deepEqual and canonicalJson decide the same relation on all JSON values if and only if no two different keys compare as equal |
| CanonicalJson.ChecksAgreeOnTotalOrder | typescript/packages/server/src/validate/payment-payload.ts:542-563 | under a total key order deepEqual holds exactly when the canonical texts are equal |
| CanonicalJson.CanonicalImpliesDeepEqual | typescript/packages/facilitator/src/verify/structural.ts:275-291 | whatever the comparator, equal canonical text implies deepEqual |
| CanonicalJson.TiedKeysDisagree | typescript/packages/facilitator/src/verify/structural.ts:286 | two different keys that compare as equal give two objects that are deepEqual with different canonical texts |
| CanonicalJson.SortOrders | typescript/packages/facilitator/src/verify/structural.ts:279-291 | under any total preorder the sorted keys come out in its order |
| CanonicalJson.DeepEqualLoop | typescript/packages/server/src/validate/payment-payload.ts:542-563 | the recursive loop over indices and keys decides deep equality |
| Json.PrintInjective | typescript/packages/facilitator/src/verify/structural.ts:275-277 | two JSON values with the same printed text are the same value |
| Utf8.DecodeEncode | typescript/packages/client/src/base64.ts:21-29 | decoding the UTF-8 encoding of any well-formed text gives the text (section 3 of RFC 3629) |
| Utf8.TextDecoderRoundTrip | typescript/packages/client/src/base64.ts:21 | TextDecoder gives the text back except that it drops a leading U+FEFF |
| Utf8.DecodeFirstIff | typescript/packages/client/src/base64.ts:21 | decoding reads a character off exactly its own encoding, and puts U+FFFD where no encoding stands |
| Base64.AtobUndoesBtoa | typescript/packages/client/src/base64.ts:16-34 | atob undoes btoa on every byte string (section 4 of RFC 4648) |
| Base64.BufferUndoesEncode | typescript/packages/client/src/base64.ts:14-27 | Buffer's decoder undoes its encoder on every byte string |
| Base64.SpellingsNormalise | typescript/packages/server/src/validate/decode.ts:71-75 | either alphabet, padded or not, normalises to the same padded base64 (sections 4 and 5 of RFC 4648) |
| Base64.NormalisesOnlyIfNeeded | typescript/packages/server/src/validate/decode.ts:71-75 | base64UrlToBase64 is the identity exactly on padded text free of the URL-safe characters |
| Base64.AlphabetIs | typescript/packages/client/src/base64.ts:14-34 | the 64 characters in the order of table 1 of RFC 4648 |
| Base64.LongerEncodingVectors | typescript/packages/client/src/base64.ts:25-35 | the test vectors of section 10 of RFC 4648, with EncodingVectors for the short ones |
| Base64.WhitespaceIsSkipped | typescript/packages/client/src/base64.ts:16 | atob skips the five ASCII whitespace characters wherever they stand, and no other character |
| HeaderCodec.DecodeUndoesEncode | typescript/packages/client/src/base64.ts:12-35 | decodeBase64 of encodeBase64 of a text never fails, and is the text if and only if Buffer decodes or the text does not start with U+FEFF |
| HeaderCodec.HeaderCarriesText | typescript/packages/server/src/validate/decode.ts:41-52 | whatever base64 spelling the buyer used, the server parses exactly the encoded text, for every non-empty text without a leading U+FEFF |
| HeaderCodec.HeaderIsBase64Iff | typescript/packages/server/src/validate/decode.ts:41-54 | a header passes the base64 step if and only if, whitespace aside, it is alphabet characters followed by padding, and its own padding and the completion fit: at most two when the whole comes to full quads, else none |
| HeaderCodec.EncodeBase64 | typescript/packages/client/src/base64.ts:25-35 | both runtime branches produce the same base64 and neither can throw |
| HeaderCodec.DecodeBase64 | typescript/packages/client/src/base64.ts:12-22 | the byte-filling loop decodes to the specified text |
| HeaderCodec.DecodeXPaymentHeader | typescript/packages/server/src/validate/decode.ts:30-69 | a missing header, bad base64, bad JSON and a bad payload give their own errors, in that order |
| HeaderCodec.AnswersBecause | typescript/packages/server/src/validate/decode.ts:30-69 | each answer of the decoder has its exact cause |
| HeaderCodec.BtoaOfBytes | typescript/packages/server/src/internal/x-payment-response.ts:23-30 | growing a binary string byte by byte and passing it to btoa never throws and gives the base64 that Buffer gives |
| Numerals.ValueOfDecimal | typescript/packages/client/src/client.ts:279-281 | BigInt of a number's decimal notation is the number |
| Numerals.DecimalOfValue | typescript/packages/client/src/client.ts:279-281 | and a numeral without leading zeros is the decimal notation of its value |
| Numerals.Positional | typescript/packages/client/src/client.ts:279-281 | the value of two numerals written one after the other is the positional sum |
| Numerals.LongerIsLarger | typescript/packages/client/src/client.ts:279-281 | of two numerals without leading zeros the longer is the larger |
| Payment.ParseChainIdIff | typescript/packages/facilitator/src/verify/structural.ts:253-265 | a network names chain n exactly as eip155: and digits of value n |
| Payment.DeadlineMeans | typescript/packages/client/src/token-auth/deadline.ts:19-32 | the client's deadline is M - 60 seconds ahead for M > 61 and one second ahead otherwise |
| Sequences.SameLower | typescript/packages/facilitator/src/verify/meta-tx-signature.ts:377-389 | two addresses compare as equal exactly when they differ in nothing but the case of ASCII letters |
| Payment.ExactSkewBound | typescript/packages/client/src/token-auth/deadline.ts:19-32 | with g = min(60, M - 1), the facilitator's window accepts the client's deadline exactly when c - f <= g and f - c < M - g |
| Payment.ExactHorizon | typescript/packages/server/src/validate/payment-payload.ts:326-327 | the server's horizon accepts it exactly when the server's clock lags by at most g |
| Payment.OnlyExpiryFailsLater | typescript/packages/facilitator/src/verify/token-auth-signature.ts:314-338 | a deadline the server accepted at t0 fails the facilitator's window at any later t1 exactly when it has expired |
| Payment.SplicesAgree | typescript/packages/client/src/pre-commit.ts:87-96 | client, server and facilitator splice committer and signature in different orders into one and the same argument record: the members of the offer, the seller's signature and the buyer under the keys signature and committer |
| PaymentClient.ChoiceIsFirstUsable | typescript/packages/client/src/token-auth/index.ts:47-91 | the strategy is the first advertised and available one in preference order, and none only if none is usable |
| PaymentClient.PreferenceMeans | typescript/packages/client/src/token-auth/index.ts:47-91 | ERC-3009 if advertised and a domain resolver is there, else Permit2 if advertised, else permit with a resolver and a public client, else nothing |
| PaymentClient.CeilingMeans | typescript/packages/client/src/client.ts:274-286 | an amount passes a ceiling, both in decimal, exactly when it is no greater a number |
| PaymentClient.EmittedIsBuilt | typescript/packages/client/src/payload.ts:37-79 | an emitted payload echoes the requirements, uses the action and strategy the policy picks, and carries the buyer's signatures over exactly these typed data, with the price numerically within the ceiling on a chain id a JavaScript number can hold |
| PaymentClient.HandleChallenge | typescript/packages/client/src/client.ts:152-230 | the result is the one proper answer under the policy (echoed requirements, the picked action, the first usable or forced strategy, signatures over those very fields, the required selection, the amount ceiling), and a refusal is the first obstacle in the order the client looks |
| PaymentClient.HandleIff | typescript/packages/client/src/client.ts:152-230 | a payload is emitted if and only if it is a proper answer to the requirements |
| PaymentServer.FirstFailedRule | typescript/packages/server/src/validate/payment-payload.ts:99-226 | for any payload, requirements and clock: the server accepts exactly when all its rules hold, rule 13 included, and otherwise reports the first that does not; each rule is stated by itself on the wire fields |
| PaymentServer.CodeSaysWhat | typescript/packages/server/src/validate/payment-payload.ts:99-540 | every refusal carries the code of what is wrong, the fields of an authorisation being looked at in the order amount, parties, deadline |
| PaymentFacilitator.VerdictIsFirstFailure | typescript/packages/facilitator/src/verify/index.ts:55-176 | for any input and clock the facilitator answers with the code of the first of its nineteen steps that does not hold (network, schemas, scheme, offer, calldata, strategy, allowlisted escrow, both signatures and the rest), and passes exactly when they all do |
| PaymentFacilitator.CheckMetaTxIff | typescript/packages/facilitator/src/verify/meta-tx-signature.ts:371-396 | for every payload the meta-transaction step passes if and only if v is 27 or 28 and the signature recovers to the buyer, who is the sender, over this chain, escrow, nonce and calldata |
| PaymentAgreement.ServerAcceptsEmittedIff | typescript/packages/server/src/validate/payment-payload.ts:99-226 | an emitted payload passes all the rules of FirstFailedRule if and only if it carries no token authorisation or c - t <= min(60, M - 1), given that the per-channel validator accepts the data |
| PaymentAgreement.FacilitatorAcceptsEmittedIff | typescript/packages/facilitator/src/verify/index.ts:55-176 | the same payload passes every step of VerdictIsFirstFailure, on an allowlisted escrow, if and only if it carries no token authorisation or c - f <= g and f - c < M - g (and f > 0 for ERC-3009) |
| PaymentAgreement.AcceptedPayloadReachesSignatures | typescript/packages/facilitator/src/verify/structural.ts:115-247 | for any payload the server accepted, every facilitator step before the signatures passes, and the meta-transaction step passes if and only if v is 27 or 28 |
| PaymentAgreement.AcceptedDeadlineFailsOnlyByExpiry | typescript/packages/facilitator/src/verify/token-auth-signature.ts:314-338 | the deadline of a server-accepted authorisation fails at the facilitator later only by expiry |
| PaymentServer.ServerDemandsExactly | typescript/packages/server/src/validate/payment-payload.ts:319-470 | rules 8 to 11 accept exactly the payloads the buyer signed whose authorisation is absent for none and otherwise of the announced kind, for exactly the price, to the escrow, lapsing by now + M |
| PaymentFacilitator.FacilitatorDemandsExactly | typescript/packages/facilitator/src/verify/token-auth-signature.ts:74-338 | the facilitator accepts exactly the authorisations that pay the price in the required token to the allowlisted escrow, are within the window, have started, name the buyer, and are the buyer's signature over those fields under the token's own domain; an unreadable domain is an internal error |
| PaymentAgreement.AuthorisedWithinPolicy | typescript/packages/client/src/client.ts:274-286 | no emitted authorisation exceeds policy.maxAmount as a number |
| PaymentAgreement.EmittedCalldata | typescript/packages/client/src/pre-commit.ts:46-96 | the calldata the client signs is the one the server and the facilitator rebuild |
| PaymentAgreement.EmittedMetaTx | typescript/packages/facilitator/src/verify/meta-tx-signature.ts:371-396 | the emitted meta-transaction passes the signature checks of server and facilitator, which CheckMetaTxIff and ServerDemandsExactly make exact |
| PaymentAgreement.EmittedRule13 | typescript/packages/client/src/fulfillment.ts:42-84 | a resolved selection, with data only in the atomic flow, passes rule 13 |
| StateMachine.RunsAreShort | typescript/packages/core/src/state-machine/transitions.ts:42-108 | any interleaving of buyer and seller moves makes at most four exchange-keyed transitions, keeps a dispute exactly in DISPUTED and never returns to a state it left |
| StateMachine.ReachableIff | typescript/packages/core/src/state-machine/action-ids.ts:110-133 | buyer and seller moves reach exactly the well-formed states without a resolver's verdict |
| StateMachine.LegalIff | typescript/packages/core/src/state-machine/transitions.ts:42-118 | the tables by state and side agree with one pre-state per action and the division of actions between the sides |
| StateMachine.FourTransitionsHappen | typescript/packages/core/src/state-machine/action-ids.ts:110-133 | the bound of four transitions is met |
| StateMachine.PostStateIff | typescript/packages/core/src/state-machine/action-ids.ts:110-133 | each state is entered by the action named for it and by no other |
| StateMachine.StateNamesItsCause | typescript/packages/core/src/state-machine/transitions.ts:42-118 | in any run an exchange is cancelled only because the buyer cancelled, revoked only because the seller revoked, and so on: the state names the last transition and who made it |
| NextActions.EmissionIsSound | typescript/packages/actions/src/derive.ts:82-203 | for every registry and client state, with or without a facilitator URL: an emitted envelope lists exactly the client's legal actions in table order; each entry's channels are duplicate-free, in registry order and exactly those that can serve the action; its endpoints are exactly those of its HTTP channels, /settle for the commit actions and /perform-action under its own name for the rest; the fallback names the escrow, the contacts and exactly those actions' facets; with an escrow it never throws |
| NextActions.EmissionThrowsIff | typescript/packages/actions/src/derive.ts:94-102 | for any registry, emission throws exactly when some legal action is served neither by a listed channel with what it needs nor on chain for want of an escrow |
| NextActions.WalkNeverLacksAnEndpoint | typescript/packages/client/src/submit.ts:152-163 | the client's walk over any emitted entry never records no-endpoint |
| NextActions.SubmitAction | typescript/packages/client/src/submit.ts:143-184 | the attempts are a prefix of the HTTP channels in order of first mention, ending at the first success or client error; a result is returned if and only if a success precedes every client error |
| NextActions.StopsIff | typescript/packages/client/src/submit.ts:230-275 | the walk ends exactly on a well-shaped 2xx and on other answers below 500 that are not 2xx |
| NextActions.ClassifyExactly | typescript/packages/client/src/submit.ts:230-275 | each recorded outcome says exactly what the answer was |
| NextActions.FacetByTransition | typescript/packages/core/src/state-machine/action-ids.ts:143-169 | an action's facet follows from the transition it makes: committing, orchestrating, disputing, moving funds, or the exchange's own life cycle |
| NextActions.OrderedChannels | typescript/packages/client/src/submit.ts:186-196 | the loop keeps the HTTP channels at their first occurrence |
| NextActions.BuildEnvelope | typescript/packages/actions/src/derive.ts:82-122 | the loops of buildEnvelope build the specified entries and fallback, or name the first action without a channel |
| NextActions.FilterChannels | typescript/packages/actions/src/derive.ts:93-99 | the filter with its mutable seen set keeps each usable channel at its first occurrence |
| NextActions.ActionFacetsFor | typescript/packages/actions/src/onchain-hints.ts:55-61 | the record holds the facet of every advertised action |
| NextActions.EndpointIgnoresTrailingSlash | typescript/packages/server/src/internal/facilitator-endpoints.ts:21-27 | a trailing slash on the facilitator URL makes no difference |
| ExchangeVerification.AnswersAreTrue | typescript/packages/server/src/handlers/perform-action.ts:124-172 | behind any interleaving of moves and a lagging reader, a 200 given on a verified read names a state the exchange really reached and lists exactly its client-legal actions |
| ExchangeVerification.HandlePerformAction | typescript/packages/server/src/handlers/perform-action.ts:83-173 | the exact condition of every outcome, the code of the deciding comparison included; and behind any run of the exchange that the reader lags behind, every 200 is truthful |
| ExchangeVerification.VerifyExchange | typescript/packages/server/src/onchain/verify-exchange.ts:144-166 | the loop returns the last comparison; earlier ones were all retryable, and it stopped early only on one that is not; it waits delayMs between tries |
| ExchangeVerification.VerifiedIff | typescript/packages/server/src/onchain/verify-exchange.ts:154-163 | the loop succeeds if and only if some read within the bound verifies with only retryable results before it |
| ExchangeVerification.VerdictExactly | typescript/packages/server/src/onchain/verify-exchange.ts:80-135 | a snapshot verifies exactly when state and terms match, and is retried exactly when the state does not |
| ExchangeVerification.MismatchNames | typescript/packages/server/src/onchain/verify-exchange.ts:80-135 | a mismatch names the first thing that differs: state, dispute, seller, token, price |
| ExchangeVerification.BoundsMean | typescript/packages/server/src/onchain/verify-exchange.ts:144-153 | three reads 50 ms apart unless told otherwise; fractions are dropped and one read is always made |
| ExchangeVerification.LagIsTolerated | typescript/packages/server/src/onchain/verify-exchange.ts:137-166 | if one of the three reads shows the post-state, lag before it never causes an error |
| FacilitatorClient.Post | typescript/packages/server/src/facilitator/client.ts:250-274 | k <= attempts tries with the same request each, TotalSleep in all, and the outcome of the last try, which is final or the last allowed; all earlier ones failed retryably |
| FacilitatorClient.TotalSleepClosed | typescript/packages/server/src/facilitator/client.ts:258-260 | the total sleep over k tries is backoffMs * k(k-1)/2 |
| FacilitatorClient.PostOnceIff | typescript/packages/server/src/facilitator/client.ts:152-248 | a result comes exactly from a body of the right shape under a 2xx, or under a 400 whose body is the failure branch |
| FacilitatorClient.PostOnceErrors | typescript/packages/server/src/facilitator/client.ts:152-248 | each error code has its own cause and carries the status whenever there was an answer |
| FacilitatorClient.RetriesAsPromisedIff | typescript/packages/server/src/facilitator/client.ts:331-335 | the documented retry policy holds for a reply if and only if it is not a 5xx with an unreadable or non-JSON body |
| FacilitatorClient.HtmlErrorPageIsFinal | typescript/packages/server/src/facilitator/client.ts:201-210 | a reply that the documentation promises to retry and the code does not |
| Negotiation.OrderedIdsAreAPermutation | typescript/packages/fulfillment/src/client/negotiate.ts:100-121 | every advertised id exactly once, preferred ones first in preference order, the rest in seller order |
| Negotiation.OrderOptions | typescript/packages/fulfillment/src/client/negotiate.ts:100-121 | the two loops produce that order; of duplicates a preferred id gets the last, any other the first |
| Negotiation.PickMeans | typescript/packages/fulfillment/src/client/negotiate.ts:100-121 | of several options with one id a preferred id gets the last, any other the first |
| Negotiation.NegotiateFulfillment | typescript/packages/fulfillment/src/client/negotiate.ts:65-98 | the choice is the first supported and satisfiable option with its data; failure means there is none and names exactly the supported ids as attempted |
| Negotiation.ExtractFromAgentContext | typescript/packages/fulfillment/src/client/negotiate.ts:123-146 | the known keys of the context, or nothing if a required one is missing |
| Negotiation.FromContextMeans | typescript/packages/fulfillment/src/client/negotiate.ts:123-146 | the context serves exactly when it has every required key, and then gives its known keys as they are |
| Negotiation.SatisfyIff | typescript/packages/fulfillment/src/client/negotiate.ts:65-98 | an option without a schema needs nothing; one with a schema is satisfied from the context if that has all required keys, and otherwise only by a collected answer that has them |
| Negotiation.AttemptedIds | typescript/packages/fulfillment/src/client/negotiate.ts:65-98 | the attempted ids are the supported ones among the advertised, each once, in the order of the walk |

## Left out

- RecoveryJournal.CrashSafety: speaks of one handler's own option and data, which a second handler of the exchange really replaces (SecondHandlerReplacesEntry), so none may run; NeverForgotten is the claim for the exchange with every overlap allowed.
- PaymentAgreement.AcceptedPayloadReachesSignatures: assumes calldata builders that do not look at the order of nested members, because the two sides rebuild the calldata from offers that are only deeply equal.
- Cryptography, EIP-712 hashing, ABI encoding and everything inside viem, core-sdk, zod and Ajv: uninterpreted functions, with the assumptions named above.
- JSON.parse, `undefined`, NaN and the reordering of integer-like keys: offers are plain JSON values in the order they were parsed.
- Lone surrogates in header text: JSON.stringify escapes them, so header text is well-formed.
- Node's Buffer decoder on text with `=` in the middle, where versions differ: the model skips every character outside the alphabets.
- On-chain submission, receipts, error-chain classification, subgraph queries and the simulation step of `verify`.
- Express routers, the paywall, environment parsing and the other example and end-to-end entry points.
- `normalizeSessionId`: session ids reach the cache already normalised.
- The commit handlers up to the journal: decoding and validation are modelled on their own; settlement and `buildExpectedFromRequirements` only as the point where the Flow B tail and the option recording start.
- Withdraw and available-funds handlers, entity resolution, calldata-id matching, SDK caches, health check, `recovery.list`: short tables or thin reads.
- Post-commit meta-transaction types (`recoverActionMetaTxSigner`): unseen decoders dispatched by action.
- Request bodies and response parsing of the channel walk: a 2xx body either has the channel's shape or not.
- Timers: waits are counted, not awaited; `fetch` outcomes are given by an oracle per try or channel.
- Non-integer `maxTimeoutSeconds`: the requirements schema admits positive integers only.
- A collector that throws in `negotiateFulfillment`, and interactive answers that are objects with undefined fields: an answer is its defined properties.
- Operators who edit the recovery store by hand between replays.
