/**
 Fulfillment channels and the two gates in front of them: rule 13 of the payment
 validator at commit time, and the option gate of the redeem handler.
 */
module Fulfillment {
  import opened Json
  import opened StateMachine
  import opened Wrappers

  type OptionId = string

  /** What a channel's `validate` callback does with a piece of data. */
  datatype Verdict = Accepted | Refused(reason: string) | Threw(reason: string)

  /** A registered channel; `dispatches` says whether it has an `onFulfill`. */
  datatype Channel = Channel(id: OptionId, validate: Json -> Verdict, dispatches: bool)

  /** The server configuration refuses duplicate channel ids at boot. */
  ghost predicate DistinctIds(channels: seq<Channel>) {
    forall i, j | 0 <= i < j < |channels| :: channels[i].id != channels[j].id
  }

  /** `channels.find(c => c.id === id)`: the first match. */
  function Find(channels: seq<Channel>, id: OptionId): Option<Channel> {
    if channels == [] then None
    else if channels[0].id == id then Some(channels[0])
    else Find(channels[1..], id)
  }

  /** `new Map(channels.map(c => [c.id, c])).get(id)`: the last match. */
  function ById(channels: seq<Channel>, id: OptionId): Option<Channel> {
    if channels == [] then None
    else
      var later := ById(channels[1..], id);
      if later.Some? then later
      else if channels[0].id == id then Some(channels[0])
      else None
  }

  lemma {:induction false} LookupsMatch(channels: seq<Channel>, id: OptionId)
    ensures Find(channels, id).Some? ==> Find(channels, id).value in channels && Find(channels, id).value.id == id
    ensures Find(channels, id).None? ==> forall c | c in channels :: c.id != id
    ensures ById(channels, id).Some? <==> Find(channels, id).Some?
  {
    if channels != [] {
      LookupsMatch(channels[1..], id);
      assert channels == [channels[0]] + channels[1..];
    }
  }

  /** The commit handler's Map and the redeem and replay handlers' `find` pick the same channel. */
  lemma {:induction false} LookupsAgree(channels: seq<Channel>, id: OptionId)
    requires DistinctIds(channels)
    ensures ById(channels, id) == Find(channels, id)
  {
    if channels != [] {
      LookupsAgree(channels[1..], id);
      LookupsMatch(channels[1..], id);
      forall c | c in channels[1..] ensures c.id != channels[0].id {
        var i :| 0 <= i < |channels[1..]| && channels[1..][i] == c;
        assert channels[i + 1] == c;
      }
    }
  }

  // ----- rule 13 -----

  datatype FulfillmentOption = FulfillmentOption(id: OptionId, schema: Option<Json>)

  datatype FulfillmentRequirements = FulfillmentRequirements(required: bool, options: seq<FulfillmentOption>)

  /** What the payload carries: an option and, in the atomic flow, the data. */
  datatype Selection = Selection(option: OptionId, data: Option<Json>)

  /** The option ids a commit handler records for a later redeem. */
  function AdvertisedIds(required: Option<FulfillmentRequirements>): seq<OptionId> {
    if required.None? then [] else seq(|required.value.options|, i requires 0 <= i < |required.value.options| => required.value.options[i].id)
  }

  datatype Rule13 =
    | Pass
    | FULFILLMENT_REQUIRED
    | FULFILLMENT_OPTION_NOT_ADVERTISED
    | FULFILLMENT_DATA_REQUIRED
    | FULFILLMENT_DATA_UNEXPECTED
    | FULFILLMENT_DATA_INVALID

  function CheckFulfillment(required: Option<FulfillmentRequirements>, carried: Option<Selection>,
                            action: string, validator: Option<(OptionId, Json) -> Verdict>): Rule13
  {
    if carried.None? then
      if required.Some? && required.value.required then FULFILLMENT_REQUIRED else Pass
    else if carried.value.option !in AdvertisedIds(required) then FULFILLMENT_OPTION_NOT_ADVERTISED
    else if action == Name(CreateOfferCommitAndRedeem) then
      if carried.value.data.None? then FULFILLMENT_DATA_REQUIRED
      else if validator.Some? && !validator.value(carried.value.option, carried.value.data.value).Accepted? then
        FULFILLMENT_DATA_INVALID
      else Pass
    else if carried.value.data.Some? then FULFILLMENT_DATA_UNEXPECTED
    else Pass
  }

  /** The validator the commit handler passes: the registered channel's own, with a throw caught. */
  function ChannelValidator(channels: seq<Channel>): (OptionId, Json) -> Verdict {
    (option: OptionId, data: Json) =>
      match ById(channels, option)
      case None => Refused("no registered channel adapter")
      case Some(channel) =>
        match channel.validate(data)
        case Threw(reason) => Refused(reason)
        case verdict => verdict
  }

  /**
   Rule 13 makes the commit handler's "no channel adapter is registered" branch
   unreachable: whatever passes it with data in the atomic flow names an advertised,
   registered channel that accepted the data; in the two-step flow nothing carries data.
   */
  lemma PassedSelectionIsServable(required: Option<FulfillmentRequirements>, carried: Option<Selection>,
                                  action: string, channels: seq<Channel>)
    requires CheckFulfillment(required, carried, action, Some(ChannelValidator(channels))) == Pass
    requires carried.Some?
    ensures carried.value.option in AdvertisedIds(required)
    ensures carried.value.data.Some? <==> action == Name(CreateOfferCommitAndRedeem)
    ensures carried.value.data.Some? ==>
      var channel := ById(channels, carried.value.option);
      && channel.Some? && channel.value in channels && channel.value.id == carried.value.option
      && channel.value.validate(carried.value.data.value).Accepted?
  {
    ByIdMatches(channels, carried.value.option);
  }

  /** An option of that id is on offer. */
  ghost predicate OnOffer(required: Option<FulfillmentRequirements>, option: OptionId) {
    required.Some? && exists o | o in required.value.options :: o.id == option
  }

  lemma AdvertisedIsOnOffer(required: Option<FulfillmentRequirements>, option: OptionId)
    ensures option in AdvertisedIds(required) <==> OnOffer(required, option)
  {
    if required.Some? {
      var options := required.value.options;
      if option in AdvertisedIds(required) {
        var i :| 0 <= i < |options| && AdvertisedIds(required)[i] == option;
        assert options[i] in options;
      }
      if o :| o in options && o.id == option {
        var i :| 0 <= i < |options| && options[i] == o;
        assert AdvertisedIds(required)[i] == option;
      }
    }
  }

  /** What rule 13 asks of any payload: a required selection is there, and one that is there is on offer and fits the flow. */
  ghost predicate FulfillmentHolds(required: Option<FulfillmentRequirements>, carried: Option<Selection>,
                                   action: string, validator: Option<(OptionId, Json) -> Verdict>)
  {
    match carried
    case None => required.Some? ==> !required.value.required
    case Some(Selection(option, data)) =>
      && OnOffer(required, option)
      && (data.Some? <==> action == Name(CreateOfferCommitAndRedeem))
      && (data.Some? && validator.Some? ==> validator.value(option, data.value).Accepted?)
  }

  /** Rule 13 passes exactly what it asks for, and otherwise says which part is missing. */
  lemma CheckFulfillmentIff(required: Option<FulfillmentRequirements>, carried: Option<Selection>,
                            action: string, validator: Option<(OptionId, Json) -> Verdict>)
    ensures
      var atomic := action == Name(CreateOfferCommitAndRedeem);
      match CheckFulfillment(required, carried, action, validator)
      case Pass => FulfillmentHolds(required, carried, action, validator)
      case FULFILLMENT_REQUIRED => carried.None? && required.Some? && required.value.required
      case FULFILLMENT_OPTION_NOT_ADVERTISED => carried.Some? && !OnOffer(required, carried.value.option)
      case FULFILLMENT_DATA_REQUIRED => carried.Some? && atomic && carried.value.data.None?
      case FULFILLMENT_DATA_UNEXPECTED => carried.Some? && !atomic && carried.value.data.Some?
      case FULFILLMENT_DATA_INVALID =>
        carried.Some? && atomic && carried.value.data.Some? && validator.Some?
        && !validator.value(carried.value.option, carried.value.data.value).Accepted?
    ensures FulfillmentHolds(required, carried, action, validator) ==>
      CheckFulfillment(required, carried, action, validator).Pass?
  {
    if carried.Some? {
      AdvertisedIsOnOffer(required, carried.value.option);
    }
  }

  /** The commit handler's validator accepts exactly what the registered channel of the option accepts. */
  lemma ValidatorAcceptsIff(channels: seq<Channel>, option: OptionId, data: Json)
    requires DistinctIds(channels)
    ensures ChannelValidator(channels)(option, data).Accepted? <==>
      exists c | c in channels :: c.id == option && c.validate(data).Accepted?
  {
    ByIdMatches(channels, option);
    LookupsAgree(channels, option);
    forall c | c in channels && c.id == option ensures Find(channels, option) == Some(c) {
      FindOnly(channels, c);
    }
  }

  lemma {:induction false} ByIdMatches(channels: seq<Channel>, id: OptionId)
    ensures ById(channels, id).Some? ==> ById(channels, id).value in channels && ById(channels, id).value.id == id
  {
    if channels != [] {
      ByIdMatches(channels[1..], id);
      assert channels == [channels[0]] + channels[1..];
    }
  }

  // ----- the redeem handler's option gate -----

  datatype GateError =
    | OPTION_NOT_ADVERTISED
    | CHANNELS_NOT_CONFIGURED
    | OPTION_UNKNOWN
    | DATA_INVALID

  /** `advertised` is what the option store holds for the exchange, if anything. */
  function RedeemGate(advertised: Option<seq<OptionId>>, channels: Option<seq<Channel>>,
                      option: OptionId, data: Json): Result<Channel, GateError>
  {
    if advertised.Some? && option !in advertised.value then Err(OPTION_NOT_ADVERTISED)
    else if channels.None? then Err(CHANNELS_NOT_CONFIGURED)
    else
      match Find(channels.value, option)
      case None => Err(OPTION_UNKNOWN)
      case Some(channel) =>
        if channel.validate(data).Accepted? then Ok(channel) else Err(DATA_INVALID)
  }

  /** The gate opens exactly for a registered, validating channel that a recorded list, if any, names. */
  lemma GateOpensIff(advertised: Option<seq<OptionId>>, channels: Option<seq<Channel>>, option: OptionId, data: Json)
    requires channels.Some? ==> DistinctIds(channels.value)
    ensures RedeemGate(advertised, channels, option, data).Ok? <==>
      && (advertised.Some? ==> option in advertised.value)
      && channels.Some?
      && exists c | c in channels.value :: c.id == option && c.validate(data).Accepted?
    ensures RedeemGate(advertised, channels, option, data).Ok? ==>
      var channel := RedeemGate(advertised, channels, option, data).value;
      channel in channels.value && channel.id == option && channel.validate(data).Accepted?
  {
    if channels.Some? {
      LookupsMatch(channels.value, option);
      forall c | c in channels.value && c.id == option ensures Find(channels.value, option) == Some(c) {
        FindOnly(channels.value, c);
      }
    }
  }

  /** A closed gate says why: the first of the four conditions that fails. */
  lemma GateRefusesBecause(advertised: Option<seq<OptionId>>, channels: Option<seq<Channel>>, option: OptionId, data: Json)
    requires channels.Some? ==> DistinctIds(channels.value)
    requires RedeemGate(advertised, channels, option, data).Err?
    ensures
      var listed := advertised.Some? ==> option in advertised.value;
      var registered := channels.Some? && exists c | c in channels.value :: c.id == option;
      match RedeemGate(advertised, channels, option, data).error
      case OPTION_NOT_ADVERTISED => !listed
      case CHANNELS_NOT_CONFIGURED => listed && channels.None?
      case OPTION_UNKNOWN => listed && channels.Some? && !registered
      case DATA_INVALID => listed && registered && forall c | c in channels.value && c.id == option :: !c.validate(data).Accepted?
  {
    GateOpensIff(advertised, channels, option, data);
    if channels.Some? {
      LookupsMatch(channels.value, option);
    }
  }

  lemma FindOnly(channels: seq<Channel>, c: Channel)
    requires DistinctIds(channels) && c in channels
    ensures Find(channels, c.id) == Some(c)
  {
    LookupsMatch(channels, c.id);
    var found := Find(channels, c.id).value;
    var i :| 0 <= i < |channels| && channels[i] == c;
    var j :| 0 <= j < |channels| && channels[j] == found;
    SameIndex(channels, i, j);
  }

  lemma SameIndex(channels: seq<Channel>, i: nat, j: nat)
    requires DistinctIds(channels) && i < |channels| && j < |channels| && channels[i].id == channels[j].id
    ensures i == j
  {
  }
}
