/**
 The client's choice of a fulfillment option: preferred ids first, then the seller's order,
 taking the first option that is supported and can be satisfied.
 */
module Negotiation {
  import opened Sequences
  import opened Wrappers

  type OptionId = string

  /** The parts of an option's JSON Schema the client reads. */
  datatype Schema = Schema(required: seq<string>, properties: seq<string>)

  datatype FulfillmentOption = FulfillmentOption(id: OptionId, schema: Option<Schema>)

  /** An object's defined properties. */
  type Record<V> = map<string, V>

  function Ids(options: seq<FulfillmentOption>): (ids: seq<OptionId>)
    ensures |ids| == |options| && forall i | 0 <= i < |ids| :: ids[i] == options[i].id
  {
    seq(|options|, i requires 0 <= i < |options| => options[i].id)
  }

  // ----- ordering -----

  /** What `byId` holds: the last option with the id. */
  function LastWith(options: seq<FulfillmentOption>, id: OptionId): Option<FulfillmentOption> {
    if options == [] then None
    else if options[|options| - 1].id == id then Some(options[|options| - 1])
    else LastWith(options[..|options| - 1], id)
  }

  function FirstWith(options: seq<FulfillmentOption>, id: OptionId): (o: FulfillmentOption)
    requires id in Ids(options)
    ensures o in options && o.id == id
  {
    options[IndexOf(Ids(options), id)]
  }

  lemma {:induction false} LastWithMatches(options: seq<FulfillmentOption>, id: OptionId)
    ensures LastWith(options, id).Some? <==> id in Ids(options)
    ensures LastWith(options, id).Some? ==> LastWith(options, id).value in options && LastWith(options, id).value.id == id
  {
    if options != [] {
      var n := |options| - 1;
      LastWithMatches(options[..n], id);
      assert options == options[..n] + [options[n]];
      assert Ids(options) == Ids(options[..n]) + [options[n].id];
    }
  }

  function PreferredIds(options: seq<FulfillmentOption>, prefer: seq<OptionId>): seq<OptionId> {
    FirstOccurrences(prefer, id => id in Ids(options))
  }

  function RemainingIds(options: seq<FulfillmentOption>, prefer: seq<OptionId>): seq<OptionId> {
    FirstOccurrences(Ids(options), id => id !in prefer)
  }

  function OrderedIds(options: seq<FulfillmentOption>, prefer: seq<OptionId>): seq<OptionId> {
    PreferredIds(options, prefer) + RemainingIds(options, prefer)
  }

  /** Of several options with one id, a preferred id gets the last, any other the first. */
  function Pick(options: seq<FulfillmentOption>, prefer: seq<OptionId>, id: OptionId): (o: FulfillmentOption)
    requires id in Ids(options)
    ensures o.id == id
  {
    LastWithMatches(options, id);
    if id in prefer then LastWith(options, id).value else FirstWith(options, id)
  }

  lemma {:induction false} LastWithIndex(options: seq<FulfillmentOption>, id: OptionId) returns (k: nat)
    requires id in Ids(options)
    ensures k < |options| && LastWith(options, id) == Some(options[k]) && options[k].id == id
    ensures forall j | k < j < |options| :: options[j].id != id
  {
    var n := |options| - 1;
    if options[n].id == id {
      k := n;
    } else {
      assert Ids(options) == Ids(options[..n]) + [options[n].id];
      k := LastWithIndex(options[..n], id);
    }
  }

  /** Which of several options with one id is picked: the last for a preferred id, the first for any other. */
  lemma PickMeans(options: seq<FulfillmentOption>, prefer: seq<OptionId>, id: OptionId) returns (k: nat)
    requires id in Ids(options)
    ensures k < |options| && options[k] == Pick(options, prefer, id) && options[k].id == id
    ensures forall j | 0 <= j < |options| && options[j].id == id :: if id in prefer then j <= k else k <= j
  {
    if id in prefer {
      k := LastWithIndex(options, id);
    } else {
      k := IndexOf(Ids(options), id);
      forall j | 0 <= j < k ensures options[j].id != id {
        assert Ids(options)[..k][j] == options[j].id;
      }
    }
  }

  function PickAll(options: seq<FulfillmentOption>, prefer: seq<OptionId>, ids: seq<OptionId>): (r: seq<FulfillmentOption>)
    requires forall id | id in ids :: id in Ids(options)
    ensures Ids(r) == ids
  {
    seq(|ids|, i requires 0 <= i < |ids| => Pick(options, prefer, ids[i]))
  }

  function OrderedOptions(options: seq<FulfillmentOption>, prefer: seq<OptionId>): (r: seq<FulfillmentOption>)
    ensures Ids(r) == OrderedIds(options, prefer)
  {
    OrderedIdsAreAPermutation(options, prefer);
    PickAll(options, prefer, OrderedIds(options, prefer))
  }

  /** The first loop: the advertised ids of `prefer`, each once. */
  method TakePreferred(options: seq<FulfillmentOption>, prefer: seq<OptionId>)
    returns (ordered: seq<FulfillmentOption>, seen: set<OptionId>)
    ensures Ids(ordered) == PreferredIds(options, prefer)
    ensures forall id :: id in seen <==> id in prefer && id in Ids(options)
    ensures forall o | o in ordered :: o.id in Ids(options) && o == Pick(options, prefer, o.id)
  {
    var advertised := (id: OptionId) => id in Ids(options);
    seen, ordered := {}, [];
    for i := 0 to |prefer|
      invariant Ids(ordered) == FirstOccurrences(prefer[..i], advertised)
      invariant forall id :: id in seen <==> id in prefer[..i] && advertised(id)
      invariant forall o | o in ordered :: o.id in Ids(options) && o == Pick(options, prefer, o.id)
    {
      var id := prefer[i];
      FirstOccurrencesStep(prefer, advertised, i);
      LastWithMatches(options, id);
      var found := LastWith(options, id);
      if found.Some? && id !in seen {
        assert Ids(ordered + [found.value]) == Ids(ordered) + [id];
        ordered := ordered + [found.value];
        seen := seen + {id};
      }
    }
    assert prefer[..|prefer|] == prefer;
  }

  lemma FirstPicked(options: seq<FulfillmentOption>, prefer: seq<OptionId>, i: nat)
    requires i < |options| && options[i].id !in prefer && options[i].id !in Ids(options)[..i]
    ensures options[i].id in Ids(options) && options[i] == Pick(options, prefer, options[i].id)
  {
    IndexIs(Ids(options), options[i].id, i);
  }

  /** Both loops: preferred options, then the rest in the seller's order. */
  method OrderOptions(options: seq<FulfillmentOption>, prefer: seq<OptionId>) returns (ordered: seq<FulfillmentOption>)
    ensures ordered == OrderedOptions(options, prefer)
  {
    var seen;
    ordered, seen := TakePreferred(options, prefer);
    var remaining, ids := (id: OptionId) => id !in prefer, Ids(options);
    for i := 0 to |options|
      invariant Ids(ordered) == PreferredIds(options, prefer) + FirstOccurrences(ids[..i], remaining)
      invariant forall id | id in ids :: id in seen <==> id in prefer || id in ids[..i]
      invariant forall o | o in ordered :: o.id in Ids(options) && o == Pick(options, prefer, o.id)
    {
      var o := options[i];
      FirstOccurrencesStep(ids, remaining, i);
      if o.id !in seen {
        FirstPicked(options, prefer, i);
        assert Ids(ordered + [o]) == Ids(ordered) + [o.id];
        ordered := ordered + [o];
        seen := seen + {o.id};
      }
    }
    assert ids[..|options|] == ids;
    PicksDecide(options, prefer, ordered);
  }

  lemma PicksDecide(options: seq<FulfillmentOption>, prefer: seq<OptionId>, ordered: seq<FulfillmentOption>)
    requires Ids(ordered) == OrderedIds(options, prefer)
    requires forall o | o in ordered :: o.id in Ids(options) && o == Pick(options, prefer, o.id)
    ensures ordered == OrderedOptions(options, prefer)
  {
    var r := OrderedOptions(options, prefer);
    forall i | 0 <= i < |ordered| ensures ordered[i] == r[i] {
      assert Ids(ordered)[i] == Ids(r)[i];
    }
  }

  /** Every advertised id exactly once: the preferred ones first, in preference order, the rest in seller order. */
  lemma OrderedIdsAreAPermutation(options: seq<FulfillmentOption>, prefer: seq<OptionId>)
    ensures Distinct(OrderedIds(options, prefer))
    ensures forall id :: id in OrderedIds(options, prefer) <==> id in Ids(options)
    ensures forall id :: id in PreferredIds(options, prefer) <==> id in Ids(options) && id in prefer
    ensures forall i, j | 0 <= i < j < |PreferredIds(options, prefer)| ::
      var p := PreferredIds(options, prefer);
      p[i] in prefer && p[j] in prefer && IndexOf(prefer, p[i]) < IndexOf(prefer, p[j])
    ensures forall i, j | 0 <= i < j < |RemainingIds(options, prefer)| ::
      var q := RemainingIds(options, prefer);
      q[i] in Ids(options) && q[j] in Ids(options) && IndexOf(Ids(options), q[i]) < IndexOf(Ids(options), q[j])
  {
    var ids := Ids(options);
    var advertised, remaining := (id: OptionId) => id in Ids(options), (id: OptionId) => id !in prefer;
    var p, q := PreferredIds(options, prefer), RemainingIds(options, prefer);
    forall id: OptionId
      ensures id in p <==> id in ids && id in prefer
      ensures id in q <==> id in ids && id !in prefer
    {
      FirstOccurrencesMember(prefer, advertised, id);
      FirstOccurrencesMember(ids, remaining, id);
    }
    FirstOccurrencesDistinct(prefer, advertised);
    FirstOccurrencesDistinct(ids, remaining);
    DistinctConcat(p, q);
    forall i, j | 0 <= i < j < |p| ensures p[i] in prefer && p[j] in prefer && IndexOf(prefer, p[i]) < IndexOf(prefer, p[j]) {
      FirstOccurrencesOrdered(prefer, advertised, i, j);
    }
    forall i, j | 0 <= i < j < |q| ensures q[i] in ids && q[j] in ids && IndexOf(ids, q[i]) < IndexOf(ids, q[j]) {
      FirstOccurrencesOrdered(ids, remaining, i, j);
    }
  }

  lemma DistinctConcat(p: seq<OptionId>, q: seq<OptionId>)
    requires Distinct(p) && Distinct(q) && forall id | id in p :: id !in q
    ensures Distinct(p + q)
  {
    var r := p + q;
    forall i, j | 0 <= i < j < |r| ensures r[i] != r[j] {
      if i < |p| <= j {
        assert r[i] in p && r[j] in q;
      }
    }
  }

  // ----- satisfying an option -----

  predicate HasAll<V>(record: Record<V>, keys: seq<string>) {
    forall i | 0 <= i < |keys| :: keys[i] in record
  }

  /** The known keys of the context, or nothing if a required one is missing. */
  function FromContext<V>(schema: Schema, context: Record<V>): Option<Record<V>> {
    if !HasAll(context, schema.required) then None
    else Some(map key | key in context && (key in schema.required || key in schema.properties) :: context[key])
  }

  /** The context serves exactly when it has every required key; of its keys it then gives the known ones, as they are. */
  lemma FromContextMeans<V>(schema: Schema, context: Record<V>)
    ensures FromContext(schema, context).Some? <==> forall key | key in schema.required :: key in context
    ensures FromContext(schema, context).Some? ==>
      var data := FromContext(schema, context).value;
      && (forall key :: key in data <==> key in context && (key in schema.required || key in schema.properties))
      && (forall key | key in data :: data[key] == context[key])
      && (forall key | key in schema.required :: key in data)
  {
    HasAllIff(context, schema.required);
  }

  lemma HasAllIff<V>(record: Record<V>, keys: seq<string>)
    ensures HasAll(record, keys) <==> forall key | key in keys :: key in record
  {
    if HasAll(record, keys) {
      forall key | key in keys ensures key in record {
        var i :| 0 <= i < |keys| && keys[i] == key;
      }
    } else {
      var i :| 0 <= i < |keys| && keys[i] !in record;
      assert keys[i] in keys;
    }
  }

  method ExtractFromAgentContext<V>(schema: Schema, context: Record<V>) returns (r: Option<Record<V>>)
    ensures r == FromContext(schema, context)
  {
    for i := 0 to |schema.required|
      invariant forall j | 0 <= j < i :: schema.required[j] in context
    {
      if schema.required[i] !in context {
        return None;
      }
    }
    var known := schema.required + schema.properties;
    var data: Record<V> := map[];
    for i := 0 to |known|
      invariant data == map key | key in context && key in known[..i] :: context[key]
    {
      assert known[..i + 1] == known[..i] + [known[i]];
      if known[i] in context {
        data := data[known[i] := context[known[i]]];
      }
    }
    assert known[..|known|] == known;
    assert forall key :: key in known <==> key in schema.required || key in schema.properties;
    assert HasAll(context, schema.required);
    assert data == FromContext(schema, context).value;
    r := Some(data);
  }

  /** The interactive answer, if it is an object. */
  type Collector<!V> = FulfillmentOption -> Option<Record<V>>

  datatype Config<!V> = Config(supports: seq<OptionId>, prefer: seq<OptionId>,
                              context: Option<Record<V>>, collect: Option<Collector<V>>)

  /** The data the client would attach for an option; the inner `None` is the null of a schemaless option. */
  function Satisfy<V>(o: FulfillmentOption, cfg: Config<V>): Option<Option<Record<V>>> {
    if o.schema.None? then Some(None)
    else if cfg.context.Some? && FromContext(o.schema.value, cfg.context.value).Some? then
      Some(FromContext(o.schema.value, cfg.context.value))
    else if cfg.collect.Some? && cfg.collect.value(o).Some? && HasAll(cfg.collect.value(o).value, o.schema.value.required)
    then Some(cfg.collect.value(o))
    else None
  }

  /**
   How an option is satisfied: without a schema by nothing at all; with one from the context if
   that has all the required keys, and otherwise, if at all, from a collected answer that has them.
   */
  lemma SatisfyIff<V>(o: FulfillmentOption, cfg: Config<V>, r: Option<Record<V>>)
    ensures Satisfy(o, cfg) == Some(r) <==>
      match o.schema
      case None => r.None?
      case Some(schema) =>
        var inContext := cfg.context.Some? && forall key | key in schema.required :: key in cfg.context.value;
        if inContext then r == FromContext(schema, cfg.context.value)
        else
          && r.Some? && (forall key | key in schema.required :: key in r.value)
          && cfg.collect.Some? && cfg.collect.value(o) == r
  {
    if o.schema.Some? {
      var schema := o.schema.value;
      if cfg.context.Some? {
        FromContextMeans(schema, cfg.context.value);
      }
      if cfg.collect.Some? && cfg.collect.value(o).Some? {
        HasAllIff(cfg.collect.value(o).value, schema.required);
      }
    }
  }

  datatype Negotiated<V> =
    | Choice(option: OptionId, data: Option<Record<V>>)
    | NoCompatible(advertised: seq<OptionId>, attempted: seq<OptionId>)

  function Supported(ids: seq<OptionId>, supports: seq<OptionId>): seq<OptionId> {
    if ids == [] then []
    else
      var n := |ids| - 1;
      if ids[n] in supports then Supported(ids[..n], supports) + [ids[n]] else Supported(ids[..n], supports)
  }

  lemma {:induction false} SupportedFilters(ids: seq<OptionId>, supports: seq<OptionId>)
    requires Distinct(ids)
    ensures Supported(ids, supports) == FirstOccurrences(ids, id => id in supports)
  {
    if ids != [] {
      var n := |ids| - 1;
      SupportedFilters(ids[..n], supports);
      assert ids[n] !in ids[..n];
    }
  }

  /** The attempted ids are the advertised ones the client supports, each once, in the order of the walk. */
  lemma AttemptedIds(ids: seq<OptionId>, supports: seq<OptionId>)
    requires Distinct(ids)
    ensures
      var attempted := Supported(ids, supports);
      && Distinct(attempted)
      && (forall id :: id in attempted <==> id in ids && id in supports)
      && forall i, j | 0 <= i < j < |attempted| ::
           attempted[i] in ids && attempted[j] in ids && IndexOf(ids, attempted[i]) < IndexOf(ids, attempted[j])
  {
    var supported := (id: OptionId) => id in supports;
    var attempted := Supported(ids, supports);
    SupportedFilters(ids, supports);
    FirstOccurrencesDistinct(ids, supported);
    forall id: OptionId ensures id in attempted <==> id in ids && id in supports {
      FirstOccurrencesMember(ids, supported, id);
    }
    forall i, j | 0 <= i < j < |attempted|
      ensures attempted[i] in ids && attempted[j] in ids && IndexOf(ids, attempted[i]) < IndexOf(ids, attempted[j])
    {
      FirstOccurrencesOrdered(ids, supported, i, j);
    }
  }

  /** Option `k` of the walk is the first that is supported and satisfiable. */
  ghost predicate FirstSatisfiable<V>(walk: seq<FulfillmentOption>, cfg: Config<V>, k: nat)
    requires k < |walk|
  {
    && walk[k].id in cfg.supports && Satisfy(walk[k], cfg).Some?
    && NoneSatisfiable(walk[..k], cfg)
  }

  ghost predicate NoneSatisfiable<V>(walk: seq<FulfillmentOption>, cfg: Config<V>) {
    forall j | 0 <= j < |walk| && walk[j].id in cfg.supports :: Satisfy(walk[j], cfg).None?
  }

  /** The three ways of satisfying one option, tried in turn. */
  method TryOption<V>(o: FulfillmentOption, cfg: Config<V>) returns (r: Option<Option<Record<V>>>)
    ensures r == Satisfy(o, cfg)
  {
    if o.schema.None? {
      return Some(None);
    }
    if cfg.context.Some? {
      var fromAgent := ExtractFromAgentContext(o.schema.value, cfg.context.value);
      if fromAgent.Some? {
        return Some(fromAgent);
      }
    }
    if cfg.collect.Some? {
      var collected := cfg.collect.value(o);
      if collected.Some? && HasAll(collected.value, o.schema.value.required) {
        return Some(collected);
      }
    }
    r := None;
  }

  /** The walk over the ordered options: where it stopped, if it did, and what it attempted. */
  method WalkOptions<V>(walk: seq<FulfillmentOption>, cfg: Config<V>)
    returns (choice: Option<Negotiated<V>>, attempted: seq<OptionId>, ghost k: nat)
    ensures choice.Some? ==>
      && k < |walk| && FirstSatisfiable(walk, cfg, k)
      && choice == Some(Choice(walk[k].id, Satisfy(walk[k], cfg).value))
    ensures choice.None? ==> NoneSatisfiable(walk, cfg) && attempted == Supported(Ids(walk), cfg.supports)
  {
    attempted, choice, k := [], None, 0;
    var ids := Ids(walk);
    for i := 0 to |walk|
      invariant attempted == Supported(ids[..i], cfg.supports)
      invariant forall j | 0 <= j < i && walk[j].id in cfg.supports :: Satisfy(walk[j], cfg).None?
    {
      var o := walk[i];
      assert ids[..i + 1][..i] == ids[..i];
      if o.id in cfg.supports {
        attempted := attempted + [o.id];
        var data := TryOption(o, cfg);
        if data.Some? {
          return Some(Choice(o.id, data.value)), attempted, i;
        }
      }
    }
    assert ids[..|walk|] == ids;
  }

  /**
   The choice is the first option in order that is supported and satisfiable, with the data
   that satisfies it. Failure means there is none; it names every advertised id in order
   and exactly the supported ones as attempted.
   */
  method NegotiateFulfillment<V>(options: seq<FulfillmentOption>, cfg: Config<V>) returns (r: Negotiated<V>)
    ensures var walk := OrderedOptions(options, cfg.prefer);
      match r
      case Choice(_, _) =>
        exists k | 0 <= k < |walk| ::
          FirstSatisfiable(walk, cfg, k) && r == Choice(walk[k].id, Satisfy(walk[k], cfg).value)
      case NoCompatible(advertised, attempted) =>
        && NoneSatisfiable(walk, cfg)
        && advertised == OrderedIds(options, cfg.prefer)
        && attempted == Supported(advertised, cfg.supports)
  {
    var ordered := OrderOptions(options, cfg.prefer);
    var choice, attempted, k := WalkOptions(ordered, cfg);
    r := if choice.Some? then choice.value else NoCompatible(Ids(ordered), attempted);
  }
}
