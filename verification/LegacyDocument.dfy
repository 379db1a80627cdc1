/**
  Legacy usage exports as values: decoded JSON objects, the inspection pass
  that ranks their keys and rejects ambiguous ones, and the two walks over
  `usage.apis` as functions. A JSON object is the ordered list of its members,
  so that duplicate keys can be told apart.

  Turning one request detail into an event is not modelled: an event stands for
  the arguments that conversion receives, and `accepts` says which details it
  does not refuse.
 */
module LegacyDocument {
  import opened Ordering

  datatype Option<+T> = None | Some(value: T)

  datatype Json =
    | Null
    | Bool(b: bool)
    | Number(digits: string)
    | Str(text: string)
    | Arr(items: seq<Json>)
    | Obj(members: seq<Member>)

  datatype Member = Member(key: string, value: Json)

  datatype Event = Event(
    endpoint: string,
    model: string,
    detail: Json,
    endpointIndex: nat,
    modelIndex: nat,
    detailIndex: nat)

  /** What a walk over part of the document contributes to the import result. */
  datatype Tally = Tally(events: seq<Event>, failed: nat, unsupported: nat)

  function Zero(): Tally { Tally([], 0, 0) }

  function Failed(): Tally { Tally([], 1, 0) }

  function Unsupported(): Tally { Tally([], 0, 1) }

  function Plus(a: Tally, b: Tally): Tally {
    Tally(a.events + b.events, a.failed + b.failed, a.unsupported + b.unsupported)
  }

  // ----- Objects -----

  function Keys(members: seq<Member>): (keys: seq<string>)
    ensures |keys| == |members| && forall i | 0 <= i < |keys| :: keys[i] == members[i].key
  {
    seq(|members|, i requires 0 <= i < |members| => members[i].key)
  }

  /** Decoding into a map: the last member with the key wins, a missing key reads as null. */
  function Lookup(members: seq<Member>, key: string): Json {
    if |members| == 0 then Null
    else if members[|members| - 1].key == key then members[|members| - 1].value
    else Lookup(members[..|members| - 1], key)
  }

  function DistinctKeys(members: seq<Member>): seq<string> {
    if |members| == 0 then []
    else
      var keys := DistinctKeys(members[..|members| - 1]);
      var key := members[|members| - 1].key;
      if key in keys then keys else keys + [key]
  }

  function SortedKeys(members: seq<Member>): seq<string> {
    Sort(AtMost, DistinctKeys(members))
  }

  ghost predicate Once(members: seq<Member>, key: string) {
    forall i, j | 0 <= i < j < |members| :: !(members[i].key == key && members[j].key == key)
  }

  lemma {:induction false} DistinctLookup(members: seq<Member>, i: nat)
    requires Distinct(Keys(members)) && i < |members|
    ensures Lookup(members, members[i].key) == members[i].value
  {
    if i < |members| - 1 {
      var front := members[..|members| - 1];
      assert Keys(members)[i] != Keys(members)[|members| - 1];
      assert forall k | 0 <= k < |front| :: Keys(front)[k] == Keys(members)[k];
      DistinctLookup(front, i);
    }
  }

  lemma {:induction false} DistinctKeysAreKeys(members: seq<Member>)
    requires Distinct(Keys(members))
    ensures DistinctKeys(members) == Keys(members)
  {
    if |members| > 0 {
      var front := members[..|members| - 1];
      assert forall k | 0 <= k < |front| :: Keys(front)[k] == Keys(members)[k];
      DistinctKeysAreKeys(front);
      assert Keys(members) == Keys(front) + [members[|members| - 1].key];
    }
  }

  // ----- Ranks -----

  /** The position of each string in a list, counted from one. */
  function Positions(s: seq<string>): map<string, nat> {
    if |s| == 0 then map[] else Positions(s[..|s| - 1])[s[|s| - 1] := |s|]
  }

  function Ranks(values: seq<string>): map<string, nat> {
    Positions(Sort(AtMost, values))
  }

  function RankOf(ranks: map<string, nat>, key: string): nat {
    if key in ranks then ranks[key] else 0
  }

  lemma {:induction false} PositionsInverse(s: seq<string>, i: nat)
    requires Distinct(s) && i < |s|
    ensures RankOf(Positions(s), s[i]) == i + 1
  {
    if i < |s| - 1 {
      PositionsInverse(s[..|s| - 1], i);
    }
  }

  /** rankSortedStrings does not depend on the order in which the keys were collected. */
  lemma RanksIgnoreOrder(a: seq<string>, b: seq<string>)
    requires multiset(a) == multiset(b)
    ensures Ranks(a) == Ranks(b)
  {
    SortStrings(a, b);
  }

  lemma {:induction false} PositionsOf(s: seq<string>)
    ensures forall key :: key in Positions(s) <==> key in s
  {
    if |s| > 0 { PositionsOf(s[..|s| - 1]); }
  }

  /** The rank of a key is one plus the number of keys that come before it in the dictionary. */
  lemma RanksArePlaces(values: seq<string>)
    requires Distinct(values)
    ensures forall key :: key in Ranks(values) <==> key in values
    ensures forall key | key in values :: Ranks(values)[key] == 1 + |set k | k in values && Precedes(k, key)|
  {
    hide Positions, Precedes, Sort;
    var sorted := Sort(AtMost, values);
    SortStrings(values, values);
    DistinctPermutation(values, sorted);
    PositionsOf(sorted);
    forall key ensures key in sorted <==> key in values {
      assert key in multiset(sorted) <==> key in multiset(values);
    }
    forall key | key in values ensures Ranks(values)[key] == 1 + |set k | k in values && Precedes(k, key)| {
      var i :| 0 <= i < |sorted| && sorted[i] == key;
      PositionsInverse(sorted, i);
      PlaceInSorted(sorted, i);
      assert (set k | k in values && Precedes(k, key)) == set k | k in sorted && Precedes(k, key);
    }
  }

  // ----- The inspection pass -----

  datatype Shape = Shape(wrapped: bool, endpointRanks: map<string, nat>, modelRanks: map<string, map<string, nat>>)

  datatype Inspection = Rejected | NotLegacy | Legacy(shape: Shape)

  ghost predicate ModelUnambiguous(model: Json) {
    model.Obj? ==> Once(model.members, "details")
  }

  ghost predicate ModelsUnambiguous(models: Json) {
    models.Obj? ==> Distinct(Keys(models.members)) && forall m | m in models.members :: ModelUnambiguous(m.value)
  }

  ghost predicate EndpointUnambiguous(endpoint: Json) {
    endpoint.Obj? ==>
      && Once(endpoint.members, "models")
      && forall m | m in endpoint.members && m.key == "models" :: ModelsUnambiguous(m.value)
  }

  ghost predicate ApisUnambiguous(apis: Json) {
    apis.Obj? ==> Distinct(Keys(apis.members)) && forall m | m in apis.members :: EndpointUnambiguous(m.value)
  }

  ghost predicate UsageUnambiguous(usage: Json) {
    usage.Obj? ==>
      && Once(usage.members, "apis")
      && forall m | m in usage.members && m.key == "apis" :: ApisUnambiguous(m.value)
  }

  /** The model keys of one endpoint, when it has a `models` object. */
  function ModelKeys(endpoint: Json): Option<seq<string>> {
    if endpoint.Obj? && Lookup(endpoint.members, "models").Obj?
    then Some(Keys(Lookup(endpoint.members, "models").members))
    else None
  }

  /** The map built by assigning, in order, the keys for which `f` gives a value. */
  function Collect<V>(members: seq<Member>, f: Json -> Option<V>): map<string, V> {
    if |members| == 0 then map[]
    else
      var rest := Collect(members[..|members| - 1], f);
      var last := members[|members| - 1];
      match f(last.value)
      case Some(v) => rest[last.key := v]
      case None => rest
  }

  function RanksOfModels(endpoint: Json): Option<map<string, nat>> {
    match ModelKeys(endpoint)
    case Some(keys) => Some(Ranks(keys))
    case None => None
  }

  function ModelRanks(endpoints: seq<Member>): map<string, map<string, nat>> {
    Collect(endpoints, RanksOfModels)
  }

  function RanksOf(ranks: map<string, map<string, nat>>, endpoint: string): map<string, nat> {
    if endpoint in ranks then ranks[endpoint] else map[]
  }

  predicate HasApis(members: seq<Member>) {
    Lookup(members, "apis").Obj? && |Lookup(members, "apis").members| > 0
  }

  function ShapeOf(wrapped: bool, endpoints: seq<Member>): Shape {
    Shape(wrapped, Ranks(Keys(endpoints)), ModelRanks(endpoints))
  }

  /** An `event_hash` that marks the document as an exported event. */
  predicate MarksEvent(value: Json, blank: string -> bool) {
    match value
    case Null => false
    case Str(text) => !blank(text)
    case _ => true
  }

  // ----- The budget of the pass -----

  /** How many endpoint and model keys were recorded, and how long they are together. */
  datatype Cost = Cost(keys: nat, bytes: nat)

  function AddCost(a: Cost, b: Cost): Cost {
    Cost(a.keys + b.keys, a.bytes + b.bytes)
  }

  function ModelsCost(models: seq<Member>): Cost {
    if |models| == 0 then Cost(0, 0)
    else AddCost(ModelsCost(models[..|models| - 1]), Cost(1, |models[|models| - 1].key|))
  }

  function EndpointCost(endpoint: Json): Cost {
    if endpoint.Obj? && Lookup(endpoint.members, "models").Obj? then ModelsCost(Lookup(endpoint.members, "models").members)
    else Cost(0, 0)
  }

  function EndpointsCost(endpoints: seq<Member>): Cost {
    if |endpoints| == 0 then Cost(0, 0)
    else
      var n := |endpoints| - 1;
      AddCost(EndpointsCost(endpoints[..n]), AddCost(Cost(1, |endpoints[n].key|), EndpointCost(endpoints[n].value)))
  }

  function ApisCost(apis: Json): Cost {
    if apis.Obj? then EndpointsCost(apis.members) else Cost(0, 0)
  }

  function UsageCost(usage: Json): Cost {
    if usage.Obj? then ApisCost(Lookup(usage.members, "apis")) else Cost(0, 0)
  }

  /** A limit that is not positive is none. */
  datatype Limits = Limits(maxKeys: int, maxKeyBytes: int)

  const SHAPE_LIMITS: Limits := Limits(100_000, 8 * 1024 * 1024)

  predicate Fits(limits: Limits, used: Cost) {
    (limits.maxKeys > 0 ==> used.keys <= limits.maxKeys) && (limits.maxKeyBytes > 0 ==> used.bytes <= limits.maxKeyBytes)
  }

  /** What the pass is given besides the document: which texts count as blank, the limits, and whether data follows the object. */
  datatype Setting = Setting(blank: string -> bool, limits: Limits, trailing: bool)

  /**
    Walks the top-level members in document order, exactly until the walk is
    decided: an event marker ends it at once, a duplicate or ambiguous
    structural key or too many keys reject it.
   */
  ghost function InspectFrom(members: seq<Member>, g: Setting, used: Cost, usage: Option<Json>, apis: Option<Json>): Inspection {
    if |members| == 0 then
      match usage
      case Some(u) =>
        if u.Obj? && HasApis(u.members) then Finished(g, ShapeOf(true, Lookup(u.members, "apis").members)) else NotLegacy
      case None =>
        match apis
        case Some(a) => if a.Obj? && |a.members| > 0 then Finished(g, ShapeOf(false, a.members)) else NotLegacy
        case None => NotLegacy
    else
      var m, rest := members[0], members[1..];
      if m.key == "usage" then
        if usage.Some? || !UsageUnambiguous(m.value) || !Fits(g.limits, AddCost(used, UsageCost(m.value))) then Rejected
        else InspectFrom(rest, g, AddCost(used, UsageCost(m.value)), Some(m.value), apis)
      else if m.key == "apis" then
        if apis.Some? || !ApisUnambiguous(m.value) || !Fits(g.limits, AddCost(used, ApisCost(m.value))) then Rejected
        else InspectFrom(rest, g, AddCost(used, ApisCost(m.value)), usage, Some(m.value))
      else if (m.key == "event_hash" || m.key == "eventHash") && MarksEvent(m.value, g.blank) then NotLegacy
      else InspectFrom(rest, g, used, usage, apis)
  }

  /** Nothing but the object may be there once a shape was found. */
  function Finished(g: Setting, shape: Shape): Inspection {
    if g.trailing then Rejected else Legacy(shape)
  }

  ghost function Inspect(members: seq<Member>, g: Setting): Inspection {
    InspectFrom(members, g, Cost(0, 0), None, None)
  }

  // ----- Request details, common to both walks -----

  function Detail(accepts: Event -> bool, endpoint: string, model: string, endpointIndex: nat, modelIndex: nat, item: Json, index: nat): Tally {
    if !item.Obj? then Failed()
    else
      var event := Event(endpoint, model, item, endpointIndex, modelIndex, index);
      if accepts(event) then Tally([event], 0, 0) else Failed()
  }

  function Details(accepts: Event -> bool, endpoint: string, model: string, endpointIndex: nat, modelIndex: nat, items: seq<Json>): Tally {
    if |items| == 0 then Zero()
    else
      var n := |items| - 1;
      Plus(Details(accepts, endpoint, model, endpointIndex, modelIndex, items[..n]),
           Detail(accepts, endpoint, model, endpointIndex, modelIndex, items[n], n))
  }

  // ----- The streaming walk, in document order -----

  /** Members in document order; the first one with the key whose step succeeds is the last one walked. */
  function Walk(members: seq<Member>, key: string, step: Json -> (Tally, bool)): (Tally, bool) {
    if |members| == 0 then (Zero(), false)
    else
      var n := |members| - 1;
      var (tally, found) := Walk(members[..n], key, step);
      if members[n].key == key && !found then
        var (more, now) := step(members[n].value);
        (Plus(tally, more), now)
      else (tally, found)
  }

  function EachMember(members: seq<Member>, visit: (string, Json) -> Tally): Tally {
    if |members| == 0 then Zero()
    else
      var n := |members| - 1;
      Plus(EachMember(members[..n], visit), visit(members[n].key, members[n].value))
  }

  function StreamDetails(accepts: Event -> bool, endpoint: string, model: string, endpointIndex: nat, modelIndex: nat): Json -> (Tally, bool) {
    (details: Json) =>
      if !details.Arr? then (Zero(), false)
      else (Details(accepts, endpoint, model, endpointIndex, modelIndex, details.items), |details.items| > 0)
  }

  function StreamModel(accepts: Event -> bool, endpoint: string, model: string, endpointIndex: nat, modelIndex: nat, value: Json): Tally {
    if !value.Obj? then Failed()
    else
      var (tally, found) := Walk(value.members, "details", StreamDetails(accepts, endpoint, model, endpointIndex, modelIndex));
      if found then tally else Plus(tally, Unsupported())
  }

  function VisitModel(accepts: Event -> bool, endpoint: string, endpointIndex: nat, ranks: map<string, nat>): (string, Json) -> Tally {
    (model, value) => StreamModel(accepts, endpoint, model, endpointIndex, RankOf(ranks, model), value)
  }

  function StreamModels(accepts: Event -> bool, endpoint: string, endpointIndex: nat, ranks: map<string, nat>): Json -> (Tally, bool) {
    (models: Json) =>
      if !models.Obj? then (Zero(), false)
      else (EachMember(models.members, VisitModel(accepts, endpoint, endpointIndex, ranks)), true)
  }

  function StreamEndpoint(accepts: Event -> bool, endpoint: string, endpointIndex: nat, ranks: map<string, nat>, value: Json): Tally {
    if !value.Obj? then Failed()
    else
      var (tally, found) := Walk(value.members, "models", StreamModels(accepts, endpoint, endpointIndex, ranks));
      if found then tally else Plus(tally, Failed())
  }

  function VisitEndpoint(accepts: Event -> bool, shape: Shape): (string, Json) -> Tally {
    (endpoint, value) =>
      StreamEndpoint(accepts, endpoint, RankOf(shape.endpointRanks, endpoint), RanksOf(shape.modelRanks, endpoint), value)
  }

  function StreamApis(accepts: Event -> bool, shape: Shape): Json -> (Tally, bool) {
    (apis: Json) =>
      if !apis.Obj? then (Zero(), false)
      else (EachMember(apis.members, VisitEndpoint(accepts, shape)), true)
  }

  function StreamUsage(accepts: Event -> bool, shape: Shape): Json -> (Tally, bool) {
    (usage: Json) =>
      if !usage.Obj? then (Zero(), false)
      else Walk(usage.members, "apis", StreamApis(accepts, shape))
  }

  function StructuralKey(shape: Shape): string {
    if shape.wrapped then "usage" else "apis"
  }

  function StreamStructural(accepts: Event -> bool, shape: Shape): Json -> (Tally, bool) {
    if shape.wrapped then StreamUsage(accepts, shape) else StreamApis(accepts, shape)
  }

  /** The whole streaming walk, and whether it reached an `apis` object. */
  function StreamDocument(accepts: Event -> bool, shape: Shape, members: seq<Member>): (Tally, bool) {
    Walk(members, StructuralKey(shape), StreamStructural(accepts, shape))
  }

  // ----- The in-memory walk, over sorted keys -----

  function EachKey(keys: seq<string>, visit: (string, nat) -> Tally): Tally {
    if |keys| == 0 then Zero()
    else
      var n := |keys| - 1;
      Plus(EachKey(keys[..n], visit), visit(keys[n], n + 1))
  }

  function MemoryModel(accepts: Event -> bool, endpoint: string, model: string, endpointIndex: nat, modelIndex: nat, value: Json): Tally {
    if !value.Obj? then Failed()
    else
      var details := Lookup(value.members, "details");
      if !details.Arr? || |details.items| == 0 then Unsupported()
      else Details(accepts, endpoint, model, endpointIndex, modelIndex, details.items)
  }

  function RecallModel(accepts: Event -> bool, endpoint: string, endpointIndex: nat, models: seq<Member>): (string, nat) -> Tally {
    (model: string, modelIndex: nat) => MemoryModel(accepts, endpoint, model, endpointIndex, modelIndex, Lookup(models, model))
  }

  function MemoryEndpoint(accepts: Event -> bool, endpoint: string, endpointIndex: nat, value: Json): Tally {
    if !value.Obj? || !Lookup(value.members, "models").Obj? then Failed()
    else
      var models := Lookup(value.members, "models").members;
      EachKey(SortedKeys(models), RecallModel(accepts, endpoint, endpointIndex, models))
  }

  function RecallEndpoint(accepts: Event -> bool, apis: seq<Member>): (string, nat) -> Tally {
    (endpoint: string, endpointIndex: nat) => MemoryEndpoint(accepts, endpoint, endpointIndex, Lookup(apis, endpoint))
  }

  /** eventsFromLegacyUsage, given that `apis` is an object. */
  function MemoryUsage(accepts: Event -> bool, apis: seq<Member>): Tally {
    EachKey(SortedKeys(apis), RecallEndpoint(accepts, apis))
  }

  /** The record whose `apis` the in-memory importer reads, if it takes the document for a legacy export. */
  function MemoryRecord(members: seq<Member>): Option<seq<Member>> {
    if "usage" in Keys(members) then
      var usage := Lookup(members, "usage");
      if usage.Obj? && HasApis(usage.members) then Some(usage.members) else None
    else if HasApis(members) then Some(members)
    else None
  }
}
