/**
  What the import of a legacy export counts: which places of the document are
  failures, and which models are unsupported.
 */
module LegacyCounts {
  import opened Ordering
  import opened LegacyDocument
  import opened LegacyAgreement
  import opened LegacyEvents

  /** A place of the document that can be counted. */
  datatype Spot = OfEndpoint(endpoint: string) | OfModel(endpoint: string, model: string) | OfDetail(endpoint: string, model: string, index: nat)

  /** An endpoint without models, a model that is no object, a detail that is no object or is refused. */
  ghost predicate Fails(accepts: Event -> bool, apis: seq<Member>, p: Spot) {
    match p
    case OfEndpoint(endpoint) => (exists m | m in apis :: m.key == endpoint) && forall models :: !HasModels(apis, endpoint, models)
    case OfModel(endpoint, model) =>
      exists models: seq<Member>, value: Json :: HasModels(apis, endpoint, models) && Holds(models, model, value) && !value.Obj?
    case OfDetail(endpoint, model, index) =>
      exists e: Event :: e.endpoint == endpoint && e.model == model && e.detailIndex == index
        && IsDetail(apis, e) && !(e.detail.Obj? && accepts(e))
  }

  /** A model that is an object without a detail. */
  ghost predicate Lacks(apis: seq<Member>, p: Spot) {
    p.OfModel? && exists models: seq<Member>, value: Json ::
      && HasModels(apis, p.endpoint, models) && Holds(models, p.model, value) && value.Obj?
      && forall items :: HasDetails(value, items) ==> items == []
  }

  ghost function Union(n: nat, part: nat -> set<Spot>): (r: set<Spot>)
    ensures forall p :: p in r <==> exists i: nat | i < n :: p in part(i)
  {
    if n == 0 then {} else Union(n - 1, part) + part(n - 1)
  }

  ghost function DetailsFailing(
      accepts: Event -> bool, endpoint: string, model: string, endpointIndex: nat, modelIndex: nat, items: seq<Json>): set<Spot>
  {
    set i: nat | i < |items| && !(items[i].Obj? && accepts(Event(endpoint, model, items[i], endpointIndex, modelIndex, i)))
      :: OfDetail(endpoint, model, i)
  }

  lemma {:induction false} DetailsCounts(
      accepts: Event -> bool, endpoint: string, model: string, endpointIndex: nat, modelIndex: nat, items: seq<Json>)
    ensures var tally := Details(accepts, endpoint, model, endpointIndex, modelIndex, items);
      tally.failed == |DetailsFailing(accepts, endpoint, model, endpointIndex, modelIndex, items)| && tally.unsupported == 0
  {
    hide DetailsFailing;
    NoneFailing(accepts, endpoint, model, endpointIndex, modelIndex);
    if |items| > 0 {
      DetailsCounts(accepts, endpoint, model, endpointIndex, modelIndex, items[..|items| - 1]);
      OneMoreDetail(accepts, endpoint, model, endpointIndex, modelIndex, items);
    }
  }

  lemma OneMoreDetail(
      accepts: Event -> bool, endpoint: string, model: string, endpointIndex: nat, modelIndex: nat, items: seq<Json>)
    requires |items| > 0
    ensures var n := |items| - 1;
      |DetailsFailing(accepts, endpoint, model, endpointIndex, modelIndex, items)|
      == |DetailsFailing(accepts, endpoint, model, endpointIndex, modelIndex, items[..n])|
         + Detail(accepts, endpoint, model, endpointIndex, modelIndex, items[n], n).failed
  {
    var n := |items| - 1;
    var all := DetailsFailing(accepts, endpoint, model, endpointIndex, modelIndex, items);
    var before := DetailsFailing(accepts, endpoint, model, endpointIndex, modelIndex, items[..n]);
    var last := OfDetail(endpoint, model, n);
    assert last !in before;
    assert all == before + if last in all then {last} else {};
  }

  /** The failures of a model, and whether it lacks details, as the walk finds them. */
  ghost function ModelFailing(
      accepts: Event -> bool, endpoint: string, model: string, endpointIndex: nat, modelIndex: nat, value: Json): set<Spot>
  {
    if !value.Obj? then {OfModel(endpoint, model)}
    else if !Lookup(value.members, "details").Arr? then {}
    else DetailsFailing(accepts, endpoint, model, endpointIndex, modelIndex, Lookup(value.members, "details").items)
  }

  ghost function ModelLacking(endpoint: string, model: string, value: Json): set<Spot> {
    if value.Obj? && !(Lookup(value.members, "details").Arr? && |Lookup(value.members, "details").items| > 0) then {OfModel(endpoint, model)}
    else {}
  }

  lemma ModelCounts(accepts: Event -> bool, endpoint: string, model: string, endpointIndex: nat, modelIndex: nat, value: Json)
    ensures var tally := MemoryModel(accepts, endpoint, model, endpointIndex, modelIndex, value);
      && tally.failed == |ModelFailing(accepts, endpoint, model, endpointIndex, modelIndex, value)|
      && tally.unsupported == |ModelLacking(endpoint, model, value)|
  {
    hide Lookup, Details, DetailsFailing;
    if value.Obj? && Lookup(value.members, "details").Arr? {
      DetailsCounts(accepts, endpoint, model, endpointIndex, modelIndex, Lookup(value.members, "details").items);
      NoneFailing(accepts, endpoint, model, endpointIndex, modelIndex);
    }
  }

  lemma NoneFailing(accepts: Event -> bool, endpoint: string, model: string, endpointIndex: nat, modelIndex: nat)
    ensures DetailsFailing(accepts, endpoint, model, endpointIndex, modelIndex, []) == {}
  {
  }

  lemma UnionAt(n: nat, part: nat -> set<Spot>, i: nat, p: Spot)
    requires i < n && forall j: nat | j < n && p in part(j) :: j == i
    ensures p in Union(n, part) <==> p in part(i)
  {
  }

  lemma UnionGrows(n: nat, part: nat -> set<Spot>)
    requires forall i: nat | i < n :: part(i) !! part(n)
    ensures |Union(0, part)| == 0 && |Union(n + 1, part)| == |Union(n, part)| + |part(n)|
  {
    assert Union(n, part) !! part(n);
  }

  /** The i-th key's part: as many places as are counted, each with that key for its name. */
  ghost predicate CountedAt(key: string, tally: Tally, name: Spot -> string, failing: set<Spot>, lacking: set<Spot>) {
    && tally.failed == |failing| && tally.unsupported == |lacking|
    && (forall p | p in failing :: name(p) == key) && forall p | p in lacking :: name(p) == key
  }

  lemma {:induction false} EachKeyCounts(
      keys: seq<string>, visit: (string, nat) -> Tally, name: Spot -> string, n: nat, failing: nat -> set<Spot>, lacking: nat -> set<Spot>)
    requires n <= |keys| && Distinct(keys)
    requires forall i: nat | i < n :: CountedAt(keys[i], visit(keys[i], i + 1), name, failing(i), lacking(i))
    ensures EachKey(keys[..n], visit).failed == |Union(n, failing)|
    ensures EachKey(keys[..n], visit).unsupported == |Union(n, lacking)|
  {
    hide Union, CountedAt;
    UnionGrows(0, failing);
    UnionGrows(0, lacking);
    if n > 0 {
      var last := visit(keys[n - 1], n);
      assert keys[..n][..n - 1] == keys[..n - 1];
      EachKeyCounts(keys, visit, name, n - 1, failing, lacking);
      forall i: nat | i < n - 1 ensures failing(i) !! failing(n - 1) && lacking(i) !! lacking(n - 1) {
        CountedApart(keys[i], keys[n - 1], visit(keys[i], i + 1), last, name, failing(i), lacking(i), failing(n - 1), lacking(n - 1));
      }
      UnionGrows(n - 1, failing);
      UnionGrows(n - 1, lacking);
      AsCounted(keys[n - 1], last, name, failing(n - 1), lacking(n - 1));
    }
  }

  lemma AsCounted(key: string, tally: Tally, name: Spot -> string, failing: set<Spot>, lacking: set<Spot>)
    requires CountedAt(key, tally, name, failing, lacking)
    ensures tally.failed == |failing| && tally.unsupported == |lacking|
  {
  }

  lemma CountedApart(key: string, other: string, tally: Tally, tally': Tally, name: Spot -> string,
                     failing: set<Spot>, lacking: set<Spot>, failing': set<Spot>, lacking': set<Spot>)
    requires key != other && CountedAt(key, tally, name, failing, lacking) && CountedAt(other, tally', name, failing', lacking')
    ensures failing !! failing' && lacking !! lacking'
  {
  }

  // ----- The counts of an endpoint -----

  ghost function ModelsFailing(accepts: Event -> bool, endpoint: string, endpointIndex: nat, models: seq<Member>): nat -> set<Spot> {
    (i: nat) =>
      if i >= |SortedKeys(models)| then {}
      else
        var model := SortedKeys(models)[i];
        ModelFailing(accepts, endpoint, model, endpointIndex, i + 1, Lookup(models, model))
  }

  ghost function ModelsLacking(endpoint: string, models: seq<Member>): nat -> set<Spot> {
    (i: nat) =>
      if i >= |SortedKeys(models)| then {}
      else ModelLacking(endpoint, SortedKeys(models)[i], Lookup(models, SortedKeys(models)[i]))
  }

  ghost function EndpointFailing(accepts: Event -> bool, endpoint: string, endpointIndex: nat, value: Json): set<Spot> {
    if !value.Obj? || !Lookup(value.members, "models").Obj? then {OfEndpoint(endpoint)}
    else
      var models := Lookup(value.members, "models").members;
      Union(|SortedKeys(models)|, ModelsFailing(accepts, endpoint, endpointIndex, models))
  }

  ghost function EndpointLacking(endpoint: string, value: Json): set<Spot> {
    if !value.Obj? || !Lookup(value.members, "models").Obj? then {}
    else
      var models := Lookup(value.members, "models").members;
      Union(|SortedKeys(models)|, ModelsLacking(endpoint, models))
  }

  /** The places counted for a model carry its name and that of its endpoint. */
  lemma ModelSpots(accepts: Event -> bool, endpoint: string, model: string, endpointIndex: nat, modelIndex: nat, value: Json)
    ensures forall p | p in ModelFailing(accepts, endpoint, model, endpointIndex, modelIndex, value) ::
      !p.OfEndpoint? && p.endpoint == endpoint && p.model == model
    ensures forall p | p in ModelLacking(endpoint, model, value) :: p == OfModel(endpoint, model)
  {
  }

  lemma KeysDiffer(members: seq<Member>)
    ensures Distinct(SortedKeys(members))
  {
    DistinctKeysAre(members);
    DistinctPermutation(DistinctKeys(members), SortedKeys(members));
  }

  lemma ModelsCounts(accepts: Event -> bool, endpoint: string, endpointIndex: nat, models: seq<Member>)
    ensures var tally := EachKey(SortedKeys(models), RecallModel(accepts, endpoint, endpointIndex, models));
      var n := |SortedKeys(models)|;
      && tally.failed == |Union(n, ModelsFailing(accepts, endpoint, endpointIndex, models))|
      && tally.unsupported == |Union(n, ModelsLacking(endpoint, models))|
  {
    hide Lookup, SortedKeys, MemoryModel, EachKey, ModelFailing, ModelLacking, Union;
    var keys, visit := SortedKeys(models), RecallModel(accepts, endpoint, endpointIndex, models);
    var failing, lacking := ModelsFailing(accepts, endpoint, endpointIndex, models), ModelsLacking(endpoint, models);
    KeysDiffer(models);
    var name := (p: Spot) => if p.OfEndpoint? then "" else p.model;
    forall i: nat | i < |keys| ensures CountedAt(keys[i], visit(keys[i], i + 1), name, failing(i), lacking(i)) {
      ModelCounts(accepts, endpoint, keys[i], endpointIndex, i + 1, Lookup(models, keys[i]));
      ModelSpots(accepts, endpoint, keys[i], endpointIndex, i + 1, Lookup(models, keys[i]));
    }
    EachKeyCounts(keys, visit, name, |keys|, failing, lacking);
    assert keys[..|keys|] == keys;
  }

  lemma EndpointCounts(accepts: Event -> bool, endpoint: string, endpointIndex: nat, value: Json)
    ensures var tally := MemoryEndpoint(accepts, endpoint, endpointIndex, value);
      && tally.failed == |EndpointFailing(accepts, endpoint, endpointIndex, value)|
      && tally.unsupported == |EndpointLacking(endpoint, value)|
  {
    hide Lookup, SortedKeys, EachKey, Union;
    if value.Obj? && Lookup(value.members, "models").Obj? {
      ModelsCounts(accepts, endpoint, endpointIndex, Lookup(value.members, "models").members);
    }
  }

  lemma EndpointSpots(accepts: Event -> bool, endpoint: string, endpointIndex: nat, value: Json)
    ensures forall p | p in EndpointFailing(accepts, endpoint, endpointIndex, value) :: p.endpoint == endpoint
    ensures forall p | p in EndpointLacking(endpoint, value) :: p.endpoint == endpoint
  {
    hide Lookup, SortedKeys, ModelFailing, ModelLacking;
    forall model: string, modelIndex: nat, v: Json
      ensures forall p | p in ModelFailing(accepts, endpoint, model, endpointIndex, modelIndex, v) :: p.endpoint == endpoint
    {
      ModelSpots(accepts, endpoint, model, endpointIndex, modelIndex, v);
    }
    forall model: string, v: Json ensures forall p | p in ModelLacking(endpoint, model, v) :: p.endpoint == endpoint {
      ModelSpots(accepts, endpoint, model, endpointIndex, 0, v);
    }
  }

  // ----- The counts of a document -----

  ghost function UsageFailing(accepts: Event -> bool, apis: seq<Member>): nat -> set<Spot> {
    (i: nat) =>
      if i >= |SortedKeys(apis)| then {}
      else EndpointFailing(accepts, SortedKeys(apis)[i], i + 1, Lookup(apis, SortedKeys(apis)[i]))
  }

  ghost function UsageLacking(apis: seq<Member>): nat -> set<Spot> {
    (i: nat) =>
      if i >= |SortedKeys(apis)| then {} else EndpointLacking(SortedKeys(apis)[i], Lookup(apis, SortedKeys(apis)[i]))
  }

  lemma UsageCounts(accepts: Event -> bool, apis: seq<Member>)
    ensures var tally, n := MemoryUsage(accepts, apis), |SortedKeys(apis)|;
      && tally.failed == |Union(n, UsageFailing(accepts, apis))|
      && tally.unsupported == |Union(n, UsageLacking(apis))|
  {
    hide Lookup, SortedKeys, MemoryEndpoint, EachKey, EndpointFailing, EndpointLacking, Union;
    var keys, visit := SortedKeys(apis), RecallEndpoint(accepts, apis);
    var failing, lacking := UsageFailing(accepts, apis), UsageLacking(apis);
    KeysDiffer(apis);
    var name := (p: Spot) => p.endpoint;
    forall i: nat | i < |keys| ensures CountedAt(keys[i], visit(keys[i], i + 1), name, failing(i), lacking(i)) {
      EndpointCounts(accepts, keys[i], i + 1, Lookup(apis, keys[i]));
      EndpointSpots(accepts, keys[i], i + 1, Lookup(apis, keys[i]));
    }
    EachKeyCounts(keys, visit, name, |keys|, failing, lacking);
    assert keys[..|keys|] == keys;
  }

  /** Among the places counted for an endpoint, those of one of its models. */
  lemma EndpointMembers(accepts: Event -> bool, endpoint: string, endpointIndex: nat, value: Json, p: Spot)
    requires value.Obj? && Lookup(value.members, "models").Obj?
    ensures var models := Lookup(value.members, "models").members;
      && (p in EndpointFailing(accepts, endpoint, endpointIndex, value)
          <==> !p.OfEndpoint? && p.model in Keys(models)
               && p in ModelFailing(accepts, endpoint, p.model, endpointIndex, Place(models, p.model), Lookup(models, p.model)))
      && (p in EndpointLacking(endpoint, value)
          <==> !p.OfEndpoint? && p.model in Keys(models) && p in ModelLacking(endpoint, p.model, Lookup(models, p.model)))
  {
    hide Lookup, SortedKeys, ModelFailing, ModelLacking, Place;
    var models := Lookup(value.members, "models").members;
    var keys := SortedKeys(models);
    forall i: nat | i < |keys|
      ensures keys[i] in Keys(models) && Place(models, keys[i]) == i + 1
      ensures forall q | q in ModelsFailing(accepts, endpoint, endpointIndex, models)(i) :: !q.OfEndpoint? && q.model == keys[i]
      ensures forall q | q in ModelsLacking(endpoint, models)(i) :: !q.OfEndpoint? && q.model == keys[i]
    {
      SortedPlace(models, i);
      ModelSpots(accepts, endpoint, keys[i], endpointIndex, i + 1, Lookup(models, keys[i]));
    }
    if !p.OfEndpoint? && p.model in Keys(models) {
      var i := KeyHasPlace(models, p.model);
      UnionAt(|keys|, ModelsFailing(accepts, endpoint, endpointIndex, models), i, p);
      UnionAt(|keys|, ModelsLacking(endpoint, models), i, p);
    }
  }

  ghost predicate FoundFailing(accepts: Event -> bool, apis: seq<Member>, p: Spot) {
    p.endpoint in Keys(apis) && p in EndpointFailing(accepts, p.endpoint, Place(apis, p.endpoint), Lookup(apis, p.endpoint))
  }

  ghost predicate FoundLacking(apis: seq<Member>, p: Spot) {
    p.endpoint in Keys(apis) && p in EndpointLacking(p.endpoint, Lookup(apis, p.endpoint))
  }

  lemma UsageMembers(accepts: Event -> bool, apis: seq<Member>, p: Spot)
    ensures p in Union(|SortedKeys(apis)|, UsageFailing(accepts, apis)) <==> FoundFailing(accepts, apis, p)
    ensures p in Union(|SortedKeys(apis)|, UsageLacking(apis)) <==> FoundLacking(apis, p)
  {
    hide Lookup, SortedKeys, EndpointFailing, EndpointLacking, Place;
    var keys := SortedKeys(apis);
    forall i: nat | i < |keys|
      ensures keys[i] in Keys(apis) && Place(apis, keys[i]) == i + 1
      ensures forall q | q in UsageFailing(accepts, apis)(i) :: q.endpoint == keys[i]
      ensures forall q | q in UsageLacking(apis)(i) :: q.endpoint == keys[i]
    {
      SortedPlace(apis, i);
      EndpointSpots(accepts, keys[i], i + 1, Lookup(apis, keys[i]));
    }
    if p.endpoint in Keys(apis) {
      var i := KeyHasPlace(apis, p.endpoint);
      UnionAt(|keys|, UsageFailing(accepts, apis), i, p);
      UnionAt(|keys|, UsageLacking(apis), i, p);
    }
  }

  lemma HasModelsIs(apis: seq<Member>, endpoint: string, models: seq<Member>)
    ensures HasModels(apis, endpoint, models)
      <==> Lookup(apis, endpoint).Obj? && Lookup(Lookup(apis, endpoint).members, "models") == Obj(models)
  {
    hide Lookup, Holds;
    var value := Lookup(apis, endpoint);
    LookupHolds(apis, endpoint, value);
    if value.Obj? { DecodedHolds(value.members, "models", Obj(models)); }
    forall v: Json | Holds(apis, endpoint, v) ensures v == value { LookupHolds(apis, endpoint, v); }
  }

  lemma HasDetailsIs(model: Json, items: seq<Json>)
    ensures HasDetails(model, items) <==> model.Obj? && Lookup(model.members, "details") == Arr(items)
  {
    if model.Obj? { DecodedHolds(model.members, "details", Arr(items)); }
  }

  /** The model under a key of an endpoint that has models, as decoding gives it. */
  lemma ModelIs(apis: seq<Member>, endpoint: string, model: string, models: seq<Member>, value: Json)
    ensures HasModels(apis, endpoint, models) && Holds(models, model, value)
      <==> HasModels(apis, endpoint, models) && model in Keys(models) && Lookup(models, model) == value
  {
    LookupHolds(models, model, value);
  }

  lemma EndpointFails(accepts: Event -> bool, apis: seq<Member>, endpoint: string)
    ensures Fails(accepts, apis, OfEndpoint(endpoint)) <==> FoundFailing(accepts, apis, OfEndpoint(endpoint))
    ensures !FoundLacking(apis, OfEndpoint(endpoint))
  {
    hide Lookup, HasModels, ModelFailing, Place, SortedKeys, Union;
    var value, p := Lookup(apis, endpoint), OfEndpoint(endpoint);
    KeyOfMember(apis, endpoint);
    forall models ensures HasModels(apis, endpoint, models) <==> value.Obj? && Lookup(value.members, "models") == Obj(models) {
      HasModelsIs(apis, endpoint, models);
    }
    if value.Obj? && Lookup(value.members, "models").Obj? {
      EndpointMembers(accepts, endpoint, Place(apis, endpoint), value, p);
      assert HasModels(apis, endpoint, Lookup(value.members, "models").members);
    }
  }

  lemma ModelFails(accepts: Event -> bool, apis: seq<Member>, endpoint: string, model: string)
    ensures Fails(accepts, apis, OfModel(endpoint, model)) <==> FoundFailing(accepts, apis, OfModel(endpoint, model))
    ensures Lacks(apis, OfModel(endpoint, model)) <==> FoundLacking(apis, OfModel(endpoint, model))
  {
    hide Lookup, HasModels, Holds, HasDetails, Place, SortedKeys, Union, DetailsFailing;
    var value, p := Lookup(apis, endpoint), OfModel(endpoint, model);
    LookupHolds(apis, endpoint, value);
    forall models ensures HasModels(apis, endpoint, models) <==> value.Obj? && Lookup(value.members, "models") == Obj(models) {
      HasModelsIs(apis, endpoint, models);
    }
    if value.Obj? && Lookup(value.members, "models").Obj? {
      var models := Lookup(value.members, "models").members;
      EndpointMembers(accepts, endpoint, Place(apis, endpoint), value, p);
      var found := Lookup(models, model);
      LookupHolds(models, model, found);
      forall v: Json | Holds(models, model, v) ensures v == found { LookupHolds(models, model, v); }
      forall items ensures HasDetails(found, items) <==> found.Obj? && Lookup(found.members, "details") == Arr(items) {
        HasDetailsIs(found, items);
      }
      NotADetail(accepts, endpoint, model, Place(apis, endpoint), Place(models, model), found);
    }
  }

  lemma NotADetail(accepts: Event -> bool, endpoint: string, model: string, endpointIndex: nat, modelIndex: nat, value: Json)
    ensures OfModel(endpoint, model) in ModelFailing(accepts, endpoint, model, endpointIndex, modelIndex, value) <==> !value.Obj?
  {
  }

  lemma ADetail(accepts: Event -> bool, endpoint: string, model: string, endpointIndex: nat, modelIndex: nat, value: Json, e: Event)
    requires e.endpoint == endpoint && e.model == model && e.endpointIndex == endpointIndex && e.modelIndex == modelIndex
    requires value.Obj? && Lookup(value.members, "details").Arr?
    requires e.detailIndex < |Lookup(value.members, "details").items| && e.detail == Lookup(value.members, "details").items[e.detailIndex]
    ensures OfDetail(endpoint, model, e.detailIndex) in ModelFailing(accepts, endpoint, model, endpointIndex, modelIndex, value)
      <==> !(e.detail.Obj? && accepts(e))
  {
    hide Lookup;
    assert e == Event(endpoint, model, e.detail, endpointIndex, modelIndex, e.detailIndex);
  }

  /** A detail found failing, as the event it would have been. */
  lemma FailingDetail(accepts: Event -> bool, apis: seq<Member>, p: Spot) returns (e: Event)
    requires p.OfDetail? && FoundFailing(accepts, apis, p)
    ensures e.endpoint == p.endpoint && e.model == p.model && e.detailIndex == p.index && IsDetail(apis, e) && !(e.detail.Obj? && accepts(e))
  {
    hide Lookup, Holds, Place, SortedKeys, Union;
    var value := Lookup(apis, p.endpoint);
    EndpointMembers(accepts, p.endpoint, Place(apis, p.endpoint), value, p);
    var models := Lookup(value.members, "models").members;
    var model := Lookup(models, p.model);
    var items := Lookup(model.members, "details").items;
    e := Event(p.endpoint, p.model, items[p.index], Place(apis, p.endpoint), Place(models, p.model), p.index);
    HasModelsIs(apis, p.endpoint, models);
    LookupHolds(models, p.model, model);
    HasDetailsIs(model, items);
  }

  lemma DetailFails(accepts: Event -> bool, apis: seq<Member>, e: Event)
    requires IsDetail(apis, e)
    ensures FoundFailing(accepts, apis, OfDetail(e.endpoint, e.model, e.detailIndex)) <==> !(e.detail.Obj? && accepts(e))
  {
    hide Lookup, Holds, Place, SortedKeys, Union, HasModels, HasDetails, ModelFailing;
    var models: seq<Member>, model: Json, items: seq<Json> :|
      && HasModels(apis, e.endpoint, models) && Holds(models, e.model, model) && HasDetails(model, items)
      && e.detailIndex < |items| && items[e.detailIndex] == e.detail
      && e.endpointIndex == Place(apis, e.endpoint) && e.modelIndex == Place(models, e.model);
    HasModelsIs(apis, e.endpoint, models);
    LookupHolds(apis, e.endpoint, Lookup(apis, e.endpoint));
    LookupHolds(models, e.model, model);
    HasDetailsIs(model, items);
    EndpointMembers(accepts, e.endpoint, e.endpointIndex, Lookup(apis, e.endpoint), OfDetail(e.endpoint, e.model, e.detailIndex));
    ADetail(accepts, e.endpoint, e.model, e.endpointIndex, e.modelIndex, model, e);
  }

  lemma FoundExactly(accepts: Event -> bool, apis: seq<Member>, p: Spot)
    ensures Fails(accepts, apis, p) <==> FoundFailing(accepts, apis, p)
    ensures Lacks(apis, p) <==> FoundLacking(apis, p)
  {
    hide FoundFailing, IsDetail, Lookup;
    match p
    case OfEndpoint(endpoint) => EndpointFails(accepts, apis, endpoint);
    case OfModel(endpoint, model) => ModelFails(accepts, apis, endpoint, model);
    case OfDetail(endpoint, model, index) =>
      if FoundFailing(accepts, apis, p) {
        var e := FailingDetail(accepts, apis, p);
      }
      forall e: Event | e.endpoint == endpoint && e.model == model && e.detailIndex == index && IsDetail(apis, e)
        ensures FoundFailing(accepts, apis, p) <==> !(e.detail.Obj? && accepts(e))
      {
        DetailFails(accepts, apis, e);
      }
      NoDetailLacks(apis, p);
  }

  lemma NoDetailLacks(apis: seq<Member>, p: Spot)
    requires p.OfDetail?
    ensures !FoundLacking(apis, p)
  {
    var value := Lookup(apis, p.endpoint);
    if value.Obj? && Lookup(value.members, "models").Obj? { EndpointMembers(_ => true, p.endpoint, 0, value, p); }
  }

  /**
    The counters of the import: as many failures as places of the document that
    fail, and as many unsupported models as ones without details.
   */
  lemma MemoryCounts(accepts: Event -> bool, apis: seq<Member>) returns (failing: set<Spot>, lacking: set<Spot>)
    ensures forall p :: p in failing <==> Fails(accepts, apis, p)
    ensures forall p :: p in lacking <==> Lacks(apis, p)
    ensures MemoryUsage(accepts, apis).failed == |failing| && MemoryUsage(accepts, apis).unsupported == |lacking|
  {
    hide Fails, Lacks, FoundFailing, FoundLacking, UsageFailing, UsageLacking, MemoryUsage, Union, SortedKeys;
    UsageCounts(accepts, apis);
    failing := Union(|SortedKeys(apis)|, UsageFailing(accepts, apis));
    lacking := Union(|SortedKeys(apis)|, UsageLacking(apis));
    forall p ensures p in failing <==> Fails(accepts, apis, p) {
      UsageMembers(accepts, apis, p);
      FoundExactly(accepts, apis, p);
    }
    forall p ensures p in lacking <==> Lacks(apis, p) {
      UsageMembers(accepts, apis, p);
      FoundExactly(accepts, apis, p);
    }
  }
}
