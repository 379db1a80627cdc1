/**
  What the import of a legacy export yields, said of the document itself: which
  details become events, with which indices and in which order; and which
  documents are taken for legacy exports.
 */
module LegacyEvents {
  import opened Ordering
  import opened LegacyDocument
  import opened LegacyAgreement

  // ----- Places in a document -----

  ghost predicate LastAt(members: seq<Member>, i: nat, key: string) {
    i < |members| && members[i].key == key && forall j | i < j < |members| :: members[j].key != key
  }

  /** The last member with the key, the one decoding into a map keeps, has the value. */
  ghost predicate Holds(members: seq<Member>, key: string, value: Json) {
    exists i: nat :: LastAt(members, i, key) && members[i].value == value
  }

  /** An endpoint that has models, and those. */
  ghost predicate HasModels(apis: seq<Member>, endpoint: string, models: seq<Member>) {
    exists value: Json :: Holds(apis, endpoint, value) && value.Obj? && Holds(value.members, "models", Obj(models))
  }

  /** A model with a list of details. */
  ghost predicate HasDetails(model: Json, items: seq<Json>) {
    model.Obj? && Holds(model.members, "details", Arr(items))
  }

  /** One plus the number of different keys that come before the key in the dictionary. */
  ghost function Place(members: seq<Member>, key: string): nat {
    1 + |set m | m in members && Precedes(m.key, key) :: m.key|
  }

  /** The detail at an index of a model of an endpoint, as an event with the places of its keys. */
  ghost predicate IsDetail(apis: seq<Member>, e: Event) {
    exists models: seq<Member>, model: Json, items: seq<Json> ::
      && HasModels(apis, e.endpoint, models) && Holds(models, e.model, model) && HasDetails(model, items)
      && e.detailIndex < |items| && items[e.detailIndex] == e.detail
      && e.endpointIndex == Place(apis, e.endpoint) && e.modelIndex == Place(models, e.model)
  }

  /** In the order of their indices, endpoint first. */
  ghost predicate Before(a: Event, b: Event) {
    || a.endpointIndex < b.endpointIndex
    || (a.endpointIndex == b.endpointIndex && a.modelIndex < b.modelIndex)
    || (a.endpointIndex == b.endpointIndex && a.modelIndex == b.modelIndex && a.detailIndex < b.detailIndex)
  }

  ghost predicate Ordered(events: seq<Event>) {
    forall i, j | 0 <= i < j < |events| :: Before(events[i], events[j])
  }

  // ----- Decoding -----

  lemma {:induction false} LookupIsLast(members: seq<Member>, key: string)
    requires key in Keys(members)
    ensures exists i: nat :: LastAt(members, i, key) && Lookup(members, key) == members[i].value
  {
    var n := |members| - 1;
    if members[n].key == key {
      assert LastAt(members, n, key);
    } else {
      assert Keys(members) == Keys(members[..n]) + [members[n].key];
      LookupIsLast(members[..n], key);
      var i: nat :| LastAt(members[..n], i, key) && Lookup(members[..n], key) == members[..n][i].value;
      assert LastAt(members, i, key);
    }
  }

  lemma LookupHolds(members: seq<Member>, key: string, value: Json)
    ensures Holds(members, key, value) <==> key in Keys(members) && Lookup(members, key) == value
    ensures key !in Keys(members) ==> Lookup(members, key) == Null
  {
    hide Lookup;
    LookupMissing(members, key);
    if key in Keys(members) { LookupIsLast(members, key); }
    if i: nat :| LastAt(members, i, key) {
      assert Keys(members)[i] == key;
    }
  }

  lemma {:induction false} DistinctKeysAre(members: seq<Member>)
    ensures Distinct(DistinctKeys(members))
    ensures forall key :: key in DistinctKeys(members) <==> key in Keys(members)
  {
    if |members| > 0 {
      var n := |members| - 1;
      DistinctKeysAre(members[..n]);
      assert Keys(members) == Keys(members[..n]) + [members[n].key];
    }
  }

  /** The i-th of the sorted keys has place i + 1. */
  lemma SortedPlace(members: seq<Member>, i: nat)
    requires i < |SortedKeys(members)|
    ensures SortedKeys(members)[i] in Keys(members) && Place(members, SortedKeys(members)[i]) == i + 1
  {
    var keys, unsorted := SortedKeys(members), DistinctKeys(members);
    hide AtMost, Precedes, DistinctKeys, Sort;
    DistinctKeysAre(members);
    SortStrings(unsorted, unsorted);
    DistinctPermutation(unsorted, keys);
    PlaceInSorted(keys, i);
    forall key ensures key in keys <==> key in Keys(members) {
      assert key in multiset(keys) <==> key in multiset(unsorted);
    }
    SameBefore(members, keys, keys[i]);
  }

  lemma SameBefore(members: seq<Member>, keys: seq<string>, key: string)
    requires forall k :: k in keys <==> k in Keys(members)
    ensures (set m | m in members && Precedes(m.key, key) :: m.key) == set x | x in keys && Precedes(x, key)
  {
    hide Precedes;
    forall x | x in keys ensures exists m :: m in members && m.key == x { KeyOfMember(members, x); }
    forall m | m in members ensures m.key in keys { KeyOfMember(members, m.key); }
  }

  lemma KeyOfMember(members: seq<Member>, key: string)
    ensures key in Keys(members) <==> exists m | m in members :: m.key == key
  {
    if key in Keys(members) {
      var k :| 0 <= k < |members| && Keys(members)[k] == key;
      assert members[k] in members;
    }
    KeyListed(members, key);
  }

  /** Every key is one of the sorted keys, and only one. */
  lemma KeyHasPlace(members: seq<Member>, key: string) returns (i: nat)
    requires key in Keys(members)
    ensures i < |SortedKeys(members)| && SortedKeys(members)[i] == key
  {
    DistinctKeysAre(members);
    assert key in multiset(DistinctKeys(members));
    assert key in multiset(SortedKeys(members));
    i :| 0 <= i < |SortedKeys(members)| && SortedKeys(members)[i] == key;
  }

  // ----- Events, level by level -----

  lemma {:induction false} DetailsEvents(
      accepts: Event -> bool, endpoint: string, model: string, endpointIndex: nat, modelIndex: nat, items: seq<Json>)
    ensures var events := Details(accepts, endpoint, model, endpointIndex, modelIndex, items).events;
      && Ordered(events)
      && forall e: Event :: e in events <==>
           && e.detailIndex < |items| && items[e.detailIndex].Obj? && accepts(e)
           && e == Event(endpoint, model, items[e.detailIndex], endpointIndex, modelIndex, e.detailIndex)
  {
    if |items| > 0 {
      DetailsEvents(accepts, endpoint, model, endpointIndex, modelIndex, items[..|items| - 1]);
    }
  }

  lemma {:induction false} EachKeyEvents(keys: seq<string>, visit: (string, nat) -> Tally)
    requires forall i | 0 <= i < |keys| :: Ordered(visit(keys[i], i + 1).events)
    requires forall i, j, a, b | 0 <= i < j < |keys| && a in visit(keys[i], i + 1).events && b in visit(keys[j], j + 1).events :: Before(a, b)
    ensures Ordered(EachKey(keys, visit).events)
    ensures forall e :: e in EachKey(keys, visit).events <==> exists i | 0 <= i < |keys| :: e in visit(keys[i], i + 1).events
  {
    if |keys| > 0 {
      var n := |keys| - 1;
      var front := keys[..n];
      assert forall i | 0 <= i < n :: front[i] == keys[i];
      EachKeyEvents(front, visit);
      var before, last := EachKey(front, visit).events, visit(keys[n], n + 1).events;
      forall i, j | 0 <= i < |before| && 0 <= j < |last| ensures Before(before[i], last[j]) {
        assert before[i] in before && last[j] in last;
      }
    }
  }

  /** An event of a model, as the walk finds it. */
  ghost predicate InModel(accepts: Event -> bool, e: Event, model: Json) {
    && model.Obj? && Lookup(model.members, "details").Arr?
    && var items := Lookup(model.members, "details").items;
       e.detailIndex < |items| && items[e.detailIndex] == e.detail && e.detail.Obj? && accepts(e)
  }

  ghost predicate InEndpoint(accepts: Event -> bool, e: Event, endpoint: Json) {
    && endpoint.Obj? && Lookup(endpoint.members, "models").Obj?
    && var models := Lookup(endpoint.members, "models").members;
       e.model in Keys(models) && e.modelIndex == Place(models, e.model) && InModel(accepts, e, Lookup(models, e.model))
  }

  lemma ModelEvents(accepts: Event -> bool, endpoint: string, model: string, endpointIndex: nat, modelIndex: nat, value: Json)
    ensures var events := MemoryModel(accepts, endpoint, model, endpointIndex, modelIndex, value).events;
      && Ordered(events)
      && forall e: Event :: e in events <==>
           && e.endpoint == endpoint && e.model == model && e.endpointIndex == endpointIndex && e.modelIndex == modelIndex
           && InModel(accepts, e, value)
  {
    hide Lookup, Details;
    if value.Obj? && Lookup(value.members, "details").Arr? {
      DetailsEvents(accepts, endpoint, model, endpointIndex, modelIndex, Lookup(value.members, "details").items);
    }
  }

  lemma EndpointEvents(accepts: Event -> bool, endpoint: string, endpointIndex: nat, value: Json)
    ensures var events := MemoryEndpoint(accepts, endpoint, endpointIndex, value).events;
      && Ordered(events)
      && forall e: Event :: e in events <==> e.endpoint == endpoint && e.endpointIndex == endpointIndex && InEndpoint(accepts, e, value)
  {
    hide Lookup, SortedKeys, MemoryModel, InModel, Place, Ordered, EachKey;
    if value.Obj? && Lookup(value.members, "models").Obj? {
      ModelsEvents(accepts, endpoint, endpointIndex, Lookup(value.members, "models").members);
    } else {
      assert Ordered([]) by { NoneOrdered(); }
    }
  }

  lemma NoneOrdered()
    ensures Ordered([])
  {
  }

  lemma ModelsEvents(accepts: Event -> bool, endpoint: string, endpointIndex: nat, models: seq<Member>)
    ensures var events := EachKey(SortedKeys(models), RecallModel(accepts, endpoint, endpointIndex, models)).events;
      && Ordered(events)
      && forall e: Event :: e in events <==>
           && e.endpoint == endpoint && e.endpointIndex == endpointIndex && e.model in Keys(models) && e.modelIndex == Place(models, e.model)
           && InModel(accepts, e, Lookup(models, e.model))
  {
    hide Lookup, SortedKeys, MemoryModel, InModel, Place, Ordered, EachKey;
    var keys, visit := SortedKeys(models), RecallModel(accepts, endpoint, endpointIndex, models);
    forall i | 0 <= i < |keys|
      ensures keys[i] in Keys(models) && Place(models, keys[i]) == i + 1 && Ordered(visit(keys[i], i + 1).events)
      ensures forall e: Event :: e in visit(keys[i], i + 1).events <==>
        && e.endpoint == endpoint && e.model == keys[i] && e.endpointIndex == endpointIndex && e.modelIndex == i + 1
        && InModel(accepts, e, Lookup(models, keys[i]))
    {
      SortedPlace(models, i);
      ModelEvents(accepts, endpoint, keys[i], endpointIndex, i + 1, Lookup(models, keys[i]));
    }
    EachKeyEvents(keys, visit);
    forall e: Event | e.model in Keys(models) ensures exists i | 0 <= i < |keys| :: keys[i] == e.model {
      var i := KeyHasPlace(models, e.model);
    }
  }

  lemma UsageEvents(accepts: Event -> bool, apis: seq<Member>)
    ensures Ordered(MemoryUsage(accepts, apis).events)
    ensures forall e: Event :: e in MemoryUsage(accepts, apis).events <==>
      && e.endpoint in Keys(apis) && e.endpointIndex == Place(apis, e.endpoint) && InEndpoint(accepts, e, Lookup(apis, e.endpoint))
  {
    hide Lookup, SortedKeys, MemoryEndpoint, InEndpoint, Place, Ordered, EachKey;
    var keys, visit := SortedKeys(apis), RecallEndpoint(accepts, apis);
    forall i | 0 <= i < |keys|
      ensures keys[i] in Keys(apis) && Place(apis, keys[i]) == i + 1 && Ordered(visit(keys[i], i + 1).events)
      ensures forall e: Event :: e in visit(keys[i], i + 1).events <==>
        e.endpoint == keys[i] && e.endpointIndex == i + 1 && InEndpoint(accepts, e, Lookup(apis, keys[i]))
    {
      SortedPlace(apis, i);
      EndpointEvents(accepts, keys[i], i + 1, Lookup(apis, keys[i]));
    }
    EachKeyEvents(keys, visit);
    forall e: Event | e.endpoint in Keys(apis) ensures exists i | 0 <= i < |keys| :: keys[i] == e.endpoint {
      var i := KeyHasPlace(apis, e.endpoint);
    }
  }

  /** What a document holds and what decoding gives are the same. */
  lemma DecodedHolds(members: seq<Member>, key: string, value: Json)
    ensures value != Null ==> (Holds(members, key, value) <==> Lookup(members, key) == value)
  {
    LookupHolds(members, key, value);
  }

  lemma FoundIsDetail(accepts: Event -> bool, apis: seq<Member>, e: Event)
    requires e.endpoint in Keys(apis) && e.endpointIndex == Place(apis, e.endpoint) && InEndpoint(accepts, e, Lookup(apis, e.endpoint))
    ensures IsDetail(apis, e) && e.detail.Obj? && accepts(e)
  {
    hide Lookup, Holds, Place;
    var endpoint := Lookup(apis, e.endpoint);
    var models := Lookup(endpoint.members, "models").members;
    var model := Lookup(models, e.model);
    var items := Lookup(model.members, "details").items;
    LookupHolds(apis, e.endpoint, endpoint);
    DecodedHolds(endpoint.members, "models", Obj(models));
    LookupHolds(models, e.model, model);
    DecodedHolds(model.members, "details", Arr(items));
    assert HasModels(apis, e.endpoint, models) && HasDetails(model, items);
  }

  lemma DetailIsFound(accepts: Event -> bool, apis: seq<Member>, e: Event)
    requires IsDetail(apis, e) && e.detail.Obj? && accepts(e)
    ensures e.endpoint in Keys(apis) && e.endpointIndex == Place(apis, e.endpoint) && InEndpoint(accepts, e, Lookup(apis, e.endpoint))
  {
    hide Lookup, Holds, Place;
    var models: seq<Member>, model: Json, items: seq<Json> :|
      && HasModels(apis, e.endpoint, models) && Holds(models, e.model, model) && HasDetails(model, items)
      && e.detailIndex < |items| && items[e.detailIndex] == e.detail
      && e.endpointIndex == Place(apis, e.endpoint) && e.modelIndex == Place(models, e.model);
    var endpoint: Json :| Holds(apis, e.endpoint, endpoint) && endpoint.Obj? && Holds(endpoint.members, "models", Obj(models));
    LookupHolds(apis, e.endpoint, endpoint);
    DecodedHolds(endpoint.members, "models", Obj(models));
    LookupHolds(models, e.model, model);
    DecodedHolds(model.members, "details", Arr(items));
  }

  /**
    The in-memory import: an event for every detail of the document that is an
    object the conversion accepts, for nothing else and for none twice, in the
    order of the indices.
   */
  lemma MemoryEvents(accepts: Event -> bool, apis: seq<Member>)
    ensures var events := MemoryUsage(accepts, apis).events;
      && Ordered(events)
      && forall e: Event :: e in events <==> IsDetail(apis, e) && e.detail.Obj? && accepts(e)
  {
    hide Lookup, Place, Ordered, MemoryUsage, IsDetail, InEndpoint;
    UsageEvents(accepts, apis);
    forall e: Event ensures e in MemoryUsage(accepts, apis).events <==> IsDetail(apis, e) && e.detail.Obj? && accepts(e) {
      if e in MemoryUsage(accepts, apis).events { FoundIsDetail(accepts, apis, e); }
      if IsDetail(apis, e) && e.detail.Obj? && accepts(e) { DetailIsFound(accepts, apis, e); }
    }
  }

  /** The apis object of an export: under usage if the document has that key, at the top otherwise. */
  ghost predicate Exports(members: seq<Member>, apis: seq<Member>) {
    if exists m | m in members :: m.key == "usage" then
      exists usage: seq<Member> :: Holds(members, "usage", Obj(usage)) && Holds(usage, "apis", Obj(apis))
    else Holds(members, "apis", Obj(apis))
  }

  lemma RecordExports(members: seq<Member>) returns (apis: seq<Member>)
    requires MemoryRecord(members).Some?
    ensures Exports(members, apis) && |apis| > 0 && Lookup(MemoryRecord(members).value, "apis") == Obj(apis)
  {
    hide Lookup, Holds;
    KeyOfMember(members, "usage");
    var record := MemoryRecord(members).value;
    apis := Lookup(record, "apis").members;
    DecodedHolds(record, "apis", Obj(apis));
    DecodedHolds(members, "usage", Obj(record));
  }

  /** The streaming import of an accepted document: the same events, each once. */
  lemma StreamEvents(accepts: Event -> bool, members: seq<Member>, g: Setting) returns (apis: seq<Member>)
    requires Inspect(members, g).Legacy?
    ensures Exports(members, apis) && |apis| > 0
    ensures var events := StreamDocument(accepts, Inspect(members, g).shape, members).0.events;
      forall e: Event :: multiset(events)[e] == if IsDetail(apis, e) && e.detail.Obj? && accepts(e) then 1 else 0
  {
    hide Lookup, Place, MemoryUsage, IsDetail, Inspect, StreamDocument, Holds, MemoryRecord, Exports;
    StreamRefinesMemory(accepts, members, g);
    apis := RecordExports(members);
    MemoryEvents(accepts, apis);
    var events, memory := StreamDocument(accepts, Inspect(members, g).shape, members).0.events, MemoryUsage(accepts, apis).events;
    forall e: Event ensures multiset(events)[e] == if IsDetail(apis, e) && e.detail.Obj? && accepts(e) then 1 else 0 {
      DistinctCount(memory, e);
    }
  }

  // ----- Which documents are accepted -----

  function ModelsOf(endpoint: Json): seq<Member> {
    if endpoint.Obj? && Lookup(endpoint.members, "models").Obj? then Lookup(endpoint.members, "models").members else []
  }

  /** The keys the inspection pass records of an apis object: its endpoints, each with its models. */
  function RecordedKeys(apis: Json): seq<string> {
    if apis.Obj? then KeysWithModels(apis.members) else []
  }

  function KeysWithModels(endpoints: seq<Member>): seq<string> {
    if |endpoints| == 0 then []
    else
      var last := endpoints[|endpoints| - 1];
      KeysWithModels(endpoints[..|endpoints| - 1]) + [last.key] + Keys(ModelsOf(last.value))
  }

  function AllKeys(members: seq<Member>): seq<string> {
    var usage := Lookup(members, "usage");
    (if usage.Obj? then RecordedKeys(Lookup(usage.members, "apis")) else []) + RecordedKeys(Lookup(members, "apis"))
  }

  function Length(keys: seq<string>): nat {
    if |keys| == 0 then 0 else Length(keys[..|keys| - 1]) + |keys[|keys| - 1]|
  }

  lemma {:induction false} LengthJoins(a: seq<string>, b: seq<string>)
    ensures Length(a + b) == Length(a) + Length(b)
  {
    if |b| == 0 {
      assert a + b == a;
    } else {
      LengthJoins(a, b[..|b| - 1]);
      assert (a + b)[..|a + b| - 1] == a + b[..|b| - 1];
    }
  }

  lemma {:induction false} ModelsCostCounts(models: seq<Member>)
    ensures ModelsCost(models) == Cost(|Keys(models)|, Length(Keys(models)))
  {
    if |models| > 0 {
      ModelsCostCounts(models[..|models| - 1]);
      assert Keys(models)[..|models| - 1] == Keys(models[..|models| - 1]);
    }
  }

  lemma {:induction false} EndpointsCostCounts(endpoints: seq<Member>)
    ensures EndpointsCost(endpoints) == Cost(|KeysWithModels(endpoints)|, Length(KeysWithModels(endpoints)))
  {
    hide Lookup, ModelsCost;
    if |endpoints| > 0 {
      var n := |endpoints| - 1;
      var last, before := endpoints[n], KeysWithModels(endpoints[..n]);
      EndpointsCostCounts(endpoints[..n]);
      ModelsCostCounts(ModelsOf(last.value));
      ModelsCostCounts([]);
      LengthJoins(before, [last.key]);
      LengthJoins(before + [last.key], Keys(ModelsOf(last.value)));
      assert Length([last.key]) == |last.key|;
    }
  }

  lemma RecordedCost(apis: Json)
    ensures ApisCost(apis) == Cost(|RecordedKeys(apis)|, Length(RecordedKeys(apis)))
  {
    hide KeysWithModels, EndpointsCost;
    if apis.Obj? { EndpointsCostCounts(apis.members); }
  }

  lemma TotalCostCounts(members: seq<Member>)
    ensures TotalCost(members) == Cost(|AllKeys(members)|, Length(AllKeys(members)))
  {
    hide Lookup, ApisCost, RecordedKeys, Length;
    var usage, apis := Lookup(members, "usage"), Lookup(members, "apis");
    var inner := if usage.Obj? then Lookup(usage.members, "apis") else Null;
    RecordedCost(inner);
    RecordedCost(apis);
    LengthJoins(if usage.Obj? then RecordedKeys(inner) else [], RecordedKeys(apis));
    NothingLong();
  }

  lemma NothingLong()
    ensures Length([]) == 0
  {
  }

  lemma RecordIsExported(members: seq<Member>)
    ensures MemoryRecord(members).Some? <==> exists apis: seq<Member> :: Exports(members, apis) && |apis| > 0
  {
    if MemoryRecord(members).Some? {
      var apis := RecordExports(members);
    }
    forall apis: seq<Member> | Exports(members, apis) && |apis| > 0 ensures MemoryRecord(members).Some? {
      ExportIsRecord(members, apis);
    }
  }

  lemma ExportIsRecord(members: seq<Member>, apis: seq<Member>)
    requires Exports(members, apis) && |apis| > 0
    ensures MemoryRecord(members).Some?
  {
    hide Lookup, Holds;
    KeyOfMember(members, "usage");
    if "usage" in Keys(members) {
      var usage: seq<Member> :| Holds(members, "usage", Obj(usage)) && Holds(usage, "apis", Obj(apis));
      DecodedHolds(members, "usage", Obj(usage));
      DecodedHolds(usage, "apis", Obj(apis));
    } else {
      DecodedHolds(members, "apis", Obj(apis));
    }
  }

  /**
    The documents taken for legacy exports: no member marks an exported event, no
    structural key occurs twice, there is an apis object that is not empty, the
    recorded keys are few and short enough, and nothing follows.
   */
  lemma AcceptedInFull(members: seq<Member>, g: Setting)
    ensures Inspect(members, g).Legacy? <==>
      && (forall m | m in members && m.key in {"event_hash", "eventHash"} :: m.value == Null || (m.value.Str? && g.blank(m.value.text)))
      && Unambiguous(members) && !g.trailing
      && (exists apis: seq<Member> :: Exports(members, apis) && |apis| > 0)
      && (g.limits.maxKeys <= 0 || |AllKeys(members)| <= g.limits.maxKeys)
      && (g.limits.maxKeyBytes <= 0 || Length(AllKeys(members)) <= g.limits.maxKeyBytes)
  {
    hide Inspect, Unambiguous, MemoryRecord, Exports, AllKeys, TotalCost, Length;
    AcceptedExactly(members, g);
    TotalCostCounts(members);
    RecordIsExported(members);
    assert forall i | 0 <= i < |members| :: members[i] in members;
  }
}
