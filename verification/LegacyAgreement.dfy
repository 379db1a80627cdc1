/**
  The streaming import of a legacy usage export agrees with the in-memory one:
  for every document the inspection pass accepts, both produce the same
  multiset of events, each detail with the same three indices, and the same
  counters and verdict.
 */
module LegacyAgreement {
  import opened Ordering
  import opened LegacyDocument

  /** A tally up to the order of its events. */
  datatype Bag = Bag(events: multiset<Event>, failed: nat, unsupported: nat)

  ghost function BagOf(t: Tally): Bag {
    Bag(multiset(t.events), t.failed, t.unsupported)
  }

  ghost function Join(a: Bag, b: Bag): Bag {
    Bag(a.events + b.events, a.failed + b.failed, a.unsupported + b.unsupported)
  }

  /** The contributions of a list of keys, in any order. */
  ghost function Total(keys: seq<string>, part: string -> Bag): Bag {
    if |keys| == 0 then Bag(multiset{}, 0, 0) else Join(Total(keys[..|keys| - 1], part), part(keys[|keys| - 1]))
  }

  lemma BagOfPlus(a: Tally, b: Tally)
    ensures BagOf(Plus(a, b)) == Join(BagOf(a), BagOf(b))
  {
  }

  lemma TotalSnoc(keys: seq<string>, key: string, part: string -> Bag)
    ensures Total(keys + [key], part) == Join(Total(keys, part), part(key))
  {
    assert (keys + [key])[..|keys|] == keys;
  }

  lemma {:induction false} TotalRemove(front: seq<string>, key: string, back: seq<string>, part: string -> Bag)
    ensures Total(front + [key] + back, part) == Join(Total(front + back, part), part(key))
    decreases |back|
  {
    if |back| == 0 {
      assert front + [key] + back == front + [key] && front + back == front;
      TotalSnoc(front, key, part);
    } else {
      var n := |back| - 1;
      assert front + [key] + back == (front + [key] + back[..n]) + [back[n]];
      assert front + back == (front + back[..n]) + [back[n]];
      TotalRemove(front, key, back[..n], part);
      TotalSnoc(front + [key] + back[..n], back[n], part);
      TotalSnoc(front + back[..n], back[n], part);
    }
  }

  lemma {:induction false} TotalPermutation(a: seq<string>, b: seq<string>, part: string -> Bag)
    requires multiset(a) == multiset(b)
    ensures Total(a, part) == Total(b, part)
    decreases |a|
  {
    if |a| == 0 {
      assert |multiset(b)| == 0;
    } else {
      var front, key := a[..|a| - 1], a[|a| - 1];
      assert a == front + [key];
      var j := Occurrence(front, key, b);
      var back := b[j + 1..];
      TotalSnoc(front, key, part);
      TotalRemove(b[..j], key, back, part);
      TotalPermutation(front, b[..j] + back, part);
    }
  }

  lemma Occurrence(front: seq<string>, key: string, b: seq<string>) returns (j: nat)
    requires multiset(front + [key]) == multiset(b)
    ensures j < |b| && b == b[..j] + [key] + b[j + 1..]
    ensures multiset(front) == multiset(b[..j] + b[j + 1..])
  {
    assert (front + [key])[|front|] == key;
    assert key in multiset(front + [key]);
    j :| 0 <= j < |b| && b[j] == key;
    WithoutOccurrence(b, j);
    assert multiset(front + [key]) == multiset(front) + multiset{key};
    CancelOne(multiset(front), multiset(b[..j] + b[j + 1..]), key);
  }

  lemma CancelOne(a: multiset<string>, b: multiset<string>, key: string)
    requires a + multiset{key} == b + multiset{key}
    ensures a == b
  {
    assert a == a + multiset{key} - multiset{key};
  }

  lemma WithoutOccurrence(b: seq<string>, j: nat)
    requires j < |b|
    ensures b == b[..j] + [b[j]] + b[j + 1..]
    ensures multiset(b) == multiset(b[..j] + b[j + 1..]) + multiset{b[j]}
  {
    var f, k := b[..j], b[j + 1..];
    assert b == f + [b[j]] + k;
    assert multiset(f + [b[j]] + k) == multiset(f) + multiset{b[j]} + multiset(k);
  }

  /** What one key contributes to the walk in document order. */
  ghost function PartOf(members: seq<Member>, visit: (string, Json) -> Tally): string -> Bag {
    key => BagOf(visit(key, Lookup(members, key)))
  }

  lemma NothingTotal(part: string -> Bag)
    ensures BagOf(Zero()) == Total([], part)
  {
  }

  lemma {:induction false} EachMemberTotal(members: seq<Member>, visit: (string, Json) -> Tally, part: string -> Bag)
    requires forall i | 0 <= i < |members| :: BagOf(visit(members[i].key, members[i].value)) == part(members[i].key)
    ensures BagOf(EachMember(members, visit)) == Total(Keys(members), part)
  {
    hide BagOf, Join, Plus;
    if |members| > 0 {
      var n := |members| - 1;
      EachMemberTotal(members[..n], visit, part);
      BagOfPlus(EachMember(members[..n], visit), visit(members[n].key, members[n].value));
      hide Total;
      TotalSnoc(Keys(members[..n]), members[n].key, part);
      assert Keys(members) == Keys(members[..n]) + [members[n].key];
    } else {
      NothingTotal(part);
    }
  }

  lemma {:induction false} EachKeyTotal(keys: seq<string>, visit: (string, nat) -> Tally, part: string -> Bag)
    requires forall i | 0 <= i < |keys| :: BagOf(visit(keys[i], i + 1)) == part(keys[i])
    ensures BagOf(EachKey(keys, visit)) == Total(keys, part)
  {
    if |keys| > 0 {
      var n := |keys| - 1;
      EachKeyTotal(keys[..n], visit, part);
      BagOfPlus(EachKey(keys[..n], visit), visit(keys[n], n + 1));
    }
  }

  /** Document order with sorted ranks contributes the same as sorted order. */
  lemma DocumentOrderIsSortedOrder(members: seq<Member>, stream: (string, Json) -> Tally, memory: (string, nat) -> Tally)
    requires Distinct(Keys(members))
    requires forall i | 0 <= i < |SortedKeys(members)| ::
               var key := SortedKeys(members)[i];
               BagOf(stream(key, Lookup(members, key))) == BagOf(memory(key, i + 1))
    ensures BagOf(EachMember(members, stream)) == BagOf(EachKey(SortedKeys(members), memory))
  {
    var keys, part := SortedKeys(members), PartOf(members, stream);
    assert multiset(keys) == multiset(Keys(members)) by {
      DistinctKeysAreKeys(members);
      SortStrings(Keys(members), Keys(members));
    }
    assert BagOf(EachMember(members, stream)) == Total(Keys(members), part) by {
      forall i | 0 <= i < |members| ensures BagOf(stream(members[i].key, members[i].value)) == part(members[i].key) {
        DistinctLookup(members, i);
      }
      EachMemberTotal(members, stream, part);
    }
    assert BagOf(EachKey(keys, memory)) == Total(keys, part) by {
      EachKeyTotal(keys, memory, part);
    }
    TotalPermutation(Keys(members), keys, part);
  }

  /** The rank recorded by the inspection pass is the position in sorted order. */
  lemma SortedRank(members: seq<Member>, i: nat)
    requires Distinct(Keys(members)) && i < |SortedKeys(members)|
    ensures RankOf(Ranks(Keys(members)), SortedKeys(members)[i]) == i + 1
    ensures exists k | 0 <= k < |members| ::
              members[k].key == SortedKeys(members)[i] && members[k].value == Lookup(members, members[k].key)
  {
    DistinctKeysAreKeys(members);
    var keys := SortedKeys(members);
    SortStrings(Keys(members), Keys(members));
    DistinctPermutation(Keys(members), keys);
    PositionsInverse(keys, i);
    assert keys[i] in multiset(Keys(members));
    var k :| 0 <= k < |members| && Keys(members)[k] == keys[i];
    DistinctLookup(members, k);
  }

  /** With one member of that key, walking for it is looking it up. */
  lemma {:induction false} WalkOnce(members: seq<Member>, key: string, step: Json -> (Tally, bool))
    requires Once(members, key)
    requires step(Null) == (Zero(), false)
    ensures Walk(members, key, step) == step(Lookup(members, key))
  {
    if |members| > 0 {
      var front := members[..|members| - 1];
      WalkOnce(front, key, step);
      if members[|members| - 1].key == key {
        WithoutKey(front, key);
        var (more, now) := step(members[|members| - 1].value);
        assert Plus(Zero(), more) == more;
      }
    }
  }

  lemma {:induction false} WithoutKey(members: seq<Member>, key: string)
    requires forall m | m in members :: m.key != key
    ensures Lookup(members, key) == Null
  {
    if |members| > 0 {
      assert members[|members| - 1] in members;
      WithoutKey(members[..|members| - 1], key);
    }
  }

  /** A value looked up in an object is one of its members' values, or null. */
  lemma {:induction false} LookupIsMember(members: seq<Member>, key: string)
    ensures Lookup(members, key) == Null || exists m | m in members :: m.key == key && m.value == Lookup(members, key)
  {
    if |members| > 0 {
      assert members[|members| - 1] in members;
      LookupIsMember(members[..|members| - 1], key);
    }
  }

  lemma ModelAgrees(accepts: Event -> bool, endpoint: string, model: string, endpointIndex: nat, modelIndex: nat, value: Json)
    requires ModelUnambiguous(value)
    ensures StreamModel(accepts, endpoint, model, endpointIndex, modelIndex, value)
         == MemoryModel(accepts, endpoint, model, endpointIndex, modelIndex, value)
  {
    if value.Obj? {
      WalkOnce(value.members, "details", StreamDetails(accepts, endpoint, model, endpointIndex, modelIndex));
      assert forall t: Tally :: t == Zero() ==> Plus(t, Unsupported()) == Unsupported();
    }
  }

  lemma ModelEntryAgrees(accepts: Event -> bool, endpoint: string, endpointIndex: nat, models: seq<Member>, i: nat)
    requires ModelsUnambiguous(Obj(models)) && i < |SortedKeys(models)|
    ensures var key := SortedKeys(models)[i];
            VisitModel(accepts, endpoint, endpointIndex, Ranks(Keys(models)))(key, Lookup(models, key))
              == RecallModel(accepts, endpoint, endpointIndex, models)(key, i + 1)
  {
    SortedRank(models, i);
    var key := SortedKeys(models)[i];
    ModelAgrees(accepts, endpoint, key, endpointIndex, i + 1, Lookup(models, key));
  }

  lemma ModelsAgree(accepts: Event -> bool, endpoint: string, endpointIndex: nat, models: seq<Member>)
    requires ModelsUnambiguous(Obj(models))
    ensures BagOf(EachMember(models, VisitModel(accepts, endpoint, endpointIndex, Ranks(Keys(models)))))
         == BagOf(EachKey(SortedKeys(models), RecallModel(accepts, endpoint, endpointIndex, models)))
  {
    var stream := VisitModel(accepts, endpoint, endpointIndex, Ranks(Keys(models)));
    var memory := RecallModel(accepts, endpoint, endpointIndex, models);
    forall i | 0 <= i < |SortedKeys(models)|
      ensures var key := SortedKeys(models)[i]; stream(key, Lookup(models, key)) == memory(key, i + 1)
    {
      ModelEntryAgrees(accepts, endpoint, endpointIndex, models, i);
    }
    DocumentOrderIsSortedOrder(models, stream, memory);
  }

  lemma EndpointAgrees(accepts: Event -> bool, endpoint: string, endpointIndex: nat, ranks: map<string, nat>, value: Json)
    requires EndpointUnambiguous(value)
    requires RanksOfModels(value).Some? ==> ranks == RanksOfModels(value).value
    ensures BagOf(StreamEndpoint(accepts, endpoint, endpointIndex, ranks, value))
         == BagOf(MemoryEndpoint(accepts, endpoint, endpointIndex, value))
  {
    hide Once, ModelsUnambiguous, SortedKeys;
    if value.Obj? {
      var models := Lookup(value.members, "models");
      WalkOnce(value.members, "models", StreamModels(accepts, endpoint, endpointIndex, ranks));
      if models.Obj? {
        LookupIsMember(value.members, "models");
        ModelsAgree(accepts, endpoint, endpointIndex, models.members);
      }
    }
  }

  lemma {:induction false} CollectAt<V>(members: seq<Member>, f: Json -> Option<V>, k: nat)
    requires Distinct(Keys(members)) && k < |members|
    ensures members[k].key in Collect(members, f) <==> f(members[k].value).Some?
    ensures f(members[k].value).Some? ==> Collect(members, f)[members[k].key] == f(members[k].value).value
  {
    var n := |members| - 1;
    var front := members[..n];
    assert Keys(front) == Keys(members)[..n];
    if k < n {
      assert members[k].key != members[n].key by {
        assert Keys(members)[k] != Keys(members)[n];
      }
      CollectAt(front, f, k);
    } else {
      assert members[n].key !in Keys(front) by {
        assert forall i | 0 <= i < n :: Keys(front)[i] == Keys(members)[i] != Keys(members)[n];
      }
      CollectKeys(front, f);
    }
  }

  lemma {:induction false} CollectKeys<V>(members: seq<Member>, f: Json -> Option<V>)
    ensures forall key | key in Collect(members, f) :: key in Keys(members)
  {
    if |members| > 0 {
      var front := members[..|members| - 1];
      CollectKeys(front, f);
      assert Keys(members) == Keys(front) + [members[|members| - 1].key];
    }
  }

  lemma EndpointEntryAgrees(accepts: Event -> bool, wrapped: bool, apis: seq<Member>, i: nat)
    requires ApisUnambiguous(Obj(apis)) && i < |SortedKeys(apis)|
    ensures var key := SortedKeys(apis)[i];
            BagOf(VisitEndpoint(accepts, ShapeOf(wrapped, apis))(key, Lookup(apis, key)))
              == BagOf(RecallEndpoint(accepts, apis)(key, i + 1))
  {
    var key := SortedKeys(apis)[i];
    SortedRank(apis, i);
    var k :| 0 <= k < |apis| && apis[k].key == key && apis[k].value == Lookup(apis, key);
    assert apis[k] in apis;
    CollectAt(apis, RanksOfModels, k);
    EndpointAgrees(accepts, key, i + 1, RanksOf(ModelRanks(apis), key), apis[k].value);
  }

  lemma ApisAgree(accepts: Event -> bool, wrapped: bool, apis: seq<Member>)
    requires ApisUnambiguous(Obj(apis))
    ensures BagOf(EachMember(apis, VisitEndpoint(accepts, ShapeOf(wrapped, apis)))) == BagOf(MemoryUsage(accepts, apis))
  {
    var stream, memory := VisitEndpoint(accepts, ShapeOf(wrapped, apis)), RecallEndpoint(accepts, apis);
    forall i | 0 <= i < |SortedKeys(apis)|
      ensures var key := SortedKeys(apis)[i]; BagOf(stream(key, Lookup(apis, key))) == BagOf(memory(key, i + 1))
    {
      EndpointEntryAgrees(accepts, wrapped, apis, i);
    }
    DocumentOrderIsSortedOrder(apis, stream, memory);
  }

  lemma PrefixStep(members: seq<Member>, n: nat, key: string)
    requires n < |members|
    ensures key in Keys(members)[..n + 1] <==> key in Keys(members)[..n] || members[n].key == key
    ensures Lookup(members[..n + 1], key) == if members[n].key == key then members[n].value else Lookup(members[..n], key)
    ensures Once(members[..n], key) && !(key in Keys(members)[..n] && members[n].key == key) ==> Once(members[..n + 1], key)
  {
    assert members[..n + 1][..n] == members[..n];
    assert Keys(members)[..n + 1] == Keys(members)[..n] + [members[n].key];
    if Once(members[..n], key) && key !in Keys(members)[..n] {
      assert forall i | 0 <= i < n :: Keys(members)[..n][i] == members[i].key;
    }
  }

  ghost function KeyCost(key: string, value: Json): Cost {
    if key == "usage" then UsageCost(value) else if key == "apis" then ApisCost(value) else Cost(0, 0)
  }

  /** The budget spent after one more member. */
  ghost function Spent(m: Member, used: Cost): Cost {
    AddCost(used, KeyCost(m.key, m.value))
  }

  /** What the inspection pass has established when it finds a legacy shape. */
  lemma {:induction false} InspectionFound(members: seq<Member>, n: nat, g: Setting, used: Cost, usage: Option<Json>, apis: Option<Json>)
    requires n <= |members|
    requires InspectFrom(members[n..], g, used, usage, apis).Legacy?
    requires usage == if "usage" in Keys(members)[..n] then Some(Lookup(members[..n], "usage")) else None
    requires apis == if "apis" in Keys(members)[..n] then Some(Lookup(members[..n], "apis")) else None
    requires Once(members[..n], "usage") && Once(members[..n], "apis")
    requires usage.Some? ==> UsageUnambiguous(usage.value)
    requires apis.Some? ==> ApisUnambiguous(apis.value)
    ensures Once(members, "usage") && Once(members, "apis")
    ensures "usage" in Keys(members) ==> UsageUnambiguous(Lookup(members, "usage"))
    ensures "apis" in Keys(members) ==> ApisUnambiguous(Lookup(members, "apis"))
    ensures MemoryRecord(members).Some?
    ensures InspectFrom(members[n..], g, used, usage, apis).shape
         == ShapeOf("usage" in Keys(members), Lookup(MemoryRecord(members).value, "apis").members)
    decreases |members| - n
  {
    if n == |members| {
      assert members[..n] == members && Keys(members)[..n] == Keys(members);
    } else {
      var m := members[n];
      assert members[n..][0] == m && members[n..][1..] == members[n + 1..];
      PrefixStep(members, n, "usage");
      PrefixStep(members, n, "apis");
      InspectionFound(members, n + 1, g, Spent(m, used),
                      if m.key == "usage" then Some(m.value) else usage,
                      if m.key == "apis" then Some(m.value) else apis);
    }
  }

  /**
    For every legacy document the inspection pass accepts, the streaming walk
    emits a permutation of the in-memory walk's events, each with the same
    endpoint, model and detail index, and produces the same
    Failed and Unsupported counts, and the same "no request details" verdict.
   */
  lemma StreamRefinesMemory(accepts: Event -> bool, members: seq<Member>, g: Setting)
    requires Inspect(members, g).Legacy?
    ensures MemoryRecord(members).Some?
    ensures Inspect(members, g).shape.wrapped == ("usage" in Keys(members))
    ensures
      var (stream, processed) := StreamDocument(accepts, Inspect(members, g).shape, members);
      var memory := MemoryUsage(accepts, Lookup(MemoryRecord(members).value, "apis").members);
      && multiset(stream.events) == multiset(memory.events)
      && stream.failed == memory.failed
      && stream.unsupported == memory.unsupported
      && ((!processed || |stream.events| == 0) <==> |memory.events| == 0)
  {
    InspectionFacts(members, g);
    var shape := Inspect(members, g).shape;
    var apis := Lookup(MemoryRecord(members).value, "apis");
    hide Inspect, ApisUnambiguous, StreamDocument, StreamApis, MemoryUsage, MemoryRecord, Lookup;
    StreamsApis(accepts, members, shape);
    ApisAgree(accepts, shape.wrapped, apis.members);
    StreamApisIs(accepts, shape, apis);
    var stream, memory := StreamDocument(accepts, shape, members).0, MemoryUsage(accepts, apis.members);
    assert |stream.events| == |multiset(stream.events)| && |memory.events| == |multiset(memory.events)|;
  }

  /** What the inspection pass has established of an accepted document, from its start. */
  lemma InspectionFacts(members: seq<Member>, g: Setting)
    requires Inspect(members, g).Legacy?
    ensures MemoryRecord(members).Some? && Lookup(MemoryRecord(members).value, "apis").Obj?
    ensures Inspect(members, g).shape == ShapeOf("usage" in Keys(members), Lookup(MemoryRecord(members).value, "apis").members)
    ensures Inspect(members, g).shape.wrapped == ("usage" in Keys(members))
    ensures Once(MemoryRecord(members).value, "apis") && ApisUnambiguous(Lookup(MemoryRecord(members).value, "apis"))
    ensures "usage" in Keys(members) ==> Once(members, "usage")
  {
    InspectionStarts(members, g);
    hide *;
    RecordUnambiguous(members);
    ShapeIsWrapped("usage" in Keys(members), Lookup(MemoryRecord(members).value, "apis").members);
  }

  lemma InspectionStarts(members: seq<Member>, g: Setting)
    requires Inspect(members, g).Legacy?
    ensures Once(members, "usage") && Once(members, "apis") && MemoryRecord(members).Some?
    ensures "usage" in Keys(members) ==> UsageUnambiguous(Lookup(members, "usage"))
    ensures "apis" in Keys(members) ==> ApisUnambiguous(Lookup(members, "apis"))
    ensures Inspect(members, g).shape == ShapeOf("usage" in Keys(members), Lookup(MemoryRecord(members).value, "apis").members)
  {
    assert members[0..] == members && members[..0] == [] && Keys(members)[..0] == [];
    hide InspectFrom, ApisUnambiguous, UsageUnambiguous, ShapeOf, MemoryRecord;
    InspectionFound(members, 0, g, Cost(0, 0), None, None);
  }

  /** The record the in-memory importer reads has one apis object without duplicate keys. */
  lemma RecordUnambiguous(members: seq<Member>)
    requires Once(members, "apis") && MemoryRecord(members).Some?
    requires "usage" in Keys(members) ==> UsageUnambiguous(Lookup(members, "usage"))
    requires "apis" in Keys(members) ==> ApisUnambiguous(Lookup(members, "apis"))
    ensures Lookup(MemoryRecord(members).value, "apis").Obj?
    ensures Once(MemoryRecord(members).value, "apis") && ApisUnambiguous(Lookup(MemoryRecord(members).value, "apis"))
  {
    hide ApisUnambiguous, Once;
    LookupIsMember(MemoryRecord(members).value, "apis");
    KeyListed(members, "apis");
  }

  lemma KeyListed(members: seq<Member>, key: string)
    ensures key !in Keys(members) ==> forall m | m in members :: m.key != key
  {
    forall m | m in members && m.key == key ensures key in Keys(members) {
      var k :| 0 <= k < |members| && members[k] == m;
      assert Keys(members)[k] == key;
    }
  }

  lemma ShapeIsWrapped(wrapped: bool, endpoints: seq<Member>)
    ensures ShapeOf(wrapped, endpoints).wrapped == wrapped
  {
  }

  /** The walk of the document comes down to the one walk of the apis object that the in-memory importer reads. */
  lemma StreamsApis(accepts: Event -> bool, members: seq<Member>, shape: Shape)
    requires MemoryRecord(members).Some? && shape.wrapped == ("usage" in Keys(members))
    requires Once(MemoryRecord(members).value, "apis") && ("usage" in Keys(members) ==> Once(members, "usage"))
    ensures StreamDocument(accepts, shape, members) == StreamApis(accepts, shape)(Lookup(MemoryRecord(members).value, "apis"))
  {
    hide Once, HasApis;
    WalkOnce(MemoryRecord(members).value, "apis", StreamApis(accepts, shape));
    if shape.wrapped { WalkOnce(members, "usage", StreamUsage(accepts, shape)); }
  }

  lemma StreamApisIs(accepts: Event -> bool, shape: Shape, apis: Json)
    requires apis.Obj?
    ensures StreamApis(accepts, shape)(apis) == (EachMember(apis.members, VisitEndpoint(accepts, shape)), true)
  {
  }

  // ----- Which documents are taken for legacy exports -----

  /** No member marks the document as an exported event. */
  ghost predicate Unmarked(members: seq<Member>, blank: string -> bool) {
    forall i | 0 <= i < |members| && members[i].key in {"event_hash", "eventHash"} :: !MarksEvent(members[i].value, blank)
  }

  /** No structural key occurs twice, anywhere the walks look. */
  ghost predicate Unambiguous(members: seq<Member>) {
    && Once(members, "usage") && Once(members, "apis")
    && UsageUnambiguous(Lookup(members, "usage")) && ApisUnambiguous(Lookup(members, "apis"))
  }

  lemma {:induction false} LookupOnce(members: seq<Member>, k: nat)
    requires k < |members| && Once(members, members[k].key)
    ensures Lookup(members, members[k].key) == members[k].value
  {
    if k < |members| - 1 {
      var front := members[..|members| - 1];
      assert Once(front, front[k].key);
      LookupOnce(front, k);
    }
  }

  lemma {:induction false} LookupMissing(members: seq<Member>, key: string)
    ensures key !in Keys(members) ==> Lookup(members, key) == Null
  {
    if |members| > 0 {
      var n := |members| - 1;
      assert Keys(members)[n] == members[n].key;
      assert Keys(members)[..n] == Keys(members[..n]);
      LookupMissing(members[..n], key);
    }
  }

  /** What the keys the pass records cost. */
  ghost function TotalCost(members: seq<Member>): Cost {
    AddCost(UsageCost(Lookup(members, "usage")), ApisCost(Lookup(members, "apis")))
  }

  /** Spending member by member comes to the same total, and what fits in the end fitted all along. */
  lemma SpendLaw(m: Member, used: Cost, rest: Cost, limits: Limits)
    ensures AddCost(Spent(m, used), rest) == AddCost(used, AddCost(Spent(m, Cost(0, 0)), rest))
    ensures Fits(limits, AddCost(Spent(m, used), rest)) ==> Fits(limits, Spent(m, used))
  {
    hide KeyCost;
  }

  /** What is spent on the members of one key from n on. */
  ghost function PartFrom(members: seq<Member>, n: nat, key: string): Cost
    requires n <= |members|
    decreases |members| - n
  {
    if n == |members| then Cost(0, 0)
    else AddCost(if members[n].key == key then KeyCost(key, members[n].value) else Cost(0, 0), PartFrom(members, n + 1, key))
  }

  ghost function CostFrom(members: seq<Member>, n: nat): Cost
    requires n <= |members|
  {
    AddCost(PartFrom(members, n, "usage"), PartFrom(members, n, "apis"))
  }

  lemma SpentIs(m: Member, used: Cost)
    ensures m.key == "usage" ==> Spent(m, used) == AddCost(used, UsageCost(m.value))
    ensures m.key == "apis" ==> Spent(m, used) == AddCost(used, ApisCost(m.value))
    ensures m.key != "usage" && m.key != "apis" ==> Spent(m, used) == used
  {
    hide UsageCost, ApisCost;
  }

  lemma NothingCosts(members: seq<Member>, used: Cost)
    ensures CostFrom(members, |members|) == Cost(0, 0) && AddCost(used, Cost(0, 0)) == used
  {
    NoPart(members, "usage");
    NoPart(members, "apis");
    hide PartFrom;
  }

  lemma NoPart(members: seq<Member>, key: string)
    ensures PartFrom(members, |members|, key) == Cost(0, 0)
  {
    hide KeyCost;
  }

  lemma PartNext(members: seq<Member>, n: nat, key: string)
    requires n < |members|
    ensures PartFrom(members, n, key)
      == AddCost(if members[n].key == key then KeyCost(key, members[n].value) else Cost(0, 0), PartFrom(members, n + 1, key))
  {
    hide KeyCost;
  }

  lemma CostNext(members: seq<Member>, n: nat)
    requires n < |members|
    ensures CostFrom(members, n) == AddCost(Spent(members[n], Cost(0, 0)), CostFrom(members, n + 1))
  {
    hide PartFrom, UsageCost, ApisCost, Spent, KeyCost;
    PartNext(members, n, "usage");
    PartNext(members, n, "apis");
    SpentIs(members[n], Cost(0, 0));
    KeysCost(members[n].value);
  }

  lemma KeysCost(value: Json)
    ensures KeyCost("usage", value) == UsageCost(value) && KeyCost("apis", value) == ApisCost(value) && "usage" != "apis"
  {
    hide UsageCost, ApisCost;
    assert |"usage"| != |"apis"|;
  }

  lemma {:induction false} AcceptedMeans(members: seq<Member>, n: nat, g: Setting, used: Cost, usage: Option<Json>, apis: Option<Json>)
    requires n <= |members| && Fits(g.limits, used) && InspectFrom(members[n..], g, used, usage, apis).Legacy?
    ensures forall i | n <= i < |members| && members[i].key in {"event_hash", "eventHash"} :: !MarksEvent(members[i].value, g.blank)
    ensures !g.trailing && Fits(g.limits, AddCost(used, CostFrom(members, n)))
    decreases |members| - n
  {
    hide UsageUnambiguous, ApisUnambiguous, MarksEvent, ShapeOf, UsageCost, ApisCost, Fits, CostFrom, AddCost;
    if n < |members| {
      var m := members[n];
      SpentIs(m, used);
      assert members[n..][0] == m && members[n..][1..] == members[n + 1..];
      CostNext(members, n);
      SpendLaw(m, used, CostFrom(members, n + 1), g.limits);
      AcceptedMeans(members, n + 1, g, Spent(m, used),
                    if m.key == "usage" then Some(m.value) else usage,
                    if m.key == "apis" then Some(m.value) else apis);
    } else {
      NothingCosts(members, used);
    }
  }

  /** What the one member of a structural key costs, and nothing if there is none. */
  lemma {:induction false} PartOnce(members: seq<Member>, n: nat, key: string)
    requires n <= |members| && Once(members, key)
    ensures PartFrom(members, n, key)
      == if exists k :: n <= k < |members| && members[k].key == key then KeyCost(key, Lookup(members, key)) else Cost(0, 0)
    decreases |members| - n
  {
    if n < |members| {
      PartOnce(members, n + 1, key);
      if members[n].key == key { LookupOnce(members, n); }
    }
  }

  lemma TotalCostIs(members: seq<Member>)
    requires Once(members, "usage") && Once(members, "apis")
    ensures CostFrom(members, 0) == TotalCost(members)
  {
    hide PartFrom, KeyCost, Lookup, Once, UsageCost, ApisCost;
    PartIs(members, "usage");
    PartIs(members, "apis");
    KeyCosts(members);
  }

  lemma KeyCosts(members: seq<Member>)
    ensures KeyCost("usage", Lookup(members, "usage")) == UsageCost(Lookup(members, "usage"))
    ensures KeyCost("apis", Lookup(members, "apis")) == ApisCost(Lookup(members, "apis"))
  {
    hide UsageCost, ApisCost;
  }

  lemma PartIs(members: seq<Member>, key: string)
    requires Once(members, key)
    ensures PartFrom(members, 0, key) == KeyCost(key, Lookup(members, key))
  {
    hide PartFrom, Once, Lookup;
    PartOnce(members, 0, key);
    AbsentCosts(members, key);
  }

  lemma AbsentCosts(members: seq<Member>, key: string)
    ensures UsageCost(Null) == Cost(0, 0) && ApisCost(Null) == Cost(0, 0)
    ensures (forall k | 0 <= k < |members| :: members[k].key != key) ==> Lookup(members, key) == Null
  {
    LookupMissing(members, key);
  }

  lemma NotMarked(members: seq<Member>, n: nat, blank: string -> bool)
    requires n < |members| && Unmarked(members, blank)
    ensures members[n].key in {"event_hash", "eventHash"} ==> !MarksEvent(members[n].value, blank)
  {
  }

  /** At a member that neither marks nor repeats anything the pass goes on. */
  lemma InspectNext(members: seq<Member>, n: nat, g: Setting, used: Cost, usage: Option<Json>, apis: Option<Json>)
    requires n < |members|
    requires members[n].key in {"event_hash", "eventHash"} ==> !MarksEvent(members[n].value, g.blank)
    requires members[n].key == "usage" ==> usage.None? && UsageUnambiguous(members[n].value)
    requires members[n].key == "apis" ==> apis.None? && ApisUnambiguous(members[n].value)
    requires Fits(g.limits, Spent(members[n], used))
    ensures InspectFrom(members[n..], g, used, usage, apis)
         == InspectFrom(members[n + 1..], g, Spent(members[n], used),
                        if members[n].key == "usage" then Some(members[n].value) else usage,
                        if members[n].key == "apis" then Some(members[n].value) else apis)
  {
    hide UsageUnambiguous, ApisUnambiguous, MarksEvent, Fits, UsageCost, ApisCost;
    assert members[n..][0] == members[n] && members[n..][1..] == members[n + 1..];
  }

  lemma NotBefore(members: seq<Member>, n: nat)
    requires n < |members| && Once(members, members[n].key)
    ensures members[n].key !in Keys(members)[..n]
  {
    assert forall i | 0 <= i < n :: Keys(members)[..n][i] == members[i].key;
  }

  lemma DecidedAtEnd(members: seq<Member>, g: Setting, used: Cost, usage: Option<Json>, apis: Option<Json>)
    requires MemoryRecord(members).Some? && !g.trailing
    requires usage == if "usage" in Keys(members) then Some(Lookup(members, "usage")) else None
    requires apis == if "apis" in Keys(members) then Some(Lookup(members, "apis")) else None
    ensures InspectFrom([], g, used, usage, apis).Legacy?
  {
    hide ShapeOf;
    LookupMissing(members, "apis");
  }

  lemma {:induction false} UnmarkedIsAccepted(members: seq<Member>, n: nat, g: Setting, used: Cost, usage: Option<Json>, apis: Option<Json>)
    requires n <= |members| && Unmarked(members, g.blank) && Unambiguous(members) && MemoryRecord(members).Some?
    requires !g.trailing && Fits(g.limits, AddCost(used, CostFrom(members, n)))
    requires usage == if "usage" in Keys(members)[..n] then Some(Lookup(members[..n], "usage")) else None
    requires apis == if "apis" in Keys(members)[..n] then Some(Lookup(members[..n], "apis")) else None
    ensures InspectFrom(members[n..], g, used, usage, apis).Legacy?
    decreases |members| - n
  {
    hide MemoryRecord, Unmarked, UsageUnambiguous, ApisUnambiguous, InspectFrom, MarksEvent, Lookup, Once, Fits, UsageCost, ApisCost, CostFrom;
    if n == |members| {
      assert members[..n] == members && Keys(members)[..n] == Keys(members) && members[n..] == [];
      DecidedAtEnd(members, g, used, usage, apis);
    } else {
      var m := members[n];
      NotMarked(members, n, g.blank);
      PrefixStep(members, n, "usage");
      PrefixStep(members, n, "apis");
      if m.key == "usage" || m.key == "apis" {
        LookupOnce(members, n);
        NotBefore(members, n);
      }
      CostNext(members, n);
      SpendLaw(m, used, CostFrom(members, n + 1), g.limits);
      InspectNext(members, n, g, used, usage, apis);
      UnmarkedIsAccepted(members, n + 1, g, Spent(m, used),
                         if m.key == "usage" then Some(m.value) else usage,
                         if m.key == "apis" then Some(m.value) else apis);
    }
  }

  /**
    The inspection pass takes a document for a legacy export exactly when
    nothing marks it as an exported event, no structural key occurs twice, the
    in-memory importer would find a legacy record in it, its endpoint and model
    keys are within the limits, and no data follows.
   */
  lemma AcceptedExactly(members: seq<Member>, g: Setting)
    ensures Inspect(members, g).Legacy?
      <==> Unmarked(members, g.blank) && Unambiguous(members) && MemoryRecord(members).Some?
           && Fits(g.limits, TotalCost(members)) && !g.trailing
  {
    hide Fits, CostFrom, UsageUnambiguous, ApisUnambiguous, InspectFrom, TotalCost;
    assert members[0..] == members;
    assert AddCost(Cost(0, 0), CostFrom(members, 0)) == CostFrom(members, 0);
    assert Fits(g.limits, Cost(0, 0)) by { NothingFits(g.limits); }
    if Inspect(members, g).Legacy? {
      AcceptedMeans(members, 0, g, Cost(0, 0), None, None);
      InspectionFound(members, 0, g, Cost(0, 0), None, None);
      TotalCostIs(members);
      NullUnambiguous();
      LookupMissing(members, "usage");
      LookupMissing(members, "apis");
    } else if Unmarked(members, g.blank) && Unambiguous(members) && MemoryRecord(members).Some?
      && Fits(g.limits, TotalCost(members)) && !g.trailing
    {
      TotalCostIs(members);
      UnmarkedIsAccepted(members, 0, g, Cost(0, 0), None, None);
    }
  }

  lemma NothingFits(limits: Limits)
    ensures Fits(limits, Cost(0, 0))
  {
  }

  lemma NullUnambiguous()
    ensures UsageUnambiguous(Null) && ApisUnambiguous(Null)
  {
  }
}
