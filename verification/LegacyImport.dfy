/**
  The two legacy importers as programs. The streaming one bumps the counters of
  a result object and adds events to a batcher as it meets them in the
  document; the in-memory one loops over sorted keys and appends to a result.
  Each loop is proved against the walk of LegacyDocument it implements, which
  is what LegacyAgreement compares.
 */
module LegacyImport {
  import opened Ordering
  import opened LegacyDocument
  import opened ImportBatcher
  import opened LegacyAgreement

  class StreamResult {
    var failed: nat
    var unsupported: nat

    constructor ()
      ensures failed == 0 && unsupported == 0
    {
      failed, unsupported := 0, 0;
    }
  }

  /** Everything recorded so far. */
  ghost function Sum(batcher: Batcher<Event>, result: StreamResult): Tally
    reads batcher, result
  {
    Tally(batcher.added, result.failed, result.unsupported)
  }

  /** Between the two states, exactly the tally was recorded. */
  twostate predicate Recorded(batcher: Batcher<Event>, result: StreamResult, tally: Tally)
    reads batcher, result
  {
    Sum(batcher, result) == Plus(old(Sum(batcher, result)), tally)
  }

  lemma PlusAssociative(a: Tally, b: Tally, c: Tally)
    ensures Plus(Plus(a, b), c) == Plus(a, Plus(b, c))
    ensures Plus(a, Zero()) == a
  {
    assert a.events + b.events + c.events == a.events + (b.events + c.events);
  }

  lemma DetailsNext(
      accepts: Event -> bool, endpoint: string, model: string, endpointIndex: nat, modelIndex: nat, items: seq<Json>, i: nat)
    requires i < |items|
    ensures Details(accepts, endpoint, model, endpointIndex, modelIndex, items[..i + 1])
         == Plus(Details(accepts, endpoint, model, endpointIndex, modelIndex, items[..i]),
                 Detail(accepts, endpoint, model, endpointIndex, modelIndex, items[i], i))
  {
    assert items[..i + 1][..i] == items[..i];
  }

  lemma WalkNext(members: seq<Member>, key: string, step: Json -> (Tally, bool), i: nat)
    requires i < |members|
    ensures Walk([], key, step) == (Zero(), false)
    ensures var (tally, found) := Walk(members[..i], key, step);
      Walk(members[..i + 1], key, step)
      == if members[i].key == key && !found then (Plus(tally, step(members[i].value).0), step(members[i].value).1) else (tally, found)
  {
    assert members[..i + 1][..i] == members[..i];
  }

  lemma EachMemberNext(members: seq<Member>, visit: (string, Json) -> Tally, i: nat)
    requires i < |members|
    ensures EachMember([], visit) == Zero()
    ensures EachMember(members[..i + 1], visit) == Plus(EachMember(members[..i], visit), visit(members[i].key, members[i].value))
  {
    assert members[..i + 1][..i] == members[..i];
  }

  lemma EachKeyNext(keys: seq<string>, visit: (string, nat) -> Tally, i: nat)
    requires i < |keys|
    ensures EachKey(keys[..i + 1], visit) == Plus(EachKey(keys[..i], visit), visit(keys[i], i + 1))
  {
    assert keys[..i + 1][..i] == keys[..i];
  }

  lemma NothingYet(
      accepts: Event -> bool, endpoint: string, model: string, endpointIndex: nat, modelIndex: nat, visit: (string, nat) -> Tally)
    ensures Details(accepts, endpoint, model, endpointIndex, modelIndex, []) == Zero() && EachKey([], visit) == Zero()
    ensures forall a :: Plus(a, Zero()) == a && Plus(Zero(), a) == a
  {
  }

  /** One request detail: an event, or a failure. */
  method StreamDetailValue(
      accepts: Event -> bool, endpoint: string, model: string, endpointIndex: nat, modelIndex: nat,
      item: Json, index: nat, batcher: Batcher<Event>, result: StreamResult)
    returns (ok: bool)
    requires batcher.Valid()
    modifies batcher, result
    ensures ok ==> batcher.Valid()
    ensures ok ==> Recorded(batcher, result, Detail(accepts, endpoint, model, endpointIndex, modelIndex, item, index))
    ensures batcher.Conserved()
    ensures (forall n :: !batcher.fails(n)) ==> ok
  {
    hide Flatten, Retained, Bounded, AddTo, GreedyState;
    var event := Event(endpoint, model, item, endpointIndex, modelIndex, index);
    if !item.Obj? || !accepts(event) {
      result.failed := result.failed + 1;
      return true;
    }
    ok := batcher.Add(event);
  }

  method StreamDetailsValue(
      accepts: Event -> bool, endpoint: string, model: string, endpointIndex: nat, modelIndex: nat,
      details: Json, batcher: Batcher<Event>, result: StreamResult)
    returns (ok: bool, found: bool)
    requires batcher.Valid()
    modifies batcher, result
    ensures ok ==> batcher.Valid()
    ensures ok ==>
      var (tally, some) := StreamDetails(accepts, endpoint, model, endpointIndex, modelIndex)(details);
      found == some && Recorded(batcher, result, tally)
    ensures batcher.Conserved()
    ensures (forall n :: !batcher.fails(n)) ==> ok
  {
    if !details.Arr? {
      return true, false;
    }
    hide Details, Detail, Plus, Lookup, Flatten, Retained, Bounded;
    NothingYet(accepts, endpoint, model, endpointIndex, modelIndex, (k, n) => Zero());
    var items := details.items;
    ghost var start, seen := Sum(batcher, result), Zero();
    for i := 0 to |items|
      invariant batcher.Valid()
      invariant Details(accepts, endpoint, model, endpointIndex, modelIndex, items[..i]) == seen
      invariant Sum(batcher, result) == Plus(start, seen)
    {
      DetailsNext(accepts, endpoint, model, endpointIndex, modelIndex, items, i);
      ghost var more := Detail(accepts, endpoint, model, endpointIndex, modelIndex, items[i], i);
      PlusAssociative(start, seen, more);
      seen := Plus(seen, more);
      ok := StreamDetailValue(accepts, endpoint, model, endpointIndex, modelIndex, items[i], i, batcher, result);
      if !ok {
        return false, false;
      }
    }
    assert items[..|items|] == items;
    return true, |items| > 0;
  }

  method StreamModelValue(
      accepts: Event -> bool, endpoint: string, model: string, endpointIndex: nat, modelIndex: nat,
      value: Json, batcher: Batcher<Event>, result: StreamResult)
    returns (ok: bool)
    requires batcher.Valid()
    modifies batcher, result
    ensures ok ==> batcher.Valid()
    ensures ok ==> Recorded(batcher, result, StreamModel(accepts, endpoint, model, endpointIndex, modelIndex, value))
    ensures batcher.Conserved()
    ensures (forall n :: !batcher.fails(n)) ==> ok
  {
    if !value.Obj? {
      result.failed := result.failed + 1;
      return true;
    }
    var found := false;
    ghost var step := StreamDetails(accepts, endpoint, model, endpointIndex, modelIndex);
    ghost var start, seen := Sum(batcher, result), Zero();
    for i := 0 to |value.members|
      invariant batcher.Valid()
      invariant Walk(value.members[..i], "details", step) == (seen, found)
      invariant Sum(batcher, result) == Plus(start, seen)
    {
      WalkNext(value.members, "details", step, i);
      if value.members[i].key == "details" && !found {
        var streamed, now := StreamDetailsValue(
          accepts, endpoint, model, endpointIndex, modelIndex, value.members[i].value, batcher, result);
        if !streamed {
          return false;
        }
        found := now;
        ghost var more := step(value.members[i].value).0;
        PlusAssociative(start, seen, more);
        seen := Plus(seen, more);
      }
    }
    assert value.members[..|value.members|] == value.members;
    if !found {
      PlusAssociative(start, seen, Unsupported());
      result.unsupported := result.unsupported + 1;
    }
    return true;
  }

  method StreamModelsValue(
      accepts: Event -> bool, endpoint: string, endpointIndex: nat, ranks: map<string, nat>,
      models: Json, batcher: Batcher<Event>, result: StreamResult)
    returns (ok: bool, found: bool)
    requires batcher.Valid()
    modifies batcher, result
    ensures ok ==> batcher.Valid()
    ensures ok ==>
      var (tally, some) := StreamModels(accepts, endpoint, endpointIndex, ranks)(models);
      found == some && Recorded(batcher, result, tally)
    ensures batcher.Conserved()
    ensures (forall n :: !batcher.fails(n)) ==> ok
  {
    if !models.Obj? {
      return true, false;
    }
    ghost var visit := VisitModel(accepts, endpoint, endpointIndex, ranks);
    ghost var start, seen := Sum(batcher, result), Zero();
    for i := 0 to |models.members|
      invariant batcher.Valid()
      invariant EachMember(models.members[..i], visit) == seen
      invariant Sum(batcher, result) == Plus(start, seen)
    {
      EachMemberNext(models.members, visit, i);
      var model := models.members[i].key;
      ok := StreamModelValue(
        accepts, endpoint, model, endpointIndex, RankOf(ranks, model), models.members[i].value, batcher, result);
      if !ok {
        return false, false;
      }
      ghost var more := visit(model, models.members[i].value);
      PlusAssociative(start, seen, more);
      seen := Plus(seen, more);
    }
    assert models.members[..|models.members|] == models.members;
    return true, true;
  }

  method StreamEndpointValue(
      accepts: Event -> bool, endpoint: string, endpointIndex: nat, ranks: map<string, nat>,
      value: Json, batcher: Batcher<Event>, result: StreamResult)
    returns (ok: bool)
    requires batcher.Valid()
    modifies batcher, result
    ensures ok ==> batcher.Valid()
    ensures ok ==> Recorded(batcher, result, StreamEndpoint(accepts, endpoint, endpointIndex, ranks, value))
    ensures batcher.Conserved()
    ensures (forall n :: !batcher.fails(n)) ==> ok
  {
    if !value.Obj? {
      result.failed := result.failed + 1;
      return true;
    }
    var found := false;
    ghost var step := StreamModels(accepts, endpoint, endpointIndex, ranks);
    ghost var start, seen := Sum(batcher, result), Zero();
    for i := 0 to |value.members|
      invariant batcher.Valid()
      invariant Walk(value.members[..i], "models", step) == (seen, found)
      invariant Sum(batcher, result) == Plus(start, seen)
    {
      WalkNext(value.members, "models", step, i);
      if value.members[i].key == "models" && !found {
        var streamed, now := StreamModelsValue(
          accepts, endpoint, endpointIndex, ranks, value.members[i].value, batcher, result);
        if !streamed {
          return false;
        }
        found := now;
        ghost var more := step(value.members[i].value).0;
        PlusAssociative(start, seen, more);
        seen := Plus(seen, more);
      }
    }
    assert value.members[..|value.members|] == value.members;
    if !found {
      PlusAssociative(start, seen, Failed());
      result.failed := result.failed + 1;
    }
    return true;
  }

  method StreamApisValue(accepts: Event -> bool, shape: Shape, apis: Json, batcher: Batcher<Event>, result: StreamResult)
    returns (ok: bool, found: bool)
    requires batcher.Valid()
    modifies batcher, result
    ensures ok ==> batcher.Valid()
    ensures ok ==>
      var (tally, some) := StreamApis(accepts, shape)(apis);
      found == some && Recorded(batcher, result, tally)
    ensures batcher.Conserved()
    ensures (forall n :: !batcher.fails(n)) ==> ok
  {
    if !apis.Obj? {
      return true, false;
    }
    ghost var visit := VisitEndpoint(accepts, shape);
    ghost var start, seen := Sum(batcher, result), Zero();
    for i := 0 to |apis.members|
      invariant batcher.Valid()
      invariant EachMember(apis.members[..i], visit) == seen
      invariant Sum(batcher, result) == Plus(start, seen)
    {
      EachMemberNext(apis.members, visit, i);
      var endpoint := apis.members[i].key;
      ok := StreamEndpointValue(
        accepts, endpoint, RankOf(shape.endpointRanks, endpoint), RanksOf(shape.modelRanks, endpoint),
        apis.members[i].value, batcher, result);
      if !ok {
        return false, false;
      }
      ghost var more := visit(endpoint, apis.members[i].value);
      PlusAssociative(start, seen, more);
      seen := Plus(seen, more);
    }
    assert apis.members[..|apis.members|] == apis.members;
    return true, true;
  }

  method StreamUsageValue(accepts: Event -> bool, shape: Shape, usage: Json, batcher: Batcher<Event>, result: StreamResult)
    returns (ok: bool, found: bool)
    requires batcher.Valid()
    modifies batcher, result
    ensures ok ==> batcher.Valid()
    ensures ok ==>
      var (tally, some) := StreamUsage(accepts, shape)(usage);
      found == some && Recorded(batcher, result, tally)
    ensures batcher.Conserved()
    ensures (forall n :: !batcher.fails(n)) ==> ok
  {
    if !usage.Obj? {
      return true, false;
    }
    found := false;
    ghost var step := StreamApis(accepts, shape);
    ghost var start, seen := Sum(batcher, result), Zero();
    for i := 0 to |usage.members|
      invariant batcher.Valid()
      invariant Walk(usage.members[..i], "apis", step) == (seen, found)
      invariant Sum(batcher, result) == Plus(start, seen)
    {
      WalkNext(usage.members, "apis", step, i);
      if usage.members[i].key == "apis" && !found {
        ok, found := StreamApisValue(accepts, shape, usage.members[i].value, batcher, result);
        if !ok {
          return;
        }
        ghost var more := step(usage.members[i].value).0;
        PlusAssociative(start, seen, more);
        seen := Plus(seen, more);
      }
    }
    assert usage.members[..|usage.members|] == usage.members;
    ok := true;
  }

  method StreamStructuralValue(accepts: Event -> bool, shape: Shape, value: Json, batcher: Batcher<Event>, result: StreamResult)
    returns (ok: bool, found: bool)
    requires batcher.Valid()
    modifies batcher, result
    ensures ok ==> batcher.Valid()
    ensures ok ==>
      var (tally, some) := StreamStructural(accepts, shape)(value);
      found == some && Recorded(batcher, result, tally)
    ensures batcher.Conserved()
    ensures (forall n :: !batcher.fails(n)) ==> ok
  {
    if shape.wrapped {
      ok, found := StreamUsageValue(accepts, shape, value, batcher, result);
    } else {
      ok, found := StreamApisValue(accepts, shape, value, batcher, result);
    }
  }

  datatype Verdict = Imported | NoDetails | ConsumerFailed

  method StreamMembers(accepts: Event -> bool, shape: Shape, members: seq<Member>, batcher: Batcher<Event>, result: StreamResult)
    returns (ok: bool, processed: bool)
    requires batcher.Valid()
    modifies batcher, result
    ensures ok ==> batcher.Valid()
    ensures ok ==>
      var (tally, some) := StreamDocument(accepts, shape, members);
      processed == some && Recorded(batcher, result, tally)
    ensures batcher.Conserved()
    ensures (forall n :: !batcher.fails(n)) ==> ok
  {
    processed := false;
    ghost var step := StreamStructural(accepts, shape);
    ghost var start, seen := Sum(batcher, result), Zero();
    for i := 0 to |members|
      invariant batcher.Valid()
      invariant Walk(members[..i], StructuralKey(shape), step) == (seen, processed)
      invariant Sum(batcher, result) == Plus(start, seen)
    {
      assert members[..i + 1][..i] == members[..i];
      if members[i].key == StructuralKey(shape) && !processed {
        ok, processed := StreamStructuralValue(accepts, shape, members[i].value, batcher, result);
        if !ok {
          return;
        }
        ghost var more := step(members[i].value).0;
        PlusAssociative(start, seen, more);
        seen := Plus(seen, more);
      }
    }
    assert members[..|members|] == members;
    ok := true;
  }

  /** streamLegacyObjectImport, up to the decoder: a whole document into an unused batcher. */
  method StreamLegacyObject(accepts: Event -> bool, shape: Shape, members: seq<Member>, batcher: Batcher<Event>)
    returns (verdict: Verdict, result: StreamResult)
    requires batcher.Valid() && batcher.added == []
    modifies batcher
    ensures batcher.Conserved()
    ensures (forall n :: !batcher.fails(n)) ==> !verdict.ConsumerFailed?
    ensures !verdict.ConsumerFailed? ==>
      var (tally, processed) := StreamDocument(accepts, shape, members);
      && Sum(batcher, result) == tally
      && verdict == if !processed || |tally.events| == 0 then NoDetails else Imported
    ensures verdict.Imported? ==> Flatten(batcher.committed) == batcher.added
  {
    result := new StreamResult();
    ghost var tally := StreamDocument(accepts, shape, members).0;
    assert Plus(Zero(), tally) == tally;
    var ok, processed := StreamMembers(accepts, shape, members, batcher, result);
    if !ok {
      return ConsumerFailed, result;
    }
    if !processed || batcher.total == 0 {
      return NoDetails, result;
    }
    var flushed := batcher.Flush();
    verdict := if flushed then Imported else ConsumerFailed;
  }

  // ----- In memory -----

  class ParseResult {
    var events: seq<Event>
    var failed: nat
    var unsupported: nat

    constructor ()
      ensures Recorded() == Zero()
    {
      events, failed, unsupported := [], 0, 0;
    }

    ghost function Recorded(): Tally
      reads this
    {
      Tally(events, failed, unsupported)
    }
  }

  method ParseDetail(
      accepts: Event -> bool, endpoint: string, model: string, endpointIndex: nat, modelIndex: nat, item: Json, index: nat, result: ParseResult)
    modifies result
    ensures result.Recorded() == Plus(old(result.Recorded()), Detail(accepts, endpoint, model, endpointIndex, modelIndex, item, index))
  {
    var event := Event(endpoint, model, item, endpointIndex, modelIndex, index);
    if !item.Obj? || !accepts(event) {
      result.failed := result.failed + 1;
    } else {
      result.events := result.events + [event];
    }
  }

  method ParseModel(
      accepts: Event -> bool, endpoint: string, model: string, endpointIndex: nat, modelIndex: nat,
      value: Json, result: ParseResult)
    modifies result
    ensures result.Recorded()
         == Plus(old(result.Recorded()), MemoryModel(accepts, endpoint, model, endpointIndex, modelIndex, value))
  {
    if !value.Obj? {
      result.failed := result.failed + 1;
      return;
    }
    var details := Lookup(value.members, "details");
    if !details.Arr? || |details.items| == 0 {
      result.unsupported := result.unsupported + 1;
      return;
    }
    hide Details, Detail, Plus, Lookup;
    NothingYet(accepts, endpoint, model, endpointIndex, modelIndex, (k, n) => Zero());
    var items := details.items;
    ghost var start, seen := result.Recorded(), Zero();
    for i := 0 to |items|
      invariant Details(accepts, endpoint, model, endpointIndex, modelIndex, items[..i]) == seen
      invariant result.Recorded() == Plus(start, seen)
    {
      DetailsNext(accepts, endpoint, model, endpointIndex, modelIndex, items, i);
      ghost var more := Detail(accepts, endpoint, model, endpointIndex, modelIndex, items[i], i);
      PlusAssociative(start, seen, more);
      seen := Plus(seen, more);
      ParseDetail(accepts, endpoint, model, endpointIndex, modelIndex, items[i], i, result);
    }
    assert items[..|items|] == items;
  }

  method ParseEndpoint(accepts: Event -> bool, endpoint: string, endpointIndex: nat, value: Json, result: ParseResult)
    modifies result
    ensures result.Recorded() == Plus(old(result.Recorded()), MemoryEndpoint(accepts, endpoint, endpointIndex, value))
  {
    if !value.Obj? || !Lookup(value.members, "models").Obj? {
      result.failed := result.failed + 1;
      return;
    }
    hide Lookup, SortedKeys, EachKey, MemoryModel;
    NothingYet(_ => true, "", "", 0, 0, RecallModel(accepts, endpoint, endpointIndex, Lookup(value.members, "models").members));
    var models := Lookup(value.members, "models").members;
    var keys := SortedKeys(models);
    ghost var visit := RecallModel(accepts, endpoint, endpointIndex, models);
    ghost var start, seen := result.Recorded(), Zero();
    for i := 0 to |keys|
      invariant EachKey(keys[..i], visit) == seen
      invariant result.Recorded() == Plus(start, seen)
    {
      EachKeyNext(keys, visit, i);
      ParseModel(accepts, endpoint, keys[i], endpointIndex, i + 1, Lookup(models, keys[i]), result);
      ghost var more := visit(keys[i], i + 1);
      PlusAssociative(start, seen, more);
      seen := Plus(seen, more);
    }
    assert keys[..|keys|] == keys;
  }

  /** eventsFromLegacyUsage: without an `apis` object the record is unsupported, without events it has no details. */
  method EventsFromLegacyUsage(accepts: Event -> bool, record: seq<Member>) returns (result: ParseResult, noDetails: bool)
    ensures !Lookup(record, "apis").Obj? ==> result.Recorded() == Unsupported() && noDetails
    ensures Lookup(record, "apis").Obj? ==>
      var tally := MemoryUsage(accepts, Lookup(record, "apis").members);
      result.Recorded() == tally && noDetails == (|tally.events| == 0)
  {
    result := new ParseResult();
    if !Lookup(record, "apis").Obj? {
      result.unsupported := 1;
      return result, true;
    }
    hide Lookup, SortedKeys, EachKey, MemoryEndpoint;
    NothingYet(_ => true, "", "", 0, 0, RecallEndpoint(accepts, Lookup(record, "apis").members));
    var apis := Lookup(record, "apis").members;
    var keys := SortedKeys(apis);
    ghost var visit := RecallEndpoint(accepts, apis);
    ghost var seen := Zero();
    for i := 0 to |keys|
      invariant EachKey(keys[..i], visit) == seen
      invariant result.Recorded() == seen
    {
      EachKeyNext(keys, visit, i);
      ParseEndpoint(accepts, keys[i], i + 1, Lookup(apis, keys[i]), result);
      seen := Plus(seen, visit(keys[i], i + 1));
    }
    assert keys[..|keys|] == keys;
    noDetails := |result.events| == 0;
  }

  // ----- Ranks -----

  /** rankSortedStrings, on any permutation of the keys the inspection pass collected. */
  method RankSortedStrings(values: seq<string>, ghost keys: seq<string>) returns (ranks: map<string, nat>)
    requires multiset(values) == multiset(keys)
    ensures ranks == Ranks(keys)
    ensures Distinct(values) ==> forall key :: key in ranks <==> key in values
    ensures Distinct(values) ==> forall key | key in values :: ranks[key] == 1 + |set k | k in values && Precedes(k, key)|
  {
    hide Precedes, AtMost;
    RanksIgnoreOrder(values, keys);
    if Distinct(values) { RanksArePlaces(values); }
    var sorted := Sort(AtMost, values);
    ranks := map[];
    for i := 0 to |sorted|
      invariant ranks == Positions(sorted[..i])
    {
      assert sorted[..i + 1][..i] == sorted[..i];
      ranks := ranks[sorted[i] := i + 1];
    }
    assert sorted[..|sorted|] == sorted;
  }
}
