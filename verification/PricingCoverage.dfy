/**
  The two coverage checks between permanent core rows and priced rows, and the
  snapshots that are returned only when they hold: hourly rows of sixteen
  metrics, and account rows of fifteen metrics with a first and a last time.
 */
module PricingCoverage {
  import opened CoverageTotals

  // ----- Hourly rows -----

  const HOURLY: nat := 16

  datatype HourKey = HourKey(bucket: int, modelName: string, billing: string, tier: string, failed: bool)

  /** hourlyPricingCoverageMatches: no key of its own, and the same sums under every key. */
  ghost predicate HourlyMatches(core: seq<Row<HourKey>>, prices: seq<Row<HourKey>>) {
    && (forall j | 0 <= j < |prices| :: Present(core, prices[j].key))
    && forall key :: SameSums(core, prices, key)
  }

  /** All sixteen metrics of a key agree, as int64 sums. */
  ghost predicate SameSums(core: seq<Row<HourKey>>, prices: seq<Row<HourKey>>, key: HourKey) {
    forall i: nat | i < HOURLY :: Wrap(Sum(core, key, i)) == Wrap(Sum(prices, key, i))
  }

  ghost predicate Grouped(m: map<HourKey, seq<int>>, rows: seq<Row<HourKey>>) {
    && (forall key :: key in m <==> Present(rows, key))
    && forall key | key in m :: m[key] == Totals(rows, key, HOURLY)
  }

  /** What is left of the core totals after some priced rows were taken off. */
  ghost predicate Remaining(m: map<HourKey, seq<int>>, core: seq<Row<HourKey>>, prices: seq<Row<HourKey>>) {
    && (forall key :: key in m <==> Present(core, key))
    && forall key | key in m :: m[key] == Left(core, prices, key)
  }

  method GroupCore(core: seq<Row<HourKey>>) returns (remaining: map<HourKey, seq<int>>)
    requires Wide(core, HOURLY)
    ensures Grouped(remaining, core)
  {
    hide Sum, Wrap, Totals, Grouped;
    remaining := map[];
    NothingGrouped();
    for n := 0 to |core|
      invariant Grouped(remaining, core[..n])
    {
      var row := core[n];
      assert core[..n + 1] == core[..n] + [row];
      GroupedNext(remaining, core[..n], row);
      var totals := if row.key in remaining then remaining[row.key] else Zeros(HOURLY);
      totals := AddValues(totals, row.values);
      remaining := remaining[row.key := totals];
    }
    assert core[..|core|] == core;
  }

  method HourlyPricingCoverageMatches(core: seq<Row<HourKey>>, prices: seq<Row<HourKey>>) returns (matches: bool)
    requires Wide(core, HOURLY) && Wide(prices, HOURLY)
    ensures matches == HourlyMatches(core, prices)
  {
    hide Sum, Wrap, Totals, Grouped, Remaining, Present, Zeros;
    var remaining := GroupCore(core);
    NothingTakenOff(remaining, core);
    for n := 0 to |prices|
      invariant forall j | 0 <= j < n :: Present(core, prices[j].key)
      invariant Remaining(remaining, core, prices[..n])
    {
      var row := prices[n];
      RemainingKeys(remaining, core, prices[..n], row.key);
      if row.key !in remaining {
        return false;
      }
      assert prices[..n + 1] == prices[..n] + [row];
      RemainingNext(remaining, core, prices[..n], row);
      var totals := SubtractValues(remaining[row.key], row.values);
      remaining := remaining[row.key := totals];
    }
    assert prices[..|prices|] == prices;
    matches := AllZero(remaining);
    ZeroMeansSame(remaining, core, prices);
  }

  method AllZero(remaining: map<HourKey, seq<int>>) returns (zero: bool)
    ensures zero == forall key | key in remaining :: remaining[key] == Zeros(HOURLY)
  {
    var keys := remaining.Keys;
    while keys != {}
      invariant keys <= remaining.Keys
      invariant forall key | key in remaining && key !in keys :: remaining[key] == Zeros(HOURLY)
    {
      var key :| key in keys;
      if remaining[key] != Zeros(HOURLY) {
        return false;
      }
      keys := keys - {key};
    }
    zero := true;
  }

  lemma NothingGrouped()
    ensures Grouped(map[], [])
  {
  }

  lemma GroupedNext(m: map<HourKey, seq<int>>, rows: seq<Row<HourKey>>, row: Row<HourKey>)
    requires Grouped(m, rows) && |row.values| == HOURLY
    ensures row.key in m ==> |m[row.key]| == HOURLY
    ensures Grouped(m[row.key := Plus(if row.key in m then m[row.key] else Zeros(HOURLY), row.values)], rows + [row])
  {
    hide Sum, Wrap, Totals, Present, Plus, Zeros;
    if row.key !in m { TotalsAbsent(rows, row.key, HOURLY); }
    TotalsNext(rows, row, row.key, HOURLY);
    forall key ensures Present(rows + [row], key) <==> Present(rows, key) || row.key == key { PresentNext(rows, row, key); }
    forall key | key in m && key != row.key ensures Totals(rows + [row], key, HOURLY) == Totals(rows, key, HOURLY) {
      TotalsNext(rows, row, key, HOURLY);
    }
  }

  lemma NothingTakenOff(m: map<HourKey, seq<int>>, core: seq<Row<HourKey>>)
    requires Grouped(m, core)
    ensures Remaining(m, core, [])
  {
    forall key | key in m ensures m[key] == Left(core, [], key) {
      assert forall i | 0 <= i < HOURLY :: Sum<HourKey>([], key, i) == 0;
    }
  }

  lemma RemainingKeys(m: map<HourKey, seq<int>>, core: seq<Row<HourKey>>, prices: seq<Row<HourKey>>, key: HourKey)
    requires Remaining(m, core, prices)
    ensures key in m <==> Present(core, key)
    ensures key in m ==> |m[key]| == HOURLY
  {
    hide Present;
  }

  lemma RemainingNext(m: map<HourKey, seq<int>>, core: seq<Row<HourKey>>, prices: seq<Row<HourKey>>, row: Row<HourKey>)
    requires Remaining(m, core, prices) && |row.values| == HOURLY && row.key in m
    ensures |m[row.key]| == HOURLY && Remaining(m[row.key := Minus(m[row.key], row.values)], core, prices + [row])
  {
    hide Left, Present, Minus;
    LeftNext(core, prices, row, row.key);
    forall key | key in m && key != row.key ensures Left(core, prices + [row], key) == Left(core, prices, key) {
      LeftNext(core, prices, row, key);
    }
  }

  lemma ZeroMeansSame(m: map<HourKey, seq<int>>, core: seq<Row<HourKey>>, prices: seq<Row<HourKey>>)
    requires Remaining(m, core, prices) && forall j | 0 <= j < |prices| :: Present(core, prices[j].key)
    ensures HourlyMatches(core, prices) <==> forall key | key in m :: m[key] == Zeros(HOURLY)
  {
    hide Left, Sum, Wrap, Zeros;
    forall key | key in m ensures m[key] == Zeros(HOURLY) <==> SameSums(core, prices, key) { LeftNothing(core, prices, key); }
    forall key | key !in m ensures SameSums(core, prices, key) { AbsentSame(core, prices, key); }
  }

  lemma PresentNext<K>(rows: seq<Row<K>>, row: Row<K>, key: K)
    ensures Present(rows + [row], key) <==> Present(rows, key) || row.key == key
  {
    var all := rows + [row];
    assert all[|rows|] == row && forall i | 0 <= i < |rows| :: all[i] == rows[i];
  }

  /** What is left of a core total after the priced rows were taken off. */
  ghost function Left(core: seq<Row<HourKey>>, prices: seq<Row<HourKey>>, key: HourKey): (r: seq<int>)
    ensures |r| == HOURLY
  {
    seq(HOURLY, i requires 0 <= i < HOURLY => Wrap(Sum(core, key, i) - Sum(prices, key, i)))
  }

  lemma LeftNext(core: seq<Row<HourKey>>, prices: seq<Row<HourKey>>, row: Row<HourKey>, key: HourKey)
    requires |row.values| == HOURLY
    ensures Left(core, prices + [row], key)
      == if row.key == key then Minus(Left(core, prices, key), row.values) else Left(core, prices, key)
  {
    hide Sum, Wrap;
    forall i | 0 <= i < HOURLY
      ensures Left(core, prices + [row], key)[i]
        == if row.key == key then Wrap(Wrap(Sum(core, key, i) - Sum(prices, key, i)) - row.values[i])
           else Wrap(Sum(core, key, i) - Sum(prices, key, i))
    {
      SumConcat(prices, [row], key, i);
      SumOne(row, key, i);
      WrapFacts(Sum(core, key, i) - Sum(prices, key, i), row.values[i]);
    }
  }

  lemma LeftNothing(core: seq<Row<HourKey>>, prices: seq<Row<HourKey>>, key: HourKey)
    ensures Left(core, prices, key) == Zeros(HOURLY) <==> SameSums(core, prices, key)
  {
    hide Sum, Wrap;
    forall i: nat | i < HOURLY
      ensures Left(core, prices, key)[i] == 0 <==> Wrap(Sum(core, key, i)) == Wrap(Sum(prices, key, i))
    {
      WrapFacts(Sum(core, key, i), Sum(prices, key, i));
    }
    if SameSums(core, prices, key) {
      assert forall i | 0 <= i < HOURLY :: Left(core, prices, key)[i] == Zeros(HOURLY)[i];
    }
  }

  lemma AbsentSame(core: seq<Row<HourKey>>, prices: seq<Row<HourKey>>, key: HourKey)
    requires !Present(core, key) && !Present(prices, key)
    ensures SameSums(core, prices, key)
  {
    hide Sum, Wrap, Present;
    forall i: nat | i < HOURLY ensures Wrap(Sum(core, key, i)) == Wrap(Sum(prices, key, i)) {
      SumAbsent(core, key, i);
      SumAbsent(prices, key, i);
    }
  }

  // ----- What the hourly check means -----

  /** Without overflow the sums themselves agree, metric by metric. */
  lemma SameSumsExactly(core: seq<Row<HourKey>>, prices: seq<Row<HourKey>>, key: HourKey, i: nat)
    requires HourlyMatches(core, prices) && i < HOURLY
    requires Int64(Sum(core, key, i)) && Int64(Sum(prices, key, i))
    ensures Sum(core, key, i) == Sum(prices, key, i)
  {
    hide Sum, Wrap, Int64;
    assert SameSums(core, prices, key);
    WrapFacts(Sum(core, key, i), Sum(prices, key, i));
    WrapFacts(Sum(prices, key, i), Sum(core, key, i));
  }

  /** The order of the rows plays no part. */
  lemma OrderPlaysNoPart(core: seq<Row<HourKey>>, prices: seq<Row<HourKey>>, core': seq<Row<HourKey>>, prices': seq<Row<HourKey>>)
    requires multiset(core) == multiset(core') && multiset(prices) == multiset(prices')
    requires HourlyMatches(core, prices)
    ensures HourlyMatches(core', prices')
  {
    hide Sum, Wrap, Present;
    forall j | 0 <= j < |prices'| ensures Present(core', prices'[j].key) {
      assert prices'[j] in multiset(prices);
      var k :| 0 <= k < |prices| && prices[k] == prices'[j];
      PresentPermuted(core, core', prices[k].key);
    }
    forall key ensures SameSums(core', prices', key) {
      assert SameSums(core, prices, key);
      forall i: nat | i < HOURLY ensures Wrap(Sum(core', key, i)) == Wrap(Sum(prices', key, i)) {
        SumPermuted(core, core', key, i);
        SumPermuted(prices, prices', key, i);
      }
    }
  }

  ghost predicate SplitOf(r: Row<HourKey>, x: Row<HourKey>, y: Row<HourKey>) {
    && x.key == r.key && y.key == r.key && |r.values| == |x.values| == |y.values|
    && forall i | 0 <= i < |r.values| :: x.values[i] + y.values[i] == r.values[i]
  }

  /** Neither does how a priced row is split into bands, nor whether it is. */
  lemma BandsPlayNoPart(core: seq<Row<HourKey>>, prices: seq<Row<HourKey>>, k: nat, x: Row<HourKey>, y: Row<HourKey>)
    requires k < |prices| && SplitOf(prices[k], x, y)
    ensures HourlyMatches(core, prices[..k] + [x, y] + prices[k + 1..]) <==> HourlyMatches(core, prices)
  {
    hide Sum, Wrap, Present;
    var split := prices[..k] + [x, y] + prices[k + 1..];
    forall key, i: nat | i < HOURLY ensures Sum(split, key, i) == Sum(prices, key, i) { SumSplit(prices, k, x, y, key, i); }
    assert split[k].key == prices[k].key && split[k + 1].key == prices[k].key;
    assert forall j | 0 <= j < k :: split[j] == prices[j];
    assert forall j | k < j < |prices| :: split[j + 1] == prices[j];
    forall key ensures SameSums(core, split, key) <==> SameSums(core, prices, key) {}
    if HourlyMatches(core, split) {
      forall j | 0 <= j < |prices| ensures Present(core, prices[j].key) {
        var j' := if j <= k then j else j + 1;
        assert split[j'].key == prices[j].key;
      }
    }
    if HourlyMatches(core, prices) {
      forall j | 0 <= j < |split| ensures Present(core, split[j].key) {
        var j' := if j <= k then j else j - 1;
        assert split[j].key == prices[j'].key;
      }
    }
  }

  // ----- LoadUsageHourlyPricingSnapshot -----

  datatype Failure = QueryFailed | PricingFailed | RecoveryFailed | CoverageIncomplete

  datatype Outcome<T> = Success(value: T) | Failed(failure: Failure)

  datatype HourlySnapshot = HourlySnapshot(
    core: seq<Row<HourKey>>, coreAvailable: bool, rows: seq<Row<HourKey>>, available: bool)

  /** What the pricing table, and the retained events, answer. */
  datatype Loaded = Loaded(rows: seq<Row<HourKey>>, available: bool) | NotLoaded(failure: Failure)

  const HOUR_MS: int := 3_600_000

  /** Go's integer division by an hour, which truncates toward zero. */
  function Hours(ms: int): int {
    if ms >= 0 then ms / HOUR_MS else -(-ms / HOUR_MS)
  }

  /** The query's window, and which of its partial hours had events deleted. */
  datatype Window = Window(from: int, to: int, leftDeleted: bool, rightDeleted: bool)

  /** The parts of the window in its first and in its last hour. */
  function LeftEdge(w: Window): (int, int) {
    var next := (Hours(w.from) + 1) * HOUR_MS;
    (w.from, if next < w.to then next else w.to)
  }

  function RightEdge(w: Window): (int, int) {
    var last := Hours(w.to) * HOUR_MS;
    (if last > w.from then last else w.from, w.to)
  }

  /** They are what the window shares with the hour of its start, and with the hour its end falls into. */
  lemma EdgesAreHours(w: Window, t: int)
    requires 0 <= w.from <= w.to
    ensures LeftEdge(w).0 <= t < LeftEdge(w).1 <==> w.from <= t < w.to && t / HOUR_MS == w.from / HOUR_MS
    ensures RightEdge(w).0 <= t < RightEdge(w).1 <==> w.from <= t < w.to && t / HOUR_MS == w.to / HOUR_MS
  {
  }

  /** VerifyRetainedEdgeTx on a range: nothing, or the failure. */
  type Verifier = (int, int) -> Option<Failure>

  datatype Option<T> = None | Some(value: T)

  /** Why an edge does not hold: its events were deleted and it does not verify. */
  ghost predicate Refutes(deleted: bool, edge: (int, int), verify: Verifier) {
    deleted && verify(edge.0, edge.1).Some?
  }

  ghost predicate EdgesHold(w: Window, verify: Verifier) {
    (w.leftDeleted ==> verify(LeftEdge(w).0, LeftEdge(w).1) == None) && (w.rightDeleted ==> verify(RightEdge(w).0, RightEdge(w).1) == None)
  }

  method LoadHourlySnapshot(window: Window, verify: Verifier, core: seq<Row<HourKey>>, coreAvailable: bool, pricing: Loaded, events: Loaded)
    returns (r: Outcome<HourlySnapshot>)
    requires Wide(core, HOURLY) && (pricing.Loaded? ==> Wide(pricing.rows, HOURLY)) && (events.Loaded? ==> Wide(events.rows, HOURLY))
    ensures Refutes(window.leftDeleted, LeftEdge(window), verify)
      ==> r == Failed(verify(LeftEdge(window).0, LeftEdge(window).1).value)
    ensures !Refutes(window.leftDeleted, LeftEdge(window), verify) && Refutes(window.rightDeleted, RightEdge(window), verify)
      ==> r == Failed(verify(RightEdge(window).0, RightEdge(window).1).value)
    ensures r.Success? ==> EdgesHold(window, verify)
    ensures r.Success? ==> r.value.core == core && r.value.coreAvailable == coreAvailable
    ensures r.Success? && coreAvailable ==> r.value.available && HourlyMatches(core, r.value.rows)
    ensures EdgesHold(window, verify) && pricing.Loaded? && (!coreAvailable || (pricing.available && HourlyMatches(core, pricing.rows)))
      ==> r == Success(HourlySnapshot(core, coreAvailable, pricing.rows, pricing.available))
    ensures EdgesHold(window, verify) && !coreAvailable && pricing.NotLoaded? ==> r == Failed(pricing.failure)
    ensures EdgesHold(window, verify) && coreAvailable && !(pricing.Loaded? && pricing.available && HourlyMatches(core, pricing.rows)) ==>
      r == (if events.NotLoaded? then Failed(if events.failure == CoverageIncomplete then CoverageIncomplete else RecoveryFailed)
            else if HourlyMatches(core, events.rows) then Success(HourlySnapshot(core, true, events.rows, true))
            else Failed(CoverageIncomplete))
  {
    if window.leftDeleted {
      var left := LeftEdge(window);
      var failure := verify(left.0, left.1);
      if failure.Some? {
        return Failed(failure.value);
      }
    }
    if window.rightDeleted {
      var right := RightEdge(window);
      var failure := verify(right.0, right.1);
      if failure.Some? {
        return Failed(failure.value);
      }
    }
    var covered := false;
    if pricing.Loaded? {
      covered := HourlyPricingCoverageMatches(core, pricing.rows);
    }
    if coreAvailable && (pricing.NotLoaded? || !pricing.available || !covered) {
      if events.NotLoaded? {
        return Failed(if events.failure == CoverageIncomplete then CoverageIncomplete else RecoveryFailed);
      }
      covered := HourlyPricingCoverageMatches(core, events.rows);
      if !covered {
        return Failed(CoverageIncomplete);
      }
      return Success(HourlySnapshot(core, true, events.rows, true));
    } else if pricing.NotLoaded? {
      return Failed(pricing.failure);
    }
    r := Success(HourlySnapshot(core, coreAvailable, pricing.rows, pricing.available));
  }
}
