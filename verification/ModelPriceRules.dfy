/**
  Context-size prices: validating and sorting the tiers, selecting the tier of
  a request, resolving a recorded band later, and what it means to price the
  token totals of a band instead of every request.
 */
module ModelPriceRules {
  import opened Ordering

  datatype Option<T> = None | Some(value: T)

  /** A float64 price as far as validation looks at it. */
  datatype Amount = Finite(value: real) | NotANumber | Infinite

  datatype Override = Override(amount: Amount, configured: bool)

  /** The five prices a rule may set; an explicit zero is configured, a missing price is not. */
  datatype Overrides = Overrides(prompt: Override, completion: Override, cache: Override, cacheRead: Override, cacheCreation: Override)

  datatype Tier = Tier(threshold: int, rates: Overrides)

  datatype Price = Price(prompt: Override, completion: Override, cache: Amount, cacheRead: Override, cacheCreation: Override,
                         tiers: seq<Tier>)

  const BASE_BAND: int := -1

  // ----- NormalizeModelPriceContextTiers -----

  predicate ValidAmount(a: Amount) {
    a.Finite? && a.value >= 0.0
  }

  predicate ValidOverrides(o: Overrides) {
    && ValidAmount(o.prompt.amount) && ValidAmount(o.completion.amount) && ValidAmount(o.cache.amount)
    && ValidAmount(o.cacheRead.amount) && ValidAmount(o.cacheCreation.amount)
    && (o.prompt.configured || o.completion.configured || o.cache.configured || o.cacheRead.configured || o.cacheCreation.configured)
  }

  predicate ValidTier(t: Tier) {
    t.threshold > 0 && ValidOverrides(t.rates)
  }

  /** What the tiers must be like, in whatever order they are given. */
  ghost predicate Acceptable(tiers: seq<Tier>) {
    && (forall i | 0 <= i < |tiers| :: ValidTier(tiers[i]))
    && forall i, j | 0 <= i < j < |tiers| :: tiers[i].threshold != tiers[j].threshold
  }

  /** A rule's prices as a user gives them: none missing a value or negative, and at least one set. */
  ghost predicate Sensible(o: Overrides) {
    var prices := [o.prompt, o.completion, o.cache, o.cacheRead, o.cacheCreation];
    && (forall p | p in prices :: p.amount.Finite? && 0.0 <= p.amount.value)
    && exists p | p in prices :: p.configured
  }

  lemma SensibleIsValid(o: Overrides)
    ensures Sensible(o) <==> ValidOverrides(o)
  {
    var prices := [o.prompt, o.completion, o.cache, o.cacheRead, o.cacheCreation];
    assert prices[0] in prices && prices[1] in prices && prices[2] in prices && prices[3] in prices && prices[4] in prices;
  }

  /** The tiers that are accepted: positive and different thresholds, and sensible prices. */
  lemma AcceptedTiers(tiers: seq<Tier>)
    ensures Acceptable(tiers)
      <==> (forall t | t in tiers :: t.threshold >= 1 && Sensible(t.rates))
           && forall i, j | 0 <= i < j < |tiers| :: tiers[i].threshold != tiers[j].threshold
  {
    hide Sensible, ValidOverrides;
    forall o ensures Sensible(o) <==> ValidOverrides(o) { SensibleIsValid(o); }
  }

  ghost predicate Increasing(tiers: seq<Tier>) {
    forall i, j | 0 <= i < j < |tiers| :: tiers[i].threshold < tiers[j].threshold
  }

  predicate Lower(a: Tier, b: Tier) {
    a.threshold <= b.threshold
  }

  lemma LowerIsTotalOrder()
    ensures TotalOrder(Lower)
  {
  }

  lemma PermutedAcceptable(a: seq<Tier>, b: seq<Tier>)
    requires multiset(a) == multiset(b) && Acceptable(a)
    ensures Acceptable(b)
  {
    DistinctPermutation(a, b);
    forall i | 0 <= i < |b| ensures ValidTier(b[i]) && exists k :: 0 <= k < |a| && a[k] == b[i] {
      assert b[i] in multiset(a);
    }
  }

  /** Accepted exactly when valid and distinct; then the same tiers, strictly increasing. The input is not changed. */
  method NormalizeContextTiers(tiers: seq<Tier>) returns (r: Option<seq<Tier>>)
    ensures r.Some? <==> Acceptable(tiers)
    ensures r.Some? ==> multiset(r.value) == multiset(tiers) && Increasing(r.value)
  {
    if |tiers| == 0 {
      return Some([]);
    }
    LowerIsTotalOrder();
    var sorted := Sort(Lower, tiers);
    SortSorted(Lower, tiers);
    for i := 0 to |sorted|
      invariant forall j | 0 <= j < i :: ValidTier(sorted[j])
      invariant forall j, k | 0 <= j < k < i :: sorted[j].threshold < sorted[k].threshold
    {
      if !ValidTier(sorted[i]) || (i > 0 && sorted[i - 1].threshold == sorted[i].threshold) {
        if Acceptable(tiers) { PermutedAcceptable(tiers, sorted); }
        return None;
      }
      if i > 0 { assert Lower(sorted[i - 1], sorted[i]); }
    }
    PermutedAcceptable(sorted, tiers);
    r := Some(sorted);
  }

  /** There is only one normal form: the order the tiers were written in is forgotten. */
  lemma NormalFormIsUnique(a: seq<Tier>, b: seq<Tier>)
    requires multiset(a) == multiset(b) && Increasing(a) && Increasing(b)
    ensures a == b
  {
    UniqueSortedPermutation(Lower, a, b);
  }

  // ----- SelectModelPriceContextTier -----

  function Select(tiers: seq<Tier>, tokens: int): Option<Tier> {
    if |tiers| == 0 || tokens <= tiers[0].threshold then None
    else
      match Select(tiers[1..], tokens)
      case None => Some(tiers[0])
      case Some(t) => Some(t)
  }

  method SelectContextTier(tiers: seq<Tier>, tokens: int) returns (selected: Option<Tier>)
    ensures selected == Select(tiers, tokens)
  {
    selected := None;
    for i := 0 to |tiers|
      invariant Select(tiers, tokens) == if Select(tiers[i..], tokens).Some? then Select(tiers[i..], tokens) else selected
    {
      assert tiers[i..][0] == tiers[i] && tiers[i..][1..] == tiers[i + 1..];
      if tokens <= tiers[i].threshold {
        break;
      }
      selected := Some(tiers[i]);
    }
  }

  ghost predicate Below(tiers: seq<Tier>, tokens: int, t: Tier) {
    && t in tiers && t.threshold < tokens
    && forall i | 0 <= i < |tiers| && tiers[i].threshold < tokens :: tiers[i].threshold <= t.threshold
  }

  /** The early exit finds the greatest threshold strictly below the token count. */
  lemma {:induction false} SelectsGreatestBelow(tiers: seq<Tier>, tokens: int)
    requires Increasing(tiers)
    ensures match Select(tiers, tokens)
            case None => forall i | 0 <= i < |tiers| :: tokens <= tiers[i].threshold
            case Some(t) => Below(tiers, tokens, t)
  {
    if |tiers| > 0 {
      assert forall i | 0 <= i < |tiers| - 1 :: tiers[1..][i] == tiers[i + 1];
      SelectsGreatestBelow(tiers[1..], tokens);
    }
  }

  // ----- Applying and resolving -----

  function Pick(o: Override, base: Override): Override {
    if o.configured then o else base
  }

  /** The whole rate set for a request: configured prices replace the base, the others stay. */
  function Apply(price: Price, o: Overrides): Price {
    Price(Pick(o.prompt, price.prompt), Pick(o.completion, price.completion),
          if o.cache.configured then o.cache.amount else price.cache,
          Pick(o.cacheRead, price.cacheRead), Pick(o.cacheCreation, price.cacheCreation), [])
  }

  function PriceForContext(price: Price, tokens: int): (Price, int) {
    match Select(price.tiers, tokens)
    case None => (price, BASE_BAND)
    case Some(t) => (Apply(price, t.rates), t.threshold)
  }

  function FindTier(tiers: seq<Tier>, threshold: int): Option<Tier> {
    if |tiers| == 0 then None
    else if tiers[0].threshold == threshold then Some(tiers[0])
    else FindTier(tiers[1..], threshold)
  }

  /** ModelPriceForContextThreshold. */
  function PriceForThreshold(price: Price, threshold: int): Option<Price> {
    if threshold == BASE_BAND then Some(price.(tiers := []))
    else if threshold <= 0 then None
    else
      match FindTier(price.tiers, threshold)
      case None => None
      case Some(t) => Some(Apply(price, t.rates))
  }

  lemma {:induction false} FindsTier(tiers: seq<Tier>, t: Tier)
    requires Increasing(tiers) && t in tiers
    ensures FindTier(tiers, t.threshold) == Some(t)
  {
    if tiers[0] != t {
      assert t in tiers[1..];
      var i :| 1 <= i < |tiers| && tiers[i] == t;
      FindsTier(tiers[1..], t);
    }
  }

  ghost predicate Normalized(price: Price) {
    Acceptable(price.tiers) && Increasing(price.tiers)
  }

  /** Resolving the recorded band later gives the rates the request was given. */
  lemma BandResolvesToSameRates(price: Price, tokens: int)
    requires Normalized(price)
    ensures var (rates, band) := PriceForContext(price, tokens);
      PriceForThreshold(price, band) == Some(rates.(tiers := []))
  {
    SelectsGreatestBelow(price.tiers, tokens);
    match Select(price.tiers, tokens)
    case None =>
    case Some(t) =>
      FindsTier(price.tiers, t);
      var i :| 0 <= i < |price.tiers| && price.tiers[i] == t;
      assert ValidTier(t);
  }

  /** Each price a rule configures, an explicit zero too, replaces the base price, and no other does. */
  ghost predicate Replaces(rates: Price, base: Price, o: Overrides) {
    && rates.prompt == (if o.prompt.configured then o.prompt else base.prompt)
    && rates.completion == (if o.completion.configured then o.completion else base.completion)
    && rates.cache == (if o.cache.configured then o.cache.amount else base.cache)
    && rates.cacheRead == (if o.cacheRead.configured then o.cacheRead else base.cacheRead)
    && rates.cacheCreation == (if o.cacheCreation.configured then o.cacheCreation else base.cacheCreation)
  }

  /** What a request is charged: the tier with the greatest threshold below its tokens over the base prices, or the base prices if none is below. */
  lemma RequestRates(price: Price, tokens: int)
    requires Normalized(price)
    ensures var (rates, band) := PriceForContext(price, tokens);
      if exists t :: t in price.tiers && t.threshold < tokens then
        exists t :: Below(price.tiers, tokens, t) && band == t.threshold && Replaces(rates, price, t.rates)
      else rates == price && band == -1
  {
    SelectsGreatestBelow(price.tiers, tokens);
    match Select(price.tiers, tokens)
    case None =>
    case Some(t) => assert Below(price.tiers, tokens, t) && Replaces(Apply(price, t.rates), price, t.rates);
  }
}
