/**
  Costs over exact arithmetic. Usage is rolled up per context band and priced
  from the totals of each band; this is compared with pricing every request at
  the rates of its own size.
 */
module BandPricing {
  import opened Ordering
  import opened ModelPriceRules

  // ----- Costs -----

  /** The five rates a segment is priced with. */
  datatype Rates = Rates(prompt: real, cache: real, cacheRead: real, cacheCreation: real, completion: real)

  function Value(a: Amount): real {
    if a.Finite? then a.value else 0.0
  }

  predicate Configured(o: Override) {
    o.configured || Value(o.amount) > 0.0
  }

  function RatesOf(price: Price): Rates {
    var prompt := Value(price.prompt.amount);
    var read := if Configured(price.cacheRead) then Value(price.cacheRead.amount)
                else if Value(price.cache) > 0.0 then Value(price.cache) else prompt * 0.1;
    var creation := if Configured(price.cacheCreation) then Value(price.cacheCreation.amount) else prompt;
    Rates(prompt, Value(price.cache), read, creation, Value(price.completion.amount))
  }

  datatype Usage = Usage(input: nat, output: nat, cached: nat, cacheRead: nat, cacheCreation: nat)

  /** Input that is neither read from nor written to a cache; negative when the reports do not add up. */
  function Fresh(u: Usage): int {
    u.input - (u.cached + u.cacheRead) - u.cacheCreation
  }

  function Billed(u: Usage): nat {
    if Fresh(u) > 0 then Fresh(u) else 0
  }

  /** costForSegment, with its multipliers in the rates. */
  function Cost(r: Rates, u: Usage): real {
    (Billed(u) as real * r.prompt + u.cached as real * r.cache + u.cacheRead as real * r.cacheRead
     + u.cacheCreation as real * r.cacheCreation + u.output as real * r.completion) / 1000000.0
  }

  /**
    Every token is charged once: at one rate for all a request costs that rate for
    its input and output, or for what is reported of caches if that exceeds the
    input.
   */
  lemma EveryTokenOnce(u: Usage, p: real)
    ensures var cached := u.cached + u.cacheRead + u.cacheCreation;
      Cost(Rates(p, p, p, p, p), u) == ((if cached <= u.input then u.input else cached) + u.output) as real * p / 1000000.0
  {
    var cached := u.cached + u.cacheRead + u.cacheCreation;
    assert Billed(u) + cached == if cached <= u.input then u.input else cached;
    Distribute(Billed(u), u.cached, p);
    Distribute(Billed(u) + u.cached, u.cacheRead, p);
    Distribute(Billed(u) + u.cached + u.cacheRead, u.cacheCreation, p);
    Distribute(Billed(u) + cached, u.output, p);
  }

  /**
    A cache price that is set, an explicit zero too, is charged; a read price that
    is not set is the general cache price or a tenth of the prompt, a creation
    price that is not set the prompt's.
   */
  lemma CachePricesFallBack(price: Price)
    requires price.cacheRead.amount.Finite? && price.cacheCreation.amount.Finite? && price.cache.Finite? && price.prompt.amount.Finite?
    ensures var r, prompt, read, creation := RatesOf(price), price.prompt.amount.value, price.cacheRead, price.cacheCreation;
      && r.prompt == prompt && r.cache == price.cache.value
      && (read.configured || read.amount.value > 0.0 ==> r.cacheRead == read.amount.value)
      && (!read.configured && read.amount.value <= 0.0 ==>
            r.cacheRead == if price.cache.value > 0.0 then price.cache.value else prompt / 10.0)
      && (creation.configured || creation.amount.value > 0.0 ==> r.cacheCreation == creation.amount.value)
      && (!creation.configured && creation.amount.value <= 0.0 ==> r.cacheCreation == prompt)
  {
  }

  function Add(a: Usage, b: Usage): Usage {
    Usage(a.input + b.input, a.output + b.output, a.cached + b.cached, a.cacheRead + b.cacheRead, a.cacheCreation + b.cacheCreation)
  }

  function Total(us: seq<Usage>): Usage {
    if |us| == 0 then Usage(0, 0, 0, 0, 0) else Add(Total(us[..|us| - 1]), us[|us| - 1])
  }

  function CostEach(r: Rates, us: seq<Usage>): real {
    if |us| == 0 then 0.0 else CostEach(r, us[..|us| - 1]) + Cost(r, us[|us| - 1])
  }

  function BilledEach(us: seq<Usage>): nat {
    if |us| == 0 then 0 else BilledEach(us[..|us| - 1]) + Billed(us[|us| - 1])
  }

  /** Some requests report more cached than input tokens while others do not. */
  ghost predicate Mixed(us: seq<Usage>) {
    exists i, j :: 0 <= i < |us| && 0 <= j < |us| && Fresh(us[i]) > 0 && Fresh(us[j]) < 0
  }

  lemma FreshAdds(a: Usage, b: Usage)
    ensures Fresh(Add(a, b)) == Fresh(a) + Fresh(b)
  {
  }

  ghost predicate NoneBelow(us: seq<Usage>) {
    forall i | 0 <= i < |us| :: Fresh(us[i]) >= 0
  }

  ghost predicate NoneAbove(us: seq<Usage>) {
    forall i | 0 <= i < |us| :: Fresh(us[i]) <= 0
  }

  lemma MixedOrNot(us: seq<Usage>)
    ensures Mixed(us) <==> !NoneBelow(us) && !NoneAbove(us)
  {
    hide Fresh;
    if !NoneBelow(us) && !NoneAbove(us) {
      var i :| 0 <= i < |us| && Fresh(us[i]) < 0;
      var j :| 0 <= j < |us| && Fresh(us[j]) > 0;
    }
  }

  lemma {:induction false} BilledTotals(us: seq<Usage>)
    ensures Fresh(Total(us)) <= BilledEach(us)
    ensures BilledEach(us) == 0 <==> NoneAbove(us)
    ensures BilledEach(us) == Fresh(Total(us)) <==> NoneBelow(us)
  {
    hide Fresh;
    if |us| > 0 {
      var n := |us| - 1;
      var rest := us[..n];
      BilledTotals(rest);
      FreshAdds(Total(rest), us[n]);
      assert forall i | 0 <= i < n :: rest[i] == us[i];
      assert NoneAbove(us) <==> NoneAbove(rest) && Fresh(us[n]) <= 0;
      assert NoneBelow(us) <==> NoneBelow(rest) && Fresh(us[n]) >= 0;
    } else {
      assert Fresh(Total(us)) == 0 by { NoUsage(); }
    }
  }

  lemma NoUsage()
    ensures Fresh(Total([])) == 0
  {
  }

  /** Clamping the total at zero instead of every request loses nothing exactly when the signs do not mix. */
  lemma ClampGap(us: seq<Usage>)
    ensures BilledEach(us) >= Billed(Total(us))
    ensures BilledEach(us) == Billed(Total(us)) <==> !Mixed(us)
  {
    hide Fresh, BilledEach, Mixed, NoneAbove, NoneBelow;
    BilledTotals(us);
    MixedOrNot(us);
  }

  // ----- One band -----

  lemma Distribute(a: int, b: int, p: real)
    ensures (a + b) as real * p == a as real * p + b as real * p
  {
    assert (a + b) as real == a as real + b as real;
  }

  /** The part of a cost that the clamp plays no part in. */
  function Plain(r: Rates, u: Usage): real {
    u.cached as real * r.cache + u.cacheRead as real * r.cacheRead
    + u.cacheCreation as real * r.cacheCreation + u.output as real * r.completion
  }

  lemma PlainAdds(r: Rates, a: Usage, b: Usage)
    ensures Plain(r, Add(a, b)) == Plain(r, a) + Plain(r, b)
  {
    Distribute(a.cached, b.cached, r.cache);
    Distribute(a.cacheRead, b.cacheRead, r.cacheRead);
    Distribute(a.cacheCreation, b.cacheCreation, r.cacheCreation);
    Distribute(a.output, b.output, r.completion);
  }

  lemma {:induction false} CostEachIs(r: Rates, us: seq<Usage>)
    ensures CostEach(r, us) == (BilledEach(us) as real * r.prompt + Plain(r, Total(us))) / 1000000.0
  {
    hide Billed, Plain;
    if |us| > 0 {
      var rest, last := us[..|us| - 1], us[|us| - 1];
      CostEachIs(r, rest);
      PlainAdds(r, Total(rest), last);
      Distribute(BilledEach(rest), Billed(last), r.prompt);
      CostIs(r, last);
    } else {
      PlainNothing(r);
    }
  }

  lemma CostIs(r: Rates, u: Usage)
    ensures Cost(r, u) == (Billed(u) as real * r.prompt + Plain(r, u)) / 1000000.0
  {
    hide Billed;
  }

  lemma PlainNothing(r: Rates)
    ensures Plain(r, Total([])) == 0.0
  {
  }

  lemma Positive(a: int, b: int, p: real)
    requires a >= b && p >= 0.0
    ensures a as real * p >= b as real * p
    ensures a as real * p == b as real * p <==> a == b || p == 0.0
  {
    var d := (a - b) as real;
    Distribute(a - b, b, p);
    assert a as real * p == d * p + b as real * p;
    if a > b && p > 0.0 { assert d * p > 0.0; }
  }

  /** Pricing the totals of a band never charges more than pricing each request, and the same exactly when no sign mixes. */
  lemma BandGap(r: Rates, us: seq<Usage>)
    requires r.prompt >= 0.0
    ensures Cost(r, Total(us)) <= CostEach(r, us)
    ensures Cost(r, Total(us)) == CostEach(r, us) <==> r.prompt == 0.0 || !Mixed(us)
  {
    hide Billed, Plain, Cost, CostEach, Mixed, BilledEach, Total;
    CostEachIs(r, us);
    CostIs(r, Total(us));
    ClampGap(us);
    Positive(BilledEach(us), Billed(Total(us)), r.prompt);
    Scale(BilledEach(us) as real * r.prompt, Billed(Total(us)) as real * r.prompt, Plain(r, Total(us)));
  }

  lemma Scale(x: real, y: real, z: real)
    ensures (x + z) / 1000000.0 >= (y + z) / 1000000.0 <==> x >= y
    ensures (x + z) / 1000000.0 == (y + z) / 1000000.0 <==> x == y
  {
  }

  // ----- All bands -----

  /** The bands a price distinguishes: the base, and one for every tier. */
  function Bands(price: Price): (r: seq<int>)
    ensures |r| == |price.tiers| + 1 && r[0] == BASE_BAND
    ensures forall i | 0 <= i < |price.tiers| :: r[i + 1] == price.tiers[i].threshold
  {
    [BASE_BAND] + seq(|price.tiers|, i requires 0 <= i < |price.tiers| => price.tiers[i].threshold)
  }

  function BandOf(price: Price, u: Usage): int {
    PriceForContext(price, u.input).1
  }

  /** The rates a recorded band resolves to. */
  function BandRates(price: Price, band: int): Rates {
    match PriceForThreshold(price, band)
    case Some(p) => RatesOf(p)
    case None => Rates(0.0, 0.0, 0.0, 0.0, 0.0)
  }

  function InBand(price: Price, us: seq<Usage>, band: int): seq<Usage> {
    if |us| == 0 then []
    else
      var rest, last := InBand(price, us[..|us| - 1], band), us[|us| - 1];
      if BandOf(price, last) == band then rest + [last] else rest
  }

  /** Every request priced on its own, at the rates of its own size. */
  function CostPerRequest(price: Price, us: seq<Usage>): real {
    if |us| == 0 then 0.0
    else CostPerRequest(price, us[..|us| - 1]) + Cost(RatesOf(PriceForContext(price, us[|us| - 1].input).0), us[|us| - 1])
  }

  /** Every band's totals priced at the rates the band resolves to later. */
  function CostPerBand(price: Price, us: seq<Usage>, bands: seq<int>): real {
    if |bands| == 0 then 0.0
    else
      var band := bands[|bands| - 1];
      CostPerBand(price, us, bands[..|bands| - 1]) + Cost(BandRates(price, band), Total(InBand(price, us, band)))
  }

  /** The requests of every band priced one by one. */
  function CostWithinBands(price: Price, us: seq<Usage>, bands: seq<int>): real {
    if |bands| == 0 then 0.0
    else
      var band := bands[|bands| - 1];
      CostWithinBands(price, us, bands[..|bands| - 1]) + CostEach(BandRates(price, band), InBand(price, us, band))
  }

  lemma {:induction false} OneMoreRequest(price: Price, us: seq<Usage>, u: Usage, bands: seq<int>)
    requires Distinct(bands)
    ensures CostWithinBands(price, us + [u], bands) == CostWithinBands(price, us, bands)
      + if BandOf(price, u) in bands then Cost(BandRates(price, BandOf(price, u)), u) else 0.0
  {
    hide Cost, BandOf, BandRates;
    if |bands| > 0 {
      var n := |bands| - 1;
      var rest, band := bands[..n], bands[n];
      OneMoreRequest(price, us, u, rest);
      assert bands == rest + [band];
      assert (us + [u])[..|us|] == us && (us + [u])[|us|] == u;
      var inBand := InBand(price, us, band);
      if BandOf(price, u) == band {
        assert (inBand + [u])[..|inBand|] == inBand && (inBand + [u])[|inBand|] == u;
        assert band !in rest;
      }
    }
  }

  lemma BandsDistinct(price: Price)
    requires Normalized(price)
    ensures Distinct(Bands(price))
  {
    hide ValidOverrides;
    var bands := Bands(price);
    forall i, j | 0 <= i < j < |bands| ensures bands[i] != bands[j] {
      assert ValidTier(price.tiers[j - 1]);
      if i > 0 { assert price.tiers[i - 1].threshold < price.tiers[j - 1].threshold; }
    }
  }

  lemma BandListed(price: Price, u: Usage)
    requires Normalized(price)
    ensures BandOf(price, u) in Bands(price)
  {
    hide Apply, ValidTier, Normalized, Increasing;
    assert Increasing(price.tiers) by { NormalizedIncreases(price); }
    SelectsGreatestBelow(price.tiers, u.input);
    var bands := Bands(price);
    if Select(price.tiers, u.input).Some? {
      var t := Select(price.tiers, u.input).value;
      var i :| 0 <= i < |price.tiers| && price.tiers[i] == t;
      assert bands[i + 1] == t.threshold;
    } else {
      assert bands[0] == BASE_BAND;
    }
  }

  lemma NormalizedIncreases(price: Price)
    requires Normalized(price)
    ensures Increasing(price.tiers)
  {
  }

  lemma BandKnown(price: Price, u: Usage)
    requires Normalized(price)
    ensures BandOf(price, u) in Bands(price)
    ensures BandRates(price, BandOf(price, u)) == RatesOf(PriceForContext(price, u.input).0)
  {
    BandListed(price, u);
    hide Apply, PriceForThreshold, PriceForContext, Normalized, Bands;
    BandResolvesToSameRates(price, u.input);
  }

  lemma {:induction false} RequestsFallIntoBands(price: Price, us: seq<Usage>)
    requires Normalized(price)
    ensures CostPerRequest(price, us) == CostWithinBands(price, us, Bands(price))
  {
    hide Cost, BandOf, BandRates, PriceForContext, RatesOf, Normalized, Bands;
    if |us| > 0 {
      var rest, u := us[..|us| - 1], us[|us| - 1];
      RequestsFallIntoBands(price, rest);
      BandKnown(price, u);
      BandsDistinct(price);
      OneMoreRequest(price, rest, u, Bands(price));
      assert us == rest + [u];
    } else {
      NothingWithinBands(price, Bands(price));
    }
  }

  lemma {:induction false} NothingWithinBands(price: Price, bands: seq<int>)
    ensures CostWithinBands(price, [], bands) == 0.0
  {
    hide BandRates;
    if |bands| > 0 { NothingWithinBands(price, bands[..|bands| - 1]); }
  }

  ghost predicate Unmixed(price: Price, us: seq<Usage>, bands: seq<int>) {
    forall k | 0 <= k < |bands| :: BandRates(price, bands[k]).prompt == 0.0 || !Mixed(InBand(price, us, bands[k]))
  }

  lemma {:induction false} BandsGap(price: Price, us: seq<Usage>, bands: seq<int>)
    requires forall k | 0 <= k < |bands| :: BandRates(price, bands[k]).prompt >= 0.0
    ensures CostPerBand(price, us, bands) <= CostWithinBands(price, us, bands)
    ensures CostPerBand(price, us, bands) == CostWithinBands(price, us, bands) <==> Unmixed(price, us, bands)
  {
    hide Cost, CostEach, BandRates, Mixed, InBand, Total;
    if |bands| > 0 {
      var n := |bands| - 1;
      assert forall k | 0 <= k < n :: bands[..n][k] == bands[k];
      BandsGap(price, us, bands[..n]);
      BandGap(BandRates(price, bands[n]), InBand(price, us, bands[n]));
      var fine := BandRates(price, bands[n]).prompt == 0.0 || !Mixed(InBand(price, us, bands[n]));
      assert Unmixed(price, us, bands) <==> Unmixed(price, us, bands[..n]) && fine;
    }
  }

  /** No rate is negative: what validation guarantees of a price book entry. */
  ghost predicate ValidPrice(price: Price) {
    Normalized(price) && ValidAmount(price.prompt.amount)
  }

  lemma BandPromptValid(price: Price, band: int)
    requires ValidPrice(price)
    ensures BandRates(price, band).prompt >= 0.0
  {
    if band != BASE_BAND && band > 0 { FoundIsListed(price.tiers, band); }
  }

  lemma {:induction false} FoundIsListed(tiers: seq<Tier>, threshold: int)
    ensures FindTier(tiers, threshold).Some? ==> FindTier(tiers, threshold).value in tiers
  {
    if |tiers| > 0 { FoundIsListed(tiers[1..], threshold); }
  }

  /**
    Over exact arithmetic, pricing the token totals of each band never charges
    more than pricing every request, and charges the same exactly when in no
    band with a prompt rate some requests report more cached than input tokens
    while others report less.
   */
  lemma BandTotalsPriceAlike(price: Price, us: seq<Usage>)
    requires ValidPrice(price)
    ensures CostPerBand(price, us, Bands(price)) <= CostPerRequest(price, us)
    ensures CostPerBand(price, us, Bands(price)) == CostPerRequest(price, us) <==> Unmixed(price, us, Bands(price))
  {
    hide BandRates, CostPerBand, CostPerRequest, CostWithinBands, Unmixed, Bands;
    forall k | 0 <= k < |Bands(price)| ensures BandRates(price, Bands(price)[k]).prompt >= 0.0 {
      BandPromptValid(price, Bands(price)[k]);
    }
    BandsGap(price, us, Bands(price));
    RequestsFallIntoBands(price, us);
  }

  /** Two requests, one with ten fresh tokens and one that reports ten more cached than input tokens. */
  function TwoRequests(): seq<Usage> {
    [Usage(10, 0, 0, 0, 0), Usage(0, 0, 10, 0, 0)]
  }

  lemma TwoRequestsMix()
    ensures Mixed(TwoRequests())
  {
    assert Fresh(TwoRequests()[0]) > 0 && Fresh(TwoRequests()[1]) < 0;
  }

  lemma TwoInBase(price: Price)
    requires price.tiers == []
    ensures InBand(price, TwoRequests(), BASE_BAND) == TwoRequests()
  {
    var us := TwoRequests();
    assert us[..1] == [us[0]] && us[..1][..0] == [];
    assert InBand(price, us[..1], BASE_BAND) == [us[0]];
  }

  /** Their totals are priced lower than they are. */
  lemma MixedBandIsPricedLower(price: Price)
    requires ValidPrice(price) && price.tiers == [] && Value(price.prompt.amount) > 0.0
    ensures CostPerBand(price, TwoRequests(), Bands(price)) < CostPerRequest(price, TwoRequests())
  {
    hide CostPerBand, CostPerRequest, Mixed, InBand, TwoRequests;
    TwoRequestsMix();
    TwoInBase(price);
    assert Bands(price)[0] == BASE_BAND;
    BandTotalsPriceAlike(price, TwoRequests());
  }

  // ----- The long-context premium of prices without tiers -----

  /** costForSegment. */
  function Segment(r: Rates, u: Usage, input: real, output: real): real {
    Billed(u) as real * r.prompt * input / 1000000.0 + u.cached as real * r.cache * input / 1000000.0
    + u.cacheRead as real * r.cacheRead * input / 1000000.0 + u.cacheCreation as real * r.cacheCreation * input / 1000000.0
    + u.output as real * r.completion * output / 1000000.0
  }

  function Scaled(r: Rates, input: real, output: real): Rates {
    Rates(r.prompt * input, r.cache * input, r.cacheRead * input, r.cacheCreation * input, r.completion * output)
  }

  lemma Product(a: real, b: real, c: real)
    ensures a * b * c == a * (b * c)
  {
  }

  lemma SegmentIsCost(r: Rates, u: Usage, input: real, output: real)
    ensures Segment(r, u, input, output) == Cost(Scaled(r, input, output), u)
  {
    hide Billed;
    Product(Billed(u) as real, r.prompt, input);
    Product(u.cached as real, r.cache, input);
    Product(u.cacheRead as real, r.cacheRead, input);
    Product(u.cacheCreation as real, r.cacheCreation, input);
    Product(u.output as real, r.completion, output);
  }

  const LONG_INPUT: nat := 272000

  predicate Long(u: Usage): (long: bool)
    ensures long <==> u.input >= 272_001
  {
    u.input > LONG_INPUT
  }

  const NOTHING: Usage := Usage(0, 0, 0, 0, 0)

  function AtMostOf(n: nat, max: nat): nat {
    if n > max then max else n
  }

  /** The long tokens of a total, never more than there are. */
  function Clamped(long: Usage, total: Usage): Usage {
    Usage(AtMostOf(long.input, total.input), AtMostOf(long.output, total.output), AtMostOf(long.cached, total.cached),
          AtMostOf(long.cacheRead, total.cacheRead), AtMostOf(long.cacheCreation, total.cacheCreation))
  }

  function Minus(a: Usage, b: Usage): Usage
    requires Clamped(b, a) == b
  {
    Usage(a.input - b.input, a.output - b.output, a.cached - b.cached, a.cacheRead - b.cacheRead, a.cacheCreation - b.cacheCreation)
  }

  /** costForLongContextModel: the long tokens cost twice as much to read and half as much again to write. */
  function LongContextCost(r: Rates, total: Usage, long: Usage): real {
    var part := Clamped(long, total);
    Segment(r, Minus(total, part), 1.0, 1.0) + Segment(r, part, 2.0, 1.5)
  }

  /** The requests on one side of the long-context threshold. */
  function Side(us: seq<Usage>, long: bool): seq<Usage> {
    if |us| == 0 then []
    else
      var rest, last := Side(us[..|us| - 1], long), us[|us| - 1];
      if Long(last) == long then rest + [last] else rest
  }

  function LongContextCostEach(r: Rates, us: seq<Usage>): real {
    if |us| == 0 then 0.0
    else
      var u := us[|us| - 1];
      LongContextCostEach(r, us[..|us| - 1]) + LongContextCost(r, u, if Long(u) then u else NOTHING)
  }

  lemma {:induction false} SidesAddUp(us: seq<Usage>)
    ensures Total(us) == Add(Total(Side(us, false)), Total(Side(us, true)))
  {
    if |us| > 0 {
      var rest, u := us[..|us| - 1], us[|us| - 1];
      SidesAddUp(rest);
      var side := Side(rest, Long(u));
      assert Side(us, Long(u)) == side + [u] && Side(us, !Long(u)) == Side(rest, !Long(u));
      hide Side, Long;
      OneMoreTotal(side, u);
      assert Total(us) == Add(Total(rest), u);
      hide Total;
      AddMoves(Total(Side(rest, false)), Total(Side(rest, true)), u);
    }
  }

  lemma OneMoreTotal(us: seq<Usage>, u: Usage)
    ensures Total(us + [u]) == Add(Total(us), u)
  {
    assert (us + [u])[..|us|] == us;
  }

  lemma AddMoves(a: Usage, b: Usage, u: Usage)
    ensures Add(Add(a, b), u) == Add(a, Add(b, u)) == Add(Add(a, u), b)
  {
  }

  /** Cost, by what the clamp leaves to bill. */
  function Bill(billed: nat, prompt: real, plain: real): real {
    (billed as real * prompt + plain) / 1000000.0
  }

  lemma CostIsBill(r: Rates, u: Usage)
    ensures Cost(r, u) == Bill(Billed(u), r.prompt, Plain(r, u))
  {
    hide Billed, Plain;
    CostIs(r, u);
  }

  lemma NothingIsBilled(r: Rates)
    ensures Bill(0, r.prompt, Plain(r, Total([]))) == 0.0
  {
    hide Plain, Cost;
    CostEachIs(r, []);
  }

  lemma CostOfNothing(r: Rates)
    ensures Cost(r, NOTHING) == 0.0
  {
    assert NOTHING == Total([]) && Billed(NOTHING) == 0;
    hide *;
    CostIsBill(r, NOTHING);
    NothingIsBilled(r);
  }

  lemma ScaledOne(r: Rates)
    ensures Scaled(r, 1.0, 1.0) == r
  {
  }

  /** A total that is a sum of its long tokens and others is priced as the two. */
  lemma LongContextSplits(r: Rates, short: Usage, long: Usage)
    ensures LongContextCost(r, Add(short, long), long) == Cost(r, short) + Cost(Scaled(r, 2.0, 1.5), long)
  {
    hide Segment, Cost, Scaled;
    assert Minus(Add(short, long), long) == short;
    SegmentIsCost(r, short, 1.0, 1.0);
    SegmentIsCost(r, long, 2.0, 1.5);
    ScaledOne(r);
  }

  lemma OneMoreCost(r: Rates, us: seq<Usage>, u: Usage)
    ensures CostEach(r, us + [u]) == CostEach(r, us) + Cost(r, u)
  {
    hide Cost;
    assert (us + [u])[..|us|] == us;
  }

  lemma SideNext(us: seq<Usage>)
    requires |us| > 0
    ensures var rest, u := us[..|us| - 1], us[|us| - 1];
      Side(us, Long(u)) == Side(rest, Long(u)) + [u] && Side(us, !Long(u)) == Side(rest, !Long(u))
  {
    hide Long;
  }

  /** One request is all long or not long at all. */
  lemma LongOrNot(r: Rates, u: Usage)
    ensures LongContextCost(r, u, if Long(u) then u else NOTHING) == if Long(u) then Cost(Scaled(r, 2.0, 1.5), u) else Cost(r, u)
  {
    hide LongContextCost, Cost, Scaled, Long;
    CostOfNothing(r);
    CostOfNothing(Scaled(r, 2.0, 1.5));
    LongContextSplits(r, if Long(u) then NOTHING else u, if Long(u) then u else NOTHING);
    assert Add(if Long(u) then NOTHING else u, if Long(u) then u else NOTHING) == u;
  }

  lemma {:induction false} SidesPriced(r: Rates, us: seq<Usage>)
    ensures LongContextCostEach(r, us) == CostEach(r, Side(us, false)) + CostEach(Scaled(r, 2.0, 1.5), Side(us, true))
  {
    hide LongContextCost, Cost, Scaled, Long;
    if |us| > 0 {
      hide CostEach, Side;
      var rest, u := us[..|us| - 1], us[|us| - 1];
      SidesPriced(r, rest);
      SideNext(us);
      LongOrNot(r, u);
      OneMoreCost(r, Side(rest, false), u);
      OneMoreCost(Scaled(r, 2.0, 1.5), Side(rest, true), u);
    }
  }

  /**
    With the long-context premium the totals are priced from those of the long
    requests and of the others: never more than request by request, and the
    same exactly when neither kind mixes signs.
   */
  lemma LongTotalsPriceAlike(r: Rates, us: seq<Usage>)
    requires r.prompt >= 0.0
    ensures LongContextCost(r, Total(us), Total(Side(us, true))) <= LongContextCostEach(r, us)
    ensures LongContextCost(r, Total(us), Total(Side(us, true))) == LongContextCostEach(r, us)
      <==> r.prompt == 0.0 || (!Mixed(Side(us, false)) && !Mixed(Side(us, true)))
  {
    hide LongContextCost, Cost, CostEach, Mixed, Total, Side;
    SidesAddUp(us);
    SidesPriced(r, us);
    LongContextSplits(r, Total(Side(us, false)), Total(Side(us, true)));
    BandGap(r, Side(us, false));
    BandGap(Scaled(r, 2.0, 1.5), Side(us, true));
  }
}
