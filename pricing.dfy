/** The pricing engine of lib/utils/pricing.ts: rule selection, the cost pipeline, the
    zip-code distance proxy and the delivery-day estimate. Money is an exact `real`. */
module Pricing {
  import opened Common
  import opened Strings
  import Utils

  datatype PricingRule = PricingRule(
    name: string,
    baseRate: real,
    weightMultiplier: real,
    volumeMultiplier: real,
    zoneMultiplier: real,
    isExpress: bool,
    expressRate: Option<real>,
    category: Option<string>,
    categoryRate: Option<real>,
    isActive: bool,
    priority: int)

  /** The arguments of a quote; `isExpress` is already defaulted to false. */
  datatype PricingInput = PricingInput(
    weight: real,
    length: Option<real>,
    width: Option<real>,
    height: Option<real>,
    originZip: Option<string>,
    destinationZip: Option<string>,
    isExpress: bool,
    category: Option<string>)

  // ---------------------------------------------------------------------------
  // Rule selection

  /** The `where` of the rule query: active; express when the quote is express (and
      unconstrained otherwise); generic or of the quote's category when one is given. */
  predicate Eligible(r: PricingRule, isExpress: bool, category: Option<string>) {
    && r.isActive
    && (isExpress ==> r.isExpress)
    && (Truthy(category) ==> r.category.None? || r.category == category)
  }

  /** `rules[0]` of the query ordered by descending priority. Among rules of equal
      priority the earliest in the table is taken; the contract promises only some
      eligible rule of maximal priority. */
  function SelectRule(rules: seq<PricingRule>, isExpress: bool, category: Option<string>): (r: Option<PricingRule>)
    ensures r.None? <==> forall x :: x in rules ==> !Eligible(x, isExpress, category)
    ensures r.Some? ==> r.value in rules && Eligible(r.value, isExpress, category)
    ensures r.Some? ==> forall x :: x in rules && Eligible(x, isExpress, category) ==> x.priority <= r.value.priority
  {
    if |rules| == 0 then None
    else
      var rest := SelectRule(rules[1..], isExpress, category);
      assert forall x :: x in rules ==> x == rules[0] || x in rules[1..];
      if !Eligible(rules[0], isExpress, category) then rest
      else if rest.Some? && rest.value.priority > rules[0].priority then rest
      else Some(rules[0])
  }

  // ---------------------------------------------------------------------------
  // Distance proxy

  /** The value of a decimal digit. */
  function DigitValue(c: char): real
    requires IsDigit(c)
  {
    match c
    case '0' => 0.0 case '1' => 1.0 case '2' => 2.0 case '3' => 3.0 case '4' => 4.0
    case '5' => 5.0 case '6' => 6.0 case '7' => 7.0 case '8' => 8.0 case _ => 9.0
  }

  /** `parseInt` of a digit string, as the number JavaScript yields (unbounded here). */
  function ParseDigits(ds: string): (v: real)
    requires AllDigits(ds)
    ensures v >= 0.0
  {
    if ds == [] then 0.0
    else ParseDigits(ds[..|ds| - 1]) * 10.0 + DigitValue(ds[|ds| - 1])
  }

  /** The number parsed is the decimal value of the digits. */
  lemma {:induction false} ParseDigitsIsDecimal(ds: string)
    requires AllDigits(ds)
    ensures ParseDigits(ds) == DecimalValue(ds) as real
  {
    if ds != [] {
      ParseDigitsIsDecimal(ds[..|ds| - 1]);
      var c := ds[|ds| - 1];
      assert DigitValue(c) == (c as int - '0' as int) as real;
    }
  }

  /** `parseInt(zip.replace(/\D/g, ''))`; None stands for NaN (no digit at all). */
  function ZipNumber(zip: string): (n: Option<real>)
    ensures n.Some? <==> DigitsOf(zip) != []
  {
    var ds := DigitsOf(zip);
    if ds == [] then None else Some(ParseDigits(ds))
  }

  /** Half the absolute difference of the two zip numbers; None stands for NaN. */
  function Distance(zip1: string, zip2: string): (d: Option<real>)
    ensures d.Some? <==> ZipNumber(zip1).Some? && ZipNumber(zip2).Some?
    ensures d.Some? ==> d.value >= 0.0
  {
    match (ZipNumber(zip1), ZipNumber(zip2))
    case (Some(n1), Some(n2)) => Some((if n1 >= n2 then n1 - n2 else n2 - n1) * 0.5)
    case _ => None
  }

  /** The proxy is symmetric, and a zip is at distance 0 from itself. */
  lemma DistanceSymmetric(zip1: string, zip2: string)
    ensures Distance(zip1, zip2) == Distance(zip2, zip1)
    ensures ZipNumber(zip1).Some? ==> Distance(zip1, zip1) == Some(0.0)
  {
  }

  // ---------------------------------------------------------------------------
  // Cost pipeline, stated stage by stage

  predicate HasVolume(input: PricingInput) {
    NonZero(input.length) && NonZero(input.width) && NonZero(input.height)
  }

  predicate HasZips(input: PricingInput) {
    Truthy(input.originZip) && Truthy(input.destinationZip)
  }

  /** When both zips are given, both contain a digit (so the distance is a number). */
  predicate ZipsReadable(input: PricingInput) {
    HasZips(input) ==> Distance(input.originZip.value, input.destinationZip.value).Some?
  }

  /** The distance the pipeline scales by: present exactly when both zips are given
      (and readable). */
  function ZoneDistance(input: PricingInput): (d: Option<real>)
    ensures d.Some? ==> HasZips(input) && d.value >= 0.0
    ensures ZipsReadable(input) && HasZips(input) ==> d.Some?
  {
    if HasZips(input) then Distance(input.originZip.value, input.destinationZip.value) else None
  }

  /** The volume in cubic metres, when all three dimensions are given and non-zero. */
  function PackageVolume(input: PricingInput): (v: Option<real>)
    ensures v.Some? <==> HasVolume(input)
  {
    if HasVolume(input)
    then Some(Utils.Volume(input.length.value, input.width.value, input.height.value))
    else None
  }

  /** Adds the volume term when there is a volume. */
  function WithVolume(cost: real, rule: PricingRule, volume: Option<real>): real {
    if volume.Some? then cost + volume.value * rule.volumeMultiplier else cost
  }

  /** 10% more per 1000 miles of proxy distance. */
  function DistanceFactor(distance: real): (f: real)
    ensures distance >= 0.0 ==> f >= 1.0
  {
    1.0 + (distance / 1000.0) * 0.1
  }

  /** Scales the running cost by the distance factor when there is a distance. */
  function WithDistance(cost: real, distance: Option<real>): real {
    if distance.Some? then cost * DistanceFactor(distance.value) else cost
  }

  /** Adds the rule's express rate to an express quote, when the rate is set and non-zero. */
  function WithExpress(cost: real, rule: PricingRule, input: PricingInput): real {
    if input.isExpress && NonZero(rule.expressRate) then cost + rule.expressRate.value else cost
  }

  /** Adds the rule's category rate when the quote's category is exactly the rule's. */
  function WithCategory(cost: real, rule: PricingRule, input: PricingInput): real {
    if Truthy(input.category) && rule.category == input.category && NonZero(rule.categoryRate)
    then cost + rule.categoryRate.value
    else cost
  }

  /** Scales the running cost by the rule's zone multiplier. */
  function WithZone(cost: real, rule: PricingRule): real {
    cost * rule.zoneMultiplier
  }

  /** Everything after the weight term: volume, distance, the two surcharges, then the
      zone multiplier over the whole. */
  function Pipeline(cost: real, rule: PricingRule, input: PricingInput, volume: Option<real>, distance: Option<real>): real {
    WithZone(WithCategory(WithExpress(WithDistance(WithVolume(cost, rule, volume), distance), rule, input), rule, input), rule)
  }

  /** The base rate plus the weight term: where every rule's price starts. */
  function Weighed(rule: PricingRule, weight: real): real {
    rule.baseRate + weight * rule.weightMultiplier
  }

  /** The unrounded price under one rule. */
  function RuleCost(rule: PricingRule, input: PricingInput): real {
    Pipeline(Weighed(rule, input.weight), rule, input, PackageVolume(input), ZoneDistance(input))
  }

  /** `Math.round(x)`: the nearest integer, halves rounded up. */
  function MathRound(x: real): (n: int)
    ensures x - 0.5 < n as real <= x + 0.5
  {
    (x + 0.5).Floor
  }

  predicate IsCents(x: real) {
    (x * 100.0).Floor as real == x * 100.0
  }

  /** `Math.round(x * 100) / 100`: the nearest whole number of cents. */
  function RoundCents(x: real): (r: real)
    ensures IsCents(r)
    ensures x - 0.005 < r <= x + 0.005
  {
    var n := MathRound(x * 100.0);
    assert (n as real / 100.0) * 100.0 == n as real;
    n as real / 100.0
  }

  /** The price `calculateShippingCost` returns: the fallback `weight * 5`, unrounded,
      when no rule is eligible; otherwise the selected rule's cost rounded to cents. */
  function Quote(rules: seq<PricingRule>, input: PricingInput): real
    requires ZipsReadable(input)
  {
    match SelectRule(rules, input.isExpress, input.category)
    case None => input.weight * 5.0
    case Some(rule) => RoundCents(RuleCost(rule, input))
  }

  /** The cost accumulated stage by stage, each stage one guarded update of the running
      cost, then rounded to cents. */
  method CalculateShippingCost(rules: seq<PricingRule>, input: PricingInput) returns (cost: real)
    requires ZipsReadable(input)
    ensures cost == Quote(rules, input)
  {
    var selected := SelectRule(rules, input.isExpress, input.category);
    if selected.None? {
      return input.weight * 5.0;
    }
    var rule := selected.value;
    cost := Weighed(rule, input.weight);
    cost := WithVolume(cost, rule, PackageVolume(input));
    cost := WithDistance(cost, ZoneDistance(input));
    cost := WithExpress(cost, rule, input);
    cost := WithCategory(cost, rule, input);
    cost := WithZone(cost, rule);
    assert cost == RuleCost(rule, input);
    cost := MathRound(cost * 100.0) as real / 100.0;
  }

  // ---------------------------------------------------------------------------
  // Properties of the quote

  /** With no eligible rule the quote is exactly `weight * 5`, and it is not rounded:
      a weight of 1.001 kg is quoted 5.005. */
  lemma FallbackIsUnrounded(rules: seq<PricingRule>, input: PricingInput)
    requires ZipsReadable(input)
    requires forall r :: r in rules ==> !Eligible(r, input.isExpress, input.category)
    ensures Quote(rules, input) == input.weight * 5.0
    ensures input.weight == 1.001 ==> Quote(rules, input) == 5.005 && !IsCents(Quote(rules, input))
  {
    assert SelectRule(rules, input.isExpress, input.category).None?;
    if input.weight == 1.001 {
      assert (500.5).Floor == 500;
    }
  }

  predicate NonNegativeRule(r: PricingRule) {
    && r.baseRate >= 0.0 && r.weightMultiplier >= 0.0 && r.volumeMultiplier >= 0.0
    && r.zoneMultiplier >= 0.0
    && (r.expressRate.Some? ==> r.expressRate.value >= 0.0)
    && (r.categoryRate.Some? ==> r.categoryRate.value >= 0.0)
  }

  /** Package dimensions, where given, are not negative. */
  predicate NonNegativeDimensions(input: PricingInput) {
    && (input.length.Some? ==> input.length.value >= 0.0)
    && (input.width.Some? ==> input.width.value >= 0.0)
    && (input.height.Some? ==> input.height.value >= 0.0)
  }

  lemma MulMonotone(a: real, b: real, c: real)
    requires a <= b && c >= 0.0
    ensures a * c <= b * c
  {
  }

  lemma MulNonNegative(a: real, b: real)
    requires a >= 0.0 && b >= 0.0
    ensures a * b >= 0.0
  {
  }

  predicate NonNegativeOption(x: Option<real>) {
    x.Some? ==> x.value >= 0.0
  }

  /** Non-negative dimensions give a non-negative volume. */
  lemma PackageVolumeNonNegative(input: PricingInput)
    requires NonNegativeDimensions(input)
    ensures NonNegativeOption(PackageVolume(input))
  {
    if HasVolume(input) {
      var l, w, h := input.length.value, input.width.value, input.height.value;
      MulNonNegative(l, w);
      MulNonNegative(l * w, h);
      Utils.VolumeScale(l, w, h);
    }
  }

  // Each stage keeps a non-negative cost non-negative ...

  lemma WithVolumeNonNegative(cost: real, rule: PricingRule, volume: Option<real>)
    requires NonNegativeRule(rule) && NonNegativeOption(volume) && cost >= 0.0
    ensures WithVolume(cost, rule, volume) >= 0.0
  {
    if volume.Some? {
      MulNonNegative(volume.value, rule.volumeMultiplier);
    }
  }

  lemma WithDistanceNonNegative(cost: real, distance: Option<real>)
    requires NonNegativeOption(distance) && cost >= 0.0
    ensures WithDistance(cost, distance) >= 0.0
  {
    if distance.Some? {
      MulNonNegative(cost, DistanceFactor(distance.value));
    }
  }

  lemma WithZoneNonNegative(cost: real, rule: PricingRule)
    requires NonNegativeRule(rule) && cost >= 0.0
    ensures WithZone(cost, rule) >= 0.0
  {
    MulNonNegative(cost, rule.zoneMultiplier);
  }

  // ... and preserves the order of running costs.

  lemma WithDistanceMonotone(c1: real, c2: real, distance: Option<real>)
    requires NonNegativeOption(distance) && c1 <= c2
    ensures WithDistance(c1, distance) <= WithDistance(c2, distance)
  {
    if distance.Some? {
      MulMonotone(c1, c2, DistanceFactor(distance.value));
    }
  }

  lemma WithZoneMonotone(c1: real, c2: real, rule: PricingRule)
    requires NonNegativeRule(rule) && c1 <= c2
    ensures WithZone(c1, rule) <= WithZone(c2, rule)
  {
    MulMonotone(c1, c2, rule.zoneMultiplier);
  }

  /** The pipeline keeps a non-negative cost non-negative when the rule's rates, the
      volume and the distance are non-negative. */
  lemma PipelineNonNegative(cost: real, rule: PricingRule, input: PricingInput, volume: Option<real>, distance: Option<real>)
    requires NonNegativeRule(rule) && NonNegativeOption(volume) && NonNegativeOption(distance)
    requires cost >= 0.0
    ensures Pipeline(cost, rule, input, volume, distance) >= 0.0
  {
    var sized := WithVolume(cost, rule, volume);
    WithVolumeNonNegative(cost, rule, volume);
    var distanced := WithDistance(sized, distance);
    WithDistanceNonNegative(sized, distance);
    var surcharged := WithCategory(WithExpress(distanced, rule, input), rule, input);
    WithZoneNonNegative(surcharged, rule);
  }

  lemma WeighedNonNegative(rule: PricingRule, weight: real)
    requires NonNegativeRule(rule) && weight >= 0.0
    ensures Weighed(rule, weight) >= 0.0
  {
    MulNonNegative(weight, rule.weightMultiplier);
  }

  lemma RuleCostNonNegative(rule: PricingRule, input: PricingInput)
    requires NonNegativeRule(rule) && NonNegativeDimensions(input) && input.weight >= 0.0
    ensures RuleCost(rule, input) >= 0.0
  {
    WeighedNonNegative(rule, input.weight);
    PackageVolumeNonNegative(input);
    PipelineNonNegative(Weighed(rule, input.weight), rule, input, PackageVolume(input), ZoneDistance(input));
  }

  lemma RoundCentsNonNegative(x: real)
    requires x >= 0.0
    ensures RoundCents(x) >= 0.0
  {
    assert MathRound(x * 100.0) >= 0;
  }

  /** With non-negative rules and a positive weight the quote is non-negative, and
      whenever a rule applies it is a whole number of cents. */
  lemma QuoteNonNegativeCents(rules: seq<PricingRule>, input: PricingInput)
    requires ZipsReadable(input)
    requires forall r :: r in rules ==> NonNegativeRule(r)
    requires NonNegativeDimensions(input) && input.weight > 0.0
    ensures Quote(rules, input) >= 0.0
    ensures SelectRule(rules, input.isExpress, input.category).Some? ==> IsCents(Quote(rules, input))
  {
    match SelectRule(rules, input.isExpress, input.category)
    case None =>
    case Some(rule) =>
      RuleCostNonNegative(rule, input);
      RoundCentsNonNegative(RuleCost(rule, input));
  }

  lemma MathRoundMonotone(x: real, y: real)
    requires x <= y
    ensures MathRound(x) <= MathRound(y)
  {
  }

  /** Rounding to cents preserves order. */
  lemma RoundCentsMonotone(x: real, y: real)
    requires x <= y
    ensures RoundCents(x) <= RoundCents(y)
  {
    MulMonotone(x, y, 100.0);
    MathRoundMonotone(x * 100.0, y * 100.0);
  }

  /** The stages after the distance preserve the order of running costs. */
  lemma SurchargedMonotone(c1: real, c2: real, rule: PricingRule, input: PricingInput)
    requires NonNegativeRule(rule) && c1 <= c2
    ensures WithZone(WithCategory(WithExpress(c1, rule, input), rule, input), rule)
         <= WithZone(WithCategory(WithExpress(c2, rule, input), rule, input), rule)
  {
    WithZoneMonotone(WithCategory(WithExpress(c1, rule, input), rule, input),
                     WithCategory(WithExpress(c2, rule, input), rule, input), rule);
  }

  /** Every stage of the pipeline preserves the order of running costs. */
  lemma PipelineMonotone(c1: real, c2: real, rule: PricingRule, input: PricingInput, volume: Option<real>, distance: Option<real>)
    requires NonNegativeRule(rule) && NonNegativeOption(distance) && c1 <= c2
    ensures Pipeline(c1, rule, input, volume, distance) <= Pipeline(c2, rule, input, volume, distance)
  {
    var v1, v2 := WithVolume(c1, rule, volume), WithVolume(c2, rule, volume);
    WithDistanceMonotone(v1, v2, distance);
    SurchargedMonotone(WithDistance(v1, distance), WithDistance(v2, distance), rule, input);
  }

  /** Scaling by distance never lowers a non-negative running cost. */
  lemma WithDistanceNeverDiscounts(cost: real, distance: real)
    requires cost >= 0.0 && distance >= 0.0
    ensures WithDistance(cost, None) <= WithDistance(cost, Some(distance))
  {
    MulMonotone(1.0, DistanceFactor(distance), cost);
  }

  /** A quote with a distance costs at least as much as the same quote without one. */
  lemma DistanceNeverDiscounts(cost: real, rule: PricingRule, input: PricingInput, volume: Option<real>, distance: real)
    requires NonNegativeRule(rule) && NonNegativeOption(volume) && cost >= 0.0 && distance >= 0.0
    ensures Pipeline(cost, rule, input, volume, None) <= Pipeline(cost, rule, input, volume, Some(distance))
  {
    var sized := WithVolume(cost, rule, volume);
    WithVolumeNonNegative(cost, rule, volume);
    WithDistanceNeverDiscounts(sized, distance);
    SurchargedMonotone(WithDistance(sized, None), WithDistance(sized, Some(distance)), rule, input);
  }

  lemma WeighedMonotone(rule: PricingRule, w1: real, w2: real)
    requires NonNegativeRule(rule) && w1 <= w2
    ensures Weighed(rule, w1) <= Weighed(rule, w2)
  {
    MulMonotone(w1, w2, rule.weightMultiplier);
  }

  /** The weight enters the price only through the weight term. */
  lemma WeightOnlyInBase(a: PricingInput, w: real)
    ensures ZipsReadable(a) ==> ZipsReadable(a.(weight := w))
    ensures ZoneDistance(a) == ZoneDistance(a.(weight := w))
    ensures PackageVolume(a) == PackageVolume(a.(weight := w))
  {
    var b := a.(weight := w);
    assert HasVolume(a) == HasVolume(b) && HasZips(a) == HasZips(b);
  }

  /** Holding everything else fixed, a heavier package is never quoted less. */
  lemma QuoteMonotoneInWeight(rules: seq<PricingRule>, a: PricingInput, w: real)
    requires ZipsReadable(a)
    requires forall r :: r in rules ==> NonNegativeRule(r)
    requires a.weight <= w
    ensures ZipsReadable(a.(weight := w))
    ensures Quote(rules, a) <= Quote(rules, a.(weight := w))
  {
    var b := a.(weight := w);
    WeightOnlyInBase(a, w);
    match SelectRule(rules, a.isExpress, a.category)
    case None =>
      MulMonotone(a.weight, w, 5.0);
    case Some(rule) =>
      WeighedMonotone(rule, a.weight, w);
      PipelineMonotone(Weighed(rule, a.weight), Weighed(rule, w), rule, a, PackageVolume(a), ZoneDistance(a));
      assert Pipeline(Weighed(rule, w), rule, a, PackageVolume(a), ZoneDistance(a)) == RuleCost(rule, b);
      RoundCentsMonotone(RuleCost(rule, a), RuleCost(rule, b));
  }

  // ---------------------------------------------------------------------------
  // The seeded rules as a worked example

  const StandardRule := PricingRule("Standard Shipping", 5.0, 2.0, 0.5, 1.0, false, None, None, None, true, 1)
  const ExpressRule := PricingRule("Express Shipping", 10.0, 3.0, 0.8, 1.5, true, Some(15.0), None, None, true, 2)
  const SeedRules := [StandardRule, ExpressRule]

  /** A 2.5 kg parcel of 30 x 20 x 15 cm in category Electronics, without zips. */
  function SampleParcel(isExpress: bool): PricingInput {
    PricingInput(2.5, Some(30.0), Some(20.0), Some(15.0), None, None, isExpress, Some("Electronics"))
  }

  /** The express filter applies only to express quotes: a standard quote is priced by
      the express rule, which outranks the standard one, but without its surcharge
      (17.5072 * 1.5 = 26.2608, quoted 26.26). The express quote adds the 15.00
      surcharge ((17.5072 + 15) * 1.5 = 48.7608, quoted 48.76). */
  lemma SeededQuotes()
    ensures SelectRule(SeedRules, false, Some("Electronics")) == Some(ExpressRule)
    ensures Quote(SeedRules, SampleParcel(false)) == 26.26
    ensures Quote(SeedRules, SampleParcel(true)) == 48.76
  {
    var std, exp := SampleParcel(false), SampleParcel(true);
    assert Utils.Volume(30.0, 20.0, 15.0) == 0.009 by { Utils.VolumeScale(30.0, 20.0, 15.0); }
    assert RuleCost(ExpressRule, std) == 26.2608;
    assert MathRound(2626.08) == 2626;
    assert RuleCost(ExpressRule, exp) == 48.7608;
    assert MathRound(4876.08) == 4876;
  }

  // ---------------------------------------------------------------------------
  // Delivery estimate

  /** The day count as a table over the proxy distance: 3 up to 500, 5 up to 1000,
      7 up to 2000, 10 beyond; express halves it (rounding down) but never below 1.
      A NaN distance (None) falls in the first row, as every comparison with NaN fails. */
  function DeliveryDays(distance: Option<real>, isExpress: bool): int {
    var standard :=
      if distance.None? || distance.value <= 500.0 then 3
      else if distance.value <= 1000.0 then 5
      else if distance.value <= 2000.0 then 7
      else 10;
    if isExpress then (if standard / 2 >= 1 then standard / 2 else 1) else standard
  }

  /** `getEstimatedDeliveryDate`: the day count built up by increments, added to the
      current instant (`setDate(getDate() + days)` keeps the time of day). */
  method EstimatedDeliveryDate(now: Instant, originZip: string, destinationZip: string, isExpress: bool)
    returns (date: Instant)
    ensures date == now + DeliveryDays(Distance(originZip, destinationZip), isExpress) * MsPerDay
  {
    var distance := Distance(originZip, destinationZip);
    var days := 3;
    if distance.Some? && distance.value > 500.0 {
      days := days + 2;
    }
    if distance.Some? && distance.value > 1000.0 {
      days := days + 2;
    }
    if distance.Some? && distance.value > 2000.0 {
      days := days + 3;
    }
    if isExpress {
      days := if 1 >= days / 2 then 1 else days / 2;
    }
    date := now + days * MsPerDay;
  }

  /** Standard estimates are 3, 5, 7 or 10 days; express ones 1, 2, 3 or 5 days, never
      more than the standard estimate for the same distance. */
  lemma DeliveryDaysRange(distance: Option<real>)
    ensures DeliveryDays(distance, false) in {3, 5, 7, 10}
    ensures DeliveryDays(distance, true) in {1, 2, 3, 5}
    ensures 1 <= DeliveryDays(distance, true) <= DeliveryDays(distance, false)
  {
  }

  /** A longer distance never gives an earlier estimate. */
  lemma DeliveryDaysMonotone(d1: real, d2: real, isExpress: bool)
    requires d1 <= d2
    ensures DeliveryDays(Some(d1), isExpress) <= DeliveryDays(Some(d2), isExpress)
  {
  }
}
