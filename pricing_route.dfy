/** The public price calculator (app/api/pricing/calculate/route.ts): validate the request,
    quote it with the stored rules and estimate its delivery date. */
module PricingRoute {
  import opened Common
  import Pricing
  import Validators

  /** The response body. The cost is absent when a zip code has no digit: the quote is
      then not a number, which JSON serialises as null. */
  datatype Priced = Priced(cost: Option<real>, estimatedDelivery: Instant)

  /** What the handler answers for a request body at clock reading `now`. */
  function PriceRequest(rules: seq<Pricing.PricingRule>, raw: Validators.RawPricing, now: Instant)
    : (r: Response<Priced>)
    ensures r.Failure? <==> Validators.ParsePricing(raw).None?
    ensures r.Failure? ==> r.status == 400
    ensures r.Ok? ==>
      var i := Validators.ParsePricing(raw).value;
      && r.status == 200
      && r.body.cost == (if Pricing.ZipsReadable(i) then Some(Pricing.Quote(rules, i)) else None)
      && r.body.estimatedDelivery
           == now + Pricing.DeliveryDays(Pricing.Distance(i.originZip.value, i.destinationZip.value), i.isExpress) * MsPerDay
  {
    match Validators.ParsePricing(raw)
    case None => Failure(400, "Validation failed")
    case Some(input) =>
      var cost := if Pricing.ZipsReadable(input) then Some(Pricing.Quote(rules, input)) else None;
      var days := Pricing.DeliveryDays(Pricing.Distance(input.originZip.value, input.destinationZip.value),
                                       input.isExpress);
      Ok(200, Priced(cost, now + days * MsPerDay))
  }

  /** POST: the quote and the estimate, computed by the pricing engine's two operations. */
  method Calculate(rules: seq<Pricing.PricingRule>, raw: Validators.RawPricing, now: Instant)
      returns (r: Response<Priced>)
    ensures r == PriceRequest(rules, raw, now)
  {
    var parsed := Validators.ParsePricing(raw);
    if parsed.None? {
      return Failure(400, "Validation failed");
    }
    var input := parsed.value;
    var cost: Option<real> := None;
    if Pricing.ZipsReadable(input) {
      var c := Pricing.CalculateShippingCost(rules, input);
      cost := Some(c);
    }
    var delivery := Pricing.EstimatedDeliveryDate(now, input.originZip.value, input.destinationZip.value,
                                                  input.isExpress);
    return Ok(200, Priced(cost, delivery));
  }

  /** A valid request is priced non-negatively under non-negative rules, and is due between
      one and ten days after the request. */
  lemma PricedBounds(rules: seq<Pricing.PricingRule>, raw: Validators.RawPricing, now: Instant)
    requires Validators.ParsePricing(raw).Some?
    requires forall r :: r in rules ==> Pricing.NonNegativeRule(r)
    ensures var r := PriceRequest(rules, raw, now);
      && r.Ok?
      && (r.body.cost.Some? ==> r.body.cost.value >= 0.0)
      && now + MsPerDay <= r.body.estimatedDelivery <= now + 10 * MsPerDay
  {
    var input := Validators.ParsePricing(raw).value;
    if Pricing.ZipsReadable(input) {
      Validators.ValidatedQuoteNonNegative(raw, rules);
    }
    Pricing.DeliveryDaysRange(Pricing.Distance(input.originZip.value, input.destinationZip.value));
  }

  /** Asking for express never moves the estimated delivery later. */
  lemma ExpressNoLater(rules: seq<Pricing.PricingRule>, raw: Validators.RawPricing, now: Instant)
    requires Validators.ParsePricing(raw).Some?
    ensures var express := PriceRequest(rules, raw.(isExpress := Some(true)), now);
            var standard := PriceRequest(rules, raw.(isExpress := Some(false)), now);
      express.Ok? && standard.Ok? && express.body.estimatedDelivery <= standard.body.estimatedDelivery
  {
    var input := Validators.ParsePricing(raw).value;
    Pricing.DeliveryDaysRange(Pricing.Distance(input.originZip.value, input.destinationZip.value));
  }
}
