/** The request schemas of lib/validators/index.ts. A request body is a record of optional
    fields (a JSON property may be missing); each schema is a validity predicate over it and
    a parse function that returns the defaulted form, or None where parsing throws. The
    email-format check is a parameter. */
module Validators {
  import opened Common
  import Pricing

  /** A required string of at least `n` characters. */
  predicate MinLength(s: Option<string>, n: nat) {
    s.Some? && |s.value| >= n
  }

  /** `z.number().positive().optional()`. */
  predicate OptionalPositive(x: Option<real>) {
    x.None? || x.value > 0.0
  }

  /** `z.string().email().optional()`. */
  predicate OptionalEmail(s: Option<string>, isEmail: string -> bool) {
    s.None? || isEmail(s.value)
  }

  /** `z.string().default(d)`. */
  function Defaulted(s: Option<string>, d: string): (r: string)
    ensures s.Some? ==> r == s.value
    ensures s.None? ==> r == d
  {
    s.GetOr(d)
  }

  // ---------------------------------------------------------------------------
  // Login and registration

  datatype RawLogin = RawLogin(email: Option<string>, password: Option<string>)

  datatype LoginForm = LoginForm(email: string, password: string)

  predicate LoginValid(raw: RawLogin, isEmail: string -> bool) {
    raw.email.Some? && isEmail(raw.email.value) && MinLength(raw.password, 6)
  }

  /** `loginSchema.parse`: a well-formed email and a password of at least 6 characters. */
  function ParseLogin(raw: RawLogin, isEmail: string -> bool): (r: Option<LoginForm>)
    ensures r.Some? <==> LoginValid(raw, isEmail)
    ensures r.Some? ==> Some(r.value.email) == raw.email && Some(r.value.password) == raw.password
    ensures r.Some? ==> |r.value.password| >= 6
  {
    if LoginValid(raw, isEmail) then Some(LoginForm(raw.email.value, raw.password.value)) else None
  }

  datatype RawRegister = RawRegister(
    email: Option<string>, password: Option<string>,
    firstName: Option<string>, lastName: Option<string>, phone: Option<string>)

  datatype RegisterForm = RegisterForm(
    email: string, password: string, firstName: string, lastName: string, phone: Option<string>)

  predicate RegisterValid(raw: RawRegister, isEmail: string -> bool) {
    && LoginValid(RawLogin(raw.email, raw.password), isEmail)
    && MinLength(raw.firstName, 2) && MinLength(raw.lastName, 2)
  }

  /** `registerSchema.parse`: the login constraints plus names of at least 2 characters;
      the phone stays optional. */
  function ParseRegister(raw: RawRegister, isEmail: string -> bool): (r: Option<RegisterForm>)
    ensures r.Some? <==> RegisterValid(raw, isEmail)
    ensures r.Some? ==> ParseLogin(RawLogin(raw.email, raw.password), isEmail).Some?
    ensures r.Some? ==> Some(r.value.email) == raw.email && Some(r.value.password) == raw.password
    ensures r.Some? ==> Some(r.value.firstName) == raw.firstName && Some(r.value.lastName) == raw.lastName
    ensures r.Some? ==> |r.value.firstName| >= 2 && |r.value.lastName| >= 2 && r.value.phone == raw.phone
  {
    if RegisterValid(raw, isEmail) then
      Some(RegisterForm(raw.email.value, raw.password.value, raw.firstName.value, raw.lastName.value, raw.phone))
    else None
  }

  // ---------------------------------------------------------------------------
  // Shipment creation

  datatype RawShipment = RawShipment(
    senderAddress: Option<string>, senderCity: Option<string>, senderState: Option<string>,
    senderZip: Option<string>, senderCountry: Option<string>,
    receiverName: Option<string>, receiverEmail: Option<string>, receiverPhone: Option<string>,
    receiverAddress: Option<string>, receiverCity: Option<string>, receiverState: Option<string>,
    receiverZip: Option<string>, receiverCountry: Option<string>,
    weight: Option<real>, length: Option<real>, width: Option<real>, height: Option<real>,
    category: Option<string>, description: Option<string>)

  datatype ShipmentForm = ShipmentForm(
    sender: Address,
    receiverName: string,
    receiverEmail: Option<string>,
    receiverPhone: string,
    receiver: Address,
    weight: real,
    length: Option<real>,
    width: Option<real>,
    height: Option<real>,
    category: Option<string>,
    description: Option<string>)

  predicate AddressValid(address: Option<string>, city: Option<string>, state: Option<string>, zip: Option<string>) {
    MinLength(address, 5) && MinLength(city, 2) && MinLength(state, 2) && MinLength(zip, 5)
  }

  predicate ShipmentValid(raw: RawShipment, isEmail: string -> bool) {
    && AddressValid(raw.senderAddress, raw.senderCity, raw.senderState, raw.senderZip)
    && MinLength(raw.receiverName, 2)
    && OptionalEmail(raw.receiverEmail, isEmail)
    && MinLength(raw.receiverPhone, 10)
    && AddressValid(raw.receiverAddress, raw.receiverCity, raw.receiverState, raw.receiverZip)
    && raw.weight.Some? && raw.weight.value > 0.0
    && OptionalPositive(raw.length) && OptionalPositive(raw.width) && OptionalPositive(raw.height)
  }

  /** `createShipmentSchema.parse`: checks every field and defaults both countries to "USA". */
  function ParseShipment(raw: RawShipment, isEmail: string -> bool): (r: Option<ShipmentForm>)
    ensures r.Some? <==> ShipmentValid(raw, isEmail)
    ensures r.Some? ==> r.value.weight > 0.0
    ensures r.Some? ==> |r.value.sender.zip| >= 5 && |r.value.receiver.zip| >= 5
    ensures r.Some? ==> |r.value.sender.address| >= 5 && |r.value.receiver.address| >= 5
    ensures r.Some? ==> |r.value.sender.city| >= 2 && |r.value.sender.state| >= 2
    ensures r.Some? ==> |r.value.receiver.city| >= 2 && |r.value.receiver.state| >= 2
    ensures r.Some? ==> |r.value.receiverName| >= 2 && |r.value.receiverPhone| >= 10
    ensures r.Some? ==> r.value.sender.country == raw.senderCountry.GetOr("USA")
    ensures r.Some? ==> r.value.receiver.country == raw.receiverCountry.GetOr("USA")
    ensures r.Some? ==> r.value.length == raw.length && r.value.width == raw.width && r.value.height == raw.height
    ensures r.Some? ==> r.value.receiverEmail == raw.receiverEmail && r.value.category == raw.category
    ensures r.Some? ==> Some(r.value.sender.address) == raw.senderAddress && Some(r.value.sender.city) == raw.senderCity
                        && Some(r.value.sender.state) == raw.senderState && Some(r.value.sender.zip) == raw.senderZip
    ensures r.Some? ==> Some(r.value.receiver.address) == raw.receiverAddress && Some(r.value.receiver.city) == raw.receiverCity
                        && Some(r.value.receiver.state) == raw.receiverState && Some(r.value.receiver.zip) == raw.receiverZip
    ensures r.Some? ==> Some(r.value.receiverName) == raw.receiverName && Some(r.value.receiverPhone) == raw.receiverPhone
    ensures r.Some? ==> Some(r.value.weight) == raw.weight && r.value.description == raw.description
  {
    if ShipmentValid(raw, isEmail) then
      Some(ShipmentForm(
        Address(raw.senderAddress.value, raw.senderCity.value, raw.senderState.value,
                raw.senderZip.value, Defaulted(raw.senderCountry, "USA")),
        raw.receiverName.value, raw.receiverEmail, raw.receiverPhone.value,
        Address(raw.receiverAddress.value, raw.receiverCity.value, raw.receiverState.value,
                raw.receiverZip.value, Defaulted(raw.receiverCountry, "USA")),
        raw.weight.value, raw.length, raw.width, raw.height, raw.category, raw.description))
    else None
  }

  // ---------------------------------------------------------------------------
  // Pickup requests

  datatype RawPickup = RawPickup(
    address: Option<string>, city: Option<string>, state: Option<string>, zip: Option<string>,
    country: Option<string>, preferredDate: Option<string>, preferredTime: Option<string>,
    packageCount: Option<real>, notes: Option<string>)

  datatype PickupForm = PickupForm(
    address: Address, preferredDate: string, preferredTime: string, packageCount: int, notes: Option<string>)

  /** `z.number().int().positive()`. */
  predicate PositiveInteger(x: real) {
    x > 0.0 && x.Floor as real == x
  }

  predicate PickupValid(raw: RawPickup) {
    && AddressValid(raw.address, raw.city, raw.state, raw.zip)
    && raw.preferredDate.Some? && raw.preferredTime.Some?
    && (raw.packageCount.None? || PositiveInteger(raw.packageCount.value))
  }

  /** `createPickupSchema.parse`: the package count is a positive integer, 1 when absent;
      the country defaults to "USA". */
  function ParsePickup(raw: RawPickup): (r: Option<PickupForm>)
    ensures r.Some? <==> PickupValid(raw)
    ensures r.Some? ==> r.value.packageCount >= 1
    ensures r.Some? && raw.packageCount.None? ==> r.value.packageCount == 1
    ensures r.Some? && raw.packageCount.Some? ==> r.value.packageCount as real == raw.packageCount.value
    ensures r.Some? ==> r.value.address.country == raw.country.GetOr("USA") && |r.value.address.zip| >= 5
    ensures r.Some? ==> Some(r.value.address.address) == raw.address && Some(r.value.address.city) == raw.city
                        && Some(r.value.address.state) == raw.state && Some(r.value.address.zip) == raw.zip
    ensures r.Some? ==> Some(r.value.preferredDate) == raw.preferredDate && Some(r.value.preferredTime) == raw.preferredTime
    ensures r.Some? ==> r.value.notes == raw.notes
  {
    if PickupValid(raw) then
      var count := if raw.packageCount.Some? then raw.packageCount.value.Floor else 1;
      Some(PickupForm(
        Address(raw.address.value, raw.city.value, raw.state.value, raw.zip.value, Defaulted(raw.country, "USA")),
        raw.preferredDate.value, raw.preferredTime.value, count, raw.notes))
    else None
  }

  // ---------------------------------------------------------------------------
  // Pricing calculator

  datatype RawPricing = RawPricing(
    weight: Option<real>, length: Option<real>, width: Option<real>, height: Option<real>,
    originZip: Option<string>, destinationZip: Option<string>, isExpress: Option<bool>,
    category: Option<string>)

  predicate PricingValid(raw: RawPricing) {
    && raw.weight.Some? && raw.weight.value > 0.0
    && OptionalPositive(raw.length) && OptionalPositive(raw.width) && OptionalPositive(raw.height)
    && MinLength(raw.originZip, 5) && MinLength(raw.destinationZip, 5)
  }

  /** `pricingCalculatorSchema.parse`: both zips are required (5 characters or more) and
      `isExpress` defaults to false. */
  function ParsePricing(raw: RawPricing): (r: Option<Pricing.PricingInput>)
    ensures r.Some? <==> PricingValid(raw)
    ensures r.Some? ==> r.value.weight > 0.0 && Pricing.NonNegativeDimensions(r.value)
    ensures r.Some? ==> Pricing.HasZips(r.value) && |r.value.originZip.value| >= 5 && |r.value.destinationZip.value| >= 5
    ensures r.Some? ==> r.value.isExpress == (raw.isExpress == Some(true))
    ensures r.Some? ==> r.value.category == raw.category
    ensures r.Some? ==> Some(r.value.weight) == raw.weight && r.value.length == raw.length
                        && r.value.width == raw.width && r.value.height == raw.height
    ensures r.Some? ==> r.value.originZip == raw.originZip && r.value.destinationZip == raw.destinationZip
  {
    if PricingValid(raw) then
      Some(Pricing.PricingInput(raw.weight.value, raw.length, raw.width, raw.height,
                                raw.originZip, raw.destinationZip, raw.isExpress.GetOr(false), raw.category))
    else None
  }

  /** A validated pricing request with readable zips is quoted a non-negative amount,
      a whole number of cents whenever a rule applies, under rules with non-negative rates. */
  lemma ValidatedQuoteNonNegative(raw: RawPricing, rules: seq<Pricing.PricingRule>)
    requires ParsePricing(raw).Some? && Pricing.ZipsReadable(ParsePricing(raw).value)
    requires forall r :: r in rules ==> Pricing.NonNegativeRule(r)
    ensures Pricing.Quote(rules, ParsePricing(raw).value) >= 0.0
    ensures var input := ParsePricing(raw).value;
            Pricing.SelectRule(rules, input.isExpress, input.category).Some? ==> Pricing.IsCents(Pricing.Quote(rules, input))
  {
    Pricing.QuoteNonNegativeCents(rules, ParsePricing(raw).value);
  }

  // ---------------------------------------------------------------------------
  // Status updates

  datatype RawStatusUpdate = RawStatusUpdate(status: Option<string>, location: Option<string>, notes: Option<string>)

  datatype StatusUpdateForm = StatusUpdateForm(status: ShipmentStatus, location: Option<string>, notes: Option<string>)

  /** `updateShipmentStatusSchema.parse`: the status must be one of the nine wire names;
      location and notes are optional and passed through. */
  function ParseStatusUpdate(raw: RawStatusUpdate): (r: Option<StatusUpdateForm>)
    ensures r.Some? <==> raw.status.Some? && exists s :: StatusName(s) == raw.status.value
    ensures r.Some? ==> StatusName(r.value.status) == raw.status.value
    ensures r.Some? ==> r.value.location == raw.location && r.value.notes == raw.notes
  {
    if raw.status.None? then None
    else
      match StatusFromName(raw.status.value)
      case None =>
        assert forall s :: StatusName(s) != raw.status.value by {
          forall s ensures StatusName(s) != raw.status.value {
            StatusNameRoundTrip(s);
          }
        }
        None
      case Some(s) => Some(StatusUpdateForm(s, raw.location, raw.notes))
  }
}
