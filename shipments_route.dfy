/** The shipment collection endpoint (app/api/shipments/route.ts): the role-scoped,
    paginated listing and the creation of a shipment with its quote, delivery estimate,
    tracking number, first event and sender notification. */
module ShipmentsRoute {
  import opened Common
  import opened Seqs
  import opened Store
  import Pricing
  import Utils
  import Validators
  import Notifications

  // ---------------------------------------------------------------------------
  // Listing

  /** The `where` of the listing: customers see what they send or receive, staff see all. */
  predicate Visible(user: User, s: Shipment) {
    user.role != Customer || s.senderId == user.id || s.receiverId == Some(user.id)
  }

  /** A shipment as listed: with its sender's name and email and its latest event. */
  datatype Listed = Listed(shipment: Shipment, sender: Option<UserSummary>, latest: seq<ShipmentEvent>)

  /** `pages` is `Math.ceil(total / limit)`; a zero limit divides to Infinity or NaN, which
      the JSON body carries as null (None). */
  datatype Pagination = Pagination(total: nat, page: int, limit: int, pages: Option<int>)

  datatype ShipmentPage = ShipmentPage(shipments: seq<Listed>, pagination: Pagination)

  function ShipmentCreated(s: Shipment): int {
    s.createdAt
  }

  function EventCreated(e: ShipmentEvent): int {
    e.createdAt
  }

  /** `include: { sender: select, events: { orderBy: createdAt desc, take: 1 } }`. */
  function ListEntry(users: seq<User>, s: Shipment): (l: Listed)
    ensures l.shipment == s && |l.latest| <= 1
    ensures |l.latest| == 1 <==> |s.events| > 0
    ensures |l.latest| == 1 ==> l.latest[0] in s.events
                                && forall e :: e in s.events ==> e.createdAt <= l.latest[0].createdAt
  {
    var sorted := SortDesc(s.events, EventCreated);
    NewestFirst(s.events);
    var sender := FindUserById(users, s.senderId);
    Listed(s, if sender.Some? then Some(Summary(sender.value)) else None, Take(sorted, 1))
  }

  /** The head of the events sorted newest first is an event no other event postdates. */
  lemma NewestFirst(events: seq<ShipmentEvent>)
    ensures var sorted := SortDesc(events, EventCreated);
      |sorted| > 0 ==> sorted[0] in events && forall e :: e in events ==> e.createdAt <= sorted[0].createdAt
  {
    var sorted := SortDesc(events, EventCreated);
    if |sorted| > 0 {
      SortedMembers(events, EventCreated, sorted[0]);
      forall e | e in events ensures e.createdAt <= sorted[0].createdAt {
        SortedMembers(events, EventCreated, e);
        var j :| 0 <= j < |sorted| && sorted[j] == e;
        assert j == 0 || EventCreated(sorted[0]) >= EventCreated(sorted[j]);
      }
    }
  }

  /** `Math.ceil(total / limit)`: the least integer at least total / limit, and null when
      the limit is zero. */
  function PageCount(total: nat, limit: int): (pages: Option<int>)
    ensures pages.None? <==> limit == 0
    ensures limit > 0 ==> pages.value * limit >= total && (pages.value - 1) * limit < total
    ensures limit < 0 ==> pages.value * limit <= total && (pages.value - 1) * limit > total
  {
    if limit == 0 then None
    else if limit > 0 then Some((total + limit - 1) / limit)
    else Some(-(total / -limit))
  }

  /** The visible shipments, newest first: the list the query pages through. */
  function VisibleSorted(shipments: seq<Shipment>, user: User): (r: seq<Shipment>)
    ensures |r| == CountWhere(shipments, s => Visible(user, s))
    ensures SortedDesc(r, ShipmentCreated)
    ensures forall s :: s in r <==> s in shipments && Visible(user, s)
  {
    var visible := Filter(shipments, s => Visible(user, s));
    var r := SortDesc(visible, ShipmentCreated);
    forall s ensures s in r <==> s in visible {
      SortedMembers(visible, ShipmentCreated, s);
    }
    r
  }

  /** `skip` and `take` over the sorted list: a non-negative take reads from the front, a
      negative one from the end. */
  function QueryPage(sorted: seq<Shipment>, skip: nat, take: int): (w: seq<Shipment>)
    ensures |w| == (var left := if skip <= |sorted| then |sorted| - skip else 0;
                    var n := if take >= 0 then take else -take;
                    if n <= left then n else left)
    ensures take >= 0 ==> forall i :: 0 <= i < |w| ==> w[i] == sorted[skip + i]
    ensures take < 0 ==> forall i :: 0 <= i < |w| ==> w[i] == sorted[|sorted| - skip - |w| + i]
  {
    if take >= 0 then Window(sorted, skip, take) else WindowFromEnd(sorted, skip, -take)
  }

  /** Each shipment of a page with its sender and latest event. */
  function ListEntries(users: seq<User>, w: seq<Shipment>): (ls: seq<Listed>)
    ensures |ls| == |w|
    ensures forall i :: 0 <= i < |ls| ==> ls[i] == ListEntry(users, w[i])
  {
    seq(|w|, i requires 0 <= i < |w| => ListEntry(users, w[i]))
  }

  /** A run of consecutive elements of a list sorted newest first is sorted newest first. */
  lemma RunSorted(sorted: seq<Shipment>, w: seq<Shipment>, from: int)
    requires SortedDesc(sorted, ShipmentCreated)
    requires 0 <= from && from + |w| <= |sorted|
    requires forall i :: 0 <= i < |w| ==> w[i] == sorted[from + i]
    ensures SortedDesc(w, ShipmentCreated)
  {
    forall i, j | 0 <= i < j < |w| ensures ShipmentCreated(w[i]) >= ShipmentCreated(w[j]) {
      assert w[i] == sorted[from + i] && w[j] == sorted[from + j];
    }
  }

  /** GET: 401 without a caller; otherwise the page of the visible shipments, newest
      first, read with `skip = (page - 1) * limit` and `take = limit`, with the visible
      total and the page count. A negative skip makes the query fail (500). */
  function ListShipments(users: seq<User>, shipments: seq<Shipment>, caller: Caller, page: int, limit: int)
    : (r: Response<ShipmentPage>)
    ensures caller.NoToken? || caller.UnknownToken? <==> r.Failure? && r.status == 401
    ensures caller.SignedIn? && (page - 1) * limit < 0 <==> r == Failure(500, "Failed to fetch shipments")
    ensures r.Ok? <==> caller.SignedIn? && (page - 1) * limit >= 0
    ensures r.Ok? ==>
      var sorted := VisibleSorted(shipments, caller.user);
      && r.status == 200
      && r.body.pagination == Pagination(CountWhere(shipments, s => Visible(caller.user, s)), page, limit,
                                         PageCount(|sorted|, limit))
      && r.body.shipments == ListEntries(users, QueryPage(sorted, (page - 1) * limit, limit))
      && (forall i, j :: 0 <= i < j < |r.body.shipments| ==>
            r.body.shipments[i].shipment.createdAt >= r.body.shipments[j].shipment.createdAt)
      && (forall l :: l in r.body.shipments ==> l.shipment in shipments && Visible(caller.user, l.shipment))
  {
    match caller
    case NoToken => Failure(401, "Unauthorized")
    case UnknownToken => Failure(401, "Invalid token")
    case SignedIn(user) =>
      var skip := (page - 1) * limit;
      if skip < 0 then Failure(500, "Failed to fetch shipments")
      else
        var sorted := VisibleSorted(shipments, user);
        var w := QueryPage(sorted, skip, limit);
        PageOfSorted(sorted, skip, limit);
        var listed := ListEntries(users, w);
        assert forall i :: 0 <= i < |listed| ==> listed[i].shipment == w[i];
        Ok(200, ShipmentPage(listed,
                             Pagination(|sorted|, page, limit, PageCount(|sorted|, limit))))
  }

  /** A page of the sorted list is itself newest first and holds only listed shipments. */
  lemma PageOfSorted(sorted: seq<Shipment>, skip: nat, limit: int)
    ensures SortedDesc(sorted, ShipmentCreated) ==> SortedDesc(QueryPage(sorted, skip, limit), ShipmentCreated)
    ensures forall s :: s in QueryPage(sorted, skip, limit) ==> s in sorted
  {
    var w := QueryPage(sorted, skip, limit);
    if |w| > 0 && SortedDesc(sorted, ShipmentCreated) {
      RunSorted(sorted, w, if limit >= 0 then skip else |sorted| - skip - |w|);
    }
  }

  /** Paging with a positive limit through pages 1 to `pages` lists every visible shipment
      exactly once, newest first. */
  lemma PagesCoverAll(shipments: seq<Shipment>, user: User, limit: int)
    requires limit >= 1
    ensures var sorted := VisibleSorted(shipments, user);
            var pages := PageCount(|sorted|, limit).value;
      pages >= 0 && Windows(sorted, limit, pages) == sorted
  {
    var sorted := VisibleSorted(shipments, user);
    var pages := PageCount(|sorted|, limit).value;
    WindowsPrefix(sorted, limit, pages);
    assert pages * limit >= |sorted|;
    assert sorted[..|sorted|] == sorted;
  }

  /** Staff list every shipment; a customer's total counts only their own. */
  lemma ListingScope(users: seq<User>, shipments: seq<Shipment>, user: User, page: int, limit: int)
    requires page >= 1 && limit >= 1
    ensures var r := ListShipments(users, shipments, SignedIn(user), page, limit);
      && r.Ok?
      && (user.role != Customer ==> r.body.pagination.total == |shipments|)
      && (user.role == Customer ==> forall l :: l in r.body.shipments ==>
            l.shipment.senderId == user.id || l.shipment.receiverId == Some(user.id))
  {
    if user.role != Customer {
      AllVisible(shipments, user);
    }
  }

  lemma {:induction false} AllVisible(shipments: seq<Shipment>, user: User)
    requires user.role != Customer
    ensures Filter(shipments, s => Visible(user, s)) == shipments
  {
    if |shipments| > 0 {
      AllVisible(shipments[1..], user);
      assert shipments == [shipments[0]] + shipments[1..];
    }
  }

  // ---------------------------------------------------------------------------
  // Creation

  /** The quote a new shipment is stored with: the non-express price of its package
      between its two zip codes, absent when a zip has no digit (the price is not a
      number then). */
  function CreationQuote(rules: seq<Pricing.PricingRule>, form: Validators.ShipmentForm): Option<real> {
    var input := CreationInput(form);
    if Pricing.ZipsReadable(input) then Some(Pricing.Quote(rules, input)) else None
  }

  function CreationInput(form: Validators.ShipmentForm): Pricing.PricingInput {
    Pricing.PricingInput(form.weight, form.length, form.width, form.height,
                         Some(form.sender.zip), Some(form.receiver.zip), false, form.category)
  }

  /** The receiver's account, looked up by the receiver email when one is given. */
  function ReceiverAccount(users: seq<User>, email: Option<string>): (r: Option<User>)
    ensures r.Some? ==> Truthy(email) && r.value in users && r.value.email == email.value
    ensures Truthy(email) && (exists u :: u in users && u.email == email.value) ==> r.Some?
  {
    if Truthy(email) then FindUserByEmail(users, email.value) else None
  }

  /** The row `prisma.shipment.create` writes. */
  function NewShipment(id: string, trackingNumber: string, sender: User, form: Validators.ShipmentForm,
                       receiver: Option<User>, cost: Option<real>, delivery: Instant, now: Instant): Shipment {
    Shipment(id, trackingNumber, sender.id, if receiver.Some? then Some(receiver.value.id) else None,
             form.sender, form.receiverName, form.receiverEmail, form.receiverPhone, form.receiver,
             form.weight, form.length, form.width, form.height, form.category, form.description,
             cost, None, false, Pending, now, Some(delivery), None,
             [ShipmentEvent(Pending, Some(form.sender.city + ", " + form.sender.state),
                            Some("Shipment created"), None, now)])
  }

  /** The shipment a validated request creates: numbered from the clock reading and the
      random draw, priced without express, due after the non-express delivery days. */
  function Created(rules: seq<Pricing.PricingRule>, users: seq<User>, sender: User, form: Validators.ShipmentForm,
                   id: string, now: nat, random: real): Shipment
    requires 0.0 <= random < 1.0
  {
    NewShipment(id, Utils.TrackingNumber(now, random), sender, form,
                ReceiverAccount(users, form.receiverEmail), CreationQuote(rules, form),
                now + Pricing.DeliveryDays(Pricing.Distance(form.sender.zip, form.receiver.zip), false) * MsPerDay,
                now)
  }

  /** The computations of the handler before the insert: quote, delivery estimate,
      tracking number and receiver lookup. */
  method BuildShipment(rules: seq<Pricing.PricingRule>, users: seq<User>, sender: User,
                       form: Validators.ShipmentForm, id: string, now: nat, random: real)
      returns (shipment: Shipment)
    requires 0.0 <= random < 1.0
    ensures shipment == Created(rules, users, sender, form, id, now, random)
  {
    var input := CreationInput(form);
    var cost: Option<real> := None;
    if Pricing.ZipsReadable(input) {
      var c := Pricing.CalculateShippingCost(rules, input);
      cost := Some(c);
    }
    var delivery := Pricing.EstimatedDeliveryDate(now, form.sender.zip, form.receiver.zip, false);
    var trackingNumber := Utils.TrackingNumber(now, random);
    var receiver := ReceiverAccount(users, form.receiverEmail);
    shipment := NewShipment(id, trackingNumber, sender, form, receiver, cost, delivery, now);
  }

  /** The unique constraint on tracking numbers. */
  predicate TrackingTaken(shipments: seq<Shipment>, trackingNumber: string) {
    exists s :: s in shipments && s.trackingNumber == trackingNumber
  }

  /** POST: authenticate, validate, quote, estimate, number, resolve the receiver, store the
      shipment with its PENDING event, and notify the sender. `id` is the fresh row id,
      `now` the clock, `random` the draw behind the tracking number, `emailOk` the mail
      transport's answers. A validation failure or a tracking number already in use
      answers 400. */
  method CreateShipment(db: Database, caller: Caller, raw: Validators.RawShipment, isEmail: string -> bool,
                        id: string, now: nat, random: real, appUrl: string,
                        formatDate: Instant -> string, emailOk: seq<bool>)
      returns (r: Response<Shipment>)
    requires 0.0 <= random < 1.0 && |emailOk| == 2
    modifies db`shipments, db`notifications
    ensures caller.NoToken? || caller.UnknownToken? ==> r.Failure? && r.status == 401
    ensures caller.SignedIn? && Validators.ParseShipment(raw, isEmail).None? ==> r.Failure? && r.status == 400
    ensures r.Failure? ==> db.shipments == old(db.shipments) && db.notifications == old(db.notifications)
    ensures r.Ok? <==> caller.SignedIn? && Validators.ParseShipment(raw, isEmail).Some?
                       && !TrackingTaken(old(db.shipments), Utils.TrackingNumber(now, random))
    ensures r.Ok? ==>
      && r.status == 201
      && r.body == Created(db.rules, db.users, caller.user, Validators.ParseShipment(raw, isEmail).value,
                           id, now, random)
      && db.shipments == old(db.shipments) + [r.body]
      && db.notifications == old(db.notifications)
           + Notifications.ShipmentRecords(db.templates, db.users, db.shipments, id, PackageReceived, false,
                                           appUrl, formatDate, emailOk, now)
  {
    if caller.NoToken? {
      return Failure(401, "Unauthorized");
    }
    if caller.UnknownToken? {
      return Failure(401, "Invalid token");
    }
    var parsed := Validators.ParseShipment(raw, isEmail);
    if parsed.None? {
      return Failure(400, "Validation failed");
    }
    var shipment := BuildShipment(db.rules, db.users, caller.user, parsed.value, id, now, random);
    if TrackingTaken(db.shipments, shipment.trackingNumber) {
      return Failure(400, "Unique constraint failed on the fields: (`trackingNumber`)");
    }
    InsertAndNotify(db, shipment, appUrl, formatDate, emailOk, now);
    return Ok(201, shipment);
  }

  /** `prisma.shipment.create` followed by the PACKAGE_RECEIVED notification of the sender. */
  method InsertAndNotify(db: Database, shipment: Shipment, appUrl: string, formatDate: Instant -> string,
                         emailOk: seq<bool>, now: Instant)
    requires |emailOk| == 2
    modifies db`shipments, db`notifications
    ensures db.shipments == old(db.shipments) + [shipment]
    ensures db.notifications == old(db.notifications)
              + Notifications.ShipmentRecords(db.templates, db.users, db.shipments, shipment.id, PackageReceived,
                                              false, appUrl, formatDate, emailOk, now)
  {
    db.shipments := db.shipments + [shipment];
    Notifications.SendShipmentNotification(db, shipment.id, PackageReceived, false, appUrl, formatDate, emailOk, now);
  }

  /** A new shipment starts PENDING with exactly one PENDING event, located at the sender's
      city and state; it belongs to its creator, is unpaid, undelivered, and carries a
      receiver account exactly when the receiver email belongs to one. */
  lemma NewShipmentShape(id: string, trackingNumber: string, sender: User, form: Validators.ShipmentForm,
                         users: seq<User>, cost: Option<real>, delivery: Instant, now: Instant)
    ensures var s := NewShipment(id, trackingNumber, sender, form, ReceiverAccount(users, form.receiverEmail),
                                 cost, delivery, now);
      && s.status == Pending && |s.events| == 1 && s.events[0].status == Pending
      && s.events[0].location == Some(form.sender.city + ", " + form.sender.state)
      && s.senderId == sender.id && !s.isPaid && s.actualDelivery.None? && s.actualCost.None?
      && (s.receiverId.Some? ==> exists u :: u in users && u.id == s.receiverId.value
                                             && Truthy(form.receiverEmail) && u.email == form.receiverEmail.value)
  {
    var receiver := ReceiverAccount(users, form.receiverEmail);
    if receiver.Some? {
      assert receiver.value in users;
    }
  }

  /** With non-negative pricing rules the stored quote, when there is one, is a
      non-negative whole number of cents. */
  lemma CreationQuoteNonNegative(rules: seq<Pricing.PricingRule>, raw: Validators.RawShipment,
                                 isEmail: string -> bool)
    requires Validators.ParseShipment(raw, isEmail).Some?
    requires forall r :: r in rules ==> Pricing.NonNegativeRule(r)
    requires Pricing.NonNegativeDimensions(CreationInput(Validators.ParseShipment(raw, isEmail).value))
    ensures var q := CreationQuote(rules, Validators.ParseShipment(raw, isEmail).value);
      q.Some? ==> q.value >= 0.0
  {
    var form := Validators.ParseShipment(raw, isEmail).value;
    if Pricing.ZipsReadable(CreationInput(form)) {
      Pricing.QuoteNonNegativeCents(rules, CreationInput(form));
    }
  }

  /** A shipment appended under a fresh id is the one its id finds. */
  lemma {:induction false} FreshIdFinds(shipments: seq<Shipment>, s: Shipment)
    requires forall t :: t in shipments ==> t.id != s.id
    ensures FindShipmentById(shipments + [s], s.id) == Some(s)
  {
    if |shipments| > 0 {
      assert (shipments + [s])[1..] == shipments[1..] + [s];
      FreshIdFinds(shipments[1..], s);
    }
  }

  /** Creating a shipment under a fresh id writes at most one notification, addressed to
      its sender, for PACKAGE_RECEIVED, and never one to the receiver. */
  lemma CreationNotifiesSenderOnly(templates: map<NotificationEvent, Template>, users: seq<User>,
                                   shipments: seq<Shipment>, s: Shipment, appUrl: string,
                                   formatDate: Instant -> string, emailOk: seq<bool>, now: Instant)
    requires |emailOk| == 2
    requires forall t :: t in shipments ==> t.id != s.id
    ensures var r := Notifications.ShipmentRecords(templates, users, shipments + [s], s.id, PackageReceived, false,
                                                   appUrl, formatDate, emailOk, now);
      |r| <= 1 && forall n :: n in r ==> n.userId == s.senderId && n.event == PackageReceived
  {
    FreshIdFinds(shipments, s);
    Notifications.ShipmentRecordsRecipients(templates, users, shipments + [s], s.id, PackageReceived, false,
                                            appUrl, formatDate, emailOk, now);
  }
}
