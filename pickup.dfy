/** The pickup request endpoint (app/api/pickup/route.ts): signed-in users list pickup
    requests (customers only their own, staff all of them, newest first) and request a
    pickup for themselves. Date parsing, the id generator and the clock are parameters. */
module PickupRoute {
  import opened Common
  import opened Seqs
  import Store
  import Validators

  /** The customer columns the listing selects. */
  datatype Contact = Contact(firstName: string, lastName: string, email: string, phone: Option<string>)

  datatype ListedPickup = ListedPickup(pickup: Pickup, customer: Option<Contact>)

  /** `user.role === 'CUSTOMER' ? { customerId: user.id } : {}`. */
  predicate VisibleTo(user: User, p: Pickup) {
    user.role != Customer || p.customerId == user.id
  }

  function PickupCreated(p: Pickup): int {
    p.createdAt
  }

  function Listed(users: seq<User>, p: Pickup): ListedPickup {
    var c := FindUserById(users, p.customerId);
    ListedPickup(p, if c.Some? then Some(Contact(c.value.firstName, c.value.lastName, c.value.email, c.value.phone)) else None)
  }

  function ListAll(users: seq<User>, pickups: seq<Pickup>): (r: seq<ListedPickup>)
    ensures |r| == |pickups|
    ensures forall i :: 0 <= i < |r| ==> r[i].pickup == pickups[i]
  {
    seq(|pickups|, i requires 0 <= i < |pickups| => Listed(users, pickups[i]))
  }

  /** GET: 401 without a signed-in caller; otherwise the visible requests, newest first. */
  function ListPickups(users: seq<User>, pickups: seq<Pickup>, caller: Caller): (r: Response<seq<ListedPickup>>)
    ensures r.Failure? <==> !caller.SignedIn?
    ensures r.Failure? ==> r.status == 401
    ensures r.Ok? ==> r.status == 200 && |r.body| == CountWhere(pickups, p => VisibleTo(caller.user, p))
    ensures r.Ok? ==> forall i, j :: 0 <= i < j < |r.body| ==> r.body[i].pickup.createdAt >= r.body[j].pickup.createdAt
  {
    match caller
    case NoToken => Failure(401, "Unauthorized")
    case UnknownToken => Failure(401, "Invalid token")
    case SignedIn(user) =>
      Ok(200, ListAll(users, SortDesc(Filter(pickups, p => VisibleTo(user, p)), PickupCreated)))
  }

  /** A customer's listing holds exactly their own requests; staff see every request. */
  lemma ListingScope(users: seq<User>, pickups: seq<Pickup>, user: User)
    ensures var r := ListPickups(users, pickups, SignedIn(user));
      && (forall p :: p in pickups && VisibleTo(user, p) <==> exists e :: e in r.body && e.pickup == p)
      && (user.role != Customer ==> |r.body| == |pickups|)
  {
    var visible := Filter(pickups, p => VisibleTo(user, p));
    var sorted := SortDesc(visible, PickupCreated);
    ListedMembers(users, sorted);
    forall p ensures p in pickups && VisibleTo(user, p) <==> p in sorted {
      SortedMembers(visible, PickupCreated, p);
    }
    if user.role != Customer {
      AllVisible(pickups, user);
    }
  }

  /** The listing of a sequence of requests names exactly those requests. */
  lemma ListedMembers(users: seq<User>, pickups: seq<Pickup>)
    ensures forall p :: p in pickups <==> exists e :: e in ListAll(users, pickups) && e.pickup == p
  {
    var listed := ListAll(users, pickups);
    forall p ensures p in pickups <==> exists e :: e in listed && e.pickup == p {
      if p in pickups {
        var i :| 0 <= i < |pickups| && pickups[i] == p;
        assert listed[i] in listed;
      }
      if exists e :: e in listed && e.pickup == p {
        var e :| e in listed && e.pickup == p;
        var i :| 0 <= i < |listed| && listed[i] == e;
        assert pickups[i] == p;
      }
    }
  }

  lemma {:induction false} AllVisible(pickups: seq<Pickup>, user: User)
    requires user.role != Customer
    ensures Filter(pickups, p => VisibleTo(user, p)) == pickups
  {
    if |pickups| > 0 {
      AllVisible(pickups[1..], user);
      assert pickups == [pickups[0]] + pickups[1..];
    }
  }

  /** The row the create call inserts: owned by the caller, with the parsed date. */
  function NewPickup(form: Validators.PickupForm, customerId: string, date: Instant, id: string, now: Instant): Pickup {
    Pickup(id, customerId, form.address, date, form.preferredTime, form.packageCount, form.notes, now)
  }

  /** POST: 401 without a signed-in caller; 400 for a body the pickup schema refuses or a
      preferred date that does not parse; otherwise 201 and the new request. */
  function PickupOutcome(caller: Caller, raw: Validators.RawPickup, parseDate: string -> Option<Instant>,
                         id: string, now: Instant): (r: Response<Pickup>)
    ensures r.Failure? && r.status == 401 <==> !caller.SignedIn?
    ensures r.Ok? <==>
              && caller.SignedIn? && Validators.ParsePickup(raw).Some?
              && parseDate(Validators.ParsePickup(raw).value.preferredDate).Some?
    ensures r.Failure? ==> r.status == 401 || r.status == 400
    ensures r.Ok? ==>
              && r.status == 201
              && r.body.customerId == caller.user.id
              && r.body.packageCount >= 1
              && r.body.preferredDate == parseDate(raw.preferredDate.value).value
              && r.body.createdAt == now && r.body.id == id
  {
    match caller
    case NoToken => Failure(401, "Unauthorized")
    case UnknownToken => Failure(401, "Invalid token")
    case SignedIn(user) =>
      match Validators.ParsePickup(raw)
      case None => Failure(400, "Validation failed")
      case Some(form) =>
        match parseDate(form.preferredDate)
        case None => Failure(400, "Invalid date")
        case Some(date) => Ok(201, NewPickup(form, user.id, date, id, now))
  }

  /** POST against the store: the pickup table gains the new request, or is left as it was. */
  method CreatePickup(db: Store.Database, caller: Caller, raw: Validators.RawPickup,
                      parseDate: string -> Option<Instant>, id: string, now: Instant) returns (r: Response<Pickup>)
    modifies db`pickups
    ensures r == PickupOutcome(caller, raw, parseDate, id, now)
    ensures r.Ok? ==> db.pickups == old(db.pickups) + [r.body]
    ensures r.Failure? ==> db.pickups == old(db.pickups)
  {
    if caller.NoToken? {
      return Failure(401, "Unauthorized");
    }
    if caller.UnknownToken? {
      return Failure(401, "Invalid token");
    }
    var form := Validators.ParsePickup(raw);
    if form.None? {
      return Failure(400, "Validation failed");
    }
    var date := parseDate(form.value.preferredDate);
    if date.None? {
      return Failure(400, "Invalid date");
    }
    var pickup := NewPickup(form.value, caller.user.id, date.value, id, now);
    db.pickups := db.pickups + [pickup];
    r := Ok(201, pickup);
  }

  /** A request a user creates shows up in that user's own listing afterwards. */
  lemma CreatedIsListed(users: seq<User>, pickups: seq<Pickup>, caller: Caller, raw: Validators.RawPickup,
                        parseDate: string -> Option<Instant>, id: string, now: Instant)
    requires PickupOutcome(caller, raw, parseDate, id, now).Ok?
    ensures var p := PickupOutcome(caller, raw, parseDate, id, now).body;
      exists e :: e in ListPickups(users, pickups + [p], caller).body && e.pickup == p
  {
    var p := PickupOutcome(caller, raw, parseDate, id, now).body;
    ListingScope(users, pickups + [p], caller.user);
    assert p in pickups + [p];
  }
}
