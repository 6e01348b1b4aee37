/** The dashboard statistics endpoint (app/api/dashboard/stats/route.ts): a customer sees
    counts over their own shipments; staff see today's and this month's activity, the
    current workload, and the shipments grouped by status. The start of today and of this
    month (local midnight) are parameters. */
module Dashboard {
  import opened Common
  import opened Seqs

  datatype CustomerStats = CustomerStats(totalShipments: nat, inTransit: nat, delivered: nat)

  /** The activity of one period. */
  datatype Period = Period(shipments: nat, delivered: nat, revenue: real)

  datatype StaffStats = StaffStats(today: Period, month: Period, pending: nat, inTransit: nat,
                                   statusBreakdown: seq<(ShipmentStatus, nat)>)

  datatype Stats = ForCustomer(customer: CustomerStats) | ForStaff(staff: StaffStats)

  predicate Involves(user: User, s: Shipment) {
    s.senderId == user.id || s.receiverId == Some(user.id)
  }

  /** `status: { in: ['IN_TRANSIT', 'OUT_FOR_DELIVERY'] }`. */
  predicate Moving(s: Shipment) {
    s.status == InTransit || s.status == OutForDelivery
  }

  predicate DeliveredSince(s: Shipment, since: Instant) {
    s.status == Delivered && s.actualDelivery.Some? && s.actualDelivery.value >= since
  }

  predicate PaidSince(s: Shipment, since: Instant) {
    s.isPaid && s.createdAt >= since
  }

  /** The amount a shipment adds to `_sum.actualCost`: nothing when it has no actual cost. */
  function Charged(s: Shipment): real {
    s.actualCost.GetOr(0.0)
  }

  /** `count({ where: { status } })`. */
  function StatusCount(shipments: seq<Shipment>, st: ShipmentStatus): nat {
    CountWhere(shipments, (s: Shipment) => s.status == st)
  }

  /** `groupBy({ by: ['status'], _count: true })`: one entry per status present. */
  function Breakdown(statuses: seq<ShipmentStatus>, shipments: seq<Shipment>): (b: seq<(ShipmentStatus, nat)>)
    ensures |b| <= |statuses|
    ensures forall e :: e in b ==> e.0 in statuses && e.1 > 0 && e.1 == StatusCount(shipments, e.0)
    ensures forall st :: st in statuses && StatusCount(shipments, st) > 0 ==> (st, StatusCount(shipments, st)) in b
  {
    if statuses == [] then []
    else
      var n := StatusCount(shipments, statuses[0]);
      (if n > 0 then [(statuses[0], n)] else []) + Breakdown(statuses[1..], shipments)
  }

  function CustomerView(shipments: seq<Shipment>, user: User): CustomerStats {
    CustomerStats(CountWhere(shipments, s => Involves(user, s)),
                  CountWhere(shipments, s => Involves(user, s) && Moving(s)),
                  CountWhere(shipments, s => Involves(user, s) && s.status == Delivered))
  }

  function PeriodView(shipments: seq<Shipment>, since: Instant): Period {
    Period(CountWhere(shipments, (s: Shipment) => s.createdAt >= since),
           CountWhere(shipments, s => DeliveredSince(s, since)),
           Sum(Filter(shipments, s => PaidSince(s, since)), Charged))
  }

  function StaffView(shipments: seq<Shipment>, todayStart: Instant, monthStart: Instant): StaffStats {
    StaffStats(PeriodView(shipments, todayStart), PeriodView(shipments, monthStart),
               StatusCount(shipments, Pending), CountWhere(shipments, Moving),
               Breakdown(AllStatuses, shipments))
  }

  /** GET: 401 without a caller; the customer view for customers, the staff view otherwise. */
  function GetStats(shipments: seq<Shipment>, caller: Caller, todayStart: Instant, monthStart: Instant)
    : (r: Response<Stats>)
    ensures r.Failure? <==> !caller.SignedIn?
    ensures r.Failure? ==> r.status == 401
    ensures r.Ok? ==> r.status == 200 && (r.body.ForCustomer? <==> caller.user.role == Customer)
    ensures r.Ok? && caller.user.role == Customer ==> r.body.customer == CustomerView(shipments, caller.user)
    ensures r.Ok? && caller.user.role != Customer ==> r.body.staff == StaffView(shipments, todayStart, monthStart)
  {
    match caller
    case NoToken => Failure(401, "Unauthorized")
    case UnknownToken => Failure(401, "Invalid token")
    case SignedIn(user) =>
      if user.role == Customer then Ok(200, ForCustomer(CustomerView(shipments, user)))
      else Ok(200, ForStaff(StaffView(shipments, todayStart, monthStart)))
  }

  /** A customer's moving and delivered shipments are disjoint parts of their total. */
  lemma CustomerCountsBounded(shipments: seq<Shipment>, user: User)
    ensures var c := CustomerView(shipments, user);
      c.inTransit + c.delivered <= c.totalShipments
  {
    CountDisjoint(shipments, s => Involves(user, s) && Moving(s), s => Involves(user, s) && s.status == Delivered,
                  s => Involves(user, s));
  }

  /** Today lies within this month, so today's counts never exceed the month's, nor (with
      non-negative actual costs) today's revenue the month's. */
  lemma TodayWithinMonth(shipments: seq<Shipment>, todayStart: Instant, monthStart: Instant)
    requires monthStart <= todayStart
    requires forall s :: s in shipments ==> Charged(s) >= 0.0
    ensures var v := StaffView(shipments, todayStart, monthStart);
      && v.today.shipments <= v.month.shipments
      && v.today.delivered <= v.month.delivered
      && v.today.revenue <= v.month.revenue
  {
    CountMonotone(shipments, (s: Shipment) => s.createdAt >= todayStart, (s: Shipment) => s.createdAt >= monthStart);
    CountMonotone(shipments, s => DeliveredSince(s, todayStart), s => DeliveredSince(s, monthStart));
    SumFilterMonotone(shipments, s => PaidSince(s, todayStart), s => PaidSince(s, monthStart), Charged);
  }

  /** Revenue is non-negative when no shipment carries a negative actual cost. */
  lemma RevenueNonNegative(shipments: seq<Shipment>, since: Instant)
    requires forall s :: s in shipments ==> Charged(s) >= 0.0
    ensures PeriodView(shipments, since).revenue >= 0.0
  {
    SumNonNegative(Filter(shipments, s => PaidSince(s, since)), Charged);
  }

  /** A weaker filter sums at least as much of a non-negative measure. */
  lemma {:induction false} SumFilterMonotone(s: seq<Shipment>, p: Shipment -> bool, q: Shipment -> bool,
                                             f: Shipment -> real)
    requires forall x :: p(x) ==> q(x)
    requires forall x :: x in s ==> f(x) >= 0.0
    ensures Sum(Filter(s, p), f) <= Sum(Filter(s, q), f)
  {
    if |s| > 0 {
      SumFilterMonotone(s[1..], p, q, f);
    }
  }

  /** How many of `statuses` equal `st`. */
  function Hits(statuses: seq<ShipmentStatus>, st: ShipmentStatus): nat {
    if statuses == [] then 0 else (if statuses[0] == st then 1 else 0) + Hits(statuses[1..], st)
  }

  /** The counts of the given statuses, added up. */
  function CountTotal(statuses: seq<ShipmentStatus>, shipments: seq<Shipment>): nat {
    if statuses == [] then 0 else StatusCount(shipments, statuses[0]) + CountTotal(statuses[1..], shipments)
  }

  lemma {:induction false} CountTotalCons(statuses: seq<ShipmentStatus>, x: Shipment, rest: seq<Shipment>)
    ensures CountTotal(statuses, [x] + rest) == CountTotal(statuses, rest) + Hits(statuses, x.status)
  {
    if statuses != [] {
      assert ([x] + rest)[1..] == rest;
      CountTotalCons(statuses[1..], x, rest);
    }
  }

  lemma HitsAll(st: ShipmentStatus)
    ensures Hits(AllStatuses, st) == 1
  {
    var k := StatusIndex(st);
    AllStatusesComplete(st);
    HitsOnce(AllStatuses, st, k);
  }

  /** A status that stands exactly once in a list is hit once. */
  lemma {:induction false} HitsOnce(statuses: seq<ShipmentStatus>, st: ShipmentStatus, k: nat)
    requires k < |statuses| && statuses[k] == st
    requires forall i :: 0 <= i < |statuses| && i != k ==> statuses[i] != st
    ensures Hits(statuses, st) == 1
  {
    if k == 0 {
      HitsNone(statuses[1..], st);
    } else {
      HitsOnce(statuses[1..], st, k - 1);
    }
  }

  lemma {:induction false} HitsNone(statuses: seq<ShipmentStatus>, st: ShipmentStatus)
    requires forall i :: 0 <= i < |statuses| ==> statuses[i] != st
    ensures Hits(statuses, st) == 0
  {
    if statuses != [] {
      HitsNone(statuses[1..], st);
    }
  }

  /** Every shipment falls in exactly one status, so the nine status counts add up to the
      number of shipments. */
  lemma {:induction false} StatusCountsCover(shipments: seq<Shipment>)
    ensures CountTotal(AllStatuses, shipments) == |shipments|
  {
    if shipments == [] {
      CountTotalEmpty(AllStatuses);
    } else {
      assert shipments == [shipments[0]] + shipments[1..];
      StatusCountsCover(shipments[1..]);
      CountTotalCons(AllStatuses, shipments[0], shipments[1..]);
      HitsAll(shipments[0].status);
    }
  }

  lemma {:induction false} CountTotalEmpty(statuses: seq<ShipmentStatus>)
    ensures CountTotal(statuses, []) == 0
  {
    if statuses != [] {
      CountTotalEmpty(statuses[1..]);
    }
  }

  /** The grouped counts add up to the counts of the statuses, the absent ones adding nothing. */
  lemma {:induction false} BreakdownSum(statuses: seq<ShipmentStatus>, shipments: seq<Shipment>)
    ensures BreakdownTotal(Breakdown(statuses, shipments)) == CountTotal(statuses, shipments)
  {
    if statuses != [] {
      BreakdownSum(statuses[1..], shipments);
      var n := StatusCount(shipments, statuses[0]);
      BreakdownTotalAppend(if n > 0 then [(statuses[0], n)] else [], Breakdown(statuses[1..], shipments));
    }
  }

  function BreakdownTotal(b: seq<(ShipmentStatus, nat)>): nat {
    if b == [] then 0 else b[0].1 + BreakdownTotal(b[1..])
  }

  lemma {:induction false} BreakdownTotalAppend(a: seq<(ShipmentStatus, nat)>, b: seq<(ShipmentStatus, nat)>)
    ensures BreakdownTotal(a + b) == BreakdownTotal(a) + BreakdownTotal(b)
  {
    if a != [] {
      assert (a + b)[1..] == a[1..] + b;
      BreakdownTotalAppend(a[1..], b);
    } else {
      assert a + b == b;
    }
  }

  /** The staff status breakdown accounts for every shipment exactly once. */
  lemma BreakdownCoversAll(shipments: seq<Shipment>, todayStart: Instant, monthStart: Instant)
    ensures BreakdownTotal(StaffView(shipments, todayStart, monthStart).statusBreakdown) == |shipments|
  {
    BreakdownSum(AllStatuses, shipments);
    StatusCountsCover(shipments);
  }
}
