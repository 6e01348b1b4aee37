/** The shipment report endpoint (app/api/reports/shipments/route.ts): for administrators and
    warehouse staff, the shipments created in an optional date range, newest first, with
    their senders, the counts per status and the paid revenue. Date parsing is a
    parameter. */
module Reports {
  import opened Common
  import opened Seqs
  import Dashboard

  /** A listed shipment with its sender's name and email. */
  datatype ReportRow = ReportRow(shipment: Shipment, sender: Option<UserSummary>)

  datatype Statistics = Statistics(statusCounts: seq<(ShipmentStatus, nat)>, totalRevenue: real, totalShipments: nat)

  datatype Report = Report(shipments: seq<ReportRow>, statistics: Statistics)

  /** The creation-date window, when both ends are given. */
  datatype Range = Everything | Between(from: Instant, to: Instant)

  predicate InRange(range: Range, s: Shipment) {
    range.Everything? || (range.from <= s.createdAt <= range.to)
  }

  predicate CanReport(user: User) {
    user.role == Admin || user.role == Warehouse
  }

  /** `startDate && endDate && { createdAt: { gte, lte } }`: a range only when both query
      parameters are non-empty; a date that does not parse makes the query fail. */
  function RangeOf(startDate: Option<string>, endDate: Option<string>, parseDate: string -> Option<Instant>)
    : (r: Option<Range>)
    ensures !(Truthy(startDate) && Truthy(endDate)) ==> r == Some(Everything)
    ensures r.Some? && r.value.Between? ==>
              && Truthy(startDate) && Truthy(endDate)
              && parseDate(startDate.value) == Some(r.value.from) && parseDate(endDate.value) == Some(r.value.to)
    ensures r.None? <==> Truthy(startDate) && Truthy(endDate)
                         && (parseDate(startDate.value).None? || parseDate(endDate.value).None?)
    ensures Truthy(startDate) && Truthy(endDate) && r.Some? ==> r.value.Between?
  {
    if Truthy(startDate) && Truthy(endDate) then
      match (parseDate(startDate.value), parseDate(endDate.value))
      case (Some(a), Some(b)) => Some(Between(a, b))
      case _ => None
    else Some(Everything)
  }

  function ShipmentCreated(s: Shipment): int {
    s.createdAt
  }

  function Row(users: seq<User>, s: Shipment): ReportRow {
    var sender := FindUserById(users, s.senderId);
    ReportRow(s, if sender.Some? then Some(Summary(sender.value)) else None)
  }

  function Rows(users: seq<User>, shipments: seq<Shipment>): (rows: seq<ReportRow>)
    ensures |rows| == |shipments|
    ensures forall i :: 0 <= i < |rows| ==> rows[i].shipment == shipments[i]
  {
    seq(|shipments|, i requires 0 <= i < |shipments| => Row(users, shipments[i]))
  }

  /** The report over the shipments of a range. */
  function ReportOf(users: seq<User>, shipments: seq<Shipment>, range: Range): Report {
    var selected := Filter(shipments, s => InRange(range, s));
    Report(Rows(users, SortDesc(selected, ShipmentCreated)),
           Statistics(Dashboard.Breakdown(AllStatuses, selected),
                      Sum(Filter(selected, (s: Shipment) => s.isPaid), Dashboard.Charged),
                      |selected|))
  }

  /** GET: 401 without a token; 403 for an unknown token or a role other than ADMIN and
      WAREHOUSE; 500 for an unreadable date; otherwise the report. */
  function GetReport(users: seq<User>, shipments: seq<Shipment>, caller: Caller, startDate: Option<string>,
                     endDate: Option<string>, parseDate: string -> Option<Instant>): (r: Response<Report>)
    ensures caller.NoToken? <==> r.Failure? && r.status == 401
    ensures r.Failure? && r.status == 403 <==> caller.UnknownToken? || (caller.SignedIn? && !CanReport(caller.user))
    ensures r.Ok? ==> caller.SignedIn? && CanReport(caller.user) && r.status == 200
    ensures r.Ok? ==> forall row :: row in r.body.shipments ==> row.shipment in shipments
    ensures caller.SignedIn? && CanReport(caller.user) ==>
              (r.Ok? <==> RangeOf(startDate, endDate, parseDate).Some?)
              && (r.Failure? ==> r.status == 500)
    ensures r.Ok? ==> r.body == ReportOf(users, shipments, RangeOf(startDate, endDate, parseDate).value)
  {
    match caller
    case NoToken => Failure(401, "Unauthorized")
    case UnknownToken => Failure(403, "Access denied")
    case SignedIn(user) =>
      if !CanReport(user) then Failure(403, "Access denied")
      else
        match RangeOf(startDate, endDate, parseDate)
        case None => Failure(500, "Failed to generate report")
        case Some(range) =>
          var report := ReportOf(users, shipments, range);
          ReportMembers(users, shipments, range);
          Ok(200, report)
  }

  lemma ReportMembers(users: seq<User>, shipments: seq<Shipment>, range: Range)
    ensures forall row :: row in ReportOf(users, shipments, range).shipments ==>
      row.shipment in shipments && InRange(range, row.shipment)
  {
    var selected := Filter(shipments, s => InRange(range, s));
    var sorted := SortDesc(selected, ShipmentCreated);
    var rows := Rows(users, sorted);
    forall row | row in rows ensures row.shipment in shipments && InRange(range, row.shipment) {
      var i :| 0 <= i < |rows| && rows[i] == row;
      SortedMembers(selected, ShipmentCreated, sorted[i]);
    }
  }

  /** The report lists its shipments newest first, its total is the number listed, and its
      status counts add up to that total. */
  lemma ReportConsistent(users: seq<User>, shipments: seq<Shipment>, range: Range)
    ensures var r := ReportOf(users, shipments, range);
      && r.statistics.totalShipments == |r.shipments|
      && Dashboard.BreakdownTotal(r.statistics.statusCounts) == r.statistics.totalShipments
      && forall i, j :: 0 <= i < j < |r.shipments| ==>
           r.shipments[i].shipment.createdAt >= r.shipments[j].shipment.createdAt
  {
    var selected := Filter(shipments, s => InRange(range, s));
    Dashboard.BreakdownSum(AllStatuses, selected);
    Dashboard.StatusCountsCover(selected);
    var sorted := SortDesc(selected, ShipmentCreated);
    assert SortedDesc(sorted, ShipmentCreated);
  }

  /** Without both dates the report covers every shipment. */
  lemma UnboundedCoversAll(users: seq<User>, shipments: seq<Shipment>)
    ensures ReportOf(users, shipments, Everything).statistics.totalShipments == |shipments|
  {
    SelectEverything(shipments);
  }

  lemma {:induction false} SelectEverything(shipments: seq<Shipment>)
    ensures Filter(shipments, s => InRange(Everything, s)) == shipments
  {
    if |shipments| > 0 {
      SelectEverything(shipments[1..]);
      assert shipments == [shipments[0]] + shipments[1..];
    }
  }

  /** With non-negative actual costs, the revenue is non-negative. */
  lemma RevenueNonNegative(users: seq<User>, shipments: seq<Shipment>, range: Range)
    requires forall s :: s in shipments ==> Dashboard.Charged(s) >= 0.0
    ensures ReportOf(users, shipments, range).statistics.totalRevenue >= 0.0
  {
    var selected := Filter(shipments, s => InRange(range, s));
    SumNonNegative(Filter(selected, (s: Shipment) => s.isPaid), Dashboard.Charged);
  }
}
