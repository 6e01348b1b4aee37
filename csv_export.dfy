/** The CSV download of the reports page (app/admin/reports/page.tsx, `exportToCSV`): one
    header line and one line per reported shipment, cells joined by commas and lines by
    newlines. Number and date formatting are parameters.

    As written, cells are joined without quoting, so the `City, ST` origin and destination
    cells spill into extra columns (`ExportAsWritten`, `RowsOverflowHeader`). `Export` quotes
    every cell as RFC 4180 section 2 describes, and every line then has the header's eight
    columns (`QuotedColumns`). */
module CsvExport {
  import opened Common
  import opened Strings
  import Reports

  const Headers: seq<string> :=
    ["Tracking Number", "Status", "Sender", "Receiver", "Origin", "Destination", "Cost", "Date"]

  /** `actualCost || estimatedCost || 0`. */
  function ReportedCost(s: Shipment): (c: real)
    ensures NonZero(s.actualCost) ==> c == s.actualCost.value
    ensures !NonZero(s.actualCost) && NonZero(s.estimatedCost) ==> c == s.estimatedCost.value
    ensures !NonZero(s.actualCost) && !NonZero(s.estimatedCost) ==> c == 0.0
    ensures c != 0.0 ==> Some(c) == s.actualCost || Some(c) == s.estimatedCost
  {
    if NonZero(s.actualCost) then s.actualCost.value
    else if NonZero(s.estimatedCost) then s.estimatedCost.value
    else 0.0
  }

  /** `${sender?.firstName} ${sender?.lastName}`: a missing sender prints as `undefined`. */
  function SenderCell(sender: Option<UserSummary>): string {
    if sender.Some? then sender.value.firstName + " " + sender.value.lastName
    else "undefined undefined"
  }

  function Place(a: Address): string {
    a.city + ", " + a.state
  }

  /** The eight cells of a shipment's line. */
  function Cells(row: Reports.ReportRow, formatNumber: real -> string, formatDate: Instant -> string)
    : (cells: seq<string>)
    ensures |cells| == |Headers|
    ensures cells[0] == row.shipment.trackingNumber && cells[1] == StatusName(row.shipment.status)
    ensures cells[2] == SenderCell(row.sender) && cells[3] == row.shipment.receiverName
    ensures cells[4] == Place(row.shipment.sender) && cells[5] == Place(row.shipment.receiver)
    ensures cells[6] == formatNumber(ReportedCost(row.shipment)) && cells[7] == formatDate(row.shipment.createdAt)
  {
    var s := row.shipment;
    [s.trackingNumber, StatusName(s.status), SenderCell(row.sender), s.receiverName,
     Place(s.sender), Place(s.receiver), formatNumber(ReportedCost(s)), formatDate(s.createdAt)]
  }

  // ---------------------------------------------------------------------------
  // As written: `row.join(',')`

  /** One comma-joined line per shipment. */
  function RowLines(rows: seq<Reports.ReportRow>, formatNumber: real -> string, formatDate: Instant -> string)
    : (lines: seq<string>)
    ensures |lines| == |rows|
    ensures forall i :: 0 <= i < |rows| ==> lines[i] == Join(Cells(rows[i], formatNumber, formatDate), ",")
  {
    if rows == [] then []
    else [Join(Cells(rows[0], formatNumber, formatDate), ",")] + RowLines(rows[1..], formatNumber, formatDate)
  }

  function LinesAsWritten(rows: seq<Reports.ReportRow>, formatNumber: real -> string, formatDate: Instant -> string)
    : seq<string>
  {
    [Join(Headers, ",")] + RowLines(rows, formatNumber, formatDate)
  }

  /** Nothing is exported when there is no report; otherwise the lines joined by newlines. */
  function ExportAsWritten(rows: Option<seq<Reports.ReportRow>>, formatNumber: real -> string,
                           formatDate: Instant -> string): Option<string> {
    if rows.None? then None
    else Some(Join(LinesAsWritten(rows.value, formatNumber, formatDate), "\n"))
  }

  /** A cell holding `, ` adds a comma of its own. */
  lemma PlaceHasComma(a: Address)
    ensures Count(Place(a), ',') >= 1
  {
    CountAppend(a.city + ", ", a.state, ',');
    CountAppend(a.city, ", ", ',');
  }

  /** A part's own commas are among those of all the parts. */
  lemma {:induction false} CountAllAtLeast(parts: seq<string>, i: nat, j: nat, c: char)
    requires i < j < |parts|
    ensures CountAll(parts, c) >= Count(parts[i], c) + Count(parts[j], c)
  {
    if i == 0 {
      CountAllPart(parts[1..], j - 1, c);
    } else {
      CountAllAtLeast(parts[1..], i - 1, j - 1, c);
    }
  }

  lemma {:induction false} CountAllPart(parts: seq<string>, j: nat, c: char)
    requires j < |parts|
    ensures CountAll(parts, c) >= Count(parts[j], c)
  {
    if j > 0 {
      CountAllPart(parts[1..], j - 1, c);
    }
  }

  /** No column name holds a comma, a quote or a line break. */
  lemma HeadersPlain()
    ensures forall i :: 0 <= i < |Headers| ==> ',' !in Headers[i] && '"' !in Headers[i] && '\n' !in Headers[i]
    ensures CountAll(Headers, ',') == 0
  {
    forall i | 0 <= i < |Headers|
      ensures ',' !in Headers[i] && '"' !in Headers[i] && '\n' !in Headers[i] && Count(Headers[i], ',') == 0
    {
      HeaderPlain(i);
      CountAbsent(Headers[i], ',');
    }
    CountAllZero(Headers, ',');
  }

  lemma HeaderPlain(i: nat)
    requires i < |Headers|
    ensures ',' !in Headers[i] && '"' !in Headers[i] && '\n' !in Headers[i]
  {
    var h := Headers[i];
    assert forall k :: 0 <= k < |h| ==> 'A' <= h[k] <= 'z' || h[k] == ' ';
  }

  lemma {:induction false} CountAllZero(parts: seq<string>, c: char)
    requires forall i :: 0 <= i < |parts| ==> Count(parts[i], c) == 0
    ensures CountAll(parts, c) == 0
  {
    if |parts| > 0 {
      CountAllZero(parts[1..], c);
    }
  }

  /** The header line splits into its eight column names, but every shipment line splits
      into at least ten cells: the origin and destination each bring a comma of their own,
      so the columns no longer line up with the header. */
  lemma RowsOverflowHeader(row: Reports.ReportRow, formatNumber: real -> string, formatDate: Instant -> string)
    ensures Split(Join(Headers, ","), ',') == Headers
    ensures |Split(Join(Cells(row, formatNumber, formatDate), ","), ',')| >= |Headers| + 2
  {
    HeadersPlain();
    SplitJoin(Headers, ',');
    var cells := Cells(row, formatNumber, formatDate);
    CountJoin(cells, ',');
    PlaceHasComma(row.shipment.sender);
    PlaceHasComma(row.shipment.receiver);
    CountAllAtLeast(cells, 4, 5, ',');
  }

  // ---------------------------------------------------------------------------
  // Corrected: every cell quoted

  /** A cell's quotes doubled. */
  function Escape(f: string): string {
    if f == [] then [] else (if f[0] == '"' then "\"\"" else [f[0]]) + Escape(f[1..])
  }

  /** A cell as a quoted CSV field. */
  function Quote(f: string): string {
    "\"" + Escape(f) + "\""
  }

  function QuotedLine(cells: seq<string>): string {
    Join(seq(|cells|, i requires 0 <= i < |cells| => Quote(cells[i])), ",")
  }

  /** The export with every cell quoted. */
  function Export(rows: Option<seq<Reports.ReportRow>>, formatNumber: real -> string,
                  formatDate: Instant -> string): Option<string> {
    if rows.None? then None
    else
      var body := seq(|rows.value|, i requires 0 <= i < |rows.value| =>
                        QuotedLine(Cells(rows.value[i], formatNumber, formatDate)));
      Some(Join([QuotedLine(Headers)] + body, "\n"))
  }

  /** A left-to-right reading of a line: the commas met outside quotes, and whether the
      reading ends inside a quoted field. */
  function Scan(s: string, inside: bool): (int, bool) {
    if s == [] then (0, inside)
    else if s[0] == '"' then Scan(s[1..], !inside)
    else if s[0] == ',' && !inside then (1 + Scan(s[1..], inside).0, Scan(s[1..], inside).1)
    else Scan(s[1..], inside)
  }

  /** The columns a CSV reader finds on a line. */
  function Columns(line: string): int {
    Scan(line, false).0 + 1
  }

  lemma {:induction false} ScanAppend(a: string, b: string, inside: bool)
    ensures Scan(a + b, inside) == (Scan(a, inside).0 + Scan(b, Scan(a, inside).1).0, Scan(b, Scan(a, inside).1).1)
  {
    if a == [] {
      assert a + b == b;
    } else {
      assert (a + b)[0] == a[0] && (a + b)[1..] == a[1..] + b;
      if a[0] == '"' {
        ScanAppend(a[1..], b, !inside);
      } else {
        ScanAppend(a[1..], b, inside);
      }
    }
  }

  /** Inside a quoted field an escaped cell holds no separator and does not close it. */
  lemma {:induction false} ScanEscape(f: string)
    ensures Scan(Escape(f), true) == (0, true)
  {
    if f != [] {
      ScanEscape(f[1..]);
      var head := if f[0] == '"' then "\"\"" else [f[0]];
      ScanAppend(head, Escape(f[1..]), true);
    }
  }

  lemma ScanQuote(f: string)
    ensures Scan(Quote(f), false) == (0, false)
  {
    ScanEscape(f);
    ScanAppend("\"", Escape(f), false);
    ScanAppend("\"" + Escape(f), "\"", false);
  }

  /** A line of quoted cells reads back as exactly as many columns as it has cells. */
  lemma {:induction false} QuotedColumns(cells: seq<string>)
    requires |cells| >= 1
    ensures Scan(QuotedLine(cells), false) == (|cells| - 1, false)
  {
    var quoted := seq(|cells|, i requires 0 <= i < |cells| => Quote(cells[i]));
    ScanQuote(cells[0]);
    if |cells| > 1 {
      var rest := seq(|cells| - 1, i requires 0 <= i < |cells| - 1 => Quote(cells[1..][i]));
      assert quoted[1..] == rest;
      QuotedColumns(cells[1..]);
      ScanAppend(Quote(cells[0]) + ",", Join(rest, ","), false);
      ScanAppend(Quote(cells[0]), ",", false);
    }
  }

  /** In the quoted export the header and every shipment line have the same eight
      columns, whatever commas or quotes the cells hold. */
  lemma QuotedLinesAligned(row: Reports.ReportRow, formatNumber: real -> string, formatDate: Instant -> string)
    ensures Columns(QuotedLine(Headers)) == |Headers|
    ensures Columns(QuotedLine(Cells(row, formatNumber, formatDate))) == |Headers|
  {
    QuotedColumns(Headers);
    QuotedColumns(Cells(row, formatNumber, formatDate));
  }

  /** No cell of a shipment's line holds a line break. */
  predicate CellsOnOneLine(row: Reports.ReportRow, formatNumber: real -> string, formatDate: Instant -> string) {
    forall c :: c in Cells(row, formatNumber, formatDate) ==> '\n' !in c
  }

  lemma HeaderLineOneLine()
    ensures '\n' !in Join(Headers, ",")
  {
    HeadersPlain();
    JoinNoChar(Headers, ",", '\n');
  }

  /** Without a report nothing is exported; otherwise the export has one line per shipment
      after the header, when no cell holds a line break. */
  lemma ExportLines(rows: seq<Reports.ReportRow>, formatNumber: real -> string, formatDate: Instant -> string)
    requires forall r :: r in rows ==> CellsOnOneLine(r, formatNumber, formatDate)
    ensures ExportAsWritten(None, formatNumber, formatDate).None?
    ensures Split(ExportAsWritten(Some(rows), formatNumber, formatDate).value, '\n')
            == LinesAsWritten(rows, formatNumber, formatDate)
    ensures |LinesAsWritten(rows, formatNumber, formatDate)| == |rows| + 1
  {
    var lines := LinesAsWritten(rows, formatNumber, formatDate);
    var body := RowLines(rows, formatNumber, formatDate);
    HeaderLineOneLine();
    forall i | 0 <= i < |body| ensures '\n' !in body[i] {
      assert rows[i] in rows;
      var cells := Cells(rows[i], formatNumber, formatDate);
      assert forall k :: 0 <= k < |cells| ==> cells[k] in cells;
      JoinNoChar(cells, ",", '\n');
    }
    assert forall i :: 0 <= i < |lines| ==> '\n' !in lines[i] by {
      forall i | 0 <= i < |lines| ensures '\n' !in lines[i] {
        if i > 0 {
          assert lines[i] == body[i - 1];
        }
      }
    }
    SplitJoin(lines, '\n');
  }

  /** Joining parts on a separator adds no character that neither holds. */
  lemma {:induction false} JoinNoChar(parts: seq<string>, sep: string, c: char)
    requires c !in sep
    requires forall i :: 0 <= i < |parts| ==> c !in parts[i]
    ensures c !in Join(parts, sep)
  {
    if |parts| > 1 {
      JoinNoChar(parts[1..], sep, c);
    }
  }
}
