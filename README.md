# ConsignPro core, modelled in Dafny

ConsignPro is a consignment and parcel logistics platform. Customers create shipments, staff
move them through a nine-status lifecycle, and a pricing engine quotes each parcel and
estimates its delivery date. This project models the platform's core:

- the pricing engine of `lib/utils/pricing.ts`: rule selection, the cost pipeline, the
  zip-code distance proxy and the delivery-day table;
- the helpers of `lib/utils/index.ts`: tracking numbers, volume, status colour and label;
- the notification dispatcher of `lib/utils/notifications.ts`: template rendering, the
  email and SMS gates, the stored record, and the fan-out to sender and receiver;
- the request schemas of `lib/validators/index.ts`;
- the API route handlers for shipments, the price calculator, dashboard statistics,
  reports, staff, settings, login, pickups and notifications;
- the CSV export of the admin report page.

Each route handler is a function from the store's tables, the caller and the request to
a `Response` (a status with a body, or a status with an error). A handler that writes is a
method on the `Store.Database` class, whose fields are the tables. Each such method is
proved against a specification function of the old tables.

Some inputs are parameters of the model rather than computed:

- the caller identity that `getUserFromToken` resolves (`Caller`);
- the clock reading and the random draw;
- date parsing and formatting;
- the password hash, password check and token signer;
- the email-format check;
- whether the mail transport succeeded.

Money is an exact `real`, and `Math.round` is `floor(x + 1/2)`.

The express filter of rule selection applies only to express requests
(lib/utils/pricing.ts:31), so a standard 2.5 kg parcel under the seeded rules is priced by
the priority-2 express rule at 26.26 (`Pricing.SeededQuotes`).

## Model

| member | source | states |
|---|---|---|
| `Common.StatusFromName` | lib/validators/index.ts:76-86 | a wire name is read as a status only if that status prints back as the same name |
| `Common.StatusNameRoundTrip` | lib/validators/index.ts:76-86 | every status's wire name reads back as that status |
| `Common.FindUserById` | lib/auth/index.ts:36-38 | the user found has the id and is in the table; no user found means none has the id |
| `Common.FindUserByEmail` | app/api/auth/login/route.ts:14-16 | the user found has the email; no user found means none has it |
| `Common.FindShipmentById` | lib/utils/notifications.ts:111-119 | the shipment found has the id; no shipment found means none has it |
| `Common.Sanitize` | lib/auth/index.ts:41-44 | the returned record keeps every column of the user except the password |
| `Common.SanitizeHidesPassword` | lib/auth/index.ts:41-44 | two users differing only in password give the same returned record |
| `Common.RoleFromName` | app/api/staff/route.ts:87 | a role name is accepted exactly when it names one of the four roles |
| `Strings.Split` | lib/utils/index.ts:60 | splitting yields one more part than there are separators, no part holds a separator, and joining the parts on the separator gives the text back |
| `Strings.SplitJoin` | lib/utils/index.ts:60-62 | splitting a join on a separator that occurs in no part gives the parts back |
| `Strings.CountJoin` | app/admin/reports/page.tsx:59 | a joined line holds the parts' separators plus one per gap |
| `Strings.ReplaceAbsent` | lib/utils/notifications.ts:49 | a global replace of an absent pattern leaves the text unchanged |
| `Strings.ReplaceLeftmost` | lib/utils/notifications.ts:49 | a global replace rewrites the leftmost occurrence and continues after it |
| `Strings.DecimalRoundTrip` | lib/utils/index.ts:12 | a number's decimal digits read back as the number |
| `Strings.DecimalLength` | lib/utils/index.ts:9-11 | a number below 10^k prints in at most k digits |
| `Strings.PadStart` | lib/utils/index.ts:11 | padding reaches the width with fill characters in front and keeps the text at the end |
| `Seqs.Filter` | app/api/shipments/route.ts:31-38 | the filtered rows are exactly the rows satisfying the condition |
| `Seqs.FilterCounts` | app/api/shipments/route.ts:31-60 | every row satisfying the condition is kept as often as it occurs in the table, and no other row is kept |
| `Seqs.FilterConcat` | app/api/shipments/route.ts:31-38 | filtering a concatenation filters each part and keeps the parts in order, so the kept rows keep their order |
| `Seqs.CountMonotone` | app/api/dashboard/stats/route.ts:26-53 | a stronger condition never counts more rows |
| `Seqs.CountDisjoint` | app/api/dashboard/stats/route.ts:26-53 | two disjoint conditions that both imply a third count together at most as much as it |
| `Seqs.Take` | app/api/notifications/route.ts:22 | `take: n` returns a prefix of at most n rows, and all rows when there are fewer |
| `Seqs.Window` | app/api/shipments/route.ts:56-58 | `skip: k, take: n` returns the min(n, rows after k) consecutive rows that start at position k |
| `Seqs.WindowFromEnd` | app/api/shipments/route.ts:56-58 | `skip: k, take: -n` returns the min(n, rows before the last k) consecutive rows that end just before the last k |
| `Seqs.WindowFromEndReversed` | app/api/shipments/route.ts:56-58 | reading from the end equals reversing the rows, taking the window and reversing the result back |
| `Seqs.WindowsPrefix` | app/api/shipments/route.ts:26-58 | pages 1 to p of n rows, one after the other, are the first p times n rows (all of them when fewer) |
| `Seqs.SortDesc` | app/api/shipments/route.ts:58 | ordering by createdAt descending yields a sorted permutation of the rows |
| `Seqs.SortedMembers` | app/api/shipments/route.ts:58 | ordering keeps exactly the same rows |
| `Seqs.SumNonNegative` | app/api/dashboard/stats/route.ts:56-109 | a sum of non-negative amounts is non-negative |
| `Utils.RandomSuffix` | lib/utils/index.ts:9 | the random suffix is below 10000 |
| `Utils.TrackingNumber` | lib/utils/index.ts:7-13 | a tracking number is "CP", the timestamp's digits, and four more digits |
| `Utils.TrackingNumberRoundTrip` | lib/utils/index.ts:7-13 | a tracking number reads back as its timestamp and random suffix |
| `Utils.Volume` | lib/utils/index.ts:40-42 | positive dimensions give a positive volume |
| `Utils.VolumeScale` | lib/utils/index.ts:40-42 | a million cubic centimetres make one cubic metre |
| `Utils.StatusColor` | lib/utils/index.ts:44-57 | the colour is never empty, and it is gray exactly for PENDING, CANCELLED and keys that name no status (inherited object members aside, see "Left out") |
| `Utils.StatusColorsDistinct` | lib/utils/index.ts:45-55 | two different statuses, not both gray ones, get different colours |
| `Utils.StatusLabelCharwise` | lib/utils/index.ts:59-63 | the label agrees character by character with the reference: `_` becomes a space, word starts upper-case, the rest lower-case (ASCII case mapping, see "Left out") |
| `Utils.LabelWithFirstIsLabelFrom` | lib/utils/index.ts:59-63 | the split-capitalize-join label equals the character-wise reference |
| `Utils.StatusLabelWords` | lib/utils/index.ts:59-63 | the label has one word per underscore-separated part |
| `Utils.OutForDeliveryLabel` | lib/utils/index.ts:59-63 | OUT_FOR_DELIVERY is labelled "Out For Delivery" |
| `Pricing.SelectRule` | lib/utils/pricing.ts:28-45 | the rule chosen is eligible and has the highest priority among eligible rules; none is chosen only when no rule is eligible |
| `Pricing.ParseDigitsIsDecimal` | lib/utils/pricing.ts:85-86 | `parseInt` of the digits is their decimal value |
| `Pricing.ZipNumber` | lib/utils/pricing.ts:85-86 | a zip has a number exactly when it contains a digit |
| `Pricing.Distance` | lib/utils/pricing.ts:82-92 | the distance is present exactly when both zips contain a digit, and is never negative |
| `Pricing.DistanceSymmetric` | lib/utils/pricing.ts:82-92 | the distance is symmetric, and a zip is at distance 0 from itself |
| `Pricing.ZoneDistance` | lib/utils/pricing.ts:59-62 | a distance scales the cost only when both zips are given, is never negative, and is present whenever both are given and readable |
| `Pricing.PackageVolume` | lib/utils/pricing.ts:53-56 | a volume term applies exactly when all three dimensions are given and non-zero |
| `Pricing.DistanceFactor` | lib/utils/pricing.ts:61 | the factor applied for a non-negative distance is never below 1, so distance never discounts |
| `Pricing.MathRound` | lib/utils/pricing.ts:78 | `Math.round` gives the nearest integer, halves up |
| `Pricing.RoundCents` | lib/utils/pricing.ts:78 | the price is within half a cent of the cost and a whole number of cents |
| `Pricing.CalculateShippingCost` | lib/utils/pricing.ts:15-79 | the staged computation returns the quote: the fallback `weight * 5`, or the selected rule's cost rounded to cents |
| `Pricing.FallbackIsUnrounded` | lib/utils/pricing.ts:39-42 | without an eligible rule the quote is exactly `weight * 5` for every input, and is not rounded (1.001 kg is quoted 5.005) |
| `Pricing.QuoteNonNegativeCents` | lib/utils/pricing.ts:15-79 | under non-negative rules the quote is non-negative, and a whole number of cents when a rule applies |
| `Pricing.PipelineNonNegative` | lib/utils/pricing.ts:47-75 | each pipeline stage keeps a non-negative cost non-negative |
| `Pricing.PipelineMonotone` | lib/utils/pricing.ts:47-75 | each pipeline stage preserves the order of running costs |
| `Pricing.DistanceNeverDiscounts` | lib/utils/pricing.ts:59-62 | a quote with a distance costs at least as much as without one |
| `Pricing.QuoteMonotoneInWeight` | lib/utils/pricing.ts:15-79 | a heavier parcel is never quoted less |
| `Pricing.SeededQuotes` | lib/utils/pricing.ts:28-45 | the seeded rules quote a 2.5 kg Electronics parcel at 26.26 standard and 48.76 express |
| `Pricing.EstimatedDeliveryDate` | lib/utils/pricing.ts:94-118 | the estimate is now plus the day table's count of days |
| `Pricing.DeliveryDaysRange` | lib/utils/pricing.ts:101-112 | standard estimates are 3, 5, 7 or 10 days; express ones are 1, 2, 3 or 5 days and never more than standard |
| `Pricing.DeliveryDaysMonotone` | lib/utils/pricing.ts:104-107 | a longer distance never gives an earlier estimate |
| `Validators.Defaulted` | lib/validators/index.ts:24 | a given string is kept and a missing one takes the default |
| `Validators.ParseLogin` | lib/validators/index.ts:4-7 | a login body parses exactly when its email is well formed and its password has 6 or more characters |
| `Validators.ParseRegister` | lib/validators/index.ts:9-15 | registration adds names of 2 or more characters to the login constraints; email, password, names and phone are the body's |
| `Validators.ParseShipment` | lib/validators/index.ts:18-43 | a shipment body parses exactly when every required field meets its minimum, the weight is positive and dimensions are positive where given; every parsed field is the body's, and the countries default to USA |
| `Validators.ParsePickup` | lib/validators/index.ts:50-60 | a pickup body parses exactly when its fields are valid; address, date, time and notes are the body's, the country defaults to USA, and the package count is a positive integer, 1 by default |
| `Validators.ParsePricing` | lib/validators/index.ts:63-72 | a calculator body parses exactly when the weight is positive and both zips have 5 or more characters; weight, dimensions, zips and category are the body's, and express defaults to false |
| `Validators.ValidatedQuoteNonNegative` | lib/validators/index.ts:63-72 | a validated request is quoted a non-negative amount under non-negative rules |
| `Validators.ParseStatusUpdate` | lib/validators/index.ts:75-89 | a status update parses exactly when its status is one of the nine names |
| `Notifications.Placeholder` | lib/utils/notifications.ts:49 | the placeholder of a key is the key between double braces |
| `Notifications.ReplaceVariables` | lib/utils/notifications.ts:46-53 | the loop over the variables, then the customer name, renders the text |
| `Notifications.Lookup` | lib/utils/notifications.ts:48 | a key is found exactly when the data holds it, with one of its values |
| `Notifications.RenderNoBrace` | lib/utils/notifications.ts:46-53 | a text without a brace renders unchanged |
| `Notifications.OnlyOccurrence` | lib/utils/notifications.ts:49 | in brace-free surroundings a placeholder occurs only where it was put |
| `Notifications.ReplaceSingle` | lib/utils/notifications.ts:49 | replacing a key's placeholder puts the value in its place and nothing else changes |
| `Notifications.ReplaceOther` | lib/utils/notifications.ts:49 | replacing another key's placeholder changes nothing |
| `Notifications.SubstituteSingle` | lib/utils/notifications.ts:48-50 | a single placeholder is filled with the key's value when the data holds the key, and is kept otherwise |
| `Notifications.RenderSingle` | lib/utils/notifications.ts:46-53 | a single placeholder renders as its value, else the customer's name for customerName, else stays |
| `Notifications.Dispatch` | lib/utils/notifications.ts:23-104 | a record is stored only for an active template and a known user; it marks the email sent exactly when email was wanted, there is a body and the transport succeeded, and the SMS exactly when SMS was wanted, there is a body and the user has a phone; its title renders `emailSubject` or else the event name, and its message renders `emailBody`, else `smsBody`, else the empty text |
| `Notifications.AsSeq` | lib/utils/notifications.ts:86-97 | a skipped dispatch adds no record and a sent one adds exactly one |
| `Notifications.SendNotification` | lib/utils/notifications.ts:23-104 | the table gains the dispatched record; the outcome's flags are the record's; a mail goes out exactly when email was wanted and the template has a body, to the user with the rendered subject and body |
| `Notifications.EventNameNoBrace` | lib/utils/notifications.ts:91 | event names contain no brace |
| `Notifications.TitleFallsBackToEvent` | lib/utils/notifications.ts:91 | without a subject the title is the event's name |
| `Notifications.ShipmentVariables` | lib/utils/notifications.ts:121-128 | the variables are the tracking number, the tracking URL, "city, state" of the receiver, and the formatted estimated delivery, or "TBD" when there is none or it formats empty |
| `Notifications.Recipients` | lib/utils/notifications.ts:130-146 | the sender is always notified, and the receiver too exactly when asked and registered |
| `Notifications.SendShipmentNotification` | lib/utils/notifications.ts:106-147 | the table gains the records of the shipment's recipients |
| `Notifications.FanOutSingle` | lib/utils/notifications.ts:130-136 | one recipient yields that recipient's dispatch |
| `Notifications.FanOutPair` | lib/utils/notifications.ts:130-146 | two recipients yield the sender's then the receiver's dispatch |
| `Notifications.FanOutRecords` | lib/utils/notifications.ts:130-146 | the fan-out yields at most one record per recipient, each for the event with BOTH channels and the shipment's variables |
| `Notifications.ShipmentRecordsRecipients` | lib/utils/notifications.ts:106-147 | an unknown shipment notifies nobody; otherwise only the sender and, when asked, the receiver are notified |
| `ShipmentsRoute.ListEntry` | app/api/shipments/route.ts:41-59 | each listed shipment carries its newest event, and one exactly when it has events |
| `ShipmentsRoute.NewestFirst` | app/api/shipments/route.ts:52-55 | the first event after ordering is the newest one |
| `ShipmentsRoute.PageCount` | app/api/shipments/route.ts:69 | the page count is the least integer at least total / limit, and null for a zero limit |
| `ShipmentsRoute.VisibleSorted` | app/api/shipments/route.ts:31-56 | the listed order holds exactly the caller's visible shipments, newest first, as many as the count |
| `ShipmentsRoute.QueryPage` | app/api/shipments/route.ts:28-58 | a non-negative take returns the rows from position skip on, a negative take those ending before the last skip rows, min(\|take\|, rows left) of them |
| `ShipmentsRoute.PageOfSorted` | app/api/shipments/route.ts:56-58 | a page of the newest-first list is newest first and holds only listed shipments |
| `ShipmentsRoute.ListShipments` | app/api/shipments/route.ts:11-79 | 401 without a known caller and 500 exactly for a negative skip; otherwise the page is the skip/take window of the visible shipments newest first, with the visible total and `Math.ceil(total / limit)` pages |
| `ShipmentsRoute.PagesCoverAll` | app/api/shipments/route.ts:26-69 | with a positive limit, pages 1 to `pages` list every visible shipment exactly once, newest first |
| `ShipmentsRoute.ListingScope` | app/api/shipments/route.ts:31-38 | staff see every shipment, and customers only those they send or receive |
| `ShipmentsRoute.ReceiverAccount` | app/api/shipments/route.ts:120-124 | the receiver is linked only to an account with the receiver's email, and always when one exists |
| `ShipmentsRoute.BuildShipment` | app/api/shipments/route.ts:100-146 | the shipment row built is the one the creation spec describes |
| `ShipmentsRoute.CreateShipment` | app/api/shipments/route.ts:82-162 | 401 without a caller and 400 for an invalid body, with no change; otherwise one shipment is stored and the sender is notified |
| `ShipmentsRoute.InsertAndNotify` | app/api/shipments/route.ts:127-152 | the shipment is appended, then its PACKAGE_RECEIVED records |
| `ShipmentsRoute.NewShipmentShape` | app/api/shipments/route.ts:127-146 | a new shipment is PENDING with one PENDING event at the sender's city, unpaid, undelivered, and linked only to a matching receiver |
| `ShipmentsRoute.CreationQuoteNonNegative` | app/api/shipments/route.ts:100-108 | a created shipment's estimated cost is non-negative under non-negative rules |
| `ShipmentsRoute.FreshIdFinds` | app/api/shipments/route.ts:127-152 | the shipment just stored is found by its fresh id |
| `ShipmentsRoute.CreationNotifiesSenderOnly` | app/api/shipments/route.ts:149-152 | creation notifies at most the sender, with PACKAGE_RECEIVED |
| `PricingRoute.PriceRequest` | app/api/pricing/calculate/route.ts:5-38 | a request fails with 400 exactly when the body is invalid; else 200 with the quote of the validated input (null when a zip has no digit) and the delivery estimate for the same distance and the same express flag |
| `PricingRoute.Calculate` | app/api/pricing/calculate/route.ts:5-38 | the handler answers the price request |
| `PricingRoute.PricedBounds` | app/api/pricing/calculate/route.ts:10-30 | a valid request is priced non-negatively and due between one and ten days out |
| `PricingRoute.ExpressNoLater` | app/api/pricing/calculate/route.ts:21-25 | express never moves the estimate later |
| `Dashboard.Breakdown` | app/api/dashboard/stats/route.ts:105-108 | the breakdown lists exactly the present statuses, each with its count |
| `Dashboard.GetStats` | app/api/dashboard/stats/route.ts:7-134 | 401 without a caller; customers get the counts over their own shipments and everyone else the staff view of today, the month, the workload and the breakdown |
| `Dashboard.CustomerCountsBounded` | app/api/dashboard/stats/route.ts:26-53 | a customer's in-transit and delivered counts together never exceed the total |
| `Dashboard.TodayWithinMonth` | app/api/dashboard/stats/route.ts:19-24 | today's counts and revenue never exceed the month's |
| `Dashboard.RevenueNonNegative` | app/api/dashboard/stats/route.ts:56-109 | revenue is non-negative when no actual cost is negative |
| `Dashboard.SumFilterMonotone` | app/api/dashboard/stats/route.ts:56-109 | a weaker filter sums at least as much |
| `Dashboard.StatusCountsCover` | app/api/dashboard/stats/route.ts:105-108 | the nine status counts add up to the number of shipments |
| `Dashboard.BreakdownSum` | app/api/dashboard/stats/route.ts:105-108 | the breakdown adds up to the counts of its statuses |
| `Dashboard.BreakdownCoversAll` | app/api/dashboard/stats/route.ts:105-108 | the staff breakdown accounts for every shipment exactly once |
| `Reports.RangeOf` | app/api/reports/shipments/route.ts:20-30 | a date range applies exactly when both dates are given, with the parsed dates; it fails exactly when a given date does not parse |
| `Reports.Rows` | app/api/reports/shipments/route.ts:33-45 | each report row carries its shipment |
| `Reports.GetReport` | app/api/reports/shipments/route.ts:9-76 | 401 without a token, 403 for others than admin and warehouse; for those, 200 with the report of the range exactly when the dates are absent or readable, else 500 |
| `Reports.ReportMembers` | app/api/reports/shipments/route.ts:33-45 | every reported shipment is in the table and in the range |
| `Reports.ReportConsistent` | app/api/reports/shipments/route.ts:46-69 | the total is the number of rows, the status counts add up to it, and rows are newest first |
| `Reports.UnboundedCoversAll` | app/api/reports/shipments/route.ts:20-30 | without both dates the report covers every shipment |
| `Reports.RevenueNonNegative` | app/api/reports/shipments/route.ts:51-59 | the report's revenue is non-negative under non-negative actual costs |
| `CsvExport.ReportedCost` | app/admin/reports/page.tsx:55 | the cost cell is the actual cost when non-zero, else the estimated cost when non-zero, else 0 |
| `CsvExport.Cells` | app/admin/reports/page.tsx:48-57 | a row has eight cells: tracking number, status name, sender name, receiver name, "city, state" of origin and destination, the formatted reported cost and the formatted date |
| `CsvExport.RowLines` | app/admin/reports/page.tsx:59 | each line is its row's cells joined with commas |
| `CsvExport.HeadersPlain` | app/admin/reports/page.tsx:47 | no header contains a comma, a quote or a newline |
| `CsvExport.RowsOverflowHeader` | app/admin/reports/page.tsx:47-59 | the header splits into its eight names while every data row splits into ten or more fields |
| `CsvExport.ScanQuote` | app/admin/reports/page.tsx:59 | a quoted cell contains no separating comma |
| `CsvExport.QuotedColumns` | app/admin/reports/page.tsx:59 | a line of quoted cells has one separating comma per gap |
| `CsvExport.QuotedLinesAligned` | app/admin/reports/page.tsx:47-59 | with quoting, the header and every row have eight columns |
| `CsvExport.HeaderLineOneLine` | app/admin/reports/page.tsx:47 | the header line contains no newline |
| `CsvExport.ExportLines` | app/admin/reports/page.tsx:45-59 | no export without data; otherwise the file splits into the header line and one line per row |
| `StaffRoute.Published` | app/api/staff/route.ts:28-35 | the listed accounts are the rows without passwords |
| `StaffRoute.ListStaff` | app/api/staff/route.ts:6-47 | 401 without a token, 403 for non-admins; otherwise the staff accounts, newest first |
| `StaffRoute.ListedAreStaff` | app/api/staff/route.ts:20-36 | exactly the ADMIN, WAREHOUSE and DRIVER accounts are listed |
| `StaffRoute.RoleOf` | app/api/staff/route.ts:87 | the role defaults to CUSTOMER and otherwise must name a role |
| `StaffRoute.CreateOutcome` | app/api/staff/route.ts:50-109 | 401, 403, then 400 for an existing email, with no change; success appends exactly one account with a new email and returns it without password |
| `StaffRoute.CreateStaff` | app/api/staff/route.ts:50-109 | the handler answers and updates the user table as the outcome says |
| `StaffRoute.CreateKeepsEmailsUnique` | app/api/staff/route.ts:67-76 | creating staff keeps user emails unique |
| `StaffRoute.DefaultPassword` | app/api/staff/route.ts:78 | without a password the account gets the hash of "password123" |
| `SettingsRoute.ToObject` | app/api/settings/route.ts:17-20 | the reduce loop builds the fold of the rows, later rows overwriting earlier ones |
| `SettingsRoute.CollectKeys` | app/api/settings/route.ts:17-20 | the object has exactly the rows' keys |
| `SettingsRoute.CollectValues` | app/api/settings/route.ts:17-20 | with unique keys each row's value is found under its key |
| `SettingsRoute.CollectSize` | app/api/settings/route.ts:17-20 | with unique keys the object has one entry per row |
| `SettingsRoute.GetSettings` | app/api/settings/route.ts:6-30 | the rows are those of the category when one is given, and the object is their fold |
| `SettingsRoute.FilterKeepsKeysUnique` | app/api/settings/route.ts:11-14 | selecting rows keeps their keys unique |
| `SettingsRoute.PageObject` | app/api/settings/route.ts:11-22 | the object holds exactly the selected keys, each with its row's value, one entry per row |
| `SettingsRoute.IndexOf` | app/api/settings/route.ts:50 | the position found is the first row with the key; none found means no row has it |
| `SettingsRoute.Upsert` | app/api/settings/route.ts:49-62 | the store refuses only a missing key, or a new key without a value |
| `SettingsRoute.UpsertResponse` | app/api/settings/route.ts:33-72 | 401, 403 for non-admins, 500 when refused; otherwise 200 with the upserted row |
| `SettingsRoute.UpdateSetting` | app/api/settings/route.ts:33-72 | the table changes, to the upsert's result, exactly when the answer is 200 |
| `SettingsRoute.UpsertStores` | app/api/settings/route.ts:49-62 | afterwards the key holds the returned row with every property the body gave; a missing value keeps the stored one |
| `SettingsRoute.UpsertOthers` | app/api/settings/route.ts:49-62 | every other key is unchanged |
| `SettingsRoute.UpsertIdempotent` | app/api/settings/route.ts:49-62 | upserting the same body twice is the same as once |
| `SettingsRoute.UpsertGrowth` | app/api/settings/route.ts:49-62 | the table grows by one exactly when the key was absent |
| `SettingsRoute.UpsertKeepsKeysUnique` | app/api/settings/route.ts:49-62 | the upsert keeps keys unique |
| `LoginRoute.Login` | app/api/auth/login/route.ts:6-57 | 400 exactly for an invalid body; success only for a known, active account whose password verifies, returning it without password and a token of its id, email and role; 403 only after the password verified |
| `LoginRoute.UnknownEmailLooksLikeWrongPassword` | app/api/auth/login/route.ts:18-33 | an unknown email and a wrong password get the identical 401 |
| `LoginRoute.PasswordDecidesFirst` | app/api/auth/login/route.ts:26-41 | for a known email, 401 exactly when the password fails, success exactly when it verifies and the account is active |
| `PickupRoute.ListAll` | app/api/pickup/route.ts:25-44 | each listed pickup carries its request |
| `PickupRoute.ListPickups` | app/api/pickup/route.ts:7-54 | 401 without a known caller; otherwise the visible requests, newest first |
| `PickupRoute.ListingScope` | app/api/pickup/route.ts:21-23 | a customer sees exactly their own requests, staff all of them |
| `PickupRoute.PickupOutcome` | app/api/pickup/route.ts:57-90 | 401 without a caller, 400 for an invalid body or date; success is 201 with the caller as customer and the parsed date |
| `PickupRoute.CreatePickup` | app/api/pickup/route.ts:57-90 | the table gains the new request exactly on success |
| `PickupRoute.CreatedIsListed` | app/api/pickup/route.ts:21-23 | a request a user creates appears in that user's listing |
| `NotificationsRoute.Newest` | app/api/notifications/route.ts:19-23 | the user's notifications are exactly theirs, newest first |
| `NotificationsRoute.GetInbox` | app/api/notifications/route.ts:5-40 | 401 without a caller; at most 50 of the caller's own notifications, newest first, and the unread count |
| `NotificationsRoute.InboxKeepsNewest` | app/api/notifications/route.ts:19-23 | the page holds min(50, own) notifications and none left off is newer than one on it |
| `NotificationsRoute.UnreadWithinOwn` | app/api/notifications/route.ts:25-30 | the unread count never exceeds the user's notifications |

## Left out

- Authentication is a parameter. The model takes the caller that `getUserFromToken` resolves. Bcrypt, JWT and the token expiry are not modelled.
- The clock, `Math.random`, `new Date(...)` parsing, `toLocaleDateString` and number formatting are parameters. Time zones, DST and the local midnight of the dashboard's "today" and "month" are not modelled.
- Email delivery is a boolean parameter, not a call to nodemailer. Console output and the SMS placeholder's log line are left out.
- Floating point is replaced by exact reals, so IEEE rounding residue is not modelled.
- `Pricing.CalculateShippingCost` requires digits in both zips when both are given. A zip with no digit makes the source's cost NaN. The calculator route and shipment creation model that case as a missing cost (None), which JSON serialises as null.
- Ties among rules of equal priority are decided by store order in the model. The database's order among them is unspecified, so contracts promise only some maximal rule.
- Ordering among rows with equal `createdAt`, and the settings listing's key-ascending order, are not modelled. Only createdAt-descending sortedness is stated.
- Template keys are taken literally. Regex-special characters in a key, and `$` patterns in a replacement value, are not modelled.
- Template variables follow the data object's insertion order. JavaScript's reordering of integer-like keys is not modelled.
- Prisma failures other than the modelled refusals are left out: lost connections and unique-constraint races. So are the generic 500/400 catch branches they would reach.
- Request bodies of the wrong JSON type, and ZodError message texts, are left out. Error strings in the model are placeholders of the handlers' messages.
- The ids Prisma generates are a parameter, assumed fresh where a lemma needs it.
- `ShipmentsRoute.CreateShipment` treats a tracking-number collision as a refused insert (the unique constraint), not as a retry.
- Pagination with a non-numeric page or limit (NaN from `parseInt`) is not modelled. Otherwise a negative skip is the only refusal (500). A zero limit reads no rows and reports null pages. A negative limit reads from the end of the list, as Prisma documents for a negative `take`.
- StatusColor: `colors[status]` on an object literal also finds inherited `Object.prototype` members ("constructor", "toString", "__proto__" and the like), which are truthy and so not gray. The model answers gray for them; callers pass the nine status names.
- StatusLabelCharwise: `toUpperCase`/`toLowerCase` are Unicode-aware ("ß" upper-cases to "SS" and changes the length). `Strings.Upper` and `Strings.Lower` map ASCII letters only, so the character-by-character and length claims hold of the source for ASCII text, such as the nine status names.
- MinLength: zod's `.min(n)` counts UTF-16 code units, while the model counts characters, so text outside the Basic Multilingual Plane is measured differently.
- Collect: assigning `acc["__proto__"]` creates no own key in the source, while the model's map gains the key "__proto__".
- A setting value or category sent as JSON `null`, as distinct from a missing property, is not modelled.
- The default role CUSTOMER, `isActive` true and `createdAt` now for a created account come from the persistence schema, which is not part of this model.
- `trackingSchema` and `updateSettingsSchema` have no caller among the modelled handlers. The status-update handler (app/api/shipments/[id]/status/route.ts) is not part of this model, so `Validators.ParseStatusUpdate` has no modelled caller.
- Pickup listings do not include the linked shipment, because pickups are modelled without their shipment link.
- `cn` and the currency/date formatters of lib/utils/index.ts are presentation only.

## Findings

| source | as written | input that shows it | evidently intended | confidence | as-written member | corrected member |
|---|---|---|---|---|---|---|
| app/admin/reports/page.tsx:47-59 | cells are joined with bare commas, but the Origin and Destination cells are "city, state" and contain commas | any report row, e.g. a shipment from "Austin, TX" to "Denver, CO": the header has 8 fields and the row 10 | one CSV column per header, i.e. cells quoted (and inner quotes doubled) | not executed | `CsvExport.RowsOverflowHeader` | `CsvExport.QuotedLinesAligned` |
