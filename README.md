# milkmate delivery and billing core, in Dafny

milkmate is a web application for milk vendors. An owner keeps a list of
subscription customers. Each customer has a daily quantity, a price per litre
and a start date. The owner records the days on which milk was not delivered
and the one-off extra sales, and settles each customer's monthly bill.

This project models the part of the application that turns those records
into numbers:

- the delivery calendar: one label per day of a month (not started, future,
  delivered, undelivered) and the count of delivered days;
- the monthly grid of combined quantities;
- the bill of one customer for one month, checked against the last
  settlement snapshot;
- the payment checks of the bill page and the settlement route's upsert;
- the non-delivery log: the batch route, the daily job for paused customers,
  the per-day toggle and the dashboard's list of today's deliveries;
- the extra-sales totals route and the sales list's filter, pages and delete;
- the customer-creation route, the month picker and the dashboard's counts.

Values the application recomputes (calendars, bills, filters) are functions
over datatypes. Loops that build maps are methods proved against those
functions. The stores and the monthly-data page are classes whose methods
update their fields.

Files:

- `dates.dfy` and `date_format.dfy`: days, months and the `YYYY-MM-DD` format.
- `records.dfy`: the stored documents.
- `aggregates.dfy`: the indexes every view builds.
- `calendar.dfy`: the day labels and `generateDeliveryData`.
- `billing.dfy`: `calculateBillStatus`, payments and the summary figures.
- `settlement_store.dfy`, `undelivered_store.dfy` and `customer_store.dfy`: the three stores and their routes.
- `delivery_toggle.dfy`: the day cell.
- `dashboard.dfy`: the dashboard.
- `extra_sales.dfy`: extra sales.
- `month_picker.dfy`: the month picker.
- `monthly_grid.dfy`: the monthly-data component.
- `monthly_page.dfy`: the monthly-data page.
- `sequences.dfy` and `wrappers.dfy`: generic helpers.

## Model

| member | source | states |
|---|---|---|
| Dates.DaysInMonth | app/Bill/page.js:332 | the last day of a month is 28..31: February has 29 days exactly in Gregorian leap years, and April, June, September and November have 30 |
| Dates.MonthStart | app/api/totalextra/route.js:19-23 | `new Date(year, month, 1)` is a valid first of a month on the same count of months, so out-of-range months fall into the neighbouring years |
| Dates.MonthWindowExact | app/api/totalextra/route.js:19-23 | a valid day lies in [start of month, start of next month) exactly when it has that month's year and month |
| DateFormat.FormatRoundTrip | app/components/DeliveryStatusComponent.js:8-14 | for four-digit years `formatToYYYYMMDD` gives ten characters with '-' at positions 4 and 7, and parsing gives back the date |
| DateFormat.PaddedTwoDigits | app/components/DeliveryStatusComponent.js:10-11 | `padStart(2, '0')` of a one- or two-digit number gives two digits that read back as that number |
| DateFormat.NatToString | app/components/DeliveryStatusComponent.js:9 | `String(n)` is a non-empty string of digits without a leading zero |
| DateFormat.ParseNatToString | app/components/DeliveryStatusComponent.js:9 | reading the digits of `String(n)` gives back `n` |
| Aggregates.IndexNonDelivery | app/Bill/page.js:337-345 | the `undeliveredMap` has a key exactly for the names with records, and each name maps to exactly its non-delivery days |
| Aggregates.BuildExtraMap | app/Bill/page.js:122-131 | the `extraMap` has a key exactly for the names with sales, and each maps to the sum of that customer's extra quantities |
| Aggregates.BuildDailyExtraMap | app/components/Monthlydata.js:117-129 | the per-day `extraMap` has a key exactly for the days with sales, and holds the per-day, per-customer sum |
| Aggregates.QuantityForOrderIndependent | app/components/Summary.js:290-297 | a customer's extra total does not depend on the order in which the sales arrive |
| Aggregates.SumWhereNonNegative | app/components/Summary.js:290-297 | non-negative quantities give non-negative sums |
| Aggregates.SumWhereNone | app/Bill/page.js:122-131 | a customer without sales has an extra total of 0 |
| Calendar.MonthLabels | app/Bill/page.js:359-384 | one label per day of the month, day i + 1 at index i |
| Calendar.DeliveredExactly | app/Bill/page.js:363-379 | a day is delivered exactly when it is neither after today nor before the start and has no non-delivery record, and undelivered exactly when it is such a day with a record |
| Calendar.PrecedenceDifference | app/components/Monthlydata.js:154-168 | the bill page's order (future first) and the grid's order (start first) differ only on a day that is both before the start and after today, and then only between future and not started |
| Calendar.PrecedenceSameDeliveredCount | app/components/Monthlydata.js:154-168 | both test orders count the same number of delivered days |
| Calendar.CountDeliveredIsCardinality | app/Bill/page.js:381-383 | `totalDelivered` is the number of days labelled delivered |
| Calendar.MonthCalendar | app/Bill/page.js:359-384 | the day loop writes exactly the month's labels and counts the delivered days |
| Calendar.RowFor | app/Bill/page.js:353-384 | a customer's row has its name, one label per day, and a delivered count of at most the month's length |
| Calendar.GenerateDeliveryData | app/Bill/page.js:331-388 | the loop over customers builds the row map of the specification function, each count bounded by the month's length |
| Calendar.DeliveryDataForKeys | app/Bill/page.js:347-357 | every customer id has a row and no other key does |
| Calendar.DeliveryDataForRows | app/Bill/page.js:347-385 | with distinct ids, each customer's row is computed from that customer alone |
| Calendar.SummaryDeliveryData | app/components/Summary.js:300-308 | the summary's reset to `{}` when nothing is loaded gives what generation would give |
| Billing.CalculateBillStatus | app/Bill/page.js:27-31 | the live total is price × quantity × delivered days plus price × extra quantity |
| Billing.NoSnapshotStatus | app/Bill/page.js:33-43 | without a snapshot nothing is paid, everything is owed, and the bill is settled exactly when its total is 0 |
| Billing.NewChargesStatus | app/Bill/page.js:45-57 | new charges exist exactly when the live total exceeds the snapshot's total; they are the difference and are added to the snapshot's remaining amount; paid is kept and the bill is open |
| Billing.RemainingNeverNegative | app/Bill/page.js:58-68 | with schema-valid snapshots and non-negative inputs nothing negative is owed, and settled means nothing owed |
| Billing.NoNewChargesOwed | app/Bill/page.js:58-68 | with a snapshot and no new charges, paid is the snapshot's, remaining is max(total − paid, 0) and the bill is settled exactly when paid covers total, for any snapshot |
| Billing.RemainingIsOwed | app/components/Summary.js:16-59 | with a balanced snapshot all three branches agree: remaining is max(total − paid, 0), and the bill is settled exactly when paid covers total |
| Billing.LiveTotalNonNegative | app/Bill/page.js:28-30 | non-negative prices, quantities and extras give a non-negative total |
| Billing.HandleSettleBill | app/Bill/page.js:267-300 | no customer or an empty amount does nothing; an amount above the remaining amount or not above 0 is refused with its own error; an accepted request carries the live total, adds the amount to paid, and keeps paid + remaining |
| Billing.ViewsPartition | app/Bill/page.js:133-144 | the unsettled and settled views are disjoint, together show exactly the matching customers with a positive bill, and their sizes add up |
| Billing.PendingPlusSettled | app/components/Summary.js:322-343 | pending bills plus settled bills is the number of customers |
| Billing.TotalSalesNonNegative | app/Bill/page.js:396-402 | with non-negative inputs the sum of all live totals is non-negative |
| Billing.IndexBills | app/Bill/page.js:190-194 | the `billsMap` has a key exactly for the snapshots' names, and the last snapshot for a name wins |
| Billing.BillsMapValuesAreLast | app/components/Summary.js:274-279 | `Object.values(billsMap)` holds one snapshot per fetched name, the last one fetched for it |
| Billing.TotalPaidBounds | app/components/Summary.js:345-347 | schema-valid, balanced snapshots give 0 ≤ total paid ≤ the total billed on the snapshots `billsMap` keeps |
| Billing.TotalPaidDistinctNames | app/components/Summary.js:345-347 | when no name is fetched twice, `billsMap` keeps every snapshot (listed here in insertion order) and total paid is the sum over the fetched list |
| Billing.SumPaidOrderIndependent | app/components/Summary.js:345-347 | the sum of payments is the same for any ordering of the same snapshots |
| Billing.TotalPaidAnyOrder | app/components/Summary.js:345-347 | whatever order `Object.values(billsMap)` lists the kept snapshots in, their sum is the total paid |
| Billing.TotalPaidRepeatedName | app/components/Summary.js:345-347 | a name fetched twice is counted once, with its later snapshot |
| Billing.CollectedPercentage | app/components/Summary.js:349 | 0 without sales; otherwise percentage × sales = 100 × paid, within 0..100 when paid ≤ sales |
| SettlementStore.FindBill | app/api/settlebill/route.js:12 | `findOne` gives the first record with the key, or none when no record has it |
| SettlementStore.UpdateRecomputesRemaining | app/api/settlebill/route.js:14-18 | an update stores total and paid as sent and recomputes remaining (the sent remaining is ignored), keeping the key and the settlement time |
| SettlementStore.InsertStoresAsSent | app/api/settlebill/route.js:25-37 | an insert stores every amount as sent and is stamped now |
| SettlementStore.OverpaymentCannotBeSaved | models/Bill.js:22-36 | an update with paid above total breaks the schema's `min: 0` on remaining |
| SettlementStore.AfterSettleKeyed | app/api/settlebill/route.js:12-43 | the upsert keeps keys unique; exactly one record has the request's key, records with other keys are kept, and the size grows only on insert |
| SettlementStore.AcceptedPaymentIsSaved | app/Bill/page.js:267-300 | a payment the bill page accepts, against the snapshot the store holds, always passes the schema and is stored balanced |
| SettlementStore.BillCollection.SettleBill | app/api/settlebill/route.js:8-51 | a fault or a schema-breaking record answers 500 and changes nothing; otherwise the collection is the upsert of the request, 200 as update or insert; keys stay unique and records schema-valid |
| UndeliveredStore.UndeliveredCollection.Find | app/api/saveUndelivered/route.js:21 | `findOne` gives a position holding the key, or none when the key is absent |
| UndeliveredStore.UndeliveredCollection.Insert | app/api/saveUndelivered/route.js:25-26 | a new, schema-valid key is appended; the log stays free of duplicates and gains exactly that key |
| UndeliveredStore.UndeliveredCollection.DeleteAt | app/api/saveUndelivered/route.js:31 | `deleteOne` by position removes exactly that record's key and keeps the log valid |
| UndeliveredStore.UndeliveredCollection.ApplyEntry | app/api/saveUndelivered/route.js:19-34 | one entry: refused exactly when the schema refuses its insert, and then nothing changes; otherwise the key set takes the entry's step, counting a save exactly for a new key and a removal exactly for a present one |
| UndeliveredStore.UndeliveredCollection.SaveUndelivered | app/api/saveUndelivered/route.js:11-41 | a non-array body answers 400 with nothing changed; otherwise the key set is the batch applied entry by entry, with saved and removed counted; a store call that throws, or an insert the schema refuses, stops with 500 at that entry, keeping the earlier entries' effects |
| UndeliveredStore.LastEntryDecides | app/api/saveUndelivered/route.js:18-35 | after a batch, a mentioned key is present exactly when its last entry says not delivered; other keys are unchanged |
| UndeliveredStore.ReplayIdempotent | app/api/saveUndelivered/route.js:18-35 | sending the same batch twice leaves the log as after once |
| UndeliveredStore.CountsBounded | app/api/saveUndelivered/route.js:15-33 | saved + removed is at most the number of entries |
| UndeliveredStore.ReplayCountsZero | app/api/saveUndelivered/route.js:15-33 | replaying a batch with distinct keys reports 0 saved and 0 removed |
| UndeliveredStore.ReplayWithRepeatedKeyCountsAgain | app/api/saveUndelivered/route.js:23-34 | a batch with "not delivered" then "delivered" for one day inserts and deletes again on every run |
| UndeliveredStore.FirstRejected | app/api/saveUndelivered/route.js:25-26 | the first entry whose insert the schema refuses, and no earlier one |
| UndeliveredStore.StopAt | app/api/saveUndelivered/route.js:18-41 | the route stops at the earlier of the throwing store call and the first refused insert, and runs to the end exactly when there is neither |
| UndeliveredStore.UndeliveredCollection.EnsureKey | app/api/cron/undelivered/route.js:15-27 | the key is present afterwards; the log is appended to only when the key was missing |
| UndeliveredStore.UndeliveredCollection.RunCronTwice | app/api/cron/undelivered/route.js:10-28 | a second run of the daily job on the same day leaves the log exactly as the first left it |
| UndeliveredStore.UndeliveredCollection.RunCron | app/api/cron/undelivered/route.js:10-28 | the job adds today's record for every paused customer and only the missing ones; existing records are kept in place, and nothing changes when all are present |
| CustomerStore.FromRequest | app/api/addcustomer/route.js:20-29 | the stored customer carries the request's fields under the schema's names, delivering by default |
| CustomerStore.AddOutcomeFor | app/api/addcustomer/route.js:12-37 | duplicate (400) exactly when the owner already has that name; added exactly when the name is new and both required strings are present |
| CustomerStore.AddKeepsPairsUnique | app/api/addcustomer/route.js:12-29 | inserting keeps (name, owner) unique and stores only schema-valid customers |
| CustomerStore.AddTwiceIsDuplicate | app/api/addcustomer/route.js:12-18 | the same request sent again after it was added is a duplicate |
| CustomerStore.OtherOwnerDoesNotBlock | app/api/addcustomer/route.js:12 | a name used only under other owners does not block the insert |
| CustomerStore.CustomerCollection.AddCustomer | app/api/addcustomer/route.js:5-38 | the search loop and insert give the outcome of the specification function and the collection after it; a new customer's id is fresh |
| DeliveryToggle.HandleToggle | app/components/DeliveryStatusComponent.js:28-61 | a request is sent exactly when no toggle is in flight, the label is neither not started nor future (a missing label included), and the owner is present; it is for that customer, owner and day, and marks the day not delivered exactly when it is labelled delivered, so a missing label is marked delivered |
| DeliveryToggle.ToggleWireDateRoundTrip | app/components/DeliveryStatusComponent.js:47-61 | the day in the request body reads back as the day toggled (four-digit years) |
| DeliveryToggle.ToggleTwiceRestores | app/components/DeliveryStatusComponent.js:36-61 | a toggle flips the day's record in the log and its label, and a second toggle restores the log |
| DeliveryToggle.CellDisplay | app/components/DeliveryStatusComponent.js:82-105 | spinner exactly while toggling; a delivered day shows `displayQuantity` and an undelivered day with extras shows the extra quantity, and only those two show a number; '-' exactly for not started or future days; blank exactly without a label; "0" exactly for an undelivered day without extras |
| DeliveryToggle.PageToggleNeverFires | app/Monthlydata/page.js:237-252 | with the props the page passes, no cell can be toggled and every cell is blank |
| DeliveryToggle.PageToggleCorrected | app/components/Monthlydata.js:334-346 | with the props under the names the component reads, delivered and undelivered cells toggle their day; a delivered cell shows the day's quantity, an undelivered one its extra quantity, or "0" without extras |
| Dashboard.TodayFlags | app/components/Dashboard.js:62-69 | each customer is kept with only `isDelivered` changed: true exactly when there is no record for that name today |
| Dashboard.TodayFlagMatchesCalendar | app/components/Dashboard.js:62-69 | for a started customer, today's flag is the calendar's "delivered" label for today |
| Dashboard.FlipById | app/components/CustomerDeliveryStatus.js:17-21 | only entries with the id get the opposite flag; nothing else changes |
| Dashboard.FlipTwiceRestores | app/components/CustomerDeliveryStatus.js:17-21 | flipping an id twice restores the list |
| Dashboard.FlipsCommute | app/components/CustomerDeliveryStatus.js:17-21 | flips of two ids commute |
| Dashboard.SaveBatch | app/components/CustomerDeliveryStatus.js:27-41 | nothing is sent without an email; otherwise one entry per listed customer with its name, that email, today and its flag |
| Dashboard.SavedTodayMatchesFlags | app/components/CustomerDeliveryStatus.js:27-41 | after the batch is stored, each listed customer has a record today exactly when unticked; other owners and days are untouched |
| Dashboard.SaveAsLoadedKeepsToday | app/components/Dashboard.js:62-69 | saving the flags as loaded leaves today's records of the listed customers as they were |
| Dashboard.DashboardSaveNeverSends | app/components/Dashboard.js:109-116 | as rendered, the status list never sends its batch, whoever is signed in |
| Dashboard.DashboardSave | app/components/CustomerDeliveryStatus.js:27-41 | with the session passed, a batch is sent exactly when the owner is signed in, one entry per listed customer carrying its name and flag, the owner's email and today |
| Dashboard.StatsAsWrittenAlwaysZero | app/components/Dashboard.js:46-60 | as written, "active" and "new this month" are 0 for every customer list |
| Dashboard.DashboardStats | app/components/Dashboard.js:46-60 | over the schema's own fields, total is the number of customers, active is the number of customers flagged delivered, new this month the number whose start date falls in this month; each is positive exactly when some customer qualifies |
| ExtraSales.TotalExtra | app/api/totalextra/route.js:10-37 | 400 exactly when the owner is missing or empty, else 500 exactly when the store's query throws; otherwise the owner's matching records, newest first |
| ExtraSales.TotalExtraSelects | app/api/totalextra/route.js:17-23 | when the store answers, a record is returned exactly when it is the owner's and, when month and year are both sent, lies in that calendar month |
| ExtraSales.TotalExtraWithoutMonthKeepsAll | app/api/totalextra/route.js:17-19 | when the store answers without month or year, every record of the owner is returned |
| ExtraSales.RouteFilter | app/api/totalextra/route.js:17-23 | a record is selected exactly when it matches the owner and the window |
| ExtraSales.NewestFirst | app/components/AdditionalSale.js:102-105 | the fetched list is reordered newest first, without losing or adding a sale |
| ExtraSales.MonthFilter | app/components/AdditionalSale.js:182-186 | no month keeps everything; otherwise a sale is kept exactly when its month matches |
| ExtraSales.MonthFilterIgnoresYear | app/components/AdditionalSale.js:182-186 | the month filter keeps sales of the same month from different years |
| ExtraSales.Page | app/components/AdditionalSale.js:189-192 | a page holds at most five sales, and exactly the page's slice when it starts inside the list |
| ExtraSales.TotalPages | app/components/AdditionalSale.js:192 | `Math.ceil(n / 5)`: enough pages for n sales and no empty last page |
| ExtraSales.PagesCoverAll | app/components/AdditionalSale.js:189-192 | the pages in turn show every sale once, in order; each page up to the last is non-empty and later pages are empty |
| ExtraSales.RemoveById | app/components/AdditionalSale.js:19-26 | after a delete the list holds exactly the sales with other ids |
| ExtraSales.RemoveByIdExact | app/components/AdditionalSale.js:19-26 | with unique ids, a delete removes exactly the sale at its position and keeps the order |
| ExtraSales.RemoveUnknownId | app/components/AdditionalSale.js:19-26 | deleting an unknown id changes nothing |
| MonthPicker.MonthOptions | app/Bill/page.js:93-110 | six options, each a valid month, the i-th being i months before the current one |
| MonthPicker.GetMonthOptions | app/Bill/page.js:93-110 | the loop builds exactly `MonthOptions`: six valid months, the i-th i months back |
| MonthPicker.OptionsConsecutive | app/components/Monthlydata.js:17-34 | the first option is the current month, each is the month before the previous one (December of the previous year after January), and none repeats |
| MonthPicker.RulesAgree | app/components/Monthlydata.js:17-34 | the component's extra `index > 0` year condition gives the same options as the pages' rule, the first being the current month |
| MonthlyGrid.CellFor | app/components/Monthlydata.js:149-184 | a cell is consistent: '-' and no extra before the start or after today; otherwise the day's extras, plus the daily quantity when delivered |
| MonthlyGrid.GridRowFor | app/components/Monthlydata.js:131-184 | one cell per day of the month, each labelled as the calendar labels it with the start tested first |
| MonthlyGrid.RowCells | app/components/Monthlydata.js:149-184 | the day loop, reading the per-day extra map, builds exactly the row of the specification function |
| MonthlyGrid.GenerateGrid | app/components/Monthlydata.js:95-190 | the component's generation builds the grid of the specification function from the two indexes |
| MonthlyGrid.GridForKeys | app/components/Monthlydata.js:131-147 | every customer id has a row and no other key does |
| MonthlyGrid.GridForRows | app/components/Monthlydata.js:131-185 | with distinct ids each customer's row is computed from that customer alone |
| MonthlyGrid.CombinedSplit | app/components/Monthlydata.js:177-183 | a row's combined quantities sum to the daily quantity × delivered days plus the extras shown |
| MonthlyGrid.GridLabelsAreCalendar | app/components/Monthlydata.js:154-172 | the grid's labels are the calendar's labels with the start tested first |
| MonthlyGrid.GridAgreesWithBill | app/components/Monthlydata.js:177-183 | the grid's combined total is the daily quantity added once for every day the bill page counts as delivered, plus the extras on started, past days |
| MonthlyGrid.GridDeliveredCount | app/components/Monthlydata.js:154-172 | the grid row has as many delivered cells as the bill page's calendar has delivered days |
| MonthlyGrid.RepeatedIsProduct | app/components/Monthlydata.js:177-183 | adding the daily quantity once per delivered day gives quantity × days |
| MonthlyGrid.GridCellDisplay | app/components/Monthlydata.js:334-346 | the cell shows the combined quantity on a delivered day and on an undelivered day with extras, "0" on an undelivered day without, and '-' elsewhere |
| MonthlyGrid.HasActivity | app/components/Monthlydata.js:213-227 | the scan answers true exactly when some day up to today is delivered or has extra sales |
| MonthlyGrid.ActivityOfGridRow | app/components/Monthlydata.js:213-227 | on a grid row, a customer is active exactly when some cell is delivered or has a positive extra |
| MonthlyGrid.Listed | app/components/Monthlydata.js:200-230 | the listed customers are the active ones, sorted by name, none lost or added |
| MonthlyGrid.ListedExactly | app/components/Monthlydata.js:200-230 | a customer is listed exactly when the grid has an active row for it |
| MonthlyPage.PageRowFor | app/Monthlydata/page.js:112-132 | a row has a label for exactly the month's days, each the calendar's label with future tested first |
| MonthlyPage.LabelMap | app/Monthlydata/page.js:112-132 | a label for exactly the days 1..days-in-month, each the calendar's label with future tested first |
| MonthlyPage.DayLabels | app/Monthlydata/page.js:112-132 | the day loop writes exactly those labels |
| MonthlyPage.PageDataIsCalendar | app/Monthlydata/page.js:85-136 | the page's rows are the bill page's rows: same ids, names and labels |
| MonthlyPage.PageRowAgrees | app/Monthlydata/page.js:106-132 | one customer's page row holds that customer's bill-page labels, day d at index d − 1 |
| MonthlyPage.ViewOf | app/Monthlydata/page.js:221-236 | '-' exactly for not started and future days, the toggle otherwise |
| MonthlyPage.StatuslessCallbackShowsDash | app/Monthlydata/page.js:244-251 | a cell whose callback receives no status is relabelled not started and shows '-' |
| MonthlyPage.RefreshedCellView | app/Monthlydata/page.js:221-236 | after a refresh each cell shows the calendar label, and the toggle exactly on delivered and undelivered days |
| MonthlyPage.MonthlyPageState.Refresh | app/Monthlydata/page.js:52-56 | with customers loaded the labels are regenerated as the specification function gives them; otherwise they are left as they were |
| MonthlyPage.MonthlyPageState.OnChangeStatus | app/Monthlydata/page.js:244-251 | only that customer's label for that day changes |
| MonthlyPage.MonthlyPageState.Load | app/Monthlydata/page.js:58-83 | a fetch stores the customers and records and keeps the month and labels |
| MonthlyPage.MonthlyPageState.ChangeMonth | app/Monthlydata/page.js:138-142 | the selected month and year become the chosen option; nothing else changes |

## Left out

- Time of day and time zones are not modelled. Days are (year, month, day) triples, and "today" is a parameter. Comparing `Date` objects, locale date strings and `toDateString()` keys all reduce to comparing those triples. `setHours(0, 0, 0, 0)` therefore needs no model. The dashboard's local "today" and the batch's UTC "today" are taken to be the same day.
- Money and quantities are exact reals. Floating-point rounding, `toFixed` and the rounding of the collected percentage are not modelled.
- `NaN`, `undefined` and non-numeric inputs are not modelled. An empty amount field is `None`. Fields the schema marks required are present.
- `toLowerCase` is modelled on ASCII letters only.
- MonthlyGrid.Listed: `localeCompare` is modelled as character-code order, and ties are not kept stable.
- Database connections, the connection cache, authentication, toasts and loading flags are not modelled. A store failure is a parameter of each route that answers 500: `fault` for the customer, settlement and totals routes, and `faultAt`, the entry whose store call throws, for the batch route. A failure to connect or to read the request body is not modelled. The daily job has no error path in the source, so its store failures are not modelled.
- `Promise.all` fetches and any concurrency between requests are left out. Each route runs to completion on its own.
- The pause, resume, update and delete routes for customers, owners and sales are outside this core. `ExtraSales.RemoveById` models only the list's side of a delete, after the route answered.
- UndeliveredStore.ReplayCountsZero: a replay reports 0/0 only when the batch's keys are distinct. `ReplayWithRepeatedKeyCountsAgain` shows the repeated-key case.
- Billing.TotalPaidDistinctNames: the model lists the values of `billsMap` in insertion order, where JavaScript's `Object.values` puts integer-like names first, in ascending numeric order. Only the order differs, and `TotalPaidAnyOrder` shows the sum does not depend on it.
- Billing.TotalPaidBounds: `totalPaid` is over the values of `billsMap`, one snapshot per name. It is not matched against the customer list.
- MonthlyPage.MonthlyPageState.OnChangeStatus: the page copies `deliveryData` shallowly and writes into the old row object. React state aliasing is not modelled. The new map replaces the old one as a value.
- `calculateBillStatus` and `generateDeliveryData` exist as identical copies in app/Bill/page.js and app/components/Summary.js. Each is modelled once.
- Rendering (markup, classes, icons, modals) is left out. Only the value each cell shows is modelled.

## Findings

| source | as written | input that shows it | evidently intended | confidence | as-written member | corrected member |
|---|---|---|---|---|---|---|
| app/Monthlydata/page.js:237-252 | the page gives the cell component `status` and `customer={{name, ownerEmail, dateNotDelivered}}`. The component reads `currentDayStatus`, `ownerEmail` and `dateForToggle` (app/components/DeliveryStatusComponent.js:16-25, 29, 101-103) | any delivered or undelivered day of a started customer: the click is refused and the cell is blank | pass the props under the component's names, as app/components/Monthlydata.js:334-346 does | not executed | DeliveryToggle.PageToggleNeverFires | DeliveryToggle.PageToggleCorrected |
| app/components/Dashboard.js:50-54 | "active" counts `c.status === 'active'` and "new this month" reads `c.dateStarted`. Neither field exists in models/Customer.js:3-11 | any customer list, e.g. one delivering customer who started this month: both counts are 0 | use `startDate` for "new this month"; counting `isDelivered` customers as "active" is a guess at the intent. `stats` is set but never rendered (app/components/Dashboard.js:99-126 shows the summary cards), so the zeros have no visible effect | not executed | Dashboard.StatsAsWrittenAlwaysZero | Dashboard.DashboardStats |
| app/components/Dashboard.js:109-116 | the dashboard renders the status list without its `session` prop. Its save then always stops at the missing-email check (app/components/CustomerDeliveryStatus.js:11, 28-31) | a signed-in owner pressing save: nothing is sent | pass the session so that the owner's email reaches the batch | not executed | Dashboard.DashboardSaveNeverSends | Dashboard.DashboardSave |
