# Invoice analytics: a verified model of the API core

This project models the core of an invoice-analytics back end and its CSV
export in Dafny:

- the five read-only dashboard routes:
  - `GET /stats`: four overview metrics, each with a period-over-period change;
  - `GET /invoice-trends`: twelve monthly rows of the current year;
  - `GET /vendors/top10`: the ten vendors with the largest spend;
  - `GET /category-spend`: spend per category;
  - `GET /cash-outflow`: unpaid amounts falling due in four ranges from now;
- the invoice listing `GET /invoices` (search, status filter, sort, paging) and the lookup `GET /invoices/:id`;
- the seeding script, which turns extracted invoice documents into vendor, invoice and line-item rows;
- the dashboard table's `exportToCSV`.

The database is a value. `Ledger.Db` holds the invoice table as a sequence and the vendor table as a map.
The Prisma queries the handlers issue become functions over that value:

- `count` and `aggregate` with `_sum` / `_avg` (null over no rows);
- `findMany` with `where`, `skip` and `take`;
- `groupBy`;
- `orderBy`.

Instants are integers counting milliseconds since 1970-01-01 UTC.
`new Date(y, m, d)` is `Calendar.DateFromParts`. It carries the month into the year, counts the day from the first of the month (day 0 is the last day of the previous month), and reads years 0..99 as 1900..1999, as JavaScript does.

The reference instant ("now", or the current year) is a parameter of each handler.

Modules, one per file:

- `calendar.dfy`: the Gregorian calendar and `new Date(y, m, d)`.
- `ledger.dfy`: the invoice and vendor tables and the aggregate queries.
- `grouping.dfy`: `groupBy` with a `_sum`.
- `ordering.dfy`: `orderBy`.
- `text.dfy`: ASCII case folding and substring search, decimal rendering, join and split.
- `stats.dfy`, `trends.dfy`, `vendors.dfy`, `category.dfy`, `cashflow.dfy`, `invoices.dfy`: one route file each.
- `seed.dfy`: the seeding script.
- `csv_export.dfy`: the CSV export, plus an RFC 4180 record reader the export is checked against.

The forms follow the source:

- The route handlers are functions over the ledger.
- Where a handler builds its result step by step, it is a method proved against a function:
  - the monthly loop of the trends route: `Trends.InvoiceTrends`, against `Trends.Series`;
  - the `where` object of the listing: `Invoices.BuildWhere`;
  - the listing handler: `Invoices.ListInvoices`.
- The seeding script is a method with the document loop and the nested line-item loop: `Seed.SeedDocuments` and `Seed.AppendItems`. It is proved equal to a fold of one step per document (`Seed.SeedPrefix`), and its properties are proved about that fold.

## Model

| member | source | states |
|---|---|---|
| Calendar.DaysInMonth | apps/api/src/routes/trends.ts:28-29 | A month has 28 to 31 days. February has 29 exactly in leap years. The months with 30 days are exactly April, June, September and November. |
| Calendar.DaysBeforeMonth | apps/api/src/routes/trends.ts:28-29 | The days of a year before a month's first day number 0 to 366, and 0 before January. |
| Calendar.MonthStep | apps/api/src/routes/trends.ts:28-29 | The first day of month m + 1 comes exactly the length of month m after the first day of month m. |
| Calendar.WholeYear | apps/api/src/routes/trends.ts:28-29 | The twelve months of a year add up to its length, 365 or 366 days. |
| Calendar.YearStep | apps/api/src/routes/stats.ts:10-27 | Jan 1 of year y + 1 is one year length (365 or 366 days) after Jan 1 of year y. |
| Calendar.FullYear | apps/api/src/routes/stats.ts:10-13 | `new Date` reads a year of 0..99 as 1900..1999 and keeps every other year. |
| Calendar.DateFromParts | apps/api/src/routes/stats.ts:10-13 | For a month in 0..11 and a year outside 0..99, `new Date(y, m, d)` is midnight of day d of that month, and d may run past either end of the month. |
| Calendar.MonthBeforeJanuary | apps/api/src/routes/stats.ts:12 | Month -1 of year y (`now.getMonth() - 1` in January) is December of year y - 1. |
| Calendar.MidnightShift | apps/api/src/routes/trends.ts:29 | Moving the day by k moves the instant by k whole days, so day 0 is the day before day 1. |
| Calendar.NextMonthStart | apps/api/src/routes/trends.ts:28-29 | Day 1 of the next month, January of the next year after December, is the month's length in days after day 1 of the month. |
| Calendar.NextMonthMidnight | apps/api/src/routes/trends.ts:28-29 | The same on instants: a month lasts its number of days times 86,400,000 ms. |
| Calendar.MonthStartsIncrease | apps/api/src/routes/trends.ts:28 | Within a year, a later month starts after an earlier month has ended. |
| Calendar.Clock.Instant | apps/api/src/routes/stats.ts:9 | `now.getTime()` lies in the day its civil fields name: at or after that day's midnight and less than a day after it. |
| Ledger.CountWhere | apps/api/src/routes/stats.ts:34-42 | `count({ where })` is at most the number of rows, and it is 0 exactly when no row matches. |
| Ledger.SumWhere | apps/api/src/routes/stats.ts:16-21 | The summed amount is not negative when no amount is, and it is 0 when no row matches. |
| Ledger.SumAggregate | apps/api/src/routes/stats.ts:16-21 | `_sum` is null exactly when no row matches; otherwise it is the sum of the matching amounts. |
| Ledger.AvgAggregate | apps/api/src/routes/stats.ts:61-73 | `_avg` is null exactly when no row matches; otherwise it is the matching sum divided by the matching count. |
| Ledger.Mean | apps/api/src/routes/stats.ts:61-63 | The mean of n values times n is their sum. |
| Ledger.OrZero | apps/api/src/routes/stats.ts:99 | The "or 0" fallback on a nullable number gives 0 for null and the number otherwise. A 0 stays 0. |
| Ledger.Where | apps/api/src/routes/invoices.ts:37-41 | `findMany({ where })` returns as many rows as `count` counts, all of them table rows that match, and every matching row. |
| Ledger.WhereAppend | apps/api/src/routes/invoices.ts:37-41 | `findMany` keeps table order: filtering two stretches of the table one after the other is filtering the whole. |
| Ledger.TotalOfWhere | apps/api/src/routes/category.ts:9-19 | Summing over the rows a filter returns equals summing the table under that filter. |
| Ledger.WhereThenFilter | apps/api/src/routes/category.ts:9-19 | Counting or summing under q within the rows selected by p equals counting or summing the table under "p and q". |
| Ledger.FiltersAgree | apps/api/src/routes/invoices.ts:22-35 | Two filters that agree on every row select the same rows, the same count and the same sum. |
| Ledger.CountMonotone | apps/api/src/routes/stats.ts:34-49 | A filter that implies another counts no more rows. |
| Ledger.DisjointUnion | apps/api/src/routes/cashflow.ts:33-58 | Counts and sums under two disjoint filters add up to those under their union. |
| Ledger.CountAll | apps/api/src/routes/stats.ts:34 | `count()` with no `where` counts every row. |
| Grouping.Dedup | apps/api/src/routes/vendors.ts:9-10 | The distinct values of the grouping field, each once, no more than there are rows. |
| Grouping.GroupsFor | apps/api/src/routes/vendors.ts:9-13 | One group per key, in key order, each carrying the sum of the rows with that key. |
| Grouping.GroupSums | apps/api/src/routes/vendors.ts:9-13 | `groupBy` with `_sum`: the group keys are distinct and are exactly the field values that occur. Each group's sum is the summed amount of its rows. An empty table gives no groups. |
| Grouping.GroupsForTotal | apps/api/src/routes/category.ts:9-13 | The groups of distinct keys add up to the summed amount of the rows whose key is among them. |
| Grouping.GroupSumsCoverTotal | apps/api/src/routes/category.ts:9-13 | The group sums of `groupBy` add up to the total amount of the table. |
| Ordering.Insert | apps/api/src/routes/vendors.ts:14-18 | Inserting one element gives one more element and the same elements plus it. |
| Ordering.InsertKeepsOrder | apps/api/src/routes/vendors.ts:14-18 | Inserting into a sequence sorted largest first keeps it sorted. |
| Ordering.SortDesc | apps/api/src/routes/vendors.ts:14-18 | `orderBy: "desc"` returns a permutation of its input with keys never increasing. |
| Vendors.Take | apps/api/src/routes/vendors.ts:19 | `take: n` returns a prefix of exactly n elements, or everything when there are no more than n. |
| Vendors.TopVendorsCount | apps/api/src/routes/vendors.ts:9-20 | The response holds ten entries, or one per vendor of the ledger when there are fewer than ten vendors. |
| Vendors.VendorName | apps/api/src/routes/vendors.ts:34 | The name fallback: the vendor's name when the vendor exists and the name is not empty, otherwise "Unknown". |
| Vendors.TopVendors | apps/api/src/routes/vendors.ts:22-41 | At most ten entries. Entry i is the vendor detail of ranked group i, so `Promise.all` over `map` keeps the ranking's order. |
| Vendors.RankedGroupsAreVendors | apps/api/src/routes/vendors.ts:9-20 | Every ranked group is a group of `groupBy`: a vendor id that occurs in the table, carrying that vendor's summed amount. |
| Vendors.EntryValues | apps/api/src/routes/vendors.ts:29-36 | Each entry has: its vendor's name or "Unknown"; the vendor's summed amount; the vendor's all-time invoice count, which is at least 1. |
| Vendors.TopVendorsOrdered | apps/api/src/routes/vendors.ts:14-18 | Entries come in non-increasing order of spend. |
| Vendors.LeftOutSpendsNoMore | apps/api/src/routes/vendors.ts:14-19 | A vendor that is not ranked has spent no more than any ranked vendor. |
| Vendors.FewVendorsAllRanked | apps/api/src/routes/vendors.ts:19 | With ten vendors or fewer, every vendor is ranked. |
| Vendors.NoInvoicesNoVendors | apps/api/src/routes/vendors.ts:9-41 | An empty invoice table gives an empty response. |
| Category.Label | apps/api/src/routes/category.ts:22 | The label fallback: a non-empty category is its own label; null and the empty string give "Uncategorized". |
| Category.CategorySpendRows | apps/api/src/routes/category.ts:21-24 | One row per group, in group order, with the group's label and its summed amount. |
| Category.GroupKey | apps/api/src/routes/category.ts:9-19 | A key has a group exactly when it is a non-null category that some invoice carries. |
| Category.OneGroupPerCategory | apps/api/src/routes/category.ts:9-19 | The group keys are distinct and none is null. A category has a group exactly when some invoice carries it. |
| Category.RowValues | apps/api/src/routes/category.ts:21-24 | Each row's value is the summed amount of the invoices of exactly that category. |
| Category.ValuesAddUp | apps/api/src/routes/category.ts:9-24 | The row values add up to the total amount of the invoices that have a category. |
| Category.NoCategoriesNoRows | apps/api/src/routes/category.ts:14-18 | When no invoice has a category, the response is empty. |
| Cashflow.Ranges | apps/api/src/routes/cashflow.ts:10-31 | Four labelled ranges start at now + 0, 7, 30 and 60 days. Each range but the last ends where the next starts; the last is open-ended. |
| Cashflow.CashOutflow | apps/api/src/routes/cashflow.ts:33-58 | Four entries in table order. Each carries its range's label and the summed amount of the unpaid invoices due in that range, inclusive at both ends. None is negative when no amount is. |
| Cashflow.SharedBoundCountedTwice | apps/api/src/routes/cashflow.ts:35-44 | An unpaid invoice due exactly at now + 7, 30 or 60 days falls in two adjacent ranges. |
| Cashflow.ExcludedInvoices | apps/api/src/routes/cashflow.ts:35-40 | Paid invoices, invoices without a due date and invoices due before now fall in no range. |
| Cashflow.CoveredInvoices | apps/api/src/routes/cashflow.ts:10-44 | An unpaid invoice due at or after now falls in some range, and in only one unless it is due on a shared bound. |
| Cashflow.RangesHit | apps/api/src/routes/cashflow.ts:35-44 | For one invoice, the ranges it falls in number one if it is unpaid and due from now on, plus one more if it is due on a shared bound. |
| Cashflow.OutflowsAddUp | apps/api/src/routes/cashflow.ts:33-58 | The four outflows add up to the unpaid amount due from now on, plus the amount due on shared bounds counted a second time. |
| Trends.MonthTrendValues | apps/api/src/routes/trends.ts:31-56 | Month m's row has: the label of month m; the count of invoices dated in m's window; their summed amount, which is 0 when there are none and not negative when no amount is. |
| Trends.MonthTrendCalendar | apps/api/src/routes/trends.ts:31-56 | For years from 100 on, month m's count and spend are over the invoices dated from midnight of its first day up to and including midnight of its last day (the 28th or 29th for February by leap year). |
| Trends.SeriesRows | apps/api/src/routes/trends.ts:27-57 | Row m of the rows built so far is month m's row. |
| Trends.InvoiceTrends | apps/api/src/routes/trends.ts:24-59 | The loop returns twelve rows, and row m is month m's row: January to December of the given year. |
| Trends.SeriesStep | apps/api/src/routes/trends.ts:52-56 | One iteration appends month k's row to the rows of months 0..k-1. |
| Trends.LabelsHaveNoYear | apps/api/src/routes/trends.ts:9-22 | Every label is three characters with no digit, so it names the month only. |
| Trends.BoundaryMonotone | apps/api/src/routes/trends.ts:28 | Month starts within a year, followed by Jan 1 of the next year, never decrease. |
| Trends.WindowBounds | apps/api/src/routes/trends.ts:28-29 | Month m's window starts at midnight of its day 1. It ends at midnight of its last day (day 28 or 29 of February by leap year, Dec 31 for December), one day before the next month starts. |
| Trends.WindowsDisjoint | apps/api/src/routes/trends.ts:28-29 | An earlier month's window ends before a later month's window starts. |
| Trends.NoInvoiceInTwoMonths | apps/api/src/routes/trends.ts:31-38 | No invoice is counted in two months. |
| Trends.LastDayAfterMidnightMissed | apps/api/src/routes/trends.ts:29-38 | An invoice dated on a month's last day after midnight is counted in no month, because the inclusive end bound is that day's midnight. |
| Trends.DayAlignedInMonth | apps/api/src/routes/trends.ts:31-38 | For a date at midnight, being in month m's window is being in the half-open month from day 1 of m to day 1 of m + 1. |
| Trends.SeriesPrefix | apps/api/src/routes/trends.ts:27-57 | For midnight dates, the first k rows' counts and spends add up to the count and the amount of the invoices dated in the first k months. |
| Trends.YearTotals | apps/api/src/routes/trends.ts:24-59 | For midnight dates, the twelve counts add up to the number of invoices dated in the year, and the twelve spends to their total. |
| Stats.Change | apps/api/src/routes/stats.ts:76-95 | The change is 0 when the baseline is 0. Otherwise change times baseline equals (current - baseline) times 100. |
| Stats.OverviewStats | apps/api/src/routes/stats.ts:97-116 | The labels "YTD" and "This Month" sit on the right metrics. The invoice total is the number of rows. An empty table gives four zero metrics with zero changes. |
| Stats.WindowsAreCalendarDays | apps/api/src/routes/stats.ts:9-27 | The four bounds are midnight of: Jan 1 of this year; day 1 of this month; day 1 of last month (December of last year in January); Jan 1 of last year. |
| Stats.LastMonthWindowIsOneMonth | apps/api/src/routes/stats.ts:11-12 | Last month's window [lastMonthStart, monthStart) is exactly the previous calendar month, in January too. |
| Stats.WindowsOrdered | apps/api/src/routes/stats.ts:9-27 | Last year's start < this year's start <= this month's start <= now. Last year's start <= last month's start < this month's start. |
| Stats.OverviewValues | apps/api/src/routes/stats.ts:16-49 | Total spend sums the invoices dated on or after Jan 1, with no upper bound. Documents uploaded counts invoices dated on or after day 1 of this month. |
| Stats.AverageIsMean | apps/api/src/routes/stats.ts:61-63 | The average is the all-time mean amount, and 0 for an empty table. |
| Stats.OverviewBaselines | apps/api/src/routes/stats.ts:23-95 | Each change is measured against its baseline: spend against last calendar year's spend; the all-time invoice count and this month's documents against last month's count; the average against last month's average. |
| Stats.InvoiceChangeAtLeastDocumentsChange | apps/api/src/routes/stats.ts:83-89 | The invoice change compares the all-time count with last month's count, so it is never below the documents change. |
| Stats.ThreeInvoiceExample | apps/api/src/routes/stats.ts:34-95 | 100 and 200 this month and 50 last month give: 2 documents this month, up 100%; 3 invoices, up 200%; an average of 350 / 3. |
| Invoices.WithDefaults | apps/api/src/routes/invoices.ts:9-19 | Absent parameters take the defaults: page 1, limit 10, no search, no status, `invoiceDate`, "desc". Every given parameter is kept as given. |
| Invoices.BuildWhere | apps/api/src/routes/invoices.ts:22-35 | The `where` object matches an invoice exactly when the search and status select it. |
| Invoices.SortFieldOf | apps/api/src/routes/invoices.ts:42-44 | A sort field is recognised exactly for `invoiceDate` and `totalAmount`. |
| Invoices.SortRowsMeaning | apps/api/src/routes/invoices.ts:42-44 | Sorting returns the same rows, ordered by the field: largest first for "desc", smallest first for "asc". |
| Invoices.PageOf | apps/api/src/routes/invoices.ts:40-41 | `skip` and `take` return at most `take` rows, exactly the rows following the first `skip`, and none past the end. |
| Invoices.MapRows | apps/api/src/routes/invoices.ts:54-64 | One response row per invoice, in query order, each with the invoice's fields and its vendor's name. |
| Invoices.PageCount | apps/api/src/routes/invoices.ts:72 | `Math.ceil(total / limit)`: the fewest pages of `limit` rows that hold `total` rows; 0 exactly when `total` is 0. |
| Invoices.ListInvoices | apps/api/src/routes/invoices.ts:7-79 | Errors: page < 1 gives a negative skip, and an unknown sort field or order is rejected. Otherwise the pagination carries page, limit, the count of all matches and the page count, and the data are the mapped rows of that page of the sorted matches. |
| Invoices.SelectionInLedger | apps/api/src/routes/invoices.ts:37-57 | Every listed invoice is a table row that the search and status select, and its `vendor` field is its vendor's name. |
| Invoices.ListedRowsMatch | apps/api/src/routes/invoices.ts:24-35 | Every listed row has the requested status. Its invoice number or vendor name contains the search text, ignoring case. |
| Invoices.SelectionIsComplete | apps/api/src/routes/invoices.ts:37-52 | Before paging, the sorted selection has `total` rows and holds every invoice that the search and status select. |
| Invoices.PagesUpToTotal | apps/api/src/routes/invoices.ts:20-72 | A page is empty exactly when its number exceeds `totalPages`. |
| Invoices.FindInvoice | apps/api/src/routes/invoices.ts:86-98 | "Invoice not found" exactly when no invoice has the id. Otherwise the result is a table row with that id. |
| Invoices.FindInvoiceUnique | apps/api/src/routes/invoices.ts:86-87 | With unique ids, the invoice found is the one with that id. |
| Text.Lower | apps/api/src/routes/invoices.ts:26-28 | ASCII upper-case letters become lower-case; every other character is kept. |
| Text.LowerString | apps/api/src/routes/invoices.ts:26-28 | Folding keeps the length and folds each character. |
| Text.LowerStringIdempotent | apps/api/src/routes/invoices.ts:26-28 | Folding twice is folding once. |
| Text.ContainsIffOccurs | apps/api/src/routes/invoices.ts:26-28 | `contains` holds exactly when the text occurs at some index. |
| Text.ContainsIgnoringCaseMeaning | apps/api/src/routes/invoices.ts:26-28 | A case-insensitive match is an occurrence after folding both sides, in both directions. The empty text matches everything, and a match is no longer than the field. |
| Text.ContainsIgnoringCaseIsCaseBlind | apps/api/src/routes/invoices.ts:26-28 | Changing the case of either side does not change the answer. |
| Text.NatToString | apps/api/src/scripts/seed.ts:103-105 | `${n}` is a non-empty string of decimal digits with no leading zero. |
| Text.NatToStringRoundTrip | apps/api/src/scripts/seed.ts:103-105 | Reading the digits back gives the number. |
| Text.NatToStringInjective | apps/api/src/scripts/seed.ts:105 | Different numbers render differently. |
| Text.Join | components/invoices-by-vendor-table.tsx:59-62 | Joining no parts gives the empty string. |
| Text.SplitJoin | components/invoices-by-vendor-table.tsx:59-62 | Splitting at the separator gives back the parts joined, when no part holds the separator. |
| Text.JoinFree | components/invoices-by-vendor-table.tsx:59-62 | Joining parts and a separator that all lack a character gives a text that lacks it. |
| Seed.RecordFor | apps/api/src/scripts/seed.ts:137-161 | The invoice of an accepted document has: its non-empty date text; status "paid" exactly for a "processed" document, otherwise "pending"; no category; a due date exactly when one is present and non-empty; subtotal and tax or 0; the total, or subtotal + tax when the total is absent or 0; the currency, or "EUR". |
| Seed.ItemRecord | apps/api/src/scripts/seed.ts:170-180 | A line item has its quantity, or 1 when that is absent or 0, and its unit price and amount, or 0. |
| Seed.ItemsFor | apps/api/src/scripts/seed.ts:163-183 | One line item per extracted item with a non-empty description, all owned by the invoice. When every item is described, item j's record is line item j. |
| Seed.ItemsForContents | apps/api/src/scripts/seed.ts:163-183 | Each described item j becomes its `ItemRecord` at position "number of described items before j", so the line items are exactly the described items, in order, skipping the others. |
| Seed.Described | apps/api/src/scripts/seed.ts:169-170 | The described items are at most all items, and all of them when each has a description. |
| Seed.Register | apps/api/src/scripts/seed.ts:121-135 | After the vendor lookup, the vendor name is in the map, and the invoices, line items and counters are unchanged. |
| Seed.Sources | apps/api/src/scripts/seed.ts:88-115 | The accepted documents' positions, increasing, with every accepted position among them. |
| Seed.SeedDocuments | apps/api/src/scripts/seed.ts:82-195 | The loop ends in the fold's state. Every document is counted once, as a success or a skip. Successes equal stored invoices. The vendor map is consistent. Invoice numbers are distinct. |
| Seed.AppendItems | apps/api/src/scripts/seed.ts:164-183 | The inner loop appends exactly the described items' line items. |
| Seed.Counters | apps/api/src/scripts/seed.ts:84-189 | After n documents, successes + skips = n, and successes = stored invoices = accepted documents. |
| Seed.RegisterKeepsVendors | apps/api/src/scripts/seed.ts:121-135 | The vendor lookup keeps the map consistent: one row per name, and each name mapped to its row. |
| Seed.StepKeepsVendors | apps/api/src/scripts/seed.ts:88-189 | One document keeps the vendor map consistent. |
| Seed.VendorMap | apps/api/src/scripts/seed.ts:121-135 | The map's keys are exactly the vendor names of the accepted documents, one vendor row per name, so `vendorMap.size` counts the rows. |
| Seed.StepAppends | apps/api/src/scripts/seed.ts:126-183 | Each document only appends vendors, invoices and line items. |
| Seed.InvoicesFromDocuments | apps/api/src/scripts/seed.ts:88-161 | Stored invoice i is the record of the i-th accepted document, and its vendor row carries that document's vendor name. |
| Seed.InvoiceNumberInjective | apps/api/src/scripts/seed.ts:102-105 | Numbers built for different document positions differ, whatever the extracted ids are. |
| Seed.InvoiceNumbersDistinct | apps/api/src/scripts/seed.ts:102-105 | No two stored invoices share a number. |
| Seed.LineItemsBelong | apps/api/src/scripts/seed.ts:163-183 | Every line item refers to a stored invoice and has a non-empty description. |
| CsvExport.Cells | components/invoices-by-vendor-table.tsx:50-57 | One cell per header. |
| CsvExport.Quote | components/invoices-by-vendor-table.tsx:61 | The cell between two double quotes, unchanged. |
| CsvExport.QuotedCells | components/invoices-by-vendor-table.tsx:61 | Each cell quoted, in order. |
| CsvExport.ExportToCsv | components/invoices-by-vendor-table.tsx:39-62 | There is nothing to export exactly when the list is empty. |
| CsvExport.HeadersFree | components/invoices-by-vendor-table.tsx:42-49 | The header names hold no comma, quote or line break. |
| CsvExport.DataLineFree | components/invoices-by-vendor-table.tsx:59-62 | A data line holds a line break only where a cell does. |
| CsvExport.QuotedRecordBack | components/invoices-by-vendor-table.tsx:61 | Quoted cells that hold no quote, joined by commas, read back as the cells under RFC 4180, commas inside cells included. |
| CsvExport.PlainRecordBack | components/invoices-by-vendor-table.tsx:60 | Unquoted names that hold no comma or quote, joined by commas, read back as the names. |
| CsvExport.ExportLines | components/invoices-by-vendor-table.tsx:59-62 | When no cell holds a line break, the export splits into the header line and one data line per invoice, in order. |
| CsvExport.ExportReadsBack | components/invoices-by-vendor-table.tsx:39-62 | When no cell holds a line break or a quote, the header line reads back as the header names and each data line as its invoice's six cells. |
| CsvExport.HeaderReadsBack | components/invoices-by-vendor-table.tsx:42-60 | The header line reads back as the six header names. |
| CsvExport.DataLinesReadBack | components/invoices-by-vendor-table.tsx:50-61 | A data line whose cells hold no quote reads back as its six cells. |
| CsvExport.UnescapedQuoteUnreadable | components/invoices-by-vendor-table.tsx:61 | A vendor name `a"b` gives a line that RFC 4180 cannot read, since the embedded quote is not doubled. |
| CsvExport.QuotedCellMisread | components/invoices-by-vendor-table.tsx:61 | Any cell holding a quote, written between quotes unescaped, is not read back as itself with the reader resuming after its closing quote, whatever follows. |
| CsvExport.InPlaceReadIsQuoteFree | components/invoices-by-vendor-table.tsx:61 | A quoted text read back as itself, with the reader resuming right after its closing quote, holds no quote. |

## Behaviour of the code that the model keeps

The model follows the code where the repository's tests or its documentation expect otherwise:

- Month labels:
  - `apps/api/src/__tests__/trends.test.ts:62` and `apps/api/src/__tests__/cashflow.test.ts:58` expect labels like "Jan 2025".
  - The trends route emits "Jan" .. "Dec" with no year (`Trends.LabelsHaveNoYear`).
  - The cash-outflow route emits range labels such as "0-7 days".
- Category fields: `apps/api/src/__tests__/category.test.ts:18-64` expects `category`, `totalSpend` and `percentage` fields, sorted by spend. The route returns `name` and `value` in `groupBy` order, with no percentage.
- Invalid paging: `apps/api/src/__tests__/invoices.test.ts:83-95` expects an invalid page or limit to be clamped to 1. The route does no clamping. A page below 1 makes `skip` negative, which Prisma rejects (`Invoices.ListInvoices` returns `NegativeSkip`).
- Response key:
  - `apps/api/src/__tests__/invoices.test.ts:15` expects the listing under `invoices`.
  - `apps/api/src/__tests__/api.test.ts:47` expects it under `data`.
  - The route uses `data`.
- The invoice-count change compares the all-time count with last month's count (`Stats.InvoiceChangeAtLeastDocumentsChange`).
- The trends window ends at midnight that starts the month's last day, inclusive. Invoices later on that day fall in no month (`Trends.LastDayAfterMidnightMissed`).
- The spend metric has no upper bound, so future-dated invoices count as this year's spend (`Stats.OverviewValues`).
- Cash-outflow ranges include both bounds, so an invoice due exactly on a shared bound is counted in two ranges (`Cashflow.SharedBoundCountedTwice`).
- The CSV export does not double quotes inside cells, as section 2 rule 7 of RFC 4180 requires (`CsvExport.UnescapedQuoteUnreadable`).
- `new Date(y, ...)` reads years 0..99 as 1900..1999. The trend window lemmas therefore assume a year of at least 100. The overview window lemmas assume a year above 100: in year 100 the previous year's start, `new Date(99, 0, 1)`, is 1 January 1999.

## Left out

- CsvExport.UnescapedQuoteUnreadable: shows that a whole line does not read back only for the vendor name `a"b`. For every cell holding a quote, `CsvExport.QuotedCellMisread` proves that the cell is not read back in its own place. It is not proved that no line with such a cell ever reads back as its cells.
- Time zones: the server's local time, which `new Date(y, m, d)` and `getFullYear()` use, is taken to be UTC. "now" and the current year are parameters.
- Time of day in the stats and trends bounds beyond what `Calendar.Clock` carries. Milliseconds are counted, and leap seconds do not exist in JavaScript time.
- `lastMonthEnd` (`apps/api/src/routes/stats.ts:13`) is computed but never used, so it has no model.
- Floating point: amounts and percentages are exact reals. NaN, Infinity and rounding are not modelled.
- Stats.Change: states the change times the baseline rather than the floating-point quotient.
- Invoices.ListInvoices: a limit below 1 is an error (`NonPositiveLimit`). The code does otherwise, in two ways.
  - A limit of 0 takes no rows. The page count `Math.ceil(total / 0)` is then Infinity, or NaN when the total is 0.
  - A negative limit is passed on to Prisma as a negative `take` (apps/api/src/routes/invoices.ts:41), whose behaviour is not part of this model. The page count `Math.ceil(total / limitNum)` is then 0 or less (apps/api/src/routes/invoices.ts:72).
- Invoices.ListInvoices: `page` and `limit` arrive as integers. `parseInt` of a non-numeric text (NaN) is not modelled.
- Invoices.ListInvoices: `sortBy` is modelled for `invoiceDate` and `totalAmount`; every other field is rejected (`UnsupportedSort`). Prisma accepts the other scalar columns too.
- Invoices.ListInvoices: the included customer and payments relations are not modelled, since they do not reach the response rows.
- Case-insensitive search folds ASCII letters only; the database's Unicode case folding is not modelled.
- A dangling vendor id gives an empty vendor name in the listing. The code would throw on `invoice.vendor.name`, and the listing lemmas assume the foreign key holds.
- The order of `groupBy` groups is taken as first appearance in the table, and `orderBy` is an insertion sort that puts a row before later rows with an equal key. The database leaves both orders unspecified. The model proves that the result is sorted and is a permutation, but not that it is stable.
- `Promise.all` concurrency: the queries are read-only, so the model evaluates them one after another.
- Database and server errors, the 500 responses, logging and Express routing.
- Seeding:
  - Reading and parsing the JSON file, `deleteMany` and logging are not modelled.
  - The `catch` that counts a failing database call as a skip is not modelled: database calls do not fail in the model.
  - Date strings are stored as text, so `new Date(invoiceDate)` parsing is not modelled.
  - Generated record ids are positions in their sequence.
- CSV export: building the Blob and the download link are not modelled. So are `toLocaleDateString("de-DE")` and `toFixed(2)`: the date and amount cells are taken as already rendered text.
- The chat route, the language-model service and every UI component other than `exportToCSV`.
