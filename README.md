# sbanken-client purchase pipeline, modelled in Dafny

This project models the data path of sbanken-client:

- **Bank to purchases.** Card transactions fetched from the bank become `Purchase` records.
- **Storage.** The purchases are stored in the Postgres `purchases` table, in both the `pkg/storage` store and the older store at the repository root.
- **Daily report.** The spending report uses the month total, a total per configured category, the next notify time, and the rendered layout.

Properties of each part are proved. The modules are:

- `Models`: the `Date` and `Purchase` records and `Date.String`, `Date.Stamp`, `Date.AddMonth`, `Date.SubMonth` (pkg/models/model.go).
- `Text`: Go's `%d` and `%0<w>d` formatting, a reader for decimal numbers, `strings.TrimRight`, joining with a separator.
- `SqlText`: the text of the bulk insert. That is `sanitize` and the VALUES list of pkg/storage/purchase.go, plus the unescaped list of storage.go. A reader for the VALUES text follows SQL's `''` rule: a doubled quote inside a quoted literal stands for one quote. The reader states what the database receives.
- `Storage`: the pkg/storage store, a class whose `table` field maps a purchase id to its row.
- `LegacyStorage`: the root storage.go store.
- `Transactions`: the card-transaction filter and the card-to-purchase mapping (pkg/client/transaction.go).
- `Sync`: `Client.Purchases`, the sync cycle, and `convertToPurchases` (pkg/client/client.go).
- `Notifications`: the notify-hour check, the notify time, the totals, and the report text (pkg/notifications/notification.go).

The database, the bank and the clock are inputs, not computed:

- **Database.** `db: Outcome<string>` says whether the database runs a statement, with the driver's error text when it does not. Given that answer, the effect on the table is stated exactly.
- **Bank.** A `Reply` is what the HTTP call and the JSON decoding produced.
- **Clock.** Time is an integer count of nanoseconds in days of exactly 24 hours.
- **Sync cycle.** `replies(i)` and `answers(i)` are the bank's and the database's answers for the i-th account.

## Model

| member | source | states |
|---|---|---|
| Models.MonthName | pkg/models/model.go:27-29 | Definition: `time.Month.String`, the English name of months 1..12, otherwise `%!Month(n)` with the month as an unsigned 64-bit number |
| Models.DateString | pkg/models/model.go:25-30 | Definition: `"<Month> YYYY"` when Day is 0, otherwise `"<Day> <Month>, YYYY"`, with the year in `%04d` |
| Models.Stamp | pkg/models/model.go:32-34 | Definition: `%04d-%02d-%02d` of year, month and day |
| Models.AddMonth | pkg/models/model.go:36-41 | Keeps the day, sets MonthNum to Month, and keeps a month in 1..12 in 1..12 |
| Models.SubMonth | pkg/models/model.go:43-48 | Keeps the day, sets MonthNum to Month, and keeps a month in 1..12 in 1..12 |
| Models.AddMonthIsNextMonth | pkg/models/model.go:36-41 | Moves to the next month in the calendar. The year goes up exactly when the month was December |
| Models.SubMonthIsPreviousMonth | pkg/models/model.go:43-48 | Moves to the previous month. The year goes down exactly when the month was January |
| Models.AddSubInverse | pkg/models/model.go:36-48 | On a well-formed date, SubMonth(AddMonth(d)) == d and AddMonth(SubMonth(d)) == d |
| Models.StampLength | pkg/models/model.go:32-34 | For a year in 0..9999 and a month and day in 0..99, the stamp is 10 characters long |
| Models.StampRoundTrip | pkg/models/model.go:32-34 | Reading the `YYYY-MM-DD` stamp back gives the year, month and day it was made from |
| Models.StampHasNoQuote | pkg/models/model.go:32-34 | A stamp never contains a quote, so interpolating it unescaped is safe |
| Models.MonthNamesDistinct | pkg/models/model.go:27 | The twelve month names are pairwise distinct |
| Models.MonthHeadingInjective | pkg/models/model.go:25-30 | For a four-digit year, a whole-month heading "<Month> YYYY" names exactly one year and month |
| Text.IntString | pkg/storage/purchase.go:29-32 | Definition: fmt's `%d`, a minus sign before the decimal digits of a negative number |
| Text.PadInt | pkg/models/model.go:33 | Definition: fmt's `%0<w>d`, zero-padded to the width, with the sign taking one column |
| Text.IntStringRoundTrip | pkg/storage/purchase.go:29-32 | Reading back `%d` of any integer, negative ones included, gives the integer |
| SqlText.Sanitize | pkg/storage/purchase.go:23-25 | The output is the input's length plus its number of quotes |
| SqlText.CollapseSanitize | pkg/storage/purchase.go:23-25 | Collapsing each `''` back to `'` recovers the input |
| SqlText.SanitizeQuoteFree | pkg/storage/purchase.go:23-25 | A string without quotes is left as it is |
| SqlText.QuotedRoundTrip | pkg/storage/purchase.go:23-29 | A sanitized string in quotes reads back as the original string, whatever quotes it holds |
| SqlText.TupleRoundTrip | pkg/storage/purchase.go:29-37 | A tuple of escaped fields reads back as exactly its seven columns |
| SqlText.TupleText | pkg/storage/purchase.go:29 | Definition: the fields in parentheses, separated by ", ", strings in quotes and the amount as `%d` |
| SqlText.ValuesList | pkg/storage/purchase.go:27-39 | Definition: the sanitized tuples joined by ",\n" |
| SqlText.InsertStatement | pkg/storage/purchase.go:16-17 | Definition: the INSERT head, the VALUES list and ` ON CONFLICT (id) DO NOTHING` |
| SqlText.BuildValues | pkg/storage/purchase.go:27-39 | The loop's output, after `TrimRight(vals, ",\n")`, is the tuples joined by ",\n" with no trailing separator |
| SqlText.BuildLegacyValues | storage.go:77-82 | The loop's output, after `TrimRight(vals, ", ")`, is the tuples joined by ", ", because every tuple ends in `)` |
| SqlText.ValuesRoundTrip | pkg/storage/purchase.go:27-39 | The VALUES text reads back as the columns of every purchase of the batch, one tuple each and in order |
| SqlText.SanitizedTupleInjective | pkg/storage/purchase.go:29-37 | Two purchases with the same sanitized tuple have the same columns |
| SqlText.LegacyValuesRoundTrip | storage.go:77-82 | The unescaped VALUES text reads back correctly when no string field holds a quote |
| SqlText.LegacyTupleAmbiguous | storage.go:79-80 | Two purchases with different columns give the same unescaped tuple text |
| Storage.ToRow | pkg/storage/purchase.go:29-37 | Definition: the columns stored for a purchase (the date keeps year, month and day) |
| Storage.FromRow | pkg/storage/purchase.go:66-74 | Definition: a row scanned back into a purchase, with MonthNum set to Month in pkg/storage and left at zero in storage.go |
| Storage.Insert | pkg/storage/purchase.go:11-17 | Definition: the table after `INSERT ... ON CONFLICT (id) DO NOTHING`, the batch taken in order, each purchase added only when its id is not yet present |
| Storage.InMonth | pkg/storage/purchase.go:49-55 | Definition: `date >= <first of the month> AND date < <first of the next month>` on the row's date |
| Storage.MonthIds | pkg/storage/purchase.go:49-56 | Definition: the ids of the rows the month query selects |
| Storage.Store.AddPurchases | pkg/storage/purchase.go:14-44 | Covers three outcomes. An empty batch fails with "no purchases provided" and leaves the table alone. Otherwise the exact INSERT statement is built. When the database fails, the error is wrapped with the template and the table is unchanged. When it succeeds, the table becomes the insert-or-skip of the batch |
| Storage.Store.GetPurchases | pkg/storage/purchase.go:47-78 | A query error is returned as is. Otherwise the result lists every row of the month once, rebuilt with MonthNum == Month |
| Storage.Store.GetPurchase | pkg/storage/purchase.go:81-101 | Returns the stored row for a present id, sql.ErrNoRows for an absent one, and the database's error when the query fails |
| Storage.Store.DeletePurchase | pkg/storage/purchase.go:104-111 | Removes exactly the row with that id. When no row has the id, returns ErrNotFound and leaves the table unchanged |
| Storage.ScanRows | pkg/storage/purchase.go:62-77 | The `rows.Next()` loop returns each selected row exactly once, in whatever order the rows come |
| Storage.RowRoundTrip | pkg/storage/purchase.go:74 | A stored purchase reads back as itself when its MonthNum agrees with its Month. Either reader keeps the id and every stored column |
| Storage.InsertKeys | pkg/storage/purchase.go:11-17 | After an insert the ids are the old ones plus the batch's, and no others |
| Storage.InsertKeepsExisting | pkg/storage/purchase.go:11-17 | A row already in the table is never changed (ON CONFLICT (id) DO NOTHING) |
| Storage.InsertFirstWins | pkg/storage/purchase.go:16-17 | A new id gets the row of the first purchase of the batch that carries it |
| Storage.InsertAppend | pkg/storage/purchase.go:16-17 | Inserting two batches in turn equals inserting their concatenation |
| Storage.InsertPresent | pkg/storage/purchase.go:11-13 | A batch whose ids are all present changes nothing |
| Storage.InsertIdempotent | pkg/storage/purchase.go:11-17 | Storing the same batch twice leaves the table as storing it once |
| Storage.InMonthIsCalendarMonth | pkg/storage/purchase.go:49-55 | For real dates, `date >= first AND date < AddMonth(first)` selects exactly the calendar month |
| Storage.MonthIdsIgnoresDay | pkg/storage/purchase.go:54-55 | The day of the month argument does not change the rows selected |
| LegacyStorage.LegacyStore.AddPurchases | storage.go:68-84 | Handles an empty batch the same way. Builds the unescaped statement and returns the database's error unwrapped. With no quote in any field, a success is insert-or-skip of the batch |
| LegacyStorage.LegacyStore.GetPurchases | storage.go:87-118 | The month's rows, each once, read back with MonthNum left at zero, or the query error |
| LegacyStorage.LegacyStore.GetPurchase | storage.go:121-141 | The row for a present id (MonthNum zero), sql.ErrNoRows for an absent one, or the query error |
| Transactions.Trunc | pkg/client/transaction.go:48 | Definition: Go's `int(x)` on a float, truncation toward zero |
| Transactions.Amount | pkg/client/transaction.go:42-45 | Definition: the amount times the rate when the rate is non-zero, otherwise the amount |
| Transactions.Nok | pkg/client/transaction.go:42-48 | Definition: the truncated amount |
| Transactions.ToPurchase | pkg/client/transaction.go:41-60 | Definition: `cardDetails.purchase`, the field-by-field construction of the purchase |
| Transactions.Cards | pkg/client/transaction.go:80-86 | Definition: the card details of the items that carry one, in item order |
| Transactions.Fetched | pkg/client/transaction.go:62-87 | Definition: what `transactions` returns for a reply: the call error, the wrapped decoder error, the missing-`availableItems` error, or the cards |
| Transactions.FetchCards | pkg/client/transaction.go:62-87 | The filter loop returns the card details of the carded items in item order. Each error value is returned as the source returns it |
| Transactions.FetchedCases | pkg/client/transaction.go:63-78 | A reply yields card details exactly when it was decoded and has `availableItems`. An API error comes back unchanged |
| Transactions.CardsMembers | pkg/client/transaction.go:80-86 | A card detail is kept if and only if some item carries it |
| Transactions.CardsAppend | pkg/client/transaction.go:80-86 | Filtering distributes over concatenation, so item order is preserved |
| Transactions.CardsCount | pkg/client/transaction.go:80-86 | At most one result per item. You get all of them when every item has card details, and none when no item has |
| Transactions.AmountRate | pkg/client/transaction.go:42-45 | The currency rate is applied only when it is non-zero |
| Transactions.TruncBounds | pkg/client/transaction.go:48 | `int(nok)` truncates toward zero, staying within one of the value |
| Transactions.NokExamples | pkg/client/transaction.go:42-48 | With rate 0, 100 becomes 100, 19.99 becomes 19 and -19.99 becomes -19. At rate 10, 12.5 becomes 125 |
| Transactions.ToPurchaseFields | pkg/client/transaction.go:41-60 | The purchase copies id, category, city and merchant, takes the given account and the purchase date (not the accounting date), and has MonthNum == Month |
| Sync.ConvertToPurchases | pkg/client/client.go:110-134 | One purchase per card detail, in order. The i-th is the mapping of the i-th card detail for the account |
| Sync.Purchases | pkg/client/client.go:87-108 | A failed account listing returns "getting accounts: ..." with no log and no storage change. Otherwise the cycle succeeds, ending with the table and log of the accounts processed in order |
| Sync.CycleNeverEmptyBatch | pkg/client/client.go:98-101 | The cycle never logs the store's "no purchases provided" error |
| Sync.CycleLogLength | pkg/client/client.go:92-106 | Each account adds at most one log entry |
| Sync.CycleKeepsRows | pkg/client/client.go:101 | Rows already stored are never changed by a cycle |
| Sync.SkippedAccountKeepsTable | pkg/client/client.go:93-104 | An account whose fetch fails, which has no card purchases, or whose insert fails leaves the table as it was |
| Sync.CycleStoresAccount | pkg/client/client.go:101-105 | Every purchase of an account whose batch was stored is in the table at the end, whatever later accounts do |
| Sync.CycleGrows | pkg/client/client.go:92-106 | Processing more accounts only adds ids to the table |
| Notifications.NewNotifier | pkg/notifications/notification.go:33-35 | The hour is accepted if and only if it is in 0..23. Otherwise the fatal message is the one Go prints |
| Notifications.NotifyTime | pkg/notifications/notification.go:59-63 | Definition: today at the hour, or 24 hours later when now is strictly after it |
| Notifications.NotifyTimeWithinDay | pkg/notifications/notification.go:59-63 | now <= trigger < now + 24h, and the trigger falls at the configured hour |
| Notifications.NotifyTimeIsNext | pkg/notifications/notification.go:59-63 | No instant from now on at the configured hour comes before the trigger |
| Notifications.NotifyTimeExamples | pkg/notifications/notification.go:59-63 | With the hour at 8: at 07:00 and at 08:00 the report is due at 08:00 the same day, and at 09:00 it is due at 08:00 the next day |
| Notifications.Sum | pkg/notifications/notification.go:84-87 | Definition: the sum of NOK over the purchases |
| Notifications.CategorySum | pkg/notifications/notification.go:128-133 | Definition: the sum of NOK over the purchases of one category |
| Notifications.Totals | pkg/notifications/notification.go:123-135 | Definition: the map from each configured category to its CategorySum |
| Notifications.MonthTotal | pkg/notifications/notification.go:84-87 | The total is the sum of NOK over the month's purchases |
| Notifications.SumPermutation | pkg/notifications/notification.go:84-87 | The total does not depend on the order of the purchases |
| Notifications.CategoryTotals | pkg/notifications/notification.go:123-135 | The keys are exactly the configured categories. Each value is the NOK sum of that category's purchases |
| Notifications.UnconfiguredIgnored | pkg/notifications/notification.go:128-131 | A purchase of an unconfigured category changes no total |
| Notifications.ConfiguredAdds | pkg/notifications/notification.go:128-133 | A purchase of a configured category adds its NOK to that category's total and to no other |
| Notifications.CategorySumOfCategory | pkg/notifications/notification.go:128-133 | A category's total is the sum over exactly that category's purchases |
| Notifications.CategorySumPermutation | pkg/notifications/notification.go:128-133 | A category total does not depend on the order of the purchases |
| Notifications.ListingsAgree | pkg/storage/purchase.go:62-77 | Any two listings of the same rows hold the same purchases |
| Notifications.ReportIndependentOfOrder | pkg/notifications/notification.go:80-89 | The report text does not depend on the order in which the database returns the month's rows |
| Notifications.SortedKeys | pkg/notifications/notification.go:110 | The map keys in strictly increasing order, each exactly once (the order `range` visits a map in) |
| Notifications.TemplateReport | pkg/notifications/notification.go:100-121 | Definition: the heading, a newline, the categories title, then a newline and one `<k>: <v> NOK` per key in SortedKeys order |
| Notifications.TemplateReportLayout | pkg/notifications/notification.go:100-121 | Read line by line, the report is: the heading with the month and total, the categories title, then one `<k>: <v> NOK` line per key in sorted order |
| Notifications.Report | pkg/notifications/notification.go:78-98 | A storage error gives "getting purchases from storage: ..." and no message is rendered or sent. Otherwise the message is the template over the month's rows, their total and the category totals. A send error is wrapped as "sending message: ..." |

## Left out

- HTTP, OAuth and JSON are left out: `callAPI`, the Pushover `send`, and the decoding of responses. Each is a foreign call whose only modelled effect is its error or its decoded value (`Reply`, `send: Outcome<string>`).
- Configuration and connection setup are left out: `NewClient`, `NewStorage` with its retry loop, and the environment loading. Only the 0..23 notify-hour check is kept.
- Concurrency is left out: the ticker of `Client.Loop`, the `select`/`time.Sleep` loop of `notifier.Run`, and the server goroutines. Only the single trigger-time computation is modelled.
- Time zones and DST are left out: days are exactly 24 hours of integer nanoseconds, and `time.Now` is the `now` parameter.
- `models.DateToday` is not part of this model. `report` takes today's date as a parameter.
- Transactions.Nok: amounts are exact reals. The float64 rounding of `CurrencyAmount * CurrencyRate` is not modelled. The truncation toward zero of `int(nok)` is modelled.
- Integers are unbounded: the 64-bit wrap-around of Go's `int` in totals and amounts is not modelled.
- The SQL engine is not modelled. The table is the map `Storage.Table`.
- `GetPurchase` and `DeletePurchase` interpolate the id without escaping. That interpolation is not modelled: the id is looked up as given.
- Storage.Store.DeletePurchase: only the no-error and not-found paths are modelled. `RowsAffected` on the nil result of a failed `Exec` is not.
- Storage.Store.GetPurchases, Storage.Store.GetPurchase and the LegacyStorage versions: the `rows.Scan` and `time.Parse` failures are not modelled. Neither is `rows.Close`. For a stored year outside 0..9999, `Stamp` does not give four digits and the source's `time.Parse` with layout `2006-01-02T15:04:05Z` returns an error. The model returns such a row as `Ok`.
- Store.AddPurchases and LegacyStore.AddPurchases: whether the database accepts a date (a month outside 1..12, say) is part of the `db` input. The model does not tie that answer to the date.
- storage.go imports the root `models` package, which is not part of this model. It is taken to be pkg/models, with the same `Date` fields (MonthNum included), `Stamp` and `AddMonth`. LegacyStorage rests on that identification.
- LegacyStorage.LegacyStore.AddPurchases: when a field holds a quote, the statement text no longer spells the batch (`SqlText.LegacyTupleAmbiguous`). What the database makes of such text is left open: the new table and the result are unconstrained.
- Notifications.Report: the templating error path is not modelled. The template is a constant that parses, and it executes into a memory buffer, so neither error return can happen.
- Notifications.TemplateReportLayout: it is stated for category names without a newline, the only case in which lines identify keys.
- `client.go` calls `c.Accounts()`, `c.Transactions()` and `CardDetails`, while its package defines `accounts()`, `transactions()` and `cardDetails`. The model treats them as the same operations. Account listing itself is the `listing` input.
- Out of scope: `main.go`, `dev/loadtestdata.go`, the HTTP handlers and servers, and `static/main.js`.
- The fatal message for a bad hour is the one Go's fmt produces for a `%d` with no argument (`%!d(MISSING)`). The model keeps that text as the code produces it.

## Findings

| source | as written | input that shows it | evidently intended | confidence | as-written member | corrected member |
|---|---|---|---|---|---|---|
| storage.go:79-80 | string fields are interpolated into `'%s'` without escaping | location `x', 'y` with vendor `z`, against location `x` with vendor `y', 'z`: same tuple text, different purchases | escape quotes as pkg/storage/purchase.go does, so that the text determines the columns | not executed | SqlText.LegacyTupleAmbiguous | SqlText.SanitizedTupleInjective |
