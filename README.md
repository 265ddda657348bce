# Avalon finance: the aggregation layer in Dafny

This project models the part of the Avalon personal-finance app that turns a
list of transaction records (`type`, `amount`, `category`, `description`,
`date`) into numbers. It covers four source files:

- the dashboard rollups of `services/data.js`:
  - 30 daily buckets;
  - 12 monthly buckets with their `Mon 'YY` labels;
  - the per-category expense ranking.
- the spending summary of `services/gemini.js` and the branch structure of its
  templated fallback insight;
- the Telegram webhook of `api/telegram.js`:
  - UTC day and month windows;
  - the `/day`, `/month` and `/hist` tallies;
  - routing of an update to a command, a format error or a stored document
    keyed by `update_id`.
- the in-memory ledger of `app.js`:
  - headline totals;
  - chart selection by time range;
  - the recent list and its icons;
  - delete by id, and edit of the first record with an id.

Amounts are integers in minor units. A record's `date` is a `Stamp`. It holds
the instant in milliseconds since the epoch, whose UTC day is the
`YYYY-MM-DD` prefix of `toISOString`. It also holds the local calendar month
that `getFullYear`/`getMonth` report. The current time is always a parameter:
- a UTC day number `today` for the daily buckets;
- a `YearMonth` for the monthly buckets;
- the UTC calendar fields `UtcDate` for the bot. Each bound helper of
  `api/telegram.js` reads the clock itself (lines 11, 20, 26 and 31), so a
  `/day` or `/month` reply takes two readings: `atStart` for the window's
  start and `atEnd` for its end.

The files disagree on what counts as expense, and each is modelled as written:
- anything but `"income"` is expense in the daily and monthly buckets
  (`services/data.js:85-89`) and in the bot's tallies (`api/telegram.js:82-83`);
- only exactly `"expense"` is expense for the category ranking
  (`services/data.js:158`), the summary (`services/gemini.js:29`) and the page
  totals (`app.js:118-120`).

`Records.ExpenseRulesAgree` proves that the two rules agree when every record
is typed `"income"` or `"expense"`.

Three choices follow the code where a reader might expect otherwise:
- The day span of the summary is taken over all records, not only over the
  expense records (`services/gemini.js:47-50`).
- Record types are arbitrary strings, not a two-valued enumeration.
- The month keys come from the local calendar (`services/data.js:117-118`).

Modules: `Options`, `Text` (JavaScript `trim`, `String(n)`, `slice(-2)`,
`toLowerCase`), `Calendar` (`Date.UTC` day arithmetic), `Records`, `Sorting`
(the stable descending sort), `Categories`, `Dashboard`, `Insights`,
`Telegram`, `App`.

## Model

| member | source | states |
|---|---|---|
| Text.Trim | app.js:389-390 | `trim` returns the stretch of the string left after dropping whitespace, and only whitespace, at both ends; no whitespace remains at either end |
| Text.IsWhitespace | api/telegram.js:178 | no contract of its own; the characters `trim` removes, which the ensures of `Trim`, `TrimStart` and `TrimEnd` are stated in |
| Text.TrimIdempotent | api/telegram.js:178 | trimming a trimmed text changes nothing |
| Text.IntToString | api/telegram.js:228 | `String(n)` is non-empty and starts with `-` exactly for negative `n` |
| Text.IntToStringInjective | api/telegram.js:228 | different update ids render differently |
| Text.SliceLastTwo | services/data.js:140 | `slice(-2)` is the last two characters, or the whole string when shorter |
| Text.TwoDigitSuffix | services/data.js:140 | for a number of two digits or more, `slice(-2)` is its tens and units digits |
| Text.YearSuffixIsSlice | services/data.js:140 | the label's year part, written digit by digit, is `String(year).slice(-2)` for every year, negative ones included |
| Text.ToLower | app.js:267 | lower-casing keeps the length and lower-cases each ASCII letter |
| Text.ToLowerChar | app.js:267 | an upper-case ASCII letter becomes the letter 32 code points on, its lower-case form; any other character stays |
| Text.ToLowerIdempotent | app.js:267 | lower-casing twice is lower-casing once |
| Calendar.Normalize | services/data.js:138 | an out-of-range month is carried into the year: `12*year+month` is preserved |
| Calendar.NormalizeStep | services/data.js:137-139 | counting one month further is taking the next month, December to January |
| Calendar.PrevMonth | services/data.js:138 | the previous month is one month earlier on the `12*year+month` count, January back to December |
| Calendar.DaysInMonth | api/telegram.js:30-33 | every month has 28 to 31 days |
| Calendar.MakeDayInMonth | api/telegram.js:12-16 | inside a year, `Date.UTC` counts days from the first of the month |
| Calendar.MakeDay | api/telegram.js:12-16 | no contract of its own; `Date.UTC`'s day count, which `MakeDayInMonth`, `EpochIsDayZero`, `YearLength` and `MonthLength` describe |
| Calendar.YearLength | api/telegram.js:30-33 | a year has 366 days exactly when it is a leap year |
| Calendar.MonthLength | api/telegram.js:30-33 | the first of the next month is the month's length after the first of this one |
| Calendar.EpochIsDayZero | api/telegram.js:12-16 | `Date.UTC(1970, 0, 1)` is day 0 |
| Records.DayOf | services/data.js:78 | a record's day is the UTC day that contains its instant |
| Records.Sum | services/gemini.js:31-32 | no contract of its own; the left-to-right `reduce` sum, which `SumAppend`, `SumPermutation` and the filter-sum lemmas describe |
| Records.SumAppend | services/gemini.js:31-32 | a `reduce` sum over two lists joined is the sum of their sums |
| Records.IncomeAndNotIncomeCoverAll | services/data.js:85-89 | income and not-income amounts together are all amounts |
| Records.ExpenseRulesAgree | services/data.js:87 | if every type is income or expense, the not-income and exact-expense totals are equal |
| Sorting.Insert | services/data.js:166 | insertion adds one entry and keeps the multiset |
| Sorting.SortDesc | services/data.js:166 | the sort returns a permutation of its input |
| Sorting.SortDescMembers | services/data.js:166 | an entry is in the sorted list exactly when it is in the input |
| Sorting.SortDescSorted | services/data.js:166 | the result is in non-increasing order of value |
| Sorting.SortDescStable | services/data.js:166 | for each value, the entries with it keep their input order |
| Sorting.SortDescDistinct | services/data.js:164-166 | sorting entries with distinct names keeps the names distinct |
| Sorting.SortDescSum | services/data.js:164-166 | sorting does not change the sum of the values |
| Sorting.Take | services/gemini.js:44 | `slice(0, n)` is the first `n` entries, or all of them |
| Categories.FirstSeen | services/data.js:157-162 | the category `Map` keys in insertion order, without repeats |
| Categories.TallyStep | services/data.js:157-162 | one `forEach` step keeps the `Map` equal to the first-met expense categories with each category's sum so far |
| Categories.SumOrZero | services/data.js:159 | no contract of its own; `categoryMap.get(c) || 0`, which `Tallied` and `TallyStep` tie to the category's sum |
| Categories.TalliedBreakdown | services/data.js:164-165 | reading the finished `Map` out in key order as `{ name, value }` entries gives the breakdown |
| Categories.FirstSeenMembers | services/data.js:158-160 | a category is a key exactly when some record of type `"expense"` has it |
| Categories.Breakdown | services/data.js:157-165 | no contract of its own; `TalliedBreakdown` and `BreakdownTotal` state what it holds |
| Categories.NoExpenseNoSum | services/data.js:158-160 | a category with no expense record sums to 0 |
| Categories.BreakdownTotal | services/data.js:157-165 | the breakdown's values add up to the exact-expense total |
| Categories.RankingSorted | services/data.js:164-166 | the category ranking is in non-increasing order |
| Categories.RankingValues | services/data.js:157-165 | names are distinct and each value is the category's expense sum |
| Categories.RankingNames | services/data.js:157-165 | a name is ranked exactly when some expense record has that category |
| Categories.RankingTotal | services/data.js:164-166 | the ranked values add up to the exact-expense total |
| Categories.RankingStable | services/data.js:164-166 | equal totals keep the order in which the categories were first met |
| Categories.CategoryRanking | services/data.js:164-166 | no contract of its own; `RankingSorted`, `RankingValues`, `RankingNames`, `RankingTotal` and `RankingStable` state the ranking |
| Categories.AllIncomeEmpty | services/data.js:158 | an all-income input gives an empty ranking |
| Dashboard.DailyStats | services/data.js:93-109 | there are exactly 30 daily buckets |
| Dashboard.DailyStatsAt | services/data.js:96-106 | bucket `k` is that of day `today-29+k` |
| Dashboard.DailyDates | services/data.js:96-99 | the buckets are 30 consecutive days, oldest first, ending with today |
| Dashboard.CalculateDailyStats | services/data.js:74-110 | the map accumulation and the window loop give exactly the daily buckets |
| Dashboard.DayZeroFill | services/data.js:101 | a day without records has a zero bucket |
| Dashboard.OutsideDaysIgnored | services/data.js:96-101 | adding records dated outside the window does not change any bucket |
| Dashboard.EmptyDays | services/data.js:101 | with no records, every bucket is zero |
| Dashboard.WindowPrefixSum | services/data.js:85-89 | the first `n` buckets sum each record dated on one of their days once |
| Dashboard.AddToDay | services/data.js:77-90 | the callback adds the record to its day's entry, starting from zero, as income for `"income"` and expense otherwise, and changes no other day |
| Dashboard.DayMapStep | services/data.js:76-91 | after each record, every day's map entry is the totals of the records seen so far |
| Dashboard.Lookup | services/data.js:101 | no contract of its own; `get(k) || { income: 0, expense: 0 }`, whose zero case `DayZeroFill` and `MonthZeroFill` state |
| Dashboard.AddRecord | services/data.js:85-89 | no contract of its own; income for `"income"`, expense for any other type, as `AddToDay`, `AddToMonth` and the map step lemmas use it |
| Dashboard.DailyConservation | services/data.js:85-101 | bucket incomes sum to the window's income records, expenses to its other records |
| Dashboard.MonthNamesInjective | services/data.js:135 | each month name has three letters and names only its own month |
| Dashboard.MonthName | services/data.js:135 | no contract of its own; `monthNames[m]`, which `MonthNamesInjective` shows is three letters and belongs to month `m` only |
| Dashboard.MonthLabelMonth | services/data.js:140 | a label determines its month |
| Dashboard.MonthWindow | services/data.js:137-139 | there are exactly 12 months in the window |
| Dashboard.MonthsBefore | services/data.js:138 | the month `i` back is `i` months earlier on the `12*year+month` count |
| Dashboard.MonthsBeforeIsDate | services/data.js:138 | counting back month by month gives the month that `new Date(year, month - i, 1)` normalises to, for years from 100 on |
| Dashboard.MonthWindowAt | services/data.js:138 | window entry `k` is `11-k` months before now |
| Dashboard.MonthlyStats | services/data.js:133-150 | there are exactly 12 monthly buckets |
| Dashboard.MonthlyStatsAt | services/data.js:139-147 | bucket `k` is the bucket of window month `k` |
| Dashboard.MonthlyPrefixAt | services/data.js:136-147 | entry `k` of the buckets built so far is the bucket of the month `11-k` months back |
| Dashboard.AddToMonth | services/data.js:116-130 | the callback adds the record to its month's entry, starting from zero, as income for `"income"` and expense otherwise, and changes no other month |
| Dashboard.MonthMapStep | services/data.js:115-131 | after each record, every month's map entry is the totals of the records seen so far |
| Dashboard.MonthlyStep | services/data.js:137-147 | the bucket pushed for the month `i` back, read from the finished map, is the next bucket of the window |
| Dashboard.CalculateMonthlyStats | services/data.js:113-151 | the map accumulation and the window loop give exactly the monthly buckets |
| Dashboard.MonthWindowConsecutive | services/data.js:137-139 | the window ends with now, and each month is followed by the next |
| Dashboard.MonthsBeforeRollover | services/data.js:138 | stepping back past January lands in the previous year |
| Dashboard.MonthWindowMonthsDiffer | services/data.js:137-139 | months at different places of the window are different months of the year |
| Dashboard.MonthLabelsDistinct | services/data.js:140 | the twelve labels are pairwise different |
| Dashboard.MonthLabelFormat | services/data.js:140 | from year 10 on, a label is three letters, ` '` and two year digits, 7 characters |
| Dashboard.MonthLabelIsTemplate | services/data.js:140 | every label is the month name, ` '` and `String(year).slice(-2)` |
| Dashboard.MonthLabel | services/data.js:140 | no contract of its own; `MonthLabelIsTemplate`, `MonthLabelMonth`, `MonthLabelFormat` and `MonthLabelsDistinct` state the label |
| Dashboard.MonthZeroFill | services/data.js:142 | a month without records has a zero bucket |
| Dashboard.OutsideMonthsIgnored | services/data.js:137-142 | adding records of months outside the window does not change any bucket |
| Dashboard.CalculateCategoryStats | services/data.js:154-169 | the loop and the sort give exactly the category ranking |
| Insights.OfKind | services/gemini.js:28-29 | the filter keeps only records of the given type |
| Insights.OfKindMembers | services/gemini.js:28-29 | a record is kept exactly when it is an input record of the given type |
| Insights.IncomeFilterSum | services/gemini.js:28-31 | filtering then reducing equals summing the income amounts |
| Insights.ExpenseFilterSum | services/gemini.js:29-32 | filtering then reducing equals summing the exact-expense amounts |
| Insights.ExpenseFilterCategorySum | services/gemini.js:36-39 | filtering to expenses changes no category's sum |
| Insights.ExpenseFilterFirstSeen | services/gemini.js:36-41 | filtering to expenses keeps the categories' first-met order |
| Insights.ExpenseFilterBreakdown | services/gemini.js:29-41 | the breakdown of the filtered expense list is the breakdown of all records |
| Insights.MinMs | services/gemini.js:48 | the minimum is at most every date and is one of them |
| Insights.MaxMs | services/gemini.js:49 | the maximum is at least every date and is one of them |
| Insights.CeilDiv | services/gemini.js:50 | `Math.ceil(a / b)` is the least `q` with `a <= q*b` |
| Insights.SpanDaysPositive | services/gemini.js:50 | the day span is at least 1 |
| Insights.SpanDaysOne | services/gemini.js:47-50 | the span is 1 for an empty list or records sharing one instant |
| Insights.SpanDaysCeiling | services/gemini.js:50 | for a positive spread, the span is the ceiling of the spread in days |
| Insights.SpanDays | services/gemini.js:47-50 | no contract of its own; `SpanDaysPositive`, `SpanDaysOne` and `SpanDaysCeiling` state the span |
| Insights.AnalyzeTransactions | services/gemini.js:27-60 | the summary holds the exact totals, the top 3 of the ranking, the span and expense per day |
| Insights.Analyze | services/gemini.js:27-60 | no contract of its own; `AnalyzeTransactions`, `TopCategories`, `NoExpenseNoTop` and `CategoryWithinTotal` state the summary |
| Insights.TopCategories | services/gemini.js:41-44 | at most 3 entries, descending, distinct, each its category's sum, a prefix of the ranking |
| Insights.NoExpenseNoTop | services/gemini.js:29-44 | without expense records there are no top categories and no expense |
| Insights.CategoryWithinTotal | services/gemini.js:36-39 | with non-negative amounts a category's sum lies between 0 and the expense total |
| Insights.SavingsRate | services/gemini.js:63-65 | the rate is 0 without income, otherwise `100 * net / income` |
| Insights.TopCategoryName | services/gemini.js:67 | the top name, or "various categories" for no category or an empty name |
| Insights.TopCategoryAmount | services/gemini.js:68 | the top value, or 0 without a category |
| Insights.TopCategoryPercent | services/gemini.js:69-71 | the share is 0 without spending, otherwise `100 * amount / expense` |
| Insights.RoundHalfUp | services/gemini.js:84 | `Math.round` is the nearest integer, halves upward |
| Insights.GenerateFallbackInsights | services/gemini.js:62-91 | opening is saving iff net > 0; then the biggest expense; a tip iff the daily average is over 100; closing last |
| Insights.TipThreshold | services/gemini.js:83 | the tip appears iff the expense total is over 100 per day of the span |
| Insights.SavingIffIncomeExceeds | services/gemini.js:75-79 | the saving sentence iff exact income exceeds exact expense, and then the rate is positive |
| Insights.NoExpenseDefaults | services/gemini.js:67-71 | without expenses the insight names "various categories" at 0% |
| Insights.TopShareAtMostAll | services/gemini.js:68-71 | with non-negative amounts the biggest share lies between 0% and 100% |
| Telegram.DateUTC | api/telegram.js:12-16 | `Date.UTC` of a date is the start of a UTC day |
| Telegram.StartOfTodayUTC | api/telegram.js:10-17 | the start of today is a whole number of days, and that number is today's day count |
| Telegram.StartOfTomorrowUTC | api/telegram.js:19-23 | the start of tomorrow is exactly one day after the start of today |
| Telegram.StartOfMonthUTC | api/telegram.js:25-28 | no contract of its own; `NextMonthStart` and `DayWindowInMonthWindow` state that it is the first day of the month and lies at or before today |
| Telegram.StartOfNextMonthUTC | api/telegram.js:30-33 | no contract of its own; `NextMonthStart` states that it is the month's length after the month start, January of the next year after December |
| Telegram.NextMonthStart | api/telegram.js:25-33 | the month window spans exactly the month's days; December rolls over to January of the next year |
| Telegram.DayWindowInMonthWindow | api/telegram.js:10-33 | for one clock reading, today's window lies within this month's; the month's last day is followed by the next month |
| Telegram.DayWindowIsUtcDay | api/telegram.js:43-56 | for one clock reading, an instant is in `[today, tomorrow)` exactly when it lies on today's UTC day |
| Telegram.MonthWindowIsUtcMonth | api/telegram.js:97-101 | an instant is in the month window exactly when its UTC day is in the month |
| Telegram.UserTransactions | api/telegram.js:39-61 | the query returns exactly the user's documents within the given bounds, each as often as the store lists it |
| Telegram.Selected | api/telegram.js:41-56 | no contract of its own; the `where` clauses, which `UserTransactions`' ensures turn into membership and counts |
| Telegram.UserTransactionsOrderFree | api/telegram.js:39-61 | two listings with the same documents give query results with the same documents |
| Records.SumPermutation | api/telegram.js:81-84 | a sum over a list does not depend on the order of its elements |
| Telegram.PeriodReplyOrderFree | api/telegram.js:74-84 | a period reply depends only on which documents the query returned, not on their order |
| Telegram.CommandReplyOrderFree | api/telegram.js:59-60 | every command's reply is the same whatever order the store lists its documents in |
| Telegram.HandlePeriod | api/telegram.js:74-91 | the tally loop gives the no-transactions reply or the not-income rule's totals and net |
| Telegram.PeriodReplyConservation | api/telegram.js:78-84 | "no transactions" iff the result is empty; income + expense = all amounts; net = income − expense |
| Telegram.PeriodReply | api/telegram.js:74-84 | no contract of its own; `PeriodReplyConservation` and `HandlePeriod` state what it returns |
| Telegram.FirstToken | api/telegram.js:185 | `split(" ")[0]` is a space-free prefix that ends the text or is followed by a space |
| Telegram.FirstTokenUnique | api/telegram.js:185 | that characterisation determines the first token |
| Telegram.Route | api/telegram.js:187-211 | the command is `Unknown` exactly when the token is none of `/day`, `/month`, `/hist`, `/web` |
| Telegram.StoredUsername | api/telegram.js:231 | the `null` fallback for a missing username keeps only a non-empty username |
| Telegram.IsCommand | api/telegram.js:184 | no contract of its own; `startsWith("/")`, whose two outcomes `CommandsSkipParser` and `StoreOnlyParsed` describe |
| Telegram.HandledText | api/telegram.js:175-178 | no contract of its own; the message text when present and non-empty, trimmed, which `IgnoredRequests` and `StoreOnlyParsed` use |
| Telegram.WebTokenUsername | api/telegram.js:151 | no contract of its own; the payload's `username || ""` |
| Telegram.Handle | api/telegram.js:169-247 | status 405 exactly for a non-POST request, 200 otherwise |
| Telegram.IgnoredRequests | api/telegram.js:170-176 | non-POST requests and updates without text lead to no action |
| Telegram.CommandsSkipParser | api/telegram.js:184-214 | a slash-led text is routed on its first token, whatever the parser would say |
| Telegram.ParseFailureStoresNothing | api/telegram.js:217-225 | a rejected message gets the format hint and nothing is stored |
| Telegram.StoreOnlyParsed | api/telegram.js:217-234 | a store happens iff a non-command parses; key `String(update_id)`, parsed fields, sender id |
| Telegram.DistinctUpdatesDistinctKeys | api/telegram.js:228 | two stored updates with the same key have the same `update_id` |
| Telegram.Apply | api/telegram.js:227-234 | a store sets one key and leaves the others; other actions leave the store |
| Telegram.RedeliveryKeepsOneDocument | api/telegram.js:227-234 | a redelivered update overwrites its own document and adds no key |
| Telegram.HandleAtOtherTime | api/telegram.js:227-233 | the same update handled at another server time stores, or does not store, under the same key |
| Telegram.DayWindowOfReadings | api/telegram.js:10-23 | `/day`'s window runs from the first reading's UTC day through the second reading's |
| Telegram.DayCountsToday | api/telegram.js:67-72 | when both clock readings fall on the same UTC day, `/day` counts exactly the sender's documents created on that day |
| Telegram.DayAcrossMidnight | api/telegram.js:67-72 | when the second reading falls on the next UTC day, `/day`'s window is two days long and holds both days |
| Telegram.MonthWindowOfReadings | api/telegram.js:25-33 | `/month`'s window runs from the first of the first reading's month up to the first of the month after the second reading's |
| Telegram.MonthAcrossMonthEnd | api/telegram.js:96-101 | when the second reading falls in the next month, `/month`'s window spans both months' days and holds both months |
| Telegram.CommandReply | api/telegram.js:67-210 | no contract of its own; with one clock reading per window bound, `DayWindowOfReadings`, `DayCountsToday`, `DayAcrossMidnight`, `MonthAcrossMonthEnd`, `EmptyMonthReply` and `CommandReplyOrderFree` state its replies |
| Telegram.ActionReply | api/telegram.js:209-239 | every action but no-action gets a reply, and a store is answered with the stored category and amount |
| Telegram.EmptyMonthReply | api/telegram.js:96-104 | no documents in the month window gives the "no transactions yet" reply |
| Telegram.UnknownCommandReply | api/telegram.js:209-210 | any other slash-led first token gets "Unknown command" |
| App.WithoutId | app.js:364 | the delete filter keeps exactly the records with another id |
| App.WithoutIdAppend | app.js:364 | the filter works piece by piece, so kept records keep their order |
| App.WithoutAbsentId | app.js:364 | deleting an id no record has changes nothing |
| App.WithoutIdIdempotent | app.js:364 | deleting twice is deleting once |
| App.DeleteTotals | app.js:364 | a deletion removes exactly the deleted records' contribution to any total |
| App.FindById | app.js:410 | `find` returns the first record with the id, or nothing when none has it |
| App.EditChangesOnlyFirstMatch | app.js:410-414 | only amount, category and description of the first match change |
| App.EditAbsentId | app.js:410-411 | with no matching record the list is unchanged |
| App.EditKeepsOtherIds | app.js:410-414 | the length and every id stay; records with another id are untouched |
| App.EditFirst | app.js:410-414 | no contract of its own; `EditChangesOnlyFirstMatch`, `EditAbsentId` and `EditKeepsOtherIds` state that the length and ids stay and only the first match changes |
| App.EditStoresTrimmed | app.js:389-390 | the stored category and description have no surrounding whitespace |
| App.IconIgnoresCase | app.js:266-274 | a category and its lower-case form get the same icon |
| App.DefaultIcon | app.js:266-274 | `ph-currency-dollar` goes to exactly the categories outside the six known ones |
| App.IconFor | app.js:266-274 | no contract of its own; `IconIgnoresCase` and `DefaultIcon` state which icon a category gets |
| App.RecentTransactions | app.js:262 | the recent list is the first `min(10, n)` records |
| App.AppState.constructor | app.js:5-93 | the state of lines 5-16 with `transactions` set to the loaded list, as lines 79 and 93 assign it, and the `daily` range |
| App.AppState.RenderStats | app.js:113-127 | income and expense are the exact-type totals and balance is their difference; the three equal the totals and net balance of `analyzeTransactions`' summary |
| App.AppState.RenderCharts | app.js:136-147 | monthly buckets iff the range is `monthly`, daily buckets otherwise |
| App.AppState.SetTimeRange | app.js:335-338 | the selector sets the range and nothing else |
| App.AppState.Delete | app.js:351-365 | after confirmation and a successful request, the id's records are dropped |
| App.AppState.SubmitEdit | app.js:384-414 | with an id and a successful request, the first match gets the new amount and the trimmed texts |

## Left out

- Network and storage I/O:
  - every `fetch` in `app.js` and in `generateFinancialInsights`;
  - the Firestore query and write;
  - `sendMessage`;
  - the call to the language model.
  The request outcomes (`res.ok`, `confirm`) are parameters, and replies are
  values.
- The link between the webhook's writes and its queries. Writes go to a
  `map<string, Doc>` (`Telegram.Apply`). The queries read a `seq<Doc>` listing
  that is given separately. The model does not relate the two, so it does not
  show that a stored document is one a later `/day` sees, nor that the listing
  holds each key once.
- The `try`/`catch` paths: the 500 response of the webhook and the fallback
  trigger in `generateFinancialInsights`. What raises them (I/O, configuration
  such as a missing HMAC secret in `generateWebToken`, and the foreign parser
  and library calls) is not modelled.
- `generateWebToken`: base64, JSON and the HMAC signature are foreign library
  calls, and `ts` is a clock reading. Only the payload's `id` and
  `username || ""` are kept.
- The shorthand parser (`lib/parsing.js`) is not part of this model. It is a
  function parameter `string -> Option<Draft>`. The fields of `Draft` are the
  four the rest of the code reads; any other fields it spreads into the stored
  document are not modelled.
- `generateMockTransactions` draws on `Math.random` and is not modelled.
- Time zones:
  - The daily window is built with the local `setDate` and read back with the
    UTC `toISOString`. The record's day is the string prefix of its stored
    date.
  - The model uses UTC days throughout. This assumes stored dates are in
    `toISOString` form and that moving back `i` local days is moving back `i`
    UTC days, which need not hold across a daylight-saving change.
  - The month of a record is taken as given (`Stamp.localMonth`), not derived
    from its instant.
  - The `YYYY-MM` month key is the `YearMonth` pair itself.
- Number formatting: `toLocaleString` and the `toFixed(1)` rounding of the
  percentages. The fallback insight is a sequence of `Sentence` values, which
  carry the exact rates as reals.
- JavaScript numbers are floating point; the model uses unbounded integers and
  exact reals. `Number(...)` conversion of the edited amount is likewise not
  modelled: the amount arrives as an integer.
- `toLowerCase` is modelled for ASCII letters only.
- Dashboard.MonthsBeforeIsDate: `new Date(y, m, 1)` reads years 0 to 99 as
  1900 + y, and `Calendar.Normalize` does not. The lemma therefore describes
  `Date` only for years from 100 on, which every clock year is.
- Telegram.DateUTC: `Date.UTC` applies the same 1900 + y rule to years 0 to 99,
  and `Calendar.MakeDay` does not. `DateUTC`, `StartOfTodayUTC`,
  `StartOfTomorrowUTC`, `StartOfMonthUTC` and `StartOfNextMonthUTC` are
  therefore `Date.UTC` only for years from 100 on, which the clock's UTC year
  always is.
- The DOM, Chart.js configuration, modals, the daily chart labels
  (`getMonth() + 1`/`getDate()`) and the category chart colours.
- App.AppState.SubmitEdit: the edited record object is aliased by the list, and
  the model updates the list element as a value, which has the same effect on
  `appState` only.
- App.AppState.Delete: the `DELETE` request's URL and token are not modelled;
  only whether it succeeded.
- The order of the documents a Firestore query returns is left open: the
  query is modelled on the order the store lists them in, and
  `Telegram.CommandReplyOrderFree` proves the replies do not depend on it.
