# revcat metric aggregation, modelled in Dafny

This project models the in-process metric aggregation engine of revcat. The engine has two layers.

**Date bucketing** (`server/helpers.ts`):
- `truncateDate` maps a UTC instant to the key of its day, of the Monday of its week, or of the first day of its month.
- `getMonday` moves a `Date` back to Monday, counting Sunday as day 7.
- `generateSeries` walks from one instant toward another. Each step is one day, seven days or one calendar month, and the walk emits the key of every instant it reaches before the end.

**Three aggregators** (`server/solutions.ts`):
- `getRevenueWithCode` adds up the amounts of paid invoices whose period starts in the window, grouped by bucket. It returns only the buckets that received an invoice, in key order.
- `getActiveSubscriptionsWithCode` returns one row for every bucket of the generated axis. Each row counts the subscriptions that have started and not been canceled at that bucket's midnight.
- `getSubscriptionsWithCode` records a +1 at the bucket of every start before `to` and a -1 at the bucket of every cancellation at or after `from`. It then walks the same axis and reports the running total of those deltas.

## Representation

- **Instants** are integers: milliseconds since 1970-01-01T00:00:00Z. This is the time value of section 21.4.1 of ECMA-262.
- **Keys** are day numbers: `t / 86400000` with floor division.
  - A `YYYY-MM-DD` key of a four-digit year sorts lexicographically in date order. So the `localeCompare` sort of the revenue rows becomes integer order on day numbers.
  - `new Date(key)` is `KeyTime(key)`, the key's midnight.
- **Module `DateTime`** models the parts of the ECMAScript `Date` the helpers use.
  - A proleptic Gregorian conversion between day numbers and civil dates, proved to be a bijection on valid dates.
  - ECMA-262's `MakeDay` and `MakeDate`.
  - A `Date` class holding one time value. Its `setUTCDate`, `setUTCMonth` and `setUTCHours` follow their sections of ECMA-262, including the overflow of out-of-range dates into the next month.
- **Module `Types`** mirrors `Grain`, the invoice statuses, `Invoice` and `Subscription` from `shared/types.ts`. A missing or empty `canceled_at` is `None`.
- **Module `Helpers`** models `server/helpers.ts`.
  - `GetMonday`, `TruncateDate`, `GenerateSeries` and `Advance` are imperative code over a `Date` object.
  - Each is proved against a pure specification: `MondayOf`, `Truncate`, `Series` and `Step`.
- **Module `Solutions`** models the three aggregators.
  - The two loops that fill a map become methods: `BucketRevenue` and `DeltaMap`. Each is proved against reference functions: `RevenueIn`/`Buckets` and `NetDelta`/`EventKeys`.
  - The running total over the axis becomes the method `RunningTotals`. It is proved against `PrefixSum`.
  - The reference functions take an arbitrary bucketing function. The methods use `Bucketing(grain)`, which is `truncateDate`.
- **Module `Sorting`** holds the ascending listing of a set of keys and the ordering facts about it.

## Model

| member | source | states |
|---|---|---|
| DateTime.DaysFromCivilInverse | server/helpers.ts:14-15 | every day number is the day of the valid civil date it converts to (the day-to-date-to-day round trip) |
| DateTime.CivilFromDaysInverse | server/helpers.ts:44 | a valid civil date converts to a day number that converts back to that same date (the date-to-day-to-date round trip) |
| DateTime.DaysFromCivilFirstOfYear | server/helpers.ts:44 | the day of January 1st of every year agrees with ECMA-262's DayFromYear formula, an independent reference |
| DateTime.MonthRunsIntoNext | server/helpers.ts:44 | the first day of a month plus that month's length is the first day of the following month, across year ends and leap Februaries |
| DateTime.MakeDayOfTime | server/helpers.ts:40-42 | rebuilding a day from its own year, month and date, offset by k dates, gives that day plus k, so adding to getUTCDate moves by whole days |
| DateTime.MakeDateParts | server/helpers.ts:20 | a time value built from a day and a time of day within 0..86399999 gives back that day and that time of day |
| DateTime.Date.constructor | server/helpers.ts:12 | a new Date holds exactly the given time value |
| DateTime.Date.GetUTCDay | server/helpers.ts:4 | the weekday lies in 0..6, with day 0 of the epoch a Thursday |
| DateTime.Date.GetUTCDate | server/helpers.ts:40-42 | the date of month, ECMA-262's DateFromTime, lies in 1..31 |
| DateTime.Date.GetUTCMonth | server/helpers.ts:44 | the month index, ECMA-262's MonthFromTime, lies in 0..11 with January 0 |
| DateTime.Date.SetUTCDate | server/helpers.ts:15 | the new time value is MakeDate(MakeDay(year, month, date), time of day) of the old value, as ECMA-262 prescribes |
| DateTime.Date.SetUTCMonth | server/helpers.ts:44 | the new time value is MakeDate(MakeDay(year, month, old date), time of day), so an overflowing date spills into the next month |
| DateTime.Date.SetUTCHours | server/helpers.ts:20 | the new time value keeps the old day and sets the time of day from hours, minutes, seconds and milliseconds |
| Helpers.KeyTimeBounds | server/helpers.ts:21 | an instant lies in [midnight of its key, next midnight), and the key of that midnight is the same key |
| Helpers.IsoWeekday | server/helpers.ts:4 | the weekday with Sunday mapped to 7 lies in 1..7 |
| Helpers.GetMonday | server/helpers.ts:3-6 | the date is moved to the Monday of its week and keeps its time of day |
| Helpers.FirstOfMonthByMakeDay | server/helpers.ts:15 | setUTCDate(1) lands on day 1 of the instant's own month |
| Helpers.MidnightKeepsDay | server/helpers.ts:20 | setUTCHours(0, 0, 0, 0) keeps the instant's day |
| Helpers.TruncateDate | server/helpers.ts:8-22 | the returned key is the bucket key Truncate(t, grain) of the date's instant |
| Helpers.TruncateDayContains | server/helpers.ts:20-21 | by day, the key's midnight is at or before the instant and less than one day before it |
| Helpers.TruncateWeekIsMonday | server/helpers.ts:3-6 | by week, the key is a Monday 0 to 6 days back; a Sunday goes back exactly 6 days and a Monday stays |
| Helpers.TruncateMonthIsFirst | server/helpers.ts:14-15 | by month, the key is day 1 of the instant's own year and month, and the instant's day lies within that month |
| Helpers.MonthBucketKeys | server/helpers.ts:14-15 | a key is its own month bucket exactly when it is the first day of a month |
| Helpers.TruncateIsGreatestBucketKey | server/helpers.ts:8-22 | the key of an instant is a bucket key, is not after the instant's day, and is the greatest bucket key that is not |
| Helpers.TruncateIdempotent | server/helpers.ts:8-22 | truncating the midnight of a key again returns that key, for every grain |
| Helpers.TruncateMonotone | server/helpers.ts:8-22 | a later instant never gets an earlier key |
| Helpers.StepDay | server/helpers.ts:39-45 | one step of the walk moves the day strictly forward |
| Helpers.StepDayMonthAhead | server/helpers.ts:44 | a month step lands exactly the current month's length after the day |
| Helpers.Step | server/helpers.ts:39-45 | a step moves the instant forward, moves its day by StepDay and keeps its time of day |
| Helpers.MonthStepBySetter | server/helpers.ts:44 | setUTCMonth(getUTCMonth() + 1) computes exactly the month step |
| Helpers.GenerateSeries | server/helpers.ts:25-49 | the loop returns Series(from, to, grain): the keys of from, Step(from), ... while before `to` |
| Helpers.Advance | server/helpers.ts:39-45 | the setter chosen for the grain advances the date by exactly one step |
| Helpers.SeriesStep | server/helpers.ts:34-37 | one pass of the loop moves the current key from the rest of the walk onto the emitted prefix |
| Helpers.DateSetterSteps | server/helpers.ts:40-42 | setUTCDate(getUTCDate() + 1 or + 7) is the day or week step |
| Helpers.MonthSetterSteps | server/helpers.ts:44 | setUTCMonth(getUTCMonth() + 1) is the month step |
| Helpers.MonthStepKeepsDate | server/helpers.ts:44 | a month step keeps the date of month when the next month has that date |
| Helpers.MonthStepFromFirst | server/helpers.ts:44 | from a first of month, a month step lands on the first of the next month |
| Helpers.MonthStepOverflows | server/helpers.ts:44 | from 2025-01-31 one month step lands on 2025-03-03 and skips February |
| Helpers.SeriesStart | server/helpers.ts:30-36 | the walk is empty exactly when from >= to, and otherwise starts at the key of `from` |
| Helpers.SeriesBounds | server/helpers.ts:34-36 | every key is at or after the key of `from`, and its midnight is before `to` |
| Helpers.StepAdvancesKey | server/helpers.ts:39-45 | every step moves to a later key |
| Helpers.SeriesSteps | server/helpers.ts:34-45 | consecutive keys are exactly one step apart: a day, a week or the month step |
| Helpers.SeriesIncreasing | server/helpers.ts:34-45 | the keys of the walk strictly increase |
| Helpers.SeriesFixedLength | server/helpers.ts:34-42 | a day or week walk has one key per started day or week from `from` to `to` |
| Helpers.SeriesDailyLength | server/helpers.ts:34-41 | for midnight inputs a day walk has one key per day from `from` to `to` |
| Helpers.DayBucketKey | server/helpers.ts:20-21 | every day is its own day bucket |
| Helpers.WeekBucketKeys | server/helpers.ts:16-17 | a key is its own week bucket exactly when it is a Monday |
| Helpers.StepKeepsBucketKey | server/helpers.ts:39-45 | one step from a bucket key lands on a bucket key: the next day, the next Monday or the next first of month |
| Helpers.NoBucketKeyWithinStep | server/helpers.ts:39-45 | no bucket key lies strictly between a bucket key and the step after it, so the walk skips no bucket |
| Helpers.NoMondayWithinWeek | server/helpers.ts:42 | the six days after a Monday are not Mondays |
| Helpers.NoFirstWithinMonth | server/helpers.ts:44 | the days after the first of a month, within that month, are not firsts of a month |
| Helpers.StepOfKeyTime | server/helpers.ts:39-45 | one step from a key's midnight is the midnight of the next key |
| Helpers.SeriesFromKey | server/helpers.ts:34-37 | the walk from a key's midnight emits that key, then walks on from the next key's midnight |
| Helpers.SeriesBucketKeys | server/helpers.ts:34-45 | a walk that starts at a bucket midnight emits only bucket keys |
| Helpers.SeriesFindsBucketKey | server/helpers.ts:34-45 | a walk that starts at a bucket midnight emits every later bucket key whose midnight is before the end |
| Sorting.SortedKeys | server/solutions.ts:71-72 | the listing strictly increases, has exactly the set's members and has the set's size |
| Sorting.SortedUnique | server/solutions.ts:71-72 | two strictly increasing sequences with the same members are equal, so the sorted output is unique |
| Sorting.IncreasingWithin | server/solutions.ts:71-72 | an ascending sequence whose members all occur in another ascending sequence is no longer than it |
| Sorting.PrefixMembers | server/solutions.ts:254-258 | in a strictly increasing sequence, a member is among the first j+1 elements exactly when it is at most the j-th |
| Solutions.BucketRevenue | server/solutions.ts:58-69 | a key is in the bucket map exactly when a qualifying invoice falls in it, and its value is that bucket's reference total RevenueIn |
| Solutions.AddInvoice | server/solutions.ts:61-68 | one pass adds the invoice's amount to its bucket when it is paid and starts in [from, to), and changes nothing else |
| Solutions.RevenueStep | server/solutions.ts:60-69 | one more invoice adds its contribution to every total and its bucket to the bucket set |
| Solutions.BucketsMembers | server/solutions.ts:60-68 | a key is a bucket exactly when some invoice is paid, starts in the window and truncates to it |
| Solutions.RevenueInOutside | server/solutions.ts:60-68 | a key that no qualifying invoice truncates to totals zero |
| Solutions.RevenueWithCode | server/solutions.ts:47-77 | the output is the reference RevenueRows: the buckets in ascending order, each with its total |
| Solutions.RowsOfEntries | server/solutions.ts:71-76 | the emitted rows (RowsOf) are exactly the bucket map's entries, one row per key with that key's value, in strictly ascending key order |
| Solutions.RowsOfBucketMap | server/solutions.ts:71-76 | sorting and mapping a bucket map that meets the map's specification gives exactly RevenueRows |
| Solutions.RevenueRowsSpec | server/solutions.ts:58-76 | output keys strictly ascend, a key appears exactly when a qualifying invoice truncates to it, and each row's cents are that key's total |
| Solutions.RevenueRowsKeys | server/solutions.ts:71-72 | the output keys are the ascending listing of the bucket set |
| Solutions.RevenueInQualifying | server/solutions.ts:60-68 | every total is unchanged when the non-qualifying invoices are dropped, so unpaid or out-of-window invoices contribute nothing |
| Solutions.RevenueInSnoc | server/solutions.ts:67-68 | appending an invoice adds its contribution to a total |
| Solutions.QualifyingOf | server/solutions.ts:61-64 | the filtered invoices are all paid and start in the window |
| Solutions.RevenueExample | server/unit.test.ts:46-74 | two paid 500-cent invoices on 2025-07-01 and 2025-08-01 over [2025-07-01, 2025-09-01) by month give rows 2025-07-01 and 2025-08-01 with 500 cents each |
| Solutions.RevenueOfTwoKeys | server/unit.test.ts:46-74 | two paid invoices at the midnights of two in-window bucket keys give one row per key, in key order, with each amount |
| Solutions.RevenueOfOneKey | server/solutions.ts:58-76 | one qualifying invoice gives exactly one row: its bucket with its amount |
| Solutions.RevenueKeysOnAxis | server/solutions.ts:58-76 | when `to` is a bucket midnight, every revenue key is on the axis, so there are at most as many revenue rows as axis keys |
| Solutions.RevenueBeyondAxisExample | server/solutions.ts:63-66 | with `to` at 2025-07-02 12:00 by day, a paid invoice at 2025-07-02 01:00 gives the row 2025-07-02, which is not on the axis [2025-07-01] |
| Solutions.TwoKeysBuckets | server/solutions.ts:71-72 | two qualifying invoices in buckets k1 < k2 give the key listing [k1, k2] |
| Solutions.TwoKeysTotals | server/solutions.ts:67-68 | two qualifying invoices in different buckets each total their own amount |
| Solutions.ExampleMonthKeys | server/helpers.ts:14-15 | 2025-07-01 and 2025-08-01 are their own month buckets |
| Solutions.FirstOfMonthKey | server/helpers.ts:14-15 | the first day of any month is its own month bucket |
| Solutions.CountActive | server/solutions.ts:143-148 | the count of subscriptions active at an instant lies between 0 and the number of subscriptions |
| Solutions.BucketAxis | server/solutions.ts:134-138 | the axis is the walk from the midnight of the key of `from` to the midnight of the key of `to` |
| Solutions.ActiveSubscriptionsWithCode | server/solutions.ts:123-155 | the output is ActiveRows: one row per axis key, counting the subscriptions active at that key's midnight |
| Solutions.AxisMembers | server/solutions.ts:134-138 | a key is on the axis exactly when it is a bucket key of the grain at or after the key of `from` and before the key of `to` |
| Solutions.ActiveRowsSpec | server/solutions.ts:134-154 | the output keys are exactly the axis, in order and strictly ascending, and every count lies in 0..number of subscriptions |
| Solutions.CountActiveAppend | server/solutions.ts:143-148 | the count over two lists of subscriptions is the sum of their counts |
| Solutions.CountActivePermutation | server/solutions.ts:143-148 | the count does not depend on the order of the subscriptions |
| Solutions.RemoveMatching | server/solutions.ts:143-148 | removing matching elements from two lists with the same multiset leaves two lists with the same multiset |
| Solutions.CountActiveRemove | server/solutions.ts:143-148 | the count of a list is the count without one element plus that element's own contribution |
| Solutions.DeltaMap | server/solutions.ts:232-246 | a key is in the delta map exactly when some start or cancellation is recorded in it, and its value is that key's net delta |
| Solutions.RecordSubscription | server/solutions.ts:235-245 | one pass records +1 at the start's bucket when started before `to` and -1 at the cancellation's bucket when canceled at or after `from`, and nothing else |
| Solutions.AddToBucket | server/solutions.ts:238-244 | adding a delta to a bucket, with an absent bucket read as zero, changes that bucket only and adds it to the keys |
| Solutions.DeltaStep | server/solutions.ts:234-246 | one more subscription adds its own delta to every key and its events to the recorded keys |
| Solutions.EventKeysMembers | server/solutions.ts:234-246 | a key is recorded exactly when some start before `to`, or some cancellation at or after `from`, truncates to it |
| Solutions.PrefixSumLocal | server/solutions.ts:256-258 | only the entries at the summed keys matter: delta entries off the axis never affect a running total |
| Solutions.PrefixSumNet | server/solutions.ts:254-258 | over a map that meets the delta map's specification, the running total is the reference NetThrough |
| Solutions.RunningTotals | server/solutions.ts:254-264 | row i carries axis key i and the sum of the map's deltas at axis keys 0..i, an absent key reading as zero |
| Solutions.SubscriptionsWithCode | server/solutions.ts:221-265 | the output is DeltaRows: one row per axis key with the net deltas of the axis keys up to and including it |
| Solutions.SubThroughValue | server/solutions.ts:236-245 | over distinct keys, one subscription's running total is +1 if its start is recorded at one of them, less 1 if its cancellation is |
| Solutions.NetThroughOfNone | server/solutions.ts:254-258 | with no subscriptions, every running total is zero |
| Solutions.NetThroughSnoc | server/solutions.ts:234-246 | one more subscription adds its own running total |
| Solutions.SubParity | server/solutions.ts:147 | for an aligned subscription, its running total through an axis key is 1 exactly when it is active at that key's midnight |
| Solutions.DeltaMatchesContainment | server/solutions.ts:143-148 | for aligned subscriptions, the delta running total through an axis key equals the containment count at that key |
| Solutions.AxisWithinWindow | server/solutions.ts:248-252 | when `from` is a bucket midnight, every axis key's midnight lies in [from, to) |
| Solutions.StrategiesAgree | server/solutions.ts:221-265 | with bucket-aligned `from`, and starts and cancellations on axis midnights with no cancellation before its start, containment and delta give identical rows |
| Solutions.FirstDayOfAxis | server/solutions.ts:248-252 | a day axis between two day midnights is non-empty and starts at the first day |
| Solutions.NegativeDeltaExample | server/solutions.ts:236-245 | a subscription started in 1970 and canceled at 2025-07-01 00:00 counts 0 by containment but -1 by delta on the first day of a July window |
| Solutions.CarryOverOmitted | server/solutions.ts:236-239 | a never-canceled subscription whose start bucket is before the key of `from` changes no delta row, because its +1 lies before the axis |
| Solutions.OmittedThrough | server/solutions.ts:256-258 | a never-canceled subscription whose start bucket is not among the summed keys adds nothing to their running total |
| Solutions.CarryOverCounted | server/solutions.ts:143-148 | the same subscription raises the containment count of every axis row by one |
| Solutions.MidBucketExample | server/solutions.ts:147 | a subscription started at 01:00 on 2025-07-01 counts 0 by containment but 1 by delta on that day's row |

## Left out

- The SQL strategies and database fetches in server/solutions.ts are not part of this model. They are `getRevenueWithSql`, `getInvoicesFromDb`, `getActiveSubscriptionsWithSql`, `getSubscriptionsWithSql` and `getSubscriptionsFromDb`. Their meaning lies in the database engine.
- server/index.ts, shared/api.ts, the zod schemas of shared/types.ts, the React UI and the test and build configuration are not part of this model. They are routing, validation, UI and tooling.
- Parsing a date string with `new Date(...)` and formatting a key with `toISOString().slice(0, 10)` are not modelled. Inputs are instants and keys are day numbers. The key string is an order-preserving encoding of the day number for years 0000 to 9999.
- Invalid dates (NaN time values) and ECMA-262's TimeClip range limit are not modelled. Every integer is a valid instant.
- The `cents / 100` dollar conversion is not modelled. Revenue stays in integer cents, because the division is floating-point presentation.
- Solutions.RevenueWithCode: the output is stated in cents. The dollar field of each row is not modelled.
- Amounts and counts are unbounded integers. JavaScript's double-precision arithmetic is exact for them up to 2^53, and larger values are not modelled.
- Solutions.RevenueWithCode: the `localeCompare` sort is taken as integer order of day numbers. This matches for four-digit years only.
- Solutions.StrategiesAgree: requires every cancellation to be at or after its start. Without that, delta can report -1 where containment reports 0. It requires only `from`, not `to`, to be a bucket midnight.
- Solutions.BucketRevenue, Solutions.DeltaMap: the body of each `for` loop is a separate method, AddInvoice or RecordSubscription, which returns the updated map. The source updates one `Map` object in place. Here the map is a value that the loop reassigns, so aliasing of the map is not modelled.
- Solutions.RunningTotals: the `series.map` callback, which mutates the captured `runningTotal`, is a `for` loop over the axis. The callbacks run in axis order, as `Array.prototype.map` runs them.
- Solutions.RevenueKeysOnAxis: requires `to` to be a bucket midnight. For a `to` in the middle of a bucket, the revenue rows can hold the key of `to`, which is not on the axis, and can outnumber the axis keys (Solutions.RevenueBeyondAxisExample).
- Solutions.CarryOverOmitted: covers only starts in a bucket before the key of `from`. When `from` is in the middle of a bucket, a start earlier in that same bucket is still counted by the delta strategy, because its bucket is the first axis key.
- A falsy `canceled_at`, whether missing, null or the empty string, is `None`.
