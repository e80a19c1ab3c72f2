# Sales dashboard data pipeline, modelled in Dafny

The dashboard reads sales rows from a spreadsheet feed. It then:

- normalises each row's cells (`cleanNumber`, `cleanText`); the date is kept as the feed supplied it;
- zeroes the amount for users whose permissions do not include it;
- counts each client's rows over the full list;
- converts foreign-currency amounts at an exchange rate;
- classifies every row as a new or a renewing client;
- credits iHerb clients to a fixed agent;
- filters by year, quarter, month, status, agent and industry.

From the filtered rows it builds:

- the statistics: total revenue, the agent, industry and client rankings, and the row count;
- a six-month series that splits revenue by region (Taiwan / overseas) or by client status.

The filter choices offered to the user (years, agents, statuses, industries) come from the mapped rows before enrichment and filtering. They list the agent names and statuses as the feed supplies them, not the overridden agent or the computed status that the filters compare against.

`formatDate` is a display helper for the detail table; the model covers it as well.

The model follows the single source file `src/App.tsx`, one module per stage:

| file | module | stage |
|---|---|---|
| text.dfy | `Text` | the string built-ins the code relies on: `trim`, `\s` removal, ASCII case mapping, `includes`, `split(',')` |
| cells.dfy | `Optional`, `Cells` | raw cells; `parseFloat`, `cleanNumber`, `cleanText`, `formatDate` |
| dates.dfy | `Dates` | ISO-like date strings, `getQuarter`, the month key and the month order |
| currency.dfy | `Currency` | the local-currency test and `normalizeCountry` |
| rows.dfy | `Rows` | alias picking, permissions and masking in `fetchData` |
| grouping.dfy | `Grouping` | keyed groups in first-appearance order; the conservation laws |
| enrichment.dfy | `Enrichment` | `clientCounts` (a loop over a map) and the `map` step of `filteredData` |
| filters.dfy | `Filters` | the `filter` step of `filteredData` |
| ranking.dfy | `Ranking` | the stable sort by descending revenue, `slice` |
| stats.dfy | `Stats` | the `stats` memo: a loop filling three maps, then the rankings |
| monthly.dfy | `Monthly` | the `monthMap` fold of the market analysis, then sort and cut |
| options.dfy | `Options` | the `available*` memo: a loop filling four ordered sets, then sorts |
| pipeline.dfy | `Pipeline` | the stages composed end to end |

The source's loops are methods with loop invariants. Each is proved equal to a specification function:

- `Enrichment.ClientCounts` equals `CountsOf`.
- `Stats.ComputeStats` equals `StatsOf`.
- `Monthly.MonthlySeries` equals `SeriesOf`.
- `Options.AvailableChoices` equals `ChoicesOf`.

The properties the dashboard relies on are lemmas about those functions.

- The JavaScript objects used as dictionaries are modelled as a `map` plus the sequence of keys in insertion order. That sequence is what `Object.values` lists, for keys that are neither array indexes nor names of `Object.prototype` members (see "Left out").
- A `Set` is a duplicate-free sequence in insertion order.
- Amounts are exact reals.

## Model

| member | source | states |
|---|---|---|
| Cells.ParseFloat | src/App.tsx:51 | `parseFloat` gives NaN exactly when no decimal literal follows the leading white space |
| Cells.CleanNumber | src/App.tsx:48-52 | falsy cells give 0, numbers are returned unchanged, text is stripped of commas, the first `$` and white space, then parsed; unparseable text gives 0 |
| Cells.CleanNumberGrouped | src/App.tsx:48-52 | `"1,234.50"` cleans to 1234.5 |
| Cells.CleanNumberFirstDollarOnly | src/App.tsx:51 | only the first `$` is removed: `"$5"` gives 5 but `"$$5"` gives 0 |
| Cells.CleanNumberOfDecimal | src/App.tsx:48-52 | the decimal text of any natural number cleans back to that number |
| Cells.StripTags | src/App.tsx:65 | removing tags leaves no `<` and adds no character |
| Cells.StripTagsPrefix | src/App.tsx:65 | text before the first `<` is kept unchanged in front of the stripped rest |
| Cells.StripTagsRemovesTag | src/App.tsx:65 | a closed tag `<…>` whose body has no `>` is removed and the text on both sides survives |
| Cells.StripTagsRemovesOpenTag | src/App.tsx:65 | a `<` never closed removes everything after it and keeps the text before it |
| Cells.ReplaceEscapedNewlines | src/App.tsx:66 | no escaped `\n` pair remains, and only spaces are introduced |
| Cells.ReplaceEscapedPrefix | src/App.tsx:66 | text without a backslash-n pair, not ending in a backslash, is kept unchanged in front of the replaced rest |
| Cells.ReplaceEscapedPair | src/App.tsx:66 | each backslash-n pair becomes one space and the text on both sides survives |
| Cells.CleanText | src/App.tsx:62-68 | falsy cells give `""`; the result has no `<`, no newline, no escaped `\n` and no white space at either end |
| Cells.CleanTextIdempotent | src/App.tsx:62-68 | cleaning cleaned text changes nothing |
| Cells.CleanTextOfClean | src/App.tsx:62-68 | any non-empty text that already meets the output conditions is a fixed point: the output conditions describe exactly the texts that cleaning leaves unchanged |
| Cells.FormatDate | src/App.tsx:54-60 | the first 10 characters of a longer text, otherwise the whole text; so formatting twice is formatting once |
| Dates.ParseDate | src/App.tsx:42-43 | a parsed date has its year from the four leading digits and its month, in 1..12, from the two digits after the separator; its day is in 1..31 |
| Dates.QuarterOf | src/App.tsx:44-45 | `Math.ceil(month / 3)` is the quarter q with 3q-2 <= month <= 3q |
| Dates.GetQuarter | src/App.tsx:40-46 | there is a quarter exactly when the date parses; it is in 1..4 and contains the month |
| Dates.YearText | src/App.tsx:282 | `slice(0, 4)` is the first four characters, or the whole text when it is shorter; the year filter at src/App.tsx:318 takes the same prefix |
| Dates.MonthKeyInjective | src/App.tsx:150 | two dates share a month key exactly when they share year and month |
| Dates.StampOrdersMonths | src/App.tsx:156 | an earlier month always has a smaller `sortKey` |
| Dates.StampsOrderMonths | src/App.tsx:156 | two different months whose `sortKey`s are ordered have their year-and-month ordered the same way |
| Currency.DetectedCurrency | src/App.tsx:315 | `t.currency \|\| '臺幣'`: the row's own label when it has one, and `臺幣` when it has none |
| Currency.NormalizedCurrency | src/App.tsx:304-306 | `臺幣` for a row without a label, otherwise the upper-cased label with its white space removed; so no white space and no lower-case letter remain, and a row without a label is local |
| Currency.RegionAgreesWithConversion | src/App.tsx:70-80 | when the country names no region, a row is Taiwanese exactly when its currency is local, that is exactly when it is not converted |
| Currency.NormalizeCountry | src/App.tsx:70-80 | a Taiwan marker in the country wins, then an overseas marker, then a Taiwanese currency marker; anything else is overseas |
| Currency.LocalIgnoresCase | src/App.tsx:304-307 | the local-currency test does not depend on letter case |
| Currency.UsdIsForeign | src/App.tsx:307-308 | `usd` is foreign, so it is converted |
| Currency.NtDollarIsLocal | src/App.tsx:306-307 | `nt $` is local once upper-cased and stripped of white space |
| Rows.Pick | src/App.tsx:555-563 | the chained `\|\|` returns the first truthy cell in alias order, or the last alias's cell when none is truthy |
| Rows.PickTruthy | src/App.tsx:555-563 | the picked cell is truthy exactly when some alias holds a truthy cell |
| Rows.PickFallsThrough | src/App.tsx:556 | a zero in the first amount column falls through to the next column |
| Rows.AllowedFields | src/App.tsx:549-550 | `all`, in any case, allows every field of the field list; otherwise the lower-cased list is split at commas and trimmed |
| Rows.AmountMaskedIff | src/App.tsx:566-567 | the amount is masked exactly when `amount` is not an allowed field; with `all`, which allows every field, it is never masked |
| Rows.AmountMaskedList | src/App.tsx:549-567 | for permissions other than `all`, the amount is masked exactly when no comma-separated entry trims to `amount` |
| Rows.EmptyPermissionsMask | src/App.tsx:549-567 | a user with no permissions sees every amount as 0 |
| Rows.MapRow | src/App.tsx:552-570 | the amount is 0 when masked, and the cleaned amount cell otherwise |
| Rows.MaskingOnlyTouchesAmount | src/App.tsx:565-569 | masking changes the amount and no other field; a user who may see the amount gets exactly the full row |
| Rows.FetchRows | src/App.tsx:552-571 | one transaction per raw row, in order |
| Grouping.Keys | src/App.tsx:292-299 | each key once, exactly the keys some row carries |
| Grouping.CountsConserved | src/App.tsx:292-299 | every row is counted in exactly one group: the counts add up to the number of rows |
| Grouping.AmountsConserved | src/App.tsx:336-352 | every amount lands in exactly one group: the group amounts add up to the total |
| Grouping.CountAtLeastTwo | src/App.tsx:292-312 | a row's group has two or more rows exactly when another row shares its key |
| Grouping.TallyStep | src/App.tsx:297 | `counts[k] = (counts[k] \|\| 0) + 1` keeps the map equal to the group counts of the rows seen |
| Enrichment.ClientName | src/App.tsx:295 | the brand name when there is one, else the project name when there is one, else `Unknown` |
| Enrichment.ClientCounts | src/App.tsx:292-299 | the loop's map has an entry for every client of the full list, holding its row count, and the counts add up to the number of rows |
| Enrichment.CountsFinal | src/App.tsx:292-299 | a map that tallies the full list is the counts map, and its values add up to the number of rows |
| Enrichment.Enrich | src/App.tsx:302-315 | local rows keep their amount; foreign rows are multiplied by the rate and marked `isUSD`; the status is a renewal exactly when the client has two or more rows; iherb clients get the iherb agent; no other field changes |
| Enrichment.StatusFromFullList | src/App.tsx:309-312 | a row is a renewal exactly when another row of the full list has the same client, and a new client otherwise; so rows of one client share one status |
| Filters.FilterRows | src/App.tsx:316-328 | a row is kept exactly when it is among the input and passes every criterion |
| Filters.FilterAppend | src/App.tsx:316-328 | filtering works row by row, so kept rows keep their relative order |
| Filters.AllFiltersKeepDated | src/App.tsx:317 | with every filter at `All`, exactly the rows with a non-empty date remain, in order |
| Filters.UnknownStatusKeepsNothing | src/App.tsx:311-312 | a status filter other than `All` that is neither status keeps no row |
| Filters.StatusIndependentOfFilters | src/App.tsx:301-328 | a kept row's status is the one computed from the full list, whatever the filters |
| Filters.AgentFilterSeesOverride | src/App.tsx:313-325 | an agent filter keeps an iherb client's row only when it names the iherb agent |
| Filters.YearAndQuarterCombine | src/App.tsx:318-322 | year 2024 with quarter 1 keeps 2024-01-15 but drops 2024-04-01 and 2023-01-15 |
| Ranking.SortDesc | src/App.tsx:353-355 | the ranking is a permutation of the groups |
| Ranking.SortDescending | src/App.tsx:353-355 | the ranking is non-increasing by revenue |
| Ranking.SortStable | src/App.tsx:353-355 | entries of equal revenue keep their input order |
| Ranking.SortSum | src/App.tsx:353-355 | sorting changes no sum over the entries |
| Ranking.Take | src/App.tsx:355 | `slice(0, n)` is the first n entries, or all when there are fewer |
| Ranking.TakeLast | src/App.tsx:161 | `slice(-n)` is the last n entries, or all when there are fewer |
| Stats.Brands | src/App.tsx:343 | an agent's project set holds exactly the non-empty project names of that agent's rows |
| Stats.AgentKey | src/App.tsx:339 | the agent name when there is one, else `Unknown` |
| Stats.IndustryKey | src/App.tsx:344 | the industry when there is one, else `未分類` |
| Stats.WithShare | src/App.tsx:354 | with a positive total, share times total is the revenue times 100; otherwise the share is 0 |
| Stats.AddToGroup | src/App.tsx:344-351 | creating a group on first sight and adding one row keeps the map equal to the groups of the rows seen |
| Stats.AddToAgent | src/App.tsx:339-343 | the same for an agent entry, including its project set |
| Stats.AddRow | src/App.tsx:336-351 | one row adds its amount to the total and keeps all three maps equal to the groups of the rows seen so far, that row included |
| Stats.Accumulate | src/App.tsx:331-352 | after the loop, the total is the sum of the amounts and each map holds exactly the groups of the rows, keys in first-appearance order |
| Stats.ComputeStats | src/App.tsx:331-357 | the memo's result is the specification `StatsOf` |
| Stats.AgentRankingConserves | src/App.tsx:336-353 | agent revenues add up to the total revenue, agent counts to the row count |
| Stats.IndustryRankingConserves | src/App.tsx:344-354 | the same for the industries |
| Stats.ClientRankingConserves | src/App.tsx:348-355 | the same for the full client ranking, before the cut to 50 |
| Stats.SharesAddUpTo100 | src/App.tsx:354 | with a positive total revenue the industry shares add up to 100 |
| Stats.SharesZeroWithoutRevenue | src/App.tsx:354 | without positive total revenue every share is 0 |
| Stats.RankingsDescending | src/App.tsx:353-355 | all rankings, and the full client list, are non-increasing by revenue |
| Stats.AgentTiesKeepFirstAppearance | src/App.tsx:340-353 | agents of equal revenue are ranked in the order they first appear among the rows |
| Stats.ClientTop50 | src/App.tsx:355 | at most 50 clients, a prefix of the full ranking, all of it when it is short, and no dropped client earns more than a kept one |
| Stats.AgentEntries | src/App.tsx:339-353 | each agent entry sums exactly that agent's rows, and every agent among the rows has exactly one entry |
| Stats.EmptyStats | src/App.tsx:331-357 | no rows give total 0, empty rankings and count 0 |
| Monthly.FirstOf | src/App.tsx:156 | the index of a month's first row, which sets the month's `sortKey` |
| Monthly.AddToBucket | src/App.tsx:156-158 | the bucket is created on first sight, its total grows by the amount and the view's side value grows too; no other bucket changes |
| Monthly.AddToSides | src/App.tsx:159 | the two summary sides stay equal to the tallies of the rows seen |
| Monthly.AvgDeal | src/App.tsx:162 | 0 without non-iherb rows, otherwise times the count it gives the non-iherb revenue |
| Monthly.Accumulate | src/App.tsx:146-160 | after the loop, the month map holds exactly the buckets of the rows whose date parses, and both sides hold their tallies |
| Monthly.MonthlySeries | src/App.tsx:143-163 | the memo's result is the specification `SeriesOf` |
| Monthly.SideRevenue | src/App.tsx:159 | a side's revenue is the sum of the amounts on that side; without negative amounts the non-iherb revenue does not exceed it |
| Monthly.SidesSplitTotal | src/App.tsx:159 | the two sides share the revenue of the rows with a valid date |
| Monthly.BucketSplits | src/App.tsx:157-158 | a month's total is the sum of the view's two values, and the other view's values stay 0 |
| Monthly.SidesMatchBuckets | src/App.tsx:146-160 | the month totals add up to the two sides' revenue, and each view value adds up to its side |
| Monthly.RecentMonths | src/App.tsx:161 | at most six months, ascending by `sortKey`, the tail of the sorted months, and all of them when there are at most six |
| Monthly.LatestMonths | src/App.tsx:156-161 | every month the cut drops is earlier than every month it keeps |
| Monthly.MonthsSplit | src/App.tsx:157-161 | every month shown splits its total between the view's two values |
| Monthly.BucketsDated | src/App.tsx:150-156 | each month's key and `sortKey` come from one valid date, and month names are distinct |
| Options.LtTotal | src/App.tsx:287 | two different strings are ordered one way or the other |
| Options.LtTransitive | src/App.tsx:287 | the string order is transitive |
| Options.SortAscending | src/App.tsx:287 | `sort()` leaves strings in ascending order |
| Options.SortText | src/App.tsx:287 | `sort()` permutes its input |
| Options.StrictlyAscendingUnique | src/App.tsx:287 | two strictly ascending lists with the same elements are equal |
| Options.Collect | src/App.tsx:280-286 | each set holds the distinct non-empty values of its field, each once |
| Options.AvailableChoices | src/App.tsx:279-288 | the memo's result is the specification `ChoicesOf` |
| Options.SortedChoices | src/App.tsx:287 | a sorted choice list is strictly ascending, holds exactly the non-empty values and is the only such list |
| Options.ChoicesAscending | src/App.tsx:279-288 | agents, statuses and industries are offered once each, ascending, exactly those present |
| Options.YearsDescending | src/App.tsx:281-287 | the years are the distinct year prefixes of the non-empty dates, latest first |
| Pipeline.MaskedDashboard | src/App.tsx:566-567 | a user who may not see the amount gets 0 for every row, total revenue 0, and monthly sides summing to 0 |
| Pipeline.UnmaskedMatchesFull | src/App.tsx:565-569 | a user who may see the amount gets the same rows and statistics as one with every permission |

## Left out

- The network, login, local storage and all rendering (charts, tables, modals, error boundary) are not modelled. The raw rows and the exchange rate are parameters.
- The exchange-rate fetch is left out. The rate is a parameter of `Enrichment.EnrichAll`.
- `useMemo` and `useEffect` scheduling is left out, including the effect that selects the latest year when the year filter is `All`. Each memo is a function of its inputs.
- JavaScript `Date` parsing is modelled only for `YYYY-MM-DD`, `YYYY/MM/DD` and `YYYY-MM` texts: a four-digit year, a two-digit month in 1..12 and a two-digit day in 1..31. This is a range check, not a calendar check.
  - Other formats, time zones and the local-time reading of `getMonth` are not modelled.
  - Dates.ParseDate ignores any text after the day. A JavaScript engine may reject such a suffix when it is not a time of day; the model reads the date anyway.
  - Dates.ParseDate accepts any day from 1 to 31 in any month. It does not model how `Date` rolls an impossible day such as 02-31 into the next month.
  - `getTime` is modelled as an order-preserving stamp, `year * 10000 + month * 100 + day`, not as milliseconds.
- Rows.DateText: a date cell that is a number would make the source throw on `slice`. The model reads it as an empty date.
- Cells.ParseFloat: the `Infinity` and `NaN` literals are not modelled. A number cell carries its `String(number)` text as data.
- Text.Upper, Text.Lower: case mapping covers ASCII letters only. The non-ASCII markers of the source (臺幣, 台灣, 海外) have no case.
- Options.Lt: the order is by character value, not by UTF-16 code unit. The two differ only for characters outside the Basic Multilingual Plane.
- Stats.WithShare: the share is exact. The source rounds it to one decimal with `toFixed(1)` and returns it as a string.
- Monthly.AvgDeal: the average is exact. The source applies `Math.round`.
- Floating-point rounding and the order of additions are not modelled; sums are exact reals.
- JavaScript lists integer-like object keys first, in numeric order. The model lists keys in insertion order, which matches the source when no agent, industry, client or month key is an array index.
- Keys that name members of `Object.prototype` (`constructor`, `toString`, `__proto__`, `hasOwnProperty` and the like) are plain map keys in the model. In the source they read the inherited member:
  - a client so named gets the count `(counts[k] || 0) + 1`, which is a string, so `count >= 2` fails and its rows are always 新客戶;
  - an agent or industry so named never gets a group (`!bdMap[k]` and `!industryMap[k]` see the inherited value), so `Object.values` omits it and the ranking totals fall short;
  - an agent so named with a project name makes `brands.add` throw.
  The model assumes no agent, industry, client or month name is such a key.
- Monthly.Fresh: the source initialises the bucket field `taiwain` but adds to `taiwan`. So the Taiwan value is undefined until the first Taiwan row, and the chart reads it as 0. The model starts it at 0 in `Monthly.Fresh`, and `Monthly.Bump` adds to it.
- The `typeof finalAmount === 'number'` checks are not modelled. Every amount is a number here, because `cleanNumber` always returns one.
- `formatCurrency`, the donut chart's percentages and `summary.projects` are display only, and are not modelled.
