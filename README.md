# gsc-explorer core in Dafny

This project models the deterministic core of gsc-explorer, a Streamlit app over the Google Search Console (GSC) API. It models five parts:

- **Keyword import** (`fetch_keywords_with_pagination`). It walks the API's `startRow` offsets in pages of 25000 rows and re-asks the same offset after an HTTP 429. It sums impressions and clicks per keyword, then applies the minimum-impressions, minimum-clicks and pattern filters.
- **Per-keyword monthly page data** (`fetch_keyword_page_data`). It makes one request per calendar month, never repeated, and groups the daily rows by page. It emits one record per (page, month), with summed clicks and impressions and impression-weighted mean position and ctr. A month whose request fails is skipped.
- **Calendar month ranges** (`generate_monthly_ranges`). These are (first day, last day) pairs from the start month to the current month, with the last one clamped to today.
- **The keyword list screen and routing in app.py.** This covers the case-insensitive substring filter, the select-all update of the selection, and the four-way routing of `main`.
- **The keyword registry and the setup wizard entry in modules/setup.py.** `save_keywords` does `INSERT OR REPLACE` into a table keyed by (keyword, domain). The wizard step is normalised to 1..4, and a completed setup redirects.

Layout:

| file | module | what |
|---|---|---|
| wrappers.dfy | `Wrappers` | `Option`, `Result` |
| seqs.dfy | `Seqs` | `Filter`, `Project`, `Distinct`, `FlatMap` and their lemmas (list comprehensions, first-appearance key order) |
| utils.dfy | `Utils` | proleptic Gregorian dates and `GenerateMonthlyRanges` |
| gsc_client.dfy | `GscClient` | both fetch routines, as methods proved against specification functions |
| gsc_client_lemmas.dfy | `GscClientLemmas` | offsets, request counts, order-independence of sums, filters, weighted means, record keys |
| session.dfy | `Session` | the Streamlit session state as a class |
| setup.dfy | `Setup` | `RunSetupFlow`, `KeywordTable.SaveKeywords` |
| app.dfy | `App` | `FilterKeywords`, `ApplySelectAll`, `Route` |

Each loop of the source is a method with invariants. Its `ensures` ties the result to a specification function:

- `Crawl`, `TallyRows` and `SelectKeywords` for keyword import.
- `PageData` and `MonthRows` for the page data.
- `MonthlyRanges` for the month ranges.
- `SaveAll` for the registry.

Lemmas then prove what the source promises about those functions.

Two behaviours of the code are worth stating outright:

- **Position and ctr.** The code (modules/gsc_client.py:353-366) weights each daily value by its impressions and divides by the summed impressions. `GscClientLemmas.WeightedMeanExample` shows that three days with positions 2, 3 and 1 and 100, 200 and 50 impressions give position 17/7, not the plain mean 2.0.
- **Retries.**
  - The keyword loop re-asks after every 429, after a fixed 60-second wait (not modelled), with no cap (modules/gsc_client.py:250-254).
  - The monthly page fetch never retries: it moves on to the next month after any error, a 429 included (modules/gsc_client.py:381-391).

## Model

| member | source | states |
|---|---|---|
| GscClient.Paginate | modules/gsc_client.py:197-260 | the loop issues exactly the requests of `Crawl` and ends as it does; the running `keyword_metrics` equals the tally of the rows `Crawl` collects |
| GscClient.RequestPage | modules/gsc_client.py:204-260 | one pass of the loop, proved against one step of `Crawl` (the helper lemmas `ResumeRows`, `ResumeRateLimited` and `ResumeStop` unfold that step): a full page moves to the next offset, a 429 re-asks the same offset, a missing or short page finishes, any other error is raised; the tally stays that of the rows read |
| GscClient.TallyRow | modules/gsc_client.py:226-234 | one row creates the keyword's entry at zero if absent, then adds its impressions and clicks |
| GscClient.TallyPage | modules/gsc_client.py:225-234 | after a page, the tally is that of all rows read so far, this page's rows appended |
| GscClient.TallyRowsMeaning | modules/gsc_client.py:225-234 | `keyword_metrics` has one entry per distinct keyword, in first-appearance order, holding the sum of that keyword's impressions and clicks over all rows |
| GscClient.TallyStep | modules/gsc_client.py:231-234 | adding one row keeps the dictionary equal to the per-keyword sums and the first-appearance key order |
| GscClient.KeywordAbsentTotals | modules/gsc_client.py:231-232 | a keyword not seen yet has zero sums, so creating its entry at zero is correct |
| GscClient.ApplyThresholds | modules/gsc_client.py:263-268 | the kept keywords are the dictionary's keys, in order, that pass both thresholds |
| GscClient.FetchKeywordsWithPagination | modules/gsc_client.py:168-276 | the requests issued are those of `Crawl`; the result is the selected keywords when the crawl finishes, otherwise the error that escapes |
| GscClient.AddDailyRow | modules/gsc_client.py:342-354 | one daily row creates its page's entry at zero if absent, then adds clicks, impressions, position·impressions and ctr·impressions |
| GscClient.GroupByPage | modules/gsc_client.py:333-354 | `page_data` after a month's rows is the tally of those rows |
| GscClient.TallyDailyMeaning | modules/gsc_client.py:333-354 | `page_data` has one entry per distinct page, in first-appearance order, holding that page's four sums |
| GscClient.PageTallyStep | modules/gsc_client.py:342-354 | adding one daily row keeps `page_data` equal to the per-page sums and key order |
| GscClient.PageAbsentTotals | modules/gsc_client.py:342-348 | a page not seen yet has zero sums |
| GscClient.EmitMonth | modules/gsc_client.py:359-376 | one record per `page_data` entry, in key order, with the requested keyword, the month, the sums and the weighted means (0 without impressions) |
| GscClient.MonthRecords | modules/gsc_client.py:356-376 | the records emitted for a month are `MonthRows` of its daily rows |
| GscClient.FetchKeywordPageData | modules/gsc_client.py:279-397 | the requests made are exactly `MonthRequests` of the monthly ranges: call i asks once for range i; `all_data` is the concatenation over those requests of each month's records, nothing for a month without rows or with a failed request |
| GscClientLemmas.CrawlOffsetsAdvance | modules/gsc_client.py:241-254 | the first request is at the starting offset; each later one is at the same offset after a 429 and 25000 further otherwise |
| GscClientLemmas.OffsetsCount | modules/gsc_client.py:199-248 | each request's offset is the start plus 25000 per earlier request not answered with 429 |
| GscClientLemmas.RequestOffsets | modules/gsc_client.py:199-254 | offsets are 0, 25000, 50000, … counted over accepted requests; a 429 is followed by the same offset; accepted requests never repeat an offset |
| GscClientLemmas.AcceptedOffsetsIncrease | modules/gsc_client.py:248 | an accepted request's offset is strictly below every later request's |
| GscClientLemmas.ServerCrawl | modules/gsc_client.py:203-260 | against an API holding N rows, a run raises no API error, and if it finishes it has all rows from the offset on, in order, after (N − offset) div 25000 + 1 accepted requests |
| GscClientLemmas.ServerCrawlFinishes | modules/gsc_client.py:221-248 | without 429s and with enough calls, a run over N rows from offset `off` finishes with every row from `off` on, after exactly (N − off) div 25000 + 1 requests |
| GscClientLemmas.TotalsConcat | modules/gsc_client.py:225-234 | a keyword's sums over rows split across two pages add up |
| GscClientLemmas.TotalsPermutation | modules/gsc_client.py:225-234 | a keyword's sums do not depend on the order of the rows |
| GscClientLemmas.ThresholdsPermutation | modules/gsc_client.py:263-268 | whether a keyword passes the thresholds does not depend on the row order |
| GscClientLemmas.SelectKeywordsMembership | modules/gsc_client.py:263-274 | a keyword is returned iff it occurs in the rows, passes (min_impressions ≤ 0 or impressions ≥ min_impressions) and (no min_clicks, or min_clicks ≤ 0, or clicks ≥ min_clicks), and matches the pattern if one is given |
| GscClientLemmas.SelectKeywordsDistinct | modules/gsc_client.py:263-274 | the returned keywords have no duplicates |
| GscClientLemmas.PageTotalsAppend | modules/gsc_client.py:350-354 | a page's sums over one more daily row add that row's contribution |
| GscClientLemmas.PageTotalsConcat | modules/gsc_client.py:335-354 | a page's sums over two runs of daily rows add up |
| GscClientLemmas.PageTotalsPermutation | modules/gsc_client.py:335-354 | a page's sums do not depend on the order of the daily rows |
| GscClientLemmas.PageSumsBounds | modules/gsc_client.py:353-354 | with daily positions and ctrs in bounds, Σ value·impressions lies within the bounds times Σ impressions |
| GscClientLemmas.MeanWithin | modules/gsc_client.py:361-363 | a weighted sum within bounds times the impressions gives a mean within the bounds |
| GscClientLemmas.MonthRowMeans | modules/gsc_client.py:359-366 | a record's position and ctr lie between the smallest and largest daily values of its page, and are 0 when it had no impressions |
| GscClientLemmas.SinglePageMonth | modules/gsc_client.py:359-376 | a month whose rows have one page gives one record carrying that page's sums |
| GscClientLemmas.ExamplePages | modules/gsc_client.py:342-348 | three daily rows of one page create one `page_data` entry |
| GscClientLemmas.ExampleTotals | modules/gsc_client.py:350-354 | those rows sum to 35 clicks, 350 impressions, Σ position·impressions 850 and Σ ctr·impressions 35 |
| GscClientLemmas.WeightedMeanExample | modules/gsc_client.py:353-376 | the example month yields one record with position 17/7, the impression-weighted mean, and ctr 0.1 |
| GscClientLemmas.MonthRowsRecords | modules/gsc_client.py:359-376 | a month's records carry the requested keyword and that month, one per distinct page of the rows, exactly those pages, each with the page's sums |
| GscClientLemmas.PageDataAppend | modules/gsc_client.py:307-376 | processing one more month appends exactly that month's records |
| GscClientLemmas.PageDataConcat | modules/gsc_client.py:307-376 | the records of two runs of months are the concatenation of each run's records |
| GscClientLemmas.RequestsOnePerMonth | modules/gsc_client.py:303-329 | a run makes one request per calendar month from start's month to today's: request i is call i for the i-th month after start's, starting on its first day and ending in that month; the last ends today |
| GscClientLemmas.SkipFailedRequest | modules/gsc_client.py:381-391 | a request that fails or has no rows leaves `all_data` as if it had not been made |
| GscClientLemmas.FailedMonthSkipped | modules/gsc_client.py:381-391 | in a run, a month whose request fails (429 included) or has no rows adds no record, and no other request of the run asks for that month, so it is not retried |
| GscClientLemmas.MonthDataKeys | modules/gsc_client.py:331-376 | one month yields records for the keyword and that month only, at most one per page |
| GscClientLemmas.PageDataKeys | modules/gsc_client.py:307-376 | over distinct months, every record has the requested keyword and one of those months, and no (page, month) pair repeats |
| GscClientLemmas.PageDataRecords | modules/gsc_client.py:303-394 | every record's month lies between the start month and today's, at most one record per (page, month), and no months means no records |
| Utils.DaysInMonth | modules/utils.py:124-129 | month lengths are 28 to 31; February has 29 days exactly in Gregorian leap years |
| Utils.MonthStart | modules/utils.py:120-140 | the i-th value of `current` is a valid first of a month, i months after the start month |
| Utils.MonthStartNotAfter | modules/utils.py:122 | a first of a month is not after now exactly when its month is not after today's month |
| Utils.PreviousDayOfNextMonth | modules/utils.py:124-129 | the day before the next month's first day is the last day of the current month |
| Utils.MonthRange | modules/utils.py:123-133 | one pass computes the i-th range, its end clamped to today, and the next month's first day |
| Utils.GenerateMonthlyRanges | modules/utils.py:104-142 | the result has (today's month index − start's month index + 1) ranges, or none when that is negative, and equals the closed form `MonthlyRanges` |
| Utils.MonthlyRangesEnds | modules/utils.py:120-138 | the first range starts on day 1 of the start month and the last one ends today |
| Utils.MonthlyRangesMonths | modules/utils.py:122-140 | every range starts on the first of a month; the months are consecutive and ascending; each range ends in its own month, no earlier than it starts, on the month's last day except the last range |
| Utils.MonthlyRangesContiguous | modules/utils.py:129-140 | each range starts the day after the previous one ends |
| App.Lower | app.py:67-68 | lower-casing keeps the length, leaves no upper-case ASCII letter, and changes a character only by turning an upper-case letter into its lower-case one |
| App.LowerSameUpToCase | app.py:67-68 | two texts lower-case alike exactly when they differ only in the case of ASCII letters |
| App.LowerIdempotent | app.py:67-68 | lower-casing twice is lower-casing once |
| App.FilterKeywords | app.py:63-66 | no term or an empty term returns the input list unchanged |
| App.ContainsAt | app.py:68 | the substring test holds iff the term occurs at some position |
| App.FilterKeywordsMembership | app.py:67-68 | with a non-empty term, a keyword is kept iff it is in the list and its lower-cased text contains the lower-cased term |
| App.FilterKeywordsCaseInsensitive | app.py:67-68 | terms that differ only in case give the same result |
| App.FilterKeywordsKeywordCase | app.py:67-68 | two listed keywords that differ only in case are kept or dropped together |
| App.FilterKeywordsIdempotent | app.py:63-68 | filtering the result again with the same term changes nothing |
| App.SelectionAfterMeaning | app.py:206-210 | select-all checked selects exactly the filtered keywords; unchecked clears a selection equal to the filtered set and keeps any other |
| App.ApplySelectAll | app.py:195-210 | run only when the filtered list is non-empty; the selection (created empty when absent) becomes `SelectionAfter`; nothing else in the session changes |
| App.RouteFor | app.py:379-405 | the setup flow runs iff setup is not complete and either the step is 4 or it is a first run; a complete setup always goes to the main app |
| App.RouteNeverRedirects | app.py:389-399 | when main hands over to the setup flow, setup is not complete, so the flow shows a step rather than redirecting |
| App.RouteStable | app.py:379-405 | running main again on the state it leaves takes the same route and leaves the same step |
| App.Route | app.py:379-405 | main removes `setup_step` on the way to the main app, and otherwise runs the setup flow on the session |
| Setup.NormalisedStep | modules/setup.py:127-131 | the step is kept when it is one of 1..4, and is 1 when missing or invalid |
| Setup.FlowActionFor | modules/setup.py:134-138 | the flow redirects iff setup is complete and the step is not 4, and otherwise shows that step |
| Setup.RunSetupFlow | modules/setup.py:127-138 | stores the normalised step, changes nothing else, and redirects or shows that step |
| Setup.KeywordTable.constructor | modules/setup.py:52-60 | a new table has no rows |
| Setup.KeywordTable.SaveKeywords | modules/setup.py:66-82 | the table after the loop is `SaveAll` of the old table: one `INSERT OR REPLACE` per keyword, in list order |
| Setup.SaveAllKeys | modules/setup.py:58-79 | the keys after saving are the old keys plus (keyword, domain) for each keyword; no key is duplicated |
| Setup.SaveAllSaved | modules/setup.py:73-79 | each saved keyword's row carries the one criteria text of the call and the timestamp of its last insert |
| Setup.SaveAllUntouched | modules/setup.py:58-79 | rows of another domain, or of keywords not in the list, are unchanged |
| Setup.SaveTwiceSameKeys | modules/setup.py:58-79 | saving the same list twice gives the same key set as saving it once |

## Left out

- GscClient.Paginate: the source's loop has no retry cap, so a run with unending 429s never ends. The model takes a `maxCalls` bound and ends with `CallBudgetExhausted` when it is used up. All results hold for every bound.
- GscClient.FetchKeywordsWithPagination: has the same `maxCalls` bound and `CallBudgetExhausted` outcome as `Paginate`. `GscClientLemmas.ServerCrawlFinishes` gives a bound that is always enough against a server that never answers 429.
- The API is a function, not a network service.
  - In pagination it is a function of (call number, offset), so a 429 can be followed by success. In the page data it is a function of (call number, keyword, first day, last day).
  - A truncated month (over 25000 daily rows) is whatever that function returns, because the source does not paginate within a month.
- Throttling sleeps, logging and progress callbacks are not modelled: they do not change any result.
- The keyword pattern is an abstract predicate standing for the compiled case-insensitive regular expression's `search`. `None` also stands for the empty pattern, which the source skips.
- Response rows always carry impressions and clicks. The `row.get(..., 0)` defaults for missing keys are not modelled.
- Position and ctr are `real`. IEEE floating-point rounding is not modelled.
- `year_month` is a `YearMonth(year, month)` value, not its `YYYY-MM` text. Range dates are `Date` values, not `YYYY-MM-DD` text, and the parsing of the start date string is not modelled.
- `datetime.now()` is the parameter `today`. Every instant the generator compares with it is a midnight, so comparing with today's date gives the same answers.
- Dates above `datetime.MAXYEAR` (where the source raises) are not modelled.
- The pandas DataFrame built from `all_data` (including the empty frame with seven columns) and `pivot_to_monthly_columns` are not modelled. `all_data` is the sequence of records.
- `LowerChar` lower-cases ASCII letters only. Python's Unicode case mapping is not modelled.
- `criteria_json` is a string parameter, not `str(dict)`. The `datetime.now()` of each insert is `clock(i)` for the i-th keyword.
- SQLite connections, `init_database`, `load_keywords_from_db` and `is_first_run` are I/O. The table is a map, and the first-run answer is the parameter `firstRun`.
- `setup_step` is `Unset`, an integer, or some other value. Booleans and floats that Python compares equal to integers are not modelled separately.
- The Streamlit widgets and pages, and OAuth with `list_sites`, are not modelled. The select-all checkbox value is a parameter, and `main_app()` and the wizard pages are the `Screen` that `App.Route` returns.
