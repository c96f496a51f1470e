/**
  Keyword pagination and per-keyword monthly page aggregation of
  modules/gsc_client.py.

  The Search Console API is a parameter. For pagination it is a function
  of (call number, startRow): the call number stands for the passing of
  time, so a request answered with HTTP 429 can succeed when it is issued
  again. For the monthly data it is a function of (keyword, first day,
  last day). The throttling sleeps, logging and progress callbacks are
  not modelled.
 */
module GscClient {
  import opened Wrappers
  import opened Seqs
  import Utils

  /** MAX_ROWS_PER_REQUEST: the row limit of one request. */
  const MaxRowsPerRequest: nat := 25000

  /** What one `searchanalytics().query(...).execute()` call yields. */
  datatype Response<R> =
    | NoRows                   // a response without a 'rows' member
    | Rows(rows: seq<R>)       // a response carrying 'rows'
    | HttpError(status: int)   // an HttpError with that HTTP status
    | OtherException           // any other exception

  /** Any exception fetch_keywords_with_pagination lets escape. */
  datatype FetchError =
    | ApiError(status: int)    // an HttpError other than 429, re-raised
    | RequestFailed            // any other exception, re-raised
    | CallBudgetExhausted      // the model's bound on the number of calls was reached

  // ---------------------------------------------------------------------
  // fetch_keywords_with_pagination
  // ---------------------------------------------------------------------

  /** One row of a query-dimension response: keys[0], impressions, clicks. */
  datatype KeywordRow = KeywordRow(keyword: string, impressions: int, clicks: int)

  datatype Metrics = Metrics(impressions: int, clicks: int)

  /** One request issued: its startRow and whether it was answered with 429. */
  datatype Attempt = Attempt(startRow: nat, rateLimited: bool)

  datatype Outcome = Finished | Raised(error: FetchError)

  /** The requests a pagination run issues, the rows it collects and how it ends. */
  datatype Crawled = Crawled(attempts: seq<Attempt>, rows: seq<KeywordRow>, outcome: Outcome)

  type KeywordApi = (nat, nat) -> Response<KeywordRow>

  /**
    The pagination loop from call number `call` on, at offset `startRow`,
    with at most `budget` calls left: stop on a response without rows or
    with fewer than MaxRowsPerRequest rows, advance by MaxRowsPerRequest
    after a full page, re-issue the same offset after a 429, and re-raise
    any other error.
   */
  function Crawl(api: KeywordApi, call: nat, startRow: nat, budget: nat): Crawled
    decreases budget
  {
    if budget == 0 then Crawled([], [], Raised(CallBudgetExhausted))
    else match api(call, startRow)
      case NoRows => Crawled([Attempt(startRow, false)], [], Finished)
      case Rows(rs) =>
        if |rs| < MaxRowsPerRequest then Crawled([Attempt(startRow, false)], rs, Finished)
        else
          var rest := Crawl(api, call + 1, startRow + MaxRowsPerRequest, budget - 1);
          Crawled([Attempt(startRow, false)] + rest.attempts, rs + rest.rows, rest.outcome)
      case HttpError(status) =>
        if status == 429 then
          var rest := Crawl(api, call + 1, startRow, budget - 1);
          Crawled([Attempt(startRow, true)] + rest.attempts, rest.rows, rest.outcome)
        else Crawled([Attempt(startRow, false)], [], Raised(ApiError(status)))
      case OtherException => Crawled([Attempt(startRow, false)], [], Raised(RequestFailed))
  }

  /** The keyword of each row, in order. */
  function Keywords(rows: seq<KeywordRow>): seq<string> {
    Project(rows, (row: KeywordRow) => row.keyword)
  }

  /** What one row adds to keyword k's running totals. */
  function Contribution(row: KeywordRow, k: string): Metrics {
    if row.keyword == k then Metrics(row.impressions, row.clicks) else Metrics(0, 0)
  }

  function Add(a: Metrics, b: Metrics): Metrics {
    Metrics(a.impressions + b.impressions, a.clicks + b.clicks)
  }

  /** Impressions and clicks of keyword k summed over all rows. */
  function Totals(rows: seq<KeywordRow>, k: string): Metrics {
    if |rows| == 0 then Metrics(0, 0)
    else Add(Totals(rows[..|rows| - 1], k), Contribution(rows[|rows| - 1], k))
  }

  /** The minimum-impressions and minimum-clicks filter of lines 263-268. */
  predicate PassesThresholds(m: Metrics, minImpressions: int, minClicks: Option<int>) {
    && !(minImpressions > 0 && m.impressions < minImpressions)
    && !(minClicks.Some? && minClicks.value > 0 && m.clicks < minClicks.value)
  }

  /**
    The pattern filter: None stands for no pattern and for the empty
    pattern (which matches every keyword); Some(matches) is the compiled
    case-insensitive regular expression's search, an abstract predicate.
   */
  function ApplyPattern(keywords: seq<string>, pattern: Option<string -> bool>): seq<string> {
    match pattern
    case None => keywords
    case Some(matches) => Filter(keywords, matches)
  }

  /** Crawl after `done` already issued requests that collected `fetched`. */
  function Resume(done: seq<Attempt>, fetched: seq<KeywordRow>, rest: Crawled): Crawled {
    Crawled(done + rest.attempts, fetched + rest.rows, rest.outcome)
  }

  /** The running dictionary `keyword_metrics` (keys in insertion order) matches the rows read so far. */
  ghost predicate TallyOf(metrics: map<string, Metrics>, order: seq<string>, rows: seq<KeywordRow>) {
    && order == Distinct(Keywords(rows))
    && (forall k :: k in metrics <==> k in order)
    && (forall k :: k in metrics ==> metrics[k] == Totals(rows, k))
  }

  /** The dictionary `keyword_metrics` with its keys in insertion order. */
  datatype KeywordTally = KeywordTally(metrics: map<string, Metrics>, order: seq<string>)

  /** Lines 226-234 on one row: create the entry at zero if absent, then add. */
  function Record(t: KeywordTally, row: KeywordRow): KeywordTally {
    var m := if row.keyword in t.metrics then t.metrics[row.keyword] else Metrics(0, 0);
    KeywordTally(t.metrics[row.keyword := Add(m, Metrics(row.impressions, row.clicks))],
                 if row.keyword in t.metrics then t.order else t.order + [row.keyword])
  }

  /** The dictionary after reading rows in order, starting from an empty one. */
  function TallyRows(rows: seq<KeywordRow>): KeywordTally {
    if |rows| == 0 then KeywordTally(map[], [])
    else Record(TallyRows(rows[..|rows| - 1]), rows[|rows| - 1])
  }

  /** The running dictionary holds, per keyword, the sums over the rows read. */
  lemma {:induction false} TallyRowsMeaning(rows: seq<KeywordRow>)
    ensures TallyOf(TallyRows(rows).metrics, TallyRows(rows).order, rows)
  {
    if |rows| == 0 {
      assert Keywords(rows) == [];
    } else {
      var init, row := rows[..|rows| - 1], rows[|rows| - 1];
      TallyRowsMeaning(init);
      var t := TallyRows(init);
      assert init + [row] == rows;
      var t' := Record(t, row);
      assert TallyRows(rows) == t';
      TallyStep(t.metrics, t.order, init, row, t'.metrics, t'.order);
    }
  }

  lemma TallyStep(metrics: map<string, Metrics>, order: seq<string>, rows: seq<KeywordRow>, row: KeywordRow,
                  metrics': map<string, Metrics>, order': seq<string>)
    requires TallyOf(metrics, order, rows)
    requires var m := if row.keyword in metrics then metrics[row.keyword] else Metrics(0, 0);
      metrics' == metrics[row.keyword := Add(m, Metrics(row.impressions, row.clicks))]
    requires order' == if row.keyword in metrics then order else order + [row.keyword]
    ensures TallyOf(metrics', order', rows + [row])
  {
    var k0 := row.keyword;
    var rows' := rows + [row];
    var m := if k0 in metrics then metrics[k0] else Metrics(0, 0);
    AppendDropLast(rows, row);
    assert Keywords(rows') == Keywords(rows) + [k0];
    DistinctAppend(Keywords(rows), k0);
    assert order' == Distinct(Keywords(rows'));
    if k0 !in metrics {
      KeywordAbsentTotals(rows, k0);
    }
    assert m == Totals(rows, k0);
    TotalsStep(metrics, rows, row);
    assert forall k :: k in metrics' ==> metrics'[k] == Totals(rows', k);
    assert forall k :: k in metrics' <==> k in order';
    assert TallyOf(metrics', order', rows');
  }

  lemma TotalsStep(metrics: map<string, Metrics>, rows: seq<KeywordRow>, row: KeywordRow)
    requires forall k :: k in metrics ==> metrics[k] == Totals(rows, k)
    requires row.keyword !in metrics ==> Totals(rows, row.keyword) == Metrics(0, 0)
    ensures var m := if row.keyword in metrics then metrics[row.keyword] else Metrics(0, 0);
      var metrics' := metrics[row.keyword := Add(m, Metrics(row.impressions, row.clicks))];
      forall k :: k in metrics' ==> metrics'[k] == Totals(rows + [row], k)
  {
    forall k
      ensures Totals(rows + [row], k) == Add(Totals(rows, k), Contribution(row, k))
    {
      TotalsAppend(rows, row, k);
    }
  }

  lemma TotalsAppend(rows: seq<KeywordRow>, row: KeywordRow, k: string)
    ensures Totals(rows + [row], k) == Add(Totals(rows, k), Contribution(row, k))
  {
    AppendDropLast(rows, row);
  }

  /** A keyword that occurs in no row has zero totals. */
  lemma {:induction false} KeywordAbsentTotals(rows: seq<KeywordRow>, k: string)
    requires forall i :: 0 <= i < |rows| ==> rows[i].keyword != k
    ensures Totals(rows, k) == Metrics(0, 0)
  {
    if |rows| > 0 {
      var init := rows[..|rows| - 1];
      forall i | 0 <= i < |init| ensures init[i].keyword != k {
        assert init[i] == rows[i];
      }
      KeywordAbsentTotals(init, k);
    }
  }

  /** The threshold test on keyword k's totals over rows. */
  function Thresholds(rows: seq<KeywordRow>, minImpressions: int, minClicks: Option<int>): string -> bool {
    k => PassesThresholds(Totals(rows, k), minImpressions, minClicks)
  }

  /** The keywords the function returns once the rows are collected. */
  function SelectKeywords(rows: seq<KeywordRow>, minImpressions: int, minClicks: Option<int>,
                          pattern: Option<string -> bool>): seq<string>
  {
    ApplyPattern(Filter(Distinct(Keywords(rows)), Thresholds(rows, minImpressions, minClicks)), pattern)
  }

  /** What the whole call returns for a finished or failed crawl. */
  function CrawlResult(c: Crawled, minImpressions: int, minClicks: Option<int>,
                       pattern: Option<string -> bool>): Result<seq<string>, FetchError>
  {
    match c.outcome
    case Finished => Success(SelectKeywords(c.rows, minImpressions, minClicks, pattern))
    case Raised(e) => Failure(e)
  }

  /** Lines 226-234: adds one row to the running `keyword_metrics`. */
  method TallyRow(metrics: map<string, Metrics>, order: seq<string>, row: KeywordRow)
    returns (metrics': map<string, Metrics>, order': seq<string>)
    ensures KeywordTally(metrics', order') == Record(KeywordTally(metrics, order), row)
  {
    metrics', order' := metrics, order;
    if row.keyword !in metrics' {
      metrics' := metrics'[row.keyword := Metrics(0, 0)];
      order' := order' + [row.keyword];
    }
    var m := metrics'[row.keyword];
    metrics' := metrics'[row.keyword := Metrics(m.impressions + row.impressions, m.clicks + row.clicks)];
  }

  /** Lines 225-234: adds one page of rows to the running `keyword_metrics`. */
  method TallyPage(metrics: map<string, Metrics>, order: seq<string>, rs: seq<KeywordRow>, ghost fetched: seq<KeywordRow>)
    returns (metrics': map<string, Metrics>, order': seq<string>)
    requires KeywordTally(metrics, order) == TallyRows(fetched)
    ensures KeywordTally(metrics', order') == TallyRows(fetched + rs)
  {
    metrics', order' := metrics, order;
    ghost var seen := fetched;
    assert rs[..0] == [];
    for j := 0 to |rs|
      invariant seen == fetched + rs[..j]
      invariant KeywordTally(metrics', order') == TallyRows(seen)
    {
      metrics', order' := TallyRow(metrics', order', rs[j]);
      AppendDropLast(seen, rs[j]);
      TakeOneMore(rs, j);
      seen := seen + [rs[j]];
    }
    assert rs[..|rs|] == rs;
  }

  /** The test of lines 264-267 on the dictionary entry of k. */
  function KeepEntry(metrics: map<string, Metrics>, minImpressions: int, minClicks: Option<int>): string -> bool {
    k => k in metrics && PassesThresholds(metrics[k], minImpressions, minClicks)
  }

  /** Lines 263-268: the keywords of `keyword_metrics`, in order, that pass both thresholds. */
  method ApplyThresholds(order: seq<string>, metrics: map<string, Metrics>, minImpressions: int, minClicks: Option<int>)
    returns (kept: seq<string>)
    requires forall i :: 0 <= i < |order| ==> order[i] in metrics
    ensures kept == Filter(order, KeepEntry(metrics, minImpressions, minClicks))
  {
    kept := [];
    for i := 0 to |order|
      invariant kept == Filter(order[..i], KeepEntry(metrics, minImpressions, minClicks))
    {
      FilterAppend(order[..i], order[i], KeepEntry(metrics, minImpressions, minClicks));
      assert order[..i + 1] == order[..i] + [order[i]];
      var m := metrics[order[i]];
      if PassesThresholds(m, minImpressions, minClicks) {
        kept := kept + [order[i]];
      }
    }
    assert order[..|order|] == order;
  }

  /** One turn of the loop on a response with rows: finish on a short page, else move on. */
  lemma ResumeRows(api: KeywordApi, call: nat, startRow: nat, budget: nat,
                   done: seq<Attempt>, fetched: seq<KeywordRow>, rs: seq<KeywordRow>)
    requires budget > 0 && api(call, startRow) == Rows(rs)
    ensures var whole := Resume(done, fetched, Crawl(api, call, startRow, budget));
      if |rs| < MaxRowsPerRequest then whole == Crawled(done + [Attempt(startRow, false)], fetched + rs, Finished)
      else whole == Resume(done + [Attempt(startRow, false)], fetched + rs,
                           Crawl(api, call + 1, startRow + MaxRowsPerRequest, budget - 1))
  {
  }

  /** One turn of the loop on a 429: the same offset is requested again. */
  lemma ResumeRateLimited(api: KeywordApi, call: nat, startRow: nat, budget: nat,
                          done: seq<Attempt>, fetched: seq<KeywordRow>)
    requires budget > 0 && api(call, startRow) == HttpError(429)
    ensures Resume(done, fetched, Crawl(api, call, startRow, budget))
         == Resume(done + [Attempt(startRow, true)], fetched, Crawl(api, call + 1, startRow, budget - 1))
  {
  }

  /** One turn of the loop that ends it without rows: no rows, another HTTP error or an exception. */
  lemma ResumeStop(api: KeywordApi, call: nat, startRow: nat, budget: nat,
                   done: seq<Attempt>, fetched: seq<KeywordRow>)
    requires budget > 0
    requires api(call, startRow).NoRows? || api(call, startRow).OtherException?
          || (api(call, startRow).HttpError? && api(call, startRow).status != 429)
    ensures Resume(done, fetched, Crawl(api, call, startRow, budget))
         == Crawled(done + [Attempt(startRow, false)], fetched,
                    match api(call, startRow)
                    case HttpError(status) => Raised(ApiError(status))
                    case OtherException => Raised(RequestFailed)
                    case _ => Finished)
  {
    assert fetched + [] == fetched;
  }

  /**
    One pass of the loop body (lines 204-260): one request at `startRow`,
    then either the next offset to ask for (`next`) or the end of the loop.
   */
  method RequestPage(api: KeywordApi, calls: nat, startRow: nat, budget: nat, attempts: seq<Attempt>,
                     metrics: map<string, Metrics>, order: seq<string>,
                     ghost fetched: seq<KeywordRow>, ghost whole: Crawled)
    returns (attempts': seq<Attempt>, metrics': map<string, Metrics>, order': seq<string>,
             next: Option<nat>, outcome: Outcome, ghost fetched': seq<KeywordRow>)
    requires budget > 0
    requires whole == Resume(attempts, fetched, Crawl(api, calls, startRow, budget))
    requires KeywordTally(metrics, order) == TallyRows(fetched)
    ensures KeywordTally(metrics', order') == TallyRows(fetched')
    ensures next.Some? ==> whole == Resume(attempts', fetched', Crawl(api, calls + 1, next.value, budget - 1))
    ensures next.None? ==> whole == Crawled(attempts', fetched', outcome)
  {
    metrics', order', fetched' := metrics, order, fetched;
    next, outcome := None, Finished;
    var response := api(calls, startRow);
    match response {
      case NoRows =>
        ResumeStop(api, calls, startRow, budget, attempts, fetched);
        attempts' := attempts + [Attempt(startRow, false)];
      case Rows(rs) =>
        ResumeRows(api, calls, startRow, budget, attempts, fetched, rs);
        attempts' := attempts + [Attempt(startRow, false)];
        metrics', order' := TallyPage(metrics, order, rs, fetched);
        fetched' := fetched + rs;
        if |rs| >= MaxRowsPerRequest {
          next := Some(startRow + MaxRowsPerRequest);
        }
      case HttpError(status) =>
        if status == 429 {
          ResumeRateLimited(api, calls, startRow, budget, attempts, fetched);
          attempts' := attempts + [Attempt(startRow, true)];
          next := Some(startRow);
        } else {
          ResumeStop(api, calls, startRow, budget, attempts, fetched);
          attempts' := attempts + [Attempt(startRow, false)];
          outcome := Raised(ApiError(status));
        }
      case OtherException =>
        ResumeStop(api, calls, startRow, budget, attempts, fetched);
        attempts' := attempts + [Attempt(startRow, false)];
        outcome := Raised(RequestFailed);
    }
  }

  /**
    The pagination loop of lines 203-260: requests pages until a page is
    missing or short, retries the same offset after a 429, and stops with
    the error on any other failure; `maxCalls` bounds the number of requests.
   */
  method Paginate(api: KeywordApi, maxCalls: nat)
    returns (attempts: seq<Attempt>, outcome: Outcome, metrics: map<string, Metrics>, order: seq<string>)
    ensures attempts == Crawl(api, 0, 0, maxCalls).attempts
    ensures outcome == Crawl(api, 0, 0, maxCalls).outcome
    ensures KeywordTally(metrics, order) == TallyRows(Crawl(api, 0, 0, maxCalls).rows)
  {
    metrics, order := map[], [];
    var startRow: nat := 0;
    var calls: nat := 0;
    ghost var fetched := [];
    ghost var whole := Crawl(api, 0, 0, maxCalls);
    attempts := [];
    assert fetched + [] == fetched;
    while true
      invariant calls <= maxCalls
      invariant whole == Resume(attempts, fetched, Crawl(api, calls, startRow, maxCalls - calls))
      invariant KeywordTally(metrics, order) == TallyRows(fetched)
      decreases maxCalls - calls
    {
      if calls == maxCalls {
        outcome := Raised(CallBudgetExhausted);
        assert fetched + [] == fetched;
        return;
      }
      var next;
      attempts, metrics, order, next, outcome, fetched :=
        RequestPage(api, calls, startRow, maxCalls - calls, attempts, metrics, order, fetched, whole);
      calls := calls + 1;
      if next.None? {
        return;
      }
      startRow := next.value;
    }
  }

  /**
    fetch_keywords_with_pagination: the requests issued and either the
    selected keywords or the error that escapes.
   */
  method FetchKeywordsWithPagination(api: KeywordApi, maxCalls: nat, minImpressions: int,
                                     minClicks: Option<int>, pattern: Option<string -> bool>)
    returns (attempts: seq<Attempt>, result: Result<seq<string>, FetchError>)
    ensures var c := Crawl(api, 0, 0, maxCalls);
      attempts == c.attempts && result == CrawlResult(c, minImpressions, minClicks, pattern)
  {
    var outcome, metrics, order;
    attempts, outcome, metrics, order := Paginate(api, maxCalls);
    ghost var fetched := Crawl(api, 0, 0, maxCalls).rows;
    TallyRowsMeaning(fetched);
    if outcome.Raised? {
      result := Failure(outcome.error);
      return;
    }
    var kept := ApplyThresholds(order, metrics, minImpressions, minClicks);
    FilterCongruent(order, KeepEntry(metrics, minImpressions, minClicks), Thresholds(fetched, minImpressions, minClicks));
    result := Success(ApplyPattern(kept, pattern));
  }

  // ---------------------------------------------------------------------
  // fetch_keyword_page_data
  // ---------------------------------------------------------------------

  /** One row of a (query, page, date) response: keys[0..2] and the four metrics. */
  datatype DailyRow = DailyRow(query: string, page: string, date: Utils.Date,
                               clicks: int, impressions: int, position: real, ctr: real)

  /** The `year_month` of a month, YYYY-MM in the source. */
  datatype YearMonth = YearMonth(year: int, month: int)

  /** One record of `all_data`: a page's totals for one month. */
  datatype PageMonthRow = PageMonthRow(query: string, page: string, yearMonth: YearMonth,
                                       clicks: int, impressions: int, position: real, ctr: real)

  /** A `page_data` entry: clicks, impressions, position_sum and ctr_sum. */
  datatype PageSums = PageSums(clicks: int, impressions: int, positionSum: real, ctrSum: real)

  /**
    The API for page data: the response to the request with call number
    `call` for (keyword, month_start, month_end). As for pagination, the
    call number stands for the passing of time.
   */
  type PageApi = (nat, string, Utils.Date, Utils.Date) -> Response<DailyRow>

  /** One request of the monthly loop: its call number and the month's first and last day. */
  datatype MonthRequest = MonthRequest(call: nat, first: Utils.Date, last: Utils.Date)

  /** The requests of one run over `ranges`: call i asks for range i, and nothing else is asked. */
  function MonthRequests(ranges: seq<(Utils.Date, Utils.Date)>): seq<MonthRequest> {
    seq(|ranges|, i requires 0 <= i < |ranges| => MonthRequest(i, ranges[i].0, ranges[i].1))
  }

  /** The page of each row, in order. */
  function Pages(rows: seq<DailyRow>): seq<string> {
    Project(rows, (row: DailyRow) => row.page)
  }

  function AddSums(a: PageSums, b: PageSums): PageSums {
    PageSums(a.clicks + b.clicks, a.impressions + b.impressions, a.positionSum + b.positionSum, a.ctrSum + b.ctrSum)
  }

  /** What one daily row adds to its page's entry (lines 351-354). */
  function DailySums(row: DailyRow): PageSums {
    PageSums(row.clicks, row.impressions, row.position * row.impressions as real, row.ctr * row.impressions as real)
  }

  function PageContribution(row: DailyRow, p: string): PageSums {
    if row.page == p then DailySums(row) else PageSums(0, 0, 0.0, 0.0)
  }

  /** Page p's clicks, impressions, Σ position·impressions and Σ ctr·impressions over all rows. */
  function PageTotals(rows: seq<DailyRow>, p: string): PageSums {
    if |rows| == 0 then PageSums(0, 0, 0.0, 0.0)
    else AddSums(PageTotals(rows[..|rows| - 1], p), PageContribution(rows[|rows| - 1], p))
  }

  /** Lines 361-366: a sum divided by the impressions, or 0 without impressions. */
  function WeightedMean(sum: real, impressions: int): real {
    if impressions > 0 then sum / impressions as real else 0.0
  }

  /** The record lines 368-376 append for one page's entry. */
  function MonthRow(keyword: string, ym: YearMonth, page: string, s: PageSums): PageMonthRow {
    PageMonthRow(keyword, page, ym, s.clicks, s.impressions,
                 WeightedMean(s.positionSum, s.impressions), WeightedMean(s.ctrSum, s.impressions))
  }

  /** The records of one month with rows: one per page, pages in order of first appearance. */
  function MonthRows(keyword: string, ym: YearMonth, rows: seq<DailyRow>): seq<PageMonthRow> {
    var pages := Distinct(Pages(rows));
    seq(|pages|, i requires 0 <= i < |pages| => MonthRow(keyword, ym, pages[i], PageTotals(rows, pages[i])))
  }

  /** The year_month of a range's first day. */
  function MonthOf(d: Utils.Date): YearMonth {
    YearMonth(d.year, d.month)
  }

  /** What one month's request contributes: its records, or nothing when it has no rows or fails. */
  function MonthData(keyword: string, api: PageApi, request: MonthRequest): seq<PageMonthRow> {
    match api(request.call, keyword, request.first, request.last)
    case Rows(rs) => MonthRows(keyword, MonthOf(request.first), rs)
    case _ => []
  }

  /** `all_data` after the requests in `requests`, in order. */
  function PageData(keyword: string, api: PageApi, requests: seq<MonthRequest>): seq<PageMonthRow> {
    FlatMap(requests, MonthDataOf(keyword, api))
  }

  function MonthDataOf(keyword: string, api: PageApi): MonthRequest -> seq<PageMonthRow> {
    request => MonthData(keyword, api, request)
  }

  /** The dictionary `page_data` with its keys in insertion order. */
  datatype PageTally = PageTally(sums: map<string, PageSums>, order: seq<string>)

  /** Lines 342-354 on one row: create the entry at zero if absent, then add. */
  function RecordDaily(t: PageTally, row: DailyRow): PageTally {
    var s := if row.page in t.sums then t.sums[row.page] else PageSums(0, 0, 0.0, 0.0);
    PageTally(t.sums[row.page := AddSums(s, DailySums(row))],
              if row.page in t.sums then t.order else t.order + [row.page])
  }

  /** `page_data` after reading rows in order, starting from an empty dictionary. */
  function TallyDaily(rows: seq<DailyRow>): PageTally {
    if |rows| == 0 then PageTally(map[], [])
    else RecordDaily(TallyDaily(rows[..|rows| - 1]), rows[|rows| - 1])
  }

  /** `page_data` holds, per page in first-appearance order, the sums over the rows read. */
  ghost predicate PageTallyOf(sums: map<string, PageSums>, order: seq<string>, rows: seq<DailyRow>) {
    && order == Distinct(Pages(rows))
    && (forall p :: p in sums <==> p in order)
    && (forall p :: p in sums ==> sums[p] == PageTotals(rows, p))
  }

  lemma {:induction false} TallyDailyMeaning(rows: seq<DailyRow>)
    ensures PageTallyOf(TallyDaily(rows).sums, TallyDaily(rows).order, rows)
  {
    if |rows| == 0 {
      assert Pages(rows) == [];
    } else {
      var init, row := rows[..|rows| - 1], rows[|rows| - 1];
      TallyDailyMeaning(init);
      var t := TallyDaily(init);
      assert init + [row] == rows;
      var t' := RecordDaily(t, row);
      assert TallyDaily(rows) == t';
      PageTallyStep(t.sums, t.order, init, row, t'.sums, t'.order);
    }
  }

  lemma PageTallyStep(sums: map<string, PageSums>, order: seq<string>, rows: seq<DailyRow>, row: DailyRow,
                      sums': map<string, PageSums>, order': seq<string>)
    requires PageTallyOf(sums, order, rows)
    requires var s := if row.page in sums then sums[row.page] else PageSums(0, 0, 0.0, 0.0);
      sums' == sums[row.page := AddSums(s, DailySums(row))]
    requires order' == if row.page in sums then order else order + [row.page]
    ensures PageTallyOf(sums', order', rows + [row])
  {
    var p0 := row.page;
    var rows' := rows + [row];
    var s := if p0 in sums then sums[p0] else PageSums(0, 0, 0.0, 0.0);
    AppendDropLast(rows, row);
    assert Pages(rows') == Pages(rows) + [p0];
    DistinctAppend(Pages(rows), p0);
    assert order' == Distinct(Pages(rows'));
    if p0 !in sums {
      PageAbsentTotals(rows, p0);
    }
    assert s == PageTotals(rows, p0);
    PageTotalsStep(sums, rows, row);
    assert forall p :: p in sums' ==> sums'[p] == PageTotals(rows', p);
    assert forall p :: p in sums' <==> p in order';
    assert PageTallyOf(sums', order', rows');
  }

  lemma PageTotalsStep(sums: map<string, PageSums>, rows: seq<DailyRow>, row: DailyRow)
    requires forall p :: p in sums ==> sums[p] == PageTotals(rows, p)
    requires row.page !in sums ==> PageTotals(rows, row.page) == PageSums(0, 0, 0.0, 0.0)
    ensures var s := if row.page in sums then sums[row.page] else PageSums(0, 0, 0.0, 0.0);
      var sums' := sums[row.page := AddSums(s, DailySums(row))];
      forall p :: p in sums' ==> sums'[p] == PageTotals(rows + [row], p)
  {
    forall p
      ensures PageTotals(rows + [row], p) == AddSums(PageTotals(rows, p), PageContribution(row, p))
    {
      AppendDropLast(rows, row);
    }
  }

  /** A page that occurs in no row has zero sums. */
  lemma {:induction false} PageAbsentTotals(rows: seq<DailyRow>, p: string)
    requires forall i :: 0 <= i < |rows| ==> rows[i].page != p
    ensures PageTotals(rows, p) == PageSums(0, 0, 0.0, 0.0)
  {
    if |rows| > 0 {
      var init := rows[..|rows| - 1];
      forall i | 0 <= i < |init| ensures init[i].page != p {
        assert init[i] == rows[i];
      }
      PageAbsentTotals(init, p);
    }
  }

  /** Lines 342-354: adds one daily row to the running `page_data`. */
  method AddDailyRow(sums: map<string, PageSums>, order: seq<string>, row: DailyRow)
    returns (sums': map<string, PageSums>, order': seq<string>)
    ensures PageTally(sums', order') == RecordDaily(PageTally(sums, order), row)
  {
    sums', order' := sums, order;
    ghost var s0 := if row.page in sums then sums[row.page] else PageSums(0, 0, 0.0, 0.0);
    if row.page !in sums' {
      sums' := sums'[row.page := PageSums(0, 0, 0.0, 0.0)];
      order' := order' + [row.page];
    }
    var s := sums'[row.page];
    sums' := sums'[row.page := PageSums(s.clicks + row.clicks, s.impressions + row.impressions,
                                        s.positionSum + row.position * row.impressions as real,
                                        s.ctrSum + row.ctr * row.impressions as real)];
    assert sums'[row.page] == AddSums(s0, DailySums(row));
  }

  /** Lines 335-354: groups one month's daily rows by page. */
  method GroupByPage(rs: seq<DailyRow>) returns (sums: map<string, PageSums>, order: seq<string>)
    ensures PageTally(sums, order) == TallyDaily(rs)
  {
    sums, order := map[], [];
    assert rs[..0] == [];
    for j := 0 to |rs|
      invariant PageTally(sums, order) == TallyDaily(rs[..j])
    {
      sums, order := AddDailyRow(sums, order, rs[j]);
      TakeOneMore(rs, j);
      AppendDropLast(rs[..j], rs[j]);
    }
    assert rs[..|rs|] == rs;
  }

  /** Lines 359-376: one record per `page_data` entry, in the dictionary's order. */
  method EmitMonth(keyword: string, ym: YearMonth, sums: map<string, PageSums>, order: seq<string>)
    returns (records: seq<PageMonthRow>)
    requires forall i :: 0 <= i < |order| ==> order[i] in sums
    ensures |records| == |order|
    ensures forall i :: 0 <= i < |order| ==> records[i] == MonthRow(keyword, ym, order[i], sums[order[i]])
  {
    records := [];
    for i := 0 to |order|
      invariant |records| == i
      invariant forall j :: 0 <= j < i ==> records[j] == MonthRow(keyword, ym, order[j], sums[order[j]])
    {
      var data := sums[order[i]];
      var avgPosition, avgCtr;
      if data.impressions > 0 {
        avgPosition := data.positionSum / data.impressions as real;
        avgCtr := data.ctrSum / data.impressions as real;
      } else {
        avgPosition := 0.0;
        avgCtr := 0.0;
      }
      records := records + [PageMonthRow(keyword, order[i], ym, data.clicks, data.impressions, avgPosition, avgCtr)];
    }
  }

  /** One month's records, from the grouped dictionary. */
  lemma MonthRecords(keyword: string, ym: YearMonth, rs: seq<DailyRow>, records: seq<PageMonthRow>)
    requires var t := TallyDaily(rs);
      && (forall i :: 0 <= i < |t.order| ==> t.order[i] in t.sums)
      && |records| == |t.order|
      && (forall i :: 0 <= i < |t.order| ==> records[i] == MonthRow(keyword, ym, t.order[i], t.sums[t.order[i]]))
    ensures records == MonthRows(keyword, ym, rs)
  {
    TallyDailyMeaning(rs);
  }

  /**
    fetch_keyword_page_data: one request per month from start's month to
    today's, none repeated; each month with rows adds one record per page,
    and a month whose request fails or has no rows adds nothing.
   */
  method FetchKeywordPageData(api: PageApi, keyword: string, start: Utils.Date, today: Utils.Date)
    returns (requests: seq<MonthRequest>, allData: seq<PageMonthRow>)
    requires Utils.ValidDate(start) && Utils.ValidDate(today)
    ensures requests == MonthRequests(Utils.MonthlyRanges(start, today))
    ensures allData == PageData(keyword, api, requests)
  {
    var monthlyRanges := Utils.GenerateMonthlyRanges(start, today);
    ghost var all := MonthRequests(monthlyRanges);
    requests, allData := [], [];
    for idx := 0 to |monthlyRanges|
      invariant requests == all[..idx]
      invariant allData == PageData(keyword, api, requests)
    {
      var (monthStart, monthEnd) := monthlyRanges[idx];
      var request := MonthRequest(idx, monthStart, monthEnd);
      var response := api(idx, keyword, monthStart, monthEnd);
      TakeOneMore(all, idx);
      FlatMapAppend(requests, request, MonthDataOf(keyword, api));
      requests := requests + [request];
      if response.Rows? {
        var sums, order := GroupByPage(response.rows);
        TallyDailyMeaning(response.rows);
        var records := EmitMonth(keyword, MonthOf(monthStart), sums, order);
        MonthRecords(keyword, MonthOf(monthStart), response.rows, records);
        allData := allData + records;
      }
    }
    assert all[..|monthlyRanges|] == all;
  }
}
