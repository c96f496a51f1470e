/**
  Properties of the pagination loop, the per-keyword sums, the keyword
  selection and the monthly page aggregation of modules/gsc_client.py.
 */
module GscClientLemmas {
  import opened Wrappers
  import opened Seqs
  import opened GscClient
  import Utils

  // ---------------------------------------------------------------------
  // Request offsets
  // ---------------------------------------------------------------------

  /** The number of requests that were not answered with 429. */
  function Accepted(a: seq<Attempt>): nat {
    if |a| == 0 then 0
    else Accepted(a[..|a| - 1]) + (if a[|a| - 1].rateLimited then 0 else 1)
  }

  /**
    The first request asks for `startRow`; a request answered with 429 is
    followed by one at the same offset, any other by one a full page further.
   */
  predicate OffsetsAdvance(a: seq<Attempt>, startRow: nat) {
    && (|a| > 0 ==> a[0].startRow == startRow)
    && (forall i :: 0 <= i < |a| - 1 ==>
          a[i + 1].startRow == a[i].startRow + (if a[i].rateLimited then 0 else MaxRowsPerRequest))
  }

  lemma {:induction false} CrawlOffsetsAdvance(api: KeywordApi, call: nat, startRow: nat, budget: nat)
    ensures OffsetsAdvance(Crawl(api, call, startRow, budget).attempts, startRow)
    decreases budget
  {
    if budget > 0 {
      match api(call, startRow) {
        case Rows(rs) =>
          if |rs| >= MaxRowsPerRequest {
            var next := startRow + MaxRowsPerRequest;
            CrawlOffsetsAdvance(api, call + 1, next, budget - 1);
            ConsAdvance(Attempt(startRow, false), Crawl(api, call + 1, next, budget - 1).attempts, next);
          }
        case HttpError(status) =>
          if status == 429 {
            CrawlOffsetsAdvance(api, call + 1, startRow, budget - 1);
            ConsAdvance(Attempt(startRow, true), Crawl(api, call + 1, startRow, budget - 1).attempts, startRow);
          }
        case _ =>
      }
    }
  }

  lemma ConsAdvance(first: Attempt, rest: seq<Attempt>, next: nat)
    requires OffsetsAdvance(rest, next)
    requires next == first.startRow + (if first.rateLimited then 0 else MaxRowsPerRequest)
    ensures OffsetsAdvance([first] + rest, first.startRow)
  {
    var a := [first] + rest;
    forall i | 0 <= i < |a| - 1
      ensures a[i + 1].startRow == a[i].startRow + (if a[i].rateLimited then 0 else MaxRowsPerRequest)
    {
      if i > 0 {
        assert a[i] == rest[i - 1] && a[i + 1] == rest[i];
      }
    }
  }

  /** The offset of every request is startRow plus a full page per earlier request not answered with 429. */
  lemma {:induction false} OffsetsCount(a: seq<Attempt>, startRow: nat)
    requires OffsetsAdvance(a, startRow)
    ensures forall i :: 0 <= i < |a| ==> a[i].startRow == startRow + MaxRowsPerRequest * Accepted(a[..i])
  {
    if |a| > 0 {
      var init := a[..|a| - 1];
      assert OffsetsAdvance(init, startRow) by {
        forall i | 0 <= i < |init| - 1
          ensures init[i + 1].startRow == init[i].startRow + (if init[i].rateLimited then 0 else MaxRowsPerRequest)
        {
          assert init[i] == a[i] && init[i + 1] == a[i + 1];
        }
      }
      OffsetsCount(init, startRow);
      forall i | 0 <= i < |a|
        ensures a[i].startRow == startRow + MaxRowsPerRequest * Accepted(a[..i])
      {
        if i == 0 {
          assert a[..0] == [];
        } else if i < |a| - 1 {
          assert a[..i] == init[..i];
        } else {
          assert a[..i] == init;
          assert a[..i - 1] == init[..i - 1];
          assert init[..i - 1] == init[..|init| - 1];
          assert a[i - 1] == init[i - 1];
        }
      }
    }
  }

  /** Adding requests never lowers the count of accepted ones. */
  lemma {:induction false} AcceptedMonotone(a: seq<Attempt>, i: nat, j: nat)
    requires i <= j <= |a|
    ensures Accepted(a[..i]) <= Accepted(a[..j])
    decreases j - i
  {
    if i < j {
      AcceptedMonotone(a, i, j - 1);
      assert a[..j][..j - 1] == a[..j - 1];
    }
  }

  /**
    The offsets a run requests: the k-th request not answered with 429 asks
    for offset 25000·k, a 429 is retried at the same offset, and no two
    accepted requests ask for the same offset.
   */
  lemma RequestOffsets(api: KeywordApi, maxCalls: nat)
    ensures var a := Crawl(api, 0, 0, maxCalls).attempts;
      && (forall i :: 0 <= i < |a| ==> a[i].startRow == MaxRowsPerRequest * Accepted(a[..i]))
      && (forall i :: 0 <= i < |a| - 1 && a[i].rateLimited ==> a[i + 1].startRow == a[i].startRow)
      && (forall i, j :: 0 <= i < j < |a| && !a[i].rateLimited ==> a[i].startRow < a[j].startRow)
  {
    var a := Crawl(api, 0, 0, maxCalls).attempts;
    CrawlOffsetsAdvance(api, 0, 0, maxCalls);
    OffsetsCount(a, 0);
    AcceptedOffsetsIncrease(a);
  }

  /** With offsets counted by accepted requests, an accepted request's offset is below every later one. */
  lemma AcceptedOffsetsIncrease(a: seq<Attempt>)
    requires forall i :: 0 <= i < |a| ==> a[i].startRow == MaxRowsPerRequest * Accepted(a[..i])
    ensures forall i, j :: 0 <= i < j < |a| && !a[i].rateLimited ==> a[i].startRow < a[j].startRow
  {
    forall i, j | 0 <= i < j < |a| && !a[i].rateLimited
      ensures a[i].startRow < a[j].startRow
    {
      AcceptedMonotone(a, i + 1, j);
      assert a[..i + 1] == a[..i] + [a[i]];
      assert a[..i + 1][..i] == a[..i];
    }
  }

  // ---------------------------------------------------------------------
  // An API that serves a fixed list of rows
  // ---------------------------------------------------------------------

  function Min(a: int, b: int): int {
    if a <= b then a else b
  }

  /**
    An API serving `data` page by page: a call for which `throttled` holds
    is answered with 429; otherwise a request at an offset inside the data
    gets up to MaxRowsPerRequest rows from there, and one at or past the
    end gets a response without rows.
   */
  function Server(data: seq<KeywordRow>, throttled: nat -> bool): KeywordApi {
    (call: nat, off: nat) =>
      if throttled(call) then HttpError(429)
      else if off < |data| then Rows(data[off..Min(off + MaxRowsPerRequest, |data|)])
      else NoRows
  }

  function NeverThrottled(): nat -> bool {
    call => false
  }

  /**
    Against a server holding N rows from offset `off`, a run never raises
    an API error; when it finishes it has collected exactly those rows,
    with (N - off) div 25000 + 1 accepted requests.
   */
  lemma {:induction false} ServerCrawl(data: seq<KeywordRow>, throttled: nat -> bool, call: nat, off: nat, budget: nat)
    requires off <= |data|
    ensures var c := Crawl(Server(data, throttled), call, off, budget);
      && (c.outcome == Finished || c.outcome == Raised(CallBudgetExhausted))
      && (c.outcome == Finished ==>
            c.rows == data[off..] && Accepted(c.attempts) == (|data| - off) / MaxRowsPerRequest + 1)
    decreases budget
  {
    var api := Server(data, throttled);
    var c := Crawl(api, call, off, budget);
    if budget > 0 {
      if throttled(call) {
        assert api(call, off) == HttpError(429);
        var rest := Crawl(api, call + 1, off, budget - 1);
        assert c == Crawled([Attempt(off, true)] + rest.attempts, rest.rows, rest.outcome);
        ServerCrawl(data, throttled, call + 1, off, budget - 1);
        AcceptedCons(Attempt(off, true), rest.attempts);
      } else if off < |data| {
        var rs := data[off..Min(off + MaxRowsPerRequest, |data|)];
        assert api(call, off) == Rows(rs);
        if |rs| >= MaxRowsPerRequest {
          var rest := Crawl(api, call + 1, off + MaxRowsPerRequest, budget - 1);
          assert c == Crawled([Attempt(off, false)] + rest.attempts, rs + rest.rows, rest.outcome);
          ServerCrawl(data, throttled, call + 1, off + MaxRowsPerRequest, budget - 1);
          AcceptedCons(Attempt(off, false), rest.attempts);
          if rest.outcome == Finished {
            assert rs + data[off + MaxRowsPerRequest..] == data[off..];
            DivStep(|data| - off);
          }
        } else {
          assert c == Crawled([Attempt(off, false)], rs, Finished);
          assert rs == data[off..];
          assert Accepted(c.attempts) == Accepted([Attempt(off, false)]);
        }
      } else {
        assert api(call, off) == NoRows;
        assert Accepted(c.attempts) == Accepted([Attempt(off, false)]);
      }
    }
  }

  lemma DivStep(n: int)
    requires n >= MaxRowsPerRequest
    ensures (n - MaxRowsPerRequest) / MaxRowsPerRequest + 1 == n / MaxRowsPerRequest
  {
  }

  lemma {:induction false} AcceptedCons(first: Attempt, rest: seq<Attempt>)
    ensures Accepted([first] + rest) == (if first.rateLimited then 0 else 1) + Accepted(rest)
    decreases |rest|
  {
    if |rest| > 0 {
      var a := [first] + rest;
      assert a[..|a| - 1] == [first] + rest[..|rest| - 1];
      AcceptedCons(first, rest[..|rest| - 1]);
    } else {
      assert [first][..0] == [];
    }
  }

  /**
    Without throttling and with enough calls, a run over N rows from
    offset `off` finishes after exactly (N - off) div 25000 + 1 requests
    and returns every row from `off` on.
   */
  lemma {:induction false} ServerCrawlFinishes(data: seq<KeywordRow>, call: nat, off: nat, budget: nat)
    requires off <= |data| && budget > (|data| - off) / MaxRowsPerRequest
    ensures var c := Crawl(Server(data, NeverThrottled()), call, off, budget);
      && c.outcome == Finished && c.rows == data[off..]
      && |c.attempts| == (|data| - off) / MaxRowsPerRequest + 1
    decreases budget
  {
    var api := Server(data, NeverThrottled());
    if off < |data| {
      var rs := data[off..Min(off + MaxRowsPerRequest, |data|)];
      if |rs| >= MaxRowsPerRequest {
        DivStep(|data| - off);
        ServerCrawlFinishes(data, call + 1, off + MaxRowsPerRequest, budget - 1);
        assert rs + data[off + MaxRowsPerRequest..] == data[off..];
      } else {
        assert rs == data[off..];
      }
    }
  }

  // ---------------------------------------------------------------------
  // Per-keyword sums
  // ---------------------------------------------------------------------

  /** The sums over two runs of rows add up: page boundaries do not matter. */
  lemma {:induction false} TotalsConcat(a: seq<KeywordRow>, b: seq<KeywordRow>, k: string)
    ensures Totals(a + b, k) == Add(Totals(a, k), Totals(b, k))
    decreases |b|
  {
    if |b| == 0 {
      assert a + b == a;
    } else {
      var init, x := b[..|b| - 1], b[|b| - 1];
      assert a + b == (a + init) + [x];
      assert b == init + [x];
      TotalsConcat(a, init, k);
      TotalsAppend(a + init, x, k);
      TotalsAppend(init, x, k);
    }
  }

  /** The sums do not depend on the order in which rows arrive. */
  lemma {:induction false} TotalsPermutation(a: seq<KeywordRow>, b: seq<KeywordRow>, k: string)
    requires multiset(a) == multiset(b)
    ensures Totals(a, k) == Totals(b, k)
    decreases |a|
  {
    if |a| == 0 {
      assert |b| == |multiset(b)| == 0;
    } else {
      var init, x := a[..|a| - 1], a[|a| - 1];
      assert x in multiset(b);
      var j :| 0 <= j < |b| && b[j] == x;
      MultisetRemove(a, b, j);
      TotalsPermutation(init, b[..j] + b[j + 1..], k);
      TotalsRemove(b, j, k);
    }
  }

  /** The sums over b are those over b without its j-th row, plus that row's contribution. */
  lemma TotalsRemove(b: seq<KeywordRow>, j: nat, k: string)
    requires j < |b|
    ensures Totals(b, k) == Add(Totals(b[..j] + b[j + 1..], k), Contribution(b[j], k))
  {
    var pre, x, post := b[..j], b[j], b[j + 1..];
    assert b == (pre + [x]) + post;
    TotalsConcat(pre + [x], post, k);
    TotalsAppend(pre, x, k);
    TotalsConcat(pre, post, k);
  }

  /**
    The totals a run computes are the same however the server splits the
    same rows into pages and orders them: any two row lists with the same
    rows give the same selection of keywords up to the thresholds.
   */
  lemma ThresholdsPermutation(a: seq<KeywordRow>, b: seq<KeywordRow>, minImpressions: int,
                              minClicks: Option<int>, k: string)
    requires multiset(a) == multiset(b)
    ensures Thresholds(a, minImpressions, minClicks)(k) == Thresholds(b, minImpressions, minClicks)(k)
  {
    TotalsPermutation(a, b, k);
  }

  // ---------------------------------------------------------------------
  // Keyword selection
  // ---------------------------------------------------------------------

  /**
    A keyword is returned exactly when some row carries it, its summed
    impressions and clicks pass both thresholds, and the pattern (if any)
    matches it.
   */
  lemma SelectKeywordsMembership(rows: seq<KeywordRow>, minImpressions: int, minClicks: Option<int>,
                                 pattern: Option<string -> bool>, k: string)
    ensures k in SelectKeywords(rows, minImpressions, minClicks, pattern) <==>
      && k in Keywords(rows)
      && (minImpressions <= 0 || Totals(rows, k).impressions >= minImpressions)
      && (minClicks.None? || minClicks.value <= 0 || Totals(rows, k).clicks >= minClicks.value)
      && (pattern.None? || pattern.value(k))
  {
    var d := Distinct(Keywords(rows));
    var f := Filter(d, Thresholds(rows, minImpressions, minClicks));
    DistinctMembership(Keywords(rows), k);
    FilterMembership(d, Thresholds(rows, minImpressions, minClicks), k);
    if pattern.Some? {
      FilterMembership(f, pattern.value, k);
    }
  }

  /** The returned keywords are distinct. */
  lemma SelectKeywordsDistinct(rows: seq<KeywordRow>, minImpressions: int, minClicks: Option<int>,
                               pattern: Option<string -> bool>)
    ensures NoDuplicates(SelectKeywords(rows, minImpressions, minClicks, pattern))
  {
    var d := Distinct(Keywords(rows));
    var f := Filter(d, Thresholds(rows, minImpressions, minClicks));
    FilterNoDuplicates(d, Thresholds(rows, minImpressions, minClicks));
    if pattern.Some? {
      FilterNoDuplicates(f, pattern.value);
    }
  }

  // ---------------------------------------------------------------------
  // Per-page monthly sums
  // ---------------------------------------------------------------------

  lemma PageTotalsAppend(rows: seq<DailyRow>, row: DailyRow, p: string)
    ensures PageTotals(rows + [row], p) == AddSums(PageTotals(rows, p), PageContribution(row, p))
  {
    AppendDropLast(rows, row);
  }

  /** A page's sums over two runs of daily rows add up. */
  lemma {:induction false} PageTotalsConcat(a: seq<DailyRow>, b: seq<DailyRow>, p: string)
    ensures PageTotals(a + b, p) == AddSums(PageTotals(a, p), PageTotals(b, p))
    decreases |b|
  {
    if |b| == 0 {
      assert a + b == a;
    } else {
      var init, x := b[..|b| - 1], b[|b| - 1];
      assert a + b == (a + init) + [x];
      assert b == init + [x];
      PageTotalsConcat(a, init, p);
      PageTotalsAppend(a + init, x, p);
      PageTotalsAppend(init, x, p);
    }
  }

  lemma PageTotalsRemove(b: seq<DailyRow>, j: nat, p: string)
    requires j < |b|
    ensures PageTotals(b, p) == AddSums(PageTotals(b[..j] + b[j + 1..], p), PageContribution(b[j], p))
  {
    var pre, x, post := b[..j], b[j], b[j + 1..];
    assert b == (pre + [x]) + post;
    PageTotalsConcat(pre + [x], post, p);
    PageTotalsAppend(pre, x, p);
    PageTotalsConcat(pre, post, p);
  }

  /** A page's sums, hence its record, do not depend on the order of the daily rows. */
  lemma {:induction false} PageTotalsPermutation(a: seq<DailyRow>, b: seq<DailyRow>, p: string)
    requires multiset(a) == multiset(b)
    ensures PageTotals(a, p) == PageTotals(b, p)
    decreases |a|
  {
    if |a| == 0 {
      assert |b| == |multiset(b)| == 0;
    } else {
      var x := a[|a| - 1];
      assert x in multiset(b);
      var j :| 0 <= j < |b| && b[j] == x;
      MultisetRemove(a, b, j);
      PageTotalsPermutation(a[..|a| - 1], b[..j] + b[j + 1..], p);
      PageTotalsRemove(b, j, p);
    }
  }

  /** Non-negative impressions, and weighted sums within the bounds times the impressions. */
  predicate SumsWithin(s: PageSums, posLo: real, posHi: real, ctrLo: real, ctrHi: real) {
    && s.impressions >= 0
    && posLo * s.impressions as real <= s.positionSum <= posHi * s.impressions as real
    && ctrLo * s.impressions as real <= s.ctrSum <= ctrHi * s.impressions as real
  }

  /**
    When every daily row of page p has non-negative impressions and its
    position and ctr within bounds, the impression-weighted sums are within
    the same bounds times the impressions.
   */
  lemma {:induction false} PageSumsBounds(rows: seq<DailyRow>, p: string, posLo: real, posHi: real,
                                          ctrLo: real, ctrHi: real)
    requires forall i :: 0 <= i < |rows| && rows[i].page == p ==>
      && rows[i].impressions >= 0
      && posLo <= rows[i].position <= posHi
      && ctrLo <= rows[i].ctr <= ctrHi
    ensures SumsWithin(PageTotals(rows, p), posLo, posHi, ctrLo, ctrHi)
  {
    if |rows| > 0 {
      var init, row := rows[..|rows| - 1], rows[|rows| - 1];
      forall i | 0 <= i < |init| && init[i].page == p
        ensures init[i].impressions >= 0 && posLo <= init[i].position <= posHi && ctrLo <= init[i].ctr <= ctrHi
      {
        assert init[i] == rows[i];
      }
      PageSumsBounds(init, p, posLo, posHi, ctrLo, ctrHi);
      ContributionBounds(row, p, posLo, posHi, ctrLo, ctrHi);
      SumsWithinAdd(PageTotals(init, p), PageContribution(row, p), posLo, posHi, ctrLo, ctrHi);
    }
  }

  lemma ContributionBounds(row: DailyRow, p: string, posLo: real, posHi: real, ctrLo: real, ctrHi: real)
    requires row.page == p ==>
      row.impressions >= 0 && posLo <= row.position <= posHi && ctrLo <= row.ctr <= ctrHi
    ensures SumsWithin(PageContribution(row, p), posLo, posHi, ctrLo, ctrHi)
  {
    if row.page == p {
      ScaleBounds(posLo, row.position, posHi, row.impressions as real);
      ScaleBounds(ctrLo, row.ctr, ctrHi, row.impressions as real);
    }
  }

  lemma SumsWithinAdd(a: PageSums, b: PageSums, posLo: real, posHi: real, ctrLo: real, ctrHi: real)
    requires SumsWithin(a, posLo, posHi, ctrLo, ctrHi) && SumsWithin(b, posLo, posHi, ctrLo, ctrHi)
    ensures SumsWithin(AddSums(a, b), posLo, posHi, ctrLo, ctrHi)
  {
    var n1, n2 := a.impressions as real, b.impressions as real;
    AddBounds(posLo, posHi, n1, a.positionSum, n2, b.positionSum);
    AddBounds(ctrLo, ctrHi, n1, a.ctrSum, n2, b.ctrSum);
    assert AddSums(a, b).impressions as real == n1 + n2;
  }

  lemma AddBounds(lo: real, hi: real, n1: real, s1: real, n2: real, s2: real)
    requires lo * n1 <= s1 <= hi * n1 && lo * n2 <= s2 <= hi * n2
    ensures lo * (n1 + n2) <= s1 + s2 <= hi * (n1 + n2)
  {
    assert lo * (n1 + n2) == lo * n1 + lo * n2;
    assert hi * (n1 + n2) == hi * n1 + hi * n2;
  }

  lemma ScaleBounds(lo: real, x: real, hi: real, w: real)
    requires lo <= x <= hi && w >= 0.0
    ensures lo * w <= x * w <= hi * w
  {
  }

  lemma MeanWithin(sum: real, impressions: int, lo: real, hi: real)
    requires impressions > 0
    requires lo * impressions as real <= sum <= hi * impressions as real
    ensures lo <= WeightedMean(sum, impressions) <= hi
  {
    var n := impressions as real;
    assert sum / n * n == sum;
  }

  /**
    A record's position and ctr are impression-weighted means: they lie
    between the smallest and the largest daily value of that page, and are
    0 when the page had no impressions.
   */
  lemma MonthRowMeans(keyword: string, ym: YearMonth, rows: seq<DailyRow>, p: string,
                      posLo: real, posHi: real, ctrLo: real, ctrHi: real)
    requires forall i :: 0 <= i < |rows| && rows[i].page == p ==>
      && rows[i].impressions >= 0
      && posLo <= rows[i].position <= posHi
      && ctrLo <= rows[i].ctr <= ctrHi
    ensures var r := MonthRow(keyword, ym, p, PageTotals(rows, p));
      && (r.impressions > 0 ==> posLo <= r.position <= posHi && ctrLo <= r.ctr <= ctrHi)
      && (r.impressions == 0 ==> r.position == 0.0 && r.ctr == 0.0)
  {
    PageSumsBounds(rows, p, posLo, posHi, ctrLo, ctrHi);
    var s := PageTotals(rows, p);
    if s.impressions > 0 {
      MeanWithin(s.positionSum, s.impressions, posLo, posHi);
      MeanWithin(s.ctrSum, s.impressions, ctrLo, ctrHi);
    }
  }

  const ExampleKeyword := "data governance"
  const ExamplePage := "/blog/data-gov"

  /** A daily row of the example page in October 2024, with ctr 0.1. */
  function ExampleDay(day: int, clicks: int, impressions: int, position: real): DailyRow {
    DailyRow(ExampleKeyword, ExamplePage, Utils.Date(2024, 10, day), clicks, impressions, position, 0.1)
  }

  /** Three days of one page: positions 2.0, 3.0 and 1.0 on 100, 200 and 50 impressions. */
  const ExampleRows := [ExampleDay(1, 10, 100, 2.0), ExampleDay(2, 20, 200, 3.0), ExampleDay(3, 5, 50, 1.0)]

  lemma ExamplePages()
    ensures Distinct(Pages(ExampleRows)) == [ExamplePage]
  {
    var rows, page := ExampleRows, ExamplePage;
    assert Pages(rows) == [page, page, page] by {
      assert rows[..2] == [rows[0], rows[1]] && [rows[0], rows[1]][..1] == [rows[0]] && [rows[0]][..0] == [];
    }
    assert Distinct([page]) == [page] by {
      assert [page][..0] == [];
    }
    assert Distinct([page, page]) == [page] by {
      assert [page, page][..1] == [page];
    }
    assert [page, page, page][..2] == [page, page];
  }

  lemma ExampleTotals()
    ensures PageTotals(ExampleRows, ExamplePage) == PageSums(35, 350, 850.0, 35.0)
  {
    var d1, d2, d3 := ExampleDay(1, 10, 100, 2.0), ExampleDay(2, 20, 200, 3.0), ExampleDay(3, 5, 50, 1.0);
    assert DailySums(d1) == PageSums(10, 100, 200.0, 10.0);
    assert DailySums(d2) == PageSums(20, 200, 600.0, 20.0);
    assert DailySums(d3) == PageSums(5, 50, 50.0, 5.0);
    PageTotalsAppend([], d1, ExamplePage);
    assert [] + [d1] == [d1];
    PageTotalsAppend([d1], d2, ExamplePage);
    assert [d1] + [d2] == [d1, d2];
    PageTotalsAppend([d1, d2], d3, ExamplePage);
    assert [d1, d2] + [d3] == ExampleRows;
  }

  /**
    The three example days give one record with 35 clicks and 350
    impressions; its position is the impression-weighted 17/7, not the
    plain mean 2.0 of the daily positions; its ctr is 0.1.
   */
  lemma WeightedMeanExample()
    ensures MonthRows(ExampleKeyword, YearMonth(2024, 10), ExampleRows)
         == [PageMonthRow(ExampleKeyword, ExamplePage, YearMonth(2024, 10), 35, 350, 17.0 / 7.0, 0.1)]
  {
    ExamplePages();
    ExampleTotals();
    SinglePageMonth(ExampleKeyword, YearMonth(2024, 10), ExampleRows, ExamplePage, PageSums(35, 350, 850.0, 35.0));
    ExampleMeans();
  }

  /** A month whose rows all belong to one page gives a single record carrying that page's sums. */
  lemma SinglePageMonth(keyword: string, ym: YearMonth, rows: seq<DailyRow>, page: string, sums: PageSums)
    requires Distinct(Pages(rows)) == [page]
    requires PageTotals(rows, page) == sums
    ensures MonthRows(keyword, ym, rows) == [MonthRow(keyword, ym, page, sums)]
  {
  }

  lemma ExampleMeans()
    ensures WeightedMean(850.0, 350) == 17.0 / 7.0
    ensures WeightedMean(35.0, 350) == 0.1
  {
  }

  // ---------------------------------------------------------------------
  // Records of a month and of a whole run
  // ---------------------------------------------------------------------

  /** The page of each record, in order. */
  function RecordPages(r: seq<PageMonthRow>): seq<string> {
    Project(r, (record: PageMonthRow) => record.page)
  }

  /** Every record carries the keyword and one of the months ms. */
  predicate RecordsFor(out: seq<PageMonthRow>, keyword: string, ms: seq<YearMonth>) {
    forall i :: 0 <= i < |out| ==> out[i].query == keyword && out[i].yearMonth in ms
  }

  /** No (page, month) pair has two records. */
  predicate OnePerPageMonth(out: seq<PageMonthRow>) {
    forall i, j :: 0 <= i < j < |out| ==> out[i].page != out[j].page || out[i].yearMonth != out[j].yearMonth
  }

  /** A record's clicks and impressions are its page's sums over the month's rows. */
  predicate CarriesPageSums(r: seq<PageMonthRow>, rs: seq<DailyRow>) {
    forall i :: 0 <= i < |r| ==>
      r[i].clicks == PageTotals(rs, r[i].page).clicks && r[i].impressions == PageTotals(rs, r[i].page).impressions
  }

  /**
    A month with rows yields one record per page that occurs in its rows and
    no other: every record carries the requested keyword and the month, no
    page has two records, and a record's clicks and impressions are its
    page's sums.
   */
  lemma MonthRowsRecords(keyword: string, ym: YearMonth, rs: seq<DailyRow>)
    ensures RecordsFor(MonthRows(keyword, ym, rs), keyword, [ym])
    ensures CarriesPageSums(MonthRows(keyword, ym, rs), rs)
    ensures NoDuplicates(RecordPages(MonthRows(keyword, ym, rs)))
    ensures forall p :: p in RecordPages(MonthRows(keyword, ym, rs)) <==> p in Pages(rs)
  {
    var r := MonthRows(keyword, ym, rs);
    var d := Distinct(Pages(rs));
    assert RecordPages(r) == d;
  }

  /** The month of each request, in order. */
  function Months(requests: seq<MonthRequest>): (ms: seq<YearMonth>)
    ensures |ms| == |requests|
    ensures forall i :: 0 <= i < |requests| ==> ms[i] == MonthOf(requests[i].first)
  {
    if |requests| == 0 then [] else Months(requests[..|requests| - 1]) + [MonthOf(requests[|requests| - 1].first)]
  }

  /** The months are handled independently: a run over a + b is the run over a, then the run over b. */
  lemma PageDataConcat(keyword: string, api: PageApi, a: seq<MonthRequest>, b: seq<MonthRequest>)
    ensures PageData(keyword, api, a + b) == PageData(keyword, api, a) + PageData(keyword, api, b)
  {
    FlatMapConcat(a, b, MonthDataOf(keyword, api));
  }

  lemma PageDataAppend(keyword: string, api: PageApi, a: seq<MonthRequest>, x: MonthRequest)
    ensures PageData(keyword, api, a + [x]) == PageData(keyword, api, a) + MonthData(keyword, api, x)
  {
    FlatMapAppend(a, x, MonthDataOf(keyword, api));
  }

  /** Request i of a run is call i, for the i-th month after start's, from its first day to no later than its last. */
  predicate OneRequestPerMonth(requests: seq<MonthRequest>, start: Utils.Date) {
    forall i :: 0 <= i < |requests| ==>
      && requests[i].call == i
      && requests[i].first.day == 1
      && Utils.MonthIndex(requests[i].first) == Utils.MonthIndex(start) + i
      && Utils.MonthIndex(requests[i].last) == Utils.MonthIndex(requests[i].first)
      && Utils.NotAfter(requests[i].first, requests[i].last)
  }

  /**
    The run makes one request per calendar month from start's month to
    today's and no other: request i is the i-th call and asks for the i-th
    month after start's, so no month is asked for twice; the last request
    ends today.
   */
  lemma RequestsOnePerMonth(start: Utils.Date, today: Utils.Date)
    requires Utils.ValidDate(start) && Utils.ValidDate(today)
    ensures |MonthRequests(Utils.MonthlyRanges(start, today))| == Utils.MonthCount(start, today)
    ensures OneRequestPerMonth(MonthRequests(Utils.MonthlyRanges(start, today)), start)
    ensures var rq := MonthRequests(Utils.MonthlyRanges(start, today));
      |rq| > 0 ==> rq[|rq| - 1].last == today
  {
    Utils.MonthlyRangesMonths(start, today);
    Utils.MonthlyRangesEnds(start, today);
  }

  /** A request that fails or brings no rows adds nothing: the run is as if it had not been made. */
  lemma SkipFailedRequest(keyword: string, api: PageApi, a: seq<MonthRequest>, request: MonthRequest,
                          b: seq<MonthRequest>)
    requires !api(request.call, keyword, request.first, request.last).Rows?
    ensures PageData(keyword, api, a + [request] + b) == PageData(keyword, api, a + b)
  {
    PageDataConcat(keyword, api, a + [request], b);
    PageDataAppend(keyword, api, a, request);
    PageDataConcat(keyword, api, a, b);
    assert MonthData(keyword, api, request) == [];
  }

  /**
    A month whose request fails (429 included) or brings no rows adds no
    record, and it is not retried: no other request of the run asks for
    that month.
   */
  lemma FailedMonthSkipped(keyword: string, api: PageApi, start: Utils.Date, today: Utils.Date, i: nat)
    requires Utils.ValidDate(start) && Utils.ValidDate(today)
    requires i < Utils.MonthCount(start, today)
    requires !api(i, keyword, Utils.RangeAt(start, today, i).0, Utils.RangeAt(start, today, i).1).Rows?
    ensures var rq := MonthRequests(Utils.MonthlyRanges(start, today));
      PageData(keyword, api, rq) == PageData(keyword, api, rq[..i] + rq[i + 1..])
    ensures var rq := MonthRequests(Utils.MonthlyRanges(start, today));
      forall j :: 0 <= j < |rq| && j != i ==> Utils.MonthIndex(rq[j].first) != Utils.MonthIndex(rq[i].first)
  {
    var rq := MonthRequests(Utils.MonthlyRanges(start, today));
    RequestsOnePerMonth(start, today);
    assert rq == rq[..i] + [rq[i]] + rq[i + 1..];
    SkipFailedRequest(keyword, api, rq[..i], rq[i], rq[i + 1..]);
  }

  /** One month's records carry the keyword and that month, with no page twice. */
  lemma MonthDataKeys(keyword: string, api: PageApi, month: MonthRequest)
    ensures RecordsFor(MonthData(keyword, api, month), keyword, [MonthOf(month.first)])
    ensures OnePerPageMonth(MonthData(keyword, api, month))
  {
    if api(month.call, keyword, month.first, month.last).Rows? {
      var r := MonthData(keyword, api, month);
      MonthRowsRecords(keyword, MonthOf(month.first), api(month.call, keyword, month.first, month.last).rows);
      assert forall i :: 0 <= i < |r| ==> RecordPages(r)[i] == r[i].page;
    }
  }

  /** Appending a new month's records to records of earlier months keeps (page, month) pairs unique. */
  lemma AppendMonthKeys(before: seq<PageMonthRow>, month: seq<PageMonthRow>, keyword: string,
                        ms0: seq<YearMonth>, ym: YearMonth)
    requires RecordsFor(before, keyword, ms0) && OnePerPageMonth(before)
    requires RecordsFor(month, keyword, [ym]) && OnePerPageMonth(month)
    requires ym !in ms0
    ensures RecordsFor(before + month, keyword, ms0 + [ym])
    ensures OnePerPageMonth(before + month)
  {
    var out := before + month;
    forall i | 0 <= i < |out|
      ensures out[i].query == keyword && out[i].yearMonth in ms0 + [ym]
    {
      if i >= |before| {
        assert out[i] == month[i - |before|];
      } else {
        assert out[i] == before[i];
      }
    }
    forall i, j | 0 <= i < j < |out|
      ensures out[i].page != out[j].page || out[i].yearMonth != out[j].yearMonth
    {
      if j >= |before| && i < |before| {
        assert out[i] == before[i] && out[j] == month[j - |before|];
      } else if i >= |before| {
        assert out[i] == month[i - |before|] && out[j] == month[j - |before|];
      } else {
        assert out[i] == before[i] && out[j] == before[j];
      }
    }
  }

  /**
    Over requests for distinct months, every record carries the keyword and
    one of those months, and no (page, month) pair has two records.
   */
  lemma {:induction false} PageDataKeys(keyword: string, api: PageApi, requests: seq<MonthRequest>)
    requires NoDuplicates(Months(requests))
    ensures RecordsFor(PageData(keyword, api, requests), keyword, Months(requests))
    ensures OnePerPageMonth(PageData(keyword, api, requests))
  {
    if |requests| > 0 {
      var init, last := requests[..|requests| - 1], requests[|requests| - 1];
      var ms := Months(requests);
      assert ms == Months(init) + [MonthOf(last.first)];
      PageDataKeys(keyword, api, init);
      MonthDataKeys(keyword, api, last);
      AppendMonthKeys(PageData(keyword, api, init), MonthData(keyword, api, last), keyword,
                      Months(init), MonthOf(last.first));
    }
  }

  /** The year_month of a record as a month count, like Utils.MonthIndex. */
  function YearMonthIndex(ym: YearMonth): int {
    Utils.MonthIndex(Utils.Date(ym.year, ym.month, 1))
  }

  /** Every record carries the keyword and a month between the two month counts. */
  predicate RecordsBetween(out: seq<PageMonthRow>, keyword: string, lo: int, hi: int) {
    forall i :: 0 <= i < |out| ==>
      out[i].query == keyword && lo <= YearMonthIndex(out[i].yearMonth) <= hi
  }

  /**
    fetch_keyword_page_data returns at most one record per (page, month),
    each with the requested keyword and a month from start's month to
    today's; there are no records when start's month is after today's.
   */
  lemma PageDataRecords(keyword: string, api: PageApi, start: Utils.Date, today: Utils.Date)
    requires Utils.ValidDate(start) && Utils.ValidDate(today)
    ensures RecordsBetween(PageData(keyword, api, MonthRequests(Utils.MonthlyRanges(start, today))), keyword,
                           Utils.MonthIndex(start), Utils.MonthIndex(today))
    ensures OnePerPageMonth(PageData(keyword, api, MonthRequests(Utils.MonthlyRanges(start, today))))
    ensures Utils.MonthIndex(today) < Utils.MonthIndex(start) ==>
      PageData(keyword, api, MonthRequests(Utils.MonthlyRanges(start, today))) == []
  {
    var requests := MonthRequests(Utils.MonthlyRanges(start, today));
    var ms := Months(requests);
    assert forall i :: 0 <= i < |ms| ==> YearMonthIndex(ms[i]) == Utils.MonthIndex(Utils.MonthStart(start, i));
    PageDataKeys(keyword, api, requests);
    var out := PageData(keyword, api, requests);
    forall i | 0 <= i < |out|
      ensures Utils.MonthIndex(start) <= YearMonthIndex(out[i].yearMonth) <= Utils.MonthIndex(today)
    {
      var k :| 0 <= k < |ms| && ms[k] == out[i].yearMonth;
    }
  }
}
