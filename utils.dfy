/**
  Calendar arithmetic and the month-range generator of modules/utils.py.

  Dates are proleptic Gregorian (year, month, day) triples, as Python's
  `datetime` holds them. The current time enters as the parameter `today`:
  every instant the generator compares with it is a midnight, so comparing
  with "now" is exactly comparing with today's date.
 */
module Utils {

  datatype Date = Date(year: int, month: int, day: int)

  predicate IsLeapYear(y: int) {
    y % 4 == 0 && (y % 100 != 0 || y % 400 == 0)
  }

  function DaysInMonth(y: int, m: int): (n: int)
    requires 1 <= m <= 12
    ensures 28 <= n <= 31
    ensures m == 2 ==> (n == 29 <==> IsLeapYear(y))
  {
    if m == 2 then (if IsLeapYear(y) then 29 else 28)
    else if m == 4 || m == 6 || m == 9 || m == 11 then 30
    else 31
  }

  /** A date `datetime` accepts (years from MINYEAR = 1 upwards). */
  predicate ValidDate(d: Date) {
    1 <= d.year && 1 <= d.month <= 12 && 1 <= d.day <= DaysInMonth(d.year, d.month)
  }

  /** Chronological order: `a < b` on dates. */
  predicate Before(a: Date, b: Date) {
    a.year < b.year
    || (a.year == b.year && a.month < b.month)
    || (a.year == b.year && a.month == b.month && a.day < b.day)
  }

  /** `a <= b` on dates. */
  predicate NotAfter(a: Date, b: Date) {
    a == b || Before(a, b)
  }

  /** Months counted from year 0: consecutive calendar months differ by one. */
  function MonthIndex(d: Date): int {
    d.year * 12 + d.month - 1
  }

  function LastDayOfMonth(d: Date): Date
    requires 1 <= d.month <= 12
  {
    Date(d.year, d.month, DaysInMonth(d.year, d.month))
  }

  /** The first day of the month after d's month. */
  function NextMonthStart(d: Date): Date {
    if d.month == 12 then Date(d.year + 1, 1, 1) else Date(d.year, d.month + 1, 1)
  }

  /** `d + timedelta(days=1)`. */
  function NextDay(d: Date): Date
    requires ValidDate(d)
  {
    if d.day < DaysInMonth(d.year, d.month) then Date(d.year, d.month, d.day + 1)
    else NextMonthStart(d)
  }

  /** `d - timedelta(days=1)`. */
  function PreviousDay(d: Date): Date
    requires ValidDate(d)
  {
    if d.day > 1 then Date(d.year, d.month, d.day - 1)
    else if d.month > 1 then Date(d.year, d.month - 1, DaysInMonth(d.year, d.month - 1))
    else Date(d.year - 1, 12, 31)
  }

  /** The first day of the i-th month counted from start's month. */
  function MonthStart(start: Date, i: nat): (d: Date)
    requires ValidDate(start)
    ensures ValidDate(d) && d.day == 1
    ensures MonthIndex(d) == MonthIndex(start) + i
  {
    if i == 0 then Date(start.year, start.month, 1)
    else NextMonthStart(MonthStart(start, i - 1))
  }

  /** Number of months from start's month to today's month, both included. */
  function MonthCount(start: Date, today: Date): nat {
    if MonthIndex(today) >= MonthIndex(start) then MonthIndex(today) - MonthIndex(start) + 1
    else 0
  }

  /** The i-th (first-day, last-day) pair, its end clamped to today. */
  function RangeAt(start: Date, today: Date, i: nat): (Date, Date)
    requires ValidDate(start)
  {
    var first := MonthStart(start, i);
    var last := LastDayOfMonth(first);
    (first, if Before(today, last) then today else last)
  }

  /** Closed form of the ranges generate_monthly_ranges returns. */
  function MonthlyRanges(start: Date, today: Date): seq<(Date, Date)>
    requires ValidDate(start)
  {
    seq(MonthCount(start, today), i requires 0 <= i => RangeAt(start, today, i))
  }

  /** A first-of-month is not after today exactly when its month is not after today's. */
  lemma MonthStartNotAfter(first: Date, today: Date)
    requires ValidDate(first) && first.day == 1 && ValidDate(today)
    ensures NotAfter(first, today) <==> MonthIndex(first) <= MonthIndex(today)
  {
  }

  /** The day before the next month's first day is this month's last day. */
  lemma PreviousDayOfNextMonth(d: Date)
    requires ValidDate(d)
    ensures ValidDate(NextMonthStart(d))
    ensures PreviousDay(NextMonthStart(d)) == LastDayOfMonth(d)
  {
  }

  /**
    generate_monthly_ranges: from the first day of start's month, one
    (first-day, last-day) pair per calendar month while the month's first
    day is not after today; the end of the month is clamped to today.
   */
  method GenerateMonthlyRanges(start: Date, today: Date) returns (months: seq<(Date, Date)>)
    requires ValidDate(start) && ValidDate(today)
    ensures |months| == MonthCount(start, today)
    ensures months == MonthlyRanges(start, today)
  {
    var current := Date(start.year, start.month, 1);
    months := [];
    while NotAfter(current, today)
      invariant |months| <= MonthCount(start, today)
      invariant current == MonthStart(start, |months|)
      invariant forall i :: 0 <= i < |months| ==> months[i] == RangeAt(start, today, i)
      decreases MonthIndex(today) - MonthIndex(current)
    {
      MonthStartNotAfter(current, today);
      var monthEnd, nextMonth := MonthRange(start, today, current, |months|);
      months := months + [(current, monthEnd)];
      current := nextMonth;
    }
    MonthStartNotAfter(current, today);
  }

  /** One pass of the loop: the clamped end of current's month, and the next month's first day. */
  method MonthRange(start: Date, today: Date, current: Date, ghost i: nat) returns (monthEnd: Date, nextMonth: Date)
    requires ValidDate(start) && current == MonthStart(start, i)
    ensures (current, monthEnd) == RangeAt(start, today, i)
    ensures nextMonth == MonthStart(start, i + 1)
  {
    nextMonth := if current.month == 12 then Date(current.year + 1, 1, 1)
                 else Date(current.year, current.month + 1, 1);
    PreviousDayOfNextMonth(current);
    monthEnd := PreviousDay(nextMonth);
    if Before(today, monthEnd) {
      monthEnd := today;
    }
  }

  /** A date in an earlier month than today lies before today. */
  lemma EarlierMonthBefore(d: Date, today: Date)
    requires ValidDate(d) && ValidDate(today)
    ensures MonthIndex(d) < MonthIndex(today) ==> Before(d, today)
    ensures MonthIndex(d) == MonthIndex(today) ==> d.year == today.year && d.month == today.month
  {
  }

  /** The first range starts on day 1 of start's month, the last one ends today. */
  lemma MonthlyRangesEnds(start: Date, today: Date)
    requires ValidDate(start) && ValidDate(today)
    ensures var r := MonthlyRanges(start, today);
      |r| > 0 ==> r[0].0 == Date(start.year, start.month, 1) && r[|r| - 1].1 == today
  {
    var r := MonthlyRanges(start, today);
    if |r| > 0 {
      var first := MonthStart(start, |r| - 1);
      EarlierMonthBefore(first, today);
      assert Before(today, LastDayOfMonth(first)) || LastDayOfMonth(first) == today;
    }
  }

  /**
    Every range runs from the first day of a month to the last day of that
    month, except that the final one stops at today; the months are
    consecutive and ascending, and every range is non-empty.
   */
  lemma MonthlyRangesMonths(start: Date, today: Date)
    requires ValidDate(start) && ValidDate(today)
    ensures var r := MonthlyRanges(start, today);
      forall i :: 0 <= i < |r| ==>
        && ValidDate(r[i].0) && ValidDate(r[i].1)
        && r[i].0.day == 1
        && MonthIndex(r[i].0) == MonthIndex(start) + i
        && MonthIndex(r[i].1) == MonthIndex(r[i].0)
        && NotAfter(r[i].0, r[i].1)
        && (i < |r| - 1 ==> r[i].1 == LastDayOfMonth(r[i].0))
  {
    var r := MonthlyRanges(start, today);
    forall i | 0 <= i < |r|
      ensures ValidDate(r[i].0) && ValidDate(r[i].1)
      ensures MonthIndex(r[i].1) == MonthIndex(r[i].0)
      ensures NotAfter(r[i].0, r[i].1)
      ensures i < |r| - 1 ==> r[i].1 == LastDayOfMonth(r[i].0)
    {
      var first := MonthStart(start, i);
      EarlierMonthBefore(first, today);
      EarlierMonthBefore(LastDayOfMonth(first), today);
    }
  }

  /** Ranges are contiguous: each range starts the day after the previous one ends. */
  lemma MonthlyRangesContiguous(start: Date, today: Date)
    requires ValidDate(start) && ValidDate(today)
    ensures var r := MonthlyRanges(start, today);
      forall i :: 0 <= i < |r| - 1 ==> ValidDate(r[i].1) && NextDay(r[i].1) == r[i + 1].0
  {
    var r := MonthlyRanges(start, today);
    MonthlyRangesMonths(start, today);
    forall i | 0 <= i < |r| - 1
      ensures ValidDate(r[i].1) && NextDay(r[i].1) == r[i + 1].0
    {
      assert r[i + 1].0 == NextMonthStart(MonthStart(start, i));
    }
  }
}
