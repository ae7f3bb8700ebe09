/** Calendar arithmetic of ECMAScript dates, and the month ranges the dashboard filters by. */
module Calendar {
  import opened Text

  const DAY_MS := 86_400_000
  const HOUR_MS := 3_600_000

  // ----- ECMAScript `MakeDay`, on whole numbers (`/` and `%` floor, as the standard asks) -----

  predicate IsLeap(y: int) {
    y % 4 == 0 && (y % 100 != 0 || y % 400 == 0)
  }

  function DayFromYear(y: int): int {
    365 * (y - 1970) + (y - 1969) / 4 - (y - 1901) / 100 + (y - 1601) / 400
  }

  /** Days before month `m` (0 to 11). */
  function MonthOffset(y: int, m: int): int
    requires 0 <= m < 12
  {
    [0, 31, 59, 90, 120, 151, 181, 212, 243, 273, 304, 334][m] + if m >= 2 && IsLeap(y) then 1 else 0
  }

  /** `month` counts from 0 and may overflow; so may `day`. */
  function MakeDay(year: int, month: int, day: int): int {
    DayFromYear(year + month / 12) + MonthOffset(year + month / 12, month % 12) + day - 1
  }

  /** `Date.UTC` reads the years 0 to 99 as 1900 to 1999. */
  function FullYear(y: int): int {
    if 0 <= y <= 99 then 1900 + y else y
  }

  function DateUtc(year: int, month: int, day: int, h: int, min: int, s: int, ms: int): int {
    MakeDay(FullYear(year), month, day) * DAY_MS + h * HOUR_MS + min * 60_000 + s * 1000 + ms
  }

  function DaysInMonth(y: int, m: int): int
    requires 1 <= m <= 12
  {
    if m == 2 then (if IsLeap(y) then 29 else 28) else if m == 4 || m == 6 || m == 9 || m == 11 then 30 else 31
  }

  lemma NextYear(y: int)
    ensures DayFromYear(y + 1) == DayFromYear(y) + if IsLeap(y) then 366 else 365
  {
    FloorStep(y - 1969, 4);
    FloorStep(y - 1901, 100);
    FloorStep(y - 1601, 400);
  }

  lemma FloorStep(x: int, k: int)
    requires k > 0
    ensures (x + 1) / k == x / k + if (x + 1) % k == 0 then 1 else 0
  {
    var q, r := x / k, x % k;
    assert x == q * k + r;
    if r == k - 1 {
      assert x + 1 == (q + 1) * k;
      DivUnique(x + 1, k, q + 1, 0);
    } else {
      DivUnique(x + 1, k, q, r + 1);
    }
  }

  lemma DivUnique(x: int, k: int, q: int, r: int)
    requires k > 0 && x == q * k + r && 0 <= r < k
    ensures x / k == q && x % k == r
  {
    var q', r' := x / k, x % k;
    assert x == q' * k + r';
    NoMultipleBetween(q - q', k, r' - r);
  }

  lemma NoMultipleBetween(d: int, k: int, x: int)
    requires k > 0 && -k < x < k && d * k == x
    ensures d == 0
  {
    if d >= 1 {
      MulAtLeast(d, k);
    } else if d <= -1 {
      MulAtLeast(-d, k);
    }
  }

  lemma MulAtLeast(d: int, k: int)
    requires d >= 1 && k > 0
    ensures d * k >= k
  {
  }

  /** The first day of a month plus its length is the first day of the next, year ends included. */
  lemma NextMonth(y: int, m: int)
    requires 1 <= m <= 12
    ensures MakeDay(y, m, 1) == MakeDay(y, m - 1, 1) + DaysInMonth(y, m)
  {
    if m == 12 {
      NextYear(y);
    }
    hide DayFromYear;
  }

  // ----- Month ranges -----

  datatype Range = Range(start: int, end: int)

  /** `getMonthRange`: 00:00 of the first day in UTC-3 to the last millisecond before the next month. */
  function MonthRange(year: int, month: int): Range {
    Range(DateUtc(year, month - 1, 1, 3, 0, 0, 0), DateUtc(year, month, 1, 2, 59, 59, 999))
  }

  /** `normalizeDateToUtc` of a plain date: the report filters' start or end of that day. */
  function ReportInstant(year: int, month: int, day: int, endOfDay: bool): int {
    if endOfDay then DateUtc(year, month - 1, day, 26, 59, 59, 999) else DateUtc(year, month - 1, day, 3, 0, 0, 0)
  }

  /** The dashboard month is the report range from the month's first day to its last, leap years included. */
  lemma MonthRangeIsReportRange(year: int, month: int)
    requires 1 <= month <= 12
    ensures MonthRange(year, month)
            == Range(ReportInstant(year, month, 1, false),
                     ReportInstant(year, month, DaysInMonth(FullYear(year), month), true))
  {
    NextMonth(FullYear(year), month);
    assert MakeDay(FullYear(year), month - 1, DaysInMonth(FullYear(year), month))
        == MakeDay(FullYear(year), month - 1, 1) + DaysInMonth(FullYear(year), month) - 1;
  }

  // ----- Months as one line -----

  /** Month number `n` is month `n % 12 + 1` of year `n / 12`. */
  function FirstDay(n: int): int {
    MakeDay(0, n, 1)
  }

  function StartOf(n: int): int {
    FirstDay(n) * DAY_MS + 3 * HOUR_MS
  }

  function RangeOf(n: int): Range {
    MonthRange(n / 12, n % 12 + 1)
  }

  lemma FirstDayOf(year: int, month: int)
    ensures MakeDay(year, month, 1) == FirstDay(12 * year + month)
  {
    DivUnique(12 * year + month, 12, year + month / 12, month % 12);
  }

  lemma FirstDayStep(n: int)
    ensures FirstDay(n + 1) == FirstDay(n) + DaysInMonth(n / 12, n % 12 + 1)
    ensures 28 <= DaysInMonth(n / 12, n % 12 + 1) <= 31
  {
    hide MakeDay, FirstDay;
    var y, m := n / 12, n % 12 + 1;
    NextMonth(y, m);
    FirstDayOf(y, m);
    FirstDayOf(y, m - 1);
    assert 12 * y + m == n + 1;
  }

  /** From the year 100 on (no two-digit quirk), a month's range runs up to the start of the next. */
  lemma RangeOfIs(n: int)
    requires n >= 1200
    ensures RangeOf(n) == Range(StartOf(n), StartOf(n + 1) - 1)
  {
    hide MakeDay, FirstDay;
    var y, m := n / 12, n % 12 + 1;
    assert 12 * y + m == n + 1;
    FirstDayOf(y, m);
    FirstDayOf(y, m - 1);
  }

  lemma {:induction false} FirstDaySpread(a: int, b: int)
    requires a <= b
    ensures FirstDay(a) + 28 * (b - a) <= FirstDay(b)
    decreases b - a
  {
    if a < b {
      FirstDayStep(b - 1);
      FirstDaySpread(a, b - 1);
    }
  }

  lemma StartsSpread(a: int, b: int)
    requires a <= b
    ensures StartOf(a) <= StartOf(b)
  {
    hide FirstDay;
    FirstDaySpread(a, b);
  }

  ghost predicate InMonth(t: int, n: int) {
    RangeOf(n).start <= t <= RangeOf(n).end
  }

  /** The months tile the time line: from the start of the year 100, every millisecond lies in exactly one. */
  lemma MonthsTile(t: int) returns (n: int)
    requires t >= RangeOf(1200).start
    ensures n >= 1200 && InMonth(t, n)
    ensures forall k | k >= 1200 && InMonth(t, k) :: k == n
  {
    RangeOfIs(1200);
    n := FindMonth(t, 1200);
    RangeOfIs(n);
    forall k | k >= 1200 && InMonth(t, k) ensures k == n {
      RangeOfIs(k);
      if k < n {
        FirstDaySpread(k + 1, n);
      } else if n < k {
        FirstDaySpread(n + 1, k);
      }
    }
  }

  lemma {:induction false} FindMonth(t: int, from: int) returns (n: int)
    requires StartOf(from) <= t
    ensures n >= from && StartOf(n) <= t < StartOf(n + 1)
    decreases t - StartOf(from)
  {
    hide FirstDay;
    FirstDayStep(from);
    if t < StartOf(from + 1) {
      n := from;
    } else {
      n := FindMonth(t, from + 1);
    }
  }

  /** Below the year 100 the tiling breaks: the year 50 and the year 1950 are the same months. */
  lemma TwoDigitYearsAlias(year: int, month: int)
    requires 0 <= year <= 99
    ensures MonthRange(year, month) == MonthRange(1900 + year, month)
  {
  }

  // ----- Revenue -----

  datatype Opportunity = Opportunity(closedAt: Option<int>, expectedCloseDate: int, value: real)

  /** `closedAt || expectedCloseDate`. */
  function EffectiveClose(o: Opportunity): int {
    if o.closedAt.Some? then o.closedAt.value else o.expectedCloseDate
  }

  /** `buildWonDateRangeFilter`, and the closed-status filter of the reports. */
  predicate Within(r: Range, o: Opportunity) {
    || (o.closedAt.Some? && r.start <= o.closedAt.value <= r.end)
    || (o.closedAt.None? && r.start <= o.expectedCloseDate <= r.end)
  }

  function Revenue(os: seq<Opportunity>, r: Range): real {
    if os == [] then 0.0
    else Revenue(os[..|os| - 1], r) + if Within(r, os[|os| - 1]) then os[|os| - 1].value else 0.0
  }

  /** Revenue of the months `lo`, ..., `hi - 1`, added up. */
  function MonthlyRevenue(os: seq<Opportunity>, lo: int, hi: int): real
    requires lo <= hi
    decreases hi - lo
  {
    if lo == hi then 0.0 else MonthlyRevenue(os, lo, hi - 1) + Revenue(os, RangeOf(hi - 1))
  }

  /** From the first day of month `lo` to the last day of month `hi - 1`, as a report would filter it. */
  function SpanRange(lo: int, hi: int): Range {
    var last := hi - 1;
    Range(ReportInstant(lo / 12, lo % 12 + 1, 1, false),
          ReportInstant(last / 12, last % 12 + 1, DaysInMonth(FullYear(last / 12), last % 12 + 1), true))
  }

  lemma SpanRangeIs(lo: int, hi: int)
    requires 1200 <= lo < hi
    ensures SpanRange(lo, hi) == Range(StartOf(lo), StartOf(hi) - 1)
  {
    hide ReportInstant, MonthRange, StartOf, FullYear, DaysInMonth;
    MonthRangeIsReportRange(lo / 12, lo % 12 + 1);
    MonthRangeIsReportRange((hi - 1) / 12, (hi - 1) % 12 + 1);
    RangeOfIs(lo);
    RangeOfIs(hi - 1);
  }

  lemma {:induction false} RevenueSplits(os: seq<Opportunity>, a: int, b: int, c: int)
    requires a <= b <= c
    ensures Revenue(os, Range(a, c - 1)) == Revenue(os, Range(a, b - 1)) + Revenue(os, Range(b, c - 1))
  {
    if os != [] {
      RevenueSplits(os[..|os| - 1], a, b, c);
    }
  }

  /** Every won opportunity counts in exactly one month: the months' revenues add up to the revenue of the
      report over the whole span. */
  lemma {:induction false} MonthsAddUp(os: seq<Opportunity>, lo: int, hi: int)
    requires 1200 <= lo < hi
    ensures MonthlyRevenue(os, lo, hi) == Revenue(os, SpanRange(lo, hi))
    decreases hi - lo
  {
    hide SpanRange, RangeOf, StartOf;
    SpanRangeIs(lo, hi);
    RangeOfIs(hi - 1);
    if lo < hi - 1 {
      MonthsAddUp(os, lo, hi - 1);
      SpanRangeIs(lo, hi - 1);
      StartsSpread(lo, hi - 1);
      StartsSpread(hi - 1, hi);
      RevenueSplits(os, StartOf(lo), StartOf(hi - 1), StartOf(hi));
    }
  }
}
