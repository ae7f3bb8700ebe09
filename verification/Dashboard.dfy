/** The dashboard's daily series against the target line, and the sales totals by period. */
module Dashboard {
  import opened Text
  import opened Calendar

  // ----- Local dates on a server with a fixed clock offset -----

  lemma Forward(n: int)
    ensures FirstDay(n) < FirstDay(n + 1)
  {
    hide FirstDay;
    FirstDayStep(n);
  }

  /** The month a day falls in, searched from January 1970. */
  function MonthOf(day: int, guess: int): (n: int)
    ensures FirstDay(n) <= day < FirstDay(n + 1)
    decreases if day < FirstDay(guess) then 1 else 0, if day < FirstDay(guess) then FirstDay(guess) - day
      else day - FirstDay(guess)
  {
    hide FirstDay;
    Forward(guess);
    Forward(guess - 1);
    if day < FirstDay(guess) then MonthOf(day, guess - 1)
    else if day < FirstDay(guess + 1) then guess
    else MonthOf(day, guess + 1)
  }

  /** `date.getDate()`. */
  function DayOfMonth(day: int): int {
    day - FirstDay(MonthOf(day, 23_640)) + 1
  }

  function LocalDay(t: int, offset: int): int {
    (t + offset) / DAY_MS
  }

  lemma DayOfMonthIn(day: int, n: int)
    requires FirstDay(n) <= day < FirstDay(n + 1)
    ensures DayOfMonth(day) == day - FirstDay(n) + 1
  {
    hide FirstDay;
    var k := MonthOf(day, 23_640);
    if k < n {
      FirstDaySpread(k + 1, n);
    } else if n < k {
      FirstDaySpread(n + 1, k);
    }
  }

  // ----- Working days -----

  /** `getDay()` is 1 to 5; day 0 of the epoch was a Thursday. */
  predicate IsBusinessDay(day: int) {
    1 <= (day + 4) % 7 <= 5
  }

  /** Working days among the `k` days from `first`. */
  function BusinessCount(first: int, k: nat): nat {
    if k == 0 then 0 else BusinessCount(first, k - 1) + Tick(first + k - 1)
  }

  lemma {:induction false} CountSplits(first: int, j: nat, k: nat)
    ensures BusinessCount(first, j + k) == BusinessCount(first, j) + BusinessCount(first + j, k)
  {
    if k > 0 {
      CountSplits(first, j, k - 1);
      assert first + j + k - 1 == first + (j + k) - 1;
    }
  }

  lemma WeekHasFive(first: int)
    ensures BusinessCount(first, 7) == 5
  {
    SevenTicks(first);
    TickAt(first, 0);
    TickAt(first, 1);
    TickAt(first, 2);
    TickAt(first, 3);
    TickAt(first, 4);
    TickAt(first, 5);
    TickAt(first, 6);
    hide Tick, BusinessCount;
  }

  lemma SevenTicks(first: int)
    ensures BusinessCount(first, 7) == Tick(first + 0) + Tick(first + 1) + Tick(first + 2) + Tick(first + 3)
                                       + Tick(first + 4) + Tick(first + 5) + Tick(first + 6)
  {
    hide Tick;
    assert BusinessCount(first, 1) == Tick(first + 0)
      && BusinessCount(first, 2) == BusinessCount(first, 1) + Tick(first + 1);
    assert BusinessCount(first, 4) == BusinessCount(first, 3) + Tick(first + 3);
    assert BusinessCount(first, 6) == BusinessCount(first, 5) + Tick(first + 5);
  }

  /** The weekday `i` days on. */
  function Weekday(day: int, i: nat): int
    requires i < 7
  {
    var r := (day + 4) % 7;
    if r + i < 7 then r + i else r + i - 7
  }

  lemma TickAt(first: int, i: nat)
    requires i < 7
    ensures Tick(first + i) == if 1 <= Weekday(first, i) <= 5 then 1 else 0
  {
    var q, r := (first + 4) / 7, (first + 4) % 7;
    if r + i < 7 {
      DivUnique(first + i + 4, 7, q, r + i);
    } else {
      DivUnique(first + i + 4, 7, q + 1, r + i - 7);
    }
  }

  function Tick(day: int): nat {
    if IsBusinessDay(day) then 1 else 0
  }

  /** Every month has at least twenty working days, whatever weekday it starts on. */
  lemma MonthHasTwenty(first: int, length: nat)
    requires length >= 28
    ensures BusinessCount(first, length) >= 20
  {
    WeekHasFive(first);
    WeekHasFive(first + 7);
    WeekHasFive(first + 14);
    WeekHasFive(first + 21);
    CountSplits(first, 7, 7);
    CountSplits(first, 14, 7);
    CountSplits(first, 21, 7);
    CountSplits(first, 28, length - 28);
  }

  /** Counting weeks from Thursday 1 January 1970, the third and fourth day of each, and no other, are no working
      days. */
  lemma WeekendsAreOff(week: int, i: nat)
    requires i < 7
    ensures IsBusinessDay(7 * week + i) <==> i != 2 && i != 3
  {
    DivUnique(7 * week + i + 4, 7, if i < 3 then week else week + 1, if i < 3 then i + 4 else i - 3);
  }

  // ----- The daily series -----

  function Sum(s: seq<real>): real {
    if s == [] then 0.0 else Sum(s[..|s| - 1]) + s[|s| - 1]
  }

  function Total(os: seq<Opportunity>): real {
    if os == [] then 0.0 else Total(os[..|os| - 1]) + os[|os| - 1].value
  }

  predicate ClosesOn(o: Opportunity, offset: int, day: int) {
    DayOfMonth(LocalDay(EffectiveClose(o), offset)) == day
  }

  /** `filter(...getDate() === day).reduce(...)`. */
  function DayRevenue(os: seq<Opportunity>, offset: int, day: int): real {
    if os == [] then 0.0
    else DayRevenue(os[..|os| - 1], offset, day) + if ClosesOn(os[|os| - 1], offset, day) then os[|os| - 1].value
      else 0.0
  }

  function RealizedDaily(os: seq<Opportunity>, offset: int, days: nat): (r: seq<real>)
    ensures |r| == days && forall i | 0 <= i < days :: r[i] == DayRevenue(os, offset, i + 1)
  {
    hide DayRevenue;
    seq(days, i requires 0 <= i < days => DayRevenue(os, offset, i + 1))
  }

  function ObjectiveDaily(first: int, days: nat, total: real): (r: seq<real>)
    ensures |r| == days
    ensures forall i | 0 <= i < days :: r[i] == if IsBusinessDay(first + i)
            then Share(BusinessCount(first, days), total) else 0.0
  {
    seq(days, i requires 0 <= i < days => if IsBusinessDay(first + i) then Share(BusinessCount(first, days), total)
        else 0.0)
  }

  function Share(n: nat, total: real): real {
    if n > 0 then total / n as real else 0.0
  }

  /** `s` accumulated: entry `i` is the sum of the first `i + 1` entries. */
  function Accumulated(s: seq<real>): (r: seq<real>)
    ensures |r| == |s| && forall i | 0 <= i < |r| :: r[i] == Sum(s[..i + 1])
  {
    seq(|s|, i requires 0 <= i < |s| => Sum(s[..i + 1]))
  }

  function MonthLength(year: int, month: int): nat
    requires 1 <= month <= 12
  {
    DaysInMonth(FullYear(year), month)
  }

  method GetBusinessDaysOfMonth(year: int, month: int) returns (days: seq<int>)
    requires 1 <= month <= 12
    ensures |days| == BusinessCount(MakeDay(FullYear(year), month - 1, 1), MonthLength(year, month))
    ensures forall d :: d in days <==> 1 <= d <= MonthLength(year, month)
                                       && IsBusinessDay(MakeDay(FullYear(year), month - 1, 1) + d - 1)
  {
    hide MakeDay, IsBusinessDay, DaysInMonth, FullYear;
    days := [];
    var first := MakeDay(FullYear(year), month - 1, 1);
    var day := 1;
    while day <= MonthLength(year, month)
      invariant 1 <= day <= MonthLength(year, month) + 1
      invariant |days| == BusinessCount(first, day - 1)
      invariant forall d :: d in days <==> 1 <= d < day && IsBusinessDay(first + d - 1)
    {
      if IsBusinessDay(first + day - 1) {
        days := days + [day];
      }
      day := day + 1;
    }
  }

  lemma SumStep(s: seq<real>, k: nat)
    requires k < |s|
    ensures Sum(s[..k + 1]) == Sum(s[..k]) + s[k]
  {
    assert s[..k + 1][..k] == s[..k];
  }

  method SalesSeries(year: int, month: int, offset: int, won: seq<Opportunity>, objectiveTotal: real)
    returns (realizedDaily: seq<real>, objectiveDaily: seq<real>,
             realizedAccumulated: seq<real>, objectiveAccumulated: seq<real>, realizedTotal: real)
    requires 1 <= month <= 12
    ensures realizedDaily == RealizedDaily(won, offset, MonthLength(year, month))
    ensures objectiveDaily
            == ObjectiveDaily(MakeDay(FullYear(year), month - 1, 1), MonthLength(year, month), objectiveTotal)
    ensures realizedAccumulated == Accumulated(realizedDaily)
    ensures objectiveAccumulated == Accumulated(objectiveDaily)
    ensures realizedTotal == Sum(realizedDaily)
  {
    hide MakeDay, DaysInMonth, IsBusinessDay, BusinessCount, ClosesOn, Share, MonthLength, DayRevenue, Sum,
         RealizedDaily, ObjectiveDaily, Accumulated;
    var businessDays := GetBusinessDaysOfMonth(year, month);
    var perDay := Share(|businessDays|, objectiveTotal);
    var lastDay := MonthLength(year, month);
    ghost var realized := RealizedDaily(won, offset, lastDay);
    ghost var objective := ObjectiveDaily(MakeDay(FullYear(year), month - 1, 1), lastDay, objectiveTotal);
    realizedDaily, objectiveDaily, realizedAccumulated, objectiveAccumulated := [], [], [], [];
    var realizedRunning, objectiveRunning := 0.0, 0.0;
    ZeroSum(realized[..0]);
    ZeroSum(objective[..0]);
    var day := 1;
    while day <= lastDay
      invariant 1 <= day <= lastDay + 1
      invariant realizedDaily == realized[..day - 1] && objectiveDaily == objective[..day - 1]
      invariant realizedAccumulated == Accumulated(realized)[..day - 1]
      invariant objectiveAccumulated == Accumulated(objective)[..day - 1]
      invariant realizedRunning == Sum(realized[..day - 1]) && objectiveRunning == Sum(objective[..day - 1])
    {
      var realizedOfDay := DayRevenue(won, offset, day);
      var objectiveOfDay := if day in businessDays then perDay else 0.0;
      SumStep(realized, day - 1);
      SumStep(objective, day - 1);
      realizedRunning := realizedRunning + realizedOfDay;
      objectiveRunning := objectiveRunning + objectiveOfDay;
      realizedDaily := realizedDaily + [realizedOfDay];
      objectiveDaily := objectiveDaily + [objectiveOfDay];
      realizedAccumulated := realizedAccumulated + [realizedRunning];
      objectiveAccumulated := objectiveAccumulated + [objectiveRunning];
      day := day + 1;
    }
    assert realized[..lastDay] == realized && objective[..lastDay] == objective;
    assert Accumulated(realized)[..lastDay] == Accumulated(realized);
    assert Accumulated(objective)[..lastDay] == Accumulated(objective);
    realizedTotal := realizedRunning;
  }

  // ----- Nothing is lost between the month filter and the daily buckets -----

  lemma {:induction false} SumAppend(s: seq<real>, x: real)
    ensures Sum(s + [x]) == Sum(s) + x
  {
    assert (s + [x])[..|s|] == s;
  }

  lemma DayStep(os: seq<Opportunity>, offset: int, day: int)
    requires os != []
    ensures DayRevenue(os, offset, day) == DayRevenue(os[..|os| - 1], offset, day)
            + if DayOfMonth(LocalDay(EffectiveClose(os[|os| - 1]), offset)) == day then os[|os| - 1].value else 0.0
  {
    hide DayOfMonth, LocalDay;
  }

  /** One more opportunity adds its value to the bucket of its day, if that day is listed. */
  lemma {:induction false} OneMore(os: seq<Opportunity>, offset: int, days: nat)
    requires os != []
    ensures var o := os[|os| - 1];
            var day := DayOfMonth(LocalDay(EffectiveClose(o), offset));
            Sum(RealizedDaily(os, offset, days)) == Sum(RealizedDaily(os[..|os| - 1], offset, days))
                                                    + if 1 <= day <= days then o.value else 0.0
  {
    hide DayOfMonth, DayRevenue, Sum;
    if days == 0 {
      ZeroSum(RealizedDaily(os, offset, 0));
      ZeroSum(RealizedDaily(os[..|os| - 1], offset, 0));
    } else {
      DayStep(os, offset, days);
      OneMore(os, offset, days - 1);
      assert RealizedDaily(os, offset, days) == RealizedDaily(os, offset, days - 1) + [DayRevenue(os, offset, days)];
      var init := os[..|os| - 1];
      assert RealizedDaily(init, offset, days)
        == RealizedDaily(init, offset, days - 1) + [DayRevenue(init, offset, days)];
      SumAppend(RealizedDaily(os, offset, days - 1), DayRevenue(os, offset, days));
      SumAppend(RealizedDaily(init, offset, days - 1), DayRevenue(init, offset, days));
    }
  }

  ghost predicate AllWithin(os: seq<Opportunity>, r: Range) {
    forall o | o in os :: Within(r, o)
  }

  /** The local day of every instant of month `n`, for a clock between 3 hours behind and 21 hours ahead of UTC. */
  lemma DayListed(n: int, t: int, offset: int)
    requires n >= 1200 && InMonth(t, n) && -3 * HOUR_MS <= offset <= 21 * HOUR_MS
    ensures 1 <= DayOfMonth(LocalDay(t, offset)) <= DaysInMonth(n / 12, n % 12 + 1)
  {
    RangeOfIs(n);
    FirstDayStep(n);
    Forward(n + 1);
    hide FirstDay, DayOfMonth, DaysInMonth;
    var day := LocalDay(t, offset);
    assert FirstDay(n) * DAY_MS <= t + offset < (FirstDay(n + 1) + 1) * DAY_MS;
    assert FirstDay(n) <= day <= FirstDay(n + 1);
    if day < FirstDay(n + 1) {
      DayOfMonthIn(day, n);
    } else {
      DayOfMonthIn(day, n + 1);
    }
  }

  /** A day earlier lands on the last day of the month before. */
  lemma DayBefore(n: int, t: int, offset: int)
    requires n >= 1200 && -27 * HOUR_MS <= offset < -3 * HOUR_MS
    requires StartOf(n) <= t < StartOf(n + 1)
    ensures var day := DayOfMonth(LocalDay(t, offset));
            || 1 <= day <= DaysInMonth(n / 12, n % 12 + 1)
            || day == DaysInMonth((n - 1) / 12, (n - 1) % 12 + 1)
    ensures t == StartOf(n) ==> DayOfMonth(LocalDay(t, offset)) == DaysInMonth((n - 1) / 12, (n - 1) % 12 + 1)
  {
    FirstDayStep(n);
    FirstDayStep(n - 1);
    hide FirstDay, DayOfMonth, DaysInMonth;
    var day := LocalDay(t, offset);
    assert (FirstDay(n) - 1) * DAY_MS <= t + offset < FirstDay(n + 1) * DAY_MS;
    assert FirstDay(n) - 1 <= day < FirstDay(n + 1);
    assert t == StartOf(n) ==> day == FirstDay(n) - 1;
    if day < FirstDay(n) {
      DayOfMonthIn(day, n - 1);
    } else {
      DayOfMonthIn(day, n);
    }
  }

  ghost predicate Conserves(n: int, offset: int, os: seq<Opportunity>) {
    AllWithin(os, RangeOf(n)) ==> Sum(RealizedDaily(os, offset, MonthLength(n / 12, n % 12 + 1))) == Total(os)
  }

  lemma {:induction false} ListedConserves(os: seq<Opportunity>, offset: int, days: nat)
    requires forall o | o in os :: 1 <= DayOfMonth(LocalDay(EffectiveClose(o), offset)) <= days
    ensures Sum(RealizedDaily(os, offset, days)) == Total(os)
  {
    hide DayOfMonth;
    if os == [] {
      ZeroSum(RealizedDaily(os, offset, days));
    } else {
      assert os[|os| - 1] in os;
      OneMore(os, offset, days);
      ListedConserves(os[..|os| - 1], offset, days);
    }
  }

  lemma {:induction false} ZeroSum(s: seq<real>)
    requires forall i | 0 <= i < |s| :: s[i] == 0.0
    ensures Sum(s) == 0.0
  {
    if s != [] {
      ZeroSum(s[..|s| - 1]);
    }
  }

  function Midnight(day: int): int {
    day * DAY_MS
  }

  lemma DayOfInstant(x: int, day: int)
    requires Midnight(day) <= x < Midnight(day + 1)
    ensures x / DAY_MS == day
  {
    DivUnique(x, DAY_MS, day, x - day * DAY_MS);
  }

  /** A sale closed during the `d`-th local day of a month, on a server `offset` ahead of UTC, is in bucket `d` and in
      no other. */
  lemma SaleInBucket(o: Opportunity, offset: int, n: int, d: int)
    requires 1 <= d && FirstDay(n) + d - 1 < FirstDay(n + 1)
    requires Midnight(FirstDay(n) + d - 1) <= EffectiveClose(o) + offset < Midnight(FirstDay(n) + d)
    ensures forall e :: ClosesOn(o, offset, e) <==> e == d
  {
    hide DayOfMonth, FirstDay, Midnight, EffectiveClose;
    DayOfInstant(EffectiveClose(o) + offset, FirstDay(n) + d - 1);
    DayOfMonthIn(FirstDay(n) + d - 1, n);
  }

  /** On a server at UTC or UTC-3 (and anywhere from 3 hours behind to 21 ahead), the daily buckets add up to
      the won opportunities of the month: none falls between two days. */
  lemma BucketsConserve(n: int, offset: int, os: seq<Opportunity>)
    requires n >= 1200 && -3 * HOUR_MS <= offset <= 21 * HOUR_MS
    ensures Conserves(n, offset, os)
  {
    if AllWithin(os, RangeOf(n)) {
      forall o | o in os
        ensures 1 <= DayOfMonth(LocalDay(EffectiveClose(o), offset)) <= MonthLength(n / 12, n % 12 + 1) {
        assert Within(RangeOf(n), o);
        DayListed(n, EffectiveClose(o), offset);
      }
      hide DayOfMonth, MonthLength;
      ListedConserves(os, offset, MonthLength(n / 12, n % 12 + 1));
    }
  }

  /** Further behind UTC the first hours of the month fall on the last day of the month before, and the
      buckets conserve every list exactly when that day number exists in the month itself. */
  lemma BucketsConserveBehind(n: int, offset: int)
    requires n >= 1200 && -27 * HOUR_MS <= offset < -3 * HOUR_MS
    ensures (forall os :: Conserves(n, offset, os)) <==>
            DaysInMonth((n - 1) / 12, (n - 1) % 12 + 1) <= DaysInMonth(n / 12, n % 12 + 1)
  {
    RangeOfIs(n);
    FirstDayStep(n);
    hide *;
    if DaysInMonth((n - 1) / 12, (n - 1) % 12 + 1) <= DaysInMonth(n / 12, n % 12 + 1) {
      forall os ensures Conserves(n, offset, os) {
        ShorterMonthBefore(n, offset, os);
      }
    } else {
      LostAtStart(n, offset);
    }
  }

  lemma ShorterMonthBefore(n: int, offset: int, os: seq<Opportunity>)
    requires n >= 1200 && -27 * HOUR_MS <= offset < -3 * HOUR_MS
    requires DaysInMonth((n - 1) / 12, (n - 1) % 12 + 1) <= DaysInMonth(n / 12, n % 12 + 1)
    ensures Conserves(n, offset, os)
  {
    var days := DaysInMonth(n / 12, n % 12 + 1);
    RangeOfIs(n);
    FirstDayStep(n);
    FirstDayStep(n - 1);
    if AllWithin(os, RangeOf(n)) {
      forall o | o in os ensures 1 <= DayOfMonth(LocalDay(EffectiveClose(o), offset)) <= days {
        assert Within(RangeOf(n), o);
        DayBefore(n, EffectiveClose(o), offset);
      }
      hide DayOfMonth, DaysInMonth;
      ListedConserves(os, offset, days);
    }
  }

  /** A sale in the first instant of the month lands on a day number the month does not have. */
  lemma LostAtStart(n: int, offset: int)
    requires n >= 1200 && -27 * HOUR_MS <= offset < -3 * HOUR_MS
    requires DaysInMonth((n - 1) / 12, (n - 1) % 12 + 1) > DaysInMonth(n / 12, n % 12 + 1)
    requires StartOf(n) < StartOf(n + 1)
    ensures !Conserves(n, offset, [Opportunity(None, StartOf(n), 1.0)])
  {
    var o := Opportunity(None, StartOf(n), 1.0);
    var days := DaysInMonth(n / 12, n % 12 + 1);
    RangeOfIs(n);
    DayBefore(n, StartOf(n), offset);
    hide DayOfMonth, DaysInMonth, LocalDay, StartOf, RangeOf;
    OneMore([o], offset, days);
    assert [o][..0] == [];
    ZeroSum(RealizedDaily([], offset, days));
    assert Total([o]) == 1.0;
    assert Within(RangeOf(n), o) && AllWithin([o], RangeOf(n));
  }

  function Times(n: nat, x: real): real {
    n as real * x
  }

  lemma TimesStep(n: nat, x: real)
    ensures Times(0, x) == 0.0 && Times(n + 1, x) == Times(n, x) + x
  {
  }

  /** The objective series reaches the whole objective on the last day. */
  lemma {:induction false} ObjectivePrefix(first: int, days: nat, total: real, k: nat)
    requires k <= days
    ensures Sum(ObjectiveDaily(first, days, total)[..k])
            == Times(BusinessCount(first, k), Share(BusinessCount(first, days), total))
  {
    hide IsBusinessDay, Share, Times;
    TimesStep(BusinessCount(first, k), Share(BusinessCount(first, days), total));
    var s := ObjectiveDaily(first, days, total);
    if k > 0 {
      TimesStep(BusinessCount(first, k - 1), Share(BusinessCount(first, days), total));
      ObjectivePrefix(first, days, total, k - 1);
      assert s[..k][..k - 1] == s[..k - 1];
      assert s[..k][k - 1] == s[k - 1];
      assert first + (k - 1) == first + k - 1;
    }
  }

  lemma ObjectiveReached(year: int, month: int, total: real)
    requires 1 <= month <= 12
    ensures var days := MonthLength(year, month);
            var s := ObjectiveDaily(MakeDay(FullYear(year), month - 1, 1), days, total);
            days >= 28 && Accumulated(s)[days - 1] == total && Sum(s) == total
  {
    var first, days := MakeDay(FullYear(year), month - 1, 1), MonthLength(year, month);
    hide Times, Share;
    MonthHasTwenty(first, days);
    ObjectivePrefix(first, days, total, days);
    var s := ObjectiveDaily(first, days, total);
    assert s[..days] == s;
    hide BusinessCount, MakeDay, MonthLength, ObjectiveDaily;
    Shares(BusinessCount(first, days), total);
  }

  lemma Shares(n: nat, total: real)
    requires n > 0
    ensures Times(n, Share(n, total)) == total
  {
  }
}
