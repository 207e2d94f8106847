// The proleptic Gregorian calendar behind gmtime() and timegm(), for every integer time.
module Calendar {

  predicate IsLeap(y: int) { y % 4 == 0 && (y % 100 != 0 || y % 400 == 0) }

  function YearLength(y: int): nat { if IsLeap(y) then 366 else 365 }

  // Days from 1 January of year 0 to 1 January of year `y`.
  function DaysBeforeYear(y: int): int { 365 * y + (y + 3) / 4 - (y + 99) / 100 + (y + 399) / 400 }

  lemma {:induction false} YearStep(y: int)
    ensures DaysBeforeYear(y + 1) == DaysBeforeYear(y) + YearLength(y)
  {
    MultipleStep4(y);
    MultipleStep100(y);
    MultipleStep400(y);
  }

  lemma {:induction false} MultipleStep4(y: int)
    ensures (y + 4) / 4 - (y + 3) / 4 == if y % 4 == 0 then 1 else 0
  {
    var q, r := y / 4, y % 4;
    assert y == 4 * q + r;
  }

  lemma {:induction false} MultipleStep100(y: int)
    ensures (y + 100) / 100 - (y + 99) / 100 == if y % 100 == 0 then 1 else 0
    ensures y % 100 == 0 ==> y % 4 == 0
  {
    HundredStep(y, y / 100, y % 100);
    if y % 100 == 0 {
      FourthOf(y, 25 * (y / 100));
    }
  }

  lemma {:induction false} HundredStep(y: int, q: int, r: int)
    requires y == 100 * q + r && 0 <= r < 100
    ensures (y + 100) / 100 == q + 1 && (y + 99) / 100 == if r == 0 then q else q + 1
  {
  }

  lemma {:induction false} FourthOf(y: int, q: int)
    requires y == 4 * q
    ensures y % 4 == 0
  {
  }

  lemma {:induction false} MultipleStep400(y: int)
    ensures (y + 400) / 400 - (y + 399) / 400 == if y % 400 == 0 then 1 else 0
    ensures y % 400 == 0 ==> y % 100 == 0
  {
    var q, r := y / 400, y % 400;
    assert y == 400 * q + r && (y + 400) / 400 == q + 1;
    assert r == 0 ==> y == 100 * (4 * q);
  }

  lemma {:induction false} YearsApart(a: int, b: int)
    requires a < b
    ensures DaysBeforeYear(a + 1) <= DaysBeforeYear(b)
    decreases b - a
  {
    if a + 1 < b {
      YearsApart(a + 1, b);
      YearStep(a + 1);
    }
  }

  function MonthLength(y: int, m: nat): nat
    requires m < 12
  {
    if m == 1 then (if IsLeap(y) then 29 else 28)
    else if m == 3 || m == 5 || m == 8 || m == 10 then 30
    else 31
  }

  function DaysBeforeMonth(y: int, m: nat): nat
    requires m <= 12
  {
    if m == 0 then 0 else DaysBeforeMonth(y, m - 1) + MonthLength(y, m - 1)
  }

  lemma {:induction false} MonthsFillYear(y: int)
    ensures DaysBeforeMonth(y, 12) == YearLength(y)
  {
    var february := MonthLength(y, 1);
    assert DaysBeforeMonth(y, 1) == 31;
    assert DaysBeforeMonth(y, 2) == 31 + february;
    assert DaysBeforeMonth(y, 4) == 92 + february;
    assert DaysBeforeMonth(y, 6) == 153 + february;
    assert DaysBeforeMonth(y, 8) == 215 + february;
    assert DaysBeforeMonth(y, 10) == 276 + february;
  }

  const EPOCH_DAYS: int := 719528   // 1 January 1970, counted from year 0

  // The calendar fields of an instant; `year` is the full year and `mon` counts from 0.
  datatype Tm = Tm(sec: int, min: int, hour: int, mday: int, mon: int, year: int, wday: int)

  predicate Canonical(tm: Tm)
  {
    && 0 <= tm.sec < 60 && 0 <= tm.min < 60 && 0 <= tm.hour < 24
    && 0 <= tm.mon < 12 && 1 <= tm.mday <= MonthLength(tm.year, tm.mon)
    && tm.wday == (Days(tm.year, tm.mon, tm.mday) + 4) % 7
  }

  // Days since the epoch; a day past the end of its month runs into the next one.
  function Days(year: int, mon: int, mday: int): int
    requires 0 <= mon < 12
  {
    DaysBeforeYear(year) + DaysBeforeMonth(year, mon) + mday - 1 - EPOCH_DAYS
  }

  function TimeGm(tm: Tm): int
    requires 0 <= tm.mon < 12
  {
    86400 * Days(tm.year, tm.mon, tm.mday) + 3600 * tm.hour + 60 * tm.min + tm.sec
  }

  // The year a day count falls in, searched down and then up from `y`.
  function YearDown(n: int, y: int): (r: int)
    ensures DaysBeforeYear(r) <= n
    decreases DaysBeforeYear(y) - n
  {
    if DaysBeforeYear(y) <= n then y else YearStep(y - 1); YearDown(n, y - 1)
  }

  function YearUp(n: int, y: int): (r: int)
    requires DaysBeforeYear(y) <= n
    ensures DaysBeforeYear(r) <= n < DaysBeforeYear(r + 1)
    decreases n - DaysBeforeYear(y)
  {
    if n < DaysBeforeYear(y + 1) then y else YearStep(y); YearUp(n, y + 1)
  }

  function MonthUp(y: int, day: nat, m: nat): (r: nat)
    requires m < 12 && DaysBeforeMonth(y, m) <= day < DaysBeforeMonth(y, 12)
    ensures r < 12 && DaysBeforeMonth(y, r) <= day < DaysBeforeMonth(y, r) + MonthLength(y, r)
    decreases 12 - m
  {
    if day < DaysBeforeMonth(y, m + 1) then m else MonthUp(y, day, m + 1)
  }

  function GmTime(t: int): (tm: Tm)
    ensures Canonical(tm) && TimeGm(tm) == t
  {
    var date := DateOf(t / 86400);
    var rest := t % 86400;
    ClockParts(rest);
    date.(sec := rest % 60, min := rest / 60 % 60, hour := rest / 3600)
  }

  lemma {:induction false} ClockParts(rest: nat)
    requires rest < 86400
    ensures rest / 3600 < 24 && 3600 * (rest / 3600) + 60 * (rest / 60 % 60) + rest % 60 == rest
  {
    var hour, minute := rest / 3600, rest / 60;
    assert minute / 60 == hour;
  }

  // Midnight of a day.
  function DateOf(days: int): (tm: Tm)
    ensures Canonical(tm) && Days(tm.year, tm.mon, tm.mday) == days
  {
    var n := days + EPOCH_DAYS;
    var year := YearUp(n, YearDown(n, 1970));
    YearStep(year);
    MonthsFillYear(year);
    var day := n - DaysBeforeYear(year);
    var mon := MonthUp(year, day, 0);
    Tm(0, 0, 0, day - DaysBeforeMonth(year, mon) + 1, mon, year, (days + 4) % 7)
  }

  // A day within a year determines that year.
  lemma {:induction false} SameYear(n: int, a: int, b: int)
    requires DaysBeforeYear(a) <= n < DaysBeforeYear(a + 1)
    requires DaysBeforeYear(b) <= n < DaysBeforeYear(b + 1)
    ensures a == b
  {
    if a < b {
      YearsApart(a, b);
    } else if b < a {
      YearsApart(b, a);
    }
  }

  lemma {:induction false} MonthsGrow(y: int, a: nat, b: nat)
    requires a < b <= 12
    ensures DaysBeforeMonth(y, a) + MonthLength(y, a) <= DaysBeforeMonth(y, b)
    decreases b - a
  {
    if a + 1 < b {
      MonthsGrow(y, a, b - 1);
    }
  }

  lemma {:induction false} WithinYear(tm: Tm)
    requires Canonical(tm)
    ensures DaysBeforeYear(tm.year) <= Days(tm.year, tm.mon, tm.mday) + EPOCH_DAYS < DaysBeforeYear(tm.year + 1)
  {
    YearStep(tm.year);
    MonthsFillYear(tm.year);
    MonthsGrow(tm.year, tm.mon, 12);
  }

  // The calendar fields of an instant are unique, so gmtime() is the inverse of timegm().
  lemma {:induction false} UniqueFields(a: Tm, b: Tm)
    requires Canonical(a) && Canonical(b) && TimeGm(a) == TimeGm(b)
    ensures a == b
  {
    SameClock(a, b);
    assert a.year == b.year by {
      WithinYear(a);
      WithinYear(b);
      SameYear(Days(a.year, a.mon, a.mday) + EPOCH_DAYS, a.year, b.year);
    }
    if a.mon < b.mon {
      MonthsGrow(a.year, a.mon, b.mon);
    } else if b.mon < a.mon {
      MonthsGrow(a.year, b.mon, a.mon);
    }
  }

  lemma {:induction false} ClockSplit(d: int, h: int, m: int, s: int, e: int, i: int, n: int, t: int)
    requires 0 <= h < 24 && 0 <= m < 60 && 0 <= s < 60 && 0 <= i < 24 && 0 <= n < 60 && 0 <= t < 60
    requires 86400 * d + 3600 * h + 60 * m + s == 86400 * e + 3600 * i + 60 * n + t
    ensures d == e && h == i && m == n && s == t
  {
    assert 0 <= 3600 * h + 60 * m + s < 86400 && 0 <= 3600 * i + 60 * n + t < 86400;
    assert d == e;
    assert 0 <= 60 * m + s < 3600 && 0 <= 60 * n + t < 3600;
    assert h == i;
  }

  lemma {:induction false} SameClock(a: Tm, b: Tm)
    requires Canonical(a) && Canonical(b) && TimeGm(a) == TimeGm(b)
    ensures Days(a.year, a.mon, a.mday) == Days(b.year, b.mon, b.mday)
    ensures a.sec == b.sec && a.min == b.min && a.hour == b.hour
  {
    ClockSplit(Days(a.year, a.mon, a.mday), a.hour, a.min, a.sec, Days(b.year, b.mon, b.mday), b.hour, b.min, b.sec);
  }
}
