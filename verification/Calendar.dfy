/** Calendar windows. `Gmtime` and `Timegm` are the proleptic Gregorian calendar on
    whole seconds since 1970-01-01 00:00:00, for every integer time; a year is
    counted in full rather than from 1900. Time-zone offsets are whole hours. */
module Calendar {

  const DAY := 86400

  /** Broken-down time; months run from 0, days of the month from 1. */
  datatype Tm = Tm(year: int, mon: int, mday: int, hour: int, min: int, sec: int)

  // ---- the Gregorian calendar ----------------------------------------------

  predicate Leap(year: int) {
    year % 4 == 0 && (year % 100 != 0 || year % 400 == 0)
  }

  /** The day number, counted from 1970-01-01, of 1 January. */
  function YearStart(year: int): int {
    365 * (year - 1) + (year - 1) / 4 - (year - 1) / 100 + (year - 1) / 400 - 719162
  }

  function YearDays(year: int): int {
    if Leap(year) then 366 else 365
  }

  lemma QuotientStep(n: int, k: int)
    requires k > 1
    ensures n / k - (n - 1) / k == if n % k == 0 then 1 else 0
  {
    var q, r := n / k, n % k;
    assert n == k * q + r;
    if r == 0 {
      assert n - 1 == k * (q - 1) + (k - 1);
      QuotientIs(n - 1, k, q - 1, k - 1);
    } else {
      QuotientIs(n - 1, k, q, r - 1);
    }
  }

  lemma QuotientIs(n: int, k: int, q: int, r: int)
    requires k > 0 && n == k * q + r && 0 <= r < k
    ensures n / k == q && n % k == r
  {
    var d := q - n / k;
    assert k * d == n % k - r;
    assert d > 0 ==> k * d >= k;
    assert d < 0 ==> k * d <= -k;
  }

  lemma YearStartNext(year: int)
    ensures YearStart(year + 1) == YearStart(year) + YearDays(year)
  {
    QuotientStep(year, 4);
    QuotientStep(year, 100);
    QuotientStep(year, 400);
    assert year % 400 == 0 ==> year % 100 == 0;
    assert year % 100 == 0 ==> year % 4 == 0;
  }

  lemma {:induction false} YearStartGrows(a: int, b: int)
    requires a <= b
    ensures YearStart(a) + 365 * (b - a) <= YearStart(b)
    decreases b - a
  {
    if a < b {
      YearStartNext(a);
      YearStartGrows(a + 1, b);
    }
  }

  /** Days of the year before a month. */
  function DaysBefore(year: int, mon: int): int
    requires 0 <= mon <= 12
  {
    var common := [0, 31, 59, 90, 120, 151, 181, 212, 243, 273, 304, 334, 365];
    common[mon] + if mon >= 2 && Leap(year) then 1 else 0
  }

  function MonthStart(year: int, mon: int): int
    requires 0 <= mon <= 12
  {
    YearStart(year) + DaysBefore(year, mon)
  }

  function MonthDays(year: int, mon: int): int
    requires 0 <= mon < 12
  {
    DaysBefore(year, mon + 1) - DaysBefore(year, mon)
  }

  /** The month after a month. */
  function NextMonth(year: int, mon: int): (int, int)
    requires 0 <= mon < 12
  {
    if mon == 11 then (year + 1, 0) else (year, mon + 1)
  }

  predicate ValidTm(tm: Tm) {
    && 0 <= tm.mon < 12
    && 1 <= tm.mday <= MonthDays(tm.year, tm.mon)
    && 0 <= tm.hour < 24 && 0 <= tm.min < 60 && 0 <= tm.sec < 60
  }

  function Timegm(tm: Tm): int
    requires ValidTm(tm)
  {
    (MonthStart(tm.year, tm.mon) + tm.mday - 1) * DAY + tm.hour * 3600 + tm.min * 60 + tm.sec
  }

  /** The year a day lies in: an estimate from the 400-year cycle, off by at most one. */
  function YearOf(day: int): (year: int)
    ensures YearStart(year) <= day < YearStart(year + 1)
  {
    var z := day + 719162;
    var guess := z * 400 / 146097 + 1;
    YearStartNext(guess - 1);
    YearStartNext(guess);
    YearStartNext(guess + 1);
    if day < YearStart(guess) then guess - 1
    else if day < YearStart(guess + 1) then guess
    else guess + 1
  }

  /** The month a day of the year lies in, searched from month `mon` on. */
  function MonthOf(year: int, yday: int, mon: int): (m: int)
    requires 0 <= mon < 12
    requires DaysBefore(year, mon) <= yday < YearDays(year)
    ensures 0 <= m < 12
    ensures DaysBefore(year, m) <= yday < DaysBefore(year, m + 1)
    decreases 12 - mon
  {
    if mon == 11 || yday < DaysBefore(year, mon + 1) then mon else MonthOf(year, yday, mon + 1)
  }

  lemma TimeOfDay(day: int, secs: int, tm: Tm)
    requires ValidTm(tm) && 0 <= secs < DAY && MonthStart(tm.year, tm.mon) + tm.mday - 1 == day
    requires tm.hour == secs / 3600 && tm.min == secs % 3600 / 60 && tm.sec == secs % 60
    ensures Timegm(tm) == day * DAY + secs
  {
    hide MonthStart; hide ValidTm;
  }

  function Gmtime(t: int): (tm: Tm)
    ensures ValidTm(tm)
    ensures Timegm(tm) == t
  {
    var day := t / DAY;
    var secs := t % DAY;
    var year := YearOf(day);
    YearStartNext(year);
    var yday := day - YearStart(year);
    var mon := MonthOf(year, yday, 0);
    var tm := Tm(year, mon, yday - DaysBefore(year, mon) + 1, secs / 3600, secs % 3600 / 60, secs % 60);
    TimeOfDay(day, secs, tm);
    tm
  }

  /** A month starts where the month before it ends. */
  lemma NextMonthStart(year: int, mon: int)
    requires 0 <= mon < 12
    ensures var (y, m) := NextMonth(year, mon); MonthStart(y, m) == MonthStart(year, mon) + MonthDays(year, mon)
  {
    YearStartNext(year);
  }

  lemma YearIsUnique(day: int, y1: int, y2: int)
    requires YearStart(y1) <= day < YearStart(y1) + YearDays(y1)
    requires YearStart(y2) <= day < YearStart(y2) + YearDays(y2)
    ensures y1 == y2
  {
    YearStartNext(y1);
    YearStartNext(y2);
    if y1 < y2 {
      YearStartGrows(y1 + 1, y2);
    } else if y2 < y1 {
      YearStartGrows(y2 + 1, y1);
    }
  }

  /** A day lies in one month only. */
  lemma MonthIsUnique(day: int, y1: int, m1: int, y2: int, m2: int)
    requires 0 <= m1 < 12 && MonthStart(y1, m1) <= day < MonthStart(y1, m1) + MonthDays(y1, m1)
    requires 0 <= m2 < 12 && MonthStart(y2, m2) <= day < MonthStart(y2, m2) + MonthDays(y2, m2)
    ensures y1 == y2 && m1 == m2
  {
    hide YearStart; hide Leap;
    YearIsUnique(day, y1, y2);
  }

  /** Broken-down time and seconds determine each other. */
  lemma GmtimeOfTimegm(tm: Tm)
    requires ValidTm(tm)
    ensures Gmtime(Timegm(tm)) == tm
  {
    var t := Timegm(tm);
    var back := Gmtime(t);
    var secs := tm.hour * 3600 + tm.min * 60 + tm.sec;
    var day := MonthStart(tm.year, tm.mon) + tm.mday - 1;
    var day' := MonthStart(back.year, back.mon) + back.mday - 1;
    var secs' := back.hour * 3600 + back.min * 60 + back.sec;
    assert 0 <= secs < DAY && 0 <= secs' < DAY;
    assert day * DAY + secs == day' * DAY + secs';
    assert day == day' && secs == secs';
    MonthIsUnique(day, tm.year, tm.mon, back.year, back.mon);
  }

  // ---- windows in an account's time zone --------------------------------------

  /** Start of the day of `timestamp` in the given zone. */
  function GetTday(timestamp: int, zone: int): int {
    var tm := Gmtime(timestamp + 3600 * zone);
    Timegm(tm.(hour := 0, min := 0, sec := 0)) - 3600 * zone
  }

  function GetTdayEnd(timestamp: int, zone: int): int {
    GetTday(timestamp, zone) + 86399
  }

  /** Start of the month of `timestamp` in the given zone. */
  function GetTmonth(timestamp: int, zone: int): int {
    var tm := Gmtime(timestamp + 3600 * zone);
    Timegm(tm.(mday := 1, hour := 0, min := 0, sec := 0)) - 3600 * zone
  }

  /** Last second of the month of `timestamp` in the given zone. */
  function GetTmonthEnd(timestamp: int, zone: int): int {
    var tm := Gmtime(timestamp + 3600 * zone);
    var (year, mon) := NextMonth(tm.year, tm.mon);
    Timegm(Tm(year, mon, 1, 0, 0, 0)) - 1 - 3600 * zone
  }

  /** The start of the month lies whole days and a time of day before a moment. */
  lemma MomentInMonth(tm: Tm)
    requires ValidTm(tm)
    ensures 28 <= MonthDays(tm.year, tm.mon) <= 31
    ensures Timegm(tm) == MonthStart(tm.year, tm.mon) * DAY + (tm.mday - 1) * DAY + tm.hour * 3600 + tm.min * 60 +
            tm.sec
    ensures Timegm(tm.(hour := 0, min := 0, sec := 0)) == (MonthStart(tm.year, tm.mon) + tm.mday - 1) * DAY
    ensures Timegm(tm.(mday := 1, hour := 0, min := 0, sec := 0)) == MonthStart(tm.year, tm.mon) * DAY
    ensures 0 <= tm.hour * 3600 + tm.min * 60 + tm.sec < DAY
  {
  }

  lemma MonthBounds(tm: Tm)
    requires ValidTm(tm)
    ensures Timegm(tm.(mday := 1, hour := 0, min := 0, sec := 0)) <= Timegm(tm)
    ensures var (year, mon) := NextMonth(tm.year, tm.mon);
            var next := Timegm(Tm(year, mon, 1, 0, 0, 0));
            && Timegm(tm) < next
            && 28 * DAY <= next - Timegm(tm.(mday := 1, hour := 0, min := 0, sec := 0)) <= 31 * DAY
  {
    MomentInMonth(tm);
    NextMonthStart(tm.year, tm.mon);
    var (year, mon) := NextMonth(tm.year, tm.mon);
    assert Timegm(Tm(year, mon, 1, 0, 0, 0)) == MonthStart(year, mon) * DAY;
  }

  lemma DayBounds(tm: Tm)
    requires ValidTm(tm)
    ensures var start := Timegm(tm.(hour := 0, min := 0, sec := 0));
            start <= Timegm(tm) < start + DAY && start % DAY == 0
  {
    hide Timegm; hide MonthStart; hide MonthDays;
    MomentInMonth(tm);
  }

  /** A time lies in its own month, and the month has 28 to 31 days. */
  lemma MonthHoldsTime(t: int, zone: int)
    ensures GetTmonth(t, zone) <= t <= GetTmonthEnd(t, zone)
    ensures 28 * DAY <= GetTmonthEnd(t, zone) + 1 - GetTmonth(t, zone) <= 31 * DAY
  {
    MonthBounds(Gmtime(t + 3600 * zone));
  }

  /** Every time inside a month window has that same window. */
  lemma MonthWindowIsShared(t: int, u: int, zone: int)
    requires GetTmonth(t, zone) <= u <= GetTmonthEnd(t, zone)
    ensures GetTmonth(u, zone) == GetTmonth(t, zone)
    ensures GetTmonthEnd(u, zone) == GetTmonthEnd(t, zone)
  {
    var a := Gmtime(t + 3600 * zone);
    var b := Gmtime(u + 3600 * zone);
    NextMonthStart(a.year, a.mon);
    var day := MonthStart(b.year, b.mon) + b.mday - 1;
    MonthIsUnique(day, a.year, a.mon, b.year, b.mon);
  }

  /** The windows tile the time line: one ends a second before the next begins. */
  lemma MonthsTile(t: int, zone: int)
    ensures GetTmonth(GetTmonthEnd(t, zone) + 1, zone) == GetTmonthEnd(t, zone) + 1
  {
    var tm := Gmtime(t + 3600 * zone);
    var (year, mon) := NextMonth(tm.year, tm.mon);
    GmtimeOfTimegm(Tm(year, mon, 1, 0, 0, 0));
  }

  /** Two month windows of one zone are the same, or do not meet and begin at least 28 days apart. */
  lemma MonthsApart(t: int, u: int, zone: int)
    ensures (GetTmonth(t, zone) == GetTmonth(u, zone) && GetTmonthEnd(t, zone) == GetTmonthEnd(u, zone))
         || (GetTmonthEnd(t, zone) < GetTmonth(u, zone) && GetTmonth(t, zone) + 28 * DAY <= GetTmonth(u, zone))
         || (GetTmonthEnd(u, zone) < GetTmonth(t, zone) && GetTmonth(u, zone) + 28 * DAY <= GetTmonth(t, zone))
  {
    hide GetTmonth, GetTmonthEnd;
    MonthHoldsTime(t, zone);
    MonthHoldsTime(u, zone);
    if GetTmonth(t, zone) <= GetTmonth(u, zone) <= GetTmonthEnd(t, zone) {
      MonthWindowIsShared(t, GetTmonth(u, zone), zone);
      MonthWindowIsShared(u, GetTmonth(u, zone), zone);
    } else if GetTmonth(u, zone) <= GetTmonth(t, zone) <= GetTmonthEnd(u, zone) {
      MonthWindowIsShared(u, GetTmonth(t, zone), zone);
      MonthWindowIsShared(t, GetTmonth(t, zone), zone);
    }
  }

  /** Days tile the time line too: a whole number of days, 86400 seconds each. */
  lemma DayHoldsTime(t: int, zone: int)
    ensures GetTday(t, zone) <= t <= GetTdayEnd(t, zone)
    ensures (GetTday(t, zone) + 3600 * zone) % DAY == 0
  {
    DayBounds(Gmtime(t + 3600 * zone));
  }

  lemma WholeDaysApart(a: int, b: int)
    requires a % DAY == 0 && b % DAY == 0
    ensures a == b || a + DAY <= b || b + DAY <= a
  {
    assert a == a / DAY * DAY && b == b / DAY * DAY;
  }

  lemma DaysApart(t: int, u: int, zone: int)
    ensures GetTday(t, zone) == GetTday(u, zone)
         || GetTday(t, zone) + DAY <= GetTday(u, zone)
         || GetTday(u, zone) + DAY <= GetTday(t, zone)
  {
    DayHoldsTime(t, zone);
    DayHoldsTime(u, zone);
    WholeDaysApart(GetTday(t, zone) + 3600 * zone, GetTday(u, zone) + 3600 * zone);
  }

  /** The month a call is stored under is worked out by subtraction; it is the
      month window of its connect time in UTC. */
  function StorageMonth(connectTime: int): int {
    var tm := Gmtime(connectTime);
    var dtDay := connectTime - tm.hour * 3600 - tm.min * 60 - tm.sec;
    dtDay - (tm.mday - 1) * DAY
  }

  lemma StorageMonthIsMonth(connectTime: int)
    ensures StorageMonth(connectTime) == GetTmonth(connectTime, 0)
  {
    var tm := Gmtime(connectTime);
    var first := tm.(mday := 1, hour := 0, min := 0, sec := 0);
    assert Timegm(tm) == connectTime;
    assert Timegm(first) == MonthStart(tm.year, tm.mon) * DAY;
  }
}
