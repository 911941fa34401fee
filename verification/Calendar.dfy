/** The proleptic Gregorian calendar, stated independently of the arithmetic in datetime.zig:
    a date is reached from 1970-01-01 by stepping one day at a time. `DayNumber` is the closed
    form of that count, and the lemmas here show that the two agree. */
module Calendar {
  import opened Arith

  type i16 = x: int | -0x8000 <= x < 0x8000
  type u8 = x: int | 0 <= x < 0x100
  type u32 = x: int | 0 <= x < 0x1_0000_0000
  type i64 = x: int | -0x8000_0000_0000_0000 <= x < 0x8000_0000_0000_0000

  datatype Date = Date(year: i16, month: u8, day: u8)
  datatype Time = Time(hour: u8, min: u8, sec: u8, micros: u32)
  datatype Order = Lt | Eq | Gt

  const EPOCH := Date(1970, 1, 1)

  predicate LeapYear(year: int) {
    year % 400 == 0 || (year % 100 != 0 && year % 4 == 0)
  }

  function DaysInMonth(year: int, month: int): (n: int)
    requires 1 <= month <= 12
    ensures 28 <= n <= 31
  {
    if month == 2 then (if LeapYear(year) then 29 else 28)
    else if month in {4, 6, 9, 11} then 30
    else 31
  }

  predicate ValidDate(d: Date) {
    1 <= d.month <= 12 && 1 <= d.day <= DaysInMonth(d.year, d.month)
  }

  predicate ValidTime(t: Time) {
    t.hour <= 23 && t.min <= 59 && t.sec <= 59 && t.micros <= 999_999
  }

  /** The years for which every date and its neighbours have an i16 year. */
  predicate SafeYear(year: int) { -0x7fff <= year <= 0x7ffe }

  function NextDay(d: Date): (r: Date)
    requires ValidDate(d) && SafeYear(d.year)
    ensures ValidDate(r)
  {
    if d.day < DaysInMonth(d.year, d.month) then Date(d.year, d.month, d.day + 1)
    else if d.month < 12 then Date(d.year, d.month + 1, 1)
    else Date(d.year + 1, 1, 1)
  }

  function PrevDay(d: Date): (r: Date)
    requires ValidDate(d) && SafeYear(d.year)
    ensures ValidDate(r)
  {
    if d.day > 1 then Date(d.year, d.month, d.day - 1)
    else if d.month > 1 then Date(d.year, d.month - 1, DaysInMonth(d.year, d.month - 1))
    else Date(d.year - 1, 12, 31)
  }

  /** How many leap years lie in 1..year, extended below year 1. */
  function LeapCount(year: int): int { year / 4 - year / 100 + year / 400 }

  /** Days from 1970-01-01 to January 1 of `year`. */
  function YearStart(year: int): int { 365 * (year - 1970) + LeapCount(year - 1) - 477 }

  /** Days from January 1 to the first of `month`. */
  function MonthStart(year: int, month: int): int
    requires 1 <= month <= 12
    decreases month
  {
    if month == 1 then 0 else MonthStart(year, month - 1) + DaysInMonth(year, month - 1)
  }

  function DayNumber(d: Date): int
    requires ValidDate(d)
  {
    YearStart(d.year) + MonthStart(d.year, d.month) + d.day - 1
  }

  function LeapDay(year: int): int { if LeapYear(year) then 1 else 0 }

  lemma LeapStep(year: int)
    ensures LeapCount(year) == LeapCount(year - 1) + LeapDay(year)
    ensures YearStart(year + 1) == YearStart(year) + 365 + LeapDay(year)
  {
    QuotientStep(year, 4);
    QuotientStep(year, 100);
    QuotientStep(year, 400);
    if year % 400 == 0 { Quotient(year, 100, 4 * (year / 400), 0); }
    if year % 100 == 0 { Quotient(year, 4, 25 * (year / 100), 0); }
  }

  /** `y / k` grows exactly at the multiples of k. */
  lemma QuotientStep(y: int, k: int)
    requires k > 1
    ensures y / k == (y - 1) / k + (if y % k == 0 then 1 else 0)
  {
    var q, r := y / k, y % k;
    if r == 0 {
      Quotient(y - 1, k, q - 1, k - 1);
    } else {
      Quotient(y - 1, k, q, r - 1);
    }
  }

  lemma MonthStarts(year: int)
    ensures MonthStart(year, 1) == 0
    ensures MonthStart(year, 2) == 31
    ensures var f := LeapDay(year);
            && MonthStart(year, 3) == 59 + f && MonthStart(year, 4) == 90 + f
            && MonthStart(year, 5) == 120 + f && MonthStart(year, 6) == 151 + f
            && MonthStart(year, 7) == 181 + f && MonthStart(year, 8) == 212 + f
            && MonthStart(year, 9) == 243 + f && MonthStart(year, 10) == 273 + f
            && MonthStart(year, 11) == 304 + f && MonthStart(year, 12) == 334 + f
  {
    assert MonthStart(year, 2) == 31;
    assert MonthStart(year, 3) == 59 + LeapDay(year);
    assert MonthStart(year, 5) == 120 + LeapDay(year);
    assert MonthStart(year, 7) == 181 + LeapDay(year);
    assert MonthStart(year, 9) == 243 + LeapDay(year);
    assert MonthStart(year, 11) == 304 + LeapDay(year);
  }

  /** Stepping a day adds one to the day number, across month, year and leap boundaries. */
  lemma NextDayCounts(d: Date)
    requires ValidDate(d) && SafeYear(d.year)
    ensures DayNumber(NextDay(d)) == DayNumber(d) + 1
  {
    if d.day < DaysInMonth(d.year, d.month) {
    } else if d.month < 12 {
      assert MonthStart(d.year, d.month + 1) == MonthStart(d.year, d.month) + DaysInMonth(d.year, d.month);
    } else {
      MonthStarts(d.year);
      LeapStep(d.year);
    }
  }

  lemma PrevDayCounts(d: Date)
    requires ValidDate(d) && SafeYear(d.year)
    ensures DayNumber(PrevDay(d)) == DayNumber(d) - 1
  {
    if d.day > 1 {
    } else if d.month > 1 {
      assert MonthStart(d.year, d.month) == MonthStart(d.year, d.month - 1) + DaysInMonth(d.year, d.month - 1);
    } else {
      MonthStarts(d.year - 1);
      LeapStep(d.year - 1);
    }
  }

  function CompareInt(a: int, b: int): Order {
    if a < b then Lt else if a == b then Eq else Gt
  }

  function DateOrder(a: Date, b: Date): Order {
    var byYear := CompareInt(a.year, b.year);
    if byYear != Eq then byYear else
      var byMonth := CompareInt(a.month, b.month);
      if byMonth != Eq then byMonth else CompareInt(a.day, b.day)
  }

  function TimeOrder(a: Time, b: Time): Order {
    var byHour := CompareInt(a.hour, b.hour);
    if byHour != Eq then byHour else
      var byMin := CompareInt(a.min, b.min);
      if byMin != Eq then byMin else
        var bySec := CompareInt(a.sec, b.sec);
        if bySec != Eq then bySec else CompareInt(a.micros, b.micros)
  }

  lemma YearStartMonotone(y: int, z: int)
    requires y <= z
    ensures YearStart(y) + 365 * (z - y) <= YearStart(z)
    decreases z - y
  {
    if y < z {
      LeapStep(y);
      YearStartMonotone(y + 1, z);
    }
  }

  lemma WithinYear(d: Date)
    requires ValidDate(d)
    ensures YearStart(d.year) <= DayNumber(d) < YearStart(d.year + 1)
  {
    MonthStarts(d.year);
    LeapStep(d.year);
  }

  lemma EarlierYear(a: Date, b: Date)
    requires ValidDate(a) && ValidDate(b) && a.year < b.year
    ensures DayNumber(a) < DayNumber(b)
  {
    WithinYear(a);
    WithinYear(b);
    YearStartMonotone(a.year + 1, b.year);
  }

  /** The calendar order of valid dates is the order of their day numbers, so a day number
      names at most one date. */
  lemma OrderIsDayOrder(a: Date, b: Date)
    requires ValidDate(a) && ValidDate(b)
    ensures DateOrder(a, b) == CompareInt(DayNumber(a), DayNumber(b))
    ensures DateOrder(a, b).Lt? <==> DayNumber(a) < DayNumber(b)
    ensures DayNumber(a) == DayNumber(b) ==> a == b
  {
    if a.year < b.year {
      EarlierYear(a, b);
    } else if b.year < a.year {
      EarlierYear(b, a);
    } else {
      MonthStarts(a.year);
    }
  }

  const FIRST_DAY := -2_440_550  // -4712-01-01
  const LAST_DAY := 2_932_896    // 9999-12-31

  /** The `n`-th day, counted from 1970-01-01 one calendar step at a time. */
  function DateAt(n: int): (d: Date)
    requires FIRST_DAY - 1 <= n <= LAST_DAY + 1
    ensures ValidDate(d) && DayNumber(d) == n && -4713 <= d.year <= 10000
    decreases if n < 0 then -n else n
  {
    if n == 0 then
      EPOCH
    else if n > 0 then
      var p := DateAt(n - 1);
      assert DayNumber(NextDay(p)) == n by { NextDayCounts(p); }
      assert NextDay(p).year <= 10000 by { YearBounds(NextDay(p)); }
      NextDay(p)
    else
      var p := DateAt(n + 1);
      assert DayNumber(PrevDay(p)) == n by { PrevDayCounts(p); }
      assert -4713 <= PrevDay(p).year by { YearBounds(PrevDay(p)); }
      PrevDay(p)
  }

  lemma YearBounds(d: Date)
    requires ValidDate(d)
    ensures FIRST_DAY - 1 <= DayNumber(d) ==> -4713 <= d.year
    ensures DayNumber(d) <= LAST_DAY + 1 ==> d.year <= 10000
    ensures FIRST_DAY <= DayNumber(d) <= LAST_DAY <==> -4712 <= d.year <= 9999
    ensures 0 <= DayNumber(d) <==> 1970 <= d.year
  {
    WithinYear(d);
    assert YearStart(-4712) == FIRST_DAY;
    assert YearStart(10000) == LAST_DAY + 1;
    assert YearStart(1970) == 0;
    if d.year < -4713 { YearStartMonotone(d.year + 1, -4713); YearStartMonotone(-4713, -4712); }
    if d.year < -4712 { YearStartMonotone(d.year + 1, -4712); } else { YearStartMonotone(-4712, d.year); }
    if d.year > 10000 { YearStartMonotone(10001, d.year); YearStartMonotone(10000, 10001); }
    if d.year > 9999 { YearStartMonotone(10000, d.year); } else { YearStartMonotone(d.year + 1, 10000); }
    if d.year < 1970 { YearStartMonotone(d.year + 1, 1970); } else { YearStartMonotone(1970, d.year); }
  }

  /** `DateAt` is the inverse of `DayNumber` on the Julian-period years. */
  lemma DateAtInverts(d: Date)
    requires ValidDate(d) && -4712 <= d.year <= 9999
    ensures FIRST_DAY <= DayNumber(d) <= LAST_DAY && DateAt(DayNumber(d)) == d
  {
    YearBounds(d);
    OrderIsDayOrder(DateAt(DayNumber(d)), d);
  }

  /** `DateAt` walks the calendar: from any day of the period, before or after 1970, the next index
      names the next day. */
  lemma DateAtSteps(n: int)
    requires FIRST_DAY - 1 <= n <= LAST_DAY
    ensures DateAt(n + 1) == NextDay(DateAt(n))
  {
    NextDayCounts(DateAt(n));
    OrderIsDayOrder(DateAt(n + 1), NextDay(DateAt(n)));
  }
}
