/** Instants as microseconds since 1970-01-01T00:00:00Z: the encoder `InitUTC`, which counts days
    with a multiply-and-shift over March-based months, and the decoders `DateOf` and `TimeOf`,
    which peel off 400, 100, 4 and 1 year cycles. */
module DateTimes {
  import opened Arith
  import opened Calendar

  datatype DateTime = DateTime(micros: i64)
  datatype Error = InvalidDate | InvalidTime | InvalidDateTime | OutsideJulianPeriod | NonUTCNotSupported
  datatype Result<+T> = Ok(value: T) | Err(error: Error)
  datatype Precision = Seconds | Milliseconds | Microseconds
  datatype TimeUnit = Days | Hours | Minutes | Secs | Millis | Micros

  const DAY := 86_400_000_000
  const HOUR := 3_600_000_000
  const MINUTE := 60_000_000
  const SECOND := 1_000_000
  const FIRST_MICRO := -210_863_520_000_000_000
  const LAST_MICRO := 253_402_300_799_999_999

  predicate InJulianPeriod(micros: int) { FIRST_MICRO <= micros <= LAST_MICRO }

  /** Division rounding toward zero, and its remainder, for a positive divisor. */
  function DivTrunc(a: int, b: int): int
    requires b > 0
  {
    if a >= 0 then a / b else -((-a) / b)
  }

  function Rem(a: int, b: int): int
    requires b > 0
  {
    if a >= 0 then a % b else -((-a) % b)
  }

  function FromUnix(value: i64, precision: Precision): Result<DateTime> {
    match precision
    case Seconds =>
      if value < -210_863_520_000 || value > 253_402_300_799 then Err(OutsideJulianPeriod)
      else Ok(DateTime(value * 1_000_000))
    case Milliseconds =>
      if value < -210_863_520_000_000 || value > 253_402_300_799_999 then Err(OutsideJulianPeriod)
      else Ok(DateTime(value * 1_000))
    case Microseconds =>
      if value < -210_863_520_000_000_000 || value > 253_402_300_799_999_999 then Err(OutsideJulianPeriod)
      else Ok(DateTime(value))
  }

  function Unix(dt: DateTime, precision: Precision): i64 {
    match precision
    case Seconds => DivTrunc(dt.micros, 1_000_000)
    case Milliseconds => DivTrunc(dt.micros, 1_000)
    case Microseconds => dt.micros
  }

  function TimeMicros(t: Time): (m: i64) {
    t.hour * HOUR + t.min * MINUTE + t.sec * SECOND + t.micros
  }

  /** The year is summed with 4800 in 16 bits, so later years would overflow; they lie far
      outside the accepted period. The typed intermediates show that nothing else overflows. */
  function InitUTC(d: Date, t: Time): Result<DateTime>
    requires d.year + 4800 < 0x8000
  {
    if !ValidDate(d) then Err(InvalidDate)
    else if !ValidTime(t) then Err(InvalidTime)
    else
      var monthAdj := d.month - 3;
      var carry: u8 := if monthAdj < 0 then 1 else 0;
      var adjust: u8 := if carry == 1 then 12 else 0;
      var yearAdj: i16 := d.year + 4800 - carry;
      var monthDays := DivTrunc((monthAdj + adjust) * 62719 + 769, 2048);
      var leapDays := DivTrunc(yearAdj, 4) - DivTrunc(yearAdj, 100) + DivTrunc(yearAdj, 400);
      var dateMicros: i64 := (yearAdj * 365 + leapDays + monthDays + (d.day - 1) - 2472632) * DAY;
      FromUnix(dateMicros + TimeMicros(t), Microseconds)
  }

  lemma ClockParts(micros: int)
    requires 0 <= micros < DAY
    ensures var h, min, sec, us := micros / HOUR, micros % HOUR / MINUTE, micros % MINUTE / SECOND, micros % SECOND;
            && 0 <= h <= 23 && 0 <= min <= 59 && 0 <= sec <= 59 && 0 <= us <= 999_999
            && h * HOUR + min * MINUTE + sec * SECOND + us == micros
  {
    var h, inHour := micros / HOUR, micros % HOUR;
    var min, inMinute := inHour / MINUTE, inHour % MINUTE;
    Quotient(micros, MINUTE, h * 60 + min, inMinute);
    var sec, us := inMinute / SECOND, inMinute % SECOND;
    Quotient(micros, SECOND, (h * 60 + min) * 60 + sec, us);
  }

  function TimeOf(dt: DateTime): (t: Time)
    ensures ValidTime(t)
    ensures TimeMicros(t) == dt.micros % DAY
  {
    var micros := dt.micros % DAY;
    ClockParts(micros);
    Time(DivTrunc(micros, HOUR), DivTrunc(Rem(micros, HOUR), MINUTE),
         DivTrunc(Rem(micros, MINUTE), SECOND), Rem(micros, SECOND))
  }

  function Compare(a: DateTime, b: DateTime): Order { CompareInt(a.micros, b.micros) }

  function UnitMicros(unit: TimeUnit): int {
    match unit
    case Days => DAY
    case Hours => HOUR
    case Minutes => MINUTE
    case Secs => SECOND
    case Millis => 1_000
    case Micros => 1
  }

  /** The sum must fit the 64-bit field, as it must in the program. */
  function Add(dt: DateTime, value: i64, unit: TimeUnit): Result<DateTime>
    requires -0x8000_0000_0000_0000 <= dt.micros + value * UnitMicros(unit) < 0x8000_0000_0000_0000
  {
    FromUnix(dt.micros + value * UnitMicros(unit), Microseconds)
  }

  // ----- what the decoder computes

  /** The decoder first rounds microseconds to seconds toward zero, then floors to days. */
  function DayIndex(micros: int): int { DivTrunc(micros, SECOND) / 86400 }

  function DateSpec(dt: DateTime): (d: Date)
    requires InJulianPeriod(dt.micros)
    ensures ValidDate(d) && -4712 <= d.year <= 9999
  {
    DayIndexBounds(dt.micros);
    YearBounds(DateAt(DayIndex(dt.micros)));
    DateAt(DayIndex(dt.micros))
  }

  /** Before 1970 and later in the day than 23:59:59.000000. */
  predicate InWindow(micros: int) { micros < 0 && micros % DAY > 86399 * SECOND }

  lemma DayIndexIs(micros: int)
    ensures DayIndex(micros) == micros / DAY + (if InWindow(micros) then 1 else 0)
  {
    var day, rest := micros / DAY, micros % DAY;
    assert micros == day * DAY + rest;
    if micros < 0 {
      var secs := (-micros) / SECOND;
      assert secs * SECOND <= -micros < secs * SECOND + SECOND;
    }
  }

  lemma DayIndexBounds(micros: int)
    requires InJulianPeriod(micros)
    ensures FIRST_DAY <= micros / DAY <= LAST_DAY
    ensures FIRST_DAY <= DayIndex(micros) <= LAST_DAY
  {
    DayIndexIs(micros);
  }

  /** March 1 of the year that the cycle counts name, as a day count from 2000-03-01. */
  lemma MarchYear(qc: int, c: int, q: int, ry: int)
    requires 0 <= c <= 3 && 0 <= q <= 24 && 0 <= ry <= 3
    ensures var y := ry + 4 * q + 100 * c + 400 * qc + 2000;
            && YearStart(y) + 59 + LeapDay(y) == 11017 + 146097 * qc + 36524 * c + 1461 * q + 365 * ry
            && (LeapYear(y + 1) <==> ry == 3 && (q < 24 || c == 3))
  {
    var y := ry + 4 * q + 100 * c + 400 * qc + 2000;
    LeapStep(y);
    Quotient(y, 4, 500 + 100 * qc + 25 * c + q, ry);
    Quotient(y, 100, 20 + 4 * qc + c, 4 * q + ry);
    Quotient(y, 400, 5 + qc, 100 * c + 4 * q + ry);
    YearAfter(y, 5 + qc, c, q, ry);
  }

  lemma YearAfter(y: int, n: int, c: int, q: int, ry: int)
    requires 0 <= c <= 3 && 0 <= q <= 24 && 0 <= ry <= 3
    requires y == 400 * n + 100 * c + 4 * q + ry
    ensures LeapYear(y + 1) <==> ry == 3 && (q < 24 || c == 3)
  {
    if ry < 3 {
      Quotient(y + 1, 4, 100 * n + 25 * c + q, ry + 1);
      Quotient(y + 1, 400, n, 100 * c + 4 * q + ry + 1);
    } else if q < 24 {
      Quotient(y + 1, 4, 100 * n + 25 * c + q + 1, 0);
      Quotient(y + 1, 100, 4 * n + c, 4 * q + 4);
    } else if c < 3 {
      Quotient(y + 1, 100, 4 * n + c + 1, 0);
      Quotient(y + 1, 400, n, 100 * c + 100);
    } else {
      Quotient(y + 1, 400, n + 1, 0);
    }
  }

  const MARCH_DAYS: seq<int> := [31, 30, 31, 30, 31, 31, 30, 31, 30, 31, 31, 29]

  /** Days from March 1 to the first of the `m`-th March-based month. */
  function MarchStart(m: int): int
    requires 0 <= m <= 12
  {
    [0, 31, 61, 92, 122, 153, 184, 214, 245, 275, 306, 337, 366][m]
  }

  /** The day that a March-based month and day denote. */
  lemma MarchMonth(y: int, m: int, r: int, d: Date)
    requires 0 <= m <= 11 && 0 <= r < MARCH_DAYS[m]
    requires m == 11 && r == 28 ==> LeapYear(y + 1)
    requires d.year == (if m < 10 then y else y + 1)
    requires d.month == (if m < 10 then m + 3 else m - 9) && d.day == r + 1
    ensures ValidDate(d) && DayNumber(d) == YearStart(y) + 59 + LeapDay(y) + MarchStart(m) + r
  {
    MonthStarts(y);
    MonthStarts(y + 1);
    LeapStep(y);
  }

  /** The cycles that a day count from 2000-03-01 breaks into. */
  ghost predicate Cycles(days: int, qc: int, c: int, q: int, ry: int, r: int) {
    && 0 <= c <= 3 && 0 <= q <= 24 && 0 <= ry <= 3 && 0 <= r <= 365
    && days == 146097 * qc + 36524 * c + 1461 * q + 365 * ry + r
    && (r == 365 ==> ry == 3 && (q < 24 || c == 3))
  }

  method SplitCycles(days: int) returns (qcCycles: int, cCycles: int, qCycles: int, remYears: int, remDays: int)
    ensures Cycles(days, qcCycles, cCycles, qCycles, remYears, remDays)
  {
    qcCycles := DivTrunc(days, 146097);
    remDays := Rem(days, 146097);
    if remDays < 0 {
      remDays := remDays + 146097;
      qcCycles := qcCycles - 1;
    }
    assert days == 146097 * qcCycles + remDays && 0 <= remDays < 146097;

    cCycles := DivTrunc(remDays, 36524);
    if cCycles == 4 {
      cCycles := cCycles - 1;
    }
    remDays := remDays - cCycles * 36524;
    assert 0 <= cCycles <= 3 && 0 <= remDays <= 36524 && (remDays == 36524 ==> cCycles == 3);

    qCycles := DivTrunc(remDays, 1461);
    if qCycles == 25 {
      qCycles := qCycles - 1;
    }
    remDays := remDays - qCycles * 1461;
    assert 0 <= qCycles <= 24 && 0 <= remDays < 1461 && (remDays == 1460 ==> qCycles < 24 || cCycles == 3);

    remYears := DivTrunc(remDays, 365);
    if remYears == 4 {
      remYears := remYears - 1;
    }
    remDays := remDays - remYears * 365;
  }

  method SplitMonth(dayOfYear: int) returns (month: int, remDays: int)
    requires 0 <= dayOfYear <= 365
    ensures 0 <= month <= 11 && 0 <= remDays < MARCH_DAYS[month]
    ensures remDays == dayOfYear - MarchStart(month)
  {
    remDays := dayOfYear;
    month := 0;
    while MARCH_DAYS[month] <= remDays
      invariant 0 <= month <= 11
      invariant 0 <= remDays == dayOfYear - MarchStart(month)
      decreases 12 - month
    {
      remDays := remDays - MARCH_DAYS[month];
      month := month + 1;
    }
  }

  method DateOf(dt: DateTime) returns (d: Date)
    requires InJulianPeriod(dt.micros)
    ensures d == DateSpec(dt)
  {
    var leapEpoch := 946684800 + 86400 * (31 + 29);
    var secs: i64 := DivTrunc(dt.micros, 1_000_000) - leapEpoch;
    var days := DivTrunc(secs, 86400);
    if Rem(secs, 86400) < 0 {
      days := days - 1;
    }
    assert days == DayIndex(dt.micros) - 11017;

    var qcCycles, cCycles, qCycles, remYears, dayOfYear := SplitCycles(days);
    var year := remYears + 4 * qCycles + 100 * cCycles + 400 * qcCycles + 2000;
    MarchYear(qcCycles, cCycles, qCycles, remYears);
    DayIndexBounds(dt.micros);
    YearRange(year, DayIndex(dt.micros), dayOfYear);

    var month, remDays := SplitMonth(dayOfYear);
    ghost var marchYear, marchMonth := year, month;
    month := month + 2;
    if month >= 12 {
      year := year + 1;
      month := month - 12;
    }

    d := Date(year, month + 1, remDays + 1);
    MarchMonth(marchYear, marchMonth, remDays, d);
    OrderIsDayOrder(d, DateAt(DayIndex(dt.micros)));
  }

  /** The March-based year of a day in the period fits 16 bits. */
  lemma YearRange(y: int, day: int, r: int)
    requires FIRST_DAY <= day <= LAST_DAY + 1 && 0 <= r <= 365
    requires day == YearStart(y) + 59 + LeapDay(y) + r
    ensures -4714 <= y <= 10000
  {
    LeapStep(y);
    if y < -4714 { YearStartMonotone(y + 2, -4712); YearStartMonotone(y + 1, y + 2); }
    if y > 10000 { YearStartMonotone(10001, y); YearStartMonotone(10000, 10001); }
    assert YearStart(-4712) == FIRST_DAY && YearStart(10000) == LAST_DAY + 1;
  }

  // ----- the encoder

  /** The multiplier 62719 / 2048 counts the days before each March-based month. */
  lemma MagicMonths(m: int)
    requires 0 <= m <= 11
    ensures (m * 62719 + 769) / 2048 == MarchStart(m)
  {
  }

  lemma EncoderDays(d: Date)
    requires ValidDate(d) && -4800 < d.year
    ensures var carry := if d.month < 3 then 1 else 0;
            var y := d.year + 4800 - carry;
            var m := d.month - 3 + 12 * carry;
            y * 365 + y / 4 - y / 100 + y / 400 + (m * 62719 + 769) / 2048 + (d.day - 1) - 2472632 == DayNumber(d)
  {
    var carry := if d.month < 3 then 1 else 0;
    var m, y := d.month - 3 + 12 * carry, d.year - carry;
    MagicMonths(m);
    assert MarchStart(m) == MonthStart(d.year, d.month) - (if carry == 1 then 0 else LeapDay(d.year)) - 59
        + 365 * carry by {
      MonthStarts(d.year);
    }
    LeapStep(d.year);
    Quotient(y + 4800, 4, y / 4 + 1200, y % 4);
    Quotient(y + 4800, 100, y / 100 + 48, y % 100);
    Quotient(y + 4800, 400, y / 400 + 12, y % 400);
  }

  /** The encoder accepts exactly the valid dates and times of years -4712..9999, and then returns the
      microseconds that the calendar counts; every other input gets the error of the first failed check. */
  lemma InitUTCCounts(d: Date, t: Time)
    requires d.year + 4800 < 0x8000
    ensures !ValidDate(d) ==> InitUTC(d, t) == Err(InvalidDate)
    ensures ValidDate(d) && !ValidTime(t) ==> InitUTC(d, t) == Err(InvalidTime)
    ensures ValidDate(d) && ValidTime(t) && !(-4712 <= d.year <= 9999) ==> InitUTC(d, t) == Err(OutsideJulianPeriod)
    ensures ValidDate(d) && ValidTime(t) && -4712 <= d.year <= 9999 ==>
              InitUTC(d, t).Ok? && InitUTC(d, t).value.micros == DayNumber(d) * DAY + TimeMicros(t)
  {
    hide MonthStart, YearStart, LeapCount, DaysInMonth;
    if ValidDate(d) && ValidTime(t) {
      if -4800 < d.year {
        EncoderDays(d);
        hide DayNumber, ValidDate;
        YearBounds(d);
        assert 0 <= TimeMicros(t) < DAY;
      } else {
        EarlyYears(d, t);
      }
    }
  }

  lemma EarlyYears(d: Date, t: Time)
    requires ValidDate(d) && ValidTime(t) && d.year <= -4800
    ensures InitUTC(d, t) == Err(OutsideJulianPeriod)
  {
    var carry := if d.month < 3 then 1 else 0;
    MagicMonths(d.month - 3 + 12 * carry);
    var y := d.year + 4800 - carry;
    assert DivTrunc(y, 4) <= 0 && DivTrunc(y, 100) >= y && DivTrunc(y, 400) <= 0;
    assert 0 <= TimeMicros(t) < DAY;
  }

  // ----- round trips

  lemma TimeMicrosUnique(a: Time, b: Time)
    requires ValidTime(a) && ValidTime(b)
    ensures TimeOrder(a, b) == CompareInt(TimeMicros(a), TimeMicros(b))
    ensures TimeOrder(a, b).Lt? <==> TimeMicros(a) < TimeMicros(b)
    ensures TimeMicros(a) == TimeMicros(b) ==> a == b
    ensures 0 <= TimeMicros(a) < DAY
  {
  }

  /** Encoding a date and a time and decoding again gives back the time always, and the date unless the
      year is before 1970 and the time is past 23:59:59.000000; then the decoder names the next day. */
  lemma RoundTrip(d: Date, t: Time)
    requires ValidDate(d) && ValidTime(t) && -4712 <= d.year <= 9999
    ensures InitUTC(d, t).Ok? && InJulianPeriod(InitUTC(d, t).value.micros)
    ensures TimeOf(InitUTC(d, t).value) == t
    ensures d.year < 1970 && TimeMicros(t) > TimeMicros(Time(23, 59, 59, 0))
        ==> DateSpec(InitUTC(d, t).value) == NextDay(d)
    ensures DateSpec(InitUTC(d, t).value) == d <==> !(d.year < 1970 && TimeMicros(t) > TimeMicros(Time(23, 59, 59, 0)))
  {
    hide InitUTC, TimeOf, DayIndex, MonthStart, YearStart;
    InitUTCCounts(d, t);
    var dt := InitUTC(d, t).value;
    TimeMicrosUnique(t, TimeOf(dt));
    assert dt.micros / DAY == DayNumber(d) && dt.micros % DAY == TimeMicros(t);
    YearBounds(d);
    DateAtInverts(d);
    DayIndexIs(dt.micros);
    NextDayCounts(d);
    OrderIsDayOrder(NextDay(d), DateSpec(dt));
  }

  /** Decoding an instant and encoding again: the identity outside the window, one day late inside it. */
  lemma DecodeEncode(dt: DateTime)
    requires InJulianPeriod(dt.micros)
    ensures InitUTC(DateSpec(dt), TimeOf(dt)) == Ok(DateTime(if InWindow(dt.micros) then dt.micros + DAY
                                                             else dt.micros))
  {
    hide InitUTC, DateAt, DayIndex, TimeOf, TimeMicros;
    DayIndexIs(dt.micros);
    DayIndexBounds(dt.micros);
    InitUTCCounts(DateSpec(dt), TimeOf(dt));
  }

  lemma DaysLater(micros: int, n: int)
    ensures (micros + n * DAY) / DAY == micros / DAY + n && (micros + n * DAY) % DAY == micros % DAY
  {
    Quotient(micros + n * DAY, DAY, micros / DAY + n, micros % DAY);
  }

  /** Adding `n` days moves the decoded date by `n` calendar days, keeping the time, exactly when the
      two instants are both inside or both outside the window. */
  lemma AddDaysMovesDate(dt: DateTime, n: i64)
    requires InJulianPeriod(dt.micros)
    requires -0x8000_0000_0000_0000 <= dt.micros + n * DAY < 0x8000_0000_0000_0000
    requires Add(dt, n, Days).Ok?
    ensures TimeOf(Add(dt, n, Days).value) == TimeOf(dt)
    ensures var there := DayNumber(DateSpec(dt)) + n;
            && FIRST_DAY - 1 <= there <= LAST_DAY + 1
            && (DateSpec(Add(dt, n, Days).value) == DateAt(there)
                <==> InWindow(dt.micros) == InWindow(dt.micros + n * DAY))
  {
    hide DayIndex, TimeOf, TimeMicros, DayNumber, ValidDate, ValidTime, DateAt;
    var r := Add(dt, n, Days).value;
    DaysLater(dt.micros, n);
    TimeMicrosUnique(TimeOf(r), TimeOf(dt));
    DayIndexIs(dt.micros);
    DayIndexIs(r.micros);
    DayIndexBounds(dt.micros);
    DayIndexBounds(r.micros);
  }

  /** How many of the unit a day has, and how many have gone by on the clock since midnight. */
  function PerDay(unit: TimeUnit): (p: int)
    ensures 0 < p <= DAY
  {
    match unit
    case Days => 1
    case Hours => 24
    case Minutes => 24 * 60
    case Secs => 24 * 60 * 60
    case Millis => 24 * 60 * 60 * 1000
    case Micros => 24 * 60 * 60 * 1000 * 1000
  }

  function Ticks(t: Time, unit: TimeUnit): int {
    match unit
    case Days => 0
    case Hours => t.hour
    case Minutes => t.hour * 60 + t.min
    case Secs => (t.hour * 60 + t.min) * 60 + t.sec
    case Millis => ((t.hour * 60 + t.min) * 60 + t.sec) * 1000 + t.micros / 1000
    case Micros => ((t.hour * 60 + t.min) * 60 + t.sec) * 1_000_000 + t.micros
  }

  lemma UnitOfDay(unit: TimeUnit)
    ensures UnitMicros(unit) * PerDay(unit) == DAY && DAY / PerDay(unit) == UnitMicros(unit) > 0
  {
    match unit
    case Days => case Hours => case Minutes => case Secs => case Millis => case Micros =>
  }

  lemma TicksOf(t: Time, unit: TimeUnit)
    requires ValidTime(t)
    ensures Ticks(t, unit) == TimeMicros(t) / UnitMicros(unit) && 0 <= Ticks(t, unit) < PerDay(unit)
  {
    match unit
    case Days => Quotient(TimeMicros(t), DAY, 0, TimeMicros(t));
    case Hours => Quotient(TimeMicros(t), HOUR, t.hour, t.min * MINUTE + t.sec * SECOND + t.micros);
    case Minutes => Quotient(TimeMicros(t), MINUTE, t.hour * 60 + t.min, t.sec * SECOND + t.micros);
    case Secs => Quotient(TimeMicros(t), SECOND, (t.hour * 60 + t.min) * 60 + t.sec, t.micros);
    case Millis =>
      Quotient(TimeMicros(t), 1000, ((t.hour * 60 + t.min) * 60 + t.sec) * 1000 + t.micros / 1000, t.micros % 1000);
    case Micros =>
  }

  /** `t` units, written as days of `p` units and a rest, in a product. */
  lemma Regroup(t: int, u: int, p: int)
    requires p > 0
    ensures t * u == t / p * (u * p) + t % p * u
  {
    var c, d := t / p, t % p;
    assert t == c * p + d;
    calc {
      t * u;
      (c * p + d) * u;
      c * p * u + d * u;
      c * (u * p) + d * u;
    }
  }

  /** Adding multiples of a unit `u` to a number written with days of `p` units. */
  lemma Carry(a: int, x: int, t: int, s: int, n: int, u: int, p: int, day: int)
    requires u > 0 && p > 0 && 0 <= s < u && u * p == day > 0 && a == x * day + t * u + s
    ensures (a + n * u) / day == x + (t + n) / p
    ensures (a + n * u) % day / u == (t + n) % p && (a + n * u) % day % u == s
  {
    var c, d := (t + n) / p, (t + n) % p;
    Regroup(t + n, u, p);
    Distribute(t, -n, u);
    Distribute(x, -c, day);
    if d < p - 1 { Increasing(d, p - 1, u); }
    Distribute(p, 1, u);
    Quotient(a + n * u, day, x + c, d * u + s);
    Quotient(d * u + s, u, d, s);
  }

  /** The sum is accepted exactly when it lies in the period. A unit is one of the `PerDay` parts of a day. */
  lemma AddMoves(dt: DateTime, n: i64, unit: TimeUnit)
    requires -0x8000_0000_0000_0000 <= dt.micros + n * (DAY / PerDay(unit)) < 0x8000_0000_0000_0000
    ensures UnitMicros(unit) == DAY / PerDay(unit)
    ensures var sum := dt.micros + n * (DAY / PerDay(unit));
            Add(dt, n, unit) == if InJulianPeriod(sum) then Ok(DateTime(sum)) else Err(OutsideJulianPeriod)
  {
    UnitOfDay(unit);
  }

  /** Adding `n` units turns the clock by `n` units, with a carry of whole days, and leaves alone what is smaller than
      the unit. */
  lemma AddTurnsClock(dt: DateTime, n: i64, unit: TimeUnit)
    requires -0x8000_0000_0000_0000 <= dt.micros + n * UnitMicros(unit) < 0x8000_0000_0000_0000
    requires Add(dt, n, unit).Ok?
    ensures var r := Add(dt, n, unit).value; var before, after := TimeOf(dt), TimeOf(r);
            && Ticks(after, unit) == (Ticks(before, unit) + n) % PerDay(unit)
            && r.micros / DAY == dt.micros / DAY + (Ticks(before, unit) + n) / PerDay(unit)
            && TimeMicros(after) % (DAY / PerDay(unit)) == TimeMicros(before) % (DAY / PerDay(unit))
  {
    hide TimeOf, TimeMicros, Ticks, PerDay, UnitMicros, ValidTime;
    var r := Add(dt, n, unit).value;
    UnitOfDay(unit);
    TicksOf(TimeOf(dt), unit);
    TicksOf(TimeOf(r), unit);
    var inDay := dt.micros % DAY;
    Carry(dt.micros, dt.micros / DAY, inDay / UnitMicros(unit), inDay % UnitMicros(unit), n, UnitMicros(unit),
          PerDay(unit), DAY);
  }

  /** Where a window instant is displayed. */
  function Displayed(micros: int): int { if InWindow(micros) then micros + DAY else micros }

  function ThenTime(byDate: Order, byTime: Order): Order { if byDate != Eq then byDate else byTime }

  /** Comparing decoded dates and then times compares the displayed instants, so outside the window it
      agrees with comparing the instants themselves. */
  lemma OrderAgrees(a: DateTime, b: DateTime)
    requires InJulianPeriod(a.micros) && InJulianPeriod(b.micros)
    ensures ThenTime(DateOrder(DateSpec(a), DateSpec(b)), TimeOrder(TimeOf(a), TimeOf(b)))
         == CompareInt(Displayed(a.micros), Displayed(b.micros))
    ensures Compare(a, b).Lt? <==> a.micros < b.micros
    ensures !InWindow(a.micros) && !InWindow(b.micros) ==>
              ThenTime(DateOrder(DateSpec(a), DateSpec(b)), TimeOrder(TimeOf(a), TimeOf(b))) == Compare(a, b)
  {
    hide DateAt, DayIndex, TimeOf, TimeMicros, DateOrder, TimeOrder;
    DayIndexIs(a.micros);
    DayIndexIs(b.micros);
    DayIndexBounds(a.micros);
    DayIndexBounds(b.micros);
    OrderIsDayOrder(DateSpec(a), DateSpec(b));
    TimeMicrosUnique(TimeOf(a), TimeOf(b));
  }

  /** An instant displayed on the wrong day: 1969-12-31T23:59:59.500000 decodes as 1970-01-01. */
  lemma WindowExample()
    ensures InWindow(-500_000)
    ensures DateSpec(DateTime(-500_000)) == Date(1970, 1, 1)
    ensures InitUTC(Date(1969, 12, 31), Time(23, 59, 59, 500_000)) == Ok(DateTime(-500_000))
  {
    var d := Date(1969, 12, 31);
    MonthStarts(1969);
    assert DayNumber(d) == -1;
    InitUTCCounts(d, Time(23, 59, 59, 500_000));
  }

  /** The three precisions accept exactly the values whose instant lies in the period, and reading the
      instant back at the same precision returns the value. */
  lemma UnixRoundTrip(value: i64, precision: Precision)
    ensures var scale := match precision case Seconds => 1_000_000 case Milliseconds => 1_000 case Microseconds => 1;
            FromUnix(value, precision).Ok? <==> InJulianPeriod(value * scale)
    ensures FromUnix(value, precision).Ok? ==> Unix(FromUnix(value, precision).value, precision) == value
  {
  }

  /** A timestamp of lower precision is the instant rounded toward 1970. */
  lemma UnixRounds(dt: DateTime, precision: Precision)
    ensures var scale := match precision case Seconds => 1_000_000 case Milliseconds => 1_000 case Microseconds => 1;
            var there := Unix(dt, precision) * scale;
            if dt.micros >= 0 then there <= dt.micros < there + scale else there - scale < dt.micros <= there
  {
  }
}
