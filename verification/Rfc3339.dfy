/** Text of dates, times and instants in the form of RFC 3339, section 5.6: the printer fills a buffer
    in place, the parser advances a position. Both are tied to functions on text, and the round trips
    are proved about those. */
module Rfc3339 {
  import opened Calendar
  import opened DateTimes
  import opened Collections

  type usize = x: int | 0 <= x < 0x1_0000_0000_0000_0000

  // ----- decimal digits

  predicate IsDigit(c: char) { '0' <= c <= '9' }

  function DigitValue(c: char): (n: nat)
    requires IsDigit(c)
    ensures n <= 9
  {
    c as int - '0' as int
  }

  function Digit(n: nat): (c: char)
    requires n <= 9
    ensures IsDigit(c) && DigitValue(c) == n
  {
    "0123456789"[n]
  }

  predicate AllDigits(s: seq<char>) { forall i :: 0 <= i < |s| ==> IsDigit(s[i]) }

  /** The `width` low-order decimal digits of `v`, padded with zeros. */
  function Decimal(v: nat, width: nat): (s: seq<char>)
    ensures |s| == width && AllDigits(s)
  {
    if width == 0 then [] else Decimal(v / 10, width - 1) + [Digit(v % 10)]
  }

  function Number(s: seq<char>): nat
    requires AllDigits(s)
  {
    if s == [] then 0 else Number(s[..|s| - 1]) * 10 + DigitValue(s[|s| - 1])
  }

  function Pow10(n: nat): (p: nat)
    ensures p >= 1
  {
    if n == 0 then 1 else 10 * Pow10(n - 1)
  }

  lemma {:induction false} NumberOfDecimal(v: nat, width: nat)
    requires v < Pow10(width)
    ensures Number(Decimal(v, width)) == v
  {
    if width > 0 {
      NumberOfDecimal(v / 10, width - 1);
      assert Decimal(v, width)[..width - 1] == Decimal(v / 10, width - 1);
    }
  }

  lemma {:induction false} NumberBound(s: seq<char>)
    requires AllDigits(s)
    ensures Number(s) < Pow10(|s|)
  {
    if s != [] { NumberBound(s[..|s| - 1]); }
  }

  /** How many digits start at `pos`. */
  function RunLength(input: seq<char>, pos: nat): (n: nat)
    ensures pos <= |input| ==> pos + n <= |input|
    ensures forall i :: pos <= i < pos + n ==> i < |input| && IsDigit(input[i])
    ensures pos + n < |input| ==> !IsDigit(input[pos + n])
    decreases |input| - pos
  {
    if pos < |input| && IsDigit(input[pos]) then 1 + RunLength(input, pos + 1) else 0
  }

  lemma RunLengthIs(input: seq<char>, pos: nat, n: nat)
    requires pos + n <= |input| && AllDigits(input[pos..pos + n])
    requires pos + n < |input| ==> !IsDigit(input[pos + n])
    ensures RunLength(input, pos) == n
    decreases n
  {
    if n > 0 {
      assert IsDigit(input[pos..pos + n][0]);
      assert input[pos + 1..pos + n] == input[pos..pos + n][1..];
      RunLengthIs(input, pos + 1, n - 1);
    }
  }

  // ----- the printed forms

  predicate Printable(d: Date) { -9999 <= d.year <= 9999 }

  function YearText(year: int): seq<char>
    requires -9999 <= year <= 9999
  {
    if year < 0 then "-" + Decimal(-year, 4) else Decimal(year, 4)
  }

  function DateText(d: Date): (s: seq<char>)
    requires Printable(d)
    ensures |s| == if d.year < 0 then 11 else 10
  {
    YearText(d.year) + "-" + Decimal(d.month, 2) + "-" + Decimal(d.day, 2)
  }

  function FractionText(micros: nat): seq<char> {
    if micros == 0 then ""
    else if micros % 1000 == 0 then "." + Decimal(micros / 1000, 3)
    else "." + Decimal(micros, 6)
  }

  function TimeText(t: Time): (s: seq<char>)
    ensures |s| == 8 + |FractionText(t.micros)|
  {
    Decimal(t.hour, 2) + ":" + Decimal(t.min, 2) + ":" + Decimal(t.sec, 2) + FractionText(t.micros)
  }

  function DateTimeText(d: Date, t: Time): seq<char>
    requires Printable(d)
  {
    DateText(d) + "T" + TimeText(t) + "Z"
  }

  // ----- the printer

  /** `s` with `text` written over it from `at` on. */
  function Splice(s: seq<char>, at: nat, text: seq<char>): (r: seq<char>)
    requires at + |text| <= |s|
    ensures |r| == |s|
  {
    s[..at] + text + s[at + |text|..]
  }

  lemma SpliceJoin(s: seq<char>, at: nat, a: seq<char>, b: seq<char>)
    requires at + |a| + |b| <= |s|
    ensures Splice(Splice(s, at, a), at + |a|, b) == Splice(s, at, a + b)
    ensures Splice(Splice(s, at + |a|, b), at, a) == Splice(s, at, a + b)
  {
  }

  lemma SplicePrefix(s: seq<char>, text: seq<char>)
    requires |text| <= |s|
    ensures Splice(s, 0, text)[..|text|] == text
  {
  }

  lemma SpliceNothing(s: seq<char>, at: nat)
    requires at <= |s|
    ensures Splice(s, at, []) == s
  {
  }

  method WriteChar(into: array<char>, at: nat, c: char)
    requires at < into.Length
    modifies into
    ensures into[..] == Splice(old(into[..]), at, [c])
  {
    into[at] := c;
  }

  /** `width` digits of `v`, as the formatter prints them with zero fill. */
  method WriteDecimal(into: array<char>, at: nat, v: nat, width: nat)
    requires at + width <= into.Length
    modifies into
    ensures into[..] == Splice(old(into[..]), at, Decimal(v, width))
  {
    SpliceNothing(into[..], at);
    hide Splice;
    if width > 0 {
      WriteDecimal(into, at, v / 10, width - 1);
      WriteChar(into, at + width - 1, Digit(v % 10));
      SpliceJoin(old(into[..]), at, Decimal(v / 10, width - 1), [Digit(v % 10)]);
    }
  }

  method WriteYear(into: array<char>, at: nat, year: int) returns (n: nat)
    requires -9999 <= year <= 9999 && at + 5 <= into.Length
    modifies into
    ensures n == |YearText(year)| && into[..] == Splice(old(into[..]), at, YearText(year))
  {
    hide Splice, Decimal;
    if year < 0 {
      WriteDecimal(into, at + 1, -year, 4);
      WriteChar(into, at, '-');
      SpliceJoin(old(into[..]), at, ['-'], Decimal(-year, 4));
      n := 5;
    } else {
      WriteDecimal(into, at, year, 4);
      n := 4;
    }
  }

  method WriteDate(into: array<char>, at: nat, d: Date) returns (n: nat)
    requires ValidDate(d) && Printable(d) && at + 11 <= into.Length
    modifies into
    ensures n == |DateText(d)| && into[..] == Splice(old(into[..]), at, DateText(d))
  {
    hide Splice, Decimal;
    ghost var before := into[..];
    var o := WriteYear(into, at, d.year);
    o := at + o;
    WriteChar(into, o, '-');
    SpliceJoin(before, at, YearText(d.year), "-");
    WriteDecimal(into, o + 1, d.month, 2);
    SpliceJoin(before, at, YearText(d.year) + "-", Decimal(d.month, 2));
    WriteChar(into, o + 3, '-');
    SpliceJoin(before, at, YearText(d.year) + "-" + Decimal(d.month, 2), "-");
    WriteDecimal(into, o + 4, d.day, 2);
    SpliceJoin(before, at, YearText(d.year) + "-" + Decimal(d.month, 2) + "-", Decimal(d.day, 2));
    n := if d.year < 0 then 11 else 10;
  }

  method WriteFraction(into: array<char>, at: nat, micros: nat) returns (n: nat)
    requires micros <= 999_999 && at + 7 <= into.Length
    modifies into
    ensures n == |FractionText(micros)| && into[..] == Splice(old(into[..]), at, FractionText(micros))
  {
    if micros == 0 {
      return 0;
    }
    WriteChar(into, at, '.');
    if micros % 1000 == 0 {
      WriteDecimal(into, at + 1, micros / 1000, 3);
      SpliceJoin(old(into[..]), at, ".", Decimal(micros / 1000, 3));
      return 4;
    }
    WriteDecimal(into, at + 1, micros, 6);
    SpliceJoin(old(into[..]), at, ".", Decimal(micros, 6));
    n := 7;
  }

  method WriteTime(into: array<char>, at: nat, t: Time) returns (n: nat)
    requires ValidTime(t) && at + 15 <= into.Length
    modifies into
    ensures n == |TimeText(t)| && into[..] == Splice(old(into[..]), at, TimeText(t))
  {
    hide Splice, Decimal;
    ghost var before := into[..];
    WriteDecimal(into, at, t.hour, 2);
    WriteChar(into, at + 2, ':');
    SpliceJoin(before, at, Decimal(t.hour, 2), ":");
    WriteDecimal(into, at + 3, t.min, 2);
    SpliceJoin(before, at, Decimal(t.hour, 2) + ":", Decimal(t.min, 2));
    WriteChar(into, at + 5, ':');
    SpliceJoin(before, at, Decimal(t.hour, 2) + ":" + Decimal(t.min, 2), ":");
    WriteDecimal(into, at + 6, t.sec, 2);
    SpliceJoin(before, at, Decimal(t.hour, 2) + ":" + Decimal(t.min, 2) + ":", Decimal(t.sec, 2));
    var f := WriteFraction(into, at + 8, t.micros);
    SpliceJoin(before, at, Decimal(t.hour, 2) + ":" + Decimal(t.min, 2) + ":" + Decimal(t.sec, 2),
               FractionText(t.micros));
    n := 8 + f;
  }

  method Format(dt: DateTime) returns (s: seq<char>)
    requires InJulianPeriod(dt.micros)
    ensures s == DateTimeText(DateSpec(dt), TimeOf(dt))
  {
    hide Splice, TimeOf, DateSpec, DateText;
    var buf := new char[28];
    ghost var before := buf[..];
    var date := DateOf(dt);
    var dateLen := WriteDate(buf, 0, date);
    WriteChar(buf, dateLen, 'T');
    SpliceJoin(before, 0, DateText(date), "T");
    var timeLen := WriteTime(buf, dateLen + 1, TimeOf(dt));
    SpliceJoin(before, 0, DateText(date) + "T", TimeText(TimeOf(dt)));
    var timeStop := dateLen + 1 + timeLen;
    WriteChar(buf, timeStop, 'Z');
    SpliceJoin(before, 0, DateText(date) + "T" + TimeText(TimeOf(dt)), "Z");
    SplicePrefix(before, DateTimeText(date, TimeOf(dt)));
    s := buf[..timeStop + 1];
    assert buf[..][..timeStop + 1] == Splice(before, 0, DateTimeText(date, TimeOf(dt)))[..timeStop + 1];
  }

  // ----- what the parser computes

  function ScanDecimal(input: seq<char>, pos: nat, size: nat): (r: Option<nat>)
    ensures r.Some? ==> pos + size <= |input|
  {
    if pos + size <= |input| && AllDigits(input[pos..pos + size]) then Some(Number(input[pos..pos + size])) else None
  }

  function Signed(negative: bool, n: int): int { if negative then -n else n }

  function NewDate(year: int, month: int, day: int): Result<Date>
    requires -9999 <= year <= 9999 && 0 <= month <= 99 && 0 <= day <= 99
  {
    if ValidDate(Date(year, month, day)) then Ok(Date(year, month, day)) else Err(InvalidDate)
  }

  function NewTime(hour: int, min: int, sec: int, micros: int): Result<Time>
    requires 0 <= hour <= 99 && 0 <= min <= 99 && 0 <= sec <= 99 && 0 <= micros <= 999_999
  {
    if ValidTime(Time(hour, min, sec, micros)) then Ok(Time(hour, min, sec, micros)) else Err(InvalidTime)
  }

  /** A value and the position after it. */
  datatype Scan<+T> = Scan(result: Result<T>, next: nat)

  lemma DecimalBound(input: seq<char>, pos: nat, size: nat)
    ensures ScanDecimal(input, pos, size).Some? ==> ScanDecimal(input, pos, size).value < Pow10(size)
    ensures Pow10(2) == 100 && Pow10(4) == 10000
  {
    if ScanDecimal(input, pos, size).Some? { NumberBound(input[pos..pos + size]); }
    assert Pow10(1) == 10 && Pow10(3) == 1000;
  }

  function DateAfterSign(input: seq<char>, pos: nat, negative: bool): Scan<Date>
    requires pos + 9 <= |input|
  {
    DecimalBound(input, pos, 4);
    DecimalBound(input, pos + 5, 2);
    DecimalBound(input, pos + 8, 2);
    var year, month, day := ScanDecimal(input, pos, 4), ScanDecimal(input, pos + 5, 2), ScanDecimal(input, pos + 8, 2);
    if year.Some? && input[pos + 4] == '-' && month.Some? && input[pos + 7] == '-' && day.Some? then
      Scan(NewDate(Signed(negative, year.value), month.value, day.value), pos + 10)
    else
      Scan(Err(InvalidDate), pos)
  }

  function ScanDate(input: seq<char>, pos: nat): Scan<Date> {
    if pos + 10 > |input| then Scan(Err(InvalidDate), pos)
    else if input[pos] == '-' then DateAfterSign(input, pos + 1, true)
    else DateAfterSign(input, pos, false)
  }

  function ScanNanos(input: seq<char>, pos: nat): (r: Option<nat>)
    ensures r.Some? ==> r.value < 1_000_000_000
  {
    if pos >= |input| || RunLength(input, pos) > 9 then None
    else
      var n := RunLength(input, pos);
      NanosBound(input[pos..pos + n]);
      Some(Number(input[pos..pos + n]) * Pow10(9 - n))
  }

  lemma NanosBound(s: seq<char>)
    requires AllDigits(s) && |s| <= 9
    ensures Number(s) * Pow10(9 - |s|) < 1_000_000_000
  {
    NumberBound(s);
    PowSplit(|s|, 9 - |s|);
    Below(Number(s), Pow10(|s|), Pow10(9 - |s|));
    assert Pow10(9) == 1_000_000_000 by { PowSplit(4, 5); PowSplit(4, 1); DecimalBound("", 0, 0); }
  }

  lemma Below(a: nat, b: nat, c: nat)
    requires a < b && c >= 1
    ensures a * c < b * c
  {
  }

  lemma {:induction false} PowSplit(m: nat, n: nat)
    ensures Pow10(m + n) == Pow10(m) * Pow10(n)
  {
    if m > 0 {
      PowSplit(m - 1, n);
      assert Pow10(m) * Pow10(n) == 10 * (Pow10(m - 1) * Pow10(n));
    }
  }

  function ScanSeconds(input: seq<char>, pos: nat, hour: nat, min: nat, allowNano: bool): Scan<Time>
    requires hour <= 99 && min <= 99
  {
    DecimalBound(input, pos, 2);
    match ScanDecimal(input, pos, 2)
    case None => Scan(Err(InvalidTime), pos)
    case Some(sec) =>
      if !allowNano || pos + 2 >= |input| || input[pos + 2] != '.' then
        Scan(NewTime(hour, min, sec, 0), pos + 2)
      else
        match ScanNanos(input, pos + 3)
        case None => Scan(Err(InvalidTime), pos)
        case Some(nanos) =>
          Scan(NewTime(hour, min, sec, nanos / 1000), pos + 3 + RunLength(input, pos + 3))
  }

  function ScanTime(input: seq<char>, pos: nat, allowNano: bool): Scan<Time> {
    DecimalBound(input, pos, 2);
    DecimalBound(input, pos + 3, 2);
    if pos + 5 > |input| then Scan(Err(InvalidTime), pos) else
      var hour, min := ScanDecimal(input, pos, 2), ScanDecimal(input, pos + 3, 2);
      if hour.None? || input[pos + 2] != ':' || min.None? then Scan(Err(InvalidTime), pos)
      else if pos + 5 == |input| || input[pos + 5] != ':' then Scan(NewTime(hour.value, min.value, 0, 0), pos + 5)
      else ScanSeconds(input, pos + 6, hour.value, min.value, allowNano)
  }

  function ZoneCheck(suffix: seq<char>): Option<Error> {
    if |suffix| == 1 then (if suffix[0] == 'Z' then None else Some(InvalidDateTime))
    else if |suffix| == 6 then
      if suffix[0] != '+' && suffix[0] != '-' then Some(InvalidDateTime)
      else if suffix[1..] != "00:00" then Some(NonUTCNotSupported)
      else None
    else Some(InvalidDateTime)
  }

  function ParsedInstant(input: seq<char>): Result<DateTime> {
    var date := ScanDate(input, 0);
    if date.result.Err? then Err(date.result.error)
    else if date.result.value.year < -4712 || date.result.value.year > 9999 then Err(OutsideJulianPeriod)
    else if date.next >= |input| || input[date.next] != 'T' then Err(InvalidDateTime)
    else
      var time := ScanTime(input, date.next + 1, true);
      if time.result.Err? then Err(time.result.error)
      else if time.next > |input| then Err(InvalidDateTime)
      else if ZoneCheck(input[time.next..]).Some? then Err(ZoneCheck(input[time.next..]).value)
      else InitUTC(date.result.value, time.result.value)
  }

  /** The digits from `pos` on make a number that fits the parser's 64-bit accumulator. */
  predicate Fits(input: seq<char>, pos: nat)
    requires pos <= |input|
  {
    Number(input[pos..pos + RunLength(input, pos)]) < 0x1_0000_0000_0000_0000
  }

  /** If the parser comes to a fraction after the seconds at `pos`, its digits fit. */
  predicate SecondsFit(input: seq<char>, pos: nat, allowNano: bool) {
    allowNano && ScanDecimal(input, pos, 2).Some? && pos + 3 <= |input| && input[pos + 2] == '.' ==>
      Fits(input, pos + 3)
  }

  predicate TimeFits(input: seq<char>, pos: nat, allowNano: bool) {
    && ScanDecimal(input, pos, 2).Some? && pos + 5 < |input| && input[pos + 2] == ':'
    && ScanDecimal(input, pos + 3, 2).Some? && input[pos + 5] == ':'
    ==> SecondsFit(input, pos + 6, allowNano)
  }

  /** After a date in the period there is more text, and a fraction that the parser comes to fits. */
  predicate Readable(input: seq<char>) {
    var date := ScanDate(input, 0);
    date.result.Ok? && -4712 <= date.result.value.year <= 9999 ==>
      date.next < |input| && (input[date.next] == 'T' ==> TimeFits(input, date.next + 1, true))
  }

  // ----- the parser

  class Parser {
    const input: seq<char>
    var pos: nat

    constructor (input: seq<char>)
      ensures this.input == input && pos == 0
    {
      this.input := input;
      pos := 0;
    }

    method ConsumeIf(c: char) returns (found: bool)
      requires pos < |input|
      modifies this
      ensures found == (input[old(pos)] == c)
      ensures pos == if found then old(pos) + 1 else old(pos)
    {
      found := input[pos] == c;
      if found {
        pos := pos + 1;
      }
    }

    /** `limit` is the largest value of the integer type asked for. */
    method PaddedInt(size: nat, limit: nat) returns (r: Option<nat>)
      requires Pow10(size) - 1 <= limit
      modifies this
      ensures r == ScanDecimal(input, old(pos), size)
      ensures pos == if r.Some? then old(pos) + size else old(pos)
    {
      var end := pos + size;
      if end > |input| {
        return None;
      }
      var value := 0;
      for i := pos to end
        invariant pos == old(pos)
        invariant AllDigits(input[pos..i]) && value == Number(input[pos..i]) <= limit
      {
        if !IsDigit(input[i]) {
          assert !IsDigit(input[pos..end][i - pos]);
          return None;
        }
        assert input[pos..i + 1][..i - pos] == input[pos..i];
        value := value * 10 + DigitValue(input[i]);
        NumberBound(input[pos..i + 1]);
        PowGrows(i + 1 - pos, size);
      }
      pos := end;
      r := Some(value);
    }

    method Nanoseconds() returns (r: Option<nat>)
      requires pos <= |input| && Fits(input, pos)
      modifies this
      ensures r == ScanNanos(input, old(pos))
      ensures pos == if r.Some? then old(pos) + RunLength(input, old(pos)) else old(pos)
    {
      hide ScanNanos, RunLength, Number, Pow10;
      var start := pos;
      var len := |input| - start;
      if len == 0 {
        NanosResult(input, start, 0);
        return None;
      }
      var value: usize := 0;
      NoDigits(input, start);
      var i := 0;
      while i < |input| - start
        invariant 0 <= i <= |input| - start && pos == start && len == |input| - start
        invariant AllDigits(input[start..start + i]) && value == Number(input[start..start + i])
        decreases |input| - start - i
      {
        if !IsDigit(input[start + i]) {
          len := i;
          break;
        }
        DigitStep(input, start, i);
        value := value * 10 + DigitValue(input[start + i]);
        i := i + 1;
      }
      NanosResult(input, start, len);
      if len > 9 {
        return None;
      }
      pos := start + len;
      r := Some(value * Pow10(9 - len));
    }

    /** The seconds and the fraction, after the second colon. */
    method Seconds(hour: nat, min: nat, allowNano: bool) returns (r: Result<Time>)
      requires pos <= |input| && SecondsFit(input, pos, allowNano) && hour <= 99 && min <= 99
      modifies this
      ensures r == ScanSeconds(input, old(pos), hour, min, allowNano).result
      ensures r.Ok? ==> pos == ScanSeconds(input, old(pos), hour, min, allowNano).next <= |input|
    {
      hide ScanDecimal, NewTime;
      DecimalBound(input, pos, 2);
      var sec := PaddedInt(2, 255);
      if sec.None? {
        return Err(InvalidTime);
      }
      if !allowNano || pos == |input| {
        return NewTime(hour, min, sec.value, 0);
      }
      var dot := ConsumeIf('.');
      if !dot {
        return NewTime(hour, min, sec.value, 0);
      }
      var nanos := Nanoseconds();
      if nanos.None? {
        return Err(InvalidTime);
      }
      r := NewTime(hour, min, sec.value, nanos.value / 1000);
    }

    method Time(allowNano: bool) returns (r: Result<Time>)
      requires pos <= |input| && TimeFits(input, pos, allowNano)
      modifies this
      ensures r == ScanTime(input, old(pos), allowNano).result
      ensures r.Ok? ==> pos == ScanTime(input, old(pos), allowNano).next <= |input|
    {
      hide ScanDecimal, ScanSeconds, NewTime;
      DecimalBound(input, pos, 2);
      DecimalBound(input, pos + 3, 2);
      var len := |input| - pos;
      if len < 5 {
        return Err(InvalidTime);
      }
      var hour := PaddedInt(2, 255);
      if hour.None? {
        return Err(InvalidTime);
      }
      var colon := ConsumeIf(':');
      if !colon {
        return Err(InvalidTime);
      }
      var min := PaddedInt(2, 255);
      if min.None? {
        return Err(InvalidTime);
      }
      if len == 5 {
        return NewTime(hour.value, min.value, 0, 0);
      }
      colon := ConsumeIf(':');
      if !colon {
        return NewTime(hour.value, min.value, 0, 0);
      }
      r := Seconds(hour.value, min.value, allowNano);
    }

    method Rfc3339Date() returns (r: Result<Date>)
      requires pos <= |input|
      modifies this
      ensures r == ScanDate(input, old(pos)).result
      ensures r.Ok? ==> pos == ScanDate(input, old(pos)).next <= |input|
    {
      hide ScanDecimal, NewDate;
      if |input| - pos < 10 {
        return Err(InvalidDate);
      }
      var negative := ConsumeIf('-');
      DecimalBound(input, pos, 4);
      DecimalBound(input, pos + 5, 2);
      DecimalBound(input, pos + 8, 2);
      var year := PaddedInt(4, 0x7fff);
      if year.None? {
        return Err(InvalidDate);
      }
      var dash := ConsumeIf('-');
      if !dash {
        return Err(InvalidDate);
      }
      var month := PaddedInt(2, 255);
      if month.None? {
        return Err(InvalidDate);
      }
      dash := ConsumeIf('-');
      if !dash {
        return Err(InvalidDate);
      }
      var day := PaddedInt(2, 255);
      if day.None? {
        return Err(InvalidDate);
      }
      r := NewDate(Signed(negative, year.value), month.value, day.value);
    }
  }

  lemma PowGrows(m: nat, n: nat)
    requires m <= n
    ensures Pow10(m) <= Pow10(n)
    decreases n
  {
    if m < n { PowGrows(m, n - 1); }
  }

  lemma NoDigits(input: seq<char>, start: nat)
    requires start <= |input|
    ensures AllDigits(input[start..start + 0]) && Number(input[start..start + 0]) == 0
  {
  }

  lemma NanosResult(input: seq<char>, start: nat, len: nat)
    requires start + len <= |input| && AllDigits(input[start..start + len])
    requires start + len < |input| ==> !IsDigit(input[start + len])
    ensures RunLength(input, start) == len
    ensures ScanNanos(input, start) ==
            if start == |input| || len > 9 then None else Some(Number(input[start..start + len]) * Pow10(9 - len))
  {
    RunLengthIs(input, start, len);
  }

  lemma DigitStep(input: seq<char>, start: nat, i: nat)
    requires start + i < |input| && AllDigits(input[start..start + i]) && IsDigit(input[start + i])
    requires Fits(input, start)
    ensures AllDigits(input[start..start + i + 1])
    ensures Number(input[start..start + i + 1]) == Number(input[start..start + i]) * 10 + DigitValue(input[start + i])
    ensures Number(input[start..start + i + 1]) < 0x1_0000_0000_0000_0000
  {
    var longer := input[start..start + i + 1];
    assert longer == input[start..start + i] + [input[start + i]];
    assert longer[..i] == input[start..start + i];
    RunAtLeast(input, start, i + 1);
    var run := input[start..start + RunLength(input, start)];
    assert run[..i + 1] == longer;
    NumberPrefix(run, i + 1);
  }

  lemma {:induction false} NumberPrefix(s: seq<char>, n: nat)
    requires n <= |s| && AllDigits(s)
    ensures Number(s[..n]) <= Number(s)
    decreases |s|
  {
    if n < |s| {
      var most := s[..|s| - 1];
      assert most[..n] == s[..n];
      NumberPrefix(most, n);
    } else {
      assert s[..n] == s;
    }
  }

  lemma RunAtLeast(input: seq<char>, pos: nat, n: nat)
    requires pos + n <= |input| && AllDigits(input[pos..pos + n])
    ensures RunLength(input, pos) >= n
    decreases n
  {
    if n > 0 {
      assert IsDigit(input[pos..pos + n][0]);
      assert input[pos + 1..pos + n] == input[pos..pos + n][1..];
      RunAtLeast(input, pos + 1, n - 1);
    }
  }

  method ParseRfc3339(input: seq<char>) returns (r: Result<DateTime>)
    // text ending right after the date is read past its end by the program, and longer fractions overflow
    requires Readable(input)
    ensures r == ParsedInstant(input)
  {
    var parser := new Parser(input);
    var dt := parser.Rfc3339Date();
    if dt.Err? {
      return Err(dt.error);
    }
    var year := dt.value.year;
    if year < -4712 || year > 9999 {
      return Err(OutsideJulianPeriod);
    }
    var separator := parser.ConsumeIf('T');
    if !separator {
      return Err(InvalidDateTime);
    }
    var tm := parser.Time(true);
    if tm.Err? {
      return Err(tm.error);
    }
    var left := |input| - parser.pos;
    if left == 1 {
      var z := parser.ConsumeIf('Z');
      if !z {
        return Err(InvalidDateTime);
      }
    } else if left == 6 {
      var suffix := input[parser.pos..];
      if suffix[0] != '+' && suffix[0] != '-' {
        return Err(InvalidDateTime);
      }
      if suffix[1..] != "00:00" {
        return Err(NonUTCNotSupported);
      }
    } else {
      return Err(InvalidDateTime);
    }
    r := InitUTC(dt.value, tm.value);
  }

  // ----- round trips

  lemma ScanPrinted(input: seq<char>, pos: nat, v: nat, width: nat)
    requires pos + width <= |input| && input[pos..pos + width] == Decimal(v, width)
    requires v < Pow10(width)
    ensures ScanDecimal(input, pos, width) == Some(v)
  {
    NumberOfDecimal(v, width);
  }

  lemma DateParts(d: Date, o: nat)
    requires Printable(d) && o == (if d.year < 0 then 1 else 0)
    ensures var text := DateText(d);
            && text[o..o + 4] == Decimal(if d.year < 0 then -d.year else d.year, 4)
            && text[o + 5..o + 7] == Decimal(d.month, 2) && text[o + 8..o + 10] == Decimal(d.day, 2)
            && text[o + 4] == '-' && text[o + 7] == '-' && (text[0] == '-' <==> o == 1)
  {
    hide Decimal;
    var year := YearText(d.year);
    assert DateText(d) == year + "-" + Decimal(d.month, 2) + "-" + Decimal(d.day, 2);
    assert year[o..] == Decimal(if d.year < 0 then -d.year else d.year, 4);
    assert DateText(d)[o..o + 4] == year[o..];
    assert o == 0 ==> IsDigit(year[0]);
  }

  lemma DateRead(d: Date, input: seq<char>, pos: nat, o: nat)
    requires d.month <= 99 && d.day <= 99 && Printable(d) && o == (if d.year < 0 then 1 else 0)
    requires pos + |DateText(d)| <= |input| && input[pos..pos + |DateText(d)|] == DateText(d)
    ensures input[pos + o + 4] == '-' && input[pos + o + 7] == '-' && (input[pos] == '-' <==> o == 1)
    ensures ScanDecimal(input, pos + o, 4) == Some(if d.year < 0 then -d.year else d.year)
    ensures ScanDecimal(input, pos + o + 5, 2) == Some(d.month)
    ensures ScanDecimal(input, pos + o + 8, 2) == Some(d.day)
  {
    hide ScanDecimal, Decimal;
    DateParts(d, o);
    DecimalBound("", 0, 0);
    var text, year := DateText(d), if d.year < 0 then -d.year else d.year;
    Inside(input, pos, text, o, o + 4);
    Inside(input, pos, text, o + 5, o + 7);
    Inside(input, pos, text, o + 8, o + 10);
    ScanPrinted(input, pos + o, year, 4);
    ScanPrinted(input, pos + o + 5, d.month, 2);
    ScanPrinted(input, pos + o + 8, d.day, 2);
    assert input[pos + 0] == text[0] && input[pos + (o + 4)] == text[o + 4] && input[pos + (o + 7)] == text[o + 7];
  }

  /** The text of a date that does not exist is refused. */
  lemma DateRefused(d: Date, input: seq<char>, pos: nat)
    requires d.month <= 99 && d.day <= 99 && Printable(d) && !ValidDate(d)
    requires pos + |DateText(d)| <= |input| && input[pos..pos + |DateText(d)|] == DateText(d)
    ensures ScanDate(input, pos).result == Err(InvalidDate)
  {
    DateRead(d, input, pos, if d.year < 0 then 1 else 0);
    hide ScanDecimal, Decimal, DateText;
  }

  /** A printed date is read back wherever it stands, in both sign forms. */
  lemma DateRoundTrip(d: Date, input: seq<char>, pos: nat)
    requires ValidDate(d) && Printable(d)
    requires pos + |DateText(d)| <= |input| && input[pos..pos + |DateText(d)|] == DateText(d)
    ensures ScanDate(input, pos) == Scan(Ok(d), pos + |DateText(d)|)
  {
    DateRead(d, input, pos, if d.year < 0 then 1 else 0);
    hide ScanDecimal, Decimal, DateText;
  }

  lemma Inside(input: seq<char>, pos: nat, text: seq<char>, lo: nat, hi: nat)
    requires pos + |text| <= |input| && input[pos..pos + |text|] == text && lo <= hi <= |text|
    ensures input[pos + lo..pos + hi] == text[lo..hi]
    ensures forall i :: 0 <= i < |text| ==> input[pos + i] == text[i]
  {
    var part := input[pos..pos + |text|];
    assert forall i :: 0 <= i < |text| ==> part[i] == input[pos + i];
    assert part[lo..hi] == input[pos + lo..pos + hi];
  }

  predicate TwoDigitTime(t: Time) { t.hour <= 99 && t.min <= 99 && t.sec <= 99 && t.micros <= 999_999 }

  lemma ClockRead(t: Time, input: seq<char>, pos: nat)
    requires TwoDigitTime(t)
    requires pos + |TimeText(t)| <= |input| && input[pos..pos + |TimeText(t)|] == TimeText(t)
    ensures input[pos + 2] == ':' && input[pos + 5] == ':'
    ensures ScanDecimal(input, pos, 2) == Some(t.hour)
    ensures ScanDecimal(input, pos + 3, 2) == Some(t.min)
    ensures ScanDecimal(input, pos + 6, 2) == Some(t.sec)
    ensures input[pos + 8..pos + 8 + |FractionText(t.micros)|] == FractionText(t.micros)
  {
    hide ScanDecimal, Decimal;
    var text := TimeText(t);
    DecimalBound("", 0, 0);
    assert text[0..2] == Decimal(t.hour, 2) && text[3..5] == Decimal(t.min, 2) && text[6..8] == Decimal(t.sec, 2);
    assert text[2] == ':' && text[5] == ':';
    Inside(input, pos, text, 0, 2);
    Inside(input, pos, text, 3, 5);
    Inside(input, pos, text, 6, 8);
    Inside(input, pos, text, 8, |text|);
    assert text[8..|text|] == FractionText(t.micros);
    ScanPrinted(input, pos, t.hour, 2);
    ScanPrinted(input, pos + 3, t.min, 2);
    ScanPrinted(input, pos + 6, t.sec, 2);
  }

  lemma TimeFraction(t: Time, input: seq<char>, pos: nat)
    requires TwoDigitTime(t) && t.micros != 0
    requires pos + |FractionText(t.micros)| <= |input|
    requires input[pos..pos + |FractionText(t.micros)|] == FractionText(t.micros)
    requires pos + |FractionText(t.micros)| < |input| ==> !IsDigit(input[pos + |FractionText(t.micros)|])
    ensures input[pos] == '.'
    ensures RunLength(input, pos + 1) == |FractionText(t.micros)| - 1
    ensures ScanNanos(input, pos + 1) == Some(t.micros * 1000)
  {
    if t.micros % 1000 == 0 {
      FractionRead(input, pos, t.micros / 1000, 3);
    } else {
      FractionRead(input, pos, t.micros, 6);
    }
  }

  /** The part of a printed time from its seconds on. */
  lemma SecondsRoundTrip(t: Time, input: seq<char>, pos: nat)
    requires TwoDigitTime(t) && ScanDecimal(input, pos, 2) == Some(t.sec)
    requires var f := FractionText(t.micros);
             && pos + 2 + |f| <= |input| && input[pos + 2..pos + 2 + |f|] == f
             && (pos + 2 + |f| < |input| ==> input[pos + 2 + |f|] != '.' && !IsDigit(input[pos + 2 + |f|]))
    ensures ScanSeconds(input, pos, t.hour, t.min, true)
         == Scan(if ValidTime(t) then Ok(t) else Err(InvalidTime), pos + 2 + |FractionText(t.micros)|)
  {
    if t.micros != 0 { TimeFraction(t, input, pos + 2); }
    hide ScanDecimal, ScanNanos, RunLength, Decimal;
  }

  /** A printed time is read back, in its forms of 0, 3 and 6 fraction digits; one that does not exist is refused. */
  lemma TimeRoundTrip(t: Time, input: seq<char>, pos: nat)
    requires TwoDigitTime(t)
    requires pos + |TimeText(t)| <= |input| && input[pos..pos + |TimeText(t)|] == TimeText(t)
    requires pos + |TimeText(t)| < |input| ==> input[pos + |TimeText(t)|] != '.' && !IsDigit(input[pos + |TimeText(t)|])
    ensures ScanTime(input, pos, true) == Scan(if ValidTime(t) then Ok(t) else Err(InvalidTime), pos + |TimeText(t)|)
  {
    ClockRead(t, input, pos);
    SecondsRoundTrip(t, input, pos + 6);
    hide ScanDecimal, ScanSeconds, TimeText, FractionText;
  }

  lemma FractionRead(input: seq<char>, pos: nat, v: nat, width: nat)
    requires (width == 3 && v <= 999) || (width == 6 && v <= 999_999)
    requires pos + 1 + width <= |input| && input[pos..pos + 1 + width] == "." + Decimal(v, width)
    requires pos + 1 + width < |input| ==> !IsDigit(input[pos + 1 + width])
    ensures input[pos] == '.' && RunLength(input, pos + 1) == width
    ensures ScanNanos(input, pos + 1) == Some(v * (if width == 3 then 1_000_000 else 1_000))
  {
    var fraction := "." + Decimal(v, width);
    assert fraction[1..1 + width] == Decimal(v, width);
    Inside(input, pos, fraction, 1, 1 + width);
    assert input[pos + 0] == fraction[0];
    SmallPowers();
    RunLengthIs(input, pos + 1, width);
    NumberOfDecimal(v, width);
  }

  lemma SmallPowers()
    ensures Pow10(3) == 1_000 && Pow10(6) == 1_000_000
  {
    DecimalBound("", 0, 0);
    PowSplit(3, 3);
  }

  /** Parsing the printed text is the same as encoding the date and the time directly. */
  lemma TextIsEncoding(d: Date, t: Time)
    requires ValidDate(d) && ValidTime(t) && -4712 <= d.year <= 9999
    ensures ParsedInstant(DateTimeText(d, t)) == InitUTC(d, t)
  {
    var text := DateTimeText(d, t);
    var n := |DateText(d)|;
    assert text[0..n] == DateText(d) && text[n] == 'T';
    assert text[n + 1..n + 1 + |TimeText(t)|] == TimeText(t);
    assert text[n + 1 + |TimeText(t)|..] == "Z";
    DateRoundTrip(d, text, 0);
    TimeRoundTrip(t, text, n + 1);
  }

  /** Formatting an instant and parsing the text returns the instant exactly when it lies outside the
      pre-1970 last-second window; inside, the text names the instant one day later. */
  lemma FormatParse(dt: DateTime)
    requires InJulianPeriod(dt.micros)
    ensures InWindow(dt.micros) ==> dt.micros + DAY < LAST_MICRO
    ensures ParsedInstant(DateTimeText(DateSpec(dt), TimeOf(dt))) == Ok(DateTime(Displayed(dt.micros)))
    ensures ParsedInstant(DateTimeText(DateSpec(dt), TimeOf(dt))) == Ok(dt) <==> !InWindow(dt.micros)
  {
    TextIsEncoding(DateSpec(dt), TimeOf(dt));
    DecodeEncode(dt);
  }

  lemma RunStops(input: seq<char>, p: nat, n: nat)
    requires p <= n < |input| && !IsDigit(input[n])
    ensures p + RunLength(input, p) <= n
  {
  }

  lemma ShortFits(input: seq<char>, pos: nat)
    requires pos <= |input| && RunLength(input, pos) <= 9
    ensures Fits(input, pos)
  {
    var n := RunLength(input, pos);
    NumberBound(input[pos..pos + n]);
    PowGrows(n, 9);
    PowSplit(4, 5);
    PowSplit(4, 1);
    DecimalBound("", 0, 0);
  }

  /** Printed instants meet what the parser asks of its input. */
  lemma PrintedIsParseable(d: Date, t: Time)
    requires ValidDate(d) && ValidTime(t) && -4712 <= d.year <= 9999
    ensures Readable(DateTimeText(d, t))
  {
    hide ScanDate, ScanDecimal, DateText, Fits, Decimal;
    var text, n := DateTimeText(d, t), |DateText(d)|;
    assert text[0..n] == DateText(d) && text[n] == 'T';
    DateRoundTrip(d, text, 0);
    FractionFits(text, n + 10);
  }

  /** At most six digits and the zone. */
  lemma FractionFits(input: seq<char>, pos: nat)
    requires pos <= |input| <= pos + 7 && (pos < |input| ==> input[|input| - 1] == 'Z')
    ensures Fits(input, pos)
  {
    if pos < |input| { RunStops(input, pos, |input| - 1); }
    ShortFits(input, pos);
  }

  /** A printed date, standing alone, is a complete text of a date; likewise a printed time. */
  lemma WholeTexts(d: Date, t: Time)
    requires ValidDate(d) && Printable(d) && ValidTime(t)
    ensures ScanDate(DateText(d), 0) == Scan(Ok(d), |DateText(d)|)
    ensures ScanTime(TimeText(t), 0, true) == Scan(Ok(t), |TimeText(t)|)
  {
    DateRoundTrip(d, DateText(d), 0);
    TimeRoundTrip(t, TimeText(t), 0);
  }

  /** The digits after the point are a decimal fraction: value and digits are as nanoseconds to a second. Ten digits and
      more are refused. */
  lemma FractionExact(input: seq<char>, pos: nat)
    requires pos < |input|
    ensures var n := RunLength(input, pos);
            && (ScanNanos(input, pos).Some? <==> n <= 9)
            && (n <= 9 ==>
                  ScanNanos(input, pos).value * Pow10(n) == Number(input[pos..pos + n]) * 1_000_000_000)
  {
    var n := RunLength(input, pos);
    if n <= 9 {
      PowSplit(9 - n, n);
      assert Pow10(9) == 1_000_000_000 by { PowSplit(4, 5); PowSplit(4, 1); DecimalBound("", 0, 0); }
      Regroup(Number(input[pos..pos + n]), Pow10(9 - n), Pow10(n));
    }
  }

  lemma Regroup(a: nat, b: nat, c: nat)
    ensures a * b * c == a * (b * c)
  {
  }

  /** Seconds can be left off, and a fraction that is not asked for is not read. */
  lemma ShorterTimes(t: Time, input: seq<char>, pos: nat)
    requires TwoDigitTime(t)
    requires pos + 5 <= |input| && input[pos..pos + 5] == Decimal(t.hour, 2) + ":" + Decimal(t.min, 2)
    ensures pos + 5 == |input| || input[pos + 5] != ':' ==>
              forall allowNano :: ScanTime(input, pos, allowNano) == Scan(NewTime(t.hour, t.min, 0, 0), pos + 5)
    ensures pos + 8 <= |input| && input[pos + 5..pos + 8] == ":" + Decimal(t.sec, 2) ==>
              ScanTime(input, pos, false) == Scan(NewTime(t.hour, t.min, t.sec, 0), pos + 8)
  {
    hide ScanDecimal, Decimal, NewTime;
    var text := Decimal(t.hour, 2) + ":" + Decimal(t.min, 2);
    DecimalBound("", 0, 0);
    assert text[0..2] == Decimal(t.hour, 2) && text[3..5] == Decimal(t.min, 2) && text[2] == ':';
    Inside(input, pos, text, 0, 2);
    Inside(input, pos, text, 3, 5);
    ScanPrinted(input, pos, t.hour, 2);
    ScanPrinted(input, pos + 3, t.min, 2);
    if pos + 8 <= |input| && input[pos + 5..pos + 8] == ":" + Decimal(t.sec, 2) {
      var rest := ":" + Decimal(t.sec, 2);
      assert rest[1..3] == Decimal(t.sec, 2) && rest[0] == ':';
      Inside(input, pos + 5, rest, 1, 3);
      ScanPrinted(input, pos + 6, t.sec, 2);
    }
  }

  // ----- time zones

  /** After a printed date and time only the three ways to say UTC are accepted; another offset is refused as such, and
      everything else as no instant. */
  lemma ZoneDecides(d: Date, t: Time, zone: seq<char>)
    requires ValidDate(d) && ValidTime(t) && -4712 <= d.year <= 9999
    requires zone == [] || (zone[0] != '.' && !IsDigit(zone[0]))
    ensures var text := DateText(d) + "T" + TimeText(t) + zone;
            ParsedInstant(text) ==
              if zone == "Z" || zone == "+00:00" || zone == "-00:00" then InitUTC(d, t)
              else if |zone| == 6 && (zone[0] == '+' || zone[0] == '-') then Err(NonUTCNotSupported)
              else Err(InvalidDateTime)
  {
    hide DateText, TimeText, FractionText, YearText, Decimal, InitUTC, ValidDate, ValidTime, ScanDate, ScanTime,
         TwoDigitTime, ZoneCheck;
    var text, n := DateText(d) + "T" + TimeText(t) + zone, |DateText(d)|;
    assert text[0..n] == DateText(d) && text[n] == 'T';
    assert text[n + 1..n + 1 + |TimeText(t)|] == TimeText(t);
    assert text[n + 1 + |TimeText(t)|..] == zone;
    assert TwoDigitTime(t) by { ValidFits(t); }
    DateRoundTrip(d, text, 0);
    TimeRoundTrip(t, text, n + 1);
    ZoneAnswer(zone);
  }

  lemma ZoneAnswer(zone: seq<char>)
    ensures ZoneCheck(zone) ==
            if zone == "Z" || zone == "+00:00" || zone == "-00:00" then None
            else if |zone| == 6 && (zone[0] == '+' || zone[0] == '-') then Some(NonUTCNotSupported)
            else Some(InvalidDateTime)
  {
    if |zone| == 6 { assert zone == [zone[0]] + zone[1..]; }
  }

  lemma ValidFits(t: Time)
    requires ValidTime(t)
    ensures TwoDigitTime(t)
  {
  }

  /** After the date the year is judged first, and then the letter before the time. */
  lemma SeparatorDecides(d: Date, separator: char, rest: seq<char>)
    requires ValidDate(d) && Printable(d) && (d.year < -4712 || separator != 'T')
    ensures ParsedInstant(DateText(d) + [separator] + rest)
         == if d.year < -4712 then Err(OutsideJulianPeriod) else Err(InvalidDateTime)
  {
    hide DateText, YearText, Decimal, InitUTC, ValidDate, ValidTime, ScanDate, ScanTime;
    var text, n := DateText(d) + [separator] + rest, |DateText(d)|;
    assert text[0..n] == DateText(d) && text[n] == separator;
    DateRoundTrip(d, text, 0);
  }

  /** Whatever else a text says, it is accepted only if it ends by saying UTC. */
  lemma AcceptedIsUTC(input: seq<char>)
    requires ParsedInstant(input).Ok?
    ensures |input| >= 6
    ensures input[|input| - 1] == 'Z' || input[|input| - 6..] == "+00:00" || input[|input| - 6..] == "-00:00"
  {
    hide ScanDate, ScanTime, InitUTC;
    var date := ScanDate(input, 0);
    var time := ScanTime(input, date.next + 1, true);
    var zone := input[time.next..];
    ScanDateBounds(input, 0);
    if |zone| == 1 {
      assert zone[0] == input[|input| - 1];
    } else {
      assert zone == [zone[0]] + zone[1..] && zone == input[|input| - 6..];
    }
  }

  lemma ScanDateBounds(input: seq<char>, pos: nat)
    ensures ScanDate(input, pos).result.Ok? ==> pos + 10 <= |input|
  {
  }

  /** The text of an instant, character by character. */
  lemma TextExample()
    ensures DateTimeText(Date(2024, 5, 17), Time(13, 46, 58, 93_000)) == "2024-05-17T13:46:58.093Z"
  {
    hide DateText, TimeText;
    DateExample();
    TimeExample();
    assert "2024-05-17" + "T" == "2024-05-17T";
    assert "2024-05-17T" + "13:46:58.093" == "2024-05-17T13:46:58.093";
    assert "2024-05-17T13:46:58.093" + "Z" == "2024-05-17T13:46:58.093Z";
  }

  lemma DateExample()
    ensures DateText(Date(2024, 5, 17)) == "2024-05-17"
    ensures DateText(Date(-2024, 5, 17)) == "-2024-05-17"
  {
    hide Decimal, Digit;
    Digits();
    FourDigits(2024);
    TwoDigits(5);
    TwoDigits(17);
    assert YearText(2024) == "2024" && YearText(-2024) == "-2024";
    assert "2024" + "-" + "05" + "-" + "17" == "2024-05-17" && "-2024" + "-" + "05" + "-" + "17" == "-2024-05-17";
  }

  lemma TimeExample()
    ensures TimeText(Time(13, 46, 58, 93_000)) == "13:46:58.093"
  {
    hide Decimal, Digit;
    Digits();
    TwoDigits(13);
    TwoDigits(46);
    TwoDigits(58);
    ThreeDigits(93);
    assert FractionText(93_000) == ".093";
    assert "13" + ":" + "46" + ":" + "58" + ".093" == "13:46:58.093";
  }

  lemma Digits()
    ensures Digit(0) == '0' && Digit(1) == '1' && Digit(2) == '2' && Digit(3) == '3' && Digit(4) == '4'
            && Digit(5) == '5' && Digit(6) == '6' && Digit(7) == '7' && Digit(8) == '8' && Digit(9) == '9'
  {
  }

  lemma DecimalStep(n: nat, width: nat)
    requires width > 0
    ensures Decimal(n, width) == Decimal(n / 10, width - 1) + [Digit(n % 10)] && Decimal(n, 0) == []
  {
  }

  lemma TwoDigits(n: nat)
    requires n < 100
    ensures Decimal(n, 2) == [Digit(n / 10), Digit(n % 10)]
  {
    hide Decimal, Digit;
    DecimalStep(n, 2);
    DecimalStep(n / 10, 1);
    DecimalStep(n / 10 / 10, 1);
  }

  lemma ThreeDigits(n: nat)
    requires n < 1000
    ensures Decimal(n, 3) == [Digit(n / 100), Digit(n / 10 % 10), Digit(n % 10)]
  {
    hide Decimal, Digit;
    DecimalStep(n, 3);
    TwoDigits(n / 10);
    assert n / 10 / 10 == n / 100;
  }

  lemma FourDigits(n: nat)
    requires n < 10000
    ensures Decimal(n, 4) == [Digit(n / 1000), Digit(n / 100 % 10), Digit(n / 10 % 10), Digit(n % 10)]
  {
    hide Decimal, Digit;
    DecimalStep(n, 4);
    ThreeDigits(n / 10);
    assert n / 10 / 100 == n / 1000 && n / 10 / 10 % 10 == n / 100 % 10;
  }
}
