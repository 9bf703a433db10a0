/** Go's time.Time as an instant and a zone offset, with the civil calendar and
    the fixed layout "2006-01-02T15:04:05.000000Z" in which evidence prints it. */
module Timestamps {
  import opened Text
  import opened Digits

  const SECOND: int := 1_000_000_000
  const DAY: int := 86_400_000_000_000

  /** time.Duration: nanoseconds in a 64-bit integer. */
  type Duration = d: int | -0x8000_0000_0000_0000 <= d < 0x8000_0000_0000_0000

  /** A 64-bit product, wrapped as Go's arithmetic wraps it. */
  function Wrap(x: int): Duration { (x + 0x8000_0000_0000_0000) % 0x1_0000_0000_0000_0000 - 0x8000_0000_0000_0000 }

  /** Nanoseconds since 0001-01-01T00:00:00 UTC, and the zone offset in seconds. */
  datatype Time = Time(nanos: int, offset: int)

  predicate IsZero(t: Time) { t.nanos == 0 }

  /** utcDay: the day number of an instant in UTC; day 0 is 0001-01-01. */
  function UtcDay(t: Time): int { t.nanos / DAY }

  /** requireUTCMicrosecond: present, in UTC, and without sub-microsecond digits. */
  predicate UtcMicrosecond(t: Time) { !IsZero(t) && t.offset == 0 && t.nanos % 1000 == 0 }

  /** Microseconds on the wall clock of the value's own zone, which is what Format prints. */
  function WallMicros(t: Time): int { (t.nanos + t.offset * SECOND) / 1000 }

  // ---------------------------------------------------------------- calendar

  predicate IsLeap(year: int) { year % 4 == 0 && (year % 100 != 0 || year % 400 == 0) }

  /** Day number of January 1st. */
  function YearStart(year: int): int {
    var y := year - 1;
    365 * y + y / 4 - y / 100 + y / 400
  }

  function Min(a: int, b: int): int { if a <= b then a else b }

  /** The year a day falls in, by whole 400-, 100-, 4- and 1-year cycles. */
  function YearOf(day: int): int {
    var a, r := day / 146097, day % 146097;
    var b := Min(r / 36524, 3);
    var s := r - 36524 * b;
    var c, u := s / 1461, s % 1461;
    var d := Min(u / 365, 3);
    400 * a + 100 * b + 4 * c + d + 1
  }

  lemma YearStartCycles(a: int, b: int, c: int, d: int)
    requires 0 <= b <= 3 && 0 <= c <= 24 && 0 <= d <= 3
    ensures YearStart(400 * a + 100 * b + 4 * c + d + 1) == 146097 * a + 36524 * b + 1461 * c + 365 * d
    ensures IsLeap(400 * a + 100 * b + 4 * c + d + 1) <==> d == 3 && (c != 24 || b == 3)
  {
    var y := 400 * a + 100 * b + 4 * c + d;
    UniqueRemainder(y, 4, 100 * a + 25 * b + c, d);
    UniqueRemainder(y, 100, 4 * a + b, 4 * c + d);
    UniqueRemainder(y, 400, a, 100 * b + 4 * c + d);
    NextRemainder(y, 4);
    NextRemainder(y, 100);
    NextRemainder(y, 400);
  }

  lemma NextRemainder(y: int, m: int)
    requires m > 1
    ensures (y + 1) % m == if y % m == m - 1 then 0 else y % m + 1
  {
    if y % m == m - 1 {
      UniqueRemainder(y + 1, m, y / m + 1, 0);
    } else {
      UniqueRemainder(y + 1, m, y / m, y % m + 1);
    }
  }

  lemma YearStartNext(year: int)
    ensures YearStart(year + 1) == YearStart(year) + (if IsLeap(year) then 366 else 365)
  {
    var a, r := (year - 1) / 400, (year - 1) % 400;
    var b, c, d := r / 100, r % 100 / 4, r % 4;
    assert r == 100 * b + 4 * c + d;
    YearStartCycles(a, b, c, d);
    NextCycle(year, a, b, c, d);
  }

  lemma NextCycle(year: int, a: int, b: int, c: int, d: int)
    requires 0 <= b <= 3 && 0 <= c <= 24 && 0 <= d <= 3
    requires year == 400 * a + 100 * b + 4 * c + d + 1
    ensures YearStart(year + 1) == 146097 * a + 36524 * b + 1461 * c + 365 * d
      + (if d == 3 && (c != 24 || b == 3) then 366 else 365)
  {
    if d < 3 {
      YearStartCycles(a, b, c, d + 1);
    } else if c < 24 {
      YearStartCycles(a, b, c + 1, 0);
    } else if b < 3 {
      YearStartCycles(a, b + 1, 0, 0);
    } else {
      YearStartCycles(a + 1, 0, 0, 0);
    }
  }

  lemma {:induction false} YearStartMonotone(a: int, b: int)
    requires a <= b
    ensures YearStart(a) <= YearStart(b)
    decreases b - a
  {
    if a < b {
      YearStartMonotone(a, b - 1);
      YearStartNext(b - 1);
    }
  }

  /** Every day lies in the year YearOf gives it. */
  lemma YearOfBounds(day: int)
    ensures YearStart(YearOf(day)) <= day < YearStart(YearOf(day) + 1)
  {
    hide YearStart, IsLeap;
    var a, r := day / 146097, day % 146097;
    var b := Min(r / 36524, 3);
    var s := r - 36524 * b;
    var c, u := s / 1461, s % 1461;
    var d := Min(u / 365, 3);
    assert 0 <= s <= 36524;
    assert 0 <= c <= 24;
    YearStartCycles(a, b, c, d);
    YearStartNext(YearOf(day));
    assert day == 146097 * a + 36524 * b + 1461 * c + u;
  }

  lemma YearUnique(day: int, y: int, z: int)
    requires YearStart(y) <= day < YearStart(y + 1)
    requires YearStart(z) <= day < YearStart(z + 1)
    ensures y == z
  {
    if y < z { YearStartMonotone(y + 1, z); }
    if z < y { YearStartMonotone(z + 1, y); }
  }

  /** Day of the year on which a month starts; month 13 is the next year. */
  function MonthStart(month: nat, leap: bool): nat
    requires 1 <= month <= 13
  {
    [0, 31, 59, 90, 120, 151, 181, 212, 243, 273, 304, 334, 365][month - 1] + (if leap && month > 2 then 1 else 0)
  }

  function DaysIn(month: nat, leap: bool): nat
    requires 1 <= month <= 12
  {
    MonthStart(month + 1, leap) - MonthStart(month, leap)
  }

  /** The month holding a day of the year, searching from `month` on. */
  function MonthFrom(yday: nat, month: nat, leap: bool): (m: nat)
    requires 1 <= month <= 12 && MonthStart(month, leap) <= yday < MonthStart(13, leap)
    ensures 1 <= m <= 12 && MonthStart(m, leap) <= yday < MonthStart(m + 1, leap)
    decreases 12 - month
  {
    if yday < MonthStart(month + 1, leap) then month else MonthFrom(yday, month + 1, leap)
  }

  lemma MonthUnique(yday: nat, m: nat, n: nat, leap: bool)
    requires 1 <= m <= 12 && 1 <= n <= 12
    requires MonthStart(m, leap) <= yday < MonthStart(m + 1, leap)
    requires MonthStart(n, leap) <= yday < MonthStart(n + 1, leap)
    ensures m == n
  {
  }

  datatype Civil = Civil(year: int, month: nat, day: nat)

  predicate CivilValid(c: Civil) { 1 <= c.month <= 12 && 1 <= c.day <= DaysIn(c.month, IsLeap(c.year)) }

  function DayOf(c: Civil): int
    requires CivilValid(c)
  {
    YearStart(c.year) + MonthStart(c.month, IsLeap(c.year)) + c.day - 1
  }

  function CivilOf(day: int): (c: Civil)
    ensures CivilValid(c) && DayOf(c) == day
  {
    YearOfBounds(day);
    var year := YearOf(day);
    YearStartNext(year);
    var yday := day - YearStart(year);
    var month := MonthFrom(yday, 1, IsLeap(year));
    Civil(year, month, yday - MonthStart(month, IsLeap(year)) + 1)
  }

  lemma DayWithinYear(c: Civil)
    requires CivilValid(c)
    ensures YearStart(c.year) <= DayOf(c) < YearStart(c.year + 1)
  {
    YearStartNext(c.year);
    assert MonthStart(c.month + 1, IsLeap(c.year)) <= MonthStart(13, IsLeap(c.year));
  }

  /** Distinct valid dates are distinct days; with CivilOf, the calendar is a bijection. */
  lemma DayOfInjective(a: Civil, b: Civil)
    requires CivilValid(a) && CivilValid(b) && DayOf(a) == DayOf(b)
    ensures a == b
  {
    DayWithinYear(a);
    DayWithinYear(b);
    YearUnique(DayOf(a), a.year, b.year);
    MonthUnique(DayOf(a) - YearStart(a.year), a.month, b.month, IsLeap(a.year));
  }

  // ---------------------------------------------------------------- clock

  datatype Clock = Clock(date: Civil, hour: nat, minute: nat, second: nat, micro: nat)

  predicate ClockValid(c: Clock) {
    CivilValid(c.date) && c.hour < 24 && c.minute < 60 && c.second < 60 && c.micro < 1_000_000
  }

  function MicrosOf(c: Clock): int
    requires ClockValid(c)
  {
    (((DayOf(c.date) * 24 + c.hour) * 60 + c.minute) * 60 + c.second) * 1_000_000 + c.micro
  }

  function ClockOf(micros: int): (c: Clock)
    ensures ClockValid(c) && MicrosOf(c) == micros
  {
    var seconds := micros / 1_000_000;
    var minutes := seconds / 60;
    var hours := minutes / 60;
    Clock(CivilOf(hours / 24), hours % 24, minutes % 60, seconds % 60, micros % 1_000_000)
  }

  /** The year Format prints for a value. */
  function Year(t: Time): int { ClockOf(WallMicros(t)).date.year }

  lemma ClockYearMonotone(a: Clock, b: Clock)
    requires ClockValid(a) && ClockValid(b) && MicrosOf(a) <= MicrosOf(b)
    ensures a.date.year <= b.date.year
  {
    DayWithinYear(a.date);
    DayWithinYear(b.date);
    assert DayOf(a.date) <= DayOf(b.date);
    if a.date.year > b.date.year { YearStartMonotone(b.date.year + 1, a.date.year); }
  }

  lemma YearMonotone(s: Time, t: Time)
    requires WallMicros(s) <= WallMicros(t)
    ensures Year(s) <= Year(t)
  {
    hide ClockOf, MicrosOf, ClockValid;
    ClockYearMonotone(ClockOf(WallMicros(s)), ClockOf(WallMicros(t)));
  }

  // ---------------------------------------------------------------- printed form

  function PadYear(n: nat): string { if n < 10000 then Pad(n, 4) else Show(n) }

  function PrintYear(y: int): string { if y < 0 then "-" + PadYear(-y) else PadYear(y) }

  function PrintDate(c: Clock): string { "-" + Pad(c.date.month, 2) + "-" + Pad(c.date.day, 2) }

  function PrintClock(c: Clock): string {
    "T" + Pad(c.hour, 2) + ":" + Pad(c.minute, 2) + ":" + Pad(c.second, 2) + "." + Pad(c.micro, 6) + "Z"
  }

  /** Month to microseconds: "-MM-DDThh:mm:ss.uuuuuuZ". */
  function PrintRest(c: Clock): string { PrintDate(c) + PrintClock(c) }

  /** Time.Format(timestampLayout) */
  function Print(t: Time): string {
    var c := ClockOf(WallMicros(t));
    PrintYear(c.date.year) + PrintRest(c)
  }

  predicate DigitsAt(s: string, from: nat, to: nat) {
    from <= to <= |s| && AllDigits(s[from..to])
  }

  function Field(s: string, from: nat, to: nat): nat
    requires DigitsAt(s, from, to)
  {
    NatOf(s[from..to])
  }

  /** The separators and digits of the fixed-width form. */
  predicate Shaped(s: string) {
    && |s| == 27
    && s[4] == '-' && s[7] == '-' && s[10] == 'T' && s[13] == ':' && s[16] == ':' && s[19] == '.' && s[26] == 'Z'
    && DigitsAt(s, 0, 4) && DigitsAt(s, 5, 7) && DigitsAt(s, 8, 10) && DigitsAt(s, 11, 13) && DigitsAt(s, 14, 16)
    && DigitsAt(s, 17, 19) && DigitsAt(s, 20, 26)
  }

  function Fields(s: string): Clock
    requires Shaped(s)
  {
    Clock(Civil(Field(s, 0, 4), Field(s, 5, 7), Field(s, 8, 10)),
          Field(s, 11, 13), Field(s, 14, 16), Field(s, 17, 19), Field(s, 20, 26))
  }

  /** time.Parse(timestampLayout, s) on the fixed-width form; the result is in UTC. */
  function Read(s: string): Option<Time> {
    if !Shaped(s) || !ClockValid(Fields(s)) then None
    else Some(Time(MicrosOf(Fields(s)) * 1000, 0))
  }

  lemma PadTwo(n: nat)
    requires n < 100
    ensures |Pad(n, 2)| == 2 && AllDigits(Pad(n, 2)) && NatOf(Pad(n, 2)) == n
  {
    assert Pow10(2) == 100;
    hide Pad, NatOf, Pow10;
    PadNat(n, 2);
  }

  lemma PadSix(n: nat)
    requires n < 1_000_000
    ensures |Pad(n, 6)| == 6 && AllDigits(Pad(n, 6)) && NatOf(Pad(n, 6)) == n
  {
    assert Pow10(6) == 1_000_000;
    hide Pad, NatOf, Pow10;
    PadNat(n, 6);
  }

  lemma PadYearShape(n: nat)
    ensures AllDigits(PadYear(n)) && NatOf(PadYear(n)) == n && |PadYear(n)| >= 4
    ensures |PadYear(n)| == 4 <==> n < 10000
  {
    assert Pow10(4) == 10000;
    hide Pad, Show, NatOf, Pow10;
    if n < 10000 {
      PadNat(n, 4);
      UniqueRemainder(n, 10000, 0, n);
    } else {
      ShowNat(n);
      ShowLength(n, 4);
    }
  }

  lemma ClockBounds(c: Clock)
    requires ClockValid(c)
    ensures c.date.month < 100 && c.date.day < 100 && c.hour < 100 && c.minute < 100 && c.second < 100
      && c.micro < 1_000_000
  {
  }

  lemma DateFields(c: Clock, r: string)
    requires ClockValid(c) && r == PrintDate(c)
    ensures |r| == 6 && r[0] == '-' && r[3] == '-' && r[1..3] == Pad(c.date.month, 2) && r[4..6] == Pad(c.date.day, 2)
  {
    ClockBounds(c);
    hide Pad, NatOf, ClockValid;
    PadTwo(c.date.month); PadTwo(c.date.day);
  }

  function HourMinute(c: Clock): string { "T" + Pad(c.hour, 2) + ":" + Pad(c.minute, 2) + ":" }

  function SecondMicro(c: Clock): string { Pad(c.second, 2) + "." + Pad(c.micro, 6) + "Z" }

  lemma HourFields(c: Clock, x: string)
    requires ClockValid(c) && x == HourMinute(c)
    ensures |x| == 7 && x[0] == 'T' && x[3] == ':' && x[6] == ':' && x[1..3] == Pad(c.hour, 2)
      && x[4..6] == Pad(c.minute, 2)
  {
    ClockBounds(c);
    hide Pad, NatOf, ClockValid;
    PadTwo(c.hour);
    PadTwo(c.minute);
  }

  lemma SecondFields(c: Clock, y: string)
    requires ClockValid(c) && y == SecondMicro(c)
    ensures |y| == 10 && y[2] == '.' && y[9] == 'Z' && y[0..2] == Pad(c.second, 2) && y[3..9] == Pad(c.micro, 6)
  {
    ClockBounds(c);
    hide Pad, NatOf, ClockValid;
    PadTwo(c.second);
    PadSix(c.micro);
  }

  lemma ClockHalves(c: Clock)
    ensures PrintClock(c) == HourMinute(c) + SecondMicro(c)
  {
    hide Pad;
  }

  lemma ClockFields(c: Clock, r: string)
    requires ClockValid(c) && r == PrintClock(c)
    ensures |r| == 17 && r[0] == 'T' && r[3] == ':' && r[6] == ':' && r[9] == '.' && r[16] == 'Z'
    ensures r[1..3] == Pad(c.hour, 2) && r[4..6] == Pad(c.minute, 2) && r[7..9] == Pad(c.second, 2)
      && r[10..16] == Pad(c.micro, 6)
  {
    hide Pad, NatOf, ClockValid, PrintClock, HourMinute, SecondMicro;
    var x, y := HourMinute(c), SecondMicro(c);
    HourFields(c, x);
    SecondFields(c, y);
    ClockHalves(c);
    assert r[1..3] == x[1..3] && r[4..6] == x[4..6] && r[7..9] == y[0..2] && r[10..16] == y[3..9];
  }

  /** After the year come six fixed-width fields. */
  lemma RestFields(c: Clock, r: string)
    requires ClockValid(c) && r == PrintRest(c)
    ensures |r| == 23 && r[0] == '-' && r[3] == '-' && r[6] == 'T' && r[9] == ':' && r[12] == ':' && r[15] == '.'
      && r[22] == 'Z'
    ensures r[1..3] == Pad(c.date.month, 2) && r[4..6] == Pad(c.date.day, 2) && r[7..9] == Pad(c.hour, 2)
    ensures r[10..12] == Pad(c.minute, 2) && r[13..15] == Pad(c.second, 2) && r[16..22] == Pad(c.micro, 6)
  {
    hide Pad, PrintDate, PrintClock, ClockValid;
    var d, t := PrintDate(c), PrintClock(c);
    DateFields(c, d);
    ClockFields(c, t);
    assert r[1..3] == d[1..3] && r[4..6] == d[4..6] && r[7..9] == t[1..3];
    assert r[10..12] == t[4..6] && r[13..15] == t[7..9] && r[16..22] == t[10..16];
  }

  lemma RestInjective(a: Clock, b: Clock)
    requires ClockValid(a) && ClockValid(b) && PrintRest(a) == PrintRest(b)
    ensures a.(date := a.date.(year := b.date.year)) == b
  {
    ClockBounds(a);
    ClockBounds(b);
    hide Pad, NatOf, ClockValid, PrintRest;
    RestFields(a, PrintRest(a));
    RestFields(b, PrintRest(b));
    PadTwo(a.date.month); PadTwo(a.date.day); PadTwo(a.hour); PadTwo(a.minute); PadTwo(a.second); PadSix(a.micro);
    PadTwo(b.date.month); PadTwo(b.date.day); PadTwo(b.hour); PadTwo(b.minute); PadTwo(b.second); PadSix(b.micro);
  }

  lemma YearInjective(a: int, b: int)
    requires PrintYear(a) == PrintYear(b)
    ensures a == b
  {
    PadYearShape(if a < 0 then -a else a);
    PadYearShape(if b < 0 then -b else b);
    var s := PrintYear(a);
    assert a < 0 <==> s[0] == '-';
    assert b < 0 <==> s[0] == '-';
    if a < 0 {
      assert PadYear(-a) == s[1..] == PadYear(-b);
    }
  }

  /** Two times print alike exactly when their wall clocks agree to the microsecond. */
  lemma PrintInjective(s: Time, t: Time)
    ensures Print(s) == Print(t) <==> WallMicros(s) == WallMicros(t)
  {
    hide ClockOf, WallMicros, PrintYear, PrintRest, MicrosOf, ClockValid;
    if Print(s) == Print(t) {
      var a, b := ClockOf(WallMicros(s)), ClockOf(WallMicros(t));
      RestFields(a, PrintRest(a));
      RestFields(b, PrintRest(b));
      var x, y := PrintYear(a.date.year), PrintYear(b.date.year);
      assert x == Print(s)[..|Print(s)| - 23] == Print(t)[..|Print(t)| - 23] == y;
      assert PrintRest(a) == Print(s)[|Print(s)| - 23..] == Print(t)[|Print(t)| - 23..] == PrintRest(b);
      YearInjective(a.date.year, b.date.year);
      RestInjective(a, b);
    }
  }

  lemma PrintedFields(y: string, r: string, s: string)
    requires |y| == 4 && |r| == 23 && s == y + r
    ensures |s| == 27 && s[0..4] == y
    ensures forall i :: 0 <= i < 23 ==> s[4 + i] == r[i]
    ensures s[5..7] == r[1..3] && s[8..10] == r[4..6] && s[11..13] == r[7..9]
    ensures s[14..16] == r[10..12] && s[17..19] == r[13..15] && s[20..26] == r[16..22]
  {
  }

  lemma SlicesAreDigits(c: Clock, r: string)
    requires ClockValid(c) && r == PrintRest(c) && |r| == 23
    ensures AllDigits(r[1..3]) && AllDigits(r[4..6]) && AllDigits(r[7..9]) && AllDigits(r[10..12])
      && AllDigits(r[13..15]) && AllDigits(r[16..22])
  {
    ClockBounds(c);
    hide Pad, NatOf, ClockValid, PrintRest, AllDigits;
    RestFields(c, r);
    PadTwo(c.date.month); PadTwo(c.date.day); PadTwo(c.hour); PadTwo(c.minute); PadTwo(c.second); PadSix(c.micro);
  }

  lemma PrintedShape(c: Clock, s: string, y: string, r: string)
    requires ClockValid(c) && c.date.year >= 0 && y == PadYear(c.date.year) && r == PrintRest(c) && s == y + r
      && |y| == 4
    ensures Shaped(s) && s[0..4] == y && s[5..7] == r[1..3] && s[8..10] == r[4..6] && s[11..13] == r[7..9]
    ensures s[14..16] == r[10..12] && s[17..19] == r[13..15] && s[20..26] == r[16..22]
    ensures r[1..3] == Pad(c.date.month, 2) && r[4..6] == Pad(c.date.day, 2) && r[7..9] == Pad(c.hour, 2)
    ensures r[10..12] == Pad(c.minute, 2) && r[13..15] == Pad(c.second, 2) && r[16..22] == Pad(c.micro, 6)
  {
    hide Pad, NatOf, ClockValid, PrintRest, PadYear, AllDigits;
    PadYearShape(c.date.year);
    RestFields(c, r);
    SlicesAreDigits(c, r);
    PrintedFields(y, r, s);
    assert s[4] == r[0] && s[7] == r[3] && s[10] == r[6] && s[13] == r[9] && s[16] == r[12] && s[19] == r[15]
      && s[26] == r[22];
  }

  lemma ReadShaped(c: Clock, s: string)
    requires ClockValid(c) && 0 <= c.date.year <= 9999
    requires s == PrintYear(c.date.year) + PrintRest(c)
    ensures Shaped(s) && Fields(s) == c
  {
    ClockBounds(c);
    PadYearShape(c.date.year);
    PrintedShape(c, s, PadYear(c.date.year), PrintRest(c));
    hide Pad, NatOf, ClockValid, PrintRest, PadYear, Shaped;
    PadTwo(c.date.month); PadTwo(c.date.day); PadTwo(c.hour); PadTwo(c.minute); PadTwo(c.second); PadSix(c.micro);
  }

  lemma PrintedLength(c: Clock, s: string)
    requires ClockValid(c)
    requires s == PrintYear(c.date.year) + PrintRest(c)
    ensures |s| == 27 <==> 0 <= c.date.year <= 9999
  {
    hide PadYear, PrintRest, ClockValid;
    PadYearShape(if c.date.year < 0 then -c.date.year else c.date.year);
    RestFields(c, PrintRest(c));
  }

  /** A printed time reads back exactly when its year has four digits. */
  lemma ReadPrint(t: Time)
    requires UtcMicrosecond(t)
    ensures Read(Print(t)).Some? <==> 0 <= Year(t) <= 9999
    ensures Read(Print(t)).Some? ==> Read(Print(t)) == Some(t)
  {
    hide ClockOf, PrintYear, PrintRest, MicrosOf, ClockValid;
    var c := ClockOf(WallMicros(t));
    PrintedLength(c, Print(t));
    if 0 <= c.date.year <= 9999 {
      ReadShaped(c, Print(t));
      assert MicrosOf(c) * 1000 == t.nanos;
    }
  }

  /** UTC microsecond times are determined by their printed form. */
  lemma PrintDetermines(s: Time, t: Time)
    requires UtcMicrosecond(s) && UtcMicrosecond(t) && Print(s) == Print(t)
    ensures s == t
  {
    hide Print;
    PrintInjective(s, t);
  }
}
