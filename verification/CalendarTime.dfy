/** Calendar time as the timestamps of the protocol write it: `YYYY-MM-DDTHH:MM:SSZ` with second precision,
    and the same with three fractional digits as `toISOString` prints it. */
module CalendarTime {
  import opened Text

  /** The six numbers of a timestamp. The patterns admit any digits, so a stamp need not be a date. */
  datatype Civil = Civil(year: nat, month: nat, day: nat, hour: nat, minute: nat, second: nat)

  predicate Writable(c: Civil) {
    c.year < 10000 && c.month < 100 && c.day < 100 && c.hour < 100 && c.minute < 100 && c.second < 100
  }

  predicate IsLeap(year: nat) {
    year % 4 == 0 && (year % 100 != 0 || year % 400 == 0)
  }

  function DaysInMonth(year: nat, month: nat): nat {
    if month == 2 then (if IsLeap(year) then 29 else 28)
    else if month in {4, 6, 9, 11} then 30
    else 31
  }

  /** A stamp that denotes a moment. */
  predicate OnCalendar(c: Civil) {
    && c.year < 10000 && 1 <= c.month <= 12 && 1 <= c.day <= DaysInMonth(c.year, c.month)
    && c.hour < 24 && c.minute < 60 && c.second < 60
  }

  predicate Before(a: Civil, b: Civil) {
    a.year < b.year || (a.year == b.year && (
    a.month < b.month || (a.month == b.month && (
    a.day < b.day || (a.day == b.day && (
    a.hour < b.hour || (a.hour == b.hour && (
    a.minute < b.minute || (a.minute == b.minute &&
    a.second < b.second)))))))))
  }

  // ---------------------------------------------------------------- writing and reading stamps

  function DigitChar(d: nat): char
    requires d < 10
  {
    ('0' as int + d) as char
  }

  function DigitValue(c: char): nat
    requires IsDigit(c)
  {
    c as int - '0' as int
  }

  function TwoDigits(n: nat): string
    requires n < 100
  {
    [DigitChar(n / 10), DigitChar(n % 10)]
  }

  /** The stamp up to and including the seconds, followed by `tail`. */
  function Render(c: Civil, tail: string): string
    requires Writable(c)
  {
    TwoDigits(c.year / 100) + "" +
      (TwoDigits(c.year % 100) + "-" + (TwoDigits(c.month) + "-" + (TwoDigits(c.day) + "T" +
      (TwoDigits(c.hour) + ":" + (TwoDigits(c.minute) + ":" + (TwoDigits(c.second) + "" + tail))))))
  }

  function IsoSecond(c: Civil): string
    requires Writable(c)
  {
    Render(c, "Z")
  }

  function MilliTail(ms: nat): string
    requires ms < 1000
  {
    ['.', DigitChar(ms / 100)] + TwoDigits(ms % 100) + "Z"
  }

  function IsoMilli(c: Civil, ms: nat): string
    requires Writable(c) && ms < 1000
  {
    Render(c, MilliTail(ms))
  }

  function Pair(s: string, i: nat): nat
    requires i + 1 < |s| && IsDigit(s[i]) && IsDigit(s[i + 1])
    ensures Pair(s, i) < 100 && TwoDigits(Pair(s, i)) == [s[i], s[i + 1]]
  {
    10 * DigitValue(s[i]) + DigitValue(s[i + 1])
  }

  function CivilFrom(s: string): Civil
    requires IsIsoSecond(s)
  {
    Civil(100 * Pair(s, 0) + Pair(s, 2), Pair(s, 5), Pair(s, 8), Pair(s, 11), Pair(s, 14), Pair(s, 17))
  }

  /** Every string the pattern accepts is the writing of one stamp. */
  lemma ReadBack(s: string)
    requires IsIsoSecond(s)
    ensures Writable(CivilFrom(s)) && IsoSecond(CivilFrom(s)) == s
  {
    var c := CivilFrom(s);
    assert c.year / 100 == Pair(s, 0) && c.year % 100 == Pair(s, 2);
    assert IsoSecond(c) == [s[0], s[1]] + [s[2], s[3]] + "-" + [s[5], s[6]] + "-" + [s[8], s[9]] + "T"
                           + [s[11], s[12]] + ":" + [s[14], s[15]] + ":" + [s[17], s[18]] + "Z";
  }

  // ---------------------------------------------------------------- string order is field order

  lemma FieldStep(a: nat, b: nat, sep: string, x: string, y: string)
    requires a < 100 && b < 100
    ensures LexLe(CodeUnit, TwoDigits(a) + sep + x, TwoDigits(b) + sep + y) <==>
            a < b || (a == b && LexLe(CodeUnit, x, y))
  {
    var s, t := TwoDigits(a) + sep + x, TwoDigits(b) + sep + y;
    assert s[1..][1..] == sep + x && t[1..][1..] == sep + y;
    LexPrefix(CodeUnit, sep, x, y);
    assert LexLe(CodeUnit, s, t) <==>
           if s[0] == t[0] then LexLe(CodeUnit, s[1..], t[1..]) else CodeUnit(s[0]) < CodeUnit(t[0]);
    assert LexLe(CodeUnit, s[1..], t[1..]) <==>
           if s[1] == t[1] then LexLe(CodeUnit, s[1..][1..], t[1..][1..]) else CodeUnit(s[1]) < CodeUnit(t[1]);
  }

  lemma StampOrder(a: Civil, b: Civil, x: string, y: string)
    requires Writable(a) && Writable(b)
    ensures StrLe(Render(a, x), Render(b, y)) <==> Before(a, b) || (a == b && StrLe(x, y))
  {
    var a6, b6 := TwoDigits(a.second) + "" + x, TwoDigits(b.second) + "" + y;
    var a5, b5 := TwoDigits(a.minute) + ":" + a6, TwoDigits(b.minute) + ":" + b6;
    var a4, b4 := TwoDigits(a.hour) + ":" + a5, TwoDigits(b.hour) + ":" + b5;
    var a3, b3 := TwoDigits(a.day) + "T" + a4, TwoDigits(b.day) + "T" + b4;
    var a2, b2 := TwoDigits(a.month) + "-" + a3, TwoDigits(b.month) + "-" + b3;
    var a1, b1 := TwoDigits(a.year % 100) + "-" + a2, TwoDigits(b.year % 100) + "-" + b2;
    FieldStep(a.second, b.second, "", x, y);
    FieldStep(a.minute, b.minute, ":", a6, b6);
    FieldStep(a.hour, b.hour, ":", a5, b5);
    FieldStep(a.day, b.day, "T", a4, b4);
    FieldStep(a.month, b.month, "-", a3, b3);
    FieldStep(a.year % 100, b.year % 100, "-", a2, b2);
    FieldStep(a.year / 100, b.year / 100, "", a1, b1);
  }

  /** Second-precision strings compare as their stamps do. */
  lemma SecondOrder(a: Civil, b: Civil)
    requires Writable(a) && Writable(b)
    ensures StrLe(IsoSecond(a), IsoSecond(b)) <==> !Before(b, a)
  {
    StampOrder(a, b, "Z", "Z");
    LexTotal(CodeUnit, "Z", "Z");
  }

  /** A millisecond string sorts before the second string of its own second: '.' precedes 'Z'. */
  lemma MixedOrder(a: Civil, ms: nat, b: Civil)
    requires Writable(a) && ms < 1000 && Writable(b)
    ensures StrLt(IsoMilli(a, ms), IsoSecond(b)) <==> !Before(b, a)
    ensures StrLe(IsoSecond(b), IsoMilli(a, ms)) <==> Before(b, a)
  {
    StampOrder(b, a, "Z", MilliTail(ms));
    assert !StrLe("Z", MilliTail(ms));
  }

  // ---------------------------------------------------------------- stamps on the time line

  function YearLength(year: nat): nat {
    if IsLeap(year) then 366 else 365
  }

  function DaysBeforeYear(year: nat): nat {
    if year == 0 then 0 else DaysBeforeYear(year - 1) + YearLength(year - 1)
  }

  function DaysBeforeMonth(year: nat, month: nat): nat
    requires 1 <= month
  {
    if month == 1 then 0 else DaysBeforeMonth(year, month - 1) + DaysInMonth(year, month - 1)
  }

  const DAYS_BEFORE_1970 := 719528

  /** Seconds since the beginning of 1970. */
  function EpochSeconds(c: Civil): int
    requires OnCalendar(c)
  {
    86400 * (DaysBeforeYear(c.year) + DaysBeforeMonth(c.year, c.month) + c.day - 1 - DAYS_BEFORE_1970)
    + 3600 * c.hour + 60 * c.minute + c.second
  }

  lemma LeapCounts(y: nat)
    ensures (y + 4) / 4 - (y + 3) / 4 == if y % 4 == 0 then 1 else 0
    ensures (y + 100) / 100 - (y + 99) / 100 == if y % 100 == 0 then 1 else 0
    ensures (y + 400) / 400 - (y + 399) / 400 == if y % 400 == 0 then 1 else 0
  {
    CountBy4(y);
    CountBy100(y);
    CountBy400(y);
  }

  lemma CountBy4(y: nat)
    ensures (y + 4) / 4 - (y + 3) / 4 == if y % 4 == 0 then 1 else 0
  {
  }

  lemma CountBy100(y: nat)
    ensures (y + 100) / 100 - (y + 99) / 100 == if y % 100 == 0 then 1 else 0
  {
  }

  lemma CountBy400(y: nat)
    ensures (y + 400) / 400 - (y + 399) / 400 == if y % 400 == 0 then 1 else 0
  {
  }

  lemma Multiples(y: nat)
    ensures y % 100 == 0 ==> y % 4 == 0
    ensures y % 400 == 0 ==> y % 100 == 0
  {
    if y % 100 == 0 {
      var k := y / 100;
      assert y == 4 * (25 * k);
    }
    if y % 400 == 0 {
      var k := y / 400;
      assert y == 100 * (4 * k);
    }
  }

  lemma LeapByCounts(y: nat)
    ensures YearLength(y) == 365 + (if y % 4 == 0 then 1 else 0) - (if y % 100 == 0 then 1 else 0)
            + (if y % 400 == 0 then 1 else 0)
  {
    Multiples(y);
  }

  lemma {:induction false} DaysBeforeYearClosed(year: nat)
    ensures DaysBeforeYear(year) == 365 * year + (year + 3) / 4 - (year + 99) / 100 + (year + 399) / 400
  {
    if year > 0 {
      DaysBeforeYearClosed(year - 1);
      LeapCounts(year - 1);
      LeapByCounts(year - 1);
    }
  }

  /** The constant above is the right one. */
  lemma EpochIsZero()
    ensures EpochSeconds(Civil(1970, 1, 1, 0, 0, 0)) == 0
  {
    DaysBeforeYearClosed(1970);
  }

  lemma {:induction false} YearsMonotone(a: nat, b: nat)
    requires a < b
    ensures DaysBeforeYear(a) + YearLength(a) <= DaysBeforeYear(b)
  {
    if a < b - 1 {
      YearsMonotone(a, b - 1);
    }
  }

  lemma {:induction false} MonthsMonotone(year: nat, m: nat, n: nat)
    requires 1 <= m < n
    ensures DaysBeforeMonth(year, m) + DaysInMonth(year, m) <= DaysBeforeMonth(year, n)
  {
    if m < n - 1 {
      MonthsMonotone(year, m, n - 1);
    }
  }

  lemma MonthsFillYear(year: nat)
    ensures DaysBeforeMonth(year, 12) + 31 == YearLength(year)
  {
    assert DaysBeforeMonth(year, 2) == 31;
    assert DaysBeforeMonth(year, 4) == 31 + DaysInMonth(year, 2) + 31;
    assert DaysBeforeMonth(year, 6) == DaysBeforeMonth(year, 4) + 61;
    assert DaysBeforeMonth(year, 8) == DaysBeforeMonth(year, 6) + 61;
    assert DaysBeforeMonth(year, 10) == DaysBeforeMonth(year, 8) + 61;
    assert DaysBeforeMonth(year, 12) == DaysBeforeMonth(year, 10) + 61;
  }

  function DayNumber(c: Civil): nat
    requires OnCalendar(c)
  {
    DaysBeforeYear(c.year) + DaysBeforeMonth(c.year, c.month) + c.day - 1
  }

  lemma DaysMonotone(a: Civil, b: Civil)
    requires OnCalendar(a) && OnCalendar(b)
    requires a.year < b.year || (a.year == b.year && (a.month < b.month || (a.month == b.month && a.day < b.day)))
    ensures DayNumber(a) < DayNumber(b)
  {
    if a.year < b.year {
      YearsMonotone(a.year, b.year);
      MonthsFillYear(a.year);
      if a.month < 12 {
        MonthsMonotone(a.year, a.month, 12);
      }
    } else if a.month < b.month {
      MonthsMonotone(a.year, a.month, b.month);
    }
  }

  lemma BeforeIsEarlier(a: Civil, b: Civil)
    requires OnCalendar(a) && OnCalendar(b) && Before(a, b)
    ensures EpochSeconds(a) < EpochSeconds(b)
  {
    if (a.year, a.month, a.day) != (b.year, b.month, b.day) {
      DaysMonotone(a, b);
    }
  }

  /** On calendar stamps the order of fields is the order in time, and no two stamps share a second. */
  lemma ChronologicalOrder(a: Civil, b: Civil)
    requires OnCalendar(a) && OnCalendar(b)
    ensures Before(a, b) <==> EpochSeconds(a) < EpochSeconds(b)
    ensures EpochSeconds(a) == EpochSeconds(b) <==> a == b
  {
    if Before(a, b) {
      BeforeIsEarlier(a, b);
    } else if Before(b, a) {
      BeforeIsEarlier(b, a);
    }
  }

  const FIRST := Civil(0, 1, 1, 0, 0, 0)
  const LAST := Civil(9999, 12, 31, 23, 59, 59)

  function NextDay(c: Civil): Civil
    requires OnCalendar(c)
  {
    if c.day < DaysInMonth(c.year, c.month) then Civil(c.year, c.month, c.day + 1, 0, 0, 0)
    else if c.month < 12 then Civil(c.year, c.month + 1, 1, 0, 0, 0)
    else Civil(c.year + 1, 1, 1, 0, 0, 0)
  }

  function NextSecond(c: Civil): Civil
    requires OnCalendar(c)
  {
    if c.second < 59 then c.(second := c.second + 1)
    else if c.minute < 59 then c.(second := 0, minute := c.minute + 1)
    else if c.hour < 23 then c.(second := 0, minute := 0, hour := c.hour + 1)
    else NextDay(c)
  }

  lemma NextSecondTicks(c: Civil)
    requires OnCalendar(c) && c != LAST
    ensures OnCalendar(NextSecond(c)) && EpochSeconds(NextSecond(c)) == EpochSeconds(c) + 1
  {
    MonthsFillYear(c.year);
  }

  /** Every second from the first to the last of the years 0 to 9999 has a stamp. */
  lemma {:induction false} EverySecondHasStamp(t: int) returns (c: Civil)
    requires EpochSeconds(FIRST) <= t <= EpochSeconds(LAST)
    ensures OnCalendar(c) && EpochSeconds(c) == t
    decreases t - EpochSeconds(FIRST)
  {
    if t == EpochSeconds(FIRST) {
      c := FIRST;
    } else {
      var before := EverySecondHasStamp(t - 1);
      assert before != LAST;
      NextSecondTicks(before);
      c := NextSecond(before);
    }
  }
}
