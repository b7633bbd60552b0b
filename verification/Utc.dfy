/** `isLeapYear`, `splitUtc` and `formatUtcTimestamp` of src/Logger.cpp: the calendar date of a second
    count, as the inverse of the Gregorian day count. */
module Utc {
  const SECONDS_PER_DAY := 86400

  predicate IsLeapYear(year: int)
  {
    year % 400 == 0 || (year % 100 != 0 && year % 4 == 0)
  }

  function DaysInYear(year: int): (d: int)
    ensures 365 <= d <= 366
  {
    if IsLeapYear(year) then 366 else 365
  }

  const MONTH_DAYS: seq<nat> := [31, 28, 31, 30, 31, 30, 31, 31, 30, 31, 30, 31]

  /** Days of a month counted from 0. */
  function DaysInMonth(year: int, mon: nat): (d: nat)
    requires mon < 12
    ensures 28 <= d <= 31
  {
    if mon == 1 && IsLeapYear(year) then 29 else MONTH_DAYS[mon]
  }

  // ---------------------------------------------------------- the day count

  /** Leap years before `year`, counted from year 1. */
  function LeapsBefore(year: int): int
  {
    (year - 1) / 4 - (year - 1) / 100 + (year - 1) / 400
  }

  /** Days from 1970-01-01 to the first of January of `year`, in closed form. */
  function DaysToYear(year: int): int
  {
    (year - 1970) * 365 + LeapsBefore(year) - LeapsBefore(1970)
  }

  lemma YearAdds(year: int)
    ensures DaysToYear(year + 1) == DaysToYear(year) + DaysInYear(year)
  {
    LeapAdds(year);
  }

  /** A year is leap exactly when it is counted by the next year. */
  lemma LeapAdds(year: int)
    ensures LeapsBefore(year + 1) == LeapsBefore(year) + (if IsLeapYear(year) then 1 else 0)
  {
    By4(year);
    By100(year);
    By400(year);
  }

  lemma By4(n: int)
    ensures n / 4 == (n - 1) / 4 + (if n % 4 == 0 then 1 else 0)
  {
  }

  lemma By100(n: int)
    ensures n / 100 == (n - 1) / 100 + (if n % 100 == 0 then 1 else 0) && (n % 100 == 0 ==> n % 4 == 0)
  {
  }

  lemma By400(n: int)
    ensures n / 400 == (n - 1) / 400 + (if n % 400 == 0 then 1 else 0) && (n % 400 == 0 ==> n % 100 == 0)
  {
  }

  /** Days of `year` before month `mon`. */
  function DaysToMonth(year: int, mon: nat): (d: nat)
    requires mon <= 12
    ensures 28 * mon <= d <= 31 * mon
  {
    if mon == 0 then 0 else DaysToMonth(year, mon - 1) + DaysInMonth(year, mon - 1)
  }

  lemma YearIsItsMonths(year: int)
    ensures DaysToMonth(year, 12) == DaysInYear(year)
  {
    var leap := if IsLeapYear(year) then 1 else 0;
    assert DaysToMonth(year, 1) == 31;
    assert DaysToMonth(year, 3) == 90 - 31 + 31 + leap;
    assert DaysToMonth(year, 5) == 151 + leap;
    assert DaysToMonth(year, 7) == 212 + leap;
    assert DaysToMonth(year, 9) == 273 + leap;
    assert DaysToMonth(year, 11) == 334 + leap;
  }

  datatype Date = Date(year: int, mon: nat, mday: nat, hour: nat, min: nat, sec: nat)

  predicate InRange(d: Date)
  {
    && 1970 <= d.year && d.mon < 12 && 1 <= d.mday <= DaysInMonth(d.year, d.mon)
    && d.hour < 24 && d.min < 60 && d.sec < 60
  }

  /** Seconds since 1970-01-01 00:00:00. */
  function SecondsOf(d: Date): int
    requires d.mon < 12
  {
    (DaysToYear(d.year) + DaysToMonth(d.year, d.mon) + d.mday - 1) * SECONDS_PER_DAY + d.hour * 3600 + d.min * 60 + d.sec
  }

  // --------------------------------------------------------------- splitUtc

  /** The clock part. */
  method SplitDay(rem: nat) returns (hour: nat, min: nat, sec: nat)
    requires rem < SECONDS_PER_DAY
    ensures hour < 24 && min < 60 && sec < 60 && rem == hour * 3600 + min * 60 + sec
  {
    hour := rem / 3600;
    var rest := rem % 3600;
    min := rest / 60;
    sec := rest % 60;
  }

  method SplitYear(days: nat) returns (year: int, rest: nat)
    ensures 1970 <= year && rest < DaysInYear(year) && days == DaysToYear(year) + rest
  {
    year, rest := 1970, days;
    while rest >= DaysInYear(year)
      invariant 1970 <= year && days == DaysToYear(year) + rest
      decreases rest
    {
      YearAdds(year);
      rest, year := rest - DaysInYear(year), year + 1;
    }
  }

  method SplitMonth(year: int, days: nat) returns (mon: nat, rest: nat)
    requires days < DaysInYear(year)
    ensures mon < 12 && rest < DaysInMonth(year, mon) && days == DaysToMonth(year, mon) + rest
  {
    mon, rest := 0, days;
    while mon < 12
      invariant mon <= 12 && days == DaysToMonth(year, mon) + rest
    {
      var dim := DaysInMonth(year, mon);
      if rest < dim { return; }
      rest, mon := rest - dim, mon + 1;
    }
    YearIsItsMonths(year);
  }

  /** Times before the epoch count as the epoch. */
  method SplitUtc(t: int) returns (d: Date)
    ensures InRange(d) && SecondsOf(d) == if t < 0 then 0 else t
  {
    var seconds := if t < 0 then 0 else t;
    var days, rem := seconds / SECONDS_PER_DAY, seconds % SECONDS_PER_DAY;
    var hour, min, sec := SplitDay(rem);
    var year, inYear := SplitYear(days);
    var mon, inMonth := SplitMonth(year, inYear);
    d := Date(year, mon, inMonth + 1, hour, min, sec);
  }

  // -------------------------------------------------------- dates and seconds

  /** Calendar order. */
  predicate Before(a: Date, b: Date)
  {
    a.year < b.year || (a.year == b.year &&
    (a.mon < b.mon || (a.mon == b.mon &&
    (a.mday < b.mday || (a.mday == b.mday &&
    (a.hour < b.hour || (a.hour == b.hour &&
    (a.min < b.min || (a.min == b.min && a.sec < b.sec)))))))))
  }

  lemma {:induction false} YearsGrow(y: int, z: int)
    requires y < z
    ensures DaysToYear(y) + DaysInYear(y) <= DaysToYear(z)
    decreases z - y
  {
    YearAdds(y);
    if y + 1 < z { YearsGrow(y + 1, z); }
  }

  lemma {:induction false} MonthsGrow(year: int, m: nat, n: nat)
    requires m < n <= 12
    ensures DaysToMonth(year, m) + DaysInMonth(year, m) <= DaysToMonth(year, n)
    decreases n - m
  {
    if m + 1 < n { MonthsGrow(year, m + 1, n); }
  }

  function DayOf(d: Date): int
    requires d.mon < 12
  {
    DaysToYear(d.year) + DaysToMonth(d.year, d.mon) + d.mday - 1
  }

  lemma DayIsInYear(d: Date)
    requires InRange(d)
    ensures DaysToYear(d.year) <= DayOf(d) < DaysToYear(d.year) + DaysInYear(d.year)
  {
    MonthsGrow(d.year, d.mon, 12);
    YearIsItsMonths(d.year);
  }

  lemma DaysAreOrdered(a: Date, b: Date)
    requires InRange(a) && InRange(b)
    requires a.year < b.year || (a.year == b.year && (a.mon < b.mon || (a.mon == b.mon && a.mday < b.mday)))
    ensures DayOf(a) < DayOf(b)
  {
    if a.year < b.year {
      DayIsInYear(a);
      DayIsInYear(b);
      YearsGrow(a.year, b.year);
    } else if a.mon < b.mon {
      MonthsGrow(a.year, a.mon, b.mon);
    }
  }

  /** The second count orders dates as the calendar does. */
  lemma EarlierIsBefore(a: Date, b: Date)
    requires InRange(a) && InRange(b) && Before(a, b)
    ensures SecondsOf(a) < SecondsOf(b)
  {
    if a.year == b.year && a.mon == b.mon && a.mday == b.mday {
      assert DayOf(a) == DayOf(b);
    } else {
      DaysAreOrdered(a, b);
    }
  }

  /** Hence a date is determined by its second count: splitting inverts counting. */
  lemma SecondsDetermineDate(a: Date, b: Date)
    requires InRange(a) && InRange(b) && SecondsOf(a) == SecondsOf(b)
    ensures a == b
  {
    if Before(a, b) {
      EarlierIsBefore(a, b);
    } else if Before(b, a) {
      EarlierIsBefore(b, a);
    }
  }

  // ------------------------------------------------------- formatUtcTimestamp

  function Digit(n: nat): char
    requires n < 10
  {
    (n + '0' as int) as char
  }

  /** What `<<` prints. */
  function Decimal(n: nat): (s: string)
    ensures s != ""
  {
    if n < 10 then [Digit(n)] else Decimal(n / 10) + [Digit(n % 10)]
  }

  function TwoDigits(n: nat): string
  {
    if n < 10 then "0" + Decimal(n) else Decimal(n)
  }

  /** A two-digit field and what follows it. */
  function Part(n: nat, separator: string, rest: string): string { TwoDigits(n) + (separator + rest) }

  function Formatted(d: Date): string
    requires 0 <= d.year
  {
    "[" + (Decimal(d.year) + ("-" + Part(d.mon + 1, "-", Part(d.mday, " ",
      Part(d.hour, ":", Part(d.min, ":", Part(d.sec, "] ", "")))))))
  }

  /** Byte-wise order of strings of the same length. */
  predicate LexLess(s: string, t: string)
  {
    s != "" && t != "" && (s[0] < t[0] || (s[0] == t[0] && LexLess(s[1..], t[1..])))
  }

  lemma {:induction false} LexFront(s: string, t: string, x: string, y: string)
    requires |s| == |t| && (LexLess(s, t) || (s == t && LexLess(x, y)))
    ensures LexLess(s + x, t + y)
    decreases |s|
  {
    if s == "" {
      assert s + x == x && t + y == y;
    } else {
      assert (s + x)[1..] == s[1..] + x && (t + y)[1..] == t[1..] + y;
      if s[0] == t[0] { LexFront(s[1..], t[1..], x, y); }
    }
  }

  lemma {:induction false} LexIsStrict(s: string, t: string)
    ensures !(LexLess(s, t) && LexLess(t, s)) && !LexLess(s, s)
    decreases |s|
  {
    if s != "" {
      LexIsStrict(s[1..], if t == "" then "" else t[1..]);
    }
  }

  lemma TwoAre(n: nat)
    requires n < 100
    ensures TwoDigits(n) == [Digit(n / 10), Digit(n % 10)]
  {
    assert Digit(0) == '0';
    if n >= 10 { assert Decimal(n / 10) == [Digit(n / 10)]; }
  }

  lemma TwoSort(m: nat, n: nat)
    requires m < n < 100
    ensures LexLess(TwoDigits(m), TwoDigits(n))
  {
    TwoAre(m);
    TwoAre(n);
    assert TwoDigits(m)[1..] == [Digit(m % 10)] && TwoDigits(n)[1..] == [Digit(n % 10)];
  }

  lemma PartSorts(m: nat, n: nat, separator: string, x: string, y: string)
    requires m < 100 && n < 100 && (m < n || (m == n && LexLess(x, y)))
    ensures LexLess(Part(m, separator, x), Part(n, separator, y))
  {
    TwoAre(m);
    TwoAre(n);
    if m < n {
      TwoSort(m, n);
    } else {
      LexFront(separator, separator, x, y);
    }
    LexFront(TwoDigits(m), TwoDigits(n), separator + x, separator + y);
  }

  lemma DigitsOfFour(n: nat)
    requires 1000 <= n < 10000
    ensures n / 10 / 10 == n / 100 && n / 10 % 10 == n % 100 / 10 && n % 10 == n % 100 % 10 && 10 <= n / 100 < 100
  {
  }

  lemma FourAre(n: nat)
    requires 1000 <= n < 10000
    ensures Decimal(n) == TwoDigits(n / 100) + TwoDigits(n % 100)
  {
    var a, b := n / 100, n % 100;
    DigitsOfFour(n);
    TwoAre(b);
    LastDigit(n);
    LastDigit(n / 10);
    assert Decimal(a) + [Digit(b / 10)] + [Digit(b % 10)] == Decimal(a) + [Digit(b / 10), Digit(b % 10)];
  }

  lemma LastDigit(n: nat)
    requires n >= 10
    ensures Decimal(n) == Decimal(n / 10) + [Digit(n % 10)]
  {
  }

  lemma YearSorts(m: nat, n: nat)
    requires 1000 <= m < n < 10000
    ensures LexLess(Decimal(m), Decimal(n)) && |Decimal(m)| == |Decimal(n)|
  {
    FourAre(m);
    FourAre(n);
    CenturyFirst(m, n);
    TwoPairsSort(m / 100, m % 100, n / 100, n % 100);
  }

  lemma CenturyFirst(m: nat, n: nat)
    requires m < n
    ensures m / 100 < n / 100 || (m / 100 == n / 100 && m % 100 < n % 100)
  {
  }

  lemma TwoPairsSort(a: nat, b: nat, c: nat, d: nat)
    requires a < 100 && b < 100 && c < 100 && d < 100 && (a < c || (a == c && b < d))
    ensures LexLess(TwoDigits(a) + TwoDigits(b), TwoDigits(c) + TwoDigits(d))
    ensures |TwoDigits(a) + TwoDigits(b)| == |TwoDigits(c) + TwoDigits(d)|
  {
    TwoAre(a);
    TwoAre(b);
    TwoAre(c);
    TwoAre(d);
    if a < c { TwoSort(a, c); } else { TwoSort(b, d); }
    LexFront(TwoDigits(a), TwoDigits(c), TwoDigits(b), TwoDigits(d));
  }

  function Clock(d: Date): string { Part(d.hour, ":", Part(d.min, ":", Part(d.sec, "] ", ""))) }

  lemma ClockSorts(a: Date, b: Date)
    requires InRange(a) && InRange(b)
    requires a.hour < b.hour || (a.hour == b.hour && (a.min < b.min || (a.min == b.min && a.sec < b.sec)))
    ensures LexLess(Clock(a), Clock(b))
  {
    if a.hour == b.hour {
      if a.min == b.min { PartSorts(a.sec, b.sec, "] ", "", ""); }
      PartSorts(a.min, b.min, ":", Part(a.sec, "] ", ""), Part(b.sec, "] ", ""));
    }
    PartSorts(a.hour, b.hour, ":", Part(a.min, ":", Part(a.sec, "] ", "")), Part(b.min, ":", Part(b.sec, "] ", "")));
  }

  function DayAndClock(d: Date): string { Part(d.mon + 1, "-", Part(d.mday, " ", Clock(d))) }

  lemma DaysSort(a: Date, b: Date)
    requires InRange(a) && InRange(b) && a.year == b.year && Before(a, b)
    ensures LexLess(DayAndClock(a), DayAndClock(b))
  {
    if a.mon == b.mon {
      if a.mday == b.mday { ClockSorts(a, b); }
      PartSorts(a.mday, b.mday, " ", Clock(a), Clock(b));
    }
    PartSorts(a.mon + 1, b.mon + 1, "-", Part(a.mday, " ", Clock(a)), Part(b.mday, " ", Clock(b)));
  }

  lemma YearThenDay(m: nat, n: nat, x: string, y: string)
    requires 1000 <= m <= n < 10000 && (m == n ==> LexLess(x, y))
    ensures LexLess("[" + (Decimal(m) + ("-" + x)), "[" + (Decimal(n) + ("-" + y)))
  {
    if m < n { YearSorts(m, n); } else { LexFront("-", "-", x, y); }
    LexFront(Decimal(m), Decimal(n), "-" + x, "-" + y);
    LexFront("[", "[", Decimal(m) + ("-" + x), Decimal(n) + ("-" + y));
  }

  lemma FormattedSorts(a: Date, b: Date)
    requires InRange(a) && InRange(b) && a.year <= 9999 && b.year <= 9999 && Before(a, b)
    ensures LexLess(Formatted(a), Formatted(b))
  {
    if a.year == b.year { DaysSort(a, b); }
    YearThenDay(a.year, b.year, DayAndClock(a), DayAndClock(b));
  }

  /** Up to the year 9999 log lines sort by their text exactly as by their time. */
  lemma TimestampsSortByTime(a: Date, b: Date)
    requires InRange(a) && InRange(b) && a.year <= 9999 && b.year <= 9999
    ensures SecondsOf(a) < SecondsOf(b) <==> LexLess(Formatted(a), Formatted(b))
  {
    LexIsStrict(Formatted(a), Formatted(b));
    if Before(a, b) {
      EarlierIsBefore(a, b);
      FormattedSorts(a, b);
    } else if Before(b, a) {
      EarlierIsBefore(b, a);
      FormattedSorts(b, a);
    } else {
      assert a == b;
    }
  }

  const NUMERALS := "0123456789"

  /** The last two places of a number, each by its numeral. */
  function Places(n: nat): string { [NUMERALS[n / 10 % 10], NUMERALS[n % 10]] }

  lemma DigitIsNumeral(n: nat)
    requires n < 10
    ensures Digit(n) == NUMERALS[n]
  {
  }

  lemma TwoArePlaces(n: nat)
    requires n < 100
    ensures TwoDigits(n) == Places(n)
  {
    TwoAre(n);
    DigitIsNumeral(n / 10);
    DigitIsNumeral(n % 10);
  }

  lemma YearIsPlaces(n: nat)
    requires 1000 <= n < 10000
    ensures Decimal(n) == Places(n / 100) + Places(n % 100)
  {
    FourAre(n);
    TwoArePlaces(n / 100);
    TwoArePlaces(n % 100);
  }

  /** A two-place field and what follows it. */
  function Field(n: nat, separator: string, rest: string): string { Places(n) + (separator + rest) }

  lemma PartIs(n: nat, separator: string, rest: string)
    requires n < 100
    ensures Part(n, separator, rest) == Field(n, separator, rest)
  {
    TwoArePlaces(n);
  }

  /** Month, day and clock, field by field. */
  function Fields(part: (nat, string, string) -> string, d: Date): string
  {
    part(d.mon + 1, "-", part(d.mday, " ", part(d.hour, ":", part(d.min, ":", part(d.sec, "] ", "")))))
  }

  lemma SameFields(f: (nat, string, string) -> string, g: (nat, string, string) -> string, d: Date)
    requires forall n, separator, rest :: n < 100 ==> f(n, separator, rest) == g(n, separator, rest)
    requires d.mon < 12 && d.mday < 100 && d.hour < 100 && d.min < 100 && d.sec < 100
    ensures Fields(f, d) == Fields(g, d)
  {
  }

  lemma FormattedIs(d: Date)
    requires 0 <= d.year
    ensures Formatted(d) == "[" + (Decimal(d.year) + ("-" + Fields(Part, d)))
  {
  }

  /** Every timestamp of four-digit years, place by place. */
  lemma TimestampIs(d: Date)
    requires InRange(d) && d.year <= 9999
    ensures Formatted(d) == "[" + ((Places(d.year / 100) + Places(d.year % 100)) + ("-" + Fields(Field, d)))
  {
    forall n: nat, separator, rest | n < 100 ensures Part(n, separator, rest) == Field(n, separator, rest) { PartIs(n, separator, rest); }
    SameFields(Part, Field, d);
    FormattedIs(d);
    YearIsPlaces(d.year);
  }
}
