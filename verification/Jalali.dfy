/**
 The Jalali (Shamsi) to Gregorian conversion of the statistics date picker.

 Both calendars are described here by their own rules - month lengths, leap years, which day
 follows which - for every integer year. The conversion method does the arithmetic of the
 service and is proved to meet those rules.
 */
module Jalali {

  datatype Date = Date(y: int, m: int, d: int)

  // ---------------------------------------------------------------------------
  // The Gregorian calendar
  // ---------------------------------------------------------------------------

  predicate GregorianLeap(y: int) {
    (y % 4 == 0 && y % 100 != 0) || y % 400 == 0
  }

  function GregorianMonth(y: int, m: int): int {
    if m == 2 then (if GregorianLeap(y) then 29 else 28)
    else if m == 4 || m == 6 || m == 9 || m == 11 then 30
    else 31
  }

  predicate ValidGregorian(g: Date) {
    1 <= g.m <= 12 && 1 <= g.d <= GregorianMonth(g.y, g.m)
  }

  function NextGregorian(g: Date): Date
    requires ValidGregorian(g)
  {
    if g.d < GregorianMonth(g.y, g.m) then g.(d := g.d + 1)
    else if g.m < 12 then Date(g.y, g.m + 1, 1)
    else Date(g.y + 1, 1, 1)
  }

  /** Leap years from year 0 up to, not including, year `y`. */
  function LeapsBefore(y: int): int {
    (y + 3) / 4 - (y + 99) / 100 + (y + 399) / 400
  }

  function DaysBeforeMonth(y: int, m: int): int
    decreases m
  {
    if m <= 1 then 0 else DaysBeforeMonth(y, m - 1) + GregorianMonth(y, m - 1)
  }

  /** Days since 1 January of year 0. */
  function GregorianDay(g: Date): int {
    YearStart(g.y) + DaysBeforeMonth(g.y, g.m) + g.d - 1
  }

  function YearStart(y: int): int {
    365 * y + LeapsBefore(y)
  }

  // ---------------------------------------------------------------------------
  // The Jalali calendar
  // ---------------------------------------------------------------------------

  /** Eight leap years in each cycle of thirty-three. */
  predicate JalaliLeap(y: int) {
    y % 33 in {1, 5, 9, 13, 17, 22, 26, 30}
  }

  function JalaliMonth(y: int, m: int): int {
    if m <= 6 then 31 else if m <= 11 then 30 else if JalaliLeap(y) then 30 else 29
  }

  predicate RealJalali(j: Date) {
    1 <= j.m <= 12 && 1 <= j.d <= JalaliMonth(j.y, j.m)
  }

  function NextJalali(j: Date): Date
    requires RealJalali(j)
  {
    if j.d < JalaliMonth(j.y, j.m) then j.(d := j.d + 1)
    else if j.m < 12 then Date(j.y, j.m + 1, 1)
    else Date(j.y + 1, 1, 1)
  }

  predicate Earlier(a: Date, b: Date) {
    a.y < b.y || (a.y == b.y && (a.m < b.m || (a.m == b.m && a.d < b.d)))
  }

  /** The day count the service computes from a Jalali date. */
  function DayIndex(j: Date): int {
    var y := j.y + 1595;
    -355668 + 365 * y + y / 33 * 8 + (y % 33 + 3) / 4 + j.d +
    (if j.m < 7 then (j.m - 1) * 31 else (j.m - 7) * 30 + 186)
  }

  /** The Gregorian date is the day the Jalali date stands for. */
  predicate SameDay(j: Date, g: Date) {
    ValidGregorian(g) && GregorianDay(g) == DayIndex(j)
  }

  // ---------------------------------------------------------------------------
  // Year arithmetic
  // ---------------------------------------------------------------------------

  lemma YearLength(y: int)
    ensures YearStart(y + 1) - YearStart(y) == (if GregorianLeap(y) then 366 else 365)
    ensures DaysBeforeMonth(y, 13) == YearStart(y + 1) - YearStart(y)
  {
    hide LeapsBefore, GregorianLeap, DaysBeforeMonth;
    NewLeap(y);
    MonthsOfYear(y);
  }

  lemma NewLeap(y: int)
    ensures LeapsBefore(y + 1) - LeapsBefore(y) == if GregorianLeap(y) then 1 else 0
  {
    FourthYears(y);
    Hundredths(y);
    FourHundredths(y);
    Multiples(y);
  }

  lemma FourthYears(y: int)
    ensures (y + 1 + 3) / 4 - (y + 3) / 4 == if y % 4 == 0 then 1 else 0
  {
    assert y == 4 * (y / 4) + y % 4;
    assert (y + 3) / 4 == y / 4 + (if y % 4 == 0 then 0 else 1);
  }

  lemma Hundredths(y: int)
    ensures (y + 1 + 99) / 100 - (y + 99) / 100 == if y % 100 == 0 then 1 else 0
  {
    assert y == 100 * (y / 100) + y % 100;
    assert (y + 99) / 100 == y / 100 + (if y % 100 == 0 then 0 else 1);
  }

  lemma FourHundredths(y: int)
    ensures (y + 1 + 399) / 400 - (y + 399) / 400 == if y % 400 == 0 then 1 else 0
  {
    assert y == 400 * (y / 400) + y % 400;
    assert (y + 399) / 400 == y / 400 + (if y % 400 == 0 then 0 else 1);
  }

  lemma Multiples(y: int)
    ensures y % 100 == 0 ==> y % 4 == 0
    ensures y % 400 == 0 ==> y % 100 == 0
  {
    if y % 100 == 0 {
      FoursRemain(25 * (y / 100), 0);
    }
    if y % 400 == 0 {
      HundredsRemain(4 * (y / 400), 0);
    }
  }

  lemma FoursRemain(q: int, r: int)
    requires 0 <= r < 4
    ensures (4 * q + r) % 4 == r
  {
  }

  lemma HundredsRemain(q: int, r: int)
    requires 0 <= r < 100
    ensures (100 * q + r) % 100 == r
  {
  }

  lemma FourHundredsRemain(q: int, r: int)
    requires 0 <= r < 400
    ensures (400 * q + r) % 400 == r
  {
  }

  lemma MonthsOfYear(y: int)
    ensures DaysBeforeMonth(y, 13) == if GregorianLeap(y) then 366 else 365
  {
    hide GregorianLeap;
    assert DaysBeforeMonth(y, 4) == GregorianMonth(y, 2) + 62;
    assert DaysBeforeMonth(y, 7) == DaysBeforeMonth(y, 4) + 91;
    assert DaysBeforeMonth(y, 10) == DaysBeforeMonth(y, 7) + 92;
    assert DaysBeforeMonth(y, 13) == DaysBeforeMonth(y, 10) + 92;
  }

  /** The leap count of a year written in centuries, olympiads and years of a 400-year era. */
  lemma LeapsOfEra(era: int, century: int, four: int, year: int)
    requires 0 <= century <= 3 && 0 <= four <= 24 && 0 <= year <= 3
    ensures LeapsBefore(400 * era + 100 * century + 4 * four + year) ==
            97 * era + 24 * century + four
            + (if year > 0 then 1 else 0)
            - (if 4 * four + year > 0 then 1 else 0)
            + (if 100 * century + 4 * four + year > 0 then 1 else 0)
  {
    var rest := 4 * four + year;
    var y := 400 * era + 100 * century + rest;
    assert (y + 3) / 4 == 100 * era + 25 * century + four + (if year > 0 then 1 else 0);
    assert (y + 99) / 100 == 4 * era + century + (if rest > 0 then 1 else 0);
    assert (y + 399) / 400 == era + (if 100 * century + rest > 0 then 1 else 0);
  }

  /** Days left after taking whole centuries out of an era; the first century has one day more. */
  ghost predicate CenturySplit(inEra: int, century: int, days: int) {
    && 0 <= century <= 3 && 0 <= days <= 36524
    && (if century == 0 then inEra == days
        else days != 365 && inEra == 36524 * century + 1 + (if days > 365 then days - 1 else days))
  }

  /** Days left after taking whole years out of a century; each fourth year has one day more. */
  ghost predicate YearSplit(days: int, four: int, year: int, rest: int) {
    && 0 <= four <= 24 && 0 <= year <= 3
    && 0 <= rest <= (if year == 0 then 365 else 364)
    && days == 1461 * four + (if year == 0 then rest else 365 * year + 1 + rest)
  }

  lemma CenturyDivision(inEra: int)
    requires 0 <= inEra < 146097
    ensures if inEra <= 36524 then CenturySplit(inEra, 0, inEra)
            else var rest := (inEra - 1) % 36524;
                 CenturySplit(inEra, (inEra - 1) / 36524, if rest >= 365 then rest + 1 else rest)
  {
  }

  lemma YearDivision(days: int)
    requires 0 <= days <= 36524
    ensures var rest := days % 1461;
            if rest <= 365 then YearSplit(days, days / 1461, 0, rest)
            else YearSplit(days, days / 1461, (rest - 1) / 365, (rest - 1) % 365)
  {
    var rest := days % 1461;
    assert days == 1461 * (days / 1461) + rest;
  }

  lemma SplitsFitYear(era: int, inEra: int, century: int, days: int, four: int, year: int, rest: int)
    requires CenturySplit(inEra, century, days) && YearSplit(days, four, year, rest)
    ensures 0 <= rest < DaysBeforeMonth(400 * era + 100 * century + 4 * four + year, 13)
  {
    var y := 400 * era + 100 * century + 4 * four + year;
    YearLength(y);
    if rest == 365 {
      assert year == 0 && (century == 0 || four > 0);
      LeapOfEra(era, century, four);
    }
  }

  /** The two splits of a day count name a year and a day that exists in it. */
  lemma SplitsNameDay(index: int, inEra: int, century: int, days: int, four: int, year: int, gy: int, rest: int)
    requires inEra == index % 146097
    requires CenturySplit(inEra, century, days) && YearSplit(days, four, year, rest)
    requires gy == 400 * (index / 146097) + 100 * century + 4 * four + year
    ensures YearStart(gy) + rest == index
    ensures 0 <= rest < DaysBeforeMonth(gy, 13)
  {
    var era := index / 146097;
    SplitsFitYear(era, inEra, century, days, four, year, rest);
    LeapsOfEra(era, century, four, year);
    assert index == 146097 * era + inEra;
  }

  lemma LeapOfEra(era: int, century: int, four: int)
    requires 0 <= century <= 3 && 0 <= four <= 24 && (century == 0 || four > 0)
    ensures GregorianLeap(400 * era + 100 * century + 4 * four)
  {
    FoursRemain(100 * era + 25 * century + four, 0);
    HundredsRemain(4 * era + century, 4 * four);
    if four == 0 {
      FourHundredsRemain(era, 0);
    }
  }

  // ---------------------------------------------------------------------------
  // The conversion
  // ---------------------------------------------------------------------------

  /**
   Converts any Jalali date. The result is a valid Gregorian date, and the very day the
   service's day count names.
   */
  method JalaliToGregorian(jy0: int, jm: int, jd: int) returns (gy: int, gm: int, gd: int)
    ensures SameDay(Date(jy0, jm, jd), Date(gy, gm, gd))
  {
    var jy := jy0 + 1595;
    var days := -355668 + 365 * jy + jy / 33 * 8 + (jy % 33 + 3) / 4 + jd;
    if jm < 7 {
      days := days + (jm - 1) * 31;
    } else {
      days := days + (jm - 7) * 30 + 186;
    }
    gy, days := YearAndDay(days);
    gm, gd := MonthAndDay(gy, days);
  }

  /** The middle part of the conversion: takes eras, centuries and years off a day count. */
  method YearAndDay(index: int) returns (gy: int, days: int)
    ensures YearStart(gy) + days == index
    ensures 0 <= days < DaysBeforeMonth(gy, 13)
  {
    gy := 400 * (index / 146097);
    days := index % 146097;
    ghost var inEra, century := days, 0;
    CenturyDivision(inEra);
    if days > 36524 {
      days := days - 1;
      century := days / 36524;
      gy := gy + 100 * (days / 36524);
      days := days % 36524;
      if days >= 365 {
        days := days + 1;
      }
    }
    assert CenturySplit(inEra, century, days);
    ghost var inCentury, four, year := days, days / 1461, 0;
    YearDivision(inCentury);
    gy := gy + 4 * (days / 1461);
    days := days % 1461;
    if days > 365 {
      year := (days - 1) / 365;
      gy := gy + (days - 1) / 365;
      days := (days - 1) % 365;
    }
    assert YearSplit(inCentury, four, year, days);
    SplitsNameDay(index, inEra, century, inCentury, four, year, gy, days);
  }

  /** The closing loop of the conversion: counts the months off a day of the year. */
  method MonthAndDay(gy: int, dayOfYear: int) returns (gm: int, gd: int)
    requires 0 <= dayOfYear < DaysBeforeMonth(gy, 13)
    ensures ValidGregorian(Date(gy, gm, gd))
    ensures DaysBeforeMonth(gy, gm) + gd == dayOfYear + 1
  {
    gd := dayOfYear + 1;
    var leap := (gy % 4 == 0 && gy % 100 != 0) || gy % 400 == 0;
    var lengths := [0, 31, if leap then 29 else 28, 31, 30, 31, 30, 31, 31, 30, 31, 30, 31];
    gm := 0;
    while gm < 13 && gd > lengths[gm]
      invariant 0 <= gm <= 13
      invariant 1 <= gd
      invariant DaysBeforeMonth(gy, gm) + gd == dayOfYear + 1
    {
      gd := gd - lengths[gm];
      gm := gm + 1;
    }
  }

  // ---------------------------------------------------------------------------
  // Day after day
  // ---------------------------------------------------------------------------

  lemma GregorianSuccessor(g: Date)
    requires ValidGregorian(g)
    ensures ValidGregorian(NextGregorian(g))
    ensures GregorianDay(NextGregorian(g)) == GregorianDay(g) + 1
  {
    YearLength(g.y);
    assert DaysBeforeMonth(g.y, g.m + 1) == DaysBeforeMonth(g.y, g.m) + GregorianMonth(g.y, g.m);
    assert DaysBeforeMonth(g.y + 1, 1) == 0;
  }

  lemma JalaliYearLength(y: int)
    ensures DayIndex(Date(y + 1, 1, 1)) - DayIndex(Date(y, 1, 1)) == (if JalaliLeap(y) then 366 else 365)
  {
    var n := y + 1595;
    var cycle, r := n / 33, n % 33;
    assert y == 33 * (cycle - 49) + (r + 22);
    assert y % 33 == if r < 11 then r + 22 else r - 11;
    assert (n + 1) / 33 == if r == 32 then cycle + 1 else cycle;
    assert (n + 1) % 33 == if r == 32 then 0 else r + 1;
  }

  lemma JalaliSuccessor(j: Date)
    requires RealJalali(j)
    ensures RealJalali(NextJalali(j))
    ensures DayIndex(NextJalali(j)) == DayIndex(j) + 1
  {
    JalaliYearLength(j.y);
  }

  /** The anchor of the two calendars: Nowruz of 1404 is 21 March 2025. */
  lemma Anchor()
    ensures SameDay(Date(1404, 1, 1), Date(2025, 3, 21))
  {
    assert DaysBeforeMonth(2025, 3) == 59;
  }

  /** Converting commutes with going to the next day, in both calendars' own rules. */
  lemma ConversionFollowsDays(j: Date, g: Date)
    requires RealJalali(j) && SameDay(j, g)
    ensures SameDay(NextJalali(j), NextGregorian(g))
  {
    JalaliSuccessor(j);
    GregorianSuccessor(g);
  }

  lemma {:induction false} YearStartMonotone(a: int, b: int)
    requires a <= b
    ensures YearStart(b) - YearStart(a) >= 365 * (b - a)
    decreases b - a
  {
    if a >= b {
    } else {
      YearStartMonotone(a, b - 1);
      YearLength(b - 1);
    }
  }

  lemma {:induction false} MonthsMonotone(y: int, a: int, b: int)
    requires 1 <= a <= b
    ensures DaysBeforeMonth(y, b) - DaysBeforeMonth(y, a) >= 28 * (b - a)
    ensures a < b ==> DaysBeforeMonth(y, b) >= DaysBeforeMonth(y, a) + GregorianMonth(y, a)
    decreases b - a
  {
    if a >= b {
    } else {
      MonthsMonotone(y, a, b - 1);
    }
  }

  lemma GregorianOrder(a: Date, b: Date)
    requires ValidGregorian(a) && ValidGregorian(b) && Earlier(a, b)
    ensures GregorianDay(a) < GregorianDay(b)
  {
    if a.y < b.y {
      YearStartMonotone(a.y + 1, b.y);
      YearLength(a.y);
      MonthsMonotone(a.y, a.m, 13);
      MonthsMonotone(b.y, 1, b.m);
    } else {
      MonthsMonotone(a.y, a.m, b.m);
    }
  }

  lemma {:induction false} JalaliYearsMonotone(a: int, b: int)
    requires a <= b
    ensures DayIndex(Date(a, 1, 1)) <= DayIndex(Date(b, 1, 1))
    decreases b - a
  {
    if a >= b {
    } else {
      JalaliYearsMonotone(a, b - 1);
      JalaliYearLength(b - 1);
    }
  }

  lemma WithinItsYear(j: Date)
    requires RealJalali(j)
    ensures DayIndex(Date(j.y, 1, 1)) <= DayIndex(j) < DayIndex(Date(j.y + 1, 1, 1))
  {
    JalaliYearLength(j.y);
  }

  lemma EarlierHasSmallerIndex(a: Date, b: Date)
    requires RealJalali(a) && RealJalali(b) && Earlier(a, b)
    ensures DayIndex(a) < DayIndex(b)
  {
    if a.y < b.y {
      hide DayIndex;
      WithinItsYear(a);
      JalaliYearsMonotone(a.y + 1, b.y);
      WithinItsYear(b);
    }
  }

  /** Day counts of real Jalali dates are ordered as the dates are. */
  lemma JalaliOrder(a: Date, b: Date)
    requires RealJalali(a) && RealJalali(b)
    ensures Earlier(a, b) <==> DayIndex(a) < DayIndex(b)
    ensures a == b <==> DayIndex(a) == DayIndex(b)
  {
    hide DayIndex;
    if Earlier(a, b) {
      EarlierHasSmallerIndex(a, b);
    } else if Earlier(b, a) {
      EarlierHasSmallerIndex(b, a);
    }
  }

  /** A day has one Gregorian name, and two real Jalali dates never share it. */
  lemma ConversionIsInjective(a: Date, b: Date, ga: Date, gb: Date)
    requires RealJalali(a) && RealJalali(b) && SameDay(a, ga) && SameDay(b, gb)
    ensures a == b <==> ga == gb
    ensures Earlier(a, b) <==> Earlier(ga, gb)
  {
    JalaliOrder(a, b);
    if Earlier(ga, gb) {
      GregorianOrder(ga, gb);
    } else if Earlier(gb, ga) {
      GregorianOrder(gb, ga);
    }
  }

  /** 12/30 is accepted in every year; in a common year it is the next year's first day. */
  lemma ThirtiethOfEsfand(y: int)
    ensures DayIndex(Date(y, 12, 30)) == DayIndex(Date(y + 1, 1, 1)) <==> !JalaliLeap(y)
  {
    JalaliYearLength(y);
  }

  // ---------------------------------------------------------------------------
  // Date text
  // ---------------------------------------------------------------------------

  /** A midnight is named by its day number; `Overflow` is the error past 31 December 9999. */
  datatype Parsed = Invalid | Midnight(day: int) | Overflow

  predicate Accepted(date: Date) {
    if date.y >= 1500 then ValidGregorian(date) && date.y <= 9999
    else 1 <= date.m <= 12 && 1 <= date.d <= (if date.m <= 6 then 31 else 30)
  }

  function DayOf(date: Date): int {
    if date.y >= 1500 then GregorianDay(date) else DayIndex(date)
  }

  const LAST_DAY := Date(9999, 12, 31)

  /** Python's `datetime` takes years 1 to 9999. */
  predicate Representable(g: Date) {
    ValidGregorian(g) && 1 <= g.y <= 9999
  }

  /** The midnight a date stands for: its own, or with `endOfDay` the next one. */
  function ParsedAs(date: Date, endOfDay: bool): Parsed {
    if !Accepted(date) then Invalid
    else if date == LAST_DAY && endOfDay then Overflow
    else Midnight(DayOf(date) + (if endOfDay then 1 else 0))
  }

  /** The three numbers of a date text, Jalali below year 1500, to a midnight. */
  method ParseFields(y: int, m: int, d: int, endOfDay: bool) returns (r: Parsed)
    requires y >= 0
    ensures r == ParsedAs(Date(y, m, d), endOfDay)
    ensures r.Invalid? <==> !Accepted(Date(y, m, d))
    ensures r.Overflow? <==> Date(y, m, d) == LAST_DAY && endOfDay
    ensures r.Midnight? ==> r.day == DayOf(Date(y, m, d)) + (if endOfDay then 1 else 0)
  {
    var g := Date(y, m, d);
    if y < 1500 {
      if !(1 <= m <= 12) {
        return Invalid;
      }
      var maxDay := if m <= 6 then 31 else 30;
      if !(1 <= d <= maxDay) {
        return Invalid;
      }
      var gy, gm, gd := JalaliToGregorian(y, m, d);
      g := Date(gy, gm, gd);
      JalaliYearsFit(Date(y, m, d), g);
    }
    if !Representable(g) {
      return Invalid;
    }
    if !endOfDay {
      return Midnight(GregorianDay(g));
    }
    if g == LAST_DAY {
      return Overflow;
    }
    return Midnight(GregorianDay(g) + 1);
  }

  lemma JalaliYearsFit(j: Date, g: Date)
    requires 0 <= j.y < 1500 && Accepted(j) && SameDay(j, g)
    ensures 600 < g.y < 3000
  {
    JalaliYearsMonotone(0, j.y);
    JalaliYearsMonotone(j.y, 1500);
    JalaliYearLength(j.y);
    assert DayIndex(Date(0, 1, 1)) > 365 * 621;
    assert DayIndex(Date(1500, 1, 1)) < 365 * 2200;
    YearLength(g.y);
    MonthsMonotone(g.y, 1, g.m);
    MonthsMonotone(g.y, g.m, 13);
    if g.y <= 600 {
      YearStartMonotone(g.y + 1, 601);
    } else if g.y >= 3000 {
      YearStartMonotone(3000, g.y);
    }
  }

  /**
   The half-open window between the midnights parsed from a start date and, to the end of its
   day, from an end date holds exactly the days from the one to the other, both included.
   */
  lemma WindowCoversDays(from: Date, to: Date, x: Date, g: Date)
    requires RealJalali(from) && 0 <= from.y < 1500
    requires RealJalali(to) && 0 <= to.y < 1500
    requires RealJalali(x) && SameDay(x, g)
    ensures var (start, end) := (ParsedAs(from, false), ParsedAs(to, true));
            && start.Midnight? && end.Midnight?
            && (start.day <= GregorianDay(g) < end.day <==> !Earlier(x, from) && !Earlier(to, x))
  {
    hide DayIndex;
    JalaliOrder(from, x);
    JalaliOrder(x, to);
    JalaliOrder(x, from);
    JalaliOrder(to, x);
  }

  /** Likewise for dates written in Gregorian, up to the last day Python can add to. */
  lemma WindowCoversGregorianDays(from: Date, to: Date, g: Date)
    requires ValidGregorian(from) && 1500 <= from.y <= 9999
    requires ValidGregorian(to) && 1500 <= to.y <= 9999 && to != LAST_DAY
    requires ValidGregorian(g)
    ensures var (start, end) := (ParsedAs(from, false), ParsedAs(to, true));
            && start.Midnight? && end.Midnight?
            && (start.day <= GregorianDay(g) < end.day <==> !Earlier(g, from) && !Earlier(to, g))
  {
    hide GregorianDay, ValidGregorian;
    assert Accepted(from) && Accepted(to);
    if Earlier(g, from) { GregorianOrder(g, from); } else if g != from { GregorianOrder(from, g); }
    if Earlier(to, g) { GregorianOrder(to, g); } else if g != to { GregorianOrder(g, to); }
  }
}
