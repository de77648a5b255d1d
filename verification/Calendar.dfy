/**
  The proleptic Gregorian calendar of ECMA-262 dates (section 21.4.1), on day numbers in UTC.
  A JavaScript Date also carries a time of day; the setters used here leave it alone.
 */
module Calendar {

  /** Days since 1 January 1970. */
  type Day = int

  predicate IsLeap(y: int) { y % 4 == 0 && (y % 100 != 0 || y % 400 == 0) }

  /** DayFromYear: the day number of 1 January. */
  function DayFromYear(y: int): Day {
    365 * (y - 1970) + (y - 1969) / 4 - (y - 1901) / 100 + (y - 1601) / 400
  }

  function DaysInYear(y: int): int { if IsLeap(y) then 366 else 365 }

  /** Months are numbered from 0. */
  function DaysInMonth(y: int, m: int): (n: int)
    ensures 28 <= n <= 31
  {
    if m == 1 then (if IsLeap(y) then 29 else 28)
    else if m == 3 || m == 5 || m == 8 || m == 10 then 30
    else 31
  }

  /** Days of the year before month m. */
  function DaysBefore(y: int, m: int): int {
    if m <= 0 then 0 else DaysBefore(y, m - 1) + DaysInMonth(y, m - 1)
  }

  /** MakeDay(year, month, date), where month and date may lie outside their usual ranges. */
  function MakeDay(y: int, m: int, date: int): Day {
    DayFromYear(y + m / 12) + DaysBefore(y + m / 12, m % 12) + date - 1
  }

  lemma FourthYear(y: int)
    ensures (y + 1 - 1969) / 4 - (y - 1969) / 4 == if y % 4 == 0 then 1 else 0
  {
  }

  lemma Century(y: int)
    ensures (y + 1 - 1901) / 100 - (y - 1901) / 100 == if y % 100 == 0 then 1 else 0
    ensures y % 100 == 0 ==> y % 4 == 0
  {
  }

  lemma FourthCentury(y: int)
    ensures (y + 1 - 1601) / 400 - (y - 1601) / 400 == if y % 400 == 0 then 1 else 0
    ensures y % 400 == 0 ==> y % 100 == 0
  {
  }

  lemma YearLength(y: int)
    ensures DayFromYear(y + 1) == DayFromYear(y) + DaysInYear(y)
  {
    FourthYear(y);
    Century(y);
    FourthCentury(y);
  }

  lemma MonthsFillTheYear(y: int)
    ensures DaysBefore(y, 12) == DaysInYear(y)
  {
    assert DaysBefore(y, 1) == 31;
    assert DaysBefore(y, 2) == DaysBefore(y, 1) + DaysInMonth(y, 1);
    assert DaysBefore(y, 3) == DaysBefore(y, 2) + DaysInMonth(y, 2);
    assert DaysBefore(y, 4) == DaysBefore(y, 3) + DaysInMonth(y, 3);
    assert DaysBefore(y, 5) == DaysBefore(y, 4) + DaysInMonth(y, 4);
    assert DaysBefore(y, 6) == DaysBefore(y, 5) + DaysInMonth(y, 5);
    assert DaysBefore(y, 7) == DaysBefore(y, 6) + DaysInMonth(y, 6);
    assert DaysBefore(y, 8) == DaysBefore(y, 7) + DaysInMonth(y, 7);
    assert DaysBefore(y, 9) == DaysBefore(y, 8) + DaysInMonth(y, 8);
    assert DaysBefore(y, 10) == DaysBefore(y, 9) + DaysInMonth(y, 9);
    assert DaysBefore(y, 11) == DaysBefore(y, 10) + DaysInMonth(y, 10);
    assert DaysBefore(y, 12) == DaysBefore(y, 11) + DaysInMonth(y, 11);
  }

  // --- The calendar in numbers ---

  /** The Gregorian rule. */
  function LeapDay(y: int): int {
    if y % 400 == 0 then 1 else if y % 100 == 0 then 0 else if y % 4 == 0 then 1 else 0
  }

  /** Days of an ordinary year before each month, and days of each month. */
  const MONTH_STARTS := [0, 31, 59, 90, 120, 151, 181, 212, 243, 273, 304, 334]
  const MONTH_DAYS := [31, 28, 31, 30, 31, 30, 31, 31, 30, 31, 30, 31]

  lemma DaysBeforeAre(y: int, m: int)
    requires 0 <= m <= 11
    ensures DaysBefore(y, m) == MONTH_STARTS[m] + if m >= 2 then LeapDay(y) else 0
  {
    assert DaysBefore(y, 1) == 31 && DaysBefore(y, 2) == 59 + LeapDay(y);
    assert DaysBefore(y, 3) == 90 + LeapDay(y) && DaysBefore(y, 4) == 120 + LeapDay(y);
    assert DaysBefore(y, 5) == 151 + LeapDay(y) && DaysBefore(y, 6) == 181 + LeapDay(y);
    assert DaysBefore(y, 7) == 212 + LeapDay(y) && DaysBefore(y, 8) == 243 + LeapDay(y);
    assert DaysBefore(y, 9) == 273 + LeapDay(y) && DaysBefore(y, 10) == 304 + LeapDay(y);
  }

  /**
    MakeDay is the Gregorian calendar: day 0 is 1 January 1970, years have 365 days and a leap day by the Gregorian
    rule, months start where the table says, dates count on from there, and months carry over into years.
   */
  lemma MakeDayIsGregorian(y: int, m: int, date: int)
    requires 0 <= m <= 11
    ensures MakeDay(1970, 0, 1) == 0
    ensures MakeDay(y + 1, 0, 1) - MakeDay(y, 0, 1) == 365 + LeapDay(y)
    ensures MakeDay(y, m, 1) - MakeDay(y, 0, 1) == MONTH_STARTS[m] + if m >= 2 then LeapDay(y) else 0
    ensures MakeDay(y, m, date) == MakeDay(y, m, 1) + (date - 1)
    ensures forall k: int :: MakeDay(y, m + 12 * k, date) == MakeDay(y + k, m, date)
  {
    hide DayFromYear, DaysBefore, MakeDay, LeapDay;
    assert MakeDay(1970, 0, 1) == 0 by { FirstDays(1970, 0); }
    assert MakeDay(y + 1, 0, 1) - MakeDay(y, 0, 1) == 365 + LeapDay(y) by { YearInDays(y); }
    assert MakeDay(y, m, 1) - MakeDay(y, 0, 1) == MONTH_STARTS[m] + if m >= 2 then LeapDay(y) else 0 by {
      FirstDays(y, m);
      FirstDays(y, 0);
      DaysBeforeAre(y, m);
      DaysBeforeAre(y, 0);
    }
    DatesCountOn(y, m, date);
    forall k: int { MonthsCarryOver(y, m, date, k); }
  }

  lemma FirstDays(y: int, m: int)
    requires 0 <= m <= 11
    ensures MakeDay(y, m, 1) == DayFromYear(y) + DaysBefore(y, m)
    ensures DayFromYear(1970) == 0 == DaysBefore(1970, 0)
  {
    hide DaysBefore;
    assert m / 12 == 0 && m % 12 == m;
    assert DaysBefore(1970, 0) == 0 by { DaysBeforeAre(1970, 0); }
  }

  lemma YearInDays(y: int)
    ensures MakeDay(y + 1, 0, 1) - MakeDay(y, 0, 1) == 365 + LeapDay(y)
  {
    hide DayFromYear;
    YearLength(y);
  }

  lemma DatesCountOn(y: int, m: int, date: int)
    ensures MakeDay(y, m, date) == MakeDay(y, m, 1) + (date - 1)
  {
    hide DayFromYear, DaysBefore;
  }

  lemma MonthsCarryOver(y: int, m: int, date: int, k: int)
    requires 0 <= m <= 11
    ensures MakeDay(y, m + 12 * k, date) == MakeDay(y + k, m, date)
  {
    hide DayFromYear, DaysBefore;
    assert (m + 12 * k) / 12 == k && (m + 12 * k) % 12 == m;
    assert m / 12 == 0 && m % 12 == m;
  }

  lemma MonthDays(y: int, m: int)
    requires 0 <= m <= 11
    ensures DaysInMonth(y, m) == MONTH_DAYS[m] + if m == 1 then LeapDay(y) else 0
  {
  }

  // --- Reading a day number back ---

  lemma {:induction false} YearsGrow(y: int, k: nat)
    ensures DayFromYear(y) + 365 * k <= DayFromYear(y + k) <= DayFromYear(y) + 366 * k
  {
    if k > 0 {
      YearsGrow(y, k - 1);
      YearLength(y + k - 1);
    }
  }

  /** YearFromTime: the year whose days contain the given one. */
  function YearOf(day: Day): (y: int)
    ensures DayFromYear(y) <= day < DayFromYear(y + 1)
  {
    var guess := if day >= 0 then 1970 + day / 366 else 1970 + day / 365;
    assert DayFromYear(guess) <= day by {
      assert DayFromYear(1970) == 0;
      if day >= 0 { YearsGrow(1970, day / 366); } else { YearsGrow(guess, 1970 - guess); }
    }
    YearFrom(day, guess)
  }

  function YearFrom(day: Day, y: int): (r: int)
    requires DayFromYear(y) <= day
    ensures DayFromYear(r) <= day < DayFromYear(r + 1)
    decreases day - DayFromYear(y)
  {
    YearLength(y);
    if day < DayFromYear(y + 1) then y else YearFrom(day, y + 1)
  }

  lemma YearsAreOrdered(a: int, b: int)
    ensures a <= b ==> DayFromYear(a) <= DayFromYear(b)
  {
    if a <= b { YearsGrow(a, b - a); }
  }

  lemma YearIsUnique(day: Day, y: int)
    requires DayFromYear(y) <= day < DayFromYear(y + 1)
    ensures YearOf(day) == y
  {
    hide DayFromYear;
    YearsAreOrdered(YearOf(day) + 1, y);
    YearsAreOrdered(y + 1, YearOf(day));
  }

  function DayInYear(day: Day): (d: nat)
    ensures d < DaysInYear(YearOf(day))
  {
    YearLength(YearOf(day));
    day - DayFromYear(YearOf(day))
  }

  /** The month containing the d-th day of the year, searching from month m on. */
  function MonthFrom(y: int, d: int, m: int): (r: int)
    requires 0 <= m <= 11 && DaysBefore(y, m) <= d < DaysInYear(y)
    ensures m <= r <= 11 && DaysBefore(y, r) <= d < DaysBefore(y, r + 1)
    decreases 11 - m
  {
    MonthsFillTheYear(y);
    if d < DaysBefore(y, m + 1) then m else MonthFrom(y, d, m + 1)
  }

  function MonthOf(day: Day): (m: int)
    ensures 0 <= m <= 11
  {
    MonthFrom(YearOf(day), DayInYear(day), 0)
  }

  /** The day of the month, from 1. */
  function DateOf(day: Day): (date: int)
    ensures 1 <= date <= DaysInMonth(YearOf(day), MonthOf(day))
  {
    DayInYear(day) - DaysBefore(YearOf(day), MonthOf(day)) + 1
  }

  lemma {:induction false} MonthsGrow(y: int, m: int, k: nat)
    requires m >= 0
    ensures DaysBefore(y, m + k) >= DaysBefore(y, m) + 28 * k
  {
    if k > 0 {
      MonthsGrow(y, m, k - 1);
    }
  }

  /** Every day number denotes exactly one calendar date, and MakeDay gives the day number back. */
  lemma DateRoundTrip(day: Day)
    ensures MakeDay(YearOf(day), MonthOf(day), DateOf(day)) == day
  {
    hide DayFromYear, DaysBefore, YearOf, MonthOf;
    assert MonthOf(day) / 12 == 0 && MonthOf(day) % 12 == MonthOf(day);
  }

  lemma MonthsAreOrdered(y: int, a: int, b: int)
    requires a >= 0
    ensures a <= b ==> DaysBefore(y, a) <= DaysBefore(y, b)
  {
    if a <= b { MonthsGrow(y, a, b - a); }
  }

  lemma CivilRoundTrip(y: int, m: int, date: int)
    requires 0 <= m <= 11 && 1 <= date <= DaysInMonth(y, m)
    ensures
      var day := MakeDay(y, m, date);
      YearOf(day) == y && MonthOf(day) == m && DateOf(day) == date
  {
    hide DayFromYear, YearOf, MonthFrom;
    var day := MakeDay(y, m, date);
    assert m / 12 == 0 && m % 12 == m;
    assert DaysBefore(y, m + 1) == DaysBefore(y, m) + DaysInMonth(y, m);
    MonthsFillTheYear(y);
    MonthsAreOrdered(y, m + 1, 12);
    MonthsAreOrdered(y, 0, m);
    YearLength(y);
    YearIsUnique(day, y);
    MonthsAreOrdered(y, MonthOf(day) + 1, m);
    MonthsAreOrdered(y, m + 1, MonthOf(day));
  }

  /** The month after month m starts as many days later as month m has. */
  lemma NextMonth(y: int, m: int, date: int)
    ensures MakeDay(y, m + 1, date) == MakeDay(y, m, date) + DaysInMonth(y + m / 12, m % 12)
  {
    var year, month := y + m / 12, m % 12;
    if month < 11 {
      assert (m + 1) / 12 == m / 12 && (m + 1) % 12 == month + 1;
    } else {
      assert (m + 1) / 12 == m / 12 + 1 && (m + 1) % 12 == 0;
      YearLength(year);
      MonthsFillTheYear(year);
    }
  }

  // --- The Date setters ---

  /** setDate(getDate() + n) */
  function AddDays(day: Day, n: int): Day {
    MakeDay(YearOf(day), MonthOf(day), DateOf(day) + n)
  }

  /** setMonth(getMonth() + n) */
  function AddMonths(day: Day, n: int): Day {
    MakeDay(YearOf(day), MonthOf(day) + n, DateOf(day))
  }

  /** Adding days through setDate is adding to the day number, whatever month and year ends lie between. */
  lemma AddDaysIsPlus(day: Day, n: int)
    ensures AddDays(day, n) == day + n
  {
    hide DayFromYear, DaysBefore, YearOf, MonthOf, DateOf;
    DateRoundTrip(day);
  }

  /** Adding one month moves as many days as the current month has, even when the date overflows the next one. */
  lemma AddMonthIsMonthLength(day: Day)
    ensures AddMonths(day, 1) == day + DaysInMonth(YearOf(day), MonthOf(day))
    ensures AddMonths(day, 1) == day + MONTH_DAYS[MonthOf(day)] + if MonthOf(day) == 1 then LeapDay(YearOf(day)) else 0
  {
    hide DayFromYear, DaysBefore, YearOf, MonthOf, DateOf, MakeDay, DaysInMonth, LeapDay;
    MonthDays(YearOf(day), MonthOf(day));
    DateRoundTrip(day);
    NextMonth(YearOf(day), MonthOf(day), DateOf(day));
  }
}
