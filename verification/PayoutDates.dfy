/** The payout and deadline date computations of the scheduler and the circle service. */
module PayoutDates {
  import opened Calendar

  datatype PayoutFrequency = WEEKLY | BI_WEEKLY | MONTHLY

  /** addFrequencyPeriod */
  function AddFrequencyPeriod(date: Day, frequency: PayoutFrequency): Day {
    match frequency
    case WEEKLY => AddDays(date, 7)
    case BI_WEEKLY => AddDays(date, 14)
    case MONTHLY => AddMonths(date, 1)
  }

  /** `rounds` periods after `start`, one at a time. */
  function PayoutDate(start: Day, frequency: PayoutFrequency, rounds: nat): Day {
    if rounds == 0 then start else AddFrequencyPeriod(PayoutDate(start, frequency, rounds - 1), frequency)
  }

  /** The schedule both services promise: round r falls r periods after the start. */
  function PayoutDates(start: Day, frequency: PayoutFrequency, totalRounds: nat): seq<Day> {
    seq(totalRounds, i requires 0 <= i < totalRounds => PayoutDate(start, frequency, i + 1))
  }

  /** calculateAllPayoutDates: the scheduler accumulates a list. */
  method CalculateAllPayoutDates(startDate: Day, frequency: PayoutFrequency, totalRounds: nat)
    returns (dates: seq<Day>)
    ensures dates == PayoutDates(startDate, frequency, totalRounds)
  {
    hide AddFrequencyPeriod;
    dates := [];
    var currentDate := startDate;
    for i := 0 to totalRounds
      invariant currentDate == PayoutDate(startDate, frequency, i)
      invariant dates == PayoutDates(startDate, frequency, i)
    {
      currentDate := AddFrequencyPeriod(currentDate, frequency);
      dates := dates + [currentDate];
    }
  }

  /** calculatePayoutDateForRound: the circle service moves one date. */
  method CalculatePayoutDateForRound(startDate: Day, round: nat, frequency: PayoutFrequency) returns (date: Day)
    ensures date == PayoutDate(startDate, frequency, round)
    ensures forall n :: round <= n && round >= 1 ==> date == PayoutDates(startDate, frequency, n)[round - 1]
  {
    hide AddDays, AddMonths;
    date := startDate;
    for i := 0 to round
      invariant date == PayoutDate(startDate, frequency, i)
    {
      match frequency
      case WEEKLY => date := AddDays(date, 7);
      case BI_WEEKLY => date := AddDays(date, 14);
      case MONTHLY => date := AddMonths(date, 1);
    }
  }

  /** calculateNextPayoutDate, stored when a circle is created. */
  function CalculateNextPayoutDate(startDate: Day, frequency: PayoutFrequency): Day {
    AddFrequencyPeriod(startDate, frequency)
  }

  /** calculateContributionDeadline: one jump to the end of the next round, then back by the grace period. */
  function ContributionDeadline(start: Day, round: nat, frequency: PayoutFrequency, gracePeriodDays: nat): Day {
    var payoutDate :=
      match frequency
      case WEEKLY => AddDays(start, 7 * (round + 1))
      case BI_WEEKLY => AddDays(start, 14 * (round + 1))
      case MONTHLY => AddMonths(start, round + 1);
    AddDays(payoutDate, -(gracePeriodDays as int))
  }

  /** How far one period moves a date: monthly steps are as long as the calendar month they start in. */
  function PeriodLength(date: Day, frequency: PayoutFrequency): (n: int)
    ensures 7 <= n <= 31
    ensures frequency == MONTHLY ==> n >= 28
  {
    match frequency
    case WEEKLY => 7
    case BI_WEEKLY => 14
    case MONTHLY => MONTH_DAYS[MonthOf(date)] + if MonthOf(date) == 1 then LeapDay(YearOf(date)) else 0
  }

  /** Each payout date is one period length after the one before. */
  lemma StepLength(start: Day, frequency: PayoutFrequency, rounds: nat)
    ensures
      var before := PayoutDate(start, frequency, rounds);
      PayoutDate(start, frequency, rounds + 1) == before + PeriodLength(before, frequency)
  {
    hide AddDays, AddMonths;
    var before := PayoutDate(start, frequency, rounds);
    AddDaysIsPlus(before, 7);
    AddDaysIsPlus(before, 14);
    AddMonthIsMonthLength(before);
  }

  /** Payout dates are strictly increasing, at least a week and at most 31 days apart. */
  lemma {:induction false} DatesIncrease(start: Day, frequency: PayoutFrequency, a: nat, b: nat)
    requires a <= b
    ensures PayoutDate(start, frequency, a) + 7 * (b - a) <= PayoutDate(start, frequency, b)
         <= PayoutDate(start, frequency, a) + 31 * (b - a)
    decreases b - a
  {
    hide PayoutDate, PeriodLength, AddFrequencyPeriod;
    if a < b {
      DatesIncrease(start, frequency, a, b - 1);
      StepLength(start, frequency, b - 1);
    }
  }

  lemma {:induction false} FixedPeriods(start: Day, frequency: PayoutFrequency, rounds: nat)
    requires frequency != MONTHLY
    ensures PayoutDate(start, frequency, rounds) == start + (if frequency == WEEKLY then 7 else 14) * rounds
  {
    hide AddFrequencyPeriod;
    if rounds > 0 {
      FixedPeriods(start, frequency, rounds - 1);
      StepLength(start, frequency, rounds - 1);
    }
  }

  // --- Iterated months and one jump ---

  /** The length of the calendar month `k` months after the start's. */
  function MonthLength(start: Day, k: nat): int {
    DaysInMonth(YearOf(start) + (MonthOf(start) + k) / 12, (MonthOf(start) + k) % 12)
  }

  /** That month has no day with the start's date. */
  predicate Overflows(start: Day, k: nat) { MonthLength(start, k) < DateOf(start) }

  /** The first of the months 1..k after the start's that overflows; 0 if none does. */
  function FirstOverflow(start: Day, k: nat): (j: nat)
    ensures j <= k
    ensures j == 0 ==> forall i :: 1 <= i <= k ==> !Overflows(start, i)
    ensures j > 0 ==> Overflows(start, j) && forall i :: 1 <= i < j ==> !Overflows(start, i)
  {
    if k == 0 then 0
    else
      var j := FirstOverflow(start, k - 1);
      if j > 0 then j else if Overflows(start, k) then k else 0
  }

  /** A date that exists in its month is reached as written. */
  lemma JumpLandsOnDate(y: int, m: int, date: int)
    requires 1 <= date <= DaysInMonth(y + m / 12, m % 12)
    ensures
      var day := MakeDay(y, m, date);
      YearOf(day) == y + m / 12 && MonthOf(day) == m % 12
  {
    hide DayFromYear, DaysBefore, YearOf, MonthOf, DateOf;
    CivilRoundTrip(y + m / 12, m % 12, date);
    assert (m % 12) / 12 == 0 && (m % 12) % 12 == m % 12;
    assert MakeDay(y + m / 12, m % 12, date) == MakeDay(y, m, date);
  }

  /** From a date that exists in its month, one period on MONTHLY is the same date one month on. */
  lemma OneMonthOn(start: Day, rounds: nat, y: int, m: int, date: int)
    requires 1 <= date <= DaysInMonth(y + m / 12, m % 12)
    requires PayoutDate(start, MONTHLY, rounds) == MakeDay(y, m, date)
    ensures PayoutDate(start, MONTHLY, rounds + 1) == MakeDay(y, m + 1, date)
  {
    hide MakeDay, DateOf, YearOf, MonthOf, DaysInMonth;
    JumpLandsOnDate(y, m, date);
    AddMonthIsMonthLength(PayoutDate(start, MONTHLY, rounds));
    NextMonth(y, m, date);
  }

  /** Until a month overflows, iterating months is one jump. */
  lemma {:induction false} MonthsJump(start: Day, rounds: nat)
    requires forall i :: 1 <= i < rounds ==> !Overflows(start, i)
    ensures PayoutDate(start, MONTHLY, rounds) == AddMonths(start, rounds)
  {
    hide MakeDay, DateOf, YearOf, MonthOf, DaysInMonth;
    if rounds == 0 {
      DateRoundTrip(start);
    } else {
      MonthsJump(start, rounds - 1);
      assert rounds - 1 > 0 ==> !Overflows(start, rounds - 1);
      OneMonthOn(start, rounds - 1, YearOf(start), MonthOf(start) + (rounds - 1), DateOf(start));
    }
  }

  /** A date counted from one month can be counted from the next. */
  lemma CarriedOver(y: int, m: int, date: int)
    ensures MakeDay(y, m, date) == MakeDay(y, m + 1, date - DaysInMonth(y + m / 12, m % 12))
  {
    hide DayFromYear, DaysBefore;
    NextMonth(y, m, date - DaysInMonth(y + m / 12, m % 12));
  }

  /** After the first overflow the iteration keeps the date it was carried to, one month further on. */
  lemma {:induction false} MonthsAfterOverflow(start: Day, j: nat, rounds: nat)
    requires 1 <= j <= rounds && Overflows(start, j) && forall i :: 1 <= i < j ==> !Overflows(start, i)
    ensures PayoutDate(start, MONTHLY, rounds)
         == MakeDay(YearOf(start), MonthOf(start) + rounds + 1, DateOf(start) - MonthLength(start, j))
    decreases rounds
  {
    hide MakeDay, YearOf, MonthOf, PayoutDate;
    if rounds == j {
      MonthsJump(start, j);
      CarriedOver(YearOf(start), MonthOf(start) + j, DateOf(start));
    } else {
      MonthsAfterOverflow(start, j, rounds - 1);
      OneMonthOn(start, rounds - 1, YearOf(start), MonthOf(start) + rounds, DateOf(start) - MonthLength(start, j));
    }
  }

  /**
    How far the iterated monthly date is from the single jump: nothing until a month overflows, and from then on by
    how much longer the month aimed at is than the first one that overflowed.
   */
  lemma IterationMinusJump(start: Day, rounds: nat)
    ensures
      var j := FirstOverflow(start, rounds);
      PayoutDate(start, MONTHLY, rounds) - AddMonths(start, rounds)
      == if j == 0 then 0 else MonthLength(start, rounds) - MonthLength(start, j)
  {
    hide PayoutDate, MakeDay, DaysInMonth, YearOf, MonthOf, DateOf;
    var j := FirstOverflow(start, rounds);
    if j == 0 {
      MonthsJump(start, rounds);
    } else {
      var y, m, d := YearOf(start), MonthOf(start) + rounds, DateOf(start);
      MonthsAfterOverflow(start, j, rounds);
      CarriedOver(y, m, d);
      DatesAreLinear(y, m + 1, d - MonthLength(start, rounds), d - MonthLength(start, j));
    }
  }

  lemma DatesAreLinear(y: int, m: int, a: int, b: int)
    ensures MakeDay(y, m, b) - MakeDay(y, m, a) == b - a
  {
    hide DayFromYear, DaysBefore;
  }

  /** The closed form and the iterated schedule agree for round k. */
  ghost predicate DeadlineAgrees(start: Day, frequency: PayoutFrequency, gracePeriodDays: nat, k: nat) {
    ContributionDeadline(start, k, frequency, gracePeriodDays) == PayoutDate(start, frequency, k + 1) - gracePeriodDays
  }

  lemma DeadlineOfFixedPeriods(start: Day, frequency: PayoutFrequency, gracePeriodDays: nat, k: nat)
    requires frequency != MONTHLY
    ensures DeadlineAgrees(start, frequency, gracePeriodDays, k)
  {
    hide AddDays;
    FixedPeriods(start, frequency, k + 1);
    AddDaysIsPlus(start, 7 * (k + 1));
    AddDaysIsPlus(start, 14 * (k + 1));
    AddDaysIsPlus(start + (if frequency == WEEKLY then 7 else 14) * (k + 1), -(gracePeriodDays as int));
  }

  lemma MonthlyDeadline(start: Day, gracePeriodDays: nat, k: nat)
    ensures ContributionDeadline(start, k, MONTHLY, gracePeriodDays) == AddMonths(start, k + 1) - gracePeriodDays
  {
    hide AddDays, AddMonths;
    AddDaysIsPlus(AddMonths(start, k + 1), -(gracePeriodDays as int));
  }

  /**
    The monthly deadline of round k differs from the payout date of round k + 1 less the grace period exactly by the
    difference between the iteration and the jump; so they agree exactly if no month up to then overflows, or the month
    aimed at is as long as the first that did.
   */
  lemma MonthlyDeadlineAgreesIff(start: Day, gracePeriodDays: nat, k: nat)
    ensures
      var j := FirstOverflow(start, k + 1);
      DeadlineAgrees(start, MONTHLY, gracePeriodDays, k)
      <==> j == 0 || MonthLength(start, k + 1) == MonthLength(start, j)
  {
    hide PayoutDate, AddMonths, ContributionDeadline, MonthLength, Overflows;
    MonthlyDeadline(start, gracePeriodDays, k);
    IterationMinusJump(start, k + 1);
  }

  /** The months to a later February of an ordinary year. */
  function MonthsToShortFebruary(y: int, m: int): (k: nat)
    requires 0 <= m <= 11
    ensures k >= 1
    ensures (m + k) % 12 == 1 && !IsLeap(y + (m + k) / 12)
  {
    var years := if IsLeap(y + 1) then 2 else 1;
    var k := 12 * years + 1 - m;
    assert (m + k) / 12 == years && (m + k) % 12 == 1;
    k
  }

  /** No two months in a row are shorter than 31 days. */
  lemma LongMonthFollows(y: int, m: int, next: int)
    requires 0 <= m <= 11 && DaysInMonth(y, m) < 31
    ensures m < 11 && DaysInMonth(next, m + 1) == 31
  {
  }

  /** The month after one that overflows is longer. */
  lemma LongerMonthFollows(start: Day, j: nat)
    requires Overflows(start, j)
    ensures MonthLength(start, j + 1) == 31 > MonthLength(start, j)
  {
    hide YearOf, MonthOf, DaysInMonth, DateOf;
    var m := MonthOf(start) + j;
    LongMonthFollows(YearOf(start) + m / 12, m % 12, YearOf(start) + (m + 1) / 12);
    NextIndex(m);
  }

  lemma NextIndex(m: int)
    requires m % 12 < 11
    ensures (m + 1) % 12 == m % 12 + 1
  {
  }

  /** From day 29 on some month overflows, and the deadline of that very round disagrees. */
  lemma SomeRoundDisagrees(start: Day, gracePeriodDays: nat) returns (k: nat)
    requires DateOf(start) >= 29
    ensures !DeadlineAgrees(start, MONTHLY, gracePeriodDays, k)
  {
    hide DateOf, YearOf, MonthOf, DeadlineAgrees;
    var february := MonthsToShortFebruary(YearOf(start), MonthOf(start));
    assert Overflows(start, february);
    k := FirstOverflow(start, february);
    assert FirstOverflow(start, k) == k && FirstOverflow(start, k + 1) == k by { OverflowStays(start, k); }
    LongerMonthFollows(start, k);
    MonthlyDeadlineAgreesIff(start, gracePeriodDays, k);
  }

  lemma OverflowStays(start: Day, j: nat)
    requires j > 0 && Overflows(start, j) && forall i :: 1 <= i < j ==> !Overflows(start, i)
    ensures FirstOverflow(start, j) == j && FirstOverflow(start, j + 1) == j
  {
    hide Overflows;
  }

  /**
    The deadline shown for round k is the scheduled payout date of round k + 1 less the grace period, for every
    round, exactly when the circle is not monthly or starts on a day that every month has.
   */
  lemma DeadlinesAgreeIff(start: Day, frequency: PayoutFrequency, gracePeriodDays: nat)
    ensures (forall k: nat :: DeadlineAgrees(start, frequency, gracePeriodDays, k))
       <==> frequency != MONTHLY || DateOf(start) <= 28
  {
    hide DateOf, DeadlineAgrees, YearOf, MonthOf;
    if frequency != MONTHLY {
      forall k: nat ensures DeadlineAgrees(start, frequency, gracePeriodDays, k) {
        DeadlineOfFixedPeriods(start, frequency, gracePeriodDays, k);
      }
    } else if DateOf(start) <= 28 {
      forall k: nat ensures DeadlineAgrees(start, frequency, gracePeriodDays, k) {
        MonthlyDeadlineAgreesIff(start, gracePeriodDays, k);
      }
    } else {
      var k := SomeRoundDisagrees(start, gracePeriodDays);
    }
  }
}
