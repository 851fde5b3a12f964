/**
 * The period windows of the finance statistics (getFinanceStats in both
 * storage variants): which record days a daily, weekly, monthly or yearly
 * report around a reference day keeps.
 */
module Periods {
  import opened Dates

  /** The `period` argument; any other string falls through every test. */
  datatype Period = Daily | Weekly | Monthly | Yearly | Other(name: string)

  /** `startOfWeek`: the reference date with its day of month set to `getDate() - getDay()`. */
  function StartOfWeek(ref: Day): Day
  {
    SetDate(ref, DayOfMonth(ref) - Weekday(ref))
  }

  /** `endOfWeek`: a copy of the week start with its day of month moved on by six. */
  function EndOfWeek(ref: Day): Day
  {
    var start := StartOfWeek(ref);
    SetDate(start, DayOfMonth(start) + 6)
  }

  /**
   * The filter callback: does a record dated `day` fall in `period` around `ref`?
   * Both dates are at midnight, so the weekly upper bound 23:59:59.999 of the
   * last day admits exactly the days up to and including that day.
   */
  predicate InPeriod(period: Period, day: Day, ref: Day)
  {
    match period
    case Daily => day == ref
    case Weekly => StartOfWeek(ref) <= day <= EndOfWeek(ref)
    case Monthly => Month(day) == Month(ref) && Year(day) == Year(ref)
    case Yearly => Year(day) == Year(ref)
    case Other(_) => false
  }

  /** The week starts on the reference day minus its weekday index, across any month boundary. */
  lemma WeekStart(ref: Day)
    ensures StartOfWeek(ref) == ref - Weekday(ref)
  {
    SetDateShifts(ref, DayOfMonth(ref) - Weekday(ref));
  }

  /** The week ends six days after it starts. */
  lemma WeekEnd(ref: Day)
    ensures EndOfWeek(ref) == StartOfWeek(ref) + 6
  {
    var start := StartOfWeek(ref);
    SetDateShifts(start, DayOfMonth(start) + 6);
  }

  /**
   * The week window is the seven days from the Sunday on or before the
   * reference day; it always holds the reference day, whatever month or year
   * boundary the `setDate` roll-over crosses.
   */
  lemma WeekWindow(ref: Day)
    ensures StartOfWeek(ref) == ref - Weekday(ref)
    ensures Weekday(StartOfWeek(ref)) == 0
    ensures EndOfWeek(ref) == StartOfWeek(ref) + 6
    ensures StartOfWeek(ref) <= ref <= EndOfWeek(ref)
  {
    WeekStart(ref);
    WeekEnd(ref);
    var w := Weekday(ref);
    assert (ref - w + 4) % 7 == 0;
  }

  /**
   * An independent reading of the weekly test: the record and the reference day
   * lie in the same Sunday-to-Saturday week, numbering weeks by (day + 4) / 7.
   */
  lemma WeeklyMeansSameWeek(day: Day, ref: Day)
    ensures InPeriod(Weekly, day, ref) <==> (day + 4) / 7 == (ref + 4) / 7
  {
    WeekWindow(ref);
    var k := (ref + 4) / 7;
    assert ref - Weekday(ref) == 7 * k - 4;
  }

  /** A daily match is a match of the same calendar date, year, month and day. */
  lemma DailyMeansSameDate(day: Day, ref: Day)
    ensures InPeriod(Daily, day, ref) <==> CivilFromDays(day) == CivilFromDays(ref)
  {
    CivilInjective(day, ref);
  }

  /** The windows nest: daily within weekly, daily within monthly within yearly. */
  lemma WindowsNest(day: Day, ref: Day)
    ensures InPeriod(Daily, day, ref) ==> InPeriod(Weekly, day, ref)
    ensures InPeriod(Daily, day, ref) ==> InPeriod(Monthly, day, ref)
    ensures InPeriod(Monthly, day, ref) ==> InPeriod(Yearly, day, ref)
  {
    WeekWindow(ref);
  }

  /** An unrecognised period keeps nothing. */
  lemma OtherKeepsNothing(name: string, day: Day, ref: Day)
    ensures !InPeriod(Other(name), day, ref)
  {
  }

  /**
   * Weekly is not contained in monthly: for Friday 2024-03-01 (day 19783) the
   * week starts on Sunday 2024-02-25 (day 19778), a February day.
   */
  lemma WeekCrossesMonth(ref: Day, day: Day)
    requires ref == 19783 && day == 19778
    ensures CivilFromDays(ref) == Civil(2024, 3, 1) && CivilFromDays(day) == Civil(2024, 2, 25)
    ensures InPeriod(Weekly, day, ref) && !InPeriod(Monthly, day, ref)
  {
    FirstOfMarch2024(ref);
    LastSundayOfFebruary2024(day);
    SameWeekNumber(day, ref, 2826);
    WeeklyMeansSameWeek(day, ref);
  }

  /** Two days whose week numbers (day + 4) / 7 are both `k`. */
  lemma SameWeekNumber(day: Day, ref: Day, k: int)
    requires 7 * k <= day + 4 < 7 * k + 7 && 7 * k <= ref + 4 < 7 * k + 7
    ensures (day + 4) / 7 == (ref + 4) / 7
  {
  }

  lemma FirstOfMarch2024(z: Day)
    requires z == 19783
    ensures CivilFromDays(z) == Civil(2024, 3, 1) && Month(z) == 3
  {
    CivilFromParts(z, 5, 8766, 24, 0, 0);
  }

  lemma LastSundayOfFebruary2024(z: Day)
    requires z == 19778
    ensures CivilFromDays(z) == Civil(2024, 2, 25) && Month(z) == 2
  {
    CivilFromParts(z, 5, 8761, 23, 361, 11);
  }

  /**
   * Nor in yearly: for Wednesday 2025-01-01 (day 20089) the week starts on
   * Sunday 2024-12-29 (day 20086).
   */
  lemma WeekCrossesYear(ref: Day, day: Day)
    requires ref == 20089 && day == 20086
    ensures CivilFromDays(ref) == Civil(2025, 1, 1) && CivilFromDays(day) == Civil(2024, 12, 29)
    ensures InPeriod(Weekly, day, ref) && !InPeriod(Yearly, day, ref)
  {
    CivilFromParts(day, 5, 9069, 24, 303, 9);
    CivilFromParts(ref, 5, 9072, 24, 306, 10);
    WeeklyMeansSameWeek(day, ref);
  }

  /**
   * A Wednesday reference day's week spans the preceding Sunday to the
   * following Saturday: for 2024-03-13 (day 19795) that is days 19792 to 19798.
   */
  lemma WednesdayWeek(ref: Day)
    requires ref == 19795
    ensures CivilFromDays(ref) == Civil(2024, 3, 13) && Weekday(ref) == 3
    ensures StartOfWeek(ref) == 19792 && EndOfWeek(ref) == 19798
  {
    ThirteenthOfMarch2024(ref);
    WeekWindow(ref);
  }

  lemma ThirteenthOfMarch2024(z: Day)
    requires z == 19795
    ensures CivilFromDays(z) == Civil(2024, 3, 13)
  {
    CivilFromParts(z, 5, 8778, 24, 12, 0);
  }
}
