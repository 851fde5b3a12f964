/**
 * Calendar days as ordinals. A JavaScript `Date` whose time of day has been
 * reset with `setHours(0,0,0,0)` stands for one calendar day; the model counts
 * such days from 1970-01-01 (day 0, a Thursday) and derives year, month, day
 * of month and weekday from the count with the proleptic Gregorian calendar.
 */
module Dates {

  /** A calendar day: the number of days since 1970-01-01. */
  type Day = int

  /** A calendar date; `month` runs 1..12 (JavaScript's getMonth() is this minus one). */
  datatype Civil = Civil(year: int, month: int, day: int)

  /** Days from March 1 of year 0 of a 400-year era to March 1 of year `yoe` of it. */
  function DaysBeforeYearOfEra(yoe: int): int
  {
    365 * yoe + yoe / 4 - yoe / 100
  }

  /**
   * The day with the given year, month and day of month. The day of month may
   * lie outside the month: it is counted on from day 1 of that month, which is
   * how ECMAScript's MakeDay (used by `Date.prototype.setDate`) rolls over.
   * Dafny's `/` with a positive divisor is floor division.
   */
  function DaysFromCivil(year: int, month: int, day: int): Day
  {
    var y := if month <= 2 then year - 1 else year;
    var era := y / 400;
    var yoe := y - era * 400;
    var mp := if month > 2 then month - 3 else month + 9;
    var doy := (153 * mp + 2) / 5 + day - 1;
    era * 146097 + DaysBeforeYearOfEra(yoe) + doy - 719468
  }

  /** The year of era that a day of era falls in (years start on March 1). */
  function YearOfEra(doe: int): int
  {
    (doe - doe / 1460 + doe / 36524 - doe / 146096) / 365
  }

  /** The calendar date of a day. */
  function CivilFromDays(z: Day): Civil
  {
    var shifted := z + 719468;
    CivilInEra(shifted / 146097, shifted % 146097)
  }

  /** The calendar date of day `doe` of 400-year era `era`. */
  function CivilInEra(era: int, doe: int): Civil
  {
    var yoe := YearOfEra(doe);
    CivilInYear(yoe + era * 400, doe - DaysBeforeYearOfEra(yoe))
  }

  /** The calendar date of day `doy` of the March-based year `y` (January and February belong to y + 1). */
  function CivilInYear(y: int, doy: int): Civil
  {
    var mp := (5 * doy + 2) / 153;
    var d := doy - (153 * mp + 2) / 5 + 1;
    if mp < 10 then Civil(y, mp + 3, d) else Civil(y + 1, mp - 9, d)
  }

  /** `getFullYear()` of a day. */
  function Year(z: Day): int { CivilFromDays(z).year }

  /** `getMonth()` of a day, counted 1..12. */
  function Month(z: Day): int { CivilFromDays(z).month }

  /** `getDate()` of a day. */
  function DayOfMonth(z: Day): int { CivilFromDays(z).day }

  /** `getDay()` of a day: 0 is Sunday, 6 is Saturday. Day 0 was a Thursday. */
  function Weekday(z: Day): (w: int)
    ensures 0 <= w < 7
    ensures (z - w + 4) % 7 == 0
  {
    (z + 4) % 7
  }

  /**
   * `setDate(k)` on a date at midnight: day k of the same month and year, rolled
   * over into neighbouring months (and years) when k is outside the month.
   */
  function SetDate(z: Day, k: int): Day
  {
    DaysFromCivil(Year(z), Month(z), k)
  }

  /**
   * Inside one 400-year era (146097 days, starting on a March 1), the year
   * formula finds the year that holds the day: the day lies at most 365 days
   * after the start of that year.
   */
  lemma YearOfEraBounds(doe: int)
    requires 0 <= doe <= 146096
    ensures 0 <= YearOfEra(doe) <= 399
    ensures DaysBeforeYearOfEra(YearOfEra(doe)) <= doe <= DaysBeforeYearOfEra(YearOfEra(doe)) + 365
  {
    if doe == 146096 {
      assert YearOfEra(doe) == 399;
    } else {
      // doe = 36524 c + 1461 q + 365 r + e: centuries, four-year cycles, years, days
      var c := doe / 36524;
      var rem1 := doe % 36524;
      var q := rem1 / 1461;
      var rem2 := rem1 % 1461;
      var r := rem2 / 365;
      var e := rem2 % 365;
      assert 0 <= c <= 3 && 0 <= q <= 24 && 0 <= r <= 4 && 0 <= e < 365;
      assert doe == 36524 * c + 1461 * q + 365 * r + e;
      assert r == 4 ==> e == 0;
      var t := 24 * c + q + 365 * r + e;
      assert doe / 1460 == 25 * c + q + t / 1460;
      assert doe / 36524 == c;
      assert doe / 146096 == 0;
      // r == 4 is the leap day closing a four-year cycle: it belongs to year r == 3
      var y := if r == 4 then 100 * c + 4 * q + 3 else 100 * c + 4 * q + r;
      assert YearOfEra(doe) == y;
      assert y / 4 == 25 * c + q && y / 100 == c;
    }
  }

  /** March 1 of year `yoe` of era `era` is `DaysBeforeYearOfEra(yoe)` days into the era. */
  lemma MarchFirst(era: int, yoe: int)
    requires 0 <= yoe <= 399
    ensures DaysFromCivil(yoe + era * 400, 3, 1) == era * 146097 + DaysBeforeYearOfEra(yoe) - 719468
  {
    assert (yoe + era * 400) / 400 == era;
  }

  /** Day `doy` of a March-based year is a real date, `doy` days after its March 1. */
  lemma CivilInYearRoundTrip(y: int, doy: int)
    requires 0 <= doy <= 365
    ensures var c := CivilInYear(y, doy);
      1 <= c.month <= 12 && 1 <= c.day <= 31 &&
      DaysFromCivil(c.year, c.month, c.day) == DaysFromCivil(y, 3, 1) + doy
  {
    var mp := (5 * doy + 2) / 153;
    assert 0 <= mp <= 11;
    assert 0 <= doy - (153 * mp + 2) / 5 <= 30;
  }

  /** The calendar date of a day is a real date, and converting it back gives the same day. */
  lemma CivilRoundTrip(z: Day)
    ensures 1 <= Month(z) <= 12 && 1 <= DayOfMonth(z) <= 31
    ensures DaysFromCivil(Year(z), Month(z), DayOfMonth(z)) == z
  {
    var shifted := z + 719468;
    var era, doe := shifted / 146097, shifted % 146097;
    YearOfEraBounds(doe);
    assert shifted == era * 146097 + doe;
    var yoe := YearOfEra(doe);
    var doy := doe - DaysBeforeYearOfEra(yoe);
    var c := CivilInYear(yoe + era * 400, doy);
    assert CivilFromDays(z) == c;
    CivilInYearRoundTrip(yoe + era * 400, doy);
    MarchFirst(era, yoe);
    assert DaysFromCivil(c.year, c.month, c.day) == era * 146097 + doe - 719468;
  }

  /** Two days with the same calendar date are the same day. */
  lemma CivilInjective(z1: Day, z2: Day)
    ensures CivilFromDays(z1) == CivilFromDays(z2) <==> z1 == z2
  {
    CivilRoundTrip(z1);
    CivilRoundTrip(z2);
  }

  /** `setDate(k)` moves a day by k minus its day of month: the roll-over is plain day arithmetic. */
  lemma SetDateShifts(z: Day, k: int)
    ensures SetDate(z, k) == z + k - DayOfMonth(z)
  {
    CivilRoundTrip(z);
    assert DaysFromCivil(Year(z), Month(z), k) - DaysFromCivil(Year(z), Month(z), DayOfMonth(z)) == k - DayOfMonth(z);
  }

  /**
   * Evaluates the calendar date of one given day from its decomposition into
   * era, day of era, year of era, day of year and month index, each of which
   * the caller supplies and the requires check by plain arithmetic.
   */
  lemma CivilFromParts(z: Day, era: int, doe: int, yoe: int, doy: int, mp: int)
    requires z + 719468 == era * 146097 + doe && 0 <= doe < 146097
    requires 365 * yoe <= doe - doe / 1460 + doe / 36524 - doe / 146096 < 365 * yoe + 365
    requires doy == doe - (365 * yoe + yoe / 4 - yoe / 100)
    requires 153 * mp <= 5 * doy + 2 < 153 * mp + 153
    ensures CivilFromDays(z) == (var d := doy - (153 * mp + 2) / 5 + 1;
      if mp < 10 then Civil(yoe + era * 400, mp + 3, d) else Civil(yoe + era * 400 + 1, mp - 9, d))
  {
    assert (z + 719468) / 146097 == era && (z + 719468) % 146097 == doe;
    assert YearOfEra(doe) == yoe;
  }

  /** The weekday advances by one each day, wrapping from Saturday to Sunday. */
  lemma WeekdayNext(z: Day)
    ensures Weekday(z + 1) == (Weekday(z) + 1) % 7
  {
  }
}
