/**
 * The proleptic Gregorian calendar as the JavaScript `Date` object presents
 * it through its local-time accessors: the full year, the zero-based month
 * (`getMonth`, 0 is January) and the one-based day of the month (`getDate`).
 *
 * A date is given a day number (days since 1 January 1970), which serves as
 * the independent reference against which the stepping functions are proved:
 * `PrevDay` and `NextDay` move the day number by exactly one, `SetDate`
 * reproduces `Date.prototype.setDate` with its roll-over into neighbouring
 * months, and the day of the week is read off the day number.
 */
module Calendar {

  datatype Date = Date(year: int, month: int, day: int)

  predicate IsLeapYear(year: int) {
    year % 4 == 0 && (year % 100 != 0 || year % 400 == 0)
  }

  function YearLength(year: int): int {
    if IsLeapYear(year) then 366 else 365
  }

  /** Number of days of the zero-based `month` of `year`. */
  function DaysInMonth(year: int, month: int): int
    requires 0 <= month < 12
  {
    if month == 1 then (if IsLeapYear(year) then 29 else 28)
    else if month == 3 || month == 5 || month == 8 || month == 10 then 30
    else 31
  }

  predicate ValidDate(d: Date) {
    0 <= d.month < 12 && 1 <= d.day <= DaysInMonth(d.year, d.month)
  }

  /** Days from 1 January 1970 to 1 January of `year` (negative before 1970). */
  function DaysBeforeYear(year: int): int
    decreases if year < 1970 then 1970 - year else year - 1970
  {
    if year == 1970 then 0
    else if year > 1970 then DaysBeforeYear(year - 1) + YearLength(year - 1)
    else DaysBeforeYear(year + 1) - YearLength(year)
  }

  /** Days from 1 January of `year` to the first day of the zero-based `month`;
      `month == 12` gives the length of the year. Written as the usual
      cumulative table, independently of `DaysInMonth`. */
  function DaysBeforeMonth(year: int, month: int): int
    requires 0 <= month <= 12
  {
    [0, 31, 59, 90, 120, 151, 181, 212, 243, 273, 304, 334, 365][month]
    + (if month >= 2 && IsLeapYear(year) then 1 else 0)
  }

  /** Days since 1 January 1970 (the epoch day of the date's local midnight). */
  function DayNumber(d: Date): int
    requires 0 <= d.month < 12
  {
    DaysBeforeYear(d.year) + DaysBeforeMonth(d.year, d.month) + d.day - 1
  }

  /** `getDay()`: 0 is Sunday, 6 is Saturday; 1 January 1970 was a Thursday. */
  function Weekday(d: Date): (w: int)
    requires 0 <= d.month < 12
    ensures 0 <= w < 7
  {
    (DayNumber(d) + 4) % 7
  }

  function FirstOfMonth(d: Date): Date {
    Date(d.year, d.month, 1)
  }

  lemma YearStep(year: int)
    ensures DaysBeforeYear(year + 1) == DaysBeforeYear(year) + YearLength(year)
  {
  }

  /** The cumulative month table agrees with the month lengths. */
  lemma MonthStep(year: int, month: int)
    requires 0 <= month < 12
    ensures DaysBeforeMonth(year, month + 1) == DaysBeforeMonth(year, month) + DaysInMonth(year, month)
    ensures DaysBeforeMonth(year, 12) == YearLength(year)
  {
  }

  /** The day before `d`, rolling back into the previous month or year. */
  function PrevDay(d: Date): (p: Date)
    requires ValidDate(d)
    ensures ValidDate(p)
    ensures DayNumber(p) == DayNumber(d) - 1
  {
    if d.day > 1 then Date(d.year, d.month, d.day - 1)
    else if d.month > 0 then
      MonthStep(d.year, d.month - 1);
      Date(d.year, d.month - 1, DaysInMonth(d.year, d.month - 1))
    else
      YearStep(d.year - 1);
      MonthStep(d.year - 1, 11);
      Date(d.year - 1, 11, 31)
  }

  /** The day after `d`, rolling forward into the next month or year. */
  function NextDay(d: Date): (n: Date)
    requires ValidDate(d)
    ensures ValidDate(n)
    ensures DayNumber(n) == DayNumber(d) + 1
  {
    if d.day < DaysInMonth(d.year, d.month) then Date(d.year, d.month, d.day + 1)
    else if d.month < 11 then
      MonthStep(d.year, d.month);
      Date(d.year, d.month + 1, 1)
    else
      YearStep(d.year);
      MonthStep(d.year, 11);
      Date(d.year + 1, 0, 1)
  }

  /** `PrevDay` and `NextDay` are inverse to each other on valid dates. */
  lemma PrevNextInverse(d: Date)
    requires ValidDate(d)
    ensures NextDay(PrevDay(d)) == d
    ensures PrevDay(NextDay(d)) == d
  {
  }

  /** Shifting by `k` commutes with reduction modulo 7. */
  lemma ModSeven(x: int, k: int)
    ensures (x + k) % 7 == (x % 7 + k) % 7
  {
    var q := x / 7;
    assert x == 7 * q + x % 7;
    assert x + k == 7 * q + (x % 7 + k);
  }

  /** Stepping one day back or forward moves the day of the week by one, modulo 7. */
  lemma WeekdayStep(d: Date)
    requires ValidDate(d)
    ensures Weekday(NextDay(d)) == (Weekday(d) + 1) % 7
    ensures Weekday(PrevDay(d)) == (Weekday(d) + 6) % 7
  {
    var x := DayNumber(d) + 4;
    var next, prev := NextDay(d), PrevDay(d);
    assert Weekday(next) == (x + 1) % 7;
    assert Weekday(prev) == (x - 1) % 7;
    ModSeven(x, 1);
    ModSeven(x, 6);
    ModSeven(x - 1, 7);
  }

  /** `n` days before `d`. */
  function StepBack(d: Date, n: nat): (r: Date)
    requires ValidDate(d)
    ensures ValidDate(r)
    ensures DayNumber(r) == DayNumber(d) - n
  {
    if n == 0 then d else PrevDay(StepBack(d, n - 1))
  }

  /** Stepping back `n` days moves the day of the week back by `n`, modulo 7. */
  lemma StepBackWeekday(d: Date, n: nat)
    requires ValidDate(d)
    ensures Weekday(StepBack(d, n)) == (Weekday(d) - n) % 7
  {
    ModSeven(DayNumber(d) + 4, -(n as int));
  }

  /** Every earlier year is wholly before every later one. */
  lemma {:induction false} YearsOrdered(a: int, b: int)
    requires a < b
    ensures DaysBeforeYear(a) + YearLength(a) <= DaysBeforeYear(b)
    decreases b - a
  {
    YearStep(b - 1);
    if a < b - 1 {
      YearsOrdered(a, b - 1);
    }
  }

  /** Every earlier month of a year is wholly before every later one. */
  lemma MonthsOrdered(year: int, a: int, b: int)
    requires 0 <= a < b <= 12
    ensures DaysBeforeMonth(year, a) + DaysInMonth(year, a) <= DaysBeforeMonth(year, b)
  {
    MonthStep(year, a);
  }

  /** A valid date lies inside its year. */
  lemma DayOfYearBounds(d: Date)
    requires ValidDate(d)
    ensures DaysBeforeYear(d.year) <= DayNumber(d) < DaysBeforeYear(d.year) + YearLength(d.year)
  {
    MonthStep(d.year, d.month);
    if d.month < 11 {
      MonthsOrdered(d.year, d.month, 12);
    }
  }

  /** Distinct valid dates have distinct day numbers: the day number identifies
      the calendar date. */
  lemma DayNumberInjective(a: Date, b: Date)
    requires ValidDate(a) && ValidDate(b)
    requires DayNumber(a) == DayNumber(b)
    ensures a == b
  {
    DayOfYearBounds(a);
    DayOfYearBounds(b);
    if a.year < b.year {
      YearsOrdered(a.year, b.year);
    } else if b.year < a.year {
      YearsOrdered(b.year, a.year);
    }
    assert a.year == b.year;
    if a.month < b.month {
      MonthsOrdered(a.year, a.month, b.month);
    } else if b.month < a.month {
      MonthsOrdered(a.year, b.month, a.month);
    }
  }

  /**
   * `Date.prototype.setDate(v)` applied to a date of month `d.month` in year
   * `d.year`: day `v` of that month, where a `v` below 1 rolls back through the
   * preceding months and a `v` past the month's end rolls forward.
   */
  function SetDate(d: Date, v: int): (r: Date)
    requires 0 <= d.month < 12
    ensures ValidDate(r)
    ensures DayNumber(r) == DayNumber(FirstOfMonth(d)) + v - 1
    decreases if v < 1 then 33 - v else v
  {
    if v < 1 then
      var prev := if d.month > 0 then Date(d.year, d.month - 1, 1) else Date(d.year - 1, 11, 1);
      MonthStep(prev.year, prev.month);
      YearStep(d.year - 1);
      SetDate(prev, v + DaysInMonth(prev.year, prev.month))
    else if v > DaysInMonth(d.year, d.month) then
      var next := if d.month < 11 then Date(d.year, d.month + 1, 1) else Date(d.year + 1, 0, 1);
      MonthStep(d.year, d.month);
      YearStep(d.year);
      SetDate(next, v - DaysInMonth(d.year, d.month))
    else
      Date(d.year, d.month, v)
  }

  /** `setDate(getDate() - i)` on a valid date is the date `i` days earlier. */
  lemma SetDateStepsBack(d: Date, i: nat)
    requires ValidDate(d)
    ensures SetDate(d, d.day - i) == StepBack(d, i)
  {
    DayNumberInjective(SetDate(d, d.day - i), StepBack(d, i));
  }

  /** Two different valid dates with the same month and day are at least a
      year apart: when the earlier year's month table adds a leap day, that
      year also has 366 days. */
  lemma SameMonthDayFarApart(a: Date, b: Date)
    requires ValidDate(a) && ValidDate(b)
    requires a.month == b.month && a.day == b.day && a.year < b.year
    ensures DayNumber(b) - DayNumber(a) >= 365
  {
    YearsOrdered(a.year, b.year);
  }

  /** Roll-over at month and year ends, with the Gregorian leap-year rule. */
  lemma RollOverExamples()
    ensures PrevDay(Date(2024, 2, 1)) == Date(2024, 1, 29)
    ensures PrevDay(Date(2023, 2, 1)) == Date(2023, 1, 28)
    ensures PrevDay(Date(1900, 2, 1)) == Date(1900, 1, 28)
    ensures PrevDay(Date(2000, 2, 1)) == Date(2000, 1, 29)
    ensures PrevDay(Date(2025, 0, 1)) == Date(2024, 11, 31)
  {
  }

  /** `setDate(10 - 29)` on 10 January 2025 rolls back into December 2024. */
  lemma SetDateExample()
    ensures SetDate(Date(2025, 0, 10), 10 - 29) == Date(2024, 11, 12)
  {
    SetDateStepsBack(Date(2025, 0, 10), 29);
  }


  /* Day numbers of some New Year's Days, counted year by year from 1970. */

  lemma DaysBeforeYear1980()
    ensures DaysBeforeYear(1980) == 3652
  {
    assert DaysBeforeYear(1971) == 365 by { YearStep(1970); }
    assert DaysBeforeYear(1972) == 730 by { YearStep(1971); }
    assert DaysBeforeYear(1973) == 1096 by { YearStep(1972); }
    assert DaysBeforeYear(1974) == 1461 by { YearStep(1973); }
    assert DaysBeforeYear(1975) == 1826 by { YearStep(1974); }
    assert DaysBeforeYear(1976) == 2191 by { YearStep(1975); }
    assert DaysBeforeYear(1977) == 2557 by { YearStep(1976); }
    assert DaysBeforeYear(1978) == 2922 by { YearStep(1977); }
    assert DaysBeforeYear(1979) == 3287 by { YearStep(1978); }
    assert DaysBeforeYear(1980) == 3652 by { YearStep(1979); }
  }

  lemma DaysBeforeYear1990()
    ensures DaysBeforeYear(1990) == 7305
  {
    DaysBeforeYear1980();
    assert DaysBeforeYear(1981) == 4018 by { YearStep(1980); }
    assert DaysBeforeYear(1982) == 4383 by { YearStep(1981); }
    assert DaysBeforeYear(1983) == 4748 by { YearStep(1982); }
    assert DaysBeforeYear(1984) == 5113 by { YearStep(1983); }
    assert DaysBeforeYear(1985) == 5479 by { YearStep(1984); }
    assert DaysBeforeYear(1986) == 5844 by { YearStep(1985); }
    assert DaysBeforeYear(1987) == 6209 by { YearStep(1986); }
    assert DaysBeforeYear(1988) == 6574 by { YearStep(1987); }
    assert DaysBeforeYear(1989) == 6940 by { YearStep(1988); }
    assert DaysBeforeYear(1990) == 7305 by { YearStep(1989); }
  }

  lemma DaysBeforeYear2000()
    ensures DaysBeforeYear(2000) == 10957
  {
    DaysBeforeYear1990();
    assert DaysBeforeYear(1991) == 7670 by { YearStep(1990); }
    assert DaysBeforeYear(1992) == 8035 by { YearStep(1991); }
    assert DaysBeforeYear(1993) == 8401 by { YearStep(1992); }
    assert DaysBeforeYear(1994) == 8766 by { YearStep(1993); }
    assert DaysBeforeYear(1995) == 9131 by { YearStep(1994); }
    assert DaysBeforeYear(1996) == 9496 by { YearStep(1995); }
    assert DaysBeforeYear(1997) == 9862 by { YearStep(1996); }
    assert DaysBeforeYear(1998) == 10227 by { YearStep(1997); }
    assert DaysBeforeYear(1999) == 10592 by { YearStep(1998); }
    assert DaysBeforeYear(2000) == 10957 by { YearStep(1999); }
  }

  lemma DaysBeforeYear2010()
    ensures DaysBeforeYear(2010) == 14610
  {
    DaysBeforeYear2000();
    assert DaysBeforeYear(2001) == 11323 by { YearStep(2000); }
    assert DaysBeforeYear(2002) == 11688 by { YearStep(2001); }
    assert DaysBeforeYear(2003) == 12053 by { YearStep(2002); }
    assert DaysBeforeYear(2004) == 12418 by { YearStep(2003); }
    assert DaysBeforeYear(2005) == 12784 by { YearStep(2004); }
    assert DaysBeforeYear(2006) == 13149 by { YearStep(2005); }
    assert DaysBeforeYear(2007) == 13514 by { YearStep(2006); }
    assert DaysBeforeYear(2008) == 13879 by { YearStep(2007); }
    assert DaysBeforeYear(2009) == 14245 by { YearStep(2008); }
    assert DaysBeforeYear(2010) == 14610 by { YearStep(2009); }
  }

  lemma DaysBeforeYear2020()
    ensures DaysBeforeYear(2020) == 18262
  {
    DaysBeforeYear2010();
    assert DaysBeforeYear(2011) == 14975 by { YearStep(2010); }
    assert DaysBeforeYear(2012) == 15340 by { YearStep(2011); }
    assert DaysBeforeYear(2013) == 15706 by { YearStep(2012); }
    assert DaysBeforeYear(2014) == 16071 by { YearStep(2013); }
    assert DaysBeforeYear(2015) == 16436 by { YearStep(2014); }
    assert DaysBeforeYear(2016) == 16801 by { YearStep(2015); }
    assert DaysBeforeYear(2017) == 17167 by { YearStep(2016); }
    assert DaysBeforeYear(2018) == 17532 by { YearStep(2017); }
    assert DaysBeforeYear(2019) == 17897 by { YearStep(2018); }
    assert DaysBeforeYear(2020) == 18262 by { YearStep(2019); }
  }

  lemma DaysBeforeYear2024()
    ensures DaysBeforeYear(2024) == 19723
  {
    DaysBeforeYear2020();
    assert DaysBeforeYear(2021) == 18628 by { YearStep(2020); }
    assert DaysBeforeYear(2022) == 18993 by { YearStep(2021); }
    assert DaysBeforeYear(2023) == 19358 by { YearStep(2022); }
    assert DaysBeforeYear(2024) == 19723 by { YearStep(2023); }
  }

  lemma DaysBeforeYear2026()
    ensures DaysBeforeYear(2026) == 20454
  {
    DaysBeforeYear2024();
    assert DaysBeforeYear(2025) == 20089 by { YearStep(2024); }
    assert DaysBeforeYear(2026) == 20454 by { YearStep(2025); }
  }

  /** getDay() counts from Sunday (0) to Saturday (6): 1 January 1970 was a
      Thursday, 1 January 2000 a Saturday, 29 February 2024 a Thursday and
      10 October 2026 a Saturday. */
  lemma WeekdayAnchors()
    ensures Weekday(Date(1970, 0, 1)) == 4
    ensures Weekday(Date(2000, 0, 1)) == 6
    ensures Weekday(Date(2024, 1, 29)) == 4
    ensures Weekday(Date(2026, 9, 10)) == 6
  {
    DaysBeforeYear2000();
    DaysBeforeYear2024();
    DaysBeforeYear2026();
  }
}
