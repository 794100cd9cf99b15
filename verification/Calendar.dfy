/** The build date: a closed-form conversion from a day number to a civil date
    (crates/ownpg/build.rs), checked against a calendar defined by its rules: month lengths,
    the leap-year rule and the order of days. */
module Calendar {

  datatype Date = Date(year: int, month: int, day: int)

  /** Day 0 is 1970-01-01. The closed form groups days in 400-year eras that start on 1 March. */
  function CivilFromDays(days: int): (date: Date) {
    var shifted := days + 719_468;
    var era := shifted / 146_097;
    var dayOfEra := shifted % 146_097;
    var yearOfEra := (dayOfEra - dayOfEra / 1_460 + dayOfEra / 36_524 - dayOfEra / 146_096) / 365;
    var dayOfYear := dayOfEra - (365 * yearOfEra + yearOfEra / 4 - yearOfEra / 100);
    var monthIndex := (5 * dayOfYear + 2) / 153;
    var day := dayOfYear - (153 * monthIndex + 2) / 5 + 1;
    var month := if monthIndex < 10 then monthIndex + 3 else monthIndex - 9;
    var year := yearOfEra + era * 400 + if month <= 2 then 1 else 0;
    Date(year, month, day)
  }

  // The calendar by its rules.

  predicate IsLeapYear(year: int) {
    year % 4 == 0 && (year % 100 != 0 || year % 400 == 0)
  }

  function DaysInMonth(year: int, month: int): int {
    if month == 2 then (if IsLeapYear(year) then 29 else 28)
    else if month == 4 || month == 6 || month == 9 || month == 11 then 30
    else 31
  }

  predicate ValidDate(date: Date) {
    && 1 <= date.month <= 12
    && 1 <= date.day <= DaysInMonth(date.year, date.month)
  }

  function NextDate(date: Date): Date {
    if date.day < DaysInMonth(date.year, date.month) then date.(day := date.day + 1)
    else if date.month < 12 then Date(date.year, date.month + 1, 1)
    else Date(date.year + 1, 1, 1)
  }

  /** Days from 1 January of the year to the first of the month. */
  function DaysBeforeMonth(year: int, month: int): int
    requires 1 <= month <= 12
    decreases month
  {
    if month == 1 then 0 else DaysBeforeMonth(year, month - 1) + DaysInMonth(year, month - 1)
  }

  /** Days from 1970-01-01 to 1 January of the year: 365 a year and one for each leap year. */
  function DaysBeforeYear(year: int): int {
    var past := year - 1;
    365 * past + past / 4 - past / 100 + past / 400 - 719_162
  }

  /** The usual sum. */
  function DaysFromCivil(date: Date): int
    requires ValidDate(date)
  {
    DaysBeforeYear(date.year) + DaysBeforeMonth(date.year, date.month) + date.day - 1
  }

  // The sum itself respects the calendar.

  lemma YearLength(year: int)
    ensures DaysBeforeYear(year + 1) - DaysBeforeYear(year) == if IsLeapYear(year) then 366 else 365
  {
    OneMore(year, 4);
    OneMore(year, 100);
    OneMore(year, 400);
    LeapCount(year);
  }

  /** Of the multiples of 4 those of 100 are left out, and those of 400 counted again. */
  lemma LeapCount(year: int)
    ensures (if year % 4 == 0 then 1 else 0) - (if year % 100 == 0 then 1 else 0) + (if year % 400 == 0 then 1 else 0)
         == if IsLeapYear(year) then 1 else 0
  {
    MultipleOf(year, 4, 25);
    MultipleOf(year, 100, 4);
  }

  lemma MultipleOf(year: int, d: nat, e: nat)
    requires (d == 4 && e == 25) || (d == 100 && e == 4)
    ensures year % (d * e) == 0 ==> year % d == 0
  {
    if d == 4 {
      assert year % 100 == 0 ==> year == 4 * (25 * (year / 100));
    } else {
      assert year % 400 == 0 ==> year == 100 * (4 * (year / 400));
    }
  }

  lemma OneMore(year: int, d: int)
    requires d == 4 || d == 100 || d == 400
    ensures year / d == (year - 1) / d + if year % d == 0 then 1 else 0
  {
    if
    case d == 4 =>
    case d == 100 =>
    case d == 400 =>
  }

  lemma MonthTable(year: int)
    ensures DaysBeforeMonth(year, 1) == 0 && DaysBeforeMonth(year, 2) == 31
    ensures var leap := if IsLeapYear(year) then 1 else 0;
            && DaysBeforeMonth(year, 3) == 59 + leap && DaysBeforeMonth(year, 4) == 90 + leap
            && DaysBeforeMonth(year, 5) == 120 + leap && DaysBeforeMonth(year, 6) == 151 + leap
            && DaysBeforeMonth(year, 7) == 181 + leap && DaysBeforeMonth(year, 8) == 212 + leap
            && DaysBeforeMonth(year, 9) == 243 + leap && DaysBeforeMonth(year, 10) == 273 + leap
            && DaysBeforeMonth(year, 11) == 304 + leap && DaysBeforeMonth(year, 12) == 334 + leap
  {
    assert DaysBeforeMonth(year, 3) == DaysBeforeMonth(year, 2) + DaysInMonth(year, 2);
    assert DaysBeforeMonth(year, 5) == DaysBeforeMonth(year, 4) + 30;
    assert DaysBeforeMonth(year, 7) == DaysBeforeMonth(year, 6) + 30;
    assert DaysBeforeMonth(year, 9) == DaysBeforeMonth(year, 8) + 31;
    assert DaysBeforeMonth(year, 11) == DaysBeforeMonth(year, 10) + 31;
  }

  lemma NextDateIsOneDayLater(date: Date)
    requires ValidDate(date)
    ensures ValidDate(NextDate(date))
    ensures DaysFromCivil(NextDate(date)) == DaysFromCivil(date) + 1
  {
    MonthTable(date.year);
    MonthTable(date.year + 1);
    YearLength(date.year);
  }

  /** A date lies within its year. */
  lemma WithinYear(date: Date)
    requires ValidDate(date)
    ensures DaysBeforeYear(date.year) <= DaysFromCivil(date) < DaysBeforeYear(date.year + 1)
  {
    MonthTable(date.year);
    YearLength(date.year);
  }

  lemma WithinMonth(date: Date)
    requires ValidDate(date) && date.month < 12
    ensures DaysFromCivil(date) < DaysBeforeYear(date.year) + DaysBeforeMonth(date.year, date.month + 1)
  {
  }

  lemma {:induction false} MonthStartsIncrease(year: int, a: int, b: int)
    requires 1 <= a <= b <= 12
    ensures DaysBeforeMonth(year, a) <= DaysBeforeMonth(year, b)
    decreases b - a
  {
    if a < b { MonthStartsIncrease(year, a, b - 1); }
  }

  lemma SumIsStrictlyIncreasing(a: Date, b: Date)
    requires ValidDate(a) && ValidDate(b)
    requires a.year < b.year || (a.year == b.year && (a.month < b.month || (a.month == b.month && a.day < b.day)))
    ensures DaysFromCivil(a) < DaysFromCivil(b)
  {
    if a.year < b.year {
      WithinYear(a);
      WithinYear(b);
      YearStartsIncrease(a.year + 1, b.year);
    } else if a.month < b.month {
      WithinMonth(a);
      MonthStartsIncrease(a.year, a.month + 1, b.month);
    }
  }

  lemma {:induction false} YearStartsIncrease(a: int, b: int)
    requires a <= b
    ensures DaysBeforeYear(a) <= DaysBeforeYear(b)
    decreases b - a
  {
    if a < b {
      YearLength(a);
      YearStartsIncrease(a + 1, b);
    }
  }

  // The closed form inside one era. Years of the era start on 1 March.

  function YearOfEra(dayOfEra: int): int {
    (dayOfEra - dayOfEra / 1_460 + dayOfEra / 36_524 - dayOfEra / 146_096) / 365
  }

  function EraYearStart(yearOfEra: int): int {
    365 * yearOfEra + yearOfEra / 4 - yearOfEra / 100
  }

  /** Splits a day of the era into centuries of 36,524 days, four-year cycles of 1,461 days and a rest;
      the last century and the last cycle of a century may be one day longer or shorter. */
  lemma SplitDayOfEra(dayOfEra: int) returns (century: int, cycle: int, rest: int)
    requires 0 <= dayOfEra < 146_097
    ensures dayOfEra == 36_524 * century + 1_461 * cycle + rest
    ensures 0 <= century <= 3 && 0 <= cycle <= 24 && 0 <= rest <= 1_460
    ensures cycle == 24 && rest == 1_460 ==> century == 3
    ensures century == 3 && cycle == 24 && rest == 1_460 <==> dayOfEra == 146_096
  {
    century := if dayOfEra == 146_096 then 3 else dayOfEra / 36_524;
    var inCentury := dayOfEra - 36_524 * century;
    cycle := inCentury / 1_461;
    rest := inCentury % 1_461;
  }

  lemma YearOfEraFormula(dayOfEra: int, century: int, cycle: int, rest: int)
    requires 0 <= dayOfEra < 146_097
    requires dayOfEra == 36_524 * century + 1_461 * cycle + rest
    requires 0 <= century <= 3 && 0 <= cycle <= 24 && 0 <= rest <= 1_460
    requires cycle == 24 && rest == 1_460 ==> century == 3
    requires century == 3 && cycle == 24 && rest == 1_460 <==> dayOfEra == 146_096
    ensures YearOfEra(dayOfEra)
            == 100 * century + 4 * cycle + if rest < 365 then 0 else if rest < 730 then 1 else if rest < 1_095 then 2 else 3
  {
    var extra := if 24 * century + cycle + rest >= 1_460 then 1 else 0;
    assert dayOfEra / 1_460 == 25 * century + cycle + extra by {
      assert dayOfEra == 1_460 * (25 * century + cycle) + (24 * century + cycle + rest);
    }
    assert dayOfEra / 36_524 - dayOfEra / 146_096 == century;
    assert dayOfEra - (25 * century + cycle + extra) + century == 365 * (100 * century + 4 * cycle) + (rest - extra);
  }

  /** The closed form picks the March-based year that contains the day. */
  lemma YearOfEraIsRight(dayOfEra: int)
    requires 0 <= dayOfEra < 146_097
    ensures var y := YearOfEra(dayOfEra);
            && 0 <= y < 400
            && EraYearStart(y) <= dayOfEra
            && (dayOfEra < EraYearStart(y + 1) || (y == 399 && dayOfEra == 146_096))
  {
    var century, cycle, rest := SplitDayOfEra(dayOfEra);
    YearOfEraFormula(dayOfEra, century, cycle, rest);
    var year := if rest < 365 then 0 else if rest < 730 then 1 else if rest < 1_095 then 2 else 3;
    var y := 100 * century + 4 * cycle + year;
    assert y / 4 == 25 * century + cycle && y / 100 == century;
    assert EraYearStart(y) == 36_524 * century + 1_461 * cycle + 365 * year;
    if year < 3 {
      assert (y + 1) / 4 == 25 * century + cycle && (y + 1) / 100 == century;
    } else if cycle < 24 {
      assert (y + 1) / 4 == 25 * century + cycle + 1 && (y + 1) / 100 == century;
    } else {
      assert (y + 1) / 4 == 25 * century + cycle + 1 && (y + 1) / 100 == century + 1;
    }
  }

  lemma MonthIndexIsRight(dayOfYear: int)
    requires 0 <= dayOfYear <= 365
    ensures var m := (5 * dayOfYear + 2) / 153;
            && 0 <= m <= 11
            && (153 * m + 2) / 5 <= dayOfYear < (153 * (m + 1) + 2) / 5
  {
  }

  /** The calendar repeats every 400 years of 146,097 days. */
  lemma CalendarRepeats(era: int, year: int)
    ensures IsLeapYear(year + 400 * era) == IsLeapYear(year)
    ensures DaysBeforeYear(year + 400 * era) == DaysBeforeYear(year) + 146_097 * era
  {
    ShiftedDivision(year, 100 * era, 4);
    ShiftedDivision(year - 1, 100 * era, 4);
    ShiftedDivision(year, 4 * era, 100);
    ShiftedDivision(year - 1, 4 * era, 100);
    ShiftedDivision(year, era, 400);
    ShiftedDivision(year - 1, era, 400);
  }

  lemma ShiftedDivision(a: int, k: int, d: int)
    requires d == 4 || d == 100 || d == 400
    ensures (a + d * k) / d == a / d + k && (a + d * k) % d == a % d
  {
    if
    case d == 4 =>
    case d == 100 =>
    case d == 400 =>
  }

  /** A March-based year of an era ends with the February of the next calendar year. */
  lemma EraYearInCalendar(yearOfEra: int)
    requires 0 <= yearOfEra < 400
    ensures DaysBeforeYear(yearOfEra) + DaysBeforeMonth(yearOfEra, 3) == EraYearStart(yearOfEra) - 719_468
    ensures EraYearStart(yearOfEra + 1) - EraYearStart(yearOfEra)
            == if IsLeapYear(yearOfEra + 1) && yearOfEra != 399 then 366 else 365
    ensures EraYearStart(399) == 145_731
  {
    MonthTable(yearOfEra);
    YearLength(yearOfEra);
    assert DaysBeforeYear(yearOfEra + 1) == 365 * yearOfEra + yearOfEra / 4 - yearOfEra / 100 + yearOfEra / 400 - 719_162;
    assert (yearOfEra + 1) / 4 == yearOfEra / 4 + if (yearOfEra + 1) % 4 == 0 then 1 else 0;
    assert (yearOfEra + 1) / 100 == yearOfEra / 100 + if (yearOfEra + 1) % 100 == 0 then 1 else 0;
  }

  /** The first day of the March-based year, and the length of that year. */
  lemma DayOfYearIsRight(era: int, dayOfEra: int, yearOfEra: int)
    requires 0 <= dayOfEra < 146_097 && 0 <= yearOfEra < 400
    requires EraYearStart(yearOfEra) <= dayOfEra
    requires dayOfEra < EraYearStart(yearOfEra + 1) || (yearOfEra == 399 && dayOfEra == 146_096)
    ensures var year := yearOfEra + 400 * era;
            && 0 <= dayOfEra - EraYearStart(yearOfEra) < 365 + (if IsLeapYear(year + 1) then 1 else 0)
            && DaysBeforeYear(year) + DaysBeforeMonth(year, 3) == 146_097 * era + EraYearStart(yearOfEra) - 719_468
  {
    EraYearInCalendar(yearOfEra);
    CalendarRepeats(era, yearOfEra);
    CalendarRepeats(era, yearOfEra + 1);
    assert yearOfEra + 400 * era + 1 == yearOfEra + 1 + 400 * era;
    MonthTable(yearOfEra);
    MonthTable(yearOfEra + 400 * era);
    assert IsLeapYear(400);
  }

  /** The date of a day of a March-based year. */
  function DateInMarchYear(year: int, dayOfYear: int): Date {
    var m := (5 * dayOfYear + 2) / 153;
    var day := dayOfYear - (153 * m + 2) / 5 + 1;
    if m < 10 then Date(year, m + 3, day) else Date(year + 1, m - 9, day)
  }

  /** Counted from March, the months start where the closed form says. */
  lemma MarchMonths(year: int, m: int)
    requires 0 <= m <= 11
    ensures m < 10 ==> DaysBeforeMonth(year, m + 3) == DaysBeforeMonth(year, 3) + (153 * m + 2) / 5
    ensures m >= 10 ==> DaysBeforeYear(year + 1) + DaysBeforeMonth(year + 1, m - 9)
                        == DaysBeforeYear(year) + DaysBeforeMonth(year, 3) + (153 * m + 2) / 5
    ensures m < 10 ==> DaysInMonth(year, m + 3) == (153 * (m + 1) + 2) / 5 - (153 * m + 2) / 5
    ensures m == 10 ==> DaysInMonth(year + 1, 1) == (153 * (m + 1) + 2) / 5 - (153 * m + 2) / 5
    ensures m == 11 ==>
      337 + DaysInMonth(year + 1, 2) == 365 + (if IsLeapYear(year + 1) then 1 else 0) && (153 * m + 2) / 5 == 337
  {
    MonthTable(year);
    MonthTable(year + 1);
    YearLength(year);
    if
    case m == 0 => case m == 1 => case m == 2 => case m == 3 => case m == 4 => case m == 5 =>
    case m == 6 => case m == 7 => case m == 8 => case m == 9 => case m == 10 => case m == 11 =>
  }

  lemma DateInMonthIsRight(year: int, dayOfYear: int, m: int)
    requires m == (5 * dayOfYear + 2) / 153 && 0 <= m <= 11
    requires (153 * m + 2) / 5 <= dayOfYear < (153 * (m + 1) + 2) / 5
    requires dayOfYear < 365 + if IsLeapYear(year + 1) then 1 else 0
    ensures ValidDate(DateInMarchYear(year, dayOfYear))
    ensures DaysFromCivil(DateInMarchYear(year, dayOfYear)) == DaysBeforeYear(year) + DaysBeforeMonth(year, 3) + dayOfYear
  {
    MarchMonths(year, m);
  }

  lemma DateInMarchYearIsRight(year: int, dayOfYear: int)
    requires 0 <= dayOfYear < 365 + if IsLeapYear(year + 1) then 1 else 0
    ensures ValidDate(DateInMarchYear(year, dayOfYear))
    ensures DaysFromCivil(DateInMarchYear(year, dayOfYear)) == DaysBeforeYear(year) + DaysBeforeMonth(year, 3) + dayOfYear
  {
    MonthIndexIsRight(dayOfYear);
    DateInMonthIsRight(year, dayOfYear, (5 * dayOfYear + 2) / 153);
  }

  lemma ClosedFormInParts(days: int, era: int, dayOfEra: int, yearOfEra: int)
    requires era == (days + 719_468) / 146_097 && dayOfEra == (days + 719_468) % 146_097
    requires yearOfEra == YearOfEra(dayOfEra)
    requires 0 <= dayOfEra - EraYearStart(yearOfEra) <= 365
    ensures CivilFromDays(days) == DateInMarchYear(yearOfEra + 400 * era, dayOfEra - EraYearStart(yearOfEra))
  {
    MonthIndexIsRight(dayOfEra - EraYearStart(yearOfEra));
  }

  /** A day of an era, in its March-based year. */
  lemma EraLocatesTheDay(era: int, dayOfEra: int)
    requires 0 <= dayOfEra < 146_097
    ensures var y := YearOfEra(dayOfEra);
            var year, dayOfYear := y + 400 * era, dayOfEra - EraYearStart(y);
            && 0 <= dayOfYear < 365 + (if IsLeapYear(year + 1) then 1 else 0)
            && DaysBeforeYear(year) + DaysBeforeMonth(year, 3) + dayOfYear == 146_097 * era + dayOfEra - 719_468
  {
    YearOfEraIsRight(dayOfEra);
    DayOfYearIsRight(era, dayOfEra, YearOfEra(dayOfEra));
  }

  lemma ClosedFormLocatesTheDay(days: int) returns (year: int, dayOfYear: int)
    ensures 0 <= dayOfYear < 365 + if IsLeapYear(year + 1) then 1 else 0
    ensures DaysBeforeYear(year) + DaysBeforeMonth(year, 3) + dayOfYear == days
    ensures CivilFromDays(days) == DateInMarchYear(year, dayOfYear)
  {
    var era, dayOfEra := (days + 719_468) / 146_097, (days + 719_468) % 146_097;
    var y := YearOfEra(dayOfEra);
    year, dayOfYear := y + 400 * era, dayOfEra - EraYearStart(y);
    EraLocatesTheDay(era, dayOfEra);
    ClosedFormInParts(days, era, dayOfEra, y);
  }

  /** The closed form and the sum over the calendar are inverse one way round: the date is valid and its day
      number is the one it was computed from. */
  lemma ClosedFormIsRight(days: int)
    ensures ValidDate(CivilFromDays(days))
    ensures DaysFromCivil(CivilFromDays(days)) == days
  {
    var year, dayOfYear := ClosedFormLocatesTheDay(days);
    DateInMarchYearIsRight(year, dayOfYear);
  }

  /** The closed form is the inverse of the sum the other way round too, so it is a bijection between day
      numbers and valid dates. */
  lemma EveryDateIsReached(date: Date)
    requires ValidDate(date)
    ensures CivilFromDays(DaysFromCivil(date)) == date
  {
    var again := CivilFromDays(DaysFromCivil(date));
    ClosedFormIsRight(DaysFromCivil(date));
    if again != date {
      if again.year < date.year
        || (again.year == date.year
            && (again.month < date.month || (again.month == date.month && again.day < date.day))) {
        SumIsStrictlyIncreasing(again, date);
      } else {
        SumIsStrictlyIncreasing(date, again);
      }
    }
  }

  /** One day later is the next date of the calendar, and day 0 is the first of January 1970. */
  lemma DaysFollowTheCalendar(days: int)
    ensures CivilFromDays(days + 1) == NextDate(CivilFromDays(days))
    ensures CivilFromDays(0) == Date(1970, 1, 1)
  {
    SuccessorOfADay(days, CivilFromDays(days));
    EveryDateIsReached(Date(1970, 1, 1));
  }

  lemma SuccessorOfADay(days: int, date: Date)
    requires date == CivilFromDays(days)
    ensures CivilFromDays(days + 1) == NextDate(date)
  {
    ClosedFormIsRight(days);
    NextDateIsOneDayLater(date);
    EveryDateIsReached(NextDate(date));
  }
}
