/**
 Time stamps without a year: the year is inferred from the moment of reading, in one
 fixed zone. Times are nanoseconds since the start of year 1 in that zone.
 */
module Stamps {

  const SECOND: int := 1_000_000_000
  const DAY: int := 86_400 * SECOND

  /** A syslog stamp: month, day and second of the day, valid in a leap year. */
  datatype Stamp = Stamp(month: int, day: int, second: int) {
    predicate Valid() {
      1 <= month <= 12 && 1 <= day <= DaysIn(month, true) && 0 <= second < 86_400
    }
  }

  predicate IsLeap(y: int) {
    y % 4 == 0 && (y % 100 != 0 || y % 400 == 0)
  }

  function DaysIn(month: int, leap: bool): int {
    if month == 2 then (if leap then 29 else 28)
    else if month == 4 || month == 6 || month == 9 || month == 11 then 30
    else 31
  }

  function DaysBeforeMonth(month: int, leap: bool): int
    requires 1 <= month <= 12
  {
    if month == 1 then 0 else DaysBeforeMonth(month - 1, leap) + DaysIn(month - 1, leap)
  }

  function DaysBeforeYear(y: int): int {
    365 * (y - 1) + (y - 1) / 4 - (y - 1) / 100 + (y - 1) / 400
  }

  function YearStart(y: int): int {
    DaysBeforeYear(y) * DAY
  }

  /** The stamp read in year y; a Feb 29 that the year does not have becomes Mar 1. */
  function Date(y: int, s: Stamp): int
    requires s.Valid()
  {
    (DaysBeforeYear(y) + DaysBeforeMonth(s.month, IsLeap(y)) + s.day - 1) * DAY + s.second * SECOND
  }

  predicate InYear(t: int, y: int) {
    YearStart(y) <= t < YearStart(y + 1)
  }

  /** Reads the stamp in the current year, or in the one before if that would be more than a day ahead. */
  function Infer(s: Stamp, ref: int, year: int): int
    requires s.Valid() && InYear(ref, year)
  {
    var got := Date(year, s);
    if got > ref + DAY then Date(year - 1, s) else got
  }

  /** A quotient steps up at the multiples. */
  lemma QuotientSteps(y: int)
    ensures y / 4 - (y - 1) / 4 == if y % 4 == 0 then 1 else 0
    ensures y / 100 - (y - 1) / 100 == if y % 100 == 0 then 1 else 0
    ensures y / 400 - (y - 1) / 400 == if y % 400 == 0 then 1 else 0
  {
  }

  lemma FactorDivides(y: int)
    ensures y % 100 == 0 ==> y % 4 == 0
  {
    var q, r := y / 100, y % 100;
    assert y == 4 * (25 * q) + r;
  }

  lemma HundredDivides(y: int)
    ensures y % 400 == 0 ==> y % 100 == 0
  {
    var q, r := y / 400, y % 400;
    assert y == 100 * (4 * q) + r;
  }

  lemma YearLength(y: int)
    ensures DaysBeforeYear(y + 1) - DaysBeforeYear(y) == if IsLeap(y) then 366 else 365
  {
    QuotientSteps(y);
    FactorDivides(y);
    HundredDivides(y);
  }

  lemma {:induction false} MonthFits(month: int, leap: bool)
    requires 1 <= month <= 12
    ensures 0 <= DaysBeforeMonth(month, leap)
    ensures DaysBeforeMonth(month, leap) + DaysIn(month, leap) <= (if leap then 366 else 365)
    ensures month != 2 ==> DaysBeforeMonth(month, leap) + DaysIn(month, true) <= (if leap then 366 else 365)
    ensures month == 2 ==> DaysBeforeMonth(month, leap) == 31
    ensures month == 12 ==> DaysBeforeMonth(month, leap) == 306 + DaysIn(2, leap)
  {
    assert DaysBeforeMonth(1, leap) == 0;
    assert DaysBeforeMonth(2, leap) == 31;
    assert DaysBeforeMonth(3, leap) == 31 + DaysIn(2, leap);
    assert DaysBeforeMonth(4, leap) == 62 + DaysIn(2, leap);
    assert DaysBeforeMonth(5, leap) == 92 + DaysIn(2, leap);
    assert DaysBeforeMonth(6, leap) == 123 + DaysIn(2, leap);
    assert DaysBeforeMonth(7, leap) == 153 + DaysIn(2, leap);
    assert DaysBeforeMonth(8, leap) == 184 + DaysIn(2, leap);
    assert DaysBeforeMonth(9, leap) == 215 + DaysIn(2, leap);
    assert DaysBeforeMonth(10, leap) == 245 + DaysIn(2, leap);
    assert DaysBeforeMonth(11, leap) == 276 + DaysIn(2, leap);
    assert DaysBeforeMonth(12, leap) == 306 + DaysIn(2, leap);
  }

  /** Whatever the stamp, normalised or not, it falls in the year it is read in. */
  lemma DateInYear(y: int, s: Stamp)
    requires s.Valid()
    ensures InYear(Date(y, s), y)
  {
    YearLength(y);
    MonthFits(s.month, IsLeap(y));
    var days := DaysBeforeMonth(s.month, IsLeap(y)) + s.day - 1;
    assert 0 <= days < DaysBeforeYear(y + 1) - DaysBeforeYear(y);
    DayWithin(DaysBeforeYear(y), days, DaysBeforeYear(y + 1), s.second * SECOND);
  }

  /** The days of a month, February having 29 in every fourth year but three centuries of four. */
  ghost predicate MonthHas(y: int, month: int, days: int) {
    match days
    case 31 => month in {1, 3, 5, 7, 8, 10, 12}
    case 30 => month in {4, 6, 9, 11}
    case 29 => month == 2 && y % 4 == 0 && (y % 100 == 0 ==> y % 400 == 0)
    case 28 => month == 2 && (y % 4 == 0 ==> y % 100 == 0 && y % 400 != 0)
    case _ => false
  }

  /**
   Dates keep the calendar: a second, a day, a month or a year later is that much later,
   counted in nanoseconds from the start of year 1; Feb 29 of a common year is Mar 1.
   */
  lemma DatesKeepCalendar(y: int, s: Stamp, days: int)
    requires s.Valid() && MonthHas(y, s.month, days)
    ensures Date(1, Stamp(1, 1, 0)) == 0
    ensures s.second < 86_399 ==> Date(y, s.(second := s.second + 1)) == Date(y, s) + 1_000_000_000
    ensures s.day < DaysIn(s.month, true) ==> Date(y, s.(day := s.day + 1)) == Date(y, s) + 86_400_000_000_000
    ensures s.month < 12 && s.day <= 29 ==> Date(y, s.(month := s.month + 1)) == Date(y, s) + days * 86_400_000_000_000
    ensures s.month == 12 ==> Date(y + 1, s.(month := 1)) == Date(y, s) + 31 * 86_400_000_000_000
    ensures s.month == 2 && s.day == 29 && days == 28 ==> Date(y, s) == Date(y, s.(month := 3, day := 1))
  {
    YearLength(y);
    MonthFits(12, IsLeap(y));
    assert DaysBeforeMonth(1, IsLeap(y + 1)) == 0;
  }

  lemma DayWithin(before: int, days: int, after: int, within: int)
    requires 0 <= days < after - before && 0 <= within < DAY
    ensures before * DAY <= (before + days) * DAY + within < after * DAY
  {
    assert (before + days) * DAY + within < (before + days + 1) * DAY <= after * DAY;
  }

  lemma {:induction false} YearsAscend(y: int, z: int)
    requires y <= z
    ensures YearStart(y) <= YearStart(z)
    decreases z - y
  {
    if y < z {
      YearsAscend(y + 1, z);
      YearLength(y);
    }
  }

  lemma DatesAscend(y: int, z: int, s: Stamp)
    requires s.Valid() && y < z
    ensures Date(y, s) < YearStart(z) <= Date(z, s)
  {
    DateInYear(y, s);
    DateInYear(z, s);
    YearsAscend(y + 1, z);
  }

  /** An inferred time is never more than a day ahead of the moment of reading. */
  lemma NeverFarAhead(s: Stamp, ref: int, year: int)
    requires s.Valid() && InYear(ref, year)
    ensures Infer(s, ref, year) <= ref + DAY
  {
    DatesAscend(year - 1, year, s);
  }

  /**
   A stamp is read right exactly when it is of the current year and not more than a day
   ahead, or of the year before and its counterpart in the current year would be.
   */
  lemma InferredRightIff(s: Stamp, trueYear: int, ref: int, year: int)
    requires s.Valid() && InYear(ref, year)
    ensures Infer(s, ref, year) == Date(trueYear, s)
      <==> (trueYear == year && Date(year, s) <= ref + DAY) || (trueYear == year - 1 && Date(year, s) > ref + DAY)
  {
    OneYearEach(year, trueYear, s);
    OneYearEach(year - 1, trueYear, s);
  }

  /** No two years read one stamp alike. */
  lemma OneYearEach(y: int, z: int, s: Stamp)
    requires s.Valid()
    ensures Date(y, s) == Date(z, s) <==> y == z
  {
    if y < z {
      DatesAscend(y, z, s);
    } else if z < y {
      DatesAscend(z, y, s);
    }
  }

  /**
   In particular for a stamp not of a later year and not more than a day ahead, when the
   same stamp one year later would be more than a day ahead.
   */
  lemma InferredRight(s: Stamp, trueYear: int, ref: int, year: int)
    requires s.Valid() && InYear(ref, year) && trueYear <= year
    requires Date(trueYear, s) <= ref + DAY < Date(trueYear + 1, s)
    ensures Infer(s, ref, year) == Date(trueYear, s)
  {
    InferredRightIff(s, trueYear, ref, year);
    if trueYear + 1 < year {
      DatesAscend(trueYear + 1, year, s);
    }
  }

  /** A stamp of a past time is never of a later year, so what was said of it covers all past times. */
  lemma PastIsNotLaterYear(s: Stamp, trueYear: int, ref: int, year: int)
    requires s.Valid() && InYear(ref, year) && Date(trueYear, s) <= ref
    ensures trueYear <= year
  {
    if trueYear > year {
      YearsAscend(year + 1, trueYear);
      DateInYear(trueYear, s);
    }
  }
}
