/** The civil calendar: years with their leap days, counted, and the arithmetic that finds a day's year. */
module Calendar {

  predicate IsLeap(year: int) {
    year % 4 == 0 && (year % 100 != 0 || year % 400 == 0)
  }

  function DaysIn(year: int): int {
    if IsLeap(year) then 366 else 365
  }

  /** The day number of a year's first day, from 1970-01-01 on and back, year by year. */
  function NewYear(year: int): int
    decreases if year >= 1970 then year - 1970 else 1970 - year
  {
    if year == 1970 then 0
    else if year > 1970 then NewYear(year - 1) + DaysIn(year - 1)
    else NewYear(year + 1) - DaysIn(year)
  }

  /** The day lies in the year. */
  predicate InYear(day: int, year: int) {
    NewYear(year) <= day < NewYear(year + 1)
  }

  /** The civil year of a day number counted from 1970-01-01, without a search. */
  function YearOfDay(day: int): int {
    var z := day + 719468;
    var era, dayOfEra := z / 146097, z % 146097;
    var yearOfEra := (dayOfEra - dayOfEra / 1460 + dayOfEra / 36524 - dayOfEra / 146096) / 365;
    var dayOfYear := dayOfEra - (365 * yearOfEra + yearOfEra / 4 - yearOfEra / 100);
    yearOfEra + era * 400 + (if dayOfYear >= 306 then 1 else 0)
  }

  lemma NextNewYear(year: int)
    ensures NewYear(year + 1) == NewYear(year) + DaysIn(year)
  {
  }

  /** Leap days before a year, counted from year 0 of the calendar extended backwards. */
  function LeapDays(year: int): int {
    var y := year - 1;
    y / 4 - y / 100 + y / 400
  }

  lemma LeapStep(year: int)
    ensures LeapDays(year + 1) - LeapDays(year) == if IsLeap(year) then 1 else 0
  {
    var y := year - 1;
    assert (y + 1) / 4 - y / 4 == if (y + 1) % 4 == 0 then 1 else 0;
    assert (y + 1) / 100 - y / 100 == if (y + 1) % 100 == 0 then 1 else 0;
    assert (y + 1) / 400 - y / 400 == if (y + 1) % 400 == 0 then 1 else 0;
  }

  lemma {:induction false} NewYearClosed(year: int)
    ensures NewYear(year) == 365 * year + LeapDays(year) - 719527
    decreases if year >= 1970 then year - 1970 else 1970 - year
  {
    if year > 1970 {
      NewYearClosed(year - 1);
      LeapStep(year - 1);
    } else if year < 1970 {
      NewYearClosed(year + 1);
      LeapStep(year);
    }
  }

  /** The days of an era before one of its years, which start in March. */
  function MarchStart(yearOfEra: int): int {
    365 * yearOfEra + yearOfEra / 4 - yearOfEra / 100
  }

  lemma MarchStartParts(c: int, q: int, t: int)
    requires 0 <= c < 4 && 0 <= q < 25 && 0 <= t < 4
    ensures MarchStart(100 * c + 4 * q + t) == 36524 * c + 1461 * q + 365 * t
  {
    var year := 100 * c + 4 * q + t;
    assert year / 4 == 25 * c + q && year / 100 == c;
  }

  /** A day of an era, as centuries, groups of four years, years and days. */
  lemma DayParts(day: int) returns (c: int, q: int, t: int, u: int)
    requires 0 <= day < 146097
    ensures 0 <= c < 4 && 0 <= q < 25 && 0 <= t < 4 && 0 <= u <= 365 && (u == 365 ==> t == 3)
    ensures day == 36524 * c + 1461 * q + 365 * t + u
    ensures day == 146096 <==> c == 3 && q == 24 && t == 3 && u == 365
    ensures u == 365 && q == 24 ==> c == 3
  {
    c := if day == 146096 then 3 else day / 36524;
    var r := day - 36524 * c;
    q := r / 1461;
    var s := r - 1461 * q;
    t := if s == 1460 then 3 else s / 365;
    u := s - 365 * t;
  }

  /** The corrected quotient is the number of whole years, and a year's last day belongs to it. */
  lemma YearOfEraParts(c: int, q: int, t: int, u: int)
    requires 0 <= c < 4 && 0 <= q < 25 && 0 <= t < 4 && 0 <= u <= 365 && (u == 365 ==> t == 3)
    requires u == 365 && q == 24 ==> c == 3
    ensures var day := 36524 * c + 1461 * q + 365 * t + u;
            (day - day / 1460 + day / 36524 - day / 146096) / 365 == 100 * c + 4 * q + t
  {
    var day := 36524 * c + 1461 * q + 365 * t + u;
    var excess := 24 * c + q + 365 * t + u;
    assert day == 1460 * (25 * c + q) + excess;
    assert day / 1460 == 25 * c + q + if excess >= 1460 then 1 else 0;
    if day < 146096 {
      assert day - 36524 * c < 36524;
      assert day / 36524 == c && day / 146096 == 0;
    }
  }

  /** The year before an era's year ends 306 days after its March. */
  lemma NewYearAfterMarch(era: int, yearOfEra: int)
    requires 0 <= yearOfEra < 400
    ensures NewYear(400 * era + yearOfEra + 1) + 719468 == 146097 * era + MarchStart(yearOfEra) + 306
  {
    var year := 400 * era + yearOfEra;
    NewYearClosed(year + 1);
    assert year / 4 == 100 * era + yearOfEra / 4;
    assert year / 100 == 4 * era + yearOfEra / 100;
    assert year / 400 == era;
  }

  /** What the arithmetic finds within an era. */
  lemma InEra(dayOfEra: int) returns (yearOfEra: int, dayOfYear: int)
    requires 0 <= dayOfEra < 146097
    ensures 0 <= yearOfEra < 400 && 0 <= dayOfYear <= 365 && dayOfEra == MarchStart(yearOfEra) + dayOfYear
    ensures (dayOfEra - dayOfEra / 1460 + dayOfEra / 36524 - dayOfEra / 146096) / 365 == yearOfEra
  {
    var c, q, t, u := DayParts(dayOfEra);
    YearOfEraParts(c, q, t, u);
    MarchStartParts(c, q, t);
    yearOfEra, dayOfYear := 100 * c + 4 * q + t, u;
  }

  lemma EraParts(day: int) returns (era: int, yearOfEra: int, dayOfYear: int)
    ensures 0 <= yearOfEra < 400 && 0 <= dayOfYear <= 365
    ensures day + 719468 == 146097 * era + MarchStart(yearOfEra) + dayOfYear
    ensures YearOfDay(day) == yearOfEra + era * 400 + if dayOfYear >= 306 then 1 else 0
  {
    var z := day + 719468;
    var dayOfEra := z % 146097;
    era := z / 146097;
    yearOfEra, dayOfYear := InEra(dayOfEra);
  }

  lemma YearOfDayWithin(day: int)
    ensures NewYear(YearOfDay(day)) <= day < NewYear(YearOfDay(day) + 1)
  {
    var era, yearOfEra, dayOfYear := EraParts(day);
    var year := 400 * era + yearOfEra;
    NewYearAfterMarch(era, yearOfEra);
    NextNewYear(year);
    NextNewYear(year + 1);
  }

  lemma {:induction false} NewYearGrows(a: int, b: int)
    requires a <= b
    ensures NewYear(a) <= NewYear(b)
    decreases b - a
  {
    if a < b {
      NewYearGrows(a, b - 1);
      NextNewYear(b - 1);
    }
  }

  /** The year of a day is the one between whose first day and the next year's it lies. */
  lemma YearMeans(day: int, year: int)
    ensures YearOfDay(day) == year <==> InYear(day, year)
  {
    YearOfDayWithin(day);
    if YearOfDay(day) < year {
      NewYearGrows(YearOfDay(day) + 1, year);
    }
    if year < YearOfDay(day) {
      NewYearGrows(year + 1, YearOfDay(day));
    }
  }

  // ----- dates -----

  function DaysInMonth(year: int, month: nat): int
    requires 1 <= month <= 12
  {
    if month == 2 then (if IsLeap(year) then 29 else 28) else if month in {4, 6, 9, 11} then 30 else 31
  }

  function DaysBefore(year: int, month: nat): int
    requires 1 <= month <= 12
  {
    if month == 1 then 0 else DaysBefore(year, month - 1) + DaysInMonth(year, month - 1)
  }

  /** The day number of a civil date. */
  function DayOf(year: int, month: nat, day: int): int
    requires 1 <= month <= 12
  {
    NewYear(year) + DaysBefore(year, month) + day - 1
  }

  /** The days before a month. */
  lemma MonthStarts(year: int)
    ensures DaysBefore(year, 1) == 0 && DaysBefore(year, 2) == 31
    ensures forall month: nat :: 3 <= month <= 12 ==>
              DaysBefore(year, month) == (if IsLeap(year) then 1 else 0)
                + [59, 90, 120, 151, 181, 212, 243, 273, 304, 334][month - 3]
    ensures DaysBefore(year, 12) + 31 == DaysIn(year)
  {
    var leap := if IsLeap(year) then 1 else 0;
    assert DaysBefore(year, 2) == 31;
    assert DaysBefore(year, 3) == 59 + leap;
    assert DaysBefore(year, 4) == 90 + leap;
    assert DaysBefore(year, 5) == 120 + leap;
    assert DaysBefore(year, 6) == 151 + leap;
    assert DaysBefore(year, 7) == 181 + leap;
    assert DaysBefore(year, 8) == 212 + leap;
    assert DaysBefore(year, 9) == 243 + leap;
    assert DaysBefore(year, 10) == 273 + leap;
    assert DaysBefore(year, 11) == 304 + leap;
    assert DaysBefore(year, 12) == 334 + leap;
  }

  /** The dates that the queries compare with. */
  lemma QueryDates()
    ensures DayOf(1993, 10, 1) == 8674 && DayOf(1994, 1, 1) == 8766 && DayOf(1995, 1, 1) == 9131
  {
    NewYearClosed(1993);
    NewYearClosed(1994);
    NewYearClosed(1995);
    MonthStarts(1993);
  }
}
