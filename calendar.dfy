// Proleptic Gregorian calendar arithmetic on day numbers counted from
// 1970-01-01, and the ISO week date of ISO 8601:2004 section 4.1.4 (Python's
// date.isocalendar()). Unix seconds are read as UTC throughout the model.

module Calendar {

  const UnixDay: int := 86400
  const UnixWeek: int := 604800

  /** Day number of a Unix time (floor division, so times before 1970 fall on negative days). */
  function DayOf(u: int): int { u / UnixDay }

  /** Python date.weekday(): Monday is 0 and Sunday is 6; 1970-01-01 was a Thursday. */
  function Weekday(day: int): (w: int)
    ensures 0 <= w < 7
  {
    (day + 3) % 7
  }

  lemma WeekdayShift(day: int, k: int)
    ensures Weekday(day + k) == (Weekday(day) + k) % 7
  {
  }

  datatype Civil = Civil(year: int, month: int, day: int)

  /** Civil date of a day number (H. Hinnant's civil_from_days). */
  function CivilFromDays(z: int): Civil
  {
    var z1 := z + 719468;
    var era := z1 / 146097;
    var doe := z1 - era * 146097;
    var yoe := (doe - doe / 1460 + doe / 36524 - doe / 146096) / 365;
    var doy := doe - (365 * yoe + yoe / 4 - yoe / 100);
    var mp := (5 * doy + 2) / 153;
    var d := doy - (153 * mp + 2) / 5 + 1;
    var m := if mp < 10 then mp + 3 else mp - 9;
    Civil(yoe + era * 400 + (if m <= 2 then 1 else 0), m, d)
  }

  /** The Thursday of the ISO week (Monday to Sunday) that contains `day`. */
  function IsoThursday(day: int): (t: int)
    ensures Weekday(t) == 3 && day - 3 <= t <= day + 3
  {
    day - Weekday(day) + 3
  }

  /**
   * ISO 8601 week-numbering year and week: the year is the calendar year of
   * the week's Thursday, and the week number counts Thursdays of that year.
   */
  function IsoYearWeek(day: int): (int, int)
  {
    WeekDateOfThursday(IsoThursday(day))
  }

  /** Week-numbering year and week of the week whose Thursday is `t`. */
  function WeekDateOfThursday(t: int): (int, int)
  {
    var (y, jan1) := YearOfDay(t);
    (y, (t - jan1) / 7 + 1)
  }

  /** calendar.isleap: every 4th year, except every 100th, except every 400th. */
  predicate IsLeap(y: int)
  {
    y % 4 == 0 && (y % 100 != 0 || y % 400 == 0)
  }

  function DaysInYear(y: int): int { if IsLeap(y) then 366 else 365 }

  /** Day number of 1 January of year y, counted year by year from 1970. */
  function Jan1(y: int): int
    decreases if y < 1970 then 1970 - y else y - 1970
  {
    if y == 1970 then 0
    else if y > 1970 then Jan1(y - 1) + DaysInYear(y - 1)
    else Jan1(y + 1) - DaysInYear(y)
  }

  /** A year has 365 or 366 days. */
  lemma YearLength(y: int)
    ensures Jan1(y + 1) - Jan1(y) == DaysInYear(y)
    ensures 365 <= Jan1(y + 1) - Jan1(y) <= 366
  {
  }

  /** Quotient and remainder are the only pair with m == a * n + b and 0 <= b < n. */
  lemma DivModUnique(m: int, n: int, a: int, b: int)
    requires n > 0 && m == a * n + b && 0 <= b < n
    ensures m / n == a && m % n == b
  {
    var c, d := m / n, m % n;
    assert m == c * n + d;
    assert (a - c) * n == d - b;
    MulSign(a - c, n);
  }

  lemma MulSign(x: int, n: int)
    requires n > 0
    ensures x >= 1 ==> x * n >= n
    ensures x <= -1 ==> x * n <= -n
  {
  }

  /**
   * The calendar year holding day z, with the day number of its 1 January,
   * searched one year at a time from year y, whose 1 January is day j.
   */
  function YearFrom(y: int, j: int, z: int): (int, int)
    decreases if z < j then j - z + 1000 else z - j
  {
    if z < j then YearFrom(y - 1, j - DaysInYear(y - 1), z)
    else if j + DaysInYear(y) <= z then YearFrom(y + 1, j + DaysInYear(y), z)
    else (y, j)
  }

  /** The calendar year of a day number and the day number of its 1 January. */
  function YearOfDay(z: int): (int, int) { YearFrom(1970, 0, z) }

  /** Started from a true 1 January, the search ends in the year whose 1 January is the last one on or before z. */
  lemma {:induction false} YearFromSpec(y: int, j: int, z: int)
    requires j == Jan1(y)
    ensures var (y', j') := YearFrom(y, j, z); j' == Jan1(y') && j' <= z < Jan1(y' + 1)
    decreases if z < j then j - z + 1000 else z - j
  {
    YearLength(y - 1);
    YearLength(y);
    if z < j {
      YearFromSpec(y - 1, j - DaysInYear(y - 1), z);
    } else if j + DaysInYear(y) <= z {
      YearFromSpec(y + 1, j + DaysInYear(y), z);
    }
  }

  /** 1 January of the year of z is at most z, and the next 1 January is after z. */
  lemma YearOfDaySpec(z: int)
    ensures var (y, j) := YearOfDay(z); j == Jan1(y) && j <= z < Jan1(y + 1)
  {
    YearFromSpec(1970, 0, z);
  }

  /** date.isocalendar()[1]: the week number alone, without its year. */
  function IsoWeek(day: int): int { IsoYearWeek(day).1 }

  /** All seven days of one Monday-to-Sunday week share their ISO week date. */
  lemma IsoWeekConstantOnWeek(monday: int, k: int)
    requires Weekday(monday) == 0 && 0 <= k < 7
    ensures IsoThursday(monday + k) == monday + 3
    ensures IsoYearWeek(monday + k) == IsoYearWeek(monday)
    ensures IsoWeek(monday + k) == IsoWeek(monday)
  {
    var q := (monday + 3) / 7;
    assert monday + 3 == 7 * q;
    assert monday + k + 3 == 7 * q + k;
    assert Weekday(monday + k) == k;
  }

  /** Days a whole number of weeks apart have the same weekday. */
  lemma WeekdayPeriodic(day: int, n: int)
    ensures Weekday(day + 7 * n) == Weekday(day)
  {
    WeekdayShift(day, 7 * n);
  }
}
