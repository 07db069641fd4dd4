/**
 * Gregorian calendar arithmetic and the JavaScript `new Date(y, m, d)`
 * constructor, on instants counted in milliseconds since 1970-01-01.
 *
 * Months are numbered 0..11 as in JavaScript. Time zones are not modelled:
 * the server's local time is taken to be UTC.
 */
module Calendar {

  /** Milliseconds in one day: 24 * 60 * 60 * 1000. */
  const MS_PER_DAY: int := 86_400_000

  /** The year of the epoch that instants are counted from. */
  const EPOCH_YEAR: int := 1970

  /** Year arguments below this (and not negative) are read by `new Date` as 1900 + year. */
  const FIRST_LITERAL_YEAR: int := 100

  predicate IsLeapYear(y: int) {
    y % 4 == 0 && (y % 100 != 0 || y % 400 == 0)
  }

  function YearLength(y: int): int {
    if IsLeapYear(y) then 366 else 365
  }

  /** Number of days of month `m` (0 = January) of year `y`. */
  function DaysInMonth(y: int, m: int): (n: int)
    requires 0 <= m < 12
    ensures 28 <= n <= 31
    ensures m == 1 ==> (n == 29 <==> IsLeapYear(y))
    ensures m != 1 ==> (n == 30 <==> m in {3, 5, 8, 10})
  {
    if m == 1 then (if IsLeapYear(y) then 29 else 28)
    else if m == 3 || m == 5 || m == 8 || m == 10 then 30
    else 31
  }

  /** Days of year `y` that precede the first day of month `m` (0 <= m <= 12). */
  function DaysBeforeMonth(y: int, m: int): (n: int)
    requires 0 <= m <= 12
    ensures 0 <= n <= 366
    ensures m == 0 ==> n == 0
  {
    [0, 31, 59, 90, 120, 151, 181, 212, 243, 273, 304, 334, 365][m]
      + (if m >= 2 && IsLeapYear(y) then 1 else 0)
  }

  lemma MonthStep(y: int, m: int)
    requires 0 <= m < 12
    ensures DaysBeforeMonth(y, m + 1) == DaysBeforeMonth(y, m) + DaysInMonth(y, m)
  {
  }

  lemma WholeYear(y: int)
    ensures DaysBeforeMonth(y, 12) == YearLength(y)
  {
  }

  /** Days from Jan 1 of the epoch year to Jan 1 of year `y`, negative for earlier years. */
  function DaysFromEpoch(y: int): int
    decreases if y >= EPOCH_YEAR then y - EPOCH_YEAR else EPOCH_YEAR - y
  {
    if y == EPOCH_YEAR then 0
    else if y > EPOCH_YEAR then DaysFromEpoch(y - 1) + YearLength(y - 1)
    else DaysFromEpoch(y + 1) - YearLength(y)
  }

  /** Consecutive years are one year length apart. */
  lemma YearStep(y: int)
    ensures DaysFromEpoch(y + 1) == DaysFromEpoch(y) + YearLength(y)
  {
    if y < EPOCH_YEAR {
      assert DaysFromEpoch(y) == DaysFromEpoch(y + 1) - YearLength(y);
    }
  }

  /** Day number, counted from the epoch, of day `d` of month `m` of year `y`; `d` may run past either end of the month. */
  function CivilDay(y: int, m: int, d: int): int
    requires 0 <= m < 12
  {
    DaysFromEpoch(y) + DaysBeforeMonth(y, m) + d - 1
  }

  /** The instant of midnight (UTC) that starts day `d` of month `m` of year `y`. */
  function Midnight(y: int, m: int, d: int): int
    requires 0 <= m < 12
  {
    CivilDay(y, m, d) * MS_PER_DAY
  }

  /** The full year that `new Date(y, ...)` uses: 0..99 mean 1900..1999. */
  function FullYear(y: int): (r: int)
    ensures (y < 0 || y >= FIRST_LITERAL_YEAR) ==> r == y
    ensures 0 <= y < FIRST_LITERAL_YEAR ==> r == 1900 + y
  {
    if 0 <= y < FIRST_LITERAL_YEAR then 1900 + y else y
  }

  /**
   * `new Date(y, m, d)`: the month is normalised into the year
   * (year + floor(m / 12), m mod 12) and the day counts from the first of
   * that month, so day 0 is the last day of the previous month.
   */
  function DateFromParts(y: int, m: int, d: int): (t: int)
    ensures 0 <= m < 12 && (y < 0 || y >= FIRST_LITERAL_YEAR) ==> t == Midnight(y, m, d)
  {
    var yy := FullYear(y) + m / 12;
    Midnight(yy, m % 12, d)
  }

  /** Month -1 is December of the previous year: `new Date(y, -1, d)`. */
  lemma MonthBeforeJanuary(y: int, d: int)
    requires y > FIRST_LITERAL_YEAR
    ensures DateFromParts(y, -1, d) == Midnight(y - 1, 11, d)
  {
    assert -1 / 12 == -1 && -1 % 12 == 11;
  }

  /** Days after the first of a month move the instant by whole days. */
  lemma MidnightShift(y: int, m: int, d: int, k: int)
    requires 0 <= m < 12
    ensures Midnight(y, m, d + k) == Midnight(y, m, d) + k * MS_PER_DAY
  {
  }

  /** The first day of month m + 1 is one month length after the first day of month m, across a year end too. */
  lemma NextMonthStart(y: int, m: int)
    requires 0 <= m < 12
    ensures var (ny, nm) := if m == 11 then (y + 1, 0) else (y, m + 1);
            CivilDay(ny, nm, 1) == CivilDay(y, m, 1) + DaysInMonth(y, m)
  {
    if m == 11 {
      YearStep(y);
      MonthStep(y, 11);
      WholeYear(y);
    } else {
      MonthStep(y, m);
    }
  }

  /** The same, on instants: a month lasts its number of days. */
  lemma NextMonthMidnight(y: int, m: int)
    requires 0 <= m < 12
    ensures var (ny, nm) := if m == 11 then (y + 1, 0) else (y, m + 1);
            Midnight(ny, nm, 1) - Midnight(y, m, 1) == DaysInMonth(y, m) * MS_PER_DAY
  {
    NextMonthStart(y, m);
  }

  /** Month starts increase strictly with the month within a year. */
  lemma MonthStartsIncrease(y: int, m1: int, m2: int)
    requires 0 <= m1 < m2 <= 11
    ensures CivilDay(y, m1, 1) + DaysInMonth(y, m1) <= CivilDay(y, m2, 1)
    decreases m2 - m1
  {
    NextMonthStart(y, m1);
    if m1 + 1 < m2 {
      MonthStartsIncrease(y, m1 + 1, m2);
    }
  }

  /** Later days start at later instants. */
  lemma DayOrder(a: int, b: int)
    requires a <= b
    ensures a * MS_PER_DAY <= b * MS_PER_DAY
    ensures a < b ==> a * MS_PER_DAY < b * MS_PER_DAY
  {
  }

  /** The reference instant "now" as the JavaScript getters see it. */
  datatype Clock = Clock(year: int, month: int, day: int, msOfDay: int)
  {
    predicate Valid() {
      0 <= month < 12 && 1 <= day <= DaysInMonth(year, month) && 0 <= msOfDay < MS_PER_DAY
    }

    /** `now.getTime()`. */
    function Instant(): (t: int)
      requires Valid()
      ensures Midnight(year, month, day) <= t < Midnight(year, month, day) + MS_PER_DAY
    {
      Midnight(year, month, day) + msOfDay
    }
  }
}
