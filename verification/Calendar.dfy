/** The proleptic Gregorian calendar and ISO week dates (section 4.1.4 of ISO 8601:2004).

A date is a day number; day 0 is Monday, 1 January of year 1. There are no range limits.
*/
module Calendar {
  import opened Options

  type Date = int

  predicate Leap(y: int) {
    y % 4 == 0 && (y % 100 != 0 || y % 400 == 0)
  }

  /** 1 January of year `y`. */
  function YearStart(y: int): Date {
    var q := y - 1;
    365 * q + q / 4 - q / 100 + q / 400
  }

  function YearLength(y: int): int { if Leap(y) then 366 else 365 }

  lemma YearStartStep(y: int)
    ensures YearStart(y + 1) == YearStart(y) + YearLength(y)
  {
    var q := y - 1;
    assert (q + 1) / 4 == q / 4 + if (q + 1) % 4 == 0 then 1 else 0;
    assert (q + 1) / 100 == q / 100 + if (q + 1) % 100 == 0 then 1 else 0;
    assert (q + 1) / 400 == q / 400 + if (q + 1) % 400 == 0 then 1 else 0;
    assert (q + 1) % 400 == 0 ==> (q + 1) % 100 == 0;
    assert (q + 1) % 100 == 0 ==> (q + 1) % 4 == 0;
  }

  lemma {:induction false} YearsInOrder(y: int, z: int)
    requires y <= z
    ensures YearStart(z) >= YearStart(y) + 365 * (z - y)
    decreases z - y
  {
    if y < z {
      YearsInOrder(y, z - 1);
      YearStartStep(z - 1);
    }
  }

  /** The year of a date: a quotient that is off by at most one, then corrected. */
  function Year(d: Date): int {
    var y := d * 400 / 146097 + 1;
    if d < YearStart(y) then y - 1 else if YearStart(y + 1) <= d then y + 1 else y
  }

  /** Every date lies in exactly one year. */
  lemma YearIs(d: Date)
    ensures YearStart(Year(d)) <= d < YearStart(Year(d) + 1)
    ensures forall y :: YearStart(y) <= d < YearStart(y + 1) ==> y == Year(d)
  {
    var y := d * 400 / 146097 + 1;
    forall z | YearStart(z) <= d < YearStart(z + 1) ensures z == Year(d) {
      if z < Year(d) { YearsInOrder(z + 1, Year(d)); }
      if Year(d) < z { YearsInOrder(Year(d) + 1, z); }
    }
  }

  // -------------------------------------------------------------------- months

  /** Days of the year before month `m`; month 13 stands for the whole year. */
  function DaysBefore(m: int, leap: bool): int
    requires 1 <= m <= 13
  {
    [0, 31, 59, 90, 120, 151, 181, 212, 243, 273, 304, 334, 365][m - 1] + if leap && m > 2 then 1 else 0
  }

  lemma DaysBeforeStep(m: int, leap: bool)
    requires 1 <= m <= 12
    ensures 28 <= DaysBefore(m + 1, leap) - DaysBefore(m, leap) <= 31
    ensures DaysBefore(1, leap) == 0
    ensures DaysBefore(13, leap) == if leap then 366 else 365
  {
  }

  /** The first day of month number `n`, counted from January of year 1. */
  function MonthStart(n: int): Date {
    YearStart(n / 12 + 1) + DaysBefore(n % 12 + 1, Leap(n / 12 + 1))
  }

  lemma MonthStartStep(n: int)
    ensures 28 <= MonthStart(n + 1) - MonthStart(n) <= 31
  {
    var y, m := n / 12 + 1, n % 12 + 1;
    DaysBeforeStep(m, Leap(y));
    if m == 12 {
      assert (n + 1) / 12 == n / 12 + 1 && (n + 1) % 12 == 0;
      YearStartStep(y);
      DaysBeforeStep(1, Leap(y + 1));
    } else {
      assert (n + 1) / 12 == n / 12 && (n + 1) % 12 == n % 12 + 1;
    }
  }

  lemma {:induction false} MonthsInOrder(a: int, b: int)
    requires a <= b
    ensures MonthStart(a) + 28 * (b - a) <= MonthStart(b)
    decreases b - a
  {
    hide MonthStart;
    if a < b {
      MonthsInOrder(a, b - 1);
      MonthStartStep(b - 1);
    }
  }

  /** The last month of `leap`-type year up to `m` that has begun on day `doy`. */
  function MonthOfDay(doy: int, leap: bool, m: int): (r: int)
    requires 1 <= m <= 12 && 0 <= doy
    ensures 1 <= r <= m && DaysBefore(r, leap) <= doy && (r < m ==> doy < DaysBefore(r + 1, leap))
    decreases m
  {
    if m == 1 || DaysBefore(m, leap) <= doy then m else MonthOfDay(doy, leap, m - 1)
  }

  function DayOfYear(d: Date): (doy: int)
    ensures 0 <= doy < YearLength(Year(d))
  {
    YearIs(d);
    YearStartStep(Year(d));
    d - YearStart(Year(d))
  }

  function Month(d: Date): (m: int)
    ensures 1 <= m <= 12
  {
    MonthOfDay(DayOfYear(d), Leap(Year(d)), 12)
  }

  /** Number of the month a date is in. */
  function MonthIndex(d: Date): int { 12 * (Year(d) - 1) + Month(d) - 1 }

  function DayOfMonth(d: Date): int { d - MonthStart(MonthIndex(d)) + 1 }

  lemma IndexParts(y: int, m: int)
    requires 1 <= m <= 12
    ensures var n := 12 * (y - 1) + m - 1; n / 12 + 1 == y && n % 12 + 1 == m
    ensures MonthStart(12 * (y - 1) + m - 1) == YearStart(y) + DaysBefore(m, Leap(y))
  {
  }

  lemma MonthOfYear(d: Date)
    ensures var y, m := Year(d), Month(d); YearStart(y) + DaysBefore(m, Leap(y)) <= d < YearStart(y) + DaysBefore(m + 1, Leap(y))
  {
    var doy := DayOfYear(d);
    DaysBeforeStep(12, Leap(Year(d)));
  }

  lemma MonthContains(d: Date)
    ensures MonthStart(MonthIndex(d)) <= d < MonthStart(MonthIndex(d) + 1)
  {
    hide YearStart, MonthStart, DaysBefore, Year, Month;
    MonthOfYear(d);
    IndexParts(Year(d), Month(d));
    MonthLengthIs(Year(d), Month(d));
  }

  lemma MonthUnique(d: Date, n: int)
    requires MonthStart(n) <= d < MonthStart(n + 1)
    ensures n == MonthIndex(d)
  {
    hide MonthStart, MonthIndex;
    MonthContains(d);
    NotBoth(MonthIndex(d), n, d);
    NotBoth(n, MonthIndex(d), d);
  }

  lemma NotBoth(a: int, b: int, d: Date)
    requires MonthStart(b) <= d < MonthStart(a + 1)
    ensures b <= a
  {
    hide MonthStart;
    if a < b { MonthsInOrder(a + 1, b); }
  }

  /** Every date lies in exactly one month. */
  lemma {:induction false} MonthIs(d: Date)
    ensures MonthStart(MonthIndex(d)) <= d < MonthStart(MonthIndex(d) + 1)
    ensures forall n :: MonthStart(n) <= d < MonthStart(n + 1) ==> n == MonthIndex(d)
  {
    MonthContains(d);
    forall n | MonthStart(n) <= d < MonthStart(n + 1) ensures n == MonthIndex(d) { MonthUnique(d, n); }
  }

  function MonthLength(y: int, m: int): int
    requires 1 <= m <= 12
  {
    DaysBefore(m + 1, Leap(y)) - DaysBefore(m, Leap(y))
  }

  /** `from_ymd_opt`. */
  function FromYmd(y: int, m: int, day: int): Option<Date> {
    if 1 <= m <= 12 && 1 <= day <= MonthLength(y, m) then Some(YearStart(y) + DaysBefore(m, Leap(y)) + day - 1) else None
  }

  lemma MonthLengthIs(y: int, m: int)
    requires 1 <= m <= 12
    ensures var n := 12 * (y - 1) + m - 1; MonthStart(n + 1) == MonthStart(n) + MonthLength(y, m)
  {
    hide YearStart, DaysBefore;
    IndexParts(y, m);
    if m < 12 {
      IndexParts(y, m + 1);
    } else {
      IndexParts(y + 1, 1);
      YearStartStep(y);
      DaysBeforeStep(12, Leap(y));
      DaysBeforeStep(1, Leap(y + 1));
    }
  }

  lemma FromYmdIs(y: int, m: int, day: int)
    requires 1 <= m <= 12 && 1 <= day <= MonthLength(y, m)
    ensures FromYmd(y, m, day) == Some(MonthStart(12 * (y - 1) + m - 1) + day - 1)
  {
    IndexParts(y, m);
  }

  lemma FromYmdIndex(y: int, m: int, day: int)
    requires 1 <= m <= 12 && 1 <= day <= MonthLength(y, m)
    ensures MonthIndex(FromYmd(y, m, day).value) == 12 * (y - 1) + m - 1
  {
    hide YearStart, MonthStart, DaysBefore, MonthIndex;
    FromYmdIs(y, m, day);
    MonthLengthIs(y, m);
    MonthUnique(FromYmd(y, m, day).value, 12 * (y - 1) + m - 1);
  }

  /** Taking a date apart and putting it together again. */
  lemma {:induction false} CivilRoundTrip(d: Date)
    ensures FromYmd(Year(d), Month(d), DayOfMonth(d)) == Some(d)
  {
    hide YearStart, MonthStart, DaysBefore, Year, Month;
    MonthContains(d);
    MonthLengthIs(Year(d), Month(d));
    FromYmdIs(Year(d), Month(d), DayOfMonth(d));
  }

  /** Putting a date together and taking it apart again. */
  lemma {:induction false} CivilUnique(y: int, m: int, day: int)
    requires FromYmd(y, m, day).Some?
    ensures var d := FromYmd(y, m, day).value; y == Year(d) && m == Month(d) && day == DayOfMonth(d)
  {
    hide YearStart, MonthStart, DaysBefore, Year, Month, MonthLength;
    var d := FromYmd(y, m, day).value;
    FromYmdIs(y, m, day);
    FromYmdIndex(y, m, day);
  }

  lemma FirstDay(y: int, m: int)
    requires 1 <= m <= 12
    ensures FromYmd(y, m, 1) == Some(MonthStart(12 * (y - 1) + m - 1))
  {
    DaysBeforeStep(m, Leap(y));
    FromYmdIs(y, m, 1);
  }

  // --------------------------------------------------------------- ISO week dates

  /** Monday is 0. */
  function Weekday(d: Date): (w: int)
    ensures 0 <= w < 7
  {
    d % 7
  }

  function Monday(d: Date): Date { d - Weekday(d) }

  function Thursday(d: Date): Date { Monday(d) + 3 }

  /** `iso_week().year()`: the year that has the week's Thursday. */
  function IsoYear(d: Date): int { Year(Thursday(d)) }

  /** `iso_week().week()`: which Thursday of that year it is. */
  function IsoWeek(d: Date): int { DayOfYear(Thursday(d)) / 7 + 1 }

  /** The Monday of week 1: the week that has 4 January. */
  function WeekOne(y: int): Date { Monday(YearStart(y) + 3) }

  function WeeksIn(y: int): int { (WeekOne(y + 1) - WeekOne(y)) / 7 }

  /** `from_isoywd_opt(y, w, Mon)`. */
  function FromIsoWeek(y: int, w: int): Option<Date> {
    if 1 <= w <= WeeksIn(y) then Some(WeekOne(y) + 7 * (w - 1)) else None
  }

  lemma MondayIs(d: Date)
    ensures Monday(d) % 7 == 0 && d - 6 <= Monday(d) <= d
  {
  }

  lemma WholeWeeks(a: Date, b: Date)
    requires a % 7 == 0 && b % 7 == 0
    ensures b == a + 7 * ((b - a) / 7)
  {
  }

  lemma WeekOneNear(y: int)
    ensures WeekOne(y) % 7 == 0 && YearStart(y) - 3 <= WeekOne(y) <= YearStart(y) + 3
    ensures WeekOne(y + 1) == WeekOne(y) + 7 * WeeksIn(y) && 52 <= WeeksIn(y) <= 53
  {
    hide YearStart;
    MondayIs(YearStart(y) + 3);
    MondayIs(YearStart(y + 1) + 3);
    WholeWeeks(WeekOne(y), WeekOne(y + 1));
    YearStartStep(y);
  }

  /** A week dated by its Thursday is the week counted from 4 January. */
  lemma {:induction false} IsoWeekFound(d: Date)
    ensures FromIsoWeek(IsoYear(d), IsoWeek(d)) == Some(Monday(d))
    ensures 1 <= IsoWeek(d) <= 53
  {
    hide YearStart, Year, WeekOne, WeeksIn;
    var y := IsoYear(d);
    MondayIs(d);
    YearIs(Thursday(d));
    WeekOneNear(y);
    WeekOneNear(y + 1);
  }

  lemma YearUnique(d: Date, y: int)
    requires YearStart(y) <= d < YearStart(y + 1)
    ensures y == Year(d)
  {
    YearIs(d);
  }

  /** No other week number denotes the same week. */
  lemma IsoWeekUnique(y: int, w: int)
    requires FromIsoWeek(y, w).Some?
    ensures var d := FromIsoWeek(y, w).value; d == Monday(d) && y == IsoYear(d) && w == IsoWeek(d)
  {
    hide YearStart, Year, WeekOne, WeeksIn, Weekday;
    var d := FromIsoWeek(y, w).value;
    WeekOneNear(y);
    WeekOneNear(y + 1);
    MondayOfMonday(d);
    YearUnique(d + 3, y);
  }

  lemma MondayOfMonday(d: Date)
    requires d % 7 == 0
    ensures Monday(d) == d && Thursday(d) == d + 3
  {
  }

  /** Which years have 53 weeks. */
  lemma {:induction false} LongYears(y: int)
    ensures WeeksIn(y) == 53 <==> Weekday(YearStart(y)) == 3 || (Leap(y) && Weekday(YearStart(y)) == 2)
  {
    hide YearStart;
    YearStartStep(y);
    WeekOneNear(y);
    WeekOneNear(y + 1);
  }
}
