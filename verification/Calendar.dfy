/** The proleptic Gregorian calendar: day numbers to dates and back, as gmtime and timegm do it in UTC. */
module Calendar {

  predicate IsLeap(y: int) {
    y % 4 == 0 && (y % 100 != 0 || y % 400 == 0)
  }

  function DaysInYear(y: int): (n: nat) {
    if IsLeap(y) then 366 else 365
  }

  /** Month 1 is January. */
  function DaysInMonth(y: int, m: int): (n: nat)
    ensures 28 <= n <= 31
  {
    if m == 2 then (if IsLeap(y) then 29 else 28)
    else if m in {4, 6, 9, 11} then 30
    else 31
  }

  /** Days from the first of January of year 1 to that of year `y`. */
  function DaysBeforeYear(y: int): int {
    365 * (y - 1) + (y - 1) / 4 - (y - 1) / 100 + (y - 1) / 400
  }

  /** Days from the first of January to the first of the month. */
  function DaysBeforeMonth(y: int, m: int): int
    requires 1 <= m <= 13
    decreases m
  {
    if m == 1 then 0 else DaysBeforeMonth(y, m - 1) + DaysInMonth(y, m - 1)
  }

  datatype Date = Date(year: int, month: int, day: int)

  predicate ValidDate(d: Date) {
    1 <= d.month <= 12 && 1 <= d.day <= DaysInMonth(d.year, d.month)
  }

  const EPOCH_DAYS: int := DaysBeforeYear(1970)

  /** Days since 1970-01-01; the day of the month may lie outside the month. */
  function DayNumber(year: int, month: int, day: int): int
    requires 1 <= month <= 12
  {
    DaysBeforeYear(year) + DaysBeforeMonth(year, month) + day - 1 - EPOCH_DAYS
  }

  lemma NextYear(y: int)
    ensures DaysBeforeYear(y + 1) == DaysBeforeYear(y) + DaysInYear(y)
  {
    FourthYear(y);
    HundredthYear(y);
    FourHundredthYear(y);
  }

  lemma FourthYear(y: int)
    ensures y / 4 == (y - 1) / 4 + if y % 4 == 0 then 1 else 0
  {
  }

  lemma HundredthYear(y: int)
    ensures y / 100 == (y - 1) / 100 + if y % 100 == 0 then 1 else 0
    ensures y % 100 == 0 ==> y % 4 == 0
  {
  }

  lemma FourHundredthYear(y: int)
    ensures y / 400 == (y - 1) / 400 + if y % 400 == 0 then 1 else 0
    ensures y % 400 == 0 ==> y % 100 == 0
  {
  }

  lemma YearIsItsMonths(y: int)
    ensures DaysBeforeMonth(y, 13) == DaysInYear(y)
  {
    assert DaysBeforeMonth(y, 4) == DaysInMonth(y, 1) + DaysInMonth(y, 2) + DaysInMonth(y, 3);
    assert DaysBeforeMonth(y, 7) == DaysBeforeMonth(y, 4) + DaysInMonth(y, 4) + DaysInMonth(y, 5) + DaysInMonth(y, 6);
    assert DaysBeforeMonth(y, 10) == DaysBeforeMonth(y, 7) + DaysInMonth(y, 7) + DaysInMonth(y, 8) + DaysInMonth(y, 9);
    assert DaysBeforeMonth(y, 13) == DaysBeforeMonth(y, 10) + DaysInMonth(y, 10) + DaysInMonth(y, 11) + DaysInMonth(y, 12);
  }

  /** The year a day number falls in, counting up from year `y`. */
  function YearOf(n: int, y: int): (r: int)
    requires DaysBeforeYear(y) <= n + EPOCH_DAYS
    ensures y <= r && DaysBeforeYear(r) <= n + EPOCH_DAYS < DaysBeforeYear(r + 1)
    decreases n + EPOCH_DAYS - DaysBeforeYear(y)
  {
    NextYear(y);
    if n + EPOCH_DAYS < DaysBeforeYear(y + 1) then y else YearOf(n, y + 1)
  }

  /** The month a day of the year (from 0) falls in, counting up from month `m`. */
  function MonthOf(y: int, n: int, m: int): (r: int)
    requires 1 <= m <= 12 && DaysBeforeMonth(y, m) <= n < DaysBeforeMonth(y, 13)
    ensures m <= r <= 12 && DaysBeforeMonth(y, r) <= n < DaysBeforeMonth(y, r + 1)
    decreases 12 - m
  {
    if n < DaysBeforeMonth(y, m + 1) then m else MonthOf(y, n, m + 1)
  }

  /** gmtime's date: the date of the day `n` days after 1970-01-01. */
  function DateOf(n: nat): (d: Date)
    ensures ValidDate(d) && d.year >= 1970
  {
    var y := YearOf(n, 1970);
    NextYear(y);
    YearIsItsMonths(y);
    var rest := n + EPOCH_DAYS - DaysBeforeYear(y);
    var m := MonthOf(y, rest, 1);
    Date(y, m, rest - DaysBeforeMonth(y, m) + 1)
  }

  lemma {:induction false} YearsAscend(a: int, b: int)
    requires a <= b
    ensures DaysBeforeYear(a) <= DaysBeforeYear(b)
    decreases b - a
  {
    if a < b {
      NextYear(a);
      YearsAscend(a + 1, b);
    }
  }

  lemma {:induction false} MonthsAscend(y: int, a: int, b: int)
    requires 1 <= a <= b <= 13
    ensures DaysBeforeMonth(y, a) <= DaysBeforeMonth(y, b)
    decreases b - a
  {
    if a < b {
      MonthsAscend(y, a, b - 1);
    }
  }

  /** A date's day lies in its year and month and in no other. */
  lemma DayPlaced(d: Date)
    requires ValidDate(d)
    ensures var n := DayNumber(d.year, d.month, d.day) + EPOCH_DAYS;
            DaysBeforeYear(d.year) + DaysBeforeMonth(d.year, d.month) <= n < DaysBeforeYear(d.year) + DaysBeforeMonth(d.year, d.month + 1)
            && DaysBeforeYear(d.year) <= n < DaysBeforeYear(d.year + 1)
  {
    NextYear(d.year);
    YearIsItsMonths(d.year);
    MonthsAscend(d.year, 1, d.month);
    MonthsAscend(d.year, d.month + 1, 13);
  }

  /** The later date has the greater day number. */
  lemma DatesAscend(a: Date, b: Date)
    requires ValidDate(a) && ValidDate(b)
    requires a.year < b.year || (a.year == b.year && a.month < b.month)
    ensures DayNumber(a.year, a.month, a.day) < DayNumber(b.year, b.month, b.day)
  {
    if a.year < b.year {
      LaterYear(a, b);
    } else {
      MonthsAscend(a.year, a.month + 1, b.month);
    }
  }

  lemma LaterYear(a: Date, b: Date)
    requires ValidDate(a) && ValidDate(b) && a.year < b.year
    ensures DayNumber(a.year, a.month, a.day) < DayNumber(b.year, b.month, b.day)
  {
    DayPlaced(a);
    DayPlaced(b);
    YearsAscend(a.year + 1, b.year);
  }

  /** Two valid dates of the same day are the same date. */
  lemma DatesApart(a: Date, b: Date)
    requires ValidDate(a) && ValidDate(b) && DayNumber(a.year, a.month, a.day) == DayNumber(b.year, b.month, b.day)
    ensures a == b
  {
    if a.year < b.year || (a.year == b.year && a.month < b.month) {
      DatesAscend(a, b);
    } else if b.year < a.year || b.month < a.month {
      DatesAscend(b, a);
    }
  }

  /** From 1970 on, days and dates correspond one to one. */
  lemma CalendarInverse(n: nat, d: Date)
    ensures var x := DateOf(n); DayNumber(x.year, x.month, x.day) == n
    ensures ValidDate(d) && d.year >= 1970 ==>
              DayNumber(d.year, d.month, d.day) >= 0 && DateOf(DayNumber(d.year, d.month, d.day)) == d
  {
    if ValidDate(d) && d.year >= 1970 {
      DayPlaced(d);
      YearsAscend(1970, d.year);
      MonthsAscend(d.year, 1, d.month);
      DatesApart(d, DateOf(DayNumber(d.year, d.month, d.day)));
    }
  }

  /** The days from the first of March to the first of a month counted from March, in a year that ends with
      February: months of 31, 30, 31, 30 and 31 days, over and over. */
  function MarchDays(m: nat): nat {
    (153 * m + 2) / 5
  }

  /** The day number by the well-known formula that counts years from March. */
  function CivilDays(year: int, month: int, day: int): int {
    var y, m := if month <= 2 then year - 1 else year, if month <= 2 then month + 9 else month - 3;
    365 * y + y / 4 - y / 100 + y / 400 + (if m >= 0 then MarchDays(m) else 0) + day - 1 - 719468
  }

  lemma FirstHalf(y: int)
    ensures DaysBeforeMonth(y, 2) == 31 && DaysBeforeMonth(y, 3) == 31 + DaysInMonth(y, 2)
    ensures forall m :: 3 <= m <= 6 ==> DaysBeforeMonth(y, m) == DaysInYear(y) - 306 + MarchDays(m - 3)
  {
    assert DaysBeforeMonth(y, 4) == DaysBeforeMonth(y, 3) + 31;
    assert DaysBeforeMonth(y, 5) == DaysBeforeMonth(y, 4) + 30;
    assert DaysBeforeMonth(y, 6) == DaysBeforeMonth(y, 5) + 31;
  }

  lemma SecondHalf(y: int)
    ensures forall m :: 7 <= m <= 12 ==> DaysBeforeMonth(y, m) == DaysInYear(y) - 306 + MarchDays(m - 3)
  {
    FirstHalf(y);
    assert DaysBeforeMonth(y, 7) == DaysBeforeMonth(y, 6) + 30;
    assert DaysBeforeMonth(y, 8) == DaysBeforeMonth(y, 7) + 31;
    assert DaysBeforeMonth(y, 9) == DaysBeforeMonth(y, 8) + 31;
    assert DaysBeforeMonth(y, 10) == DaysBeforeMonth(y, 9) + 30;
    assert DaysBeforeMonth(y, 11) == DaysBeforeMonth(y, 10) + 31;
    assert DaysBeforeMonth(y, 12) == DaysBeforeMonth(y, 11) + 30;
  }

  /** Counting up the months of every year gives what the closed formula gives, for every date. */
  lemma DayNumberIsCivil(year: int, month: int, day: int)
    requires 1 <= month <= 12
    ensures DayNumber(year, month, day) == CivilDays(year, month, day)
  {
    NextYear(year);
    FirstHalf(year);
    SecondHalf(year);
  }
}
