/** The Gregorian calendar as the time package of Go counts it: day numbers from 1970-01-01, dates
    in every year before and after. */
module Calendar {
  datatype Civil = Civil(year: int, month: nat, day: nat)

  predicate IsLeap(y: int) {
    y % 4 == 0 && (y % 100 != 0 || y % 400 == 0)
  }

  function DaysInYear(y: int): nat {
    if IsLeap(y) then 366 else 365
  }

  function DaysInMonth(y: int, m: nat): nat {
    if m == 2 then (if IsLeap(y) then 29 else 28)
    else if m == 4 || m == 6 || m == 9 || m == 11 then 30
    else 31
  }

  /** The year and the day within it, n days after 1 January of `from`; n may be negative. */
  function YearOf(from: int, n: int): (r: (int, nat))
    ensures r.1 < DaysInYear(r.0) && (n >= 0 <==> from <= r.0)
    decreases if n < 0 then 366 - n else n
  {
    if n < 0 then YearOf(from - 1, n + DaysInYear(from - 1))
    else if n < DaysInYear(from) then (from, n)
    else YearOf(from + 1, n - DaysInYear(from))
  }

  /** The days from 1 January of one year to 1 January of another. */
  function DaysBetween(from: int, y: int): int
    decreases if y < from then from - y else y - from
  {
    if from == y then 0
    else if from < y then DaysInYear(from) + DaysBetween(from + 1, y)
    else DaysBetween(from - 1, y) - DaysInYear(from - 1)
  }

  function DaysBeforeMonth(y: int, m: nat): nat
    requires 1 <= m <= 13
  {
    if m == 1 then 0 else DaysBeforeMonth(y, m - 1) + DaysInMonth(y, m - 1)
  }

  /** The month of day n of year y, searched from month m on. */
  function MonthOf(y: int, m: nat, n: nat): (r: (nat, nat))
    requires 1 <= m <= 12 && DaysBeforeMonth(y, m) + n < DaysBeforeMonth(y, 13)
    ensures m <= r.0 <= 12 && r.1 < DaysInMonth(y, r.0)
    ensures DaysBeforeMonth(y, r.0) + r.1 == DaysBeforeMonth(y, m) + n
    decreases 13 - m
  {
    if n < DaysInMonth(y, m) then (m, n) else MonthOf(y, m + 1, n - DaysInMonth(y, m))
  }

  lemma TwelveMonths(y: int)
    ensures DaysBeforeMonth(y, 13) == DaysInYear(y)
  {
    assert DaysBeforeMonth(y, 2) == 31;
    assert DaysBeforeMonth(y, 3) == DaysInYear(y) - 306;
    assert DaysBeforeMonth(y, 4) == DaysInYear(y) - 275;
    assert DaysBeforeMonth(y, 5) == DaysInYear(y) - 245;
    assert DaysBeforeMonth(y, 6) == DaysInYear(y) - 214;
    assert DaysBeforeMonth(y, 7) == DaysInYear(y) - 184;
    assert DaysBeforeMonth(y, 8) == DaysInYear(y) - 153;
    assert DaysBeforeMonth(y, 9) == DaysInYear(y) - 122;
    assert DaysBeforeMonth(y, 10) == DaysInYear(y) - 92;
    assert DaysBeforeMonth(y, 11) == DaysInYear(y) - 61;
    assert DaysBeforeMonth(y, 12) == DaysInYear(y) - 31;
  }

  /** The calendar date of a day number counted from 1970-01-01. */
  function CivilOf(day: int): (c: Civil)
    ensures 1 <= c.month <= 12 && 1 <= c.day <= DaysInMonth(c.year, c.month)
  {
    var (y, n) := YearOf(1970, day);
    TwelveMonths(y);
    var (m, d) := MonthOf(y, 1, n);
    Civil(y, m, d + 1)
  }

  /** The day number of a calendar date. */
  function DayNumber(c: Civil): int
    requires 1 <= c.month <= 12
  {
    DaysBetween(1970, c.year) + DaysBeforeMonth(c.year, c.month) + c.day - 1
  }

  lemma {:induction false} YearReadsBack(from: int, n: int)
    ensures DaysBetween(from, YearOf(from, n).0) + YearOf(from, n).1 == n
    decreases if n < 0 then 366 - n else n
  {
    if n < 0 {
      YearReadsBack(from - 1, n + DaysInYear(from - 1));
    } else if n >= DaysInYear(from) {
      YearReadsBack(from + 1, n - DaysInYear(from));
    }
  }

  /** The calendar round trip, for days before and after 1970 alike. */
  lemma DateReadsBackFromCivil(day: int)
    ensures DayNumber(CivilOf(day)) == day
  {
    YearReadsBack(1970, day);
  }

  /** Leap years up to and including a year, by the Gregorian rule. */
  function LeapsUpTo(y: int): int {
    y / 4 - y / 100 + y / 400
  }

  /** The calendar's years have the lengths of the Gregorian rule: from any year to any later one it
      is 365 days for each, and one more for each leap year between. */
  lemma {:induction false} YearsAreGregorian(from: int, y: int)
    requires from <= y
    ensures DaysBetween(from, y) == 365 * (y - from) + LeapsUpTo(y - 1) - LeapsUpTo(from - 1)
    decreases y - from
  {
    if from < y {
      YearsAreGregorian(from + 1, y);
      LeapYear(from);
    }
  }

  lemma LeapYear(y: int)
    ensures DaysInYear(y) == 365 + LeapsUpTo(y) - LeapsUpTo(y - 1)
  {
    Step(y, 4);
    Step(y, 100);
    Step(y, 400);
    LeapBySteps(y, y / 4 - (y - 1) / 4, y / 100 - (y - 1) / 100, y / 400 - (y - 1) / 400);
  }

  lemma LeapBySteps(y: int, by4: int, by100: int, by400: int)
    requires by4 == if y % 4 == 0 then 1 else 0
    requires by100 == if y % 100 == 0 then 1 else 0
    requires by400 == if y % 400 == 0 then 1 else 0
    ensures DaysInYear(y) == 365 + by4 - by100 + by400
  {
    assert y % 100 == 0 ==> y % 4 == 0;
    assert y % 400 == 0 ==> y % 100 == 0;
  }

  lemma Step(y: int, n: int)
    requires n > 1
    ensures y / n - (y - 1) / n == if y % n == 0 then 1 else 0
  {
    var q, r := y / n, y % n;
    if r > 0 {
      Quotient(y - 1, q, n, r - 1);
    } else {
      Quotient(y - 1, q - 1, n, n - 1);
    }
  }

  lemma Quotient(x: int, q: int, n: int, r: int)
    requires n > 0 && 0 <= r < n && x == q * n + r
    ensures x / n == q
  {
    var d := x / n - q;
    assert d * n == r - x % n;
    assert (d >= 1 ==> d * n >= n) && (d <= -1 ==> d * n <= -n);
  }

}
