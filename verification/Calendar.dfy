/**
 * The Gregorian calendar: what day a day number is, and that no two numbers are the same day. Object names carry days
 * as dates.
 */
module Calendar {

  datatype Date = Date(year: nat, month: nat, day: nat)

  predicate Leap(year: nat)
  {
    year % 4 == 0 && (year % 100 != 0 || year % 400 == 0)
  }

  function DaysIn(year: nat, month: nat): (days: nat)
    ensures 28 <= days <= 31
  {
    if month == 2 then (if Leap(year) then 29 else 28)
    else if month == 4 || month == 6 || month == 9 || month == 11 then 30
    else 31
  }

  function NextDay(d: Date): Date
  {
    if d.day < DaysIn(d.year, d.month) then d.(day := d.day + 1)
    else if d.month < 12 then Date(d.year, d.month + 1, 1)
    else Date(d.year + 1, 1, 1)
  }

  predicate Real(d: Date)
  {
    d.year >= 1 && 1 <= d.month <= 12 && 1 <= d.day <= DaysIn(d.year, d.month)
  }

  /** The day n days after the first day of year 1. */
  function After(n: nat): (d: Date)
    ensures Real(d)
  {
    if n == 0 then Date(1, 1, 1) else NextDay(After(n - 1))
  }

  const EPOCH := 719_162

  /** Days are numbered from the epoch; the calendar begins with year 1. */
  predicate Datable(day: int)
  {
    day + EPOCH >= 0
  }

  function DateOf(day: int): Date
    requires Datable(day)
  {
    After(day + EPOCH)
  }

  // ---- no day twice ----

  /** Dates in their own order. */
  function Rising(d: Date): nat
  {
    (d.year * 12 + d.month) * 32 + d.day
  }

  lemma {:induction false} LaterIsGreater(n: nat, m: nat)
    requires n < m
    ensures Rising(After(n)) < Rising(After(m))
    decreases m
  {
    assert Rising(After(m - 1)) < Rising(After(m));
    if n < m - 1 {
      LaterIsGreater(n, m - 1);
    }
  }

  lemma DateOfInjective(a: int, b: int)
    requires Datable(a) && Datable(b) && DateOf(a) == DateOf(b)
    ensures a == b
  {
    if a < b { LaterIsGreater(a + EPOCH, b + EPOCH); }
    if b < a { LaterIsGreater(b + EPOCH, a + EPOCH); }
  }

  // ---- it is the calendar ----

  function LengthOf(year: nat): nat
  {
    if Leap(year) then 366 else 365
  }

  function DaysBeforeYear(year: nat): nat
    requires year >= 1
  {
    if year == 1 then 0 else DaysBeforeYear(year - 1) + LengthOf(year - 1)
  }

  function DaysBeforeMonth(year: nat, month: nat): nat
    requires 1 <= month <= 12
  {
    if month == 1 then 0 else DaysBeforeMonth(year, month - 1) + DaysIn(year, month - 1)
  }

  lemma {:induction false} DayOfMonth(n: nat, year: nat, month: nat, k: nat)
    requires After(n) == Date(year, month, 1) && k < DaysIn(year, month)
    ensures After(n + k) == Date(year, month, 1 + k)
    decreases k
  {
    if k > 0 {
      DayOfMonth(n, year, month, k - 1);
    }
  }

  lemma {:induction false} MonthStart(n: nat, year: nat, month: nat)
    requires After(n) == Date(year, 1, 1) && 1 <= month <= 12
    ensures After(n + DaysBeforeMonth(year, month)) == Date(year, month, 1)
    decreases month
  {
    if month > 1 {
      MonthStart(n, year, month - 1);
      DayOfMonth(n + DaysBeforeMonth(year, month - 1), year, month - 1, DaysIn(year, month - 1) - 1);
    }
  }

  lemma MonthLength(year: nat, month: nat)
    requires 1 <= month < 12
    ensures DaysBeforeMonth(year, month + 1) == DaysBeforeMonth(year, month) + DaysIn(year, month)
  {
  }

  lemma YearLength(year: nat)
    ensures DaysBeforeMonth(year, 12) == if Leap(year) then 335 else 334
  {
    assert DaysBeforeMonth(year, 1) == 0;
    MonthLength(year, 1);
    MonthLength(year, 2);
    MonthLength(year, 3);
    MonthLength(year, 4);
    MonthLength(year, 5);
    MonthLength(year, 6);
    MonthLength(year, 7);
    MonthLength(year, 8);
    MonthLength(year, 9);
    MonthLength(year, 10);
    MonthLength(year, 11);
  }

  lemma Fourths(n: nat)
    ensures (n + 1) / 4 == n / 4 + if (n + 1) % 4 == 0 then 1 else 0
  {
  }

  lemma Hundredths(n: nat)
    ensures (n + 1) / 100 == n / 100 + if (n + 1) % 100 == 0 then 1 else 0
  {
  }

  lemma FourHundredths(n: nat)
    ensures (n + 1) / 400 == n / 400 + if (n + 1) % 400 == 0 then 1 else 0
  {
  }

  lemma Multiples(year: nat)
    ensures year % 100 == 0 ==> year % 4 == 0
    ensures year % 400 == 0 ==> year % 100 == 0
  {
    if year % 100 == 0 { assert year == 4 * (25 * (year / 100)); }
    if year % 400 == 0 { assert year == 100 * (4 * (year / 400)); }
  }

  /** The usual count of leap days. */
  lemma {:induction false} DaysBeforeYearCounted(year: nat)
    requires year >= 1
    ensures var n := year - 1; DaysBeforeYear(year) == n * 365 + n / 4 - n / 100 + n / 400
    decreases year
  {
    if year > 1 {
      DaysBeforeYearCounted(year - 1);
      Fourths(year - 2);
      Hundredths(year - 2);
      FourHundredths(year - 2);
      Multiples(year - 1);
    }
  }

  lemma YearPasses(n: nat, year: nat)
    requires After(n) == Date(year, 1, 1)
    ensures After(n + LengthOf(year)) == Date(year + 1, 1, 1)
  {
    MonthStart(n, year, 12);
    YearLength(year);
    DayOfMonth(n + DaysBeforeMonth(year, 12), year, 12, 30);
  }

  lemma {:induction false} YearStart(year: nat)
    requires year >= 1
    ensures After(DaysBeforeYear(year)) == Date(year, 1, 1)
    decreases year
  {
    if year > 1 {
      YearStart(year - 1);
      YearPasses(DaysBeforeYear(year - 1), year - 1);
    }
  }

  lemma YearIsNumbered(day: int, year: nat)
    requires year >= 1 && day + EPOCH == DaysBeforeYear(year)
    ensures Datable(day) && DateOf(day) == Date(year, 1, 1)
  {
    YearStart(year);
  }

  lemma EpochCounted(year: nat)
    requires year == 1970
    ensures DaysBeforeYear(year) == EPOCH
  {
    DaysBeforeYearCounted(year);
  }

  /** The epoch is the first day of 1970. */
  lemma EpochStarts(day: int, year: nat)
    requires day == 0 && year == 1970
    ensures DateOf(day) == Date(year, 1, 1)
  {
    EpochCounted(year);
    YearIsNumbered(day, year);
  }

  lemma DateInYear(n: nat, d: Date)
    requires Real(d) && After(n) == Date(d.year, 1, 1)
    ensures After(n + DaysBeforeMonth(d.year, d.month) + d.day - 1) == d
  {
    MonthStart(n, d.year, d.month);
    DayOfMonth(n + DaysBeforeMonth(d.year, d.month), d.year, d.month, d.day - 1);
  }

  /** Every date of the calendar has the number that counts the days before it. */
  lemma DateHasItsNumber(d: Date)
    requires Real(d)
    ensures After(DaysBeforeYear(d.year) + DaysBeforeMonth(d.year, d.month) + d.day - 1) == d
  {
    YearStart(d.year);
    DateInYear(DaysBeforeYear(d.year), d);
  }
}
