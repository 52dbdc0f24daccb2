/**
 * The proleptic Gregorian calendar that JavaScript's `Date` implements, reduced to
 * calendar triples (time of day and time zones play no part in the invoice).
 *
 * Two ways of moving a date are defined here:
 *  - `StepDays`, the reference: take |n| single-day steps forwards or backwards;
 *  - `Rollover` / `AddDays`, what `Date.prototype.setDate` does: put an out-of-range
 *    day-of-month into the month and carry whole months into the month and year.
 * The lemmas prove the two agree, that the result is always a valid date, and how
 * it is ordered against the starting date.
 */
module Calendar {

  /** A calendar date; `month` runs 1..12 (JavaScript's `getMonth() + 1`). */
  datatype Date = Date(year: int, month: int, day: int)

  /** Gregorian leap-year rule; `%` is Euclidean, so negative (astronomical) years work too. */
  predicate IsLeapYear(y: int) {
    y % 4 == 0 && (y % 100 != 0 || y % 400 == 0)
  }

  function DaysInMonth(y: int, m: int): (n: int)
    requires 1 <= m <= 12
    ensures 28 <= n <= 31
  {
    if m == 2 then (if IsLeapYear(y) then 29 else 28)
    else if m == 4 || m == 6 || m == 9 || m == 11 then 30
    else 31
  }

  predicate ValidDate(d: Date) {
    1 <= d.month <= 12 && 1 <= d.day <= DaysInMonth(d.year, d.month)
  }

  /** Strict chronological order. */
  predicate Before(a: Date, b: Date) {
    a.year < b.year ||
    (a.year == b.year && (a.month < b.month || (a.month == b.month && a.day < b.day)))
  }

  lemma BeforeTransitive(a: Date, b: Date, c: Date)
    requires Before(a, b) && Before(b, c)
    ensures Before(a, c)
  {
  }

  function NextDay(d: Date): (r: Date)
    requires ValidDate(d)
    ensures ValidDate(r) && Before(d, r)
  {
    if d.day < DaysInMonth(d.year, d.month) then Date(d.year, d.month, d.day + 1)
    else if d.month < 12 then Date(d.year, d.month + 1, 1)
    else Date(d.year + 1, 1, 1)
  }

  function PrevDay(d: Date): (r: Date)
    requires ValidDate(d)
    ensures ValidDate(r) && Before(r, d)
  {
    if d.day > 1 then Date(d.year, d.month, d.day - 1)
    else if d.month > 1 then Date(d.year, d.month - 1, DaysInMonth(d.year, d.month - 1))
    else Date(d.year - 1, 12, 31)
  }

  /** One step forwards and one back (in either order) return to the same date. */
  lemma NextPrevInverse(d: Date)
    requires ValidDate(d)
    ensures PrevDay(NextDay(d)) == d && NextDay(PrevDay(d)) == d
  {
  }

  /** The reference for day arithmetic: n single-day steps (backwards when n < 0). */
  function StepDays(d: Date, n: int): (r: Date)
    requires ValidDate(d)
    ensures ValidDate(r)
    decreases if n >= 0 then n else -n
  {
    if n == 0 then d
    else if n > 0 then StepDays(NextDay(d), n - 1)
    else StepDays(PrevDay(d), n + 1)
  }

  lemma StepDaysShiftNext(d: Date, n: int)
    requires ValidDate(d)
    ensures StepDays(d, n) == StepDays(NextDay(d), n - 1)
  {
    if n <= 0 {
      NextPrevInverse(d);
    }
  }

  lemma StepDaysShiftPrev(d: Date, n: int)
    requires ValidDate(d)
    ensures StepDays(d, n) == StepDays(PrevDay(d), n + 1)
  {
    if n >= 0 {
      NextPrevInverse(d);
    }
  }

  /** Stepping a days and then b days is stepping a + b days, for any signs of a and b. */
  lemma {:induction false} StepDaysAdd(d: Date, a: int, b: int)
    requires ValidDate(d)
    ensures StepDays(StepDays(d, a), b) == StepDays(d, a + b)
    decreases if a >= 0 then a else -a
  {
    if a > 0 {
      StepDaysShiftNext(d, a + b);
      StepDaysAdd(NextDay(d), a - 1, b);
    } else if a < 0 {
      StepDaysShiftPrev(d, a + b);
      StepDaysAdd(PrevDay(d), a + 1, b);
    }
  }

  /** Stepping forwards never goes back in time, and a positive number of steps moves strictly on. */
  lemma {:induction false} StepDaysOrder(d: Date, n: int)
    requires ValidDate(d)
    ensures n > 0 ==> Before(d, StepDays(d, n))
    ensures n == 0 ==> StepDays(d, n) == d
    ensures n < 0 ==> Before(StepDays(d, n), d)
    decreases if n >= 0 then n else -n
  {
    if n > 1 {
      StepDaysOrder(NextDay(d), n - 1);
      BeforeTransitive(d, NextDay(d), StepDays(d, n));
    } else if n < -1 {
      StepDaysOrder(PrevDay(d), n + 1);
      BeforeTransitive(StepDays(d, n), PrevDay(d), d);
    }
  }

  /** Inside one month, stepping k days only moves the day-of-month by k. */
  lemma {:induction false} StepWithinMonth(d: Date, k: nat)
    requires ValidDate(d) && d.day + k <= DaysInMonth(d.year, d.month)
    ensures StepDays(d, k) == Date(d.year, d.month, d.day + k)
    decreases k
  {
    if k > 0 {
      StepWithinMonth(NextDay(d), k - 1);
    }
  }

  function FirstOfNextMonth(y: int, m: int): (r: Date)
    requires 1 <= m <= 12
    ensures ValidDate(r) && r.day == 1
  {
    if m == 12 then Date(y + 1, 1, 1) else Date(y, m + 1, 1)
  }

  function FirstOfPrevMonth(y: int, m: int): (r: Date)
    requires 1 <= m <= 12
    ensures ValidDate(r) && r.day == 1
  {
    if m == 1 then Date(y - 1, 12, 1) else Date(y, m - 1, 1)
  }

  /** A month is exactly DaysInMonth single-day steps long. */
  lemma MonthLength(y: int, m: int)
    requires 1 <= m <= 12
    ensures StepDays(Date(y, m, 1), DaysInMonth(y, m)) == FirstOfNextMonth(y, m)
  {
    var n := DaysInMonth(y, m);
    StepWithinMonth(Date(y, m, 1), n - 1);
    StepDaysAdd(Date(y, m, 1), n - 1, 1);
  }

  /**
   * What `setDate(dom)` does to a date in month m of year y: a day-of-month past
   * the month's end carries into the following months, one below 1 borrows from
   * the preceding months.
   */
  function Rollover(y: int, m: int, dom: int): (r: Date)
    requires 1 <= m <= 12
    ensures ValidDate(r)
    decreases (if dom < 1 then 1 - dom else 0), (if dom > 0 then dom else 0)
  {
    if dom < 1 then
      var p := FirstOfPrevMonth(y, m);
      Rollover(p.year, p.month, dom + DaysInMonth(p.year, p.month))
    else if dom > DaysInMonth(y, m) then
      var q := FirstOfNextMonth(y, m);
      Rollover(q.year, q.month, dom - DaysInMonth(y, m))
    else
      Date(y, m, dom)
  }

  /** The rollover lands where dom - 1 single-day steps from the first of the month land. */
  lemma {:induction false} RolloverIsStepping(y: int, m: int, dom: int)
    requires 1 <= m <= 12
    ensures Rollover(y, m, dom) == StepDays(Date(y, m, 1), dom - 1)
    decreases (if dom < 1 then 1 - dom else 0), (if dom > 0 then dom else 0)
  {
    var first := Date(y, m, 1);
    if dom < 1 {
      var p := FirstOfPrevMonth(y, m);
      var dp := DaysInMonth(p.year, p.month);
      RolloverIsStepping(p.year, p.month, dom + dp);
      MonthLength(p.year, p.month);
      StepDaysAdd(p, dp, dom - 1);
    } else if dom > DaysInMonth(y, m) {
      var q := FirstOfNextMonth(y, m);
      var dm := DaysInMonth(y, m);
      RolloverIsStepping(q.year, q.month, dom - dm);
      MonthLength(y, m);
      StepDaysAdd(first, dm, dom - dm - 1);
    } else {
      StepWithinMonth(first, dom - 1);
    }
  }

  /** `d.setDate(d.getDate() + n)`: add n calendar days with month and year rollover. */
  function AddDays(d: Date, n: int): (r: Date)
    requires ValidDate(d)
    ensures ValidDate(r)
  {
    Rollover(d.year, d.month, d.day + n)
  }

  /** Adding n days is taking n single-day steps, across month ends, year ends and leap days. */
  lemma AddDaysIsStepping(d: Date, n: int)
    requires ValidDate(d)
    ensures AddDays(d, n) == StepDays(d, n)
  {
    var first := Date(d.year, d.month, 1);
    StepWithinMonth(first, d.day - 1);
    assert StepDays(first, d.day - 1) == d;
    StepDaysAdd(first, d.day - 1, n);
    assert StepDays(d, n) == StepDays(first, d.day + n - 1);
    RolloverIsStepping(d.year, d.month, d.day + n);
  }

  /** The result is never earlier for n >= 0, strictly later for n > 0, strictly earlier for n < 0. */
  lemma AddDaysOrder(d: Date, n: int)
    requires ValidDate(d)
    ensures n == 0 ==> AddDays(d, n) == d
    ensures n >= 0 ==> !Before(AddDays(d, n), d)
    ensures n > 0 ==> Before(d, AddDays(d, n))
    ensures n < 0 ==> Before(AddDays(d, n), d)
  {
    AddDaysIsStepping(d, n);
    StepDaysOrder(d, n);
  }

  /** Two additions compose: adding a then b days is adding a + b days. */
  lemma AddDaysAdd(d: Date, a: int, b: int)
    requires ValidDate(d)
    ensures AddDays(AddDays(d, a), b) == AddDays(d, a + b)
  {
    AddDaysIsStepping(d, a);
    AddDaysIsStepping(AddDays(d, a), b);
    AddDaysIsStepping(d, a + b);
    StepDaysAdd(d, a, b);
  }

  /** Adding and then subtracting the same number of days gives back the date. */
  lemma AddDaysInverse(d: Date, n: int)
    requires ValidDate(d)
    ensures AddDays(AddDays(d, n), -n) == d
  {
    AddDaysAdd(d, n, -n);
  }

  /** A 30-day term from 31 January: 1 March in leap 2024, 2 March in common 2023. */
  lemma AddDaysLeapExamples()
    ensures AddDays(Date(2024, 1, 31), 30) == Date(2024, 3, 1)
    ensures AddDays(Date(2023, 1, 31), 30) == Date(2023, 3, 2)
  {
  }

  /** Century years: 2100 is a common year, 2000 a leap year. */
  lemma AddDaysCenturyExamples()
    ensures AddDays(Date(2100, 2, 28), 1) == Date(2100, 3, 1)
    ensures AddDays(Date(2000, 2, 28), 1) == Date(2000, 2, 29)
  {
  }

  /** A 15-day term across a month end and across a year end. */
  lemma AddDaysRolloverExamples()
    ensures AddDays(Date(2024, 1, 20), 15) == Date(2024, 2, 4)
    ensures AddDays(Date(2023, 12, 20), 15) == Date(2024, 1, 4)
  {
  }
}
