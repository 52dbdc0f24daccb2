/**
 * The part of JavaScript's `Date` the invoice relies on: construction from
 * (year, monthIndex, day) and in-place `setDate`, both of which normalise an
 * out-of-range month or day-of-month by carrying into the next unit.
 */
module JsDates {
  import opened Calendar

  /** `new Date(y, ...)` reads a year 0..99 as 1900..1999. */
  function MakeFullYear(y: int): int {
    if 0 <= y <= 99 then 1900 + y else y
  }

  /**
   * `new Date(year, monthIndex, date)`: whole years are carried out of the month index
   * (floor division; Dafny's `/` and `%` by a positive divisor are floor and modulo),
   * then the day-of-month is rolled over as `setDate` does.
   */
  function MakeDate(year: int, monthIndex: int, date: int): (r: Date)
    ensures ValidDate(r)
  {
    Rollover(MakeFullYear(year) + monthIndex / 12, monthIndex % 12 + 1, date)
  }

  /** A `Date` object: its fields are what `getFullYear`, `getMonth` and `getDate` return. */
  class JsDate {
    var fullYear: int
    var monthIndex: int
    var date: int

    ghost predicate Valid()
      reads this
    {
      0 <= monthIndex < 12 && ValidDate(Value())
    }

    /** The calendar date this object denotes. */
    function Value(): Date
      reads this
    {
      Date(fullYear, monthIndex + 1, date)
    }

    /** `new Date(other)`: an independent object denoting the same date. */
    constructor Copy(other: JsDate)
      requires other.Valid()
      ensures Valid() && Value() == other.Value()
    {
      fullYear, monthIndex, date := other.fullYear, other.monthIndex, other.date;
    }

    /** `setDate(dom)`: keep year and month, set the day-of-month to dom and roll over. */
    method SetDate(dom: int)
      requires Valid()
      modifies this
      ensures Valid()
      ensures Value() == Rollover(old(fullYear), old(monthIndex) + 1, dom)
    {
      var r := Rollover(fullYear, monthIndex + 1, dom);
      fullYear, monthIndex, date := r.year, r.month - 1, r.day;
    }
  }
}
