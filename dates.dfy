/** Calendar days as (year, 0-based month, day) triples.  The application
    compares days with JavaScript `Date` objects, `getFullYear`/`getMonth`/
    `getDate` tuples and locale date strings; at day granularity all of these
    are the lexicographic order on the triple, which is what this module
    defines.  Time of day and time zones are not modelled. */
module Dates {

  datatype Date = Date(year: int, month0: int, day: int)

  /** `a` is a strictly earlier calendar day than `b`. */
  predicate Before(a: Date, b: Date) {
    a.year < b.year
    || (a.year == b.year && a.month0 < b.month0)
    || (a.year == b.year && a.month0 == b.month0 && a.day < b.day)
  }

  /** Gregorian leap-year rule, as JavaScript's proleptic calendar uses. */
  predicate IsLeapYear(year: int) {
    year % 4 == 0 && (year % 100 != 0 || year % 400 == 0)
  }

  /** `new Date(year, month0 + 1, 0).getDate()`: the last day of the month. */
  function DaysInMonth(year: int, month0: int): (n: int)
    requires 0 <= month0 < 12
    ensures 28 <= n <= 31
    ensures month0 == 1 ==> (n == 29 <==> IsLeapYear(year)) && (n == 28 <==> !IsLeapYear(year))
    ensures month0 != 1 ==> (n == 30 <==> month0 in {3, 5, 8, 10}) && (n == 31 <==> month0 !in {3, 5, 8, 10})
  {
    if month0 == 1 then (if IsLeapYear(year) then 29 else 28)
    else if month0 in {3, 5, 8, 10} then 30
    else 31
  }

  predicate ValidDate(d: Date) {
    0 <= d.month0 < 12 && 1 <= d.day <= DaysInMonth(d.year, d.month0)
  }

  /** `new Date(year, month, 1)`: JavaScript normalises an out-of-range month
      into the neighbouring years (month 12 is January of the next year,
      month -1 December of the previous one). */
  function MonthStart(year: int, month: int): (d: Date)
    ensures ValidDate(d) && d.day == 1
    ensures 12 * d.year + d.month0 == 12 * year + month
  {
    Date(year + month / 12, month % 12, 1)
  }

  /** The month that follows the one starting at `MonthStart(year, month)`. */
  lemma NextMonthStart(year: int, month: int)
    ensures var s, t := MonthStart(year, month), MonthStart(year, month + 1);
            if s.month0 == 11 then t == Date(s.year + 1, 0, 1) else t == Date(s.year, s.month0 + 1, 1)
  {
    var s, t := MonthStart(year, month), MonthStart(year, month + 1);
    assert 12 * t.year + t.month0 == 12 * s.year + s.month0 + 1;
  }

  /** The half-open window [start of month, start of next month) contains
      exactly the valid days of the (normalised) month. */
  lemma {:induction false} MonthWindowExact(d: Date, year: int, month: int)
    requires ValidDate(d)
    ensures (!Before(d, MonthStart(year, month)) && Before(d, MonthStart(year, month + 1)))
            <==> (d.year, d.month0) == (MonthStart(year, month).year, MonthStart(year, month).month0)
  {
    NextMonthStart(year, month);
  }
}
