/** JavaScript `Date` values, seen through their local calendar fields:
    year, month (0 = January, as `getMonth()` returns it), day of the month,
    and milliseconds since local midnight. Comparing two `Date`s with `<` or
    `>=` compares their time values, which is the lexicographic order of these
    fields. */
module Calendar {

  const MsPerDay: int := 86400000

  predicate IsLeapYear(y: int) {
    (y % 4 == 0 && y % 100 != 0) || y % 400 == 0
  }

  function DaysInMonth(y: int, m: int): (n: int)
    requires 0 <= m < 12
    ensures 28 <= n <= 31
  {
    if m == 1 then (if IsLeapYear(y) then 29 else 28)
    else if m == 3 || m == 5 || m == 8 || m == 10 then 30
    else 31
  }

  datatype DateTime = DateTime(year: int, month: int, day: int, ms: int)

  predicate IsValid(d: DateTime) {
    && 0 <= d.month < 12
    && 1 <= d.day <= DaysInMonth(d.year, d.month)
    && 0 <= d.ms < MsPerDay
  }

  /** A `Date` whose time value is not NaN. */
  type Moment = d: DateTime | IsValid(d) witness DateTime(1970, 0, 1, 0)

  /** `a < b` on time values. */
  predicate Before(a: Moment, b: Moment) {
    || a.year < b.year
    || (a.year == b.year && a.month < b.month)
    || (a.year == b.year && a.month == b.month && a.day < b.day)
    || (a.year == b.year && a.month == b.month && a.day == b.day && a.ms < b.ms)
  }

  /** `a <= b` on time values. */
  predicate AtOrBefore(a: Moment, b: Moment) {
    !Before(b, a)
  }

  /** The calendar day of `a` is not after the calendar day of `b`. */
  predicate SameOrEarlierDay(a: Moment, b: Moment) {
    || a.year < b.year
    || (a.year == b.year && a.month < b.month)
    || (a.year == b.year && a.month == b.month && a.day <= b.day)
  }

  /** `new Date(y, m, day)` for in-range arguments: local midnight of that day. */
  function Midnight(y: int, m: int, day: int): (r: Moment)
    requires 0 <= m < 12 && 1 <= day <= DaysInMonth(y, m)
    ensures r.year == y && r.month == m && r.day == day && r.ms == 0
  {
    DateTime(y, m, day, 0)
  }

  /** `new Date(y, m + 1, 0)`: midnight of the last day of month `m`. */
  function LastDayOfMonth(y: int, m: int): (r: Moment)
    requires 0 <= m < 12
    ensures r.year == y && r.month == m && r.day == DaysInMonth(y, m) && r.ms == 0
  {
    Midnight(y, m, DaysInMonth(y, m))
  }

  /** `d.setHours(23, 59, 59, 999)`: the last millisecond of `d`'s day. */
  function EndOfDay(d: Moment): (r: Moment)
    ensures r.year == d.year && r.month == d.month && r.day == d.day && r.ms == MsPerDay - 1
  {
    d.(ms := MsPerDay - 1)
  }

  /** Nothing on a day is later than its end, so "at or before the end of
      day `b`" means "on `b`'s calendar day or earlier". */
  lemma {:induction false} AtOrBeforeEndOfDay(a: Moment, b: Moment)
    ensures AtOrBefore(a, EndOfDay(b)) <==> SameOrEarlierDay(a, b)
  {
  }
}
