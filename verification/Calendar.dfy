/**
 * Calendar units in a time zone of fixed offset.
 *
 * A time is the number of microseconds since the start of 1 January of year 1 in the zone, which
 * was a Monday in the proleptic Gregorian calendar.
 */
module Calendar {

  type Time = nat

  const MICROSECONDS_PER_HOUR: nat := 3_600_000_000

  datatype Category = Hours | Days | Weeks | Months | Years

  /** Years are counted from zero, so that year 1 has index zero. */
  predicate IsLeap(year: nat) {
    var y := year + 1;
    y % 4 == 0 && (y % 100 != 0 || y % 400 == 0)
  }

  /** Months are counted from January of year 1. */
  function DaysIn(month: nat): (n: nat)
    ensures 28 <= n <= 31
  {
    var m := month % 12;
    if m == 1 then (if IsLeap(month / 12) then 29 else 28)
    else if m == 3 || m == 5 || m == 8 || m == 10 then 30
    else 31
  }

  /** The month that holds the given day, counted from the first day of a given month. */
  function MonthFrom(month: nat, day: nat): (m: nat)
    ensures m >= month
    decreases day
  {
    if day < DaysIn(month) then month else MonthFrom(month + 1, day - DaysIn(month))
  }

  /** The calendar unit of a category that a time falls into, counted from the first one. */
  function Unit(c: Category, t: Time): nat {
    var hour := t / MICROSECONDS_PER_HOUR;
    var day := hour / 24;
    match c
    case Hours => hour
    case Days => day
    case Weeks => day / 7
    case Months => MonthFrom(0, day)
    case Years => MonthFrom(0, day) / 12
  }

  lemma {:induction false} MonthMono(month: nat, d: nat, e: nat)
    requires d <= e
    ensures MonthFrom(month, d) <= MonthFrom(month, e)
    decreases d
  {
    if d >= DaysIn(month) {
      MonthMono(month + 1, d - DaysIn(month), e - DaysIn(month));
    }
  }

  /** Later times fall into the same or a later unit. */
  lemma {:induction false} UnitMono(c: Category, s: Time, t: Time)
    requires s <= t
    ensures Unit(c, s) <= Unit(c, t)
  {
    hide MonthFrom;
    var d, e := Unit(Days, s), Unit(Days, t);
    assert Unit(Hours, s) <= Unit(Hours, t);
    MonthMono(0, d, e);
  }

  /** Each unit of the first category lies within one unit of the second. */
  predicate Refines(c: Category, d: Category) {
    match c
    case Hours => true
    case Days => d != Hours
    case Weeks => d == Weeks
    case Months => d == Months || d == Years
    case Years => d == Years
  }

  lemma {:induction false} RefinesUnits(c: Category, d: Category, s: Time, t: Time)
    requires Refines(c, d) && Unit(c, s) == Unit(c, t)
    ensures Unit(d, s) == Unit(d, t)
  {
    hide MonthFrom;
  }
}
