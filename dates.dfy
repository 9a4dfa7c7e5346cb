/** Calendar dates as day numbers, and the Monday-to-Sunday week around a day. */
module Dates {

  /** A date as its proleptic Gregorian ordinal (Python's `date.toordinal`):
      day 1 is 1 January of year 1, which was a Monday. */
  type Date = int

  /** Python's `date.weekday`: Monday is 0 and Sunday is 6. */
  function Weekday(d: Date): (w: int)
    ensures 0 <= w < 7
  {
    (d + 6) % 7
  }

  /** The weekday advances by one each day, wrapping from Sunday to Monday;
      with `OrdinalOneIsMonday` this fixes the weekday of every day. */
  lemma WeekdayNext(d: Date)
    ensures Weekday(d + 1) == (Weekday(d) + 1) % 7
  {
  }

  /** Ordinal 1, 1 January of year 1, is a Monday. */
  lemma OrdinalOneIsMonday()
    ensures Weekday(1) == 0
  {
  }

  /** The first and the last day of a week, both included. */
  datatype Week = Week(start: Date, end: Date)

  /** The week holding `today`: it starts `Weekday(today)` days earlier and
      ends six days after that. */
  function CurrentWeek(today: Date): (w: Week)
    ensures Weekday(w.start) == 0 && w.end - w.start == 6
    ensures w.start <= today <= w.end
  {
    var start := today - Weekday(today);
    Week(start, start + 6)
  }

  /** No other Monday-to-Sunday range contains `today`. */
  lemma CurrentWeekUnique(today: Date, monday: Date)
    requires Weekday(monday) == 0 && monday <= today <= monday + 6
    ensures CurrentWeek(today) == Week(monday, monday + 6)
  {
  }
}
