/** Calendar days of the family as numbers in order: day 0 is 1 January 2000, a Saturday. */
module Days {
  type Day = int

  /** The empty date text, which sorts before every day. */
  const NO_DAY: Day := -1

  /** The last day of 2100. */
  const LAST_DAY: Day := 36889

  /** A date text that names a day of the years 2000 to 2100. */
  predicate ValidDay(d: Day) {
    0 <= d <= LAST_DAY
  }

  /** Sunday is 0. */
  function Weekday(d: Day): nat {
    (d + 6) % 7
  }

  datatype Error = Accepted | InvalidInput | Conflict | Forbidden | NotFound | Failed

  datatype Option<+T> = None | Some(value: T)
}
