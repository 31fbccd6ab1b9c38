/**
 * Calendar days. The source turns a date string into a `Date`, truncates it to local
 * midnight with `setHours(0, 0, 0, 0)` and compares it with today's midnight. Here the
 * parsing and the host's time zone are an oracle `dayOf` that gives the day number of a
 * date string, or nothing for a string that makes an Invalid Date.
 */
module Dates {
  import opened Wrappers

  datatype Clock = Clock(dayOf: string -> Option<int>, today: int)

  /**
   * The event's day lies strictly before today. An Invalid Date compares false against
   * any date, so an unparsable date never counts as passed.
   */
  predicate DatePassed(date: string, clock: Clock)
  {
    match clock.dayOf(date)
    case Some(day) => day < clock.today
    case None => false
  }
}
