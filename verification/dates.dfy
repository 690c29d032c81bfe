/** Calendar dates as held by the `laid_date` column: a day with no time of day.
    The textual 'YYYY-MM-DD' form and its parsing by the database are not modelled;
    a date is a (year, month, day) triple compared lexicographically. */
module Dates {

  datatype Date = Date(year: int, month: int, day: int)

  /** Strict chronological order. */
  predicate Before(a: Date, b: Date)
  {
    || a.year < b.year
    || (a.year == b.year && a.month < b.month)
    || (a.year == b.year && a.month == b.month && a.day < b.day)
  }

  /** `Before` is a strict total order, which is what `ORDER BY laid_date` relies on. */
  lemma BeforeIsStrictTotalOrder(a: Date, b: Date, c: Date)
    ensures !Before(a, a)
    ensures Before(a, b) ==> !Before(b, a)
    ensures Before(a, b) && Before(b, c) ==> Before(a, c)
    ensures a != b ==> Before(a, b) || Before(b, a)
  {
  }
}
