/**
 * Dates as the clear-sky-observation engine sees them, and the calendar
 * primitives it calls (first day of a month, day-of-year of a day number).
 * The primitives are external to the engine, so they are supplied by the
 * caller as function values inside a `Cal`; the engine only relies on the
 * properties stated by `Increasing` and `DoysCovered`.
 */
module Calendar {

  /** A date: continuous day number `ce` and day-of-year `doy`. */
  datatype Date = Date(ce: int, doy: int)

  /**
   * `firstOfMonth(y, m)` is the day number of the first of month `m` of year
   * `y` (set_date(y, m, 1)); `doyOf(ce)` is the day-of-year of day `ce`
   * (the day-of-year that set_date_ce stores).
   */
  datatype Cal = Cal(firstOfMonth: (int, int) -> int, doyOf: int -> int)

  /** Months counted from January of year 0. */
  function MonthIndex(year: int, month: int): int
  {
    year * 12 + (month - 1)
  }

  /** (y1, m1) comes strictly before (y2, m2) in (year, month) order. */
  predicate LexBefore(y1: int, m1: int, y2: int, m2: int)
  {
    y1 < y2 || (y1 == y2 && m1 < m2)
  }

  /** For months in 1..12, (year, month) order is month-index order. */
  lemma LexBeforeIndex(y1: int, m1: int, y2: int, m2: int)
    requires 1 <= m1 <= 12 && 1 <= m2 <= 12
    ensures LexBefore(y1, m1, y2, m2) <==> MonthIndex(y1, m1) < MonthIndex(y2, m2)
  {
    if y1 < y2 {
      assert (y2 - y1) * 12 >= 12;
    } else if y1 > y2 {
      assert (y1 - y2) * 12 >= 12;
    }
  }

  /** A later month starts on a later day. */
  ghost predicate Increasing(cal: Cal)
  {
    forall y1, m1, y2, m2 ::
      1 <= m1 <= 12 && 1 <= m2 <= 12 && MonthIndex(y1, m1) < MonthIndex(y2, m2) ==>
        cal.firstOfMonth(y1, m1) < cal.firstOfMonth(y2, m2)
  }

  /** Every day-of-year the calendar produces indexes the day-of-year mask. */
  ghost predicate DoysCovered(cal: Cal, doys: seq<bool>)
  {
    forall c :: 0 <= cal.doyOf(c) < |doys|
  }

  /** The date carries the day-of-year the calendar gives its day number. */
  predicate Consistent(cal: Cal, d: Date)
  {
    d.doy == cal.doyOf(d.ce)
  }

  /** set_date(year, month, 1). */
  function SetDate(cal: Cal, year: int, month: int): (d: Date)
    ensures Consistent(cal, d) && d.ce == cal.firstOfMonth(year, month)
  {
    var ce := cal.firstOfMonth(year, month);
    Date(ce, cal.doyOf(ce))
  }

  /** set_date_ce(ce). */
  function SetDateCe(cal: Cal, ce: int): (d: Date)
    ensures Consistent(cal, d) && d.ce == ce
  {
    Date(ce, cal.doyOf(ce))
  }

  /** The first day of the month with month index `i`. */
  function MonthStart(cal: Cal, i: int): (d: Date)
    ensures Consistent(cal, d) && d.ce == cal.firstOfMonth(i / 12, i % 12 + 1)
    ensures 1 <= i % 12 + 1 <= 12
    ensures MonthIndex(i / 12, i % 12 + 1) == i
  {
    SetDate(cal, i / 12, i % 12 + 1)
  }

  /** A (year, month) pair with month in 1..12 is recovered from its month index. */
  lemma IndexSplit(year: int, month: int)
    requires 1 <= month <= 12
    ensures MonthIndex(year, month) / 12 == year
    ensures MonthIndex(year, month) % 12 + 1 == month
  {
  }

  /** Under an increasing calendar, month starts are strictly ordered by month index. */
  lemma MonthStartOrdered(cal: Cal, i: int, j: int)
    requires Increasing(cal)
    requires i < j
    ensures MonthStart(cal, i).ce < MonthStart(cal, j).ce
  {
    assert MonthIndex(i / 12, i % 12 + 1) < MonthIndex(j / 12, j % 12 + 1);
  }
}
