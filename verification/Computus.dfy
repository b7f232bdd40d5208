/** The date of Easter in the Gregorian calendar, by golden number and epact. */
module Computus {
  import opened CalDate

  /** The calendar's full moon after the equinox, in days from 21 March, before the exceptions: the
      moon's 19-year cycle, with the solar and the lunar correction of the century. */
  function CycleMoon(year: nat): (n: nat)
    ensures n < 30
  {
    var c := year / 100;
    (19 * (year % 19) + 15 + c - c / 4 - (8 * c + 13) / 25) % 30
  }

  /** The exceptions keep Easter within April 25, and the moons of a cycle apart. */
  function PaschalMoon(year: nat): (n: nat)
    ensures n < 29
  {
    var n := CycleMoon(year);
    if n == 29 || (n == 28 && year % 19 > 10) then n - 1 else n
  }

  /** The Sunday after the paschal full moon. */
  predicate IsEaster(d: Date)
    requires d.year >= 0 && 1 <= d.month <= 12
  {
    var moon := GregorianOrdinal(Date(d.year, 3, 21)) + PaschalMoon(d.year);
    && ValidWith(GregorianLeap(d.year), d)
    && Weekday(GregorianOrdinal(d)) == 7 && moon < GregorianOrdinal(d) <= moon + 7
  }

  lemma OneSunday(a: int, b: int, moon: int)
    requires Weekday(a) == 7 && Weekday(b) == 7 && moon < a <= moon + 7 && moon < b <= moon + 7
    ensures a == b
  {
  }

  /** A year has only one Easter. */
  lemma OneEaster(d: Date, e: Date)
    requires d.year == e.year >= 0 && 1 <= d.month <= 12 && 1 <= e.month <= 12 && IsEaster(d) && IsEaster(e)
    ensures d == e
  {
    OneSunday(GregorianOrdinal(d), GregorianOrdinal(e), GregorianOrdinal(Date(d.year, 3, 21)) + PaschalMoon(d.year));
  }
}
