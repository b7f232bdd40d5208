/** Week numbers, against ISO 8601. */
module Weeks {
  import opened CalDate

  function DayOfYear(leap: bool, d: Date): int
    requires 1 <= d.month <= 12
  {
    DaysBefore(leap, d.month) + d.day
  }

  /** ISO 8601: a week is counted in the year its Thursday lies in. */
  function IsoWeek(d: Date): int
    requires 1 <= d.month <= 12
  {
    IsoFrom(GregorianOrdinal(d), GregorianStart(d.year - 1), GregorianStart(d.year), GregorianStart(d.year + 1))
  }

  /** For a day between the starts of a year and the next one. */
  function IsoFrom(ordinal: int, before: int, start: int, next: int): int {
    var thursday := ordinal - Weekday(ordinal) + 4;
    var first := if thursday <= start then before else if thursday > next then next else start;
    (thursday - first - 1) / 7 + 1
  }

  /** The same, for day n of a year of so many days that begins on weekday w, the year before
      having so many days. */
  function IsoWeekIn(n: int, length: int, before: int, w: int): int {
    var thursday := n - ((n + w - 2) % 7 + 1) + 4;
    (if thursday <= 0 then thursday + before - 1 else if thursday > length then thursday - length - 1 else thursday - 1) / 7 + 1
  }

  /** A year that begins on a Thursday, or a leap year on a Wednesday, has 53 weeks. */
  predicate Long(weekday: int, leap: bool) {
    weekday == 4 || (leap && weekday == 3)
  }

  /** What WeekNumber makes of the days since the Monday of week 1. */
  function WeekFrom(days: int, long: bool, longBefore: bool): int {
    if days < 0 then (if longBefore then 53 else 52)
    else if days > 360 && days / 7 + 1 > 52 then (if long then 53 else 1)
    else days / 7 + 1
  }

  function WeekNumberOf(d: Date): int
    requires 1 <= d.month <= 12
  {
    var days := DayOfYear(LeapYear(d.year), d) + DayOfWeekOf(Date(d.year, 1, 4)) - 4 - 1;
    WeekFrom(days, Long(DayOfWeekOf(Date(d.year, 1, 1)), LeapYear(d.year)),
             Long(DayOfWeekOf(Date(d.year - 1, 1, 1)), LeapYear(d.year - 1)))
  }

  method WeekNumber(d: Date) returns (week: int)
    requires 1 <= d.month <= 12
    ensures week == WeekNumberOf(d)
    ensures RealDate(d) ==> (week == IsoWeek(d) <==> !WrongWeek(d))
  {
    week := CountWeek(d);
    if RealDate(d) {
      WeekNumberIsIso(d);
    }
  }

  method CountWeek(d: Date) returns (week: int)
    requires 1 <= d.month <= 12
    ensures week == WeekNumberOf(d)
  {
    var dow := DayOfWeek(Date(d.year, 1, 4));
    var days := DayOfYear(LeapYear(d.year), d);
    var offset := dow - 4;
    days := days + offset - 1;
    if days < 0 {
      var iWD := DayOfWeek(Date(d.year - 1, 1, 1));
      week := if iWD == 4 || (LeapYear(d.year - 1) && iWD == 3) then 53 else 52;
    } else {
      week := days / 7 + 1;
    }
    if days > 360 && week > 52 {
      var iWD := DayOfWeek(Date(d.year, 1, 1));
      week := if iWD == 4 || (LeapYear(d.year) && iWD == 3) then 53 else 1;
    }
  }

  /** The weekday so many days on. */
  function Later(w: int, days: int): int {
    (w - 1 + days) % 7 + 1
  }

  function Length(leap: bool): int {
    if leap then 366 else 365
  }

  /** A year that begins by Thursday: its first week is week 1. */
  lemma EarlyYear(n: int, leap: bool, length: int, before: int, w: int, longBefore: bool)
    requires length == Length(leap) && 1 <= n <= length && 1 <= w <= 4
    ensures WeekFrom(n + w - 2, Long(w, leap), longBefore) == IsoWeekIn(n, length, before, w)
  {
  }

  /** A year that begins later: its first days belong to the last week of the year before. */
  lemma LateYear(n: int, leap: bool, leapBefore: bool, length: int, before: int, w: int, wb: int)
    requires length == Length(leap) && before == Length(leapBefore)
    requires 1 <= n <= length && 5 <= w <= 7 && 1 <= wb <= 7 && w == Later(wb, before)
    ensures WeekFrom(n + w - 9, Long(w, leap), Long(wb, leapBefore)) == IsoWeekIn(n, length, before, w)
  {
  }

  lemma LaterIs(w: int)
    requires 1 <= w <= 7
    ensures Later(w, 3) == if w <= 4 then w + 3 else w - 4
  {
  }

  /** Counting from the Monday of week 1 agrees with counting Thursdays. */
  lemma WeekFromIsIso(n: int, days: int, leap: bool, leapBefore: bool, length: int, before: int, w: int, wb: int)
    requires length == Length(leap) && before == Length(leapBefore)
    requires 1 <= n <= length && 1 <= wb <= 7 && w == Later(wb, before) && days == n + Later(w, 3) - 5
    ensures WeekFrom(days, Long(w, leap), Long(wb, leapBefore)) == IsoWeekIn(n, length, before, w)
  {
    LaterIs(w);
    if w <= 4 {
      EarlyYear(n, leap, length, before, w, Long(wb, leapBefore));
    } else {
      LateYear(n, leap, leapBefore, length, before, w, wb);
    }
  }

  predicate RealDate(d: Date) {
    1700 <= d.year < 2300 && ValidWith(GregorianLeap(d.year), d)
  }

  lemma IsoFromIs(ordinal: int, before: int, start: int, next: int, n: int, length: int, yearBefore: int, w: int)
    requires ordinal == start + n && next == start + length && before == start - yearBefore && w == Weekday(start + 1)
    ensures IsoFrom(ordinal, before, start, next) == IsoWeekIn(n, length, yearBefore, w)
  {
    WeekdayLater(start, n);
  }

  lemma IsoWeekByYear(d: Date, start: int, n: int, length: int, before: int, w: int)
    requires RealDate(d) && start == GregorianStart(d.year) && n == DayOfYear(GregorianLeap(d.year), d)
    requires length == Length(GregorianLeap(d.year)) && before == Length(GregorianLeap(d.year - 1))
    requires w == Weekday(start + 1)
    ensures IsoWeek(d) == IsoWeekIn(n, length, before, w)
  {
    YearAfter(d.year - 1);
    YearAfter(d.year);
    IsoFromIs(GregorianOrdinal(d), GregorianStart(d.year - 1), start, GregorianStart(d.year + 1), n, length, before, w);
  }

  lemma YearAfter(year: int)
    requires 1600 <= year
    ensures GregorianStart(year + 1) == GregorianStart(year) + Length(GregorianLeap(year))
  {
    YearParts(year, year / 100, year % 100);
    YearParts(year + 1, (year + 1) / 100, (year + 1) % 100);
  }

  lemma WeekdayLater(start: int, n: int)
    ensures Weekday(start + n) == (n + Weekday(start + 1) - 2) % 7 + 1
    ensures Weekday(start + 1 + n) == Later(Weekday(start + 1), n)
  {
  }

  /** The dates on which WeekNumber errs: the Sundays of January and February 2000, and the first
      three days of 1700, for which it needs a weekday of 1699. */
  predicate WrongWeek(d: Date)
    requires 1 <= d.month <= 12
  {
    || (d.year == 2000 && d.month < 3 && Weekday(GregorianOrdinal(d)) == 7)
    || (d.year == 1700 && d.month == 1 && d.day <= 3)
  }

  lemma GregorianDow(y: int, day: int, ordinal: int)
    requires 1700 <= y < 2300 && y != 2000 && ordinal == GregorianStart(y) + day
    ensures DayOfWeekOf(Date(y, 1, day)) == Weekday(ordinal)
  {
    DayOfWeekIsGregorian(Date(y, 1, day));
    assert GregorianOrdinal(Date(y, 1, day)) == ordinal;
  }

  /** What WeekNumber computes from, in most years. */
  ghost predicate Asked(d: Date, start: int, n: int, days: int, w: int, wb: int)
    requires 1 <= d.month <= 12
  {
    && start == GregorianStart(d.year) && n == DayOfYear(LeapYear(d.year), d)
    && w == Weekday(start + 1) && 1 <= wb <= 7 && w == Later(wb, Length(LeapYear(d.year - 1)))
    && days == n + Later(w, 3) - 5
  }

  lemma YearBegins(y: int) returns (start: int, w: int, wb: int)
    requires 1700 < y < 2300 && y != 2000 && y != 2001
    ensures start == GregorianStart(y) && w == Weekday(start + 1) && w == DayOfWeekOf(Date(y, 1, 1))
    ensures 1 <= wb <= 7 && wb == DayOfWeekOf(Date(y - 1, 1, 1)) && w == Later(wb, Length(LeapYear(y - 1)))
  {
    start := GregorianStart(y);
    var before := GregorianStart(y - 1);
    w, wb := Weekday(start + 1), Weekday(before + 1);
    YearAfter(y - 1);
    GregorianDow(y, 1, start + 1);
    GregorianDow(y - 1, 1, before + 1);
    WeekdayLater(before, start - before);
  }

  lemma FourthOfJanuary(y: int, start: int, w: int)
    requires 1700 < y < 2300 && y != 2000 && start == GregorianStart(y) && w == Weekday(start + 1)
    ensures DayOfWeekOf(Date(y, 1, 4)) == Later(w, 3)
  {
    GregorianDow(y, 4, start + 4);
    WeekdayLater(start, 3);
  }

  lemma OrdinaryNumber(d: Date) returns (start: int, n: int, days: int, w: int, wb: int)
    requires RealDate(d) && d.year != 2000 && d.year != 2001 && d.year != 1700
    ensures Asked(d, start, n, days, w, wb)
    ensures WeekNumberOf(d) == WeekFrom(days, Long(w, LeapYear(d.year)), Long(wb, LeapYear(d.year - 1)))
  {
    start, w, wb := YearBegins(d.year);
    FourthOfJanuary(d.year, start, w);
    n := DayOfYear(LeapYear(d.year), d);
    days := n + Later(w, 3) - 5;
    WeekNumberIs(d, days, w, wb);
  }

  lemma OrdinaryIso(d: Date, start: int, n: int, days: int, w: int, wb: int)
    requires RealDate(d) && d.year != 2000 && d.year != 2001 && d.year != 1700
    requires Asked(d, start, n, days, w, wb)
    ensures IsoWeek(d) == WeekFrom(days, Long(w, LeapYear(d.year)), Long(wb, LeapYear(d.year - 1)))
  {
    var leap, leapBefore := LeapYear(d.year), LeapYear(d.year - 1);
    IsoWeekByYear(d, start, n, Length(leap), Length(leapBefore), w);
    WeekFromIsIso(n, days, leap, leapBefore, Length(leap), Length(leapBefore), w, wb);
  }

  lemma WeekNumberIs(d: Date, days: int, w: int, wb: int)
    requires 1 <= d.month <= 12
    requires days == DayOfYear(LeapYear(d.year), d) + DayOfWeekOf(Date(d.year, 1, 4)) - 5
    requires w == DayOfWeekOf(Date(d.year, 1, 1)) && wb == DayOfWeekOf(Date(d.year - 1, 1, 1))
    ensures WeekNumberOf(d) == WeekFrom(days, Long(w, LeapYear(d.year)), Long(wb, LeapYear(d.year - 1)))
  {
  }

  lemma OrdinaryYear(d: Date)
    requires RealDate(d) && d.year != 2000 && d.year != 2001 && d.year != 1700
    ensures WeekNumberOf(d) == IsoWeek(d)
  {
    var start, n, days, w, wb := OrdinaryNumber(d);
    OrdinaryIso(d, start, n, days, w, wb);
  }

  lemma Weeks1700(n: int)
    requires 1 <= n <= 365
    ensures WeekFrom(n - 4, false, false) == IsoWeekIn(n, 365, 365, 5) <==> n > 3
  {
  }

  lemma Weeks2000(n: int)
    requires 1 <= n <= 366
    ensures n <= 60 ==> (WeekFrom(n - 2, false, false) == IsoWeekIn(n, 366, 365, 6) <==> (n + 4) % 7 + 1 != 7)
    ensures n > 60 ==> WeekFrom(n - 3, false, false) == IsoWeekIn(n, 366, 365, 6)
  {
  }

  lemma Starts()
    ensures Weekday(GregorianStart(1700) + 1) == 5 && Weekday(GregorianStart(2000) + 1) == 6
    ensures DayOfWeekOf(Date(1700, 1, 4)) == 1 && DayOfWeekOf(Date(1700, 1, 1)) == 5 && DayOfWeekOf(Date(1699, 1, 1)) == 1
    ensures DayOfWeekOf(Date(2000, 1, 4)) == 3 && DayOfWeekOf(Date(2000, 1, 1)) == 7 && DayOfWeekOf(Date(1999, 1, 1)) == 5
  {
  }

  lemma Year1700(d: Date)
    requires RealDate(d) && d.year == 1700
    ensures WeekNumberOf(d) == IsoWeek(d) <==> !WrongWeek(d)
  {
    var n := DayOfYear(false, d);
    Starts();
    IsoWeekByYear(d, GregorianStart(1700), n, 365, 365, 5);
    WeekNumberIs(d, n - 4, 5, 1);
    Weeks1700(n);
  }

  lemma Year2000(d: Date)
    requires RealDate(d) && d.year == 2000
    ensures WeekNumberOf(d) == IsoWeek(d) <==> !WrongWeek(d)
  {
    var n := DayOfYear(true, d);
    Starts();
    IsoWeekByYear(d, GregorianStart(2000), n, 366, 365, 6);
    WeekNumberIs(d, DayOfYear(false, d) - 2, 7, 5);
    Weeks2000(n);
    WeekdayIn2000(d, n);
  }

  lemma WeekdayIn2000(d: Date, n: int)
    requires RealDate(d) && d.year == 2000 && n == DayOfYear(true, d)
    ensures Weekday(GregorianOrdinal(d)) == (n + 4) % 7 + 1
  {
    Starts();
    WeekdayLater(GregorianStart(2000), n);
  }

  lemma Weeks2001(n: int)
    requires 1 <= n <= 365
    ensures WeekFrom(n - 1, false, false) == IsoWeekIn(n, 365, 366, 1)
    ensures WeekFrom(n - 1, false, false) == WeekFrom(n - 1, false, true)
  {
  }

  lemma Year2001(d: Date)
    requires RealDate(d) && d.year == 2001
    ensures WeekNumberOf(d) == IsoWeek(d)
  {
    var n := DayOfYear(false, d);
    Starts2001();
    IsoWeekByYear(d, GregorianStart(2001), n, 365, 366, 1);
    WeekNumberIs(d, n - 1, 1, 7);
    Weeks2001(n);
  }

  lemma Starts2001()
    ensures Weekday(GregorianStart(2001) + 1) == 1
    ensures DayOfWeekOf(Date(2001, 1, 4)) == 4 && DayOfWeekOf(Date(2001, 1, 1)) == 1 && DayOfWeekOf(Date(2000, 1, 1)) == 7
  {
  }

  /** From 1700 to 2299 WeekNumber gives the ISO week of a date exactly on all other dates. */
  lemma WeekNumberIsIso(d: Date)
    requires RealDate(d)
    ensures WeekNumberOf(d) == IsoWeek(d) <==> !WrongWeek(d)
  {
    if d.year == 1700 {
      Year1700(d);
    } else if d.year == 2000 {
      Year2000(d);
    } else if d.year == 2001 {
      Year2001(d);
    } else {
      OrdinaryYear(d);
    }
  }
}
