/** Dates as the calendar computes with them. */
module CalDate {

  datatype Date = Date(year: int, month: int, day: int)

  /** The calendar's leap rule; it has no leap year at a turn of the century. */
  predicate LeapYear(year: int) {
    year % 4 == 0 && year % 100 != 0 && year % 400 != 0
  }

  /** The table monthdays. */
  function MonthDays(leap: bool, month: int): int
    requires 1 <= month <= 12
  {
    if month == 2 then (if leap then 29 else 28)
    else if month == 4 || month == 6 || month == 9 || month == 11 then 30
    else 31
  }

  /** The table __mon_yday: the days of the year before a month. */
  function DaysBefore(leap: bool, month: int): int
    requires 1 <= month <= 13
  {
    (match month
     case 1 => 0 case 2 => 31 case 3 => 59 case 4 => 90 case 5 => 120 case 6 => 151 case 7 => 181
     case 8 => 212 case 9 => 243 case 10 => 273 case 11 => 304 case 12 => 334 case _ => 365)
    + if leap && month > 2 then 1 else 0
  }

  /** The table monthcode. */
  function MonthCode(month: int): int
    requires 1 <= month <= 12
  {
    match month
    case 1 => 6 case 2 => 2 case 3 => 2 case 4 => 5 case 5 => 0 case 6 => 3
    case 7 => 5 case 8 => 1 case 9 => 4 case 10 => 6 case 11 => 2 case _ => 4
  }

  /** The order of two days within a year. */
  predicate OnOrBefore(m1: int, d1: int, m2: int, d2: int) {
    m1 < m2 || (m1 == m2 && d1 <= d2)
  }

  predicate ValidWith(leap: bool, d: Date) {
    1 <= d.month <= 12 && 1 <= d.day <= MonthDays(leap, d.month)
  }

  predicate Valid(d: Date) {
    ValidWith(LeapYear(d.year), d)
  }

  function YearLength(year: int): int {
    if LeapYear(year) then 366 else 365
  }

  /** Days from the start of year 0 to the start of a year, by the calendar's leap rule. */
  function YearStart(year: int): int
    decreases if year < 0 then -year else year
  {
    if year == 0 then 0
    else if year > 0 then YearStart(year - 1) + YearLength(year - 1)
    else YearStart(year + 1) - YearLength(year)
  }

  /** The number of a day, counted through all years. */
  function Ordinal(d: Date): int
    requires 1 <= d.month <= 12
  {
    YearStart(d.year) + DaysBefore(LeapYear(d.year), d.month) + d.day
  }

  lemma {:induction false} YearStartGrows(a: int, b: int)
    requires a < b
    ensures YearStart(a) + YearLength(a) <= YearStart(b)
    decreases b - a
  {
    assert YearStart(b) == YearStart(b - 1) + YearLength(b - 1);
    if a < b - 1 {
      YearStartGrows(a, b - 1);
    }
  }

  lemma OrdinalInYear(d: Date)
    requires Valid(d)
    ensures YearStart(d.year) < Ordinal(d) <= YearStart(d.year) + YearLength(d.year)
  {
  }

  /** The number of a day determines the date. */
  lemma OrdinalInjective(a: Date, b: Date)
    requires Valid(a) && Valid(b) && Ordinal(a) == Ordinal(b)
    ensures a == b
  {
    OrdinalInYear(a);
    OrdinalInYear(b);
    if a.year < b.year {
      YearStartGrows(a.year, b.year);
    } else if b.year < a.year {
      YearStartGrows(b.year, a.year);
    }
  }

  function NextMonth(year: int, month: int): Date
    requires 1 <= month <= 12
  {
    if month < 12 then Date(year, month + 1, 0) else Date(year + 1, 1, 0)
  }

  /** Day 0 of the next month is the last day of this one. */
  lemma MonthEnd(year: int, month: int)
    requires 1 <= month <= 12
    ensures Ordinal(NextMonth(year, month))
         == Ordinal(Date(year, month, 0)) + MonthDays(LeapYear(year), month)
  {
    assert YearStart(year + 1) == YearStart(year) + YearLength(year);
  }

  /** A day that does not fit into the month, carried into the next one. */
  lemma Carried(d: Date, days: int, r: Date)
    requires Valid(d) && 0 < days <= 28 && d.day + days > MonthDays(LeapYear(d.year), d.month)
    requires r == NextMonth(d.year, d.month).(day := d.day + days - MonthDays(LeapYear(d.year), d.month))
    ensures Valid(r) && Ordinal(r) == Ordinal(d) + days
  {
    MonthEnd(d.year, d.month);
  }

  function MonthBefore(year: int, month: int): Date
    requires 1 <= month <= 12
  {
    if month > 1 then Date(year, month - 1, 0) else Date(year - 1, 12, 0)
  }

  /** A day before the first of the month, counted back into the month before. Only February's
      length depends on the year, and going back into it does not change the year. */
  lemma Borrowed(d: Date, days: int, r: Date)
    requires Valid(d) && 0 < days <= 28 && d.day - days < 1
    requires var b := MonthBefore(d.year, d.month); r == b.(day := d.day - days + MonthDays(LeapYear(d.year), b.month))
    ensures Valid(r) && Ordinal(r) == Ordinal(d) - days
  {
    var b := MonthBefore(d.year, d.month);
    assert MonthDays(LeapYear(d.year), b.month) == MonthDays(LeapYear(b.year), b.month);
    MonthEnd(b.year, b.month);
  }

  /** Backwards, at most into the previous month. */
  method StepBack(d: Date, days: int) returns (r: Date)
    requires 1 <= d.month <= 12 && 0 < days <= 28
    ensures Valid(d) ==> Valid(r) && Ordinal(r) == Ordinal(d) - days
  {
    var day, month, year := d.day - days, d.month, d.year;
    if day < 1 {
      month := month - 1;
      if month < 1 {
        month := 12;
        year := year - 1;
      }
      day := day + MonthDays(LeapYear(d.year), month);
      if Valid(d) {
        Borrowed(d, days, Date(year, month, day));
      }
    }
    r := Date(year, month, day);
  }

  /** Forwards, at most into the next month. */
  method StepForward(d: Date, days: int) returns (r: Date)
    requires 1 <= d.month <= 12 && 0 < days <= 28
    ensures Valid(d) ==> Valid(r) && Ordinal(r) == Ordinal(d) + days
  {
    var day, month, year := d.day + days, d.month, d.year;
    if day > MonthDays(LeapYear(year), month) {
      day := day - MonthDays(LeapYear(year), month);
      month := month + 1;
      if month > 12 {
        month := 1;
        year := year + 1;
      }
      if Valid(d) {
        Carried(d, days, Date(year, month, day));
      }
    }
    r := Date(year, month, day);
  }

  /** AddDays: for at most 28 days either way the result is the valid date that many days on;
      larger steps are ignored. */
  method AddDays(d: Date, adddays: int) returns (r: Date)
    requires 1 <= d.month <= 12
    ensures adddays > 28 || adddays < -28 ==> r == d
    ensures -28 <= adddays <= 28 && Valid(d) ==> Valid(r) && Ordinal(r) == Ordinal(d) + adddays
  {
    r := d;
    if adddays > 28 || adddays < -28 {
      return;
    }
    if adddays < 0 {
      r := StepBack(d, -adddays);
    }
    if adddays > 0 {
      r := StepForward(d, adddays);
    }
  }

  /** What one call of AddDays did, a call with the opposite number of days undoes. */
  method ThereAndBack(d: Date, adddays: int) returns (r: Date)
    requires Valid(d)
    ensures r == d
  {
    r := AddDays(d, adddays);
    var there := r;
    r := AddDays(there, -adddays);
    if -28 <= adddays <= 28 {
      OrdinalInjective(r, d);
    }
  }

  // Weekdays, against the Gregorian calendar

  predicate GregorianLeap(year: int) {
    year % 4 == 0 && (year % 100 != 0 || year % 400 == 0)
  }

  /** Days before the start of a year in the Gregorian calendar. */
  function GregorianStart(year: int): int {
    365 * year + (year + 3) / 4 - (year + 99) / 100 + (year + 399) / 400
  }

  function GregorianOrdinal(d: Date): int
    requires 1 <= d.month <= 12
  {
    GregorianStart(d.year) + DaysBefore(GregorianLeap(d.year), d.month) + d.day
  }

  /** Monday is 1, Sunday is 7. Day 1 of the count is a Saturday. */
  function Weekday(ordinal: int): int {
    (ordinal + 4) % 7 + 1
  }

  function Century(year: int): int {
    if year < 1800 then 5 else if year < 1900 then 3 else if year < 2000 then 1
    else if year >= 2200 then -4 else if year >= 2100 then -2 else 0
  }

  /** The sum that DayOfWeek reduces to a weekday. */
  function DayCode(d: Date): int
    requires 1 <= d.month <= 12
  {
    d.year % 100 + d.year % 100 / 4 + MonthCode(d.month) + d.day
      - (if LeapYear(d.year) && d.month < 3 then 1 else 0) + Century(d.year)
  }

  function ToWeekday(code: int): (w: int)
    ensures 1 <= w <= 7
  {
    (code - 1) % 7 + 1
  }

  function DayOfWeekOf(d: Date): (w: int)
    requires 1 <= d.month <= 12
    ensures 1 <= w <= 7
  {
    if d.year < 1700 || d.year >= 2300 then 1 else ToWeekday(DayCode(d))
  }

  method Reduce(code: int) returns (w: int)
    ensures w == ToWeekday(code)
  {
    w := code;
    ghost var k := 0;
    while w < 1
      invariant w == code + 7 * k && (w <= 7 || w == code)
    {
      w, k := w + 7, k + 1;
    }
    while w > 7
      invariant w == code + 7 * k && w >= 1
    {
      w, k := w - 7, k - 1;
    }
  }

  method DayOfWeek(d: Date) returns (w: int)
    requires 1 <= d.month <= 12
    ensures w == DayOfWeekOf(d)
    ensures 1700 <= d.year < 2300 ==>
              (w == Weekday(GregorianOrdinal(d)) <==> !(d.year == 2000 && d.month < 3))
  {
    w := 1;
    if 1700 <= d.year < 2300 {
      w := Reduce(DayCode(d));
      DayOfWeekIsGregorian(d);
    }
  }

  lemma YearParts(year: int, c: int, yy: int)
    requires year == 100 * c + yy && 0 <= yy < 100
    ensures (year + 3) / 4 == 25 * c + yy / 4 + if yy % 4 == 0 then 0 else 1
    ensures (year + 99) / 100 == c + if yy > 0 then 1 else 0
    ensures (year + 399) / 400 == (c + 3) / 4 + if c % 4 == 0 && yy > 0 then 1 else 0
    ensures year % 4 == yy % 4 && (year % 400 == 0 <==> c % 4 == 0 && yy == 0)
  {
  }

  /** The year's part of the weekday sum agrees with the count of Gregorian days. */
  lemma YearCode(year: int)
    requires 1700 <= year < 2300
    ensures (GregorianStart(year) + (if GregorianLeap(year) then 1 else 0)
             - (year % 100 + year % 100 / 4 + Century(year) + 1)) % 7 == 0
  {
    var c, yy := year / 100, year % 100;
    YearParts(year, c, yy);
    assert c == 17 || c == 18 || c == 19 || c == 20 || c == 21 || c == 22;
  }

  lemma MonthCodes(month: int)
    requires 1 <= month <= 12
    ensures (MonthCode(month) - DaysBefore(false, month) - 6) % 7 == 0
  {
  }

  lemma Mod7Equal(a: int, b: int, x: int, y: int)
    requires a - b == y - x && x % 7 == 0 && y % 7 == 0
    ensures a % 7 == b % 7
  {
  }

  /** From 1700 to 2299 DayOfWeek gives the Gregorian weekday of every date, but for January
      and February 2000, where its leap rule has it one day off. */
  lemma DayOfWeekIsGregorian(d: Date)
    requires 1700 <= d.year < 2300 && 1 <= d.month <= 12
    ensures DayOfWeekOf(d) == Weekday(GregorianOrdinal(d)) <==> !(d.year == 2000 && d.month < 3)
  {
    var y, m := d.year, d.month;
    var off := if y == 2000 && m < 3 then 1 else 0;
    YearCode(y);
    MonthCodes(m);
    assert GregorianLeap(y) == (LeapYear(y) || y == 2000);
    Mod7Equal(DayCode(d) - 1, GregorianOrdinal(d) + 4 + off,
              GregorianStart(y) + (if GregorianLeap(y) then 1 else 0) - (y % 100 + y % 100 / 4 + Century(y) + 1),
              MonthCode(m) - DaysBefore(false, m) - 6);
  }
}
