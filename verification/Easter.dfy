/** Easter and the holidays that depend on it. */
module Easter {
  import opened CalDate
  import opened Computus

  /** The remainder that takes the sign of the dividend. */
  function Rem(a: int, b: int): int
    requires b > 0
  {
    if a >= 0 then a % b else -((-a) % b)
  }

  // The century constants M and N.
  function ConstM(year: int): int {
    if year < 1900 then 23 else 24
  }

  function ConstN(year: int): int {
    if year < 1800 then 3 else if year < 1900 then 4 else if year < 2100 then 5 else if year < 2200 then 6 else 5
  }

  /** The full moon's distance from 21 March. */
  function MoonD(year: int): int {
    Rem(19 * Rem(year, 19) + ConstM(year), 30)
  }

  /** The further distance to the Sunday behind it. */
  function SundayE(year: int): int {
    Rem(2 * Rem(year, 4) + 4 * Rem(year, 7) + 6 * MoonD(year) + ConstN(year), 7)
  }

  method CalcEastern(year: int) returns (month: int, day: int)
    ensures Date(year, month, day) == EasterOf(year)
    ensures year >= 0 ==> Valid(Date(year, month, day)) && OnOrBefore(3, 22, month, day) && OnOrBefore(month, day, 4, 25)
    ensures 1700 <= year < 2300 ==> (DayOfWeekOf(Date(year, month, day)) == 7 <==> year < 2200)
    ensures 1700 <= year < 2300 ==> 1 <= month <= 12 && (IsEaster(Date(year, month, day)) <==> year < 2200)
  {
    var a, d, e := Rem(year, 19), MoonD(year), SundayE(year);
    var dM, dA := 22 + d + e, d + e - 9;
    month, day := 3, dM;
    if dM > 31 {
      if dA == 26 {
        month, day := 4, 19;
      } else if dA == 25 && d == 28 && a > 10 {
        month, day := 4, 18;
      } else {
        month, day := 4, dA;
      }
    }
    EasterMeans(year, Date(year, month, day));
  }

  lemma EasterMeans(year: int, e: Date)
    requires e == EasterOf(year)
    ensures year >= 0 ==> Valid(e) && OnOrBefore(3, 22, e.month, e.day) && OnOrBefore(e.month, e.day, 4, 25)
    ensures 1700 <= year < 2300 ==> (DayOfWeekOf(e) == 7 <==> year < 2200)
    ensures 1700 <= year < 2300 ==> 1 <= e.month <= 12 && (IsEaster(e) <==> year < 2200)
  {
    if year >= 0 {
      EasterRange(year);
    }
    if 1700 <= year < 2300 {
      EasterIsSunday(year);
      EasterIsGregorian(year);
    }
  }

  /** Gauss's two exceptions take Easter back by a week. */
  function Late(year: int): int {
    var d, e := MoonD(year), SundayE(year);
    if d + e == 35 || (d + e == 34 && d == 28 && Rem(year, 19) > 10) then 7 else 0
  }

  /** 22 March plus both distances, one week earlier in the exceptions. */
  function EasterOf(year: int): Date {
    var march := 22 + MoonD(year) + SundayE(year) - Late(year);
    if march <= 31 then Date(year, 3, march) else Date(year, 4, march - 31)
  }

  lemma EasterRange(year: int)
    requires year >= 0
    ensures 0 <= MoonD(year) <= 29 && 0 <= SundayE(year) <= 6
    ensures Valid(EasterOf(year))
    ensures EasterOf(year).month == 3 ==> 22 <= EasterOf(year).day
    ensures EasterOf(year).month == 4 ==> EasterOf(year).day <= 25
  {
  }

  lemma SundaySum(year: int, c: int, yy: int, d: int, n: int, N: int) returns (k: int)
    requires year == 100 * c + yy && 0 <= yy < 100
    requires n == 2 * (year % 4) + 4 * (year % 7) + 6 * d + N
    ensures d + n - (N - yy - yy / 4 - 6 * c) == 7 * k
  {
    assert year / 4 == 25 * c + yy / 4;
    k := d + 58 * c + yy - yy / 4 - 4 * (year / 7);
  }

  lemma SundayRemainder(year: int, n: int)
    requires year >= 0 && n == 2 * (year % 4) + 4 * (year % 7) + 6 * MoonD(year) + ConstN(year)
    ensures n >= 0 && SundayE(year) == n % 7
  {
    EasterRange(year);
  }

  /** The Sunday distance, in terms of the year's place in its century. */
  lemma SundayCode(year: int, c: int, yy: int) returns (k: int)
    requires year == 100 * c + yy && 0 <= yy < 100 && year >= 0
    ensures MoonD(year) + SundayE(year) == ConstN(year) - yy - yy / 4 - 6 * c + 7 * k
  {
    var d, N := MoonD(year), ConstN(year);
    var n := 2 * (year % 4) + 4 * (year % 7) + 6 * d + N;
    SundayRemainder(year, n);
    k := SundaySum(year, c, yy, d, n, N);
    k := k - n / 7;
  }

  lemma SundayWhen(code: int, base: int, k: int)
    requires code == base + 7 * k
    ensures ToWeekday(code) == 7 <==> base % 7 == 0
  {
  }

  lemma CenturySunday(year: int, c: int)
    requires 1700 <= year < 2300 && c == year / 100
    ensures (24 + ConstN(year) - 6 * c + Century(year)) % 7 == 0 <==> year < 2200
  {
    assert c == 17 || c == 18 || c == 19 || c == 20 || c == 21 || c == 22;
  }

  /** The weekday sum of Easter, the day counted from 1 March: April's month code makes up for
      March's 31 days. */
  lemma EasterDayCode(year: int) returns (k: int)
    requires 1700 <= year < 2300
    ensures DayCode(EasterOf(year))
         == year % 100 + year % 100 / 4 + 24 + MoonD(year) + SundayE(year) + Century(year) + 7 * k
  {
    EasterRange(year);
    k := if EasterOf(year).month == 3 then 0 else -4;
    k := k - if Late(year) == 7 then 1 else 0;
  }

  /** From 1700 to 2299 CalcEastern gives a day that DayOfWeek calls a Sunday exactly before
      2200, where its table of century constants ends. */
  lemma EasterIsSunday(year: int)
    requires 1700 <= year < 2300
    ensures DayOfWeekOf(EasterOf(year)) == 7 <==> year < 2200
  {
    var c, yy := year / 100, year % 100;
    EasterRange(year);
    var k := EasterDayCode(year);
    var l := SundayCode(year, c, yy);
    CenturySunday(year, c);
    SundayWhen(DayCode(EasterOf(year)), 24 + ConstN(year) - 6 * c + Century(year), k + l);
  }

  lemma CenturyMoon(year: nat, c: nat)
    requires 1700 <= year < 2200 && c == year / 100
    ensures 15 + c - c / 4 - (8 * c + 13) / 25 == ConstM(year)
  {
    assert c == 17 || c == 18 || c == 19 || c == 20 || c == 21;
  }

  /** Gauss's distance, and his exceptions, are those of the calendar's moon. */
  lemma MoonIsCycle(year: nat)
    requires 1700 <= year < 2200
    ensures MoonD(year) == CycleMoon(year)
  {
    CenturyMoon(year, year / 100);
  }

  /** Easter falls on one of the seven days after the paschal full moon. */
  lemma EasterFollowsMoon(year: nat)
    requires 1700 <= year < 2200
    ensures var moon := GregorianOrdinal(Date(year, 3, 21)) + PaschalMoon(year);
            EasterOf(year).month in {3, 4} && moon < GregorianOrdinal(EasterOf(year)) <= moon + 7
  {
    EasterRange(year);
    MoonIsCycle(year);
  }

  /** CalcEastern gives the Gregorian Easter from 1700 to 2199, and in none of the hundred years
      after that. */
  lemma EasterIsGregorian(year: nat)
    requires 1700 <= year < 2300
    ensures 1 <= EasterOf(year).month <= 12 && (IsEaster(EasterOf(year)) <==> year < 2200)
  {
    EasterIsSunday(year);
    EasterRange(year);
    DayOfWeekIsGregorian(EasterOf(year));
    if year < 2200 {
      EasterFollowsMoon(year);
    }
  }
}
