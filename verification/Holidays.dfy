/** The holidays of a year. */
module Holidays {
  import opened CalDate
  import opened Easter
  import opened Events

  // Places in the table of variable days; each is one less than the source's offset.
  const EASTER := 0
  const EASTER_MONDAY := 1
  const ASCENSION := 2
  const WHITSUN := 3
  const WHIT_MONDAY := 4
  const CORPUS_CHRISTI := 5
  const ASH_WEDNESDAY := 6
  const MOTHERS_DAY := 7
  const SUMMER_TIME := 8
  const WINTER_TIME := 9
  const ROSE_MONDAY := 20
  const MAUNDY_THURSDAY := 21
  const GOOD_FRIDAY := 22

  /** The days that move with Easter. */
  predicate Moves(i: nat) {
    i <= ASH_WEDNESDAY || ROSE_MONDAY <= i <= GOOD_FRIDAY
  }

  /** How many days after Easter such a day is. */
  function AfterEaster(i: nat): int {
    match i
    case 0 => 0 case 1 => 1 case 2 => 39 case 3 => 49 case 4 => 50 case 5 => 60
    case 6 => -46 case 20 => -48 case 21 => -3 case _ => -2
  }

  predicate OnSunday(i: nat) {
    MOTHERS_DAY <= i <= WINTER_TIME
  }

  predicate Fixed(i: nat) {
    10 <= i < NOF_VDAYS && !Moves(i)
  }

  function FixedDay(i: nat): VariableDay {
    match i
    case 10 => VariableDay(12, 24) case 11 => VariableDay(12, 25) case 12 => VariableDay(12, 26)
    case 13 => VariableDay(1, 6) case 14 => VariableDay(1, 1) case 15 => VariableDay(12, 31)
    case 16 => VariableDay(2, 14) case 17 => VariableDay(5, 1) case 18 => VariableDay(8, 15)
    case 19 => VariableDay(12, 6) case 23 => VariableDay(10, 3) case _ => VariableDay(10, 26)
  }

  function InYear(v: VariableDay, year: int): Date {
    Date(year, v.mon, v.day)
  }

  /** v is the date so many days after Easter. */
  predicate DaysAfterEaster(v: VariableDay, year: int, days: int) {
    Valid(InYear(v, year)) && Ordinal(InYear(v, year)) == Ordinal(EasterOf(year)) + days
  }

  predicate Sunday(d: Date) {
    Valid(d) && (1700 <= d.year < 2300 ==> DayOfWeekOf(d) == 7)
  }

  /** The second Sunday in May, the last Sunday in March and the last in October. */
  predicate TheSunday(i: nat, v: VariableDay, year: int) {
    && Sunday(InYear(v, year))
    && match i
       case 7 => v.mon == 5 && 8 <= v.day <= 14
       case 8 => v.mon == 3 && 25 <= v.day <= 31
       case _ => v.mon == 10 && 25 <= v.day <= 31
  }

  predicate RightDay(i: nat, v: VariableDay, year: int) {
    if Moves(i) then DaysAfterEaster(v, year, AfterEaster(i))
    else if OnSunday(i) then TheSunday(i, v, year)
    else v == FixedDay(i)
  }

  /** All the holidays of the year. */
  predicate HolidaysOf(v: seq<VariableDay>, year: int) {
    |v| == NOF_VDAYS && forall i :: 0 <= i < NOF_VDAYS ==> RightDay(i, v[i], year)
  }

  /** Near Easter the year stays the same. */
  lemma SameYear(d: Date, year: int, days: int)
    requires year >= 0 && Valid(d) && -48 <= days <= 60
    requires Ordinal(d) == Ordinal(EasterOf(year)) + days
    ensures d.year == year
  {
    EasterRange(year);
    OrdinalInYear(d);
    if d.year < year {
      YearStartGrows(d.year, year);
    } else if d.year > year {
      YearStartGrows(year, d.year);
    }
  }

  /** A step of AddDays from a day near Easter. */
  method FromEaster(v: VariableDay, year: int, ghost days: int, step: int) returns (w: VariableDay)
    requires year >= 0 && DaysAfterEaster(v, year, days)
    requires -28 <= step <= 28 && -48 <= days + step <= 60
    ensures DaysAfterEaster(w, year, days + step)
  {
    var d := AddDays(InYear(v, year), step);
    SameYear(d, year, days + step);
    w := VariableDay(d.month, d.day);
  }

  /** Going back from a day by its weekday, or on to the second Sunday, from the first of a month. */
  lemma ToSunday(code: int, w: int)
    requires w == ToWeekday(code)
    ensures ToWeekday(code - w) == 7 && ToWeekday(code + 14 - w) == 7 && (w == 7 ==> ToWeekday(code) == 7)
  {
  }

  lemma MovedCode(d: Date, s: Date)
    requires 1 <= d.month <= 12 && s == d.(day := s.day)
    ensures DayCode(s) == DayCode(d) + s.day - d.day
  {
  }

  method MothersDay(year: int) returns (v: VariableDay)
    ensures TheSunday(MOTHERS_DAY, v, year)
  {
    var w := DayOfWeek(Date(year, 5, 1));
    v := VariableDay(5, 15 - w);
    if 1700 <= year < 2300 {
      ToSunday(DayCode(Date(year, 5, 1)), w);
      MovedCode(Date(year, 5, 1), InYear(v, year));
    }
  }

  method LastSunday(year: int, mon: int) returns (v: VariableDay)
    requires mon == 3 || mon == 10
    ensures TheSunday(if mon == 3 then SUMMER_TIME else WINTER_TIME, v, year)
  {
    var w := DayOfWeek(Date(year, mon, 31));
    v := VariableDay(mon, if w != 7 then 31 - w else 31);
    if 1700 <= year < 2300 {
      ToSunday(DayCode(Date(year, mon, 31)), w);
      MovedCode(Date(year, mon, 31), InYear(v, year));
    }
  }

  method FillMoving(table: array<VariableDay>, year: int)
    requires table.Length == NOF_VDAYS && year >= 0
    modifies table
    ensures forall i :: 0 <= i < NOF_VDAYS && Moves(i) ==> DaysAfterEaster(table[i], year, AfterEaster(i))
  {
    var mon, day := CalcEastern(year);
    var easter := VariableDay(mon, day);
    EasterRange(year);
    table[EASTER] := easter;
    var next := FromEaster(easter, year, 0, 1);
    table[EASTER_MONDAY] := next;
    next := FromEaster(next, year, 1, 19);
    next := FromEaster(next, year, 20, 19);
    table[ASCENSION] := next;
    next := FromEaster(next, year, 39, 10);
    table[WHITSUN] := next;
    next := FromEaster(next, year, 49, 1);
    table[WHIT_MONDAY] := next;
    next := FromEaster(next, year, 50, 10);
    table[CORPUS_CHRISTI] := next;
    FillBefore(table, easter, year);
  }

  /** The days before Easter. */
  method FillBefore(table: array<VariableDay>, easter: VariableDay, year: int)
    requires table.Length == NOF_VDAYS && year >= 0 && DaysAfterEaster(easter, year, 0)
    modifies table
    ensures forall i :: 0 <= i < ASH_WEDNESDAY ==> table[i] == old(table[i])
    ensures forall i :: 0 <= i < NOF_VDAYS && Moves(i) && i >= ASH_WEDNESDAY ==>
              DaysAfterEaster(table[i], year, AfterEaster(i))
  {
    var next := FromEaster(easter, year, 0, -2);
    table[GOOD_FRIDAY] := next;
    next := FromEaster(next, year, -2, -1);
    table[MAUNDY_THURSDAY] := next;
    next := FromEaster(next, year, -3, -23);
    next := FromEaster(next, year, -26, -20);
    table[ASH_WEDNESDAY] := next;
    next := FromEaster(next, year, -46, -2);
    table[ROSE_MONDAY] := next;
  }

  method FillSundays(table: array<VariableDay>, year: int)
    requires table.Length == NOF_VDAYS
    modifies table
    ensures forall i :: 0 <= i < NOF_VDAYS ==>
              if OnSunday(i) then TheSunday(i, table[i], year) else table[i] == old(table[i])
  {
    var v := MothersDay(year);
    table[MOTHERS_DAY] := v;
    v := LastSunday(year, 3);
    table[SUMMER_TIME] := v;
    v := LastSunday(year, 10);
    table[WINTER_TIME] := v;
  }

  method FillFixed(table: array<VariableDay>)
    requires table.Length == NOF_VDAYS
    modifies table
    ensures forall i :: 0 <= i < NOF_VDAYS ==> table[i] == if Fixed(i) then FixedDay(i) else old(table[i])
  {
    table[10], table[11], table[12] := VariableDay(12, 24), VariableDay(12, 25), VariableDay(12, 26);
    table[13], table[14], table[15] := VariableDay(1, 6), VariableDay(1, 1), VariableDay(12, 31);
    FillMoreFixed(table);
  }

  method FillMoreFixed(table: array<VariableDay>)
    requires table.Length == NOF_VDAYS
    modifies table
    ensures forall i :: 0 <= i < NOF_VDAYS ==> table[i] == if Fixed(i) && i > 15 then FixedDay(i) else old(table[i])
  {
    table[16], table[17], table[18] := VariableDay(2, 14), VariableDay(5, 1), VariableDay(8, 15);
    table[19], table[23], table[24] := VariableDay(12, 6), VariableDay(10, 3), VariableDay(10, 26);
  }

  /** FillEasternDays: every entry of the table is the day its name promises. */
  method FillEasternDays(table: array<VariableDay>, year: int)
    requires table.Length == NOF_VDAYS && year >= 0
    modifies table
    ensures HolidaysOf(table[..], year)
  {
    FillMoving(table, year);
    FillSundays(table, year);
    FillFixed(table);
  }

  /** 0 for the days that move with Easter, 1 for the three Sundays, 2 for the fixed days. */
  function Group(i: nat): int {
    if Moves(i) then 0 else if OnSunday(i) then 1 else 2
  }

  /** Two holidays of one group never fall on the same day. */
  lemma GroupsApart(v: seq<VariableDay>, year: int, i: nat, j: nat)
    requires HolidaysOf(v, year) && i < j < NOF_VDAYS && v[i] == v[j]
    ensures Group(i) != Group(j)
  {
    assert RightDay(i, v[i], year) && RightDay(j, v[j], year);
  }
}
