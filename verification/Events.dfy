/** Calendar entries, and which of them fall on a day. */
module Events {
  import opened CalDate

  const MAXENTRYS: nat := 500
  const MAXPERDAY: nat := 10
  const NOF_VDAYS: nat := 25

  datatype Kind = FREE | BIRTHDAY | EVENT | PERIOD | HOLIDAY | COMMENT | UNUSED | SPACE

  datatype Event = Event(kind: Kind, year: int, month: int, day: int, hour: int, min: int, days: int,
                         eyear: int, emonth: int, eday: int, ehour: int, emin: int, edays: int, info: string)

  datatype VariableDay = VariableDay(mon: int, day: int)

  function DayNumber(d: Date): int
    requires 1 <= d.month <= 12
  {
    DaysBefore(LeapYear(d.year), d.month) + d.day
  }

  /** In a leap year a day number of a common year is taken one higher from 28 February on. */
  function Moved(n: int): int {
    if n >= 59 then n + 1 else n
  }

  /** The test IsEvent makes for a period without a year. */
  predicate YearlessHit(e: Event, d: Date)
    requires 1 <= d.month <= 12
  {
    if LeapYear(d.year) then Moved(e.days) <= DayNumber(d) <= Moved(e.edays)
    else e.days <= DayNumber(d) <= e.edays
  }

  /** The test for a period with years. */
  predicate DatedHit(e: Event, d: Date)
    requires 1 <= d.month <= 12
  {
    && (e.year < d.year || (e.year == d.year && e.days <= DayNumber(d)))
    && (e.eyear > d.year || (e.eyear == d.year && e.edays >= DayNumber(d)))
  }

  predicate Hit(e: Event, d: Date)
    requires 1 <= d.month <= 12
  {
    if e.kind == HOLIDAY || e.kind == EVENT then
      e.day == d.day && e.month == d.month && (e.year == 0 || e.year == d.year)
    else if e.kind == BIRTHDAY then e.day == d.day && e.month == d.month
    else if e.kind == PERIOD then (if e.year == 0 then YearlessHit(e, d) else DatedHit(e, d))
    else false
  }

  // What the periods mean

  predicate DateOnOrBefore(a: Date, b: Date) {
    a.year < b.year || (a.year == b.year && OnOrBefore(a.month, a.day, b.month, b.day))
  }

  /** days and edays are what loading computes: both with the leapness of the start year. */
  predicate Loaded(e: Event) {
    && 1 <= e.month <= 12 && 1 <= e.emonth <= 12
    && e.days == DaysBefore(LeapYear(e.year), e.month) + e.day
    && e.edays == DaysBefore(LeapYear(e.year), e.emonth) + e.eday
  }

  function Start(e: Event): Date {
    Date(e.year, e.month, e.day)
  }

  function End(e: Event): Date {
    Date(e.eyear, e.emonth, e.eday)
  }

  /** Within a year the day number orders the dates. */
  lemma DayNumberOrders(leap: bool, m1: int, d1: int, m2: int, d2: int)
    requires ValidWith(leap, Date(0, m1, d1)) && ValidWith(leap, Date(0, m2, d2))
    ensures OnOrBefore(m1, d1, m2, d2) <==> DaysBefore(leap, m1) + d1 <= DaysBefore(leap, m2) + d2
  {
  }

  /** The end's day number is right whenever the years are alike, the end lies before March, or
      the period ends with a common year. */
  predicate EndCounts(e: Event) {
    || e.eyear < e.year
    || LeapYear(e.year) == LeapYear(e.eyear)
    || e.emonth <= 2
    || (LeapYear(e.year) && e.emonth == 12 && e.eday == 31)
  }

  /** A date on which a period whose end is counted wrongly is misjudged. */
  function Misjudged(e: Event): Date {
    if !LeapYear(e.year) then End(e)
    else if e.eday < MonthDays(false, if 1 <= e.emonth <= 12 then e.emonth else 1) then End(e).(day := e.eday + 1)
    else Date(e.eyear, e.emonth + 1, 1)
  }

  lemma DatedHitMeans(e: Event, d: Date)
    requires e.kind == PERIOD && e.year != 0 && Loaded(e) && Valid(Start(e)) && Valid(End(e))
    requires EndCounts(e) && Valid(d)
    ensures Hit(e, d) <==> DateOnOrBefore(Start(e), d) && DateOnOrBefore(d, End(e))
  {
    if e.year == d.year {
      DayNumberOrders(LeapYear(d.year), e.month, e.day, d.month, d.day);
    }
    if e.eyear == d.year && e.year <= e.eyear {
      DayNumberOrders(LeapYear(d.year), d.month, d.day, e.emonth, e.eday);
    }
  }

  /** A dated period is found on exactly the days from its start to its end, if and only if its
      end is counted right. */
  lemma DatedPeriodExact(e: Event)
    requires e.kind == PERIOD && e.year != 0 && Loaded(e) && Valid(Start(e)) && Valid(End(e))
    ensures EndCounts(e) <==>
            forall d: Date :: Valid(d) ==> (Hit(e, d) <==> DateOnOrBefore(Start(e), d) && DateOnOrBefore(d, End(e)))
  {
    if EndCounts(e) {
      forall d: Date | Valid(d)
        ensures Hit(e, d) <==> DateOnOrBefore(Start(e), d) && DateOnOrBefore(d, End(e))
      {
        DatedHitMeans(e, d);
      }
    } else {
      var d := Misjudged(e);
      assert Valid(d);
      assert Hit(e, d) != (DateOnOrBefore(Start(e), d) && DateOnOrBefore(d, End(e)));
    }
  }

  /** Neither end falls on the last days of February in a way that matters. */
  predicate AwayFromFebruary(e: Event) {
    && !(e.month == 2 && e.day >= 28 && OnOrBefore(e.month, e.day, e.emonth, e.eday))
    && !(e.emonth == 2 && e.eday == 28 && OnOrBefore(e.month, e.day, e.emonth, e.eday))
    && !(e.emonth == 2 && e.eday == 29 && OnOrBefore(e.month, e.day, 3, 1))
  }

  lemma MovedNumber(m: int, d: int)
    requires ValidWith(true, Date(0, m, d)) && !(m == 2 && d >= 28)
    ensures Moved(DaysBefore(false, m) + d) == DaysBefore(true, m) + d
  {
  }

  /** Neither end on the last days of February. */
  lemma YearlessPlain(e: Event, d: Date)
    requires e.kind == PERIOD && e.year == 0 && Loaded(e) && Valid(d)
    requires ValidWith(true, Start(e)) && ValidWith(true, End(e))
    requires !(e.month == 2 && e.day >= 28) && !(e.emonth == 2 && e.eday >= 28)
    ensures Hit(e, d) <==> OnOrBefore(e.month, e.day, d.month, d.day) && OnOrBefore(d.month, d.day, e.emonth, e.eday)
  {
    MovedNumber(e.month, e.day);
    MovedNumber(e.emonth, e.eday);
    DayNumberOrders(LeapYear(d.year), e.month, e.day, d.month, d.day);
    DayNumberOrders(LeapYear(d.year), d.month, d.day, e.emonth, e.eday);
  }

  /** A start on the last days of February, with an end before it: never found. */
  lemma YearlessLateStart(e: Event, d: Date)
    requires e.kind == PERIOD && e.year == 0 && Loaded(e) && Valid(d)
    requires ValidWith(true, Start(e)) && ValidWith(true, End(e)) && AwayFromFebruary(e)
    requires e.month == 2 && e.day >= 28
    ensures !Hit(e, d)
    ensures !(OnOrBefore(e.month, e.day, d.month, d.day) && OnOrBefore(d.month, d.day, e.emonth, e.eday))
  {
  }

  /** An end on the last days of February, with a start behind it: never found either. */
  lemma YearlessLateEnd(e: Event, d: Date)
    requires e.kind == PERIOD && e.year == 0 && Loaded(e) && Valid(d)
    requires ValidWith(true, Start(e)) && ValidWith(true, End(e)) && AwayFromFebruary(e)
    requires e.emonth == 2 && e.eday >= 28 && !(e.month == 2 && e.day >= 28)
    ensures !Hit(e, d)
    ensures !(OnOrBefore(e.month, e.day, d.month, d.day) && OnOrBefore(d.month, d.day, e.emonth, e.eday))
  {
    MovedNumber(e.month, e.day);
  }

  lemma YearlessHitMeans(e: Event, d: Date)
    requires e.kind == PERIOD && e.year == 0 && Loaded(e)
    requires ValidWith(true, Start(e)) && ValidWith(true, End(e)) && AwayFromFebruary(e) && Valid(d)
    ensures Hit(e, d) <==> OnOrBefore(e.month, e.day, d.month, d.day) && OnOrBefore(d.month, d.day, e.emonth, e.eday)
  {
    if e.month == 2 && e.day >= 28 {
      YearlessLateStart(e, d);
    } else if e.emonth == 2 && e.eday >= 28 {
      YearlessLateEnd(e, d);
    } else {
      YearlessPlain(e, d);
    }
  }

  /** A date on which a yearless period with an end in the last days of February is misjudged. */
  function YearlessMisjudged(e: Event): Date {
    if e.emonth == 2 && e.eday == 29 && OnOrBefore(e.month, e.day, 3, 1) then Date(2001, 3, 1)
    else if e.month == 2 && e.day >= 28 then Date(2004, 2, e.day)
    else Date(2004, 2, 29)
  }

  /** A period without years is found, in common and in leap years, on exactly the days from its
      start to its end, if and only if neither end is caught in the last days of February. */
  lemma YearlessPeriodExact(e: Event)
    requires e.kind == PERIOD && e.year == 0 && Loaded(e)
    requires ValidWith(true, Start(e)) && ValidWith(true, End(e))
    ensures AwayFromFebruary(e) <==>
            forall d: Date :: Valid(d) ==>
              (Hit(e, d) <==> OnOrBefore(e.month, e.day, d.month, d.day) && OnOrBefore(d.month, d.day, e.emonth, e.eday))
  {
    if AwayFromFebruary(e) {
      forall d: Date | Valid(d)
        ensures Hit(e, d) <==> OnOrBefore(e.month, e.day, d.month, d.day) && OnOrBefore(d.month, d.day, e.emonth, e.eday)
      {
        YearlessHitMeans(e, d);
      }
    } else {
      var d := YearlessMisjudged(e);
      assert Valid(d);
      assert Hit(e, d) != (OnOrBefore(e.month, e.day, d.month, d.day) && OnOrBefore(d.month, d.day, e.emonth, e.eday));
    }
  }

  // What every kind means

  /** The days of an entry, told by dates: a birthday is in every year, a holiday or an event too if
      it has no year, a period lasts from its start to its end, in its years or in every year. */
  predicate FallsOn(e: Event, d: Date) {
    match e.kind
    case BIRTHDAY => d == Start(e).(year := d.year)
    case HOLIDAY => d == Start(e) || (e.year == 0 && d == Start(e).(year := d.year))
    case EVENT => d == Start(e) || (e.year == 0 && d == Start(e).(year := d.year))
    case PERIOD =>
      if e.year != 0 then DateOnOrBefore(Start(e), d) && DateOnOrBefore(d, End(e))
      else OnOrBefore(e.month, e.day, d.month, d.day) && OnOrBefore(d.month, d.day, e.emonth, e.eday)
    case _ => false
  }

  /** A period, as loaded, whose ends are counted right. */
  predicate CountsRight(e: Event) {
    && Loaded(e)
    && if e.year != 0 then Valid(Start(e)) && Valid(End(e)) && EndCounts(e)
       else ValidWith(true, Start(e)) && ValidWith(true, End(e)) && AwayFromFebruary(e)
  }

  /** An entry is found on exactly its days. */
  lemma HitMeans(e: Event, d: Date)
    requires 1 <= d.month <= 12 && (e.kind == PERIOD ==> Valid(d) && CountsRight(e))
    ensures Hit(e, d) <==> FallsOn(e, d)
  {
    if e.kind == PERIOD {
      if e.year != 0 {
        DatedHitMeans(e, d);
      } else {
        YearlessHitMeans(e, d);
      }
    }
  }
}
