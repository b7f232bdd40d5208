/** The date field of a calendar line: printing a moment and reading it back. */
module Moments {
  import opened Decimal
  import opened Events
  import opened Scanning

  /** A date with an optional year (0 for none) and an optional time (hour -1 for none). */
  datatype Moment = Moment(day: int, month: int, year: int, hour: int, min: int)

  datatype Fields = Fields(day: Field, month: Field, year: Field, hour: Field, min: Field)

  const START: Fields := Fields(DAY, MONTH, YEAR, HOUR, MIN)
  const END: Fields := Fields(EDAY, EMONTH, EYEAR, EHOUR, EMIN)

  /** %u of an int. */
  function Unsigned(n: int): nat {
    n % 0x1_0000_0000
  }

  function Two(n: int): string {
    Padded(Unsigned(n), 2)
  }

  function DateText(m: Moment): string {
    Two(m.day) + "." + Two(m.month) + "." + YearText(m)
  }

  function TimeText(m: Moment): string {
    if m.hour != -1 then " " + Two(m.hour) + ":" + Two(m.min) else ""
  }

  function MomentText(m: Moment): string {
    DateText(m) + TimeText(m)
  }

  function DateFormat(f: Fields, next: Format): Format {
    Number(2, f.day, Text('.', Number(2, f.month, Text('.', next))))
  }

  function TimeFormat(f: Fields, next: Format): Format {
    Space(Number(2, f.hour, Text(':', Number(2, f.min, next))))
  }

  function MomentFormat(f: Fields, dated: bool, timed: bool, next: Format): Format {
    var tail := if timed then TimeFormat(f, next) else next;
    DateFormat(f, if dated then Number(4, f.year, tail) else tail)
  }

  /** Every field fits the width it is printed with. */
  predicate Fits(m: Moment) {
    && 0 <= m.day < 100 && 0 <= m.month < 100 && 0 <= m.year < 10000
    && (m.hour == -1 || (0 <= m.hour < 100 && 0 <= m.min < 100))
  }

  function SetDate(e: Event, f: Fields, m: Moment): Event {
    Set(Set(e, f.day, m.day), f.month, m.month)
  }

  function SetYear(e: Event, f: Fields, m: Moment): Event {
    if m.year != 0 then Set(e, f.year, m.year) else e
  }

  function SetTime(e: Event, f: Fields, m: Moment): Event {
    if m.hour != -1 then Set(Set(e, f.hour, m.hour), f.min, m.min) else e
  }

  function SetMoment(e: Event, f: Fields, m: Moment): Event {
    SetTime(SetYear(SetDate(e, f, m), f, m), f, m)
  }

  lemma Powers()
    ensures Power10(2) == 100 && Power10(4) == 10000
  {
    assert Power10(1) == 10;
    assert Power10(3) == 10 * Power10(2);
  }

  lemma UnsignedIs(n: int)
    requires 0 <= n < 10000
    ensures Unsigned(n) == n
  {
  }

  lemma TwoRead(f: Field, next: Format, n: int, t: string, e: Event)
    requires 0 <= n < 100
    ensures Scan(Number(2, f, next), Two(n) + t, e) == Scan(next, t, Set(e, f, n))
  {
    Powers();
    UnsignedIs(n);
    ScanNumber(2, f, next, n, t, e);
  }

  lemma TwoStartsWithDigit(n: int)
    ensures Two(n) != "" && IsDigit(Two(n)[0])
  {
    PaddedRead(Unsigned(n), 2);
  }

  lemma TwoWidth(n: int)
    requires 0 <= n < 100
    ensures |Two(n)| == 2
  {
    Powers();
    UnsignedIs(n);
    PaddedWidth(n, 2);
  }

  lemma YearWidth(m: Moment)
    requires Fits(m)
    ensures |YearText(m)| == if m.year != 0 then 4 else 0
  {
    Powers();
    UnsignedIs(m.year);
    PaddedWidth(m.year, 4);
  }

  lemma DateRead(f: Fields, next: Format, m: Moment, t: string, e: Event)
    requires Fits(m)
    ensures Scan(DateFormat(f, next), Two(m.day) + ("." + (Two(m.month) + ("." + t))), e) == Scan(next, t, SetDate(e, f, m))
  {
    TwoRead(f.day, Text('.', Number(2, f.month, Text('.', next))), m.day, "." + (Two(m.month) + ("." + t)), e);
    ScanText('.', Number(2, f.month, Text('.', next)), Two(m.month) + ("." + t), Set(e, f.day, m.day));
    TwoRead(f.month, Text('.', next), m.month, "." + t, Set(e, f.day, m.day));
    ScanText('.', next, t, SetDate(e, f, m));
  }

  lemma TimeRead(f: Fields, next: Format, m: Moment, t: string, e: Event)
    requires Fits(m) && m.hour != -1
    ensures Scan(TimeFormat(f, next), TimeText(m) + t, e) == Scan(next, t, SetTime(e, f, m))
  {
    var inner := Number(2, f.min, next);
    assert TimeText(m) + t == " " + (Two(m.hour) + (":" + (Two(m.min) + t)));
    PaddedRead(Unsigned(m.hour), 2);
    ScanSpace(Number(2, f.hour, Text(':', inner)), Two(m.hour) + (":" + (Two(m.min) + t)), e);
    TwoRead(f.hour, Text(':', inner), m.hour, ":" + (Two(m.min) + t), e);
    ScanText(':', inner, Two(m.min) + t, Set(e, f.hour, m.hour));
    TwoRead(f.min, next, m.min, t, Set(e, f.hour, m.hour));
  }

  function YearText(m: Moment): string {
    if m.year != 0 then Padded(Unsigned(m.year), 4) else ""
  }

  lemma YearRead(f: Fields, next: Format, m: Moment, t: string, e: Event)
    requires Fits(m)
    ensures Scan(if m.year != 0 then Number(4, f.year, next) else next, YearText(m) + t, e) == Scan(next, t, SetYear(e, f, m))
  {
    if m.year != 0 {
      Powers();
      UnsignedIs(m.year);
      ScanNumber(4, f.year, next, m.year, t, e);
    } else {
      assert YearText(m) + t == t;
    }
  }

  lemma Joined(d: string, m: string, y: string, h: string, t: string)
    ensures d + "." + m + "." + y + h + t == d + ("." + (m + ("." + (y + (h + t)))))
  {
  }

  /** Whatever follows it, a moment is read back by its own format as it was printed. */
  lemma MomentRead(f: Fields, next: Format, m: Moment, t: string, e: Event)
    requires Fits(m)
    ensures Scan(MomentFormat(f, m.year != 0, m.hour != -1, next), MomentText(m) + t, e) == Scan(next, t, SetMoment(e, f, m))
  {
    var tail := if m.hour != -1 then TimeFormat(f, next) else next;
    var rest := TimeText(m) + t;
    Joined(Two(m.day), Two(m.month), YearText(m), TimeText(m), t);
    DateRead(f, if m.year != 0 then Number(4, f.year, tail) else tail, m, YearText(m) + rest, e);
    YearRead(f, tail, m, rest, SetDate(e, f, m));
    if m.hour != -1 {
      TimeRead(f, next, m, t, SetYear(SetDate(e, f, m), f, m));
    } else {
      assert rest == t;
    }
  }

  /** The length of a printed moment tells what it is made of. */
  lemma MomentLength(m: Moment)
    requires Fits(m)
    ensures |MomentText(m)| == 6 + (if m.year != 0 then 4 else 0) + (if m.hour != -1 then 6 else 0)
  {
    TwoWidth(m.day);
    TwoWidth(m.month);
    YearWidth(m);
    if m.hour != -1 {
      TwoWidth(m.hour);
      TwoWidth(m.min);
    }
  }

  /** At k there are so many digits, and they stand for n. */
  predicate NumberAt(t: string, k: nat, width: nat, n: int) {
    k + width <= |t| && AllDigits(t[k..k + width]) && Value(t[k..k + width]) == n
  }

  lemma NumberIn(a: string, n: int, width: nat, b: string)
    requires 0 <= n < 10000 && |Padded(Unsigned(n), width)| == width
    ensures NumberAt(a + Padded(Unsigned(n), width) + b, |a|, width, n)
  {
    UnsignedIs(n);
    PaddedRead(n, width);
    assert (a + Padded(n, width) + b)[|a|..|a| + width] == Padded(n, width);
  }

  lemma DateGroups(d: string, m: string, y: string, h: string)
    ensures d + "." + m + "." + y + h == "" + d + ("." + m + "." + y + h) == (d + ".") + m + ("." + y + h)
    ensures d + "." + m + "." + y + h == (d + "." + m + ".") + y + h
  {
  }

  lemma TimeGroups(d: string, h: string, m: string)
    ensures d + (" " + h + ":" + m) == (d + " ") + h + (":" + m) == (d + " " + h + ":") + m + ""
    ensures (d + (" " + h + ":" + m))[|d|] == ' ' && (d + (" " + h + ":" + m))[|d| + 1 + |h|] == ':'
  {
  }

  lemma DotsAt(d: string, m: string, y: string, h: string)
    requires |d| == |m| == 2
    ensures (d + "." + m + "." + y + h)[2] == (d + "." + m + "." + y + h)[5] == '.'
  {
  }

  lemma DayAndMonthShow(m: Moment)
    requires Fits(m)
    ensures NumberAt(MomentText(m), 0, 2, m.day) && NumberAt(MomentText(m), 3, 2, m.month)
  {
    var d, mo, y, h := Two(m.day), Two(m.month), YearText(m), TimeText(m);
    TwoWidth(m.day);
    TwoWidth(m.month);
    DateGroups(d, mo, y, h);
    NumberIn("", m.day, 2, "." + mo + "." + y + h);
    NumberIn(d + ".", m.month, 2, "." + y + h);
  }

  lemma YearShows(m: Moment)
    requires Fits(m) && m.year != 0
    ensures NumberAt(MomentText(m), 6, 4, m.year)
  {
    TwoWidth(m.day);
    TwoWidth(m.month);
    YearWidth(m);
    DateGroups(Two(m.day), Two(m.month), YearText(m), TimeText(m));
    NumberIn(Two(m.day) + "." + Two(m.month) + ".", m.year, 4, TimeText(m));
  }

  lemma DotsShow(m: Moment)
    requires Fits(m)
    ensures |MomentText(m)| >= 6 && MomentText(m)[2] == MomentText(m)[5] == '.'
  {
    TwoWidth(m.day);
    TwoWidth(m.month);
    DotsAt(Two(m.day), Two(m.month), YearText(m), TimeText(m));
  }

  /** What a printed moment looks like: day and month, and year and time where it has them. */
  lemma MomentShows(m: Moment)
    requires Fits(m)
    ensures |MomentText(m)| >= 6 && MomentText(m)[2] == MomentText(m)[5] == '.'
    ensures NumberAt(MomentText(m), 0, 2, m.day) && NumberAt(MomentText(m), 3, 2, m.month)
    ensures m.year != 0 ==> NumberAt(MomentText(m), 6, 4, m.year)
  {
    DotsShow(m);
    DayAndMonthShow(m);
    if m.year != 0 {
      YearShows(m);
    }
  }

  lemma DateWidth(m: Moment)
    requires Fits(m)
    ensures |DateText(m)| == if m.year != 0 then 10 else 6
  {
    TwoWidth(m.day);
    TwoWidth(m.month);
    YearWidth(m);
  }

  lemma TimeShows(m: Moment)
    requires Fits(m) && m.hour != -1
    ensures var k := if m.year != 0 then 10 else 6;
            |MomentText(m)| == k + 6 && MomentText(m)[k] == ' ' && MomentText(m)[k + 3] == ':'
    ensures NumberAt(MomentText(m), if m.year != 0 then 11 else 7, 2, m.hour)
    ensures NumberAt(MomentText(m), if m.year != 0 then 14 else 10, 2, m.min)
  {
    var date, h, mi := DateText(m), Two(m.hour), Two(m.min);
    DateWidth(m);
    TwoWidth(m.hour);
    TwoWidth(m.min);
    TimeGroups(date, h, mi);
    NumberIn(date + " ", m.hour, 2, ":" + mi);
    NumberIn(date + " " + h + ":", m.min, 2, "");
  }

  /** Characters that never appear in a printed moment. */
  predicate Foreign(c: char) {
    !IsDigit(c) && c != '.' && c != ':' && c != ' ' && c != '-'
  }

  predicate Without(s: string, c: char) {
    forall k :: 0 <= k < |s| ==> s[k] != c
  }

  lemma NumberWithout(n: int, width: nat, c: char)
    requires Foreign(c)
    ensures Without(Padded(Unsigned(n), width), c)
  {
    PaddedRead(Unsigned(n), width);
  }

  lemma MomentWithout(m: Moment, c: char)
    requires Foreign(c)
    ensures Without(MomentText(m), c)
  {
    NumberWithout(m.day, 2, c);
    NumberWithout(m.month, 2, c);
    NumberWithout(m.year, 4, c);
    NumberWithout(m.hour, 2, c);
    NumberWithout(m.min, 2, c);
    assert Without(DateText(m), c) && Without(TimeText(m), c);
  }
}
