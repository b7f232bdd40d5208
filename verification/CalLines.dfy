/** One line of the calendar's file: writing an entry and reading it back. */
module CalLines {
  import opened CalDate
  import opened Decimal
  import opened Events
  import opened Scanning
  import opened Moments

  /** An entry of the cleared database. */
  const EMPTY: Event := Event(FREE, 0, 0, 0, 0, 0, 0, 0, 0, 0, 0, 0, 0, "")

  predicate Dated(kind: Kind) {
    kind == HOLIDAY || kind == EVENT || kind == BIRTHDAY || kind == PERIOD
  }

  /** The start as it is printed: only events and periods show a time. */
  function StartMoment(e: Event): Moment {
    Moment(e.day, e.month, e.year, if e.kind == EVENT || e.kind == PERIOD then e.hour else -1, e.min)
  }

  function EndMoment(e: Event): Moment {
    Moment(e.eday, e.emonth, e.eyear, e.ehour, e.emin)
  }

  function FieldText(e: Event): string {
    MomentText(StartMoment(e)) + if e.kind == PERIOD then "-" + MomentText(EndMoment(e)) else ""
  }

  function Letter(kind: Kind): char {
    match kind
    case HOLIDAY => 'f'
    case EVENT => 't'
    case BIRTHDAY => 'g'
    case _ => 'z'
  }

  /** What SaveDatabase writes for an entry. */
  function Print(e: Event): string {
    if Dated(e.kind) then [Letter(e.kind)] + ([';'] + (FieldText(e) + ([';'] + (e.info + ([';'] + "\n")))))
    else if e.kind == COMMENT then e.info
    else if e.kind == SPACE then "\n"
    else ""
  }

  /** strchr, as a distance; the length of the string when there is none. */
  function Find(s: string, c: char): (k: nat)
    ensures k <= |s| && Without(s[..k], c)
    ensures k < |s| ==> s[k] == c
  {
    if s == "" || s[0] == c then 0
    else
      var k := 1 + Find(s[1..], c);
      assert s[1..][..k - 1] == s[1..k];
      k
  }

  function KindOf(c: char): Kind {
    if c == 'Z' || c == 'z' then PERIOD
    else if c == 'G' || c == 'g' then BIRTHDAY
    else if c == 'T' || c == 't' then EVENT
    else if c == 'F' || c == 'f' then HOLIDAY
    else COMMENT
  }

  /** The format chosen by the length of the date field. */
  function FieldFormat(length: nat): Format {
    Space(
      match length
      case 6 => MomentFormat(START, false, false, Format.End)
      case 10 => MomentFormat(START, true, false, Format.End)
      case 13 => MomentFormat(START, false, false, Text('-', MomentFormat(END, false, false, Format.End)))
      case 16 => MomentFormat(START, true, true, Format.End)
      case 21 => MomentFormat(START, true, false, Text('-', MomentFormat(END, true, false, Format.End)))
      case _ => MomentFormat(START, true, true, Text('-', MomentFormat(END, true, true, Format.End))))
  }

  predicate KnownLength(length: nat) {
    length == 6 || length == 10 || length == 13 || length == 16 || length == 21 || length == 33
  }

  function YearDay(leap: bool, month: int, day: int): int {
    (if 1 <= month <= 13 then DaysBefore(leap, month) else 0) + day
  }

  /** The days of the year, both by the start year's length. */
  function WithDays(e: Event, length: nat): Event {
    var leap := length != 6 && length != 13 && LeapYear(e.year);
    var r := e.(days := YearDay(leap, e.month, e.day));
    if length == 13 || length == 21 || length == 33 then r.(edays := YearDay(leap, e.emonth, e.eday)) else r
  }

  /** Without times in the field the entry takes the whole day. */
  function Completed(e: Event, length: nat): Event {
    var r := WithDays(e, length);
    if length == 16 || length == 33 then r else r.(hour := -1, ehour := -1)
  }

  /** Reading the date field into an entry. */
  function ReadField(e: Event, field: string): Event {
    if KnownLength(|field|) then Completed(Scan(FieldFormat(|field|), " " + field, e), |field|) else e
  }

  /** An entry after a line was read into it, and whether the line completed it. */
  datatype Line = Line(event: Event, done: bool)

  function ReadInfo(e: Event, rest: string): Line {
    var semicolon, newline := Find(rest, ';'), Find(rest, '\n');
    if semicolon < |rest| then Line(e.(info := rest[..semicolon]), true)
    else if newline < |rest| then Line(e.(info := rest[..newline]), true)
    else Line(e, false)
  }

  function ReadDate(e: Event, rest: string): Line {
    var q := Find(rest, ';');
    if q == |rest| then Line(e, false) else ReadInfo(ReadField(e, rest[..q]), rest[q + 1..])
  }

  /** LoadDatabase: one line read into an entry. */
  function ReadLine(e: Event, line: string): Line {
    var p := Find(line, ';');
    if p == |line| then
      if '#' in line then Line(e.(kind := COMMENT, info := line), true) else Line(e.(kind := SPACE), true)
    else
      ReadDate(e.(kind := KindOf(line[0])), line[p + 1..])
  }

  // Which entries come back

  predicate SameMoment(m: Moment, n: Moment) {
    m.day == n.day && m.month == n.month && m.year == n.year && m.hour == n.hour && (m.hour != -1 ==> m.min == n.min)
  }

  /** The entries agree in everything that is printed. */
  predicate PrintedAlike(a: Event, b: Event) {
    && a.kind == b.kind
    && (Dated(a.kind) ==> SameMoment(StartMoment(a), StartMoment(b)) && a.info == b.info)
    && (a.kind == PERIOD ==> SameMoment(EndMoment(a), EndMoment(b)))
    && (a.kind == COMMENT ==> a.info == b.info)
  }

  predicate RealDate(m: Moment) {
    Fits(m) && 1 <= m.month <= 12 && 1 <= m.day
  }

  /** Fields that fit their widths, and texts that fit the line. */
  predicate Storable(e: Event) {
    && (Dated(e.kind) ==> RealDate(StartMoment(e)) && Without(e.info, ';') && Without(e.info, '\n') && |e.info| < 80)
    && (e.kind == PERIOD ==> RealDate(EndMoment(e)))
    && (e.kind == COMMENT ==>
          && '#' in e.info && Without(e.info, ';') && |e.info| < 80
          && Without(e.info[..|e.info| - 1], '\n') && e.info[|e.info| - 1] == '\n')
  }

  /** The six shapes of date fields: a time only with a year, and both ends of a period alike. */
  predicate Canonical(e: Event) {
    var m := StartMoment(e);
    && (m.hour != -1 ==> m.year != 0)
    && (e.kind == PERIOD ==> (m.year != 0 <==> e.eyear != 0) && (m.hour != -1 <==> e.ehour != -1))
  }

  lemma PrintsAlike(a: Event, b: Event)
    requires PrintedAlike(a, b)
    ensures Print(a) == Print(b)
  {
  }

  lemma {:induction false} FindFirst(a: string, c: char, b: string)
    requires Without(a, c)
    ensures Find(a + ([c] + b), c) == |a|
    ensures (a + ([c] + b))[..|a|] == a && (a + ([c] + b))[|a| + 1..] == b
  {
    if a != "" {
      FindFirst(a[1..], c, b);
      assert (a + ([c] + b))[1..] == a[1..] + ([c] + b);
    }
  }

  lemma FieldWithout(e: Event, c: char)
    requires Foreign(c)
    ensures Without(FieldText(e), c)
  {
    MomentWithout(StartMoment(e), c);
    MomentWithout(EndMoment(e), c);
  }

  lemma InfoPart(info: string, slot: Event)
    requires Without(info, ';')
    ensures ReadInfo(slot, info + ([';'] + "\n")) == Line(slot.(info := info), true)
  {
    FindFirst(info, ';', "\n");
  }

  lemma DatePart(field: string, info: string, slot: Event)
    requires Without(field, ';') && Without(info, ';')
    ensures ReadDate(slot, field + ([';'] + (info + ([';'] + "\n")))) == Line(ReadField(slot, field).(info := info), true)
  {
    FindFirst(field, ';', info + ([';'] + "\n"));
    InfoPart(info, ReadField(slot, field));
  }

  lemma KindPart(letter: char, rest: string, slot: Event)
    requires letter != ';'
    ensures ReadLine(slot, [letter] + ([';'] + rest)) == ReadDate(slot.(kind := KindOf(letter)), rest)
  {
    FindFirst([letter], ';', rest);
  }

  lemma LetterKind(kind: Kind)
    requires Dated(kind)
    ensures KindOf(Letter(kind)) == kind && Letter(kind) != ';'
  {
  }

  /** How a written line is taken apart again. */
  lemma LineParts(e: Event, slot: Event)
    requires Dated(e.kind) && Without(e.info, ';')
    ensures ReadLine(slot, Print(e)) == Line(ReadField(slot.(kind := e.kind), FieldText(e)).(info := e.info), true)
  {
    var rest := FieldText(e) + ([';'] + (e.info + ([';'] + "\n")));
    LetterKind(e.kind);
    FieldWithout(e, ';');
    KindPart(Letter(e.kind), rest, slot);
    DatePart(FieldText(e), e.info, slot.(kind := e.kind));
    assert Print(e) == [Letter(e.kind)] + ([';'] + rest);
  }

  /** The length of the printed date field tells its shape; any other shape has a length of its own
      that nothing is read for. */
  lemma FieldLengths(e: Event)
    requires Dated(e.kind) && Storable(e)
    ensures KnownLength(|FieldText(e)|) <==> Canonical(e)
    ensures Canonical(e) ==>
              var m := StartMoment(e);
              FieldFormat(|FieldText(e)|) == Space(MomentFormat(START, m.year != 0, m.hour != -1,
                if e.kind == PERIOD then Text('-', MomentFormat(END, m.year != 0, m.hour != -1, Format.End)) else Format.End))
    ensures Canonical(e) ==>
              && (|FieldText(e)| == 6 || |FieldText(e)| == 13 <==> e.year == 0)
              && (|FieldText(e)| == 16 || |FieldText(e)| == 33 <==> StartMoment(e).hour != -1)
              && (|FieldText(e)| == 13 || |FieldText(e)| == 21 || |FieldText(e)| == 33 <==> e.kind == PERIOD)
  {
    MomentLength(StartMoment(e));
    if e.kind == PERIOD {
      MomentLength(EndMoment(e));
    }
  }

  /** Reading the printed date field sets the moments it was printed from. */
  lemma FieldRead(e: Event, slot: Event)
    requires Dated(e.kind) && Storable(e) && Canonical(e)
    ensures var s := SetMoment(slot, START, StartMoment(e));
            Scan(FieldFormat(|FieldText(e)|), " " + FieldText(e), slot) ==
            if e.kind == PERIOD then SetMoment(s, END, EndMoment(e)) else s
  {
    var m := StartMoment(e);
    var end := if e.kind == PERIOD then MomentFormat(END, m.year != 0, m.hour != -1, Format.End) else Format.End;
    var next := if e.kind == PERIOD then Text('-', end) else Format.End;
    var rest := if e.kind == PERIOD then "-" + MomentText(EndMoment(e)) else "";
    FieldLengths(e);
    FieldStartsWithDigit(e);
    ScanSpace(MomentFormat(START, m.year != 0, m.hour != -1, next), FieldText(e), slot);
    MomentRead(START, next, m, rest, slot);
    if e.kind == PERIOD {
      var s := SetMoment(slot, START, m);
      ScanText('-', end, MomentText(EndMoment(e)), s);
      assert MomentText(EndMoment(e)) + "" == MomentText(EndMoment(e));
      MomentRead(END, Format.End, EndMoment(e), "", s);
    }
  }

  lemma FieldStartsWithDigit(e: Event)
    requires Fits(StartMoment(e))
    ensures FieldText(e) != "" && !IsSpace(FieldText(e)[0])
  {
    TwoStartsWithDigit(e.day);
  }

  /** A shape of its own leaves the entry without a day. */
  lemma OddLine(e: Event)
    requires Dated(e.kind) && Storable(e) && !Canonical(e)
    ensures ReadLine(EMPTY, Print(e)) == Line(EMPTY.(kind := e.kind, info := e.info), true)
  {
    LineParts(e, EMPTY);
    FieldLengths(e);
  }

  /** The moments of e are set in s; without a time nothing is said of the hour. */
  predicate HasMoments(s: Event, e: Event) {
    var m := StartMoment(e);
    && s.kind == e.kind && s.day == e.day && s.month == e.month && s.year == e.year
    && (m.hour != -1 ==> s.hour == e.hour && s.min == e.min)
    && (e.kind == PERIOD ==> s.eday == e.eday && s.emonth == e.emonth && s.eyear == e.eyear)
    && (e.kind == PERIOD && m.hour != -1 ==> s.ehour == e.ehour && s.emin == e.emin)
  }

  lemma StartSet(slot: Event, m: Moment)
    ensures var s := SetMoment(slot, START, m);
            s == slot.(day := m.day, month := m.month, year := if m.year != 0 then m.year else slot.year,
                       hour := if m.hour != -1 then m.hour else slot.hour, min := if m.hour != -1 then m.min else slot.min)
  {
  }

  lemma EndSet(slot: Event, m: Moment)
    ensures var s := SetMoment(slot, END, m);
            s == slot.(eday := m.day, emonth := m.month, eyear := if m.year != 0 then m.year else slot.eyear,
                       ehour := if m.hour != -1 then m.hour else slot.ehour, emin := if m.hour != -1 then m.min else slot.emin)
  {
  }

  lemma MomentsSet(e: Event)
    requires Dated(e.kind) && Canonical(e)
    ensures var s := SetMoment(EMPTY.(kind := e.kind), START, StartMoment(e));
            HasMoments(if e.kind == PERIOD then SetMoment(s, END, EndMoment(e)) else s, e)
  {
    StartSet(EMPTY.(kind := e.kind), StartMoment(e));
    EndSet(SetMoment(EMPTY.(kind := e.kind), START, StartMoment(e)), EndMoment(e));
  }

  /** The entry that reading a canonical entry's line gives. */
  predicate Restored(r: Event, e: Event) {
    && PrintedAlike(r, e)
    && (Dated(e.kind) && 1 <= e.month <= 12 ==> r.days == DaysBefore(LeapYear(e.year), e.month) + e.day)
    && (e.kind == PERIOD && 1 <= e.emonth <= 12 ==> r.edays == DaysBefore(LeapYear(e.year), e.emonth) + e.eday)
  }

  lemma CompletedMeans(s: Event, e: Event, length: nat)
    requires HasMoments(s, e) && Dated(e.kind) && Canonical(e) && Storable(e)
    requires length == 6 || length == 13 <==> e.year == 0
    requires length == 16 || length == 33 <==> StartMoment(e).hour != -1
    requires length == 13 || length == 21 || length == 33 <==> e.kind == PERIOD
    ensures Restored(Completed(s, length).(info := e.info), e)
  {
    assert e.year == 0 ==> !LeapYear(e.year);
  }

  /** What reading the field of a canonical entry gives. */
  lemma FieldMeans(e: Event)
    requires Dated(e.kind) && Storable(e) && Canonical(e)
    ensures Restored(ReadField(EMPTY.(kind := e.kind), FieldText(e)).(info := e.info), e)
  {
    FieldLengths(e);
    FieldRead(e, EMPTY.(kind := e.kind));
    MomentsSet(e);
    CompletedMeans(Scan(FieldFormat(|FieldText(e)|), " " + FieldText(e), EMPTY.(kind := e.kind)), e, |FieldText(e)|);
  }

  /** A dated entry that was written reads back alike if and only if it has one of the six shapes;
      and then its days of the year are those of its start year. */
  lemma LineRoundTrip(e: Event)
    requires Dated(e.kind) && Storable(e)
    ensures ReadLine(EMPTY, Print(e)).done
    ensures Canonical(e) ==> Restored(ReadLine(EMPTY, Print(e)).event, e)
    ensures PrintedAlike(ReadLine(EMPTY, Print(e)).event, e) <==> Canonical(e)
  {
    if Canonical(e) {
      LineParts(e, EMPTY);
      FieldMeans(e);
    } else {
      OddLine(e);
    }
  }

  // Lines written by hand

  predicate LetterFor(c: char, kind: Kind) {
    match kind
    case HOLIDAY => c == 'f' || c == 'F'
    case EVENT => c == 't' || c == 'T'
    case BIRTHDAY => c == 'g' || c == 'G'
    case _ => c == 'z' || c == 'Z'
  }

  /** The info ends at a semicolon, or else with the line; without either the entry stays open. */
  lemma InfoTail(info: string, tail: string, slot: Event)
    requires Without(info, ';') && Without(info, '\n')
    requires tail == "" || tail == "\n" || tail[0] == ';'
    ensures ReadInfo(slot, info + tail) == if tail == "" then Line(slot, false) else Line(slot.(info := info), true)
  {
    if tail == "" {
      assert info + tail == info;
    } else if tail[0] == ';' {
      FindFirst(info, ';', tail[1..]);
      assert tail == [';'] + tail[1..];
    } else {
      assert Without(info + tail, ';');
      FindFirst(info, '\n', "");
      assert tail == ['\n'] + "";
    }
  }

  lemma LetterForKind(letter: char, kind: Kind)
    requires Dated(kind) && LetterFor(letter, kind)
    ensures KindOf(letter) == kind && letter != ';'
  {
  }

  lemma FieldPart(field: string, rest: string, slot: Event)
    requires Without(field, ';')
    ensures ReadDate(slot, field + ([';'] + rest)) == ReadInfo(ReadField(slot, field), rest)
  {
    FindFirst(field, ';', rest);
  }

  /** Capital letters do as well as small ones, and behind the info any text, or the line's end. */
  lemma HandWritten(e: Event, letter: char, tail: string)
    requires Dated(e.kind) && Storable(e) && Canonical(e) && LetterFor(letter, e.kind)
    requires tail == "" || tail == "\n" || tail[0] == ';'
    ensures var r := ReadLine(EMPTY, [letter] + ([';'] + (FieldText(e) + ([';'] + (e.info + tail)))));
            (r.done <==> tail != "") && (r.done ==> Restored(r.event, e))
  {
    var field, rest, slot := FieldText(e), e.info + tail, EMPTY.(kind := e.kind);
    LetterForKind(letter, e.kind);
    FieldWithout(e, ';');
    FieldMeans(e);
    KindPart(letter, field + ([';'] + rest), EMPTY);
    FieldPart(field, rest, slot);
    InfoTail(e.info, tail, ReadField(slot, field));
  }
}
