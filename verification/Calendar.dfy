/** The calendar: a day's holidays and entries, and the file they are kept in. */
module Calendar {
  import opened CalDate
  import opened Events
  import opened Flags
  import opened Holidays
  import opened DayQuery
  import opened CalLines
  import opened CalFile

  datatype File = Missing | File(text: string)

  /** The calendar's tables, and its file of entries. */
  class Calendar {
    const variableDays: array<VariableDay>
    const eventDb: array<Event>
    const eventTypes: array<int>
    var countEntries: int
    var file: File

    ghost predicate Valid()
      reads this
    {
      && variableDays.Length == NOF_VDAYS && eventDb.Length == MAXENTRYS && eventTypes.Length == MAXPERDAY
    }

    constructor (file: File)
      ensures Valid()
      ensures fresh(variableDays) && fresh(eventDb) && fresh(eventTypes) && this.file == file
    {
      variableDays := new VariableDay[NOF_VDAYS](_ => VariableDay(0, 0));
      eventDb := new Event[MAXENTRYS](_ => EMPTY);
      eventTypes := new int[MAXPERDAY];
      countEntries := 0;
      this.file := file;
    }

    /** The year to show has changed. */
    method ShowYear(year: int)
      requires Valid() && year >= 0
      modifies variableDays
      ensures HolidaysOf(variableDays[..], year)
    {
      FillEasternDays(variableDays, year);
    }

    /** The holidays of a day. */
    method FindHolidays(d: Date) returns (count: nat)
      requires Valid() && |HolidayHits(variableDays[..], d)| < MAXPERDAY
      modifies eventTypes
      ensures count < MAXPERDAY && eventTypes[..count] == HolidayHits(variableDays[..], d)
    {
      count := 0;
      ghost var flags := HolidayFlags(variableDays[..], d);
      var i := 0;
      while i < NOF_VDAYS
        invariant 0 <= i <= NOF_VDAYS && count <= MAXPERDAY
        invariant eventTypes[..count] == Hits(flags[..i], MAXENTRYS + 1)
      {
        HitsStep(flags, MAXENTRYS + 1, i);
        HitsPrefix(flags, MAXENTRYS + 1, i + 1);
        if variableDays[i].mon == d.month && variableDays[i].day == d.day {
          eventTypes[count] := MAXENTRYS + 1 + i;
          count := count + 1;
        }
        i := i + 1;
      }
      assert flags[..i] == flags;
    }

    /** The entries up to the first free one, as long as there is room. */
    method FindEntries(d: Date, holidays: nat) returns (count: nat)
      requires Valid() && 1 <= d.month <= 12 && holidays < MAXPERDAY
      modifies eventTypes
      ensures count <= MAXPERDAY
      ensures eventTypes[..count] == Shortened(old(eventTypes[..holidays]) + EntryHits(eventDb[..], d))
    {
      count := holidays;
      ghost var h := eventTypes[..holidays];
      ghost var flags := EntryFlags(eventDb[..], d);
      ghost var used := Used(eventDb[..]);
      var i := 0;
      while i < MAXENTRYS && eventDb[i].kind != FREE && count < MAXPERDAY
        invariant 0 <= i <= used && holidays <= count <= MAXPERDAY
        invariant eventTypes[..count] == h + Hits(flags[..i], 0)
      {
        HitsStep(flags, 0, i);
        if Hit(eventDb[i], d) {
          eventTypes[count] := i;
          count := count + 1;
        }
        i := i + 1;
      }
      StoppedEarly(flags, h, i, used);
    }

    /** IsEvent: afterwards eventTypes begins with what the day shows. */
    method IsEvent(d: Date) returns (count: nat)
      requires Valid() && 1 <= d.month <= 12 && |HolidayHits(variableDays[..], d)| < MAXPERDAY
      modifies eventTypes
      ensures count <= MAXPERDAY && eventTypes[..count] == Listing(variableDays[..], eventDb[..], d)
      ensures count < MAXPERDAY ==> Tells(eventTypes[..count], variableDays[..], eventDb[..], d)
    {
      ListingMeans(variableDays[..], eventDb[..], d);
      count := FindHolidays(d);
      count := FindEntries(d, count);
    }

    /** A line read into the next entry. */
    method LoadNext(line: string, i: nat) returns (next: nat)
      requires Valid() && i < MAXENTRYS
      requires forall k :: i < k < MAXENTRYS ==> eventDb[k] == EMPTY
      modifies eventDb
      ensures next == (if ReadLine(old(eventDb[i]), line).done then i + 1 else i)
      ensures eventDb[..i] == old(eventDb[..i]) && eventDb[i] == ReadLine(old(eventDb[i]), line).event
      ensures forall k :: i < k < MAXENTRYS ==> eventDb[k] == EMPTY
    {
      var read := ReadLine(eventDb[i], line);
      eventDb[i] := read.event;
      next := if read.done then i + 1 else i;
    }

    /** The entries after entry i are empty; there is room for so many with it. */
    ghost predicate Room(i: nat, room: nat)
      reads this, eventDb
      requires Valid()
    {
      i + room == MAXENTRYS && forall k :: i < k < MAXENTRYS ==> eventDb[k] == EMPTY
    }

    /** What is loaded in the end when the rest of the file is read from entry i on. */
    ghost function Outlook(rest: string, i: nat, room: nat): Loading
      reads this, eventDb
      requires Valid() && i <= MAXENTRYS
    {
      Before(eventDb[..i], Load(rest, if i < MAXENTRYS then eventDb[i] else EMPTY, room))
    }

    method LoadLine(rest: string, i: nat, ghost room: nat) returns (left: string, next: nat, ghost roomLeft: nat)
      requires Valid() && Room(i, room) && rest != "" && i < MAXENTRYS
      modifies eventDb
      ensures Room(next, roomLeft) && |left| < |rest|
      ensures Outlook(left, next, roomLeft) == old(Outlook(rest, i, room))
    {
      var n := LineEnd(rest);
      ghost var was, slot, less := eventDb[..i], eventDb[i], room - 1;
      LineRead(was, rest, slot, room, less);
      next := LoadNext(rest[..n], i);
      left := rest[n..];
      if next == i {
        roomLeft := room;
      } else {
        roomLeft := less;
        assert eventDb[..next] == was + [eventDb[i]];
      }
    }

    method Clear()
      requires Valid()
      modifies eventDb
      ensures forall k :: 0 <= k < MAXENTRYS ==> eventDb[k] == EMPTY
    {
      forall k | 0 <= k < MAXENTRYS {
        eventDb[k] := EMPTY;
      }
    }

    /** The file's lines, read into the cleared table. */
    method LoadLines(text: string) returns (count: nat)
      requires Valid() && forall k :: 0 <= k < MAXENTRYS ==> eventDb[k] == EMPTY
      modifies eventDb
      ensures IsLoaded(eventDb[..], Load(text, EMPTY, MAXENTRYS))
      ensures count == |Load(text, EMPTY, MAXENTRYS).entries|
    {
      var rest := text;
      count := 0;
      ghost var room := MAXENTRYS;
      assert Outlook(text, 0, MAXENTRYS) == Load(text, EMPTY, MAXENTRYS);
      while rest != "" && count < MAXENTRYS
        invariant Room(count, room)
        invariant Outlook(rest, count, room) == Load(text, EMPTY, MAXENTRYS)
        decreases |rest|
      {
        rest, count, room := LoadLine(rest, count, room);
      }
    }

    /** LoadDatabase: the table holds what the file says. */
    method LoadDatabase()
      requires Valid()
      modifies eventDb, this`countEntries
      ensures file == Missing ==> IsLoaded(eventDb[..], Loading([], EMPTY)) && countEntries == old(countEntries)
      ensures file.File? ==> IsLoaded(eventDb[..], Load(file.text, EMPTY, MAXENTRYS))
      ensures file.File? ==> countEntries == |Load(file.text, EMPTY, MAXENTRYS).entries|
    {
      Clear();
      if file.File? {
        countEntries := LoadLines(file.text);
      }
    }

    /** The lines of the entries, up to the first free one. */
    method WriteLines() returns (text: string, count: nat)
      requires Valid()
      ensures text == Save(eventDb[..])
    {
      text, count := "", 0;
      ghost var db := eventDb[..];
      assert db[0..] == db;
      while count < MAXENTRYS && eventDb[count].kind != FREE
        invariant 0 <= count <= MAXENTRYS
        invariant text + Save(db[count..]) == Save(db)
      {
        SaveStep(db, count, text);
        text := text + Print(eventDb[count]);
        count := count + 1;
      }
    }

    /** SaveDatabase writes the entries and reads them in again. */
    method SaveDatabase()
      requires Valid()
      modifies eventDb, this`countEntries, this`file
      ensures file == File(Save(old(eventDb[..])))
      ensures IsLoaded(eventDb[..], Load(file.text, EMPTY, MAXENTRYS))
      ensures countEntries == |Load(file.text, EMPTY, MAXENTRYS).entries|
    {
      var text, count := WriteLines();
      file := File(text);
      countEntries := count;
      LoadDatabase();
    }
  }

  lemma SaveStep(db: seq<Event>, i: nat, text: string)
    requires i < |db| && db[i].kind != FREE
    ensures text + Save(db[i..]) == (text + Print(db[i])) + Save(db[i + 1..])
  {
    assert db[i..][1..] == db[i + 1..];
  }

  /** One line more: what is loaded in the end stays the same. */
  lemma LineRead(was: seq<Event>, rest: string, slot: Event, room: nat, less: nat)
    requires rest != "" && less + 1 == room
    ensures var n := LineEnd(rest);
            var line := ReadLine(slot, rest[..n]);
            Before(was, Load(rest, slot, room)) ==
            if line.done then Before(was + [line.event], Load(rest[n..], EMPTY, less))
            else Before(was, Load(rest[n..], line.event, room))
  {
    var n := LineEnd(rest);
    var line := ReadLine(slot, rest[..n]);
    BeforeBefore(was, [line.event], Load(rest[n..], EMPTY, less));
  }

  lemma BeforeBefore(a: seq<Event>, b: seq<Event>, l: Loading)
    ensures Before(a + b, l) == Before(a, Before(b, l))
  {
  }
}
