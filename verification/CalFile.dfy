/** The calendar's file: all entries, line by line. */
module CalFile {
  import opened Events
  import opened Moments
  import opened CalLines

  /** The longest line that is read at once. */
  const LINE_LENGTH: nat := 1023

  /** How much of a file is read as its next line. */
  function LineEnd(file: string): (n: nat)
    requires file != ""
    ensures 0 < n <= |file|
  {
    var newline := Find(file, '\n');
    var end := if newline < |file| then newline + 1 else newline;
    if end <= LINE_LENGTH then end else LINE_LENGTH
  }

  /** The entries that were read, and what is left in the next one. */
  datatype Loading = Loading(entries: seq<Event>, slot: Event)

  function Before(entries: seq<Event>, l: Loading): Loading {
    Loading(entries + l.entries, l.slot)
  }

  function Load(file: string, slot: Event, room: nat): Loading
    decreases |file|
  {
    if file == "" || room == 0 then Loading([], slot)
    else
      var n := LineEnd(file);
      var line := ReadLine(slot, file[..n]);
      if line.done then Before([line.event], Load(file[n..], EMPTY, room - 1))
      else Load(file[n..], line.event, room)
  }

  /** The file written for a database: its entries up to the first free one. */
  function Save(db: seq<Event>): string {
    if db == [] || db[0].kind == FREE then "" else Print(db[0]) + Save(db[1..])
  }

  /** The entries a file keeps. */
  function Kept(db: seq<Event>): (kept: seq<Event>)
    ensures |kept| <= |db|
  {
    if db == [] || db[0].kind == FREE then []
    else (if db[0].kind == UNUSED then [] else [db[0]]) + Kept(db[1..])
  }

  predicate AllStorable(db: seq<Event>) {
    forall k :: 0 <= k < |db| ==> Storable(db[k])
  }

  /** A line that is read at once. */
  predicate OneLine(s: string) {
    0 < |s| <= LINE_LENGTH && Without(s[..|s| - 1], '\n') && s[|s| - 1] == '\n'
  }

  lemma FirstLine(s: string, t: string)
    requires OneLine(s)
    ensures LineEnd(s + t) == |s|
  {
    var a := s[..|s| - 1];
    FindFirst(a, '\n', t);
    assert s + t == a + (['\n'] + t);
  }

  lemma FieldShort(e: Event)
    requires Dated(e.kind) && Storable(e)
    ensures |FieldText(e)| <= 33
  {
    MomentLength(StartMoment(e));
    if e.kind == PERIOD {
      MomentLength(EndMoment(e));
    }
  }

  lemma DatedIsOneLine(letter: char, field: string, info: string)
    requires letter != '\n' && Without(field, '\n') && Without(info, '\n') && |field| <= 33 && |info| < 80
    ensures OneLine([letter] + ([';'] + (field + ([';'] + (info + ([';'] + "\n"))))))
  {
  }

  lemma PrintIsOneLine(e: Event)
    requires Storable(e) && e.kind != FREE && e.kind != UNUSED
    ensures OneLine(Print(e))
  {
    if Dated(e.kind) {
      FieldShort(e);
      FieldWithout(e, '\n');
      DatedIsOneLine(Letter(e.kind), FieldText(e), e.info);
    }
  }

  /** Every kept entry is completed by its line, and read back alike exactly if it is canonical. */
  lemma EntryRoundTrip(e: Event)
    requires Storable(e) && e.kind != FREE && e.kind != UNUSED
    ensures ReadLine(EMPTY, Print(e)).done
    ensures Canonical(e) ==> Restored(ReadLine(EMPTY, Print(e)).event, e)
    ensures PrintedAlike(ReadLine(EMPTY, Print(e)).event, e) <==> Canonical(e)
  {
    if Dated(e.kind) {
      LineRoundTrip(e);
    }
  }

  lemma LineStep(s: string, rest: string, room: nat, less: nat)
    requires OneLine(s) && ReadLine(EMPTY, s).done && less + 1 == room
    ensures Load(s + rest, EMPTY, room) == Before([ReadLine(EMPTY, s).event], Load(rest, EMPTY, less))
  {
    FirstLine(s, rest);
    var file := s + rest;
    assert file[..|s|] == s && file[|s|..] == rest;
  }

  lemma LoadStep(e: Event, rest: string, room: nat, less: nat)
    requires Storable(e) && e.kind != FREE && e.kind != UNUSED && less + 1 == room
    ensures Load(Print(e) + rest, EMPTY, room) == Before([ReadLine(EMPTY, Print(e)).event], Load(rest, EMPTY, less))
  {
    PrintIsOneLine(e);
    EntryRoundTrip(e);
    LineStep(Print(e), rest, room, less);
  }

  function Reread(e: Event): Event {
    ReadLine(EMPTY, Print(e)).event
  }

  function AllReread(kept: seq<Event>): (r: seq<Event>)
    ensures |r| == |kept| && forall k :: 0 <= k < |r| ==> r[k] == Reread(kept[k])
  {
    if kept == [] then [] else [Reread(kept[0])] + AllReread(kept[1..])
  }

  lemma KeptStep(db: seq<Event>)
    requires db != [] && db[0].kind != FREE && db[0].kind != UNUSED
    ensures AllReread(Kept(db)) == [Reread(db[0])] + AllReread(Kept(db[1..]))
  {
    assert Kept(db)[1..] == Kept(db[1..]);
  }

  function Reloaded(db: seq<Event>, room: nat): Loading {
    Load(Save(db), EMPTY, room)
  }

  /** The kept entries, each read back from its line; the unused entries are gone. */
  function Expected(db: seq<Event>): Loading {
    Loading(AllReread(Kept(db)), EMPTY)
  }

  lemma EmptyReadsBack(db: seq<Event>, room: nat)
    requires db == [] || db[0].kind == FREE
    ensures Reloaded(db, room) == Expected(db)
  {
  }

  lemma UnusedReadsBack(db: seq<Event>, room: nat)
    requires db != [] && db[0].kind == UNUSED && Reloaded(db[1..], room) == Expected(db[1..])
    ensures Reloaded(db, room) == Expected(db)
  {
    assert Save(db) == Save(db[1..]) && Kept(db) == Kept(db[1..]);
  }

  lemma EntryReadsBack(db: seq<Event>, room: nat, less: nat)
    requires less + 1 == room && AllStorable(db) && db != [] && db[0].kind != FREE && db[0].kind != UNUSED
    requires Reloaded(db[1..], less) == Expected(db[1..])
    ensures Reloaded(db, room) == Expected(db)
  {
    LoadStep(db[0], Save(db[1..]), room, less);
    KeptStep(db);
  }

  lemma {:induction false} SavedLoads(db: seq<Event>, room: nat)
    requires AllStorable(db) && |Kept(db)| <= room
    ensures Reloaded(db, room) == Expected(db)
    decreases |db|
  {
    if db == [] || db[0].kind == FREE {
      EmptyReadsBack(db, room);
    } else if db[0].kind == UNUSED {
      SavedLoads(db[1..], room);
      UnusedReadsBack(db, room);
    } else {
      var less := room - 1;
      SavedLoads(db[1..], less);
      EntryReadsBack(db, room, less);
    }
  }

  lemma {:induction false} KeptKinds(db: seq<Event>, k: nat)
    requires k < |Kept(db)|
    ensures Kept(db)[k].kind != FREE && Kept(db)[k].kind != UNUSED && Kept(db)[k] in db
  {
    var head := if db[0].kind == UNUSED then 0 else 1;
    if k >= head {
      KeptKinds(db[1..], k - head);
    }
  }

  /** Saving and loading restores the database, but for the unused entries, exactly if all it keeps
      is canonical. */
  lemma SaveThenLoad(db: seq<Event>)
    requires AllStorable(db) && |db| <= MAXENTRYS
    ensures var l, kept := Load(Save(db), EMPTY, MAXENTRYS), Kept(db);
            && |l.entries| == |kept| && l.slot == EMPTY
            && (forall k :: 0 <= k < |kept| && Canonical(kept[k]) ==> Restored(l.entries[k], kept[k]))
            && (forall k :: 0 <= k < |kept| ==> (PrintedAlike(l.entries[k], kept[k]) <==> Canonical(kept[k])))
  {
    var l, kept := Load(Save(db), EMPTY, MAXENTRYS), Kept(db);
    SavedLoads(db, MAXENTRYS);
    forall k | 0 <= k < |kept|
      ensures Canonical(kept[k]) ==> Restored(l.entries[k], kept[k])
      ensures PrintedAlike(l.entries[k], kept[k]) <==> Canonical(kept[k])
    {
      KeptKinds(db, k);
      EntryRoundTrip(kept[k]);
    }
  }

  lemma {:induction false} SaveKept(db: seq<Event>)
    ensures Save(Kept(db)) == Save(db)
  {
    if db != [] && db[0].kind == UNUSED {
      assert Save(db) == Save(db[1..]) && Kept(db) == Kept(db[1..]);
      SaveKept(db[1..]);
    } else if db != [] && db[0].kind != FREE {
      assert Kept(db)[1..] == Kept(db[1..]);
      SaveKept(db[1..]);
    }
  }

  lemma {:induction false} SaveAlike(a: seq<Event>, b: seq<Event>, rest: seq<Event>)
    requires |a| == |b| && (rest != [] ==> rest[0].kind == FREE)
    requires forall k :: 0 <= k < |a| ==> PrintedAlike(a[k], b[k])
    ensures Save(a + rest) == Save(b)
  {
    if a != [] {
      PrintsAlike(a[0], b[0]);
      assert (a + rest)[1..] == a[1..] + rest;
      if a[0].kind != FREE {
        SaveAlike(a[1..], b[1..], rest);
      }
    }
  }

  /** The database that loading leaves. */
  predicate IsLoaded(db: seq<Event>, l: Loading) {
    && |l.entries| <= |db| && db[..|l.entries|] == l.entries
    && (|l.entries| < |db| ==> db[|l.entries|] == l.slot)
    && forall k :: |l.entries| < k < |db| ==> db[k] == EMPTY
  }

  /** Once saved, saving again writes the same file. */
  lemma SavedTwice(db: seq<Event>, after: seq<Event>)
    requires AllStorable(db) && |db| <= MAXENTRYS
    requires forall k :: 0 <= k < |Kept(db)| ==> Canonical(Kept(db)[k])
    requires IsLoaded(after, Load(Save(db), EMPTY, MAXENTRYS))
    ensures Save(after) == Save(db)
  {
    var n := |Kept(db)|;
    SaveThenLoad(db);
    SaveAlike(after[..n], Kept(db), after[n..]);
    assert after == after[..n] + after[n..];
    SaveKept(db);
  }
}
