/** What the calendar shows for a day. */
module DayQuery {
  import opened CalDate
  import opened Events
  import opened Flags
  import opened Holidays

  predicate OnDay(v: VariableDay, d: Date) {
    v.mon == d.month && v.day == d.day
  }

  function HolidayFlags(v: seq<VariableDay>, d: Date): (flags: seq<bool>)
    ensures |flags| == |v|
  {
    seq(|v|, i requires 0 <= i < |v| => OnDay(v[i], d))
  }

  /** The numbers of a day's holidays; the first holiday is MAXENTRYS + 1. */
  function HolidayHits(v: seq<VariableDay>, d: Date): seq<int> {
    Hits(HolidayFlags(v, d), MAXENTRYS + 1)
  }

  /** The holiday behind a hit. */
  function GroupOf(x: int): (g: int)
    ensures 0 <= g <= 2
  {
    if x <= MAXENTRYS then 0 else Group(x - MAXENTRYS - 1)
  }

  lemma HitIs(v: seq<VariableDay>, d: Date, k: nat) returns (i: nat)
    requires k < |HolidayHits(v, d)|
    ensures i < |v| && OnDay(v[i], d) && HolidayHits(v, d)[k] == MAXENTRYS + 1 + i
    ensures GroupOf(HolidayHits(v, d)[k]) == Group(i)
  {
    HitsInRange(HolidayFlags(v, d), MAXENTRYS + 1, k);
    i := HolidayHits(v, d)[k] - (MAXENTRYS + 1);
  }

  lemma HitsApart(v: seq<VariableDay>, year: int, d: Date, j: nat, k: nat)
    requires HolidaysOf(v, year) && j < k < |HolidayHits(v, d)|
    ensures GroupOf(HolidayHits(v, d)[j]) != GroupOf(HolidayHits(v, d)[k])
  {
    var x := HitIs(v, d, j);
    var y := HitIs(v, d, k);
    HitsAscend(HolidayFlags(v, d), MAXENTRYS + 1, j, k);
    GroupsApart(v, year, x, y);
  }

  /** At most one holiday of each group falls on a day. */
  lemma FewHolidays(v: seq<VariableDay>, year: int, d: Date)
    requires HolidaysOf(v, year)
    ensures |HolidayHits(v, d)| <= 3
  {
    var h := HolidayHits(v, d);
    forall j, k | 0 <= j < k < |h| ensures GroupOf(h[j]) != GroupOf(h[k]) {
      HitsApart(v, year, d, j, k);
    }
    assert |h| > 3 ==> GroupOf(h[0]) != GroupOf(h[1]) && GroupOf(h[2]) != GroupOf(h[3]);
  }

  /** The entries before the first free one. */
  function Used(db: seq<Event>): (n: nat)
    ensures n <= |db|
    ensures forall i :: 0 <= i < n ==> db[i].kind != FREE
    ensures n < |db| ==> db[n].kind == FREE
  {
    if db == [] || db[0].kind == FREE then 0 else 1 + Used(db[1..])
  }

  function EntryFlags(db: seq<Event>, d: Date): (flags: seq<bool>)
    requires 1 <= d.month <= 12
    ensures |flags| == |db|
  {
    seq(|db|, i requires 0 <= i < |db| => Hit(db[i], d))
  }

  function EntryHits(db: seq<Event>, d: Date): seq<int>
    requires 1 <= d.month <= 12
  {
    Hits(EntryFlags(db, d)[..Used(db)], 0)
  }

  function Shortened(s: seq<int>): seq<int> {
    if |s| <= MAXPERDAY then s else s[..MAXPERDAY]
  }

  /** What a day shows: its holidays, then its entries, ten at most. */
  function Listing(v: seq<VariableDay>, db: seq<Event>, d: Date): seq<int>
    requires 1 <= d.month <= 12
  {
    Shortened(HolidayHits(v, d) + EntryHits(db, d))
  }

  /** All that falls on a day: its holidays, then its entries. */
  function AllHits(v: seq<VariableDay>, db: seq<Event>, d: Date): seq<int>
    requires 1 <= d.month <= 12
  {
    HolidayHits(v, d) + EntryHits(db, d)
  }

  /** These numbers are, told by dates, the holidays of the day, and the entries before the first
      free one that fall on it. */
  ghost predicate Tells(hits: seq<int>, v: seq<VariableDay>, db: seq<Event>, d: Date) {
    && (forall x :: x in hits ==> 0 <= x < Used(db) || MAXENTRYS < x <= MAXENTRYS + |v|)
    && (forall i :: 0 <= i < Used(db) && (db[i].kind == PERIOD ==> Valid(d) && CountsRight(db[i])) ==>
          (i in hits <==> FallsOn(db[i], d)))
    && (forall i, x :: 0 <= i < |v| && x == MAXENTRYS + 1 + i ==> (x in hits <==> InYear(v[i], d.year) == d))
  }

  lemma AllHitsTell(v: seq<VariableDay>, db: seq<Event>, d: Date)
    requires 1 <= d.month <= 12 && |db| <= MAXENTRYS
    ensures Tells(AllHits(v, db, d), v, db, d)
  {
    var hits := AllHits(v, db, d);
    forall x ensures x in hits <==> x in HolidayHits(v, d) || x in EntryHits(db, d) {
    }
    forall x
      ensures x in HolidayHits(v, d) <==> 0 <= x - MAXENTRYS - 1 < |v| && OnDay(v[x - MAXENTRYS - 1], d)
      ensures x in EntryHits(db, d) <==> 0 <= x < Used(db) && Hit(db[x], d)
    {
      HolidayHitsMean(v, d, x);
      EntryHitsMean(db, d, x);
    }
    forall i | 0 <= i < Used(db) && (db[i].kind == PERIOD ==> Valid(d) && CountsRight(db[i]))
      ensures i in hits <==> FallsOn(db[i], d)
    {
      HitMeans(db[i], d);
    }
  }

  /** A day shows the first ten of its holidays and entries, holidays first and each in the order of
      the tables. */
  lemma ListingMeans(v: seq<VariableDay>, db: seq<Event>, d: Date)
    requires 1 <= d.month <= 12 && |db| <= MAXENTRYS
    ensures Tells(AllHits(v, db, d), v, db, d)
    ensures Listing(v, db, d) <= AllHits(v, db, d)
    ensures |Listing(v, db, d)| == if |AllHits(v, db, d)| > 10 then 10 else |AllHits(v, db, d)|
    ensures |Listing(v, db, d)| < 10 ==> Tells(Listing(v, db, d), v, db, d)
    ensures forall j, k :: 0 <= j < k < |Listing(v, db, d)| ==> Listed(Listing(v, db, d)[j], Listing(v, db, d)[k])
  {
    AllHitsTell(v, db, d);
    forall j, k | 0 <= j < k < |AllHits(v, db, d)| ensures Listed(AllHits(v, db, d)[j], AllHits(v, db, d)[k]) {
      AllHitsInOrder(v, db, d, j, k);
    }
  }

  /** The order of the list. */
  predicate Listed(x: int, y: int) {
    if x > MAXENTRYS then y < MAXENTRYS || x < y else x < y < MAXENTRYS
  }

  lemma AllHitsInOrder(v: seq<VariableDay>, db: seq<Event>, d: Date, j: nat, k: nat)
    requires 1 <= d.month <= 12 && |db| <= MAXENTRYS && j < k < |AllHits(v, db, d)|
    ensures Listed(AllHits(v, db, d)[j], AllHits(v, db, d)[k])
  {
    var h, e := HolidayHits(v, d), EntryHits(db, d);
    HitsExact(HolidayFlags(v, d), MAXENTRYS + 1);
    HitsExact(EntryFlags(db, d)[..Used(db)], 0);
    if j < |h| {
      HolidayHitsMean(v, d, h[j]);
    } else {
      EntryHitsMean(db, d, e[j - |h|]);
    }
    if k >= |h| {
      EntryHitsMean(db, d, e[k - |h|]);
    }
  }

  lemma HolidayHitsMean(v: seq<VariableDay>, d: Date, x: int)
    ensures x in HolidayHits(v, d) <==> 0 <= x - MAXENTRYS - 1 < |v| && OnDay(v[x - MAXENTRYS - 1], d)
  {
    HitsExact(HolidayFlags(v, d), MAXENTRYS + 1);
    if 0 <= x - MAXENTRYS - 1 < |v| {
      assert HolidayFlags(v, d)[x - MAXENTRYS - 1] == OnDay(v[x - MAXENTRYS - 1], d);
    }
  }

  lemma EntryHitsMean(db: seq<Event>, d: Date, x: int)
    requires 1 <= d.month <= 12
    ensures x in EntryHits(db, d) <==> 0 <= x < Used(db) && Hit(db[x], d)
  {
    HitsExact(EntryFlags(db, d)[..Used(db)], 0);
    if 0 <= x < Used(db) {
      assert EntryFlags(db, d)[..Used(db)][x] == Hit(db[x], d);
    }
  }

  /** What is listed when the list is full, or the entries are done, is all that is ever listed. */
  lemma StoppedEarly(flags: seq<bool>, h: seq<int>, i: nat, used: nat)
    requires i <= used <= |flags|
    requires i == used || |h + Hits(flags[..i], 0)| == MAXPERDAY
    requires |h + Hits(flags[..i], 0)| <= MAXPERDAY
    ensures h + Hits(flags[..i], 0) == Shortened(h + Hits(flags[..used], 0))
  {
    assert flags[..used][..i] == flags[..i];
    HitsPrefix(flags[..used], 0, i);
  }
}
