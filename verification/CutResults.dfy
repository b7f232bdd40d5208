/** The results about whole cuts: what is removed, when overlapping bookmarks spoil it, and
    what the byte counts say. */
module CutResults {
  import opened Recording
  import opened CutPlan
  import opened CutMeaning
  import opened Bookmarks
  import opened Overlaps
  import opened Requests
  import CL = CutLoop
  import CR = CutRun
  import opened CutEnds
  import opened CutLate
  import opened CutOrder
  import opened CutTables

  /** The resolved table is as module CutOrder takes it. */
  lemma SkippedResolved(m: Movie, sorted: seq<Book>, total: nat)
    requires QSorted(CutTable(m), sorted) && Near(CutTable(m)) && CutTable(m) != [] && total <= m.size
    ensures Resolved(Skipped(sorted), total)
  {
    SkippedIntervals(m, sorted);
    CR.SaneIsCalm(Skipped(sorted), m.size, total);
  }

  /** A cut whose survivors are in turn writes exactly the bytes that no bookmark asked to remove,
      less the trims, however the recording is split into parts. */
  lemma CutKeepsTheRest(m: Movie, sorted: seq<Book>, parts: seq<Bytes>)
    requires QSorted(CutTable(m), sorted) && Near(CutTable(m)) && CutTable(m) != []
    requires |Flat(parts)| <= m.size && AllInTurn(Skipped(sorted), |Flat(parts)|)
    ensures Followable(parts, Skipped(sorted), 0, 0)
    ensures CutFrom(parts, Skipped(sorted), 0, false) == KeptFrom(parts, Skipped(sorted), 0)
    ensures forall x :: Covered(Skipped(sorted), x) <==> OkCovered(CutTable(m), x)
    ensures forall x :: Covered(Skipped(sorted), x) <==> Asked(m, x)
  {
    SkippedIntervals(m, sorted);
    forall x ensures OkCovered(CutTable(m), x) <==> Asked(m, x) {
      CutTableAsks(m, x);
    }
    SkippedResolved(m, sorted, |Flat(parts)|);
    ForwardIffInTurn(Skipped(sorted), |Flat(parts)|);
    CutIsKept(parts, Skipped(sorted));
  }

  /** And only such a cut: under any other table some recording of this length is cut wrongly. */
  lemma CutRightIffInTurn(m: Movie, sorted: seq<Book>, total: nat)
    requires QSorted(CutTable(m), sorted) && Near(CutTable(m)) && CutTable(m) != [] && total <= m.size
    ensures AllInTurn(Skipped(sorted), total) <==>
            forall parts: seq<Bytes> :: |Flat(parts)| == total ==>
              CutFrom(parts, Skipped(sorted), 0, false) == KeptFrom(parts, Skipped(sorted), 0)
  {
    SkippedResolved(m, sorted, total);
    ForwardIffInTurn(Skipped(sorted), total);
    CutCorrectIffForward(Skipped(sorted), total);
  }

  predicate DistinctStarts(books: seq<Book>) {
    forall j, k :: 0 <= j < k < |books| ==> books[j].pos != books[k].pos
  }

  /** Survivors that start at different bytes lie apart, so the cut is as asked for. */
  lemma DistinctStartsCutWell(m: Movie, sorted: seq<Book>, parts: seq<Bytes>)
    requires QSorted(CutTable(m), sorted) && Near(CutTable(m)) && CutTable(m) != []
    requires |Flat(parts)| <= m.size && DistinctStarts(Skipped(sorted))
    ensures Apart(Skipped(sorted)) && AllInTurn(Skipped(sorted), |Flat(parts)|)
    ensures CutFrom(parts, Skipped(sorted), 0, false) == KeptFrom(parts, Skipped(sorted), 0)
  {
    SkippedIntervals(m, sorted);
    CutKeepsTheRest(m, sorted, parts);
  }

  /** Where copying stops for good: at the recorded size, or at the last interval if that starts
      behind it. */
  function Limit(s: seq<Book>, size: nat): int
    requires s != []
  {
    Max(size, s[|s| - 1].pos)
  }

  /** Behind an interval that starts behind the recorded size nothing is copied any more. */
  lemma {:induction false} ClosedLater(parts: seq<Bytes>, s: seq<Book>, size: nat, later: nat, f: int, gop: bool)
    requires s != [] && later == Limit(s, size) && AllCalm(s, |Flat(parts)|)
    ensures CutFrom(parts, Closed(s, size, |Flat(parts)|), f, gop) == CutFrom(parts, Closed(s, later, |Flat(parts)|), f, gop)
    decreases |s|
  {
    var total := |Flat(parts)|;
    ClosedTail(s, size, total);
    ClosedTail(s, later, total);
    if !Last(total, s) && size != later {
      assert Calm(s[0], total);
      if |s| == 1 {
        CL.NothingBehind(parts, size, s[0].End(), true);
        CL.NothingBehind(parts, later, s[0].End(), true);
      } else {
        ClosedLater(parts, s[1..], size, later, s[0].End(), true);
      }
    }
  }

  /** A recording that is longer than its recorded size is cut like the others up to that size, or
      to its last interval, and from there on nothing of it is kept. */
  lemma LongerThanRecorded(m: Movie, sorted: seq<Book>, parts: seq<Bytes>)
    requires QSorted(CutTable(m), sorted) && Near(CutTable(m)) && CutTable(m) != []
    requires m.size < |Flat(parts)| && DistinctStarts(Skipped(sorted)) && AllCalm(Skipped(sorted), |Flat(parts)|)
    ensures Skipped(sorted) != [] && CL.InOrder(parts, Resolve(sorted, 0), m.size)
    ensures var s, total := Skipped(sorted), |Flat(parts)|; var meant := Closed(s, Limit(s, m.size), total);
      && CutFrom(parts, Closed(s, m.size, total), 0, false) == KeptFrom(parts, meant, 0)
      && forall x :: 0 <= x < total ==> (Covered(meant, x) <==> Asked(m, x) || Limit(s, m.size) <= x)
  {
    var s, total := Skipped(sorted), |Flat(parts)|;
    SkippedIntervals(m, sorted);
    ResolvedTable(m, sorted);
    CR.SurvivorsAt(Resolve(sorted, 0), 0);
    var limit := Limit(s, m.size);
    ApartForward(s, total, m.size, 0);
    ApartForward(s, total, limit, 0);
    ClosedSorted(s, limit, total);
    ClosedLater(parts, s, m.size, limit, 0, false);
    CutIsKept(parts, Closed(s, limit, total));
    forall x | 0 <= x < total ensures Covered(Closed(s, limit, total), x) <==> Asked(m, x) || limit <= x {
      CoveredClosed(s, limit, total, x);
      CutTableAsks(m, x);
    }
  }

  lemma ClosedSorted(s: seq<Book>, limit: nat, total: nat)
    requires SortedByStart(s) && AllCalm(s, total) && s != [] && s[|s| - 1].pos <= limit
    ensures SortedByStart(Closed(s, limit, total)) && AllCalm(Closed(s, limit, total), total)
  {
    assert forall k :: 0 <= k < |s| ==> s[k].pos <= s[|s| - 1].pos;
  }

  lemma CoveredClosed(s: seq<Book>, size: nat, total: nat, x: nat)
    requires x < total
    ensures Covered(Closed(s, size, total), x) <==> Covered(s, x) || size <= x
  {
    var plan := Closed(s, size, total);
    if Covered(s, x) {
      var k :| 0 <= k < |s| && s[k].pos <= x < s[k].End();
      assert plan[k] == s[k];
    }
    if size <= x {
      assert plan[|s|].pos <= x < plan[|s|].End();
    }
  }

  /** The last interval ends before it starts, and takes the loop back to before the part in which
      it is reached. */
  ghost predicate TakenTooFar(parts: seq<Bytes>, size: nat, s: seq<Book>)
    requires s != []
  {
    var last := s[|s| - 1];
    last.len < 0 && last.pos <= |Flat(parts)| && size + last.len < PartBase(parts, 0, Stop(s))
  }

  /** However many turns it takes, the cut ends well, or does not. */
  ghost predicate EndsAs(parts: seq<Bytes>, m: Movie, sorted: seq<Book>, well: bool) {
    var table := Resolve(sorted, 0);
    table != [] && table[0].ok &&
    forall n: nat :: CR.After(parts, table, m.size, CR.Start(table), n).Over? ==>
      CR.After(parts, table, m.size, CR.Start(table), n) == CR.Over(well)
  }

  /** The cut ends exactly if one of these holds, well if the first does and badly if not. */
  ghost predicate CutEndsWhen(parts: seq<Bytes>, m: Movie, sorted: seq<Book>, well: bool, badly: bool) {
    (CR.LoopEnds(parts, Resolve(sorted, 0), m.size) <==> well || badly) && EndsAs(parts, m, sorted, well)
  }

  /** When the cut of a movie ends: with survivors that start at different bytes, of which only the
      last may end before it starts, it ends well exactly if the recorded size and the last survivor's
      length reach the end of the recording, or some survivor does; else it ends, badly, exactly if it
      is taken back too far. */
  lemma CutEndsIff(m: Movie, sorted: seq<Book>, parts: seq<Bytes>)
    requires QSorted(CutTable(m), sorted) && Near(CutTable(m)) && CutTable(m) != []
    requires DistinctStarts(Skipped(sorted)) && forall k :: 0 <= k < |Skipped(sorted)| - 1 ==> 0 <= Skipped(sorted)[k].len
    ensures var s := Skipped(sorted);
      s != [] && CutEndsWhen(parts, m, sorted, CR.CanEnd(|Flat(parts)|, m.size, s, s[|s| - 1].len),
                             TakenTooFar(parts, m.size, s))
  {
    FrontOfTable(m, sorted);
    if Skipped(sorted)[|Skipped(sorted)| - 1].len < 0 && Skipped(sorted)[|Skipped(sorted)| - 1].pos <= |Flat(parts)| {
      LateEndsExactly(parts, Resolve(sorted, 0), m.size);
    } else {
      CalmTable(Skipped(sorted), m.size, |Flat(parts)|);
      ForwardCutEndsIff(m, sorted, parts);
    }
  }

  lemma FrontOfTable(m: Movie, sorted: seq<Book>)
    requires QSorted(CutTable(m), sorted) && Near(CutTable(m)) && CutTable(m) != []
    requires DistinctStarts(Skipped(sorted)) && forall k :: 0 <= k < |Skipped(sorted)| - 1 ==> 0 <= Skipped(sorted)[k].len
    ensures Resolve(sorted, 0) != [] && Resolve(sorted, 0)[0].ok
    ensures InFront(Skipped(sorted)) && AllSane(Skipped(sorted), m.size)
    ensures var last := Skipped(sorted)[|Skipped(sorted)| - 1]; last.len < 0 ==> m.size <= last.End()
  {
    SkippedIntervals(m, sorted);
    ResolvedTable(m, sorted);
    CR.SurvivorsAt(Resolve(sorted, 0), 0);
    assert Sane(Skipped(sorted)[|Skipped(sorted)| - 1], m.size);
  }

  lemma CalmTable(s: seq<Book>, size: nat, total: nat)
    requires InFront(s) && AllSane(s, size) && (0 <= s[|s| - 1].len || total < s[|s| - 1].pos)
    ensures AllCalm(s, total)
  {
  }

  lemma ForwardCutEndsIff(m: Movie, sorted: seq<Book>, parts: seq<Bytes>)
    requires QSorted(CutTable(m), sorted) && Near(CutTable(m)) && CutTable(m) != []
    requires DistinctStarts(Skipped(sorted)) && AllCalm(Skipped(sorted), |Flat(parts)|)
    ensures var s := Skipped(sorted);
      s != [] && CutEndsWhen(parts, m, sorted, CR.CanEnd(|Flat(parts)|, m.size, s, s[|s| - 1].len), false)
  {
    var table := Resolve(sorted, 0);
    SkippedIntervals(m, sorted);
    ResolvedTable(m, sorted);
    ApartForward(Skipped(sorted), |Flat(parts)|, m.size, 0);
    CR.EndsExactly(parts, table, m.size);
    forall n: nat | CR.After(parts, table, m.size, CR.Start(table), n).Over?
      ensures CR.LoopEnds(parts, table, m.size) && CR.After(parts, table, m.size, CR.Start(table), n) == CR.Over(true)
    {
      CR.CourseEndsWell(parts, table, m.size, 0, CR.Start(table), n);
    }
  }

  /** When the cut of a recording of one part ends, whatever the bookmarks: well exactly as above,
      badly exactly if the last survivor takes the loop back to before the recording. */
  lemma OnePartCutEndsIff(m: Movie, sorted: seq<Book>, part: Bytes)
    requires QSorted(CutTable(m), sorted) && CutTable(m) != []
    ensures var s := Skipped(sorted);
      s != [] && CutEndsWhen([part], m, sorted, CR.CanEnd(|part|, m.size, s, s[|s| - 1].len), m.size + s[|s| - 1].len < 0)
  {
    var table, s := Resolve(sorted, 0), Skipped(sorted);
    ResolvedTable(m, sorted);
    CR.SurvivorsSane(table, 0, m.size);
    assert forall k :: 0 <= k < |s| ==> Sane(s[k], m.size);
    OnePartEndsExactly(part, table, m.size);
    forall n: nat | CR.After([part], table, m.size, CR.Start(table), n).Over?
      ensures CR.After([part], table, m.size, CR.Start(table), n)
           == CR.Over(CR.CanEnd(|part|, m.size, s, s[|s| - 1].len))
    {
      OnePartEndsWell(part, table, m.size, n);
    }
  }

  // A recording of 30 MB whose recorded size is still 20 MB, with one jump in it.
  const STALE: Movie := Movie(20_000_000, 0, 0, 0, [Bookmark(1, 10)])

  lemma StaleTableIs(sorted: seq<Book>)
    requires QSorted(CutTable(STALE), sorted)
    ensures CutTable(STALE) == [Book(510984, 4847956, true)] == sorted
  {
    var b := Book(510984, 4847956, true);
    assert CutSecSize(STALE) == 511040;
    assert STALE.user[..0] == [];
    assert CutTable(STALE) == [b];
    assert |sorted| == |multiset(sorted)| == 1;
    assert sorted[0] in multiset(sorted);
  }

  lemma OneSurvivor(b: Book)
    requires b.ok
    ensures Resolve([b], 0) == [b] && Survivors([b], 0) == [b]
  {
    assert Pass([b], 0) == [b];
    assert Resolve([b], 1) == [b];
    assert Survivors([b], 1) == [];
  }

  /** The cut of that recording never ends: behind the recorded size the loop comes back to the
      same place, 4847956 bytes further on, turn after turn. */
  lemma StaleSizeRunsForEver(part: Bytes, sorted: seq<Book>)
    requires |part| == 30_000_000 && QSorted(CutTable(STALE), sorted)
    ensures !CR.LoopEnds([part], Resolve(sorted, 0), STALE.size)
  {
    var b := Book(510984, 4847956, true);
    StaleTableIs(sorted);
    OneSurvivor(b);
    OnePart(part);
    CR.EndsExactly([part], [b], STALE.size);
    assert !CR.CanEnd(30_000_000, STALE.size, [b], b.len);
  }

  // The same recording with an end bookmark behind the recorded size.
  const LATE_END: Movie := Movie(20_000_000, 0, 0, 49, [])

  lemma LateTableIs(sorted: seq<Book>)
    requires QSorted(CutTable(LATE_END), sorted)
    ensures CutTable(LATE_END) == [Book(25040848, -5040848, true)] == sorted
  {
    var b := Book(25040848, -5040848, true);
    assert CutSecSize(LATE_END) == 511040;
    assert UserBooks([], 511040) == [];
    assert CutTable(LATE_END) == [b];
    assert |sorted| == |multiset(sorted)| == 1;
    assert sorted[0] in multiset(sorted);
  }

  /** The cut of that recording never ends either, and writes for ever: it comes to a place to which
      every turn takes it back, copying 5040848 bytes on the way. */
  lemma LateEndWritesForEver(part: Bytes, sorted: seq<Book>) returns (turns: nat)
    requires |part| == 30_000_000 && QSorted(CutTable(LATE_END), sorted)
    ensures Resolve(sorted, 0) != [] && Resolve(sorted, 0)[0].ok
    ensures var q := CR.After([part], Resolve(sorted, 0), LATE_END.size, CR.Start(Resolve(sorted, 0)), turns);
      && q.Place? && CR.Turn([part], Resolve(sorted, 0), LATE_END.size, q) == q
      && q.part == 0 && CR.Pumped(part, q).fpos == q.fpos + 5040848
    ensures !CR.LoopEnds([part], Resolve(sorted, 0), LATE_END.size)
  {
    var b := Book(25040848, -5040848, true);
    LateTableIs(sorted);
    OneSurvivor(b);
    OnePart(part);
    OnePartEndsExactly(part, [b], LATE_END.size);
    assert !CR.CanEnd(30_000_000, LATE_END.size, [b], b.len);
    CR.EndsIffNoRepeat([part], [b], LATE_END.size, CR.Start([b]));
    turns :| var q := CR.After([part], [b], LATE_END.size, CR.Start([b]), turns);
             q.Place? && CR.Turn([part], [b], LATE_END.size, q) == q;
    var q := CR.After([part], [b], LATE_END.size, CR.Start([b]), turns);
    CR.RepeatedTurn([part], [b], LATE_END.size, q);
    OnePartLast(part, [b], LATE_END.size, turns);
  }

  // Three jumps of a 20 MB recording: the second and third both run over the end of the first
  // and are moved there, the longer one in front.
  const SPOILED: Movie := Movie(20_000_000, 0, 0, 0, [Bookmark(1, 10), Bookmark(2, 20), Bookmark(3, 10)])

  function SpoiledTable(): seq<Book> {
    [Book(510984, 4847956, true), Book(1021968, 9958360, true), Book(1532952, 4847956, true)]
  }

  lemma SpoiledTableIs()
    ensures CutTable(SPOILED) == SpoiledTable()
  {
    assert CutSecSize(SPOILED) == 511040;
    var user := SPOILED.user;
    assert user[..3] == user && user[..2][..1] == user[..1] && user[..1][..0] == [];
    assert UserBooks(user[..1], 511040) == [UserBook(user[0], 511040)];
    assert UserBooks(user[..2], 511040) == [UserBook(user[0], 511040), UserBook(user[1], 511040)];
    assert UserBooks(user, 511040) == [UserBook(user[0], 511040), UserBook(user[1], 511040), UserBook(user[2], 511040)];
  }

  lemma SpoiledSurvivors()
    ensures Skipped(SpoiledTable())
         == [Book(510984, 4847956, true), Book(5358940, 5621388, true), Book(5358940, 1021968, true)]
  {
    var s := SpoiledTable();
    var r := [Book(510984, 4847956, true), Book(5358940, 5621388, true), Book(5358940, 1021968, true)];
    assert Pass(s, 0) == r;
    assert Pass(r, 1) == r && Pass(r, 2) == r;
    assert Resolve(r, 1) == Resolve(r, 2) == Resolve(r, 3) == r;
    assert Survivors(r, 3) == [];
    assert Survivors(r, 2) == [r[2]];
    assert Survivors(r, 1) == [r[1], r[2]];
  }

  lemma SpoiledReadsBack(a: Book, b: Book, c: Book)
    requires a == Book(510984, 4847956, true) && b == Book(5358940, 5621388, true) && c == Book(5358940, 1021968, true)
    ensures !ReadsForward(20_000_000, [a, b, c], 0, 0)
  {
    assert !ReadsForward(20_000_000, [], 10980328, c.End());
    assert [c][1..] == [] && [b, c][1..] == [c] && [a, b, c][1..] == [b, c];
    assert !ReadsForward(20_000_000, [c], 10980328, b.End());
    assert !ReadsForward(20_000_000, [b, c], 5358940, a.End());
  }

  /** With these bookmarks bytes that were to be cut come back: the interval that was moved
      behind the first jump and then jumped over is entered again by the shorter one. */
  lemma OverlapSpoilsCut() returns (parts: seq<Bytes>)
    ensures QSorted(CutTable(SPOILED), CutTable(SPOILED)) && |parts| == 1 && |Flat(parts)| == SPOILED.size
    ensures CutFrom(parts, Skipped(CutTable(SPOILED)), 0, false) != KeptFrom(parts, Skipped(CutTable(SPOILED)), 0)
  {
    SpoiledTableIs();
    SpoiledSurvivors();
    var s := Skipped(SpoiledTable());
    SpoiledReadsBack(s[0], s[1], s[2]);
    assert s == [s[0], s[1], s[2]];
    assert SortedByBlock(SpoiledTable());
    parts := BadTableFails(s, 20_000_000);
  }

  // The measure of the union

  /** How many of the bytes before n some interval covers. */
  ghost function CoveredCount(books: seq<Book>, n: nat): nat {
    if n == 0 then 0 else CoveredCount(books, n - 1) + if Covered(books, n - 1) then 1 else 0
  }

  /** How many of the bytes before n are covered by b alone. */
  ghost function NewCount(b: Book, rest: seq<Book>, n: nat): nat {
    if n == 0 then 0
    else NewCount(b, rest, n - 1) + if b.pos <= n - 1 < b.End() && !Covered(rest, n - 1) then 1 else 0
  }

  lemma {:induction false} CountCons(b: Book, rest: seq<Book>, n: nat)
    ensures CoveredCount([b] + rest, n) == CoveredCount(rest, n) + NewCount(b, rest, n)
  {
    if n > 0 {
      CountCons(b, rest, n - 1);
      CoveredCons(b, rest, n - 1);
    }
  }

  lemma {:induction false} NewCountBound(b: Book, rest: seq<Book>, n: nat, x: int)
    requires 0 <= b.pos && 0 <= b.len
    ensures NewCount(b, rest, n) <= Max(Min(n, b.End()) - b.pos, 0)
    ensures (forall y :: b.pos <= y < b.End() ==> !Covered(rest, y))
            ==> NewCount(b, rest, n) == Max(Min(n, b.End()) - b.pos, 0)
    ensures b.pos <= x < b.End() && x < n && Covered(rest, x)
            ==> NewCount(b, rest, n) < Max(Min(n, b.End()) - b.pos, 0)
  {
    if n > 0 {
      NewCountBound(b, rest, n - 1, x);
    }
  }

  predicate InRange(books: seq<Book>, n: int) {
    forall k :: 0 <= k < |books| ==> 0 <= books[k].pos && 0 <= books[k].len && books[k].End() <= n
  }

  /** No two intervals that are not empty start together. */
  predicate OnceStarted(books: seq<Book>) {
    forall j, k :: 0 <= j < k < |books| && books[j].len > 0 && books[k].len > 0 ==> books[j].pos != books[k].pos
  }

  lemma OnceCons(b: Book, rest: seq<Book>)
    ensures OnceStarted([b] + rest) <==>
            OnceStarted(rest) && forall k :: 0 <= k < |rest| && b.len > 0 && rest[k].len > 0 ==> rest[k].pos != b.pos
  {
    var s := [b] + rest;
    assert forall k :: 0 <= k < |rest| ==> rest[k] == s[k + 1];
    if OnceStarted(s) {
      forall k | 0 <= k < |rest| && b.len > 0 && rest[k].len > 0 ensures rest[k].pos != b.pos {
        assert s[0].pos != s[k + 1].pos;
      }
      forall j, k | 0 <= j < k < |rest| && rest[j].len > 0 && rest[k].len > 0 ensures rest[j].pos != rest[k].pos {
        assert s[j + 1].pos != s[k + 1].pos;
      }
    }
  }

  /** The first interval adds its whole length, unless a later one starts with it. */
  lemma HeadCount(b: Book, rest: seq<Book>, n: nat)
    requires InRange([b], n) && InRange(rest, n)
    requires forall k :: 0 <= k < |rest| ==> b.pos <= rest[k].pos && TogetherOrApart(b, rest[k])
    ensures NewCount(b, rest, n) <= b.len
    ensures NewCount(b, rest, n) == b.len <==>
            forall k :: 0 <= k < |rest| && b.len > 0 && rest[k].len > 0 ==> rest[k].pos != b.pos
  {
    assert [b][0] == b;
    NewCountBound(b, rest, n, b.pos);
    if k :| 0 <= k < |rest| && b.len > 0 && rest[k].len > 0 && rest[k].pos == b.pos {
      assert Covered(rest, b.pos);
    } else {
      assert forall y :: b.pos <= y < b.End() ==> !Covered(rest, y);
    }
  }

  /** The intervals' lengths add up to the number of bytes they cover (all below n, which may be as
      large as one likes) exactly when no two of them that are not empty start together; otherwise
      they add up to more, and the expected size comes out too small. */
  lemma {:induction false} LengthsAreMeasure(books: seq<Book>, n: nat)
    requires InRange(books, n) && SortedByStart(books)
    requires forall j, k :: 0 <= j < k < |books| ==> TogetherOrApart(books[j], books[k])
    ensures CoveredCount(books, n) <= SumLen(books)
    ensures CoveredCount(books, n) == SumLen(books) <==> OnceStarted(books)
    decreases |books|
  {
    if books == [] {
      NothingCovered(n);
    } else {
      var b, rest := books[0], books[1..];
      assert books == [b] + rest;
      LengthsAreMeasure(rest, n);
      CountCons(b, rest, n);
      forall k | 0 <= k < |rest| ensures b.pos <= rest[k].pos && TogetherOrApart(b, rest[k]) {
        assert books[k + 1] == rest[k];
      }
      HeadCount(b, rest, n);
      OnceCons(b, rest);
    }
  }

  lemma {:induction false} NothingCovered(n: nat)
    ensures CoveredCount([], n) == 0
  {
    if n > 0 {
      NothingCovered(n - 1);
    }
  }

  /** Of survivors that start at different bytes the expected size leaves at most the bytes that
      will be copied, and just these if and only if every survivor lies within the recording. */
  lemma ExpectedSizeIsExact(m: Movie, sorted: seq<Book>)
    requires QSorted(CutTable(m), sorted) && Near(CutTable(m)) && CutTable(m) != []
    requires DistinctStarts(Skipped(sorted)) && forall k :: 0 <= k < |Skipped(sorted)| ==> 0 <= Skipped(sorted)[k].len
    ensures var s := Skipped(sorted);
      && m.size - SumLen(s) <= Ahead(m.size, s, 0)
      && (m.size - SumLen(s) == Ahead(m.size, s, 0) <==> forall k :: 0 <= k < |s| ==> Within(s[k], m.size))
  {
    SkippedIntervals(m, sorted);
    ApartAhead(Skipped(sorted), m.size, 0);
  }

  /** An end bookmark behind the recorded size raises the expected size by what it lies behind it,
      although nothing more will be copied. */
  lemma LateEndRaisesExpected(s: seq<Book>, size: nat)
    requires s != [] && size < s[|s| - 1].pos && s[|s| - 1].End() == size
    ensures size - SumLen(s) == size - SumLen(s[..|s| - 1]) + (s[|s| - 1].pos - size)
    ensures Ahead(size, s, 0) == Ahead(size, s[..|s| - 1], 0)
  {
    SumLenLast(s);
    AheadLast(s, size, 0);
  }

  lemma {:induction false} SumLenLast(s: seq<Book>)
    requires s != []
    ensures SumLen(s) == SumLen(s[..|s| - 1]) + s[|s| - 1].len
  {
    if |s| > 1 {
      SumLenLast(s[1..]);
      assert s[1..][..|s| - 2] == s[..|s| - 1][1..];
    }
  }

  lemma {:induction false} AheadLast(s: seq<Book>, total: nat, f: int)
    requires s != [] && total < s[|s| - 1].pos
    ensures Ahead(total, s, f) == Ahead(total, s[..|s| - 1], f)
    decreases |s|
  {
    if |s| > 1 {
      AheadLast(s[1..], total, s[0].End());
      assert s[1..][..|s| - 2] == s[..|s| - 1][1..];
    }
  }

  /** Conservation: of a recording of the recorded size, with survivors inside it that start at
      different bytes, the bytes written are in the end the bytes expected: the size, less the
      union of what was asked to be removed, less all trims. */
  lemma BytesConserved(m: Movie, sorted: seq<Book>, parts: seq<Bytes>, out: Bytes, spos: int, newsize: int)
    requires QSorted(CutTable(m), sorted) && Near(CutTable(m)) && CutTable(m) != []
    requires |Flat(parts)| == m.size && InRange(Skipped(sorted), m.size) && DistinctStarts(Skipped(sorted))
    requires CL.Written(parts, Skipped(sorted), m.size - SumLen(Skipped(sorted)), out, spos, newsize)
    ensures newsize == spos == |out|
    ensures spos == m.size - CoveredCount(Skipped(sorted), m.size) - Trims(parts, Skipped(sorted), 0, false)
  {
    SkippedIntervals(m, sorted);
    LengthsAreMeasure(Skipped(sorted), m.size);
    ExpectedSizeIsExact(m, sorted);
  }
}
