/** What a cut means: the recording without the bytes of the intervals, each resumed stretch
    being trimmed to its first GOP. The plan has this meaning exactly when it reads forward. */
module CutMeaning {
  import opened Recording
  import opened Gop
  import opened Streaming
  import opened CutPlan

  ghost predicate Covered(books: seq<Book>, x: int) {
    exists k :: 0 <= k < |books| && books[k].pos <= x < books[k].End()
  }

  predicate SortedByStart(books: seq<Book>) {
    forall j, k :: 0 <= j < k < |books| ==> books[j].pos <= books[k].pos
  }

  /** Byte x belongs to the trim of the stretch that follows interval k. */
  ghost predicate TrimmedAfter(parts: seq<Bytes>, books: seq<Book>, k: nat, x: int)
    requires k < |books|
  {
    var a, t := books[k].End(), Until(|Flat(parts)|, books[k + 1..]);
    books[k].pos <= |Flat(parts)| && a <= x < t && x < a + FlatDropped(parts, a, t, true)
  }

  ghost predicate Trimmed(parts: seq<Bytes>, books: seq<Book>, x: int) {
    exists k :: 0 <= k < |books| && TrimmedAfter(parts, books, k, x)
  }

  /** The bytes from flat position x on that lie in no interval and in no trim, in order. */
  ghost function KeptFrom(parts: seq<Bytes>, books: seq<Book>, x: nat): Bytes
    decreases |Flat(parts)| - x
  {
    if x >= |Flat(parts)| then []
    else (if Covered(books, x) || Trimmed(parts, books, x) then [] else [Flat(parts)[x]])
         + KeptFrom(parts, books, x + 1)
  }

  lemma SliceHead(part: Bytes, a: nat, b: nat, rest: Bytes)
    requires a < b <= |part|
    ensures Slice(part, a, b) + rest == [part[a]] + (Slice(part, a + 1, b) + rest)
  {
    assert part[a..b] == [part[a]] + part[a + 1..b];
    Associate([part[a]], part[a + 1..b], rest);
  }

  lemma {:induction false} KeptRun(parts: seq<Bytes>, books: seq<Book>, a: nat, b: nat)
    requires a <= b <= |Flat(parts)|
    requires forall x :: a <= x < b ==> !Covered(books, x) && !Trimmed(parts, books, x)
    ensures KeptFrom(parts, books, a) == Slice(Flat(parts), a, b) + KeptFrom(parts, books, b)
    decreases b - a
  {
    if a == b {
      assert Slice(Flat(parts), a, b) == [];
    } else {
      KeptRun(parts, books, a + 1, b);
      SliceHead(Flat(parts), a, b, KeptFrom(parts, books, b));
    }
  }

  lemma {:induction false} GapRun(parts: seq<Bytes>, books: seq<Book>, a: nat, b: nat)
    requires a <= b <= |Flat(parts)|
    requires forall x :: a <= x < b ==> Covered(books, x) || Trimmed(parts, books, x)
    ensures KeptFrom(parts, books, a) == KeptFrom(parts, books, b)
    decreases b - a
  {
    if a < b {
      GapRun(parts, books, a + 1, b);
    }
  }

  /** Interval k lies ahead of x or behind it according to its place in the table. */
  lemma NotCovered(parts: seq<Bytes>, books: seq<Book>, k: nat, floor: int, x: int)
    requires k <= |books| && SortedByStart(books)
    requires forall j :: 0 <= j < k ==> books[j].End() <= floor
    requires floor <= x && (k < |books| ==> x < books[k].pos)
    ensures !Covered(books, x)
  {
  }

  lemma NotTrimmedAfter(parts: seq<Bytes>, books: seq<Book>, k: nat, floor: int, m: nat, x: int)
    requires AllCalm(books, |Flat(parts)|) && k <= |books| && SortedByStart(books) && m < |books| && m != k - 1
    requires forall j :: 0 <= j < k ==> books[j].pos <= |Flat(parts)| && books[j].End() <= floor
    requires floor <= x < Until(|Flat(parts)|, books[k..])
    ensures !TrimmedAfter(parts, books, m, x)
  {
    if m < k - 1 {
      assert books[m + 1..][0] == books[m + 1];
      assert Calm(books[m + 1], |Flat(parts)|);
    } else {
      assert books[m].pos <= |Flat(parts)| ==> Until(|Flat(parts)|, books[k..]) <= books[m].End();
    }
  }

  lemma NotTrimmed(parts: seq<Bytes>, books: seq<Book>, k: nat, floor: int, x: int)
    requires AllCalm(books, |Flat(parts)|) && k <= |books| && SortedByStart(books)
    requires forall j :: 0 <= j < k ==> books[j].pos <= |Flat(parts)| && books[j].End() <= floor
    requires floor <= x < Until(|Flat(parts)|, books[k..])
    requires k > 0 ==> !TrimmedAfter(parts, books, k - 1, x)
    ensures !Trimmed(parts, books, x)
  {
    forall m | 0 <= m < |books| && m != k - 1
      ensures !TrimmedAfter(parts, books, m, x)
    {
      NotTrimmedAfter(parts, books, k, floor, m, x);
    }
  }

  /** Where the copying before interval k starts, and whether it must find a GOP first. */
  function ResumeAt(books: seq<Book>, k: nat): int
    requires k <= |books|
  {
    if k == 0 then 0 else books[k - 1].End()
  }

  /** The state of affairs before interval k: all earlier intervals end at or before floor. */
  ghost predicate Behind(parts: seq<Bytes>, books: seq<Book>, k: nat, floor: int) {
    && AllCalm(books, |Flat(parts)|) && SortedByStart(books) && k <= |books|
    && 0 <= ResumeAt(books, k) <= floor
    && forall j :: 0 <= j < k ==> books[j].pos <= |Flat(parts)| && books[j].End() <= floor
  }

  /** The stretch before interval k, read from its start, is what the plan copies there. */
  lemma Stretch(parts: seq<Bytes>, books: seq<Book>, k: nat, f: nat, t: nat)
    requires Behind(parts, books, k, f) && f == ResumeAt(books, k)
    requires f < t == Until(|Flat(parts)|, books[k..])
    ensures KeptFrom(parts, books, f) == Segment(parts, f, t, k > 0) + KeptFrom(parts, books, t)
  {
    var from := f + FlatDropped(parts, f, t, k > 0);
    forall x | f <= x < from
      ensures Trimmed(parts, books, x)
    {
      assert TrimmedAfter(parts, books, k - 1, x);
    }
    GapRun(parts, books, f, from);
    StretchKept(parts, books, k, f, t, from);
  }

  /** Behind the trim everything up to the next interval is kept. */
  lemma StretchKept(parts: seq<Bytes>, books: seq<Book>, k: nat, f: nat, t: nat, from: nat)
    requires Behind(parts, books, k, f) && f == ResumeAt(books, k)
    requires f < t == Until(|Flat(parts)|, books[k..]) && from <= t
    requires from == f + FlatDropped(parts, f, t, k > 0)
    ensures KeptFrom(parts, books, from) == Slice(Flat(parts), from, t) + KeptFrom(parts, books, t)
  {
    forall x | from <= x < t
      ensures !Covered(books, x) && !Trimmed(parts, books, x)
    {
      NotCovered(parts, books, k, f, x);
      NotTrimmed(parts, books, k, f, x);
    }
    KeptRun(parts, books, from, t);
  }

  /** Between the start of interval k, or a later position, and its end nothing is kept. */
  lemma Hole(parts: seq<Bytes>, books: seq<Book>, k: nat, from: nat)
    requires k < |books| && Until(|Flat(parts)|, books[k..]) <= from <= |Flat(parts)|
    ensures KeptFrom(parts, books, from) == KeptFrom(parts, books, Min(Max(from, books[k].End()), |Flat(parts)|))
  {
    var to := Min(Max(from, books[k].End()), |Flat(parts)|);
    forall x | from <= x < to
      ensures Covered(books, x)
    {
      assert books[k].pos <= x < books[k].End();
    }
    GapRun(parts, books, from, to);
  }

  /** What is copied before interval k, whether something is or not. */
  lemma CopiedBefore(parts: seq<Bytes>, books: seq<Book>, k: nat, floor: nat, f: nat, t: nat)
    requires Behind(parts, books, k, floor) && f == ResumeAt(books, k) && t == Until(|Flat(parts)|, books[k..])
    requires f < |Flat(parts)| && (f < t ==> floor == f)
    ensures Segment(parts, f, t, k > 0) + KeptFrom(parts, books, Min(Max(floor, t), |Flat(parts)|))
         == KeptFrom(parts, books, Min(floor, |Flat(parts)|))
  {
    if f < t {
      Stretch(parts, books, k, f, t);
    } else {
      assert Segment(parts, f, t, k > 0) == [];
    }
  }

  /** What is kept from interval k on is kept behind its end. */
  lemma SkipInterval(parts: seq<Bytes>, books: seq<Book>, k: nat, floor: nat, next: nat)
    requires Behind(parts, books, k, floor) && k < |books| && books[k].pos <= |Flat(parts)|
    requires next == Max(floor, books[k].End())
    ensures Behind(parts, books, k + 1, next)
    ensures var at := Min(Max(floor, Until(|Flat(parts)|, books[k..])), |Flat(parts)|);
            KeptFrom(parts, books, at) == KeptFrom(parts, books, Min(next, |Flat(parts)|))
  {
    Hole(parts, books, k, Min(Max(floor, Until(|Flat(parts)|, books[k..])), |Flat(parts)|));
  }

  lemma {:induction false} CutIsKeptFrom(parts: seq<Bytes>, books: seq<Book>, k: nat, floor: nat)
    requires Behind(parts, books, k, floor)
    requires ReadsForward(|Flat(parts)|, books[k..], floor, ResumeAt(books, k))
    ensures CutFrom(parts, books[k..], ResumeAt(books, k), k > 0)
         == KeptFrom(parts, books, Min(floor, |Flat(parts)|))
    decreases |books| - k
  {
    var total, f, rest := |Flat(parts)|, ResumeAt(books, k), books[k..];
    var t := Until(total, rest);
    if f < total {
      CopiedBefore(parts, books, k, floor, f, t);
      if !Last(total, rest) {
        var next := Max(floor, books[k].End());
        assert rest[1..] == books[k + 1..];
        SkipInterval(parts, books, k, floor, next);
        CutIsKeptFrom(parts, books, k + 1, next);
      }
    }
  }

  /** A table that reads forward is cut as meant, however the recording is split into parts. */
  lemma CutIsKept(parts: seq<Bytes>, books: seq<Book>)
    requires AllCalm(books, |Flat(parts)|) && SortedByStart(books)
    requires ReadsForward(|Flat(parts)|, books, 0, 0)
    ensures CutFrom(parts, books, 0, false) == KeptFrom(parts, books, 0)
  {
    assert books[0..] == books;
    CutIsKeptFrom(parts, books, 0, 0);
  }

  /** The first position from which copying goes on behind what has been jumped to before. */
  function BadRead(total: nat, books: seq<Book>, floor: int, f: int): int
    requires !ReadsForward(total, books, floor, f)
    decreases |books|
  {
    if f < Until(total, books) && f < floor then f
    else BadRead(total, books[1..], Max(floor, books[0].End()), books[0].End())
  }

  /** That position lies in an interval all the same. */
  lemma {:induction false} BadReadCovered(total: nat, books: seq<Book>, k: nat, floor: int)
    requires AllCalm(books, total) && SortedByStart(books) && k <= |books|
    requires floor == 0 || exists j :: 0 <= j < k && books[j].End() == floor
    requires 0 <= ResumeAt(books, k) <= floor && (k > 0 ==> books[k - 1].len >= 0)
    requires !ReadsForward(total, books[k..], floor, ResumeAt(books, k))
    ensures var x := BadRead(total, books[k..], floor, ResumeAt(books, k));
            0 <= x < total && Covered(books, x)
    decreases |books| - k
  {
    var f := ResumeAt(books, k);
    if f < Until(total, books[k..]) && f < floor {
      var j :| 0 <= j < k && books[j].End() == floor;
      assert books[j].pos <= books[k - 1].pos <= f;
    } else {
      assert books[k..][1..] == books[k + 1..];
      var next := Max(floor, books[k].End());
      if next == books[k].End() {
        assert 0 <= k < k + 1 && books[k].End() == next;
      } else if floor != 0 {
        var j :| 0 <= j < k && books[j].End() == floor;
        assert 0 <= j < k + 1 && books[j].End() == next;
      }
      BadReadCovered(total, books, k + 1, next);
    }
  }

  /** The plan writes the byte at that position when no GOP is ever found. */
  lemma {:induction false} BadReadWritten(parts: seq<Bytes>, books: seq<Book>, floor: int, f: int, gop: bool)
    requires !ReadsForward(|Flat(parts)|, books, floor, f) && 0 <= f
    requires forall k :: 0 <= k < |books| ==> 0 <= books[k].End()
    requires forall x :: 0 <= x < |Flat(parts)| ==> Flat(parts)[x] != 0x47
    ensures var x := BadRead(|Flat(parts)|, books, floor, f);
            0 <= x < |Flat(parts)| && Flat(parts)[x] in CutFrom(parts, books, f, gop)
    decreases |books|
  {
    var t := Until(|Flat(parts)|, books);
    if f < t && f < floor {
      PartEndBounds(parts, 0, f);
      NoSyncNoGop(Flat(parts)[f..f + FirstChunk(parts, f, t)]);
      assert Segment(parts, f, t, gop)[0] == Flat(parts)[f];
    } else {
      BadReadWritten(parts, books[1..], Max(floor, books[0].End()), books[0].End(), true);
    }
  }

  /** A recording of n bytes, all zero but the one at x. */
  function Marked(n: nat, x: int): Bytes {
    seq(n, i => if i == x then 1 else 0)
  }

  lemma {:induction false} KeptHasNo(parts: seq<Bytes>, books: seq<Book>, from: nat, b: byte)
    requires forall x :: from <= x < |Flat(parts)| && Flat(parts)[x] == b ==> Covered(books, x)
    ensures b !in KeptFrom(parts, books, from)
    decreases |Flat(parts)| - from
  {
    if from < |Flat(parts)| {
      KeptHasNo(parts, books, from + 1, b);
    }
  }

  /** A table that does not read forward is cut wrongly for some recording. */
  lemma BadTableFails(books: seq<Book>, total: nat) returns (parts: seq<Bytes>)
    requires AllCalm(books, total) && SortedByStart(books)
    requires !ReadsForward(total, books, 0, 0)
    ensures |parts| == 1 && |Flat(parts)| == total
    ensures CutFrom(parts, books, 0, false) != KeptFrom(parts, books, 0)
  {
    assert books[0..] == books;
    BadReadCovered(total, books, 0, 0);
    var x := BadRead(total, books, 0, 0);
    parts := [Marked(total, x)];
    assert parts[..0] == [] && Flat(parts) == Marked(total, x);
    BadReadWritten(parts, books, 0, 0, false);
    KeptHasNo(parts, books, 0, 1);
  }

  /** The exact condition: a table of start-sorted intervals is cut as meant for every
      recording of so many bytes and every split of it into parts, if and only if copying
      under that table only moves forward. */
  lemma CutCorrectIffForward(books: seq<Book>, total: nat)
    requires AllCalm(books, total) && SortedByStart(books)
    ensures ReadsForward(total, books, 0, 0) <==>
            forall parts: seq<Bytes> :: |Flat(parts)| == total ==>
              CutFrom(parts, books, 0, false) == KeptFrom(parts, books, 0)
  {
    if ReadsForward(total, books, 0, 0) {
      forall parts: seq<Bytes> | |Flat(parts)| == total
        ensures CutFrom(parts, books, 0, false) == KeptFrom(parts, books, 0)
      {
        CutIsKept(parts, books);
      }
    } else {
      var parts := BadTableFails(books, total);
    }
  }
}
