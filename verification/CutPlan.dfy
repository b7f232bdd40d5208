/** What cutting must write, told over the flat recording: no loop and no cursors. Parts and buffer
    only matter for how far the search for a GOP looks. */
module CutPlan {
  import opened Recording
  import opened Gop
  import opened Streaming

  /** A bookmark interval [pos, pos + len); resolved-away ones are not ok. */
  datatype Book = Book(pos: int, len: int, ok: bool) {
    function End(): int {
      pos + len
    }
  }

  /** The intervals still to be skipped, from entry i on. */
  function Survivors(books: seq<Book>, i: nat): seq<Book>
    decreases |books| - i
  {
    if i >= |books| then []
    else if books[i].ok then [books[i]] + Survivors(books, i + 1)
    else Survivors(books, i + 1)
  }

  /** The interval's end never lies before its start, except for one that starts beyond the
      recording: an end bookmark past the end of the file has a negative length. */
  predicate Sane(b: Book, size: int) {
    0 <= b.pos && 0 <= b.End() && (b.len >= 0 || (b.pos > size && b.End() >= size))
  }

  predicate AllSane(books: seq<Book>, size: int) {
    forall k :: 0 <= k < |books| ==> Sane(books[k], size)
  }

  /** No interval that the recording reaches ends before it starts. */
  predicate Calm(b: Book, total: nat) {
    0 <= b.pos && 0 <= b.End() && (b.len >= 0 || total < b.pos)
  }

  predicate AllCalm(books: seq<Book>, total: nat) {
    forall k :: 0 <= k < |books| ==> Calm(books[k], total)
  }

  /** Behind the last interval copying goes on up to the recorded size and no further: as if one
      more interval started there. */
  function Closed(books: seq<Book>, size: nat, total: nat): seq<Book> {
    books + [Book(size, total, true)]
  }

  /** Where the copying that goes on before the first of `books` must stop. */
  function Until(total: nat, books: seq<Book>): int {
    if books == [] then total else Min(books[0].pos, total)
  }

  /** The recording ends before the first of `books` is reached, or there is none. */
  predicate Last(total: nat, books: seq<Book>) {
    books == [] || total < books[0].pos
  }

  /** The length of the first chunk of flat range [f, t): it ends with the buffer, the range or
      the part, whichever comes first. */
  function FirstChunk(parts: seq<Bytes>, f: int, t: int): int {
    Min(BUF_SIZE, Min(t, PartEnd(parts, 0, f)) - f)
  }

  /** What is dropped from the start of flat range [f, t). */
  ghost function FlatDropped(parts: seq<Bytes>, f: int, t: int, gop: bool): (w: nat)
    ensures f < t ==> f + w <= t
    ensures t <= f || !gop ==> w == 0
  {
    if gop && 0 <= f < t <= |Flat(parts)| then
      PartEndBounds(parts, 0, f);
      GopTrim(Flat(parts)[f..f + FirstChunk(parts, f, t)])
    else 0
  }

  ghost function Segment(parts: seq<Bytes>, f: int, t: int, gop: bool): Bytes {
    Slice(Flat(parts), f + FlatDropped(parts, f, t, gop), t)
  }

  /** The output from flat position f on: copy up to the next interval, jump to its end; at the
      end of the recording nothing more is written. */
  ghost function CutFrom(parts: seq<Bytes>, books: seq<Book>, f: int, gop: bool): Bytes
    decreases |books|
  {
    var t := Until(|Flat(parts)|, books);
    if |Flat(parts)| <= f then []
    else if Last(|Flat(parts)|, books) then Segment(parts, f, t, gop)
    else Segment(parts, f, t, gop) + CutFrom(parts, books[1..], books[0].End(), true)
  }

  /** Bytes still to be copied, trims not counted. */
  function Ahead(total: nat, books: seq<Book>, f: int): nat
    decreases |books|
  {
    var now := Max(Until(total, books) - f, 0);
    if total <= f then 0
    else if Last(total, books) then now
    else now + Ahead(total, books[1..], books[0].End())
  }

  /** All that is trimmed on the way. */
  ghost function Trims(parts: seq<Bytes>, books: seq<Book>, f: int, gop: bool): nat
    decreases |books|
  {
    var now := FlatDropped(parts, f, Until(|Flat(parts)|, books), gop);
    if |Flat(parts)| <= f then 0
    else if Last(|Flat(parts)|, books) then now
    else now + Trims(parts, books[1..], books[0].End(), true)
  }

  /** What is written is what lies ahead, less the trims. */
  lemma {:induction false} CutFromLength(parts: seq<Bytes>, books: seq<Book>, f: int, gop: bool)
    requires 0 <= f && forall k :: 0 <= k < |books| ==> 0 <= books[k].pos && 0 <= books[k].End()
    ensures |CutFrom(parts, books, f, gop)| == Ahead(|Flat(parts)|, books, f) - Trims(parts, books, f, gop)
    decreases |books|
  {
    SegmentLength(parts, f, Until(|Flat(parts)|, books), gop);
    if f < |Flat(parts)| && !Last(|Flat(parts)|, books) {
      CutFromLength(parts, books[1..], books[0].End(), true);
    }
  }

  lemma SegmentLength(parts: seq<Bytes>, f: int, t: int, gop: bool)
    requires 0 <= f && t <= |Flat(parts)|
    ensures |Segment(parts, f, t, gop)| == Max(t - f, 0) - FlatDropped(parts, f, t, gop)
  {
  }

  /** No copying ever starts before a position already jumped to or read (`floor`). */
  predicate ReadsForward(total: nat, books: seq<Book>, floor: int, f: int)
    decreases |books|
  {
    total <= f ||
    (&& (f < Until(total, books) ==> floor <= f)
     && (Last(total, books) || ReadsForward(total, books[1..], Max(floor, books[0].End()), books[0].End())))
  }

  lemma ClosedTail(books: seq<Book>, size: nat, total: nat)
    ensures books != [] ==> Closed(books, size, total)[0] == books[0] && Closed(books, size, total)[1..] == Closed(books[1..], size, total)
    ensures books == [] ==> Closed(books, size, total)[1..] == []
  {
  }

  /** A recorded size of at least the total closes nothing off. */
  lemma {:induction false} ClosedCut(parts: seq<Bytes>, books: seq<Book>, size: nat, f: int, gop: bool)
    requires |Flat(parts)| <= size
    ensures CutFrom(parts, Closed(books, size, |Flat(parts)|), f, gop) == CutFrom(parts, books, f, gop)
    decreases |books|
  {
    var total := |Flat(parts)|;
    ClosedTail(books, size, total);
    if books == [] {
      assert CutFrom(parts, [], size + total, true) == [];
      assert Segment(parts, f, total, gop) + [] == Segment(parts, f, total, gop);
    } else if !Last(total, books) {
      ClosedCut(parts, books[1..], size, books[0].End(), true);
    }
  }

  lemma {:induction false} ClosedTrims(parts: seq<Bytes>, books: seq<Book>, size: nat, f: int, gop: bool)
    requires |Flat(parts)| <= size
    ensures Trims(parts, Closed(books, size, |Flat(parts)|), f, gop) == Trims(parts, books, f, gop)
    decreases |books|
  {
    var total := |Flat(parts)|;
    ClosedTail(books, size, total);
    if books != [] && !Last(total, books) {
      ClosedTrims(parts, books[1..], size, books[0].End(), true);
    }
  }

  lemma {:induction false} ClosedAhead(books: seq<Book>, size: nat, total: nat, floor: int, f: int)
    requires total <= size
    ensures Ahead(total, Closed(books, size, total), f) == Ahead(total, books, f)
    ensures ReadsForward(total, Closed(books, size, total), floor, f) <==> ReadsForward(total, books, floor, f)
    decreases |books|
  {
    ClosedTail(books, size, total);
    if books != [] && !Last(total, books) {
      ClosedAhead(books[1..], size, total, Max(floor, books[0].End()), books[0].End());
    }
  }

  /** The condition under which the copy loop follows the plan: copying only moves forward, or
      there is a single part, in which every seek succeeds. */
  predicate Followable(parts: seq<Bytes>, books: seq<Book>, floor: int, f: int) {
    |parts| == 1 || ReadsForward(|Flat(parts)|, books, floor, f)
  }

  lemma FollowableRead(parts: seq<Bytes>, books: seq<Book>, floor: int, f: int, g: int)
    requires Followable(parts, books, floor, f) && f <= floor
    requires f <= g <= Until(|Flat(parts)|, books) || g == f
    requires books != [] ==> Calm(books[0], |Flat(parts)|)
    ensures Followable(parts, books, Max(floor, g), g)
  {
  }

  lemma FirstChunkIn(parts: seq<Bytes>, k: nat, a: nat, e: nat, f: nat, t: int)
    requires k < |parts| && a < e <= |parts[k]| && f == Before(parts, k) + a
    requires e == Min(t - Before(parts, k), |parts[k]|)
    ensures FirstChunk(parts, f, t) == Min(BUF_SIZE, e - a)
  {
    PartEndAt(parts, 0, k, f);
  }

  lemma FlatDroppedIs(parts: seq<Bytes>, f: nat, t: int, n: nat)
    requires f < t <= |Flat(parts)| && n == FirstChunk(parts, f, t) && f + n <= |Flat(parts)|
    ensures FlatDropped(parts, f, t, true) == GopTrim(Flat(parts)[f..f + n])
  {
  }

  lemma FlatDroppedIn(parts: seq<Bytes>, k: nat, a: nat, e: nat, f: nat, t: int, gop: bool)
    requires k < |parts| && a < e <= |parts[k]| && f == Before(parts, k) + a
    requires t <= |Flat(parts)| && e == Min(t - Before(parts, k), |parts[k]|)
    ensures FlatDropped(parts, f, t, gop) == Dropped(parts[k], a, e, gop)
  {
    var n := Min(BUF_SIZE, e - a);
    FirstChunkIn(parts, k, a, e, f, t);
    FlatSlice(parts, k, a, a + n, f, f + n);
    FlatDroppedIs(parts, f, t, n);
  }

  lemma SliceSplits(parts: seq<Bytes>, k: nat, a: nat, e: nat, f: int, g: int, t: int)
    requires k < |parts| && a <= e <= |parts[k]| && g <= t <= |Flat(parts)|
    requires f == Before(parts, k) + a && g == Before(parts, k) + e
    ensures Slice(Flat(parts), f, t) == Slice(parts[k], a, e) + Slice(Flat(parts), g, t)
  {
    assert Slice(Flat(parts), f, g) == Slice(parts[k], a, e) by {
      FlatSlice(parts, k, a, e, f, g);
    }
    SlicesMeet(Flat(parts), f, g, t);
  }

  lemma SegmentStart(parts: seq<Bytes>, k: nat, a: nat, e: nat, f: int, t: int, gop: bool)
    requires k < |parts| && a < e <= |parts[k]| && f == Before(parts, k) + a
    requires t <= |Flat(parts)| && e == Min(t - Before(parts, k), |parts[k]|)
    ensures Segment(parts, f, t, gop) == Slice(Flat(parts), f + Dropped(parts[k], a, e, gop), t)
  {
    FlatDroppedIn(parts, k, a, e, f, t, gop);
  }

  lemma SegmentPlain(parts: seq<Bytes>, g: int, t: int)
    ensures Segment(parts, g, t, false) == Slice(Flat(parts), g, t)
  {
  }

  /** A range that starts inside part k is that part's piece followed by the rest of the range. */
  lemma SegmentStep(parts: seq<Bytes>, k: nat, a: nat, e: nat, f: int, g: int, t: int, gop: bool)
    requires k < |parts| && a < e <= |parts[k]|
    requires f == Before(parts, k) + a && g == Before(parts, k) + e
    requires t <= |Flat(parts)| && e == Min(t - Before(parts, k), |parts[k]|)
    ensures Segment(parts, f, t, gop) == Piece(parts[k], a, e, gop) + Segment(parts, g, t, false)
  {
    var w := Dropped(parts[k], a, e, gop);
    assert Segment(parts, f, t, gop) == Slice(Flat(parts), f + w, t) by {
      SegmentStart(parts, k, a, e, f, t, gop);
    }
    SliceSplits(parts, k, a + w, e, f + w, g, t);
    SegmentPlain(parts, g, t);
  }

  lemma Associate(a: Bytes, b: Bytes, c: Bytes)
    ensures (a + b) + c == a + (b + c)
  {
  }

  /** The plan's output before and after a pump that started at offset a of part k. */
  lemma CutStep(parts: seq<Bytes>, books: seq<Book>, k: nat, a: nat, e: nat, f: int, g: int, gop: bool)
    requires k < |parts| && a < e <= |parts[k]|
    requires f == Before(parts, k) + a && g == Before(parts, k) + e
    requires e == Min(Until(|Flat(parts)|, books) - Before(parts, k), |parts[k]|)
    requires books != [] ==> Calm(books[0], |Flat(parts)|)
    ensures CutFrom(parts, books, f, gop) == Piece(parts[k], a, e, gop) + CutFrom(parts, books, g, false)
  {
    var t := Until(|Flat(parts)|, books);
    SegmentStep(parts, k, a, e, f, g, t, gop);
    SegmentPlain(parts, g, t);
    BeforeNext(parts, k);
    FlatPrefix(parts, k + 1);
    if !Last(|Flat(parts)|, books) {
      if g == |Flat(parts)| {
        assert Slice(Flat(parts), g, t) == [];
        assert CutFrom(parts, books[1..], books[0].End(), true) == [];
      }
      Associate(Piece(parts[k], a, e, gop), Segment(parts, g, t, false),
                CutFrom(parts, books[1..], books[0].End(), true));
    }
  }

  /** Once the copying has reached the next interval, the plan goes on behind that interval. */
  lemma CutJump(parts: seq<Bytes>, books: seq<Book>, f: int, gop: bool)
    requires books != [] && books[0].pos <= f
    requires f < |Flat(parts)| || |Flat(parts)| <= books[0].End()
    ensures CutFrom(parts, books, f, gop) == CutFrom(parts, books[1..], books[0].End(), true)
  {
    assert Segment(parts, f, Until(|Flat(parts)|, books), gop) == [];
  }
}
