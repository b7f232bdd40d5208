/** Where the cut loop seeks, reads and writes. */
module CutEdges {
  import opened Recording
  import opened Streaming
  import opened CutPlan
  import opened CutRun

  /** The offsets, within the part, at which a turn seeks or a read or write begins or ends. */
  ghost function TurnEdges(parts: seq<Bytes>, books: seq<Book>, size: int, p: Place): set<int>
    requires p.Over? || Standing(parts, books, size, p)
  {
    if p.Over? || p.part == |parts| then {}
    else if p.open then AdvanceEdges(parts[p.part], books, size, p)
    else if p.offset >= |parts[p.part]| then {}
    else {p.offset}
  }

  ghost function AdvanceEdges(part: Bytes, books: seq<Book>, size: int, p: Place): set<int>
    requires p.Place? && p.i <= |books|
  {
    var q := Pumped(part, p);
    Edges(part, p.fpos, q.fpos, p.gop) + if q.bpos <= q.offset then SeekEdges(part, Jumped(books, size, q)) else {}
  }

  /** Going on in the part takes a seek, which only succeeds to an offset that is not negative. */
  function SeekEdges(part: Bytes, j: Place): set<int>
    requires j.Place?
  {
    if 0 <= j.offset < |part| then {j.offset} else {}
  }

  /** All of them in so many turns. */
  ghost function RunEdges(parts: seq<Bytes>, books: seq<Book>, size: int, p: Place, n: nat): set<int>
    requires p.Over? || Standing(parts, books, size, p)
    decreases n
  {
    if n == 0 then {}
    else TurnEdges(parts, books, size, p) + RunEdges(parts, books, size, Turn(parts, books, size, p), n - 1)
  }

  lemma {:induction false} NoEdgesWhenOver(parts: seq<Bytes>, books: seq<Book>, size: int, p: Place, n: nat)
    requires p.Over?
    ensures RunEdges(parts, books, size, p, n) == {} && After(parts, books, size, p, n) == p
    decreases n
  {
    if n > 0 {
      NoEdgesWhenOver(parts, books, size, p, n - 1);
    }
  }

  // Packet boundaries

  ghost predicate AlignedTable(parts: seq<Bytes>, books: seq<Book>, size: int) {
    && AlignedParts(parts)
    && (forall k :: 0 <= k < |books| ==> Aligned(books[k].pos) && Aligned(books[k].len))
    && Aligned(size)
  }

  ghost predicate AlignedPlace(p: Place)
    requires p.Place?
  {
    Aligned(p.fpos) && Aligned(p.offset) && Aligned(p.bpos) && Aligned(p.bskip) && Aligned(p.tdone)
  }

  lemma PumpAligned(part: Bytes, p: Place)
    requires p.Place? && AlignedPlace(p) && Aligned(|part|)
    ensures AlignedPlace(Pumped(part, p))
  {
    var q := Pumped(part, p);
    AlignedSum(p.bpos, p.offset);
    AlignedSum(p.fpos, p.bpos - p.offset);
    AlignedSum(q.fpos, p.fpos);
    AlignedSum(p.offset, q.fpos - p.fpos);
  }

  lemma JumpAligned(parts: seq<Bytes>, books: seq<Book>, size: int, p: Place)
    requires p.Place? && p.i <= |books| && AlignedPlace(p) && AlignedTable(parts, books, size)
    ensures AlignedPlace(Jumped(books, size, p))
  {
    var j := Jumped(books, size, p);
    AlignedSum(p.bpos, p.bskip);
    AlignedSum(if j.i < |books| then books[j.i].pos else size, p.tdone);
  }

  lemma LeaveAligned(p: Place, length: nat)
    requires p.Place? && AlignedPlace(p) && Aligned(length)
    ensures AlignedPlace(Leave(p, length))
  {
    assert 0 == PacketStart(0);
    AlignedSum(p.offset, length);
    AlignedSum(p.bpos, length);
    AlignedSum(p.tdone, length);
  }

  lemma AdvanceAligned(parts: seq<Bytes>, books: seq<Book>, size: int, p: Place)
    requires Standing(parts, books, size, p) && p.open && AlignedPlace(p) && AlignedTable(parts, books, size)
    ensures var q := Advance(parts[p.part], books, size, p); q.Place? ==> AlignedPlace(q)
    ensures AllAligned(AdvanceEdges(parts[p.part], books, size, p))
  {
    var part := parts[p.part];
    var q := Pumped(part, p);
    PumpAligned(part, p);
    EdgesAligned(part, p.fpos, q.fpos, p.gop);
    if q.offset < q.bpos {
      LeaveAligned(q, |part|);
    } else {
      JumpAligned(parts, books, size, q);
      LeaveAligned(Jumped(books, size, q), |part|);
    }
  }

  /** From packet boundaries a turn goes to packet boundaries, and at packet boundaries only. */
  lemma TurnAligned(parts: seq<Bytes>, books: seq<Book>, size: int, p: Place)
    requires Standing(parts, books, size, p) && AlignedPlace(p) && AlignedTable(parts, books, size)
    ensures var q := Turn(parts, books, size, p); q.Place? ==> AlignedPlace(q)
    ensures AllAligned(TurnEdges(parts, books, size, p))
  {
    if p.part < |parts| {
      if p.open {
        AdvanceAligned(parts, books, size, p);
      } else if p.offset >= |parts[p.part]| {
        LeaveAligned(p, |parts[p.part]|);
      }
    }
  }

  lemma {:induction false} RunAligned(parts: seq<Bytes>, books: seq<Book>, size: int, p: Place, n: nat)
    requires Standing(parts, books, size, p) && AlignedPlace(p) && AlignedTable(parts, books, size)
    ensures AllAligned(RunEdges(parts, books, size, p, n))
    decreases n
  {
    if n > 0 {
      var q := Turn(parts, books, size, p);
      TurnAligned(parts, books, size, p);
      if q.Place? {
        RunAligned(parts, books, size, q, n - 1);
      } else {
        NoEdgesWhenOver(parts, books, size, q, n - 1);
      }
    }
  }

  /** With parts and intervals of whole packets the loop never touches a place that is no packet
      boundary. */
  lemma LoopAligned(parts: seq<Bytes>, books: seq<Book>, size: int, n: nat)
    requires books != [] && books[0].ok && AlignedTable(parts, books, size)
    ensures AllAligned(RunEdges(parts, books, size, Start(books), n))
  {
    assert 0 == PacketStart(0);
    RunAligned(parts, books, size, Start(books), n);
  }
}
