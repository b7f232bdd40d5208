/** The copy loop shared by cutting and copying: one range of one part goes to the output
    through the bounded buffer, the first chunk being trimmed to its first GOP if asked. */
module Streaming {
  import opened Recording
  import opened Gop

  /** What became of a request to read up to `until`: reached; the part ended first; or a read
      returned nothing although the cursor stands before the end of the part. */
  datatype Outcome = Reached | EndOfPart | ReadError

  /** read(2): at most n bytes from offset pos on; nothing at or after the end of the file. */
  function Read(part: Bytes, pos: nat, n: nat): (chunk: Bytes)
    ensures |chunk| == if pos >= |part| then 0 else Min(n, |part| - pos)
  {
    if pos >= |part| then [] else part[pos..Min(pos + n, |part|)]
  }

  /** Bytes [a, b), when there are such bytes. */
  function Slice(part: Bytes, a: int, b: int): Bytes {
    if 0 <= a <= b <= |part| then part[a..b] else []
  }

  /** What is dropped from the start of [a, t) when a GOP is wanted: what precedes the first
      GOP of the first chunk, if that has one. */
  ghost function Dropped(part: Bytes, a: int, t: int, gop: bool): (w: nat)
    ensures a < t ==> a + w <= t
    ensures t <= a ==> w == 0
  {
    if gop && 0 <= a < t <= |part| then GopTrim(part[a..a + Min(BUF_SIZE, t - a)]) else 0
  }

  /** Bytes [a, t), less what is dropped. */
  ghost function Piece(part: Bytes, a: int, t: int, gop: bool): Bytes {
    Slice(part, a + Dropped(part, a, t, gop), t)
  }

  /** Packet q starts here. */
  function PacketStart(q: int): int {
    188 * q
  }

  /** A packet boundary. */
  ghost predicate Aligned(n: int) {
    exists q :: n == PacketStart(q)
  }

  ghost predicate AllAligned(edges: set<int>) {
    forall x :: x in edges ==> Aligned(x)
  }

  lemma AlignedStep(a: int, n: int)
    requires Aligned(a) && n % 188 == 0
    ensures Aligned(a + n)
  {
    var q :| a == PacketStart(q);
    assert a + n == PacketStart(q + n / 188);
  }

  ghost predicate AlignedParts(parts: seq<Bytes>) {
    forall k :: 0 <= k < |parts| ==> Aligned(|parts[k]|)
  }

  lemma AlignedSum(a: int, b: int)
    requires Aligned(a) && Aligned(b)
    ensures Aligned(a + b) && Aligned(a - b)
  {
    var p, q :| a == PacketStart(p) && b == PacketStart(q);
    assert a + b == PacketStart(p + q) && a - b == PacketStart(p - q);
  }

  lemma SlicesMeet(part: Bytes, a: int, b: int, c: int)
    requires 0 <= a <= b <= c <= |part|
    ensures Slice(part, a, b) + Slice(part, b, c) == Slice(part, a, c)
  {
    assert part[a..b] + part[b..c] == part[a..c];
  }

  lemma SliceExtends(part: Bytes, a: nat, b: nat, c: nat, w: nat)
    requires a <= b && b + w <= c <= |part| && (w > 0 ==> a == b)
    ensures Slice(part, a, b) + Slice(part, b + w, c) == Slice(part, a + w, c)
  {
    if w == 0 {
      SlicesMeet(part, a, b, c);
    } else {
      assert Slice(part, a, b) == [];
    }
  }

  /** One trip: reads at most n bytes at pos and drops what precedes the GOP, if one is wanted. */
  method Chunk(part: Bytes, pos: nat, n: nat, ghost t: int, gop: bool)
    returns (r: nat, wptr: nat, written: Bytes)
    requires pos <= t <= |part| && Min(n, |part| - pos) == Min(BUF_SIZE, t - pos)
    ensures r == Min(BUF_SIZE, t - pos)
    ensures wptr == Dropped(part, pos, t, gop) <= r
    ensures written == Slice(part, pos + wptr, pos + r)
  {
    var buf := Read(part, pos, n);
    r, wptr := |buf|, 0;
    if r > 0 {
      assert buf == part[pos..pos + r];
      if gop {
        var found := FindGop(buf);
        if found >= 0 {
          wptr := found;
        }
      }
    }
    written := buf[wptr..];
  }

  /** write(2): appends to the output, which so far holds [from, end), the bytes [end + w, c). */
  method Write(part: Bytes, data: Bytes, written: Bytes, ghost from: nat, ghost end: nat, ghost w: nat, ghost c: nat)
    returns (longer: Bytes)
    requires from <= end && end + w <= c <= |part| && (w > 0 ==> from == end)
    requires data == Slice(part, from, end) && written == Slice(part, end + w, c)
    ensures longer == Slice(part, from + w, c)
  {
    SliceExtends(part, from, end, c, w);
    longer := data + written;
  }

  /** Where the file stands after reading from `fpos` on while the cursor goes from `start`
      to `until`, the part permitting. */
  function PumpEnd(part: Bytes, fpos: int, start: int, until: int): int {
    Min(fpos + Max(until - start, 0), |part|)
  }

  /** Every offset at which a read or a write begins or ends while [a, e) is copied: chunk by chunk,
      the first without what precedes its GOP, if one is wanted. */
  ghost function Edges(part: Bytes, a: nat, e: nat, gop: bool): set<int>
    decreases e - a
  {
    if a >= e then {}
    else
      var b := a + Min(BUF_SIZE, e - a);
      {a, a + Dropped(part, a, e, gop), b} + Edges(part, b, e, false)
  }

  lemma AlignedTrip(part: Bytes, a: nat, t: nat, gop: bool)
    requires a <= t <= |part|
    ensures Aligned(a) && Aligned(t) ==> Aligned(a + Min(BUF_SIZE, t - a)) && Aligned(a + Dropped(part, a, t, gop))
  {
    if Aligned(a) && Aligned(t) {
      AlignedStep(a, BUF_SIZE);
      if gop && a < t {
        var chunk := part[a..a + Min(BUF_SIZE, t - a)];
        GopOffsetIsFirst(chunk);
        AlignedStep(a, GopTrim(chunk));
      }
    }
  }

  /** From one packet boundary to another all of them are packet boundaries. */
  lemma {:induction false} EdgesAligned(part: Bytes, a: nat, e: nat, gop: bool)
    requires e <= |part| && Aligned(a) && Aligned(e)
    ensures AllAligned(Edges(part, a, e, gop))
    decreases e - a
  {
    if a < e {
      AlignedTrip(part, a, e, gop);
      EdgesAligned(part, a + Min(BUF_SIZE, e - a), e, false);
    }
  }

  /** Edges passed, and those still ahead. */
  ghost function AllEdges(passed: set<int>, part: Bytes, a: nat, e: nat, gop: bool): set<int> {
    passed + Edges(part, a, e, gop)
  }

  lemma EdgesTrip(part: Bytes, a: nat, e: nat, gop: bool, b: nat, still: bool, touched: set<int>, passed: set<int>)
    requires a <= e && b == a + Min(BUF_SIZE, e - a) && still == (gop && a == b)
    requires touched == if a < b then {a, a + Dropped(part, a, e, gop), b} else {}
    ensures AllEdges(passed + touched, part, b, e, still) == AllEdges(passed, part, a, e, gop)
  {
    if a < b {
      assert Edges(part, a, e, gop) == touched + Edges(part, b, e, false);
    }
  }

  /** The copy loop has gone from fpos to fend on its way to e: bytes [from, fend) are written. */
  ghost predicate Underway(part: Bytes, fpos: nat, e: nat, wantGop: bool,
                           fend: nat, needGop: bool, data: Bytes, from: nat)
  {
    && fpos <= from <= fend <= e <= |part|
    && needGop == (wantGop && fend == fpos)
    && data == Slice(part, from, fend)
    && from == (if fend == fpos then fpos else fpos + Dropped(part, fpos, e, wantGop))
  }

  /** One turn of the loop: read at most n bytes, trim, write. */
  method Trip(part: Bytes, n: nat, ghost fpos: nat, ghost e: nat, ghost wantGop: bool,
              fend0: nat, needGop0: bool, data0: Bytes, from0: nat)
    returns (r: nat, fend: nat, needGop: bool, data: Bytes, from: nat, ghost edges: set<int>)
    requires Underway(part, fpos, e, wantGop, fend0, needGop0, data0, from0)
    requires Min(n, |part| - fend0) == Min(BUF_SIZE, e - fend0)
    ensures Underway(part, fpos, e, wantGop, fend, needGop, data, from)
    ensures r == Min(BUF_SIZE, e - fend0) && fend == fend0 + r && needGop == (needGop0 && r == 0)
    ensures edges == if r > 0 then {fend0, fend0 + Dropped(part, fend0, e, needGop0), fend0 + r} else {}
  {
    var wptr, written;
    r, wptr, written := Chunk(part, fend0, n, e, needGop0);
    fend, needGop, data, from, edges := fend0, needGop0, data0, from0, {};
    if r > 0 {
      edges := {fend, fend + wptr, fend + r};
      data := Write(part, data, written, from, fend, wptr, fend + r);
      from := from + wptr;
      needGop := false;
      fend := fend + r;
    }
  }

  /** Moves the cursor from `start` to `until`, reading from the file position `fpos`. The two
      agree unless a seek to a negative offset has failed and left the file where it was.
      `edges` holds every offset at which a read or a write began or ended. */
  method Pump(part: Bytes, fpos: nat, start: int, until: int, wantGop: bool)
    returns (outcome: Outcome, fend: nat, sdone: int, needGop: bool, data: Bytes, from: nat,
             ghost edges: set<int>)
    requires start <= fpos <= |part|
    ensures fend == PumpEnd(part, fpos, start, until) && sdone == start + fend - fpos
    ensures outcome == if until <= sdone then Reached else if sdone < |part| then ReadError else EndOfPart
    ensures Underway(part, fpos, fend, wantGop, fend, needGop, data, from)
    ensures edges == Edges(part, fpos, fend, wantGop)
  {
    fend, sdone, needGop, data, from, edges := fpos, start, wantGop, [], fpos, {};
    ghost var e := PumpEnd(part, fpos, start, until);
    assert Slice(part, fpos, fpos) == [];
    while sdone < until
      invariant sdone == start + fend - fpos && fend <= e
      invariant Underway(part, fpos, e, wantGop, fend, needGop, data, from)
      invariant AllEdges(edges, part, fend, e, needGop) == AllEdges({}, part, fpos, e, wantGop)
      decreases |part| - fend
    {
      var toread := if until - sdone > BUF_SIZE then BUF_SIZE else until - sdone;
      ghost var at, wanted := fend, needGop;
      var r;
      ghost var touched;
      r, fend, needGop, data, from, touched := Trip(part, toread, fpos, e, wantGop, fend, needGop, data, from);
      sdone := sdone + r;
      EdgesTrip(part, at, e, wanted, fend, needGop, touched, edges);
      edges := edges + touched;
      if r == 0 {
        break;
      }
    }
    outcome := if until <= sdone then Reached else if sdone < |part| then ReadError else EndOfPart;
  }
}
