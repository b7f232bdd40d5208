/** Copying bookmarked stretches: one stretch may cross any number of parts. */
module CopyLoop {
  import opened Recording
  import opened Streaming
  import opened CutPlan
  import opened Bookmarks
  import opened Packets
  import opened Files

  /** copy_movie's intervals: moved back by SAFE_GOP where there is room, never shortened. */
  function CopyBook(b: Bookmark, secsize: int): Book {
    var pos := SecPos(b.pos, secsize);
    Book(if pos > SAFE_GOP then pos - SAFE_GOP else pos, if b.length > 0 then SecPos(b.length, secsize) else 0, true)
  }

  function CopyTable(user: seq<Bookmark>, secsize: int): seq<Book> {
    if user == [] then []
    else
      var last := user[|user| - 1];
      CopyTable(user[..|user| - 1], secsize) + if Jumps(last) then [CopyBook(last, secsize)] else []
  }

  /** Finds the part that holds byte pos of the recording. */
  method Locate(parts: seq<Bytes>, pos: nat) returns (k: nat, bpos: nat)
    ensures k <= |parts| && Before(parts, k) + bpos == pos
    ensures k < |parts| ==> bpos < |parts[k]|
    ensures k < |parts| <==> pos < |Flat(parts)|
  {
    k, bpos := 0, pos;
    while k < |parts| && bpos >= |parts[k]|
      invariant k <= |parts| && Before(parts, k) + bpos == pos
    {
      BeforeNext(parts, k);
      bpos := bpos - |parts[k]|;
      k := k + 1;
    }
    assert parts[..|parts|] == parts;
    if k < |parts| {
      BeforeNext(parts, k);
      FlatPrefix(parts, k + 1);
    }
  }

  /** Where copying seeks, reads and writes, from offset bpos of part k on. */
  ghost function StretchEdges(parts: seq<Bytes>, k: nat, bpos: nat, bskip: nat, gop: bool): set<int>
    requires k <= |parts| && (k < |parts| ==> bpos <= |parts[k]|)
    decreases |parts| - k
  {
    if k == |parts| then {}
    else
      var e := PumpEnd(parts[k], bpos, bpos, bpos + bskip);
      var rest := bskip - (e - bpos);
      {bpos} + Edges(parts[k], bpos, e, gop) + if rest == 0 then {} else StretchEdges(parts, k + 1, 0, rest, gop && e == bpos)
  }

  /** The same from a byte of the recording, counted from part k on. */
  ghost function EdgesFrom(parts: seq<Bytes>, k: nat, pos: nat, len: nat): set<int>
    requires k <= |parts|
    decreases |parts| - k
  {
    if k == |parts| then {}
    else if pos >= |parts[k]| then EdgesFrom(parts, k + 1, pos - |parts[k]|, len)
    else StretchEdges(parts, k, pos, len, true)
  }

  lemma {:induction false} EdgesLocated(parts: seq<Bytes>, j: nat, k: nat, pos: nat, bpos: nat, len: nat)
    requires j <= k <= |parts| && Before(parts, j) + pos == Before(parts, k) + bpos
    requires k < |parts| ==> bpos < |parts[k]|
    ensures EdgesFrom(parts, j, pos, len) == if k < |parts| then StretchEdges(parts, k, bpos, len, true) else {}
    decreases k - j
  {
    if j < k {
      BeforeNext(parts, j);
      BeforeMonotone(parts, j + 1, k);
      var left := pos - |parts[j]|;
      assert EdgesFrom(parts, j, pos, len) == EdgesFrom(parts, j + 1, left, len);
      EdgesLocated(parts, j + 1, k, left, bpos, len);
    }
  }

  lemma {:induction false} StretchEdgesAligned(parts: seq<Bytes>, k: nat, bpos: nat, bskip: nat, gop: bool)
    requires k <= |parts| && (k < |parts| ==> bpos <= |parts[k]|)
    requires AlignedParts(parts) && Aligned(bpos) && Aligned(bskip)
    ensures AllAligned(StretchEdges(parts, k, bpos, bskip, gop))
    decreases |parts| - k
  {
    if k < |parts| {
      var e := PumpEnd(parts[k], bpos, bpos, bpos + bskip);
      assert 0 == PacketStart(0);
      AlignedSum(bpos, bskip);
      EdgesAligned(parts[k], bpos, e, gop);
      AlignedSum(e, bpos);
      AlignedSum(bskip, e - bpos);
      if bskip - (e - bpos) != 0 {
        StretchEdgesAligned(parts, k + 1, 0, bskip - (e - bpos), gop && e == bpos);
      }
    }
  }

  lemma {:induction false} EdgesFromAligned(parts: seq<Bytes>, k: nat, pos: nat, len: nat)
    requires k <= |parts|
    ensures AlignedParts(parts) && Aligned(pos) && Aligned(len) ==> AllAligned(EdgesFrom(parts, k, pos, len))
    decreases |parts| - k
  {
    if k < |parts| && AlignedParts(parts) && Aligned(pos) && Aligned(len) {
      if pos >= |parts[k]| {
        AlignedSum(pos, |parts[k]|);
        EdgesFromAligned(parts, k + 1, pos - |parts[k]|, len);
      } else {
        StretchEdgesAligned(parts, k, pos, len, true);
      }
    }
  }

  /** What is written, followed by what is still to be copied of the range up to t. */
  ghost function Total(parts: seq<Bytes>, data: Bytes, f: int, t: int, gop: bool): Bytes {
    data + Segment(parts, f, t, gop)
  }

  /** Copying up to flat position t: part k is open at bpos, bskip bytes are to go. */
  ghost predicate Copying(parts: seq<Bytes>, whole: Bytes, end: nat, k: nat, bpos: nat, bskip: nat,
                          needGop: bool, data: Bytes)
    requires k <= |parts|
  {
    && Before(parts, k) + bpos + bskip == end
    && Total(parts, data, Before(parts, k) + bpos, Min(end, |Flat(parts)|), needGop) == whole
  }

  lemma TotalStep(parts: seq<Bytes>, k: nat, a: nat, e: nat, f: nat, g: nat, t: nat, gop: bool, data: Bytes)
    requires k < |parts| && a <= e <= |parts[k]|
    requires f == Before(parts, k) + a && g == Before(parts, k) + e
    requires t <= |Flat(parts)| && e == Max(a, Min(t - Before(parts, k), |parts[k]|))
    ensures Total(parts, data + Piece(parts[k], a, e, gop), g, t, gop && a == e) == Total(parts, data, f, t, gop)
  {
    var piece := Piece(parts[k], a, e, gop);
    if a < e {
      assert Segment(parts, f, t, gop) == piece + Segment(parts, g, t, false) by {
        SegmentStep(parts, k, a, e, f, g, t, gop);
      }
      Associate(data, piece, Segment(parts, g, t, false));
    } else {
      assert piece == [];
      assert data + piece == data;
    }
  }

  /** Where copying in part k stops, counted from the start of the recording. */
  lemma CopyStops(parts: seq<Bytes>, k: nat, bpos: nat, bskip: nat, end: nat, e: nat)
    requires k < |parts| && bpos <= |parts[k]| && Before(parts, k) + bpos + bskip == end
    requires e == PumpEnd(parts[k], bpos, bpos, bpos + bskip)
    ensures bpos <= e <= bpos + bskip && e <= |parts[k]| && Before(parts, k) + e <= |Flat(parts)|
    ensures e == Max(bpos, Min(Min(end, |Flat(parts)|) - Before(parts, k), |parts[k]|))
  {
    BeforeNext(parts, k);
    FlatPrefix(parts, k + 1);
  }

  lemma CopyingStep(parts: seq<Bytes>, whole: Bytes, end: nat, k: nat, bpos: nat, bskip: nat, needGop: bool,
                    data: Bytes, e: nat, piece: Bytes)
    requires k < |parts| && bpos <= |parts[k]| && Copying(parts, whole, end, k, bpos, bskip, needGop, data)
    requires e == PumpEnd(parts[k], bpos, bpos, bpos + bskip) && piece == Piece(parts[k], bpos, e, needGop)
    ensures bpos <= e <= bpos + bskip
    ensures Copying(parts, whole, end, k, e, bskip - (e - bpos), needGop && e == bpos, data + piece)
  {
    var f, g, t := Before(parts, k) + bpos, Before(parts, k) + e, Min(end, |Flat(parts)|);
    CopyStops(parts, k, bpos, bskip, end, e);
    TotalStep(parts, k, bpos, e, f, g, t, needGop, data);
  }

  /** Copies what part k holds of the range. */
  method CopyPart(parts: seq<Bytes>, k: nat, ghost whole: Bytes, ghost end: nat,
                  bpos: nat, bskip0: nat, needGop0: bool, data0: Bytes)
    returns (done: bool, ghost fend: nat, bskip: nat, needGop: bool, data: Bytes, ghost edges: set<int>)
    requires k < |parts| && bpos <= |parts[k]|
    requires Copying(parts, whole, end, k, bpos, bskip0, needGop0, data0)
    ensures fend <= |parts[k]| && Copying(parts, whole, end, k, fend, bskip, needGop, data)
    ensures done <==> bskip == 0
    ensures !done ==> fend == |parts[k]|
    ensures fend == PumpEnd(parts[k], bpos, bpos, bpos + bskip0) && bskip == bskip0 - (fend - bpos)
    ensures needGop == (needGop0 && fend == bpos) && edges == {bpos} + Edges(parts[k], bpos, fend, needGop0)
  {
    var outcome, e, sdone, piece, from;
    outcome, e, sdone, needGop, piece, from, edges := Pump(parts[k], bpos, bpos, bpos + bskip0, needGop0);
    CopyingStep(parts, whole, end, k, bpos, bskip0, needGop0, data0, e, piece);
    fend, bskip, data, done := e, bskip0 - (e - bpos), data0 + piece, outcome.Reached?;
    edges := {bpos} + edges;
  }

  lemma CopyFinished(parts: seq<Bytes>, whole: Bytes, end: nat, k: nat, bpos: nat, bskip: nat, needGop: bool, data: Bytes)
    requires k <= |parts| && Copying(parts, whole, end, k, bpos, bskip, needGop, data)
    requires (bskip == 0 && end <= |Flat(parts)|) || Before(parts, k) + bpos == |Flat(parts)|
    ensures data == whole
  {
    assert Segment(parts, Before(parts, k) + bpos, Min(end, |Flat(parts)|), needGop) == [];
  }

  /** Everything the range holds within the parts up to the end of part k has been copied. */
  lemma PartLeft(parts: seq<Bytes>, whole: Bytes, end: nat, k: nat, fend: nat, bskip: nat, needGop: bool, data: Bytes)
    requires k < |parts| && fend <= |parts[k]| && Copying(parts, whole, end, k, fend, bskip, needGop, data)
    ensures bskip == 0 ==> data == whole && end <= |Flat(parts)|
    ensures fend == |parts[k]| ==> Copying(parts, whole, end, k + 1, 0, bskip, needGop, data)
  {
    BeforeNext(parts, k);
    FlatPrefix(parts, k + 1);
    if bskip == 0 {
      CopyFinished(parts, whole, end, k, fend, bskip, needGop, data);
    }
  }

  /** Edges passed, and those still ahead. */
  ghost function EdgesAhead(passed: set<int>, parts: seq<Bytes>, k: nat, bpos: nat, bskip: nat, gop: bool): set<int>
    requires k <= |parts| && (k < |parts| ==> bpos <= |parts[k]|)
  {
    passed + StretchEdges(parts, k, bpos, bskip, gop)
  }

  lemma EdgesPassed(parts: seq<Bytes>, k: nat, bpos: nat, bskip: nat, gop: bool, touched: set<int>, passed: set<int>)
    requires k < |parts| && bpos <= |parts[k]|
    requires touched == {bpos} + Edges(parts[k], bpos, PumpEnd(parts[k], bpos, bpos, bpos + bskip), gop)
    ensures var e := PumpEnd(parts[k], bpos, bpos, bpos + bskip);
            var rest := bskip - (e - bpos);
            EdgesAhead(passed, parts, k, bpos, bskip, gop) ==
            if rest == 0 then passed + touched else EdgesAhead(passed + touched, parts, k + 1, 0, rest, gop && e == bpos)
  {
  }

  /** Before part k: what is written and passed, and what is still to come, make up the whole. */
  ghost predicate OnCopy(parts: seq<Bytes>, whole: Bytes, end: nat, k: nat, bpos: nat, bskip: nat, needGop: bool,
                         data: Bytes, edges: set<int>, all: set<int>)
  {
    && k <= |parts| && (if k < |parts| then bpos <= |parts[k]| else bpos == 0 < bskip)
    && Copying(parts, whole, end, k, bpos, bskip, needGop, data)
    && EdgesAhead(edges, parts, k, bpos, bskip, needGop) == all
  }

  method CopyNext(parts: seq<Bytes>, k: nat, ghost whole: Bytes, ghost end: nat, bpos: nat, bskip0: nat,
                  needGop0: bool, data0: Bytes, ghost edges0: set<int>, ghost all: set<int>)
    returns (ok: bool, bskip: nat, needGop: bool, data: Bytes, ghost edges: set<int>)
    requires k < |parts| && OnCopy(parts, whole, end, k, bpos, bskip0, needGop0, data0, edges0, all)
    ensures if ok then data == whole && end <= |Flat(parts)| && edges == all
            else OnCopy(parts, whole, end, k + 1, 0, bskip, needGop, data, edges, all)
  {
    ghost var fend, touched;
    ok, fend, bskip, needGop, data, touched := CopyPart(parts, k, whole, end, bpos, bskip0, needGop0, data0);
    EdgesPassed(parts, k, bpos, bskip0, needGop0, touched, edges0);
    edges := edges0 + touched;
    PartLeft(parts, whole, end, k, fend, bskip, needGop, data);
  }

  lemma CopyOver(parts: seq<Bytes>, whole: Bytes, end: nat, bskip: nat, needGop: bool, data: Bytes, edges: set<int>, all: set<int>)
    requires OnCopy(parts, whole, end, |parts|, 0, bskip, needGop, data, edges, all)
    ensures data == whole && |Flat(parts)| < end && edges == all
  {
    assert parts[..|parts|] == parts;
    assert edges + {} == edges;
    CopyFinished(parts, whole, end, |parts|, 0, bskip, needGop, data);
  }

  /** Copies part after part until nothing is left to copy or the parts run out. */
  method CopyOn(parts: seq<Bytes>, k0: nat, ghost whole: Bytes, ghost end: nat, bpos0: nat, bskip0: nat)
    returns (ok: bool, data: Bytes, ghost edges: set<int>)
    requires k0 < |parts| && bpos0 <= |parts[k0]|
    requires Copying(parts, whole, end, k0, bpos0, bskip0, true, [])
    ensures data == whole && ok == (end <= |Flat(parts)|)
    ensures edges == StretchEdges(parts, k0, bpos0, bskip0, true)
  {
    var part: nat, bpos: nat, bskip: nat, needGop := k0, bpos0, bskip0, true;
    data, ok, edges := [], false, {};
    ghost var all := StretchEdges(parts, k0, bpos0, bskip0, true);
    assert {} + all == all;
    while !ok && part < |parts|
      invariant if ok then data == whole && end <= |Flat(parts)| && edges == all
                else OnCopy(parts, whole, end, part, bpos, bskip, needGop, data, edges, all)
      decreases !ok, |parts| - part
    {
      ok, bskip, needGop, data, edges := CopyNext(parts, part, whole, end, bpos, bskip, needGop, data, edges, all);
      if !ok {
        bpos := 0;
        part := part + 1;
      }
    }
    if !ok {
      CopyOver(parts, whole, end, bskip, needGop, data, edges, all);
    }
  }

  lemma StretchStarts(parts: seq<Bytes>, k: nat, bpos: nat, b: Book, whole: Bytes)
    requires k < |parts| && bpos < |parts[k]| && Before(parts, k) + bpos == b.pos && 0 <= b.len
    requires whole == Segment(parts, b.pos, Min(b.End(), |Flat(parts)|), true)
    ensures Copying(parts, whole, b.End(), k, bpos, b.len, true, [])
  {
    assert [] + whole == whole;
  }

  /** The stretch, copied. */
  ghost predicate Copied(parts: seq<Bytes>, b: Book, found: bool, ok: bool, data: Bytes) {
    && found == (b.pos < |Flat(parts)|)
    && ok == (!found || b.End() <= |Flat(parts)|)
    && data == if found then Segment(parts, b.pos, Min(b.End(), |Flat(parts)|), true) else []
  }

  method CopyLocated(parts: seq<Bytes>, b: Book, part: nat, bpos: nat) returns (ok: bool, data: Bytes, ghost edges: set<int>)
    requires part < |parts| && bpos < |parts[part]| && Before(parts, part) + bpos == b.pos < |Flat(parts)| && 0 <= b.len
    ensures Copied(parts, b, true, ok, data) && edges == StretchEdges(parts, part, bpos, b.len, true)
  {
    ghost var whole := Segment(parts, b.pos, Min(b.End(), |Flat(parts)|), true);
    StretchStarts(parts, part, bpos, b, whole);
    ok, data, edges := CopyOn(parts, part, whole, b.End(), bpos, b.len);
  }

  /** Copies bytes [b.pos, b.End()) of the recording, from their first GOP on. It fails, after
      writing what there is, exactly when the stretch starts inside the recording but ends
      behind it. Between packet boundaries it seeks, reads and writes at packet boundaries only. */
  method CopyStretch(parts: seq<Bytes>, b: Book)
    returns (found: bool, ok: bool, data: Bytes, ghost edges: set<int>)
    requires 0 <= b.pos && 0 <= b.len
    ensures found == (b.pos < |Flat(parts)|)
    ensures ok == (!found || b.End() <= |Flat(parts)|)
    ensures data == if found then Segment(parts, b.pos, Min(b.End(), |Flat(parts)|), true) else []
    ensures edges == EdgesFrom(parts, 0, b.pos, b.len)
    ensures AlignedParts(parts) && Aligned(b.pos) && Aligned(b.len) ==> AllAligned(edges)
  {
    var part, bpos := Locate(parts, b.pos);
    data, found, ok, edges := [], part < |parts|, true, {};
    EdgesLocated(parts, 0, part, b.pos, bpos, b.len);
    EdgesFromAligned(parts, 0, b.pos, b.len);
    if found {
      ok, data, edges := CopyLocated(parts, b, part, bpos);
    }
  }

  // What a whole run of copy_movie leaves in the directory

  predicate Found(parts: seq<Bytes>, b: Book) {
    b.pos < |Flat(parts)|
  }

  ghost function Stretch(parts: seq<Bytes>, b: Book): Bytes {
    Segment(parts, b.pos, Min(b.End(), |Flat(parts)|), true)
  }

  predicate AnyFound(parts: seq<Bytes>, books: seq<Book>, n: nat)
    requires n <= |books|
  {
    exists k :: 0 <= k < n && Found(parts, books[k])
  }

  /** The stretches of the first n bookmarks, in table order. */
  ghost function Stretches(parts: seq<Bytes>, books: seq<Book>, n: nat): Bytes
    requires n <= |books|
  {
    if n == 0 then []
    else Stretches(parts, books, n - 1) + if Found(parts, books[n - 1]) then Stretch(parts, books[n - 1]) else []
  }

  /** How many bookmarks are processed: all, or those up to the first one that starts inside
      the recording and ends behind it. */
  function Processed(parts: seq<Bytes>, books: seq<Book>, k: nat): nat
    requires k <= |books|
    ensures k <= Processed(parts, books, k) <= |books|
    decreases |books| - k
  {
    if k == |books| then k
    else if Found(parts, books[k]) && books[k].End() > |Flat(parts)| then k + 1
    else Processed(parts, books, k + 1)
  }

  /** The edges of the first n bookmarks. */
  ghost function CopyEdges(parts: seq<Bytes>, books: seq<Book>, n: nat): set<int>
    requires n <= |books| && forall k :: 0 <= k < |books| ==> 0 <= books[k].pos && 0 <= books[k].len
  {
    if n == 0 then {} else CopyEdges(parts, books, n - 1) + EdgesFrom(parts, 0, books[n - 1].pos, books[n - 1].len)
  }

  predicate AllFit(parts: seq<Bytes>, books: seq<Book>) {
    forall k :: 0 <= k < |books| && Found(parts, books[k]) ==> books[k].End() <= |Flat(parts)|
  }

  /** The directory after n bookmarks: one new file for all of them, or one for each. */
  ghost function CopyDisk(files: Directory, base: string, psi: Bytes, parts: seq<Bytes>, books: seq<Book>,
                          n: nat, onefile: bool): Directory
    requires n <= |books|
  {
    if n == 0 then files
    else
      var now := CopyDisk(files, base, psi, parts, books, n - 1, onefile);
      if !Found(parts, books[n - 1]) then now
      else if onefile && AnyFound(parts, books, n - 1) && NewName(files, base) in now then
        now[NewName(files, base) := now[NewName(files, base)] + Stretch(parts, books[n - 1])]
      else now[NewName(now, base) := psi + Stretch(parts, books[n - 1])]
  }

  /** In one-file mode the new file is the stream's tables followed by all stretches. */
  lemma {:induction false} OneFile(files: Directory, base: string, psi: Bytes, parts: seq<Bytes>, books: seq<Book>, n: nat)
    requires n <= |books|
    ensures CopyDisk(files, base, psi, parts, books, n, true)
         == if AnyFound(parts, books, n) then files[NewName(files, base) := psi + Stretches(parts, books, n)] else files
    ensures !AnyFound(parts, books, n) ==> Stretches(parts, books, n) == []
  {
    if n > 0 {
      OneFile(files, base, psi, parts, books, n - 1);
      if Found(parts, books[n - 1]) {
        Associate(psi, Stretches(parts, books, n - 1), Stretch(parts, books[n - 1]));
        assert psi + [] == psi;
        assert AnyFound(parts, books, n);
      } else {
        assert Stretches(parts, books, n) == Stretches(parts, books, n - 1);
        assert AnyFound(parts, books, n) <==> AnyFound(parts, books, n - 1);
      }
    }
  }

  /** The new file of bookmark k in many-file mode. */
  ghost function FileOf(files: Directory, base: string, psi: Bytes, parts: seq<Bytes>, books: seq<Book>, k: nat): string
    requires k < |books|
  {
    NewName(CopyDisk(files, base, psi, parts, books, k, false), base)
  }

  /** f is the new file of one of the first n bookmarks. */
  ghost predicate IsFileOf(files: Directory, base: string, psi: Bytes, parts: seq<Bytes>, books: seq<Book>, n: nat, f: string)
    requires n <= |books|
  {
    exists k :: 0 <= k < n && Found(parts, books[k]) && f == FileOf(files, base, psi, parts, books, k)
  }

  lemma {:induction false} OldFilesStay(files: Directory, base: string, psi: Bytes, parts: seq<Bytes>, books: seq<Book>,
                                        n: nat, f: string)
    requires n <= |books| && f in files
    ensures var after := CopyDisk(files, base, psi, parts, books, n, false); f in after && after[f] == files[f]
  {
    if n > 0 {
      OldFilesStay(files, base, psi, parts, books, n - 1, f);
    }
  }

  lemma {:induction false} OwnContent(files: Directory, base: string, psi: Bytes, parts: seq<Bytes>, books: seq<Book>,
                                      n: nat, k: nat)
    requires k < n <= |books| && Found(parts, books[k])
    ensures var f := FileOf(files, base, psi, parts, books, k);
            var after := CopyDisk(files, base, psi, parts, books, n, false);
            f in after && after[f] == psi + Stretch(parts, books[k])
    decreases n
  {
    if k < n - 1 {
      OwnContent(files, base, psi, parts, books, n - 1, k);
    }
  }

  lemma {:induction false} NewFiles(files: Directory, base: string, psi: Bytes, parts: seq<Bytes>, books: seq<Book>,
                                    n: nat, f: string)
    requires n <= |books|
    ensures f in CopyDisk(files, base, psi, parts, books, n, false) && f !in files
            <==> IsFileOf(files, base, psi, parts, books, n, f)
  {
    if n > 0 {
      NewFiles(files, base, psi, parts, books, n - 1, f);
      LastFile(files, base, psi, parts, books, n, f);
      if f in files {
        OldFilesStay(files, base, psi, parts, books, n - 1, f);
      }
    }
  }

  lemma LastFile(files: Directory, base: string, psi: Bytes, parts: seq<Bytes>, books: seq<Book>, n: nat, f: string)
    requires 0 < n <= |books|
    ensures IsFileOf(files, base, psi, parts, books, n, f) <==>
            || IsFileOf(files, base, psi, parts, books, n - 1, f)
            || (Found(parts, books[n - 1]) && f == FileOf(files, base, psi, parts, books, n - 1))
  {
    if IsFileOf(files, base, psi, parts, books, n - 1, f) {
      var k :| 0 <= k < n - 1 && Found(parts, books[k]) && f == FileOf(files, base, psi, parts, books, k);
      assert 0 <= k < n;
    }
    if Found(parts, books[n - 1]) && f == FileOf(files, base, psi, parts, books, n - 1) {
      assert 0 <= n - 1 < n;
    }
  }

  /** In many-file mode every file there was stays as it was; every bookmark that is found has a
      new file with its content; and there is no other new file. */
  lemma ManyFiles(files: Directory, base: string, psi: Bytes, parts: seq<Bytes>, books: seq<Book>, n: nat)
    requires n <= |books|
    ensures var after := CopyDisk(files, base, psi, parts, books, n, false);
      && (forall f :: f in files ==> f in after && after[f] == files[f])
      && (forall f :: f in after && f !in files <==> IsFileOf(files, base, psi, parts, books, n, f))
      && (forall k :: 0 <= k < n && Found(parts, books[k]) ==>
            var f := FileOf(files, base, psi, parts, books, k); f in after && after[f] == psi + Stretch(parts, books[k]))
  {
    var after := CopyDisk(files, base, psi, parts, books, n, false);
    forall f | f in files ensures f in after && after[f] == files[f] {
      OldFilesStay(files, base, psi, parts, books, n, f);
    }
    forall f ensures f in after && f !in files <==> IsFileOf(files, base, psi, parts, books, n, f) {
      NewFiles(files, base, psi, parts, books, n, f);
    }
    forall k | 0 <= k < n && Found(parts, books[k])
      ensures var f := FileOf(files, base, psi, parts, books, k); f in after && after[f] == psi + Stretch(parts, books[k])
    {
      OwnContent(files, base, psi, parts, books, n, k);
    }
  }

  /** Different bookmarks have different files. */
  lemma FilesDiffer(files: Directory, base: string, psi: Bytes, parts: seq<Bytes>, books: seq<Book>, j: nat, k: nat)
    requires j < k < |books| && Found(parts, books[j]) && Found(parts, books[k])
    ensures FileOf(files, base, psi, parts, books, j) != FileOf(files, base, psi, parts, books, k)
  {
    OwnContent(files, base, psi, parts, books, k, j);
  }

  lemma {:induction false} ProcessedAll(parts: seq<Bytes>, books: seq<Book>, k: nat)
    requires k <= |books|
    requires forall j :: 0 <= j < k && Found(parts, books[j]) ==> books[j].End() <= |Flat(parts)|
    ensures AllFit(parts, books) ==> Processed(parts, books, k) == |books|
    ensures forall j :: k <= j < Processed(parts, books, k) - 1 && Found(parts, books[j])
                        ==> books[j].End() <= |Flat(parts)|
    decreases |books| - k
  {
    if k < |books| && !(Found(parts, books[k]) && books[k].End() > |Flat(parts)|) {
      ProcessedAll(parts, books, k + 1);
    }
  }

  lemma {:induction false} CopyTableSane(user: seq<Bookmark>, secsize: int)
    requires 83333 <= secsize
    ensures forall k :: 0 <= k < |CopyTable(user, secsize)| ==>
              0 <= CopyTable(user, secsize)[k].pos && 0 <= CopyTable(user, secsize)[k].len
  {
    if user != [] {
      var last := user[|user| - 1];
      CopyTableSane(user[..|user| - 1], secsize);
      SecPosMonotone(last.pos, 0, secsize);
      if last.length > 0 {
        SecPosMonotone(last.length, 0, secsize);
      }
    }
  }

  lemma {:induction false} CopyTableAligned(user: seq<Bookmark>, secsize: int)
    requires 83333 <= secsize
    ensures AlignedBooks(CopyTable(user, secsize))
  {
    if user != [] {
      var last := user[|user| - 1];
      CopyTableAligned(user[..|user| - 1], secsize);
      AlignedSecPos(last.pos, secsize);
      if last.length > 0 {
        AlignedSecPos(last.length, secsize);
      }
    }
  }

  method AddCopyBooks(user: seq<Bookmark>, secsize: int) returns (books: array<Book>, bcount: nat)
    ensures fresh(books) && bcount <= books.Length && books[..bcount] == CopyTable(user, secsize)
  {
    books := new Book[|user| + 2](_ => Book(0, 0, false));
    bcount := 0;
    for k := 0 to |user|
      invariant 0 <= bcount <= k
      invariant books[..bcount] == CopyTable(user[..k], secsize)
    {
      assert user[..k + 1][..k] == user[..k];
      if user[k].pos != 0 && user[k].length > 0 {
        Add(books, bcount, CopyBook(user[k], secsize));
        bcount := bcount + 1;
      }
    }
    assert user[..|user|] == user;
  }
}
