/** The editing operations on the directory that holds the recordings. */
module Editing {
  import opened Recording
  import opened Streaming
  import opened CutPlan
  import opened CutTables
  import opened Bookmarks
  import opened Overlaps
  import opened CopyLoop
  import opened CopyRequests
  import opened Files
  import opened Truncation
  import opened CutRun
  import opened CutEdges
  import opened Packets

  import opened CutMeaning
  import opened CutOrder
  import opened Requests

  import CL = CutLoop
  import CutResults

  // The stream's tables: the first three packets of the first part.
  const PSI_SIZE: nat := 564

  function Psi(parts: seq<Bytes>): Bytes {
    if parts == [] || |parts[0]| < PSI_SIZE then [] else parts[0][..PSI_SIZE]
  }

  /** A new file under a free output name is no part of any recording. */
  lemma NewFileIsNoPart(files: Directory, name: string, base: string, content: Bytes)
    requires name in files
    ensures Parts(files[NewName(files, base) := content], name) == Parts(files, name)
  {
    NamesInjective(base);
    var k := FirstFree(files.Keys, OutNames(base), 0);
    var after := files[OutName(base, k) := content];
    var n := PartCount(files, name);
    assert PartName(name, 0) == name;
    OutIsNoPart(base, k, name, n);
    PartCountIs(after, name, n);
  }

  /** The cut ends, however the table is sorted. */
  ghost predicate CutEnds(parts: seq<Bytes>, m: Movie) {
    CutTable(m) != [] && Psi(parts) != [] ==>
      forall sorted :: QSorted(CutTable(m), sorted) ==> LoopEnds(parts, Resolve(sorted, 0), m.size)
  }

  /** A recorded size of at least the parts' total is enough. */
  lemma FullSizeCutEnds(parts: seq<Bytes>, m: Movie)
    requires |Flat(parts)| <= m.size
    ensures CutEnds(parts, m)
  {
    if CutTable(m) != [] {
      forall sorted | QSorted(CutTable(m), sorted) ensures LoopEnds(parts, Resolve(sorted, 0), m.size) {
        ResolvedTable(m, sorted);
        FullSizeEnds(parts, Resolve(sorted, 0), m.size);
      }
    }
  }

  /** The cut was successful, or not, as the loop ends after so many turns, and its seeks, reads and
      writes were at just these edges. */
  ghost predicate LoopRun(parts: seq<Bytes>, table: seq<Book>, size: nat, retval: int, turns: nat, edges: set<int>) {
    && table != [] && table[0].ok
    && After(parts, table, size, Start(table), turns) == Over(retval == 1) && (retval == 0 || retval == 1)
    && edges == RunEdges(parts, table, size, Start(table), turns)
  }

  /** The new file: the stream's tables, and what was planned. */
  ghost predicate CutFile(parts: seq<Bytes>, plan: seq<Book>, expected: int, content: Bytes, spos: int, newsize: int) {
    && |Psi(parts)| == PSI_SIZE && Psi(parts) <= content && |content| == PSI_SIZE + spos
    && CL.Written(parts, plan, expected, content[PSI_SIZE..], spos, newsize)
  }

  /** The bookmarks that are left ask for intervals in turn, so that the cut can be as asked. */
  ghost predicate CutsInTurn(m: Movie, sorted: seq<Book>, total: nat) {
    total <= m.size && Near(CutTable(m)) && AllInTurn(Skipped(sorted), total)
  }

  /** What is written is the recording without the bytes that the bookmarks ask to cut, less the
      trims. */
  ghost predicate AsAsked(m: Movie, s: seq<Book>, parts: seq<Bytes>, out: Bytes) {
    out == KeptFrom(parts, s, 0) && forall x :: Covered(s, x) <==> Asked(m, x)
  }

  lemma CutIsAsAsked(m: Movie, sorted: seq<Book>, parts: seq<Bytes>, expected: int, content: Bytes, spos: int, newsize: int)
    requires QSorted(CutTable(m), sorted) && CutTable(m) != [] && CutsInTurn(m, sorted, |Flat(parts)|)
    requires Followable(parts, Skipped(sorted), 0, 0) ==> CutFile(parts, Skipped(sorted), expected, content, spos, newsize)
    ensures Followable(parts, Skipped(sorted), 0, 0)
    ensures CutFile(parts, Skipped(sorted), expected, content, spos, newsize)
    ensures AsAsked(m, Skipped(sorted), parts, content[PSI_SIZE..])
  {
    CutResults.CutKeepsTheRest(m, sorted, parts);
  }

  /** Building, sorting and resolving the table of intervals. */
  method ResolvedCutTable(m: Movie) returns (table: seq<Book>, newsize: int, ghost sorted: seq<Book>)
    ensures CutTable(m) == [] <==> table == []
    ensures QSorted(CutTable(m), sorted) && table == Resolve(sorted, 0) && AllSane(table, m.size)
    ensures table != [] ==> table[0].ok
    ensures newsize == m.size - SumLen(Skipped(sorted))
  {
    var books, bcount := BuildCutTable(m);
    QSort(books, bcount);
    sorted := books[..bcount];
    newsize := ResolveOverlaps(books, bcount, m.size);
    table := books[..bcount];
    OkLenIsSum(table, 0);
    if CutTable(m) != [] {
      ResolvedTable(m, sorted);
    }
  }

  /** After i bookmarks: the directory is as planned, `done` says whether a file was opened and
      dpart, in one-file mode, which; unless ok, the last bookmark did not fit. */
  ghost predicate CopyRun(was: Directory, now: Directory, base: string, parts: seq<Bytes>, books: seq<Book>,
                          i: nat, onefile: bool, dpart: string, done: bool, ok: bool)
  {
    && i <= |books| && now == CopyDisk(was, base, Psi(parts), parts, books, i, onefile)
    && done == AnyFound(parts, books, i)
    && (done && onefile ==> dpart == NewName(was, base) && dpart in now)
    && (if ok then Processed(parts, books, 0) == Processed(parts, books, i) &&
                   forall j :: 0 <= j < i && Found(parts, books[j]) ==> books[j].End() <= |Flat(parts)|
        else Processed(parts, books, 0) == i && !AllFit(parts, books))
  }

  /** The edges of all bookmarks that copy_movie processes. */
  ghost function MovieEdges(parts: seq<Bytes>, m: Movie): set<int> {
    var books := CopyTable(m.user, CutSecSize(m));
    SecSizeBounds(m.size, m.length, 5_000_000, 190_000_000);
    CopyTableSane(m.user, CutSecSize(m));
    CopyEdges(parts, books, Processed(parts, books, 0))
  }

  lemma AnyFoundNext(parts: seq<Bytes>, books: seq<Book>, i: nat)
    requires i < |books|
    ensures AnyFound(parts, books, i + 1) <==> AnyFound(parts, books, i) || Found(parts, books[i])
  {
  }

  /** The length of the first n parts. */
  ghost function LengthBefore(files: Directory, name: string, n: nat): nat
    requires n <= PartCount(files, name)
  {
    Before(Parts(files, name), n)
  }

  lemma FirstPart(files: Directory, name: string)
    requires name in files
    ensures 1 <= PartCount(files, name) && LengthBefore(files, name, 1) == |files[name]|
  {
    assert PartName(name, 0) == name;
    BeforeNext(Parts(files, name), 0);
  }

  lemma OnePartMore(files: Directory, name: string, n: nat)
    requires n < PartCount(files, name)
    ensures PartName(name, n) in files
    ensures LengthBefore(files, name, n + 1) == LengthBefore(files, name, n) + |files[PartName(name, n)]|
  {
    BeforeNext(Parts(files, name), n);
  }

  lemma AllPartsLength(files: Directory, name: string)
    ensures LengthBefore(files, name, PartCount(files, name)) == |Flat(Parts(files, name))|
  {
    var parts := Parts(files, name);
    assert parts[..|parts|] == parts;
  }

  class Disk {
    var files: Directory

    /** The parts of a recording, found by asking for one name after the other. */
    method ReadParts(name: string) returns (parts: seq<Bytes>)
      ensures parts == Parts(files, name)
    {
      parts := [];
      while PartName(name, |parts|) in files
        invariant |parts| <= PartCount(files, name) && parts == Parts(files, name)[..|parts|]
        decreases PartCount(files, name) - |parts|
      {
        parts := parts + [files[PartName(name, |parts|)]];
      }
    }

    /** find_new_part */
    method FindNewPart(base: string) returns (dpart: string)
      ensures dpart == NewName(files, base)
    {
      NamesInjective(base);
      var dp := 0;
      while OutName(base, dp) in files
        invariant 0 <= dp <= FirstFree(files.Keys, OutNames(base), 0)
        decreases FirstFree(files.Keys, OutNames(base), 0) - dp
      {
        assert OutNames(base)(dp) == OutName(base, dp);
        dp := dp + 1;
      }
      assert OutNames(base)(dp) == OutName(base, dp);
      dpart := OutName(base, dp);
    }

    /** cut_movie: the new file holds the stream's tables and the recording without the
        requested intervals; nothing else on the disk changes. It is called with recordings whose
        cut ends, which CutResults.CutEndsIff tells beforehand; a recorded size of at least the
        parts' total is always enough. */
    method CutMovie(name: string, m: Movie)
      returns (retval: int, spos: int, newsize: int, ghost sorted: seq<Book>, ghost turns: nat, ghost edges: set<int>)
      requires name in files && CutEnds(Parts(files, name), m)
      modifies this
      ensures CutTable(m) == [] ==> retval == 0 && files == old(files)
      ensures CutTable(m) != [] ==>
        var parts, dpart := Parts(old(files), name), NewName(old(files), BaseName(name));
        var s, total, expected := Skipped(sorted), |Flat(parts)|, m.size - SumLen(Skipped(sorted));
        && QSorted(CutTable(m), sorted)
        && dpart in files && files == old(files)[dpart := files[dpart]]
        && (Psi(parts) == [] ==> retval == 0 && files[dpart] == [])
        && (Psi(parts) != [] && CL.InOrder(parts, Resolve(sorted, 0), m.size) ==>
              retval == 1 && CutFile(parts, Closed(s, m.size, total), expected, files[dpart], spos, newsize))
        && (Psi(parts) != [] && total <= m.size && Followable(parts, s, 0, 0) ==>
              retval == 1 && CutFile(parts, s, expected, files[dpart], spos, newsize))
        && (Psi(parts) != [] && CutsInTurn(m, sorted, total) ==>
              retval == 1 && |files[dpart]| >= PSI_SIZE && AsAsked(m, s, parts, files[dpart][PSI_SIZE..]))
      ensures var parts := Parts(old(files), name);
        if CutTable(m) == [] || Psi(parts) == [] then edges == {}
        else LoopRun(parts, Resolve(sorted, 0), m.size, retval, turns, edges)
      ensures AlignedParts(Parts(old(files), name)) && Aligned(m.size) ==> AllAligned(edges)
    {
      retval, spos, turns, edges := 0, 0, 0, {};
      ghost var parts := Parts(files, name);
      var table;
      table, newsize, sorted := ResolvedCutTable(m);
      if table == [] {
        return;
      }
      retval, spos, newsize, turns, edges := CutInto(name, table, m.size, newsize);
      if Psi(parts) != [] && |Flat(parts)| <= m.size && Followable(parts, Skipped(sorted), 0, 0) {
        CL.FullSizeInOrder(parts, table, m.size);
        var content := files[NewName(old(files), BaseName(name))];
        CL.FullSizeWritten(parts, table, m.size, m.size - SumLen(Skipped(sorted)), content[PSI_SIZE..], spos, newsize);
      }
      if Psi(parts) != [] && CutsInTurn(m, sorted, |Flat(parts)|) {
        CutIsAsAsked(m, sorted, parts, m.size - SumLen(Skipped(sorted)), files[NewName(old(files), BaseName(name))],
                     spos, newsize);
      }
      if AlignedParts(parts) && Aligned(m.size) {
        CutTableAligned(m, sorted, parts);
      }
    }

    /** The part of cut_movie behind the table: the new file and the copy loop. */
    method CutInto(name: string, table: seq<Book>, size: nat, expected: int)
      returns (retval: int, spos: int, newsize: int, ghost turns: nat, ghost edges: set<int>)
      requires name in files && (Psi(Parts(files, name)) != [] ==> LoopEnds(Parts(files, name), table, size))
      modifies this
      ensures var parts, dpart := Parts(old(files), name), NewName(old(files), BaseName(name));
        && dpart in files && files == old(files)[dpart := files[dpart]]
        && (Psi(parts) == [] ==> retval == 0 && files[dpart] == [])
        && (Psi(parts) != [] && CL.InOrder(parts, table, size) ==>
              && retval == 1
              && CutFile(parts, CL.Plan(table, size, |Flat(parts)|), expected, files[dpart], spos, newsize))
        && (if Psi(parts) == [] then edges == {} else LoopRun(parts, table, size, retval, turns, edges))
        && (AlignedTable(parts, table, size) ==> AllAligned(edges))
    {
      retval, spos, newsize, turns, edges := 0, 0, expected, 0, {};
      var dpart := FindNewPart(BaseName(name));
      files := files[dpart := []];
      NewFileIsNoPart(old(files), name, BaseName(name), []);
      var parts := ReadParts(name);
      if parts != [] && |parts[0]| >= PSI_SIZE {
        retval, spos, newsize, turns, edges := WriteKept(dpart, parts, table, size, newsize);
      }
    }

    /** The stream's tables and what the copy loop keeps go to the new file. */
    method WriteKept(dpart: string, parts: seq<Bytes>, table: seq<Book>, size: nat, expected: int)
      returns (retval: int, spos: int, newsize: int, ghost turns: nat, ghost edges: set<int>)
      requires Psi(parts) != [] && LoopEnds(parts, table, size)
      modifies this
      ensures dpart in files && files == old(files)[dpart := files[dpart]]
      ensures CL.InOrder(parts, table, size) ==>
        && retval == 1
        && CutFile(parts, CL.Plan(table, size, |Flat(parts)|), expected, files[dpart], spos, newsize)
      ensures LoopRun(parts, table, size, retval, turns, edges)
      ensures AlignedTable(parts, table, size) ==> AllAligned(edges)
    {
      var ok, c;
      ok, c, turns, edges := CL.CutParts(parts, table, size, expected);
      files := files[dpart := parts[0][..PSI_SIZE] + c.out];
      spos, newsize := c.spos, c.newsize;
      retval := if ok then 1 else 0;
      assert files[dpart][PSI_SIZE..] == c.out;
    }

    /** copy_movie: the bookmarked stretches go to new files, each from its first GOP on. With parts
        of whole packets every read, seek and write is at a packet boundary. */
    method CopyMovie(name: string, m: Movie, onefile: bool) returns (retval: int, ghost edges: set<int>)
      requires name in files
      modifies this
      ensures var parts, base := Parts(old(files), name), BaseName(name);
              var books := CopyTable(m.user, CutSecSize(m));
              CopiesOf(books, m.user, CutSecSize(m)) &&
              if books == [] || Psi(parts) == [] then retval == 0 && files == old(files)
              else
                && (retval == 1 <==> AllFit(parts, books)) && (retval == 0 || retval == 1)
                && files == CopyDisk(old(files), base, Psi(parts), parts, books, Processed(parts, books, 0), onefile)
      ensures edges == (if Psi(Parts(old(files), name)) == [] then {} else MovieEdges(Parts(old(files), name), m))
      ensures AlignedParts(Parts(old(files), name)) ==> AllAligned(edges)
    {
      retval, edges := 0, {};
      SecSizeBounds(m.size, m.length, 5_000_000, 190_000_000);
      CopyTableAsks(m.user, CutSecSize(m));
      var table, bcount := AddCopyBooks(m.user, CutSecSize(m));
      if bcount == 0 {
        return;
      }
      var parts := ReadParts(name);
      if parts == [] || |parts[0]| < PSI_SIZE {
        return;
      }
      CopyTableSane(m.user, CutSecSize(m));
      CopyTableAligned(m.user, CutSecSize(m));
      retval, edges := CopyBooks(parts, table[..bcount], BaseName(name), onefile);
    }

    method CopyBooks(parts: seq<Bytes>, books: seq<Book>, base: string, onefile: bool)
      returns (retval: int, ghost edges: set<int>)
      requires Psi(parts) != [] && forall k :: 0 <= k < |books| ==> 0 <= books[k].pos && 0 <= books[k].len
      modifies this
      ensures (retval == 1 <==> AllFit(parts, books)) && (retval == 0 || retval == 1)
      ensures files == CopyDisk(old(files), base, Psi(parts), parts, books, Processed(parts, books, 0), onefile)
      ensures edges == CopyEdges(parts, books, Processed(parts, books, 0))
      ensures AlignedParts(parts) && AlignedBooks(books) ==> AllAligned(edges)
    {
      edges := {};
      var dpart, done := "", false;
      var i, ok := 0, true;
      while i < |books| && ok
        invariant 0 <= i <= |books|
        invariant CopyRun(old(files), files, base, parts, books, i, onefile, dpart, done, ok)
        invariant edges == CopyEdges(parts, books, i)
        invariant AlignedParts(parts) && AlignedBooks(books) ==> AllAligned(edges)
      {
        ghost var touched;
        dpart, done, ok, touched := CopyOne(parts, books, i, base, onefile, dpart, done, old(files));
        edges := edges + touched;
        i := i + 1;
      }
      retval := if ok then 1 else 0;
    }

    method CopyOne(parts: seq<Bytes>, books: seq<Book>, i: nat, base: string, onefile: bool,
                   dpart0: string, done0: bool, ghost was: Directory)
      returns (dpart: string, done: bool, ok: bool, ghost edges: set<int>)
      requires Psi(parts) != [] && i < |books| && 0 <= books[i].pos && 0 <= books[i].len
      requires CopyRun(was, files, base, parts, books, i, onefile, dpart0, done0, true)
      modifies this
      ensures CopyRun(was, files, base, parts, books, i + 1, onefile, dpart, done, ok)
      ensures edges == EdgesFrom(parts, 0, books[i].pos, books[i].len)
      ensures AlignedParts(parts) && AlignedBooks(books) ==> AllAligned(edges)
    {
      if onefile {
        OneFile(was, base, Psi(parts), parts, books, i);
      }
      AnyFoundNext(parts, books, i);
      dpart, done := dpart0, done0;
      var found, data;
      found, ok, data, edges := CopyStretch(parts, books[i]);
      if found {
        dpart := WriteStretch(base, dpart, !done || !onefile, parts[0][..PSI_SIZE], data);
        done := true;
      }
    }

    /** Opens a new file, with the stream's tables, unless one is open, and appends a stretch. */
    method WriteStretch(base: string, dpart0: string, opens: bool, psi: Bytes, data: Bytes) returns (dpart: string)
      requires !opens ==> dpart0 in files
      modifies this
      ensures dpart == if opens then NewName(old(files), base) else dpart0
      ensures files == old(files)[dpart := (if opens then psi else old(files)[dpart0]) + data]
    {
      dpart := dpart0;
      if opens {
        dpart := FindNewPart(base);
        files := files[dpart := psi];
      }
      files := files[dpart := files[dpart] + data];
    }

    /** get_full_len: the sizes of all parts, found by asking for one part after the other. */
    method FullLength(name: string) returns (length: nat)
      requires name in files
      ensures length == |Flat(Parts(files, name))|
    {
      length := |files[name]|;
      var part := 1;
      FirstPart(files, name);
      while PartName(name, part) in files
        invariant 1 <= part <= PartCount(files, name)
        invariant length == LengthBefore(files, name, part)
        decreases PartCount(files, name) - part
      {
        OnePartMore(files, name, part);
        length := length + |files[PartName(name, part)]|;
        part := part + 1;
      }
      AllPartsLength(files, name);
    }

    /** truncate_movie: the recording keeps its bytes before the end bookmark, if that lies
        inside it, and is still there with just that length; else nothing happens. No other file
        changes, and none appears. */
    method TruncateMovie(name: string, m: Movie) returns (result: int, m': Movie)
      modifies this
      ensures var before := Parts(old(files), name);
              var cut := SecSize(m.size, m.length, 10_000_000, 90_000_000) * m.end;
              if 0 <= cut < |Flat(before)| then
                && result == cut && m' == m.(size := cut, length := m.end / 60, end := 0)
                && name in files && Flat(Parts(files, name)) == Flat(before)[..cut]
                && |Flat(Parts(files, name))| == result
                && var p, o := CutPart(before, cut, 0), CutOffset(before, cut, 0);
                   p < |before| && 0 <= o <= |before[p]| && Parts(files, name) == CutShort(before, p, o)
              else
                result == 0 && files == old(files) && m' == m
      ensures OnlyParts(old(files), files, name)
    {
      var secsize := SecSize(m.size, m.length, 10_000_000, 90_000_000);
      SecSizeBounds(m.size, m.length, 10_000_000, 90_000_000);
      var newsize: nat := secsize * m.end;
      var found, tpart, rest := UnlinkBehind(name, newsize);
      result, m' := 0, m;
      if found {
        TruncateDone(old(files), files, name, newsize, tpart, rest);
        files := files[PartName(name, tpart) := files[PartName(name, tpart)][..rest]];
        result, m' := newsize, m.(size := newsize, length := m.end / 60, end := 0);
      } else {
        NothingToTruncate(old(files), files, name, newsize, tpart, rest);
      }
    }

    /** The loop over the parts: finds the one that holds the cut, and unlinks those behind it. */
    method UnlinkBehind(name: string, newsize: nat) returns (found: bool, tpart: nat, rest: int)
      modifies this
      ensures Truncating(old(files), files, name, newsize, PartCount(old(files), name), tpart, found, rest)
    {
      var part := 0;
      tpart, found, rest := 0, false, newsize;
      PartStillThere(old(files), files, name, newsize, part, tpart, found, rest);
      while PartName(name, part) in files
        invariant 0 <= part
        invariant Truncating(old(files), files, name, newsize, part, tpart, found, rest)
        invariant PartName(name, part) in files <==> part < PartCount(old(files), name)
        decreases PartCount(old(files), name) - part
      {
        PartStillThere(old(files), files, name, newsize, part, tpart, found, rest);
        found, tpart, rest := TruncatePart(name, newsize, part, tpart, found, rest, old(files));
        part := part + 1;
        PartStillThere(old(files), files, name, newsize, part, tpart, found, rest);
      }
    }

    /** One part: unlinked behind the cut, else checked for holding it. */
    method TruncatePart(name: string, ghost cut: nat, part: nat, tpart0: nat, found0: bool, rest0: int,
                        ghost was: Directory)
      returns (found: bool, tpart: nat, rest: int)
      requires Truncating(was, files, name, cut, part, tpart0, found0, rest0)
      requires part < PartCount(was, name) && PartName(name, part) in files
      requires files[PartName(name, part)] == Parts(was, name)[part]
      modifies this
      ensures Truncating(was, files, name, cut, part + 1, tpart, found, rest)
    {
      found, tpart, rest := found0, tpart0, rest0;
      ghost var now := files;
      if found {
        files := files - {PartName(name, part)};
      } else if rest < |files[PartName(name, part)]| {
        tpart := part;
        found := true;
      } else {
        rest := rest - |files[PartName(name, part)]|;
      }
      TruncateStep(was, now, name, cut, part, tpart0, found0, rest0, files, found, tpart, rest);
    }
  }
}
