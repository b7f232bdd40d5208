/** Intervals that begin and end at packet boundaries. */
module Packets {
  import opened Recording
  import opened Streaming
  import opened CutPlan
  import opened Bookmarks
  import opened Overlaps
  import opened CutTables
  import opened CutEdges

  lemma AlignedSecPos(s: nat, secsize: int)
    requires 83333 <= secsize
    ensures Aligned(SecPos(s, secsize)) && Aligned(Shortened(SecPos(s, secsize)))
  {
    assert SecPos(s, secsize) == PacketStart(s * secsize / 188);
    assert SAFE_GOP == PacketStart(1395);
    AlignedSum(SecPos(s, secsize), SAFE_GOP);
  }

  ghost predicate AlignedBooks(s: seq<Book>) {
    forall k :: 0 <= k < |s| ==> Aligned(s[k].pos) && Aligned(s[k].len)
  }

  lemma {:induction false} UserBooksAligned(user: seq<Bookmark>, secsize: int)
    requires 83333 <= secsize
    ensures AlignedBooks(UserBooks(user, secsize))
  {
    if user != [] {
      var last := user[|user| - 1];
      UserBooksAligned(user[..|user| - 1], secsize);
      AlignedSecPos(last.pos, secsize);
      if last.length > 0 {
        AlignedSecPos(last.length, secsize);
      }
    }
  }

  lemma PassAligned(s: seq<Book>, i: nat)
    requires i < |s| && AlignedBooks(s)
    ensures AlignedBooks(Pass(s, i))
  {
    forall j | 0 <= j < |s| ensures Aligned(Pass(s, i)[j].pos) && Aligned(Pass(s, i)[j].len) {
      AlignedSum(s[i].pos, s[i].len);
      AlignedSum(s[j].pos, s[j].len);
      AlignedSum(s[j].End(), s[i].End());
    }
  }

  lemma {:induction false} ResolveAligned(s: seq<Book>, i: nat)
    requires AlignedBooks(s)
    ensures AlignedBooks(Resolve(s, i))
    decreases |s| - i
  {
    if i < |s| {
      PassAligned(s, i);
      ResolveAligned(if s[i].ok then Pass(s, i) else s, i + 1);
    }
  }

  lemma CutTableBooksAligned(m: Movie)
    requires Aligned(m.size)
    ensures AlignedBooks(CutTable(m))
  {
    var secsize := CutSecSize(m);
    SecSizeBounds(m.size, m.length, 5_000_000, 190_000_000);
    UserBooksAligned(m.user, secsize);
    AlignedSecPos(m.start, secsize);
    AlignedSecPos(m.end, secsize);
    AlignedSum(m.size, SecPos(m.end, secsize));
    assert 0 == PacketStart(0);
  }

  lemma SortedAligned(table: seq<Book>, sorted: seq<Book>)
    requires multiset(sorted) == multiset(table) && AlignedBooks(table)
    ensures AlignedBooks(sorted)
  {
    forall k | 0 <= k < |sorted| ensures Aligned(sorted[k].pos) && Aligned(sorted[k].len) {
      MultisetMember(sorted, table, k);
    }
  }

  /** If the parts are whole packets, the resolved table is, and with it every seek, read and write
      of the cut. */
  lemma CutTableAligned(m: Movie, sorted: seq<Book>, parts: seq<Bytes>)
    requires QSorted(CutTable(m), sorted) && AlignedParts(parts) && Aligned(m.size)
    ensures AlignedTable(parts, Resolve(sorted, 0), m.size)
  {
    CutTableBooksAligned(m);
    SortedAligned(CutTable(m), sorted);
    ResolveAligned(sorted, 0);
  }
}
