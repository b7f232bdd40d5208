/** From the table of requested intervals to the survivors that the copy loop skips. */
module CutTables {
  import opened CutPlan
  import opened CutMeaning
  import opened Bookmarks
  import opened Overlaps

  /** What qsort may make of the table. */
  ghost predicate QSorted(table: seq<Book>, sorted: seq<Book>) {
    && multiset(sorted) == multiset(table)
    && (Near(table) ==> SortedByBlock(sorted))
  }

  function Skipped(sorted: seq<Book>): seq<Book> {
    Survivors(Resolve(sorted, 0), 0)
  }

  lemma MultisetMember(a: seq<Book>, b: seq<Book>, k: nat)
    requires multiset(a) == multiset(b) && k < |a|
    ensures a[k] in b
  {
    assert a[k] in multiset(a);
  }

  lemma SameMembersCover(a: seq<Book>, b: seq<Book>, x: int)
    requires multiset(a) == multiset(b) && OkCovered(a, x)
    ensures OkCovered(b, x)
  {
    var k :| 0 <= k < |a| && a[k].ok && a[k].pos <= x < a[k].End();
    MultisetMember(a, b, k);
    var j :| 0 <= j < |b| && b[j] == a[k];
  }

  /** Sorting by block puts the entries in order of their first byte. */
  lemma SortedTable(m: Movie, sorted: seq<Book>)
    requires QSorted(CutTable(m), sorted) && Near(CutTable(m))
    ensures OkSorted(sorted)
  {
    CutTableFromSeconds(m);
    forall j, k | 0 <= j < k < |sorted| ensures sorted[j].pos <= sorted[k].pos {
      MultisetMember(sorted, CutTable(m), j);
      MultisetMember(sorted, CutTable(m), k);
      SameBlockSameStart(m, sorted[j], sorted[k]);
    }
  }

  lemma {:induction false} ResolveSane(s: seq<Book>, i: nat, size: int)
    requires AllSane(s, size)
    ensures AllSane(Resolve(s, i), size)
    decreases |s| - i
  {
    if i < |s| {
      ResolveSane(if s[i].ok then Pass(s, i) else s, i + 1, size);
    }
  }

  lemma {:induction false} ResolveKeepsFirst(s: seq<Book>, i: nat)
    requires s != []
    ensures Resolve(s, i)[0] == s[0]
    decreases |s| - i
  {
    if i < |s| {
      ResolveKeepsFirst(if s[i].ok then Pass(s, i) else s, i + 1);
    }
  }

  ghost predicate OkEntry(books: seq<Book>, i: nat, b: Book) {
    exists k :: i <= k < |books| && books[k].ok && books[k] == b
  }

  /** The survivors are ok entries, in order. */
  lemma {:induction false} SurvivorsAre(books: seq<Book>, i: nat, size: int)
    requires AllSane(books, size)
    ensures var s := Survivors(books, i);
      && AllSane(s, size)
      && forall m :: 0 <= m < |s| ==> OkEntry(books, i, s[m])
    decreases |books| - i
  {
    if i < |books| {
      SurvivorsAre(books, i + 1, size);
      var rest := Survivors(books, i + 1);
      forall m | 0 <= m < |rest| ensures OkEntry(books, i, rest[m]) {
        assert OkEntry(books, i + 1, rest[m]);
      }
      assert books[i].ok ==> OkEntry(books, i, books[i]);
    }
  }

  lemma {:induction false} SurvivorsOrdered(books: seq<Book>, i: nat, size: int)
    requires AllSane(books, size) && OkSorted(books) && Settled(books, |books|)
    ensures var s := Survivors(books, i);
      forall j, k :: 0 <= j < k < |s| ==> s[j].pos <= s[k].pos && TogetherOrApart(s[j], s[k])
    decreases |books| - i
  {
    if i < |books| {
      SurvivorsOrdered(books, i + 1, size);
      SurvivorsAre(books, i + 1, size);
      var rest := Survivors(books, i + 1);
      if books[i].ok {
        forall k | 0 <= k < |rest| ensures books[i].pos <= rest[k].pos && TogetherOrApart(books[i], rest[k]) {
          assert OkEntry(books, i + 1, rest[k]);
        }
      }
    }
  }

  lemma {:induction false} SurvivorsCover(books: seq<Book>, i: nat, x: int)
    ensures Covered(Survivors(books, i), x)
       <==> exists k :: i <= k < |books| && books[k].ok && books[k].pos <= x < books[k].End()
    decreases |books| - i
  {
    if i < |books| {
      var rest := Survivors(books, i + 1);
      SurvivorsCover(books, i + 1, x);
      if books[i].ok {
        CoveredCons(books[i], rest, x);
        assert Survivors(books, i) == [books[i]] + rest;
      }
    }
  }

  lemma CoveredCons(b: Book, rest: seq<Book>, x: int)
    ensures Covered([b] + rest, x) <==> b.pos <= x < b.End() || Covered(rest, x)
  {
    var s := [b] + rest;
    if Covered(rest, x) {
      var k :| 0 <= k < |rest| && rest[k].pos <= x < rest[k].End();
      assert s[k + 1].pos <= x < s[k + 1].End();
    }
    if b.pos <= x < b.End() {
      assert s[0].pos <= x < s[0].End();
    }
  }

  /** What the copy loop needs of the resolved table holds however qsort ordered it. */
  lemma ResolvedTable(m: Movie, sorted: seq<Book>)
    requires QSorted(CutTable(m), sorted) && CutTable(m) != []
    ensures Resolve(sorted, 0) != [] && Resolve(sorted, 0)[0].ok && AllSane(Resolve(sorted, 0), m.size)
  {
    CutTableFromSeconds(m);
    assert |sorted| == |multiset(sorted)| == |CutTable(m)|;
    forall k | 0 <= k < |sorted| ensures sorted[k].ok && Sane(sorted[k], m.size) {
      MultisetMember(sorted, CutTable(m), k);
    }
    ResolveSane(sorted, 0, m.size);
    ResolveKeepsFirst(sorted, 0);
  }

  /** The survivors: sorted, apart unless they start together, and covering exactly the bytes
      that some bookmark asks to cut. */
  lemma SkippedIntervals(m: Movie, sorted: seq<Book>)
    requires QSorted(CutTable(m), sorted) && Near(CutTable(m)) && CutTable(m) != []
    ensures var s := Skipped(sorted);
      && AllSane(s, m.size) && SortedByStart(s)
      && (forall j, k :: 0 <= j < k < |s| ==> TogetherOrApart(s[j], s[k]))
      && forall x :: Covered(s, x) <==> OkCovered(CutTable(m), x)
  {
    var r := Resolve(sorted, 0);
    SortedTable(m, sorted);
    ResolveFrom(sorted, 0);
    ResolvedTable(m, sorted);
    SurvivorsAre(r, 0, m.size);
    SurvivorsOrdered(r, 0, m.size);
    forall x ensures Covered(Skipped(sorted), x) <==> OkCovered(CutTable(m), x) {
      SurvivorsCover(r, 0, x);
      if OkCovered(CutTable(m), x) {
        SameMembersCover(CutTable(m), sorted, x);
      }
      if OkCovered(sorted, x) {
        SameMembersCover(sorted, CutTable(m), x);
      }
    }
  }

  // Byte counts

  function SumLen(books: seq<Book>): int {
    if books == [] then 0 else books[0].len + SumLen(books[1..])
  }

  lemma {:induction false} OkLenIsSum(books: seq<Book>, i: nat)
    requires i <= |books|
    ensures OkLen(books, |books|) == OkLen(books, i) + SumLen(Survivors(books, i))
    decreases |books| - i
  {
    if i < |books| {
      OkLenIsSum(books, i + 1);
    }
  }

  predicate Apart(books: seq<Book>) {
    forall j, k :: 0 <= j < k < |books| ==> books[j].End() <= books[k].pos
  }

  /** Intervals that lie apart are skipped without ever going back, whatever size is recorded. */
  lemma {:induction false} ApartForward(books: seq<Book>, total: nat, size: nat, f: int)
    requires AllCalm(books, total) && Apart(books)
    requires 0 <= f && (books != [] ==> f <= books[0].pos)
    ensures ReadsForward(total, Closed(books, size, total), f, f)
    decreases |books|
  {
    ClosedTail(books, size, total);
    if books != [] && f < total && !Last(total, books) {
      assert |books| > 1 ==> books[1..][0] == books[1];
      ApartForward(books[1..], total, size, books[0].End());
    }
  }

  /** An interval takes all its length from a recording of so many bytes. */
  predicate Within(b: Book, total: nat) {
    b.len == 0 || b.End() <= total
  }

  /** What lies ahead is at least what the intervals' lengths leave of the recording, and just that
      if and only if all of them lie within it. */
  lemma {:induction false} ApartAhead(books: seq<Book>, total: nat, f: int)
    requires Apart(books) && 0 <= f <= total && (books != [] ==> f <= books[0].pos)
    requires forall k :: 0 <= k < |books| ==> 0 <= books[k].pos && 0 <= books[k].len
    ensures total - f - SumLen(books) <= Ahead(total, books, f)
    ensures total - f - SumLen(books) == Ahead(total, books, f) <==> forall k :: 0 <= k < |books| ==> Within(books[k], total)
    decreases |books|
  {
    if books != [] {
      var rest := books[1..];
      SumNonNegative(rest);
      assert forall k :: 0 <= k < |rest| ==> rest[k] == books[k + 1];
      if books[0].End() <= total {
        ApartAhead(rest, total, books[0].End());
        assert (forall k :: 0 <= k < |books| ==> Within(books[k], total)) <==>
               forall k :: 0 <= k < |rest| ==> Within(rest[k], total);
      } else if books[0].len == 0 {
        NoneWithin(books, total);
      } else {
        assert !Within(books[0], total);
      }
    }
  }

  lemma {:induction false} SumNonNegative(books: seq<Book>)
    requires forall k :: 0 <= k < |books| ==> 0 <= books[k].len
    ensures 0 <= SumLen(books) && (SumLen(books) == 0 <==> forall k :: 0 <= k < |books| ==> books[k].len == 0)
  {
    if books != [] {
      SumNonNegative(books[1..]);
      assert forall k :: 0 <= k < |books[1..]| ==> books[1..][k] == books[k + 1];
    }
  }

  /** Behind the recording only empty intervals count as within it. */
  lemma NoneWithin(books: seq<Book>, total: nat)
    requires books != [] && total < books[0].pos && Apart(books)
    requires forall k :: 0 <= k < |books| ==> 0 <= books[k].len
    ensures (forall k :: 0 <= k < |books| ==> Within(books[k], total)) <==> SumLen(books) == 0
  {
    SumNonNegative(books);
    forall k | 0 <= k < |books| ensures total < books[k].pos {
      assert k > 0 ==> books[0].End() <= books[k].pos;
    }
  }
}
