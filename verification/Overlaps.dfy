/** Sorting the intervals and resolving their overlaps in place. */
module Overlaps {
  import opened CutPlan
  import opened Bookmarks

  /** What entry b, in front, makes of entry c behind it: an overlap is cut off c, and a c that
      ends inside b is dropped. */
  function Adjust(b: Book, c: Book): Book {
    if b.pos < c.pos < b.End() then
      if c.End() > b.End() then Book(b.End(), c.End() - b.End(), c.ok) else Book(c.pos, c.len, false)
    else c
  }

  /** One pass of the outer loop: entry i adjusts every entry behind it. */
  function Pass(s: seq<Book>, i: nat): (r: seq<Book>)
    requires i < |s|
    ensures |r| == |s|
  {
    seq(|s|, j requires 0 <= j < |s| => if j > i then Adjust(s[i], s[j]) else s[j])
  }

  function Resolve(s: seq<Book>, i: nat): (r: seq<Book>)
    ensures |r| == |s|
    decreases |s| - i
  {
    if i >= |s| then s else Resolve(if s[i].ok then Pass(s, i) else s, i + 1)
  }

  /** The summed lengths of the first n entries that are still ok. */
  function OkLen(s: seq<Book>, n: nat): int
    requires n <= |s|
  {
    if n == 0 then 0 else OkLen(s, n - 1) + if s[n - 1].ok then s[n - 1].len else 0
  }

  ghost predicate OkCovered(s: seq<Book>, x: int) {
    exists k :: 0 <= k < |s| && s[k].ok && s[k].pos <= x < s[k].End()
  }

  predicate OkSorted(s: seq<Book>) {
    forall j, k :: 0 <= j < k < |s| && s[j].ok && s[k].ok ==> s[j].pos <= s[k].pos
  }

  /** Two entries that start together or do not touch. */
  predicate TogetherOrApart(b: Book, c: Book) {
    b.pos == c.pos || b.End() <= c.pos
  }

  /** Every ok entry before i starts together with, or ends before, every ok entry behind it. */
  predicate Settled(s: seq<Book>, i: nat) {
    forall j, k :: 0 <= j < k < |s| && j < i && s[j].ok && s[k].ok ==> TogetherOrApart(s[j], s[k])
  }

  lemma PassKeepsUnion(s: seq<Book>, i: nat, x: int)
    requires i < |s| && s[i].ok
    ensures OkCovered(s, x) <==> OkCovered(Pass(s, i), x)
  {
    var r := Pass(s, i);
    if OkCovered(s, x) {
      var k :| 0 <= k < |s| && s[k].ok && s[k].pos <= x < s[k].End();
      assert (r[k].ok && r[k].pos <= x < r[k].End()) || (r[i].ok && r[i].pos <= x < r[i].End());
    }
    if OkCovered(r, x) {
      var k :| 0 <= k < |r| && r[k].ok && r[k].pos <= x < r[k].End();
      assert s[k].ok && s[k].pos <= x < s[k].End();
    }
  }

  lemma PassKeepsOrder(s: seq<Book>, i: nat)
    requires i < |s| && s[i].ok && OkSorted(s)
    ensures OkSorted(Pass(s, i))
  {
  }

  lemma PassSettles(s: seq<Book>, i: nat)
    requires i < |s| && s[i].ok && OkSorted(s) && Settled(s, i)
    ensures Settled(Pass(s, i), i + 1)
  {
  }

  /** Resolving leaves the union of the intervals as it is, keeps the order of the survivors,
      and leaves no two survivors that overlap without starting together. */
  lemma {:induction false} ResolveFrom(s: seq<Book>, i: nat)
    requires OkSorted(s) && Settled(s, i)
    ensures var r := Resolve(s, i); OkSorted(r) && Settled(r, |r|)
    ensures forall x :: OkCovered(s, x) <==> OkCovered(Resolve(s, i), x)
    decreases |s| - i
  {
    if i < |s| {
      if s[i].ok {
        forall x ensures OkCovered(s, x) <==> OkCovered(Pass(s, i), x) {
          PassKeepsUnion(s, i, x);
        }
        PassKeepsOrder(s, i);
        PassSettles(s, i);
        ResolveFrom(Pass(s, i), i + 1);
      } else {
        ResolveFrom(s, i + 1);
      }
    }
  }

  /** The inner loop. */
  method PassInPlace(books: array<Book>, i: nat, bcount: nat)
    requires i < bcount <= books.Length
    modifies books
    ensures books[..bcount] == Pass(old(books[..bcount]), i)
  {
    ghost var was := books[..bcount];
    var curend := books[i].pos + books[i].len;
    for j := i + 1 to bcount
      invariant forall k :: 0 <= k < bcount ==> books[k] == if i < k < j then Adjust(was[i], was[k]) else was[k]
    {
      if books[j].pos > books[i].pos && books[j].pos < curend {
        var newend := books[j].pos + books[j].len;
        if newend > curend {
          books[j] := Book(curend, newend - curend, books[j].ok);
        } else {
          books[j] := Book(books[j].pos, books[j].len, false);
        }
      }
    }
  }

  lemma {:induction false} OkLenOfPrefix(s: seq<Book>, r: seq<Book>, n: nat)
    requires n <= |s| && n <= |r| && s[..n] == r[..n]
    ensures OkLen(s, n) == OkLen(r, n)
  {
    if n > 0 {
      assert s[..n - 1] == s[..n][..n - 1] && s[n - 1] == s[..n][n - 1] && r[n - 1] == r[..n][n - 1];
      OkLenOfPrefix(s, r, n - 1);
    }
  }

  /** The outer loop, which also takes the survivors' lengths off the expected size. */
  method ResolveOverlaps(books: array<Book>, bcount: nat, size: int) returns (newsize: int)
    requires bcount <= books.Length
    modifies books
    ensures books[..bcount] == Resolve(old(books[..bcount]), 0)
    ensures newsize == size - OkLen(books[..bcount], bcount)
  {
    newsize := size;
    for i := 0 to bcount
      invariant Resolve(books[..bcount], i) == Resolve(old(books[..bcount]), 0)
      invariant newsize == size - OkLen(books[..bcount], i)
    {
      if books[i].ok {
        ghost var was := books[..bcount];
        newsize := newsize - books[i].len;
        PassInPlace(books, i, bcount);
        OkLenOfPrefix(was, books[..bcount], i + 1);
      }
    }
  }

  // qsort is a library routine: the body below stands for any that meets the contract.

  function Insert(b: Book, s: seq<Book>): seq<Book> {
    if s == [] || CompareBook(b, s[0]) <= 0 then [b] + s else [s[0]] + Insert(b, s[1..])
  }

  function Sort(s: seq<Book>): seq<Book> {
    if s == [] then [] else Insert(s[0], Sort(s[1..]))
  }

  predicate Near(s: seq<Book>) {
    forall k :: 0 <= k < |s| ==> 0 <= s[k].pos < 0x200_0000_0000
  }

  predicate SortedByBlock(s: seq<Book>) {
    forall j, k :: 0 <= j < k < |s| ==> Key(s[j].pos) <= Key(s[k].pos)
  }

  lemma {:induction false} InsertPermutes(b: Book, s: seq<Book>)
    ensures multiset(Insert(b, s)) == multiset(s) + multiset{b}
  {
    if s != [] && CompareBook(b, s[0]) > 0 {
      InsertPermutes(b, s[1..]);
      assert s == [s[0]] + s[1..];
    }
  }

  lemma InsertIn(b: Book, s: seq<Book>, k: nat)
    requires k < |Insert(b, s)|
    ensures Insert(b, s)[k] == b || Insert(b, s)[k] in s
  {
    InsertPermutes(b, s);
    assert Insert(b, s)[k] in multiset(Insert(b, s));
  }

  lemma {:induction false} InsertSorts(b: Book, s: seq<Book>)
    requires Near(s) && 0 <= b.pos < 0x200_0000_0000 && SortedByBlock(s)
    ensures SortedByBlock(Insert(b, s))
  {
    if s != [] {
      CompareIsByBlock(b, s[0]);
      if CompareBook(b, s[0]) > 0 {
        var r := Insert(b, s[1..]);
        InsertSorts(b, s[1..]);
        forall k | 0 <= k < |r| ensures Key(s[0].pos) <= Key(r[k].pos) {
          InsertIn(b, s[1..], k);
        }
      } else {
        assert forall k :: 0 <= k < |s| ==> Key(s[0].pos) <= Key(s[k].pos);
      }
    }
  }

  lemma {:induction false} SortPermutes(s: seq<Book>)
    ensures multiset(Sort(s)) == multiset(s) && |Sort(s)| == |s|
  {
    if s != [] {
      SortPermutes(s[1..]);
      InsertPermutes(s[0], Sort(s[1..]));
      assert s == [s[0]] + s[1..];
      assert |multiset(Sort(s))| == |multiset(s)|;
    }
  }

  lemma {:induction false} SortSorts(s: seq<Book>)
    requires Near(s)
    ensures SortedByBlock(Sort(s)) && Near(Sort(s))
  {
    if s != [] {
      SortSorts(s[1..]);
      InsertSorts(s[0], Sort(s[1..]));
      SortPermutes(s);
      forall k | 0 <= k < |Sort(s)| ensures Sort(s)[k] in s {
        assert Sort(s)[k] in multiset(Sort(s));
      }
    }
  }

  method QSort(books: array<Book>, bcount: nat)
    requires bcount <= books.Length
    modifies books
    ensures multiset(books[..bcount]) == multiset(old(books[..bcount]))
    ensures Near(old(books[..bcount])) ==> SortedByBlock(books[..bcount])
  {
    var sorted := Sort(books[..bcount]);
    SortPermutes(books[..bcount]);
    if Near(books[..bcount]) {
      SortSorts(books[..bcount]);
    }
    for k := 0 to bcount
      invariant books[..k] == sorted[..k]
    {
      books[k] := sorted[k];
    }
    assert books[..bcount] == sorted;
  }
}
