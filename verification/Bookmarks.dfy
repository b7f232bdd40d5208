/** From bookmarks in seconds to byte intervals: arithmetic, table, order. */
module Bookmarks {
  import opened CutPlan

  const MP_TS_SIZE: int := 262072
  const MINUTEOFFSET: int := 117 * 262072
  const SAFE_GOP: int := 262260
  const TWO31: int := 0x8000_0000
  const TWO32: int := 0x1_0000_0000

  datatype Bookmark = Bookmark(pos: nat, length: int)

  /** The fields of a movie that editing reads: file size, running time in minutes, the start
      and end bookmarks in seconds, and the user's bookmarks. */
  datatype Movie = Movie(size: nat, length: int, start: nat, end: nat, user: seq<Bookmark>)

  /** Division that truncates towards zero. */
  function CDiv(a: int, b: int): int
    requires b != 0
  {
    if a >= 0 then (if b > 0 then a / b else -(a / -b))
    else (if b > 0 then -((-a) / b) else (-a) / (-b))
  }

  /** Bytes per second: size over minutes, in whole multiples of MP_TS_SIZE, replaced by the
      default when it is not between lo and hi. */
  function SecSize(size: nat, length: int, lo: int, hi: int): int {
    var minute := if length != 0 then CDiv(size, length) else MINUTEOFFSET;
    var rounded := CDiv(minute, MP_TS_SIZE) * MP_TS_SIZE;
    (if rounded < lo || rounded > hi then MINUTEOFFSET else rounded) / 60
  }

  function CutSecSize(m: Movie): int {
    SecSize(m.size, m.length, 5_000_000, 190_000_000)
  }

  lemma SecSizeBounds(size: nat, length: int, lo: int, hi: int)
    requires 5_000_000 <= lo <= 10_000_000 && 90_000_000 <= hi <= 190_000_000
    ensures 83333 <= SecSize(size, length, lo, hi) <= 3166666
  {
  }

  /** The packet boundary at or before second s. */
  function SecPos(s: nat, secsize: int): int {
    s * secsize / 188 * 188
  }

  function Key(pos: int): int {
    pos / 1024
  }

  /** Later seconds lie at later packet boundaries, and in later 1024-byte blocks. */
  lemma SecPosMonotone(s: nat, t: nat, secsize: int)
    requires 83333 <= secsize
    ensures SecPos(s, secsize) % 188 == 0 && 0 <= SecPos(s, secsize) <= s * secsize
    ensures s < t ==> SecPos(s, secsize) < SecPos(t, secsize)
    ensures s < t ==> Key(SecPos(s, secsize)) < Key(SecPos(t, secsize))
  {
    assert s * secsize >= 0;
    if s < t {
      assert t * secsize >= (s + 1) * secsize == s * secsize + secsize;
    }
  }

  /** Conversion of an integer to a 32-bit int. */
  function ToInt32(n: int): int {
    (n + TWO31) % TWO32 - TWO31
  }

  /** compare_book: the difference of the block numbers, all as 32-bit ints. */
  function CompareBook(x: Book, y: Book): int {
    ToInt32(ToInt32(Key(x.pos)) - ToInt32(Key(y.pos)))
  }

  /** The comparison's value is the difference of the blocks exactly when that fits an int;
      positions below 2^41 always give such a difference. */
  lemma CompareIsByBlock(x: Book, y: Book)
    ensures CompareBook(x, y) == Key(x.pos) - Key(y.pos) <==> -TWO31 <= Key(x.pos) - Key(y.pos) < TWO31
    ensures 0 <= x.pos < 0x200_0000_0000 && 0 <= y.pos < 0x200_0000_0000
            ==> CompareBook(x, y) == Key(x.pos) - Key(y.pos)
  {
    var a, b := Key(x.pos), Key(y.pos);
    assert ToInt32(a) - ToInt32(b) == a - b + TWO32 * ((b + TWO31) / TWO32 - (a + TWO31) / TWO32);
    Int32Periodic(a - b, (b + TWO31) / TWO32 - (a + TWO31) / TWO32);
  }

  /** The comparison tells which of two blocks comes first. */
  predicate OrdersRight(x: Book, y: Book) {
    && (CompareBook(x, y) < 0 <==> Key(x.pos) < Key(y.pos))
    && (CompareBook(x, y) == 0 <==> Key(x.pos) == Key(y.pos))
  }

  /** The distance of two blocks, where a distance of 2^32 counts as none, falls on its own side. */
  predicate OnItsSide(d: int) {
    if d > 0 then 0 < d % TWO32 < TWO31 else if d < 0 then d % TWO32 >= TWO31 else true
  }

  lemma SignOfInt32(d: int)
    ensures ToInt32(d) < 0 <==> d % TWO32 >= TWO31
    ensures ToInt32(d) == 0 <==> d % TWO32 == 0
  {
    Int32Periodic(d % TWO32, d / TWO32);
  }

  /** The exact condition for the order: the blocks' distance, wrapped around at 2^32, keeps its
      sign. */
  lemma OrdersRightIff(x: Book, y: Book)
    ensures OrdersRight(x, y) <==> OnItsSide(Key(x.pos) - Key(y.pos))
  {
    var a, b := Key(x.pos), Key(y.pos);
    assert ToInt32(a) - ToInt32(b) == a - b + TWO32 * ((b + TWO31) / TWO32 - (a + TWO31) / TWO32);
    Int32Periodic(a - b, (b + TWO31) / TWO32 - (a + TWO31) / TWO32);
    SignOfInt32(a - b);
  }

  /** So blocks less than 2^31 apart are always ordered right. */
  lemma NearOrdersRight(x: Book, y: Book)
    requires -TWO31 < Key(x.pos) - Key(y.pos) < TWO31
    ensures OrdersRight(x, y)
  {
    OrdersRightIff(x, y);
  }

  lemma Int32Periodic(n: int, q: int)
    ensures ToInt32(n + TWO32 * q) == ToInt32(n)
    ensures ToInt32(n) == n <==> -TWO31 <= n < TWO31
  {
  }

  /** Farther apart the comparison can call the later interval the smaller one, and can be right
      again. */
  lemma CompareCanFail()
    ensures var x, y := Book(0, 188, true), Book(0x200_0000_0400, 188, true);
            x.pos < y.pos && CompareBook(x, y) > 0
    ensures OrdersRight(Book(0, 188, true), Book(0x400_0000_1400, 188, true))
  {
    OrdersRightIff(Book(0, 188, true), Book(0x400_0000_1400, 188, true));
    assert Key(0x200_0000_0400) == TWO31 + 1;
  }

  function Shortened(len: int): int {
    if len > SAFE_GOP then len - SAFE_GOP else len
  }

  function UserBook(b: Bookmark, secsize: int): Book {
    Book(SecPos(b.pos, secsize), Shortened(if b.length > 0 then SecPos(b.length, secsize) else 0), true)
  }

  predicate Jumps(b: Bookmark) {
    b.pos != 0 && b.length > 0
  }

  function UserBooks(user: seq<Bookmark>, secsize: int): seq<Book> {
    if user == [] then []
    else
      var last := user[|user| - 1];
      UserBooks(user[..|user| - 1], secsize) + if Jumps(last) then [UserBook(last, secsize)] else []
  }

  /** The intervals to be cut: up to the start, the user's jumps, from the end on. */
  function CutTable(m: Movie): seq<Book> {
    var secsize := CutSecSize(m);
    var start := if m.start != 0 then [Book(0, Shortened(SecPos(m.start, secsize)), true)] else [];
    var end := SecPos(m.end, secsize);
    start + UserBooks(m.user, secsize) + if m.end != 0 then [Book(end, m.size - end, true)] else []
  }

  /** Every entry starts at second 0 or at a whole second, is active, and is sane. */
  ghost predicate FromSeconds(b: Book, m: Movie) {
    b.ok && Sane(b, m.size) && b.pos % 188 == 0 &&
    (b.pos == 0 || exists s: nat :: b.pos == SecPos(s, CutSecSize(m)))
  }

  lemma {:induction false} UserBooksFromSeconds(user: seq<Bookmark>, m: Movie)
    ensures |UserBooks(user, CutSecSize(m))| <= |user|
    ensures forall k :: 0 <= k < |UserBooks(user, CutSecSize(m))| ==>
              FromSeconds(UserBooks(user, CutSecSize(m))[k], m)
    decreases |user|
  {
    if user != [] {
      var secsize, last := CutSecSize(m), user[|user| - 1];
      UserBooksFromSeconds(user[..|user| - 1], m);
      SecSizeBounds(m.size, m.length, 5_000_000, 190_000_000);
      SecPosMonotone(last.pos, 0, secsize);
      if last.length > 0 {
        SecPosMonotone(last.length, 0, secsize);
      }
    }
  }

  lemma CutTableFromSeconds(m: Movie)
    ensures |CutTable(m)| <= |m.user| + 2
    ensures forall k :: 0 <= k < |CutTable(m)| ==> FromSeconds(CutTable(m)[k], m)
  {
    UserBooksFromSeconds(m.user, m);
    SecSizeBounds(m.size, m.length, 5_000_000, 190_000_000);
    SecPosMonotone(m.start, 0, CutSecSize(m));
    SecPosMonotone(m.end, 0, CutSecSize(m));
  }

  /** Entries of the table that share a block start at the same byte. */
  lemma SameBlockSameStart(m: Movie, x: Book, y: Book)
    requires FromSeconds(x, m) && FromSeconds(y, m) && Key(x.pos) <= Key(y.pos)
    ensures x.pos <= y.pos
  {
    var secsize := CutSecSize(m);
    SecSizeBounds(m.size, m.length, 5_000_000, 190_000_000);
    assert SecPos(0, secsize) == 0;
    var s: nat :| x.pos == SecPos(s, secsize);
    var t: nat :| y.pos == SecPos(t, secsize);
    SecPosMonotone(t, s, secsize);
    SecPosMonotone(s, t, secsize);
  }

  method Add(books: array<Book>, n: nat, b: Book)
    requires n < books.Length
    modifies books
    ensures books[..n + 1] == old(books[..n]) + [b]
  {
    books[n] := b;
  }

  method AddUserBooks(books: array<Book>, n: nat, user: seq<Bookmark>, secsize: int) returns (bcount: nat)
    requires n + |user| <= books.Length
    modifies books
    ensures n <= bcount <= n + |user| && books[..bcount] == old(books[..n]) + UserBooks(user, secsize)
  {
    bcount := n;
    for k := 0 to |user|
      invariant n <= bcount <= n + k
      invariant books[..bcount] == old(books[..n]) + UserBooks(user[..k], secsize)
    {
      assert user[..k + 1][..k] == user[..k];
      if user[k].pos != 0 && user[k].length > 0 {
        Add(books, bcount, UserBook(user[k], secsize));
        bcount := bcount + 1;
      }
    }
    assert user[..|user|] == user;
  }

  /** Filling the table of intervals. */
  method BuildCutTable(m: Movie) returns (books: array<Book>, bcount: nat)
    ensures fresh(books) && books.Length == |m.user| + 2
    ensures bcount <= books.Length && books[..bcount] == CutTable(m)
  {
    var secsize := CutSecSize(m);
    books := new Book[|m.user| + 2](_ => Book(0, 0, false));
    bcount := 0;
    if m.start != 0 {
      var len := SecPos(m.start, secsize);
      Add(books, bcount, Book(0, if len > SAFE_GOP then len - SAFE_GOP else len, true));
      bcount := bcount + 1;
    }
    bcount := AddUserBooks(books, bcount, m.user, secsize);
    if m.end != 0 {
      var pos := SecPos(m.end, secsize);
      Add(books, bcount, Book(pos, m.size - pos, true));
      bcount := bcount + 1;
    }
  }
}
