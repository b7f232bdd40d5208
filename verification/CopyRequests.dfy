/** Which bytes of a movie its bookmarks ask to be copied, told from the seconds alone. */
module CopyRequests {
  import opened CutPlan
  import opened Bookmarks
  import opened CopyLoop
  import opened Flags
  import opened Requests

  /** The bookmarks that ask for a copy. */
  function Marks(user: seq<Bookmark>): (flags: seq<bool>)
    ensures |flags| == |user|
  {
    seq(|user|, k requires 0 <= k < |user| => user[k].pos != 0 && user[k].length > 0)
  }

  /** k copies as many bytes as b has in its seconds, in whole packets, from 262260 bytes before the
      packet boundary of its first second on, or from there on if that is not farther in. */
  ghost predicate Copies(k: Book, b: Bookmark, rate: int) {
    k.ok && PacketFloor(k.len, b.length * rate) && exists p :: StartsBefore(k.pos, p, b.pos * rate)
  }

  predicate StartsBefore(start: int, p: int, n: int) {
    PacketFloor(p, n) && start == if p > 262260 then p - 262260 else p
  }

  /** One stretch for each bookmark that asks for one, in order. */
  ghost predicate CopiesOf(books: seq<Book>, user: seq<Bookmark>, rate: int) {
    var marked := Hits(Marks(user), 0);
    |books| == |marked| && forall i :: 0 <= i < |marked| ==>
      0 <= marked[i] < |user| && Copies(books[i], user[marked[i]], rate)
  }

  lemma CopyBookCopies(b: Bookmark, rate: nat)
    requires b.length > 0
    ensures Copies(CopyBook(b, rate), b, rate)
  {
    SecPosIsFloor(b.length, rate);
    SecPosIsFloor(b.pos, rate);
    assert StartsBefore(CopyBook(b, rate).pos, SecPos(b.pos, rate), b.pos * rate);
  }

  lemma {:induction false} CopyTableAsks(user: seq<Bookmark>, rate: nat)
    ensures CopiesOf(CopyTable(user, rate), user, rate)
  {
    if user != [] {
      var n := |user| - 1;
      CopyTableAsks(user[..n], rate);
      assert Marks(user)[..n] == Marks(user[..n]);
      if user[n].pos != 0 && user[n].length > 0 {
        CopyBookCopies(user[n], rate);
      }
    }
  }

  /** Of a bookmark's bytes the stretch holds all but the last 262260, or all if it was not moved. */
  lemma StretchHolds(b: Bookmark, rate: int, k: Book, first: int, bytes: int, x: int)
    requires Copies(k, b, rate) && PacketFloor(first, b.pos * rate) && PacketFloor(bytes, b.length * rate)
    requires first <= x
    ensures k.pos <= x < k.pos + k.len <==> x + (if first > 262260 then 262260 else 0) < first + bytes
  {
    OneFloor(bytes, k.len, b.length * rate);
    var p :| StartsBefore(k.pos, p, b.pos * rate);
    OneFloor(first, p, b.pos * rate);
  }
}
