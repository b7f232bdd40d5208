/** Which bytes of a movie its bookmarks ask to be cut, told from the seconds alone. */
module Requests {
  import opened CutPlan
  import opened Bookmarks
  import opened Overlaps

  /** b is the packet boundary at or before byte n. */
  predicate PacketFloor(b: int, n: int) {
    b % 188 == 0 && b <= n < b + 188
  }

  lemma SecPosIsFloor(s: nat, rate: int)
    requires 0 <= rate
    ensures PacketFloor(SecPos(s, rate), s * rate)
  {
  }

  lemma OneFloor(a: int, b: int, n: int)
    requires PacketFloor(a, n) && PacketFloor(b, n)
    ensures a == b
  {
  }

  /** Bytes per second: with a running time in minutes, a sixtieth of the size per minute in q whole
      multiples of 262072 bytes; where these are out of bounds, or without a running time, 511040. */
  ghost predicate RateIs(size: nat, length: int, lo: int, hi: int, rate: int) {
    if length <= 0 then rate == 511040
    else exists q: nat :: RateOf(q, size, length, lo, hi, rate)
  }

  /** a holds q whole b's. */
  predicate Fits(q: nat, b: int, a: nat) {
    q * b <= a < (q + 1) * b
  }

  predicate RateOf(q: nat, size: nat, length: int, lo: int, hi: int, rate: int) {
    && Fits(q, 262072 * length, size)
    && if lo <= 262072 * q <= hi then 60 * rate <= 262072 * q < 60 * (rate + 1) else rate == 511040
  }

  lemma Product(a: nat, b: nat, c: nat)
    requires a <= b
    ensures a * c <= b * c
  {
  }

  lemma Quotient(a: nat, b: int)
    requires b > 0
    ensures a / b >= 0 && a / b * b <= a < (a / b + 1) * b
  {
  }

  lemma MinuteParts(size: nat, length: int, minute: nat, q: nat)
    requires length > 0 && Fits(minute, length, size)
    requires 262072 * q <= minute < 262072 * (q + 1)
    ensures Fits(q, 262072 * length, size)
  {
    Product(262072 * q, minute, length);
    Product(minute + 1, 262072 * (q + 1), length);
  }

  lemma SecSizeIsRate(size: nat, length: int, lo: int, hi: int)
    requires lo > 0
    ensures RateIs(size, length, lo, hi, SecSize(size, length, lo, hi))
  {
    assert MINUTEOFFSET / 60 == 511040;
    if length > 0 {
      Quotient(size, length);
      PositiveRate(size, length, lo, hi, size / length, size / length / 262072);
    } else if length < 0 {
      NegativeMinute(size, -length);
    }
  }

  lemma PositiveRate(size: nat, length: int, lo: int, hi: int, minute: nat, q: nat)
    requires length > 0 && minute == size / length && q == minute / 262072 && Fits(minute, length, size)
    ensures RateOf(q, size, length, lo, hi, SecSize(size, length, lo, hi))
  {
    MinuteParts(size, length, minute, q);
    assert MINUTEOFFSET / 60 == 511040;
  }

  lemma NegativeMinute(size: nat, minutes: int)
    requires minutes > 0
    ensures CDiv(size, -minutes) <= 0
  {
    Quotient(size, minutes);
  }

  /** There is only one such rate. */
  lemma OneRate(size: nat, length: int, lo: int, hi: int, r1: int, r2: int)
    requires RateIs(size, length, lo, hi, r1) && RateIs(size, length, lo, hi, r2)
    ensures r1 == r2
  {
    if length > 0 {
      var p: nat :| RateOf(p, size, length, lo, hi, r1);
      var q: nat :| RateOf(q, size, length, lo, hi, r2);
      SameQuotient(p, q, 262072 * length, size);
    }
  }

  lemma SameQuotient(p: nat, q: nat, b: nat, a: nat)
    requires Fits(p, b, a) && Fits(q, b, a)
    ensures p == q
  {
    if p < q {
      Product(p + 1, q, b);
      assert false;
    } else if q < p {
      Product(q + 1, p, b);
      assert false;
    }
  }

  /** x lies in a stretch of so many bytes from `from` on, whose last SAFE_GOP bytes stay if it is
      longer than that. */
  predicate InStretch(x: int, from: int, bytes: int) {
    from <= x && if bytes > 262260 then x + 262260 < from + bytes else x < from + bytes
  }

  /** Bookmark b asks to jump over byte x. */
  predicate JumpsOver(b: Bookmark, rate: int, x: int) {
    b.pos != 0 && b.length > 0 && InStretch(x, SecPos(b.pos, rate), SecPos(b.length, rate))
  }

  /** The movie's bookmarks ask to cut byte x: it lies before the start, in a jump, or behind the end. */
  predicate Asked(m: Movie, x: int) {
    var rate := CutSecSize(m);
    || (m.start != 0 && InStretch(x, 0, SecPos(m.start, rate)))
    || (exists k :: 0 <= k < |m.user| && JumpsOver(m.user[k], rate, x))
    || (m.end != 0 && SecPos(m.end, rate) <= x < m.size)
  }

  lemma CoveredJoin(a: seq<Book>, b: seq<Book>, x: int)
    ensures OkCovered(a + b, x) <==> OkCovered(a, x) || OkCovered(b, x)
  {
    var s := a + b;
    if k :| 0 <= k < |a| && a[k].ok && a[k].pos <= x < a[k].End() {
      assert s[k] == a[k];
    }
    if k :| 0 <= k < |b| && b[k].ok && b[k].pos <= x < b[k].End() {
      assert s[|a| + k] == b[k];
    }
  }

  lemma CoveredOne(b: Book, x: int)
    ensures OkCovered([b], x) <==> b.ok && b.pos <= x < b.End()
  {
    assert [b][0] == b;
  }

  lemma {:induction false} UserBooksAsked(user: seq<Bookmark>, rate: int, x: int)
    ensures OkCovered(UserBooks(user, rate), x) <==> exists k :: 0 <= k < |user| && JumpsOver(user[k], rate, x)
  {
    if user != [] {
      var front, last := user[..|user| - 1], user[|user| - 1];
      UserBooksAsked(front, rate, x);
      CoveredJoin(UserBooks(front, rate), if Jumps(last) then [UserBook(last, rate)] else [], x);
      CoveredOne(UserBook(last, rate), x);
      if k :| 0 <= k < |front| && JumpsOver(front[k], rate, x) {
        assert user[k] == front[k];
      }
      if k :| 0 <= k < |user| && JumpsOver(user[k], rate, x) {
        assert k < |front| ==> front[k] == user[k];
      }
    }
  }

  /** The table asks for exactly these bytes. */
  lemma CutTableAsks(m: Movie, x: int)
    ensures OkCovered(CutTable(m), x) <==> Asked(m, x)
  {
    var rate := CutSecSize(m);
    var start := if m.start != 0 then [Book(0, Shortened(SecPos(m.start, rate)), true)] else [];
    var end := if m.end != 0 then [Book(SecPos(m.end, rate), m.size - SecPos(m.end, rate), true)] else [];
    CoveredJoin(start + UserBooks(m.user, rate), end, x);
    CoveredJoin(start, UserBooks(m.user, rate), x);
    UserBooksAsked(m.user, rate, x);
    if m.start != 0 {
      CoveredOne(start[0], x);
    }
    if m.end != 0 {
      CoveredOne(end[0], x);
    }
    assert m.start != 0 && OkCovered(start, x) ==> 0 <= x;
  }

  lemma {:induction false} UserBooksThere(user: seq<Bookmark>, rate: int)
    ensures UserBooks(user, rate) == [] <==> forall k :: 0 <= k < |user| ==> user[k].pos == 0 || user[k].length <= 0
  {
    if user != [] {
      var front := user[..|user| - 1];
      UserBooksThere(front, rate);
      assert forall k :: 0 <= k < |front| ==> front[k] == user[k];
    }
  }

  /** Nothing is asked for exactly without a start, an end, and a jump. */
  lemma CutTableEmpty(m: Movie)
    ensures CutTable(m) == [] <==>
            m.start == 0 && m.end == 0 && forall k :: 0 <= k < |m.user| ==> m.user[k].pos == 0 || m.user[k].length <= 0
  {
    UserBooksThere(m.user, CutSecSize(m));
  }
}
