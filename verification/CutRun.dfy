/** The turns of the cut loop as a step function on its cursors, and when the loop ends. */
module CutRun {
  import opened Recording
  import opened Streaming
  import opened CutPlan

  /** The first entry from `from` on that is still to be skipped. */
  function NextIndex(books: seq<Book>, from: nat): (i: nat)
    requires from <= |books|
    ensures from <= i <= |books| && (i < |books| ==> books[i].ok)
    ensures Survivors(books, from) == Survivors(books, i)
    decreases |books| - from
  {
    if from == |books| || books[from].ok then from else NextIndex(books, from + 1)
  }

  /** The length of the last surviving entry from i on; `len` when there is none. */
  function LastLen(books: seq<Book>, i: nat, len: int): int
    decreases |books| - i
  {
    if i >= |books| then len else LastLen(books, i + 1, if books[i].ok then books[i].len else len)
  }

  /** Before part `part`, or with it open and the file at fpos; or the loop is over. i is the
      entry of the next interval; bpos is where that starts and offset where reading goes on, both
      counted from the start of the part; bskip is its length; tdone is what earlier parts hold; gop
      says that what is read next must start with a GOP. */
  datatype Place =
    | Place(part: nat, open: bool, fpos: nat, i: nat, offset: int, bpos: int, bskip: int, tdone: int,
            gop: bool)
    | Over(ok: bool)
  {
    function Flat(): int
      requires Place?
    {
      tdone + offset
    }
  }

  function Start(books: seq<Book>): Place
    requires books != []
  {
    Place(0, false, 0, 0, 0, books[0].pos, books[0].len, 0, false)
  }

  /** Reading goes on in the next part. */
  function Leave(p: Place, length: nat): Place
    requires p.Place?
  {
    p.(part := p.part + 1, open := false, fpos := 0, offset := p.offset - length, bpos := p.bpos - length,
       tdone := p.tdone + length)
  }

  /** Copying up to the next interval or the part's end. */
  function Pumped(part: Bytes, p: Place): Place
    requires p.Place?
  {
    var fend := PumpEnd(part, p.fpos, p.offset, p.bpos);
    p.(fpos := fend, offset := p.offset + fend - p.fpos, gop := p.gop && fend == p.fpos)
  }

  /** Behind the interval that has been reached, before looking whether that is in this part. */
  function Jumped(books: seq<Book>, size: int, p: Place): Place
    requires p.Place? && p.i <= |books|
  {
    var i := if p.i < |books| then NextIndex(books, p.i + 1) else p.i;
    p.(i := i, offset := p.bpos + p.bskip,
       bpos := (if i < |books| then books[i].pos else size) - p.tdone,
       bskip := if i < |books| then books[i].len else p.bskip, gop := true)
  }

  /** Behind the last entry the length of that entry is used again and again. */
  predicate Pending(books: seq<Book>, size: int, p: Place)
    requires p.Place?
  {
    && p.i <= |books|
    && if p.i < |books| then books[p.i].ok && p.bpos == books[p.i].pos - p.tdone && p.bskip == books[p.i].len
       else p.bpos == size - p.tdone
  }

  function Arrive(part: Bytes, p: Place): Place
    requires p.Place? && !p.open && p.offset >= 0
  {
    if p.offset >= |part| then Leave(p, |part|) else p.(open := true, fpos := p.offset)
  }

  function Advance(part: Bytes, books: seq<Book>, size: int, p: Place): Place
    requires p.Place? && p.i <= |books|
  {
    var q := Pumped(part, p);
    if q.offset < q.bpos then
      (if q.offset < |part| then Over(false) else Leave(q, |part|))
    else
      var j := Jumped(books, size, q);
      if j.offset >= |part| then Leave(j, |part|)
      else j.(fpos := if j.offset >= 0 then j.offset else q.fpos)
  }

  /** Where the loop can stand. */
  ghost predicate Standing(parts: seq<Bytes>, books: seq<Book>, size: int, p: Place) {
    && p.Place? && p.part <= |parts| && p.tdone == Before(parts, p.part) && Pending(books, size, p)
    && if p.open then
         && p.part < |parts| && p.offset < |parts[p.part]| && p.offset <= p.fpos <= |parts[p.part]|
         && (p.offset >= 0 ==> p.fpos == p.offset)
       else p.offset >= 0
  }

  ghost function Turn(parts: seq<Bytes>, books: seq<Book>, size: int, p: Place): Place
    requires p.Over? || Standing(parts, books, size, p)
    ensures var q := Turn(parts, books, size, p); q.Over? || Standing(parts, books, size, q)
  {
    if p.Over? then p
    else if p.part == |parts| then Over(true)
    else
      BeforeNext(parts, p.part);
      if p.open then Advance(parts[p.part], books, size, p) else Arrive(parts[p.part], p)
  }

  /** After n turns. */
  ghost function After(parts: seq<Bytes>, books: seq<Book>, size: int, p: Place, n: nat): Place
    requires p.Over? || Standing(parts, books, size, p)
    ensures var q := After(parts, books, size, p, n); q.Over? || Standing(parts, books, size, q)
    decreases n
  {
    if n == 0 then p else After(parts, books, size, Turn(parts, books, size, p), n - 1)
  }

  /** The loop ends. */
  ghost predicate Ends(parts: seq<Bytes>, books: seq<Book>, size: int, p: Place)
    requires p.Over? || Standing(parts, books, size, p)
  {
    exists n: nat :: After(parts, books, size, p, n).Over?
  }

  lemma EndsNext(parts: seq<Bytes>, books: seq<Book>, size: int, p: Place)
    requires Standing(parts, books, size, p)
    ensures Ends(parts, books, size, p) <==> Ends(parts, books, size, Turn(parts, books, size, p))
  {
    var q := Turn(parts, books, size, p);
    if n: nat :| After(parts, books, size, p, n).Over? {
      assert After(parts, books, size, q, n - 1).Over?;
    }
    if n: nat :| After(parts, books, size, q, n).Over? {
      assert After(parts, books, size, p, n + 1).Over?;
    }
  }

  /** The intervals still to be skipped, closed off at the recorded size. */
  function Rest(books: seq<Book>, size: nat, total: nat, i: nat): seq<Book> {
    Closed(Survivors(books, i), size, total)
  }

  /** Copying will only move forward, no position behind `floor` has been touched, and no interval
      that will be reached ends before it starts. */
  ghost predicate Course(parts: seq<Bytes>, books: seq<Book>, size: nat, floor: int, p: Place)
    requires p.Place? && p.i <= |books|
  {
    && Followable(parts, Rest(books, size, |Flat(parts)|, p.i), floor, p.Flat())
    && 0 <= p.Flat() <= floor && p.tdone <= floor
    && AllCalm(Survivors(books, p.i), |Flat(parts)|) && (p.i == |books| ==> p.bskip >= 0)
  }

  lemma SurvivorsAt(books: seq<Book>, i: nat)
    requires i < |books| && books[i].ok
    ensures Survivors(books, i) != [] && Survivors(books, i)[0] == books[i]
    ensures Survivors(books, i)[1..] == Survivors(books, i + 1)
  {
  }

  /** The next interval, as it stands at the head of the plan. */
  lemma RestAt(parts: seq<Bytes>, books: seq<Book>, size: nat, p: Place)
    requires p.Place? && Pending(books, size, p) && AllCalm(Survivors(books, p.i), |Flat(parts)|)
    ensures var rest := Rest(books, size, |Flat(parts)|, p.i);
      && rest != [] && rest[0].pos == p.bpos + p.tdone && Calm(rest[0], |Flat(parts)|)
      && (p.i < |books| ==> rest[0].len == p.bskip && rest[1..] == Rest(books, size, |Flat(parts)|, p.i + 1))
      && (p.i == |books| ==> rest == [Book(size, |Flat(parts)|, true)])
  {
    var total := |Flat(parts)|;
    if p.i < |books| {
      SurvivorsAt(books, p.i);
      ClosedTail(Survivors(books, p.i), size, total);
    }
  }

  /** On course a turn copies up to the next interval or the part's end, and nothing else. */
  lemma PumpStays(parts: seq<Bytes>, books: seq<Book>, size: nat, floor: int, p: Place)
    requires Standing(parts, books, size, p) && p.open && Course(parts, books, size, floor, p)
    ensures var q := Pumped(parts[p.part], p);
      && (p.bpos <= p.offset ==> q == p)
      && (p.offset < p.bpos ==> 0 <= p.offset < q.offset == q.fpos == Min(p.bpos, |parts[p.part]|))
  {
    RestAt(parts, books, size, p);
    BeforeNext(parts, p.part);
    FlatPrefix(parts, p.part + 1);
  }

  lemma PumpCourse(parts: seq<Bytes>, books: seq<Book>, size: nat, floor: int, p: Place)
    requires Standing(parts, books, size, p) && p.open && Course(parts, books, size, floor, p)
    ensures var q := Pumped(parts[p.part], p);
      && Course(parts, books, size, Max(floor, q.Flat()), q) && q.Flat() <= |Flat(parts)|
      && (p.offset < p.bpos ==> q.Flat() <= Until(|Flat(parts)|, Rest(books, size, |Flat(parts)|, p.i)))
  {
    var q := Pumped(parts[p.part], p);
    PumpStays(parts, books, size, floor, p);
    RestAt(parts, books, size, p);
    BeforeNext(parts, p.part);
    FlatPrefix(parts, p.part + 1);
    FollowableRead(parts, Rest(books, size, |Flat(parts)|, p.i), floor, p.Flat(), q.Flat());
  }

  /** p has reached its interval. */
  ghost predicate AtInterval(parts: seq<Bytes>, p: Place)
    requires p.Place?
  {
    && p.bpos <= p.offset && p.Flat() <= |Flat(parts)| && (p.Flat() < |Flat(parts)| || p.offset == p.bpos)
  }

  lemma {:induction false} CalmBehind(books: seq<Book>, i: nat, j: nat, total: nat)
    requires i <= j <= |books| && AllCalm(Survivors(books, i), total)
    ensures AllCalm(Survivors(books, j), total)
    decreases j - i
  {
    if i < j {
      if books[i].ok {
        SurvivorsAt(books, i);
      }
      var s, r := Survivors(books, i), Survivors(books, i + 1);
      assert forall k :: 0 <= k < |r| ==> r[k] == s[k + |s| - |r|];
      CalmBehind(books, i + 1, j, total);
    }
  }

  /** From behind an interval that was reached, the rest of the plan only moves forward. */
  lemma FollowableJump(parts: seq<Bytes>, books: seq<Book>, floor: int, f: int)
    requires Followable(parts, books, floor, f) && books != [] && Calm(books[0], |Flat(parts)|)
    requires books[0].pos <= f <= |Flat(parts)| && (f < |Flat(parts)| || f == books[0].pos)
    ensures Followable(parts, books[1..], Max(floor, books[0].End()), books[0].End())
  {
  }

  /** Jumping behind the interval that has been reached keeps the course. */
  lemma JumpCourse(parts: seq<Bytes>, books: seq<Book>, size: nat, floor: int, p: Place)
    requires p.Place? && Pending(books, size, p) && Course(parts, books, size, floor, p) && AtInterval(parts, p)
    ensures var j := Jumped(books, size, p);
      Course(parts, books, size, Max(floor, j.Flat()), j)
  {
    if p.i < |books| {
      JumpAhead(parts, books, size, floor, p);
    } else {
      ClosedOff(|Flat(parts)|, size, Max(floor, size + p.bskip), size + p.bskip);
    }
  }

  lemma JumpAhead(parts: seq<Bytes>, books: seq<Book>, size: nat, floor: int, p: Place)
    requires p.Place? && Pending(books, size, p) && Course(parts, books, size, floor, p) && AtInterval(parts, p)
    requires p.i < |books|
    ensures var j := Jumped(books, size, p);
      Course(parts, books, size, Max(floor, j.Flat()), j)
  {
    var total, s := |Flat(parts)|, Survivors(books, p.i);
    SurvivorsAt(books, p.i);
    ClosedTail(s, size, total);
    assert Calm(s[0], total);
    CalmBehind(books, p.i, Jumped(books, size, p).i, total);
    FollowableJump(parts, Closed(s, size, total), floor, p.Flat());
  }

  /** Nothing is read behind the recorded size. */
  lemma ClosedOff(total: nat, size: nat, floor: int, f: int)
    requires size <= f
    ensures ReadsForward(total, Closed([], size, total), floor, f)
  {
    ClosedTail([], size, total);
  }

  lemma LeaveCourse(parts: seq<Bytes>, books: seq<Book>, size: nat, floor: int, p: Place, length: nat)
    requires p.Place? && p.i <= |books| && Course(parts, books, size, floor, p) && p.offset >= length
    ensures Course(parts, books, size, floor, Leave(p, length))
  {
  }

  /** Copying and jumping from p leads to j before it is known whether the part is left. */
  lemma AdvanceCourse(parts: seq<Bytes>, books: seq<Book>, size: nat, floor: int, p: Place) returns (above: int)
    requires Standing(parts, books, size, p) && p.open && Course(parts, books, size, floor, p)
    ensures var q := Advance(parts[p.part], books, size, p);
      q.Place? && Course(parts, books, size, above, q)
  {
    var part := parts[p.part];
    var q := Pumped(part, p);
    PumpStays(parts, books, size, floor, p);
    PumpCourse(parts, books, size, floor, p);
    above := Max(floor, q.Flat());
    if q.offset < q.bpos {
      LeaveCourse(parts, books, size, above, q, |part|);
    } else {
      InPart(parts, p.part, q);
      var j := Jumped(books, size, q);
      JumpCourse(parts, books, size, above, q);
      above := Max(above, j.Flat());
      if j.offset >= |part| {
        LeaveCourse(parts, books, size, above, j, |part|);
      }
    }
  }

  lemma InPart(parts: seq<Bytes>, k: nat, q: Place)
    requires q.Place? && k < |parts| && q.tdone == Before(parts, k) && q.bpos <= q.offset <= |parts[k]|
    requires q.offset < |parts[k]| || q.offset == q.bpos
    ensures AtInterval(parts, q)
  {
    BeforeNext(parts, k);
    FlatPrefix(parts, k + 1);
  }

  lemma TurnCourse(parts: seq<Bytes>, books: seq<Book>, size: nat, floor: int, p: Place) returns (above: int)
    requires Standing(parts, books, size, p) && Course(parts, books, size, floor, p) && p.part < |parts|
    ensures var q := Turn(parts, books, size, p); q.Place? && Course(parts, books, size, above, q)
  {
    above := floor;
    if p.open {
      above := AdvanceCourse(parts, books, size, floor, p);
    } else if p.offset >= |parts[p.part]| {
      LeaveCourse(parts, books, size, floor, p, |parts[p.part]|);
    }
  }

  // Whether the recording is ever left

  /** Copying from f on comes to the end of the recording: before an interval or behind one. `len`
      is the length used behind the last one. */
  predicate Leaves(total: nat, size: nat, books: seq<Book>, len: int, f: int)
    decreases |books|
  {
    || total <= f
    || (if books == [] then total < size || total <= size + len
        else total < books[0].pos || Leaves(total, size, books[1..], len, books[0].End()))
  }

  ghost predicate LeavesFrom(parts: seq<Bytes>, books: seq<Book>, size: nat, p: Place)
    requires p.Place?
  {
    Leaves(|Flat(parts)|, size, Survivors(books, p.i), LastLen(books, p.i, p.bskip), p.Flat())
  }

  lemma {:induction false} LastLenNext(books: seq<Book>, from: nat, len: int)
    requires from <= |books|
    ensures var i := NextIndex(books, from);
      LastLen(books, from, len) == LastLen(books, i, if i < |books| then books[i].len else len)
    decreases |books| - from
  {
    if from < |books| && !books[from].ok {
      LastLenNext(books, from + 1, len);
    }
  }

  lemma LastLenJumped(books: seq<Book>, size: nat, p: Place)
    requires p.Place? && Pending(books, size, p)
    ensures var j := Jumped(books, size, p); LastLen(books, j.i, j.bskip) == LastLen(books, p.i, p.bskip)
  {
    if p.i < |books| {
      LastLenNext(books, p.i + 1, books[p.i].len);
    }
  }

  lemma PumpLeaves(parts: seq<Bytes>, books: seq<Book>, size: nat, floor: int, p: Place)
    requires Standing(parts, books, size, p) && p.open && Course(parts, books, size, floor, p)
    ensures LeavesFrom(parts, books, size, Pumped(parts[p.part], p)) <==> LeavesFrom(parts, books, size, p)
  {
    PumpStays(parts, books, size, floor, p);
    PumpCourse(parts, books, size, floor, p);
    RestAt(parts, books, size, p);
    BeforeNext(parts, p.part);
    FlatPrefix(parts, p.part + 1);
    if p.i < |books| {
      SurvivorsAt(books, p.i);
      var s, total, len := Survivors(books, p.i), |Flat(parts)|, LastLen(books, p.i, p.bskip);
      assert s[0].pos == total ==> total <= s[0].End() && Leaves(total, size, s[1..], len, s[0].End());
    }
  }

  lemma JumpLeaves(parts: seq<Bytes>, books: seq<Book>, size: nat, floor: int, p: Place)
    requires p.Place? && Pending(books, size, p) && Course(parts, books, size, floor, p) && AtInterval(parts, p)
    ensures LeavesFrom(parts, books, size, Jumped(books, size, p)) <==> LeavesFrom(parts, books, size, p)
  {
    LastLenJumped(books, size, p);
    if p.i < |books| {
      SurvivorsAt(books, p.i);
      assert Calm(books[p.i], |Flat(parts)|);
    }
  }

  /** Turns on course never change whether the recording will be left. */
  lemma TurnLeaves(parts: seq<Bytes>, books: seq<Book>, size: nat, floor: int, p: Place)
    requires Standing(parts, books, size, p) && Course(parts, books, size, floor, p) && p.part < |parts|
    ensures var q := Turn(parts, books, size, p);
      q.Place? && (LeavesFrom(parts, books, size, q) <==> LeavesFrom(parts, books, size, p))
  {
    var _ := TurnCourse(parts, books, size, floor, p);
    if p.open {
      var q := Pumped(parts[p.part], p);
      PumpStays(parts, books, size, floor, p);
      PumpCourse(parts, books, size, floor, p);
      PumpLeaves(parts, books, size, floor, p);
      if q.bpos <= q.offset {
        InPart(parts, p.part, q);
        JumpLeaves(parts, books, size, Max(floor, q.Flat()), q);
      }
    }
  }

  /** Only one who leaves the recording gets past its last part. */
  lemma {:induction false} NeverOver(parts: seq<Bytes>, books: seq<Book>, size: nat, floor: int, p: Place, n: nat)
    requires Standing(parts, books, size, p) && Course(parts, books, size, floor, p)
    requires !LeavesFrom(parts, books, size, p)
    ensures After(parts, books, size, p, n).Place?
    decreases n
  {
    if n > 0 {
      assert parts[..|parts|] == parts;
      var above := TurnCourse(parts, books, size, floor, p);
      TurnLeaves(parts, books, size, floor, p);
      NeverOver(parts, books, size, above, Turn(parts, books, size, p), n - 1);
    }
  }

  // Termination

  /** Some interval still to come starts behind the recording. */
  predicate OneBehind(books: seq<Book>, i: nat, total: nat)
    decreases |books| - i
  {
    i < |books| && ((books[i].ok && total < books[i].pos) || OneBehind(books, i + 1, total))
  }

  /** Behind the last interval the loop leaves whatever part it is in, or it never gets there. */
  ghost predicate SureToEnd(parts: seq<Bytes>, books: seq<Book>, size: nat, p: Place)
    requires p.Place?
  {
    |Flat(parts)| <= size + LastLen(books, p.i, p.bskip) || OneBehind(books, p.i, |Flat(parts)|)
  }

  lemma {:induction false} OneBehindNext(books: seq<Book>, from: nat, total: nat)
    requires from <= |books|
    ensures OneBehind(books, NextIndex(books, from), total) <==> OneBehind(books, from, total)
    decreases |books| - from
  {
    if from < |books| && !books[from].ok {
      OneBehindNext(books, from + 1, total);
    }
  }

  lemma TurnSure(parts: seq<Bytes>, books: seq<Book>, size: nat, p: Place)
    requires Standing(parts, books, size, p) && SureToEnd(parts, books, size, p)
    ensures var q := Turn(parts, books, size, p); q.Place? ==> SureToEnd(parts, books, size, q)
  {
    if p.part < |parts| && p.open {
      var q := Pumped(parts[p.part], p);
      LastLenJumped(books, size, q);
      BeforeNext(parts, p.part);
      FlatPrefix(parts, p.part + 1);
      if p.i < |books| {
        OneBehindNext(books, p.i + 1, |Flat(parts)|);
      }
    }
  }

  /** What makes the loop end: it is sure to, or it is on a course that leaves the recording. */
  ghost predicate Ending(parts: seq<Bytes>, books: seq<Book>, size: nat, floor: int, p: Place)
    requires p.Place? && p.i <= |books|
  {
    SureToEnd(parts, books, size, p) || (Course(parts, books, size, floor, p) && LeavesFrom(parts, books, size, p))
  }

  /** A turn leaves the part or comes to a later entry. */
  lemma TurnProgress(parts: seq<Bytes>, books: seq<Book>, size: nat, floor: int, p: Place)
    requires Standing(parts, books, size, p) && Ending(parts, books, size, floor, p) && p.part < |parts|
    ensures var q := Turn(parts, books, size, p);
      q.Place? ==> q.part > p.part || (!p.open && q.open) || (q.open && q.i > p.i && q.part == p.part)
  {
    if p.open {
      BeforeNext(parts, p.part);
      FlatPrefix(parts, p.part + 1);
    }
  }

  lemma {:induction false} EndingEnds(parts: seq<Bytes>, books: seq<Book>, size: nat, floor: int, p: Place)
    requires Standing(parts, books, size, p) && Ending(parts, books, size, floor, p)
    ensures Ends(parts, books, size, p)
    decreases |parts| - p.part, if p.open then 0 else 1, |books| - p.i
  {
    var q := Turn(parts, books, size, p);
    EndsNext(parts, books, size, p);
    if q.Over? {
      assert After(parts, books, size, q, 0).Over?;
    } else {
      var above := floor;
      TurnProgress(parts, books, size, floor, p);
      if SureToEnd(parts, books, size, p) {
        TurnSure(parts, books, size, p);
      } else {
        above := TurnCourse(parts, books, size, floor, p);
        TurnLeaves(parts, books, size, floor, p);
      }
      EndingEnds(parts, books, size, above, q);
    }
  }

  /** Where copying comes to the end of the recording, told without following it. */
  predicate CanEnd(total: nat, size: nat, books: seq<Book>, len: int) {
    || total < size || total <= size + len
    || exists k :: 0 <= k < |books| && (total < books[k].pos || total <= books[k].End())
  }

  lemma {:induction false} LeavesIff(total: nat, size: nat, books: seq<Book>, len: int, f: int)
    requires f < total
    ensures Leaves(total, size, books, len, f) <==> CanEnd(total, size, books, len)
    decreases |books|
  {
    if books != [] {
      var rest, e := books[1..], books[0].End();
      if e < total {
        LeavesIff(total, size, rest, len, e);
        if k :| 0 <= k < |rest| && (total < rest[k].pos || total <= rest[k].End()) {
          assert books[k + 1] == rest[k];
        }
        if k :| 0 < k < |books| && (total < books[k].pos || total <= books[k].End()) {
          assert rest[k - 1] == books[k];
        }
      }
    }
  }

  lemma {:induction false} LastLenIs(books: seq<Book>, i: nat, len: int)
    requires i <= |books|
    ensures var s := Survivors(books, i); LastLen(books, i, len) == if s == [] then len else s[|s| - 1].len
    decreases |books| - i
  {
    if i < |books| {
      LastLenIs(books, i + 1, if books[i].ok then books[i].len else len);
    }
  }

  ghost predicate LoopEnds(parts: seq<Bytes>, books: seq<Book>, size: int) {
    books != [] && books[0].ok && Ends(parts, books, size, Start(books))
  }

  /** The exact condition: under a table whose reached intervals do not end before they start, and
      that only moves forward or has a single part to move in, the loop ends if and only if the
      recorded size and the last interval's length together reach the parts' total, or some
      interval starts behind the recording or reaches its end. */
  lemma EndsExactly(parts: seq<Bytes>, books: seq<Book>, size: nat)
    requires books != [] && books[0].ok && AllCalm(Survivors(books, 0), |Flat(parts)|)
    requires Followable(parts, Rest(books, size, |Flat(parts)|, 0), 0, 0)
    ensures var s := Survivors(books, 0);
      s != [] && (LoopEnds(parts, books, size) <==> CanEnd(|Flat(parts)|, size, s, s[|s| - 1].len))
  {
    var p, total, s := Start(books), |Flat(parts)|, Survivors(books, 0);
    SurvivorsAt(books, 0);
    LastLenIs(books, 0, p.bskip);
    if total == 0 {
      assert total <= s[0].End();
    } else {
      LeavesIff(total, size, s, s[|s| - 1].len, 0);
    }
    if LeavesFrom(parts, books, size, p) {
      EndingEnds(parts, books, size, 0, p);
    } else if LoopEnds(parts, books, size) {
      var n: nat :| After(parts, books, size, p, n).Over?;
      NeverOver(parts, books, size, 0, p, n);
    }
  }

  /** Whatever the table, it is enough that the recorded size and the last interval's length reach
      the total, or that an interval starts behind the recording. */
  lemma EnoughToEnd(parts: seq<Bytes>, books: seq<Book>, size: nat)
    requires books != [] && books[0].ok
    requires var s := Survivors(books, 0);
      s != [] && (|Flat(parts)| <= size + s[|s| - 1].len || exists k :: 0 <= k < |s| && |Flat(parts)| < s[k].pos)
    ensures LoopEnds(parts, books, size)
  {
    var s := Survivors(books, 0);
    LastLenIs(books, 0, books[0].len);
    if k :| 0 <= k < |s| && |Flat(parts)| < s[k].pos {
      BehindIs(books, 0, |Flat(parts)|, k);
    }
    EndingEnds(parts, books, size, 0, Start(books));
  }

  lemma {:induction false} BehindIs(books: seq<Book>, i: nat, total: nat, k: nat)
    requires k < |Survivors(books, i)| && total < Survivors(books, i)[k].pos
    ensures OneBehind(books, i, total)
    decreases |books| - i
  {
    if !(books[i].ok && k == 0) {
      BehindIs(books, i + 1, total, if books[i].ok then k - 1 else k);
    }
  }

  /** So a recorded size of at least the total always makes the loop end. */
  lemma FullSizeEnds(parts: seq<Bytes>, books: seq<Book>, size: nat)
    requires books != [] && books[0].ok && AllSane(books, size) && |Flat(parts)| <= size
    ensures LoopEnds(parts, books, size)
  {
    SurvivorsSane(books, 0, size);
    EnoughToEnd(parts, books, size);
  }

  lemma {:induction false} SurvivorsSane(books: seq<Book>, i: nat, size: int)
    requires AllSane(books, size)
    ensures AllSane(Survivors(books, i), size) && (i < |books| && books[i].ok ==> Survivors(books, i) != [])
    decreases |books| - i
  {
    if i < |books| {
      SurvivorsSane(books, i + 1, size);
    }
  }

  lemma SaneIsCalm(books: seq<Book>, size: int, total: nat)
    requires AllSane(books, size) && total <= size
    ensures AllCalm(books, total)
  {
  }

  /** On course the loop only ends by leaving the last part. */
  lemma {:induction false} CourseEndsWell(parts: seq<Bytes>, books: seq<Book>, size: nat, floor: int, p: Place, n: nat)
    requires Standing(parts, books, size, p) && Course(parts, books, size, floor, p)
    requires After(parts, books, size, p, n).Over?
    ensures After(parts, books, size, p, n) == Over(true)
    decreases n
  {
    var q := Turn(parts, books, size, p);
    if p.part < |parts| {
      var above := TurnCourse(parts, books, size, floor, p);
      CourseEndsWell(parts, books, size, above, q, n - 1);
    } else {
      OverStays(parts, books, size, q, n - 1);
    }
  }

  lemma {:induction false} OverStays(parts: seq<Bytes>, books: seq<Book>, size: nat, p: Place, n: nat)
    requires p.Over?
    ensures After(parts, books, size, p, n) == p
    decreases n
  {
    if n > 0 {
      OverStays(parts, books, size, p, n - 1);
    }
  }

  // Every table

  /** The loop comes to a place that the next turn does not change. */
  ghost predicate Repeats(parts: seq<Bytes>, books: seq<Book>, size: int, p: Place)
    requires p.Over? || Standing(parts, books, size, p)
  {
    exists n: nat :: var q := After(parts, books, size, p, n); q.Place? && Turn(parts, books, size, q) == q
  }

  lemma RepeatsNext(parts: seq<Bytes>, books: seq<Book>, size: int, p: Place)
    requires Standing(parts, books, size, p) && Repeats(parts, books, size, Turn(parts, books, size, p))
    ensures Repeats(parts, books, size, p)
  {
    var q := Turn(parts, books, size, p);
    var n: nat :| var r := After(parts, books, size, q, n); r.Place? && Turn(parts, books, size, r) == r;
    assert After(parts, books, size, p, n + 1) == After(parts, books, size, q, n);
  }

  /** Behind the last entry in an open part: a turn leaves the part, fails, comes to a place where
      it stays, or, when the file cannot be moved back, reads on in it. */
  lemma TurnBehindLast(parts: seq<Bytes>, books: seq<Book>, size: int, p: Place)
    requires Standing(parts, books, size, p) && p.open && p.i == |books|
    ensures var q := Turn(parts, books, size, p);
      q.Place? && q.part == p.part ==>
        && q.open && q.i == p.i && p.fpos <= |parts[p.part]|
        && (Turn(parts, books, size, q) == q
            || (q.offset < q.bpos && q.fpos > p.fpos)
            || (q.offset < q.bpos && q.fpos == p.fpos && p.bpos <= p.offset))
  {
  }

  /** Where the loop repeats it is behind the last entry, and each turn copies as many bytes as that
      entry's interval goes back: none if it does not. */
  lemma RepeatedTurn(parts: seq<Bytes>, books: seq<Book>, size: int, q: Place)
    requires Standing(parts, books, size, q) && Turn(parts, books, size, q) == q
    ensures q.open && q.i == |books| && Pumped(parts[q.part], q).fpos - q.fpos == Max(0, -q.bskip)
  {
  }

  lemma {:induction false} EndsOrRepeats(parts: seq<Bytes>, books: seq<Book>, size: int, p: Place)
    requires Standing(parts, books, size, p)
    ensures Ends(parts, books, size, p) || Repeats(parts, books, size, p)
    decreases |parts| - p.part, if p.open then 0 else 1, |books| - p.i,
              if p.open then |parts[p.part]| - p.fpos else 0, if p.bpos <= p.offset then 1 else 0
  {
    var q := Turn(parts, books, size, p);
    EndsNext(parts, books, size, p);
    if q.Over? {
      assert After(parts, books, size, q, 0).Over?;
    } else if Turn(parts, books, size, q) == q {
      assert After(parts, books, size, q, 0) == q;
      RepeatsNext(parts, books, size, p);
    } else {
      if p.open && p.i == |books| {
        TurnBehindLast(parts, books, size, p);
      }
      EndsOrRepeats(parts, books, size, q);
      if Repeats(parts, books, size, q) {
        RepeatsNext(parts, books, size, p);
      }
    }
  }

  lemma {:induction false} StaysOver(parts: seq<Bytes>, books: seq<Book>, size: int, p: Place, m: nat, n: nat)
    requires p.Over? || Standing(parts, books, size, p)
    requires m <= n && After(parts, books, size, p, m).Over?
    ensures After(parts, books, size, p, n).Over?
    decreases n
  {
    if n > 0 {
      var q := Turn(parts, books, size, p);
      if m == 0 {
        assert After(parts, books, size, q, 0).Over?;
        StaysOver(parts, books, size, q, 0, n - 1);
      } else {
        StaysOver(parts, books, size, q, m - 1, n - 1);
      }
    }
  }

  lemma {:induction false} StaysPut(parts: seq<Bytes>, books: seq<Book>, size: int, p: Place, n: nat, m: nat)
    requires Standing(parts, books, size, p) && n <= m
    requires var q := After(parts, books, size, p, n); q.Place? && Turn(parts, books, size, q) == q
    ensures After(parts, books, size, p, m) == After(parts, books, size, p, n)
    decreases m
  {
    if n > 0 {
      var r := Turn(parts, books, size, p);
      if r.Over? {
        StaysOver(parts, books, size, r, 0, n - 1);
      }
      StaysPut(parts, books, size, r, n - 1, m - 1);
    } else if m > 0 {
      StaysPut(parts, books, size, p, 0, m - 1);
    }
  }

  /** The exact condition under every table: the loop ends if and only if it never comes back to the
      place it stood at the turn before. */
  lemma EndsIffNoRepeat(parts: seq<Bytes>, books: seq<Book>, size: int, p: Place)
    requires Standing(parts, books, size, p)
    ensures Ends(parts, books, size, p) <==> !Repeats(parts, books, size, p)
  {
    EndsOrRepeats(parts, books, size, p);
    if Ends(parts, books, size, p) && Repeats(parts, books, size, p) {
      var m: nat :| After(parts, books, size, p, m).Over?;
      var n: nat :| var q := After(parts, books, size, p, n); q.Place? && Turn(parts, books, size, q) == q;
      StaysPut(parts, books, size, p, n, m + n);
      StaysOver(parts, books, size, p, m, m + n);
    }
  }
}
