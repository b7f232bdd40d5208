/** When the cut ends of a recording whose end bookmark lies behind the recorded size and inside the
    parts: its interval ends before it starts, and the loop is taken back. */
module CutLate {
  import opened Recording
  import opened CutPlan
  import opened CutRun
  import opened CutTables

  /** Entry e is the last survivor, and ends before it starts, but not before the recorded size. */
  predicate Late(books: seq<Book>, size: nat, total: nat, e: nat) {
    && e < |books| && books[e].ok && Survivors(books, e + 1) == []
    && books[e].len < 0 && size <= books[e].End() && books[e].pos <= total
  }

  lemma {:induction false} NextFront(books: seq<Book>, e: nat, from: nat)
    requires from <= e < |books| && books[e].ok
    ensures NextIndex(books, from) <= e && NextIndex(books[..e], from) == NextIndex(books, from)
    decreases e - from
  {
    if from < e && !books[from].ok {
      NextFront(books, e, from + 1);
    }
  }

  /** The survivors before entry e are those of the entries before it. */
  lemma {:induction false} SurvivorsFront(books: seq<Book>, e: nat, i: nat)
    requires i <= e < |books| && books[e].ok && Survivors(books, e + 1) == []
    ensures Survivors(books, i) == Survivors(books[..e], i) + [books[e]]
    decreases e - i
  {
    if i < e {
      SurvivorsFront(books, e, i + 1);
    }
  }

  /** The same place, were entry e only the recorded size. */
  function Hat(p: Place, e: nat): Place
    requires p.Place?
  {
    if p.i == e then p.(bskip := 0) else p
  }

  lemma JumpFront(books: seq<Book>, e: nat, size: int, p: Place)
    requires p.Place? && p.i < e < |books| && books[e].ok
    ensures var j, h := Jumped(books, size, p), Jumped(books[..e], books[e].pos, p);
      j.i <= e && Hat(j, e) == Hat(h, e)
  {
    NextFront(books, e, p.i + 1);
  }

  /** Before entry e, on the course of the entries before it. */
  ghost predicate OnTheWay(parts: seq<Bytes>, books: seq<Book>, size: nat, e: nat, floor: int, p: Place) {
    && e < |books| && books[e].ok && books[e].pos >= 0
    && Standing(parts, books, size, p) && p.i <= e
    && Course(parts, books[..e], books[e].pos, floor, Hat(p, e))
  }

  lemma HatStands(parts: seq<Bytes>, books: seq<Book>, size: nat, e: nat, floor: int, p: Place)
    requires OnTheWay(parts, books, size, e, floor, p)
    ensures Standing(parts, books[..e], books[e].pos, Hat(p, e))
  {
  }

  /** Entry e is reached in this turn. */
  ghost predicate Arrived(parts: seq<Bytes>, e: nat, p: Place)
    requires p.Place?
  {
    p.part < |parts| && p.open && p.i == e && var q := Pumped(parts[p.part], p); q.bpos <= q.offset
  }

  /** Any other turn is the turn that the entries before e alone would make. */
  lemma TurnFront(parts: seq<Bytes>, books: seq<Book>, size: nat, e: nat, floor: int, p: Place)
    requires OnTheWay(parts, books, size, e, floor, p) && p.part < |parts| && !Arrived(parts, e, p)
    requires Standing(parts, books[..e], books[e].pos, Hat(p, e))
    ensures var q, h := Turn(parts, books, size, p), Turn(parts, books[..e], books[e].pos, Hat(p, e));
      h.Place? ==> q.Place? && q.i <= e && Hat(q, e) == Hat(h, e)
  {
    if p.open && p.i < e {
      JumpFront(books, e, size, Pumped(parts[p.part], p));
    }
  }

  lemma HatCourse(parts: seq<Bytes>, front: seq<Book>, pos: nat, e: nat, floor: int, q: Place, h: Place)
    requires q.Place? && h.Place? && h.i <= |front| && e == |front| && Hat(q, e) == Hat(h, e)
    requires Course(parts, front, pos, floor, h)
    ensures Course(parts, front, pos, floor, Hat(q, e))
  {
  }

  lemma WayProgress(parts: seq<Bytes>, books: seq<Book>, size: nat, e: nat, floor: int, p: Place)
    requires OnTheWay(parts, books, size, e, floor, p) && p.part < |parts| && !Arrived(parts, e, p)
    ensures var q := Turn(parts, books, size, p);
      q.Place? ==> q.part > p.part || (!p.open && q.open && q.part == p.part) || (q.open && q.part == p.part && q.i > p.i)
  {
  }

  /** It stays on the way. */
  lemma WayTurn(parts: seq<Bytes>, books: seq<Book>, size: nat, e: nat, floor: int, p: Place) returns (above: int)
    requires OnTheWay(parts, books, size, e, floor, p) && p.part < |parts| && !Arrived(parts, e, p)
    ensures var q := Turn(parts, books, size, p); q.Place? && OnTheWay(parts, books, size, e, above, q)
  {
    var front, pos, h := books[..e], books[e].pos, Hat(p, e);
    HatStands(parts, books, size, e, floor, p);
    TurnFront(parts, books, size, e, floor, p);
    above := TurnCourse(parts, front, pos, floor, h);
    HatCourse(parts, front, pos, e, above, Turn(parts, books, size, p), Turn(parts, front, pos, h));
  }

  // Leaving the recording before entry e

  /** Copying from here on comes to the end of the recording before it comes to entry e. */
  ghost predicate Early(parts: seq<Bytes>, books: seq<Book>, e: nat, p: Place)
    requires p.Place? && e < |books|
  {
    Leaves(|Flat(parts)|, Max(books[e].pos, 0), Survivors(books[..e], p.i), -1, p.Flat())
  }

  lemma LeavesPump(total: nat, size: nat, s: seq<Book>, len: int, f: int, g: int)
    requires s != [] && Calm(s[0], total) && (f == g || f <= g <= Min(s[0].pos, total))
    ensures Leaves(total, size, s, len, g) <==> Leaves(total, size, s, len, f)
  {
    assert s[0].pos == total ==> Leaves(total, size, s[1..], len, s[0].End());
  }

  lemma LeavesJump(total: nat, size: nat, s: seq<Book>, len: int, f: int)
    requires s != [] && Calm(s[0], total) && s[0].pos <= f <= total && (f < total || f == s[0].pos)
    ensures Leaves(total, size, s[1..], len, s[0].End()) <==> Leaves(total, size, s, len, f)
  {
  }

  /** Copying before an entry before e. */
  lemma EarlyPump(parts: seq<Bytes>, books: seq<Book>, size: nat, e: nat, floor: int, p: Place)
    requires OnTheWay(parts, books, size, e, floor, p) && p.open && p.i < e
    ensures Early(parts, books, e, Pumped(parts[p.part], p)) <==> Early(parts, books, e, p)
  {
    var front, pos, q := books[..e], books[e].pos, Pumped(parts[p.part], p);
    PumpStays(parts, front, pos, floor, p);
    PumpCourse(parts, front, pos, floor, p);
    RestAt(parts, front, pos, p);
    SurvivorsAt(front, p.i);
    LeavesPump(|Flat(parts)|, pos, Survivors(front, p.i), -1, p.Flat(), q.Flat());
  }

  /** What an entry before e that is reached says of the place. */
  lemma AtEntry(parts: seq<Bytes>, books: seq<Book>, size: nat, e: nat, floor: int, p: Place, q: Place)
    requires OnTheWay(parts, books, size, e, floor, p) && p.open && p.i < e
    requires q == Pumped(parts[p.part], p) && q.bpos <= q.offset
    ensures books[p.i].pos <= q.Flat() <= |Flat(parts)| && (q.Flat() < |Flat(parts)| || q.Flat() == books[p.i].pos)
    ensures Calm(books[p.i], |Flat(parts)|)
  {
    var front, pos := books[..e], books[e].pos;
    PumpStays(parts, front, pos, floor, p);
    PumpCourse(parts, front, pos, floor, p);
    InPart(parts, p.part, q);
    SurvivorsAt(front, p.i);
    assert Calm(Survivors(front, p.i)[0], |Flat(parts)|);
  }

  lemma EarlyJump(parts: seq<Bytes>, books: seq<Book>, size: nat, e: nat, floor: int, p: Place)
    requires OnTheWay(parts, books, size, e, floor, p) && p.open && p.i < e
    requires var q := Pumped(parts[p.part], p); q.bpos <= q.offset
    ensures var q := Pumped(parts[p.part], p);
            Early(parts, books, e, Jumped(books, size, q)) <==> Early(parts, books, e, q)
  {
    var front, pos, q := books[..e], books[e].pos, Pumped(parts[p.part], p);
    AtEntry(parts, books, size, e, floor, p, q);
    NextFront(books, e, p.i + 1);
    SurvivorsAt(front, p.i);
    LeavesJump(|Flat(parts)|, Max(pos, 0), Survivors(front, p.i), -1, q.Flat());
  }

  lemma WayEarly(parts: seq<Bytes>, books: seq<Book>, size: nat, e: nat, floor: int, p: Place)
    requires OnTheWay(parts, books, size, e, floor, p) && p.part < |parts| && !Arrived(parts, e, p)
    requires Turn(parts, books, size, p).Place?
    ensures Early(parts, books, e, Turn(parts, books, size, p)) <==> Early(parts, books, e, p)
  {
    if p.open && p.i < e {
      var q := Pumped(parts[p.part], p);
      EarlyPump(parts, books, size, e, floor, p);
      if q.bpos <= q.offset {
        EarlyJump(parts, books, size, e, floor, p);
      }
    } else if p.open {
      HatStands(parts, books, size, e, floor, p);
      PumpStays(parts, books[..e], books[e].pos, floor, Hat(p, e));
    }
  }

  // Behind entry e

  /** Behind the last interval in an open part, where the next turn will take it back. */
  ghost predicate TakenBack(parts: seq<Bytes>, books: seq<Book>, size: nat, p: Place) {
    && Standing(parts, books, size, p) && p.open && p.i == |books| && p.bskip < 0
    && p.bpos <= |parts[p.part]| && p.bpos + p.bskip < |parts[p.part]|
  }

  /** The turn that reaches entry e goes back behind it. */
  lemma ArrivedTurn(parts: seq<Bytes>, books: seq<Book>, size: nat, e: nat, p: Place)
    requires Late(books, size, |Flat(parts)|, e) && Standing(parts, books, size, p) && Arrived(parts, e, p)
    ensures var q := Turn(parts, books, size, p);
      q.Place? && TakenBack(parts, books, size, q) && q.bskip == books[e].len && q.tdone == p.tdone && q.bpos <= q.offset
  {
    NoneBehind(books, e + 1);
  }

  lemma {:induction false} NoneBehind(books: seq<Book>, from: nat)
    requires from <= |books| && Survivors(books, from) == []
    ensures NextIndex(books, from) == |books|
    decreases |books| - from
  {
    if from < |books| {
      NoneBehind(books, from + 1);
    }
  }

  /** The file can be moved back into the part: the same bytes are read for ever. */
  lemma BackForEver(parts: seq<Bytes>, books: seq<Book>, size: nat, p: Place)
    requires TakenBack(parts, books, size, p) && p.bpos + p.bskip >= 0 && p.bpos <= p.offset
    ensures var q := Turn(parts, books, size, p); q.Place? && Turn(parts, books, size, q) == q
  {
  }

  /** It cannot: reading goes on where the file stands until it ends there. */
  lemma {:induction false} BackFails(parts: seq<Bytes>, books: seq<Book>, size: nat, p: Place)
    requires TakenBack(parts, books, size, p) && p.bpos + p.bskip < 0
    ensures exists n: nat :: After(parts, books, size, p, n) == Over(false)
    decreases |parts[p.part]| - p.fpos, if p.bpos <= p.offset then 1 else 0
  {
    var q := Turn(parts, books, size, p);
    if q.Over? {
      assert After(parts, books, size, p, 1) == q;
    } else {
      BackFails(parts, books, size, q);
      var n: nat :| After(parts, books, size, q, n) == Over(false);
      assert After(parts, books, size, p, n + 1) == Over(false);
    }
  }

  // Intervals that lie apart

  /** The start of the first part that ends behind x. */
  function PartBase(parts: seq<Bytes>, k: nat, x: int): nat
    requires k <= |parts|
    decreases |parts| - k
  {
    if k == |parts| || x < Before(parts, k + 1) then Before(parts, k) else PartBase(parts, k + 1, x)
  }

  lemma {:induction false} PartBaseAt(parts: seq<Bytes>, j: nat, k: nat, x: int)
    requires j <= k < |parts| && Before(parts, k) <= x < Before(parts, k) + |parts[k]|
    ensures PartBase(parts, j, x) == Before(parts, k)
    decreases k - j
  {
    BeforeNext(parts, k);
    if j < k {
      BeforeMonotone(parts, j + 1, k);
      PartBaseAt(parts, j + 1, k, x);
    }
  }

  /** Where copying goes on behind these intervals. */
  function LastEnd(books: seq<Book>): int {
    if books == [] then 0 else books[|books| - 1].End()
  }

  /** The byte read last, or next, when the last of these intervals is reached. */
  function Stop(books: seq<Book>): int
    requires books != []
  {
    var last := books[|books| - 1];
    if LastEnd(books[..|books| - 1]) < last.pos then last.pos - 1 else last.pos
  }

  predicate AllAhead(front: seq<Book>, last: Book) {
    Apart(front + [last]) && forall k :: 0 <= k < |front| ==> 0 <= front[k].len
  }

  /** On the way, no interval has been passed yet that lies ahead. */
  ghost predicate Steady(books: seq<Book>, e: nat, resume: int, p: Place)
    requires p.Place? && e < |books|
  {
    && p.i <= e && 0 <= p.offset <= p.bpos && AllAhead(Survivors(books[..e], p.i), books[e])
    && if p.i == e then resume <= books[e].pos && (if resume < books[e].pos then p.Flat() < books[e].pos else p.Flat() == resume)
       else LastEnd(Survivors(books[..e], p.i)) == resume
  }

  lemma WaySteady(parts: seq<Bytes>, books: seq<Book>, size: nat, e: nat, floor: int, resume: int, p: Place)
    requires OnTheWay(parts, books, size, e, floor, p) && p.part < |parts| && !Arrived(parts, e, p)
    requires Steady(books, e, resume, p) && Turn(parts, books, size, p).Place?
    ensures Steady(books, e, resume, Turn(parts, books, size, p))
  {
    if p.open {
      HatStands(parts, books, size, e, floor, p);
      PumpStays(parts, books[..e], books[e].pos, floor, Hat(p, e));
      var q := Pumped(parts[p.part], p);
      if p.i < e && q.bpos <= q.offset {
        SteadyJump(books, size, e, resume, q);
      }
    }
  }

  lemma AheadNext(s: seq<Book>, last: Book)
    requires s != [] && AllAhead(s, last)
    ensures AllAhead(s[1..], last) && 0 <= s[0].len && s[0].End() <= (if |s| > 1 then s[1].pos else last.pos)
  {
    var t, u := s + [last], s[1..] + [last];
    assert forall k :: 0 <= k < |u| ==> u[k] == t[k + 1];
    assert t[0].End() <= t[1].pos;
  }

  lemma SteadyJump(books: seq<Book>, size: nat, e: nat, resume: int, q: Place)
    requires q.Place? && e < |books| && books[e].ok && q.i < e && Pending(books, size, q)
    requires Steady(books, e, resume, q) && q.offset == q.bpos
    ensures Steady(books, e, resume, Jumped(books, size, q))
  {
    var s, j := Survivors(books[..e], q.i), Jumped(books, size, q);
    JumpFront(books, e, size, q);
    NextFront(books, e, q.i + 1);
    SurvivorsAt(books[..e], q.i);
    AheadNext(s, books[e]);
    if j.i < e {
      SurvivorsAt(books[..e], j.i);
    }
  }

  /** The part in which entry e is reached. */
  lemma ArrivedAt(parts: seq<Bytes>, books: seq<Book>, size: nat, e: nat, floor: int, resume: int, p: Place)
    requires OnTheWay(parts, books, size, e, floor, p) && Arrived(parts, e, p) && Steady(books, e, resume, p)
    ensures p.tdone == PartBase(parts, 0, if resume < books[e].pos then books[e].pos - 1 else books[e].pos)
  {
    HatStands(parts, books, size, e, floor, p);
    PumpStays(parts, books[..e], books[e].pos, floor, Hat(p, e));
    PartBaseAt(parts, 0, p.part, if resume < books[e].pos then books[e].pos - 1 else books[e].pos);
  }

  /** What the loop comes to from here. */
  ghost predicate Outcome(parts: seq<Bytes>, books: seq<Book>, size: nat, e: nat, base: int, p: Place)
    requires p.Place? && e < |books| && Standing(parts, books, size, p)
  {
    if Early(parts, books, e, p) then exists n: nat :: After(parts, books, size, p, n) == Over(true)
    else if size + books[e].len < base then exists n: nat :: After(parts, books, size, p, n) == Over(false)
    else Repeats(parts, books, size, p)
  }

  lemma OutcomeNext(parts: seq<Bytes>, books: seq<Book>, size: nat, e: nat, base: int, p: Place)
    requires e < |books| && Standing(parts, books, size, p)
    requires var q := Turn(parts, books, size, p);
      q.Place? && Outcome(parts, books, size, e, base, q) && (Early(parts, books, e, q) <==> Early(parts, books, e, p))
    ensures Outcome(parts, books, size, e, base, p)
  {
    var q := Turn(parts, books, size, p);
    if n: nat :| After(parts, books, size, q, n) == Over(true) {
      assert After(parts, books, size, p, n + 1) == Over(true);
    }
    if n: nat :| After(parts, books, size, q, n) == Over(false) {
      assert After(parts, books, size, p, n + 1) == Over(false);
    }
    if Repeats(parts, books, size, q) {
      RepeatsNext(parts, books, size, p);
    }
  }

  /** Entry e has been reached: the loop is taken back, for ever or until a read fails. */
  lemma OutcomeArrived(parts: seq<Bytes>, books: seq<Book>, size: nat, e: nat, p: Place)
    requires Late(books, size, |Flat(parts)|, e) && Standing(parts, books, size, p) && Arrived(parts, e, p)
    requires !Early(parts, books, e, p)
    ensures Outcome(parts, books, size, e, p.tdone, p)
  {
    var q := Turn(parts, books, size, p);
    ArrivedTurn(parts, books, size, e, p);
    if size + books[e].len < p.tdone {
      BackFails(parts, books, size, q);
      var n: nat :| After(parts, books, size, q, n) == Over(false);
      assert After(parts, books, size, p, n + 1) == Over(false);
    } else {
      var r := Turn(parts, books, size, q);
      BackForEver(parts, books, size, q);
      assert After(parts, books, size, r, 0) == r;
      RepeatsNext(parts, books, size, q);
      RepeatsNext(parts, books, size, p);
    }
  }

  lemma {:induction false} WayOutcome(parts: seq<Bytes>, books: seq<Book>, size: nat, e: nat, floor: int, resume: int,
                                      base: int, p: Place)
    requires Late(books, size, |Flat(parts)|, e) && OnTheWay(parts, books, size, e, floor, p) && Steady(books, e, resume, p)
    requires base == PartBase(parts, 0, if resume < books[e].pos then books[e].pos - 1 else books[e].pos)
    ensures Outcome(parts, books, size, e, base, p)
    decreases |parts| - p.part, if p.open then 0 else 1, |books| - p.i
  {
    if p.part == |parts| {
      assert parts[..|parts|] == parts;
      assert After(parts, books, size, p, 1) == Over(true);
    } else if Arrived(parts, e, p) {
      ArrivedNotEarly(parts, books, size, e, floor, p);
      ArrivedAt(parts, books, size, e, floor, resume, p);
      OutcomeArrived(parts, books, size, e, p);
    } else {
      var q := Turn(parts, books, size, p);
      var above := WayTurn(parts, books, size, e, floor, p);
      WayProgress(parts, books, size, e, floor, p);
      WayEarly(parts, books, size, e, floor, p);
      WaySteady(parts, books, size, e, floor, resume, p);
      WayOutcome(parts, books, size, e, above, resume, base, q);
      OutcomeNext(parts, books, size, e, base, p);
    }
  }

  lemma ArrivedNotEarly(parts: seq<Bytes>, books: seq<Book>, size: nat, e: nat, floor: int, p: Place)
    requires Late(books, size, |Flat(parts)|, e) && OnTheWay(parts, books, size, e, floor, p) && Arrived(parts, e, p)
    ensures !Early(parts, books, e, p)
  {
    BeforeNext(parts, p.part);
    FlatPrefix(parts, p.part + 1);
    assert Survivors(books[..e], e) == [];
  }

  /** The last survivor's entry. */
  lemma {:induction false} LastEntry(books: seq<Book>, i: nat) returns (e: nat)
    requires Survivors(books, i) != []
    ensures i <= e < |books| && books[e].ok && Survivors(books, e + 1) == []
    ensures books[e] == Survivors(books, i)[|Survivors(books, i)| - 1]
    decreases |books| - i
  {
    if Survivors(books, i + 1) == [] {
      e := i;
    } else {
      e := LastEntry(books, i + 1);
    }
  }

  lemma AfterOver(parts: seq<Bytes>, books: seq<Book>, size: nat, p: Place, m: nat, n: nat)
    requires Standing(parts, books, size, p)
    requires After(parts, books, size, p, m).Over? && After(parts, books, size, p, n).Over?
    ensures After(parts, books, size, p, m) == After(parts, books, size, p, n)
  {
    OverKept(parts, books, size, p, m, m + n);
    OverKept(parts, books, size, p, n, m + n);
  }

  lemma {:induction false} OverKept(parts: seq<Bytes>, books: seq<Book>, size: nat, p: Place, m: nat, n: nat)
    requires p.Over? || Standing(parts, books, size, p)
    requires m <= n && After(parts, books, size, p, m).Over?
    ensures After(parts, books, size, p, n) == After(parts, books, size, p, m)
    decreases n
  {
    if n > 0 {
      var q := Turn(parts, books, size, p);
      if m == 0 {
        OverKept(parts, books, size, q, 0, n - 1);
      } else {
        OverKept(parts, books, size, q, m - 1, n - 1);
      }
    }
  }

  /** The intervals in front of the late one. */
  predicate InFront(s: seq<Book>) {
    s != [] && Apart(s) && forall k :: 0 <= k < |s| - 1 ==> 0 <= s[k].pos && 0 <= s[k].len
  }

  lemma LateFront(books: seq<Book>, e: nat, s: seq<Book>)
    requires e < |books| && books[e].ok && Survivors(books, e + 1) == [] && s == Survivors(books, 0)
    ensures s != [] && Survivors(books[..e], 0) == s[..|s| - 1] && s == s[..|s| - 1] + [books[e]]
  {
    SurvivorsFront(books, e, 0);
  }

  lemma FrontForward(s: seq<Book>, total: nat, pos: nat)
    requires InFront(s)
    ensures var front := s[..|s| - 1];
      AllCalm(front, total) && ReadsForward(total, Closed(front, pos, total), 0, 0)
  {
    ApartForward(s[..|s| - 1], total, pos, 0);
  }

  lemma FrontEnds(s: seq<Book>)
    requires InFront(s)
    ensures var front, last := s[..|s| - 1], s[|s| - 1];
      AllAhead(front, last) && (front != [] ==> LastEnd(front) <= last.pos && 0 <= front[0].pos)
  {
    assert s[..|s| - 1] + [s[|s| - 1]] == s;
  }

  lemma LateStandsReady(parts: seq<Bytes>, books: seq<Book>, size: nat, e: nat, s: seq<Book>)
    requires Late(books, size, |Flat(parts)|, e) && books[0].ok && s == Survivors(books, 0) && InFront(s)
    ensures OnTheWay(parts, books, size, e, 0, Start(books))
  {
    var p, total, pos := Start(books), |Flat(parts)|, books[e].pos;
    LateFront(books, e, s);
    FrontForward(s, total, pos);
    assert Rest(books[..e], pos, total, p.i) == Closed(s[..|s| - 1], pos, total);
  }

  lemma StartSteady(books: seq<Book>, e: nat, front: seq<Book>)
    requires e < |books| && books[0].ok && front == Survivors(books[..e], 0) && (e == 0 ==> front == [])
    requires AllAhead(front, books[e]) && 0 <= books[0].pos && 0 < books[e].pos
    requires front != [] ==> LastEnd(front) <= books[e].pos
    ensures Steady(books, e, LastEnd(front), Start(books))
  {
  }

  lemma LateStartSteady(parts: seq<Bytes>, books: seq<Book>, size: nat, e: nat, s: seq<Book>)
    requires Late(books, size, |Flat(parts)|, e) && books[0].ok && s == Survivors(books, 0) && InFront(s)
    ensures Steady(books, e, LastEnd(s[..|s| - 1]), Start(books))
  {
    LateFront(books, e, s);
    FrontEnds(s);
    if e > 0 {
      SurvivorsAt(books[..e], 0);
    }
    StartSteady(books, e, s[..|s| - 1]);
  }

  lemma LateStartEarly(parts: seq<Bytes>, books: seq<Book>, size: nat, e: nat, s: seq<Book>)
    requires Late(books, size, |Flat(parts)|, e) && books[0].ok && s == Survivors(books, 0) && InFront(s)
    ensures Early(parts, books, e, Start(books)) <==> CanEnd(|Flat(parts)|, size, s, books[e].len)
  {
    var total, front := |Flat(parts)|, s[..|s| - 1];
    LateFront(books, e, s);
    LeavesIff(total, books[e].pos, front, -1, 0);
    OnlyInFront(total, size, s, books[e]);
  }

  lemma OnlyInFront(total: nat, size: nat, s: seq<Book>, b: Book)
    requires s != [] && b == s[|s| - 1] && b.len < 0 && size <= b.End() && b.pos <= total
    ensures CanEnd(total, b.pos, s[..|s| - 1], -1) <==> CanEnd(total, size, s, b.len)
  {
    var front := s[..|s| - 1];
    if k :| 0 <= k < |s| && (total < s[k].pos || total <= s[k].End()) {
      assert k < |s| - 1 && front[k] == s[k];
    }
    if k :| 0 <= k < |front| && (total < front[k].pos || total <= front[k].End()) {
      assert front[k] == s[k];
    }
  }

  /** The exact condition where the last of intervals that lie apart ends before it starts, but not
      before the recorded size: the loop ends well if and only if an interval before it takes the
      rest of the recording; else it ends, with a read that fails, if and only if the last interval
      takes it back to before the part in which that interval is reached. */
  lemma LateEndsExactly(parts: seq<Bytes>, books: seq<Book>, size: nat)
    requires books != [] && books[0].ok
    requires var s := Survivors(books, 0);
      InFront(s) && s[|s| - 1].len < 0 && size <= s[|s| - 1].End() && s[|s| - 1].pos <= |Flat(parts)|
    ensures var s := Survivors(books, 0); var well := CanEnd(|Flat(parts)|, size, s, s[|s| - 1].len);
      && (LoopEnds(parts, books, size) <==> well || size + s[|s| - 1].len < PartBase(parts, 0, Stop(s)))
      && forall n: nat :: After(parts, books, size, Start(books), n).Over? ==>
           After(parts, books, size, Start(books), n) == Over(well)
  {
    var s, p := Survivors(books, 0), Start(books);
    var e := LastEntry(books, 0);
    var base := PartBase(parts, 0, Stop(s));
    LateStandsReady(parts, books, size, e, s);
    LateStartSteady(parts, books, size, e, s);
    LateStartEarly(parts, books, size, e, s);
    WayOutcome(parts, books, size, e, 0, LastEnd(s[..|s| - 1]), base, p);
    EndsIffNoRepeat(parts, books, size, p);
    var well := CanEnd(|Flat(parts)|, size, s, s[|s| - 1].len);
    if well || size + s[|s| - 1].len < base {
      var m: nat :| After(parts, books, size, p, m) == Over(well);
      forall n: nat | After(parts, books, size, p, n).Over? ensures After(parts, books, size, p, n) == Over(well) {
        AfterOver(parts, books, size, p, m, n);
      }
    }
  }
}
