/** The copy loop of a cut: part by part, with cursors relative to the current part. */
module CutLoop {
  import opened Recording
  import opened Streaming
  import opened CutPlan
  import opened CutRun
  import opened CutEdges

  /** The loop's variables. i is the entry of the next interval; bpos is where that interval
      starts and offset where reading goes on, both counted from the start of the current part;
      bskip is the interval's length; tdone is what all earlier parts hold. out and spos are
      what has been written behind the stream's tables, newsize the size still expected. */
  datatype Cursor = Cursor(i: nat, offset: int, bpos: int, bskip: int, tdone: int, needGop: bool,
                           out: Bytes, spos: int, newsize: int)
  {
    function Flat(): int {
      tdone + offset
    }
  }

  /** Where the loop stands with these cursors. */
  function Spot(c: Cursor, part: nat, open: bool, fpos: nat): Place {
    Place(part, open, fpos, c.i, c.offset, c.bpos, c.bskip, c.tdone, c.needGop)
  }

  /** What is written, followed by what the plan has yet to write. */
  ghost function Whole(parts: seq<Bytes>, books: seq<Book>, size: nat, c: Cursor): Bytes {
    c.out + CutFrom(parts, Rest(books, size, |Flat(parts)|, c.i), c.Flat(), c.needGop)
  }

  /** By how much newsize exceeds the bytes written and the bytes still ahead. */
  function Slack(parts: seq<Bytes>, books: seq<Book>, size: nat, c: Cursor): int {
    c.newsize - |c.out| - Ahead(|Flat(parts)|, Rest(books, size, |Flat(parts)|, c.i), c.Flat())
  }

  /** The course is kept, and plan and budget are what they were at the start. */
  ghost predicate Good(parts: seq<Bytes>, books: seq<Book>, size: nat, plan: Bytes, slack: int, floor: int, c: Cursor) {
    && c.i <= |books| && Course(parts, books, size, floor, Spot(c, 0, false, 0))
    && Whole(parts, books, size, c) == plan
    && Slack(parts, books, size, c) == slack
  }

  /** The next entry from i on that is still to be skipped. */
  method NextOk(books: seq<Book>, from: nat) returns (i: nat)
    requires from <= |books|
    ensures i == NextIndex(books, from)
  {
    i := from;
    while i < |books|
      invariant from <= i <= |books|
      invariant NextIndex(books, from) == NextIndex(books, i)
    {
      if books[i].ok {
        break;
      }
      i := i + 1;
    }
  }

  /** Entry i has been reached: look up the next entry and where reading goes on. `leaves`
      says that this is in a later part. */
  method Jump(books: seq<Book>, size: nat, length: nat, c0: Cursor, ghost k: nat, ghost fpos: nat)
    returns (c: Cursor, leaves: bool)
    requires c0.i <= |books|
    ensures var j := Jumped(books, size, Spot(c0, k, true, fpos));
      && leaves == (j.offset >= length)
      && (leaves ==> Spot(c, k + 1, false, 0) == Leave(j, length))
      && (!leaves ==> Spot(c, k, true, fpos) == j)
    ensures c.out == c0.out && c.spos == c0.spos && c.newsize == c0.newsize && c.needGop
  {
    var offset := c0.bpos + c0.bskip;
    var i := c0.i;
    if i < |books| {
      i := NextOk(books, i + 1);
    }
    var bpos := if i < |books| then books[i].pos else size;
    var bskip := if i < |books| then books[i].len else c0.bskip;
    bpos := bpos - c0.tdone;
    leaves := offset >= length;
    c := c0.(i := i, offset := offset, bpos := bpos, bskip := bskip, needGop := true);
    if leaves {
      c := c.(offset := offset - length, bpos := bpos - length, tdone := c0.tdone + length);
    }
  }

  /** Until, seen from the current part. */
  lemma UntilHere(parts: seq<Bytes>, books: seq<Book>, size: nat, k: nat, c: Cursor)
    requires k < |parts| && c.tdone == Before(parts, k) && Pending(books, size, Spot(c, 0, false, 0))
    requires AllCalm(Survivors(books, c.i), |Flat(parts)|)
    ensures var rest := Rest(books, size, |Flat(parts)|, c.i);
            && Min(c.bpos, |parts[k]|) == Min(Until(|Flat(parts)|, rest) - c.tdone, |parts[k]|)
            && rest != [] && Calm(rest[0], |Flat(parts)|)
  {
    BeforeNext(parts, k);
    FlatPrefix(parts, k + 1);
    RestAt(parts, books, size, Spot(c, 0, false, 0));
  }

  /** Bytes [c.offset, e) of part k have been copied. */
  ghost predicate Advanced(part: Bytes, c: Cursor, e: nat, c': Cursor) {
    && 0 <= c.offset < c.bpos && c.offset < e == Min(c.bpos, |part|)
    && c'.i == c.i && c'.Flat() == c.tdone + e && c'.tdone == c.tdone && !c'.needGop
    && c'.out == c.out + Piece(part, c.offset, e, c.needGop)
    && c'.newsize == c.newsize - Dropped(part, c.offset, e, c.needGop)
  }

  lemma WholeStep(parts: seq<Bytes>, rest: seq<Book>, k: nat, a: nat, e: nat, f: int, g: int, gop: bool, out: Bytes)
    requires k < |parts| && a < e <= |parts[k]|
    requires f == Before(parts, k) + a && g == Before(parts, k) + e
    requires e == Min(Until(|Flat(parts)|, rest) - Before(parts, k), |parts[k]|)
    requires rest != [] ==> Calm(rest[0], |Flat(parts)|)
    ensures (out + Piece(parts[k], a, e, gop)) + CutFrom(parts, rest, g, false)
         == out + CutFrom(parts, rest, f, gop)
  {
    CutStep(parts, rest, k, a, e, f, g, gop);
    Associate(out, Piece(parts[k], a, e, gop), CutFrom(parts, rest, g, false));
  }

  lemma PumpKeepsWhole(parts: seq<Bytes>, books: seq<Book>, size: nat, k: nat, c: Cursor, e: nat, c': Cursor)
    requires k < |parts| && c.tdone == Before(parts, k) && Pending(books, size, Spot(c, 0, false, 0))
    requires AllCalm(Survivors(books, c.i), |Flat(parts)|) && Advanced(parts[k], c, e, c')
    ensures Whole(parts, books, size, c') == Whole(parts, books, size, c)
  {
    UntilHere(parts, books, size, k, c);
    WholeStep(parts, Rest(books, size, |Flat(parts)|, c.i), k, c.offset, e, c.Flat(), c'.Flat(), c.needGop, c.out);
  }

  lemma AheadStep(rest: seq<Book>, total: nat, f: int, g: int)
    requires f < g <= Until(total, rest) && (rest != [] ==> Calm(rest[0], total))
    ensures Ahead(total, rest, f) == g - f + Ahead(total, rest, g)
  {
  }

  lemma PumpKeepsSlack(parts: seq<Bytes>, books: seq<Book>, size: nat, k: nat, c: Cursor, e: nat, c': Cursor)
    requires k < |parts| && c.tdone == Before(parts, k) && Pending(books, size, Spot(c, 0, false, 0))
    requires AllCalm(Survivors(books, c.i), |Flat(parts)|) && Advanced(parts[k], c, e, c')
    ensures Slack(parts, books, size, c') == Slack(parts, books, size, c)
  {
    UntilHere(parts, books, size, k, c);
    AheadStep(Rest(books, size, |Flat(parts)|, c.i), |Flat(parts)|, c.Flat(), c'.Flat());
    assert |Piece(parts[k], c.offset, e, c.needGop)| == e - c.offset - Dropped(parts[k], c.offset, e, c.needGop);
  }

  /** c' is c after the interval of entry i has been reached and jumped over. */
  ghost predicate JumpedOver(parts: seq<Bytes>, books: seq<Book>, size: nat, c: Cursor, c': Cursor) {
    && Pending(books, size, Spot(c, 0, false, 0)) && AtInterval(parts, Spot(c, 0, false, 0))
    && AllCalm(Survivors(books, c.i), |Flat(parts)|) && (c.i == |books| ==> c.bskip >= 0)
    && c'.out == c.out && c'.newsize == c.newsize && c'.needGop
    && c'.Flat() == c.tdone + c.bpos + c.bskip
    && c'.i == if c.i < |books| then NextIndex(books, c.i + 1) else c.i
  }

  lemma NothingBehind(parts: seq<Bytes>, size: nat, f: int, gop: bool)
    requires size <= f
    ensures CutFrom(parts, Closed([], size, |Flat(parts)|), f, gop) == []
    ensures Ahead(|Flat(parts)|, Closed([], size, |Flat(parts)|), f) == 0
  {
    ClosedTail([], size, |Flat(parts)|);
    assert CutFrom(parts, [], size + |Flat(parts)|, true) == [];
    assert f < |Flat(parts)| ==> Segment(parts, f, Min(size, |Flat(parts)|), gop) == [];
  }

  lemma JumpCut(parts: seq<Bytes>, rest: seq<Book>, next: seq<Book>, f: int, g: int, gop: bool, out: Bytes)
    requires rest != [] && rest[0].pos <= f && (f < |Flat(parts)| || |Flat(parts)| <= rest[0].End())
    requires next == rest[1..] && g == rest[0].End()
    ensures out + CutFrom(parts, next, g, true) == out + CutFrom(parts, rest, f, gop)
  {
    CutJump(parts, rest, f, gop);
  }

  /** Going on behind the interval just reached: nothing is planned in between. */
  lemma JumpKeepsWhole(parts: seq<Bytes>, books: seq<Book>, size: nat, c: Cursor, c': Cursor)
    requires JumpedOver(parts, books, size, c, c')
    ensures Whole(parts, books, size, c') == Whole(parts, books, size, c)
  {
    var total := |Flat(parts)|;
    RestAt(parts, books, size, Spot(c, 0, false, 0));
    if c.i < |books| {
      JumpCut(parts, Rest(books, size, total, c.i), Rest(books, size, total, c'.i), c.Flat(), c'.Flat(), c.needGop, c.out);
    } else {
      NothingBehind(parts, size, c.Flat(), c.needGop);
      NothingBehind(parts, size, c'.Flat(), true);
    }
  }

  lemma AheadJump(rest: seq<Book>, total: nat, f: int)
    requires rest != [] && rest[0].pos <= f && (f < total || total <= rest[0].End())
    ensures Ahead(total, rest, f) == Ahead(total, rest[1..], rest[0].End())
  {
  }

  lemma JumpKeepsSlack(parts: seq<Bytes>, books: seq<Book>, size: nat, c: Cursor, c': Cursor)
    requires JumpedOver(parts, books, size, c, c')
    ensures Slack(parts, books, size, c') == Slack(parts, books, size, c)
  {
    RestAt(parts, books, size, Spot(c, 0, false, 0));
    if c.i < |books| {
      AheadJump(Rest(books, size, |Flat(parts)|, c.i), |Flat(parts)|, c.Flat());
    } else {
      NothingBehind(parts, size, c.Flat(), c.needGop);
      NothingBehind(parts, size, c'.Flat(), true);
    }
  }

  /** c is c0 after pumping: the file went from fpos0 to fpos, `data` was written. */
  ghost predicate Copied(part: Bytes, c0: Cursor, fpos0: nat, c: Cursor, fpos: nat, data: Bytes) {
    && fpos == PumpEnd(part, fpos0, c0.offset, c0.bpos) && data == Piece(part, fpos0, fpos, c0.needGop)
    && c == c0.(offset := c0.offset + fpos - fpos0, needGop := c0.needGop && fpos == fpos0,
                out := c0.out + data, spos := c0.spos + |data|,
                newsize := c0.newsize - Dropped(part, fpos0, fpos, c0.needGop))
  }

  lemma CopyIdle(part: Bytes, c0: Cursor, fpos0: nat, c: Cursor, fpos: nat, data: Bytes)
    requires fpos0 <= |part| && Copied(part, c0, fpos0, c, fpos, data) && c0.bpos <= c0.offset
    ensures c == c0
  {
    assert c0.out + data == c0.out;
  }

  lemma CopyKeepsPlan(parts: seq<Bytes>, k: nat, books: seq<Book>, size: nat, plan: Bytes, slack: int, floor: int,
                      c0: Cursor, fpos0: nat, c: Cursor, fpos: nat, data: Bytes)
    requires Standing(parts, books, size, Spot(c0, k, true, fpos0))
    requires Good(parts, books, size, plan, slack, floor, c0)
    requires Copied(parts[k], c0, fpos0, c, fpos, data)
    ensures Good(parts, books, size, plan, slack, Max(floor, c.Flat()), c)
    ensures c.offset < c.bpos ==> c.offset == |parts[k]|
  {
    var p := Spot(c0, k, true, fpos0);
    PumpStays(parts, books, size, floor, p);
    PumpCourse(parts, books, size, floor, p);
    if c0.offset < c0.bpos {
      PumpKeepsWhole(parts, books, size, k, c0, fpos, c);
      PumpKeepsSlack(parts, books, size, k, c0, fpos, c);
    } else {
      CopyIdle(parts[k], c0, fpos0, c, fpos, data);
    }
  }

  /** Copying inside part k up to the next interval or the part's end. */
  method CopyUpTo(parts: seq<Bytes>, k: nat, books: seq<Book>, size: nat, c0: Cursor, fpos0: nat,
                  ghost plan: Bytes, ghost slack: int, ghost floor0: int, ghost good: bool)
    returns (outcome: Outcome, c: Cursor, fpos: nat, ghost floor: int, ghost edges: set<int>)
    requires Standing(parts, books, size, Spot(c0, k, true, fpos0)) && c0.spos == |c0.out|
    requires good ==> Good(parts, books, size, plan, slack, floor0, c0)
    ensures good ==> !outcome.ReadError? && Good(parts, books, size, plan, slack, floor, c)
    ensures Spot(c, k, true, fpos) == Pumped(parts[k], Spot(c0, k, true, fpos0)) && c.spos == |c.out|
    ensures outcome == if c.bpos <= c.offset then Reached else if c.offset < |parts[k]| then ReadError else EndOfPart
    ensures edges == Edges(parts[k], fpos0, fpos, c0.needGop)
  {
    var needGop, data, from, sdone;
    outcome, fpos, sdone, needGop, data, from, edges := Pump(parts[k], fpos0, c0.offset, c0.bpos, c0.needGop);
    c := c0.(offset := sdone, needGop := needGop, out := c0.out + data, spos := c0.spos + |data|,
             newsize := c0.newsize - (from - fpos0));
    floor := Max(floor0, c.Flat());
    if good {
      CopyKeepsPlan(parts, k, books, size, plan, slack, floor0, c0, fpos0, c, fpos, data);
    }
  }

  /** Going on at j, in this part or behind it, keeps course, plan and budget. */
  lemma JumpKeepsPlan(parts: seq<Bytes>, k: nat, books: seq<Book>, size: nat, plan: Bytes, slack: int, floor: int,
                      c0: Cursor, c: Cursor, leaves: bool)
    requires k < |parts| && Good(parts, books, size, plan, slack, floor, c0)
    requires c.out == c0.out && c.newsize == c0.newsize && c.needGop
    requires Pending(books, size, Spot(c0, k, true, 0)) && AtInterval(parts, Spot(c0, k, true, 0))
    requires var j := Jumped(books, size, Spot(c0, k, true, 0));
      if leaves then j.offset >= |parts[k]| && Spot(c, k + 1, false, 0) == Leave(j, |parts[k]|) else Spot(c, k, true, 0) == j
    ensures Good(parts, books, size, plan, slack, Max(floor, c.Flat()), c)
  {
    var p := Spot(c0, k, true, 0);
    var j := Jumped(books, size, p);
    JumpCourse(parts, books, size, floor, p);
    if leaves {
      LeaveCourse(parts, books, size, Max(floor, j.Flat()), j, |parts[k]|);
    }
    JumpKeepsWhole(parts, books, size, c0, c);
    JumpKeepsSlack(parts, books, size, c0, c);
  }

  /** The interval's start has been reached: go on behind it, in this part or a later one. */
  method GoOn(parts: seq<Bytes>, k: nat, books: seq<Book>, size: nat, c0: Cursor, fpos0: nat,
              ghost plan: Bytes, ghost slack: int, ghost floor0: int, ghost good: bool)
    returns (leaves: bool, c: Cursor, fpos: nat, ghost floor: int, ghost edges: set<int>)
    requires k < |parts| && c0.tdone == Before(parts, k) && Pending(books, size, Spot(c0, k, true, fpos0))
    requires c0.bpos <= c0.offset <= |parts[k]| && (c0.offset < |parts[k]| || c0.offset == c0.bpos)
    requires good ==> Good(parts, books, size, plan, slack, floor0, c0)
    ensures good ==> Good(parts, books, size, plan, slack, floor, c)
    ensures c.out == c0.out && c.spos == c0.spos
    ensures var j := Jumped(books, size, Spot(c0, k, true, fpos0));
      && leaves == (j.offset >= |parts[k]|)
      && Spot(c, if leaves then k + 1 else k, !leaves, if leaves then 0 else fpos)
         == if leaves then Leave(j, |parts[k]|) else j.(fpos := if j.offset >= 0 then j.offset else fpos0)
    ensures edges == SeekEdges(parts[k], Jumped(books, size, Spot(c0, k, true, fpos0)))
  {
    c, leaves := Jump(books, size, |parts[k]|, c0, k, fpos0);
    edges := {};
    fpos, floor := fpos0, Max(floor0, c.Flat());
    if good {
      InPart(parts, k, Spot(c0, k, true, 0));
      JumpKeepsPlan(parts, k, books, size, plan, slack, floor0, c0, c, leaves);
    }
    if !leaves && c.offset >= 0 {
      fpos := c.offset;
      edges := {c.offset};
    }
  }

  /** Reading goes on behind this part: the same flat position, counted from the next part. */
  lemma SkipKeepsPlan(parts: seq<Bytes>, k: nat, books: seq<Book>, size: nat, c: Cursor, c': Cursor,
                      plan: Bytes, slack: int, floor: int)
    requires k < |parts| && c.offset >= |parts[k]| && Good(parts, books, size, plan, slack, floor, c)
    requires c' == c.(offset := c.offset - |parts[k]|, bpos := c.bpos - |parts[k]|, tdone := c.tdone + |parts[k]|)
    ensures Good(parts, books, size, plan, slack, floor, c')
  {
    LeaveCourse(parts, books, size, floor, Spot(c, 0, false, 0), |parts[k]|);
  }

  /** One turn inside part k: copy up to the next interval or the part's end, then jump or go on
      to the next part. `fpos` is where the open file stands. */
  method PartTurn(parts: seq<Bytes>, k: nat, books: seq<Book>, size: nat, c0: Cursor, fpos0: nat,
                  ghost plan: Bytes, ghost slack: int, ghost floor0: int, ghost good: bool)
    returns (ok: bool, leaves: bool, c: Cursor, fpos: nat, ghost floor: int, ghost edges: set<int>)
    requires Standing(parts, books, size, Spot(c0, k, true, fpos0)) && c0.spos == |c0.out|
    requires good ==> Good(parts, books, size, plan, slack, floor0, c0)
    ensures good ==> ok
    ensures Kept(parts, books, size, plan, slack, floor, good, c) && c.spos == |c.out|
    ensures Turn(parts, books, size, Spot(c0, k, true, fpos0)) ==
            if !ok then Over(false) else Spot(c, if leaves then k + 1 else k, !leaves, if leaves then 0 else fpos)
    ensures edges == TurnEdges(parts, books, size, Spot(c0, k, true, fpos0))
  {
    var outcome;
    outcome, c, fpos, floor, edges := CopyUpTo(parts, k, books, size, c0, fpos0, plan, slack, floor0, good);
    leaves, ok := true, !outcome.ReadError?;
    if outcome.EndOfPart? {
      ghost var ended := c;
      c := c.(offset := 0, bpos := c.bpos - c.offset, tdone := c.tdone + |parts[k]|);
      if good {
        SkipKeepsPlan(parts, k, books, size, ended, c, plan, slack, floor);
      }
    } else if outcome.Reached? {
      ghost var sought;
      leaves, c, fpos, floor, sought := GoOn(parts, k, books, size, c, fpos, plan, slack, floor, good);
      edges := edges + sought;
    }
  }

  /** What the run is known to come to: how it ends, and all the edges it touches. */
  datatype Fate = Fate(end: Place, edges: set<int>)

  ghost function AllEdges(passed: set<int>, parts: seq<Bytes>, books: seq<Book>, size: nat, p: Place, fuel: nat): set<int>
    requires p.Over? || Standing(parts, books, size, p)
  {
    passed + RunEdges(parts, books, size, p, fuel)
  }

  /** The loop stands here, and is over after so many turns. */
  ghost predicate Running(parts: seq<Bytes>, books: seq<Book>, size: nat, c: Cursor, p: Place, fuel: nat,
                          edges: set<int>, fate: Fate)
  {
    && Standing(parts, books, size, p) && After(parts, books, size, p, fuel) == fate.end && fate.end.Over?
    && AllEdges(edges, parts, books, size, p, fuel) == fate.edges
    && p.Place? && p == Spot(c, p.part, p.open, p.fpos) && c.spos == |c.out|
  }

  /** A turn brings the end nearer. */
  lemma RunNext(parts: seq<Bytes>, books: seq<Book>, size: nat, p: Place, fuel: nat, edges: set<int>, fate: Fate, touched: set<int>)
    requires Standing(parts, books, size, p) && After(parts, books, size, p, fuel) == fate.end && fate.end.Over?
    requires AllEdges(edges, parts, books, size, p, fuel) == fate.edges && touched == TurnEdges(parts, books, size, p)
    ensures fuel > 0
    ensures var q := Turn(parts, books, size, p);
      && After(parts, books, size, q, fuel - 1) == fate.end
      && AllEdges(edges + touched, parts, books, size, q, fuel - 1) == fate.edges
      && (q.Over? ==> q == fate.end && edges + touched == fate.edges)
  {
    var q := Turn(parts, books, size, p);
    if q.Over? {
      NoEdgesWhenOver(parts, books, size, q, fuel - 1);
    }
  }

  /** What is kept all along. */
  ghost predicate Kept(parts: seq<Bytes>, books: seq<Book>, size: nat, plan: Bytes, slack: int, floor: int,
                       good: bool, c: Cursor) {
    && (good ==> Good(parts, books, size, plan, slack, floor, c))
    && (good && slack >= 0 ==> c.spos <= c.newsize)
  }

  /** A turn that brings the loop's end one turn nearer. */
  method PartStep(parts: seq<Bytes>, k: nat, books: seq<Book>, size: nat, c0: Cursor, fpos0: nat,
                  ghost fuel0: nat, ghost edges0: set<int>, ghost fate: Fate,
                  ghost plan: Bytes, ghost slack: int, ghost floor0: int, ghost good: bool)
    returns (ok: bool, leaves: bool, c: Cursor, fpos: nat, ghost fuel: nat, ghost floor: int, ghost edges: set<int>)
    requires Running(parts, books, size, c0, Spot(c0, k, true, fpos0), fuel0, edges0, fate)
    requires Kept(parts, books, size, plan, slack, floor0, good, c0)
    ensures good ==> ok
    ensures Kept(parts, books, size, plan, slack, floor, good, c)
    ensures fuel < fuel0
    ensures if ok then
              Running(parts, books, size, c, Spot(c, if leaves then k + 1 else k, !leaves, if leaves then 0 else fpos),
                      fuel, edges, fate)
            else fate == Fate(Over(false), edges)
  {
    ghost var touched;
    ok, leaves, c, fpos, floor, touched := PartTurn(parts, k, books, size, c0, fpos0, plan, slack, floor0, good);
    RunNext(parts, books, size, Spot(c0, k, true, fpos0), fuel0, edges0, fate, touched);
    fuel, edges := fuel0 - 1, edges0 + touched;
  }

  lemma SkipPart(parts: seq<Bytes>, k: nat, books: seq<Book>, size: nat, c: Cursor, c': Cursor, fuel: nat,
                 edges: set<int>, fate: Fate, plan: Bytes, slack: int, floor: int, good: bool)
    requires k < |parts| && Running(parts, books, size, c, Spot(c, k, false, 0), fuel, edges, fate) && c.offset >= |parts[k]|
    requires Kept(parts, books, size, plan, slack, floor, good, c)
    requires c' == c.(offset := c.offset - |parts[k]|, bpos := c.bpos - |parts[k]|, tdone := c.tdone + |parts[k]|)
    ensures fuel > 0 && Running(parts, books, size, c', Spot(c', k + 1, false, 0), fuel - 1, edges, fate)
    ensures Kept(parts, books, size, plan, slack, floor, good, c')
  {
    RunNext(parts, books, size, Spot(c, k, false, 0), fuel, edges, fate, {});
    assert edges + {} == edges;
    if good {
      SkipKeepsPlan(parts, k, books, size, c, c', plan, slack, floor);
    }
  }

  /** One part file: skip it when reading goes on behind it, or turn by turn until it is left.
      `fuel` is a number of turns after which the loop is over. */
  method CutPart(parts: seq<Bytes>, k: nat, books: seq<Book>, size: nat, c0: Cursor,
                 ghost fuel0: nat, ghost edges0: set<int>, ghost fate: Fate,
                 ghost plan: Bytes, ghost slack: int, ghost floor0: int, ghost good: bool)
    returns (ok: bool, c: Cursor, ghost fuel: nat, ghost floor: int, ghost edges: set<int>)
    requires k < |parts| && Running(parts, books, size, c0, Spot(c0, k, false, 0), fuel0, edges0, fate)
    requires Kept(parts, books, size, plan, slack, floor0, good, c0)
    ensures good ==> ok
    ensures Kept(parts, books, size, plan, slack, floor, good, c)
    ensures if ok then Running(parts, books, size, c, Spot(c, k + 1, false, 0), fuel, edges, fate)
            else fate == Fate(Over(false), edges)
  {
    c, floor, ok, edges, fuel := c0, floor0, true, edges0, fuel0 - 1;
    var length := |parts[k]|;
    if c.offset >= length {
      c := c.(offset := c.offset - length, bpos := c.bpos - length, tdone := c.tdone + length);
      SkipPart(parts, k, books, size, c0, c, fuel0, edges0, fate, plan, slack, floor, good);
    } else {
      RunNext(parts, books, size, Spot(c0, k, false, 0), fuel0, edges0, fate, {c.offset});
      edges := edges + {c.offset};
      ok, c, fuel, floor, edges := CutOpened(parts, k, books, size, c0, fuel, edges, fate, plan, slack, floor0, good);
    }
  }

  /** The open part, turn by turn. */
  method CutOpened(parts: seq<Bytes>, k: nat, books: seq<Book>, size: nat, c0: Cursor,
                   ghost fuel0: nat, ghost edges0: set<int>, ghost fate: Fate,
                   ghost plan: Bytes, ghost slack: int, ghost floor0: int, ghost good: bool)
    returns (ok: bool, c: Cursor, ghost fuel: nat, ghost floor: int, ghost edges: set<int>)
    requires c0.offset >= 0 && Running(parts, books, size, c0, Spot(c0, k, true, c0.offset), fuel0, edges0, fate)
    requires Kept(parts, books, size, plan, slack, floor0, good, c0)
    ensures good ==> ok
    ensures Kept(parts, books, size, plan, slack, floor, good, c)
    ensures if ok then Running(parts, books, size, c, Spot(c, k + 1, false, 0), fuel, edges, fate)
            else fate == Fate(Over(false), edges)
  {
    c, floor, edges, ok, fuel := c0, floor0, edges0, true, fuel0;
    var fpos: nat := c.offset;
    var leaves := false;
    while !leaves
      invariant Running(parts, books, size, c, Spot(c, if leaves then k + 1 else k, !leaves, if leaves then 0 else fpos),
                        fuel, edges, fate)
      invariant Kept(parts, books, size, plan, slack, floor, good, c)
      decreases fuel
    {
      ok, leaves, c, fpos, fuel, floor, edges :=
        PartStep(parts, k, books, size, c, fpos, fuel, edges, fate, plan, slack, floor, good);
      if !ok {
        break;
      }
    }
  }

  /** Behind the last part nothing is planned any more. */
  lemma NothingAhead(parts: seq<Bytes>, books: seq<Book>, size: nat, plan: Bytes, slack: int, floor: int, c: Cursor)
    requires Standing(parts, books, size, Spot(c, |parts|, false, 0))
    requires Good(parts, books, size, plan, slack, floor, c)
    ensures c.out == plan && c.newsize - |c.out| == slack
  {
    assert parts[..|parts|] == parts;
  }

  /** The intervals that the loop is to skip, closed off at the recorded size. */
  function Plan(books: seq<Book>, size: nat, total: nat): seq<Book> {
    Rest(books, size, total, 0)
  }

  /** The copying follows the plan. */
  ghost predicate InOrder(parts: seq<Bytes>, books: seq<Book>, size: nat) {
    AllCalm(Survivors(books, 0), |Flat(parts)|) && Followable(parts, Plan(books, size, |Flat(parts)|), 0, 0)
  }

  /** What was planned is written, and the counts are right: spos counts the bytes written, and
      the size still expected has fallen by the trims. */
  ghost predicate Written(parts: seq<Bytes>, plan: seq<Book>, expected: int, out: Bytes, spos: int, newsize: int) {
    && out == CutFrom(parts, plan, 0, false)
    && spos == |out| == Ahead(|Flat(parts)|, plan, 0) - Trims(parts, plan, 0, false)
    && newsize == expected - Trims(parts, plan, 0, false)
  }

  /** The whole copy loop, wherever it ends. In order, it writes exactly the plan; the size still
      expected falls by the trims, stays above what is written by what it started above the bytes
      to be copied, and never falls below it if it did not start too small. `edges` are the offsets
      of its seeks, reads and writes; if parts and intervals begin and end at packet boundaries, so
      does every one of these. */
  method CutParts(parts: seq<Bytes>, books: seq<Book>, size: nat, newsize: int)
    returns (ok: bool, c: Cursor, ghost turns: nat, ghost edges: set<int>)
    requires LoopEnds(parts, books, size)
    ensures InOrder(parts, books, size) ==>
              ok && Written(parts, Plan(books, size, |Flat(parts)|), newsize, c.out, c.spos, c.newsize)
    ensures After(parts, books, size, Start(books), turns) == Over(ok)
    ensures edges == RunEdges(parts, books, size, Start(books), turns)
    ensures AlignedTable(parts, books, size) ==> AllAligned(edges)
  {
    c := First(books, newsize);
    ok, edges := true, {};
    ghost var rest := Plan(books, size, |Flat(parts)|);
    ghost var good := InOrder(parts, books, size);
    ghost var plan := CutFrom(parts, rest, 0, false);
    ghost var slack := newsize - Ahead(|Flat(parts)|, rest, 0);
    ghost var floor := 0;
    turns :| After(parts, books, size, Start(books), turns).Over?;
    ghost var fate := Fate(After(parts, books, size, Start(books), turns), RunEdges(parts, books, size, Start(books), turns));
    ghost var fuel := turns;
    var part := 0;
    PlanStarts(parts, books, size, newsize, plan, slack);
    RunStarts(parts, books, size, newsize, turns, fate);
    if AlignedTable(parts, books, size) {
      LoopAligned(parts, books, size, turns);
    }
    while part < |parts| && ok
      invariant part <= |parts| && (good ==> ok)
      invariant if ok then Running(parts, books, size, c, Spot(c, part, false, 0), fuel, edges, fate)
                else fate == Fate(Over(false), edges)
      invariant Kept(parts, books, size, plan, slack, floor, good, c)
    {
      ok, c, fuel, floor, edges := CutPart(parts, part, books, size, c, fuel, edges, fate, plan, slack, floor, good);
      part := part + 1;
    }
    if ok {
      RunDone(parts, books, size, c, fuel, edges, fate);
    }
    if good {
      PlanDone(parts, books, size, newsize, plan, slack, floor, c);
    }
  }

  lemma RunStarts(parts: seq<Bytes>, books: seq<Book>, size: nat, newsize: int, turns: nat, fate: Fate)
    requires books != [] && books[0].ok && After(parts, books, size, Start(books), turns).Over?
    requires fate == Fate(After(parts, books, size, Start(books), turns), RunEdges(parts, books, size, Start(books), turns))
    ensures var c := First(books, newsize); Running(parts, books, size, c, Spot(c, 0, false, 0), turns, {}, fate)
  {
    assert {} + fate.edges == fate.edges;
  }

  lemma RunDone(parts: seq<Bytes>, books: seq<Book>, size: nat, c: Cursor, fuel: nat, edges: set<int>, fate: Fate)
    requires Running(parts, books, size, c, Spot(c, |parts|, false, 0), fuel, edges, fate)
    ensures fate == Fate(Over(true), edges)
  {
    RunNext(parts, books, size, Spot(c, |parts|, false, 0), fuel, edges, fate, {});
    assert edges + {} == edges;
  }

  /** The cursors before the first turn. */
  function First(books: seq<Book>, newsize: int): Cursor
    requires books != []
  {
    Cursor(0, 0, books[0].pos, books[0].len, 0, false, [], 0, newsize)
  }

  lemma PlanStarts(parts: seq<Bytes>, books: seq<Book>, size: nat, newsize: int, plan: Bytes, slack: int)
    requires books != [] && books[0].ok
    requires plan == CutFrom(parts, Plan(books, size, |Flat(parts)|), 0, false)
    requires slack == newsize - Ahead(|Flat(parts)|, Plan(books, size, |Flat(parts)|), 0)
    ensures Kept(parts, books, size, plan, slack, 0, InOrder(parts, books, size), First(books, newsize))
  {
    assert [] + plan == plan;
  }

  lemma PlanDone(parts: seq<Bytes>, books: seq<Book>, size: nat, newsize: int, plan: Bytes, slack: int, floor: int, c: Cursor)
    requires Standing(parts, books, size, Spot(c, |parts|, false, 0)) && c.spos == |c.out|
    requires Good(parts, books, size, plan, slack, floor, c) && InOrder(parts, books, size)
    requires plan == CutFrom(parts, Plan(books, size, |Flat(parts)|), 0, false)
    requires slack == newsize - Ahead(|Flat(parts)|, Plan(books, size, |Flat(parts)|), 0)
    ensures Written(parts, Plan(books, size, |Flat(parts)|), newsize, c.out, c.spos, c.newsize)
  {
    NothingAhead(parts, books, size, plan, slack, floor, c);
    PlanLength(parts, books, size);
  }

  /** With a recorded size of at least the total the plan is that of the intervals alone. */
  lemma FullSizeInOrder(parts: seq<Bytes>, books: seq<Book>, size: nat)
    requires |Flat(parts)| <= size && AllSane(books, size) && Followable(parts, Survivors(books, 0), 0, 0)
    ensures InOrder(parts, books, size)
  {
    SurvivorsSane(books, 0, size);
    SaneIsCalm(Survivors(books, 0), size, |Flat(parts)|);
    ClosedAhead(Survivors(books, 0), size, |Flat(parts)|, 0, 0);
  }

  lemma FullSizeWritten(parts: seq<Bytes>, books: seq<Book>, size: nat, expected: int, out: Bytes, spos: int, newsize: int)
    requires |Flat(parts)| <= size && Written(parts, Plan(books, size, |Flat(parts)|), expected, out, spos, newsize)
    ensures Written(parts, Survivors(books, 0), expected, out, spos, newsize)
  {
    var s, total := Survivors(books, 0), |Flat(parts)|;
    ClosedCut(parts, s, size, 0, false);
    ClosedTrims(parts, s, size, 0, false);
    ClosedAhead(s, size, total, 0, 0);
  }

  lemma PlanLength(parts: seq<Bytes>, books: seq<Book>, size: nat)
    requires AllCalm(Survivors(books, 0), |Flat(parts)|)
    ensures var plan := Plan(books, size, |Flat(parts)|);
      |CutFrom(parts, plan, 0, false)| == Ahead(|Flat(parts)|, plan, 0) - Trims(parts, plan, 0, false)
  {
    var s, total := Survivors(books, 0), |Flat(parts)|;
    assert forall k :: 0 <= k < |s| ==> Calm(s[k], total) && Closed(s, size, total)[k] == s[k];
    CutFromLength(parts, Plan(books, size, total), 0, false);
  }
}
