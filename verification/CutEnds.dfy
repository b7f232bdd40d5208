/** When the cut loop ends under tables that make it read back. */
module CutEnds {
  import opened Recording
  import opened CutPlan
  import opened CutRun

  /** No interval still to come starts or ends before the recording. */
  predicate NonNegative(books: seq<Book>) {
    forall k :: 0 <= k < |books| ==> 0 <= books[k].pos && 0 <= books[k].End()
  }

  // One part

  lemma OnePart(part: Bytes)
    ensures Flat([part]) == part && Before([part], 0) == 0 && Before([part], 1) == |part|
  {
    assert [part][..0] == [] && [part][..1] == [part];
  }

  /** In a single part every place that is not behind the last interval can be sought. */
  ghost predicate Sought(part: Bytes, books: seq<Book>, size: nat, p: Place) {
    && Standing([part], books, size, p) && (p.part == 0 ==> p.tdone == 0)
    && (p.offset >= 0 || (p.i == |books| && size + p.bskip < 0 && size <= |part|))
    && NonNegative(Survivors(books, p.i))
  }

  lemma {:induction false} SurvivorsBehind(books: seq<Book>, i: nat, j: nat)
    requires i <= j <= |books| && NonNegative(Survivors(books, i))
    ensures NonNegative(Survivors(books, j))
    decreases j - i
  {
    if i < j {
      var s, r := Survivors(books, i), Survivors(books, i + 1);
      if books[i].ok {
        SurvivorsAt(books, i);
        assert forall k :: 0 <= k < |r| ==> r[k] == s[k + 1];
      }
      SurvivorsBehind(books, i + 1, j);
    }
  }

  /** A turn in a single part: what is ahead leaves the recording as before, or the read failed
      because the file could not be moved back. */
  lemma OneTurn(part: Bytes, books: seq<Book>, size: nat, p: Place)
    requires Sought(part, books, size, p) && p.part == 0 && p.open
    ensures var q := Turn([part], books, size, p);
      if q.Place? then
        Sought(part, books, size, q) && (LeavesFrom([part], books, size, q) <==> LeavesFrom([part], books, size, p))
      else p.offset < 0
  {
    OnePart(part);
    var q := Pumped(part, p);
    LastLenJumped(books, size, q);
    if p.i < |books| {
      SurvivorsAt(books, p.i);
      SurvivorsBehind(books, p.i, Jumped(books, size, q).i);
    }
  }

  /** What stays as it is along a run. */
  ghost predicate Same(part: Bytes, books: seq<Book>, size: nat, p: Place, q: Place)
    requires p.Place? && q.Place?
  {
    && (LeavesFrom([part], books, size, q) <==> LeavesFrom([part], books, size, p))
    && LastLen(books, q.i, q.bskip) == LastLen(books, p.i, p.bskip)
  }

  lemma OneStep(part: Bytes, books: seq<Book>, size: nat, p: Place)
    requires Sought(part, books, size, p)
    ensures var q := Turn([part], books, size, p);
      if q.Place? then Sought(part, books, size, q) && Same(part, books, size, p, q)
      else p.part == 1 || p.offset < 0
  {
    OnePart(part);
    if p.part == 0 && p.open {
      OneTurn(part, books, size, p);
      LastLenJumped(books, size, Pumped(part, p));
    }
  }

  lemma {:induction false} OneRun(part: Bytes, books: seq<Book>, size: nat, p: Place, n: nat)
    requires Sought(part, books, size, p)
    ensures var q := After([part], books, size, p, n);
      q.Place? ==> Sought(part, books, size, q) && Same(part, books, size, p, q)
    decreases n
  {
    if n > 0 {
      var q := Turn([part], books, size, p);
      OneStep(part, books, size, p);
      if q.Place? {
        OneRun(part, books, size, q, n - 1);
      } else {
        StaysOver([part], books, size, q, 0, n - 1);
      }
    }
  }

  /** Who does not leave the recording, and can always be moved back, goes on for ever. */
  lemma {:induction false} OneNever(part: Bytes, books: seq<Book>, size: nat, p: Place, n: nat)
    requires Sought(part, books, size, p) && !LeavesFrom([part], books, size, p)
    requires 0 <= size + LastLen(books, p.i, p.bskip)
    ensures After([part], books, size, p, n).Place?
    decreases n
  {
    if n > 0 {
      OnePart(part);
      OneStep(part, books, size, p);
      OneNever(part, books, size, Turn([part], books, size, p), n - 1);
    }
  }

  /** No place is one where the loop stays, unless it cannot leave but be moved back. */
  lemma OneMoves(part: Bytes, books: seq<Book>, size: nat, q: Place)
    requires Sought(part, books, size, q)
    requires LeavesFrom([part], books, size, q) || size + LastLen(books, q.i, q.bskip) < 0
    ensures Turn([part], books, size, q) != q
  {
    OnePart(part);
  }

  lemma OneEnds(part: Bytes, books: seq<Book>, size: nat, p: Place)
    requires Sought(part, books, size, p)
    requires LeavesFrom([part], books, size, p) || size + LastLen(books, p.i, p.bskip) < 0
    ensures Ends([part], books, size, p)
  {
    EndsIffNoRepeat([part], books, size, p);
    if Repeats([part], books, size, p) {
      var n: nat :| var q := After([part], books, size, p, n); q.Place? && Turn([part], books, size, q) == q;
      OneRun(part, books, size, p, n);
      OneMoves(part, books, size, After([part], books, size, p, n));
    }
  }

  /** The exact condition for a recording of one part, under every table: the loop ends if and only
      if the recorded size, or it and the last interval's length, reach the end of the recording, or
      some interval starts behind it or reaches its end; or the last interval would take it back to
      before the recording, where the next read fails. */
  lemma OnePartEndsExactly(part: Bytes, books: seq<Book>, size: nat)
    requires books != [] && books[0].ok && NonNegative(Survivors(books, 0))
    ensures var s := Survivors(books, 0);
      s != [] && (LoopEnds([part], books, size) <==>
                  CanEnd(|part|, size, s, s[|s| - 1].len) || size + s[|s| - 1].len < 0)
  {
    var p, s := Start(books), Survivors(books, 0);
    OnePart(part);
    SurvivorsAt(books, 0);
    LastLenIs(books, 0, p.bskip);
    if part == [] {
      assert |part| <= s[0].End();
    } else {
      LeavesIff(|part|, size, s, s[|s| - 1].len, 0);
    }
    if LeavesFrom([part], books, size, p) || size + s[|s| - 1].len < 0 {
      OneEnds(part, books, size, p);
    } else if LoopEnds([part], books, size) {
      var n: nat :| After([part], books, size, p, n).Over?;
      OneNever(part, books, size, p, n);
    }
  }

  /** And it ends well exactly if it leaves the recording; else with a read that fails. */
  lemma {:induction false} OneEndsWell(part: Bytes, books: seq<Book>, size: nat, p: Place, n: nat)
    requires Sought(part, books, size, p) && After([part], books, size, p, n).Over?
    ensures After([part], books, size, p, n) == Over(LeavesFrom([part], books, size, p))
    decreases n
  {
    OnePart(part);
    var q := Turn([part], books, size, p);
    OneStep(part, books, size, p);
    if q.Place? {
      OneEndsWell(part, books, size, q, n - 1);
    } else {
      OverStays([part], books, size, q, n - 1);
    }
  }

  /** So the whole loop ends well exactly if the recording is left. */
  lemma OnePartEndsWell(part: Bytes, books: seq<Book>, size: nat, n: nat)
    requires books != [] && books[0].ok && NonNegative(Survivors(books, 0))
    requires After([part], books, size, Start(books), n).Over?
    ensures var s := Survivors(books, 0);
      s != [] && After([part], books, size, Start(books), n) == Over(CanEnd(|part|, size, s, s[|s| - 1].len))
  {
    var p, s := Start(books), Survivors(books, 0);
    OnePart(part);
    SurvivorsAt(books, 0);
    LastLenIs(books, 0, p.bskip);
    if part == [] {
      assert |part| <= s[0].End();
    } else {
      LeavesIff(|part|, size, s, s[|s| - 1].len, 0);
    }
    OneEndsWell(part, books, size, p, n);
  }

  /** The length used behind the last interval is always that interval's. */
  lemma OnePartLast(part: Bytes, books: seq<Book>, size: nat, n: nat)
    requires books != [] && books[0].ok && NonNegative(Survivors(books, 0))
    requires var q := After([part], books, size, Start(books), n); q.Place? && q.i == |books|
    ensures var s := Survivors(books, 0);
      s != [] && After([part], books, size, Start(books), n).bskip == s[|s| - 1].len
  {
    var p := Start(books);
    OnePart(part);
    SurvivorsAt(books, 0);
    LastLenIs(books, 0, p.bskip);
    OneRun(part, books, size, p, n);
  }
}
