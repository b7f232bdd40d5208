/** Which tables make copying go back, told from the table alone. */
module CutOrder {
  import opened Recording
  import opened CutPlan
  import opened CutMeaning
  import opened Overlaps

  /** Intervals as resolution leaves them. */
  predicate Resolved(s: seq<Book>, total: nat) {
    && AllCalm(s, total) && SortedByStart(s)
    && forall j, k :: 0 <= j < k < |s| ==> TogetherOrApart(s[j], s[k])
  }

  predicate LastOfStart(s: seq<Book>, k: nat)
    requires k < |s|
  {
    k + 1 == |s| || s[k].pos < s[k + 1].pos
  }

  /** Of all intervals before k that start with it none ends behind it. */
  predicate EndsLast(s: seq<Book>, k: nat)
    requires k < |s|
  {
    forall j :: 0 <= j < k && s[j].pos == s[k].pos ==> s[j].End() <= s[k].End()
  }

  /** One of them, or k itself, ends with the recording or behind it. */
  predicate EndsBehind(s: seq<Book>, total: nat, k: nat)
    requires k < |s|
  {
    exists j :: 0 <= j <= k && s[j].pos == s[k].pos && total <= s[j].End()
  }

  predicate InTurn(s: seq<Book>, total: nat, k: nat)
    requires k < |s|
  {
    LastOfStart(s, k) ==> total < s[k].pos || EndsBehind(s, total, k) || EndsLast(s, k)
  }

  /** Wherever several intervals start together, the last of them ends last, or one of them takes
      all the rest of the recording. */
  predicate AllInTurn(s: seq<Book>, total: nat) {
    forall k :: 0 <= k < |s| ==> InTurn(s, total, k)
  }

  /** All intervals before k have been jumped over inside the recording; floor is their last end. */
  predicate Passed(s: seq<Book>, total: nat, k: nat, floor: int) {
    && k <= |s| && 0 <= floor
    && (forall j :: 0 <= j < k ==> s[j].pos <= total && 0 <= s[j].len && s[j].End() < total && s[j].End() <= floor)
    && (floor == 0 || exists j :: 0 <= j < k && s[j].End() == floor)
  }

  /** Reading on behind interval k - 1 goes forward exactly if that interval is in turn. */
  lemma ReadIffInTurn(s: seq<Book>, total: nat, k: nat, floor: int)
    requires Resolved(s, total) && 0 < k && Passed(s, total, k, floor)
    ensures InTurn(s, total, k - 1) <==>
            (s[k - 1].End() < Until(total, s[k..]) ==> floor <= s[k - 1].End())
  {
    var f := s[k - 1].End();
    assert k < |s| ==> s[k..][0] == s[k];
    if EndsLast(s, k - 1) {
      forall j | 0 <= j < k ensures s[j].End() <= f {
        assert j < k - 1 ==> TogetherOrApart(s[j], s[k - 1]);
      }
    }
    if k < |s| && s[k - 1].pos < s[k].pos {
      forall j | 0 <= j < k ensures s[j].End() <= s[k].pos {
        assert TogetherOrApart(s[j], s[k]);
      }
    }
  }

  lemma RestInTurn(s: seq<Book>, total: nat, k: nat, m: nat)
    requires Resolved(s, total) && k <= m < |s| && (total < s[k].pos || total <= s[k].End())
    ensures InTurn(s, total, m)
  {
    if k < m && s[k].pos < s[m].pos {
      assert TogetherOrApart(s[k], s[m]);
      assert Calm(s[m], total);
      assert s[m].pos == s[m].pos && (total < s[m].pos || total <= s[m].End());
    }
  }

  lemma {:induction false} ForwardFrom(s: seq<Book>, total: nat, k: nat, floor: int)
    requires Resolved(s, total) && Passed(s, total, k, floor) && 0 < total
    ensures ReadsForward(total, s[k..], floor, ResumeAt(s, k)) <==>
            forall m :: (if k == 0 then 0 else k - 1) <= m < |s| ==> InTurn(s, total, m)
    decreases |s| - k
  {
    if k > 0 {
      ReadIffInTurn(s, total, k, floor);
    }
    if k < |s| {
      assert s[k..][0] == s[k] && s[k..][1..] == s[k + 1..];
      if total < s[k].pos || total <= s[k].End() {
        forall m | k <= m < |s| ensures InTurn(s, total, m) {
          RestInTurn(s, total, k, m);
        }
      } else {
        assert Calm(s[k], total);
        ForwardFrom(s, total, k + 1, Max(floor, s[k].End()));
      }
    }
  }

  /** Copying under a resolved table only moves forward if and only if wherever several intervals
      start together the last of them ends last, or one of them takes the rest. */
  lemma ForwardIffInTurn(s: seq<Book>, total: nat)
    requires Resolved(s, total)
    ensures ReadsForward(total, s, 0, 0) <==> AllInTurn(s, total)
  {
    assert s[0..] == s;
    if total == 0 {
      forall m | 0 <= m < |s| ensures InTurn(s, total, m) {
        assert s[m].pos == s[m].pos && total <= s[m].End();
      }
    } else {
      ForwardFrom(s, total, 0, 0);
    }
  }
}
