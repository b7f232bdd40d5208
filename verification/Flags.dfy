/** Listing the positions that are marked. */
module Flags {

  /** The numbers base, base + 1, ... of the flags that are set. */
  function Hits(flags: seq<bool>, base: int): seq<int> {
    if flags == [] then []
    else
      var n := |flags| - 1;
      Hits(flags[..n], base) + if flags[n] then [base + n] else []
  }

  lemma HitsStep(flags: seq<bool>, base: int, n: nat)
    requires n < |flags|
    ensures Hits(flags[..n + 1], base) == Hits(flags[..n], base) + if flags[n] then [base + n] else []
  {
    assert flags[..n + 1][..n] == flags[..n];
  }

  lemma {:induction false} HitsInRange(flags: seq<bool>, base: int, k: nat)
    requires k < |Hits(flags, base)|
    ensures base <= Hits(flags, base)[k] < base + |flags| && flags[Hits(flags, base)[k] - base]
  {
    var n := |flags| - 1;
    if k < |Hits(flags[..n], base)| {
      HitsInRange(flags[..n], base, k);
    }
  }

  lemma {:induction false} HitsAscend(flags: seq<bool>, base: int, j: nat, k: nat)
    requires j < k < |Hits(flags, base)|
    ensures Hits(flags, base)[j] < Hits(flags, base)[k]
  {
    var n := |flags| - 1;
    HitsInRange(flags[..n], base, j);
    if k < |Hits(flags[..n], base)| {
      HitsAscend(flags[..n], base, j, k);
    }
  }

  lemma {:induction false} HitsComplete(flags: seq<bool>, base: int, i: nat)
    requires i < |flags| && flags[i]
    ensures base + i in Hits(flags, base)
  {
    var n := |flags| - 1;
    if i < n {
      HitsComplete(flags[..n], base, i);
    }
  }

  /** The numbers listed are those of the flags set, each once, in ascending order. */
  lemma HitsExact(flags: seq<bool>, base: int)
    ensures forall i :: 0 <= i < |flags| ==> (flags[i] <==> base + i in Hits(flags, base))
    ensures forall j, k :: 0 <= j < k < |Hits(flags, base)| ==> Hits(flags, base)[j] < Hits(flags, base)[k]
    ensures forall x :: x in Hits(flags, base) ==> base <= x < base + |flags|
  {
    forall i | 0 <= i < |flags| && flags[i] ensures base + i in Hits(flags, base) {
      HitsComplete(flags, base, i);
    }
    forall k | 0 <= k < |Hits(flags, base)|
      ensures base <= Hits(flags, base)[k] < base + |flags| && flags[Hits(flags, base)[k] - base]
    {
      HitsInRange(flags, base, k);
    }
    forall j, k | 0 <= j < k < |Hits(flags, base)| ensures Hits(flags, base)[j] < Hits(flags, base)[k] {
      HitsAscend(flags, base, j, k);
    }
  }

  lemma {:induction false} HitsPrefix(flags: seq<bool>, base: int, n: nat)
    requires n <= |flags|
    ensures |Hits(flags[..n], base)| <= |Hits(flags, base)|
    ensures Hits(flags[..n], base) == Hits(flags, base)[..|Hits(flags[..n], base)|]
    decreases |flags| - n
  {
    if n < |flags| {
      HitsStep(flags, base, n);
      HitsPrefix(flags, base, n + 1);
    } else {
      assert flags[..n] == flags;
    }
  }
}
