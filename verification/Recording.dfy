/** A recording: a list of part files (name, name.001, ...) read as one flat byte string. */
module Recording {

  type byte = bv8
  type Bytes = seq<byte>

  // Size of the copy buffer: 1395 packets of 188 bytes.
  const PACKET: nat := 188
  const BUF_SIZE: nat := 262260

  function Min(a: int, b: int): int {
    if a <= b then a else b
  }

  function Max(a: int, b: int): int {
    if a <= b then b else a
  }

  /** The bytes of all parts in order. */
  function Flat(parts: seq<Bytes>): Bytes {
    if parts == [] then [] else Flat(parts[..|parts| - 1]) + parts[|parts| - 1]
  }

  /** The flat position at which part k starts. */
  function Before(parts: seq<Bytes>, k: nat): nat
    requires k <= |parts|
  {
    |Flat(parts[..k])|
  }

  lemma BeforeNext(parts: seq<Bytes>, k: nat)
    requires k < |parts|
    ensures Flat(parts[..k + 1]) == Flat(parts[..k]) + parts[k]
    ensures Before(parts, k + 1) == Before(parts, k) + |parts[k]|
  {
    assert parts[..k + 1][..k] == parts[..k];
  }

  lemma {:induction false} FlatPrefix(parts: seq<Bytes>, k: nat)
    requires k <= |parts|
    ensures Flat(parts[..k]) <= Flat(parts)
    ensures Before(parts, k) <= |Flat(parts)|
    decreases |parts| - k
  {
    if k == |parts| {
      assert parts[..k] == parts;
    } else {
      BeforeNext(parts, k);
      FlatPrefix(parts, k + 1);
    }
  }

  /** A range [a, b) inside one part is the range [f, g) of the flat string. */
  lemma FlatSlice(parts: seq<Bytes>, k: nat, a: nat, b: nat, f: nat, g: nat)
    requires k < |parts| && a <= b <= |parts[k]|
    requires f == Before(parts, k) + a && g == Before(parts, k) + b
    ensures g <= |Flat(parts)|
    ensures Flat(parts)[f..g] == parts[k][a..b]
  {
    BeforeNext(parts, k);
    FlatPrefix(parts, k + 1);
    var flat, upto := Flat(parts), Flat(parts[..k + 1]);
    assert flat[..|upto|] == upto;
    assert flat[f..g] == upto[f..g];
  }

  /** The end of the first part, from part k on, that ends after flat position f. */
  function PartEnd(parts: seq<Bytes>, k: nat, f: int): nat
    requires k <= |parts|
    decreases |parts| - k
  {
    if k == |parts| then Before(parts, k)
    else if f < Before(parts, k + 1) then Before(parts, k + 1)
    else PartEnd(parts, k + 1, f)
  }

  /** For a position inside part k, PartEnd is where part k ends. */
  lemma {:induction false} PartEndAt(parts: seq<Bytes>, j: nat, k: nat, f: int)
    requires j <= k < |parts|
    requires Before(parts, k) <= f < Before(parts, k) + |parts[k]|
    ensures PartEnd(parts, j, f) == Before(parts, k) + |parts[k]|
    decreases k - j
  {
    BeforeNext(parts, k);
    if j < k {
      BeforeMonotone(parts, j + 1, k);
      PartEndAt(parts, j + 1, k, f);
    }
  }

  lemma {:induction false} BeforeMonotone(parts: seq<Bytes>, j: nat, k: nat)
    requires j <= k <= |parts|
    ensures Before(parts, j) <= Before(parts, k)
    decreases k - j
  {
    if j < k {
      BeforeNext(parts, j);
      BeforeMonotone(parts, j + 1, k);
    }
  }

  lemma {:induction false} PartEndBounds(parts: seq<Bytes>, k: nat, f: int)
    requires k <= |parts| && f < |Flat(parts)|
    ensures f < PartEnd(parts, k, f) <= |Flat(parts)|
    decreases |parts| - k
  {
    if k == |parts| {
      assert parts[..k] == parts;
    } else {
      FlatPrefix(parts, k + 1);
      if Before(parts, k + 1) <= f {
        PartEndBounds(parts, k + 1, f);
      }
    }
  }
}
