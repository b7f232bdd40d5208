/** File names: the parts of a recording, and the free name for a new one. */
module Files {
  import opened Recording
  import opened Decimal

  type Directory = map<string, Bytes>

  /** The k-th part of a recording: the name itself, then "%s.%03d". */
  function PartName(name: string, k: nat): string {
    if k == 0 then name else name + "." + Padded(k, 3)
  }

  /** The name without the first ".ts" and what follows it. */
  function BaseName(name: string): string {
    BaseFrom(name, 0)
  }

  function BaseFrom(name: string, k: nat): string
    requires k <= |name|
    decreases |name| - k
  {
    if k + 3 > |name| then name
    else if name[k..k + 3] == ".ts" then name[..k]
    else BaseFrom(name, k + 1)
  }

  /** "%s_%d.ts" */
  function OutName(base: string, k: nat): string {
    base + "_" + Digits(k) + ".ts"
  }

  lemma SuffixEqual(a: string, s: string, t: string)
    requires a + s == a + t
    ensures s == t
  {
    assert s == (a + s)[|a|..] && t == (a + t)[|a|..];
  }

  lemma PartNamesDiffer(name: string, j: nat, k: nat)
    requires PartName(name, j) == PartName(name, k)
    ensures j == k
  {
    PaddedRead(j, 3);
    PaddedRead(k, 3);
    if j > 0 && k > 0 {
      assert name + "." + Padded(j, 3) == (name + ".") + Padded(j, 3);
      SuffixEqual(name + ".", Padded(j, 3), Padded(k, 3));
    }
  }

  lemma OutNamesDiffer(base: string, j: nat, k: nat)
    requires OutName(base, j) == OutName(base, k)
    ensures j == k
  {
    DigitsRead(j);
    DigitsRead(k);
    assert OutName(base, j) == (base + "_") + (Digits(j) + ".ts");
    assert OutName(base, k) == (base + "_") + (Digits(k) + ".ts");
    SuffixEqual(base + "_", Digits(j) + ".ts", Digits(k) + ".ts");
    assert Digits(j) == (Digits(j) + ".ts")[..|Digits(j)|] == (Digits(k) + ".ts")[..|Digits(k)|] == Digits(k);
  }

  /** An output name is never the name of a later part: it ends in a letter. */
  lemma OutIsNoPart(base: string, j: nat, name: string, k: nat)
    requires k > 0
    ensures OutName(base, j) != PartName(name, k)
  {
    PaddedRead(k, 3);
    var p := PartName(name, k);
    assert p[|p| - 1] == Padded(k, 3)[|Padded(k, 3)| - 1];
    assert OutName(base, j)[|OutName(base, j)| - 1] == 's';
  }

  ghost predicate Injective(f: nat -> string) {
    forall j, k :: f(j) == f(k) ==> j == k
  }

  function Used(f: nat -> string, k: nat): set<string> {
    set i: nat | i < k :: f(i)
  }

  /** The first number from k on whose name is not in use. */
  ghost function FirstFree(names: set<string>, f: nat -> string, k: nat): (n: nat)
    requires Injective(f)
    ensures k <= n && f(n) !in names
    ensures forall i: nat :: k <= i < n ==> f(i) in names
    decreases |names - Used(f, k)|
  {
    if f(k) !in names then k
    else
      assert names - Used(f, k + 1) < names - Used(f, k) by {
        assert f(k) in names - Used(f, k) && f(k) in Used(f, k + 1);
      }
      StrictlySmaller(names - Used(f, k + 1), names - Used(f, k));
      FirstFree(names, f, k + 1)
  }

  lemma StrictlySmaller(a: set<string>, b: set<string>)
    requires a < b
    ensures |a| < |b|
  {
    assert b == a + (b - a) && b - a != {};
  }

  function PartNames(name: string): nat -> string {
    (k: nat) => PartName(name, k)
  }

  function OutNames(base: string): nat -> string {
    (k: nat) => OutName(base, k)
  }

  lemma NamesInjective(name: string)
    ensures Injective(PartNames(name)) && Injective(OutNames(name))
  {
    forall j: nat, k: nat | PartNames(name)(j) == PartNames(name)(k) ensures j == k {
      PartNamesDiffer(name, j, k);
    }
    forall j: nat, k: nat | OutNames(name)(j) == OutNames(name)(k) ensures j == k {
      OutNamesDiffer(name, j, k);
    }
  }

  /** How many parts a recording has: they are numbered without a gap. */
  ghost function PartCount(files: Directory, name: string): (n: nat)
    ensures PartName(name, n) !in files
    ensures forall i: nat :: i < n ==> PartName(name, i) in files
  {
    NamesInjective(name);
    var n := FirstFree(files.Keys, PartNames(name), 0);
    assert PartNames(name)(n) == PartName(name, n);
    assert forall i: nat :: i < n ==> PartNames(name)(i) == PartName(name, i);
    n
  }

  ghost function PartsUpTo(files: Directory, name: string, n: nat): (parts: seq<Bytes>)
    requires forall i: nat :: i < n ==> PartName(name, i) in files
    ensures |parts| == n
    ensures forall i: nat :: i < n ==> parts[i] == files[PartName(name, i)]
  {
    seq(n, i requires 0 <= i < n => files[PartName(name, i)])
  }

  /** The recording a name stands for. */
  ghost function Parts(files: Directory, name: string): seq<Bytes> {
    PartsUpTo(files, name, PartCount(files, name))
  }

  /** The name find_new_part settles on. */
  ghost function NewName(files: Directory, base: string): (name: string)
    ensures name !in files
  {
    NamesInjective(base);
    OutName(base, FirstFree(files.Keys, OutNames(base), 0))
  }
}
