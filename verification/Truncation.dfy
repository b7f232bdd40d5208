/** What truncating must leave: the parts of a prefix of the recording. */
module Truncation {
  import opened Recording
  import opened Files

  /** The part in which byte `cut` lies, and the offset there; no part when it lies behind. */
  function CutPart(parts: seq<Bytes>, cut: int, k: nat): nat
    requires k <= |parts|
    ensures k <= CutPart(parts, cut, k) <= |parts|
    decreases |parts| - k
  {
    if k == |parts| || cut < |parts[k]| then k else CutPart(parts, cut - |parts[k]|, k + 1)
  }

  function CutOffset(parts: seq<Bytes>, cut: int, k: nat): int
    requires k <= |parts|
    decreases |parts| - k
  {
    if k == |parts| || cut < |parts[k]| then cut else CutOffset(parts, cut - |parts[k]|, k + 1)
  }

  lemma {:induction false} CutPlace(parts: seq<Bytes>, cut: int, k: nat)
    requires k <= |parts| && 0 <= cut
    ensures var p := CutPart(parts, cut, k); var o := CutOffset(parts, cut, k);
            && 0 <= o && Before(parts, p) + o == Before(parts, k) + cut
            && (p < |parts| ==> o < |parts[p]|)
            && (p < |parts| <==> Before(parts, k) + cut < |Flat(parts)|)
    decreases |parts| - k
  {
    if k == |parts| {
      assert parts[..k] == parts;
    } else {
      BeforeNext(parts, k);
      FlatPrefix(parts, k + 1);
      if cut >= |parts[k]| {
        CutPlace(parts, cut - |parts[k]|, k + 1);
      }
    }
  }

  /** The parts that remain when part p is cut to its first o bytes and all later ones go. */
  function CutShort(parts: seq<Bytes>, p: nat, o: nat): seq<Bytes>
    requires p < |parts| && o <= |parts[p]|
  {
    parts[..p] + [parts[p][..o]]
  }

  lemma ShortenedIsPrefix(parts: seq<Bytes>, p: nat, o: nat)
    requires p < |parts| && o <= |parts[p]|
    ensures Before(parts, p) + o <= |Flat(parts)|
    ensures Flat(CutShort(parts, p, o)) == Flat(parts)[..Before(parts, p) + o]
  {
    var r := CutShort(parts, p, o);
    assert r[..|r| - 1] == parts[..p] && r[|r| - 1] == parts[p][..o];
    var f := Before(parts, p);
    FlatPrefix(parts, p);
    FlatSlice(parts, p, 0, o, f, f + o);
    assert parts[p][..o] == parts[p][0..o];
    assert Flat(parts)[..f] == Flat(parts[..p]);
    assert Flat(parts)[..f + o] == Flat(parts)[..f] + Flat(parts)[f..f + o];
  }

  /** The names of parts lo to hi - 1. */
  function PartsBetween(name: string, lo: nat, hi: nat): set<string> {
    set i: nat | lo <= i < hi :: PartName(name, i)
  }

  lemma PartCountIs(files: Directory, name: string, n: nat)
    requires PartName(name, n) !in files
    requires forall i: nat :: i < n ==> PartName(name, i) in files
    ensures PartCount(files, name) == n
  {
  }

  lemma NotBetween(name: string, lo: nat, hi: nat, k: nat)
    requires k < lo || hi <= k
    ensures PartName(name, k) !in PartsBetween(name, lo, hi)
  {
    if PartName(name, k) in PartsBetween(name, lo, hi) {
      var i: nat :| lo <= i < hi && PartName(name, i) == PartName(name, k);
      PartNamesDiffer(name, i, k);
    }
  }

  /** The directory after unlinking the parts behind p and cutting part p to o bytes. */
  function Cut(files: Directory, name: string, n: nat, p: nat, o: nat): Directory
    requires PartName(name, p) in files && o <= |files[PartName(name, p)]|
  {
    (files - PartsBetween(name, p + 1, n))[PartName(name, p) := files[PartName(name, p)][..o]]
  }

  lemma PartStays(files: Directory, name: string, n: nat, p: nat, o: nat, i: nat)
    requires i <= p && PartName(name, i) in files
    requires PartName(name, p) in files && o <= |files[PartName(name, p)]|
    ensures PartName(name, i) in Cut(files, name, n, p, o)
    ensures i < p ==> Cut(files, name, n, p, o)[PartName(name, i)] == files[PartName(name, i)]
  {
    NotBetween(name, p + 1, n, i);
    if PartName(name, i) == PartName(name, p) {
      PartNamesDiffer(name, i, p);
    }
  }

  lemma NextPartGone(files: Directory, name: string, p: nat, o: nat)
    requires p < PartCount(files, name) && o <= |files[PartName(name, p)]|
    ensures PartName(name, p + 1) !in Cut(files, name, PartCount(files, name), p, o)
  {
    var n := PartCount(files, name);
    if p + 1 < n {
      assert PartName(name, p + 1) in PartsBetween(name, p + 1, n);
    }
    if PartName(name, p + 1) == PartName(name, p) {
      PartNamesDiffer(name, p + 1, p);
    }
  }

  /** The parts of a directory, told one by one. */
  lemma PartsAre(files: Directory, name: string, parts: seq<Bytes>)
    requires PartName(name, |parts|) !in files
    requires forall i: nat :: i < |parts| ==> PartName(name, i) in files && files[PartName(name, i)] == parts[i]
    ensures Parts(files, name) == parts
  {
    PartCountIs(files, name, |parts|);
  }

  lemma CutParts(files: Directory, name: string, p: nat, o: nat)
    requires p < PartCount(files, name)
    requires o <= |files[PartName(name, p)]|
    ensures Parts(Cut(files, name, PartCount(files, name), p, o), name) == CutShort(Parts(files, name), p, o)
  {
    var n := PartCount(files, name);
    var after, short := Cut(files, name, n, p, o), CutShort(Parts(files, name), p, o);
    NextPartGone(files, name, p, o);
    forall i: nat | i < |short|
      ensures PartName(name, i) in after && after[PartName(name, i)] == short[i]
    {
      PartStays(files, name, n, p, o, i);
    }
    PartsAre(after, name, short);
  }

  /** The loop over the parts: the files `was` at the start, `now` after looking at the parts
      before `part`; rest is the cut's offset counted from the part under inspection, or, once
      found, the offset in part tpart. */
  ghost predicate Truncating(was: Directory, now: Directory, name: string, cut: nat,
                             part: nat, tpart: nat, found: bool, rest: int)
  {
    var parts := Parts(was, name);
    var p, o := CutPart(parts, cut, 0), CutOffset(parts, cut, 0);
    && part <= PartCount(was, name)
    && (if found then tpart == p < part && rest == o && now == was - PartsBetween(name, p + 1, part)
        else now == was && p == CutPart(parts, rest, part) && o == CutOffset(parts, rest, part))
  }

  lemma PartStillThere(was: Directory, now: Directory, name: string, cut: nat,
                       part: nat, tpart: nat, found: bool, rest: int)
    requires Truncating(was, now, name, cut, part, tpart, found, rest)
    ensures PartName(name, part) in now <==> part < PartCount(was, name)
    ensures part < PartCount(was, name) ==> now[PartName(name, part)] == Parts(was, name)[part]
  {
    if found {
      NotBetween(name, tpart + 1, part, part);
    }
  }

  lemma UnlinkStep(was: Directory, name: string, lo: nat, part: nat)
    requires lo <= part
    ensures was - PartsBetween(name, lo, part) - {PartName(name, part)} == was - PartsBetween(name, lo, part + 1)
  {
    assert PartsBetween(name, lo, part + 1) == PartsBetween(name, lo, part) + {PartName(name, part)};
  }

  lemma TruncateStep(was: Directory, now: Directory, name: string, cut: nat,
                     part: nat, tpart: nat, found: bool, rest: int, now': Directory, found': bool, tpart': nat, rest': int)
    requires Truncating(was, now, name, cut, part, tpart, found, rest) && part < PartCount(was, name)
    requires if found then now' == now - {PartName(name, part)} && found' && tpart' == tpart && rest' == rest
             else if rest < |Parts(was, name)[part]| then now' == now && found' && tpart' == part && rest' == rest
             else now' == now && !found' && rest' == rest - |Parts(was, name)[part]|
    ensures Truncating(was, now', name, cut, part + 1, tpart', found', rest')
  {
    if found {
      UnlinkStep(was, name, tpart + 1, part);
    } else {
      assert PartsBetween(name, part + 1, part + 1) == {};
      assert was - {} == was;
    }
  }

  /** Of the files of before only parts are gone or changed, and no other file is there. */
  ghost predicate OnlyParts(was: Directory, now: Directory, name: string) {
    && now.Keys <= was.Keys
    && forall f :: f in was && !(exists i: nat :: f == PartName(name, i)) ==> f in now && now[f] == was[f]
  }

  lemma PartsThere(files: Directory, name: string)
    requires Parts(files, name) != []
    ensures name in files
  {
    assert PartName(name, 0) == name;
  }

  lemma TruncateLeaves(was: Directory, now: Directory, name: string, cut: nat, tpart: nat, rest: int)
    requires Truncating(was, now, name, cut, PartCount(was, name), tpart, true, rest)
    requires PartName(name, tpart) in now && 0 <= rest <= |now[PartName(name, tpart)]|
    ensures OnlyParts(was, now[PartName(name, tpart) := now[PartName(name, tpart)][..rest]], name)
  {
  }

  /** What the final truncate(2) leaves. */
  lemma TruncateDone(was: Directory, now: Directory, name: string, cut: nat, tpart: nat, rest: int)
    requires Truncating(was, now, name, cut, PartCount(was, name), tpart, true, rest)
    ensures cut < |Flat(Parts(was, name))| && rest >= 0
    ensures PartName(name, tpart) in now && rest <= |now[PartName(name, tpart)]|
    ensures var after := now[PartName(name, tpart) := now[PartName(name, tpart)][..rest]];
            var before, left := Parts(was, name), Parts(after, name);
      && tpart < |before| && rest <= |before[tpart]| && left == CutShort(before, tpart, rest)
      && Flat(left) == Flat(before)[..cut]
      && name in after && OnlyParts(was, after, name)
  {
    var parts := Parts(was, name);
    CutPlace(parts, cut, 0);
    assert parts[..0] == [];
    NotBetween(name, tpart + 1, PartCount(was, name), tpart);
    CutParts(was, name, tpart, rest);
    ShortenedIsPrefix(parts, tpart, rest);
    TruncateLeaves(was, now, name, cut, tpart, rest);
    PartsThere(now[PartName(name, tpart) := now[PartName(name, tpart)][..rest]], name);
  }

  /** If no part holds the cut, it lies at or behind the end. */
  lemma NothingToTruncate(was: Directory, now: Directory, name: string, cut: nat, tpart: nat, rest: int)
    requires Truncating(was, now, name, cut, PartCount(was, name), tpart, false, rest)
    ensures now == was && |Flat(Parts(was, name))| <= cut
  {
    CutPlace(Parts(was, name), cut, 0);
    assert Parts(was, name)[..0] == [];
  }
}
