/** Finding the first packet that opens a group of pictures. */
module Gop {
  import opened Recording

  /** At `at` there is 00 00 01, with a byte behind it. */
  predicate StartCode(buf: Bytes, at: nat) {
    at + 3 < |buf| && buf[at] == 0 && buf[at + 1] == 0 && buf[at + 2] == 1
  }

  /** Where the payload of the packet at `at` starts: past the header and, when bit 5 of the
      fourth byte is set, past the adaptation field whose length the fifth byte gives. */
  function Payload(buf: Bytes, at: nat): nat
    requires at + PACKET <= |buf|
  {
    at + 4 + if buf[at + 3] & 0x20 != 0 then 1 + (buf[at + 4] as nat) else 0
  }

  /** The packet at `at` starts with the sync byte, opens a payload unit (bit 6 of the second
      byte), carries a video PES header, and holds the GOP start code 00 00 01 B8. */
  ghost predicate OpensGop(buf: Bytes, at: nat)
    requires at + PACKET <= |buf|
  {
    && buf[at] == 0x47
    && buf[at + 1] & 0x40 != 0
    && StartCode(buf, Payload(buf, at))
    && buf[Payload(buf, at) + 3] & 0xF0 == 0xE0
    && exists k :: Payload(buf, at) + 4 <= k < at + PACKET - 4 && GopCode(buf, k)
  }

  predicate GopCode(buf: Bytes, k: nat) {
    StartCode(buf, k) && buf[k + 3] == 0xB8
  }

  /** A video PES header: the start code 00 00 01 and a stream number from E0 to EF. */
  predicate VideoHeader(buf: Bytes, p: nat) {
    p + 4 <= |buf| && buf[p..p + 3] == [0, 0, 1] && 0xE0 <= buf[p + 3] <= 0xEF
  }

  /** A group of pictures begins at k: the four bytes 00 00 01 B8. */
  predicate GroupStart(buf: Bytes, k: nat) {
    k + 4 <= |buf| && buf[k..k + 4] == [0, 0, 1, 0xB8]
  }

  /** The packet at `at` carries a payload from byte p on. */
  predicate PayloadAt(buf: Bytes, at: nat, p: nat)
    requires at + PACKET <= |buf|
  {
    if buf[at + 3] & 0x20 == 0 then p == at + 4 else p == at + 5 + buf[at + 4] as nat
  }

  lemma VideoNumber(b: byte)
    ensures b & 0xF0 == 0xE0 <==> 0xE0 <= b <= 0xEF
  {
  }

  lemma CodesAre(buf: Bytes, k: nat)
    ensures StartCode(buf, k) && buf[k + 3] & 0xF0 == 0xE0 <==> VideoHeader(buf, k)
    ensures GopCode(buf, k) <==> GroupStart(buf, k)
  {
    if k + 3 < |buf| {
      VideoNumber(buf[k + 3]);
      assert buf[k..k + 3] == [buf[k], buf[k + 1], buf[k + 2]];
      assert buf[k..k + 4] == [buf[k], buf[k + 1], buf[k + 2], buf[k + 3]];
    }
  }

  /** What opens a group, told by the bytes themselves. */
  lemma OpensGopMeans(buf: Bytes, at: nat)
    requires at + PACKET <= |buf|
    ensures OpensGop(buf, at) <==>
            buf[at] == 0x47 && buf[at + 1] & 0x40 == 0x40 &&
            exists p: nat :: PayloadAt(buf, at, p) && VideoHeader(buf, p) && exists k: nat :: p + 4 <= k < at + 184 && GroupStart(buf, k)
  {
    var p := Payload(buf, at);
    assert PayloadAt(buf, at, p);
    CodesAre(buf, p);
    forall k: nat ensures GopCode(buf, k) <==> GroupStart(buf, k) {
      CodesAre(buf, k);
    }
  }

  method CheckPesStart(buf: Bytes, at: nat) returns (found: bool)
    requires at + PACKET <= |buf|
    ensures found <==> OpensGop(buf, at)
  {
    found := false;
    if buf[at] == 0x47 && buf[at + 1] & 0x40 != 0 {
      var pes := Payload(buf, at);
      if StartCode(buf, pes) && buf[pes + 3] & 0xF0 == 0xE0 {
        ghost var first := pes + 4;
        pes := pes + 4;
        while pes < at + PACKET - 4
          invariant first <= pes
          invariant forall k :: first <= k < pes ==> !GopCode(buf, k)
        {
          if GopCode(buf, pes) {
            return true;
          }
          pes := pes + 1;
        }
      }
    }
  }

  /** The offset of the first whole packet from packet j on that opens a GOP, or -1. */
  ghost function GopFrom(buf: Bytes, j: nat): (gop: int)
    ensures gop == -1 || 0 <= gop <= |buf| - PACKET
    decreases |buf| - 188 * j
  {
    if j >= |buf| / 188 then -1
    else if OpensGop(buf, 188 * j) then 188 * j
    else GopFrom(buf, j + 1)
  }

  ghost function GopOffset(buf: Bytes): (gop: int)
    ensures gop == -1 || 0 <= gop <= |buf| - PACKET
  {
    GopFrom(buf, 0)
  }

  /** A found offset is that of a whole packet that opens a GOP; no whole packet before it,
      or none at all when nothing was found, opens one. */
  lemma GopOffsetIsFirst(buf: Bytes)
    ensures var gop := GopOffset(buf);
      gop == -1 || gop % 188 == 0
    ensures var gop := GopOffset(buf); gop >= 0 ==> OpensGop(buf, gop)
    ensures forall k: nat :: 188 * k + PACKET <= |buf| && OpensGop(buf, 188 * k)
                             ==> 0 <= GopOffset(buf) <= 188 * k
  {
    GopFromIsFirst(buf, 0);
  }

  lemma {:induction false} GopFromIsFirst(buf: Bytes, j: nat)
    ensures var gop := GopFrom(buf, j);
      gop == -1 || (gop % 188 == 0 && 188 * j <= gop && OpensGop(buf, gop))
    ensures forall k: nat :: j <= k && 188 * k + PACKET <= |buf| && OpensGop(buf, 188 * k)
                             ==> 0 <= GopFrom(buf, j) <= 188 * k
    decreases |buf| - 188 * j
  {
    if j < |buf| / 188 && !OpensGop(buf, 188 * j) {
      GopFromIsFirst(buf, j + 1);
    }
  }

  /** How much of a chunk is dropped when it must start with a GOP. */
  ghost function GopTrim(chunk: Bytes): nat {
    Max(GopOffset(chunk), 0)
  }

  method FindGop(buf: Bytes) returns (gop: int)
    ensures gop == GopOffset(buf)
    ensures gop == -1 || gop % 188 == 0
  {
    var j := 0;
    while j < |buf| / 188
      invariant GopFrom(buf, 0) == GopFrom(buf, j)
    {
      var found := CheckPesStart(buf, 188 * j);
      if found {
        return 188 * j;
      }
      j := j + 1;
    }
    gop := -1;
  }

  /** Without a sync byte there is no GOP. */
  lemma NoSyncNoGop(buf: Bytes)
    requires forall k :: 0 <= k < |buf| ==> buf[k] != 0x47
    ensures GopOffset(buf) == -1
  {
    GopOffsetIsFirst(buf);
  }
}
