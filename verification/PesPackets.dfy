/** Reading the fields of a PES packet as grab's Remuxer does. */
module PesPackets {

  import opened Bytes
  import opened Clock
  import opened Packs

  /** pes_size: a length field of zero stands for 65536. */
  function PesSize(p: seq<byte>): (n: nat)
    requires |p| >= 6
    ensures n > 6
  {
    var n := Int16(p[4], p[5]);
    6 + if n == 0 then 0x10000 else n
  }

  /** The whole packet is there, its header fits it, and so do the PTS bytes when they are flagged. */
  predicate WellFormed(p: seq<byte>) {
    && |p| >= 9 && PesSize(p) <= |p| && 9 + p[8] as int <= PesSize(p)
    && (p[7] >= 0x80 ==> |p| >= 14)
  }

  /** The elementary stream bytes of a packet. */
  function EsOf(p: seq<byte>): (es: seq<byte>)
    requires WellFormed(p)
  {
    p[9 + p[8] as int..PesSize(p)]
  }

  /** pes_pts: -1 when the packet has no time stamp. */
  function TimeOf(p: seq<byte>): (t: real)
    requires |p| >= 9 && (p[7] >= 0x80 ==> |p| >= 14)
  {
    if p[7] < 0x80 then -1.0 else Pts32(p[9..14]) as real
  }

  /** A PES packet with a time stamp in its header; `flags` is the byte that holds the marker bits. */
  function StampedPes(sid: byte, flags: byte, pts: nat, payload: seq<byte>): (p: seq<byte>)
    requires |payload| < 0xfff8
    ensures |p| == 14 + |payload|
  {
    [0x00, 0x00, 0x01, sid] + Length16(8 + |payload|) + [flags, 0x80, 0x05] + PtsBytes(pts) + payload
  }

  /** Such a packet is well formed and carries its payload and its time stamp. */
  lemma StampedPesReads(sid: byte, flags: byte, pts: nat, payload: seq<byte>)
    requires |payload| < 0xfff8
    ensures var p := StampedPes(sid, flags, pts, payload);
            && WellFormed(p) && PesSize(p) == |p| && p[3] == sid && p[6] == flags
            && EsOf(p) == payload && TimeOf(p) == (pts % POW32) as real
  {
    hide PtsBytes;
    hide Pts32;
    var p := StampedPes(sid, flags, pts, payload);
    var n := 8 + |payload|;
    Length16RoundTrip(n);
    assert p[4] == Length16(n)[0] && p[5] == Length16(n)[1];
    assert p[7] == 0x80 && p[8] == 5;
    assert p[9..14] == PtsBytes(pts);
    PtsRoundTrip(pts);
    assert p[14..] == payload;
  }
}
