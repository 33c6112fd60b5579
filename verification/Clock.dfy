/**
 Time stamps of MPEG-2 program streams: the PTS of a PES header and the SCR of a pack header
 (sections 2.4.3.7 and 2.5.3.4 of ISO/IEC 13818-1) as grab and ggrab write and read them, and
 the difference of two wrapping time stamps. Masks and shifts are written as quotients and
 remainders of powers of two.
 */
module Clock {

  import opened Bytes
  import opened Arithmetic

  const POW32 := 0x1_0000_0000
  const POW33 := 0x2_0000_0000

  // ------------------------------------------------------------------ PTS

  /** Bytes 9..13 of a PES header as set_pes_pts and write_pes_in_pp fill them. */
  function PtsBytes(t: nat): (p: seq<byte>)
    ensures |p| == 5
  {
    [0x21 + 2 * (t / 0x4000_0000 % 8),
     t / 0x40_0000 % 256,
     1 + 2 * (t / 0x8000 % 128),
     t / 0x80 % 256,
     1 + 2 * (t % 128)]
  }

  /** The same bytes as ggrab's fill_pes_pts fills them: the last one is shifted the wrong way. */
  function LossyPtsBytes(t: nat): (p: seq<byte>)
    ensures |p| == 5
  {
    PtsBytes(t)[..4] + [1 + 2 * (t % 128 / 4)]
  }

  /** grab's pes_pts on those bytes: bit 32 is looked at but not returned. */
  function Pts32(p: seq<byte>): (t: nat)
    requires |p| == 5
  {
    var a: nat, b: nat, c: nat, d: nat, e: nat := p[0], p[1], p[2], p[3], p[4];
    a / 2 % 4 * 0x4000_0000 + b * 0x40_0000 + c / 2 * 0x8000 + d * 0x80 + e / 2
  }

  /** ggrab's pes_pts on those bytes. */
  function Pts33(p: seq<byte>): (t: nat)
    requires |p| == 5
  {
    var a: nat := p[0];
    a / 8 % 2 * POW32 + Pts32(p)
  }

  /** The fields of a PTS put a 33-bit value back together. */
  lemma PtsFields(t: nat)
    ensures t % POW32 == t / 0x4000_0000 % 4 * 0x4000_0000 + t / 0x40_0000 % 256 * 0x40_0000
                         + t / 0x8000 % 128 * 0x8000 + t / 0x80 % 256 * 0x80 + t % 128
  {
    var a := t / 0x80;
    var b := a / 256;
    var c := b / 128;
    var d := c / 256;
    DivDiv(t, 0x80, 256, 0x8000);
    DivDiv(t, 0x8000, 128, 0x40_0000);
    DivDiv(t, 0x40_0000, 256, 0x4000_0000);
    DivUnique(t, POW32, d / 4, d % 4 * 0x4000_0000 + c % 256 * 0x40_0000 + b % 128 * 0x8000 + a % 256 * 0x80 + t % 128);
  }

  /** grab reads back every PTS it writes modulo 2^32, ggrab's reader all 33 bits of it. */
  lemma PtsRoundTrip(t: nat)
    ensures Pts32(PtsBytes(t)) == t % POW32
    ensures Pts33(PtsBytes(t)) == t % POW33
  {
    PtsFields(t);
    PtsTop(t);
  }

  lemma PtsTopByte(d: nat)
    ensures (0x21 + 2 * (d % 8)) / 2 % 4 == d % 4
    ensures (0x21 + 2 * (d % 8)) / 8 % 2 == d / 4 % 2
  {
    var e := d % 8;
    assert (0x21 + 2 * e) / 8 == 4 + e / 4;
    DivUnique(d, 4, 2 * (d / 8) + e / 4, e % 4);
  }

  lemma PtsTop(t: nat)
    ensures var p: nat := PtsBytes(t)[0];
            && p / 2 % 4 == t / 0x4000_0000 % 4
            && p / 8 % 2 * POW32 + t % POW32 == t % POW33
  {
    DivDiv(t, 0x4000_0000, 4, POW32);
    PtsTopByte(t / 0x4000_0000);
    var e := t / POW32;
    DivUnique(t, POW33, e / 2, e % 2 * POW32 + t % POW32);
  }

  /**
   ggrab's writer loses between 0 and 96 ticks; it is exact if and only if the time stamp is a
   multiple of 128.
   */
  lemma LossyPtsLoss(t: nat)
    requires t < POW33
    ensures Pts33(LossyPtsBytes(t)) == t - (t % 128 - t % 128 / 4)
    ensures 0 <= t - Pts33(LossyPtsBytes(t)) <= 96
    ensures Pts33(LossyPtsBytes(t)) == t <==> t % 128 == 0
  {
    PtsRoundTrip(t);
    DivUnique(t, POW33, 0, t);
    PtsLastByte(PtsBytes(t), 1 + 2 * (t % 128 / 4));
    hide Pts33;
  }

  lemma PtsLastByte(p: seq<byte>, last: byte)
    requires |p| == 5
    ensures Pts33(p[..4] + [last]) == Pts33(p) - p[4] / 2 + last / 2
  {
  }

  // ------------------------------------------------------------------ SCR

  /** Bytes 4..9 of a pack header as fill_pp_scr and write_pes_in_pp fill them. */
  function ScrBytes(t: nat): (p: seq<byte>)
    ensures |p| == 6
  {
    [0x44 + 8 * (t / 0x4000_0000 % 8) + t / 0x1000_0000 % 4,
     t / 0x10_0000 % 256,
     4 + 8 * (t / 0x8000 % 32) + t / 0x2000 % 4,
     t / 0x20 % 256,
     4 + 8 * (t % 32),
     1]
  }

  /** ggrab's clock_ref on those bytes, in 32-bit arithmetic. */
  function ClockRef(p: seq<byte>): (t: nat)
    requires |p| == 6
  {
    var a: nat, b: nat, c: nat, d: nat, e: nat := p[0], p[1], p[2], p[3], p[4];
    (e / 8 % 32 + d * 0x20 + c % 4 * 0x2000 + c / 8 % 32 * 0x8000 + b * 0x10_0000
     + a % 4 * 0x1000_0000 + a / 8 % 4 * 0x4000_0000) % POW32
  }

  lemma ScrFields(t: nat)
    ensures t % POW32 == t % 32 + t / 0x20 % 256 * 0x20 + t / 0x2000 % 4 * 0x2000 + t / 0x8000 % 32 * 0x8000
                         + t / 0x10_0000 % 256 * 0x10_0000 + t / 0x1000_0000 % 4 * 0x1000_0000
                         + t / 0x4000_0000 % 4 * 0x4000_0000
  {
    var a := t / 0x20;
    var b := a / 256;
    var c := b / 4;
    var d := c / 32;
    var e := d / 256;
    var f := e / 4;
    DivDiv(t, 0x20, 256, 0x2000);
    DivDiv(t, 0x2000, 4, 0x8000);
    DivDiv(t, 0x8000, 32, 0x10_0000);
    DivDiv(t, 0x10_0000, 256, 0x1000_0000);
    DivDiv(t, 0x1000_0000, 4, 0x4000_0000);
    DivUnique(t, POW32, f / 4,
              t % 32 + a % 256 * 0x20 + b % 4 * 0x2000 + c % 32 * 0x8000 + d % 256 * 0x10_0000
              + e % 4 * 0x1000_0000 + f % 4 * 0x4000_0000);
  }

  /** clock_ref takes the pack header's bit fields apart again. */
  lemma ClockRefOfFields(f: nat, e: nat, d: byte, c: nat, b: nat, a: byte, z: nat)
    requires f < 8 && e < 4 && c < 32 && b < 4 && z < 32
    ensures ClockRef([0x44 + 8 * f + e, d, 4 + 8 * c + b, a, 4 + 8 * z, 1])
            == z + a as int * 0x20 + b * 0x2000 + c * 0x8000 + d as int * 0x10_0000 + e * 0x1000_0000
            + f % 4 * 0x4000_0000
  {
    TopField(f, e);
    LowField(c, b);
    LowField(z, 0);
    var a': nat, d': nat := a, d;
    var t := z + a' * 0x20 + b * 0x2000 + c * 0x8000 + d' * 0x10_0000 + e * 0x1000_0000 + f % 4 * 0x4000_0000;
    DivUnique(t, POW32, 0, t);
  }

  lemma TopField(f: nat, e: nat)
    requires f < 8 && e < 4
    ensures (0x44 + 8 * f + e) % 4 == e && (0x44 + 8 * f + e) / 8 % 4 == f % 4
  {
    TakeApart(0x44, f, e);
  }

  lemma LowField(c: nat, b: nat)
    requires c < 32 && b < 4
    ensures (4 + 8 * c + b) % 4 == b && (4 + 8 * c + b) / 8 % 32 == c
  {
    TakeApart(4, c, b);
  }

  lemma ModMod(d: nat)
    ensures d % 8 % 4 == d % 4
  {
  }

  /** Reading back an SCR gives the written value modulo 2^32. */
  lemma ScrRoundTrip(t: nat)
    ensures ClockRef(ScrBytes(t)) == t % POW32
  {
    hide ClockRef;
    ScrFields(t);
    ModMod(t / 0x4000_0000);
    ClockRefOfFields(t / 0x4000_0000 % 8, t / 0x1000_0000 % 4, t / 0x10_0000 % 256, t / 0x8000 % 32,
                     t / 0x2000 % 4, t / 0x20 % 256, t % 32);
  }

  // ------------------------------------------------------------------ differences of wrapping clocks

  function Abs(x: real): real {
    if x < 0.0 then -x else x
  }

  /** pts_diff: l - r, guessing a wrap at 2^33 or 2^32 when the two are far apart. */
  function PtsDiff(l: real, r: real): real {
    if l < 0.0 || r < 0.0 then -1.0
    else if Abs(l - r) < 2147483648.0 then l - r
    else if l > r then
      (if l > 6442450944.0 then l - 8589934592.0 else if l > 2147483648.0 then l - 4294967296.0 else l) - r
    else
      l - (if r > 6442450944.0 then r - 8589934592.0 else if r > 2147483648.0 then r - 4294967296.0 else r)
  }

  lemma PtsDiffAntisymmetric(l: real, r: real)
    requires l >= 0.0 && r >= 0.0
    ensures PtsDiff(l, r) == -PtsDiff(r, l)
  {
  }

  /**
   Two readings of a clock that wraps at 2^32, up to half a lap beyond the wrap, that stand for
   times less than 2^31 apart: their difference is the difference of the times.
   */
  lemma PtsDiffAcrossWrap32(l: real, r: real, d: real, k: int)
    requires 0.0 <= l <= 6442450944.0 && 0.0 <= r <= 6442450944.0
    requires -2147483648.0 < d < 2147483648.0
    requires l - r == d + 4294967296.0 * k as real
    ensures PtsDiff(l, r) == d
  {
    assert -2.0 < k as real < 2.0;
    assert k == -1 || k == 0 || k == 1;
  }

  /** The same for a clock that wraps at 2^33. */
  lemma PtsDiffAcrossWrap33(l: real, r: real, d: real, k: int)
    requires 0.0 <= l < 8589934592.0 && 0.0 <= r < 8589934592.0
    requires -2147483648.0 < d < 2147483648.0
    requires l - r == d + 8589934592.0 * k as real
    ensures PtsDiff(l, r) == d
  {
    assert -2.0 < k as real < 2.0;
    assert k == -1 || k == 0 || k == 1;
  }
}
