/**
 Finding PES packets in a byte stream that arrives in pieces (find_next_pes_packet), stated
 against a scanner that looks at the whole stream at once.
 */
module PesScanner {

  import opened Bytes
  import opened Packs
  import opened PesPackets

  /** What can be said about position `pos` of a stream of which `s` has been received. */
  datatype Verdict = Junk | Packet(len: nat) | NeedMore

  predicate StartsAt(s: seq<byte>, pos: nat) {
    pos + 3 <= |s| && s[pos] == 0 && s[pos + 1] == 0 && s[pos + 2] == 1
  }

  /** Private stream 2 and padding packets hold plain data; all others need the marker bits "10". */
  predicate HeaderOk(id: byte, flags: byte) {
    id == 0xbf || id == PADDING || 0x80 <= flags < 0xc0
  }

  function SizeAt(s: seq<byte>, pos: nat): (n: nat)
    requires pos + 6 <= |s|
    ensures n > 6
  {
    var n := Int16(s[pos + 4], s[pos + 5]);
    6 + if n == 0 then 0x10000 else n
  }

  function Look(s: seq<byte>, pos: nat): (v: Verdict)
    ensures v.Packet? ==> 6 < v.len && pos + v.len <= |s|
  {
    if pos + 4 > |s| then NeedMore
    else if !StartsAt(s, pos) then Junk
    else if pos + 6 > |s| || pos + SizeAt(s, pos) > |s| then NeedMore
    else if HeaderOk(s[pos + 3], s[pos + 6]) then Packet(SizeAt(s, pos))
    else Junk
  }

  ghost predicate Junks(s: seq<byte>, a: nat, b: nat) {
    forall q: nat :: a <= q < b ==> Look(s, q) == Junk
  }

  /** A packet's place in the stream. */
  datatype Span = Span(at: nat, len: nat)

  /** The one-shot scanner: every packet of `s` from `pos` on, as far as `s` tells. */
  ghost function ScanAll(s: seq<byte>, pos: nat): (r: seq<Span>)
    decreases |s| - pos
  {
    match Look(s, pos)
    case NeedMore => []
    case Junk => ScanAll(s, pos + 1)
    case Packet(n) => [Span(pos, n)] + ScanAll(s, pos + n)
  }

  /** From `a` a scanner gets to `b` by passing over junk and exactly the packets `ps`. */
  ghost predicate Walk(s: seq<byte>, a: nat, b: nat, ps: seq<Span>)
    decreases |ps|
  {
    if ps == [] then a <= b && Junks(s, a, b)
    else
      var p := ps[|ps| - 1];
      && Look(s, p.at) == Packet(p.len)
      && p.at + p.len <= b && Junks(s, p.at + p.len, b)
      && Walk(s, a, p.at, ps[..|ps| - 1])
  }

  // ------------------------------------------------------------------ lemmas

  /** Verdicts are final: more data never changes them. */
  lemma LookStable(s: seq<byte>, s': seq<byte>, pos: nat)
    requires s <= s' && Look(s, pos) != NeedMore
    ensures Look(s', pos) == Look(s, pos)
  {
  }

  lemma JunksStable(s: seq<byte>, s': seq<byte>, a: nat, b: nat)
    requires s <= s' && Junks(s, a, b)
    ensures Junks(s', a, b)
  {
    forall q: nat | a <= q < b ensures Look(s', q) == Junk {
      LookStable(s, s', q);
    }
  }

  lemma {:induction false} WalkStable(s: seq<byte>, s': seq<byte>, a: nat, b: nat, ps: seq<Span>)
    requires s <= s' && Walk(s, a, b, ps)
    ensures Walk(s', a, b, ps)
    decreases |ps|
  {
    hide Look;
    if ps == [] {
      JunksStable(s, s', a, b);
    } else {
      var p := ps[|ps| - 1];
      LookStable(s, s', p.at);
      JunksStable(s, s', p.at + p.len, b);
      WalkStable(s, s', a, p.at, ps[..|ps| - 1]);
    }
  }

  /** Looking into a part of the stream is looking into the stream. */
  lemma LookSuffix(s: seq<byte>, k: nat, pos: nat)
    requires k <= |s|
    ensures Look(s[k..], pos) == Look(s, k + pos)
  {
  }

  lemma {:induction false} JunksScan(s: seq<byte>, a: nat, b: nat)
    requires a <= b && Junks(s, a, b)
    ensures ScanAll(s, a) == ScanAll(s, b)
    decreases b - a
  {
    if a < b {
      JunksScan(s, a + 1, b);
    }
  }

  /** Whatever a walk has passed is the beginning of what the one-shot scanner finds. */
  lemma {:induction false} WalkScan(s: seq<byte>, a: nat, b: nat, ps: seq<Span>)
    requires Walk(s, a, b, ps)
    ensures ScanAll(s, a) == ps + ScanAll(s, b)
    decreases |ps|
  {
    hide Look;
    if ps == [] {
      JunksScan(s, a, b);
    } else {
      var k := |ps| - 1;
      var p := ps[k];
      WalkScan(s, a, p.at, ps[..k]);
      JunksScan(s, p.at + p.len, b);
      assert ps + ScanAll(s, b) == ps[..k] + ([p] + ScanAll(s, b));
    }
  }

  lemma WalkJunk(s: seq<byte>, a: nat, b: nat, c: nat, ps: seq<Span>)
    requires Walk(s, a, b, ps) && b <= c && Junks(s, b, c)
    ensures Walk(s, a, c, ps)
  {
    hide Look;
  }

  lemma WalkPacket(s: seq<byte>, a: nat, b: nat, n: nat, ps: seq<Span>)
    requires Walk(s, a, b, ps) && Look(s, b) == Packet(n)
    ensures Walk(s, a, b + n, ps + [Span(b, n)])
  {
    hide Look;
    assert (ps + [Span(b, n)])[..|ps|] == ps;
  }

  // ------------------------------------------------------------------ find_next_pes_packet

  /**
   The next packet in `data`, or length 0 and how much of `data` is junk for certain. After an
   invalid header the search goes on with a smaller idea of how much data there is, so it may
   stop early, but never wrongly.
   */
  method FindNextPesPacket(data: seq<byte>) returns (pesStart: nat, pesLen: nat)
    ensures pesStart + pesLen <= |data|
    ensures Junks(data, 0, pesStart)
    ensures pesLen > 0 ==> Look(data, pesStart) == Packet(pesLen)
    ensures pesLen == 0 && Look(data, pesStart) != NeedMore ==> exists q :: 0 <= q < pesStart && StartsAt(data, q)
  {
    pesStart, pesLen := 0, 0;
    var valid := |data|;
    while true
      invariant valid <= |data| && pesStart <= |data|
      invariant Junks(data, 0, pesStart)
      invariant valid == |data| || exists q :: 0 <= q < pesStart && StartsAt(data, q)
      decreases |data| - pesStart
    {
      if valid < 4 { return; }
      while pesStart < valid - 3 && !(data[pesStart] == 0 && data[pesStart + 1] == 0 && data[pesStart + 2] == 1)
        invariant pesStart <= |data| && Junks(data, 0, pesStart)
        invariant valid == |data| || exists q :: 0 <= q < pesStart && StartsAt(data, q)
      {
        pesStart := pesStart + 1;
      }
      if pesStart >= valid - 3 { return; }
      valid := valid - pesStart;
      if valid < 6 { return; }
      var packetLen := SizeAt(data, pesStart);
      if valid < packetLen { return; }
      var id := data[pesStart + 3];
      if id == 0xbf || id == PADDING {
        pesLen := packetLen;
        return;
      }
      if !(0x80 <= data[pesStart + 6] < 0xc0) {
        pesStart := pesStart + 1;
        assert StartsAt(data, pesStart - 1);
      } else {
        pesLen := packetLen;
        return;
      }
    }
  }
}
