/**
 The program stream that grab's Remuxer writes: PES packets in 2048-byte packs, and an
 independent demultiplexer for it (sections 2.4.3.6 and 2.5.3.3 of ISO/IEC 13818-1).
 */
module Packs {

  import opened Bytes
  import opened Clock
  import opened Options

  const PACK_SIZE := 2048
  const PADDING := 0xbe
  const PRIVATE_1 := 0xbd
  const MUX_RATE := 10080000 / 400

  /** A PES packet of the output. `opens` is the SCR of the pack that starts with this packet. */
  datatype Pes = Pes(sid: byte, pts: Option<nat>, stuffing: nat, es: seq<byte>, opens: Option<nat>)

  /** A pack: PES packets and at the end perhaps a padding packet of so many 0xff bytes. */
  datatype Pack = Pack(pes: seq<Pes>, padding: Option<nat>)

  /** What a demultiplexer delivers for one PES packet. */
  datatype Unit = Unit(sid: byte, pts: Option<nat>, es: seq<byte>)

  /** 0xbb is the id of a system header; 0xbe and 0xbf packets have no PES header. */
  predicate MediaId(sid: byte) {
    sid != 0xbb && sid != PADDING && sid != 0xbf
  }

  // ------------------------------------------------------------------ encoding

  function Length16(n: nat): (b: seq<byte>)
    requires n < 0x10000
    ensures |b| == 2
  {
    [n / 256, n % 256]
  }

  /** The extra header that AC3 data gets in private stream 1. */
  function Ac3Header(sid: byte): (b: seq<byte>) {
    if sid == PRIVATE_1 then [0x80, 0x02, 0x00, 0x01] else []
  }

  function HeaderData(p: Pes): (b: seq<byte>) {
    (if p.pts.Some? then PtsBytes(p.pts.value) else []) + Fill(0xff, p.stuffing)
  }

  function EncodedSize(p: Pes): nat {
    9 + |HeaderData(p)| + |Ac3Header(p.sid)| + |p.es|
  }

  predicate Encodable(p: Pes) {
    |HeaderData(p)| < 256 && EncodedSize(p) < 0x10000 && MediaId(p.sid)
  }

  function PesHeader(p: Pes): (b: seq<byte>)
    requires |HeaderData(p)| < 256 && EncodedSize(p) < 0x10000
    ensures |b| == 9
  {
    [0x00, 0x00, 0x01, p.sid] + Length16(EncodedSize(p) - 6)
    + [0x80, if p.pts.Some? then 0x80 else 0x00, |HeaderData(p)|]
  }

  function EncodePes(p: Pes): (b: seq<byte>)
    requires |HeaderData(p)| < 256 && EncodedSize(p) < 0x10000
    ensures |b| == EncodedSize(p)
  {
    PesHeader(p) + HeaderData(p) + Ac3Header(p.sid) + p.es
  }

  function EncodePadding(n: nat): (b: seq<byte>)
    requires n < 0x10000
    ensures |b| == 6 + n
  {
    [0x00, 0x00, 0x01, PADDING] + Length16(n) + Fill(0xff, n)
  }

  function PackHeader(scr: nat): (b: seq<byte>)
    ensures |b| == 14
  {
    [0x00, 0x00, 0x01, 0xba] + ScrBytes(scr) + RateBytes()
  }

  /** The multiplex rate in a pack header, and no stuffing. */
  function RateBytes(): (b: seq<byte>)
    ensures |b| == 4
  {
    [MUX_RATE / 0x4000 % 256, MUX_RATE / 0x40 % 256, 4 * (MUX_RATE % 0x40) + 3, 0x00]
  }

  // ------------------------------------------------------------------ an independent demultiplexer

  function Int16(hi: byte, lo: byte): (n: nat) {
    var h: nat, l: nat := hi, lo;
    256 * h + l
  }

  datatype Parsed = Bad | Skip(size: nat) | Data(unit: Unit, size: nat)

  /** The PES packet at the start of `s`. */
  function FirstPacket(s: seq<byte>): (r: Parsed)
    ensures !r.Bad? ==> 6 <= r.size <= |s|
  {
    if |s| < 6 || s[0] != 0 || s[1] != 0 || s[2] != 1 then Bad
    else
      var end := 6 + Int16(s[4], s[5]);
      if end > |s| then Bad
      else if s[3] == PADDING then Skip(end)
      else if end < 9 || !(0x80 <= s[6] < 0xc0) || 9 + s[8] as int > end then Bad
      else
        var body := 9 + s[8] as int;
        if s[7] >= 0x80 && s[8] < 5 then Bad
        else
          var pts := if s[7] >= 0x80 then Some(Pts33(s[9..14])) else None;
          if s[3] == PRIVATE_1 then
            if body + 4 > end then Bad else Data(Unit(s[3], pts, s[body + 4..end]), end)
          else Data(Unit(s[3], pts, s[body..end]), end)
  }

  function Demux(s: seq<byte>): (r: Option<seq<Unit>>)
    decreases |s|
  {
    if s == [] then Some([])
    else
      match FirstPacket(s)
      case Bad => None
      case Skip(n) => Demux(s[n..])
      case Data(u, n) =>
        match Demux(s[n..]) {
          case None => None
          case Some(us) => Some([u] + us)
        }
  }

  /** A pack holding a system header (0xbb) carries no elementary stream data. */
  predicate IsSystemPack(b: seq<byte>) {
    |b| >= 18 && b[14] == 0 && b[15] == 0 && b[16] == 1 && b[17] == 0xbb
  }

  function DemuxPack(b: seq<byte>): (r: Option<seq<Unit>>) {
    if |b| < 14 || b[0] != 0 || b[1] != 0 || b[2] != 1 || b[3] != 0xba || b[13] != 0 then None
    else if IsSystemPack(b) then Some([])
    else Demux(b[14..])
  }

  /** All the units of a list of packs. */
  function DemuxAll(packs: seq<seq<byte>>): (r: Option<seq<Unit>>) {
    if packs == [] then Some([])
    else
      var k := |packs| - 1;
      match (DemuxAll(packs[..k]), DemuxPack(packs[k]))
      case (Some(us), Some(vs)) => Some(us + vs)
      case _ => None
  }

  /** The elementary stream of one stream id. */
  function Stream(units: seq<Unit>, sid: byte): (es: seq<byte>) {
    if units == [] then []
    else
      var u := units[|units| - 1];
      Stream(units[..|units| - 1], sid) + if u.sid == sid then u.es else []
  }

  // ------------------------------------------------------------------ what was encoded is what is delivered

  function UnitOf(p: Pes): Unit {
    Unit(p.sid, if p.pts.Some? then Some(p.pts.value % POW33) else None, p.es)
  }

  function UnitsOf(ps: seq<Pes>): (us: seq<Unit>)
    ensures |us| == |ps|
  {
    seq(|ps|, i requires 0 <= i < |ps| => UnitOf(ps[i]))
  }

  predicate AllEncodable(ps: seq<Pes>) {
    forall p :: p in ps ==> Encodable(p)
  }

  function EncodeAll(ps: seq<Pes>): (b: seq<byte>)
    requires AllEncodable(ps)
  {
    if ps == [] then []
    else
      var k := |ps| - 1;
      assert ps[k] in ps;
      EncodeAll(ps[..k]) + EncodePes(ps[k])
  }

  lemma Length16RoundTrip(n: nat)
    requires n < 0x10000
    ensures Int16(Length16(n)[0], Length16(n)[1]) == n
  {
  }

  /** The fixed fields of an encoded packet, wherever more bytes follow. */
  lemma HeaderFields(p: Pes, rest: seq<byte>)
    requires Encodable(p)
    ensures var s := EncodePes(p) + rest;
            && s[0] == 0 && s[1] == 0 && s[2] == 1 && s[3] == p.sid
            && 6 + Int16(s[4], s[5]) == EncodedSize(p)
            && s[6] == 0x80 && s[7] == (if p.pts.Some? then 0x80 else 0) && s[8] == |HeaderData(p)|
  {
    hide HeaderData;
    hide Ac3Header;
    var s := EncodePes(p) + rest;
    var h := PesHeader(p);
    assert s[..9] == h;
    Length16RoundTrip(EncodedSize(p) - 6);
    assert h[4] == Length16(EncodedSize(p) - 6)[0] && h[5] == Length16(EncodedSize(p) - 6)[1];
  }

  /** The parts behind the fixed header. */
  lemma BodyFields(p: Pes, rest: seq<byte>)
    requires Encodable(p)
    ensures var s := EncodePes(p) + rest;
            var body := 9 + |HeaderData(p)|;
            && (p.pts.Some? ==> s[9..14] == PtsBytes(p.pts.value) && |HeaderData(p)| >= 5)
            && s[body + |Ac3Header(p.sid)|..EncodedSize(p)] == p.es
  {
    hide PesHeader;
    hide PtsBytes;
    var s := EncodePes(p) + rest;
    if p.pts.Some? {
      assert s[9..14] == HeaderData(p)[..5];
    }
    assert s == (PesHeader(p) + HeaderData(p) + Ac3Header(p.sid)) + (p.es + rest);
  }

  lemma FirstPacketOfEncoded(p: Pes, rest: seq<byte>)
    requires Encodable(p)
    ensures FirstPacket(EncodePes(p) + rest) == Data(UnitOf(p), EncodedSize(p))
  {
    HeaderFields(p, rest);
    BodyFields(p, rest);
    if p.pts.Some? {
      PtsRoundTrip(p.pts.value);
    }
    hide EncodePes;
    hide PtsBytes;
    hide Pts33;
    hide HeaderData;
  }

  lemma EncodeAllSnoc(ps: seq<Pes>, p: Pes)
    requires AllEncodable(ps) && Encodable(p)
    ensures AllEncodable(ps + [p])
    ensures EncodeAll(ps + [p]) == EncodeAll(ps) + EncodePes(p)
  {
    assert (ps + [p])[..|ps|] == ps;
  }

  lemma DemuxData(p: Pes, rest: seq<byte>)
    requires Encodable(p) && Demux(rest).Some?
    ensures Demux(EncodePes(p) + rest) == Some([UnitOf(p)] + Demux(rest).value)
  {
    hide FirstPacket;
    hide EncodePes;
    FirstPacketOfEncoded(p, rest);
    assert (EncodePes(p) + rest)[EncodedSize(p)..] == rest;
  }

  /** Demultiplexing encoded packets delivers them, followed by whatever follows. */
  lemma {:induction false} DemuxEncoded(ps: seq<Pes>, rest: seq<byte>)
    requires AllEncodable(ps) && Demux(rest).Some?
    ensures Demux(EncodeAll(ps) + rest) == Some(UnitsOf(ps) + Demux(rest).value)
    decreases |ps|
  {
    hide Demux;
    hide EncodePes;
    hide HeaderData;
    hide Ac3Header;
    hide UnitOf;
    if ps == [] {
      assert EncodeAll(ps) + rest == rest;
      assert UnitsOf(ps) + Demux(rest).value == Demux(rest).value;
    } else {
      var k := |ps| - 1;
      assert ps[k] in ps;
      DemuxData(ps[k], rest);
      DemuxEncoded(ps[..k], EncodePes(ps[k]) + rest);
      assert EncodeAll(ps) + rest == EncodeAll(ps[..k]) + (EncodePes(ps[k]) + rest);
      assert UnitsOf(ps) + Demux(rest).value == UnitsOf(ps[..k]) + ([UnitOf(ps[k])] + Demux(rest).value);
    }
  }

  lemma DemuxPadding(n: nat)
    requires n < 0x10000
    ensures Demux(EncodePadding(n)) == Some([])
  {
    var s := EncodePadding(n);
    Length16RoundTrip(n);
    assert s[4] == Length16(n)[0] && s[5] == Length16(n)[1];
    assert FirstPacket(s) == Skip(6 + n);
    assert s[6 + n..] == [];
  }

  // ------------------------------------------------------------------ whole packs

  predicate PackOk(p: Pack) {
    && p.pes != [] && AllEncodable(p.pes) && p.pes[0].opens.Some?
    && (p.padding.Some? ==> p.padding.value < 0x10000)
  }

  function EncodePack(p: Pack): (b: seq<byte>)
    requires PackOk(p)
    ensures |b| >= 14
  {
    PackHeader(p.pes[0].opens.value) + EncodeAll(p.pes)
    + if p.padding.Some? then EncodePadding(p.padding.value) else []
  }

  /** A packet list starts with its first packet's start code. */
  lemma {:induction false} EncodeAllStarts(ps: seq<Pes>)
    requires AllEncodable(ps) && ps != []
    ensures |EncodeAll(ps)| >= 9 && EncodeAll(ps)[3] == ps[0].sid
    decreases |ps|
  {
    var k := |ps| - 1;
    assert ps[k] in ps;
    if k == 0 {
      HeaderFields(ps[0], []);
      assert EncodeAll(ps) == EncodePes(ps[0]) == EncodePes(ps[0]) + [];
    } else {
      EncodeAllStarts(ps[..k]);
    }
  }

  /** Every pack demultiplexes to exactly the packets it was built from. */
  lemma DemuxEncodedPack(p: Pack)
    requires PackOk(p)
    ensures DemuxPack(EncodePack(p)) == Some(UnitsOf(p.pes))
  {
    hide EncodeAll;
    hide EncodePadding;
    hide Demux;
    hide ScrBytes;
    hide UnitsOf;
    var b := EncodePack(p);
    var tail := if p.padding.Some? then EncodePadding(p.padding.value) else [];
    EncodeAllStarts(p.pes);
    assert p.pes[0] in p.pes;
    assert b[14..] == EncodeAll(p.pes) + tail;
    assert b[17] == EncodeAll(p.pes)[3];
    DemuxTail(p);
    DemuxEncoded(p.pes, tail);
    assert UnitsOf(p.pes) + [] == UnitsOf(p.pes);
  }

  lemma DemuxTail(p: Pack)
    requires PackOk(p)
    ensures Demux(if p.padding.Some? then EncodePadding(p.padding.value) else []) == Some([])
  {
    if p.padding.Some? {
      DemuxPadding(p.padding.value);
    }
  }

  lemma {:induction false} StreamAppend(a: seq<Unit>, b: seq<Unit>, sid: byte)
    ensures Stream(a + b, sid) == Stream(a, sid) + Stream(b, sid)
    decreases |b|
  {
    if b == [] {
      assert a + b == a;
    } else {
      var k := |b| - 1;
      StreamAppend(a, b[..k], sid);
      assert (a + b)[..|a + b| - 1] == a + b[..k];
    }
  }
}
