/**
 write_pes_in_pp and flush_pp of grab's Remuxer: cutting PES packets into 2048-byte packs,
 with stuffing when a packet nearly fills its pack and padding when a pack is flushed.
 */
module PackWriter {

  import opened Bytes
  import opened Clock
  import opened Options
  import opened Packs
  import opened PesPackets

  const SCR_PLAY_OFFSET := 8000 + 19000

  /** Every packet leaves its pack either full or with at least this much room. */
  const MIN_ROOM := 20

  /** Conversion of a double to an unsigned integer; what C leaves undefined is taken as 0. */
  function Ticks(x: real): nat {
    if x < 0.0 then 0 else x.Floor
  }

  /** The parameters of one call of write_pes_in_pp, and the clocks it reads. */
  datatype Call = Call(sid: byte, time: real, size: nat, stamp: bool, stampAll: bool,
                       pesDuration: real, scr: real, scrDuration: real, start: real, playtime: real)

  function CallOf(pes: seq<byte>, scr: real, stamp: bool, stampAll: bool, pesDuration: real, scrDuration: real,
                  start: real, playtime: real): (c: Call)
    requires WellFormed(pes)
  {
    Call(pes[3], TimeOf(pes), |EsOf(pes)|, stamp, stampAll, pesDuration, scr, scrDuration, start, playtime)
  }

  /** The part of a duration that falls to the first `done` bytes. */
  function PartOf(size: nat, done: nat, duration: real): real
    requires size > 0
  {
    done as real / size as real * duration
  }

  /** The time stamp of the piece that starts `done` bytes into the elementary stream data. */
  function StampAt(c: Call, done: nat): Option<nat>
    requires c.size > 0
  {
    if done == 0 then
      if c.time >= 0.0 && c.stamp then Some(Ticks(PtsDiff(c.time, c.start)) + Ticks(c.playtime) + SCR_PLAY_OFFSET)
      else None
    else if c.stampAll && c.pesDuration >= 0.0 && c.time >= 0.0 && c.stamp then
      Some(Ticks(PtsDiff(c.time + PartOf(c.size, done, c.pesDuration), c.start)) + Ticks(c.playtime) + SCR_PLAY_OFFSET)
    else None
  }

  /** The SCR of a pack that is started `done` bytes into the data. */
  function ScrAt(c: Call, done: nat): nat
    requires c.size > 0
  {
    Ticks(PtsDiff(c.scr, c.start)) + Ticks(c.playtime)
    + if c.scrDuration > 0.0 then Ticks(PartOf(c.size, done, c.scrDuration)) else 0
  }

  /** `pieces` cover the first `done` bytes of `es`, in order, each stamped for where it starts. */
  ghost predicate CutTo(pieces: seq<Pes>, c: Call, es: seq<byte>, done: nat)
    requires |es| == c.size && done <= |es|
    decreases |pieces|
  {
    if pieces == [] then done == 0
    else
      var p := pieces[|pieces| - 1];
      var from := done - |p.es|;
      && 0 <= from < done
      && p.sid == c.sid && p.es == es[from..done]
      && p.pts == StampAt(c, from) && (p.opens.Some? ==> p.opens.value == ScrAt(c, from))
      && CutTo(pieces[..|pieces| - 1], c, es, from)
  }

  // ------------------------------------------------------------------ what a demultiplexer has to show

  /** What is stamped: the first packet if a stamp is asked for, the others if it is asked for all. */
  predicate Stamps(op: Op, first: bool)
    requires op.Write? && WellFormed(op.pes)
  {
    op.stamp && TimeOf(op.pes) >= 0.0 && (first || (op.stampAll && op.pesDuration >= 0.0))
  }

  /** The time since the start that belongs to the data behind the first `done` bytes. */
  function StampFor(op: Op, done: nat, start: real, playtime: real): (t: nat)
    requires op.Write? && WellFormed(op.pes) && EsOf(op.pes) != []
  {
    var share := if done == 0 then 0.0 else PartOf(|EsOf(op.pes)|, done, op.pesDuration);
    Ticks(PtsDiff(TimeOf(op.pes) + share, start)) + Ticks(playtime) + SCR_PLAY_OFFSET
  }

  /** What is delivered of one call: its data in order, and a stamp wherever one is asked for. */
  ghost predicate ShowsCall(us: seq<Unit>, op: Op, start: real, playtime: real)
    requires op.Write? && WellFormed(op.pes)
  {
    && Stream(us, op.pes[3]) == EsOf(op.pes) && (us == [] <==> EsOf(op.pes) == [])
    && ShowsUnits(us, op, start, playtime)
  }

  ghost predicate ShowsUnits(us: seq<Unit>, op: Op, start: real, playtime: real)
    requires op.Write? && WellFormed(op.pes)
  {
    forall k :: 0 <= k < |us| ==> ShowsUnit(us[k], op, |Stream(us[..k], op.pes[3])|, k == 0, start, playtime)
  }

  ghost predicate ShowsUnit(u: Unit, op: Op, done: nat, first: bool, start: real, playtime: real)
    requires op.Write? && WellFormed(op.pes)
  {
    && u.sid == op.pes[3] && u.es != [] && EsOf(op.pes) != []
    && u.pts == if Stamps(op, first) then Some(StampFor(op, done, start, playtime) % POW33) else None
  }

  /** What is delivered of all calls, call by call. */
  ghost predicate Shows(us: seq<Unit>, ops: seq<Op>, start: real, playtime: real)
    decreases |ops|
  {
    if ops == [] then us == []
    else
      var op := ops[|ops| - 1];
      if op.Flush? then Shows(us, ops[..|ops| - 1], start, playtime)
      else
        && WellFormed(op.pes)
        && exists k :: 0 <= k <= |us| && Shows(us[..k], ops[..|ops| - 1], start, playtime)
                       && ShowsCall(us[k..], op, start, playtime)
  }

  /** One written block of the file: a system header pack or a pack of PES packets. */
  datatype Sector = System(scr: nat, audio: byte) | Media(pack: Pack)

  ghost predicate SectorOk(block: seq<byte>, s: Sector) {
    && |block| == PACK_SIZE
    && match s
       case System(scr, audio) =>
         && IsSystemPack(block) && DemuxPack(block) == Some([])
         && block[..30] == PackHeader(scr) + SystemHeader(audio)
       case Media(p) => PackOk(p) && block == EncodePack(p)
  }

  ghost predicate FileOk(out: seq<seq<byte>>, sectors: seq<Sector>) {
    && |out| == |sectors|
    && forall i :: 0 <= i < |out| ==> SectorOk(out[i], sectors[i])
  }

  /** The PES packets in a list of sectors. */
  ghost function PesOf(sectors: seq<Sector>): seq<Pes> {
    if sectors == [] then []
    else
      var k := |sectors| - 1;
      PesOf(sectors[..k]) + PesIn(sectors[k])
  }

  ghost function PesIn(s: Sector): seq<Pes> {
    if s.Media? then s.pack.pes else []
  }

  /** How many of the blocks are system headers. */
  ghost function Systems(sectors: seq<Sector>): (n: nat) {
    if sectors == [] then 0
    else Systems(sectors[..|sectors| - 1]) + if sectors[|sectors| - 1].System? then 1 else 0
  }

  lemma SystemsSnoc(sectors: seq<Sector>, s: Sector)
    ensures Systems(sectors + [s]) == Systems(sectors) + if s.System? then 1 else 0
  {
    assert (sectors + [s])[..|sectors|] == sectors;
  }

  /** If asked for, a single system header is added, in front of the first new pack; otherwise none is. */
  ghost predicate Headed(was: seq<Sector>, now: seq<Sector>, empty: bool, header: bool, head: Sector) {
    && was <= now && Systems(now) == Systems(was) + (if header then 1 else 0)
    && (header ==> var at := |was| + (if empty then 0 else 1); at < |now| && now[at] == head)
  }

  /**
   So far: `sys` says that a header is still to come. Until then no pack has been opened, and the only
   new block is the pack that was open before.
   */
  ghost predicate Heading(was: seq<Sector>, now: seq<Sector>, wasEmpty: bool, empty: bool, asked: bool, sys: bool,
                          opens: bool, head: Sector)
  {
    && (sys ==> asked) && Headed(was, now, wasEmpty, asked && !sys, head)
    && (sys ==> !opens && |now| == |was| + (if empty && !wasEmpty then 1 else 0) && (wasEmpty ==> empty))
  }

  /** A block has been written if the pack was full. */
  ghost predicate OneBlock(was: seq<Sector>, now: seq<Sector>, full: bool) {
    if full then |now| == |was| + 1 && was <= now && now[|was|].Media? else now == was
  }

  lemma HeadingBegins(sectors: seq<Sector>, empty: bool, asked: bool, head: Sector)
    ensures !Opens([]) && Heading(sectors, sectors, empty, empty, asked, asked, false, head)
  {
  }

  lemma HeadingHeader(was: seq<Sector>, now: seq<Sector>, now': seq<Sector>, wasEmpty: bool, asked: bool, opens: bool,
                      head: Sector, head': Sector)
    requires Heading(was, now, wasEmpty, true, asked, true, opens, head) && head'.System? && now' == now + [head']
    ensures !opens && Heading(was, now', wasEmpty, true, asked, false, opens, head')
  {
    SystemsSnoc(now, head');
  }

  lemma HeadingRound(was: seq<Sector>, now: seq<Sector>, now': seq<Sector>, wasEmpty: bool, empty: bool, empty': bool,
                     asked: bool, sys: bool, opens: bool, more: bool, head: Sector)
    requires Heading(was, now, wasEmpty, empty, asked, sys, opens, head) && !(empty && sys) && (more <==> empty)
    requires OneBlock(now, now', empty')
    ensures Heading(was, now', wasEmpty, empty', asked, sys, opens || more, head)
  {
    if empty' {
      assert now' == now + [now'[|now|]];
      SystemsSnoc(now, now'[|now|]);
    }
  }

  lemma HeadingDone(was: seq<Sector>, now: seq<Sector>, wasEmpty: bool, empty: bool, asked: bool, sys: bool,
                    opens: bool, head: Sector, head': Sector)
    requires Heading(was, now, wasEmpty, empty, asked, sys, opens, head) && (asked && !sys ==> opens && head == head')
    ensures Headed(was, now, wasEmpty, asked && opens, head')
  {
  }

  /** One of the packets is the first one of its pack. */
  predicate Opens(ps: seq<Pes>) {
    exists p :: p in ps && p.opens.Some?
  }

  /** The clock reference of the first pack opened. */
  ghost function FirstScr(ps: seq<Pes>): (scr: nat) {
    if ps == [] then 0
    else
      var init, last := ps[..|ps| - 1], ps[|ps| - 1];
      if Opens(init) || last.opens.None? then FirstScr(init) else last.opens.value
  }

  lemma FirstScrMore(ps: seq<Pes>, p: Pes)
    ensures FirstScr(ps + [p]) == if Opens(ps) || p.opens.None? then FirstScr(ps) else p.opens.value
  {
    hide Opens;
    assert (ps + [p])[..|ps|] == ps;
  }

  lemma OpensMore(ps: seq<Pes>, p: Pes)
    ensures Opens(ps + [p]) <==> Opens(ps) || p.opens.Some?
  {
    assert p in ps + [p];
    assert forall q :: q in ps ==> q in ps + [p];
  }

  ghost predicate BufferOk(b: seq<byte>, pes: seq<Pes>) {
    if pes == [] then b == []
    else
      && PackOk(Pack(pes, None)) && b == EncodePack(Pack(pes, None))
      && |b| + MIN_ROOM <= PACK_SIZE
  }

  // ------------------------------------------------------------------ lemmas on values

  lemma FileSnoc(out: seq<seq<byte>>, sectors: seq<Sector>, b: seq<byte>, s: Sector)
    requires FileOk(out, sectors) && SectorOk(b, s)
    ensures FileOk(out + [b], sectors + [s])
    ensures PesOf(sectors + [s]) == PesOf(sectors) + PesIn(s)
  {
    hide SectorOk;
    assert (sectors + [s])[..|sectors|] == sectors;
  }

  /** Appending one more packet to the pack under construction. */
  lemma BufferSnoc(b: seq<byte>, pes: seq<Pes>, p: Pes)
    requires BufferOk(b, pes) && Encodable(p) && (p.opens.Some? <==> pes == [])
    ensures PackOk(Pack(pes + [p], None))
    ensures EncodePack(Pack(pes + [p], None)) == (if pes == [] then PackHeader(p.opens.value) else b) + EncodePes(p)
  {
    hide Encodable;
    hide EncodePes;
    hide PackHeader;
    EncodeAllSnoc(pes, p);
    if pes == [] {
      assert pes + [p] == [p];
      assert EncodeAll([]) == [];
    } else {
      assert (pes + [p])[0] == pes[0];
    }
  }

  lemma PackPadded(pes: seq<Pes>, n: nat)
    requires PackOk(Pack(pes, None)) && n < 0x10000
    ensures PackOk(Pack(pes, Some(n)))
    ensures EncodePack(Pack(pes, Some(n))) == EncodePack(Pack(pes, None)) + EncodePadding(n)
  {
    hide EncodeAll;
    hide EncodePadding;
    hide PackHeader;
    hide AllEncodable;
  }

  lemma {:induction false} UnitsOfAppend(a: seq<Pes>, b: seq<Pes>)
    ensures UnitsOf(a + b) == UnitsOf(a) + UnitsOf(b)
  {
    hide UnitOf;
  }

  /** Demultiplexing the file gives back exactly the packets that were written, in order. */
  lemma {:induction false} DemuxFile(out: seq<seq<byte>>, sectors: seq<Sector>)
    requires FileOk(out, sectors)
    ensures DemuxAll(out) == Some(UnitsOf(PesOf(sectors)))
    decreases |out|
  {
    hide DemuxPack;
    hide UnitsOf;
    hide SectorOk;
    hide PesIn;
    if out == [] {
      UnitsOfNothing();
    } else {
      var k := |out| - 1;
      DemuxFile(out[..k], sectors[..k]);
      DemuxSector(out[k], sectors[k]);
      UnitsOfAppend(PesOf(sectors[..k]), PesIn(sectors[k]));
    }
  }

  lemma DemuxSector(block: seq<byte>, s: Sector)
    requires SectorOk(block, s)
    ensures DemuxPack(block) == Some(UnitsOf(PesIn(s)))
  {
    hide DemuxPack;
    hide EncodePack;
    if s.Media? {
      DemuxEncodedPack(s.pack);
    } else {
      UnitsOfNothing();
    }
  }

  lemma UnitsOfNothing()
    ensures UnitsOf([]) == []
  {
  }

  /** The pieces of a packet carry its elementary stream, for its stream id and no other. */
  lemma {:induction false} CutStream(pieces: seq<Pes>, c: Call, es: seq<byte>, done: nat, sid: byte)
    requires |es| == c.size && done <= |es| && CutTo(pieces, c, es, done)
    ensures Stream(UnitsOf(pieces), sid) == if sid == c.sid then es[..done] else []
    decreases |pieces|
  {
    if pieces != [] {
      var k := |pieces| - 1;
      var p := pieces[k];
      var from := done - |p.es|;
      CutStream(pieces[..k], c, es, from, sid);
      assert UnitsOf(pieces)[..k] == UnitsOf(pieces[..k]);
      assert es[..done] == es[..from] + es[from..done];
    }
  }

  /** A complete packet of a stream that carries PES headers. */
  predicate PacketOk(pes: seq<byte>) {
    WellFormed(pes) && MediaId(pes[3])
  }

  lemma CallFacts(pes: seq<byte>, scr: real, stamp: bool, stampAll: bool, pesDuration: real, scrDuration: real,
                  start: real, playtime: real)
    requires PacketOk(pes)
    ensures WellFormed(pes)
    ensures var c := CallOf(pes, scr, stamp, stampAll, pesDuration, scrDuration, start, playtime);
            c.size == |EsOf(pes)| && MediaId(c.sid)
  {
  }

  lemma SizeOfPiece(p: Pes)
    ensures EncodedSize(p) == (if p.pts.Some? then 14 else 9) + p.stuffing + (if p.sid == PRIVATE_1 then 4 else 0)
            + |p.es|
    ensures |HeaderData(p)| == (if p.pts.Some? then 5 else 0) + p.stuffing
  {
    hide PtsBytes;
  }

  /** How much data goes into the next packet, and how many stuffing bytes before it. */
  method PieceSize(avail: nat, left: nat, stamped: bool, sid: byte) returns (n: nat, stuff: nat)
    requires MIN_ROOM <= avail && 0 < left
    ensures var overhead := (if stamped then 14 else 9) + (if sid == PRIVATE_1 then 4 else 0);
            && 0 < n <= left && stuff < MIN_ROOM
            && overhead + stuff + n <= avail
            && (overhead + stuff + n == avail || (overhead + stuff + n + MIN_ROOM <= avail && n == left && stuff == 0))
            && (stuff > 0 ==> n == left)
  {
    var header := 9;
    if stamped {
      header := header + 5;
    }
    var ac3 := 0;
    if sid == PRIVATE_1 {
      ac3 := 4;
    }
    n := left;
    if n > avail - (header + ac3) {
      n := avail - (header + ac3);
    }
    stuff := 0;
    if avail - (header + ac3 + n) < MIN_ROOM {
      stuff := avail - (header + ac3 + n);
    }
  }

  lemma CutNothing(c: Call, es: seq<byte>)
    requires |es| == c.size
    ensures CutTo([], c, es, 0)
  {
  }

  lemma CutSnoc(pieces: seq<Pes>, c: Call, es: seq<byte>, done: nat, p: Pes)
    requires |es| == c.size && done + |p.es| <= |es| && p.es != [] && CutTo(pieces, c, es, done)
    requires p.sid == c.sid && p.es == es[done..done + |p.es|]
    requires p.pts == StampAt(c, done) && (p.opens.Some? ==> p.opens.value == ScrAt(c, done))
    ensures CutTo(pieces + [p], c, es, done + |p.es|)
  {
    hide StampAt;
    hide ScrAt;
    assert (pieces + [p])[..|pieces|] == pieces;
  }

  /** The system header bytes that are written; the declared length is 18. */
  function SystemHeader(audio: byte): (b: seq<byte>)
    ensures |b| == 16
  {
    [0x00, 0x00, 0x01, 0xbb, 0, 18,
     0x80 + MUX_RATE / 0x8000 % 128, MUX_RATE / 0x80 % 256, 2 * (MUX_RATE % 0x80) + 1, 4, 0xe1, 0x7f,
     0xe0, audio, 0xc0, 64]
  }

  lemma SystemHead(scr: nat, audio: byte)
    ensures var head := PackHeader(scr) + SystemHeader(audio);
            head[..4] == [0x00, 0x00, 0x01, 0xba] && head[13..18] == [0x00, 0x00, 0x00, 0x01, 0xbb]
  {
    hide ScrBytes;
  }

  lemma PesHeaderBytes(p: Pes)
    requires Encodable(p)
    ensures PesHeader(p) == [0x00, 0x00, 0x01, p.sid, (EncodedSize(p) - 6) / 256, (EncodedSize(p) - 6) % 256, 0x80,
                             if p.pts.Some? then 0x80 else 0x00, |HeaderData(p)|]
  {
    hide HeaderData;
    hide Ac3Header;
  }

  lemma Assoc(a: seq<byte>, b: seq<byte>, c: seq<byte>)
    ensures (a + b) + c == a + (b + c)
  {
  }

  lemma Assoc4(a: seq<byte>, b: seq<byte>, c: seq<byte>, d: seq<byte>, e: seq<byte>)
    ensures (((a + b) + c) + d) + e == a + (b + c + d + e)
  {
  }

  lemma SystemBlock(block: seq<byte>, head: seq<byte>, scr: nat, audio: byte)
    requires |block| == PACK_SIZE && |head| == 30 && block[..30] == head
    requires head == PackHeader(scr) + SystemHeader(audio)
    requires head[..4] == [0x00, 0x00, 0x01, 0xba] && head[13..18] == [0x00, 0x00, 0x00, 0x01, 0xbb]
    ensures SectorOk(block, System(scr, audio))
  {
    hide PackHeader;
    hide SystemHeader;
    assert block[..4] == block[..30][..4];
    assert block[13..18] == block[..30][13..18];
    assert block[0] == head[..4][0] && block[1] == head[..4][1] && block[2] == head[..4][2] && block[3] == head[..4][3];
    var h := head[13..18];
    assert block[13] == h[0] && block[14] == h[1] && block[15] == h[2] && block[16] == h[3] && block[17] == h[4];
  }

  // ------------------------------------------------------------------ the writer

  class Remuxer {
    const ppBuffer: array<byte>
    var ppValid: nat
    var out: seq<seq<byte>>
    var totalBytesWritten: nat
    var wantedAudioStream: byte
    var systemClockRefStart: real
    var playtimeOffset: real

    /** What `out` consists of, and the packets already in the pack under construction. */
    ghost var sectors: seq<Sector>
    ghost var open: seq<Pes>

    ghost predicate Room()
      reads this
    {
      ppBuffer.Length == PACK_SIZE && ppValid <= PACK_SIZE
    }

    ghost predicate Written()
      reads this
    {
      FileOk(out, sectors) && totalBytesWritten == PACK_SIZE * |out|
    }

    ghost predicate Valid()
      reads this, ppBuffer
    {
      Room() && Written() && BufferOk(ppBuffer[..ppValid], open)
    }

    /** Every PES packet produced so far, in order. */
    ghost function Sent(): seq<Pes>
      reads this
    {
      PesOf(sectors) + open
    }

    constructor (audio: byte)
      ensures Valid() && fresh(ppBuffer) && out == [] && Sent() == [] && ppValid == 0
    {
      ppBuffer := new byte[PACK_SIZE](i => 0);
      ppValid, out, totalBytesWritten := 0, [], 0;
      wantedAudioStream, systemClockRefStart, playtimeOffset := audio, -1.0, 0.0;
      sectors, open := [], [];
    }

    /** Store bytes at the end of the pack buffer. */
    method Append(bytes: seq<byte>)
      requires Room() && ppValid + |bytes| <= PACK_SIZE
      modifies this`ppValid, ppBuffer
      ensures Room() && ppValid == old(ppValid) + |bytes|
      ensures ppBuffer[..ppValid] == old(ppBuffer[..ppValid]) + bytes
    {
      forall i | 0 <= i < |bytes| {
        ppBuffer[ppValid + i] := bytes[i];
      }
      ppValid := ppValid + |bytes|;
    }

    /** fwrite of the whole, now full, buffer. */
    method WriteOut(ghost s: Sector)
      requires Room() && Written() && ppValid == PACK_SIZE && SectorOk(ppBuffer[..], s)
      modifies this`ppValid, this`out, this`totalBytesWritten, this`sectors
      ensures Room() && Written() && ppValid == 0
      ensures out == old(out) + [ppBuffer[..]] && sectors == old(sectors) + [s]
      ensures PesOf(sectors) == PesOf(old(sectors)) + PesIn(s)
    {
      hide SectorOk;
      FileSnoc(out, sectors, ppBuffer[..], s);
      out := out + [ppBuffer[..]];
      totalBytesWritten := totalBytesWritten + ppValid;
      sectors := sectors + [s];
      ppValid := 0;
    }

    /** The padding packet of flush_pp. */
    method Pad()
      requires Room() && ppValid + 6 <= PACK_SIZE
      modifies this`ppValid, ppBuffer
      ensures Room() && ppValid == PACK_SIZE
      ensures ppBuffer[..] == old(ppBuffer[..ppValid]) + EncodePadding(PACK_SIZE - old(ppValid) - 6)
    {
      var totlen := PACK_SIZE - ppValid - 6;
      ghost var was := ppBuffer[..ppValid];
      Append([0x00, 0x00, 0x01, PADDING, totlen / 256, totlen % 256]);
      Append(Fill(0xff, totlen));
      assert ppBuffer[..] == ppBuffer[..ppValid];
      assert ([0x00, 0x00, 0x01, PADDING] + Length16(totlen))
             == [0x00, 0x00, 0x01, PADDING, totlen / 256, totlen % 256];
    }

    /** flush_pp: pad the pack under construction, if any, and write it. */
    method FlushPp()
      requires Valid()
      modifies this`ppValid, this`out, this`totalBytesWritten, this`sectors, this`open, ppBuffer
      ensures Valid() && ppValid == 0 && Sent() == old(Sent())
      ensures out == old(out) || (|out| == |old(out)| + 1 && old(out) <= out)
      ensures Systems(sectors) == Systems(old(sectors))
    {
      if ppValid == 0 {
        return;
      }
      hide EncodePack;
      hide EncodePadding;
      ghost var n := PACK_SIZE - ppValid - 6;
      SystemsSnoc(sectors, Media(Pack(open, Some(n))));
      PackPadded(open, n);
      Pad();
      WriteOut(Media(Pack(open, Some(n))));
      open := [];
    }

    /** A pack with a system header; its last two header bytes keep whatever the buffer held. */
    method SystemPack(scr: nat)
      requires Valid() && ppValid == 0
      modifies this`ppValid, this`out, this`totalBytesWritten, this`sectors, ppBuffer
      ensures Valid() && ppValid == 0 && Sent() == old(Sent()) && open == old(open)
      ensures |out| == |old(out)| + 1 && old(out) <= out && sectors == old(sectors) + [System(scr, wantedAudioStream)]
    {
      hide ScrBytes;
      hide EncodePadding;
      Append(PackHeader(scr));
      Append(SystemHeader(wantedAudioStream));
      ghost var head := ppBuffer[..ppValid];
      SystemHead(scr, wantedAudioStream);
      ppValid := ppValid + 2;
      assert ppBuffer[..ppValid][..30] == head;
      Pad();
      assert ppBuffer[..][..30] == head;
      SystemBlock(ppBuffer[..], head, scr, wantedAudioStream);
      WriteOut(System(scr, wantedAudioStream));
    }

    method AppendPesHeader(p: Pes)
      requires Room() && Encodable(p) && ppValid + 9 + |HeaderData(p)| <= PACK_SIZE
      modifies this`ppValid, ppBuffer
      ensures Room() && ppValid == old(ppValid) + 9 + |HeaderData(p)|
      ensures ppBuffer[..ppValid] == (old(ppBuffer[..ppValid]) + PesHeader(p)) + HeaderData(p)
    {
      hide PtsBytes;
      hide Fill;
      var totlen := EncodedSize(p) - 6;
      Append([0x00, 0x00, 0x01, p.sid, totlen / 256, totlen % 256, 0x80,
              if p.pts.Some? then 0x80 else 0x00, |HeaderData(p)|]);
      PesHeaderBytes(p);
      ghost var b := ppBuffer[..ppValid];
      if p.pts.Some? {
        Append(PtsBytes(p.pts.value));
        Append(Fill(0xff, p.stuffing));
        Assoc(b, PtsBytes(p.pts.value), Fill(0xff, p.stuffing));
      } else {
        Append(Fill(0xff, p.stuffing));
        assert HeaderData(p) == Fill(0xff, p.stuffing);
      }
    }

    /** A whole PES packet, field by field. */
    method AppendPes(p: Pes)
      requires Room() && Encodable(p) && ppValid + EncodedSize(p) <= PACK_SIZE
      modifies this`ppValid, ppBuffer
      ensures Room() && ppValid == old(ppValid) + EncodedSize(p)
      ensures ppBuffer[..ppValid] == old(ppBuffer[..ppValid]) + EncodePes(p)
    {
      hide PesHeader;
      hide HeaderData;
      hide Ac3Header;
      ghost var b := ppBuffer[..ppValid];
      AppendPesHeader(p);
      Append(Ac3Header(p.sid));
      Append(p.es);
      Assoc4(b, PesHeader(p), HeaderData(p), Ac3Header(p.sid), p.es);
    }

    /**
     One round of the loop of write_pes_in_pp: start a pack if none is under construction, put one
     PES packet with as much data as fits, and write the pack out when it is full.
     */
    method WriteRound(c: Call, es: seq<byte>, done: nat) returns (n: nat, ghost p: Pes)
      requires Valid() && done < |es| == c.size && MediaId(c.sid)
      modifies this`ppValid, this`out, this`totalBytesWritten, this`sectors, this`open, ppBuffer
      ensures Valid() && Sent() == old(Sent()) + [p] && old(out) <= out
      ensures 0 < n && done + n <= |es|
      ensures p.sid == c.sid && p.es == es[done..done + n] && p.pts == StampAt(c, done)
      ensures p.opens == if old(ppValid) == 0 then Some(ScrAt(c, done)) else None
      ensures OneBlock(old(sectors), sectors, ppValid == 0)
    {
      hide EncodePack;
      hide EncodePes;
      hide HeaderData;
      hide Ac3Header;
      hide StampAt;
      hide ScrAt;
      hide PackHeader;
      hide FileOk;
      hide PesOf;
      ghost var b, pes := ppBuffer[..ppValid], open;
      var opens := None;
      if ppValid == 0 {
        opens := Some(ScrAt(c, done));
        Append(PackHeader(ScrAt(c, done)));
        assert ppBuffer[..ppValid] == PackHeader(ScrAt(c, done));
      }
      var pts := StampAt(c, done);
      var stuff;
      n, stuff := PieceSize(PACK_SIZE - ppValid, |es| - done, pts.Some?, c.sid);
      var packet := Pes(c.sid, pts, stuff, es[done..done + n], opens);
      p := packet;
      SizeOfPiece(p);
      AppendPes(packet);
      BufferSnoc(b, pes, p);
      open := open + [p];
      FinishRound();
    }

    /** Write the pack out if the packet just added has filled it. */
    method FinishRound()
      requires Room() && Written() && open != [] && (ppValid == PACK_SIZE || ppValid + MIN_ROOM <= PACK_SIZE)
      requires PackOk(Pack(open, None)) && ppBuffer[..ppValid] == EncodePack(Pack(open, None))
      modifies this`ppValid, this`out, this`totalBytesWritten, this`sectors, this`open
      ensures Valid() && Sent() == old(Sent()) && old(out) <= out
      ensures OneBlock(old(sectors), sectors, ppValid == 0)
    {
      hide EncodePack;
      hide PackOk;
      if PACK_SIZE - ppValid == 0 {
        assert ppBuffer[..] == ppBuffer[..ppValid];
        WriteOut(Media(Pack(open, None)));
        open := [];
      }
    }

    method WritePesInPp(pes: seq<byte>, scr: real, stamp: bool, stampAll: bool, sysHeader: bool,
                        pesDuration: real, scrDuration: real)
      returns (newScr: real, ghost added: seq<Pes>)
      requires Valid() && PacketOk(pes)
      modifies this`ppValid, this`out, this`totalBytesWritten, this`sectors, this`open, ppBuffer
      ensures Valid() && newScr == scr + scrDuration
      ensures Sent() == old(Sent()) + added && old(out) <= out
      ensures CutTo(added,
                    CallOf(pes, scr, stamp, stampAll, pesDuration, scrDuration, systemClockRefStart, playtimeOffset),
                    EsOf(pes), |EsOf(pes)|)
      ensures ShowsCall(UnitsOf(added), Write(pes, scr, stamp, stampAll, sysHeader, pesDuration, scrDuration),
                        systemClockRefStart, playtimeOffset)
      ensures Headed(old(sectors), sectors, old(ppValid) == 0, sysHeader && Opens(added),
                     System(FirstScr(added), wantedAudioStream))
      ensures old(ppValid) == 0 ==> (Opens(added) <==> EsOf(pes) != [])
    {
      ghost var op := Write(pes, scr, stamp, stampAll, sysHeader, pesDuration, scrDuration);
      hide *;
      CallFacts(pes, scr, stamp, stampAll, pesDuration, scrDuration, systemClockRefStart, playtimeOffset);
      var es := EsOf(pes);
      var c := CallOf(pes, scr, stamp, stampAll, pesDuration, scrDuration, systemClockRefStart, playtimeOffset);
      var done, sys := 0, sysHeader;
      added := [];
      CutNothing(c, es);
      ghost var scr0 := 0;
      HeadingBegins(sectors, ppValid == 0, sysHeader, System(scr0, wantedAudioStream));
      while done < |es|
        invariant Valid() && done <= |es| && old(out) <= out
        invariant Sent() == old(Sent()) + added
        invariant CutTo(added, c, es, done)
        invariant Heading(old(sectors), sectors, old(ppValid) == 0, ppValid == 0, sysHeader, sys, Opens(added),
                          System(scr0, wantedAudioStream))
        invariant sysHeader && !sys ==>
                    if Opens(added) then scr0 == FirstScr(added) else done < |es| && scr0 == ScrAt(c, done)
        invariant if done == 0 then added == [] && ppValid == old(ppValid) else old(ppValid) == 0 ==> Opens(added)
        invariant sysHeader && !sys && !Opens(added) ==> ppValid == 0 && done < |es|
        decreases |es| - done, sys
      {
        if ppValid == 0 && sys {
          sys := false;
          ghost var was := sectors;
          SystemPack(ScrAt(c, done));
          HeadingHeader(old(sectors), was, sectors, old(ppValid) == 0, sysHeader, Opens(added),
                        System(scr0, wantedAudioStream), System(ScrAt(c, done), wantedAudioStream));
          scr0 := ScrAt(c, done);
          continue;
        }
        ghost var p;
        var n;
        ghost var was, empty := sectors, ppValid == 0;
        n, p := WriteRound(c, es, done);
        OpensMore(added, p);
        FirstScrMore(added, p);
        HeadingRound(old(sectors), was, sectors, old(ppValid) == 0, empty, ppValid == 0, sysHeader, sys, Opens(added),
                     p.opens.Some?, System(scr0, wantedAudioStream));
        CutSnoc(added, c, es, done, p);
        added := added + [p];
        done := done + n;
      }
      HeadingDone(old(sectors), sectors, old(ppValid) == 0, ppValid == 0, sysHeader, sys, Opens(added),
                  System(scr0, wantedAudioStream), System(FirstScr(added), wantedAudioStream));
      newScr := scr + scrDuration;
      CallIs(op, systemClockRefStart, playtimeOffset);
      CallShows(added, op, systemClockRefStart, playtimeOffset);
    }

    /** Whatever has been written out demultiplexes to whatever was sent. */
    lemma FileIsWhatWasSent()
      requires Valid() && ppValid == 0
      ensures DemuxAll(out) == Some(UnitsOf(Sent()))
      ensures forall i :: 0 <= i < |out| ==> |out[i]| == PACK_SIZE
    {
      hide DemuxAll;
      hide UnitsOf;
      hide DemuxPack;
      hide EncodePack;
      DemuxFile(out, sectors);
      assert PesOf(sectors) + [] == PesOf(sectors);
    }

    /** The state after the first `i` calls. */
    ghost predicate Performed(ops: seq<Op>, i: nat)
      requires i <= |ops|
      reads this, ppBuffer
    {
      Valid() && SoFar(Sent(), Systems(sectors), ppValid == 0, ops, i, systemClockRefStart, playtimeOffset)
    }

    lemma PerformedFacts(ops: seq<Op>, i: nat)
      requires i <= |ops| && Performed(ops, i)
      ensures Valid()
      ensures SoFar(Sent(), Systems(sectors), ppValid == 0, ops, i, systemClockRefStart, playtimeOffset)
    {
    }

    lemma PerformedBy(ops: seq<Op>, i: nat)
      requires i <= |ops| && Valid()
      requires SoFar(Sent(), Systems(sectors), ppValid == 0, ops, i, systemClockRefStart, playtimeOffset)
      ensures Performed(ops, i)
    {
    }

    /** The `i`-th call. */
    method Perform(ops: seq<Op>, i: nat)
      requires i < |ops| && Performed(ops, i)
      modifies this`ppValid, this`out, this`totalBytesWritten, this`sectors, this`open, ppBuffer
      ensures Performed(ops, i + 1)
    {
      hide *;
      PerformedFacts(ops, i);
      ghost var before, was, empty := Sent(), sectors, ppValid == 0;
      match ops[i] {
        case Flush =>
          FlushPp();
          SoFarFlush(before, Systems(was), empty, ops, i, systemClockRefStart, playtimeOffset);
        case Write(pes, scr, stamp, stampAll, sys, pesDuration, scrDuration) =>
          SoFarOk(before, Systems(was), empty, ops, i, systemClockRefStart, playtimeOffset);
          CallFacts(pes, scr, stamp, stampAll, pesDuration, scrDuration, systemClockRefStart, playtimeOffset);
          CallIs(ops[i], systemClockRefStart, playtimeOffset);
          var _, added := WritePesInPp(pes, scr, stamp, stampAll, sys, pesDuration, scrDuration);
          SoFarWrite(before, added, was, sectors, empty, ppValid == 0, ops, i, systemClockRefStart, playtimeOffset,
                     System(FirstScr(added), wantedAudioStream));
      }
      PerformedBy(ops, i + 1);
    }

    /**
     Any sequence of calls, flushed at the end: the file consists of 2048-byte blocks and
     demultiplexes, for every stream id, to exactly the elementary stream data supplied, in order. It
     holds the packets sent, which are the calls' pieces; they have a stamp wherever the call asks for one.
     */
    method WriteAll(ops: seq<Op>)
      requires Valid() && out == [] && ppValid == 0
      requires OpsOk(ops)
      modifies this`ppValid, this`out, this`totalBytesWritten, this`sectors, this`open, ppBuffer
      ensures Valid() && ppValid == 0 && (forall i :: 0 <= i < |out| ==> |out[i]| == PACK_SIZE)
      ensures DemuxAll(out) == Some(UnitsOf(Sent()))
      ensures forall sid :: Stream(DemuxAll(out).value, sid) == Supplied(ops, sid)
      ensures Laid(Sent(), ops, systemClockRefStart, playtimeOffset)
      ensures Shows(DemuxAll(out).value, ops, systemClockRefStart, playtimeOffset)
      ensures HeadsFlushed(ops) ==> SystemPacks(out) == Heads(ops)
    {
      assert Sent() == [] && Systems(sectors) == 0 by {
        SentNothing();
      }
      hide *;
      SoFarNothing(ppValid == 0, ops, systemClockRefStart, playtimeOffset);
      PerformedBy(ops, 0);
      for i := 0 to |ops|
        invariant Performed(ops, i)
      {
        Perform(ops, i);
      }
      PerformedFacts(ops, |ops|);
      SoFarAll(Sent(), Systems(sectors), ppValid == 0, ops, systemClockRefStart, playtimeOffset);
      ghost var sent := Sent();
      FlushPp();
      assert Sent() == sent;
      FileIsWhatWasSent();
      SystemsInFile();
    }

    lemma SystemsInFile()
      requires Valid()
      ensures SystemPacks(out) == Systems(sectors)
    {
      SystemsAreWritten(out, sectors);
    }

    lemma SentNothing()
      requires Valid() && out == [] && ppValid == 0
      ensures Sent() == [] && Systems(sectors) == 0
    {
    }
  }

  /** A call of write_pes_in_pp or of flush_pp. */
  datatype Op =
    | Write(pes: seq<byte>, scr: real, stamp: bool, stampAll: bool, sysHeader: bool, pesDuration: real,
            scrDuration: real)
    | Flush

  /** What has been sent after the first `i` calls, with how many system headers, and whether no pack is open. */
  ghost predicate SoFar(sent: seq<Pes>, systems: nat, empty: bool, ops: seq<Op>, i: nat, start: real, playtime: real)
    requires i <= |ops|
  {
    && OpsOk(ops) && OpsOk(ops[..i])
    && (forall sid :: Stream(UnitsOf(sent), sid) == Supplied(ops[..i], sid))
    && Laid(sent, ops[..i], start, playtime) && Shows(UnitsOf(sent), ops[..i], start, playtime)
    && (HeadsFlushed(ops) ==> systems == Heads(ops[..i]))
    && (0 < i && ops[i - 1] == Flush ==> empty)
  }

  lemma SoFarNothing(empty: bool, ops: seq<Op>, start: real, playtime: real)
    requires OpsOk(ops)
    ensures SoFar([], 0, empty, ops, 0, start, playtime)
  {
    hide WellFormed;
    NothingSupplied();
    NothingLaid(start, playtime);
    NothingShows(start, playtime);
    assert ops[..0] == [];
  }

  lemma SoFarAll(sent: seq<Pes>, systems: nat, empty: bool, ops: seq<Op>, start: real, playtime: real)
    requires SoFar(sent, systems, empty, ops, |ops|, start, playtime)
    ensures OpsOk(ops) && forall sid :: Stream(UnitsOf(sent), sid) == Supplied(ops, sid)
    ensures Laid(sent, ops, start, playtime) && Shows(UnitsOf(sent), ops, start, playtime)
    ensures HeadsFlushed(ops) ==> systems == Heads(ops)
  {
    assert ops[..|ops|] == ops;
    hide Laid;
    hide Shows;
    hide Supplied;
  }

  lemma SoFarOk(sent: seq<Pes>, systems: nat, empty: bool, ops: seq<Op>, i: nat, start: real, playtime: real)
    requires i < |ops| && SoFar(sent, systems, empty, ops, i, start, playtime)
    ensures ops[i].Write? ==> PacketOk(ops[i].pes)
  {
    hide Laid;
    hide Shows;
    hide Supplied;
    hide WellFormed;
  }

  lemma SoFarFlush(sent: seq<Pes>, systems: nat, empty: bool, ops: seq<Op>, i: nat, start: real, playtime: real)
    requires i < |ops| && ops[i] == Flush && SoFar(sent, systems, empty, ops, i, start, playtime)
    ensures SoFar(sent, systems, true, ops, i + 1, start, playtime)
  {
    hide Laid;
    hide Shows;
    hide Supplied;
    hide OpsOk;
    hide Stream;
    hide HeadsFlushed;
    hide Heads;
    SuppliedFlush(ops, i);
    LaidFlush(sent, ops, i, start, playtime);
    ShowsFlush(UnitsOf(sent), ops, i, start, playtime);
    HeadsOfFlush(ops, i);
  }

  lemma HeadsOfFlush(ops: seq<Op>, i: nat)
    requires OpsOk(ops) && i < |ops| && ops[i] == Flush && OpsOk(ops[..i])
    ensures OpsOk(ops[..i + 1]) && Heads(ops[..i + 1]) == Heads(ops[..i])
  {
    hide WellFormed;
    assert ops[..i + 1][..i] == ops[..i];
  }

  lemma SoFarWrite(sent: seq<Pes>, added: seq<Pes>, was: seq<Sector>, now: seq<Sector>, empty: bool, empty': bool,
                   ops: seq<Op>, i: nat, start: real, playtime: real, head: Sector)
    requires i < |ops| && ops[i].Write? && SoFar(sent, Systems(was), empty, ops, i, start, playtime)
    requires PacketOk(ops[i].pes) && WellFormed(ops[i].pes)
    requires CutTo(added, CallFor(ops[i], start, playtime), EsOf(ops[i].pes), |EsOf(ops[i].pes)|)
    requires ShowsCall(UnitsOf(added), ops[i], start, playtime)
    requires Headed(was, now, empty, ops[i].sysHeader && Opens(added), head) && head.System?
    requires empty ==> (Opens(added) <==> EsOf(ops[i].pes) != [])
    ensures SoFar(sent + added, Systems(now), empty', ops, i + 1, start, playtime)
  {
    SoFarParts(sent, Systems(was), empty, ops, i, start, playtime);
    CallFields(ops[i], start, playtime);
    hide *;
    SuppliedWrite(ops, i, sent, added, start, playtime);
    LaidWrite(sent, added, ops, i, start, playtime);
    ShowsWrite(sent, added, ops, i, start, playtime);
    if HeadsFlushed(ops) {
      HeadsStep(ops, i, was, now, empty, added, head);
    }
    SoFarBy(sent + added, Systems(now), empty', ops, i + 1, start, playtime);
  }

  lemma SoFarParts(sent: seq<Pes>, systems: nat, empty: bool, ops: seq<Op>, i: nat, start: real, playtime: real)
    requires i <= |ops| && SoFar(sent, systems, empty, ops, i, start, playtime)
    ensures OpsOk(ops) && OpsOk(ops[..i]) && forall sid :: Stream(UnitsOf(sent), sid) == Supplied(ops[..i], sid)
    ensures Laid(sent, ops[..i], start, playtime) && Shows(UnitsOf(sent), ops[..i], start, playtime)
    ensures HeadsFlushed(ops) ==> systems == Heads(ops[..i])
    ensures 0 < i && ops[i - 1] == Flush ==> empty
  {
  }

  lemma SoFarBy(sent: seq<Pes>, systems: nat, empty: bool, ops: seq<Op>, i: nat, start: real, playtime: real)
    requires 0 < i <= |ops| && ops[i - 1] != Flush
    requires OpsOk(ops) && OpsOk(ops[..i]) && forall sid :: Stream(UnitsOf(sent), sid) == Supplied(ops[..i], sid)
    requires Laid(sent, ops[..i], start, playtime) && Shows(UnitsOf(sent), ops[..i], start, playtime)
    requires HeadsFlushed(ops) ==> systems == Heads(ops[..i])
    ensures SoFar(sent, systems, empty, ops, i, start, playtime)
  {
  }

  predicate OpsOk(ops: seq<Op>) {
    forall i :: 0 <= i < |ops| ==> ops[i].Write? ==> PacketOk(ops[i].pes)
  }

  /** System headers are asked for only right after a flush, as write_mpg does. */
  predicate HeadsFlushed(ops: seq<Op>) {
    forall i :: 0 <= i < |ops| && ops[i].Write? && ops[i].sysHeader ==> 0 < i && ops[i - 1] == Flush
  }

  /** How many calls ask for a system header and have data. */
  ghost function Heads(ops: seq<Op>): (n: nat)
    requires OpsOk(ops)
  {
    if ops == [] then 0
    else
      var last := ops[|ops| - 1];
      Heads(ops[..|ops| - 1]) + if last.Write? && last.sysHeader && EsOf(last.pes) != [] then 1 else 0
  }

  /** How many of the blocks of a file hold a system header. */
  ghost function SystemPacks(out: seq<seq<byte>>): (n: nat) {
    if out == [] then 0
    else SystemPacks(out[..|out| - 1]) + if IsSystemPack(out[|out| - 1]) then 1 else 0
  }

  lemma HeadsStep(ops: seq<Op>, i: nat, was: seq<Sector>, now: seq<Sector>, empty: bool, added: seq<Pes>,
                  head: Sector)
    requires OpsOk(ops) && i < |ops| && HeadsFlushed(ops) && OpsOk(ops[..i])
    requires Systems(was) == Heads(ops[..i]) && (0 < i && ops[i - 1] == Flush ==> empty)
    requires if ops[i].Flush? then Systems(now) == Systems(was)
             else Headed(was, now, empty, ops[i].sysHeader && Opens(added), head) && head.System?
    requires ops[i].Write? && empty ==> (Opens(added) <==> EsOf(ops[i].pes) != [])
    ensures OpsOk(ops[..i + 1]) && Systems(now) == Heads(ops[..i + 1])
  {
    hide Opens;
    hide WellFormed;
    hide EsOf;
    assert ops[..i + 1][..i] == ops[..i];
  }

  lemma {:induction false} SystemsAreWritten(out: seq<seq<byte>>, sectors: seq<Sector>)
    requires FileOk(out, sectors)
    ensures SystemPacks(out) == Systems(sectors)
    decreases |out|
  {
    hide SectorOk;
    if out != [] {
      var k := |out| - 1;
      SystemsAreWritten(out[..k], sectors[..k]);
      SystemOrMedia(out[k], sectors[k]);
    }
  }

  lemma SystemOrMedia(b: seq<byte>, s: Sector)
    requires SectorOk(b, s)
    ensures IsSystemPack(b) <==> s.System?
  {
    hide EncodeAll;
    hide EncodePadding;
    hide PackHeader;
    hide DemuxPack;
    if s.Media? {
      EncodeAllStarts(s.pack.pes);
      assert s.pack.pes[0] in s.pack.pes;
      assert b[17] == EncodeAll(s.pack.pes)[3];
    }
  }

  /** The elementary stream data that a list of calls supplies for one stream id. */
  ghost function Supplied(ops: seq<Op>, sid: byte): seq<byte>
    requires OpsOk(ops)
  {
    if ops == [] then []
    else
      var last := ops[|ops| - 1];
      Supplied(ops[..|ops| - 1], sid) + if last.Write? && last.pes[3] == sid then EsOf(last.pes) else []
  }

  /** The call for a write, with the clocks of the writer. */
  function CallFor(op: Op, start: real, playtime: real): (c: Call)
    requires op.Write? && WellFormed(op.pes)
  {
    CallOf(op.pes, op.scr, op.stamp, op.stampAll, op.pesDuration, op.scrDuration, start, playtime)
  }

  lemma CallIs(op: Op, start: real, playtime: real)
    requires op.Write? && WellFormed(op.pes)
    ensures CallFor(op, start, playtime)
            == CallOf(op.pes, op.scr, op.stamp, op.stampAll, op.pesDuration, op.scrDuration, start, playtime)
  {
  }

  /** The packets sent are the pieces of the calls, call by call. */
  ghost predicate Laid(sent: seq<Pes>, ops: seq<Op>, start: real, playtime: real)
    decreases |ops|
  {
    if ops == [] then sent == []
    else
      var op := ops[|ops| - 1];
      match op
      case Flush => Laid(sent, ops[..|ops| - 1], start, playtime)
      case Write(pes, _, _, _, _, _, _) =>
        && WellFormed(pes)
        && exists k :: 0 <= k <= |sent| && Laid(sent[..k], ops[..|ops| - 1], start, playtime)
                       && CutTo(sent[k..], CallFor(op, start, playtime), EsOf(pes), |EsOf(pes)|)
  }

  lemma NothingLaid(start: real, playtime: real)
    ensures Laid([], [], start, playtime)
  {
  }

  lemma LaidFlush(sent: seq<Pes>, ops: seq<Op>, i: nat, start: real, playtime: real)
    requires i < |ops| && ops[i] == Flush && Laid(sent, ops[..i], start, playtime)
    ensures Laid(sent, ops[..i + 1], start, playtime)
  {
    assert ops[..i + 1][..i] == ops[..i];
  }

  lemma LaidWrite(sent: seq<Pes>, added: seq<Pes>, ops: seq<Op>, i: nat, start: real, playtime: real)
    requires i < |ops| && ops[i].Write? && WellFormed(ops[i].pes) && Laid(sent, ops[..i], start, playtime)
    requires CutTo(added, CallFor(ops[i], start, playtime), EsOf(ops[i].pes), |EsOf(ops[i].pes)|)
    ensures Laid(sent + added, ops[..i + 1], start, playtime)
  {
    hide CutTo;
    hide WellFormed;
    hide EsOf;
    assert ops[..i + 1][..i] == ops[..i];
    assert (sent + added)[..|sent|] == sent && (sent + added)[|sent|..] == added;
  }

  /** The pieces of a call show what they have to. */
  lemma {:induction false} CutShows(pieces: seq<Pes>, op: Op, es: seq<byte>, done: nat, start: real, playtime: real)
    requires op.Write? && WellFormed(op.pes) && es == EsOf(op.pes) && done <= |es|
    requires CutTo(pieces, CallFor(op, start, playtime), es, done)
    ensures Stream(UnitsOf(pieces), op.pes[3]) == es[..done] && (pieces == [] <==> done == 0)
    ensures ShowsUnits(UnitsOf(pieces), op, start, playtime)
    decreases |pieces|
  {
    CallFields(op, start, playtime);
    hide *;
    CutLast(pieces, CallFor(op, start, playtime), es, done);
    if pieces == [] {
      UnitsOfNothing();
      NoStream(op, start, playtime);
    } else {
      var init, p := pieces[..|pieces| - 1], pieces[|pieces| - 1];
      var from := done - |p.es|;
      CutShows(init, op, es, from, start, playtime);
      PieceShows(p, op, from, start, playtime);
      ShowsMore(init, p, op, start, playtime);
      LastApart(pieces);
      SlicesJoin(es, from, done);
    }
  }

  lemma LastApart<T>(s: seq<T>)
    requires s != []
    ensures s[..|s| - 1] + [s[|s| - 1]] == s
  {
  }

  lemma SlicesJoin<T>(s: seq<T>, from: nat, to: nat)
    requires from <= to <= |s|
    ensures s[..from] + s[from..to] == s[..to]
  {
  }

  lemma NoStream(op: Op, start: real, playtime: real)
    requires op.Write? && WellFormed(op.pes)
    ensures Stream([], op.pes[3]) == [] && ShowsUnits([], op, start, playtime)
  {
  }

  lemma CallFields(op: Op, start: real, playtime: real)
    requires op.Write? && WellFormed(op.pes)
    ensures CallFor(op, start, playtime).sid == op.pes[3] && CallFor(op, start, playtime).size == |EsOf(op.pes)|
  {
  }

  lemma CutLast(pieces: seq<Pes>, c: Call, es: seq<byte>, done: nat)
    requires |es| == c.size && done <= |es| && CutTo(pieces, c, es, done)
    ensures if pieces == [] then done == 0 else
            var p := pieces[|pieces| - 1];
            var from := done - |p.es|;
            && 0 <= from < done && p.sid == c.sid && p.es == es[from..done]
            && p.pts == StampAt(c, from) && (p.opens.Some? ==> p.opens.value == ScrAt(c, from))
            && CutTo(pieces[..|pieces| - 1], c, es, from)
  {
    hide StampAt;
    hide ScrAt;
  }

  lemma ShowsMore(init: seq<Pes>, p: Pes, op: Op, start: real, playtime: real)
    requires op.Write? && WellFormed(op.pes) && p.sid == op.pes[3]
    requires ShowsUnits(UnitsOf(init), op, start, playtime)
    requires ShowsUnit(UnitOf(p), op, |Stream(UnitsOf(init), op.pes[3])|, init == [], start, playtime)
    ensures Stream(UnitsOf(init + [p]), op.pes[3]) == Stream(UnitsOf(init), op.pes[3]) + p.es
    ensures ShowsUnits(UnitsOf(init + [p]), op, start, playtime)
  {
    var sid := op.pes[3];
    hide ShowsUnit;
    hide WellFormed;
    UnitIs(p);
    hide UnitOf;
    var us := UnitsOf(init);
    var all := UnitsOf(init + [p]);
    assert all == us + [UnitOf(p)];
    assert all[..|us|] == us;
    forall k | 0 <= k <= |init| ensures ShowsUnit(all[k], op, |Stream(all[..k], sid)|, k == 0, start, playtime) {
      if k < |us| {
        assert all[..k] == us[..k];
      }
    }
  }

  lemma UnitIs(p: Pes)
    ensures UnitOf(p).es == p.es && UnitOf(p).sid == p.sid
  {
  }

  /** Stamp by stamp. */
  lemma PieceShows(p: Pes, op: Op, from: nat, start: real, playtime: real)
    requires op.Write? && WellFormed(op.pes) && from < |EsOf(op.pes)| && p.es != [] && p.sid == op.pes[3]
    requires p.pts == StampAt(CallFor(op, start, playtime), from)
    ensures ShowsUnit(UnitOf(p), op, from, from == 0, start, playtime)
  {
    PieceStamp(op, from, start, playtime);
    hide StampAt;
    hide StampFor;
    hide Stamps;
    hide WellFormed;
    hide EsOf;
  }

  lemma PieceStamp(op: Op, from: nat, start: real, playtime: real)
    requires op.Write? && WellFormed(op.pes) && from < |EsOf(op.pes)|
    ensures StampAt(CallFor(op, start, playtime), from)
            == if Stamps(op, from == 0) then Some(StampFor(op, from, start, playtime)) else None
  {
    hide PtsDiff;
    hide Ticks;
    hide TimeOf;
    hide PartOf;
    hide EsOf;
    assert TimeOf(op.pes) + 0.0 == TimeOf(op.pes);
    hide WellFormed;
  }

  lemma CallShows(pieces: seq<Pes>, op: Op, start: real, playtime: real)
    requires op.Write? && WellFormed(op.pes)
    requires CutTo(pieces, CallFor(op, start, playtime), EsOf(op.pes), |EsOf(op.pes)|)
    ensures ShowsCall(UnitsOf(pieces), op, start, playtime)
  {
    hide CutTo;
    hide ShowsUnit;
    hide WellFormed;
    var es := EsOf(op.pes);
    CutShows(pieces, op, es, |es|, start, playtime);
    assert es[..|es|] == es;
  }

  lemma NothingShows(start: real, playtime: real)
    ensures Shows(UnitsOf([]), [], start, playtime)
  {
  }

  lemma ShowsFlush(us: seq<Unit>, ops: seq<Op>, i: nat, start: real, playtime: real)
    requires i < |ops| && ops[i] == Flush && Shows(us, ops[..i], start, playtime)
    ensures Shows(us, ops[..i + 1], start, playtime)
  {
    assert ops[..i + 1][..i] == ops[..i];
  }

  lemma ShowsWrite(sent: seq<Pes>, added: seq<Pes>, ops: seq<Op>, i: nat, start: real, playtime: real)
    requires i < |ops| && ops[i].Write? && WellFormed(ops[i].pes)
    requires Shows(UnitsOf(sent), ops[..i], start, playtime) && ShowsCall(UnitsOf(added), ops[i], start, playtime)
    ensures Shows(UnitsOf(sent + added), ops[..i + 1], start, playtime)
  {
    hide ShowsCall;
    hide WellFormed;
    UnitsOfAppend(sent, added);
    assert ops[..i + 1][..i] == ops[..i];
    var us, vs := UnitsOf(sent), UnitsOf(added);
    assert (us + vs)[..|us|] == us && (us + vs)[|us|..] == vs;
  }

  lemma NothingSupplied()
    ensures OpsOk([]) && Heads([]) == 0 && forall sid :: Stream(UnitsOf([]), sid) == [] && Supplied([], sid) == []
  {
    UnitsOfNothing();
  }

  lemma SuppliedFlush(ops: seq<Op>, i: nat)
    requires OpsOk(ops) && i < |ops| && ops[i] == Flush
    ensures OpsOk(ops[..i]) && OpsOk(ops[..i + 1])
    ensures forall sid :: Supplied(ops[..i + 1], sid) == Supplied(ops[..i], sid)
  {
    assert ops[..i + 1][..i] == ops[..i];
  }

  lemma SuppliedWrite(ops: seq<Op>, i: nat, sent: seq<Pes>, added: seq<Pes>, start: real, playtime: real)
    requires OpsOk(ops) && i < |ops| && ops[i].Write? && OpsOk(ops[..i])
    requires WellFormed(ops[i].pes)
    requires var op := ops[i];
             var c := CallOf(op.pes, op.scr, op.stamp, op.stampAll, op.pesDuration, op.scrDuration, start, playtime);
             c.size == |EsOf(op.pes)| && CutTo(added, c, EsOf(op.pes), |EsOf(op.pes)|)
    requires forall sid :: Stream(UnitsOf(sent), sid) == Supplied(ops[..i], sid)
    ensures OpsOk(ops[..i + 1])
    ensures forall sid :: Stream(UnitsOf(sent + added), sid) == Supplied(ops[..i + 1], sid)
  {
    hide CutTo;
    hide UnitsOf;
    hide Stream;
    var op := ops[i];
    var es := EsOf(op.pes);
    var c := CallOf(op.pes, op.scr, op.stamp, op.stampAll, op.pesDuration, op.scrDuration, start, playtime);
    forall sid ensures Stream(UnitsOf(sent + added), sid) == Supplied(ops[..i + 1], sid) {
      assert ops[..i + 1][..i] == ops[..i];
      UnitsOfAppend(sent, added);
      StreamAppend(UnitsOf(sent), UnitsOf(added), sid);
      CutStream(added, c, es, |es|, sid);
      assert es[..|es|] == es;
    }
  }
}
