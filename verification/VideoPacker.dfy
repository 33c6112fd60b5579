/**
 ggrab's packetiser for video: fill_video_pp of pesstream with the pack buffer propack. Pictures
 from the list are laid out in packs of 2048 bytes, one PES packet to a pack; a time stamp may be
 inserted into the header after part of the payload has been stored.
 */
module VideoPacker {

  import opened Bytes
  import opened Clock
  import opened Options
  import opened Packs

  /** A listed picture. `time` is its PTS relative to the start of the recording. */
  datatype Pic = Pic(bytes: seq<byte>, time: real, startSeq: bool)

  const STREAM: byte := 0xe0

  /** The clamping and conversion done by fill_pes_pts. */
  function FillTime(pts: real): (t: nat) {
    var p := if pts > 8589934591.0 then pts - 8589934593.0 else pts;
    if p < 0.0 then 0 else p.Floor
  }

  // ------------------------------------------------------------------ the pack buffer as a value

  /** The PES header of a packet that fills `len` bytes of the pack. */
  function Header(len: nat, pts: Option<nat>): (b: seq<byte>)
    requires 6 <= len < 0x10000
    ensures |b| == if pts.Some? then 14 else 9
  {
    [0x00, 0x00, 0x01, STREAM] + Length16(len - 6)
    + if pts.Some? then [0x80, 0x80, 5] + LossyPtsBytes(pts.value) else [0x80, 0x00, 0]
  }

  /** From `pes` on the buffer holds a packet header and behind it the payload so far. */
  ghost predicate Lay(b: seq<byte>, pes: nat, pts: Option<nat>, pay: seq<byte>) {
    && |b| == PACK_SIZE && pes + 14 <= PACK_SIZE
    && var h := Header(PACK_SIZE - pes, pts);
       && pes + |h| + |pay| <= PACK_SIZE
       && b[pes..pes + |h|] == h && b[pes + |h|..pes + |h| + |pay|] == pay
  }

  lemma LayStart(b: seq<byte>, pes: nat, pts: Option<nat>)
    requires |b| == PACK_SIZE && pes + 14 <= PACK_SIZE
    ensures Lay(Blitted(b, pes, Header(PACK_SIZE - pes, pts)), pes, pts, [])
  {
    hide Header;
  }

  lemma LayMore(b: seq<byte>, pes: nat, pts: Option<nat>, pay: seq<byte>, bytes: seq<byte>)
    requires Lay(b, pes, pts, pay)
    requires var n := |Header(PACK_SIZE - pes, pts)|; pes + n + |pay| + |bytes| <= PACK_SIZE
    ensures Lay(Blitted(b, pes + |Header(PACK_SIZE - pes, pts)| + |pay|, bytes), pes, pts, pay + bytes)
  {
    hide Header;
    var n := |Header(PACK_SIZE - pes, pts)|;
    var c := Blitted(b, pes + n + |pay|, bytes);
    assert c[pes..pes + n] == b[pes..pes + n];
    assert c[pes + n..pes + n + |pay| + |bytes|] == b[pes + n..pes + n + |pay|] + bytes;
  }

  /** Moving the payload up by five bytes and rewriting the header inserts a time stamp. */
  lemma LayStamp(b: seq<byte>, pes: nat, pay: seq<byte>, t: nat)
    requires Lay(b, pes, None, pay) && pes + 14 + |pay| <= PACK_SIZE
    ensures Lay(Blitted(Blitted(b, pes + 14, b[pes + 9..pes + 9 + |pay|]), pes, Header(PACK_SIZE - pes, Some(t))), pes,
                Some(t), pay)
  {
    var h := Header(PACK_SIZE - pes, Some(t));
    assert |Header(PACK_SIZE - pes, None)| == 9 && |h| == 14;
    hide Header;
    var c := Blitted(b, pes + 14, b[pes + 9..pes + 9 + |pay|]);
    assert c[pes + 14..pes + 14 + |pay|] == pay;
    var d := Blitted(c, pes, h);
    assert d[pes + 14..pes + 14 + |pay|] == c[pes + 14..pes + 14 + |pay|];
  }

  lemma LayFlag(b: seq<byte>, pes: nat, pts: Option<nat>, pay: seq<byte>)
    requires Lay(b, pes, pts, pay)
    ensures b[pes + 8] == 0 <==> pts.None?
  {
    var h := Header(PACK_SIZE - pes, pts);
    assert h[8] == if pts.Some? then 5 else 0;
    assert b[pes + 8] == b[pes..pes + |h|][8];
  }

  /** A full pack is one PES packet to a demultiplexer, with this payload and the stamp that survived. */
  lemma LayReads(b: seq<byte>, pes: nat, pts: Option<nat>, pay: seq<byte>)
    requires Lay(b, pes, pts, pay) && pes + |Header(PACK_SIZE - pes, pts)| + |pay| == PACK_SIZE
    ensures FirstPacket(b[pes..])
            == Data(Unit(STREAM, if pts.Some? then Some(Pts33(LossyPtsBytes(pts.value))) else None, pay),
                    PACK_SIZE - pes)
  {
    hide LossyPtsBytes;
    hide Pts33;
    var s := b[pes..];
    var h := Header(PACK_SIZE - pes, pts);
    var n := |h|;
    assert s[..n] == h && s[n..] == pay;
    Length16RoundTrip(PACK_SIZE - pes - 6);
    assert h[4] == Length16(PACK_SIZE - pes - 6)[0] && h[5] == Length16(PACK_SIZE - pes - 6)[1];
    assert s[0] == h[0] && s[1] == h[1] && s[2] == h[2] && s[3] == h[3] && s[4] == h[4] && s[5] == h[5];
    assert s[6] == h[6] && s[7] == h[7] && s[8] == h[8];
    if pts.Some? {
      assert s[9..14] == h[9..14] == LossyPtsBytes(pts.value);
    }
  }

  /** A pack header with everything but the clock reference. */
  ghost predicate Head(b: seq<byte>) {
    |b| == PACK_SIZE && b[..4] == [0, 0, 1, 0xba] && b[10..14] == RateBytes()
  }

  lemma SamePrefix(a: seq<byte>, b: seq<byte>)
    requires Head(a) && |b| == PACK_SIZE && a[..14] == b[..14]
    ensures Head(b)
  {
    assert b[..4] == b[..14][..4] && a[..4] == a[..14][..4];
    assert b[10..14] == b[..14][10..] && a[10..14] == a[..14][10..];
  }

  /** Storing the clock reference completes the header and changes nothing else. */
  lemma FillScrKeeps(b: seq<byte>, scr: nat)
    requires Head(b)
    ensures var c := Blitted(b, 4, ScrBytes(scr));
            Head(c) && c[14..] == b[14..] && c[..14] == PackHeader(scr)
  {
    hide ScrBytes;
    hide RateBytes;
    var c := Blitted(b, 4, ScrBytes(scr));
    assert c[..4] == b[..4];
    assert c[10..14] == b[10..14];
    assert c[..14] == c[..4] + ScrBytes(scr) + c[10..14];
  }

  lemma PackReads(b: seq<byte>, u: Unit)
    requires Head(b) && u.sid == STREAM && FirstPacket(b[14..]) == Data(u, PACK_SIZE - 14)
    ensures DemuxPack(b) == Some([u])
  {
    hide Pts33;
    var s := b[14..];
    assert b[0] == b[..4][0] == 0 && b[1] == b[..4][1] == 0 && b[2] == b[..4][2] == 1 && b[3] == b[..4][3] == 0xba;
    assert s[3] == b[17] && s[3] == STREAM;
    assert b[13] == b[10..14][3] == 0;
    hide FirstPacket;
    assert s[PACK_SIZE - 14..] == [];
    assert Demux(s) == Some([u] + []);
    assert [u] + [] == [u];
  }

  lemma DemuxAllMore(packs: seq<seq<byte>>, units: seq<Unit>, b: seq<byte>, u: Unit)
    requires DemuxAll(packs) == Some(units) && DemuxPack(b) == Some([u])
    ensures DemuxAll(packs + [b]) == Some(units + [u])
    ensures Stream(units + [u], u.sid) == Stream(units, u.sid) + u.es
  {
    hide DemuxPack;
    assert (packs + [b])[..|packs|] == packs;
    assert (units + [u])[..|units|] == units;
  }

  // ------------------------------------------------------------------ what all packs together carry

  /** The first `k` pictures, each followed by its run of zero bytes. */
  ghost function Weave(pics: seq<Pic>, zeros: seq<nat>, k: nat): (b: seq<byte>)
    requires k <= |pics| && k <= |zeros|
  {
    if k == 0 then [] else Weave(pics, zeros, k - 1) + pics[k - 1].bytes + Fill(0, zeros[k - 1])
  }

  /** Zeros are inserted in front of a sequence start, or fewer than 30 of them at a pack's end. */
  ghost predicate ZerosOk(pics: seq<Pic>, zeros: seq<nat>) {
    |zeros| < |pics| && forall i :: 0 <= i < |zeros| ==> pics[i + 1].startSeq || zeros[i] < 30
  }

  lemma {:induction false} WeaveMore(pics: seq<Pic>, pics': seq<Pic>, zeros: seq<nat>, zeros': seq<nat>, k: nat)
    requires k <= |pics| && k <= |zeros| && pics <= pics' && zeros <= zeros'
    ensures Weave(pics', zeros', k) == Weave(pics, zeros, k)
  {
    if k > 0 {
      WeaveMore(pics, pics', zeros, zeros', k - 1);
    }
  }

  /** All pictures before `cur` have been sent with their zeros, and `done` bytes of picture `cur`. */
  ghost predicate Carried(pics: seq<Pic>, zeros: seq<nat>, cur: nat, done: int, sent: seq<byte>) {
    && cur < |pics| && |zeros| == cur && ZerosOk(pics, zeros)
    && 0 <= done <= |pics[cur].bytes|
    && sent == Weave(pics, zeros, cur) + pics[cur].bytes[..done]
  }

  lemma CarryBytes(pics: seq<Pic>, zeros: seq<nat>, cur: nat, done: int, sent: seq<byte>, n: nat)
    requires Carried(pics, zeros, cur, done, sent) && done + n <= |pics[cur].bytes|
    ensures Carried(pics, zeros, cur, done + n, sent + pics[cur].bytes[done..done + n])
  {
    hide Weave;
    var p := pics[cur].bytes;
    SplitSlice(p, 0, done, done + n);
    assert p[..done + n] == p[..done] + p[done..done + n];
  }

  lemma CarryZeros(pics: seq<Pic>, zeros: seq<nat>, cur: nat, sent: seq<byte>, z: nat)
    requires cur + 1 < |pics| && Carried(pics, zeros, cur, |pics[cur].bytes|, sent)
    requires pics[cur + 1].startSeq || z < 30
    ensures Carried(pics, zeros + [z], cur + 1, 0, sent + Fill(0, z))
  {
    var p := pics[cur].bytes;
    assert p[..|p|] == p;
    WeaveMore(pics, pics, zeros, zeros + [z], cur);
  }

  /**
   Which picture is stamped in a pack that began in picture `from`, perhaps with a stamp due, now at
   byte `done` of picture `cur` with `rest` bytes left; and sequences start only at a pack's end.
   */
  ghost predicate Marks(pics: seq<Pic>, from: nat, due: bool, rest: int, stamped: Option<nat>, cur: nat, done: int,
                        flag: bool) {
    && from <= cur < |pics| && (rest > 0 ==> !flag)
    && stamped == (if due then Some(from)
                   else if cur > from + 1 || (cur > from && (rest > 0 || done > 0)) then Some(from + 1)
                   else None)
    && forall k :: from < k <= cur && pics[k].startSeq ==> k == cur && done == 0 && flag
  }

  lemma MarksCopy(pics: seq<Pic>, from: nat, due: bool, rest: int, stamped: Option<nat>, cur: nat, done: int, n: nat)
    requires Marks(pics, from, due, rest, stamped, cur, done, false)
    requires 0 < rest && 0 <= done && n <= rest
    ensures Marks(pics, from, due, rest - n, stamped, cur, done + n, false)
  {
  }

  lemma MarksNext(pics: seq<Pic>, from: nat, due: bool, rest: nat, stamped: Option<nat>, cur: nat, done: int,
                  rest': nat, stamped': Option<nat>)
    requires Marks(pics, from, due, rest, stamped, cur, done, false) && cur + 1 < |pics|
    requires rest == 0 ==> done > 0
    requires rest' == 0 <==> rest == 0 || pics[cur + 1].startSeq || rest < 30
    requires stamped' == if stamped.None? && rest' > 0 then Some(cur + 1) else stamped
    ensures Marks(pics, from, due, rest', stamped', cur + 1, 0, pics[cur + 1].startSeq || 0 < rest < 30)
  {
  }

  // ------------------------------------------------------------------ which pictures the packs are stamped for

  /** What a demultiplexer reads of the stamp of a picture. */
  ghost function PicStamp(pics: seq<Pic>, mark: Option<nat>): Option<nat>
    requires mark.Some? ==> mark.value < |pics|
  {
    if mark.Some? then Some(Pts33(LossyPtsBytes(FillTime(pics[mark.value].time)))) else None
  }

  /**
   A pack with the bytes from `a` to `b` is stamped for a picture that begins there, and no picture
   before that one begins behind `a`; without a stamp no picture begins strictly between the two.
   */
  ghost predicate MarkOk(pics: seq<Pic>, zeros: seq<nat>, a: nat, b: nat, mark: Option<nat>) {
    && |zeros| < |pics|
    && match mark
       case Some(j) =>
         && j <= |zeros| && a <= |Weave(pics, zeros, j)| <= b
         && forall k :: 0 <= k < j ==> |Weave(pics, zeros, k)| <= a
       case None => forall k :: 0 <= k <= |zeros| ==> !(a < |Weave(pics, zeros, k)| < b)
  }

  ghost predicate MarksOk(pics: seq<Pic>, zeros: seq<nat>, units: seq<Unit>, marks: seq<Option<nat>>) {
    && |marks| == |units|
    && forall i :: 0 <= i < |units| ==> UnitMarked(pics, zeros, units, marks[i], i)
  }

  ghost predicate UnitMarked(pics: seq<Pic>, zeros: seq<nat>, units: seq<Unit>, mark: Option<nat>, i: nat)
    requires i < |units|
  {
    && (mark.Some? ==> mark.value < |pics|) && units[i].pts == PicStamp(pics, mark)
    && MarkOk(pics, zeros, |Stream(units[..i], STREAM)|, |Stream(units[..i + 1], STREAM)|, mark)
  }

  lemma NoMarks(pics: seq<Pic>, zeros: seq<nat>)
    ensures MarksOk(pics, zeros, [], [])
  {
  }

  lemma FirstCarried(pics: seq<Pic>)
    requires pics != []
    ensures Carried(pics, [], 0, 0, [])
  {
  }

  lemma {:induction false} WeaveRises(pics: seq<Pic>, zeros: seq<nat>, k: nat, l: nat)
    requires k <= l <= |zeros| && l < |pics|
    ensures |Weave(pics, zeros, k)| + (if k < l then |pics[k].bytes| else 0) <= |Weave(pics, zeros, l)|
    decreases l
  {
    if k < l {
      WeaveRises(pics, zeros, k, l - 1);
    }
  }

  lemma CarriedSize(pics: seq<Pic>, zeros: seq<nat>, cur: nat, done: int, sent: seq<byte>)
    requires Carried(pics, zeros, cur, done, sent)
    ensures cur == |zeros| < |pics| && 0 <= done <= |pics[cur].bytes|
    ensures |sent| == |Weave(pics, zeros, cur)| + done
  {
    hide Weave;
  }

  lemma MarkHolds(pics: seq<Pic>, zeros: seq<nat>, from: nat, done: int, sent: seq<byte>, due: bool,
                  zeros': seq<nat>, cur: nat, done': int, sent': seq<byte>, mark: Option<nat>)
    requires Carried(pics, zeros, from, done, sent) && Carried(pics, zeros', cur, done', sent')
    requires zeros <= zeros' && |sent| <= |sent'| && (due ==> done == 0) && from <= cur
    requires mark == (if due then Some(from)
                      else if cur > from + 1 || (cur > from && done' > 0) then Some(from + 1)
                      else None)
    ensures MarkOk(pics, zeros', |sent|, |sent'|, mark)
  {
    CarriedSize(pics, zeros, from, done, sent);
    CarriedSize(pics, zeros', cur, done', sent');
    hide Carried;
    hide Weave;
    WeaveMore(pics, pics, zeros, zeros', from);
    forall k | 0 <= k <= from ensures |Weave(pics, zeros', k)| <= |sent| {
      WeaveRises(pics, zeros', k, from);
    }
    if cur > from {
      WeaveRises(pics, zeros', from, from + 1);
      WeaveRises(pics, zeros', from + 1, cur);
    }
  }

  lemma MarkStays(pics: seq<Pic>, zeros: seq<nat>, zeros': seq<nat>, a: nat, b: nat, mark: Option<nat>,
                  cur: nat, done: int, sent: seq<byte>)
    requires Carried(pics, zeros, cur, done, sent) && b <= |sent| && MarkOk(pics, zeros, a, b, mark)
    requires zeros <= zeros' && |zeros'| < |pics|
    ensures MarkOk(pics, zeros', a, b, mark)
  {
    CarriedSize(pics, zeros, cur, done, sent);
    hide Carried;
    hide Weave;
    forall k | 0 <= k <= |zeros| ensures Weave(pics, zeros', k) == Weave(pics, zeros, k) {
      WeaveMore(pics, pics, zeros, zeros', k);
    }
    forall k | |zeros| < k <= |zeros'| ensures b <= |Weave(pics, zeros', k)| {
      WeaveRises(pics, zeros', cur, k);
    }
  }

  lemma {:induction false} StreamShorter(units: seq<Unit>, i: nat)
    requires i <= |units|
    ensures |Stream(units[..i], STREAM)| <= |Stream(units, STREAM)|
    decreases |units|
  {
    if i < |units| {
      StreamShorter(units[..|units| - 1], i);
      assert units[..|units| - 1][..i] == units[..i];
    } else {
      assert units[..i] == units;
    }
  }

  lemma MarksStay(pics: seq<Pic>, zeros: seq<nat>, zeros': seq<nat>, units: seq<Unit>, marks: seq<Option<nat>>,
                  first: bool, cur: nat, done: int, sent: seq<byte>)
    requires MarksOk(pics, zeros, units, marks) && Stream(units, STREAM) == sent && zeros <= zeros'
    requires first ==> units == []
    requires !first ==> Carried(pics, zeros, cur, done, sent) && |zeros'| < |pics|
    ensures MarksOk(pics, zeros', units, marks)
  {
    hide Carried;
    hide MarkOk;
    hide Stream;
    hide PicStamp;
    forall i | 0 <= i < |units| ensures UnitMarked(pics, zeros', units, marks[i], i) {
      assert UnitMarked(pics, zeros, units, marks[i], i);
      StreamShorter(units, i + 1);
      MarkStays(pics, zeros, zeros', |Stream(units[..i], STREAM)|, |Stream(units[..i + 1], STREAM)|, marks[i],
                cur, done, sent);
    }
  }

  /** The packs are complete and begin with the clock references given. */
  ghost predicate PacksOk(packs: seq<seq<byte>>, scrs: seq<nat>) {
    && |packs| <= |scrs|
    && forall i :: 0 <= i < |packs| ==> |packs[i]| == PACK_SIZE && packs[i][..14] == PackHeader(scrs[i])
  }

  lemma PacksMore(packs: seq<seq<byte>>, scrs: seq<nat>, b: seq<byte>)
    requires PacksOk(packs, scrs) && |packs| < |scrs|
    requires |b| == PACK_SIZE && b[..14] == PackHeader(scrs[|packs|])
    ensures PacksOk(packs + [b], scrs)
  {
    hide PackHeader;
  }

  lemma EmptyMarks(pics: seq<Pic>, zeros: seq<nat>, zeros': seq<nat>, marks: seq<Option<nat>>)
    requires MarksOk(pics, zeros, [], marks)
    ensures MarksOk(pics, zeros', [], marks)
  {
  }

  lemma MarksMore(pics: seq<Pic>, zeros: seq<nat>, units: seq<Unit>, marks: seq<Option<nat>>, mark: Option<nat>,
                  pay: seq<byte>)
    requires MarksOk(pics, zeros, units, marks) && (mark.Some? ==> mark.value < |pics|)
    requires var n := |Stream(units, STREAM)|; MarkOk(pics, zeros, n, n + |pay|, mark)
    ensures MarksOk(pics, zeros, units + [Unit(STREAM, PicStamp(pics, mark), pay)], marks + [mark])
  {
    var u := Unit(STREAM, PicStamp(pics, mark), pay);
    var all, more := units + [u], marks + [mark];
    hide UnitMarked;
    hide MarkOk;
    forall i | 0 <= i < |all| ensures UnitMarked(pics, zeros, all, more[i], i) {
      if i < |units| {
        UnitMarkedMore(pics, zeros, units, u, marks[i], i);
      } else {
        LastMarked(pics, zeros, units, mark, pay);
      }
    }
  }

  lemma UnitMarkedMore(pics: seq<Pic>, zeros: seq<nat>, units: seq<Unit>, u: Unit, mark: Option<nat>, i: nat)
    requires i < |units| && UnitMarked(pics, zeros, units, mark, i)
    ensures UnitMarked(pics, zeros, units + [u], mark, i)
  {
    hide MarkOk;
    hide Stream;
    hide PicStamp;
    assert (units + [u])[..i] == units[..i] && (units + [u])[..i + 1] == units[..i + 1];
  }

  lemma LastMarked(pics: seq<Pic>, zeros: seq<nat>, units: seq<Unit>, mark: Option<nat>, pay: seq<byte>)
    requires mark.Some? ==> mark.value < |pics|
    requires var n := |Stream(units, STREAM)|; MarkOk(pics, zeros, n, n + |pay|, mark)
    ensures UnitMarked(pics, zeros, units + [Unit(STREAM, PicStamp(pics, mark), pay)], mark, |units|)
  {
    var u := Unit(STREAM, PicStamp(pics, mark), pay);
    hide MarkOk;
    hide PicStamp;
    var all := units + [u];
    assert all[..|all|] == all && all[..|units|] == units && all[..|all| - 1] == units;
  }

  // ------------------------------------------------------------------ the packetiser

  class VideoPacker {
    const buf: array<byte>
    const pics: seq<Pic>     // what the parser lists, in order; get_elem blocks behind the last one
    var act: nat
    var first: bool
    var cur: nat
    var restlen: nat
    var flagSetPts: bool
    ghost var sent: seq<byte>
    ghost var zeros: seq<nat>

    ghost function Done(): int
      reads this
    {
      if !first && cur < |pics| then |pics[cur].bytes| - restlen else 0
    }

    /** A stamp is due at the start of the next pack. */
    ghost predicate Due()
      reads this
    {
      first || flagSetPts
    }

    /** The first picture that begins in the next pack if the pack reaches it. */
    ghost function NextBegun(): nat
      reads this
    {
      if Done() == 0 then cur else cur + 1
    }

    /** What has been put into packs so far. */
    ghost predicate Intact()
      reads this
    {
      && buf.Length == PACK_SIZE && act <= PACK_SIZE
      && if first then cur == 0 && sent == [] && zeros == []
         else cur < |pics| && |zeros| == cur && Carried(pics, zeros, cur, Done(), sent)
    }

    /**
     Between calls: pictures are not left finished; a stamp is only due at the start of a picture,
     and it is due exactly for a sequence start and for a picture before which zeros were stored.
     */
    ghost predicate Valid()
      reads this
    {
      && Intact()
      && (!first ==>
            && (restlen > 0 || Done() == 0) && (flagSetPts ==> Done() == 0)
            && (Done() == 0 && cur > 0 ==> (flagSetPts <==> pics[cur].startSeq || zeros[cur - 1] > 0)))
    }

    constructor (pictures: seq<Pic>)
      ensures Valid() && fresh(buf) && pics == pictures && first && act == 14
      ensures Headed()
    {
      var header := [0x00, 0x00, 0x01, 0xba] + Fill(0, 5) + [0x01] + RateBytes();
      buf := new byte[PACK_SIZE](i => if 0 <= i < |header| then header[i] else 0);
      pics := pictures;
      act, first, cur, restlen, flagSetPts := 14, true, 0, 0, false;
      sent, zeros := [], [];
      new;
      assert buf[..4] == header[..4] && buf[10..14] == header[10..14];
    }

    /** The stamp that picture `k` asks for. */
    ghost function StampOf(k: Option<nat>): Option<nat>
      requires k.Some? ==> k.value < |pics|
    {
      if k.Some? then Some(FillTime(pics[k.value].time)) else None
    }

    /** Open the packet: nine header bytes, and the stamp of the current picture where it is due. */
    method Open(pes: nat) returns (rest: nat, ghost stamped: Option<nat>)
      requires Valid() && !first && pes + 14 < PACK_SIZE
      modifies buf, this`flagSetPts
      ensures Intact() && !flagSetPts
      ensures stamped == (if old(flagSetPts) then Some(cur) else None)
      ensures Lay(buf[..], pes, StampOf(stamped), [])
      ensures rest == PACK_SIZE - pes - if stamped.Some? then 14 else 9
      ensures buf[..pes] == old(buf[..pes])
    {
      assert cur < |pics|;
      hide Carried;
      hide FillTime;
      rest := PACK_SIZE - pes - 9;
      stamped := None;
      LayStart(buf[..], pes, None);
      Blit(buf, pes, Header(PACK_SIZE - pes, None));
      if flagSetPts {
        flagSetPts := false;
        stamped := Some(cur);
        LayStart(buf[..], pes, Some(FillTime(pics[cur].time)));
        Blit(buf, pes, Header(PACK_SIZE - pes, Some(FillTime(pics[cur].time))));
        rest := rest - 5;
      }
    }

    /** Store bytes behind the payload. */
    method Store(pes: nat, rest: nat, bytes: seq<byte>, ghost pts: Option<nat>, ghost pay: seq<byte>)
      requires Lay(buf[..], pes, pts, pay)
      requires |bytes| <= rest == PACK_SIZE - pes - |Header(PACK_SIZE - pes, pts)| - |pay|
      modifies buf
      ensures Lay(buf[..], pes, pts, pay + bytes) && buf[..pes] == old(buf[..pes])
    {
      hide Header;
      LayMore(buf[..], pes, pts, pay, bytes);
      Blit(buf, PACK_SIZE - rest, bytes);
      assert buf[..pes] == buf[..][..pes] == old(buf[..])[..pes];
    }

    /** Copy bytes of the current picture behind the payload. */
    method CopyBytes(pes: nat, rest: nat, ghost pts: Option<nat>, ghost pay: seq<byte>)
      returns (n: nat, ghost more: seq<byte>)
      requires Intact() && !first && Lay(buf[..], pes, pts, pay)
      requires 0 < rest == PACK_SIZE - pes - |Header(PACK_SIZE - pes, pts)| - |pay|
      modifies buf, this`restlen, this`sent
      ensures Intact() && Lay(buf[..], pes, pts, pay + more) && |more| == n && sent == old(sent) + more
      ensures n == (if old(restlen) < rest then old(restlen) else rest) && restlen == old(restlen) - n
      ensures buf[..pes] == old(buf[..pes])
    {
      hide Lay;
      hide Weave;
      hide ZerosOk;
      n := if restlen < rest then restlen else rest;
      var done := |pics[cur].bytes| - restlen;
      var part := pics[cur].bytes[done..done + n];
      more := part;
      CarryBytes(pics, zeros, cur, done, sent, n);
      Store(pes, rest, part, pts, pay);
      restlen := restlen - n;
      sent := sent + part;
    }

    /** Insert a stamp into a packet that has payload already: memmove, then fill_pes_pts. */
    method Insert(pes: nat, rest: nat, t: nat, ghost pay: seq<byte>)
      requires Lay(buf[..], pes, None, pay) && 5 <= rest == PACK_SIZE - pes - 9 - |pay|
      modifies buf
      ensures Lay(buf[..], pes, Some(t), pay) && buf[..pes] == old(buf[..pes])
    {
      LayStamp(buf[..], pes, pay, t);
      hide Header;
      hide Lay;
      assert buf[..][pes + 9..pes + 9 + |pay|] == buf[pes + 9..PACK_SIZE - rest];
      Blit(buf, pes + 14, buf[pes + 9..PACK_SIZE - rest]);
      Blit(buf, pes, Header(PACK_SIZE - pes, Some(t)));
      assert buf[..pes] == buf[..][..pes] == old(buf[..])[..pes];
    }

    /** Store zeros to the end of the pack. */
    method Zero(pes: nat, rest: nat, ghost pts: Option<nat>, ghost pay: seq<byte>) returns (ghost more: seq<byte>)
      requires Lay(buf[..], pes, pts, pay)
      requires rest == PACK_SIZE - pes - |Header(PACK_SIZE - pes, pts)| - |pay|
      modifies buf
      ensures more == Fill(0, rest)
      ensures Lay(buf[..], pes, pts, pay + more) && buf[..pes] == old(buf[..pes])
    {
      hide Lay;
      more := Fill(0, rest);
      Store(pes, rest, Fill(0, rest), pts, pay);
    }

    /** Discard the finished picture and take the next one; `z` zeros were stored behind it. */
    method Take(z: nat, due: bool)
      requires Intact() && !first && restlen == 0 && cur + 1 < |pics|
      requires pics[cur + 1].startSeq || z < 30
      modifies this`cur, this`restlen, this`flagSetPts, this`sent, this`zeros
      ensures Intact() && cur == old(cur) + 1 && restlen == |pics[cur].bytes| && flagSetPts == due
      ensures sent == old(sent) + Fill(0, z) && zeros == old(zeros) + [z]
    {
      assert Done() == |pics[cur].bytes|;
      CarryZeros(pics, zeros, cur, sent, z);
      zeros, sent := zeros + [z], sent + Fill(0, z);
      cur := cur + 1;
      restlen, flagSetPts := |pics[cur].bytes|, due;
    }

    /** Insert the current picture's stamp unless the packet has one. */
    method StampLate(pes: nat, rest0: nat, ghost stamped0: Option<nat>, ghost pay: seq<byte>)
      returns (rest: nat, ghost stamped: Option<nat>)
      requires cur < |pics| && rest0 >= 30 && (stamped0.Some? ==> stamped0.value < |pics|)
      requires Lay(buf[..], pes, StampOf(stamped0), pay)
      requires rest0 == PACK_SIZE - pes - |Header(PACK_SIZE - pes, StampOf(stamped0))| - |pay|
      modifies buf
      ensures stamped == (if stamped0.None? then Some(cur) else stamped0) && buf[..pes] == old(buf[..pes])
      ensures Lay(buf[..], pes, StampOf(stamped), pay) && rest > 0
      ensures rest == PACK_SIZE - pes - |Header(PACK_SIZE - pes, StampOf(stamped))| - |pay|
    {
      rest, stamped := rest0, stamped0;
      LayFlag(buf[..], pes, StampOf(stamped0), pay);
      hide FillTime;
      hide Header;
      if buf[pes + 8] == 0 {
        Insert(pes, rest, FillTime(pics[cur].time), pay);
        stamped, rest := Some(cur), rest - 5;
      }
    }

    /** Go on to the next picture, with zeros or a late stamp as needed. */
    method NextPic(pes: nat, rest0: nat, ghost stamped0: Option<nat>, ghost pay: seq<byte>)
      returns (rest: nat, ghost stamped: Option<nat>, ghost more: seq<byte>)
      requires Intact() && !first && restlen == 0 && cur + 1 < |pics| && !flagSetPts
      requires stamped0.Some? ==> stamped0.value <= cur
      requires Lay(buf[..], pes, StampOf(stamped0), pay)
      requires rest0 == PACK_SIZE - pes - |Header(PACK_SIZE - pes, StampOf(stamped0))| - |pay|
      modifies buf, this`cur, this`restlen, this`flagSetPts, this`sent, this`zeros
      ensures Intact() && cur == old(cur) + 1 && restlen == |pics[cur].bytes|
      ensures sent == old(sent) + more && buf[..pes] == old(buf[..pes])
      ensures flagSetPts == (pics[cur].startSeq || 0 < rest0 < 30)
      ensures rest == 0 <==> rest0 == 0 || flagSetPts
      ensures zeros[cur - 1] > 0 <==> flagSetPts && rest0 > 0
      ensures stamped == if stamped0.None? && rest > 0 then Some(cur) else stamped0
      ensures Lay(buf[..], pes, StampOf(stamped), pay + more)
      ensures rest == PACK_SIZE - pes - |Header(PACK_SIZE - pes, StampOf(stamped))| - |pay + more|
      ensures old(zeros) <= zeros
    {
      rest, stamped, more := rest0, stamped0, [];
      hide Lay;
      hide Carried;
      hide Header;
      var due := pics[cur + 1].startSeq || 0 < rest < 30;
      if due {
        more := Zero(pes, rest, StampOf(stamped), pay);
        Take(rest, true);
        rest := 0;
      } else {
        Take(0, false);
        assert Fill(0, 0) == [] && pay + more == pay;
        if rest > 0 {
          rest, stamped := StampLate(pes, rest, stamped, pay);
        }
      }
    }

    /** The packet at `pes` as a demultiplexer reads it. */
    ghost predicate Delivers(pes: nat, stamped: Option<nat>, pay: seq<byte>)
      reads buf
    {
      && pes + 14 < PACK_SIZE == buf.Length
      && (stamped.Some? ==> stamped.value < |pics|)
      && |pay| == PACK_SIZE - pes - (if stamped.Some? then 14 else 9)
      && FirstPacket(buf[pes..])
         == Data(Unit(STREAM, if stamped.Some? then Some(Pts33(LossyPtsBytes(StampOf(stamped).value))) else None, pay),
                 PACK_SIZE - pes)
    }

    /** Lemma LayReads for the buffer. */
    lemma Delivered(pes: nat, stamped: Option<nat>, pay: seq<byte>)
      requires buf.Length == PACK_SIZE && pes + 14 < PACK_SIZE && (stamped.Some? ==> stamped.value < |pics|)
      requires Lay(buf[..], pes, StampOf(stamped), pay)
      requires pes + |Header(PACK_SIZE - pes, StampOf(stamped))| + |pay| == PACK_SIZE
      ensures Delivers(pes, stamped, pay)
    {
      LayReads(buf[..], pes, StampOf(stamped), pay);
      assert buf[..][pes..] == buf[pes..];
    }

    /** Fetch the first picture on the first call. */
    method Fetch() returns (ok: bool)
      requires Valid()
      modifies this`first, this`restlen, this`flagSetPts
      ensures ok <==> !old(first) || |pics| > 0
      ensures ok ==> Valid() && !first && flagSetPts == old(Due()) && Done() == old(Done())
      ensures !ok ==> Intact() && first
    {
      if !first {
        return true;
      }
      if |pics| == 0 {
        return false;
      }
      first, restlen, flagSetPts := false, |pics[0].bytes|, true;
      return true;
    }

    /** The packet so far, with `rest` bytes of the pack left. */
    ghost predicate Laid(pes: nat, rest: int, stamped: Option<nat>, pay: seq<byte>)
      reads this, buf
    {
      && buf.Length == PACK_SIZE && pes + 14 < PACK_SIZE
      && (stamped.Some? ==> stamped.value <= cur < |pics|)
      && Lay(buf[..], pes, StampOf(stamped), pay)
      && rest == PACK_SIZE - pes - |Header(PACK_SIZE - pes, StampOf(stamped))| - |pay|
    }

    lemma LaidSize(pes: nat, rest: nat, stamped: Option<nat>, pay: seq<byte>)
      requires Laid(pes, rest, stamped, pay)
      ensures |pay| < PACK_SIZE
      ensures rest == 0 ==> Delivers(pes, stamped, pay)
    {
      hide Lay;
      hide Delivers;
      if rest == 0 {
        Delivered(pes, stamped, pay);
      }
    }

    /** Which picture is stamped in a pack that began in picture `from`, and where sequences start. */
    ghost predicate Marked(from: nat, due: bool, rest: int, stamped: Option<nat>)
      reads this
    {
      && Intact() && !first && (rest == 0 ==> Valid())
      && Marks(pics, from, due, rest, stamped, cur, Done(), flagSetPts)
    }

    lemma MarksAtEnd(from: nat, due: bool, stamped: Option<nat>)
      requires Marked(from, due, 0, stamped)
      ensures Valid() && from <= cur
      ensures stamped == (if due then Some(from)
                          else if cur > from + 1 || (cur > from && Done() > 0) then Some(from + 1)
                          else None)
      ensures forall k :: from < k <= cur && pics[k].startSeq ==> k == cur && Done() == 0 && flagSetPts
    {
    }

    /** First half of a round: copy. */
    method CopyStep(pes: nat, rest0: nat, ghost stamped: Option<nat>, ghost pay: seq<byte>, ghost from: nat,
                    ghost due: bool)
      returns (rest: nat, ghost more: seq<byte>)
      requires Intact() && !first && rest0 > 0
      requires Laid(pes, rest0, stamped, pay) && Marked(from, due, rest0, stamped)
      modifies buf, this`restlen, this`sent
      ensures Intact() && sent == old(sent) + more && buf[..pes] == old(buf[..pes])
      ensures Laid(pes, rest, stamped, pay + more) && Midway(from, due, rest, stamped)
      ensures restlen > 0 ==> rest == 0 && Marked(from, due, rest, stamped)
    {
      assert 0 <= Done() && !flagSetPts;
      hide Lay;
      hide Carried;
      hide Header;
      hide Marks;
      MarksCopy(pics, from, due, rest0, stamped, cur, Done(), if restlen < rest0 then restlen else rest0);
      var n;
      n, more := CopyBytes(pes, rest0, StampOf(stamped), pay);
      rest := rest0 - n;
    }

    ghost predicate Midway(from: nat, due: bool, rest: int, stamped: Option<nat>)
      reads this
    {
      !flagSetPts && (rest == 0 ==> Done() > 0) && Marks(pics, from, due, rest, stamped, cur, Done(), false)
    }

    /** Second half: the picture is finished. */
    method NextStep(pes: nat, rest0: nat, ghost stamped0: Option<nat>, ghost pay: seq<byte>, ghost from: nat,
                    ghost due: bool)
      returns (rest: nat, ghost stamped: Option<nat>, ghost more: seq<byte>)
      requires Intact() && !first && restlen == 0 && cur + 1 < |pics|
      requires Laid(pes, rest0, stamped0, pay) && Midway(from, due, rest0, stamped0)
      modifies buf, this`cur, this`restlen, this`flagSetPts, this`sent, this`zeros
      ensures Intact() && sent == old(sent) + more && buf[..pes] == old(buf[..pes])
      ensures Laid(pes, rest, stamped, pay + more) && Marked(from, due, rest, stamped) && cur == old(cur) + 1
      ensures old(zeros) <= zeros
    {
      hide Lay;
      hide Carried;
      hide Header;
      hide Marks;
      ghost var done := Done();
      rest, stamped, more := NextPic(pes, rest0, stamped0, pay);
      MarksNext(pics, from, due, rest0, stamped0, cur - 1, done, rest, stamped);
    }

    /** One round of the loop. */
    method Round(pes: nat, rest0: nat, ghost stamped0: Option<nat>, ghost pay: seq<byte>, ghost from: nat,
                 ghost due: bool)
      returns (ok: bool, rest: nat, ghost stamped: Option<nat>, ghost more: seq<byte>)
      requires Intact() && !first && rest0 > 0
      requires Laid(pes, rest0, stamped0, pay) && Marked(from, due, rest0, stamped0)
      modifies buf, this`cur, this`restlen, this`flagSetPts, this`sent, this`zeros
      ensures Intact() && sent == old(sent) + more && buf[..pes] == old(buf[..pes])
      ensures Laid(pes, rest, stamped, pay + more)
      ensures ok ==> Marked(from, due, rest, stamped)
      ensures ok ==> old(cur) < cur < |pics| || (cur == old(cur) && rest < rest0)
      ensures !ok ==> cur + 1 == |pics| && restlen == 0
      ensures old(zeros) <= zeros
    {
      assert cur < |pics|;
      hide *;
      ok, stamped := true, stamped0;
      rest, more := CopyStep(pes, rest0, stamped0, pay, from, due);
      if restlen == 0 {
        if cur + 1 == |pics| {
          ok := false;
          return;
        }
        ghost var zs;
        rest, stamped, zs := NextStep(pes, rest, stamped, pay + more, from, due);
        Concat3(pay, more, zs);
        Concat3(old(sent), more, zs);
        more := more + zs;
      }
    }

    /** Everything after the first fetch. */
    method FillOpen() returns (ok: bool, ghost pay: seq<byte>, ghost stamped: Option<nat>)
      requires Valid() && !first && act + 14 < PACK_SIZE
      modifies this, buf
      ensures Intact() && !first && sent == old(sent) + pay && |pay| < PACK_SIZE && buf[..old(act)] == old(buf[..act])
      ensures ok ==>
                && act == PACK_SIZE && Delivers(old(act), stamped, pay)
                && Marked(old(cur), old(flagSetPts), 0, stamped)
      ensures !ok ==> cur + 1 == |pics| && restlen == 0
      ensures old(zeros) <= zeros
    {
      hide Lay;
      hide Carried;
      var pes := act;
      var rest;
      pay, ok := [], true;
      rest, stamped := Open(pes);
      hide Header;
      ghost var from, due := cur, stamped.Some?;
      assert Laid(pes, rest, stamped, pay);
      assert Marked(from, due, rest, stamped);
      hide *;
      while rest > 0
        invariant Intact() && !first && act == pes && sent == old(sent) + pay && buf[..pes] == old(buf[..act])
        invariant Laid(pes, rest, stamped, pay) && Marked(from, due, rest, stamped) && old(zeros) <= zeros
        decreases |pics| - cur, rest
      {
        ghost var more;
        ok, rest, stamped, more := Round(pes, rest, stamped, pay, from, due);
        pay := pay + more;
        if !ok {
          LaidSize(pes, rest, stamped, pay);
          return;
        }
      }
      LaidSize(pes, rest, stamped, pay);
      Commit(from, due, stamped);
    }

    method Commit(ghost from: nat, ghost due: bool, ghost stamped: Option<nat>)
      requires Marked(from, due, 0, stamped)
      modifies this`act
      ensures Marked(from, due, 0, stamped) && Intact() && !first && act == PACK_SIZE
    {
      act := PACK_SIZE;
    }

    /**
     Fill the rest of the pack with one PES packet. When the list runs dry for good, get_elem
     blocks (`ok` is false) and every listed picture has been taken completely.
     */
    method FillVideoPp() returns (ok: bool, ghost pay: seq<byte>, ghost stamped: Option<nat>)
      requires Valid() && act + 14 < PACK_SIZE
      modifies this, buf
      ensures Intact() && sent == old(sent) + pay && |pay| < PACK_SIZE && buf[..old(act)] == old(buf[..act])
      ensures ok ==> Valid() && !first && act == PACK_SIZE && Delivers(old(act), stamped, pay)
      ensures ok && old(Due()) ==> stamped == Some(old(cur))
      ensures ok && !old(Due()) ==>
                stamped == (if cur > old(cur) + 1 || (cur > old(cur) && Done() > 0) then Some(old(cur) + 1) else None)
      ensures ok && stamped.Some? ==> (stamped.value == old(NextBegun()) <==> old(Due()) || old(Done()) > 0)
      ensures ok ==> forall k :: old(cur) < k <= cur && pics[k].startSeq ==> k == cur && Done() == 0 && flagSetPts
      ensures !ok ==> if first then |pics| == 0 else cur + 1 == |pics| && restlen == 0
      ensures old(zeros) <= zeros
    {
      pay, stamped := [], None;
      ok := Fetch();
      if ok {
        ok, pay, stamped := FillOpen();
        if ok {
          MarksAtEnd(old(cur), old(Due()), stamped);
        }
      }
    }

    ghost predicate Headed()
      reads buf
    {
      buf.Length == PACK_SIZE && Head(buf[..])
    }

    /** reset, fill_video_pp and fill_scr: one pack of the program stream. */
    method MakePack(scr: nat) returns (ok: bool, ghost pay: seq<byte>, ghost mark: Option<nat>)
      requires Valid() && Headed()
      modifies this, buf
      ensures Headed() && Intact() && sent == old(sent) + pay && |pay| < PACK_SIZE && old(zeros) <= zeros
      ensures ok ==> Valid() && !first && (mark.Some? ==> mark.value < |pics|)
      ensures ok ==> DemuxPack(buf[..]) == Some([Unit(STREAM, PicStamp(pics, mark), pay)])
      ensures ok ==> MarkOk(pics, zeros, |old(sent)|, |sent|, mark)
      ensures buf[..14] == PackHeader(scr)
      ensures !ok ==> if first then |pics| == 0 else cur + 1 == |pics| && restlen == 0
    {
      hide FirstPacket;
      hide Carried;
      hide ScrBytes;
      hide LossyPtsBytes;
      hide Pts33;
      hide DemuxPack;
      hide FillTime;
      hide MarkOk;
      hide Weave;
      act := 14;
      ok, pay, mark := FillVideoPp();
      if ok {
        Begun(old(cur), old(Done()), old(sent), old(zeros), old(first), old(Due()), mark);
      }
      ghost var b := buf[..];
      SamePrefix(old(buf[..]), b);
      Blit(buf, 4, ScrBytes(scr));
      FillScrKeeps(b, scr);
      assert buf[..][..14] == buf[..14];
      if ok {
        assert b[14..] == buf[14..];
        PackReads(buf[..], Unit(STREAM, PicStamp(pics, mark), pay));
      }
    }

    /** What is stamped in the pack just filled. */
    lemma Begun(from: nat, done: int, was: seq<byte>, wereZeros: seq<nat>, wasFirst: bool, due: bool, mark: Option<nat>)
      requires Valid() && !first && wereZeros <= zeros && |was| <= |sent|
      requires if wasFirst then from == 0 && done == 0 && was == [] && wereZeros == [] && due
               else from < |pics| && Carried(pics, wereZeros, from, done, was)
      requires (due ==> done == 0) && from <= cur
      requires mark == (if due then Some(from)
                        else if cur > from + 1 || (cur > from && Done() > 0) then Some(from + 1)
                        else None)
      ensures mark.Some? ==> mark.value < |pics|
      ensures MarkOk(pics, zeros, |was|, |sent|, mark)
    {
      if wasFirst {
        FirstCarried(pics);
      }
      hide Carried;
      hide MarkOk;
      hide Weave;
      MarkHolds(pics, wereZeros, from, done, was, due, zeros, cur, Done(), sent, mark);
    }

    /** The packs written so far hold what has been sent. */
    ghost predicate Written(packs: seq<seq<byte>>, scrs: seq<nat>, units: seq<Unit>, marks: seq<Option<nat>>)
      reads this
    {
      && PacksOk(packs, scrs) && DemuxAll(packs) == Some(units) && Stream(units, STREAM) == sent
      && MarksOk(pics, zeros, units, marks) && (first ==> units == [])
    }

    lemma WrittenFacts(packs: seq<seq<byte>>, scrs: seq<nat>, units: seq<Unit>, marks: seq<Option<nat>>)
      requires Written(packs, scrs, units, marks) && Intact()
      ensures PacksOk(packs, scrs) && DemuxAll(packs) == Some(units) && Stream(units, STREAM) == sent
      ensures MarksOk(pics, zeros, units, marks) && (first ==> units == [])
      ensures !first ==> Carried(pics, zeros, cur, Done(), sent)
    {
    }

    lemma WrittenBy(packs: seq<seq<byte>>, scrs: seq<nat>, units: seq<Unit>, marks: seq<Option<nat>>)
      requires PacksOk(packs, scrs) && DemuxAll(packs) == Some(units) && Stream(units, STREAM) == sent
      requires MarksOk(pics, zeros, units, marks) && !first
      ensures Written(packs, scrs, units, marks)
    {
    }

    lemma ZerosFit()
      requires Intact()
      ensures !first ==> |zeros| < |pics|
    {
    }

    /** One more pack. */
    method NextPack(packs0: seq<seq<byte>>, scrs: seq<nat>, ghost units0: seq<Unit>, ghost marks0: seq<Option<nat>>)
      returns (packs: seq<seq<byte>>, ok: bool, ghost units: seq<Unit>, ghost open: seq<byte>,
               ghost marks: seq<Option<nat>>)
      requires Valid() && Headed() && Written(packs0, scrs, units0, marks0) && |packs0| < |scrs|
      modifies this, buf
      ensures Headed() && Intact() && |open| < PACK_SIZE
      ensures ok ==> Valid() && Written(packs, scrs, units, marks) && |packs| == |packs0| + 1 && open == []
      ensures !ok ==> packs == packs0 && PacksOk(packs, scrs) && DemuxAll(packs) == Some(units)
                      && Stream(units, STREAM) + open == sent && MarksOk(pics, zeros, units, marks)
      ensures !ok ==> if first then |pics| == 0 else cur + 1 == |pics| && restlen == 0
    {
      hide *;
      packs, units, marks := packs0, units0, marks0;
      ValidIntact();
      WrittenFacts(packs, scrs, units, marks);
      ghost var was, wereZeros, none, at, done := sent, zeros, first, cur, Done();
      ghost var mark;
      ok, open, mark := MakePack(scrs[|packs|]);
      ZerosFit();
      if units == [] {
        EmptyMarks(pics, wereZeros, zeros, marks);
      } else {
        MarksStay(pics, wereZeros, zeros, units, marks, none, at, done, was);
      }
      if ok {
        MarksMore(pics, zeros, units, marks, mark, open);
        DemuxAllMore(packs, units, buf[..], Unit(STREAM, PicStamp(pics, mark), open));
        PacksMore(packs, scrs, buf[..]);
        packs, units, marks := packs + [buf[..]], units + [Unit(STREAM, PicStamp(pics, mark), open)], marks + [mark];
        open := [];
        WrittenBy(packs, scrs, units, marks);
      }
    }

    /**
     Any number of packs: they are 2048 bytes each and begin with the clock references given, and
     demultiplexing them gives the listed pictures in order with zeros only between pictures (up to the
     last, unfinished pack). `marks` are the pictures whose time stamps the packs carry: such a picture
     begins in its pack, and none before it begins behind the pack's first byte; without a stamp none
     does at all.
     */
    method MakePacks(scrs: seq<nat>)
      returns (packs: seq<seq<byte>>, ok: bool, ghost units: seq<Unit>, ghost open: seq<byte>,
               ghost marks: seq<Option<nat>>)
      requires Valid() && first && Headed()
      modifies this, buf
      ensures PacksOk(packs, scrs) && DemuxAll(packs) == Some(units)
      ensures Intact() && Stream(units, STREAM) + open == sent && |open| < PACK_SIZE
      ensures MarksOk(pics, zeros, units, marks)
      ensures ok ==> |packs| == |scrs| && open == []
      ensures !ok ==>
                if first then |pics| == 0
                else |zeros| + 1 == |pics| && sent == Weave(pics, zeros, |pics| - 1) + pics[|pics| - 1].bytes
    {
      packs, units, open, ok, marks := [], [], [], true, [];
      NoMarks(pics, zeros);
      assert Written(packs, scrs, units, marks);
      hide *;
      while |packs| < |scrs|
        invariant Valid() && Headed() && Written(packs, scrs, units, marks) && |packs| <= |scrs| && open == []
      {
        packs, ok, units, open, marks := NextPack(packs, scrs, units, marks);
        if !ok {
          AllSent();
          return;
        }
        WrittenSize(packs, scrs, units, marks);
      }
      ValidIntact();
      WrittenFacts(packs, scrs, units, marks);
      assert Stream(units, STREAM) + open == Stream(units, STREAM);
    }

    lemma ValidIntact()
      requires Valid()
      ensures Intact()
    {
    }

    lemma WrittenSize(packs: seq<seq<byte>>, scrs: seq<nat>, units: seq<Unit>, marks: seq<Option<nat>>)
      requires Written(packs, scrs, units, marks)
      ensures |packs| <= |scrs|
    {
    }

    lemma AllSent()
      requires Intact() && if first then |pics| == 0 else cur + 1 == |pics| && restlen == 0
      ensures if first then |pics| == 0
              else |zeros| + 1 == |pics| && sent == Weave(pics, zeros, |pics| - 1) + pics[|pics| - 1].bytes
    {
      hide Weave;
    }
  }

  // ------------------------------------------------------------------ a stamp that names the wrong picture

  /** Three pictures of which the first exactly fills a stamped pack. */
  ghost predicate Sample(pics: seq<Pic>) {
    && |pics| == 3 && !pics[1].startSeq && !pics[2].startSeq
    && |pics[0].bytes| == 2020 && |pics[1].bytes| == 100 && |pics[2].bytes| == 3000
  }

  lemma WeaveSizes(pics: seq<Pic>, zeros: seq<nat>, k: nat)
    requires Sample(pics) && k <= |zeros| && k <= 2
    ensures |Weave(pics, zeros, k)|
            == if k == 0 then 0 else if k == 1 then 2020 + zeros[0] else 2120 + zeros[0] + zeros[1]
  {
    assert k >= 1 ==> |Weave(pics, zeros, k)| == |Weave(pics, zeros, k - 1)| + |pics[k - 1].bytes| + zeros[k - 1];
    assert k >= 2 ==> |Weave(pics, zeros, k - 1)| == |Weave(pics, zeros, k - 2)| + |pics[k - 2].bytes| + zeros[k - 2];
  }

  lemma AfterFirst(pics: seq<Pic>, zeros: seq<nat>, cur: nat, done: int, sent: seq<byte>)
    requires Sample(pics) && Carried(pics, zeros, cur, done, sent) && |sent| < 2020 + PACK_SIZE
    ensures !(cur == 2 && done == 3000)
    ensures |sent| == 2020 && (done < |pics[cur].bytes| || done == 0) ==> cur == 1 && done == 0 && zeros[0] == 0
    ensures |sent| >= 4040 ==> cur == 2 && done > 0
  {
    WeaveSizes(pics, zeros, cur);
  }

  /** A pack boundary that falls on the end of picture 0, with no stamp due for picture 1. */
  method ReachBoundary() returns (v: VideoPacker)
    ensures fresh(v) && fresh(v.buf) && v.Valid() && Sample(v.pics)
    ensures !v.Due() && v.cur == 1 && v.Done() == 0 && |v.sent| == 2020
  {
    v := new VideoPacker([Pic(Fill(1, 2020), 0.0, true), Pic(Fill(2, 100), 3600.0, false),
                          Pic(Fill(3, 3000), 7200.0, false)]);
    assert Sample(v.pics);
    hide Weave;
    hide FirstPacket;
    hide Sample;
    ghost var pay, stamped;
    var ok;
    ok, pay, stamped := v.FillVideoPp();
    AfterFirst(v.pics, v.zeros, v.cur, v.Done(), v.sent);
  }

  /** From there the next pack begins with picture 1 and carries the time stamp of picture 2. */
  method WrongStamp(v: VideoPacker) returns (ghost stamped: Option<nat>, ghost pay: seq<byte>)
    requires v.Valid() && Sample(v.pics) && !v.Due() && v.cur == 1 && v.Done() == 0 && |v.sent| == 2020
    modifies v, v.buf
    ensures old(v.NextBegun()) == 1 && stamped == Some(2) && v.Delivers(14, stamped, pay)
  {
    hide Weave;
    hide FirstPacket;
    v.act := 14;
    var ok;
    ok, pay, stamped := v.FillVideoPp();
    AfterFirst(v.pics, v.zeros, v.cur, v.Done(), v.sent);
  }
}
