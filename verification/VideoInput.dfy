/**
 find_next_video_packet and create_video_pes of grab's Remuxer: video sequences are found in
 the incoming data and cut at picture boundaries into PES packets.
 */
module VideoInput {

  import opened Bytes
  import opened Clock
  import opened Packs
  import opened PesPackets
  import opened PesScanner
  import opened PackWriter
  import opened AudioInput

  const MAX_VIDEO_PACKETS := 200
  const VBUF_SIZE := 2 * 1024 * 1024
  const MAX_VIDEO_PER_PES := 0xffff - (9 + 5)
  /** 90000 / frame_rate with the frame rate at its constant 25. */
  const TICKS_PER_PICTURE := 3600.0

  predicate CodeAt(s: seq<byte>, pos: nat, code: byte) {
    pos + 4 < |s| && s[pos] == 0 && s[pos + 1] == 0 && s[pos + 2] == 1 && s[pos + 3] == code
  }

  // ------------------------------------------------------------------ finding sequences

  /** The plausibility tests on a sequence header: width, height and two marker bits. */
  predicate SequenceHeaderOk(s: seq<byte>, pos: nat)
    requires pos + 12 <= |s|
  {
    && !(s[pos + 4] == 0 && s[pos + 5] < 0x10) && !(s[pos + 5] % 16 == 0 && s[pos + 6] == 0)
    && s[pos + 10] / 32 % 2 == 1 && s[pos + 11] / 4 % 2 == 0
  }

  /** The first sequence start code at or after `from`, or the end of the data. */
  ghost function NextSequence(s: seq<byte>, from: nat): (r: nat)
    requires from <= |s|
    ensures from <= r <= |s| && (r < |s| ==> CodeAt(s, r, 0xb3))
    ensures forall q: nat :: from <= q < r ==> !CodeAt(s, q, 0xb3)
    decreases |s| - from
  {
    if from == |s| || CodeAt(s, from, 0xb3) then from else NextSequence(s, from + 1)
  }

  /**
   What the data received so far says about position `pos`: a sequence begins there and ends at the
   next sequence start code, or none does, or it cannot be told yet.
   */
  ghost function LookSeq(s: seq<byte>, pos: nat): (v: Verdict)
    ensures v.Packet? ==> 12 <= v.len && pos + v.len <= |s|
  {
    if pos + 5 > |s| then NeedMore
    else if !CodeAt(s, pos, 0xb3) then Junk
    else if pos + 12 > |s| then NeedMore
    else if !SequenceHeaderOk(s, pos) then Junk
    else
      var end := NextSequence(s, pos + 12);
      if end == |s| then NeedMore else Packet(end - pos)
  }

  ghost predicate NoSeqs(s: seq<byte>, a: nat, b: nat) {
    forall q: nat :: a <= q < b ==> LookSeq(s, q) == Junk
  }

  /** The one-shot scanner: every sequence of `s` from `pos` on, as far as `s` tells. */
  ghost function ScanSeqs(s: seq<byte>, pos: nat): (r: seq<Span>)
    decreases |s| - pos
  {
    match LookSeq(s, pos)
    case NeedMore => []
    case Junk => ScanSeqs(s, pos + 1)
    case Packet(n) => [Span(pos, n)] + ScanSeqs(s, pos + n)
  }

  /** A sequence start code with an implausible header. */
  predicate ImplausibleAt(s: seq<byte>, pos: nat) {
    CodeAt(s, pos, 0xb3) && pos + 12 <= |s| && !SequenceHeaderOk(s, pos)
  }

  lemma NextSequenceUnique(s: seq<byte>, from: nat, r: nat)
    requires from <= r < |s| && CodeAt(s, r, 0xb3) && forall q: nat :: from <= q < r ==> !CodeAt(s, q, 0xb3)
    ensures NextSequence(s, from) == r
  {
    hide CodeAt;
  }

  lemma NoNextSequence(s: seq<byte>, from: nat)
    requires from <= |s| && forall q: nat :: from <= q < |s| ==> !CodeAt(s, q, 0xb3)
    ensures NextSequence(s, from) == |s|
  {
    hide CodeAt;
  }

  /** Verdicts are final: more data never changes them. */
  lemma LookSeqStable(s: seq<byte>, s': seq<byte>, pos: nat)
    requires s <= s' && LookSeq(s, pos) != NeedMore
    ensures LookSeq(s', pos) == LookSeq(s, pos)
  {
    assert forall q: nat :: q + 5 <= |s| ==> CodeAt(s', q, 0xb3) == CodeAt(s, q, 0xb3);
    if LookSeq(s, pos).Packet? {
      NextSequenceUnique(s', pos + 12, NextSequence(s, pos + 12));
    }
  }

  /** Looking into a part of the stream is looking into the stream. */
  lemma LookSeqSuffix(s: seq<byte>, k: nat, pos: nat)
    requires k <= |s|
    ensures LookSeq(s[k..], pos) == LookSeq(s, k + pos)
  {
    var t := s[k..];
    assert forall q: nat :: CodeAt(t, q, 0xb3) == CodeAt(s, k + q, 0xb3);
    if pos + 12 <= |t| {
      var end := NextSequence(t, pos + 12);
      forall q: nat | k + pos + 12 <= q < k + end ensures !CodeAt(s, q, 0xb3) {
        assert CodeAt(t, q - k, 0xb3) == CodeAt(s, k + (q - k), 0xb3);
      }
      if end < |t| {
        NextSequenceUnique(s, k + pos + 12, k + end);
      } else {
        NoNextSequence(s, k + pos + 12);
      }
    }
  }

  /**
   The next sequence, or length 0 and how much of the data holds none for certain. After an
   implausible header the search goes on with a smaller idea of how much data there is, so it may
   stop early, but never wrongly.
   */
  method FindNextVideoPacket(data: seq<byte>) returns (vpStart: nat, vpLen: nat)
    ensures vpStart + vpLen <= |data|
    ensures NoSeqs(data, 0, vpStart)
    ensures vpLen > 0 ==> LookSeq(data, vpStart) == Packet(vpLen)
    ensures vpLen == 0 && LookSeq(data, vpStart) != NeedMore ==> exists q :: 0 <= q < vpStart && ImplausibleAt(data, q)
  {
    vpStart, vpLen := 0, 0;
    var valid := |data|;
    while true
      invariant valid <= |data| && vpStart <= |data| && NoSeqs(data, 0, vpStart)
      invariant valid == |data| || exists q :: 0 <= q < vpStart && ImplausibleAt(data, q)
      decreases |data| - vpStart
    {
      if valid < 4 { return; }
      while vpStart < valid - 4 && !(data[vpStart] == 0 && data[vpStart + 1] == 0 && data[vpStart + 2] == 1
                                     && data[vpStart + 3] == 0xb3)
        invariant vpStart <= |data| && NoSeqs(data, 0, vpStart)
        invariant valid == |data| || exists q :: 0 <= q < vpStart && ImplausibleAt(data, q)
      {
        vpStart := vpStart + 1;
      }
      if vpStart >= valid - 4 { return; }
      valid := valid - vpStart;
      if valid < 12 { return; }
      if (data[vpStart + 4] == 0 && data[vpStart + 5] < 0x10) || (data[vpStart + 5] % 16 == 0 && data[vpStart + 6] == 0)
         || data[vpStart + 10] / 32 % 2 == 0 || data[vpStart + 11] / 4 % 2 != 0
      {
        assert ImplausibleAt(data, vpStart);
        vpStart := vpStart + 1;
        continue;
      }
      var l := SequenceLength(data, vpStart, valid);
      if l < valid - 4 {
        NextSequenceUnique(data, vpStart + 12, vpStart + l);
        vpLen := l;
      } else if vpStart + valid == |data| {
        NoNextSequence(data, vpStart + 12);
      }
      return;
    }
  }

  /** The distance to the next sequence start code. */
  method SequenceLength(data: seq<byte>, start: nat, valid: nat) returns (l: nat)
    requires 12 <= valid && start + valid <= |data|
    ensures 12 <= l <= valid
    ensures forall q: nat :: start + 12 <= q < start + l ==> !CodeAt(data, q, 0xb3)
    ensures l < valid - 4 ==> CodeAt(data, start + l, 0xb3)
  {
    l := 12;
    while l < valid - 4 && !(data[start + l] == 0 && data[start + l + 1] == 0 && data[start + l + 2] == 1
                             && data[start + l + 3] == 0xb3)
      invariant 12 <= l <= valid
      invariant forall q: nat :: start + 12 <= q < start + l ==> !CodeAt(data, q, 0xb3)
    {
      l := l + 1;
    }
  }

  // ------------------------------------------------------------------ cutting a sequence into packets

  /** find_pic_end: the next picture start code, or the end of the data. */
  function PicEnd(s: seq<byte>, from: nat): (r: nat)
    requires from <= |s|
    ensures from <= r <= |s|
    ensures forall q: nat :: from <= q < r ==> !CodeAt(s, q, 0)
    ensures r < |s| ==> CodeAt(s, r, 0)
    decreases |s| - from
  {
    if from == |s| || CodeAt(s, from, 0) then from else PicEnd(s, from + 1)
  }

  method FindPicEnd(data: seq<byte>, offset: nat) returns (r: nat)
    requires 4 <= |data| && offset <= |data|
    ensures r == PicEnd(data, offset)
  {
    r := offset;
    while r < |data| - 4
      invariant offset <= r <= |data| && PicEnd(data, r) == PicEnd(data, offset)
    {
      if data[r] == 0 && data[r + 1] == 0 && data[r + 2] == 1 && data[r + 3] == 0 {
        return;
      }
      r := r + 1;
    }
    NoMorePictures(data, r);
    r := |data|;
  }

  lemma {:induction false} NoMorePictures(s: seq<byte>, from: nat)
    requires from <= |s| <= from + 4
    ensures PicEnd(s, from) == |s|
    decreases |s| - from
  {
    if from < |s| {
      NoMorePictures(s, from + 1);
    }
  }

  /** Picture j ends here. The first one includes everything in front of the first picture start code. */
  function Finish(s: seq<byte>, j: nat): (r: nat)
    ensures r <= |s|
  {
    var from := if j == 0 then PicEnd(s, 0) else Finish(s, j - 1);
    if from < |s| then PicEnd(s, from + 1) else |s|
  }

  function Begin(s: seq<byte>, j: nat): (r: nat)
    ensures r <= |s|
  {
    if j == 0 then 0 else Finish(s, j - 1)
  }

  lemma FirstPicture(s: seq<byte>)
    requires 4 <= |s|
    ensures Begin(s, 0) == 0 < Finish(s, 0)
    ensures Finish(s, 0) == if PicEnd(s, 0) < |s| then PicEnd(s, PicEnd(s, 0) + 1) else |s|
  {
  }

  lemma NextPicture(s: seq<byte>, j: nat)
    requires Finish(s, j) < |s|
    ensures Begin(s, j + 1) == Finish(s, j) < Finish(s, j + 1) == PicEnd(s, Finish(s, j) + 1)
  {
  }

  /** A piece's time: that of its picture, advanced by the part of the picture in front of it. */
  function PieceTicks(framePts: real, s: seq<byte>, j: nat, from: nat): nat
    requires Begin(s, j) <= from < Finish(s, j)
  {
    Ticks(framePts + TICKS_PER_PICTURE * j as real)
    + Ticks((from - Begin(s, j)) as real / (Finish(s, j) - Begin(s, j)) as real * TICKS_PER_PICTURE)
  }

  /** Packet `p` holds s[from..to], a part of picture j that is either its end or as long as can be. */
  ghost predicate VideoPiece(p: seq<byte>, framePts: real, s: seq<byte>, j: nat, from: nat, to: nat) {
    && Begin(s, j) <= from < to <= Finish(s, j) && to - from <= MAX_VIDEO_PER_PES
    && (to == Finish(s, j) || to - from == MAX_VIDEO_PER_PES)
    && p == StampedPes(0xe0, if from == 0 then 0x81 else 0x80, PieceTicks(framePts, s, j, from), s[from..to])
  }

  /** `pieces` are the first `done` bytes of the sequence; `pics` tells which picture each belongs to. */
  ghost predicate VideoPieces(pieces: seq<seq<byte>>, pics: seq<nat>, framePts: real, s: seq<byte>, done: nat)
    requires done <= |s|
    decreases |pieces|
  {
    if pieces == [] then pics == [] && done == 0
    else
      var k := |pieces| - 1;
      var n := |pieces[k]| - 14;
      && |pics| == |pieces| && 0 < n <= done
      && VideoPiece(pieces[k], framePts, s, pics[k], done - n, done)
      && VideoPieces(pieces[..k], pics[..k], framePts, s, done - n)
  }

  lemma NoVideoPieces(framePts: real, s: seq<byte>)
    ensures VideoPieces([], [], framePts, s, 0)
  {
  }

  lemma VideoPiecesSnoc(pieces: seq<seq<byte>>, pics: seq<nat>, framePts: real, s: seq<byte>, done: nat,
                        p: seq<byte>, j: nat, to: nat)
    requires done < to <= |s| && VideoPieces(pieces, pics, framePts, s, done)
    requires VideoPiece(p, framePts, s, j, done, to)
    ensures VideoPieces(pieces + [p], pics + [j], framePts, s, to)
  {
    hide VideoPiece;
    PieceLength(p, framePts, s, j, done, to);
    SamePics(pieces, pics, framePts, s, done);
    assert (pieces + [p])[..|pieces|] == pieces;
    assert (pics + [j])[..|pics|] == pics;
  }

  lemma SamePics(pieces: seq<seq<byte>>, pics: seq<nat>, framePts: real, s: seq<byte>, done: nat)
    requires done <= |s| && VideoPieces(pieces, pics, framePts, s, done)
    ensures |pics| == |pieces|
  {
  }

  lemma PieceLength(p: seq<byte>, framePts: real, s: seq<byte>, j: nat, from: nat, to: nat)
    requires VideoPiece(p, framePts, s, j, from, to)
    ensures |p| == 14 + (to - from)
  {
    hide StampedPes;
  }

  // ------------------------------------------------------------------ the packets of a sequence, read as packets

  /** A packet with the data of picture `j` of sequence `s` from `at` on, stamped for its place in the picture. */
  ghost predicate PartIs(p: seq<byte>, at: nat, j: nat, time: real, s: seq<byte>) {
    && WellFormed(p) && p[3] == 0xe0 && p[6] == (if at == 0 then 0x81 else 0x80) && PesSize(p) == |p| <= 0xffff
    && Begin(s, j) <= at < at + |EsOf(p)| <= Finish(s, j)
    && (at + |EsOf(p)| == Finish(s, j) || |EsOf(p)| == MAX_VIDEO_PER_PES)
    && TimeOf(p) == ((Ticks(time + TICKS_PER_PICTURE * j as real)
                      + Ticks((at - Begin(s, j)) as real / (Finish(s, j) - Begin(s, j)) as real * TICKS_PER_PICTURE))
                     % POW32) as real
  }

  ghost predicate PartOfPicture(p: seq<byte>, at: nat, time: real, s: seq<byte>) {
    exists j :: PartIs(p, at, j, time, s)
  }

  /** The packets hold the first `done` bytes of the sequence, each a part of one picture. */
  ghost predicate CutUpTo(pieces: seq<seq<byte>>, time: real, s: seq<byte>, done: nat)
    requires done <= |s|
  {
    && AllWellFormed(pieces) && EsOfAll(pieces) == s[..done]
    && forall k :: 0 <= k < |pieces| ==>
         AllWellFormed(pieces[..k]) && PartOfPicture(pieces[k], |EsOfAll(pieces[..k])|, time, s)
  }

  lemma NothingCut(time: real, s: seq<byte>)
    ensures CutUpTo([], time, s, 0)
  {
  }

  lemma LastPart(pieces: seq<seq<byte>>, pics: seq<nat>, time: real, s: seq<byte>, done: nat)
    requires done <= |s| && VideoPieces(pieces, pics, time, s, done)
    ensures if pieces == [] then done == 0
            else
              var k := |pieces| - 1;
              var n := |pieces[k]| - 14;
              && |pics| == |pieces| && 0 < n <= done
              && VideoPiece(pieces[k], time, s, pics[k], done - n, done)
              && VideoPieces(pieces[..k], pics[..k], time, s, done - n)
  {
    hide VideoPiece;
  }

  lemma PieceIsPart(p: seq<byte>, time: real, s: seq<byte>, j: nat, from: nat, to: nat)
    requires VideoPiece(p, time, s, j, from, to)
    ensures from < to <= |s| && PartIs(p, from, j, time, s) && EsOf(p) == s[from..to]
  {
    hide Begin;
    hide Finish;
    StampedPesReads(0xe0, if from == 0 then 0x81 else 0x80, PieceTicks(time, s, j, from), s[from..to]);
    hide StampedPes;
    hide WellFormed;
    hide EsOf;
    hide TimeOf;
    hide PesSize;
    hide Ticks;
  }

  lemma PartWellFormed(p: seq<byte>, at: nat, j: nat, time: real, s: seq<byte>)
    requires PartIs(p, at, j, time, s)
    ensures WellFormed(p) && PartOfPicture(p, at, time, s)
  {
  }

  lemma CutMore(pieces: seq<seq<byte>>, p: seq<byte>, time: real, s: seq<byte>, at: nat, to: nat)
    requires at < to <= |s| && CutUpTo(pieces, time, s, at)
    requires WellFormed(p) && PartOfPicture(p, at, time, s) && EsOf(p) == s[at..to]
    ensures CutUpTo(pieces + [p], time, s, to)
  {
    var all := pieces + [p];
    hide PartOfPicture;
    hide WellFormed;
    hide EsOf;
    assert all[..|pieces|] == pieces;
    assert s[..to] == s[..at] + s[at..to];
    forall k | 0 <= k < |all|
      ensures AllWellFormed(all[..k]) && PartOfPicture(all[k], |EsOfAll(all[..k])|, time, s)
    {
      if k < |pieces| {
        assert all[..k] == pieces[..k];
      }
    }
  }

  lemma {:induction false} PicturesAreCut(pieces: seq<seq<byte>>, pics: seq<nat>, time: real, s: seq<byte>, done: nat)
    requires done <= |s| && VideoPieces(pieces, pics, time, s, done)
    ensures CutUpTo(pieces, time, s, done)
    decreases |pieces|
  {
    hide *;
    LastPart(pieces, pics, time, s, done);
    if pieces == [] {
      NothingCut(time, s);
    } else {
      var k := |pieces| - 1;
      var at := done - (|pieces[k]| - 14);
      PicturesAreCut(pieces[..k], pics[..k], time, s, at);
      PieceIsPart(pieces[k], time, s, pics[k], at, done);
      PartWellFormed(pieces[k], at, pics[k], time, s);
      CutMore(pieces[..k], pieces[k], time, s, at, done);
      assert pieces == pieces[..k] + [pieces[k]];
    }
  }

  /** The packets together are the sequence, each with a length that fits its 16-bit field. */
  lemma VideoPiecesCover(pieces: seq<seq<byte>>, pics: seq<nat>, framePts: real, s: seq<byte>, done: nat)
    requires done <= |s| && VideoPieces(pieces, pics, framePts, s, done)
    ensures AllWellFormed(pieces) && forall p :: p in pieces ==> p[3] == 0xe0 && PesSize(p) == |p| <= 0xffff
    ensures EsOfAll(pieces) == s[..done]
  {
    PicturesAreCut(pieces, pics, framePts, s, done);
    hide VideoPieces;
    hide WellFormed;
    hide PartOfPicture;
    forall p | p in pieces ensures p[3] == 0xe0 && PesSize(p) == |p| <= 0xffff {
      var k :| 0 <= k < |pieces| && pieces[k] == p;
      PartFits(p, |EsOfAll(pieces[..k])|, framePts, s);
    }
  }

  lemma PartFits(p: seq<byte>, at: nat, time: real, s: seq<byte>)
    requires PartOfPicture(p, at, time, s)
    ensures |p| >= 9 && p[3] == 0xe0 && PesSize(p) == |p| <= 0xffff
  {
  }

  lemma PartDoneIs(left: nat, len: nat)
    requires left <= len && len > 0
    ensures 1.0 - left as real / len as real == (len - left) as real / len as real
  {
    Quotients(left as real, (len - left) as real, len as real);
  }

  lemma Quotients(a: real, b: real, c: real)
    requires a + b == c && c > 0.0
    ensures 1.0 - a / c == b / c
  {
    PartsOfOne(a / c, b / c, a, b, c);
  }

  lemma PartsOfOne(x: real, y: real, a: real, b: real, c: real)
    requires x * c == a && y * c == b && a + b == c > 0.0
    ensures x + y == 1.0
  {
    var d := x + y - 1.0;
    Factors(x, y, d, c);
    Positive(d, c);
    Positive(-d, c);
  }

  lemma Factors(x: real, y: real, d: real, c: real)
    requires d == x + y - 1.0
    ensures d * c == x * c + y * c - c
  {
  }

  lemma Positive(d: real, c: real)
    requires c > 0.0
    ensures d > 0.0 ==> d * c > 0.0 && -d * c < 0.0
  {
  }

  // ------------------------------------------------------------------ the sequences found so far

  /** A sequence found in the data, and its time; it is cut into packets, or dropped for want of a time. */
  datatype Found = Found(at: nat, len: nat, time: real) {

    predicate Cut() {
      time >= 0.0
    }
  }

  /** From `a` the scanner gets to `b` by passing exactly the sequences `found`. */
  ghost predicate Passed(s: seq<byte>, a: nat, b: nat, found: seq<Found>)
    decreases |found|
  {
    if found == [] then a <= b && NoSeqs(s, a, b)
    else
      var f := found[|found| - 1];
      && LookSeq(s, f.at) == Packet(f.len)
      && f.at + f.len <= b && NoSeqs(s, f.at + f.len, b)
      && Passed(s, a, f.at, found[..|found| - 1])
  }

  ghost function Spans(found: seq<Found>): (r: seq<Span>)
    ensures |r| == |found|
  {
    seq(|found|, i requires 0 <= i < |found| => Span(found[i].at, found[i].len))
  }

  lemma {:induction false} PassedStable(s: seq<byte>, s': seq<byte>, a: nat, b: nat, found: seq<Found>)
    requires s <= s' && Passed(s, a, b, found)
    ensures Passed(s', a, b, found)
    decreases |found|
  {
    hide LookSeq;
    if found == [] {
      NoSeqsStable(s, s', a, b);
    } else {
      var f := found[|found| - 1];
      LookSeqStable(s, s', f.at);
      NoSeqsStable(s, s', f.at + f.len, b);
      PassedStable(s, s', a, f.at, found[..|found| - 1]);
    }
  }

  lemma NoSeqsStable(s: seq<byte>, s': seq<byte>, a: nat, b: nat)
    requires s <= s' && NoSeqs(s, a, b)
    ensures NoSeqs(s', a, b)
  {
    hide LookSeq;
    forall q: nat | a <= q < b ensures LookSeq(s', q) == Junk {
      LookSeqStable(s, s', q);
    }
  }

  lemma {:induction false} NoSeqsScan(s: seq<byte>, a: nat, b: nat)
    requires a <= b && NoSeqs(s, a, b)
    ensures ScanSeqs(s, a) == ScanSeqs(s, b)
    decreases b - a
  {
    hide LookSeq;
    if a < b {
      NoSeqsScan(s, a + 1, b);
    }
  }

  /** Whatever has been passed is the beginning of what the one-shot scanner finds. */
  lemma {:induction false} PassedScan(s: seq<byte>, a: nat, b: nat, found: seq<Found>)
    requires Passed(s, a, b, found)
    ensures ScanSeqs(s, a) == Spans(found) + ScanSeqs(s, b)
    decreases |found|
  {
    hide LookSeq;
    if found == [] {
      NoSeqsScan(s, a, b);
      assert Spans(found) == [];
    } else {
      var k := |found| - 1;
      var f := found[k];
      PassedScan(s, a, f.at, found[..k]);
      NoSeqsScan(s, f.at + f.len, b);
      assert Spans(found) == Spans(found[..k]) + [Span(f.at, f.len)];
      assert Spans(found) + ScanSeqs(s, b) == Spans(found[..k]) + ([Span(f.at, f.len)] + ScanSeqs(s, b));
    }
  }

  lemma PassedJunk(s: seq<byte>, a: nat, b: nat, c: nat, found: seq<Found>)
    requires Passed(s, a, b, found) && b <= c && NoSeqs(s, b, c)
    ensures Passed(s, a, c, found)
  {
    hide LookSeq;
  }

  lemma PassedMore(s: seq<byte>, a: nat, found: seq<Found>, f: Found)
    requires Passed(s, a, f.at, found) && LookSeq(s, f.at) == Packet(f.len)
    ensures Passed(s, a, f.at + f.len, found + [f])
  {
    hide LookSeq;
    assert (found + [f])[..|found|] == found;
  }

  lemma NoSeqsShift(s: seq<byte>, k: nat, start: nat)
    requires k + start <= |s| && NoSeqs(s[k..], 0, start)
    ensures NoSeqs(s, k, k + start)
  {
    hide LookSeq;
    forall q: nat | k <= q < k + start ensures LookSeq(s, q) == Junk {
      LookSeqSuffix(s, k, q - k);
    }
  }

  /** Why a search that began at `from` goes no further than `pos`. */
  ghost predicate SeqStuck(s: seq<byte>, from: nat, pos: nat) {
    && from <= pos && NoSeqs(s, from, pos)
    && (LookSeq(s, pos) == NeedMore || exists q :: from <= q < pos && ImplausibleAt(s, q))
  }

  /** What a search of the buffer that found nothing says about the stream. */
  lemma SearchedInVain(s: seq<byte>, k: nat, start: nat)
    requires k + start <= |s| && NoSeqs(s[k..], 0, start)
    requires LookSeq(s[k..], start) != NeedMore ==> exists q :: 0 <= q < start && ImplausibleAt(s[k..], q)
    ensures SeqStuck(s, k, k + start)
  {
    hide LookSeq;
    NoSeqsShift(s, k, start);
    LookSeqSuffix(s, k, start);
    if LookSeq(s[k..], start) != NeedMore {
      var q :| 0 <= q < start && ImplausibleAt(s[k..], q);
      assert ImplausibleAt(s, k + q);
    }
  }

  // ------------------------------------------------------------------ what was cut

  ghost predicate InData(s: seq<byte>, found: seq<Found>) {
    forall f :: f in found ==> f.at + f.len <= |s|
  }

  /** The bytes of the sequences that were cut. */
  ghost function CutBytes(s: seq<byte>, found: seq<Found>): (b: seq<byte>)
    requires InData(s, found)
  {
    if found == [] then []
    else
      var f := found[|found| - 1];
      assert f in found;
      CutBytes(s, found[..|found| - 1]) + if f.Cut() then s[f.at..f.at + f.len] else []
  }

  lemma CutBytesSnoc(s: seq<byte>, found: seq<Found>, f: Found)
    requires InData(s, found) && f.at + f.len <= |s|
    ensures InData(s, found + [f])
    ensures CutBytes(s, found + [f]) == CutBytes(s, found) + if f.Cut() then s[f.at..f.at + f.len] else []
  {
    assert (found + [f])[..|found|] == found;
  }

  /** These are the packets of a sequence found, none if it has no time. */
  ghost predicate MadeOf(s: seq<byte>, f: Found, pieces: seq<seq<byte>>) {
    && f.at + f.len <= |s|
    && if f.Cut() then CutUpTo(pieces, f.time, s[f.at..f.at + f.len], f.len) else pieces == []
  }

  /** The packets `made` are those of the sequences found, sequence by sequence. */
  ghost predicate Holds(s: seq<byte>, found: seq<Found>, made: seq<seq<byte>>)
    decreases |found|
  {
    if found == [] then made == []
    else
      exists k :: 0 <= k <= |made| && Holds(s, found[..|found| - 1], made[..k])
                  && MadeOf(s, found[|found| - 1], made[k..])
  }

  lemma HoldsMore(s: seq<byte>, found: seq<Found>, made: seq<seq<byte>>, f: Found, pieces: seq<seq<byte>>)
    requires Holds(s, found, made) && MadeOf(s, f, pieces)
    ensures Holds(s, found + [f], made + pieces)
  {
    hide MadeOf;
    assert (found + [f])[..|found|] == found;
    assert (made + pieces)[..|made|] == made && (made + pieces)[|made|..] == pieces;
  }

  lemma LastHeld(s: seq<byte>, found: seq<Found>, made: seq<seq<byte>>) returns (k: nat)
    requires found != [] && Holds(s, found, made)
    ensures k <= |made| && Holds(s, found[..|found| - 1], made[..k]) && MadeOf(s, found[|found| - 1], made[k..])
  {
    hide MadeOf;
    var n := |found| - 1;
    k :| 0 <= k <= |made| && Holds(s, found[..n], made[..k]) && MadeOf(s, found[n], made[k..]);
  }

  /** So they hold exactly the bytes of the sequences that were cut. */
  lemma {:induction false} HoldsBytes(s: seq<byte>, found: seq<Found>, made: seq<seq<byte>>)
    requires Holds(s, found, made)
    ensures InData(s, found) && AllWellFormed(made) && EsOfAll(made) == CutBytes(s, found)
    decreases |found|
  {
    hide *;
    if found == [] {
      NothingHeld(s, made);
    } else {
      var n := |found| - 1;
      var k := LastHeld(s, found, made);
      HoldsBytes(s, found[..n], made[..k]);
      MadeBytes(s, found[n], made[k..]);
      assert found == found[..n] + [found[n]] && made == made[..k] + made[k..];
      CutBytesSnoc(s, found[..n], found[n]);
      EsOfAllAppend(made[..k], made[k..]);
    }
  }

  lemma NothingHeld(s: seq<byte>, made: seq<seq<byte>>)
    requires Holds(s, [], made)
    ensures made == [] && InData(s, []) && AllWellFormed([]) && EsOfAll([]) == CutBytes(s, []) == []
  {
  }

  lemma MadeBytes(s: seq<byte>, f: Found, pieces: seq<seq<byte>>)
    requires MadeOf(s, f, pieces)
    ensures f.at + f.len <= |s| && AllWellFormed(pieces)
    ensures EsOfAll(pieces) == if f.Cut() then s[f.at..f.at + f.len] else []
  {
    hide WellFormed;
    hide PartOfPicture;
    var part := s[f.at..f.at + f.len];
    assert part[..f.len] == part;
  }

  lemma {:induction false} HoldsStable(s: seq<byte>, s': seq<byte>, found: seq<Found>, made: seq<seq<byte>>)
    requires s <= s' && Holds(s, found, made)
    ensures Holds(s', found, made)
    decreases |found|
  {
    hide MadeOf;
    if found != [] {
      var n := |found| - 1;
      var k := LastHeld(s, found, made);
      HoldsStable(s, s', found[..n], made[..k]);
      MadeStable(s, s', found[n], made[k..]);
    }
  }

  lemma MadeStable(s: seq<byte>, s': seq<byte>, f: Found, pieces: seq<seq<byte>>)
    requires s <= s' && MadeOf(s, f, pieces)
    ensures MadeOf(s', f, pieces)
  {
    hide CutUpTo;
    assert s'[f.at..f.at + f.len] == s[f.at..f.at + f.len];
  }

  /** Picture `j` is the last one of the sequence. */
  ghost predicate LastPicture(s: seq<byte>, j: nat) {
    Begin(s, j) < |s| == Finish(s, j)
  }

  ghost predicate BehindPicture(s: seq<byte>, j: nat, time: real, framePts: real) {
    LastPicture(s, j) && framePts == time + TICKS_PER_PICTURE * (j + 1) as real
  }

  ghost predicate BehindAll(s: seq<byte>, time: real, framePts: real) {
    exists j :: BehindPicture(s, j, time, framePts)
  }

  /** frame_pts behind the sequence: a picture's time further for each of its pictures, if it was cut. */
  ghost predicate TimeBehind(s: seq<byte>, f: Found, framePts: real) {
    && f.at + f.len <= |s|
    && if f.Cut() then BehindAll(s[f.at..f.at + f.len], f.time, framePts) else framePts == f.time
  }

  /** frame_pts is the time behind the last sequence found. */
  ghost predicate FrameTime(s: seq<byte>, found: seq<Found>, framePts: real) {
    found != [] ==> TimeBehind(s, found[|found| - 1], framePts)
  }

  lemma FrameTimeStable(s: seq<byte>, s': seq<byte>, found: seq<Found>, framePts: real)
    requires s <= s' && FrameTime(s, found, framePts)
    ensures FrameTime(s', found, framePts)
  {
    hide BehindAll;
    if found != [] {
      var f := found[|found| - 1];
      assert s'[f.at..f.at + f.len] == s[f.at..f.at + f.len];
    }
  }

  class VideoBuffer {
    /** The valid part of the buffer vbuf. */
    var vbuf: seq<byte>
    var framePts: real
    var videoPackets: seq<seq<byte>>

    /** All data received since the buffer was last emptied, and how far it has been consumed. */
    ghost var stream: seq<byte>
    ghost var base: nat
    ghost var found: seq<Found>
    /** The packets made from it, and those made before that. */
    ghost var made: seq<seq<byte>>
    ghost var older: seq<seq<byte>>

    ghost predicate Valid()
      reads this
    {
      Queued() && Ready(base)
    }

    ghost predicate Queued()
      reads this
    {
      videoPackets == Newest(older + made, MAX_VIDEO_PACKETS)
    }

    /** In the loop, at stream position `pos`. */
    ghost predicate Ready(pos: nat)
      reads this
    {
      && base <= pos <= |stream| && vbuf == stream[base..] && |vbuf| <= VBUF_SIZE
      && Passed(stream, 0, pos, found) && Holds(stream, found, made) && FrameTime(stream, found, framePts)
    }

    /** create_video_pes */
    method CreateVideoPes(vp: seq<byte>) returns (ghost pieces: seq<seq<byte>>, ghost pics: seq<nat>)
      requires Queued() && 4 <= |vp|
      modifies this`framePts, this`videoPackets, this`made
      ensures Queued() && made == old(made) + pieces
      ensures VideoPieces(pieces, pics, old(framePts), vp, |vp|)
      ensures pics != [] && LastPicture(vp, pics[|pics| - 1])
      ensures framePts == old(framePts) + TICKS_PER_PICTURE * (pics[|pics| - 1] + 1) as real
    {
      hide VideoPiece;
      hide Newest;
      hide VideoPieces;
      hide Begin;
      hide Finish;
      hide PicEnd;
      hide CodeAt;
      FirstPicture(vp);
      ghost var start := framePts;
      ghost var j: nat := 0;
      pieces, pics := [], [];
      NoVideoPieces(framePts, vp);
      var offset := 0;
      var picEnd := FindPicEnd(vp, 0);
      if picEnd != |vp| {
        picEnd := FindPicEnd(vp, picEnd + 1);
      }
      var picLen, picLeft := picEnd, picEnd;
      while true
        invariant offset < |vp| && Begin(vp, j) <= offset < picEnd == Finish(vp, j)
        invariant picLen == picEnd - Begin(vp, j) && picLeft == picEnd - offset
        invariant framePts == start + TICKS_PER_PICTURE * j as real
        invariant VideoPieces(pieces, pics, start, vp, offset)
        invariant Queued() && made == old(made) + pieces
        decreases |vp| - offset
      {
        var payload := picEnd - offset;
        if payload > MAX_VIDEO_PER_PES {
          payload := MAX_VIDEO_PER_PES;
        }
        var packet := BuildPacket(vp, offset, payload, picLeft, picLen, start, j);
        VideoPiecesSnoc(pieces, pics, start, vp, offset, packet, j, offset + payload);
        Enqueue(packet);
        pieces, pics := pieces + [packet], pics + [j];
        offset := offset + payload;
        picLeft := picLeft - payload;
        if picLeft == 0 {
          framePts := framePts + TICKS_PER_PICTURE;
        }
        if offset >= |vp| {
          break;
        }
        if offset >= picEnd {
          NextPicture(vp, j);
          picEnd := FindPicEnd(vp, offset + 1);
          picLen, picLeft := picEnd - offset, picEnd - offset;
          j := j + 1;
        }
      }
    }

    /** Store a packet, dropping the oldest one when the queue is full. */
    method Enqueue(packet: seq<byte>)
      requires Queued()
      modifies this`videoPackets, this`made
      ensures Queued() && made == old(made) + [packet]
    {
      NewestSnoc(older + made, packet, MAX_VIDEO_PACKETS);
      Concat3(older, made, [packet]);
      if |videoPackets| >= MAX_VIDEO_PACKETS {
        videoPackets := videoPackets[1..];
      }
      videoPackets := videoPackets + [packet];
      made := made + [packet];
    }

    /** Build the packet for one piece. */
    method BuildPacket(vp: seq<byte>, offset: nat, payload: nat, picLeft: nat, picLen: nat, ghost start: real,
                       ghost j: nat)
      returns (p: seq<byte>)
      requires Begin(vp, j) <= offset < Finish(vp, j) && 0 < payload <= MAX_VIDEO_PER_PES
      requires offset + payload <= Finish(vp, j)
      requires offset + payload == Finish(vp, j) || payload == MAX_VIDEO_PER_PES
      requires picLeft == Finish(vp, j) - offset && picLen == Finish(vp, j) - Begin(vp, j)
      requires framePts == start + TICKS_PER_PICTURE * j as real
      ensures VideoPiece(p, start, vp, j, offset, offset + payload)
    {
      hide StampedPes;
      hide Begin;
      hide Finish;
      var partDone := 1.0 - picLeft as real / picLen as real;
      PartDoneIs(picLeft, picLen);
      var pts := Ticks(framePts) + Ticks(partDone * TICKS_PER_PICTURE);
      p := StampedPes(0xe0, if offset == 0 then 0x81 else 0x80, pts, vp[offset..offset + payload]);
    }

    /** Take in new data; when the buffer would overflow what it held is dropped. */
    method Receive(data: seq<byte>)
      requires Valid()
      modifies this`vbuf, this`stream, this`base, this`found, this`made, this`older
      ensures Valid()
      ensures |old(vbuf)| + |data| <= VBUF_SIZE ==>
                stream == old(stream) + data && base == old(base) && found == old(found)
                && made == old(made) && older == old(older)
      ensures |old(vbuf)| + |data| > VBUF_SIZE ==>
                stream == data[..if |data| > VBUF_SIZE then VBUF_SIZE else |data|] && base == 0 && found == []
                && made == [] && older == old(older) + old(made)
    {
      hide Passed;
      hide Holds;
      hide Newest;
      var len := |data|;
      if |vbuf| + len > VBUF_SIZE {
        if len > VBUF_SIZE {
          len := VBUF_SIZE;
        }
        NothingFound(data[..len]);
        vbuf := data[..len];
        stream, base, found := data[..len], 0, [];
        older, made := older + made, [];
        assert older + made == older;
      } else {
        PassedStable(stream, stream + data, 0, base, found);
        HoldsStable(stream, stream + data, found, made);
        FrameTimeStable(stream, stream + data, found, framePts);
        vbuf := vbuf + data;
        stream := stream + data;
      }
    }

    /** Cut the sequence at `o` in the buffer, if it has a time, and pass it. */
    method TakeSequence(o: nat, n: nat, time: real)
      requires Queued() && Ready(base + o) && 12 <= n && o + n <= |vbuf| && LookSeq(stream, base + o) == Packet(n)
      modifies this`framePts, this`videoPackets, this`found, this`made
      ensures Queued() && Ready(base + o + n)
      ensures found == old(found) + [Found(base + o, n, time)]
    {
      hide LookSeq;
      hide Passed;
      hide Holds;
      hide Newest;
      hide MadeOf;
      hide FrameTime;
      ghost var f := Found(base + o, n, time);
      BufferSlice(stream, base, o, o + n);
      ghost var before := made;
      ghost var pieces := CutSequence(vbuf[o..o + n], time, f);
      HoldsMore(stream, found, before, f, pieces);
      PassedMore(stream, 0, found, f);
      found := found + [f];
    }

    /** The time is set, and the sequence is cut if it has one. */
    method CutSequence(vp: seq<byte>, time: real, ghost f: Found) returns (ghost pieces: seq<seq<byte>>)
      requires Queued() && 4 <= |vp| && f.time == time
      requires f.at + f.len <= |stream| && vp == stream[f.at..f.at + f.len]
      modifies this`framePts, this`videoPackets, this`made
      ensures Queued() && made == old(made) + pieces && MadeOf(stream, f, pieces)
      ensures forall fs :: FrameTime(stream, fs + [f], framePts)
    {
      hide Newest;
      hide VideoPieces;
      hide CutUpTo;
      hide LastPicture;
      framePts := time;
      pieces := [];
      if time >= 0.0 {
        ghost var pics;
        pieces, pics := CreateVideoPes(vp);
        PicturesAreCut(pieces, pics, time, vp, |vp|);
        assert BehindPicture(vp, pics[|pics| - 1], time, framePts);
      }
      assert TimeBehind(stream, f, framePts);
    }

    /** The loop of supply_video_data. */
    method SupplyRounds(times: seq<real>) returns (offset: nat, ghost from: nat)
      requires Valid()
      modifies this`framePts, this`videoPackets, this`found, this`made
      ensures Queued() && base <= from && Ready(base + offset) && SeqStuck(stream, from, base + offset)
      ensures Timed(old(found), found, times)
    {
      hide *;
      offset, from := 0, base;
      var count := 0;
      ValidIsReady();
      while offset < |vbuf|
        invariant Queued() && base + offset <= |stream| && Ready(base + offset)
        invariant |found| == |old(found)| + count && Timed(old(found), found, times)
      {
        from := base + offset;
        var start, n := FindNextVideoPacket(vbuf[offset..]);
        SuffixOfSuffix(stream, base, offset);
        if n == 0 {
          SearchedInVain(stream, from, start);
          SkipTo(offset, start);
          offset := offset + start;
          return;
        }
        // the "found packet exceeds buffer" trap
        assert start + n <= |vbuf| - offset;
        SkipTo(offset, start);
        SequenceHere(stream, from, start, n);
        var time := if count < |times| then times[count] else -1.0;
        TimedMore(old(found), found, times, Found(base + (offset + start), n, time));
        TakeSequence(offset + start, n, time);
        count := count + 1;
        offset := offset + start + n;
      }
      from := base + offset;
      StuckAtEnd(stream);
    }

    lemma ValidIsReady()
      requires Valid()
      ensures Queued() && Ready(base + 0) && |vbuf| == |stream| - base && vbuf == stream[base..]
      ensures forall times :: Timed(found, found, times)
    {
    }

    lemma SkipTo(offset: nat, start: nat)
      requires Ready(base + offset) && base + offset + start <= |stream| && NoSeqs(stream[base + offset..], 0, start)
      ensures Ready(base + (offset + start))
    {
      hide NoSeqs;
      hide Passed;
      NoSeqsShift(stream, base + offset, start);
      PassedJunk(stream, 0, base + offset, base + offset + start, found);
    }

    /**
     supply_video_data. `times` are the values of frame_pts that the time stamp heuristics leave for
     the sequences as they are found. The sequences found are always the beginning of what one scan
     of the whole stream finds, however the stream was divided among the calls; the packets made hold
     exactly the bytes of those that have a time; and what is kept needs more data.
     */
    method SupplyVideoData(data: seq<byte>, times: seq<real>) returns (ghost from: nat)
      requires Valid()
      modifies this
      ensures Valid()
      ensures |old(vbuf)| + |data| <= VBUF_SIZE ==>
                stream == old(stream) + data && old(base) <= from && Timed(old(found), found, times)
                && older == old(older)
      ensures |old(vbuf)| + |data| > VBUF_SIZE ==>
                stream == data[..if |data| > VBUF_SIZE then VBUF_SIZE else |data|] && Timed([], found, times)
                && older == old(older) + old(made)
      ensures ScanSeqs(stream, 0) == Spans(found) + ScanSeqs(stream, base)
      ensures SeqStuck(stream, from, base)
    {
      hide *;
      Receive(data);
      var offset;
      offset, from := SupplyRounds(times);
      Consume(offset);
    }

    /** Keep the data behind `offset`. */
    method Consume(offset: nat)
      requires Queued() && Ready(base + offset)
      modifies this`vbuf, this`base
      ensures Valid() && base == old(base) + offset
      ensures ScanSeqs(stream, 0) == Spans(found) + ScanSeqs(stream, base)
    {
      hide Passed;
      hide Holds;
      hide Newest;
      hide ScanSeqs;
      hide Spans;
      SuffixOfSuffix(stream, base, offset);
      vbuf := vbuf[offset..];
      base := base + offset;
      PassedScan(stream, 0, base, found);
    }
  }

  /** To the sequences found before, new ones were added, with these times. */
  ghost predicate Timed(before: seq<Found>, found: seq<Found>, times: seq<real>) {
    && before <= found
    && forall i :: |before| <= i < |found| ==>
         found[i].time == if i - |before| < |times| then times[i - |before|] else -1.0
  }

  lemma TimedMore(before: seq<Found>, found: seq<Found>, times: seq<real>, f: Found)
    requires Timed(before, found, times)
    requires var i := |found| - |before|; f.time == if i < |times| then times[i] else -1.0
    ensures Timed(before, found + [f], times)
  {
  }

  lemma NothingFound(s: seq<byte>)
    ensures Passed(s, 0, 0, []) && Holds(s, [], [])
  {
  }

  lemma StuckAtEnd(s: seq<byte>)
    ensures SeqStuck(s, |s|, |s|)
  {
  }

  lemma SequenceHere(s: seq<byte>, k: nat, start: nat, n: nat)
    requires k <= |s| && LookSeq(s[k..], start) == Packet(n)
    ensures LookSeq(s, k + start) == Packet(n) && 12 <= n
  {
    hide LookSeq;
    LookSeqSuffix(s, k, start);
  }
}
