/**
 supply_audio_data and create_audio_pes of grab's Remuxer: packets of the wanted audio stream
 are found in the incoming data, cut so that each piece fits one pack, and queued.
 */
module AudioInput {

  import opened Bytes
  import opened Clock
  import opened Options
  import opened Packs
  import opened PesPackets
  import opened PesScanner
  import opened PackWriter

  const MAX_AUDIO_PACKETS := 200
  const ABUF_SIZE := 1024 * 1024
  /** Pack size less the pack header and a stamped PES header. */
  const MAX_AUDIO_PER_PES := PACK_SIZE - (14 + 9 + 5)

  /** The audio frame sizes the cutter knows. */
  const FRAME_SIZES: seq<nat> := [576, 1792, 167]

  /** As many whole frames as fit a pack, for the last one of the frame sizes that divides the data. */
  function AudioPerPes(esSize: nat): (n: nat)
    ensures 0 < n <= MAX_AUDIO_PER_PES
    ensures n < MAX_AUDIO_PER_PES ==> exists f :: f in {576, 1792, 167} && n % f == 0 && esSize % f == 0
  {
    if esSize % 167 == 0 then 2004
    else if esSize % 1792 == 0 then 1792
    else if esSize % 576 == 0 then 1728
    else MAX_AUDIO_PER_PES
  }

  /** As many frames of that size as fit; without a frame size as much as fits. */
  lemma LastDivisorWins(esSize: nat, i: nat)
    requires i < |FRAME_SIZES|
    ensures FRAME_SIZES[i] > 0
    ensures esSize % FRAME_SIZES[i] == 0 && (forall j :: i < j < |FRAME_SIZES| ==> !Divides(j, esSize)) ==>
              var n := AudioPerPes(esSize);
              n % FRAME_SIZES[i] == 0 && n <= MAX_AUDIO_PER_PES < n + FRAME_SIZES[i]
    ensures (forall j :: 0 <= j < |FRAME_SIZES| ==> !Divides(j, esSize)) ==> AudioPerPes(esSize) == MAX_AUDIO_PER_PES
  {
    assert FRAME_SIZES[0] == 576 && FRAME_SIZES[1] == 1792 && FRAME_SIZES[2] == 167;
    assert Divides(0, esSize) <==> esSize % 576 == 0;
    assert Divides(1, esSize) <==> esSize % 1792 == 0;
    assert Divides(2, esSize) <==> esSize % 167 == 0;
  }

  predicate Divides(i: nat, esSize: nat)
    requires i < |FRAME_SIZES|
  {
    FRAME_SIZES[i] > 0 && esSize % FRAME_SIZES[i] == 0
  }

  /** A queued packet: a stamped PES header in front of `payload`. */
  function AudioPes(sid: byte, pts: nat, payload: seq<byte>): (p: seq<byte>)
    requires |payload| <= MAX_AUDIO_PER_PES
    ensures |p| == 14 + |payload|
  {
    StampedPes(sid, 0x81, pts, payload)
  }

  /** A piece is a well-formed packet that fits a pack and carries its payload and its time stamp. */
  lemma AudioPesReads(sid: byte, pts: nat, payload: seq<byte>)
    requires |payload| <= MAX_AUDIO_PER_PES
    ensures var p := AudioPes(sid, pts, payload);
            && WellFormed(p) && p[3] == sid && p[6] == 0x81 && EsOf(p) == payload
            && |p| + 14 <= PACK_SIZE && TimeOf(p) == (pts % POW32) as real
  {
    StampedPesReads(sid, 0x81, pts, payload);
  }

  /** The time stamp of the piece that starts `done` bytes into the data. */
  function PieceTime(time: real, duration: real, done: nat, size: nat): nat
    requires size > 0
  {
    Ticks(time) + Ticks(done as real / size as real * duration)
  }

  /** `pieces` are the first `done` bytes of `es`, cut and stamped in order. */
  ghost predicate Pieces(pieces: seq<seq<byte>>, sid: byte, time: real, duration: real, es: seq<byte>, done: nat)
    requires done <= |es|
    decreases |pieces|
  {
    if pieces == [] then done == 0
    else
      var k := |pieces| - 1;
      var n := |pieces[k]| - 14;
      && 0 < n <= MAX_AUDIO_PER_PES && n <= done
      && pieces[k] == AudioPes(sid, PieceTime(time, duration, done - n, |es|), es[done - n..done])
      && (done < |es| ==> n == AudioPerPes(|es|))
      && Pieces(pieces[..k], sid, time, duration, es, done - n)
  }

  ghost predicate AllWellFormed(ps: seq<seq<byte>>) {
    forall p :: p in ps ==> WellFormed(p)
  }

  /** The elementary stream data in a list of packets. */
  ghost function EsOfAll(ps: seq<seq<byte>>): (es: seq<byte>)
    requires AllWellFormed(ps)
  {
    if ps == [] then []
    else
      assert ps[|ps| - 1] in ps;
      EsOfAll(ps[..|ps| - 1]) + EsOf(ps[|ps| - 1])
  }

  /** The pieces together are the data, nothing lost and nothing added. */
  lemma {:induction false} PiecesCover(pieces: seq<seq<byte>>, sid: byte, time: real, duration: real, es: seq<byte>,
                                       done: nat)
    requires done <= |es| && Pieces(pieces, sid, time, duration, es, done)
    ensures AllWellFormed(pieces) && forall p :: p in pieces ==> p[3] == sid && |p| + 14 <= PACK_SIZE
    ensures EsOfAll(pieces) == es[..done]
    decreases |pieces|
  {
    hide AudioPes;
    hide PieceTime;
    hide WellFormed;
    hide EsOf;
    if pieces != [] {
      var k := |pieces| - 1;
      var n := |pieces[k]| - 14;
      PiecesCover(pieces[..k], sid, time, duration, es, done - n);
      AudioPesReads(sid, PieceTime(time, duration, done - n, |es|), es[done - n..done]);
      assert es[..done] == es[..done - n] + es[done - n..done];
    }
  }

  /**
   A piece of a packet with `size` bytes, cut at `at`: it holds whole frames or the rest, is marked as a
   start and stamped with the time of its place in the packet.
   */
  ghost predicate PieceIs(p: seq<byte>, at: nat, sid: byte, time: real, duration: real, size: nat) {
    && WellFormed(p) && p[3] == sid && p[6] == 0x81 && |p| + 14 <= PACK_SIZE
    && 0 < |EsOf(p)| && at + |EsOf(p)| <= size
    && (|EsOf(p)| == AudioPerPes(size) || at + |EsOf(p)| == size)
    && TimeOf(p) == ((Ticks(time) + Ticks(at as real / size as real * duration)) % POW32) as real
  }

  /** The pieces of a packet, read as packets. */
  ghost predicate CutInto(pieces: seq<seq<byte>>, sid: byte, time: real, duration: real, es: seq<byte>, done: nat)
    requires done <= |es|
  {
    && AllWellFormed(pieces) && EsOfAll(pieces) == es[..done]
    && forall k :: 0 <= k < |pieces| ==>
         && AllWellFormed(pieces[..k])
         && PieceIs(pieces[k], |EsOfAll(pieces[..k])|, sid, time, duration, |es|)
  }

  lemma {:induction false} PiecesAreCut(pieces: seq<seq<byte>>, sid: byte, time: real, duration: real, es: seq<byte>,
                                        done: nat)
    requires done <= |es| && Pieces(pieces, sid, time, duration, es, done)
    ensures CutInto(pieces, sid, time, duration, es, done)
    decreases |pieces|
  {
    hide *;
    LastPiece(pieces, sid, time, duration, es, done);
    if pieces == [] {
      NothingCut(sid, time, duration, es);
    } else {
      var k := |pieces| - 1;
      var n := |pieces[k]| - 14;
      PiecesAreCut(pieces[..k], sid, time, duration, es, done - n);
      PieceIsCut(sid, time, duration, es, done - n, n);
      CutMore(pieces[..k], pieces[k], sid, time, duration, es, done - n, n);
      assert pieces == pieces[..k] + [pieces[k]];
    }
  }

  lemma LastPiece(pieces: seq<seq<byte>>, sid: byte, time: real, duration: real, es: seq<byte>, done: nat)
    requires done <= |es| && Pieces(pieces, sid, time, duration, es, done)
    ensures if pieces == [] then done == 0
            else
              var k := |pieces| - 1;
              var n := |pieces[k]| - 14;
              && 0 < n <= MAX_AUDIO_PER_PES && n <= done && MAX_AUDIO_PER_PES == 2020
              && pieces[k] == AudioPes(sid, PieceTime(time, duration, done - n, |es|), es[done - n..done])
              && (done < |es| ==> n == AudioPerPes(|es|))
              && Pieces(pieces[..k], sid, time, duration, es, done - n)
  {
    hide AudioPes;
    hide PieceTime;
  }

  lemma NothingCut(sid: byte, time: real, duration: real, es: seq<byte>)
    ensures CutInto([], sid, time, duration, es, 0)
  {
  }

  lemma PieceIsCut(sid: byte, time: real, duration: real, es: seq<byte>, at: nat, n: nat)
    requires 0 < n <= 2020 && at + n <= |es| && (at + n < |es| ==> n == AudioPerPes(|es|))
    ensures var p := AudioPes(sid, PieceTime(time, duration, at, |es|), es[at..at + n]);
            PieceIs(p, at, sid, time, duration, |es|) && EsOf(p) == es[at..at + n]
  {
    AudioPesReads(sid, PieceTime(time, duration, at, |es|), es[at..at + n]);
    hide AudioPes;
    hide WellFormed;
    hide EsOf;
    hide TimeOf;
    hide Ticks;
    hide AudioPerPes;
  }

  lemma CutMore(pieces: seq<seq<byte>>, p: seq<byte>, sid: byte, time: real, duration: real, es: seq<byte>,
                at: nat, n: nat)
    requires at + n <= |es| && CutInto(pieces, sid, time, duration, es, at)
    requires PieceIs(p, at, sid, time, duration, |es|) && EsOf(p) == es[at..at + n]
    ensures CutInto(pieces + [p], sid, time, duration, es, at + n)
  {
    var all := pieces + [p];
    PieceWellFormed(p, at, sid, time, duration, |es|);
    hide PieceIs;
    hide WellFormed;
    hide EsOf;
    assert all[..|pieces|] == pieces;
    assert es[..at + n] == es[..at] + es[at..at + n];
    forall k | 0 <= k < |all|
      ensures AllWellFormed(all[..k]) && PieceIs(all[k], |EsOfAll(all[..k])|, sid, time, duration, |es|)
    {
      if k < |pieces| {
        assert all[..k] == pieces[..k];
      }
    }
  }

  lemma PieceWellFormed(p: seq<byte>, at: nat, sid: byte, time: real, duration: real, size: nat)
    requires PieceIs(p, at, sid, time, duration, size)
    ensures WellFormed(p) && |p| + 14 <= PACK_SIZE
  {
  }

  lemma NoPieces(sid: byte, time: real, duration: real, es: seq<byte>)
    ensures Pieces([], sid, time, duration, es, 0)
  {
  }

  lemma PiecesSnoc(pieces: seq<seq<byte>>, sid: byte, time: real, duration: real, es: seq<byte>, done: nat, n: nat)
    requires done + n <= |es| && 0 < n <= MAX_AUDIO_PER_PES && Pieces(pieces, sid, time, duration, es, done)
    requires done + n < |es| ==> n == AudioPerPes(|es|)
    ensures Pieces(pieces + [AudioPes(sid, PieceTime(time, duration, done, |es|), es[done..done + n])],
                   sid, time, duration, es, done + n)
  {
    hide AudioPes;
    hide PieceTime;
    hide AudioPerPes;
    var p := AudioPes(sid, PieceTime(time, duration, done, |es|), es[done..done + n]);
    assert (pieces + [p])[..|pieces|] == pieces;
  }

  /** At most `max` packets, the oldest dropped first. */
  function Newest<T>(q: seq<T>, max: nat): (r: seq<T>)
    ensures |r| == if |q| <= max then |q| else max
  {
    if |q| <= max then q else q[|q| - max..]
  }

  // ------------------------------------------------------------------ which packets are wanted

  /** Audio streams by their ids: private stream 1, 0xbc, and 0xc0 to 0xdf. */
  predicate AudioId(id: byte) {
    id == PRIVATE_1 || id == 0xbc || 0xc0 <= id < 0xe0
  }

  /** Whether a packet is wanted, and the wanted stream after that: the first audio stream, if none was chosen. */
  function Want(wanted: byte, id: byte): (bool, byte) {
    if wanted == 0 && AudioId(id) then (true, id) else (id == wanted, wanted)
  }

  function IdAt(s: seq<byte>, p: Span): byte
    requires p.at + 4 <= |s|
  {
    s[p.at + 3]
  }

  ghost predicate Inside(s: seq<byte>, ps: seq<Span>) {
    forall p :: p in ps ==> p.at + 4 <= |s| && p.at + p.len <= |s|
  }

  /** The packets with one stream id. */
  ghost function WithId(s: seq<byte>, ps: seq<Span>, id: byte): (r: seq<Span>)
    requires Inside(s, ps)
  {
    if ps == [] then []
    else
      var p := ps[|ps| - 1];
      assert p in ps;
      WithId(s, ps[..|ps| - 1], id) + if IdAt(s, p) == id then [p] else []
  }

  /** The packets wanted when `wanted` was the wanted stream at first, and the wanted stream after them. */
  ghost function Choice(s: seq<byte>, ps: seq<Span>, wanted: byte): (r: (seq<Span>, byte))
    requires Inside(s, ps)
  {
    if ps == [] then ([], wanted)
    else
      var p := ps[|ps| - 1];
      assert p in ps;
      var before := Choice(s, ps[..|ps| - 1], wanted);
      var now := Want(before.1, IdAt(s, p));
      (if now.0 then before.0 + [p] else before.0, now.1)
  }

  /** A packet with stream id 0 came while no stream had been chosen: it passes for wanted. */
  ghost predicate ZeroTaken(s: seq<byte>, ps: seq<Span>, wanted: byte)
    requires Inside(s, ps)
  {
    if ps == [] then false
    else
      var p := ps[|ps| - 1];
      assert p in ps;
      ZeroTaken(s, ps[..|ps| - 1], wanted) || (IdAt(s, p) == 0 && Choice(s, ps[..|ps| - 1], wanted).1 == 0)
  }

  /**
   The packets chosen are those of the stream chosen in the end, if and only if none with stream id 0
   was taken before there was a choice (or there never was one).
   */
  lemma {:induction false} ChoiceIsOneStream(s: seq<byte>, ps: seq<Span>, wanted: byte)
    requires Inside(s, ps)
    ensures var c := Choice(s, ps, wanted);
            c.0 == WithId(s, ps, c.1) <==> c.1 == 0 || !ZeroTaken(s, ps, wanted)
  {
    var c := Choice(s, ps, wanted);
    ChoiceWeights(s, ps, wanted);
    if c.1 == 0 || !ZeroTaken(s, ps, wanted) {
      ChoiceIsWithId(s, ps, wanted);
    }
  }

  /** While no stream is chosen, packets with id 0 are taken and audio packets have not been seen. */
  lemma {:induction false} ChoiceIsWithId(s: seq<byte>, ps: seq<Span>, wanted: byte)
    requires Inside(s, ps)
    requires Choice(s, ps, wanted).1 == 0 || !ZeroTaken(s, ps, wanted)
    ensures var c := Choice(s, ps, wanted);
            && c.0 == WithId(s, ps, c.1)
            && (c.1 == 0 ==> wanted == 0 && forall id :: AudioId(id) ==> WithId(s, ps, id) == [])
            && (c.1 == 0 && !ZeroTaken(s, ps, wanted) ==> c.0 == [])
    decreases |ps|
  {
    if ps != [] {
      assert ps[|ps| - 1] in ps;
      ChoiceIsWithId(s, ps[..|ps| - 1], wanted);
    }
  }

  /** Taken packets with id 0 make the choice longer than the chosen stream. */
  lemma {:induction false} ChoiceWeights(s: seq<byte>, ps: seq<Span>, wanted: byte)
    requires Inside(s, ps)
    ensures var c := Choice(s, ps, wanted);
            && (c.1 != 0 && ZeroTaken(s, ps, wanted) ==> |c.0| > |WithId(s, ps, c.1)|)
            && (c.1 == 0 ==> |c.0| == |WithId(s, ps, 0)| && forall id :: AudioId(id) ==> |WithId(s, ps, id)| == 0)
            && (c.1 == 0 && ZeroTaken(s, ps, wanted) ==> |c.0| > 0)
    decreases |ps|
  {
    if ps != [] {
      assert ps[|ps| - 1] in ps;
      ChoiceWeights(s, ps[..|ps| - 1], wanted);
    }
  }

  /** The first wanted packet at or after `pos`, as far as the data tells. */
  ghost function NextWanted(s: seq<byte>, pos: nat, wanted: byte): (at: Option<nat>)
    ensures at.Some? ==> pos <= at.value && Look(s, at.value).Packet? && Want(wanted, s[at.value + 3]).0
    decreases |s| - pos
  {
    match Look(s, pos)
    case NeedMore => None
    case Junk => NextWanted(s, pos + 1, wanted)
    case Packet(n) => if Want(wanted, s[pos + 3]).0 then Some(pos) else NextWanted(s, pos + n, wanted)
  }

  /** The next packet that is wanted while no stream is chosen has this id. */
  ghost predicate NextIs(s: seq<byte>, pos: nat, id: byte) {
    var at := NextWanted(s, pos, 0);
    at.Some? && s[at.value + 3] == id
  }

  /** The wanted stream is the one chosen by the packets passed, or, by looking ahead, by the next one. */
  ghost predicate Settled(s: seq<byte>, pos: nat, chosen: byte, wanted: byte) {
    wanted == chosen || (chosen == 0 && AudioId(wanted) && NextIs(s, pos, wanted))
  }

  /** `picked` are the wanted ones among the packets `ps` passed before `pos`. */
  ghost predicate Selected(s: seq<byte>, ps: seq<Span>, picked: seq<Span>, initial: byte, pos: nat, wanted: byte)
    requires Inside(s, ps)
  {
    var c := Choice(s, ps, initial);
    picked == c.0 && Settled(s, pos, c.1, wanted)
  }

  lemma {:induction false} ChoiceStable(s: seq<byte>, s': seq<byte>, ps: seq<Span>, wanted: byte)
    requires s <= s' && Inside(s, ps)
    ensures Inside(s', ps) && Choice(s', ps, wanted) == Choice(s, ps, wanted)
    decreases |ps|
  {
    if ps != [] {
      assert ps[|ps| - 1] in ps;
      ChoiceStable(s, s', ps[..|ps| - 1], wanted);
    }
  }

  lemma {:induction false} NextWantedStable(s: seq<byte>, s': seq<byte>, pos: nat, wanted: byte)
    requires s <= s' && NextWanted(s, pos, wanted).Some?
    ensures NextWanted(s', pos, wanted) == NextWanted(s, pos, wanted)
    decreases |s| - pos
  {
    hide Look;
    LookBounds(s, pos);
    LookStable(s, s', pos);
    match Look(s, pos)
    case Junk => NextWantedStable(s, s', pos + 1, wanted);
    case Packet(n) =>
      if !Want(wanted, s[pos + 3]).0 {
        NextWantedStable(s, s', pos + n, wanted);
      }
  }

  lemma {:induction false} NextWantedJunk(s: seq<byte>, a: nat, b: nat, wanted: byte)
    requires a <= b && Junks(s, a, b)
    ensures NextWanted(s, a, wanted) == NextWanted(s, b, wanted)
    decreases b - a
  {
    hide Look;
    if a < b {
      NextWantedJunk(s, a + 1, b, wanted);
    }
  }

  lemma {:induction false} NextWantedShift(s: seq<byte>, k: nat, pos: nat, wanted: byte)
    requires k <= |s|
    ensures NextWanted(s, k + pos, wanted) == Moved(NextWanted(s[k..], pos, wanted), k)
    decreases |s| - k - pos
  {
    hide Look;
    LookSuffix(s, k, pos);
    LookBounds(s, k + pos);
    hide Want;
    match Look(s, k + pos)
    case NeedMore =>
    case Junk => NextWantedShift(s, k, pos + 1, wanted);
    case Packet(n) =>
      assert s[k..][pos + 3] == s[k + pos + 3];
      if !Want(wanted, s[k + pos + 3]).0 {
        NextWantedShift(s, k, pos + n, wanted);
      }
  }

  ghost function Moved(at: Option<nat>, k: nat): Option<nat> {
    if at.Some? then Some(k + at.value) else None
  }

  lemma SelectedStable(s: seq<byte>, s': seq<byte>, ps: seq<Span>, picked: seq<Span>, initial: byte, pos: nat,
                       wanted: byte)
    requires s <= s' && Inside(s, ps) && Selected(s, ps, picked, initial, pos, wanted)
    ensures Inside(s', ps) && Selected(s', ps, picked, initial, pos, wanted)
  {
    hide Choice;
    hide NextWanted;
    ChoiceStable(s, s', ps, initial);
    if NextWanted(s, pos, 0).Some? {
      LookBounds(s, NextWanted(s, pos, 0).value);
      NextWantedStable(s, s', pos, 0);
    }
  }

  lemma SelectedJunk(s: seq<byte>, ps: seq<Span>, picked: seq<Span>, initial: byte, a: nat, b: nat, wanted: byte)
    requires Inside(s, ps) && Selected(s, ps, picked, initial, a, wanted) && a <= b && Junks(s, a, b)
    ensures Selected(s, ps, picked, initial, b, wanted)
  {
    hide Choice;
    hide NextWanted;
    NextWantedJunk(s, a, b, 0);
  }

  /** Asking about the packet at `at` may settle the wanted stream on it. */
  lemma SelectedAsk(s: seq<byte>, ps: seq<Span>, picked: seq<Span>, initial: byte, at: nat, len: nat, wanted: byte)
    requires Inside(s, ps) && Selected(s, ps, picked, initial, at, wanted) && Look(s, at) == Packet(len)
    ensures var w := Want(wanted, s[at + 3]);
            && Selected(s, ps, picked, initial, at, w.1)
            && w.0 == Want(Choice(s, ps, initial).1, s[at + 3]).0
  {
    hide Choice;
    hide Look;
  }

  /** Passing the packet, after looking ahead if it was wanted. */
  lemma SelectedPass(s: seq<byte>, ps: seq<Span>, picked: seq<Span>, initial: byte, at: nat, len: nat, wanted: byte,
                     after: byte)
    requires Inside(s, ps) && Look(s, at) == Packet(len) && Selected(s, ps, picked, initial, at, wanted)
    requires var w := Want(wanted, s[at + 3]).1; after == w || (w == 0 && AudioId(after) && NextIs(s, at + len, after))
    ensures Inside(s, ps + [Span(at, len)])
    ensures Selected(s, ps + [Span(at, len)], if Want(wanted, s[at + 3]).0 then picked + [Span(at, len)] else picked,
                     initial, at + len, after)
  {
    LookBounds(s, at);
    SelectedAsk(s, ps, picked, initial, at, len, wanted);
    ChoiceMore(s, ps, Span(at, len), initial);
    hide Choice;
    hide Look;
  }

  lemma ChoiceMore(s: seq<byte>, ps: seq<Span>, p: Span, wanted: byte)
    requires Inside(s, ps) && p.at + 4 <= |s| && p.at + p.len <= |s|
    ensures Inside(s, ps + [p])
    ensures var before := Choice(s, ps, wanted);
            var now := Want(before.1, IdAt(s, p));
            Choice(s, ps + [p], wanted) == (if now.0 then before.0 + [p] else before.0, now.1)
  {
    assert (ps + [p])[..|ps|] == ps;
  }

  /**
   A packet with stream id 0 and an audio packet, and no stream chosen: whatever follows, both are taken
   for audio, and the audio packet's stream is the one chosen.
   */
  lemma ZeroPasses(s: seq<byte>, n: nat, m: nat)
    requires Look(s, 0) == Packet(n) && Look(s, n) == Packet(m)
    requires s[3] == 0 && AudioId(s[n + 3])
    ensures ScanAll(s, 0) == [Span(0, n)] + [Span(n, m)] + ScanAll(s, n + m)
    ensures Choice(s, [Span(0, n)] + [Span(n, m)], 0) == ([Span(0, n)] + [Span(n, m)], s[n + 3])
    ensures WithId(s, [Span(0, n)] + [Span(n, m)], s[n + 3]) == [Span(n, m)]
  {
    LookBounds(s, 0);
    LookBounds(s, n);
    TwoPackets(s, n, m);
    var p, q, id := Span(0, n), Span(n, m), s[n + 3];
    assert IdAt(s, p) == 0 && IdAt(s, q) == id;
    hide Look;
    hide ScanAll;
    hide Choice;
    hide WithId;
    hide IdAt;
    NothingChosen(s, id);
    assert [] + [p] == [p] && [] + [q] == [q];
    ChoiceMore(s, [], p, 0);
    ChoiceMore(s, [p], q, 0);
    WithIdMore(s, [], p, id);
    WithIdMore(s, [p], q, id);
  }

  lemma NothingChosen(s: seq<byte>, id: byte)
    ensures Inside(s, []) && Choice(s, [], 0) == ([], 0) && WithId(s, [], id) == []
  {
  }

  lemma TwoPackets(s: seq<byte>, n: nat, m: nat)
    requires Look(s, 0) == Packet(n) && Look(s, n) == Packet(m)
    ensures ScanAll(s, 0) == [Span(0, n)] + [Span(n, m)] + ScanAll(s, n + m)
  {
    hide Look;
    var rest := ScanAll(s, n + m);
    assert ScanAll(s, n) == [Span(n, m)] + rest;
    assert [Span(0, n)] + ([Span(n, m)] + rest) == [Span(0, n)] + [Span(n, m)] + rest;
  }

  /** A packet with five bytes of data. */
  function FiveBytes(id: byte): (p: seq<byte>)
    ensures |p| == 14
  {
    [0, 0, 1, id, 0, 8, 0x80, 0, 0, 1, 2, 3, 4, 5]
  }

  /** Such data: a packet with stream id 0 and two audio packets, all with data. */
  lemma ZeroPacket(s: seq<byte>)
    requires s == FiveBytes(0) + FiveBytes(0xc0) + FiveBytes(0xc0)
    ensures Look(s, 0) == Packet(14) && Look(s, 14) == Packet(14) && Look(s, 28) == Packet(14)
    ensures s[3] == 0 && AudioId(s[17]) && s[31] == s[17]
    ensures WellFormed(s[0..14]) && WellFormed(s[14..28]) && WellFormed(s[28..42])
    ensures EsOf(s[0..14]) == EsOf(s[14..28]) == EsOf(s[28..42]) == [1, 2, 3, 4, 5]
  {
    assert s[0..14] == FiveBytes(0) && s[14..28] == FiveBytes(0xc0) && s[28..42] == FiveBytes(0xc0);
    hide *;
    FiveBytesAt(s, 0, 0);
    FiveBytesAt(s, 14, 0xc0);
    FiveBytesAt(s, 28, 0xc0);
    AudioC0();
  }

  lemma FiveBytesAt(s: seq<byte>, at: nat, id: byte)
    requires at + 14 <= |s| && s[at..at + 14] == FiveBytes(id) && (id == 0 || id == 0xc0)
    ensures Look(s, at) == Packet(14) && s[at + 3] == id
    ensures WellFormed(s[at..at + 14]) && EsOf(s[at..at + 14]) == [1, 2, 3, 4, 5]
  {
    FiveBytesRead(s[at..at + 14], id);
    FiveBytesLook(s, at, id);
  }

  lemma FiveBytesRead(p: seq<byte>, id: byte)
    requires p == FiveBytes(id)
    ensures WellFormed(p) && EsOf(p) == [1, 2, 3, 4, 5]
  {
    assert p[4] == 0 && p[5] == 8 && p[7] == 0 && p[8] == 0;
    assert PesSize(p) == 14;
    assert p[9..14] == [1, 2, 3, 4, 5];
  }

  lemma FiveBytesLook(s: seq<byte>, at: nat, id: byte)
    requires at + 14 <= |s| && s[at..at + 14] == FiveBytes(id) && (id == 0 || id == 0xc0)
    ensures Look(s, at) == Packet(14) && s[at + 3] == id
  {
    var p := s[at..at + 14];
    assert s[at] == p[0] && s[at + 1] == p[1] && s[at + 2] == p[2] && s[at + 3] == p[3] && s[at + 4] == p[4]
           && s[at + 5] == p[5] && s[at + 6] == p[6];
  }

  lemma AudioC0()
    ensures AudioId(0xc0)
  {
  }

  lemma WithIdMore(s: seq<byte>, ps: seq<Span>, p: Span, id: byte)
    requires Inside(s, ps) && p.at + 4 <= |s| && p.at + p.len <= |s|
    ensures Inside(s, ps + [p])
    ensures WithId(s, ps + [p], id) == WithId(s, ps, id) + if IdAt(s, p) == id then [p] else []
  {
    assert (ps + [p])[..|ps|] == ps;
  }

  // ------------------------------------------------------------------ the queue

  lemma NewestSnoc<T>(q: seq<T>, x: T, max: nat)
    requires max > 0
    ensures Newest(q + [x], max) == (if |Newest(q, max)| >= max then Newest(q, max)[1..] else Newest(q, max)) + [x]
  {
    if |q| >= max {
      DropFirst(q, x, |q| - max);
      assert Newest(q, max) == q[|q| - max..];
    }
  }

  lemma DropFirst<T>(q: seq<T>, x: T, k: nat)
    requires k < |q|
    ensures (q + [x])[k + 1..] == q[k..][1..] + [x]
  {
    assert q[k..][1..] == q[k + 1..];
  }

  /** The bytes of a packet of the stream. */
  function PacketAt(s: seq<byte>, p: Span): seq<byte>
    requires p.at + p.len <= |s|
  {
    s[p.at..p.at + p.len]
  }

  /** The elementary stream data of the picked packets. */
  ghost function EsPicked(s: seq<byte>, ps: seq<Span>): (es: seq<byte>)
    requires Picked(s, ps)
  {
    if ps == [] then []
    else
      assert ps[|ps| - 1] in ps;
      EsPicked(s, ps[..|ps| - 1]) + EsOf(PacketAt(s, ps[|ps| - 1]))
  }

  ghost predicate Picked(s: seq<byte>, ps: seq<Span>) {
    forall p :: p in ps ==> p.at + p.len <= |s| && WellFormed(PacketAt(s, p))
  }

  ghost predicate PiecesOk(made: seq<seq<byte>>) {
    AllWellFormed(made) && forall p :: p in made ==> |p| + 14 <= PACK_SIZE
  }

  lemma {:induction false} EsOfAllAppend(a: seq<seq<byte>>, b: seq<seq<byte>>)
    requires AllWellFormed(a) && AllWellFormed(b)
    ensures AllWellFormed(a + b) && EsOfAll(a + b) == EsOfAll(a) + EsOfAll(b)
    decreases |b|
  {
    hide WellFormed;
    hide EsOf;
    if b == [] {
      assert a + b == a;
    } else {
      var k := |b| - 1;
      assert b[k] in b;
      assert (a + b)[..|a + b| - 1] == a + b[..k];
      EsOfAllAppend(a, b[..k]);
    }
  }

  /** The next packet of the stream that is wanted with packet `p`: its time tells how long `p` lasts. */
  ghost function Successor(s: seq<byte>, p: Span): (q: Option<Span>)
    requires p.at + 4 <= |s|
  {
    var at := NextWanted(s, p.at + p.len, IdAt(s, p));
    if at.None? then None else Some(Span(at.value, Look(s, at.value).len))
  }

  /** The packet and the one that tells its duration are complete. */
  ghost predicate Lasts(s: seq<byte>, p: Span) {
    && p.at + 4 <= |s| && p.at + p.len <= |s| && WellFormed(PacketAt(s, p)) && Successor(s, p).Some?
    && var q := Successor(s, p).value;
       q.at + q.len <= |s| && WellFormed(PacketAt(s, q))
  }

  /** The time from a packet to its successor. */
  ghost function DurationOf(s: seq<byte>, p: Span): real
    requires Lasts(s, p)
  {
    PtsDiff(TimeOf(PacketAt(s, Successor(s, p).value)), TimeOf(PacketAt(s, p)))
  }

  /** These are the pieces of packet `p`, in order, each with its part of the time to the successor. */
  ghost predicate CutFrom(s: seq<byte>, p: Span, pieces: seq<seq<byte>>) {
    && Lasts(s, p)
    && var packet := PacketAt(s, p);
       CutInto(pieces, packet[3], TimeOf(packet), DurationOf(s, p), EsOf(packet), |EsOf(packet)|)
  }

  /** What was made are the pieces of the picked packets, packet by packet. */
  ghost predicate Made(s: seq<byte>, picked: seq<Span>, made: seq<seq<byte>>)
    decreases |picked|
  {
    if picked == [] then made == []
    else
      exists k :: 0 <= k <= |made| && Made(s, picked[..|picked| - 1], made[..k])
                  && CutFrom(s, picked[|picked| - 1], made[k..])
  }

  lemma MadeMore(s: seq<byte>, picked: seq<Span>, made: seq<seq<byte>>, p: Span, pieces: seq<seq<byte>>)
    requires Made(s, picked, made) && CutFrom(s, p, pieces)
    ensures Made(s, picked + [p], made + pieces)
  {
    hide CutFrom;
    assert (picked + [p])[..|picked|] == picked;
    assert (made + pieces)[..|made|] == made && (made + pieces)[|made|..] == pieces;
  }

  /** So all of the picked data, and nothing else, has been cut into pieces. */
  lemma {:induction false} MadeCovers(s: seq<byte>, picked: seq<Span>, made: seq<seq<byte>>)
    requires Made(s, picked, made)
    ensures Picked(s, picked) && PiecesOk(made) && EsOfAll(made) == EsPicked(s, picked)
    decreases |picked|
  {
    hide *;
    if picked == [] {
      NothingMade(s, made);
    } else {
      var n := |picked| - 1;
      var k := LastMade(s, picked, made);
      MadeCovers(s, picked[..n], made[..k]);
      CutCovers(s, picked[n], made[k..]);
      CoversMore(s, picked[..n], made[..k], picked[n], made[k..]);
      assert picked == picked[..n] + [picked[n]] && made == made[..k] + made[k..];
    }
  }

  lemma NothingMade(s: seq<byte>, made: seq<seq<byte>>)
    requires Made(s, [], made)
    ensures made == [] && Picked(s, []) && PiecesOk([]) && EsOfAll([]) == EsPicked(s, []) == []
  {
  }

  lemma LastMade(s: seq<byte>, picked: seq<Span>, made: seq<seq<byte>>) returns (k: nat)
    requires picked != [] && Made(s, picked, made)
    ensures k <= |made| && Made(s, picked[..|picked| - 1], made[..k]) && CutFrom(s, picked[|picked| - 1], made[k..])
  {
    hide CutFrom;
    var n := |picked| - 1;
    k :| 0 <= k <= |made| && Made(s, picked[..n], made[..k]) && CutFrom(s, picked[n], made[k..]);
  }

  lemma CutCovers(s: seq<byte>, p: Span, pieces: seq<seq<byte>>)
    requires CutFrom(s, p, pieces)
    ensures p.at + p.len <= |s| && WellFormed(PacketAt(s, p))
    ensures PiecesOk(pieces) && EsOfAll(pieces) == EsOf(PacketAt(s, p))
  {
    hide WellFormed;
    hide EsOf;
    hide TimeOf;
    hide Successor;
    hide EsOfAll;
    var es := EsOf(PacketAt(s, p));
    assert es[..|es|] == es;
  }

  lemma CoversMore(s: seq<byte>, picked: seq<Span>, made: seq<seq<byte>>, p: Span, pieces: seq<seq<byte>>)
    requires Picked(s, picked) && PiecesOk(made) && EsOfAll(made) == EsPicked(s, picked)
    requires p.at + p.len <= |s| && WellFormed(PacketAt(s, p))
    requires PiecesOk(pieces) && EsOfAll(pieces) == EsOf(PacketAt(s, p))
    ensures Picked(s, picked + [p]) && PiecesOk(made + pieces)
    ensures EsOfAll(made + pieces) == EsPicked(s, picked + [p])
  {
    hide WellFormed;
    hide EsOf;
    hide PacketAt;
    hide EsOfAll;
    hide EsPicked;
    EsOfAllAppend(made, pieces);
    PickedMore(s, picked, p);
  }

  lemma PickedMore(s: seq<byte>, picked: seq<Span>, p: Span)
    requires Picked(s, picked) && p.at + p.len <= |s| && WellFormed(PacketAt(s, p))
    ensures Picked(s, picked + [p])
    ensures EsPicked(s, picked + [p]) == EsPicked(s, picked) + EsOf(PacketAt(s, p))
  {
    hide WellFormed;
    hide EsOf;
    hide PacketAt;
    assert (picked + [p])[..|picked|] == picked;
  }

  lemma CutStable(s: seq<byte>, s': seq<byte>, p: Span, pieces: seq<seq<byte>>)
    requires s <= s' && CutFrom(s, p, pieces)
    ensures CutFrom(s', p, pieces)
  {
    SuccessorStable(s, s', p);
    hide CutInto;
    hide WellFormed;
    hide TimeOf;
    hide EsOf;
    hide Successor;
  }

  lemma SuccessorStable(s: seq<byte>, s': seq<byte>, p: Span)
    requires s <= s' && Lasts(s, p)
    ensures p.at + 4 <= |s'| && Successor(s', p) == Successor(s, p) && PacketAt(s', p) == PacketAt(s, p)
    ensures var q := Successor(s, p).value; PacketAt(s', q) == PacketAt(s, q)
  {
    hide *;
    var id, at, n := LastsFacts(s, p);
    NextWantedStable(s, s', p.at + p.len, id);
    LookStable(s, s', at);
    SuccessorIs(s, p, at, n, id);
    SuccessorIs(s', p, at, n, id);
    PacketStable(s, s', p);
    PacketStable(s, s', Span(at, n));
  }

  lemma LastsFacts(s: seq<byte>, p: Span) returns (id: byte, at: nat, n: nat)
    requires Lasts(s, p)
    ensures p.at + 4 <= |s| && p.at + p.len <= |s| && id == s[p.at + 3]
    ensures NextWanted(s, p.at + p.len, id) == Some(at) && Look(s, at) == Packet(n) && at + n <= |s|
  {
    hide WellFormed;
    id := s[p.at + 3];
    at := NextWanted(s, p.at + p.len, id).value;
    hide NextWanted;
    hide Look;
    n := Look(s, at).len;
  }

  lemma PacketStable(s: seq<byte>, s': seq<byte>, p: Span)
    requires s <= s' && p.at + p.len <= |s|
    ensures PacketAt(s', p) == PacketAt(s, p)
  {
  }

  lemma {:induction false} MadeStable(s: seq<byte>, s': seq<byte>, picked: seq<Span>, made: seq<seq<byte>>)
    requires s <= s' && Made(s, picked, made)
    ensures Made(s', picked, made)
    decreases |picked|
  {
    hide CutFrom;
    if picked != [] {
      var n := |picked| - 1;
      var k :| 0 <= k <= |made| && Made(s, picked[..n], made[..k]) && CutFrom(s, picked[n], made[k..]);
      MadeStable(s, s', picked[..n], made[..k]);
      CutStable(s, s', picked[n], made[k..]);
    }
  }

  lemma NothingPassed(s: seq<byte>, wanted: byte)
    ensures Walk(s, 0, 0, []) && Inside(s, []) && Selected(s, [], [], wanted, 0, wanted) && Made(s, [], [])
  {
  }

  // ------------------------------------------------------------------ when more data is needed

  /** Before any wanted packet, a search from `pos` on comes to an invalid header or needs more data. */
  ghost predicate SearchStops(s: seq<byte>, pos: nat, wanted: byte)
    decreases |s| - pos
  {
    match Look(s, pos)
    case NeedMore => true
    case Junk => StartsAt(s, pos) || SearchStops(s, pos + 1, wanted)
    case Packet(n) => !Want(wanted, s[pos + 3]).0 && SearchStops(s, pos + n, wanted)
  }

  /**
   Why a search that began at `from` goes no further than `pos`: there is too little data, or an
   invalid header in the junk just searched, or a wanted packet whose successor cannot be found yet.
   */
  ghost predicate Stuck(s: seq<byte>, from: nat, pos: nat, wanted: byte) {
    && from <= pos && Junks(s, from, pos)
    && (|| Look(s, pos) == NeedMore
        || (exists q :: from <= q < pos && StartsAt(s, q))
        || (Look(s, pos).Packet? && s[pos + 3] == wanted && SearchStops(s, pos + Look(s, pos).len, wanted)))
  }

  lemma {:induction false} SearchStopsShift(s: seq<byte>, k: nat, pos: nat, wanted: byte)
    requires k <= |s|
    ensures SearchStops(s[k..], pos, wanted) == SearchStops(s, k + pos, wanted)
    decreases |s| - k - pos
  {
    hide Look;
    LookSuffix(s, k, pos);
    LookBounds(s, k + pos);
    match Look(s, k + pos)
    case NeedMore =>
    case Junk => SearchStopsShift(s, k, pos + 1, wanted);
    case Packet(n) => SearchStopsShift(s, k, pos + n, wanted);
  }

  lemma StuckAtWanted(s: seq<byte>, from: nat, pos: nat, len: nat, wanted: byte)
    requires from <= pos && Junks(s, from, pos) && Look(s, pos) == Packet(len) && s[pos + 3] == wanted
    requires SearchStops(s, pos + len, wanted)
    ensures Stuck(s, from, pos, wanted)
  {
    hide Look;
    hide SearchStops;
  }

  lemma WantIs(wanted: byte, id: byte, yes: bool, after: byte)
    requires yes <==> id == after
    requires after != wanted ==> wanted == 0 && AudioId(id)
    requires wanted == 0 && AudioId(id) ==> yes
    ensures Want(wanted, id) == (yes, after)
  {
  }

  lemma PastTheEnd(s: seq<byte>, pos: nat)
    requires pos >= |s|
    ensures Look(s, pos) == NeedMore
  {
  }

  lemma StuckAtTheEnd(s: seq<byte>, wanted: byte)
    ensures Stuck(s, |s|, |s|, wanted)
  {
  }

  lemma LookBounds(s: seq<byte>, pos: nat)
    ensures Look(s, pos) == Junk ==> pos + 4 <= |s|
    ensures Look(s, pos).Packet? ==> 6 < Look(s, pos).len && pos + Look(s, pos).len <= |s|
  {
  }

  lemma {:induction false} SearchStopsJunk(s: seq<byte>, a: nat, b: nat, wanted: byte)
    requires a <= b && Junks(s, a, b) && (SearchStops(s, b, wanted) || exists q :: a <= q < b && StartsAt(s, q))
    ensures SearchStops(s, a, wanted)
    decreases b - a
  {
    hide Look;
    if a < b && !StartsAt(s, a) {
      SearchStopsJunk(s, a + 1, b, wanted);
    }
  }

  /** What a search of the buffer says about the stream. */
  lemma SearchEnded(s: seq<byte>, k: nat, start: nat)
    requires k + start <= |s| && Junks(s[k..], 0, start)
    requires Look(s[k..], start) != NeedMore ==> exists q :: 0 <= q < start && StartsAt(s[k..], q)
    ensures Junks(s, k, k + start)
    ensures Look(s, k + start) == NeedMore || exists q :: k <= q < k + start && StartsAt(s, q)
  {
    hide Look;
    JunksShift(s, k, start);
    LookSuffix(s, k, start);
    if Look(s[k..], start) != NeedMore {
      var q :| 0 <= q < start && StartsAt(s[k..], q);
      assert StartsAt(s, k + q);
    }
  }

  /** What one call of the search, at `k`, contributes to the search for a wanted packet. */
  lemma SearchOver(s: seq<byte>, k: nat, start: nat, n: nat, wanted: byte)
    requires k + start <= |s| && Junks(s[k..], 0, start)
    requires n > 0 ==> Look(s[k..], start) == Packet(n)
    requires n == 0 && Look(s[k..], start) != NeedMore ==> exists q :: 0 <= q < start && StartsAt(s[k..], q)
    ensures n == 0 ==> SearchStops(s, k, wanted)
    ensures n > 0 ==> 6 < n && k + start + n <= |s| && Look(s, k + start) == Packet(n)
    ensures n > 0 ==> NextWanted(s, k, wanted) == NextWanted(s, k + start, wanted)
    ensures n > 0 && SearchStops(s, k + start, wanted) ==> SearchStops(s, k, wanted)
  {
    hide Look;
    LookSuffix(s, k, start);
    LookBounds(s, k + start);
    if n == 0 {
      SearchEnded(s, k, start);
      SearchStopsJunk(s, k, k + start, wanted);
    } else {
      JunksShift(s, k, start);
      NextWantedJunk(s, k, k + start, wanted);
      if SearchStops(s, k + start, wanted) {
        SearchStopsJunk(s, k, k + start, wanted);
      }
    }
  }

  lemma StepOver(s: seq<byte>, pos: nat, n: nat, wanted: byte)
    requires Look(s, pos) == Packet(n)
    ensures if s[pos + 3] == wanted || (wanted == 0 && AudioId(s[pos + 3])) then NextWanted(s, pos, wanted) == Some(pos)
            else NextWanted(s, pos, wanted) == NextWanted(s, pos + n, wanted)
                 && (SearchStops(s, pos + n, wanted) ==> SearchStops(s, pos, wanted))
  {
    hide Look;
  }

  lemma NothingLeft(s: seq<byte>, pos: nat, wanted: byte)
    requires Look(s, pos) == NeedMore
    ensures SearchStops(s, pos, wanted)
  {
  }

  lemma JunksShift(s: seq<byte>, k: nat, start: nat)
    requires k + start <= |s| && Junks(s[k..], 0, start)
    ensures Junks(s, k, k + start)
  {
    hide Look;
    forall q: nat | k <= q < k + start ensures Look(s, q) == Junk {
      LookSuffix(s, k, q - k);
    }
  }

  // ------------------------------------------------------------------ the input side of the Remuxer

  /** Every packet that may be taken for audio has a header that fits it. */
  ghost predicate AudioWellFormed(s: seq<byte>, wanted: byte) {
    forall pos: nat :: Look(s, pos).Packet? && (s[pos + 3] == wanted || AudioId(s[pos + 3]))
                       ==> WellFormed(PacketAt(s, Span(pos, Look(s, pos).len)))
  }

  lemma WellFormedAt(s: seq<byte>, wanted: byte, at: nat, len: nat)
    requires AudioWellFormed(s, wanted) && Look(s, at) == Packet(len)
    requires s[at + 3] == wanted || AudioId(s[at + 3])
    ensures WellFormed(s[at..at + len])
  {
    hide WellFormed;
    assert PacketAt(s, Span(at, len)) == s[at..at + len];
  }

  lemma AudioWellFormedSwitch(s: seq<byte>, wanted: byte, id: byte)
    requires AudioWellFormed(s, wanted)
    ensures AudioWellFormed(s, Want(wanted, id).1)
  {
    hide WellFormed;
  }

  lemma PacketBounds(s: seq<byte>, at: nat, len: nat)
    requires Look(s, at) == Packet(len)
    ensures 6 < len && at + len <= |s|
  {
  }

  lemma BufferSlice(s: seq<byte>, base: nat, i: nat, j: nat)
    requires base <= |s| && i <= j <= |s| - base
    ensures s[base..][i..j] == s[base + i..base + j]
  {
  }

  lemma SuffixOfSuffix(s: seq<byte>, base: nat, i: nat)
    requires base + i <= |s|
    ensures s[base..][i..] == s[base + i..]
  {
  }

  /** Junk found in the buffer is junk of the stream. */
  lemma SkipJunk(s: seq<byte>, k: nat, start: nat, ps: seq<Span>)
    requires k <= |s| && Walk(s, 0, k, ps) && Junks(s[k..], 0, start)
    ensures Walk(s, 0, k + start, ps)
  {
    hide Walk;
    hide Look;
    forall q: nat | k <= q < k + start ensures Look(s, q) == Junk {
      LookSuffix(s, k, q - k);
    }
    WalkJunk(s, 0, k, k + start, ps);
  }

  /** The second packet in the buffer is one of the stream. */
  lemma FoundSecond(s: seq<byte>, base: nat, from: nat, at: nat, len: nat, wanted: byte)
    requires base <= |s| && AudioWellFormed(s, wanted)
    requires Look(s[base..], at) == Packet(len) && NextWanted(s[base..], from, wanted) == Some(at)
    ensures at + len <= |s[base..]| && 6 < len && WellFormed(s[base + at..base + at + len])
    ensures var id := s[base..][at + 3];
            && AudioWellFormed(s, id)
            && (id == wanted || (wanted == 0 && AudioId(id) && NextIs(s, base + from, id)))
  {
    hide WellFormed;
    hide Look;
    NextWantedShift(s, base, from, wanted);
    hide NextWanted;
    LookSuffix(s, base, at);
    PacketBounds(s, base + at, len);
    WellFormedAt(s, wanted, base + at, len);
    AudioWellFormedSwitch(s, wanted, s[base + at + 3]);
  }

  /** The second packet found in the buffer is the successor in the stream. */
  lemma FoundSuccessor(s: seq<byte>, base: nat, o: nat, len: nat, at: nat, n: nat, id: byte)
    requires base + o + 4 <= |s| && s[base + o + 3] == id
    requires NextWanted(s[base..], o + len, id) == Some(at) && Look(s[base..], at) == Packet(n)
    ensures Successor(s, Span(base + o, len)) == Some(Span(base + at, n))
  {
    hide *;
    NextWantedShift(s, base, o + len, id);
    LookSuffix(s, base, at);
    MovedIs(at, base);
    SuccessorIs(s, Span(base + o, len), base + at, n, id);
  }

  /** What the two packets in the buffer are in the stream. */
  lemma SecondInStream(s: seq<byte>, base: nat, o: nat, len: nat, at: nat, n: nat, id: byte)
    requires base + o + len <= |s| && base + o + 4 <= |s| && s[base + o + 3] == id && AudioWellFormed(s, id)
    requires NextWanted(s[base..], o + len, id) == Some(at) && Look(s[base..], at) == Packet(n)
    ensures at + n <= |s[base..]| && 6 < n && WellFormed(s[base..][at..at + n])
    ensures s[base..][o..o + len] == s[base + o..base + o + len] == PacketAt(s, Span(base + o, len))
    ensures s[base..][at..at + n] == PacketAt(s, Span(base + at, n))
    ensures Successor(s, Span(base + o, len)) == Some(Span(base + at, n))
    ensures var next := s[base..][at + 3];
            && AudioWellFormed(s, next)
            && (next == id || (id == 0 && AudioId(next) && NextIs(s, base + (o + len), next)))
  {
    hide *;
    FoundSecond(s, base, o + len, at, n, id);
    BufferSlice(s, base, at, at + n);
    BufferSlice(s, base, o, o + len);
    FoundSuccessor(s, base, o, len, at, n, id);
    SpanSlice(s, base + o, len);
    SpanSlice(s, base + at, n);
  }

  lemma MovedIs(at: nat, k: nat)
    ensures Moved(Some(at), k) == Some(k + at)
  {
  }

  lemma SuccessorIs(s: seq<byte>, p: Span, at: nat, n: nat, id: byte)
    requires p.at + 4 <= |s| && s[p.at + 3] == id
    requires NextWanted(s, p.at + p.len, id) == Some(at) && Look(s, at) == Packet(n)
    ensures Successor(s, p) == Some(Span(at, n))
  {
    hide NextWanted;
    hide Look;
  }

  lemma SpanSlice(s: seq<byte>, at: nat, len: nat)
    requires at + len <= |s|
    ensures PacketAt(s, Span(at, len)) == s[at..at + len]
  {
  }

  class AudioBuffer {
    /** The valid part of the buffer abuf. */
    var abuf: seq<byte>
    var wantedAudioStream: byte
    var audioPackets: seq<seq<byte>>

    /** All data received since the buffer was last emptied, the wanted stream then, and how far it is consumed. */
    ghost var stream: seq<byte>
    ghost var initial: byte
    ghost var base: nat
    ghost var passed: seq<Span>
    ghost var picked: seq<Span>
    ghost var made: seq<seq<byte>>
    /** The pieces cut before that. */
    ghost var older: seq<seq<byte>>

    ghost predicate Valid()
      reads this
    {
      && |abuf| <= ABUF_SIZE && base <= |stream| && abuf == stream[base..]
      && Progress(base)
      && audioPackets == Newest(older + made, MAX_AUDIO_PACKETS)
    }

    /** The data before `pos` has been passed over, and what was picked has been cut. */
    ghost predicate Progress(pos: nat)
      reads this
    {
      && Walk(stream, 0, pos, passed) && Inside(stream, passed)
      && Selected(stream, passed, picked, initial, pos, wantedAudioStream)
      && Made(stream, picked, made)
    }

    /** In the loop, at stream position `pos`. */
    ghost predicate Ready(pos: nat)
      reads this
    {
      && base <= pos <= |stream| && abuf == stream[base..] && |abuf| <= ABUF_SIZE
      && Progress(pos) && audioPackets == Newest(older + made, MAX_AUDIO_PACKETS)
      && AudioWellFormed(stream, wantedAudioStream)
    }

    constructor (audio: byte)
      ensures Valid() && abuf == stream == [] && audioPackets == [] && wantedAudioStream == audio
    {
      abuf, wantedAudioStream, audioPackets := [], audio, [];
      stream, initial, base, passed, picked, made, older := [], audio, 0, [], [], [], [];
    }

    /** create_audio_pes: cut one packet into pieces, each fitting a pack, and queue them. */
    method CreateAudioPes(orig: seq<byte>, duration: real) returns (ghost pieces: seq<seq<byte>>)
      requires WellFormed(orig) && audioPackets == Newest(older + made, MAX_AUDIO_PACKETS)
      modifies this`audioPackets, this`made
      ensures made == old(made) + pieces && audioPackets == Newest(older + made, MAX_AUDIO_PACKETS)
      ensures CutInto(pieces, orig[3], TimeOf(orig), duration, EsOf(orig), |EsOf(orig)|)
    {
      pieces := CutAudio(orig[3], TimeOf(orig), duration, EsOf(orig));
      hide *;
      PiecesAreCut(pieces, orig[3], TimeOf(orig), duration, EsOf(orig), |EsOf(orig)|);
    }

    method CutAudio(sid: byte, time: real, duration: real, es: seq<byte>) returns (ghost pieces: seq<seq<byte>>)
      requires audioPackets == Newest(older + made, MAX_AUDIO_PACKETS)
      modifies this`audioPackets, this`made
      ensures made == old(made) + pieces && audioPackets == Newest(older + made, MAX_AUDIO_PACKETS)
      ensures Pieces(pieces, sid, time, duration, es, |es|)
    {
      hide Newest;
      hide Pieces;
      hide AudioPes;
      hide PieceTime;
      hide AudioPerPes;
      var wantedPerPes := AudioPerPes(|es|);
      var done := 0;
      pieces := [];
      NoPieces(sid, time, duration, es);
      while done < |es|
        invariant done <= |es| && Pieces(pieces, sid, time, duration, es, done)
        invariant made == old(made) + pieces && audioPackets == Newest(older + made, MAX_AUDIO_PACKETS)
      {
        var payload := |es| - done;
        if payload > wantedPerPes {
          payload := wantedPerPes;
        }
        if |audioPackets| >= MAX_AUDIO_PACKETS {
          audioPackets := audioPackets[1..];
        }
        var ap := AudioPes(sid, PieceTime(time, duration, done, |es|), es[done..done + payload]);
        NewestSnoc(older + made, ap, MAX_AUDIO_PACKETS);
        assert older + (made + [ap]) == (older + made) + [ap];
        PiecesSnoc(pieces, sid, time, duration, es, done, payload);
        audioPackets := audioPackets + [ap];
        made, pieces := made + [ap], pieces + [ap];
        done := done + payload;
      }
    }

    /**
     audio_packet_wanted. A packet is wanted if its stream is the wanted one when the question has
     been answered; the wanted stream only changes when none was chosen and the packet is audio.
     */
    method AudioPacketWanted(id: byte) returns (yes: bool)
      modifies this`wantedAudioStream
      ensures yes <==> id == wantedAudioStream
      ensures wantedAudioStream != old(wantedAudioStream) ==> old(wantedAudioStream) == 0 && AudioId(id)
      ensures old(wantedAudioStream) == 0 && AudioId(id) ==> yes
    {
      if wantedAudioStream == 0 && (id == PRIVATE_1 || id == 0xbc || 0xc0 <= id < 0xe0) {
        wantedAudioStream := id;
        return true;
      }
      return id == wantedAudioStream;
    }

    /** The next wanted packet at or after `from`, needed for the duration of the one before. */
    method FindSecond(from: nat) returns (found: bool, at: nat, len: nat)
      requires from <= |abuf|
      modifies this`wantedAudioStream
      ensures found ==> NextWanted(abuf, from, old(wantedAudioStream)) == Some(at) && Look(abuf, at) == Packet(len)
      ensures found ==> wantedAudioStream == abuf[at + 3]
      ensures !found ==> wantedAudioStream == old(wantedAudioStream) && SearchStops(abuf, from, wantedAudioStream)
    {
      hide *;
      ghost var w := wantedAudioStream;
      var off2 := from;
      found, at, len := false, 0, 0;
      while off2 < |abuf|
        invariant from <= off2 <= |abuf| && wantedAudioStream == w
        invariant SearchStops(abuf, off2, w) ==> SearchStops(abuf, from, w)
        invariant NextWanted(abuf, from, w) == NextWanted(abuf, off2, w)
      {
        var start, n := FindNextPesPacket(abuf[off2..]);
        SearchOver(abuf, off2, start, n, w);
        if n == 0 {
          return;
        }
        StepOver(abuf, off2 + start, n, w);
        var yes := AudioPacketWanted(abuf[off2 + start + 3]);
        if yes {
          return true, off2 + start, n;
        }
        off2 := off2 + start + n;
      }
      PastTheEnd(abuf, off2);
      NothingLeft(abuf, off2, w);
    }

    /** Take in new data; when the buffer would overflow what it held is dropped. */
    method Receive(data: seq<byte>)
      requires Valid()
      modifies this`abuf, this`stream, this`initial, this`base, this`passed, this`picked, this`made, this`older
      ensures Valid()
      ensures |old(abuf)| + |data| <= ABUF_SIZE ==>
                stream == old(stream) + data && initial == old(initial) && base == old(base) && passed == old(passed)
                && picked == old(picked) && made == old(made) && older == old(older)
      ensures |old(abuf)| + |data| > ABUF_SIZE ==>
                stream == data[..if |data| > ABUF_SIZE then ABUF_SIZE else |data|] && base == 0
                && initial == wantedAudioStream && older == old(older) + old(made) && made == [] && passed == []
    {
      hide Walk;
      hide Inside;
      hide Selected;
      hide Made;
      hide Newest;
      var len := |data|;
      if |abuf| + len > ABUF_SIZE {
        if len > ABUF_SIZE {
          len := ABUF_SIZE;
        }
        NothingPassed(data[..len], wantedAudioStream);
        abuf := data[..len];
        stream, initial, base, passed, picked := data[..len], wantedAudioStream, 0, [], [];
        older, made := older + made, [];
        assert older + made == older;
      } else {
        WalkStable(stream, stream + data, 0, base, passed);
        SelectedStable(stream, stream + data, passed, picked, initial, base, wantedAudioStream);
        MadeStable(stream, stream + data, picked, made);
        abuf := abuf + data;
        stream := stream + data;
      }
    }

    /**
     Cut a wanted packet at `o` in the buffer, if the next wanted one is there to give its duration.
     Looking for that one may settle the wanted stream.
     */
    method CutWanted(o: nat, len: nat) returns (done: bool)
      requires base <= |stream| && abuf == stream[base..] && Look(stream, base + o) == Packet(len) && o + len <= |abuf|
      requires WellFormed(stream[base + o..base + o + len])
      requires Made(stream, picked, made) && audioPackets == Newest(older + made, MAX_AUDIO_PACKETS)
      requires AudioWellFormed(stream, wantedAudioStream) && stream[base + o + 3] == wantedAudioStream
      modifies this`wantedAudioStream, this`audioPackets, this`made
      ensures audioPackets == Newest(older + made, MAX_AUDIO_PACKETS)
      ensures Made(stream, if done then picked + [Span(base + o, len)] else picked, made)
      ensures AudioWellFormed(stream, wantedAudioStream)
      ensures wantedAudioStream == old(wantedAudioStream)
              || (old(wantedAudioStream) == 0 && AudioId(wantedAudioStream)
                  && NextIs(stream, base + o + len, wantedAudioStream))
      ensures !done ==>
                wantedAudioStream == old(wantedAudioStream)
                && SearchStops(stream, base + o + len, wantedAudioStream)
    {
      hide *;
      var found, at2, len2 := FindSecond(o + len);
      if !found {
        SearchStopsShift(stream, base, o + len, wantedAudioStream);
        return false;
      }
      SecondInStream(stream, base, o, len, at2, len2, old(wantedAudioStream));
      CutPacket(abuf[o..o + len], abuf[at2..at2 + len2], Span(base + o, len), Span(base + at2, len2));
      return true;
    }

    method CutPacket(packet: seq<byte>, second: seq<byte>, ghost p: Span, ghost q: Span)
      requires WellFormed(packet) && WellFormed(second)
      requires p.at + 4 <= |stream| && p.at + p.len <= |stream| && PacketAt(stream, p) == packet
      requires q.at + q.len <= |stream| && PacketAt(stream, q) == second && Successor(stream, p) == Some(q)
      requires Made(stream, picked, made) && audioPackets == Newest(older + made, MAX_AUDIO_PACKETS)
      modifies this`audioPackets, this`made
      ensures Made(stream, picked + [p], made) && audioPackets == Newest(older + made, MAX_AUDIO_PACKETS)
    {
      var duration := PtsDiff(TimeOf(second), TimeOf(packet));
      hide Made;
      hide Newest;
      hide CutInto;
      hide EsOf;
      hide TimeOf;
      hide WellFormed;
      hide Successor;
      ghost var pieces := CreateAudioPes(packet, duration);
      MadeMore(stream, picked, old(made), p, pieces);
    }

    /**
     One round of the loop of supply_audio_data, at `offset` in the buffer: either a packet is
     passed, or the loop ends at the place from which it goes on when more data has come.
     */
    method SupplyRound(offset: nat) returns (offset': nat, more: bool)
      requires Ready(base + offset) && base + offset < |stream|
      modifies this`wantedAudioStream, this`audioPackets, this`passed, this`picked, this`made
      ensures offset <= offset' && base + offset' <= |stream| && Ready(base + offset')
      ensures more ==> offset < offset'
      ensures !more ==> Stuck(stream, base + offset, base + offset', wantedAudioStream)
      ensures old(passed) <= passed
    {
      hide SearchStops;
      hide AudioWellFormed;
      hide Walk;
      hide Inside;
      hide Selected;
      hide Made;
      hide Newest;
      hide Look;
      hide WellFormed;
      SuffixOfSuffix(stream, base, offset);
      var start, len := FindNextPesPacket(abuf[offset..]);
      SkipJunk(stream, base + offset, start, passed);
      JunksShift(stream, base + offset, start);
      SelectedJunk(stream, passed, picked, initial, base + offset, base + offset + start, wantedAudioStream);
      if len == 0 {
        SearchEnded(stream, base + offset, start);
        return offset + start, false;
      }
      // the "found packet exceeds buffer" trap
      assert start + len <= |abuf| - offset;
      LookSuffix(stream, base + offset, start);
      PacketBounds(stream, base + offset + start, len);
      offset', more := TakePacket(offset + start, len, base + offset);
    }

    /** What is done with the packet found at `o`. */
    method TakePacket(o: nat, len: nat, ghost from: nat) returns (offset': nat, more: bool)
      requires Ready(base + o) && o + len <= |abuf| && 6 < len && Look(stream, base + o) == Packet(len)
      requires from <= base + o && Junks(stream, from, base + o)
      modifies this`wantedAudioStream, this`audioPackets, this`passed, this`picked, this`made
      ensures Ready(base + offset') && old(passed) <= passed
      ensures if more then offset' == o + len else offset' == o && Stuck(stream, from, base + o, wantedAudioStream)
    {
      hide SearchStops;
      hide NextIs;
      hide AudioWellFormed;
      hide Walk;
      hide Inside;
      hide Selected;
      hide Made;
      hide Newest;
      hide Look;
      hide WellFormed;
      hide Junks;
      ghost var at, wanted := base + o, wantedAudioStream;
      var yes := AudioPacketWanted(abuf[o + 3]);
      WantIs(wanted, stream[at + 3], yes, wantedAudioStream);
      hide Want;
      hide AudioId;
      hide Stuck;
      SelectedAsk(stream, passed, picked, initial, at, len, wanted);
      AudioWellFormedSwitch(stream, wanted, stream[at + 3]);
      if yes {
        WellFormedAt(stream, wanted, at, len);
        var done := CutWanted(o, len);
        if !done {
          StuckAtWanted(stream, from, at, len, wantedAudioStream);
          return o, false;
        }
      }
      SelectedPass(stream, passed, picked, initial, at, len, wanted, wantedAudioStream);
      WalkPacket(stream, 0, at, len, passed);
      passed := passed + [Span(at, len)];
      if yes {
        picked := picked + [Span(at, len)];
      }
      return o + len, true;
    }

    /**
     supply_audio_data. What has been passed is always the beginning of what one scan of the whole
     stream finds, however the stream was divided among the calls; what has been cut and queued is
     exactly the data of the wanted packets among those.
     */
    method SupplyAudioData(data: seq<byte>) returns (ghost from: nat)
      requires Valid()
      requires |abuf| + |data| <= ABUF_SIZE ==> AudioWellFormed(stream + data, wantedAudioStream)
      requires |abuf| + |data| > ABUF_SIZE ==>
                 AudioWellFormed(data[..if |data| > ABUF_SIZE then ABUF_SIZE else |data|], wantedAudioStream)
      modifies this
      ensures Valid()
      ensures |old(abuf)| + |data| <= ABUF_SIZE ==>
                stream == old(stream) + data && initial == old(initial) && old(base) <= from && old(passed) <= passed
                && older == old(older)
      ensures |old(abuf)| + |data| > ABUF_SIZE ==>
                stream == data[..if |data| > ABUF_SIZE then ABUF_SIZE else |data|]
                && initial == old(wantedAudioStream) && older == old(older) + old(made)
      ensures ScanAll(stream, 0) == passed + ScanAll(stream, base)
      ensures Stuck(stream, from, base, wantedAudioStream)
    {
      hide *;
      Receive(data);
      var offset;
      offset, from := SupplyRounds();
      Consume(offset);
    }

    lemma ValidIsReady()
      requires Valid() && AudioWellFormed(stream, wantedAudioStream)
      ensures Ready(base + 0) && |abuf| == |stream| - base
    {
      hide Walk;
      hide Inside;
      hide Selected;
      hide Made;
      hide Newest;
      hide AudioWellFormed;
    }

    /** The loop of supply_audio_data. */
    method SupplyRounds() returns (offset: nat, ghost from: nat)
      requires Valid() && AudioWellFormed(stream, wantedAudioStream)
      modifies this`wantedAudioStream, this`audioPackets, this`passed, this`picked, this`made
      ensures base <= from && Ready(base + offset) && Stuck(stream, from, base + offset, wantedAudioStream)
      ensures old(passed) <= passed
    {
      hide *;
      offset, from := 0, base;
      ValidIsReady();
      while offset < |abuf|
        invariant base <= from && base + offset <= |stream| && Ready(base + offset) && old(passed) <= passed
      {
        from := base + offset;
        var more;
        offset, more := SupplyRound(offset);
        if !more {
          return;
        }
      }
      from := base + offset;
      StuckAtTheEnd(stream, wantedAudioStream);
    }

    /** Keep the data behind `offset`. */
    method Consume(offset: nat)
      requires Ready(base + offset)
      modifies this`abuf, this`base
      ensures Valid() && base == old(base) + offset
      ensures ScanAll(stream, 0) == passed + ScanAll(stream, base)
    {
      hide Walk;
      hide Inside;
      hide Selected;
      hide Made;
      hide Newest;
      hide ScanAll;
      SuffixOfSuffix(stream, base, offset);
      abuf := abuf[offset..];
      base := base + offset;
      WalkScan(stream, 0, base, passed);
    }
  }
}
