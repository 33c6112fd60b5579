/**
 From the data received to the file: the parts of grab's Remuxer put together. Audio and video are
 cut into packets, the packets merged and written into packs; demultiplexing the file gives back
 the data that was cut, from the first packet written to the last.
 */
module Recording {

  import opened Bytes
  import opened Clock
  import opened Options
  import opened Packs
  import opened PesPackets
  import opened PesScanner
  import opened PackWriter
  import A = AudioInput
  import V = VideoInput
  import M = Merge

  const VIDEO_ID: byte := 0xe0

  // ------------------------------------------------------------------ queued packets

  /** AC3 data has to begin with its sync word. */
  predicate Startable(pes: seq<byte>)
    requires WellFormed(pes)
  {
    var es := EsOf(pes);
    pes[3] == PRIVATE_1 ==> |es| >= 4 && es[0] == 0x0b && es[1] == 0x77
  }

  /** What the merger reads from a queued packet. */
  function Queued(pes: seq<byte>, lap: int): M.Packet
    requires WellFormed(pes)
  {
    M.Packet(TimeOf(pes), lap, pes[6] % 2 == 1, Startable(pes), pes)
  }

  /** A packet of the video queue has the video's stream id, one of the audio queue another one. */
  ghost predicate Belongs(p: M.Packet, video: bool) {
    PacketOk(p.pes) && p == Queued(p.pes, p.lap) && (p.pes[3] == VIDEO_ID <==> video)
  }

  ghost predicate AllBelong(q: seq<M.Packet>, video: bool) {
    forall p :: p in q ==> Belongs(p, video)
  }

  /** The packets of a queue as bytes. */
  ghost function PesOfQueue(q: seq<M.Packet>): (r: seq<seq<byte>>)
    ensures |r| == |q|
  {
    seq(|q|, i requires 0 <= i < |q| => q[i].pes)
  }

  // ------------------------------------------------------------------ the calls made for a run

  /** write_mpg flushes the pack before a packet marked as a start, and then writes the packet. */
  function OpsOf(e: M.Emission): (ops: seq<Op>) {
    (if e.packet.seqStart then [Flush] else []) + [WriteOf(e)]
  }

  function WriteOf(e: M.Emission): (op: Op)
    ensures op.Write? && op.pes == e.packet.pes
  {
    if e.video then
      Write(e.packet.pes, e.clock, e.packet.seqStart, false, e.packet.seqStart, e.pesDuration, e.scrDuration)
    else
      Write(e.packet.pes, e.clock, true, true, false, e.pesDuration, e.scrDuration)
  }

  function Ops(out: seq<M.Emission>): (ops: seq<Op>) {
    if out == [] then [] else Ops(out[..|out| - 1]) + OpsOf(out[|out| - 1])
  }

  ghost predicate Emitted(out: seq<M.Emission>) {
    forall e :: e in out ==> Belongs(e.packet, e.video)
  }

  /** The packets emitted for one kind, as bytes. */
  ghost function PesEmitted(out: seq<M.Emission>, video: bool): (r: seq<seq<byte>>) {
    PesOfQueue(M.Of(M.Tagged(out), video))
  }

  /** The elementary stream data of the packets with one stream id. */
  ghost function EsWith(ps: seq<seq<byte>>, sid: byte): (es: seq<byte>)
    requires A.AllWellFormed(ps)
  {
    if ps == [] then []
    else
      var p := ps[|ps| - 1];
      assert p in ps;
      EsWith(ps[..|ps| - 1], sid) + if p[3] == sid then EsOf(p) else []
  }

  predicate HasId(p: seq<byte>, sid: byte) {
    |p| > 3 && p[3] == sid
  }

  /** For packets of a single stream this is all of their data. */
  lemma {:induction false} EsWithAll(ps: seq<seq<byte>>, sid: byte)
    requires A.AllWellFormed(ps) && forall p :: p in ps ==> HasId(p, sid)
    ensures EsWith(ps, sid) == A.EsOfAll(ps)
    decreases |ps|
  {
    hide WellFormed;
    hide EsOf;
    if ps != [] {
      assert ps[|ps| - 1] in ps;
      EsWithAll(ps[..|ps| - 1], sid);
    }
  }

  lemma EmittedMore(out: seq<M.Emission>, e: M.Emission, video: bool)
    ensures PesEmitted(out + [e], video)
            == PesEmitted(out, video) + if e.video == video then [e.packet.pes] else []
  {
    var t := M.Tagged(out);
    assert M.Tagged(out + [e]) == t + [(e.video, e.packet)];
    assert (t + [(e.video, e.packet)])[..|t|] == t;
  }

  lemma EsWithMore(ps: seq<seq<byte>>, p: seq<byte>, sid: byte)
    requires A.AllWellFormed(ps) && WellFormed(p)
    ensures A.AllWellFormed(ps + [p])
    ensures EsWith(ps + [p], sid) == EsWith(ps, sid) + if p[3] == sid then EsOf(p) else []
  {
    hide WellFormed;
    hide EsOf;
    assert (ps + [p])[..|ps|] == ps;
  }

  lemma OpsMore(out: seq<M.Emission>, e: M.Emission)
    ensures Ops(out + [e]) == Ops(out) + OpsOf(e)
  {
    assert (out + [e])[..|out|] == out;
  }

  lemma SuppliedMore(ops: seq<Op>, e: M.Emission, sid: byte)
    requires OpsOk(ops) && PacketOk(e.packet.pes)
    ensures OpsOk(ops + OpsOf(e))
    ensures Supplied(ops + OpsOf(e), sid)
            == Supplied(ops, sid) + if e.packet.pes[3] == sid then EsOf(e.packet.pes) else []
  {
    hide WellFormed;
    hide EsOf;
    var w := WriteOf(e);
    if e.packet.seqStart {
      assert ops + OpsOf(e) == (ops + [Flush]) + [w];
      assert (ops + [Flush])[..|ops|] == ops;
      assert ((ops + [Flush]) + [w])[..|ops| + 1] == ops + [Flush];
    } else {
      assert ops + OpsOf(e) == ops + [w];
      assert (ops + [w])[..|ops|] == ops;
    }
  }

  /** What is supplied for a stream is the data of the packets emitted for it. */
  lemma {:induction false} SuppliedIsEmitted(out: seq<M.Emission>, sid: byte)
    requires Emitted(out)
    ensures OpsOk(Ops(out)) && A.AllWellFormed(PesEmitted(out, sid == VIDEO_ID))
    ensures Supplied(Ops(out), sid) == EsWith(PesEmitted(out, sid == VIDEO_ID), sid)
    decreases |out|
  {
    if out == [] {
      assert PesEmitted(out, sid == VIDEO_ID) == [];
    } else {
      var init, e := out[..|out| - 1], out[|out| - 1];
      assert e in out && out == init + [e];
      assert Emitted(init) && Belongs(e.packet, e.video);
      BelongsFacts(e.packet, e.video);
      hide *;
      SuppliedIsEmitted(init, sid);
      EmittedMore(init, e, sid == VIDEO_ID);
      OpsMore(init, e);
      SuppliedMore(Ops(init), e, sid);
      if e.video == (sid == VIDEO_ID) {
        EsWithMore(PesEmitted(init, sid == VIDEO_ID), e.packet.pes, sid);
      } else {
        assert PesEmitted(init, sid == VIDEO_ID) + [] == PesEmitted(init, sid == VIDEO_ID);
      }
    }
  }

  lemma BelongsFacts(p: M.Packet, video: bool)
    requires Belongs(p, video)
    ensures PacketOk(p.pes) && WellFormed(p.pes) && (p.pes[3] == VIDEO_ID <==> video)
  {
  }

  // ------------------------------------------------------------------ the file of a run

  lemma {:induction false} EmissionListed(out: seq<M.Emission>, e: M.Emission)
    requires e in out
    ensures e.packet in M.Of(M.Tagged(out), e.video)
    decreases |out|
  {
    var k := |out| - 1;
    assert M.Tagged(out)[..k] == M.Tagged(out[..k]);
    if e != out[k] {
      EmissionListed(out[..k], e);
    }
  }

  lemma EmittedFromStreams(out: seq<M.Emission>, audio: seq<M.Packet>, video: seq<M.Packet>, i: nat, j: nat)
    requires AllBelong(audio, false) && AllBelong(video, true) && i <= |audio| && j <= |video|
    requires M.Of(M.Tagged(out), false) == audio[..i] && M.Of(M.Tagged(out), true) == video[..j]
    ensures Emitted(out)
  {
    hide Belongs;
    hide M.Of;
    hide M.Tagged;
    forall e | e in out ensures Belongs(e.packet, e.video) {
      EmissionListed(out, e);
      assert e.packet in if e.video then video[..j] else audio[..i];
    }
  }

  /** The audio packets written in a run. */
  ghost function AudioWritten(r: M.Run, steps: seq<M.Step>): seq<seq<byte>>
    requires M.Shape(r)
  {
    PesOfQueue(r.audio[..M.RunAll(r, steps).i])
  }

  ghost function VideoWritten(r: M.Run, steps: seq<M.Step>): seq<seq<byte>>
    requires M.Shape(r)
  {
    PesOfQueue(r.video[..M.RunAll(r, steps).j])
  }

  /** A run of queued packets, from a sync point on. */
  ghost predicate Ready(r: M.Run) {
    M.Started(r) && M.Shape(r) && AllBelong(r.audio, false) && AllBelong(r.video, true)
  }

  lemma RunEmits(r: M.Run, steps: seq<M.Step>)
    requires Ready(r)
    ensures var q := M.RunAll(r, steps);
            && q.i <= |r.audio| && q.j <= |r.video| && Emitted(q.out)
            && PesEmitted(q.out, false) == AudioWritten(r, steps)
            && PesEmitted(q.out, true) == VideoWritten(r, steps)
            && A.AllWellFormed(AudioWritten(r, steps)) && A.AllWellFormed(VideoWritten(r, steps))
  {
    hide AllBelong;
    hide M.RunAll;
    hide M.Merged;
    hide M.Sorted;
    hide M.OnTime;
    hide M.Congruent;
    hide M.Started;
    hide M.Of;
    hide M.Tagged;
    M.EveryRunMerges(r, steps);
    var q := M.RunAll(r, steps);
    EmittedFromStreams(q.out, r.audio, r.video, q.i, q.j);
    hide Emitted;
    SuppliedIsEmitted(q.out, 0);
    SuppliedIsEmitted(q.out, VIDEO_ID);
  }

  /** How many of the video packets written start a sequence and have data. */
  ghost function SequenceStarts(out: seq<M.Emission>): (n: nat) {
    if out == [] then 0
    else
      var e := out[|out| - 1];
      SequenceStarts(out[..|out| - 1])
      + if e.video && e.packet.seqStart && WellFormed(e.packet.pes) && EsOf(e.packet.pes) != [] then 1 else 0
  }

  /** A system header is asked for at every sequence start, right after a flush, and nowhere else. */
  lemma {:induction false} HeadsAreStarts(out: seq<M.Emission>)
    requires Emitted(out)
    ensures OpsOk(Ops(out)) && HeadsFlushed(Ops(out)) && Heads(Ops(out)) == SequenceStarts(out)
    decreases |out|
  {
    if out != [] {
      var init, e := out[..|out| - 1], out[|out| - 1];
      assert e in out && out == init + [e];
      assert Emitted(init) && Belongs(e.packet, e.video);
      BelongsFacts(e.packet, e.video);
      StartsMore(out, init, e);
      hide *;
      HeadsAreStarts(init);
      OpsMore(init, e);
      HeadsMore(Ops(init), e);
    }
  }

  lemma StartsMore(out: seq<M.Emission>, init: seq<M.Emission>, e: M.Emission)
    requires out == init + [e] && PacketOk(e.packet.pes)
    ensures SequenceStarts(out)
            == SequenceStarts(init) + if e.video && e.packet.seqStart && EsOf(e.packet.pes) != [] then 1 else 0
  {
    hide WellFormed;
    hide EsOf;
    assert out[..|out| - 1] == init;
  }

  lemma HeadsMore(ops: seq<Op>, e: M.Emission)
    requires OpsOk(ops) && HeadsFlushed(ops) && PacketOk(e.packet.pes)
    ensures OpsOk(ops + OpsOf(e)) && HeadsFlushed(ops + OpsOf(e))
    ensures Heads(ops + OpsOf(e))
            == Heads(ops) + if e.video && e.packet.seqStart && EsOf(e.packet.pes) != [] then 1 else 0
  {
    hide WellFormed;
    hide EsOf;
    var w := WriteOf(e);
    hide HeadsFlushed;
    hide Heads;
    hide OpsOk;
    if e.packet.seqStart {
      assert ops + OpsOf(e) == (ops + [Flush]) + [w];
      HeadsSnoc(ops, Flush);
      HeadsSnoc(ops + [Flush], w);
    } else {
      assert ops + OpsOf(e) == ops + [w];
      HeadsSnoc(ops, w);
    }
  }

  lemma HeadsSnoc(ops: seq<Op>, op: Op)
    requires OpsOk(ops) && HeadsFlushed(ops) && (op.Write? ==> PacketOk(op.pes))
    requires op.Write? && op.sysHeader ==> ops != [] && ops[|ops| - 1] == Flush
    ensures OpsOk(ops + [op]) && HeadsFlushed(ops + [op])
    ensures Heads(ops + [op]) == Heads(ops) + if op.Write? && op.sysHeader && EsOf(op.pes) != [] then 1 else 0
  {
    OpsOkMore(ops, op);
    FlushedMore(ops, op);
    hide OpsOk;
    hide HeadsFlushed;
    hide WellFormed;
    hide EsOf;
    assert (ops + [op])[..|ops|] == ops;
  }

  lemma OpsOkMore(ops: seq<Op>, op: Op)
    requires OpsOk(ops) && (op.Write? ==> PacketOk(op.pes))
    ensures OpsOk(ops + [op])
  {
    hide PacketOk;
  }

  lemma FlushedMore(ops: seq<Op>, op: Op)
    requires HeadsFlushed(ops)
    requires op.Write? && op.sysHeader ==> ops != [] && ops[|ops| - 1] == Flush
    ensures HeadsFlushed(ops + [op])
  {
  }

  /**
   Everything that any run has written, flushed at the end: the file consists of 2048-byte packs and
   demultiplexes, for every stream, to the data of the packets written for it, in order. It has a system
   header pack for every sequence start.
   */
  method RecordRun(m: Remuxer, out: seq<M.Emission>, ghost r: M.Run, ghost steps: seq<M.Step>)
    requires m.Valid() && m.out == [] && m.ppValid == 0
    requires Ready(r) && out == M.RunAll(r, steps).out
    modifies m`ppValid, m`out, m`totalBytesWritten, m`sectors, m`open, m.ppBuffer
    ensures DemuxAll(m.out).Some? && forall i :: 0 <= i < |m.out| ==> |m.out[i]| == PACK_SIZE
    ensures M.RunAll(r, steps).i <= |r.audio| && M.RunAll(r, steps).j <= |r.video|
    ensures A.AllWellFormed(AudioWritten(r, steps)) && A.AllWellFormed(VideoWritten(r, steps))
    ensures forall sid :: sid != VIDEO_ID ==>
                            Stream(DemuxAll(m.out).value, sid) == EsWith(AudioWritten(r, steps), sid)
    ensures Stream(DemuxAll(m.out).value, VIDEO_ID) == EsWith(VideoWritten(r, steps), VIDEO_ID)
    ensures m.Valid() && m.ppValid == 0 && DemuxAll(m.out) == Some(UnitsOf(m.Sent()))
    ensures Laid(m.Sent(), Ops(out), m.systemClockRefStart, m.playtimeOffset)
    ensures Shows(DemuxAll(m.out).value, Ops(out), m.systemClockRefStart, m.playtimeOffset)
    ensures SystemPacks(m.out) == SequenceStarts(out)
    ensures m.systemClockRefStart == old(m.systemClockRefStart) && m.playtimeOffset == old(m.playtimeOffset)
  {
    assert M.Shape(r);
    hide *;
    RunEmits(r, steps);
    SuppliedIsEmitted(out, VIDEO_ID);
    forall sid: byte | sid != VIDEO_ID ensures Supplied(Ops(out), sid) == EsWith(AudioWritten(r, steps), sid) {
      SuppliedIsEmitted(out, sid);
    }
    HeadsAreStarts(out);
    m.WriteAll(Ops(out));
  }

  // ------------------------------------------------------------------ and the data it came from

  /** `part` is the stretch of `whole` that starts at `at`. */
  ghost predicate Stretch(part: seq<byte>, whole: seq<byte>, at: nat) {
    at + |part| <= |whole| && whole[at..at + |part|] == part
  }

  lemma EsOfAllInside(before: seq<seq<byte>>, ps: seq<seq<byte>>, after: seq<seq<byte>>, n: nat)
    requires A.AllWellFormed(before + ps + after) && n <= |ps|
    ensures A.AllWellFormed(before) && A.AllWellFormed(ps[..n])
    ensures Stretch(A.EsOfAll(ps[..n]), A.EsOfAll(before + ps + after), |A.EsOfAll(before)|)
  {
    var tail := ps[n..] + after;
    assert before + ps + after == before + ps[..n] + tail;
    PartsWellFormed(before, ps[..n], tail);
    hide *;
    A.EsOfAllAppend(before, ps[..n]);
    A.EsOfAllAppend(before + ps[..n], tail);
    StretchInside(A.EsOfAll(before), A.EsOfAll(ps[..n]), A.EsOfAll(tail));
  }

  lemma PartsWellFormed(a: seq<seq<byte>>, b: seq<seq<byte>>, c: seq<seq<byte>>)
    requires A.AllWellFormed(a + b + c)
    ensures A.AllWellFormed(a) && A.AllWellFormed(b) && A.AllWellFormed(c) && A.AllWellFormed(a + b)
  {
    hide WellFormed;
    assert forall p :: p in a || p in b || p in c ==> p in a + b + c;
  }

  lemma StretchInside(a: seq<byte>, b: seq<byte>, c: seq<byte>)
    ensures Stretch(b, a + b + c, |a|)
  {
  }

  /** The queue of a run within all the packets made: packets before it were dropped, some may follow. */
  datatype Place = Place(before: seq<seq<byte>>, after: seq<seq<byte>>)

  ghost function Around(w: Place, q: seq<M.Packet>): seq<seq<byte>> {
    w.before + PesOfQueue(q) + w.after
  }

  /**
   End to end. The audio and the video of the file are one stretch each of the data of the audio
   packets picked and of the video sequences cut: they begin where the data of the packets dropped
   before the run ends, even in the middle of a packet picked, and nothing is missing in between.
   */
  method RecordInput(m: Remuxer, out: seq<M.Emission>, audioId: byte, ghost r: M.Run, ghost steps: seq<M.Step>,
                     ghost audio: seq<byte>, ghost picked: seq<Span>, ghost a: Place,
                     ghost video: seq<byte>, ghost found: seq<V.Found>, ghost v: Place)
    requires m.Valid() && m.out == [] && m.ppValid == 0
    requires Ready(r) && out == M.RunAll(r, steps).out
    requires forall p :: p in r.audio ==> HasId(p.pes, audioId)
    requires A.Made(audio, picked, Around(a, r.audio)) && V.Holds(video, found, Around(v, r.video))
    modifies m, m.ppBuffer
    ensures DemuxAll(m.out).Some? && A.AllWellFormed(a.before) && A.AllWellFormed(v.before)
    ensures A.Picked(audio, picked) && V.InData(video, found)
    ensures audioId != VIDEO_ID ==>
              Stretch(Stream(DemuxAll(m.out).value, audioId), A.EsPicked(audio, picked), |A.EsOfAll(a.before)|)
    ensures Stretch(Stream(DemuxAll(m.out).value, VIDEO_ID), V.CutBytes(video, found), |A.EsOfAll(v.before)|)
  {
    hide *;
    InputWritten(r, steps, audio, picked, a, video, found, v, audioId);
    RecordRun(m, out, r, steps);
  }

  lemma InputWritten(r: M.Run, steps: seq<M.Step>, audio: seq<byte>, picked: seq<Span>, a: Place,
                     video: seq<byte>, found: seq<V.Found>, v: Place, audioId: byte)
    requires Ready(r) && forall p :: p in r.audio ==> HasId(p.pes, audioId)
    requires A.Made(audio, picked, Around(a, r.audio)) && V.Holds(video, found, Around(v, r.video))
    ensures A.Picked(audio, picked) && V.InData(video, found)
    ensures A.AllWellFormed(a.before) && A.AllWellFormed(v.before)
    ensures A.AllWellFormed(AudioWritten(r, steps)) && A.AllWellFormed(VideoWritten(r, steps))
    ensures Stretch(EsWith(AudioWritten(r, steps), audioId), A.EsPicked(audio, picked), |A.EsOfAll(a.before)|)
    ensures Stretch(EsWith(VideoWritten(r, steps), VIDEO_ID), V.CutBytes(video, found), |A.EsOfAll(v.before)|)
  {
    var q := M.RunAll(r, steps);
    A.MadeCovers(audio, picked, Around(a, r.audio));
    assert A.AllWellFormed(Around(a, r.audio)) && A.EsOfAll(Around(a, r.audio)) == A.EsPicked(audio, picked);
    V.HoldsBytes(video, found, Around(v, r.video));
    assert A.AllWellFormed(Around(v, r.video)) && A.EsOfAll(Around(v, r.video)) == V.CutBytes(video, found);
    assert M.Shape(r);
    hide *;
    RunEmits(r, steps);
    Written(r, q, steps);
    SameId(r.audio, q.i, audioId);
    VideoIds(r.video, q.j);
    AroundIs(a, r.audio);
    AroundIs(v, r.video);
    EsOfAllInside(a.before, PesOfQueue(r.audio), a.after, q.i);
    EsOfAllInside(v.before, PesOfQueue(r.video), v.after, q.j);
    EsWithAll(AudioWritten(r, steps), audioId);
    EsWithAll(VideoWritten(r, steps), VIDEO_ID);
  }

  lemma AroundIs(w: Place, q: seq<M.Packet>)
    ensures Around(w, q) == w.before + PesOfQueue(q) + w.after
  {
  }

  lemma Written(r: M.Run, q: M.Run, steps: seq<M.Step>)
    requires M.Shape(r) && q == M.RunAll(r, steps) && q.i <= |r.audio| && q.j <= |r.video|
    ensures AudioWritten(r, steps) == PesOfQueue(r.audio[..q.i]) == PesOfQueue(r.audio)[..q.i]
    ensures VideoWritten(r, steps) == PesOfQueue(r.video[..q.j]) == PesOfQueue(r.video)[..q.j]
  {
    hide M.RunAll;
  }

  lemma SameId(q: seq<M.Packet>, n: nat, sid: byte)
    requires n <= |q| && forall p :: p in q ==> HasId(p.pes, sid)
    ensures forall p :: p in PesOfQueue(q[..n]) ==> HasId(p, sid)
  {
    hide HasId;
    forall i | 0 <= i < n ensures HasId(q[i].pes, sid) {
      assert q[i] in q;
    }
  }

  lemma VideoIds(q: seq<M.Packet>, n: nat)
    requires n <= |q| && AllBelong(q, true)
    ensures forall p :: p in PesOfQueue(q[..n]) ==> HasId(p, VIDEO_ID)
  {
    hide WellFormed;
    forall i | 0 <= i < n ensures HasId(q[i].pes, VIDEO_ID) {
      assert Belongs(q[i], true);
      BelongsFacts(q[i], true);
    }
  }
}
