/**
 write_mpg of grab's Remuxer: finding a point where audio and video can start together, and from
 there merging the two packet queues by presentation time while carrying the system clock.
 */
module Merge {

  import opened Bytes
  import opened Clock

  const VIDEO_FORERUN := 19000.0
  const LAP := 4294967296.0
  const WINDOW := 90000.0 / 22.0

  /**
   A queued packet. `pts` is what pes_pts reads, a clock that wraps at 2^32; `lap` says how often
   that clock had wrapped at the sender, which the program does not know. `seqStart` is the mark of
   a sequence start; `startable` is false for AC3 data that does not begin with a sync word. `pes` is
   the packet itself.
   */
  datatype Packet = Packet(pts: real, lap: int, seqStart: bool, startable: bool, pes: seq<byte>)

  /** The sender's time of a packet. */
  function Time(p: Packet): real {
    p.pts + LAP * p.lap as real
  }

  /** One call of write_pes_in_pp: the packet, the clock handed over and the two durations. */
  datatype Emission = Emission(video: bool, packet: Packet, clock: real, pesDuration: real, scrDuration: real)

  /** The time by which an emitted packet is ordered: audio is written later than its time stamp says. */
  function Due(video: bool, p: Packet): real {
    if video then Time(p) else Time(p) + VIDEO_FORERUN
  }

  datatype Outcome = Wait | Resync | Emit(e: Emission, clock: real)

  /** One round of the loop: what is written next, and the system clock afterwards. */
  function Round(audio: seq<Packet>, video: seq<Packet>, clock: real): (o: Outcome)
    ensures !o.Wait? ==> |audio| >= 3 && |video| >= 3
  {
    if |audio| < 3 || |video| < 3 then Wait
    else
      var v0, v1 := video[0].pts, video[1].pts;
      var a0, a1 := audio[0].pts + VIDEO_FORERUN, audio[1].pts + VIDEO_FORERUN;
      if Abs(PtsDiff(v0, a0)) > 90000.0 || Abs(PtsDiff(v0, clock)) > 90000.0
         || Abs(PtsDiff(v1, v0)) > 90000.0 || Abs(PtsDiff(a1, a0)) > 90000.0 then Resync
      else if PtsDiff(a0, v0) <= 0.0 then
        var f2 := if PtsDiff(a1, v0) < 0.0 then a1 else v0;
        Emit(Emission(false, audio[0], a0, PtsDiff(a1, a0), PtsDiff(f2, a0)), a0 + PtsDiff(f2, a0))
      else
        var f2 := if PtsDiff(v1, a0) < 0.0 then v1 else a0;
        Emit(Emission(true, video[0], clock, PtsDiff(v1, v0), PtsDiff(f2, v0)), clock + PtsDiff(f2, v0))
  }

  // ------------------------------------------------------------------ runs

  /** Consecutive packets are in order and at most 2^28 ticks (about 50 minutes) apart. */
  ghost predicate Steady(q: seq<Packet>) {
    && (forall i :: 0 <= i < |q| ==> 0.0 <= q[i].pts < LAP)
    && (forall i :: 0 <= i < |q| - 1 ==> 0.0 <= Time(q[i + 1]) - Time(q[i]) <= 268435456.0)
  }

  /**
   Both streams from a resync on, how much of each has been queued and emitted, and what was
   written. A run ends at the next resync.
   */
  datatype Run = Run(audio: seq<Packet>, video: seq<Packet>, queuedA: nat, queuedV: nat, i: nat, j: nat,
                     clock: real, out: seq<Emission>, ended: bool)

  datatype Step = Feed(a: nat, v: nat) | Write

  ghost predicate Shape(r: Run) {
    r.i <= r.queuedA <= |r.audio| && r.j <= r.queuedV <= |r.video|
  }

  ghost function Next(r: Run, step: Step): (r': Run)
    requires Shape(r)
    ensures Shape(r') && r'.audio == r.audio && r'.video == r.video
  {
    match step
    case Feed(a, v) =>
      r.(queuedA := if r.queuedA + a <= |r.audio| then r.queuedA + a else |r.audio|,
         queuedV := if r.queuedV + v <= |r.video| then r.queuedV + v else |r.video|)
    case Write =>
      if r.ended then r
      else
        match Round(r.audio[r.i..r.queuedA], r.video[r.j..r.queuedV], r.clock)
        case Wait => r
        case Resync => r.(ended := true)
        case Emit(e, clock) =>
          if e.video then r.(j := r.j + 1, clock := clock, out := r.out + [e])
          else r.(i := r.i + 1, clock := clock, out := r.out + [e])
  }

  /** The state in which a resync leaves the queues: the clock is the first video packet's time stamp. */
  ghost predicate Started(r: Run) {
    && r.queuedA == r.queuedV == r.i == r.j == 0 && r.out == [] && !r.ended
    && Steady(r.audio) && Steady(r.video)
    && (r.audio != [] && r.video != [] ==>
          r.clock == r.video[0].pts && -VIDEO_FORERUN < Time(r.audio[0]) - Time(r.video[0]) < 90000.0)
  }

  ghost function RunAll(r: Run, steps: seq<Step>): (r': Run)
    requires Shape(r)
    ensures Shape(r') && r'.audio == r.audio && r'.video == r.video
  {
    if steps == [] then r else Next(RunAll(r, steps[..|steps| - 1]), steps[|steps| - 1])
  }

  // ------------------------------------------------------------------ the reference: merging by the sender's time

  /**
   `ps` merges the first `i` audio and the first `j` video packets by due time: each packet is no
   later (audio) or earlier (video) than the next packet of the other stream.
   */
  ghost predicate Merged(ps: seq<(bool, Packet)>, a: seq<Packet>, v: seq<Packet>, i: nat, j: nat)
    decreases |ps|
  {
    if ps == [] then i == 0 && j == 0
    else
      var k := |ps| - 1;
      if ps[k].0 then
        && 0 < j <= |v| && i < |a| && ps[k].1 == v[j - 1] && Due(true, v[j - 1]) < Due(false, a[i])
        && Merged(ps[..k], a, v, i, j - 1)
      else
        && 0 < i <= |a| && j < |v| && ps[k].1 == a[i - 1] && Due(false, a[i - 1]) <= Due(true, v[j])
        && Merged(ps[..k], a, v, i - 1, j)
  }

  /** The packets of one kind in a merged list. */
  ghost function Of(ps: seq<(bool, Packet)>, video: bool): (r: seq<Packet>) {
    if ps == [] then []
    else Of(ps[..|ps| - 1], video) + if ps[|ps| - 1].0 == video then [ps[|ps| - 1].1] else []
  }

  /** A merge loses, repeats and reorders nothing within either stream. */
  lemma {:induction false} MergedKeepsStreams(ps: seq<(bool, Packet)>, a: seq<Packet>, v: seq<Packet>, i: nat, j: nat)
    requires Merged(ps, a, v, i, j)
    ensures i <= |a| && j <= |v| && Of(ps, false) == a[..i] && Of(ps, true) == v[..j]
    decreases |ps|
  {
    hide Due;
    if ps != [] {
      var k := |ps| - 1;
      if ps[k].0 {
        MergedKeepsStreams(ps[..k], a, v, i, j - 1);
        assert v[..j] == v[..j - 1] + [v[j - 1]];
      } else {
        MergedKeepsStreams(ps[..k], a, v, i - 1, j);
        assert a[..i] == a[..i - 1] + [a[i - 1]];
      }
    }
  }

  ghost predicate Sorted(ps: seq<(bool, Packet)>) {
    forall k :: 0 <= k < |ps| - 1 ==> Due(ps[k].0, ps[k].1) <= Due(ps[k + 1].0, ps[k + 1].1)
  }

  /** Merging two ordered streams gives an ordered one. */
  lemma {:induction false} MergedIsSorted(ps: seq<(bool, Packet)>, a: seq<Packet>, v: seq<Packet>, i: nat, j: nat)
    requires Merged(ps, a, v, i, j) && Steady(a) && Steady(v)
    ensures Sorted(ps)
    ensures ps != [] ==> (i < |a| ==> Due(ps[|ps| - 1].0, ps[|ps| - 1].1) <= Due(false, a[i]))
                         && (j < |v| ==> Due(ps[|ps| - 1].0, ps[|ps| - 1].1) <= Due(true, v[j]))
    decreases |ps|
  {
    if ps != [] {
      var k := |ps| - 1;
      if ps[k].0 {
        MergedIsSorted(ps[..k], a, v, i, j - 1);
        if j < |v| {
          assert Time(v[(j - 1) + 1]) - Time(v[j - 1]) >= 0.0;
        }
      } else {
        MergedIsSorted(ps[..k], a, v, i - 1, j);
        if i < |a| {
          assert Time(a[(i - 1) + 1]) - Time(a[i - 1]) >= 0.0;
        }
      }
      SortedSnoc(ps);
    }
  }

  lemma SortedSnoc(ps: seq<(bool, Packet)>)
    requires ps != [] && Sorted(ps[..|ps| - 1])
    requires |ps| > 1 ==> Due(ps[|ps| - 2].0, ps[|ps| - 2].1) <= Due(ps[|ps| - 1].0, ps[|ps| - 1].1)
    ensures Sorted(ps)
  {
    hide Due;
    var qs := ps[..|ps| - 1];
    forall k | 0 <= k < |ps| - 1 ensures Due(ps[k].0, ps[k].1) <= Due(ps[k + 1].0, ps[k + 1].1) {
      if k < |ps| - 2 {
        assert Due(qs[k].0, qs[k].1) <= Due(qs[k + 1].0, qs[k + 1].1);
      }
    }
  }

  /** Whether the packet due next is a video packet. */
  ghost predicate VideoNext(r: Run)
    requires r.i < |r.audio| && r.j < |r.video|
  {
    Due(true, r.video[r.j]) < Due(false, r.audio[r.i])
  }

  ghost function NextDue(r: Run): real
    requires r.i < |r.audio| && r.j < |r.video|
  {
    if VideoNext(r) then Due(true, r.video[r.j]) else Due(false, r.audio[r.i])
  }

  // ------------------------------------------------------------------ equality modulo a lap of the clock

  ghost function Laps(x: real, y: real): int {
    ((x - y) / LAP).Floor
  }

  ghost predicate Congruent(x: real, y: real) {
    x - y == LAP * Laps(x, y) as real
  }

  lemma CongruentBy(x: real, y: real, k: int)
    requires x - y == LAP * k as real
    ensures Congruent(x, y)
  {
    assert (x - y) / LAP == k as real;
  }

  lemma CongruentShift(x: real, y: real, d: real)
    requires Congruent(x, y)
    ensures Congruent(x + d, y + d)
  {
    assert (x + d) - (y + d) == x - y;
  }

  // ------------------------------------------------------------------ one round

  /** Differences of time stamps seen through the wrapping clock are differences of due times. */
  lemma DiffIsDue(lv: bool, l: Packet, rv: bool, r: Packet)
    requires 0.0 <= l.pts < LAP && 0.0 <= r.pts < LAP
    requires -2147483648.0 < Due(lv, l) - Due(rv, r) < 2147483648.0
    ensures PtsDiff(Stamp(lv, l), Stamp(rv, r)) == Due(lv, l) - Due(rv, r)
  {
    hide PtsDiff;
    PtsDiffAcrossWrap32(Stamp(lv, l), Stamp(rv, r), Due(lv, l) - Due(rv, r), r.lap - l.lap);
  }

  /** The time stamp as the program compares it. */
  function Stamp(video: bool, p: Packet): real {
    if video then p.pts else p.pts + VIDEO_FORERUN
  }

  lemma StampCongruent(video: bool, p: Packet)
    ensures Congruent(Stamp(video, p), Due(video, p))
  {
    CongruentBy(Stamp(video, p), Due(video, p), -p.lap);
  }

  ghost predicate Near(x: real, y: real) {
    -536870912.0 < x - y < 536870912.0
  }

  /** A round that writes takes the packet due next and leaves the clock at the one due after it. */
  lemma RoundFollowsTime(a0: Packet, a1: Packet, v0: Packet, v1: Packet, audio: seq<Packet>, video: seq<Packet>,
                         clock: real)
    requires |audio| >= 3 && |video| >= 3 && audio[0] == a0 && audio[1] == a1 && video[0] == v0 && video[1] == v1
    requires 0.0 <= a0.pts < LAP && 0.0 <= a1.pts < LAP && 0.0 <= v0.pts < LAP && 0.0 <= v1.pts < LAP
    requires 0.0 <= Time(a1) - Time(a0) <= 268435456.0 && 0.0 <= Time(v1) - Time(v0) <= 268435456.0
    requires Near(Due(false, a0), Due(true, v0))
    requires Round(audio, video, clock).Emit?
    ensures var o := Round(audio, video, clock);
            if Due(true, v0) < Due(false, a0) then
              var next := if Due(true, v1) < Due(false, a0) then Due(true, v1) else Due(false, a0);
              && o.e.video && o.e.packet == v0 && o.e.clock == clock
              && o.e.scrDuration == next - Due(true, v0) && o.clock == clock + o.e.scrDuration
              && Near(Due(false, a0), Due(true, v1))
            else
              var next := if Due(true, v0) < Due(false, a1) then Due(true, v0) else Due(false, a1);
              && !o.e.video && o.e.packet == a0 && o.e.clock == Stamp(false, a0)
              && o.e.scrDuration == next - Due(false, a0) && o.clock == o.e.clock + o.e.scrDuration
              && Near(Due(false, a1), Due(true, v0))
  {
    hide PtsDiff;
    DiffIsDue(false, a0, true, v0);
    DiffIsDue(true, v0, false, a0);
    DiffIsDue(false, a1, true, v0);
    DiffIsDue(true, v1, false, a0);
    DiffIsDue(true, v1, true, v0);
    DiffIsDue(false, a1, false, a0);
    DiffIsDue(true, v0, true, v0);
    DiffIsDue(false, a0, false, a0);
  }

  // ------------------------------------------------------------------ every run

  ghost function Tagged(out: seq<Emission>): (ps: seq<(bool, Packet)>)
    ensures |ps| == |out|
  {
    seq(|out|, k requires 0 <= k < |out| => (out[k].video, out[k].packet))
  }

  /** Every packet was written with the clock at its own due time. */
  ghost predicate OnTime(out: seq<Emission>) {
    forall k :: 0 <= k < |out| ==> Congruent(out[k].clock, Due(out[k].video, out[k].packet))
  }

  ghost predicate Inv(r: Run) {
    && Shape(r) && Steady(r.audio) && Steady(r.video)
    && Merged(Tagged(r.out), r.audio, r.video, r.i, r.j) && OnTime(r.out)
    && (r.i < |r.audio| && r.j < |r.video| ==>
          && Near(Due(false, r.audio[r.i]), Due(true, r.video[r.j]))
          && Congruent(r.clock, NextDue(r)))
  }

  lemma StartedInv(r: Run)
    requires Started(r)
    ensures Inv(r)
  {
    if r.audio != [] && r.video != [] {
      CongruentBy(r.clock, Due(true, r.video[0]), -r.video[0].lap);
    }
  }

  /** What a round that writes does to a run. */
  lemma EmitFollows(r: Run)
    requires Inv(r) && !r.ended
    requires Round(r.audio[r.i..r.queuedA], r.video[r.j..r.queuedV], r.clock).Emit?
    ensures r.i + 1 < |r.audio| && r.j + 1 < |r.video|
    ensures var o := Round(r.audio[r.i..r.queuedA], r.video[r.j..r.queuedV], r.clock);
            var r' := if VideoNext(r) then r.(j := r.j + 1) else r.(i := r.i + 1);
            && o.e.video == VideoNext(r) && o.e.packet == (if o.e.video then r.video[r.j] else r.audio[r.i])
            && Congruent(o.e.clock, Due(o.e.video, o.e.packet)) && Congruent(o.clock, NextDue(r'))
            && Near(Due(false, r'.audio[r'.i]), Due(true, r'.video[r'.j]))
  {
    hide Congruent;
    hide Merged;
    hide Tagged;
    hide OnTime;
    hide Round;
    var a, v := r.audio[r.i..r.queuedA], r.video[r.j..r.queuedV];
    assert a[0] == r.audio[r.i] && a[1] == r.audio[r.i + 1] && v[0] == r.video[r.j] && v[1] == r.video[r.j + 1];
    RoundFollowsTime(a[0], a[1], v[0], v[1], a, v, r.clock);
    hide Steady;
    hide Stamp;
    var e := Round(a, v, r.clock).e;
    StampCongruent(false, a[0]);
    CongruentShift(e.clock, Due(e.video, e.packet), e.scrDuration);
  }

  lemma EmitKeeps(r: Run)
    requires Inv(r) && !r.ended
    requires Round(r.audio[r.i..r.queuedA], r.video[r.j..r.queuedV], r.clock).Emit?
    ensures Inv(Next(r, Write))
  {
    hide Congruent;
    hide Round;
    hide Next;
    hide Merged;
    hide Tagged;
    hide OnTime;
    hide Due;
    hide Near;
    hide Steady;
    var o := Round(r.audio[r.i..r.queuedA], r.video[r.j..r.queuedV], r.clock);
    EmitFollows(r);
    NextEmits(r, o);
    MergedMore(Tagged(r.out), r.audio, r.video, r.i, r.j, o.e);
    OutMore(r.out, o.e);
  }

  lemma NextEmits(r: Run, o: Outcome)
    requires Shape(r) && !r.ended && o == Round(r.audio[r.i..r.queuedA], r.video[r.j..r.queuedV], r.clock) && o.Emit?
    ensures Next(r, Write)
            == if o.e.video then r.(j := r.j + 1, clock := o.clock, out := r.out + [o.e])
               else r.(i := r.i + 1, clock := o.clock, out := r.out + [o.e])
  {
    hide Round;
  }

  lemma NextWaits(r: Run)
    requires Shape(r) && Round(r.audio[r.i..r.queuedA], r.video[r.j..r.queuedV], r.clock).Wait?
    ensures Next(r, Write) == r
  {
    hide Round;
  }

  lemma OutMore(out: seq<Emission>, e: Emission)
    requires OnTime(out) && Congruent(e.clock, Due(e.video, e.packet))
    ensures OnTime(out + [e]) && Tagged(out + [e]) == Tagged(out) + [(e.video, e.packet)]
  {
    hide Congruent;
    hide Due;
  }

  lemma MergedMore(ps: seq<(bool, Packet)>, a: seq<Packet>, v: seq<Packet>, i: nat, j: nat, e: Emission)
    requires Merged(ps, a, v, i, j) && i < |a| && j < |v|
    requires e.video == (Due(true, v[j]) < Due(false, a[i])) && e.packet == if e.video then v[j] else a[i]
    ensures Merged(ps + [(e.video, e.packet)], a, v, if e.video then i else i + 1, if e.video then j + 1 else j)
  {
    hide Due;
    assert (ps + [(e.video, e.packet)])[..|ps|] == ps;
  }

  lemma {:induction false} InvOfRun(r: Run, steps: seq<Step>)
    requires Started(r)
    ensures Shape(r) && Inv(RunAll(r, steps))
  {
    hide Round;
    hide Merged;
    if steps == [] {
      StartedInv(r);
    } else {
      var k := |steps| - 1;
      InvOfRun(r, steps[..k]);
      var q := RunAll(r, steps[..k]);
      if steps[k] == Write && !q.ended && Round(q.audio[q.i..q.queuedA], q.video[q.j..q.queuedV], q.clock).Emit? {
        EmitKeeps(q);
      }
    }
  }

  /**
   What has been written is the merge of the two streams by the sender's time, in order; every packet
   went out with the clock at its due time, and the clock stands at the due time of the packet that
   comes next.
   */
  ghost predicate MergesSoFar(r: Run, steps: seq<Step>)
    requires Shape(r)
  {
    var q := RunAll(r, steps);
    && Merged(Tagged(q.out), r.audio, r.video, q.i, q.j) && Sorted(Tagged(q.out))
    && Of(Tagged(q.out), false) == r.audio[..q.i] && Of(Tagged(q.out), true) == r.video[..q.j]
    && OnTime(q.out)
    && (q.i < |q.audio| && q.j < |q.video| ==> Congruent(q.clock, NextDue(q)))
  }

  /** From a resync to the next one, however the packets are queued between the rounds. */
  lemma EveryRunMerges(r: Run, steps: seq<Step>)
    requires Started(r)
    ensures Shape(r) && MergesSoFar(r, steps)
  {
    hide RunAll;
    hide Merged;
    hide Congruent;
    hide Tagged;
    InvOfRun(r, steps);
    var q := RunAll(r, steps);
    MergedKeepsStreams(Tagged(q.out), q.audio, q.video, q.i, q.j);
    MergedIsSorted(Tagged(q.out), q.audio, q.video, q.i, q.j);
  }

  // ------------------------------------------------------------------ runs that do not end

  /** Consecutive packets are in order and at most a second apart. */
  ghost predicate Smooth(q: seq<Packet>) {
    && (forall i :: 0 <= i < |q| ==> 0.0 <= q[i].pts < LAP)
    && (forall i :: 0 <= i < |q| - 1 ==> 0.0 <= Time(q[i + 1]) - Time(q[i]) <= 90000.0)
  }

  /** Where the clock was last set: the stamp used then, and the due time it stands for. */
  ghost function ClockBase(r: Run): (real, real)
    requires r.i <= |r.audio| && (r.i == 0 ==> r.video != [])
  {
    if r.i > 0 then (Stamp(false, r.audio[r.i - 1]), Due(false, r.audio[r.i - 1]))
    else (Stamp(true, r.video[0]), Due(true, r.video[0]))
  }

  /** The heads of both queues are due within a second, and the clock has run on from its base. */
  ghost predicate InStep(r: Run)
    requires Shape(r)
  {
    r.i < |r.audio| && r.j < |r.video| ==>
      && -90000.0 <= Due(false, r.audio[r.i]) - Due(true, r.video[r.j]) <= 90000.0
      && r.clock == ClockBase(r).0 + (NextDue(r) - ClockBase(r).1)
      && 0.0 <= NextDue(r) - ClockBase(r).1
      && (r.i > 0 ==> Due(false, r.audio[r.i]) - ClockBase(r).1 <= 90000.0)
      && (r.i == 0 ==> Due(false, r.audio[0]) - ClockBase(r).1 <= 90000.0)
  }

  /** Near due times, seen through the wrapping clock, are no reason to resync. */
  lemma NoResync(a0: Packet, a1: Packet, v0: Packet, v1: Packet, audio: seq<Packet>, video: seq<Packet>, clock: real,
                 due: real, k: int)
    requires |audio| >= 3 && |video| >= 3 && audio[0] == a0 && audio[1] == a1 && video[0] == v0 && video[1] == v1
    requires 0.0 <= a0.pts < LAP && 0.0 <= a1.pts < LAP && 0.0 <= v0.pts < LAP && 0.0 <= v1.pts < LAP
    requires 0.0 <= Time(a1) - Time(a0) <= 90000.0 && 0.0 <= Time(v1) - Time(v0) <= 90000.0
    requires -90000.0 <= Due(false, a0) - Due(true, v0) <= 90000.0
    requires 0.0 <= clock <= 6442450944.0 && clock == due - LAP * k as real
             && -90000.0 <= due - Due(true, v0) <= 90000.0
    ensures !Round(audio, video, clock).Resync?
  {
    hide PtsDiff;
    DiffIsDue(true, v0, false, a0);
    DiffIsDue(true, v1, true, v0);
    DiffIsDue(false, a1, false, a0);
    PtsDiffAcrossWrap32(v0.pts, clock, Due(true, v0) - due, k - v0.lap);
  }

  /** The round has written a video packet, and the clock has moved on to what is due then. */
  lemma InStepVideo(r: Run, r': Run)
    requires Shape(r) && Shape(r') && Smooth(r.video) && InStep(r) && r.i < |r.audio| && r.j + 1 < |r.video|
             && VideoNext(r)
    requires r'.audio == r.audio && r'.video == r.video && r'.i == r.i && r'.j == r.j + 1
    requires r'.clock == r.clock + (NextDue(r') - Due(true, r.video[r.j]))
    ensures InStep(r')
  {
  }

  lemma InStepAudio(r: Run, r': Run)
    requires Shape(r) && Shape(r') && Smooth(r.audio) && InStep(r) && r.i + 1 < |r.audio| && r.j < |r.video|
             && !VideoNext(r)
    requires r'.audio == r.audio && r'.video == r.video && r'.i == r.i + 1 && r'.j == r.j
    requires r'.clock == Stamp(false, r.audio[r.i]) + (NextDue(r') - Due(false, r.audio[r.i]))
    ensures InStep(r')
  {
  }

  lemma InStepWrites(r: Run)
    requires Inv(r) && Smooth(r.audio) && Smooth(r.video) && InStep(r) && !r.ended
    ensures !Next(r, Write).ended && InStep(Next(r, Write))
  {
    hide Inv;
    hide InStep;
    hide Round;
    hide Due;
    hide Smooth;
    hide Next;
    assert Shape(r) by { InvShape(r); }
    var a, v := r.audio[r.i..r.queuedA], r.video[r.j..r.queuedV];
    RoundWaits(a, v, r.clock);
    if |a| >= 3 && |v| >= 3 {
      InStepRound(r);
      NextEmits(r, Round(a, v, r.clock));
      if VideoNext(r) {
        InStepVideo(r, Next(r, Write));
      } else {
        InStepAudio(r, Next(r, Write));
      }
    } else {
      NextWaits(r);
    }
  }

  lemma InvShape(r: Run)
    requires Inv(r)
    ensures Shape(r)
  {
  }

  /** A round in step writes the packet due next. */
  lemma InStepRound(r: Run)
    requires Inv(r) && Smooth(r.audio) && Smooth(r.video) && InStep(r) && !r.ended
    requires r.queuedA - r.i >= 3 && r.queuedV - r.j >= 3
    ensures var o := Round(r.audio[r.i..r.queuedA], r.video[r.j..r.queuedV], r.clock);
            && o.Emit? && o.e.video == VideoNext(r)
            && var r' := if VideoNext(r) then r.(j := r.j + 1) else r.(i := r.i + 1);
               o.clock == (if VideoNext(r) then r.clock else Stamp(false, r.audio[r.i])) + (NextDue(r') - NextDue(r))
  {
    hide *;
    ShapeBounds(r);
    InStepHeads(r);
    var a, v := r.audio[r.i..r.queuedA], r.video[r.j..r.queuedV];
    assert a[0] == r.audio[r.i] && a[1] == r.audio[r.i + 1] && v[0] == r.video[r.j] && v[1] == r.video[r.j + 1];
    RoundInStep(a, v, r.clock, NextDue(r), BaseLap(r));
    DuesAfter(r);
  }

  lemma ShapeBounds(r: Run)
    requires Inv(r)
    ensures r.i <= r.queuedA <= |r.audio| && r.j <= r.queuedV <= |r.video|
  {
  }

  lemma DuesAfter(r: Run)
    requires r.i + 1 < |r.audio| && r.j + 1 < |r.video|
    ensures var a0, a1, v0, v1 := r.audio[r.i], r.audio[r.i + 1], r.video[r.j], r.video[r.j + 1];
            && VideoNext(r) == (Due(true, v0) < Due(false, a0))
            && NextDue(r) == (if VideoNext(r) then Due(true, v0) else Due(false, a0))
            && NextDue(r.(j := r.j + 1)) == (if Due(true, v1) < Due(false, a0) then Due(true, v1) else Due(false, a0))
            && NextDue(r.(i := r.i + 1)) == (if Due(true, v0) < Due(false, a1) then Due(true, v0) else Due(false, a1))
  {
    hide Due;
  }

  lemma RoundInStep(a: seq<Packet>, v: seq<Packet>, clock: real, due: real, k: int)
    requires |a| >= 3 && |v| >= 3
    requires 0.0 <= a[0].pts < LAP && 0.0 <= a[1].pts < LAP && 0.0 <= v[0].pts < LAP && 0.0 <= v[1].pts < LAP
    requires 0.0 <= Time(a[1]) - Time(a[0]) <= 90000.0 && 0.0 <= Time(v[1]) - Time(v[0]) <= 90000.0
    requires -90000.0 <= Due(false, a[0]) - Due(true, v[0]) <= 90000.0
    requires due == if Due(true, v[0]) < Due(false, a[0]) then Due(true, v[0]) else Due(false, a[0])
    requires 0.0 <= clock <= 6442450944.0 && clock == due - LAP * k as real
    ensures var o := Round(a, v, clock);
            && o.Emit? && o.e.video == (Due(true, v[0]) < Due(false, a[0]))
            && o.clock == if o.e.video
                          then clock - due
                               + if Due(true, v[1]) < Due(false, a[0]) then Due(true, v[1]) else Due(false, a[0])
                          else Stamp(false, a[0]) - due
                               + if Due(true, v[0]) < Due(false, a[1]) then Due(true, v[0]) else Due(false, a[1])
  {
    RoundWaits(a, v, clock);
    hide Round;
    NoResync(a[0], a[1], v[0], v[1], a, v, clock, due, k);
    RoundFollowsTime(a[0], a[1], v[0], v[1], a, v, clock);
  }

  lemma InStepHeads(r: Run)
    requires Inv(r) && Smooth(r.audio) && Smooth(r.video) && InStep(r) && r.i + 1 < |r.audio| && r.j + 1 < |r.video|
    ensures Shape(r)
    ensures var a0, a1, v0, v1 := r.audio[r.i], r.audio[r.i + 1], r.video[r.j], r.video[r.j + 1];
            && 0.0 <= a0.pts < LAP && 0.0 <= a1.pts < LAP && 0.0 <= v0.pts < LAP && 0.0 <= v1.pts < LAP
            && 0.0 <= Time(a1) - Time(a0) <= 90000.0 && 0.0 <= Time(v1) - Time(v0) <= 90000.0
            && -90000.0 <= Due(false, a0) - Due(true, v0) <= 90000.0
            && NextDue(r) == (if Due(true, v0) < Due(false, a0) then Due(true, v0) else Due(false, a0))
    ensures 0.0 <= r.clock <= 6442450944.0 && r.clock == NextDue(r) - LAP * BaseLap(r) as real
  {
    hide Congruent;
    hide Merged;
    hide Tagged;
    hide OnTime;
    hide Steady;
    ClockInRange(r);
  }

  ghost function BaseLap(r: Run): int
    requires r.i <= |r.audio| && (r.i == 0 ==> r.video != [])
  {
    if r.i > 0 then r.audio[r.i - 1].lap else r.video[0].lap
  }

  lemma ClockInRange(r: Run)
    requires Shape(r) && Smooth(r.audio) && Smooth(r.video) && InStep(r) && r.i < |r.audio| && r.j < |r.video|
    ensures 0.0 <= r.clock <= 6442450944.0 && r.clock == NextDue(r) - LAP * BaseLap(r) as real
  {
  }

  lemma StartInStep(r: Run)
    requires Started(r)
    requires r.audio != [] && r.video != [] ==> Time(r.audio[0]) - Time(r.video[0]) <= 90000.0 - VIDEO_FORERUN
    ensures Shape(r) && InStep(r)
  {
  }

  lemma FeedInStep(r: Run, step: Step)
    requires Shape(r) && InStep(r) && step.Feed?
    ensures InStep(Next(r, step)) && Next(r, step).ended == r.ended
  {
    hide Due;
    hide Stamp;
  }

  /** With steps of at most a second no run ends by itself. */
  lemma {:induction false} NoRunEnds(r: Run, steps: seq<Step>)
    requires Started(r) && Smooth(r.audio) && Smooth(r.video)
    requires r.audio != [] && r.video != [] ==> Time(r.audio[0]) - Time(r.video[0]) <= 90000.0 - VIDEO_FORERUN
    ensures Shape(r) && !RunAll(r, steps).ended && InStep(RunAll(r, steps))
  {
    if steps == [] {
      StartInStep(r);
    } else {
      var k := |steps| - 1;
      NoRunEnds(r, steps[..k]);
      InvOfRun(r, steps[..k]);
      hide Inv;
      hide Smooth;
      hide Round;
      hide Started;
      var q := RunAll(r, steps[..k]);
      if steps[k] == Write {
        hide InStep;
        InStepWrites(q);
      } else {
        FeedInStep(q, steps[k]);
      }
    }
  }

  // ------------------------------------------------------------------ write_mpg itself

  /** What the loop of write_mpg writes, and how it leaves the queues and the clock. */
  datatype Written = Written(out: seq<Emission>, audio: seq<Packet>, video: seq<Packet>, clock: real, resync: bool)

  function Rounds(audio: seq<Packet>, video: seq<Packet>, clock: real): (w: Written)
    decreases |audio| + |video|
  {
    match Round(audio, video, clock)
    case Wait => Written([], audio, video, clock, false)
    case Resync => Written([], [], [], clock, true)
    case Emit(e, c) =>
      var w := if e.video then Rounds(audio, video[1..], c) else Rounds(audio[1..], video, c);
      After([e], w)
  }

  function After(done: seq<Emission>, w: Written): Written {
    w.(out := done + w.out)
  }

  lemma AfterAfter(done: seq<Emission>, e: Emission, w: Written)
    ensures After(done, After([e], w)) == After(done + [e], w)
  {
    assert done + ([e] + w.out) == (done + [e]) + w.out;
  }

  lemma AfterNothing(w: Written)
    ensures After([], w) == w
  {
    assert [] + w.out == w.out;
  }

  lemma AfterLast(done: seq<Emission>, w: Written)
    requires w.out == []
    ensures After(done, w) == w.(out := done)
  {
    assert done + [] == done;
  }

  lemma RoundsUnfold(audio: seq<Packet>, video: seq<Packet>, clock: real)
    ensures match Round(audio, video, clock)
            case Wait => Rounds(audio, video, clock) == Written([], audio, video, clock, false)
            case Resync => Rounds(audio, video, clock) == Written([], [], [], clock, true)
            case Emit(e, c) =>
              && audio != [] && video != []
              && Rounds(audio, video, clock)
                 == After([e], if e.video then Rounds(audio, video[1..], c) else Rounds(audio[1..], video, c))
  {
    hide Round;
  }

  ghost function Writes(n: nat): (steps: seq<Step>) {
    seq(n, i => Write)
  }

  lemma {:induction false} RunWrites(r: Run, n: nat)
    requires Shape(r)
    ensures RunAll(r, Writes(n + 1)) == RunAll(Next(r, Write), Writes(n))
  {
    hide Next;
    assert Writes(n + 1)[..n] == Writes(n);
    if n > 0 {
      assert Writes(n)[..n - 1] == Writes(n - 1);
      RunWrites(r, n - 1);
    } else {
      assert Writes(0) == [];
      assert Writes(1)[..0] == [];
    }
  }

  /** The loop of write_mpg takes exactly the write steps of a run. */
  lemma {:induction false} RoundsAreWrites(r: Run)
    requires Shape(r) && !r.ended
    ensures var w := Rounds(r.audio[r.i..r.queuedA], r.video[r.j..r.queuedV], r.clock);
            var q := RunAll(r, Writes(|w.out|));
            && q.out == r.out + w.out && q.clock == w.clock && !q.ended
            && (!w.resync ==> w.audio == r.audio[q.i..q.queuedA] && w.video == r.video[q.j..q.queuedV])
            && Next(q, Write).ended == w.resync
    decreases r.queuedA - r.i + r.queuedV - r.j
  {
    hide Round;
    hide Rounds;
    hide RunAll;
    var a, v := r.audio[r.i..r.queuedA], r.video[r.j..r.queuedV];
    RoundsUnfold(a, v, r.clock);
    var o := Round(a, v, r.clock);
    if o.Emit? {
      NextEmits(r, o);
      hide Next;
      var r' := Next(r, Write);
      assert r.audio[r.i + 1..r.queuedA] == a[1..] && r.video[r.j + 1..r.queuedV] == v[1..];
      RoundsAreWrites(r');
      var w' := Rounds(r.audio[r'.i..r.queuedA], r.video[r'.j..r.queuedV], r'.clock);
      RunWrites(r, |w'.out|);
      assert (r.out + [o.e]) + w'.out == r.out + ([o.e] + w'.out);
    } else {
      NoWrites(r);
    }
  }

  lemma NoWrites(r: Run)
    requires Shape(r)
    ensures RunAll(r, Writes(0)) == r
  {
  }

  lemma {:induction false} RoundsEndShort(audio: seq<Packet>, video: seq<Packet>, clock: real)
    ensures var w := Rounds(audio, video, clock); w.resync || |w.audio| < 3 || |w.video| < 3
    decreases |audio| + |video|
  {
    hide Round;
    hide Rounds;
    RoundsUnfold(audio, video, clock);
    match Round(audio, video, clock)
    case Wait => RoundWaits(audio, video, clock);
    case Resync =>
    case Emit(e, c) =>
      if e.video {
        RoundsEndShort(audio, video[1..], c);
      } else {
        RoundsEndShort(audio[1..], video, c);
      }
  }

  lemma RoundWaits(audio: seq<Packet>, video: seq<Packet>, clock: real)
    ensures Round(audio, video, clock).Wait? <==> |audio| < 3 || |video| < 3
  {
  }

  lemma {:induction false} RunAppend(r: Run, s: seq<Step>, t: seq<Step>)
    requires Shape(r)
    ensures RunAll(r, s + t) == RunAll(RunAll(r, s), t)
    decreases |t|
  {
    hide Next;
    if t == [] {
      assert s + t == s;
    } else {
      var k := |t| - 1;
      RunAppend(r, s, t[..k]);
      assert (s + t)[..|s + t| - 1] == s + t[..k];
    }
  }

  /** With steps of at most a second, each call writes until fewer than three packets of one kind are left. */
  lemma AllButTheLastAreWritten(r: Run, steps: seq<Step>)
    requires Started(r) && Smooth(r.audio) && Smooth(r.video)
    requires r.audio != [] && r.video != [] ==> Time(r.audio[0]) - Time(r.video[0]) <= 90000.0 - VIDEO_FORERUN
    ensures Shape(r)
    ensures var q := RunAll(r, steps);
            var w := Rounds(q.audio[q.i..q.queuedA], q.video[q.j..q.queuedV], q.clock);
            !w.resync && (|w.audio| < 3 || |w.video| < 3)
  {
    hide Rounds;
    hide RunAll;
    hide InStep;
    hide Started;
    hide Smooth;
    assert Shape(r) by { NoRunEnds(r, []); }
    NoRunEnds(r, steps);
    var q := RunAll(r, steps);
    var w := Rounds(q.audio[q.i..q.queuedA], q.video[q.j..q.queuedV], q.clock);
    RoundsAreWrites(q);
    RoundsEndShort(q.audio[q.i..q.queuedA], q.video[q.j..q.queuedV], q.clock);
    var more := Writes(|w.out|);
    RunAppend(r, steps, more + [Write]);
    RunAppend(q, more, [Write]);
    OneStep(RunAll(q, more));
    NoRunEnds(r, steps + (more + [Write]));
  }

  lemma OneStep(r: Run)
    requires Shape(r)
    ensures RunAll(r, [Write]) == Next(r, Write)
  {
    hide Next;
    assert RunAll(r, [Write][..0]) == r;
  }

  // ------------------------------------------------------------------ where a run starts

  /**
   Audio and video can start together here: both are stamped, the video packet starts a sequence, its
   time stamp is the smaller number, and the two are near. Across a wrap of the clock the audio may
   still be the earlier one: see lemma AudioFirst.
   */
  predicate SyncPoint(a: Packet, v: Packet) {
    && a.pts >= 0.0 && a.startable && v.pts >= 0.0 && v.seqStart
    && v.pts < a.pts && Abs(PtsDiff(a.pts, v.pts)) < WINDOW
  }

  datatype Decision = DropAudio | DropVideo | DropBoth | Sync

  /** What is done with the heads of the two queues. */
  function Decide(a: Packet, v: Packet): (d: Decision)
    ensures d == Sync <==> SyncPoint(a, v)
    ensures d == DropAudio <==> a.pts < 0.0 || !a.startable || 0.0 <= a.pts <= v.pts
    ensures d == DropVideo ==> v.pts < 0.0 || !v.seqStart
  {
    if a.pts < 0.0 || !a.startable then DropAudio
    else if v.pts < 0.0 then DropVideo
    else if a.pts <= v.pts then DropAudio
    else if !v.seqStart then DropVideo
    else if Abs(PtsDiff(a.pts, v.pts)) < WINDOW then Sync
    else DropBoth
  }

  /** Time stamps, where there are any, do not decrease. */
  ghost predicate Rising(q: seq<Packet>) {
    forall i, j :: 0 <= i < j < |q| && q[i].pts >= 0.0 && q[j].pts >= 0.0 ==> q[i].pts <= q[j].pts
  }

  /** No packet before the `i`-th audio and the `j`-th video packet belongs to a sync point. */
  ghost predicate NoneSkipped(audio: seq<Packet>, video: seq<Packet>, i: nat, j: nat) {
    forall m, n :: 0 <= m < |audio| && 0 <= n < |video| && SyncPoint(audio[m], video[n]) ==> i <= m && j <= n
  }

  /** The stamps of audio and video are near, the video's being the smaller number. */
  predicate Meets(a: real, v: real) {
    0.0 <= v < a && (a - v < WINDOW || a - v > LAP - WINDOW)
  }

  /** All stamps are below the wrap of the clock, as pes_pts reads them. */
  ghost predicate Stamped(q: seq<Packet>) {
    forall i :: 0 <= i < |q| ==> q[i].pts < LAP
  }

  /** A sync point by its time stamps alone. */
  lemma SyncPointStamps(a: Packet, v: Packet)
    requires a.pts < LAP && v.pts < LAP
    ensures SyncPoint(a, v) <==> a.startable && v.seqStart && Meets(a.pts, v.pts)
  {
  }

  /** A video sequence start behind the `j`-th meets the `i`-th audio packet. */
  ghost predicate VideoBehindMeets(audio: seq<Packet>, video: seq<Packet>, i: nat, j: nat)
    requires i < |audio|
  {
    exists n :: j < n < |video| && video[n].seqStart && Meets(audio[i].pts, video[n].pts)
  }

  /** A startable audio packet behind the `i`-th meets the `j`-th video packet. */
  ghost predicate AudioBehindMeets(audio: seq<Packet>, video: seq<Packet>, i: nat, j: nat)
    requires j < |video|
  {
    exists m :: i < m < |audio| && audio[m].startable && Meets(audio[m].pts, video[j].pts)
  }

  /** What the decision about the heads costs, by the stamps of the packets behind them. */
  ghost predicate SkipsAt(audio: seq<Packet>, video: seq<Packet>, i: nat, j: nat)
    requires i < |audio| && j < |video|
  {
    match Decide(audio[i], video[j])
    case DropAudio => audio[i].startable && VideoBehindMeets(audio, video, i, j)
    case DropVideo => false
    case DropBoth => VideoBehindMeets(audio, video, i, j) || AudioBehindMeets(audio, video, i, j)
    case Sync => false
  }

  /** Dropping an audio packet skips a sync point if and only if it meets a sequence start further back. */
  lemma AudioDropSkipsIff(audio: seq<Packet>, video: seq<Packet>, i: nat, j: nat)
    requires Stamped(audio) && Stamped(video) && NoneSkipped(audio, video, i, j) && i < |audio| && j < |video|
    requires Decide(audio[i], video[j]) == DropAudio
    ensures !NoneSkipped(audio, video, i + 1, j) <==> audio[i].startable && VideoBehindMeets(audio, video, i, j)
  {
    SkippedIff(audio, video, i, j);
    hide SyncPoint;
    hide Meets;
    hide Decide;
  }

  /** Dropping a video packet alone never skips one. */
  lemma VideoDropSkipsNone(audio: seq<Packet>, video: seq<Packet>, i: nat, j: nat)
    requires NoneSkipped(audio, video, i, j) && i < |audio| && j < |video|
    requires Decide(audio[i], video[j]) == DropVideo
    ensures NoneSkipped(audio, video, i, j + 1)
  {
    hide PtsDiff;
  }

  /** Dropping both skips one if and only if one of the two meets a packet of the other kind further back. */
  lemma PairDropSkipsIff(audio: seq<Packet>, video: seq<Packet>, i: nat, j: nat)
    requires Stamped(audio) && Stamped(video) && NoneSkipped(audio, video, i, j) && i < |audio| && j < |video|
    requires Decide(audio[i], video[j]) == DropBoth
    ensures !NoneSkipped(audio, video, i + 1, j + 1)
            <==> VideoBehindMeets(audio, video, i, j) || AudioBehindMeets(audio, video, i, j)
  {
    SkippedIff(audio, video, i, j);
    PairFacts(audio[i], video[j]);
    hide SyncPoint;
    hide Meets;
    hide Decide;
  }

  lemma PairFacts(a: Packet, v: Packet)
    requires Decide(a, v) == DropBoth
    ensures a.startable && v.seqStart && !SyncPoint(a, v)
  {
    hide PtsDiff;
  }

  /** Which sync points there are beside and behind the heads. */
  lemma SkippedIff(audio: seq<Packet>, video: seq<Packet>, i: nat, j: nat)
    requires Stamped(audio) && Stamped(video) && i < |audio| && j < |video|
    requires Decide(audio[i], video[j]) != Sync
    ensures !SyncPoint(audio[i], video[j])
    ensures (exists n :: j <= n < |video| && SyncPoint(audio[i], video[n]))
            <==> audio[i].startable && VideoBehindMeets(audio, video, i, j)
    ensures (exists m :: i <= m < |audio| && SyncPoint(audio[m], video[j]))
            <==> video[j].seqStart && AudioBehindMeets(audio, video, i, j)
  {
    forall m, n | 0 <= m < |audio| && 0 <= n < |video|
      ensures SyncPoint(audio[m], video[n])
              <==> audio[m].startable && video[n].seqStart && Meets(audio[m].pts, video[n].pts)
    {
      SyncPointStamps(audio[m], video[n]);
    }
    hide SyncPoint;
    hide Meets;
  }

  /** All stamps of the two queues are less than half a lap apart. */
  ghost predicate Narrow(audio: seq<Packet>, video: seq<Packet>) {
    forall m, n :: 0 <= m < |audio| && 0 <= n < |video| && audio[m].pts >= 0.0 && video[n].pts >= 0.0
                   ==> -2147483648.0 < audio[m].pts - video[n].pts < 2147483648.0
  }

  /**
   Away from a wrap of the clock, dropping one packet skips nothing, and dropping a pair does if and
   only if a sequence start further back is stamped less than 90000 / 22 ticks before the audio packet.
   */
  lemma RisingSkips(audio: seq<Packet>, video: seq<Packet>, i: nat, j: nat)
    requires Stamped(audio) && Stamped(video) && Rising(audio) && Rising(video) && Narrow(audio, video)
    requires i < |audio| && j < |video|
    ensures SkipsAt(audio, video, i, j)
            <==> Decide(audio[i], video[j]) == DropBoth
                 && exists n :: j < n < |video| && video[n].seqStart && video[n].pts >= 0.0
                                && 0.0 < audio[i].pts - video[n].pts < WINDOW
  {
    var a, v := audio[i], video[j];
    NarrowMeets(audio, video);
    match Decide(a, v)
    case DropAudio =>
      forall n | j < n < |video| ensures a.startable ==> !Meets(a.pts, video[n].pts) {
      }
    case DropBoth =>
      NotNear(a, v);
      forall m | i < m < |audio| ensures !Meets(audio[m].pts, v.pts) {
      }
    case _ =>
  }

  lemma NarrowMeets(audio: seq<Packet>, video: seq<Packet>)
    requires Narrow(audio, video)
    ensures forall m, n :: 0 <= m < |audio| && 0 <= n < |video| && audio[m].pts >= 0.0 ==>
              (Meets(audio[m].pts, video[n].pts) <==> video[n].pts >= 0.0 && 0.0 < audio[m].pts - video[n].pts < WINDOW)
  {
  }

  lemma NotNear(a: Packet, v: Packet)
    requires Decide(a, v) == DropBoth && -2147483648.0 < a.pts - v.pts < 2147483648.0
    ensures 0.0 <= v.pts && a.pts - v.pts >= WINDOW
  {
  }

  /** Where the search for a sync point stops: at one, or where a queue is empty. */
  ghost function SearchEnd(audio: seq<Packet>, video: seq<Packet>, i: nat, j: nat): (e: (nat, nat))
    requires i <= |audio| && j <= |video|
    ensures i <= e.0 <= |audio| && j <= e.1 <= |video|
    decreases |audio| - i + |video| - j
  {
    if i == |audio| || j == |video| then (i, j)
    else
      match Decide(audio[i], video[j])
      case DropAudio => SearchEnd(audio, video, i + 1, j)
      case DropVideo => SearchEnd(audio, video, i, j + 1)
      case DropBoth => SearchEnd(audio, video, i + 1, j + 1)
      case Sync => (i, j)
  }

  /** One of the decisions on the way is costly. */
  ghost predicate SkipsOnWay(audio: seq<Packet>, video: seq<Packet>, i: nat, j: nat)
    requires i <= |audio| && j <= |video|
    decreases |audio| - i + |video| - j
  {
    if i == |audio| || j == |video| then false
    else
      || SkipsAt(audio, video, i, j)
      || match Decide(audio[i], video[j])
         case DropAudio => SkipsOnWay(audio, video, i + 1, j)
         case DropVideo => SkipsOnWay(audio, video, i, j + 1)
         case DropBoth => SkipsOnWay(audio, video, i + 1, j + 1)
         case Sync => false
  }

  lemma NoneSkippedBefore(audio: seq<Packet>, video: seq<Packet>, i: nat, j: nat, i': nat, j': nat)
    requires NoneSkipped(audio, video, i', j') && i <= i' && j <= j'
    ensures NoneSkipped(audio, video, i, j)
  {
    hide SyncPoint;
  }

  /** The search skips a sync point if and only if one of its decisions is costly. */
  lemma {:induction false} SearchSkipsIff(audio: seq<Packet>, video: seq<Packet>, i: nat, j: nat)
    requires Stamped(audio) && Stamped(video) && NoneSkipped(audio, video, i, j) && i <= |audio| && j <= |video|
    ensures var e := SearchEnd(audio, video, i, j);
            NoneSkipped(audio, video, e.0, e.1) <==> !SkipsOnWay(audio, video, i, j)
    decreases |audio| - i + |video| - j, 0
  {
    hide NoneSkipped;
    hide Decide;
    hide Stamped;
    hide VideoBehindMeets;
    hide AudioBehindMeets;
    if i < |audio| && j < |video| {
      match Decide(audio[i], video[j])
      case DropAudio =>
        AudioDropSkipsIff(audio, video, i, j);
        SearchGoesOn(audio, video, i + 1, j);
      case DropVideo =>
        VideoDropSkipsNone(audio, video, i, j);
        SearchGoesOn(audio, video, i, j + 1);
      case DropBoth =>
        PairDropSkipsIff(audio, video, i, j);
        SearchGoesOn(audio, video, i + 1, j + 1);
      case Sync =>
    }
  }

  lemma SearchGoesOn(audio: seq<Packet>, video: seq<Packet>, i: nat, j: nat)
    requires Stamped(audio) && Stamped(video) && i <= |audio| && j <= |video|
    ensures var e := SearchEnd(audio, video, i, j);
            NoneSkipped(audio, video, e.0, e.1) <==> NoneSkipped(audio, video, i, j) && !SkipsOnWay(audio, video, i, j)
    decreases |audio| - i + |video| - j, 1
  {
    var e := SearchEnd(audio, video, i, j);
    hide NoneSkipped;
    hide SkipsOnWay;
    hide SearchEnd;
    if NoneSkipped(audio, video, i, j) {
      SearchSkipsIff(audio, video, i, j);
    } else if NoneSkipped(audio, video, e.0, e.1) {
      NoneSkippedBefore(audio, video, i, j, e.0, e.1);
    }
  }

  /** A video packet stays at the head for good if and only if no startable audio packet has a greater stamp. */
  lemma {:induction false} AudioRunsOutIff(audio: seq<Packet>, video: seq<Packet>, i: nat, j: nat)
    requires i <= |audio| && j < |video| && video[j].pts >= 0.0
    ensures SearchEnd(audio, video, i, j) == (|audio|, j)
            <==> forall m :: i <= m < |audio| ==> !audio[m].startable || audio[m].pts <= video[j].pts
    decreases |audio| - i
  {
    hide PtsDiff;
    hide SyncPoint;
    if i < |audio| {
      AudioRunsOutIff(audio, video, i + 1, j);
    }
  }

  /**
   So it goes at a wrap of the clock: the audio packet is dropped for the video packet before the wrap,
   though it is a sync point with the next one, 8 ticks later.
   */
  lemma WrapSkips(a: Packet, v: Packet, w: Packet)
    requires a.pts == 5.0 && a.startable && v.pts == 4294967290.0 && v.seqStart
    requires w.pts == 2.0 && w.seqStart && w.lap == v.lap + 1
    ensures Steady([v, w]) && Decide(a, v) == DropAudio && SyncPoint(a, w)
    ensures SkipsAt([a], [v, w], 0, 0) && SearchEnd([a], [v, w], 0, 0) == (1, 0)
  {
    SyncPointStamps(a, w);
    assert Time(w) - Time(v) == 8.0;
    assert [v, w][1] == w;
    AudioRunsOutIff([a], [v, w], 0, 0);
  }

  /** That happens: the audio packet and the second video packet are a sync point. */
  lemma DropBothSkips(a: Packet, v: Packet, w: Packet)
    requires a.pts == 10000.0 && a.startable && v.pts == 0.0 && v.seqStart && w.pts == 9000.0 && w.seqStart
    ensures Decide(a, v) == DropBoth && SyncPoint(a, w)
  {
  }

  /** The same packets, seen with other laps. */
  ghost function Relapped(q: seq<Packet>, k: int): (r: seq<Packet>)
    ensures |r| == |q|
  {
    seq(|q|, i requires 0 <= i < |q| => q[i].(lap := q[i].lap + k))
  }

  lemma RelappedSteady(q: seq<Packet>, k: int)
    requires Steady(q)
    ensures Steady(Relapped(q, k))
  {
    var r := Relapped(q, k);
    forall i | 0 <= i < |q| ensures Time(r[i]) == Time(q[i]) + LAP * k as real {
    }
  }

  ghost function RelappedOut(out: seq<Emission>, k: int): (r: seq<Emission>)
    ensures |r| == |out|
  {
    seq(|out|, i requires 0 <= i < |out| => RelappedOne(out[i], k))
  }

  ghost function RelappedOne(e: Emission, k: int): Emission {
    if e.video then e else e.(packet := e.packet.(lap := e.packet.lap + k))
  }

  /** The program cannot tell laps apart. */
  lemma RoundRelapped(audio: seq<Packet>, video: seq<Packet>, clock: real, k: int)
    ensures var o, o' := Round(audio, video, clock), Round(Relapped(audio, k), video, clock);
            o' == if o.Emit? then Emit(RelappedOne(o.e, k), o.clock) else o
  {
    hide PtsDiff;
    hide Abs;
  }

  lemma {:induction false} RoundsRelapped(audio: seq<Packet>, video: seq<Packet>, clock: real, k: int)
    ensures Rounds(Relapped(audio, k), video, clock).out == RelappedOut(Rounds(audio, video, clock).out, k)
    decreases |audio| + |video|
  {
    hide Round;
    hide Rounds;
    RoundsUnfold(audio, video, clock);
    RoundsUnfold(Relapped(audio, k), video, clock);
    RoundRelapped(audio, video, clock, k);
    match Round(audio, video, clock)
    case Wait =>
    case Resync =>
    case Emit(e, c) =>
      if e.video {
        RoundsRelapped(audio, video[1..], c, k);
      } else {
        assert Relapped(audio, k)[1..] == Relapped(audio[1..], k);
        RoundsRelapped(audio[1..], video, c, k);
      }
      var rest := Rounds(if e.video then audio else audio[1..], if e.video then video[1..] else video, c).out;
      assert RelappedOut([e] + rest, k) == [RelappedOne(e, k)] + RelappedOut(rest, k);
  }

  /** Seen with the right laps, the packets of a sync point are less than 90000 / 22 ticks apart. */
  lemma SyncLaps(a: Packet, v: Packet) returns (k: int)
    requires SyncPoint(a, v) && a.pts < LAP && v.pts < LAP
    ensures Time(a.(lap := a.lap + k)) - Time(v) == PtsDiff(a.pts, v.pts)
    ensures -90000.0 / 22.0 < Time(a.(lap := a.lap + k)) - Time(v) < 90000.0 / 22.0
  {
    k := v.lap - a.lap - if a.pts - v.pts >= 2147483648.0 then 1 else 0;
  }

  /** The audio packet of a sync point is the earlier one if and only if the clock has wrapped between the two. */
  lemma AudioFirst(a: Packet, v: Packet)
    requires SyncPoint(a, v) && a.pts < LAP && v.pts < LAP
    ensures PtsDiff(a.pts, v.pts) < 0.0 <==> a.pts - v.pts >= 2147483648.0
  {
  }

  /** That happens: the audio 15 ticks before the video. */
  lemma AudioFirstHappens(a: Packet, v: Packet)
    requires a.pts == 4294967286.0 && a.startable && v.pts == 5.0 && v.seqStart
    ensures SyncPoint(a, v) && PtsDiff(a.pts, v.pts) == -15.0
  {
  }

  /** The run that starts with a sync point at the heads of two steady streams. */
  ghost function RunFrom(audio: seq<Packet>, video: seq<Packet>, clock: real): (r: Run)
    ensures Shape(r) && r.audio == audio && r.video == video && r.clock == clock
  {
    Run(audio, video, 0, 0, 0, 0, clock, [], false)
  }

  /** From every sync point on, in every run, the output is the merge: with suitable laps, the run has started. */
  lemma SyncPointStarts(audio: seq<Packet>, video: seq<Packet>, clock: real) returns (k: int)
    requires audio != [] && video != [] && SyncPoint(audio[0], video[0]) && clock == video[0].pts
    requires Steady(audio) && Steady(video)
    ensures Started(RunFrom(Relapped(audio, k), video, clock))
    ensures Time(Relapped(audio, k)[0]) - Time(video[0]) < 90000.0 / 22.0
    ensures forall steps :: MergesSoFar(RunFrom(Relapped(audio, k), video, clock), steps)
  {
    k := SyncLaps(audio[0], video[0]);
    RelappedSteady(audio, k);
    var r := RunFrom(Relapped(audio, k), video, clock);
    assert Started(r);
    hide *;
    forall steps ensures MergesSoFar(r, steps) {
      EveryRunMerges(r, steps);
    }
  }

  /**
   What write_mpg writes from a sync point on, with the queues as they are: up to the laps of the
   audio, which the program does not know, the merge of the two queues by the sender's time.
   */
  lemma SyncPointMerges(audio: seq<Packet>, video: seq<Packet>, clock: real) returns (k: int, i: nat, j: nat)
    requires audio != [] && video != [] && SyncPoint(audio[0], video[0]) && clock == video[0].pts
    requires Steady(audio) && Steady(video)
    ensures i <= |audio| && j <= |video|
    ensures var ps := Tagged(RelappedOut(Rounds(audio, video, clock).out, k));
            && Merged(ps, Relapped(audio, k), video, i, j) && Sorted(ps)
            && Of(ps, false) == Relapped(audio, k)[..i] && Of(ps, true) == video[..j]
    ensures OnTime(RelappedOut(Rounds(audio, video, clock).out, k))
  {
    hide *;
    k := SyncPointStarts(audio, video, clock);
    var r := RunFrom(Relapped(audio, k), video, clock);
    var feed := [Feed(|audio|, |video|)];
    Fed(r, |audio|, |video|);
    var fed := RunAll(r, feed);
    RoundsAreWrites(fed);
    RoundsRelapped(audio, video, clock, k);
    var w := Rounds(Relapped(audio, k), video, clock);
    RunAppend(r, feed, Writes(|w.out|));
    MergesAfter(r, feed + Writes(|w.out|), w.out);
    var q := RunAll(r, feed + Writes(|w.out|));
    i, j := q.i, q.j;
  }

  /** Everything is queued at once. */
  lemma Fed(r: Run, a: nat, v: nat)
    requires Shape(r) && r == RunFrom(r.audio, r.video, r.clock) && a == |r.audio| && v == |r.video|
    ensures var fed := RunAll(r, [Feed(a, v)]);
            && fed.audio[fed.i..fed.queuedA] == r.audio && fed.video[fed.j..fed.queuedV] == r.video
            && fed.out == [] && !fed.ended && fed.clock == r.clock
  {
    assert RunAll(r, [Feed(a, v)][..0]) == r;
  }

  lemma MergesAfter(r: Run, steps: seq<Step>, out: seq<Emission>)
    requires Shape(r) && MergesSoFar(r, steps) && RunAll(r, steps).out == [] + out
    ensures var q := RunAll(r, steps);
            && q.i <= |r.audio| && q.j <= |r.video|
            && Merged(Tagged(out), r.audio, r.video, q.i, q.j) && Sorted(Tagged(out))
            && Of(Tagged(out), false) == r.audio[..q.i] && Of(Tagged(out), true) == r.video[..q.j] && OnTime(out)
  {
    hide Merged;
    hide Tagged;
    hide RunAll;
    hide OnTime;
    hide Sorted;
    assert [] + out == out;
  }

  ghost predicate Suffix(s: seq<Packet>, t: seq<Packet>) {
    |s| <= |t| && s == t[|t| - |s|..]
  }

  /** The first `i` packets of a queue have been dropped. */
  ghost predicate Dropped(was: seq<Packet>, q: seq<Packet>, i: nat) {
    i <= |was| && q == was[i..]
  }

  lemma Begin(audio: seq<Packet>, video: seq<Packet>)
    ensures Dropped(audio, audio, 0) && Dropped(video, video, 0) && NoneSkipped(audio, video, 0, 0)
  {
  }

  lemma DropMore(was: seq<Packet>, q: seq<Packet>, i: nat)
    requires Dropped(was, q, i) && q != []
    ensures i < |was| && q[0] == was[i] && Dropped(was, q[1..], i + 1)
  {
  }

  lemma SearchOn(audio: seq<Packet>, video: seq<Packet>, i: nat, j: nat)
    requires i < |audio| && j < |video|
    ensures SearchEnd(audio, video, i, j)
            == match Decide(audio[i], video[j])
               case DropAudio => SearchEnd(audio, video, i + 1, j)
               case DropVideo => SearchEnd(audio, video, i, j + 1)
               case DropBoth => SearchEnd(audio, video, i + 1, j + 1)
               case Sync => (i, j)
  {
    hide Decide;
  }

  lemma SearchOver(audio: seq<Packet>, video: seq<Packet>, i: nat, j: nat)
    requires i <= |audio| && j <= |video|
    ensures i == |audio| || j == |video| || Decide(audio[i], video[j]) == Sync ==>
              SearchEnd(audio, video, i, j) == (i, j)
  {
    hide Decide;
  }

  lemma VideoSmaller(a: Packet, v: Packet)
    requires SyncPoint(a, v)
    ensures v.pts < a.pts
  {
  }

  lemma SuffixOf(was: seq<Packet>, q: seq<Packet>, i: nat)
    requires Dropped(was, q, i)
    ensures Suffix(q, was) && |was| - |q| == i && (q == [] <==> i == |was|)
  {
  }

  class Multiplexer {
    var audio: seq<Packet>
    var video: seq<Packet>
    var systemClockRef: real
    var systemClockRefStart: real
    var playtimeOffset: real
    var resync: bool
    ghost var out: seq<Emission>

    constructor ()
      ensures resync && audio == video == [] && out == [] && playtimeOffset == 0.0
      ensures systemClockRef == systemClockRefStart == -1.0
    {
      audio, video, out := [], [], [];
      systemClockRef, systemClockRefStart, playtimeOffset, resync := -1.0, -1.0, 0.0, true;
    }

    /**
     Drop packets until the heads of both queues are a sync point, or one queue is empty. A sync
     point is skipped on the way if and only if one of the decisions is costly.
     */
    method FindSyncPoint()
      requires resync
      modifies this`audio, this`video, this`systemClockRef, this`systemClockRefStart
      modifies this`playtimeOffset, this`resync
      ensures Suffix(audio, old(audio)) && Suffix(video, old(video))
      ensures resync <==> (audio == [] || video == [])
      ensures !resync ==> SyncPoint(audio[0], video[0]) && systemClockRef == systemClockRefStart == video[0].pts
      ensures !resync ==>
                playtimeOffset == old(playtimeOffset) + PtsDiff(old(systemClockRef), old(systemClockRefStart))
      ensures !resync && old(systemClockRef) < 0.0 ==> playtimeOffset == old(playtimeOffset) - 1.0
      ensures resync ==> systemClockRef == old(systemClockRef) && systemClockRefStart == old(systemClockRefStart)
                         && playtimeOffset == old(playtimeOffset)
      ensures var i, j := |old(audio)| - |audio|, |old(video)| - |video|;
              && (i, j) == SearchEnd(old(audio), old(video), 0, 0)
              && (Stamped(old(audio)) && Stamped(old(video)) ==>
                    (NoneSkipped(old(audio), old(video), i, j) <==> !SkipsOnWay(old(audio), old(video), 0, 0)))
    {
      ghost var i, j := 0, 0;
      hide *;
      Begin(audio, video);
      if Stamped(old(audio)) && Stamped(old(video)) {
        SearchSkipsIff(old(audio), old(video), 0, 0);
      }
      while audio != [] && video != []
        invariant resync && Dropped(old(audio), audio, i) && Dropped(old(video), video, j)
        invariant systemClockRef == old(systemClockRef) && systemClockRefStart == old(systemClockRefStart)
        invariant playtimeOffset == old(playtimeOffset)
        invariant i <= |old(audio)| && j <= |old(video)|
        invariant SearchEnd(old(audio), old(video), i, j) == SearchEnd(old(audio), old(video), 0, 0)
        decreases |audio| + |video|
      {
        DropMore(old(audio), audio, i);
        DropMore(old(video), video, j);
        SearchOn(old(audio), old(video), i, j);
        match Decide(audio[0], video[0])
        case DropAudio =>
          audio, i := audio[1..], i + 1;
        case DropVideo =>
          video, j := video[1..], j + 1;
        case DropBoth =>
          audio, video, i, j := audio[1..], video[1..], i + 1, j + 1;
        case Sync =>
          VideoSmaller(audio[0], video[0]);
          Synchronise();
          break;
      }
      SuffixOf(old(audio), audio, i);
      SuffixOf(old(video), video, j);
      SearchOver(old(audio), old(video), i, j);
    }

    /**
     The clocks start at the smaller of the two time stamps. Without clocks before, that is at the first
     time, the difference of the clocks is -1, and so is the playing time from then on.
     */
    method Synchronise()
      requires audio != [] && video != []
      modifies this`systemClockRef, this`systemClockRefStart, this`playtimeOffset, this`resync
      ensures !resync && systemClockRef == systemClockRefStart
      ensures systemClockRef <= video[0].pts && systemClockRef <= audio[0].pts
      ensures systemClockRef == video[0].pts || systemClockRef == audio[0].pts
      ensures playtimeOffset == old(playtimeOffset) + PtsDiff(old(systemClockRef), old(systemClockRefStart))
      ensures old(systemClockRef) < 0.0 ==> playtimeOffset == old(playtimeOffset) - 1.0
    {
      playtimeOffset := playtimeOffset + PtsDiff(systemClockRef, systemClockRefStart);
      var smaller := if video[0].pts < audio[0].pts then video[0].pts else audio[0].pts;
      systemClockRefStart := smaller;
      systemClockRef := smaller;
      resync := false;
    }

    /** The loop: write as long as three packets of each kind are queued and the times make sense. */
    method WriteRounds()
      requires !resync
      modifies this`audio, this`video, this`systemClockRef, this`resync, this`out
      ensures var w := Rounds(old(audio), old(video), old(systemClockRef));
              && out == old(out) + w.out && audio == w.audio && video == w.video
              && systemClockRef == w.clock && resync == w.resync
      ensures resync ==> audio == video == []
    {
      hide Round;
      hide Rounds;
      hide After;
      ghost var done: seq<Emission> := [];
      AfterNothing(Rounds(audio, video, systemClockRef));
      while true
        invariant !resync && out == old(out) + done
        invariant Rounds(old(audio), old(video), old(systemClockRef))
                  == After(done, Rounds(audio, video, systemClockRef))
        decreases |audio| + |video|
      {
        RoundsUnfold(audio, video, systemClockRef);
        match Round(audio, video, systemClockRef)
        case Wait =>
          AfterLast(done, Rounds(audio, video, systemClockRef));
          return;
        case Resync =>
          AfterLast(done, Rounds(audio, video, systemClockRef));
          audio, video, resync := [], [], true;
          return;
        case Emit(e, clock) =>
          if e.video {
            video := video[1..];
          } else {
            audio := audio[1..];
          }
          systemClockRef := clock;
          AfterAfter(done, e, Rounds(audio, video, systemClockRef));
          out, done := out + [e], done + [e];
      }
    }

    /** write_mpg. `a`, `v` and `clock` are the queues and the clock with which the loop starts. */
    method WriteMpg() returns (ghost a: seq<Packet>, ghost v: seq<Packet>, ghost clock: real)
      modifies this
      ensures Suffix(a, old(audio)) && Suffix(v, old(video))
      ensures old(resync) ==>
                (|old(audio)| - |a|, |old(video)| - |v|) == SearchEnd(old(audio), old(video), 0, 0)
      ensures !old(resync) ==> a == old(audio) && v == old(video) && clock == old(systemClockRef)
      ensures old(resync) && a != [] && v != [] ==> SyncPoint(a[0], v[0]) && clock == v[0].pts
      ensures old(resync) && (a == [] || v == []) ==> out == old(out) && audio == a && video == v && resync
      ensures !old(resync) || (a != [] && v != []) ==>
                var w := Rounds(a, v, clock);
                && out == old(out) + w.out && audio == w.audio && video == w.video
                && systemClockRef == w.clock && resync == w.resync
      ensures resync && (!old(resync) || (a != [] && v != [])) ==> audio == video == []
    {
      hide Rounds;
      hide SyncPoint;
      if resync {
        FindSyncPoint();
      }
      a, v, clock := audio, video, systemClockRef;
      if resync {
        return;
      }
      WriteRounds();
    }
  }
}
