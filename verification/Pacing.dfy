/**
 The durations and clocks with which packets are written in a run of the merger: each reaches at
 most to what is written next, and every clock stands for the due time of its packet.
 */
module Pacing {

  import opened Clock
  import opened Merge

  /** What is written with `d` reaches at most to the packet of `e`, its own data to the next of its kind. */
  ghost predicate Before(d: Emission, e: Emission) {
    && Due(d.video, d.packet) + d.scrDuration <= Due(e.video, e.packet)
    && (d.video == e.video ==> Time(d.packet) + d.pesDuration <= Time(e.packet))
  }

  /** The durations are no negative numbers, and the clock is one for the due time. */
  ghost predicate Sound(e: Emission) {
    && 0.0 <= e.packet.pts < LAP && 0.0 <= e.scrDuration <= e.pesDuration <= 90000.0
    && 0.0 <= e.clock <= 6442450944.0 && Congruent(e.clock, Due(e.video, e.packet))
  }

  ghost predicate Paced(out: seq<Emission>) {
    && (forall k :: 0 <= k < |out| ==> Sound(out[k]))
    && (forall k, l :: 0 <= k < l < |out| ==> Before(out[k], out[l]))
  }

  lemma PacedMore(out: seq<Emission>, e: Emission)
    requires Paced(out) && Sound(e) && forall d :: d in out ==> Before(d, e)
    ensures Paced(out + [e])
  {
    hide Before;
    hide Sound;
  }

  /** The packet of its kind that comes next. */
  ghost function Head(r: Run, video: bool): Packet
    requires r.i < |r.audio| && r.j < |r.video|
  {
    if video then r.video[r.j] else r.audio[r.i]
  }

  ghost predicate Open(r: Run) {
    r.i < |r.audio| && r.j < |r.video|
  }

  /** What was written with `d` reaches at most to what comes next, and was written after the start. */
  ghost predicate Reaches(d: Emission, r: Run) {
    && Open(r)
    && Due(d.video, d.packet) + d.scrDuration <= NextDue(r)
    && Time(d.packet) + d.pesDuration <= Time(Head(r, d.video))
    && Time(r.video[0]) <= Due(d.video, d.packet)
  }

  /** The clock has run on from where it was last set. */
  ghost predicate ClockRuns(r: Run) {
    Open(r) ==>
      && r.clock == ClockBase(r).0 + (NextDue(r) - ClockBase(r).1)
      && 0.0 <= NextDue(r) - ClockBase(r).1 && Time(r.video[0]) <= NextDue(r)
  }

  ghost predicate Begun(r: Run) {
    Open(r) ==> -VIDEO_FORERUN < Time(r.audio[0]) - Time(r.video[0]) < 90000.0
  }

  ghost predicate PacedRun(r: Run) {
    && Begun(r) && ClockRuns(r) && Paced(r.out)
    && forall d :: d in r.out ==> Reaches(d, r)
  }

  lemma StartPaced(r: Run)
    requires Started(r)
    ensures PacedRun(r)
  {
  }

  /** The durations that a round hands over. */
  lemma RoundDurations(a0: Packet, a1: Packet, v0: Packet, v1: Packet, audio: seq<Packet>, video: seq<Packet>,
                       clock: real)
    requires |audio| >= 3 && |video| >= 3 && audio[0] == a0 && audio[1] == a1 && video[0] == v0 && video[1] == v1
    requires 0.0 <= a0.pts < LAP && 0.0 <= a1.pts < LAP && 0.0 <= v0.pts < LAP && 0.0 <= v1.pts < LAP
    requires 0.0 <= Time(a1) - Time(a0) <= 268435456.0 && 0.0 <= Time(v1) - Time(v0) <= 268435456.0
    requires Round(audio, video, clock).Emit?
    ensures var e := Round(audio, video, clock).e;
            && e.pesDuration == (if e.video then Time(v1) - Time(v0) else Time(a1) - Time(a0))
            && e.pesDuration <= 90000.0
  {
    hide PtsDiff;
    DiffIsDue(true, v1, true, v0);
    DiffIsDue(false, a1, false, a0);
  }

  /** The queues' heads and the packets behind them. */
  lemma Heads(r: Run)
    requires Inv(r) && !r.ended
    requires Round(r.audio[r.i..r.queuedA], r.video[r.j..r.queuedV], r.clock).Emit?
    ensures Open(r) && r.i + 1 < |r.audio| && r.j + 1 < |r.video|
    ensures var a0, a1, v0, v1 := r.audio[r.i], r.audio[r.i + 1], r.video[r.j], r.video[r.j + 1];
            && 0.0 <= a0.pts < LAP && 0.0 <= a1.pts < LAP && 0.0 <= v0.pts < LAP && 0.0 <= v1.pts < LAP
            && 0.0 <= Time(a1) - Time(a0) <= 268435456.0 && 0.0 <= Time(v1) - Time(v0) <= 268435456.0
            && Near(Due(false, a0), Due(true, v0))
  {
    hide Round;
    hide Merged;
    hide OnTime;
    hide Congruent;
    hide Due;
    hide Near;
    hide Time;
    assert Round(r.audio[r.i..r.queuedA], r.video[r.j..r.queuedV], r.clock).Emit?;
  }

  /** One round, exactly. */
  lemma EmitExactly(r: Run)
    requires Inv(r) && !r.ended
    requires Round(r.audio[r.i..r.queuedA], r.video[r.j..r.queuedV], r.clock).Emit?
    ensures Open(r) && r.i + 1 < |r.audio| && r.j + 1 < |r.video|
    ensures var o := Round(r.audio[r.i..r.queuedA], r.video[r.j..r.queuedV], r.clock);
            var e, r' := o.e, if VideoNext(r) then r.(j := r.j + 1) else r.(i := r.i + 1);
            && e.video == VideoNext(r) && e.packet == Head(r, e.video) && Due(e.video, e.packet) == NextDue(r)
            && e.clock == (if e.video then r.clock else Stamp(false, r.audio[r.i]))
            && e.scrDuration == NextDue(r') - NextDue(r) && o.clock == e.clock + e.scrDuration
            && e.pesDuration == Time(Head(r', e.video)) - Time(e.packet)
            && 0.0 <= e.scrDuration && 0.0 <= e.pesDuration <= 90000.0
            && Time(Head(r, !e.video)) == Time(Head(r', !e.video))
  {
    hide *;
    Heads(r);
    Shaped(r);
    var a, v := r.audio[r.i..r.queuedA], r.video[r.j..r.queuedV];
    RoundWaits(a, v, r.clock);
    var a0, a1, v0, v1 := r.audio[r.i], r.audio[r.i + 1], r.video[r.j], r.video[r.j + 1];
    assert a[0] == a0 && a[1] == a1 && v[0] == v0 && v[1] == v1;
    RoundFollowsTime(a0, a1, v0, v1, a, v, r.clock);
    RoundDurations(a0, a1, v0, v1, a, v, r.clock);
    DuesAfter(r);
    DuesRise(a0, a1, v0, v1);
    HeadsAfter(r);
  }

  lemma Shaped(r: Run)
    requires Inv(r)
    ensures r.i <= r.queuedA <= |r.audio| && r.j <= r.queuedV <= |r.video|
  {
  }

  lemma DuesRise(a0: Packet, a1: Packet, v0: Packet, v1: Packet)
    requires 0.0 <= Time(a1) - Time(a0) && 0.0 <= Time(v1) - Time(v0)
    ensures Due(false, a0) <= Due(false, a1) && Due(true, v0) <= Due(true, v1)
  {
  }

  lemma HeadsAfter(r: Run)
    requires r.i + 1 < |r.audio| && r.j + 1 < |r.video|
    ensures Open(r) && Open(r.(j := r.j + 1)) && Open(r.(i := r.i + 1))
    ensures Head(r, true) == r.video[r.j] && Head(r, false) == r.audio[r.i]
    ensures Head(r.(j := r.j + 1), true) == r.video[r.j + 1] && Head(r.(j := r.j + 1), false) == r.audio[r.i]
    ensures Head(r.(i := r.i + 1), false) == r.audio[r.i + 1] && Head(r.(i := r.i + 1), true) == r.video[r.j]
  {
  }

  /** A step of the run from `r` to `r'`, with what was written. */
  ghost predicate Emits(r: Run, r': Run, e: Emission) {
    && Open(r) && r'.audio == r.audio && r'.video == r.video && r'.out == r.out + [e]
    && r' == (if e.video then r.(j := r.j + 1, clock := r'.clock, out := r'.out)
              else r.(i := r.i + 1, clock := r'.clock, out := r'.out))
    && Open(r')
    && e.video == VideoNext(r) && e.packet == Head(r, e.video) && Due(e.video, e.packet) == NextDue(r)
    && e.clock == (if e.video then r.clock else Stamp(false, r.audio[r.i]))
    && e.scrDuration == NextDue(r') - NextDue(r) && r'.clock == e.clock + e.scrDuration
    && e.pesDuration == Time(Head(r', e.video)) - Time(e.packet)
    && 0.0 <= e.scrDuration && 0.0 <= e.pesDuration <= 90000.0
    && Time(Head(r, !e.video)) == Time(Head(r', !e.video))
  }

  lemma EmitsNext(r: Run) returns (e: Emission)
    requires Inv(r) && !r.ended
    requires Round(r.audio[r.i..r.queuedA], r.video[r.j..r.queuedV], r.clock).Emit?
    ensures Shape(r) && Emits(r, Next(r, Write), e)
  {
    hide *;
    ShapeOf(r);
    Shaped(r);
    EmitExactly(r);
    var o := Round(r.audio[r.i..r.queuedA], r.video[r.j..r.queuedV], r.clock);
    NextEmits(r, o);
    e := o.e;
    EmitsBy(r, Next(r, Write), e);
  }

  lemma ShapeOf(r: Run)
    requires Inv(r)
    ensures Shape(r)
  {
  }

  lemma EmitsBy(r: Run, r': Run, e: Emission)
    requires Open(r) && r.i + 1 < |r.audio| && r.j + 1 < |r.video|
    requires e.video == VideoNext(r) && e.packet == Head(r, e.video) && Due(e.video, e.packet) == NextDue(r)
    requires e.clock == (if e.video then r.clock else Stamp(false, r.audio[r.i]))
    requires r' == (if e.video then r.(j := r.j + 1, clock := r'.clock, out := r.out + [e])
                    else r.(i := r.i + 1, clock := r'.clock, out := r.out + [e]))
    requires var m := if VideoNext(r) then r.(j := r.j + 1) else r.(i := r.i + 1);
             && e.scrDuration == NextDue(m) - NextDue(r) && r'.clock == e.clock + e.scrDuration
             && e.pesDuration == Time(Head(m, e.video)) - Time(e.packet)
             && Time(Head(r, !e.video)) == Time(Head(m, !e.video))
    requires 0.0 <= e.scrDuration && 0.0 <= e.pesDuration <= 90000.0
    ensures Emits(r, r', e)
  {
    hide Due;
    hide Time;
    hide Stamp;
  }

  /** What was written before still reaches at most to what comes next, and what is written now does. */
  lemma ReachesOn(r: Run, r': Run, e: Emission)
    requires Emits(r, r', e) && ClockRuns(r) && forall d :: d in r.out ==> Reaches(d, r)
    ensures forall d :: d in r.out ==> Before(d, e)
    ensures forall d :: d in r'.out ==> Reaches(d, r')
  {
    hide Due;
    hide Time;
    hide Stamp;
    hide NextDue;
    hide VideoNext;
    hide ClockBase;
  }

  /** The clock runs on, and the clock that was handed over was one for the due time. */
  lemma ClockRunsOn(r: Run, r': Run, e: Emission)
    requires Steady(r.audio) && Steady(r.video) && Begun(r) && ClockRuns(r) && Emits(r, r', e)
    ensures ClockRuns(r') && 0.0 <= e.packet.pts < LAP
    ensures 0.0 <= e.clock <= 6442450944.0 && Congruent(e.clock, Due(e.video, e.packet))
  {
    hide Congruent;
    ClockInLap(r);
    StampCongruent(e.video, e.packet);
  }

  /** The clock never is more than half a lap ahead. */
  lemma ClockInLap(r: Run)
    requires Steady(r.audio) && Steady(r.video) && Begun(r) && ClockRuns(r) && Open(r)
    ensures 0.0 <= r.clock <= 6442450944.0 && Congruent(r.clock, NextDue(r))
  {
    CongruentBy(r.clock, NextDue(r), -BaseLap(r));
  }

  lemma EmitPaces(r: Run)
    requires Inv(r) && PacedRun(r) && !r.ended
    requires Round(r.audio[r.i..r.queuedA], r.video[r.j..r.queuedV], r.clock).Emit?
    ensures Shape(r) && PacedRun(Next(r, Write))
  {
    ShapeOf(r);
    hide *;
    var e := EmitsNext(r);
    var r' := Next(r, Write);
    SteadyOf(r);
    PacedFacts(r);
    ReachesOn(r, r', e);
    ClockRunsOn(r, r', e);
    SoundBy(r, r', e);
    PacedMore(r.out, e);
    PacedBy(r, r', e);
  }

  lemma SteadyOf(r: Run)
    requires Inv(r)
    ensures Steady(r.audio) && Steady(r.video)
  {
  }

  lemma PacedFacts(r: Run)
    requires PacedRun(r)
    ensures Begun(r) && ClockRuns(r) && Paced(r.out) && forall d :: d in r.out ==> Reaches(d, r)
  {
  }

  lemma SoundBy(r: Run, r': Run, e: Emission)
    requires Emits(r, r', e) && 0.0 <= e.packet.pts < LAP
    requires 0.0 <= e.clock <= 6442450944.0 && Congruent(e.clock, Due(e.video, e.packet))
    ensures Sound(e)
  {
    hide Congruent;
    hide Time;
    hide Stamp;
  }

  lemma PacedBy(r: Run, r': Run, e: Emission)
    requires Emits(r, r', e) && Begun(r) && ClockRuns(r') && Paced(r.out + [e])
    requires forall d :: d in r'.out ==> Reaches(d, r')
    ensures PacedRun(r')
  {
    hide Reaches;
    hide Paced;
    hide ClockRuns;
  }

  lemma FeedPaces(r: Run, step: Step)
    requires Shape(r) && PacedRun(r) && step.Feed?
    ensures PacedRun(Next(r, step))
  {
    hide Paced;
    hide Due;
    hide Time;
    hide Stamp;
    assert forall d :: d in r.out ==> Reaches(d, r);
    forall d | d in r.out ensures Reaches(d, Next(r, step)) {
      assert Reaches(d, r);
    }
  }

  /** Every run is paced. */
  lemma {:induction false} EveryRunIsPaced(r: Run, steps: seq<Step>)
    requires Started(r)
    ensures Shape(r) && PacedRun(RunAll(r, steps))
  {
    if steps == [] {
      StartPaced(r);
    } else {
      var k := |steps| - 1;
      EveryRunIsPaced(r, steps[..k]);
      InvOfRun(r, steps[..k]);
      StepPaces(RunAll(r, steps[..k]), steps[k]);
    }
  }

  lemma StepPaces(r: Run, step: Step)
    requires Shape(r) && Inv(r) && PacedRun(r)
    ensures PacedRun(Next(r, step))
  {
    hide Inv;
    hide PacedRun;
    hide Round;
    if step.Feed? {
      FeedPaces(r, step);
    } else if !r.ended && Round(r.audio[r.i..r.queuedA], r.video[r.j..r.queuedV], r.clock).Emit? {
      EmitPaces(r);
    } else {
      PacedEnded(r);
    }
  }

  lemma PacedEnded(r: Run)
    requires PacedRun(r)
    ensures PacedRun(r.(ended := true))
  {
    hide Paced;
    hide Due;
    hide Time;
    hide Stamp;
    forall d | d in r.out ensures Reaches(d, r.(ended := true)) {
      assert Reaches(d, r);
    }
  }

  // ------------------------------------------------------------------ when a run ends

  /** At least three packets of each kind are queued. */
  ghost predicate Full(r: Run) {
    r.i + 3 <= r.queuedA <= |r.audio| && r.j + 3 <= r.queuedV <= |r.video|
  }

  /**
   A jump in time: the packets at the heads of the queues are due more than a second apart, or the clock
   is more than a second away from the video, or the next packet of a kind is more than a second later.
   */
  ghost predicate Jumps(r: Run)
    requires Full(r)
  {
    var a0, a1, v0, v1 := r.audio[r.i], r.audio[r.i + 1], r.video[r.j], r.video[r.j + 1];
    || Due(true, v0) - Due(false, a0) > 90000.0 || Due(false, a0) - Due(true, v0) > 90000.0
    || Due(true, v0) - NextDue(r) > 90000.0
    || Time(v1) - Time(v0) > 90000.0 || Time(a1) - Time(a0) > 90000.0
  }

  lemma RoundEndsIff(a0: Packet, a1: Packet, v0: Packet, v1: Packet, audio: seq<Packet>, video: seq<Packet>,
                     clock: real, due: real)
    requires |audio| >= 3 && |video| >= 3 && audio[0] == a0 && audio[1] == a1 && video[0] == v0 && video[1] == v1
    requires 0.0 <= a0.pts < LAP && 0.0 <= a1.pts < LAP && 0.0 <= v0.pts < LAP && 0.0 <= v1.pts < LAP
    requires 0.0 <= Time(a1) - Time(a0) <= 268435456.0 && 0.0 <= Time(v1) - Time(v0) <= 268435456.0
    requires Near(Due(false, a0), Due(true, v0))
    requires due == if Due(true, v0) < Due(false, a0) then Due(true, v0) else Due(false, a0)
    requires 0.0 <= clock <= 6442450944.0 && Congruent(clock, due)
    ensures Round(audio, video, clock).Resync?
            <==> || Due(true, v0) - Due(false, a0) > 90000.0 || Due(false, a0) - Due(true, v0) > 90000.0
                 || Due(true, v0) - due > 90000.0
                 || Time(v1) - Time(v0) > 90000.0 || Time(a1) - Time(a0) > 90000.0
  {
    hide PtsDiff;
    DiffIsDue(true, v0, false, a0);
    DiffIsDue(true, v1, true, v0);
    DiffIsDue(false, a1, false, a0);
    PtsDiffAcrossWrap32(v0.pts, clock, Due(true, v0) - due, -v0.lap - Laps(clock, due));
  }

  /** The heads of full queues. */
  lemma FullHeads(r: Run)
    requires Inv(r) && Full(r)
    ensures Open(r) && r.i + 1 < |r.audio| && r.j + 1 < |r.video|
    ensures var a0, a1, v0, v1 := r.audio[r.i], r.audio[r.i + 1], r.video[r.j], r.video[r.j + 1];
            && 0.0 <= a0.pts < LAP && 0.0 <= a1.pts < LAP && 0.0 <= v0.pts < LAP && 0.0 <= v1.pts < LAP
            && 0.0 <= Time(a1) - Time(a0) <= 268435456.0 && 0.0 <= Time(v1) - Time(v0) <= 268435456.0
            && Near(Due(false, a0), Due(true, v0))
  {
    hide Merged;
    hide OnTime;
    hide Congruent;
    hide Due;
    hide Near;
    hide Time;
  }

  lemma ResyncIff(r: Run)
    requires Inv(r) && PacedRun(r) && Full(r)
    ensures Round(r.audio[r.i..r.queuedA], r.video[r.j..r.queuedV], r.clock).Resync? <==> Jumps(r)
  {
    FullBounds(r);
    JumpsIs(r);
    hide *;
    FullHeads(r);
    SteadyOf(r);
    PacedFacts(r);
    ClockInLap(r);
    var a, v := r.audio[r.i..r.queuedA], r.video[r.j..r.queuedV];
    var a0, a1, v0, v1 := r.audio[r.i], r.audio[r.i + 1], r.video[r.j], r.video[r.j + 1];
    assert a[0] == a0 && a[1] == a1 && v[0] == v0 && v[1] == v1;
    DuesAfter(r);
    RoundEndsIff(a0, a1, v0, v1, a, v, r.clock, NextDue(r));
  }

  lemma FullBounds(r: Run)
    requires Full(r)
    ensures r.i + 3 <= r.queuedA <= |r.audio| && r.j + 3 <= r.queuedV <= |r.video|
  {
  }

  lemma JumpsIs(r: Run)
    requires Full(r)
    ensures var a0, a1, v0, v1 := r.audio[r.i], r.audio[r.i + 1], r.video[r.j], r.video[r.j + 1];
            Jumps(r)
            <==> || Due(true, v0) - Due(false, a0) > 90000.0 || Due(false, a0) - Due(true, v0) > 90000.0
                 || Due(true, v0) - NextDue(r) > 90000.0
                 || Time(v1) - Time(v0) > 90000.0 || Time(a1) - Time(a0) > 90000.0
  {
  }

  /**
   In every run a write step ends the run if and only if three packets of each kind are queued and there
   is a jump in time.
   */
  lemma WriteEndsIff(r: Run, steps: seq<Step>)
    requires Started(r)
    ensures Shape(r) && Shape(RunAll(r, steps))
    ensures var q := RunAll(r, steps); !q.ended ==> (Next(q, Write).ended <==> Full(q) && Jumps(q))
  {
    EveryRunIsPaced(r, steps);
    InvOfRun(r, steps);
    var q := RunAll(r, steps);
    hide *;
    if !q.ended {
      NextEndsIff(q);
      if Full(q) {
        ResyncIff(q);
      }
    }
  }

  lemma NextEndsIff(q: Run)
    requires Shape(q) && !q.ended
    ensures Next(q, Write).ended <==> Round(q.audio[q.i..q.queuedA], q.video[q.j..q.queuedV], q.clock).Resync?
    ensures Round(q.audio[q.i..q.queuedA], q.video[q.j..q.queuedV], q.clock).Resync? ==> Full(q)
  {
    hide PtsDiff;
  }

  /** One call of write_mpg ends the run if and only if it comes to a jump. */
  lemma CallEndsIff(r: Run, steps: seq<Step>)
    requires Started(r)
    ensures Shape(r) && Shape(RunAll(r, steps))
    ensures var q := RunAll(r, steps);
            var w := Rounds(q.audio[q.i..q.queuedA], q.video[q.j..q.queuedV], q.clock);
            var last := RunAll(q, Writes(|w.out|));
            !q.ended ==> (w.resync <==> Full(last) && Jumps(last))
  {
    WriteEndsIff(r, steps);
    var q := RunAll(r, steps);
    hide *;
    if !q.ended {
      RoundsAreWrites(q);
      var n := |Rounds(q.audio[q.i..q.queuedA], q.video[q.j..q.queuedV], q.clock).out|;
      RunAppend(r, steps, Writes(n));
      WriteEndsIff(r, steps + Writes(n));
    }
  }
}
