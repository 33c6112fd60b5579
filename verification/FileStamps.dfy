/**
 The time stamps in the file. Whatever a run has written: the presentation times of each stream and
 the system clock references never decrease from the beginning of the file to its end, and no packet
 is to be shown before its pack has been read.
 */
module FileStamps {

  import opened Bytes
  import opened Clock
  import opened Options
  import opened Packs
  import opened PesPackets
  import opened PackWriter
  import opened Recording
  import M = Merge
  import Pacing

  /** How long before its time a packet is read at the latest: about a tenth of a second. */
  const LEAD := 8000

  // ------------------------------------------------------------------ what a file shows

  /** The time stamps of the packets with one stream id. */
  ghost function StampsOf(us: seq<Unit>, sid: byte): (ns: seq<nat>) {
    if us == [] then []
    else
      var u := us[|us| - 1];
      StampsOf(us[..|us| - 1], sid) + if u.sid == sid && u.pts.Some? then [u.pts.value] else []
  }

  ghost predicate InOrder(ns: seq<nat>) {
    forall i, j :: 0 <= i < j < |ns| ==> ns[i] <= ns[j]
  }

  /** The clock reference of a pack. */
  function PackScr(b: seq<byte>): nat {
    if |b| < 10 then 0 else ClockRef(b[4..10])
  }

  /** The second pack comes no earlier than the first; its packets are shown well after both have come. */
  ghost predicate Leads(b: seq<byte>, c: seq<byte>) {
    && PackScr(b) <= PackScr(c) && DemuxPack(c).Some?
    && forall u :: u in DemuxPack(c).value && u.pts.Some? ==> PackScr(b) + LEAD <= u.pts.value
  }

  /** That holds of all packs of a file, except those of system headers. */
  ghost predicate InTime(packs: seq<seq<byte>>) {
    forall i, j :: 0 <= i <= j < |packs| && !IsSystemPack(packs[i]) && !IsSystemPack(packs[j])
                   ==> Leads(packs[i], packs[j])
  }

  // ------------------------------------------------------------------ stamps that rise

  /** In order, and all of them between the two. */
  ghost predicate Rise(ns: seq<nat>, lo: nat, hi: nat) {
    InOrder(ns) && forall i :: 0 <= i < |ns| ==> lo <= ns[i] <= hi
  }

  lemma RiseAppend(a: seq<nat>, b: seq<nat>, lo: nat, mid: nat, hi: nat)
    requires Rise(a, lo, mid) && Rise(b, mid, hi) && lo <= mid <= hi
    ensures Rise(a + b, lo, hi)
  {
  }

  lemma RiseFurther(a: seq<nat>, lo: nat, mid: nat, hi: nat)
    requires Rise(a, lo, mid) && mid <= hi
    ensures Rise(a, lo, hi) && Rise(a + [], lo, hi)
  {
    assert a + [] == a;
  }

  lemma RiseNothing(lo: nat, hi: nat)
    ensures Rise([], lo, hi)
  {
  }

  lemma {:induction false} StampsAppend(a: seq<Unit>, b: seq<Unit>, sid: byte)
    ensures StampsOf(a + b, sid) == StampsOf(a, sid) + StampsOf(b, sid)
    decreases |b|
  {
    hide StampsOf;
    if b == [] {
      assert a + b == a;
      NoStamps(a, sid);
    } else {
      var k := |b| - 1;
      StampsAppend(a, b[..k], sid);
      assert b == b[..k] + [b[k]];
      assert a + b == (a + b[..k]) + [b[k]];
      StampsSnoc(a + b[..k], b[k], sid);
      StampsSnoc(b[..k], b[k], sid);
    }
  }

  lemma NoStamps(a: seq<Unit>, sid: byte)
    ensures StampsOf(a, sid) + StampsOf([], sid) == StampsOf(a, sid)
  {
  }

  lemma StampsSnoc(a: seq<Unit>, u: Unit, sid: byte)
    ensures StampsOf(a + [u], sid)
            == StampsOf(a, sid) + if u.sid == sid && u.pts.Some? then [u.pts.value] else []
  {
    assert (a + [u])[..|a|] == a;
  }

  ghost function StampIn(p: Pes, sid: byte): (ns: seq<nat>) {
    if p.sid == sid && p.pts.Some? then [p.pts.value % POW33] else []
  }

  lemma SnocUnits(ps: seq<Pes>, p: Pes, sid: byte)
    ensures StampsOf(UnitsOf(ps + [p]), sid) == StampsOf(UnitsOf(ps), sid) + StampIn(p, sid)
  {
    assert UnitsOf(ps + [p]) == UnitsOf(ps) + [UnitOf(p)];
    assert (UnitsOf(ps) + [UnitOf(p)])[..|ps|] == UnitsOf(ps);
  }

  lemma NothingShown(sid: byte)
    ensures StampsOf(UnitsOf([]), sid) == []
  {
  }

  // ------------------------------------------------------------------ packets behind clock references

  /** The packets' clock references rise up to `hi`, and every stamp lies well behind those before it. */
  ghost predicate Clocked(ps: seq<Pes>, hi: nat) {
    && (forall i :: 0 <= i < |ps| && ps[i].opens.Some? ==> ps[i].opens.value <= hi)
    && (forall i :: 0 <= i < |ps| && ps[i].pts.Some? ==> ps[i].pts.value < POW33)
    && (forall i, j :: 0 <= i <= j < |ps| && ps[i].opens.Some? ==> Behind(ps[i].opens.value, ps[j]))
  }

  ghost predicate Behind(scr: nat, p: Pes) {
    && (p.opens.Some? ==> scr <= p.opens.value)
    && (p.pts.Some? ==> scr + LEAD <= p.pts.value)
  }

  lemma ClockedSnoc(ps: seq<Pes>, p: Pes, hi: nat, scr: nat, hi': nat)
    requires Clocked(ps, hi) && hi <= scr <= hi'
    requires p.opens.Some? ==> p.opens.value == scr
    requires p.pts.Some? ==> scr + LEAD <= p.pts.value < POW33
    ensures Clocked(ps + [p], hi')
  {
  }

  lemma ClockedFurther(ps: seq<Pes>, hi: nat, hi': nat)
    requires Clocked(ps, hi) && hi <= hi'
    ensures Clocked(ps, hi') && Clocked(ps + [], hi')
  {
    assert ps + [] == ps;
    hide Behind;
  }

  // ------------------------------------------------------------------ one call

  /**
   The clocks of a call, seen through their wraps: its packet is to be shown `d` ticks and due `u`
   ticks after the start.
   */
  ghost predicate OnClock(c: Call, d: real, u: real) {
    && 0.0 <= c.time < M.LAP && 0.0 <= c.start < M.LAP && M.Congruent(c.time, c.start + d)
    && -2147483648.0 < d && d + c.pesDuration < 2147483648.0
    && 0.0 <= c.scr <= 6442450944.0 && M.Congruent(c.scr, c.start + u)
    && 0.0 <= u <= d + M.VIDEO_FORERUN && u + c.scrDuration < 2147483648.0
    && 0.0 <= c.scrDuration <= c.pesDuration <= 268435456.0
    && Ticks(c.playtime) < 0x8000_0000
  }

  /** The stamp of what is shown `x` ticks after the start. */
  function PtsTick(playtime: real, x: real): (t: nat) {
    Ticks(x) + Ticks(playtime) + SCR_PLAY_OFFSET
  }

  /** The clock reference of what is due `x` ticks after the start. */
  function ScrTick(playtime: real, x: real): (t: nat) {
    Ticks(x) + Ticks(playtime)
  }

  lemma TicksRise(x: real, y: real)
    requires x <= y
    ensures Ticks(x) <= Ticks(y)
  {
  }

  lemma TicksBelow(x: real)
    requires x < 2147483648.0
    ensures Ticks(x) < 0x8000_0000 && (x <= 0.0 ==> Ticks(x) == 0)
  {
  }

  /** A sum of rounded times falls behind the times by the forerun at most. */
  lemma TicksLead(u: real, z: real, d: real, x: real)
    requires 0.0 <= u <= d + M.VIDEO_FORERUN && 0.0 <= z <= x
    ensures Ticks(u) + Ticks(z) <= Ticks(d + x) + 19000
  {
    assert Ticks(u) + Ticks(z) <= Ticks(u + z);
    TicksRise(u + z, d + x + 19000.0);
  }

  lemma PartRises(c: Call, a: nat, b: nat, dur: real)
    requires c.size > 0 && a <= b <= c.size && 0.0 <= dur
    ensures 0.0 == PartOf(c.size, 0, dur) <= PartOf(c.size, a, dur) <= PartOf(c.size, b, dur)
    ensures PartOf(c.size, b, dur) <= PartOf(c.size, c.size, dur) == dur
  {
    PartsRise(a as real, b as real, c.size as real, dur);
    assert PartOf(c.size, 0, dur) == Part(0.0, c.size as real, dur);
    assert PartOf(c.size, c.size, dur) == Part(c.size as real, c.size as real, dur);
  }

  function Part(a: real, n: real, dur: real): real
    requires 0.0 < n
  {
    a / n * dur
  }

  function Times(x: real, d: real): real {
    x * d
  }

  lemma PartsRise(a: real, b: real, n: real, dur: real)
    requires 0.0 <= a <= b <= n && 0.0 < n && 0.0 <= dur
    ensures 0.0 == Part(0.0, n, dur) <= Part(a, n, dur) <= Part(b, n, dur) <= Part(n, n, dur) == dur
  {
    hide Part;
    hide Times;
    var o := Share(0.0, n, dur);
    var x := Share(a, n, dur);
    var y := Share(b, n, dur);
    var z := Share(n, n, dur);
    TimesUnits(n);
    TimesUnits(dur);
    FactorsRise(o, 0.0, n);
    FactorsRise(0.0, o, n);
    FactorsRise(o, x, n);
    FactorsRise(x, y, n);
    FactorsRise(y, z, n);
    FactorsRise(z, 1.0, n);
    FactorsRise(1.0, z, n);
    ProductsRise(o, x, dur);
    ProductsRise(x, y, dur);
    ProductsRise(y, z, dur);
  }

  lemma TimesUnits(d: real)
    ensures Times(0.0, d) == 0.0 && Times(1.0, d) == d
  {
  }

  /** The share of the first `a` in `n`, without a division. */
  lemma Share(a: real, n: real, dur: real) returns (x: real)
    requires 0.0 < n
    ensures Times(x, n) == a && Part(a, n, dur) == Times(x, dur)
  {
    x := a / n;
  }

  lemma FactorsRise(x: real, y: real, n: real)
    requires Times(x, n) <= Times(y, n) && 0.0 < n
    ensures x <= y
  {
    hide Times;
    if y < x {
      ProductsRiseStrictly(y, x, n);
    }
  }

  lemma ProductsRiseStrictly(x: real, y: real, d: real)
    requires x < y && 0.0 < d
    ensures Times(x, d) < Times(y, d)
  {
    assert (y - x) * d > 0.0;
  }

  lemma ProductsRise(x: real, y: real, d: real)
    requires x <= y && 0.0 <= d
    ensures Times(x, d) <= Times(y, d)
  {
    assert (y - x) * d >= 0.0;
  }

  lemma PartGrows(c: Call, a: nat, dur: real, more: real)
    requires 0 < c.size && a <= c.size && dur <= more
    ensures PartOf(c.size, a, dur) <= PartOf(c.size, a, more)
  {
    PartsGrow(a as real, c.size as real, dur, more);
  }

  lemma PartsGrow(a: real, n: real, dur: real, more: real)
    requires 0.0 < n && 0.0 <= a && dur <= more
    ensures Part(a, n, dur) <= Part(a, n, more)
  {
    var x := a / n;
    TimesUnits(n);
    FactorsRise(0.0, x, n);
    ProductsRise(dur, more, x);
  }

  lemma DiffFromStart(l: real, r: real, d: real, x: real)
    requires 0.0 <= l && l + x <= 6442450944.0 && 0.0 <= r < M.LAP && M.Congruent(l, r + d)
    requires 0.0 <= x && -2147483648.0 < d && d + x < 2147483648.0
    ensures PtsDiff(l + x, r) == d + x
  {
    hide PtsDiff;
    PtsDiffAcrossWrap32(l + x, r, d + x, M.Laps(l, r + d));
  }

  /** The stamp of a piece is its part of the packet's time. */
  lemma StampIs(c: Call, from: nat, d: real, u: real)
    requires OnClock(c, d, u) && from < c.size
    ensures StampAt(c, from).Some? <==> c.stamp && (from == 0 || c.stampAll)
    ensures StampAt(c, from).Some? ==>
              StampAt(c, from).value == PtsTick(c.playtime, d + PartOf(c.size, from, c.pesDuration)) < POW33
  {
    hide PtsDiff;
    hide M.Congruent;
    hide Ticks;
    hide PartOf;
    PartRises(c, 0, from, c.pesDuration);
    DiffFromStart(c.time, c.start, d, 0.0);
    var x := PartOf(c.size, from, c.pesDuration);
    DiffFromStart(c.time, c.start, d, x);
    TicksBelow(d + x);
  }

  /** And so is the clock reference of a pack. */
  lemma ScrIs(c: Call, from: nat, d: real, u: real)
    requires OnClock(c, d, u) && from < c.size
    ensures ScrAt(c, from) == ScrTick(c.playtime, u) + Ticks(PartOf(c.size, from, c.scrDuration))
    ensures StampAt(c, from).Some? ==> ScrAt(c, from) + LEAD <= StampAt(c, from).value
  {
    StampIs(c, from, d, u);
    hide StampAt;
    hide PtsDiff;
    hide M.Congruent;
    hide Ticks;
    hide PartOf;
    DiffFromStart(c.scr, c.start, u, 0.0);
    PartRises(c, 0, from, c.scrDuration);
    PartGrows(c, from, c.scrDuration, c.pesDuration);
    TicksLead(u, PartOf(c.size, from, c.scrDuration), d, PartOf(c.size, from, c.pesDuration));
    TicksBelow(0.0);
  }

  /** The stamps of one call's pieces are in order. */
  lemma {:induction false} CutRises(pieces: seq<Pes>, c: Call, es: seq<byte>, done: nat, sid: byte, d: real, u: real)
    requires |es| == c.size > 0 && done <= |es| && CutTo(pieces, c, es, done) && OnClock(c, d, u)
    ensures c.sid != sid ==> StampsOf(UnitsOf(pieces), sid) == []
    ensures Rise(StampsOf(UnitsOf(pieces), sid), PtsTick(c.playtime, d),
                 PtsTick(c.playtime, d + PartOf(c.size, done, c.pesDuration)))
    decreases |pieces|
  {
    hide *;
    CutLast(pieces, c, es, done);
    if pieces == [] {
      NothingShown(sid);
      RiseNothing(PtsTick(c.playtime, d), PtsTick(c.playtime, d + PartOf(c.size, done, c.pesDuration)));
    } else {
      var init, p := pieces[..|pieces| - 1], pieces[|pieces| - 1];
      var from := done - |p.es|;
      CutRises(init, c, es, from, sid, d, u);
      assert pieces == init + [p];
      SnocUnits(init, p, sid);
      PieceRises(c, p, from, done, sid, d, u);
      RiseAppend(StampsOf(UnitsOf(init), sid), StampIn(p, sid), PtsTick(c.playtime, d),
                 PtsTick(c.playtime, d + PartOf(c.size, from, c.pesDuration)),
                 PtsTick(c.playtime, d + PartOf(c.size, done, c.pesDuration)));
    }
  }

  lemma PieceRises(c: Call, p: Pes, from: nat, done: nat, sid: byte, d: real, u: real)
    requires OnClock(c, d, u) && from < done <= c.size && p.sid == c.sid && p.pts == StampAt(c, from)
    ensures p.sid != sid ==> StampIn(p, sid) == []
    ensures var lo := PtsTick(c.playtime, d + PartOf(c.size, from, c.pesDuration));
            var hi := PtsTick(c.playtime, d + PartOf(c.size, done, c.pesDuration));
            PtsTick(c.playtime, d) <= lo <= hi && Rise(StampIn(p, sid), lo, hi)
  {
    hide *;
    ClockFacts(c, d, u);
    StampIs(c, from, d, u);
    PartRises(c, from, done, c.pesDuration);
    var x, y := PartOf(c.size, from, c.pesDuration), PartOf(c.size, done, c.pesDuration);
    PtsTickRises(c.playtime, d, d + x);
    PtsTickRises(c.playtime, d + x, d + y);
    StampInRises(p, sid, PtsTick(c.playtime, d + x), PtsTick(c.playtime, d + y));
  }

  lemma ClockFacts(c: Call, d: real, u: real)
    requires OnClock(c, d, u)
    ensures 0.0 <= c.pesDuration && 0.0 <= c.scrDuration
  {
  }

  lemma PtsTickRises(playtime: real, x: real, y: real)
    requires x <= y
    ensures PtsTick(playtime, x) <= PtsTick(playtime, y)
  {
  }

  lemma ScrTickRises(playtime: real, x: real, y: real)
    requires x <= y
    ensures ScrTick(playtime, x) <= ScrTick(playtime, y)
  {
  }

  lemma StampInRises(p: Pes, sid: byte, lo: nat, hi: nat)
    requires p.pts.Some? ==> p.pts.value == lo < POW33
    requires lo <= hi
    ensures p.sid != sid ==> StampIn(p, sid) == []
    ensures Rise(StampIn(p, sid), lo, hi)
  {
  }

  /** The clock references that one call adds are in order too, and its stamps lie behind them. */
  lemma {:induction false} CutClocked(before: seq<Pes>, pieces: seq<Pes>, c: Call, es: seq<byte>, done: nat, d: real,
                                      u: real)
    requires |es| == c.size > 0 && done <= |es| && CutTo(pieces, c, es, done) && OnClock(c, d, u)
    requires Clocked(before, ScrTick(c.playtime, u))
    ensures Clocked(before + pieces, ScrTick(c.playtime, u) + Ticks(PartOf(c.size, done, c.scrDuration)))
    decreases |pieces|
  {
    hide *;
    CutLast(pieces, c, es, done);
    var scr := ScrTick(c.playtime, u);
    if pieces == [] {
      ClockedFurther(before, scr, scr + Ticks(PartOf(c.size, done, c.scrDuration)));
    } else {
      var init, p := pieces[..|pieces| - 1], pieces[|pieces| - 1];
      var from := done - |p.es|;
      CutClocked(before, init, c, es, from, d, u);
      assert before + pieces == (before + init) + [p];
      ClockFacts(c, d, u);
      StampIs(c, from, d, u);
      ScrIs(c, from, d, u);
      PartRises(c, from, done, c.scrDuration);
      TicksRise(PartOf(c.size, from, c.scrDuration), PartOf(c.size, done, c.scrDuration));
      ClockedSnoc(before + init, p, ScrAt(c, from), ScrAt(c, from), scr + Ticks(PartOf(c.size, done, c.scrDuration)));
    }
  }

  lemma ScrEnds(c: Call, d: real, u: real)
    requires OnClock(c, d, u) && c.size > 0
    ensures ScrTick(c.playtime, u) + Ticks(PartOf(c.size, c.size, c.scrDuration))
            <= ScrTick(c.playtime, u + c.scrDuration)
  {
    hide PartOf;
    PartRises(c, 0, c.size, c.scrDuration);
  }

  lemma NoPieces(pieces: seq<Pes>, c: Call, es: seq<byte>)
    requires |es| == c.size && CutTo(pieces, c, es, |es|) && c.size == 0
    ensures pieces == []
  {
  }

  /** What a call adds to what was sent before it: clock references up to its end, */
  lemma CallClocked(c: Call, before: seq<Pes>, added: seq<Pes>, es: seq<byte>, d: real, u: real, y: real)
    requires |es| == c.size && CutTo(added, c, es, |es|) && OnClock(c, d, u)
    requires Clocked(before, ScrTick(c.playtime, u)) && u + c.scrDuration <= y
    ensures Clocked(before + added, ScrTick(c.playtime, y))
  {
    hide *;
    ClockFacts(c, d, u);
    ScrTickRises(c.playtime, u, y);
    if c.size == 0 {
      NoPieces(added, c, es);
      ClockedFurther(before, ScrTick(c.playtime, u), ScrTick(c.playtime, y));
    } else {
      CutClocked(before, added, c, es, |es|, d, u);
      ScrEnds(c, d, u);
      ScrTickRises(c.playtime, u + c.scrDuration, y);
      ClockedFurther(before + added, ScrTick(c.playtime, u) + Ticks(PartOf(c.size, c.size, c.scrDuration)),
                     ScrTick(c.playtime, y));
    }
  }

  /** and stamps up to its end. */
  lemma CallStamps(c: Call, before: seq<Pes>, added: seq<Pes>, es: seq<byte>, sid: byte, d: real, u: real,
                   m: real, x: real)
    requires |es| == c.size && CutTo(added, c, es, |es|) && OnClock(c, d, u)
    requires Rise(StampsOf(UnitsOf(before), sid), 0, PtsTick(c.playtime, m)) && m <= x
    requires c.sid == sid ==> m == d && d + c.pesDuration <= x
    ensures Rise(StampsOf(UnitsOf(before + added), sid), 0, PtsTick(c.playtime, x))
  {
    hide *;
    UnitsOfAppend(before, added);
    StampsAppend(UnitsOf(before), UnitsOf(added), sid);
    PtsTickRises(c.playtime, m, x);
    var a, b := StampsOf(UnitsOf(before), sid), StampsOf(UnitsOf(added), sid);
    if c.size == 0 {
      NoPieces(added, c, es);
      NothingShown(sid);
      RiseFurther(a, 0, PtsTick(c.playtime, m), PtsTick(c.playtime, x));
    } else {
      CutRises(added, c, es, |es|, sid, d, u);
      if c.sid == sid {
        ClockFacts(c, d, u);
        PartRises(c, 0, c.size, c.pesDuration);
        PtsTickRises(c.playtime, d, d + c.pesDuration);
        PtsTickRises(c.playtime, d + c.pesDuration, x);
        RiseFurther(b, PtsTick(c.playtime, d), PtsTick(c.playtime, d + c.pesDuration), PtsTick(c.playtime, x));
        RiseAppend(a, b, 0, PtsTick(c.playtime, d), PtsTick(c.playtime, x));
      } else {
        RiseFurther(a, 0, PtsTick(c.playtime, m), PtsTick(c.playtime, x));
      }
    }
  }

  // ------------------------------------------------------------------ all calls of a run

  /** What is written `x` ticks after the start, counted from the packet's own time. */
  ghost predicate Within(e: M.Emission, t0: real) {
    && 0.0 <= M.Due(e.video, e.packet) - t0
    && M.Due(e.video, e.packet) + e.scrDuration - t0 < 2147483648.0
    && M.Time(e.packet) + e.pesDuration - t0 < 2147483648.0
  }

  /** The clock at the start of a run, and what it stands for. */
  ghost predicate StartsAt(start: real, t0: real, playtime: real) {
    0.0 <= start < M.LAP && M.Congruent(start, t0) && Ticks(playtime) < 0x8000_0000
  }

  lemma CallOnClock(e: M.Emission, start: real, t0: real, playtime: real)
    requires Belongs(e.packet, e.video) && Pacing.Sound(e) && Within(e, t0) && StartsAt(start, t0, playtime)
    ensures WellFormed(e.packet.pes)
    ensures OnClock(CallFor(WriteOf(e), start, playtime), M.Time(e.packet) - t0, M.Due(e.video, e.packet) - t0)
  {
    var t, u := M.Time(e.packet), M.Due(e.video, e.packet);
    M.CongruentBy(e.packet.pts, start + (t - t0), -e.packet.lap - M.Laps(start, t0));
    M.CongruentBy(e.clock, start + (u - t0), M.Laps(e.clock, u) - M.Laps(start, t0));
  }

  /** The packets of the last emission are the last ones sent. */
  lemma LaidSplit(sent: seq<Pes>, ops: seq<Op>, e: M.Emission, start: real, playtime: real) returns (k: nat)
    requires Laid(sent, ops + OpsOf(e), start, playtime) && WellFormed(e.packet.pes)
    ensures k <= |sent| && Laid(sent[..k], ops, start, playtime)
    ensures CutTo(sent[k..], CallFor(WriteOf(e), start, playtime), EsOf(e.packet.pes), |EsOf(e.packet.pes)|)
  {
    hide CutTo;
    hide WellFormed;
    hide EsOf;
    var w := WriteOf(e);
    var all := ops + OpsOf(e);
    var front := if e.packet.seqStart then ops + [Flush] else ops;
    assert all == front + [w];
    assert all[..|all| - 1] == front;
    k :| 0 <= k <= |sent| && Laid(sent[..k], front, start, playtime)
         && CutTo(sent[k..], CallFor(w, start, playtime), EsOf(w.pes), |EsOf(w.pes)|);
    if e.packet.seqStart {
      assert front[..|front| - 1] == ops;
    }
  }

  /** The data shown is at most up to `x`, and what was written at most up to `y`. */
  ghost predicate UpTo(out: seq<M.Emission>, t0: real, video: bool, x: real, y: real) {
    && 0.0 <= y
    && (forall e :: e in out && e.video == video ==> M.Time(e.packet) + e.pesDuration - t0 <= x)
    && (forall e :: e in out ==> M.Due(e.video, e.packet) + e.scrDuration - t0 <= y)
  }

  /** What the packets sent for emissions look like. */
  ghost predicate Rising(sent: seq<Pes>, sid: byte, playtime: real, x: real, y: real) {
    Rise(StampsOf(UnitsOf(sent), sid), 0, PtsTick(playtime, x)) && Clocked(sent, ScrTick(playtime, y))
  }

  lemma {:induction false} RunRises(out: seq<M.Emission>, sent: seq<Pes>, sid: byte, start: real, t0: real,
                                    playtime: real, x: real, y: real)
    requires Laid(sent, Ops(out), start, playtime) && Emitted(out) && Pacing.Paced(out)
    requires StartsAt(start, t0, playtime) && forall e :: e in out ==> Within(e, t0)
    requires UpTo(out, t0, sid == VIDEO_ID, x, y)
    ensures Rising(sent, sid, playtime, x, y)
    decreases |out|
  {
    hide *;
    if out == [] {
      NothingRises(sent, sid, start, playtime, x, y);
    } else {
      var init, e := out[..|out| - 1], out[|out| - 1];
      assert out == init + [e];
      LastFacts(out, init, e, t0, sid == VIDEO_ID, x, y);
      OpsMore(init, e);
      BelongsFacts(e.packet, e.video);
      CallOnClock(e, start, t0, playtime);
      var k := LaidSplit(sent, Ops(init), e, start, playtime);
      var d, u := M.Time(e.packet) - t0, M.Due(e.video, e.packet) - t0;
      RunRises(init, sent[..k], sid, start, t0, playtime, if e.video == (sid == VIDEO_ID) then d else x, u);
      assert sent == sent[..k] + sent[k..];
      OneMore(e, sent[..k], sent[k..], sid, start, t0, playtime, x, y);
    }
  }

  lemma NothingRises(sent: seq<Pes>, sid: byte, start: real, playtime: real, x: real, y: real)
    requires Laid(sent, Ops([]), start, playtime)
    ensures Rising(sent, sid, playtime, x, y)
  {
    assert sent == [];
    NothingShown(sid);
  }

  lemma LastFacts(out: seq<M.Emission>, init: seq<M.Emission>, e: M.Emission, t0: real, video: bool, x: real, y: real)
    requires out == init + [e] && Emitted(out) && Pacing.Paced(out) && UpTo(out, t0, video, x, y)
    requires forall e :: e in out ==> Within(e, t0)
    ensures Emitted(init) && Pacing.Paced(init) && Belongs(e.packet, e.video) && Pacing.Sound(e)
    ensures Within(e, t0) && forall e :: e in init ==> Within(e, t0)
    ensures UpTo(init, t0, video, if e.video == video then M.Time(e.packet) - t0 else x, M.Due(e.video, e.packet) - t0)
    ensures e.video == video ==> M.Time(e.packet) + e.pesDuration - t0 <= x
    ensures M.Due(e.video, e.packet) + e.scrDuration - t0 <= y
  {
    hide Belongs;
    hide M.Due;
    hide M.Time;
    hide M.Congruent;
    assert e == out[|init|];
    assert forall k :: 0 <= k < |init| ==> out[k] == init[k];
    assert forall k :: 0 <= k < |init| ==> Pacing.Before(out[k], out[|init|]);
  }

  /** The packets of one more emission. */
  lemma OneMore(e: M.Emission, before: seq<Pes>, added: seq<Pes>, sid: byte, start: real, t0: real, playtime: real,
                x: real, y: real)
    requires PacketOk(e.packet.pes) && WellFormed(e.packet.pes) && (e.packet.pes[3] == VIDEO_ID <==> e.video)
    requires var c := CallFor(WriteOf(e), start, playtime);
             && OnClock(c, M.Time(e.packet) - t0, M.Due(e.video, e.packet) - t0)
             && CutTo(added, c, EsOf(e.packet.pes), |EsOf(e.packet.pes)|)
    requires Rising(before, sid, playtime, if e.video == (sid == VIDEO_ID) then M.Time(e.packet) - t0 else x,
                    M.Due(e.video, e.packet) - t0)
    requires e.video == (sid == VIDEO_ID) ==> M.Time(e.packet) + e.pesDuration - t0 <= x
    requires M.Due(e.video, e.packet) + e.scrDuration - t0 <= y
    ensures Rising(before + added, sid, playtime, x, y)
  {
    var d, u := M.Time(e.packet) - t0, M.Due(e.video, e.packet) - t0;
    var c := CallFor(WriteOf(e), start, playtime);
    assert c.sid == e.packet.pes[3] && c.size == |EsOf(e.packet.pes)| && c.playtime == playtime;
    assert c.pesDuration == e.pesDuration && c.scrDuration == e.scrDuration;
    CallClocked(c, before, added, EsOf(e.packet.pes), d, u, y);
    CallStamps(c, before, added, EsOf(e.packet.pes), sid, d, u, if e.video == (sid == VIDEO_ID) then d else x, x);
  }

  // ------------------------------------------------------------------ which stamps the file has

  /**
   What the file shows of one packet written: its data, and in it the time of every piece of an audio
   packet and of the beginning of a video sequence, counted from the start of the run.
   */
  ghost predicate ShownOf(us: seq<Unit>, e: M.Emission, t0: real, playtime: real)
    requires WellFormed(e.packet.pes)
  {
    var sid, es := e.packet.pes[3], EsOf(e.packet.pes);
    && Stream(us, sid) == es && (us == [] <==> es == [])
    && forall k :: 0 <= k < |us| ==> ShownUnit(us[k], |Stream(us[..k], sid)|, k == 0, e, t0, playtime)
  }

  ghost predicate ShownUnit(u: Unit, done: nat, first: bool, e: M.Emission, t0: real, playtime: real)
    requires WellFormed(e.packet.pes)
  {
    && u.sid == e.packet.pes[3] && u.es != [] && EsOf(e.packet.pes) != []
    && u.pts == if e.video && !(e.packet.seqStart && first) then None
                else Some(PtsTick(playtime, PieceTime(e, done) - t0))
  }

  /** The sender's time of the data behind the first `done` bytes of a packet. */
  ghost function PieceTime(e: M.Emission, done: nat): real
    requires WellFormed(e.packet.pes) && EsOf(e.packet.pes) != []
  {
    M.Time(e.packet) + PartOf(|EsOf(e.packet.pes)|, done, e.pesDuration)
  }

  /** What the file shows of all packets written, in order. */
  ghost predicate Shown(us: seq<Unit>, out: seq<M.Emission>, t0: real, playtime: real)
    decreases |out|
  {
    if out == [] then us == []
    else
      var e := out[|out| - 1];
      && WellFormed(e.packet.pes)
      && exists k :: 0 <= k <= |us| && Shown(us[..k], out[..|out| - 1], t0, playtime)
                     && ShownOf(us[k..], e, t0, playtime)
  }

  lemma {:induction false} StreamLong(us: seq<Unit>, sid: byte)
    requires forall i :: 0 <= i < |us| ==> us[i].sid == sid && us[i].es != []
    ensures |Stream(us, sid)| >= |us|
    decreases |us|
  {
    if us != [] {
      StreamLong(us[..|us| - 1], sid);
    }
  }

  lemma StreamGrows(us: seq<Unit>, sid: byte, k: nat)
    requires k < |us| && forall i :: 0 <= i < |us| ==> us[i].sid == sid && us[i].es != []
    ensures |Stream(us[..k], sid)| < |Stream(us, sid)| && (k == 0 <==> |Stream(us[..k], sid)| == 0)
  {
    hide Stream;
    assert us == us[..k] + us[k..];
    StreamAppend(us[..k], us[k..], sid);
    StreamLong(us[..k], sid);
    StreamLong(us[k..], sid);
    if k == 0 {
      NothingDelivered(sid);
    }
  }

  lemma NothingDelivered(sid: byte)
    ensures Stream([], sid) == []
  {
  }

  lemma CallShown(us: seq<Unit>, e: M.Emission, start: real, t0: real, playtime: real)
    requires Belongs(e.packet, e.video) && Pacing.Sound(e) && Within(e, t0) && StartsAt(start, t0, playtime)
    requires WellFormed(e.packet.pes) && ShowsCall(us, WriteOf(e), start, playtime)
    ensures ShownOf(us, e, t0, playtime)
  {
    CallIsOf(e);
    ShowsFacts(us, WriteOf(e), start, playtime);
    CallOnClock(e, start, t0, playtime);
    hide Belongs;
    hide Within;
    hide StartsAt;
    hide OnClock;
    hide WriteOf;
    hide WellFormed;
    hide EsOf;
    hide ShowsCall;
    hide ShowsUnit;
    hide ShownUnit;
    hide Pacing.Sound;
    var sid := e.packet.pes[3];
    forall k | 0 <= k < |us| ensures ShownUnit(us[k], |Stream(us[..k], sid)|, k == 0, e, t0, playtime) {
      StreamGrows(us, sid, k);
      StampShown(us[k], e, |Stream(us[..k], sid)|, k == 0, start, t0, playtime);
    }
  }

  lemma ShowsFacts(us: seq<Unit>, op: Op, start: real, playtime: real)
    requires op.Write? && WellFormed(op.pes) && ShowsCall(us, op, start, playtime)
    ensures Stream(us, op.pes[3]) == EsOf(op.pes) && (us == [] <==> EsOf(op.pes) == [])
    ensures forall k :: 0 <= k < |us| ==> us[k].sid == op.pes[3] && us[k].es != []
    ensures forall k :: 0 <= k < |us| ==> ShowsUnit(us[k], op, |Stream(us[..k], op.pes[3])|, k == 0, start, playtime)
  {
    hide WellFormed;
    hide EsOf;
    hide StampFor;
    hide Stamps;
  }

  lemma StampShown(u: Unit, e: M.Emission, done: nat, first: bool, start: real, t0: real, playtime: real)
    requires WellFormed(e.packet.pes) && done < |EsOf(e.packet.pes)| && (first <==> done == 0)
    requires var c := CallFor(WriteOf(e), start, playtime);
             OnClock(c, M.Time(e.packet) - t0, M.Due(e.video, e.packet) - t0)
    requires ShowsUnit(u, WriteOf(e), done, first, start, playtime)
    ensures ShownUnit(u, done, first, e, t0, playtime)
  {
    UnitFacts(u, e, done, first, start, playtime);
    var d, c := M.Time(e.packet) - t0, CallFor(WriteOf(e), start, playtime);
    hide *;
    UnitStamp(u, WriteOf(e), done, first, start, playtime);
    CallFields(WriteOf(e), start, playtime);
    CallFlags(e, start, playtime);
    StampIs(c, done, d, M.Due(e.video, e.packet) - t0);
    PieceTimeIs(e, done);
    if StampAt(c, done).Some? {
      SmallMod(StampAt(c, done).value);
    }
    ShownUnitBy(u, done, first, e, t0, playtime);
  }

  lemma UnitFacts(u: Unit, e: M.Emission, done: nat, first: bool, start: real, playtime: real)
    requires WellFormed(e.packet.pes) && ShowsUnit(u, WriteOf(e), done, first, start, playtime)
    ensures u.sid == e.packet.pes[3] && u.es != [] && EsOf(e.packet.pes) != []
  {
    hide EsOf;
    hide StampFor;
    hide Stamps;
  }

  lemma ShownUnitBy(u: Unit, done: nat, first: bool, e: M.Emission, t0: real, playtime: real)
    requires WellFormed(e.packet.pes) && u.sid == e.packet.pes[3] && u.es != [] && EsOf(e.packet.pes) != []
    requires u.pts == if e.video && !(e.packet.seqStart && first) then None
                      else Some(PtsTick(playtime, PieceTime(e, done) - t0))
    ensures ShownUnit(u, done, first, e, t0, playtime)
  {
  }

  lemma SmallMod(t: nat)
    requires t < POW33
    ensures t % POW33 == t
  {
  }

  lemma PieceTimeIs(e: M.Emission, done: nat)
    requires WellFormed(e.packet.pes) && done < |EsOf(e.packet.pes)|
    ensures PieceTime(e, done) == M.Time(e.packet) + PartOf(|EsOf(e.packet.pes)|, done, e.pesDuration)
  {
  }

  lemma CallIsOf(e: M.Emission)
    requires WellFormed(e.packet.pes)
    ensures WriteOf(e).Write? && WriteOf(e).pes == e.packet.pes
  {
  }

  lemma UnitStamp(u: Unit, op: Op, done: nat, first: bool, start: real, playtime: real)
    requires op.Write? && WellFormed(op.pes) && done < |EsOf(op.pes)| && (first <==> done == 0)
    requires CallFor(op, start, playtime).size == |EsOf(op.pes)|
    requires ShowsUnit(u, op, done, first, start, playtime)
    ensures var s := StampAt(CallFor(op, start, playtime), done);
            u.pts == if s.Some? then Some(s.value % POW33) else None
  {
    PieceStamp(op, done, start, playtime);
    hide StampAt;
    hide StampFor;
    hide Stamps;
    hide WellFormed;
    hide EsOf;
  }

  lemma CallFlags(e: M.Emission, start: real, playtime: real)
    requires WellFormed(e.packet.pes)
    ensures var c := CallFor(WriteOf(e), start, playtime);
            && c.playtime == playtime && c.pesDuration == e.pesDuration
            && (c.stamp <==> !e.video || e.packet.seqStart) && (c.stampAll <==> !e.video)
  {
  }

  lemma ShowsSplit(us: seq<Unit>, ops: seq<Op>, e: M.Emission, start: real, playtime: real) returns (k: nat)
    requires Shows(us, ops + OpsOf(e), start, playtime) && WellFormed(e.packet.pes)
    ensures k <= |us| && Shows(us[..k], ops, start, playtime) && ShowsCall(us[k..], WriteOf(e), start, playtime)
  {
    hide ShowsCall;
    hide WellFormed;
    var w := WriteOf(e);
    var all := ops + OpsOf(e);
    var front := if e.packet.seqStart then ops + [Flush] else ops;
    assert all == front + [w];
    assert all[..|all| - 1] == front;
    k :| 0 <= k <= |us| && Shows(us[..k], front, start, playtime) && ShowsCall(us[k..], w, start, playtime);
    if e.packet.seqStart {
      assert front[..|front| - 1] == ops;
    }
  }

  lemma {:induction false} RunShown(out: seq<M.Emission>, us: seq<Unit>, start: real, t0: real, playtime: real)
    requires Shows(us, Ops(out), start, playtime) && Emitted(out) && Pacing.Paced(out)
    requires StartsAt(start, t0, playtime) && forall e :: e in out ==> Within(e, t0)
    ensures Shown(us, out, t0, playtime)
    decreases |out|
  {
    hide *;
    if out == [] {
      NothingIsShown(us, start, t0, playtime);
    } else {
      var init, e := out[..|out| - 1], out[|out| - 1];
      assert out == init + [e];
      LastOnes(out, init, e, t0);
      OpsMore(init, e);
      BelongsFacts(e.packet, e.video);
      var k := ShowsSplit(us, Ops(init), e, start, playtime);
      RunShown(init, us[..k], start, t0, playtime);
      CallShown(us[k..], e, start, t0, playtime);
      ShownMore(us, k, out, t0, playtime);
    }
  }

  lemma NothingIsShown(us: seq<Unit>, start: real, t0: real, playtime: real)
    requires Shows(us, Ops([]), start, playtime)
    ensures Shown(us, [], t0, playtime)
  {
  }

  lemma LastOnes(out: seq<M.Emission>, init: seq<M.Emission>, e: M.Emission, t0: real)
    requires out == init + [e] && Emitted(out) && Pacing.Paced(out) && forall e :: e in out ==> Within(e, t0)
    ensures Emitted(init) && Pacing.Paced(init) && Belongs(e.packet, e.video) && Pacing.Sound(e)
    ensures Within(e, t0) && forall e :: e in init ==> Within(e, t0)
  {
    hide Belongs;
    hide Within;
    hide Pacing.Sound;
    hide Pacing.Before;
    assert e == out[|init|];
    assert forall k :: 0 <= k < |init| ==> out[k] == init[k];
  }

  lemma ShownMore(us: seq<Unit>, k: nat, out: seq<M.Emission>, t0: real, playtime: real)
    requires out != [] && k <= |us| && Shown(us[..k], out[..|out| - 1], t0, playtime)
    requires WellFormed(out[|out| - 1].packet.pes) && ShownOf(us[k..], out[|out| - 1], t0, playtime)
    ensures Shown(us, out, t0, playtime)
  {
    hide ShownOf;
    hide WellFormed;
  }

  // ------------------------------------------------------------------ which clock references the packs have

  /** A pack opened while a packet is written has the clock reference of where it starts in the packet. */
  ghost predicate ClocksOf(ps: seq<Pes>, e: M.Emission, t0: real, playtime: real)
    requires WellFormed(e.packet.pes)
  {
    forall k :: 0 <= k < |ps| && ps[k].opens.Some? ==>
      && EsOf(e.packet.pes) != []
      && ps[k].opens.value == ScrFor(e, |Stream(UnitsOf(ps[..k]), e.packet.pes[3])|, t0, playtime)
  }

  /** A packet is due at its beginning; behind the first `done` bytes it has come so much nearer to the next one. */
  ghost function ScrFor(e: M.Emission, done: nat, t0: real, playtime: real): nat
    requires WellFormed(e.packet.pes) && EsOf(e.packet.pes) != []
  {
    ScrTick(playtime, M.Due(e.video, e.packet) - t0) + Ticks(PartOf(|EsOf(e.packet.pes)|, done, e.scrDuration))
  }

  /** The packets sent for all packets written, in order. */
  ghost predicate Clocks(ps: seq<Pes>, out: seq<M.Emission>, t0: real, playtime: real)
    decreases |out|
  {
    if out == [] then ps == []
    else
      var e := out[|out| - 1];
      && WellFormed(e.packet.pes)
      && exists k :: 0 <= k <= |ps| && Clocks(ps[..k], out[..|out| - 1], t0, playtime)
                     && ClocksOf(ps[k..], e, t0, playtime)
  }

  /** The clock references of a call's pieces, by how much data lies before them. */
  ghost predicate ScrsCut(ps: seq<Pes>, c: Call) {
    forall k :: 0 <= k < |ps| && ps[k].opens.Some? ==>
      var done := |Stream(UnitsOf(ps[..k]), c.sid)|; done < c.size && ps[k].opens.value == ScrAt(c, done)
  }

  lemma {:induction false} CutScrs(pieces: seq<Pes>, c: Call, es: seq<byte>, done: nat)
    requires |es| == c.size && done <= |es| && CutTo(pieces, c, es, done)
    ensures |Stream(UnitsOf(pieces), c.sid)| == done && ScrsCut(pieces, c)
    decreases |pieces|
  {
    hide *;
    CutLast(pieces, c, es, done);
    if pieces == [] {
      NoScrs(c);
    } else {
      var init, p := pieces[..|pieces| - 1], pieces[|pieces| - 1];
      CutScrs(init, c, es, done - |p.es|);
      LastApart(pieces);
      ScrsMore(init, p, c);
    }
  }

  lemma NoScrs(c: Call)
    ensures |Stream(UnitsOf([]), c.sid)| == 0 && ScrsCut([], c)
  {
  }

  lemma ScrsMore(init: seq<Pes>, p: Pes, c: Call)
    requires ScrsCut(init, c) && p.sid == c.sid
    requires var done := |Stream(UnitsOf(init), c.sid)|;
             done < c.size && (p.opens.Some? ==> p.opens.value == ScrAt(c, done))
    ensures ScrsCut(init + [p], c)
    ensures |Stream(UnitsOf(init + [p]), c.sid)| == |Stream(UnitsOf(init), c.sid)| + |p.es|
  {
    StreamOfMore(init, p, c.sid);
    hide ScrAt;
    hide UnitsOf;
    hide Stream;
    var all := init + [p];
    assert all[..|init|] == init;
    assert forall k :: 0 <= k < |init| ==> all[..k] == init[..k];
  }

  lemma StreamOfMore(init: seq<Pes>, p: Pes, sid: byte)
    requires p.sid == sid
    ensures Stream(UnitsOf(init + [p]), sid) == Stream(UnitsOf(init), sid) + p.es
  {
    assert UnitsOf(init + [p]) == UnitsOf(init) + [UnitOf(p)];
    assert (UnitsOf(init) + [UnitOf(p)])[..|init|] == UnitsOf(init);
  }

  lemma CallClocks(ps: seq<Pes>, e: M.Emission, start: real, t0: real, playtime: real)
    requires Belongs(e.packet, e.video) && Pacing.Sound(e) && Within(e, t0) && StartsAt(start, t0, playtime)
    requires WellFormed(e.packet.pes)
    requires CutTo(ps, CallFor(WriteOf(e), start, playtime), EsOf(e.packet.pes), |EsOf(e.packet.pes)|)
    ensures ClocksOf(ps, e, t0, playtime)
  {
    var c := CallFor(WriteOf(e), start, playtime);
    CallOnClock(e, start, t0, playtime);
    CallFields(WriteOf(e), start, playtime);
    CallDurations(e, start, playtime);
    CutScrs(ps, c, EsOf(e.packet.pes), |EsOf(e.packet.pes)|);
    hide CallFor;
    hide WriteOf;
    hide OnClock;
    hide WellFormed;
    hide EsOf;
    hide ScrAt;
    hide CutTo;
    hide Belongs;
    hide Within;
    hide StartsAt;
    hide Pacing.Sound;
    hide ScrTick;
    hide PartOf;
    hide M.Due;
    hide M.Time;
    forall k | 0 <= k < |ps| && ps[k].opens.Some?
      ensures EsOf(e.packet.pes) != []
      ensures ps[k].opens.value == ScrFor(e, |Stream(UnitsOf(ps[..k]), e.packet.pes[3])|, t0, playtime)
    {
      ScrIs(c, |Stream(UnitsOf(ps[..k]), c.sid)|, M.Time(e.packet) - t0, M.Due(e.video, e.packet) - t0);
    }
  }

  lemma CallDurations(e: M.Emission, start: real, playtime: real)
    requires WellFormed(e.packet.pes)
    ensures var c := CallFor(WriteOf(e), start, playtime);
            c.playtime == playtime && c.scrDuration == e.scrDuration && c.sid == e.packet.pes[3]
  {
  }

  lemma {:induction false} RunClocks(out: seq<M.Emission>, ps: seq<Pes>, start: real, t0: real, playtime: real)
    requires Laid(ps, Ops(out), start, playtime) && Emitted(out) && Pacing.Paced(out)
    requires StartsAt(start, t0, playtime) && forall e :: e in out ==> Within(e, t0)
    ensures Clocks(ps, out, t0, playtime)
    decreases |out|
  {
    hide *;
    if out == [] {
      NoClocks(ps, start, t0, playtime);
    } else {
      var init, e := out[..|out| - 1], out[|out| - 1];
      assert out == init + [e];
      LastOnes(out, init, e, t0);
      OpsMore(init, e);
      BelongsFacts(e.packet, e.video);
      var k := LaidSplit(ps, Ops(init), e, start, playtime);
      RunClocks(init, ps[..k], start, t0, playtime);
      CallClocks(ps[k..], e, start, t0, playtime);
      ClocksMore(ps, k, out, t0, playtime);
    }
  }

  lemma NoClocks(ps: seq<Pes>, start: real, t0: real, playtime: real)
    requires Laid(ps, Ops([]), start, playtime)
    ensures Clocks(ps, [], t0, playtime)
  {
  }

  lemma ClocksMore(ps: seq<Pes>, k: nat, out: seq<M.Emission>, t0: real, playtime: real)
    requires out != [] && k <= |ps| && Clocks(ps[..k], out[..|out| - 1], t0, playtime)
    requires WellFormed(out[|out| - 1].packet.pes) && ClocksOf(ps[k..], out[|out| - 1], t0, playtime)
    ensures Clocks(ps, out, t0, playtime)
  {
    hide ClocksOf;
    hide WellFormed;
  }

  // ------------------------------------------------------------------ the file

  /** The run takes less than 2^31 ticks (about 6 hours and 37 minutes). */
  ghost predicate Short(r: M.Run) {
    r.video != [] ==> forall p :: p in r.audio || p in r.video ==> M.Time(p) - M.Time(r.video[0]) < 2147483648.0
  }

  lemma WithinRun(r: M.Run, q: M.Run, e: M.Emission)
    requires Short(r) && q.audio == r.audio && q.video == r.video && Pacing.Reaches(e, q) && Pacing.Sound(e)
    ensures r.video != [] && Within(e, M.Time(r.video[0]))
  {
    assert q.audio[q.i] in r.audio && q.video[q.j] in r.video;
  }

  /**
   No run can be longer: what lies more than 2^31 ticks behind the start is taken to lie before it, and
   the time stamp falls back to the beginning.
   */
  lemma LongRun(time: real, start: real, d: real)
    requires 0.0 <= time < M.LAP && 0.0 <= start < M.LAP && M.Congruent(time, start + d)
    requires 0.0 <= d < M.LAP && d != 2147483648.0
    ensures PtsDiff(time, start) == d <==> d < 2147483648.0
    ensures d > 2147483648.0 ==> PtsDiff(time, start) == d - M.LAP && Ticks(PtsDiff(time, start)) == 0
  {
    var k := M.Laps(time, start + d);
    hide PtsDiff;
    if d < 2147483648.0 {
      PtsDiffAcrossWrap32(time, start, d, k);
    } else {
      PtsDiffAcrossWrap32(time, start, d - M.LAP, k + 1);
    }
  }

  /** What was sent for a run has stamps and clock references in order. */
  lemma SentRises(r: M.Run, steps: seq<M.Step>, sent: seq<Pes>, sid: byte, playtime: real)
    requires Ready(r) && Short(r) && Ticks(playtime) < 0x8000_0000
    requires Laid(sent, Ops(M.RunAll(r, steps).out), r.clock, playtime)
    ensures Rising(sent, sid, playtime, 2147483648.0, 2147483648.0)
  {
    hide *;
    ReadyFacts(r);
    var q := M.RunAll(r, steps);
    RunEmits(r, steps);
    Pacing.EveryRunIsPaced(r, steps);
    if q.out == [] {
      NothingRises(sent, sid, r.clock, playtime, 2147483648.0, 2147483648.0);
    } else {
      RunWithin(r, q, playtime);
      var t0 := M.Time(r.video[0]);
      UpToAll(q.out, t0, sid == VIDEO_ID);
      RunRises(q.out, sent, sid, r.clock, t0, playtime, 2147483648.0, 2147483648.0);
    }
  }

  /** The sender's time at which a run starts. */
  ghost function StartTime(r: M.Run): real {
    if r.video == [] then 0.0 else M.Time(r.video[0])
  }

  /** And the stamps are those of the packets written. */
  lemma FileShown(r: M.Run, steps: seq<M.Step>, us: seq<Unit>, playtime: real)
    requires Ready(r) && Short(r) && Ticks(playtime) < 0x8000_0000
    requires Shows(us, Ops(M.RunAll(r, steps).out), r.clock, playtime)
    ensures Shown(us, M.RunAll(r, steps).out, StartTime(r), playtime)
  {
    hide *;
    ReadyFacts(r);
    var q := M.RunAll(r, steps);
    RunEmits(r, steps);
    Pacing.EveryRunIsPaced(r, steps);
    if q.out == [] {
      NothingIsShown(us, r.clock, StartTime(r), playtime);
    } else {
      RunWithin(r, q, playtime);
      StartTimeIs(r);
      RunShown(q.out, us, r.clock, StartTime(r), playtime);
    }
  }

  /** So are the clock references. */
  lemma FileClocks(r: M.Run, steps: seq<M.Step>, ps: seq<Pes>, playtime: real)
    requires Ready(r) && Short(r) && Ticks(playtime) < 0x8000_0000
    requires Laid(ps, Ops(M.RunAll(r, steps).out), r.clock, playtime)
    ensures Clocks(ps, M.RunAll(r, steps).out, StartTime(r), playtime)
  {
    hide *;
    ReadyFacts(r);
    var q := M.RunAll(r, steps);
    RunEmits(r, steps);
    Pacing.EveryRunIsPaced(r, steps);
    if q.out == [] {
      NoClocks(ps, r.clock, StartTime(r), playtime);
    } else {
      RunWithin(r, q, playtime);
      StartTimeIs(r);
      RunClocks(q.out, ps, r.clock, StartTime(r), playtime);
    }
  }

  lemma StartTimeIs(r: M.Run)
    requires r.video != []
    ensures StartTime(r) == M.Time(r.video[0])
  {
  }

  lemma RunWithin(r: M.Run, q: M.Run, playtime: real)
    requires M.Started(r) && Short(r) && Ticks(playtime) < 0x8000_0000
    requires q.audio == r.audio && q.video == r.video && Pacing.PacedRun(q) && q.out != []
    ensures Pacing.Paced(q.out) && r.video != [] && StartsAt(r.clock, M.Time(r.video[0]), playtime)
    ensures forall e :: e in q.out ==> Within(e, M.Time(r.video[0]))
  {
    hide *;
    Pacing.PacedFacts(q);
    StartOf(r, q, q.out[0], playtime);
    forall e | e in q.out ensures Within(e, M.Time(r.video[0])) {
      SoundOne(q.out, e);
      WithinRun(r, q, e);
    }
  }

  lemma ReadyFacts(r: M.Run)
    requires Ready(r)
    ensures M.Started(r) && M.Shape(r)
  {
  }

  lemma SoundOne(out: seq<M.Emission>, e: M.Emission)
    requires Pacing.Paced(out) && e in out
    ensures Pacing.Sound(e)
  {
    hide Pacing.Sound;
  }

  lemma StartOf(r: M.Run, q: M.Run, e: M.Emission, playtime: real)
    requires M.Started(r) && q.audio == r.audio && q.video == r.video && Pacing.Reaches(e, q)
    requires Ticks(playtime) < 0x8000_0000
    ensures r.video != [] && StartsAt(r.clock, M.Time(r.video[0]), playtime)
  {
    M.CongruentBy(r.video[0].pts, M.Time(r.video[0]), -r.video[0].lap);
  }

  lemma UpToAll(out: seq<M.Emission>, t0: real, video: bool)
    requires forall e :: e in out ==> Within(e, t0)
    ensures UpTo(out, t0, video, 2147483648.0, 2147483648.0)
  {
    hide M.Due;
    hide M.Time;
  }

  /** What is read from a pack of packets. */
  lemma PackReads(b: seq<byte>, p: Pack)
    requires SectorOk(b, Media(p))
    ensures p.pes != [] && p.pes[0].opens.Some? && PackScr(b) == p.pes[0].opens.value % POW32
    ensures DemuxPack(b) == Some(UnitsOf(p.pes))
  {
    DemuxEncodedPack(p);
    hide DemuxPack;
    hide UnitsOf;
    hide ClockRef;
    hide ScrBytes;
    hide EncodeAll;
    hide EncodePadding;
    ScrRoundTrip(p.pes[0].opens.value);
    assert b[4..10] == ScrBytes(p.pes[0].opens.value);
  }

  lemma NothingSent(s: seq<Sector>)
    ensures PesOf(s) + PesOf([]) == PesOf(s)
  {
  }

  lemma PesOfSnoc(s: seq<Sector>, x: Sector)
    ensures PesOf(s + [x]) == PesOf(s) + PesIn(x)
  {
    hide PesIn;
    assert (s + [x])[..|s|] == s;
  }

  lemma {:induction false} PesOfAppend(s: seq<Sector>, t: seq<Sector>)
    ensures PesOf(s + t) == PesOf(s) + PesOf(t)
    decreases |t|
  {
    hide PesIn;
    hide PesOf;
    if t == [] {
      assert s + t == s;
      NothingSent(s);
    } else {
      var k := |t| - 1;
      PesOfAppend(s, t[..k]);
      assert t == t[..k] + [t[k]];
      assert s + t == (s + t[..k]) + [t[k]];
      PesOfSnoc(s + t[..k], t[k]);
      PesOfSnoc(t[..k], t[k]);
    }
  }

  /** Where the packets of a pack are among all packets. */
  lemma PlaceOf(sectors: seq<Sector>, i: nat, k: nat)
    requires i < |sectors| && k < |PesIn(sectors[i])|
    ensures var at := |PesOf(sectors[..i])|;
            at + k < |PesOf(sectors)| && PesOf(sectors)[at + k] == PesIn(sectors[i])[k]
            && at + |PesIn(sectors[i])| == |PesOf(sectors[..i + 1])|
  {
    hide PesIn;
    assert sectors == sectors[..i + 1] + sectors[i + 1..];
    assert sectors[..i + 1][..i] == sectors[..i];
    PesOfAppend(sectors[..i + 1], sectors[i + 1..]);
  }

  lemma PlacesRise(sectors: seq<Sector>, i: nat, j: nat)
    requires i <= j <= |sectors|
    ensures |PesOf(sectors[..i])| <= |PesOf(sectors[..j])|
  {
    assert sectors[..j] == sectors[..i] + sectors[i..j];
    PesOfAppend(sectors[..i], sectors[i..j]);
  }

  /** The packets of a later pack, or of the same, come behind the clock reference of a pack. */
  lemma SectorsLead(sectors: seq<Sector>, i: nat, j: nat, k: nat, hi: nat)
    requires i <= j < |sectors| && sectors[i].Media? && k < |PesIn(sectors[j])| && Clocked(PesOf(sectors), hi)
    requires PesIn(sectors[i]) != [] && PesIn(sectors[i])[0].opens.Some?
    ensures PesIn(sectors[i])[0].opens.value <= hi && Behind(PesIn(sectors[i])[0].opens.value, PesIn(sectors[j])[k])
    ensures PesIn(sectors[j])[k].pts.Some? ==> PesIn(sectors[j])[k].pts.value < POW33
  {
    hide PesIn;
    hide Behind;
    hide PesOf;
    PlaceOf(sectors, i, 0);
    PlaceOf(sectors, j, k);
    PlacesRise(sectors, i, j);
  }

  /** The packs of a file are in time if the packets in them are. */
  lemma PacksInTime(out: seq<seq<byte>>, sectors: seq<Sector>, hi: nat)
    requires FileOk(out, sectors) && Clocked(PesOf(sectors), hi) && hi < POW32
    ensures InTime(out)
  {
    hide Leads;
    hide Clocked;
    forall i, j | 0 <= i <= j < |out| && !IsSystemPack(out[i]) && !IsSystemPack(out[j])
      ensures Leads(out[i], out[j])
    {
      assert SectorOk(out[i], sectors[i]) && SectorOk(out[j], sectors[j]);
      BlocksLead(out[i], out[j], sectors, i, j, hi);
    }
  }

  lemma BlocksLead(b: seq<byte>, c: seq<byte>, sectors: seq<Sector>, i: nat, j: nat, hi: nat)
    requires i <= j < |sectors| && Clocked(PesOf(sectors), hi) && hi < POW32
    requires SectorOk(b, sectors[i]) && SectorOk(c, sectors[j]) && sectors[i].Media? && sectors[j].Media?
    ensures Leads(b, c)
  {
    hide *;
    PackReads(b, sectors[i].pack);
    PackReads(c, sectors[j].pack);
    PacketsOf(sectors[i]);
    PacketsOf(sectors[j]);
    forall k | 0 <= k < |sectors[j].pack.pes|
      ensures sectors[i].pack.pes[0].opens.value <= hi
      ensures Behind(sectors[i].pack.pes[0].opens.value, sectors[j].pack.pes[k])
      ensures sectors[j].pack.pes[k].pts.Some? ==> sectors[j].pack.pes[k].pts.value < POW33
    {
      SectorsLead(sectors, i, j, k, hi);
    }
    SectorsLead(sectors, j, j, 0, hi);
    LeadsBy(b, c, sectors[i].pack.pes[0].opens.value, sectors[j].pack.pes, hi);
  }

  lemma PacketsOf(s: Sector)
    requires s.Media?
    ensures PesIn(s) == s.pack.pes
  {
  }

  lemma LeadsBy(b: seq<byte>, c: seq<byte>, scr: nat, ps: seq<Pes>, hi: nat)
    requires scr <= hi < POW32 && PackScr(b) == scr % POW32
    requires ps != [] && ps[0].opens.Some? && ps[0].opens.value <= hi && PackScr(c) == ps[0].opens.value % POW32
    requires DemuxPack(c) == Some(UnitsOf(ps))
    requires forall k :: 0 <= k < |ps| ==> Behind(scr, ps[k]) && (ps[k].pts.Some? ==> ps[k].pts.value < POW33)
    ensures Leads(b, c)
  {
    hide DemuxPack;
    hide PackScr;
    assert Behind(scr, ps[0]);
    forall u | u in UnitsOf(ps) && u.pts.Some? ensures scr + LEAD <= u.pts.value {
      var k :| 0 <= k < |ps| && u == UnitOf(ps[k]);
    }
  }

  /**
   The file of any run shorter than 2^31 ticks: the presentation times of every stream never decrease,
   nor do the clock references of the packs, and every time stamp is at least 8000 ticks after the
   clock reference of its own pack and of all packs before it. All audio is stamped, and the beginning
   of every video sequence, each with the time it was sent for; and the clock references of the packs are
   the times at which the packets in them are due.
   */
  method RecordInTime(m: Remuxer, out: seq<M.Emission>, ghost r: M.Run, ghost steps: seq<M.Step>)
    requires m.Valid() && m.out == [] && m.ppValid == 0
    requires Ready(r) && Short(r) && out == M.RunAll(r, steps).out
    requires m.systemClockRefStart == r.clock && Ticks(m.playtimeOffset) < 0x8000_0000
    modifies m`ppValid, m`out, m`totalBytesWritten, m`sectors, m`open, m.ppBuffer
    ensures DemuxAll(m.out).Some? && forall sid :: InOrder(StampsOf(DemuxAll(m.out).value, sid))
    ensures InTime(m.out)
    ensures Shown(DemuxAll(m.out).value, out, StartTime(r), m.playtimeOffset)
    ensures FileOk(m.out, m.sectors) && Clocks(PesOf(m.sectors), out, StartTime(r), m.playtimeOffset)
  {
    hide *;
    RecordRun(m, out, r, steps);
    FileShown(r, steps, DemuxAll(m.out).value, m.playtimeOffset);
    forall sid ensures InOrder(StampsOf(DemuxAll(m.out).value, sid)) {
      SentRises(r, steps, m.Sent(), sid, m.playtimeOffset);
      RisingFacts(m.Sent(), sid, m.playtimeOffset);
    }
    SentRises(r, steps, m.Sent(), 0, m.playtimeOffset);
    RisingFacts(m.Sent(), 0, m.playtimeOffset);
    WrittenFacts(m);
    FileClocks(r, steps, m.Sent(), m.playtimeOffset);
    PacksInTime(m.out, m.sectors, ScrTick(m.playtimeOffset, 2147483648.0));
  }

  lemma RisingFacts(sent: seq<Pes>, sid: byte, playtime: real)
    requires Rising(sent, sid, playtime, 2147483648.0, 2147483648.0) && Ticks(playtime) < 0x8000_0000
    ensures InOrder(StampsOf(UnitsOf(sent), sid))
    ensures Clocked(sent, ScrTick(playtime, 2147483648.0)) && ScrTick(playtime, 2147483648.0) < POW32
  {
  }

  lemma WrittenFacts(m: Remuxer)
    requires m.Valid() && m.ppValid == 0
    ensures FileOk(m.out, m.sectors) && PesOf(m.sectors) == m.Sent()
  {
    assert PesOf(m.sectors) + [] == PesOf(m.sectors);
  }
}
