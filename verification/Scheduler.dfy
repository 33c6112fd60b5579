/**
 The main loop of ggrab's generate_program_stream: each round writes the waiting pack with the
 least wanted time and stamps it with a system clock reference that never runs ahead of the coded
 multiplex rate.
 */
module Scheduler {

  import opened Clock

  /** The wanted time of the pack with a given number, for each stream: what fill_pp stores. */
  type Supply = (nat, nat) -> real

  /** The pack with number `turn` of stream `index`, written with clock reference `scr`. */
  datatype Written = Written(index: nat, turn: nat, wanted: real, scr: real)

  /** The duration of one pack at the multiplex rate, in ticks of 90 kHz. */
  const D: real := 2048.0 * 8.0 / 10080000.0 * 90000.0

  const NEVER: real := 8589934592.0

  // ------------------------------------------------------------------ clock references as a function

  /** The clock reference of the last of these packs. */
  ghost function Scr(w: seq<real>): (r: real)
    requires w != []
  {
    var k := |w| - 1;
    var free := if k == 0 then 0.0 else Scr(w[..k]) + D;
    if free < w[k] then w[k] else free
  }

  /** What pack `j` alone demands of the clock reference of the last pack. */
  ghost function Demand(w: seq<real>, j: nat): real
    requires j < |w|
  {
    w[j] + (|w| - 1 - j) as real * D
  }

  lemma DemandPrefix(w: seq<real>, j: nat)
    requires j + 1 < |w|
    ensures Demand(w, j) == Demand(w[..|w| - 1], j) + D
  {
    assert (|w| - 1 - j) as real == (|w| - 2 - j) as real + 1.0;
  }

  /** No demand and no multiple of the pack duration exceeds the clock reference... */
  lemma {:induction false} ScrMeetsDemands(w: seq<real>)
    requires w != []
    ensures Scr(w) >= (|w| - 1) as real * D
    ensures forall j :: 0 <= j < |w| ==> Demand(w, j) <= Scr(w)
    decreases |w|
  {
    var k := |w| - 1;
    if k > 0 {
      ScrMeetsDemands(w[..k]);
      forall j | 0 <= j < |w| ensures Demand(w, j) <= Scr(w) {
        if j < k {
          DemandPrefix(w, j);
        }
      }
    }
  }

  /** ...and one of them equals it, so it is their maximum. */
  lemma {:induction false} ScrIsDemanded(w: seq<real>)
    requires w != []
    ensures Scr(w) == (|w| - 1) as real * D || exists j :: 0 <= j < |w| && Demand(w, j) == Scr(w)
    decreases |w|
  {
    var k := |w| - 1;
    if Scr(w) == w[k] {
      assert Demand(w, k) == Scr(w);
    } else if k > 0 {
      ScrIsDemanded(w[..k]);
      if Scr(w[..k]) != (k - 1) as real * D {
        var j :| 0 <= j < k && Demand(w[..k], j) == Scr(w[..k]);
        DemandPrefix(w, j);
      }
    }
  }

  /** A schedule within the multiplex rate: no pack before its wanted time, none closer than D. */
  ghost predicate Admissible(w: seq<real>, s: seq<real>) {
    && |s| == |w| && (s != [] ==> s[0] >= 0.0)
    && (forall k :: 0 <= k < |s| ==> w[k] <= s[k])
    && (forall k :: 1 <= k < |s| ==> s[k - 1] + D <= s[k])
  }

  ghost predicate Scheduled(w: seq<real>, s: seq<real>) {
    |s| == |w| && forall k :: 0 <= k < |s| ==> s[k] == Scr(w[..k + 1])
  }

  /** The clock references form an admissible schedule... */
  lemma ScheduleIsAdmissible(w: seq<real>, s: seq<real>)
    requires Scheduled(w, s)
    ensures Admissible(w, s)
  {
    forall k | 0 <= k < |s| ensures w[k] <= s[k] && (k == 0 ==> s[k] >= 0.0) && (k > 0 ==> s[k - 1] + D <= s[k]) {
      assert s[k] == Scr(w[..k + 1]);
      assert w[..k + 1][..k] == w[..k];
    }
  }

  /** ...and every admissible schedule writes every pack at the same time or later. */
  lemma {:induction false} ScheduleIsEarliest(w: seq<real>, s: seq<real>, t: seq<real>, k: nat)
    requires Scheduled(w, s) && Admissible(w, t) && k < |w|
    ensures s[k] <= t[k]
  {
    assert w[..k + 1][..k] == w[..k];
    assert s[k] == Scr(w[..k + 1]);
    if k > 0 {
      ScheduleIsEarliest(w, s, t, k - 1);
      assert s[k - 1] == Scr(w[..k - 1 + 1]);
      assert w[..k - 1 + 1] == w[..k];
    }
  }

  /** fill_pp_scr brings a reference above 2^33 - 1 back by 2^33, never below 0. */
  function FillScr(scr: real): (t: nat) {
    var s := if scr > 8589934591.0 then scr - 8589934592.0 else scr;
    if s < 0.0 then 0 else s.Floor
  }

  /** The stored reference reads back exactly, except within the last tick before the clock wraps. */
  lemma FillScrReads(scr: real)
    requires 0.0 <= scr
    ensures ClockRef(ScrBytes(FillScr(scr))) == scr.Floor % POW32 <==> !(8589934591.0 < scr < 8589934592.0)
  {
    ScrRoundTrip(FillScr(scr));
    hide ClockRef;
    hide ScrBytes;
    if scr >= 8589934592.0 {
      assert (scr - 8589934592.0).Floor == scr.Floor - 2 * POW32;
      assert (scr.Floor - 2 * POW32) % POW32 == scr.Floor % POW32;
    } else if scr > 8589934591.0 {
      assert scr.Floor == 8589934591;
    }
  }

  // ------------------------------------------------------------------ the order of the packs

  /** How many packs of stream `i` have been written. */
  ghost function Turn(log: seq<Written>, i: nat): nat {
    if log == [] then 0
    else Turn(log[..|log| - 1], i) + if log[|log| - 1].index == i then 1 else 0
  }

  /** The wanted time of the pack of stream `i` that waits when this has been written. */
  ghost function Waiting(supply: Supply, log: seq<Written>, i: nat): real {
    supply(i, Turn(log, i))
  }

  /** A pack is its stream's next one, and none of the waiting packs is wanted before it. */
  ghost predicate Chosen(n: nat, supply: Supply, before: seq<Written>, x: Written) {
    && x.index < n && x.turn == Turn(before, x.index) && x.wanted == supply(x.index, x.turn)
    && forall i :: 0 <= i < n && Waiting(supply, before, i) < NEVER ==> x.wanted <= Waiting(supply, before, i)
  }

  ghost predicate Choices(n: nat, supply: Supply, log: seq<Written>) {
    forall k :: 0 <= k < |log| ==> Chosen(n, supply, log[..k], log[k])
  }

  ghost function Wants(log: seq<Written>): (w: seq<real>)
    ensures |w| == |log|
  {
    seq(|log|, k requires 0 <= k < |log| => log[k].wanted)
  }

  ghost function Scrs(log: seq<Written>): (s: seq<real>)
    ensures |s| == |log|
  {
    seq(|log|, k requires 0 <= k < |log| => log[k].scr)
  }

  lemma TurnSnoc(log: seq<Written>, x: Written, i: nat)
    ensures Turn(log + [x], i) == Turn(log, i) + if x.index == i then 1 else 0
  {
    assert (log + [x])[..|log|] == log;
  }

  /** Every stream wants its packs in order, and none as late as 2^33. */
  ghost predicate Sorted(n: nat, supply: Supply) {
    forall i, s, t :: 0 <= i < n && 0 <= s <= t ==> supply(i, s) <= supply(i, t) < NEVER
  }

  /** If the wanted times of every stream are sorted, so is the order of writing. */
  lemma OrderIsSorted(n: nat, supply: Supply, log: seq<Written>, k: nat)
    requires Choices(n, supply, log) && k + 1 < |log|
    requires Sorted(n, supply)
    ensures log[k].wanted <= log[k + 1].wanted
  {
    var x, y := log[k], log[k + 1];
    assert Chosen(n, supply, log[..k], x);
    assert Chosen(n, supply, log[..k + 1], y);
    assert log[..k + 1] == log[..k] + [x];
    TurnSnoc(log[..k], x, y.index);
    assert x.index != y.index ==> Waiting(supply, log[..k], y.index) == y.wanted;
  }

  /** Of every stream the next pack is held, filled and ready. */
  ghost predicate Held(n: nat, supply: Supply, wanted: seq<real>, turns: seq<nat>, log: seq<Written>) {
    && |wanted| == |turns| == n
    && forall i :: 0 <= i < n ==> turns[i] == Turn(log, i) && wanted[i] == Waiting(supply, log, i)
  }

  lemma HeldSizes(n: nat, supply: Supply, wanted: seq<real>, turns: seq<nat>, log: seq<Written>)
    requires Held(n, supply, wanted, turns, log)
    ensures |wanted| == |turns| == n
  {
  }

  lemma Refill(n: nat, supply: Supply, wanted: seq<real>, turns: seq<nat>, log: seq<Written>, x: Written)
    requires Held(n, supply, wanted, turns, log) && x.index < n
    ensures var t := turns[x.index] + 1;
            Held(n, supply, wanted[x.index := supply(x.index, t)], turns[x.index := t], log + [x])
  {
    forall i | 0 <= i < n ensures Turn(log + [x], i) == Turn(log, i) + if x.index == i then 1 else 0 {
      TurnSnoc(log, x, i);
    }
  }

  // ------------------------------------------------------------------ the loop

  class Multiplexer {
    const n: nat
    const supply: Supply
    var wanted: seq<real>
    var turns: seq<nat>
    var nextindex: nat
    var actScr: real
    ghost var log: seq<Written>

    ghost predicate Valid()
      reads this
    {
      && nextindex < n && Held(n, supply, wanted, turns, log)
      && Choices(n, supply, log) && Scheduled(Wants(log), Scrs(log))
      && actScr == if log == [] then 0.0 else Scr(Wants(log)) + D
    }

    constructor (streams: nat, packs: Supply)
      requires streams > 0
      ensures Valid() && log == [] && n == streams && supply == packs
    {
      n, supply := streams, packs;
      wanted := seq(streams, i requires 0 <= i < streams => packs(i, 0));
      turns := seq(streams, i => 0);
      nextindex, actScr := 0, 0.0;
      log := [];
    }

    /** The stream to write next; it stays the same when every wanted time has passed 2^33. */
    method Choose()
      requires |wanted| == n && nextindex < n
      modifies this`nextindex
      ensures nextindex < n
      ensures forall i :: 0 <= i < n && wanted[i] < NEVER ==> wanted[nextindex] <= wanted[i]
      ensures (forall i :: 0 <= i < n ==> wanted[i] >= NEVER) ==> nextindex == old(nextindex)
      ensures (exists i :: 0 <= i < n && wanted[i] < NEVER) ==>
                forall j :: 0 <= j < nextindex ==> wanted[nextindex] < wanted[j]
    {
      var minScr := NEVER;
      for i := 0 to n
        invariant nextindex < n
        invariant if minScr == NEVER then nextindex == old(nextindex)
                  else nextindex < i && minScr == wanted[nextindex] < NEVER
        invariant forall j :: 0 <= j < i ==> wanted[j] >= minScr
        invariant minScr < NEVER ==> forall j :: 0 <= j < nextindex ==> wanted[nextindex] < wanted[j]
      {
        var pscr := wanted[i];
        if pscr < minScr {
          minScr := pscr;
          nextindex := i;
        }
      }
    }

    /** Choose a stream and the clock reference of its pack. */
    method Pick() returns (x: Written)
      requires Valid()
      modifies this`nextindex, this`actScr
      ensures nextindex < n && x.index == nextindex && x.scr == actScr && Chosen(n, supply, log, x)
      ensures x.scr == if old(actScr) < x.wanted then x.wanted else old(actScr)
    {
      hide Choices;
      hide Scheduled;
      hide Turn;
      Choose();
      if actScr < wanted[nextindex] {
        actScr := wanted[nextindex];
      }
      x := Written(nextindex, turns[nextindex], wanted[nextindex], actScr);
    }

    /** One round: choose, stamp, write, refill. */
    method Round() returns (x: Written)
      requires Valid()
      modifies this
      ensures Valid() && log == old(log) + [x]
    {
      hide Held;
      hide Choices;
      hide Scheduled;
      hide Wants;
      hide Scrs;
      hide Scr;
      hide D;
      hide Chosen;
      x := Pick();
      HeldSizes(n, supply, wanted, turns, log);
      Grow(n, supply, log, x);
      Refill(n, supply, wanted, turns, log, x);
      Commit(x);
    }

    /** The pack is written: the clock moves on, and the stream's next pack is filled. */
    method Commit(x: Written)
      requires |wanted| == |turns| == n && x.index == nextindex < n && x.scr == actScr
      requires Choices(n, supply, log + [x]) && Scheduled(Wants(log + [x]), Scrs(log + [x]))
               && Scr(Wants(log + [x])) == x.scr
      requires var t := turns[x.index] + 1;
               Held(n, supply, wanted[x.index := supply(x.index, t)], turns[x.index := t], log + [x])
      modifies this`actScr, this`log, this`turns, this`wanted
      ensures Valid() && log == old(log) + [x]
    {
      hide Held;
      hide Choices;
      hide Scheduled;
      hide Wants;
      hide Scrs;
      hide Scr;
      actScr := actScr + D;
      log := log + [x];
      turns := turns[nextindex := turns[nextindex] + 1];
      wanted := wanted[nextindex := supply(nextindex, turns[nextindex])];
    }

    /**
     Any number of rounds: every stream's packs are written in order and none is skipped, each
     chosen as wanted first, with the earliest clock references the multiplex rate admits.
     */
    method Rounds(rounds: nat) returns (written: seq<Written>)
      requires Valid() && log == []
      modifies this
      ensures |written| == rounds && Choices(n, supply, written)
      ensures Scheduled(Wants(written), Scrs(written)) && Admissible(Wants(written), Scrs(written))
    {
      written := [];
      for k := 0 to rounds
        invariant Valid() && log == written && |written| == k
      {
        var x := Round();
        written := written + [x];
      }
      ScheduleIsAdmissible(Wants(written), Scrs(written));
    }
  }

  lemma Grow(n: nat, supply: Supply, log: seq<Written>, x: Written)
    requires Choices(n, supply, log) && Scheduled(Wants(log), Scrs(log)) && Chosen(n, supply, log, x)
    requires x.scr == var free := if log == [] then 0.0 else Scr(Wants(log)) + D;
                      if free < x.wanted then x.wanted else free
    ensures Choices(n, supply, log + [x]) && Scheduled(Wants(log + [x]), Scrs(log + [x]))
    ensures Scr(Wants(log + [x])) == x.scr
  {
    var more := log + [x];
    forall k | 0 <= k < |more| ensures Chosen(n, supply, more[..k], more[k]) {
      if k < |log| {
        assert more[..k] == log[..k];
        assert Chosen(n, supply, log[..k], log[k]);
      } else {
        assert more[..k] == log;
      }
    }
    GrowScrs(log, x);
  }

  lemma GrowScrs(log: seq<Written>, x: Written)
    requires Scheduled(Wants(log), Scrs(log))
    requires x.scr == var free := if log == [] then 0.0 else Scr(Wants(log)) + D;
                      if free < x.wanted then x.wanted else free
    ensures Scheduled(Wants(log + [x]), Scrs(log + [x])) && Scr(Wants(log + [x])) == x.scr
  {
    var w, v := Wants(log), Wants(log + [x]);
    assert v[..|log|] == w && v[|log|] == x.wanted;
    assert Scr(v) == x.scr;
    forall k | 0 <= k < |v| ensures Scrs(log + [x])[k] == Scr(v[..k + 1]) {
      if k < |log| {
        assert v[..k + 1] == w[..k + 1];
        assert Scrs(log)[k] == Scr(w[..k + 1]);
      } else {
        assert v[..k + 1] == v;
      }
    }
  }
}
