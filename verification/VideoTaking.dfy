/**
 What the multiplexer gets: the pictures listed, one after the other, each with exactly its bytes of the
 stream.
 */
module VideoTaking {

  import opened Bytes
  import opened CBuffers
  import opened Options
  import opened VideoList

  /** Everything received. */
  ghost function Received(steps: seq<Step>): (r: seq<byte>) {
    if steps == [] then []
    else
      var last := steps[|steps| - 1];
      Received(steps[..|steps| - 1]) + if last.Produce? then last.data else []
  }

  /** The bytes of pictures, one after the other. */
  ghost function BytesOf(s: seq<byte>, es: seq<Elem>): (b: seq<byte>) {
    if es == [] then []
    else
      var e := es[|es| - 1];
      BytesOf(s, es[..|es| - 1]) + Part(s, e.lptr, e.lptr + e.len)
  }

  /** What has been copied of the picture at the head of the list. */
  ghost function Begun(s: seq<byte>, list: seq<Elem>, muxer: Muxer): (b: seq<byte>) {
    if list == [] then []
    else
      var e := list[0];
      match muxer
      case Fetch => []
      case Copying(act, _) => Part(s, e.lptr, act)
      case Drop => Part(s, e.lptr, e.lptr + e.len)
  }

  /** The pictures taken and those still listed are all; the bytes of those taken have been copied. */
  ghost predicate Kept(s: State) {
    s.history == s.taken + s.list && s.copied == BytesOf(s.stream, s.taken) + Begun(s.stream, s.list, s.muxer)
  }

  // ------------------------------------------------------------------ every step keeps it

  lemma {:induction false} BytesStable(s: seq<byte>, t: seq<byte>, es: seq<Elem>)
    requires s <= t && forall e :: e in es ==> 0 <= e.lptr <= e.lptr + e.len <= |s|
    ensures BytesOf(t, es) == BytesOf(s, es)
    decreases |es|
  {
    if es != [] {
      var e := es[|es| - 1];
      assert e in es;
      BytesStable(s, t, es[..|es| - 1]);
      PartStable(s, t, e.lptr, e.lptr + e.len);
    }
  }

  lemma PartStable(s: seq<byte>, t: seq<byte>, a: int, b: int)
    requires s <= t && 0 <= a <= b <= |s|
    ensures Part(t, a, b) == Part(s, a, b)
  {
  }

  lemma PartsJoin(s: seq<byte>, a: int, b: int, c: int)
    requires 0 <= a <= b <= c <= |s|
    ensures Part(s, a, c) == Part(s, a, b) + Part(s, b, c)
  {
  }

  lemma PartNothing(s: seq<byte>, a: int)
    ensures Part(s, a, a) == []
  {
  }

  /** Pictures that were listed are inside the stream. */
  lemma ListedInside(s: State)
    requires Inv(s)
    ensures forall e :: e in s.history ==> 0 <= e.lptr <= e.lptr + e.len <= |s.stream|
  {
    hide ParserAt;
    hide Tail;
    hide MuxerAt;
    forall i | 0 <= i < |s.history|
      ensures 0 <= s.history[i].lptr <= s.history[i].lptr + s.history[i].len <= |s.stream|
    {
      assert Picture(s.stream, s.history[i], s.ends[i]);
      PictureInside(s.stream, s.history[i], s.ends[i]);
    }
  }

  ghost predicate Inside(s: seq<byte>, es: seq<Elem>) {
    forall e :: e in es ==> 0 <= e.lptr <= e.lptr + e.len <= |s|
  }

  /** Where the multiplexer is in the first picture of the list. */
  ghost predicate InFirst(s: seq<byte>, list: seq<Elem>, muxer: Muxer) {
    match muxer
    case Fetch => true
    case Copying(act, rest) =>
      && list != [] && 0 <= list[0].lptr <= act && 0 <= rest
      && act + rest == list[0].lptr + list[0].len <= |s|
    case Drop => list != []
  }

  lemma InvMuxer(s: State)
    requires Inv(s)
    ensures !s.crashed && 0 <= s.lOut <= |s.stream| && MuxerAt(s.muxer, s.list) && StartFrom(s.list, s.lOut)
  {
    hide ParserAt;
    hide Listed;
    hide Tail;
    hide StartFrom;
    hide MuxerAt;
  }

  lemma KeptFacts(s: State)
    requires Inv(s) && Kept(s)
    ensures Inside(s.stream, s.taken) && Inside(s.stream, s.list) && InFirst(s.stream, s.list, s.muxer)
    ensures s.muxer.Copying? ==> s.lOut <= s.muxer.act
    ensures s.history == s.taken + s.list
    ensures s.copied == BytesOf(s.stream, s.taken) + Begun(s.stream, s.list, s.muxer)
  {
    KeptParts(s);
    hide *;
    ListedInside(s);
    InvMuxer(s);
    InsideParts(s.stream, s.taken, s.list, s.history);
    MuxerInFirst(s.stream, s.lOut, s.list, s.muxer);
  }

  lemma KeptParts(s: State)
    requires Kept(s)
    ensures s.history == s.taken + s.list
    ensures s.copied == BytesOf(s.stream, s.taken) + Begun(s.stream, s.list, s.muxer)
  {
  }

  lemma InsideParts(s: seq<byte>, a: seq<Elem>, b: seq<Elem>, all: seq<Elem>)
    requires all == a + b && forall e :: e in all ==> 0 <= e.lptr <= e.lptr + e.len <= |s|
    ensures Inside(s, a) && Inside(s, b)
  {
    assert forall e :: e in a || e in b ==> e in all;
  }

  lemma MuxerInFirst(s: seq<byte>, lOut: int, list: seq<Elem>, muxer: Muxer)
    requires MuxerAt(muxer, list) && StartFrom(list, lOut) && Inside(s, list)
    ensures InFirst(s, list, muxer) && (muxer.Copying? ==> lOut <= muxer.act)
  {
    if list != [] {
      assert list[0] in list;
    }
  }

  lemma KeptBy(s: State)
    requires s.history == s.taken + s.list
    requires s.copied == BytesOf(s.stream, s.taken) + Begun(s.stream, s.list, s.muxer)
    ensures Kept(s)
  {
  }

  lemma BegunStable(s: seq<byte>, t: seq<byte>, list: seq<Elem>, muxer: Muxer)
    requires s <= t && Inside(s, list) && InFirst(s, list, muxer)
    ensures Begun(t, list, muxer) == Begun(s, list, muxer)
  {
    if list != [] {
      assert list[0] in list;
    }
  }

  lemma BegunMore(s: seq<byte>, list: seq<Elem>, e: Elem, muxer: Muxer)
    requires InFirst(s, list, muxer)
    ensures Begun(s, list + [e], muxer) == Begun(s, list, muxer)
  {
    hide Part;
  }

  lemma BytesInside(s: seq<byte>, t: seq<byte>, es: seq<Elem>)
    requires s <= t && Inside(s, es)
    ensures BytesOf(t, es) == BytesOf(s, es)
  {
    BytesStable(s, t, es);
  }

  lemma ProduceKept(s: State, data: seq<byte>)
    requires Inv(s) && Kept(s)
    ensures Kept(Next(s, Produce(data)))
  {
    NextProduces(s, data);
    hide *;
    KeptFacts(s);
    BytesInside(s.stream, s.stream + data, s.taken);
    BegunStable(s.stream, s.stream + data, s.list, s.muxer);
    KeptBy(s.(stream := s.stream + data));
  }

  lemma NextProduces(s: State, data: seq<byte>)
    ensures Next(s, Produce(data)) == s.(stream := s.stream + data)
  {
  }

  /** The parser only appends to the list. */
  lemma ParseAppends(s: State, hit: int)
    ensures var s' := ParseStep(s, hit);
            && s'.stream == s.stream && s'.muxer == s.muxer && s'.taken == s.taken && s'.copied == s.copied
            && ((s'.list == s.list && s'.history == s.history)
                || (s.parser.Append? && s'.list == s.list + [s.parser.elem]
                    && s'.history == s.history + [s.parser.elem]))
  {
    if !s.parser.Append? {
      ParseOnly(s, hit);
      hide ParseStep;
    }
  }

  lemma ParseOnly(s: State, hit: int)
    requires !s.parser.Append?
    ensures var s' := ParseStep(s, hit); s' == s.(parser := s'.parser, lOut := s'.lOut, crashed := s'.crashed)
  {
    hide FirstMatch;
    hide StampOf;
    hide Trimmed;
  }

  lemma ParseKept(s: State, hit: int)
    requires Inv(s) && Kept(s)
    ensures Kept(Next(s, Parse(hit)))
  {
    NextParses(s, hit);
    hide *;
    KeptFacts(s);
    ParseAppends(s, hit);
    var s' := ParseStep(s, hit);
    if !(s'.list == s.list && s'.history == s.history) {
      var e := s.parser.elem;
      BegunMore(s.stream, s.list, e, s.muxer);
      Appended(s.taken, s.list, e);
    }
    KeptBy(s');
  }

  lemma Appended(a: seq<Elem>, b: seq<Elem>, e: Elem)
    ensures (a + b) + [e] == a + (b + [e])
  {
  }

  lemma NextParses(s: State, hit: int)
    ensures Next(s, Parse(hit)) == ParseStep(s, hit)
  {
  }

  lemma CopyKept(s: State, n: nat)
    requires Inv(s) && Kept(s)
    ensures Kept(Next(s, Copy(n)))
  {
    NextCopies(s, n);
    hide *;
    KeptFacts(s);
    var s' := CopyStep(s, n);
    CopyMoves(s, n);
    if s' != s {
      BegunGrows(s.stream, s.list, s.muxer, n);
      Concat3(BytesOf(s.stream, s.taken), Begun(s.stream, s.list, s.muxer),
              Part(s.stream, s.muxer.act, s.muxer.act + n));
      KeptBy(s');
    }
  }

  lemma NextCopies(s: State, n: nat)
    ensures Next(s, Copy(n)) == CopyStep(s, n)
  {
  }

  lemma CopyMoves(s: State, n: nat)
    requires InFirst(s.stream, s.list, s.muxer) && (s.muxer.Copying? ==> s.lOut <= s.muxer.act)
    ensures var s' := CopyStep(s, n);
            s' == s || (&& s.muxer.Copying? && n <= s.muxer.rest
                        && s' == s.(muxer := Copying(s.muxer.act + n, s.muxer.rest - n),
                                    copied := s.copied + Part(s.stream, s.muxer.act, s.muxer.act + n)))
  {
  }

  lemma BegunGrows(s: seq<byte>, list: seq<Elem>, muxer: Muxer, n: nat)
    requires InFirst(s, list, muxer) && muxer.Copying? && n <= muxer.rest
    ensures Begun(s, list, Copying(muxer.act + n, muxer.rest - n))
            == Begun(s, list, muxer) + Part(s, muxer.act, muxer.act + n)
  {
    PartsJoin(s, list[0].lptr, muxer.act, muxer.act + n);
    hide Part;
  }

  lemma MuxKept(s: State)
    requires Inv(s) && Kept(s)
    ensures Kept(Next(s, Mux))
  {
    NextMuxes(s);
    hide *;
    InvMuxer(s);
    KeptFacts(s);
    MuxMoves(s);
    BegunOn(s.stream, s.taken, s.list, s.muxer, MuxStep(s).muxer);
    KeptBy(MuxStep(s));
  }

  lemma MuxMoves(s: State)
    requires InFirst(s.stream, s.list, s.muxer)
    ensures var s' := MuxStep(s);
            && s'.stream == s.stream && s'.history == s.history && s'.copied == s.copied
            && if s.muxer.Drop? then
                 s'.taken == s.taken + [s.list[0]] && s'.list == s.list[1..] && s'.muxer == Fetch
               else s'.taken == s.taken && s'.list == s.list && MuxerGoes(s.list, s.muxer, s'.muxer)
  {
  }

  /** Where the multiplexer goes from fetching, and from the end of copying. */
  ghost predicate MuxerGoes(list: seq<Elem>, m: Muxer, n: Muxer) {
    || n == m
    || (m.Fetch? && list != [] && n == Copying(list[0].lptr, list[0].len))
    || (m.Copying? && m.rest == 0 && n == Drop)
  }

  lemma BegunOn(s: seq<byte>, taken: seq<Elem>, list: seq<Elem>, m: Muxer, n: Muxer)
    requires InFirst(s, list, m)
    ensures MuxerGoes(list, m, n) ==> Begun(s, list, n) == Begun(s, list, m)
    ensures m.Drop? ==>
              && taken + list == (taken + [list[0]]) + list[1..]
              && BytesOf(s, taken) + Begun(s, list, m)
                 == BytesOf(s, taken + [list[0]]) + Begun(s, list[1..], Fetch)
  {
    hide BytesOf;
    if list != [] {
      PartNothing(s, list[0].lptr);
      BytesMore(s, taken, list[0]);
    }
    hide Part;
  }

  lemma BytesMore(s: seq<byte>, es: seq<Elem>, e: Elem)
    ensures BytesOf(s, es + [e]) == BytesOf(s, es) + Part(s, e.lptr, e.lptr + e.len)
  {
    hide Part;
    assert (es + [e])[..|es|] == es;
  }

  lemma NextMuxes(s: State)
    ensures Next(s, Mux) == MuxStep(s)
  {
  }

  lemma {:induction false} KeptOfRun(steps: seq<Step>)
    ensures Inv(Run(steps)) && Kept(Run(steps))
  {
    InvOfRun(steps);
    if steps == [] {
      RunNothing();
    } else {
      var k := |steps| - 1;
      RunLast(steps);
      hide *;
      KeptOfRun(steps[..k]);
      var s := Run(steps[..k]);
      match steps[k]
      case Produce(data) => ProduceKept(s, data);
      case Parse(hit) => ParseKept(s, hit);
      case Copy(n) => CopyKept(s, n);
      case Mux => MuxKept(s);
    }
  }

  lemma RunNothing()
    ensures Kept(Run([]))
  {
  }

  lemma RunLast(steps: seq<Step>)
    requires steps != []
    ensures Run(steps) == Next(Run(steps[..|steps| - 1]), steps[|steps| - 1])
  {
    hide Next;
  }

  lemma {:induction false} StreamIsReceived(steps: seq<Step>)
    ensures Run(steps).stream == Received(steps)
  {
    if steps != [] {
      StreamIsReceived(steps[..|steps| - 1]);
      StepReceives(Run(steps[..|steps| - 1]), steps[|steps| - 1]);
    }
  }

  lemma StepReceives(s: State, step: Step)
    ensures Next(s, step).stream == s.stream + if step.Produce? then step.data else []
  {
    hide FirstMatch;
    hide StampOf;
    hide Trimmed;
  }

  /**
   In every run the stream is what was received; the pictures taken out of the list are the first ones
   listed, and what the multiplexer has copied are their bytes of the stream and the beginning of the next.
   */
  lemma EveryRunTakes(steps: seq<Step>)
    ensures var s := Run(steps);
            && s.stream == Received(steps)
            && s.history == s.taken + s.list
            && s.copied == BytesOf(s.stream, s.taken) + Begun(s.stream, s.list, s.muxer)
            && (s.list != [] ==>
                  Begun(s.stream, s.list, s.muxer) <= Part(s.stream, s.list[0].lptr, s.list[0].lptr + s.list[0].len))
  {
    hide *;
    StreamIsReceived(steps);
    KeptOfRun(steps);
    var s := Run(steps);
    KeptFacts(s);
    if s.list != [] {
      BegunIsPart(s.stream, s.list, s.muxer);
    }
  }

  lemma BegunIsPart(s: seq<byte>, list: seq<Elem>, muxer: Muxer)
    requires list != [] && Inside(s, list) && InFirst(s, list, muxer)
    ensures Begun(s, list, muxer) <= Part(s, list[0].lptr, list[0].lptr + list[0].len)
  {
    assert list[0] in list;
    if muxer.Copying? {
      PartsJoin(s, list[0].lptr, muxer.act, list[0].lptr + list[0].len);
    }
  }

  // ------------------------------------------------------------------ progress

  lemma RunStep(steps: seq<Step>, step: Step)
    ensures Run(steps + [step]) == Next(Run(steps), step)
  {
    hide Next;
    assert (steps + [step])[..|steps|] == steps;
  }

  /** How many steps the multiplexer needs at most to take the first picture. */
  ghost function StepsLeft(m: Muxer): (n: nat) {
    match m
    case Fetch => 3
    case Copying(_, rest) => if rest > 0 then 2 else 1
    case Drop => 0
  }

  /** The step it takes. */
  ghost function MuxerStep(m: Muxer): (step: Step) {
    if m.Copying? && m.rest > 0 then Copy(m.rest) else Mux
  }

  /** Whatever is listed first, the multiplexer alone can take it. */
  lemma {:induction false} FirstIsTaken(steps: seq<Step>) returns (more: seq<Step>)
    requires Run(steps).list != []
    ensures forall i :: 0 <= i < |more| ==> more[i].Mux? || more[i].Copy?
    ensures var s, s' := Run(steps), Run(steps + more);
            s'.taken == s.taken + [s.list[0]] && s'.list == s.list[1..] && s'.stream == s.stream
    decreases StepsLeft(Run(steps).muxer)
  {
    hide *;
    var s := Run(steps);
    var step := MuxerStep(s.muxer);
    StepOfMuxer(s.muxer);
    RunStep(steps, step);
    KeptOfRun(steps);
    KeptOfRun(steps + [step]);
    KeptFacts(s);
    InvMuxer(s);
    InvMuxer(Run(steps + [step]));
    StepTakes(s);
    more := [step];
    if !s.muxer.Drop? {
      var rest := FirstIsTaken(steps + [step]);
      more := [step] + rest;
      assert steps + more == (steps + [step]) + rest;
    }
  }

  lemma StepOfMuxer(m: Muxer)
    ensures MuxerStep(m).Mux? || MuxerStep(m).Copy?
  {
  }

  lemma StepTakes(s: State)
    requires !s.crashed && s.list != [] && InFirst(s.stream, s.list, s.muxer)
    requires !Next(s, MuxerStep(s.muxer)).crashed
    ensures var s' := Next(s, MuxerStep(s.muxer));
            && s'.stream == s.stream
            && if s.muxer.Drop? then s'.taken == s.taken + [s.list[0]] && s'.list == s.list[1..]
               else s'.list == s.list && s'.taken == s.taken && StepsLeft(s'.muxer) < StepsLeft(s.muxer)
  {
    hide Part;
  }

}
