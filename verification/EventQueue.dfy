/**
 The broadcast queues of the event driver: up to five open files, each with a filter and a ring of
 32 events, against queues that are plain sequences.
 */
module EventQueue {

  const EVENTBUFFERSIZE := 32
  const MAX_EVENT_OPEN := 5
  const EVENT_SIZE := 4
  const ALL: bv32 := 0xffff_ffff

  datatype Event = Event(event: bv32)

  predicate Matches(e: Event, filter: bv32) {
    e.event & filter != 0
  }

  // ------------------------------------------------------------------ one ring

  datatype Ring = Ring(filter: bv32, cells: seq<Event>, free: nat, ptr: nat, readPtr: nat)

  function Wrap(i: nat): nat {
    if i >= EVENTBUFFERSIZE then i - EVENTBUFFERSIZE else i
  }

  ghost predicate RingOk(r: Ring) {
    && |r.cells| == EVENTBUFFERSIZE && r.free <= EVENTBUFFERSIZE
    && r.ptr < EVENTBUFFERSIZE && r.readPtr < EVENTBUFFERSIZE
    && r.ptr == Wrap(r.readPtr + (EVENTBUFFERSIZE - r.free))
  }

  /** The queued events, oldest first. */
  ghost function Queue(r: Ring): (q: seq<Event>)
    requires RingOk(r)
    ensures |q| + r.free == EVENTBUFFERSIZE
  {
    seq(EVENTBUFFERSIZE - r.free, k requires 0 <= k < EVENTBUFFERSIZE - r.free => r.cells[Wrap(r.readPtr + k)])
  }

  function Bump(i: nat): nat {
    if i + 1 == EVENTBUFFERSIZE then 0 else i + 1
  }

  /** The body of event_write_message for one file and one event. */
  function Push(r: Ring, e: Event): Ring
    requires |r.cells| == EVENTBUFFERSIZE && r.ptr < EVENTBUFFERSIZE
  {
    if r.free > 0 && Matches(e, r.filter) then
      r.(free := r.free - 1, cells := r.cells[r.ptr := e], ptr := Bump(r.ptr))
    else r
  }

  function Pop(r: Ring): Ring {
    r.(free := r.free + 1, readPtr := Bump(r.readPtr))
  }

  lemma PushQueue(r: Ring, e: Event)
    requires RingOk(r)
    ensures RingOk(Push(r, e)) && Push(r, e).filter == r.filter
    ensures Queue(Push(r, e)) == Queue(r) + if r.free > 0 && Matches(e, r.filter) then [e] else []
  {
    hide Matches;
    var s := Push(r, e);
    if s != r {
      forall k | 0 <= k < |Queue(r)| ensures Queue(s)[k] == Queue(r)[k] {
        assert Wrap(r.readPtr + k) != r.ptr;
      }
      assert Queue(s)[|Queue(r)|] == e;
    }
  }

  lemma PopQueue(r: Ring)
    requires RingOk(r) && r.free < EVENTBUFFERSIZE
    ensures RingOk(Pop(r)) && Queue(r) == [r.cells[r.readPtr]] + Queue(Pop(r))
  {
    assert Wrap(r.readPtr + 0) == r.readPtr;
    assert Queue(r)[0] == r.cells[r.readPtr];
    forall k | 0 <= k < |Queue(Pop(r))| ensures Queue(Pop(r))[k] == Queue(r)[k + 1] {
      assert Wrap(Bump(r.readPtr) + k) == Wrap(r.readPtr + (k + 1));
    }
  }

  // ------------------------------------------------------------------ the driver as it should be

  /** An open file: its filter, what is queued, and all it has ever received. */
  datatype File = File(filter: bv32, queue: seq<Event>, received: seq<Event>)

  type Files = map<nat, File>

  datatype Op = Open(f: nat) | Close(f: nat) | SetFilter(f: nat, mask: bv32) | Write(e: Event) | Read(f: nat)

  /** An event reaches a file that is interested and has fewer than 32 events waiting. */
  ghost function Offer(x: File, e: Event): File {
    if |x.queue| < EVENTBUFFERSIZE && Matches(e, x.filter) then x.(queue := x.queue + [e]) else x
  }

  ghost function Receive(x: File): File {
    if x.queue == [] then x else x.(queue := x.queue[1..], received := x.received + [x.queue[0]])
  }

  ghost function Step(s: Files, op: Op): Files {
    match op
    case Open(f) => s[f := File(ALL, [], [])]
    case Close(f) => s - {f}
    case SetFilter(f, mask) => if f in s then s[f := s[f].(filter := mask)] else s
    case Write(e) => map f | f in s :: Offer(s[f], e)
    case Read(f) => if f in s then s[f := Receive(s[f])] else s
  }

  ghost function Run(ops: seq<Op>): Files {
    if ops == [] then map[] else Step(Run(ops[..|ops| - 1]), ops[|ops| - 1])
  }

  // ------------------------------------------------------------------ what a reader is entitled to

  /** The filter of a file: the last one set since it was opened. */
  ghost function FilterOf(ops: seq<Op>, f: nat): bv32 {
    if ops == [] then ALL
    else
      var op := ops[|ops| - 1];
      if op == Open(f) then ALL
      else if op.SetFilter? && op.f == f then op.mask
      else FilterOf(ops[..|ops| - 1], f)
  }

  /** How many events a reader has taken since the file was opened: a read takes one if one is left. */
  ghost function Taken(ops: seq<Op>, f: nat): (n: nat)
    ensures n <= |Entitled(ops, f)|
    decreases |ops|, 1
  {
    if ops == [] || ops[|ops| - 1] == Open(f) then 0
    else
      var before := ops[..|ops| - 1];
      if ops[|ops| - 1] == Read(f) && Taken(before, f) < |Entitled(before, f)| then Taken(before, f) + 1
      else Taken(before, f)
  }

  /** The events written since the file was opened that matched its filter then, unless 32 were waiting. */
  ghost function Entitled(ops: seq<Op>, f: nat): (es: seq<Event>)
    decreases |ops|, 0
  {
    if ops == [] || ops[|ops| - 1] == Open(f) then []
    else
      var before, op := ops[..|ops| - 1], ops[|ops| - 1];
      var waiting := |Entitled(before, f)| - Taken(before, f);
      if op.Write? && Matches(op.e, FilterOf(before, f)) && waiting < EVENTBUFFERSIZE then Entitled(before, f) + [op.e]
      else Entitled(before, f)
  }

  /** All events written since the file was opened that matched its filter then. */
  ghost function Interesting(ops: seq<Op>, f: nat): (es: seq<Event>) {
    if ops == [] || ops[|ops| - 1] == Open(f) then []
    else
      var before, op := ops[..|ops| - 1], ops[|ops| - 1];
      Interesting(before, f) + if op.Write? && Matches(op.e, FilterOf(before, f)) then [op.e] else []
  }

  /** The reader has received the first `n` of the events, and the others are queued. */
  ghost predicate Served(x: File, filter: bv32, es: seq<Event>, n: nat) {
    && n <= |es| <= n + EVENTBUFFERSIZE && x.filter == filter && x.received == es[..n] && x.queue == es[n..]
  }

  lemma ServedOffer(x: File, es: seq<Event>, n: nat, e: Event)
    requires Served(x, x.filter, es, n)
    ensures Served(Offer(x, e), x.filter,
                   if Matches(e, x.filter) && |es| - n < EVENTBUFFERSIZE then es + [e] else es, n)
  {
    hide Matches;
    assert (es + [e])[..n] == es[..n] && (es + [e])[n..] == es[n..] + [e];
  }

  lemma ServedReceive(x: File, es: seq<Event>, n: nat)
    requires Served(x, x.filter, es, n)
    ensures Served(Receive(x), x.filter, es, if n < |es| then n + 1 else n)
  {
    if n < |es| {
      assert es[..n + 1] == es[..n] + [es[n]] && es[n..][1..] == es[n + 1..];
    }
  }

  /** In every run a reader has received, in order, the first of the events it is entitled to; the rest is queued. */
  lemma {:induction false} ReceivedInOrder(ops: seq<Op>, f: nat)
    requires f in Run(ops)
    ensures Served(Run(ops)[f], FilterOf(ops, f), Entitled(ops, f), Taken(ops, f))
    decreases |ops|
  {
    var before, op := ops[..|ops| - 1], ops[|ops| - 1];
    if op != Open(f) {
      assert f in Run(before);
      ReceivedInOrder(before, f);
      var x := Run(before)[f];
      assert x.filter == FilterOf(before, f);
      assert Served(x, x.filter, Entitled(before, f), Taken(before, f));
      hide Served;
      hide Matches;
      match op
      case Write(e) =>
        ServedOffer(x, Entitled(before, f), Taken(before, f), e);
        hide Offer;
      case Read(g) =>
        ServedReceive(x, Entitled(before, f), Taken(before, f));
        hide Receive;
      case SetFilter(g, mask) =>
        ServedFilter(x, Entitled(before, f), Taken(before, f), mask);
      case _ =>
    }
  }

  lemma ServedFilter(x: File, es: seq<Event>, n: nat, mask: bv32)
    requires Served(x, x.filter, es, n)
    ensures Served(x.(filter := mask), mask, es, n)
  {
  }

  /** Nothing interesting is lost as long as no more than 32 such events have been written. */
  lemma {:induction false} NothingLost(ops: seq<Op>, f: nat)
    requires |Interesting(ops, f)| <= EVENTBUFFERSIZE
    ensures Entitled(ops, f) == Interesting(ops, f)
    decreases |ops|
  {
    hide Matches;
    if ops != [] && ops[|ops| - 1] != Open(f) {
      NothingLost(ops[..|ops| - 1], f);
    }
  }

  // ------------------------------------------------------------------ the slot table

  /** A slot of event_private; `file` stands for the address of the private data. */
  datatype Slot = Empty | Used(file: nat, ring: Ring)

  function Occupied(slots: seq<Slot>): (n: nat)
    ensures n <= |slots|
  {
    if slots == [] then 0 else Occupied(slots[..|slots| - 1]) + if slots[|slots| - 1].Used? then 1 else 0
  }

  lemma {:induction false} AllOccupied(slots: seq<Slot>)
    requires forall i :: 0 <= i < |slots| ==> slots[i].Used?
    ensures Occupied(slots) == |slots|
    decreases |slots|
  {
    if slots != [] {
      AllOccupied(slots[..|slots| - 1]);
    }
  }

  lemma {:induction false} OccupiedUpdate(slots: seq<Slot>, i: nat, x: Slot)
    requires i < |slots|
    ensures Occupied(slots[i := x]) == Occupied(slots) - (if slots[i].Used? then 1 else 0) + if x.Used? then 1 else 0
    decreases |slots|
  {
    var k := |slots| - 1;
    var t := slots[i := x];
    assert t[k] == if i == k then x else slots[k];
    if i == k {
      assert t[..k] == slots[..k];
    } else {
      assert t[..k] == slots[..k][i := x];
      OccupiedUpdate(slots[..k], i, x);
    }
  }

  /** A slot agrees with the file it belongs to. */
  ghost predicate Agrees(x: Slot, files: Files) {
    x.Used? ==>
      && x.file in files && RingOk(x.ring)
      && x.ring.filter == files[x.file].filter && Queue(x.ring) == files[x.file].queue
  }

  ghost predicate Distinct(slots: seq<Slot>) {
    forall i, j :: 0 <= i < j < |slots| && slots[i].Used? && slots[j].Used? ==> slots[i].file != slots[j].file
  }

  /** The slot table represents these files. */
  ghost predicate Represents(slots: seq<Slot>, files: Files) {
    && |slots| == MAX_EVENT_OPEN && Distinct(slots)
    && (forall i :: 0 <= i < |slots| ==> Agrees(slots[i], files))
    && (forall f :: f in files ==> exists i :: 0 <= i < |slots| && slots[i].Used? && slots[i].file == f)
  }

  /** All files have addresses below `n`. */
  ghost predicate Below(files: Files, n: nat) {
    forall f :: f in files ==> f < n
  }

  lemma BelowStep(files: Files, op: Op, n: nat, n': nat)
    requires Below(files, n) && n <= n' && (op.Open? ==> op.f < n')
    ensures Below(Step(files, op), n')
  {
    hide Offer;
    hide Receive;
  }

  /** One more operation, with the slots to match. */
  lemma Done(ops: seq<Op>, op: Op, slots: seq<Slot>, n: nat, n': nat)
    requires Below(Run(ops), n) && n <= n' && (op.Open? ==> op.f < n') && Represents(slots, Step(Run(ops), op))
    ensures Represents(slots, Run(ops + [op])) && Below(Run(ops + [op]), n')
  {
    hide Represents;
    hide Below;
    hide Step;
    RunMore(ops, op);
    BelowStep(Run(ops), op, n, n');
  }

  // ------------------------------------------------------------------ the driver

  datatype Outcome = Got(event: Event) | Invalid | Again | Fault

  class EventDriver {
    var openHandle: int
    var slots: seq<Slot>
    var nextFile: nat          // addresses handed out by kmalloc
    ghost var ops: seq<Op>     // what has been done so far

    ghost predicate Valid()
      reads this
    {
      Represents(slots, Run(ops)) && openHandle == Occupied(slots) && Below(Run(ops), nextFile)
    }

    constructor ()
      ensures Valid() && ops == []
    {
      openHandle, nextFile := 0, 0;
      slots := [Empty, Empty, Empty, Empty, Empty];
      ops := [];
      new;
      assert forall i :: 0 <= i < |slots| ==> slots[i].Empty?;
      NoneOccupied(slots);
    }

    /** Open a file; there is a free slot whenever the handle count allows it. */
    method OpenFile() returns (file: nat, ok: bool)
      requires Valid()
      modifies this
      ensures Valid() && ok == (old(openHandle) < MAX_EVENT_OPEN)
      ensures if ok then ops == old(ops) + [Open(file)] && file !in old(Run(ops)) else ops == old(ops)
    {
      hide Run;
      hide Step;
      hide Agrees;
      if openHandle == MAX_EVENT_OPEN {
        return 0, false;
      }
      file, ok := nextFile, true;
      openHandle := openHandle + 1;
      var i := FindEmpty(slots);
      hide Represents;
      hide Occupied;
      var x := NewSlot(file);
      OccupiedUpdate(slots, i, x);
      RepresentsOpen(slots, Run(ops), i, x);
      Done(ops, Open(file), slots[i := x], nextFile, nextFile + 1);
      slots := slots[i := x];
      nextFile := nextFile + 1;
      ops := ops + [Open(file)];
    }

    method Release(file: nat)
      requires Valid() && file in Run(ops)
      modifies this
      ensures Valid() && ops == old(ops) + [Close(file)]
    {
      hide Run;
      hide Represents;
      hide Occupied;
      hide Below;
      hide Step;
      hide RingOk;
      hide Queue;
      openHandle := openHandle - 1;
      var i := FindSlot(file, ops, slots);
      OccupiedUpdate(slots, i, Empty);
      RepresentsClose(slots, Run(ops), i);
      Done(ops, Close(file), slots[i := Empty], nextFile, nextFile);
      slots := slots[i := Empty];
      ops := ops + [Close(file)];
    }

    method Ioctl(file: nat, mask: bv32)
      requires Valid() && file in Run(ops)
      modifies this
      ensures Valid() && ops == old(ops) + [SetFilter(file, mask)]
    {
      hide Run;
      hide Represents;
      hide Occupied;
      hide Below;
      hide Step;
      hide RingOk;
      hide Queue;
      var i := FindSlot(file, ops, slots);
      RepresentsFilter(slots, Run(ops), i, mask);
      Change(i, slots[i].(ring := slots[i].ring.(filter := mask)), SetFilter(file, mask));
    }

    /** Change a file's ring. */
    method Change(i: nat, x: Slot, ghost op: Op)
      requires Valid() && i < |slots| && slots[i].Used? && x.Used? && !op.Open?
               && Represents(slots[i := x], Step(Run(ops), op))
      modifies this`slots, this`ops
      ensures Valid() && ops == old(ops) + [op]
    {
      hide Run;
      hide Represents;
      hide Occupied;
      hide Below;
      hide Step;
      hide RingOk;
      hide Queue;
      OccupiedUpdate(slots, i, x);
      Done(ops, op, slots[i := x], nextFile, nextFile);
      slots := slots[i := x];
      ops := ops + [op];
    }

    /** Read one event. `size` is the room of the caller, `fault` a failing copy to it. */
    method ReadEvent(file: nat, size: nat, fault: bool) returns (o: Outcome)
      requires Valid() && file in Run(ops)
      modifies this
      ensures Valid()
      ensures ops == if o.Got? then old(ops) + [Read(file)] else old(ops)
      ensures var q := old(Run(ops)[file].queue);
              o == if size < EVENT_SIZE then Invalid else if q == [] then Again else if fault then Fault else Got(q[0])
    {
      if size < EVENT_SIZE {
        return Invalid;
      }
      hide Run;
      hide Represents;
      hide Occupied;
      hide Below;
      hide Step;
      hide RingOk;
      hide Queue;
      var i := FindSlot(file, ops, slots);
      var r := slots[i].ring;
      RepresentsRead(slots, Run(ops), i);
      if r.free == EVENTBUFFERSIZE {
        return Again;
      }
      if fault {
        return Fault;
      }
      o := Got(r.cells[r.readPtr]);
      Change(i, slots[i].(ring := Pop(r)), Read(file));
    }

    /** Offer one event to every open file. */
    method WriteEvent(e: Event)
      requires Valid()
      modifies this
      ensures Valid() && ops == old(ops) + [Write(e)]
    {
      hide Run;
      hide Represents;
      hide Occupied;
      hide Below;
      hide Step;
      hide RingOk;
      hide Queue;
      hide Offered;
      RingsOk(slots, Run(ops));
      var after := OfferAll(slots, e);
      RepresentsWrite(slots, after, Run(ops), e);
      UsedSame(slots, after, e);
      OccupiedSame(slots, after);
      Done(ops, Write(e), after, nextFile, nextFile);
      slots := after;
      ops := ops + [Write(e)];
    }

    method WriteMessage(events: seq<Event>)
      requires Valid()
      modifies this
      ensures Valid() && ops == old(ops) + Writes(events)
    {
      hide *;
      ghost var was := ops;
      assert was + Writes([]) == was;
      assert events[..0] == [];
      for s := 0 to |events|
        invariant Valid() && ops == was + Writes(events[..s])
      {
        WritesMore(was, events, s);
        WriteEvent(events[s]);
      }
      assert events[..|events|] == events;
    }
  }

  lemma WritesMore(ops: seq<Op>, events: seq<Event>, s: nat)
    requires s < |events|
    ensures ops + Writes(events[..s + 1]) == ops + Writes(events[..s]) + [Write(events[s])]
  {
  }

  function NewSlot(file: nat): (x: Slot)
    ensures x.Used? && x.file == file && RingOk(x.ring) && x.ring.filter == ALL && x.ring.free == EVENTBUFFERSIZE
  {
    Used(file, Ring(ALL, seq(EVENTBUFFERSIZE, k => Event(0)), EVENTBUFFERSIZE, 0, 0))
  }

  method FindEmpty(slots: seq<Slot>) returns (i: nat)
    requires |slots| == MAX_EVENT_OPEN && Occupied(slots) < |slots|
    ensures i < |slots| && slots[i].Empty?
  {
    i := 0;
    while i < MAX_EVENT_OPEN && !slots[i].Empty?
      invariant i <= MAX_EVENT_OPEN && forall j :: 0 <= j < i ==> !slots[j].Empty?
    {
      i := i + 1;
    }
    if i == MAX_EVENT_OPEN {
      AllOccupied(slots);
    }
  }

  lemma RingsOk(slots: seq<Slot>, files: Files)
    requires Represents(slots, files)
    ensures |slots| == MAX_EVENT_OPEN && forall j :: 0 <= j < |slots| && slots[j].Used? ==> RingOk(slots[j].ring)
  {
    hide RingOk;
    hide Queue;
    assert forall j :: 0 <= j < |slots| ==> Agrees(slots[j], files);
  }

  lemma UsedSame(was: seq<Slot>, slots: seq<Slot>, e: Event)
    requires |slots| == |was| && forall j :: 0 <= j < |was| && was[j].Used? ==> RingOk(was[j].ring)
    requires forall j :: 0 <= j < |slots| ==> slots[j] == Offered(was[j], e)
    ensures forall j :: 0 <= j < |was| ==> was[j].Used? == slots[j].Used?
  {
    hide RingOk;
    hide Push;
  }

  lemma RepresentsFilter(slots: seq<Slot>, files: Files, i: nat, mask: bv32)
    requires Represents(slots, files) && i < |slots| && slots[i].Used? && slots[i].file in files
    ensures Represents(slots[i := slots[i].(ring := slots[i].ring.(filter := mask))],
                       Step(files, SetFilter(slots[i].file, mask)))
  {
    var x := slots[i].(ring := slots[i].ring.(filter := mask));
    assert Agrees(slots[i], files);
    assert Queue(x.ring) == Queue(slots[i].ring);
    hide Represents;
    RepresentsChange(slots, files, i, x, files[x.file].(filter := mask));
  }

  lemma RepresentsRead(slots: seq<Slot>, files: Files, i: nat)
    requires Represents(slots, files) && i < |slots| && slots[i].Used? && slots[i].file in files
    ensures var r, q := slots[i].ring, files[slots[i].file].queue;
            && (r.free == EVENTBUFFERSIZE <==> q == [])
            && (q != [] ==> && r.readPtr < |r.cells| && r.cells[r.readPtr] == q[0]
                            && Represents(slots[i := slots[i].(ring := Pop(r))], Step(files, Read(slots[i].file))))
  {
    var r := slots[i].ring;
    assert Agrees(slots[i], files);
    hide Represents;
    if r.free < EVENTBUFFERSIZE {
      PopQueue(r);
      RepresentsChange(slots, files, i, slots[i].(ring := Pop(r)), Receive(files[slots[i].file]));
    }
  }

  /** The slot of an open file. */
  method FindSlot(file: nat, ghost ops: seq<Op>, slots: seq<Slot>) returns (i: nat)
    requires Represents(slots, Run(ops)) && file in Run(ops)
    ensures i < |slots| && slots[i].Used? && slots[i].file == file
  {
    i := 0;
    while i < MAX_EVENT_OPEN && !(slots[i].Used? && slots[i].file == file)
      invariant i <= MAX_EVENT_OPEN
      invariant forall j :: 0 <= j < i ==> !(slots[j].Used? && slots[j].file == file)
    {
      i := i + 1;
    }
  }

  method OfferAll(was: seq<Slot>, e: Event) returns (slots: seq<Slot>)
    requires |was| == MAX_EVENT_OPEN && forall j :: 0 <= j < |was| && was[j].Used? ==> RingOk(was[j].ring)
    ensures |slots| == |was| && forall j :: 0 <= j < |slots| ==> slots[j] == Offered(was[j], e)
  {
    slots := was;
    hide Push;
    for i := 0 to MAX_EVENT_OPEN
      invariant |slots| == |was|
      invariant forall j :: 0 <= j < |slots| ==> slots[j] == if j < i then Offered(was[j], e) else was[j]
    {
      if slots[i].Used? {
        slots := slots[i := Used(slots[i].file, Push(slots[i].ring, e))];
      }
    }
  }

  function Writes(events: seq<Event>): (ws: seq<Op>)
    ensures |ws| == |events|
  {
    seq(|events|, i requires 0 <= i < |events| => Write(events[i]))
  }

  /** A slot after an event was offered to it. */
  ghost function Offered(x: Slot, e: Event): Slot
    requires x.Used? ==> RingOk(x.ring)
  {
    if x.Used? then Used(x.file, Push(x.ring, e)) else x
  }

  lemma {:induction false} NoneOccupied(slots: seq<Slot>)
    requires forall i :: 0 <= i < |slots| ==> slots[i].Empty?
    ensures Occupied(slots) == 0
    decreases |slots|
  {
    if slots != [] {
      NoneOccupied(slots[..|slots| - 1]);
    }
  }

  lemma RunMore(ops: seq<Op>, op: Op)
    ensures Run(ops + [op]) == Step(Run(ops), op)
  {
    assert (ops + [op])[..|ops|] == ops;
  }

  lemma RepresentsOpen(slots: seq<Slot>, files: Files, i: nat, x: Slot)
    requires Represents(slots, files) && i < |slots| && slots[i].Empty? && x.Used? && x.file !in files
    requires RingOk(x.ring) && x.ring.filter == ALL && x.ring.free == EVENTBUFFERSIZE
    ensures Represents(slots[i := x], Step(files, Open(x.file)))
  {
    var s, t := slots[i := x], Step(files, Open(x.file));
    assert Queue(x.ring) == [];
    forall f | f in t ensures exists j :: 0 <= j < |s| && s[j].Used? && s[j].file == f {
      if f == x.file {
        assert s[i].file == f;
      } else {
        var j :| 0 <= j < |slots| && slots[j].Used? && slots[j].file == f;
        assert s[j].file == f;
      }
    }
    assert forall j :: 0 <= j < |slots| && slots[j].Used? ==> slots[j].file in files;
  }

  lemma RepresentsClose(slots: seq<Slot>, files: Files, i: nat)
    requires Represents(slots, files) && i < |slots| && slots[i].Used?
    ensures Represents(slots[i := Empty], Step(files, Close(slots[i].file)))
  {
    var f0 := slots[i].file;
    var s, t := slots[i := Empty], Step(files, Close(f0));
    forall f | f in t ensures exists j :: 0 <= j < |s| && s[j].Used? && s[j].file == f {
      var j :| 0 <= j < |slots| && slots[j].Used? && slots[j].file == f;
      assert s[j].file == f;
    }
    forall j | 0 <= j < |s| ensures Agrees(s[j], t) {
      assert Agrees(slots[j], files);
    }
  }

  /** One file and its slot change together. */
  lemma RepresentsChange(slots: seq<Slot>, files: Files, i: nat, x: Slot, y: File)
    requires Represents(slots, files) && i < |slots| && slots[i].Used? && x.Used? && x.file == slots[i].file
    requires RingOk(x.ring) && x.ring.filter == y.filter && Queue(x.ring) == y.queue
    ensures Represents(slots[i := x], files[x.file := y])
  {
    var s, t := slots[i := x], files[x.file := y];
    assert Agrees(slots[i], files);
    forall f | f in t ensures exists j :: 0 <= j < |s| && s[j].Used? && s[j].file == f {
      var j :| 0 <= j < |slots| && slots[j].Used? && slots[j].file == f;
      assert s[j].file == f;
    }
    forall j | 0 <= j < |s| ensures Agrees(s[j], t) {
      assert Agrees(slots[j], files);
    }
  }

  lemma RepresentsWrite(was: seq<Slot>, slots: seq<Slot>, files: Files, e: Event)
    requires Represents(was, files) && |slots| == |was|
    requires forall j :: 0 <= j < |was| && was[j].Used? ==> RingOk(was[j].ring)
    requires forall j :: 0 <= j < |slots| ==> slots[j] == Offered(was[j], e)
    ensures Represents(slots, Step(files, Write(e)))
  {
    hide Matches;
    hide Push;
    hide Queue;
    hide RingOk;
    var t := Step(files, Write(e));
    forall j | 0 <= j < |slots| ensures Agrees(slots[j], t) {
      assert Agrees(was[j], files);
      if was[j].Used? {
        PushQueue(was[j].ring, e);
      }
    }
    forall f | f in t ensures exists j :: 0 <= j < |slots| && slots[j].Used? && slots[j].file == f {
      var j :| 0 <= j < |was| && was[j].Used? && was[j].file == f;
      assert slots[j].file == f;
    }
  }

  lemma {:induction false} OccupiedSame(a: seq<Slot>, b: seq<Slot>)
    requires |a| == |b| && forall j :: 0 <= j < |a| ==> a[j].Used? == b[j].Used?
    ensures Occupied(a) == Occupied(b)
    decreases |a|
  {
    if a != [] {
      OccupiedSame(a[..|a| - 1], b[..|a| - 1]);
    }
  }
}
