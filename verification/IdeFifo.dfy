/**
 Block transfers of the IDE driver through the CPLD. The CPLD is the environment: between any two
 bus accesses it moves as many words as it likes between its four-word FIFO and the drive, as long
 as its mode and the FIFO allow. `eager` is that free choice; `soon` says that it never stops for ever.
 */
module IdeFifo {

  import opened Arithmetic
  import opened Bytes

  const FIFO_SIZE := 4
  const FULL := 0xf
  const MAX_WAIT_FOR_FIFO_EMPTY := 1000

  /** Off: no bus cycles. Once: one word is still to be read. Reading and Writing repeat by themselves. */
  datatype Mode = Off | Once | Reading | Writing

  /** The words with numbers `a` to `b - 1` that the drive delivers. */
  function Words(drive: nat -> word, a: nat, b: nat): (s: seq<word>)
    requires a <= b
    ensures |s| == b - a
  {
    seq(b - a, i requires 0 <= i < b - a => drive(a + i))
  }

  lemma WordsSplit(drive: nat -> word, a: nat, m: nat, b: nat)
    requires a <= m <= b
    ensures Words(drive, a, b) == Words(drive, a, m) + Words(drive, m, b)
  {
  }

  /** The words that a block read takes off the drive. */
  function Taken(count: nat): nat {
    if count < 4 then count else RoundUp(count)
  }

  function RoundUp(count: nat): nat {
    4 * ((count + 3) / 4)
  }

  lemma RoundUpFacts(count: nat)
    ensures count <= RoundUp(count) < count + 4
    ensures count >= 4 ==> RoundUp(count) == 4 + RoundUp(count - 4)
    ensures count >= 8 ==> RoundUp(count) == 8 + RoundUp(count - 8)
    ensures 0 < count <= 4 ==> RoundUp(count) == 4
  {
  }

  lemma BlittedNothing(b: seq<word>)
    ensures Blitted(b, 0, []) == b
  {
  }

  lemma BlittedMore(b: seq<word>, v: seq<word>, w: seq<word>)
    requires |v| + |w| <= |b|
    ensures Blitted(Blitted(b, 0, v), |v|, w) == Blitted(b, 0, v + w)
  {
    var s := Blitted(b, 0, v);
    assert s[..|v|] == v;
    assert s[|v| + |w|..] == b[|v| + |w|..];
  }

  // ------------------------------------------------------------------ the loop counter of block writes

  /** Unsigned 32-bit subtraction. */
  function Less4(n: nat): (m: nat)
    requires n < 0x1_0000_0000
    ensures m < 0x1_0000_0000 && m % 4 == n % 4
  {
    if n < 4 then n + 0x1_0000_0000 - 4 else n - 4
  }

  /** The unsigned 32-bit counter of a block write after `k` rounds. */
  function Left(count: nat, k: nat): (left: nat)
    requires count < 0x1_0000_0000
    ensures left < 0x1_0000_0000
  {
    if k == 0 then count else Less4(Left(count, k - 1))
  }

  lemma {:induction false} LeftExactly(count: nat, k: nat)
    requires count < 0x1_0000_0000
    ensures Left(count, k) % 4 == count % 4
    ensures 4 * k <= count ==> Left(count, k) == count - 4 * k
  {
    if k > 0 {
      LeftExactly(count, k - 1);
    }
  }

  /** The loop `while (count > 0)` ends if and only if the count is a multiple of four. */
  lemma OutswStops(count: nat)
    requires count < 0x1_0000_0000
    ensures (exists k :: Left(count, k) == 0) <==> count % 4 == 0
  {
    if count % 4 == 0 {
      LeftExactly(count, count / 4);
      assert Left(count, count / 4) == 0;
    } else {
      forall k: nat ensures Left(count, k) != 0 {
        LeftExactly(count, k);
      }
    }
  }

  class Cpld {
    const drive: nat -> word
    const eager: nat -> nat
    ghost const soon: nat -> nat
    var time: nat
    var mode: Mode
    var fifo: seq<word>
    var drawn: nat            // words read from the drive so far
    var received: seq<word>   // words written to the drive so far

    /** How many words the CPLD may still move before it has to pause. */
    function Room(): nat
      reads this
    {
      match mode
      case Off => 0
      case Once => if fifo == [] then 1 else 0
      case Reading => if |fifo| < FIFO_SIZE then FIFO_SIZE - |fifo| else 0
      case Writing => |fifo|
    }

    ghost predicate Fair()
      reads this
    {
      forall t: nat :: t <= soon(t) && eager(soon(t)) > 0
    }

    /** The FIFO holds the last words drawn. */
    ghost predicate Reads()
      reads this
    {
      && !mode.Writing? && Fair() && |fifo| <= FIFO_SIZE && |fifo| <= drawn
      && fifo == Words(drive, drawn - |fifo|, drawn)
    }

    /** Words drawn and fetched by the processor. */
    ghost function Fetched(): int
      reads this
    {
      drawn - |fifo|
    }

    /** The FIFO holds words that the drive has not received yet. */
    ghost predicate Writes()
      reads this
    {
      mode.Writing? && Fair() && |fifo| <= FIFO_SIZE
    }

    /** The CPLD at work until the next bus access, reading. */
    method Draw()
      requires Reads()
      modifies this`time, this`mode, this`fifo, this`drawn
      ensures Reads() && Fetched() == old(Fetched()) && time == old(time) + 1
      ensures |fifo| == old(|fifo|) + Min(eager(old(time)), old(Room()))
      ensures mode == (if old(mode).Once? && |fifo| > old(|fifo|) then Off else old(mode))
      ensures drawn >= old(drawn)
    {
      var n := Min(eager(time), Room());
      WordsSplit(drive, drawn - |fifo|, drawn, drawn + n);
      fifo := fifo + Words(drive, drawn, drawn + n);
      drawn := drawn + n;
      mode := if mode.Once? && n > 0 then Off else mode;
      time := time + 1;
    }

    /** The CPLD at work until the next bus access, writing. */
    method Drain()
      requires Writes()
      modifies this`time, this`fifo, this`received
      ensures Writes() && received + fifo == old(received + fifo) && time == old(time) + 1
      ensures |fifo| == old(|fifo|) - Min(eager(old(time)), old(|fifo|))
    {
      var n := Min(eager(time), |fifo|);
      received := received + fifo[..n];
      fifo := fifo[n..];
      time := time + 1;
    }

    /** The level field of the status register: one bit per word. */
    function Level(): (level: nat)
      reads this
      ensures |fifo| == FIFO_SIZE ==> level == FULL
      ensures |fifo| < FIFO_SIZE ==> level < FULL
      ensures level == 0 <==> fifo == []
    {
      if |fifo| == 0 then 0 else if |fifo| == 1 then 1 else if |fifo| == 2 then 3 else if |fifo| == 3 then 7 else FULL
    }

    /** Poll until the FIFO is full. */
    method WaitFull()
      requires Reads() && mode.Reading?
      modifies this`time, this`mode, this`fifo, this`drawn
      ensures Reads() && mode.Reading? && |fifo| == FIFO_SIZE && Fetched() == old(Fetched())
      ensures drawn >= old(drawn)
    {
      Draw();
      ghost var goal := soon(time);
      while Level() != FULL
        invariant drawn >= old(drawn)
        invariant Reads() && mode.Reading? && Fetched() == old(Fetched())
        invariant time <= goal && eager(goal) > 0
        decreases FIFO_SIZE - |fifo|, goal - time
      {
        if time == goal {
          goal := soon(time + 1);
        }
        Draw();
      }
    }

    /** Poll until the FIFO is not empty. */
    method WaitWord()
      requires Reads() && (mode.Once? || fifo != [])
      modifies this`time, this`mode, this`fifo, this`drawn
      ensures Reads() && fifo != [] && Fetched() == old(Fetched())
      ensures old(fifo) == [] ==> mode.Off? && |fifo| == 1
      ensures drawn >= old(drawn)
    {
      ghost var goal := soon(time);
      while Level() == 0
        invariant drawn >= old(drawn)
        invariant Reads() && Fetched() == old(Fetched())
        invariant if fifo == [] then mode.Once? else old(fifo) == [] ==> mode.Off? && |fifo| == 1
        invariant time <= goal && eager(goal) > 0
        decreases if fifo == [] then 1 else 0, goal - time
      {
        if time == goal {
          goal := soon(time + 1);
        }
        Draw();
      }
    }

    /** A 32-bit read from the FIFO: the two oldest words, or the last one. */
    method ReadFifo() returns (ws: seq<word>)
      requires Reads() && fifo != [] && !mode.Once?
      modifies this`time, this`mode, this`fifo, this`drawn
      ensures Reads() && mode == old(mode)
      ensures |ws| == Min(2, old(|fifo|)) && Fetched() == old(Fetched()) + |ws|
      ensures ws == Words(drive, old(Fetched()), Fetched())
      ensures old(mode).Off? ==> drawn == old(drawn)
      ensures |fifo| >= old(|fifo|) - |ws|
      ensures drawn >= old(drawn)
    {
      ws := fifo[..Min(2, |fifo|)];
      fifo := fifo[Min(2, |fifo|)..];
      Draw();
    }

    /** Write the control register. */
    method Control(m: Mode)
      requires Reads() && !m.Writing?
      modifies this`time, this`mode, this`fifo, this`drawn
      ensures Reads() && mode == m && Fetched() == old(Fetched())
      ensures old(Room()) == 0 ==> fifo == old(fifo) && drawn == old(drawn)
      ensures drawn >= old(drawn)
    {
      Draw();
      mode := m;
    }

    /** Wait for four words and store them; with `last`, stop the CPLD before fetching them. */
    method Block(dest: array<word>, at: nat, last: bool)
      requires Reads() && mode.Reading? && at + 4 <= dest.Length
      modifies dest, this`time, this`mode, this`fifo, this`drawn
      ensures Reads() && Fetched() == old(Fetched()) + 4
      ensures dest[..] == Blitted(old(dest[..]), at, Words(drive, old(Fetched()), Fetched()))
      ensures if last then mode.Off? && fifo == [] else mode.Reading?
      ensures drawn >= old(drawn)
    {
      WaitFull();
      if last {
        Control(Off);
      }
      ghost var from: nat := Fetched();
      var a := ReadFifo();
      var b := ReadFifo();
      WordsSplit(drive, from, from + 2, from + 4);
      hide Words;
      Blit(dest, at, a + b);
    }

    /** The first `at` words from number `from` on are stored. */
    ghost predicate Progress(dest: array<word>, at: nat, was: seq<word>, from: nat)
      reads this, dest
    {
      && Reads() && at <= dest.Length == |was| && Fetched() == from + at
      && dest[..] == Blitted(was, 0, Words(drive, from, from + at))
    }

    /** A further block behind what has been stored. */
    method MoreBlock(dest: array<word>, at: nat, last: bool, ghost was: seq<word>, ghost from: nat)
      requires Progress(dest, at, was, from) && mode.Reading? && at + 4 <= dest.Length
      modifies dest, this`time, this`mode, this`fifo, this`drawn
      ensures Progress(dest, at + 4, was, from)
      ensures if last then mode.Off? && fifo == [] else mode.Reading?
      ensures drawn >= old(drawn)
    {
      hide Reads;
      hide Words;
      hide Blitted;
      WordsSplit(drive, from, from + at, from + at + 4);
      BlittedMore(was, Words(drive, from, from + at), Words(drive, from + at, from + at + 4));
      Block(dest, at, last);
    }

    /** One 16-bit read. */
    method Inw() returns (w: word)
      requires Reads() && mode.Off? && fifo == []
      modifies this`time, this`mode, this`fifo, this`drawn
      ensures Reads() && mode.Off? && fifo == [] && Fetched() == old(Fetched()) + 1
      ensures w == drive(old(drawn))
      ensures drawn >= old(drawn)
    {
      Control(Off);
      Control(Once);
      WaitWord();
      var ws := ReadFifo();
      w := ws[0];
    }

    /** A further word behind what has been stored. */
    method MoreWord(dest: array<word>, at: nat, ghost was: seq<word>, ghost from: nat)
      requires Progress(dest, at, was, from) && mode.Off? && fifo == [] && at < dest.Length
      modifies dest, this`time, this`mode, this`fifo, this`drawn
      ensures Progress(dest, at + 1, was, from) && mode.Off? && fifo == []
      ensures drawn >= old(drawn)
    {
      assert Words(drive, from + at, from + at + 1) == [drive(from + at)];
      hide Reads;
      hide Words;
      hide Blitted;
      WordsSplit(drive, from, from + at, from + at + 1);
      BlittedMore(was, Words(drive, from, from + at), Words(drive, from + at, from + at + 1));
      var w := Inw();
      Blit(dest, at, [w]);
    }

    /** Fewer than four words are read one by one. */
    method InswShort(dest: array<word>, count: nat)
      requires Reads() && mode.Off? && fifo == [] && count <= dest.Length
      modifies dest, this`time, this`mode, this`fifo, this`drawn
      ensures Progress(dest, count, old(dest[..]), old(drawn)) && mode.Off? && fifo == []
      ensures drawn >= old(drawn)
    {
      ghost var was, from := dest[..], drawn;
      BlittedNothing(was);
      assert Words(drive, from, from + 0) == [];
      assert Progress(dest, 0, was, from);
      hide *;
      for at := 0 to count
        invariant Progress(dest, at, was, from) && mode.Off? && fifo == [] && drawn >= from
      {
        MoreWord(dest, at, was, from);
      }
    }

    /** Switch on reading with repetition. */
    method Start(ghost dest: array<word>)
      requires Reads() && mode.Off? && fifo == []
      modifies this`time, this`mode, this`fifo, this`drawn
      ensures mode.Reading? && Progress(dest, 0, dest[..], old(drawn))
      ensures drawn >= old(drawn)
    {
      BlittedNothing(dest[..]);
      assert Words(drive, drawn, drawn + 0) == [];
      Control(Off);
      Control(Reading);
    }

    /** Reading in blocks of four. */
    method InswLong(dest: array<word>, count: nat)
      requires Reads() && mode.Off? && fifo == [] && 4 <= count && RoundUp(count) <= dest.Length
      modifies dest, this`time, this`mode, this`fifo, this`drawn
      ensures mode.Off? && fifo == [] && Progress(dest, RoundUp(count), old(dest[..]), old(drawn))
      ensures drawn >= old(drawn)
    {
      hide *;
      var left, at := count, 0;
      ghost var was, from := dest[..], drawn;
      Start(dest);
      while left > 16
        invariant drawn >= old(drawn)
        invariant Progress(dest, at, was, from) && mode.Reading?
        invariant left >= 4 && at + RoundUp(left) == RoundUp(count) <= dest.Length
      {
        RoundUpFacts(left);
        MoreBlock(dest, at, false, was, from);
        MoreBlock(dest, at + 4, false, was, from);
        left, at := left - 8, at + 8;
      }
      while left > 4
        invariant drawn >= old(drawn)
        invariant Progress(dest, at, was, from) && mode.Reading?
        invariant left > 0 && at + RoundUp(left) == RoundUp(count) <= dest.Length
      {
        RoundUpFacts(left);
        MoreBlock(dest, at, false, was, from);
        left, at := left - 4, at + 4;
      }
      RoundUpFacts(left);
      MoreBlock(dest, at, true, was, from);
    }

    /**
     Read a block. Whatever the CPLD's timing, the words stored are the drive's next words in order,
     the FIFO is left empty, and exactly `count` words are drawn if and only if that is a multiple
     of four or less than four. No step takes `drawn` back, so it is at no time beyond its final value.
     */
    method Insw(dest: array<word>, count: nat)
      requires Reads() && mode.Off? && fifo == [] && Taken(count) <= dest.Length
      modifies dest, this`time, this`mode, this`fifo, this`drawn
      ensures Reads() && mode.Off? && fifo == [] && drawn == old(drawn) + Taken(count)
      ensures dest[..] == Blitted(old(dest[..]), 0, Words(drive, old(drawn), drawn))
      ensures drawn == old(drawn) + count <==> count < 4 || count % 4 == 0
      ensures drawn >= old(drawn)
    {
      hide Blitted;
      hide Words;
      RoundUpFacts(count);
      if count < 4 {
        InswShort(dest, count);
      } else {
        InswLong(dest, count);
      }
    }

    /** Poll until the FIFO is empty. */
    method WaitEmpty()
      requires Writes()
      modifies this`time, this`fifo, this`received
      ensures Writes() && fifo == [] && received == old(received + fifo)
    {
      Drain();
      ghost var goal := soon(time);
      while Level() != 0
        invariant Writes() && received + fifo == old(received + fifo)
        invariant time <= goal && eager(goal) > 0
        decreases |fifo|, goal - time
      {
        if time == goal {
          goal := soon(time + 1);
        }
        Drain();
      }
      assert received + fifo == received;
    }

    /** wait_for_fifo_empty gives up exactly after so many polls. */
    method WaitEmptyBounded() returns (problem: bool)
      requires Writes()
      modifies this`time, this`fifo, this`received
      ensures Writes() && received + fifo == old(received + fifo) && (!problem ==> fifo == [])
      ensures problem <==> time == old(time) + MAX_WAIT_FOR_FIFO_EMPTY
    {
      var cnt := MAX_WAIT_FOR_FIFO_EMPTY - 1;
      Drain();
      while Level() != 0 && cnt > 0
        invariant Writes() && received + fifo == old(received + fifo)
        invariant 0 <= cnt && time + cnt == old(time) + MAX_WAIT_FOR_FIFO_EMPTY
      {
        cnt := cnt - 1;
        Drain();
      }
      problem := cnt <= 0;
    }

    /** A 32-bit write into the FIFO. */
    method WriteFifo(ws: seq<word>)
      requires Writes() && |ws| == 2 && |fifo| <= 2
      modifies this`time, this`fifo, this`received
      ensures Writes() && received + fifo == old(received + fifo) + ws && |fifo| <= old(|fifo|) + 2
    {
      Drain();
      assert received + (fifo + ws) == received + fifo + ws;
      fifo := fifo + ws;
    }

    /**
     Write a block of a multiple of four words (for other counts lemma OutswStops applies). No word
     is lost, repeated or reordered; if the final wait is not cut short, the drive has received all.
     */
    method Outsw(src: seq<word>) returns (problem: bool)
      requires Reads() && mode.Off? && fifo == [] && |src| % 4 == 0
      modifies this`time, this`mode, this`fifo, this`received
      ensures received + fifo == old(received) + src && mode.Off?
      ensures !problem ==> fifo == [] && received == old(received) + src
    {
      mode := Writing;
      var at := 0;
      assert received + fifo == old(received) + src[..at];
      hide Fair;
      while at < |src|
        invariant Writes() && at <= |src| && at % 4 == 0 && received + fifo == old(received) + src[..at]
      {
        WaitEmpty();
        WriteFifo(src[at..at + 2]);
        WriteFifo(src[at + 2..at + 4]);
        SplitSlice(src, 0, at, at + 2);
        SplitSlice(src, 0, at + 2, at + 4);
        at := at + 4;
      }
      problem := WaitEmptyBounded();
      assert src[..at] == src;
      mode := Off;
    }
  }
}
