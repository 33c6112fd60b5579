/**
 Block transfers of the SD/MMC driver over bit-banged port pins, wirings 1 and 4. A card is any
 function of what it has seen at the rising clock edges, so whatever the plain and the optimised
 transfer do alike on the pins they do alike to every card.
 */
module Mmc {

  /** What the card samples at a rising clock edge. */
  datatype Edge = Edge(cs: bool, di: bool)

  /** The level of the card's output pin after these edges. */
  type Card = seq<Edge> -> bool

  const COMMAND_TRIES := 8
  const TOKEN_TRIES := 100000
  const BUSY_TRIES := 1000000
  const BLOCK := 512

  // ------------------------------------------------------------------ port values

  /**
   Which pins of port B are chip select (active low), data to the card and clock; `out` is the card's
   output if it is there too.
   */
  datatype Wiring = Wiring(cs: bv32, di: bv32, clk: bv32, out: bv32)

  /** MMCPB23, MMCPB19, MMCPB22; the output is on port A. */
  const WIRING1 := Wiring(0x0100, 0x1000, 0x0200, 0)

  /** MMCPB16, MMCPB19, MMCPB17, MMCPB18. */
  const WIRING4 := Wiring(0x8000, 0x1000, 0x4000, 0x2000)

  /** The pins are different ones. */
  predicate Apart(w: Wiring) {
    && And(w.cs, w.di) == 0 && And(w.cs, w.clk) == 0 && And(w.di, w.clk) == 0
    && And(w.out, w.cs) == 0 && And(w.out, w.di) == 0 && And(w.out, w.clk) == 0
    && w.cs != 0 && w.di != 0 && w.clk != 0
  }

  lemma WiringsAreApart()
    ensures Apart(WIRING1) && Apart(WIRING4) && WIRING4.out != 0
  {
  }

  /** The pins that the driver drives, and all others. */
  datatype Pins = Pins(cs: bool, di: bool, clk: bool, others: bv32)

  function Rest(w: Wiring): bv32 {
    Clear(Clear(Clear(Clear(0xffff_ffff, w.cs), w.di), w.clk), w.out)
  }

  function View(w: Wiring, p: bv32): Pins {
    Pins(And(p, w.cs) != 0, And(p, w.di) != 0, And(p, w.clk) != 0, And(p, Rest(w)))
  }

  function And(p: bv32, m: bv32): bv32 {
    p & m
  }

  /** `|=` */
  function Set(p: bv32, m: bv32): bv32 {
    p | m
  }

  /** `&= ~` */
  function Clear(p: bv32, m: bv32): bv32 {
    And(p, Not(m))
  }

  lemma SetOther(p: bv32, m: bv32, c: bv32)
    requires And(m, c) == 0
    ensures And(Set(p, m), c) == And(p, c)
  {
  }

  lemma ClearOther(p: bv32, m: bv32, c: bv32)
    requires And(m, c) == 0
    ensures And(Clear(p, m), c) == And(p, c)
  {
  }

  lemma SetSame(p: bv32, m: bv32)
    ensures And(Set(p, m), m) == m
  {
  }

  lemma ClearSame(p: bv32, m: bv32)
    ensures And(Clear(p, m), m) == 0
  {
  }

  lemma ClearKeepsZero(p: bv32, m: bv32, c: bv32)
    requires And(c, p) == 0
    ensures And(c, Clear(p, m)) == 0
  {
    AndAssoc(c, p, Not(m));
    hide And;
    hide Not;
    AndZero(Not(m));
  }

  lemma AndZero(m: bv32)
    ensures And(0, m) == 0
  {
  }

  lemma Outside(w: Wiring)
    ensures And(w.cs, Rest(w)) == 0 && And(w.di, Rest(w)) == 0 && And(w.clk, Rest(w)) == 0 && And(w.out, Rest(w)) == 0
  {
    hide And;
    hide Clear;
    var r1 := Clear(0xffff_ffff, w.cs);
    var r2 := Clear(r1, w.di);
    var r3 := Clear(r2, w.clk);
    ClearSame(0xffff_ffff, w.cs);
    ClearSame(r1, w.di);
    ClearSame(r2, w.clk);
    ClearSame(r3, w.out);
    Symmetric(r1, w.cs);
    Symmetric(r2, w.di);
    Symmetric(r3, w.clk);
    Symmetric(Rest(w), w.out);
    ClearKeepsZero(r1, w.di, w.cs);
    ClearKeepsZero(r2, w.clk, w.cs);
    ClearKeepsZero(r3, w.out, w.cs);
    ClearKeepsZero(r2, w.clk, w.di);
    ClearKeepsZero(r3, w.out, w.di);
    ClearKeepsZero(r3, w.out, w.clk);
  }

  lemma Symmetric(a: bv32, b: bv32)
    ensures And(a, b) == And(b, a)
  {
  }

  lemma DataHighPins(w: Wiring, p: bv32)
    requires Apart(w)
    ensures View(w, Set(p, w.di)) == View(w, p).(di := true)
  {
    hide And;
    hide Set;
    hide Rest;
    Outside(w);
    Symmetric(w.di, w.cs);
    SetOther(p, w.di, w.cs);
    SetSame(p, w.di);
    Symmetric(w.di, w.clk);
    SetOther(p, w.di, w.clk);
    SetOther(p, w.di, Rest(w));
  }

  lemma DataLowPins(w: Wiring, p: bv32)
    requires Apart(w)
    ensures View(w, Clear(p, w.di)) == View(w, p).(di := false)
  {
    hide And;
    hide Clear;
    hide Rest;
    Outside(w);
    Symmetric(w.di, w.cs);
    ClearOther(p, w.di, w.cs);
    ClearSame(p, w.di);
    Symmetric(w.di, w.clk);
    ClearOther(p, w.di, w.clk);
    ClearOther(p, w.di, Rest(w));
  }

  lemma ClockHighPins(w: Wiring, p: bv32)
    requires Apart(w)
    ensures View(w, Set(p, w.clk)) == View(w, p).(clk := true)
  {
    hide And;
    hide Set;
    hide Rest;
    Outside(w);
    Symmetric(w.clk, w.cs);
    SetOther(p, w.clk, w.cs);
    Symmetric(w.clk, w.di);
    SetOther(p, w.clk, w.di);
    SetSame(p, w.clk);
    SetOther(p, w.clk, Rest(w));
  }

  lemma ClockLowPins(w: Wiring, p: bv32)
    requires Apart(w)
    ensures View(w, Clear(p, w.clk)) == View(w, p).(clk := false)
  {
    hide And;
    hide Clear;
    hide Rest;
    Outside(w);
    Symmetric(w.clk, w.cs);
    ClearOther(p, w.clk, w.cs);
    Symmetric(w.clk, w.di);
    ClearOther(p, w.clk, w.di);
    ClearSame(p, w.clk);
    ClearOther(p, w.clk, Rest(w));
  }

  lemma SelectHighPins(w: Wiring, p: bv32)
    requires Apart(w)
    ensures View(w, Set(p, w.cs)) == View(w, p).(cs := true)
  {
    hide And;
    hide Set;
    hide Rest;
    Outside(w);
    SetSame(p, w.cs);
    Symmetric(w.cs, w.di);
    SetOther(p, w.cs, w.di);
    Symmetric(w.cs, w.clk);
    SetOther(p, w.cs, w.clk);
    SetOther(p, w.cs, Rest(w));
  }

  lemma SelectLowPins(w: Wiring, p: bv32)
    requires Apart(w)
    ensures View(w, Clear(p, w.cs)) == View(w, p).(cs := false)
  {
    hide And;
    hide Clear;
    hide Rest;
    Outside(w);
    ClearSame(p, w.cs);
    Symmetric(w.cs, w.di);
    ClearOther(p, w.cs, w.di);
    Symmetric(w.cs, w.clk);
    ClearOther(p, w.cs, w.clk);
    ClearOther(p, w.cs, Rest(w));
  }

  /** `& ~(a | b)` */
  function Clear2(p: bv32, a: bv32, b: bv32): bv32 {
    And(p, Not(Or(a, b)))
  }

  lemma ClearBoth(p: bv32, a: bv32, b: bv32)
    ensures Clear2(p, a, b) == Clear(Clear(p, a), b)
  {
    DeMorgan(a, b);
    AndAssoc(p, Not(a), Not(b));
    hide And;
    hide Not;
    hide Or;
  }

  function Not(a: bv32): bv32 {
    !a
  }

  function Or(a: bv32, b: bv32): bv32 {
    a | b
  }

  lemma DeMorgan(a: bv32, b: bv32)
    ensures Not(Or(a, b)) == And(Not(a), Not(b))
  {
  }

  lemma AndAssoc(p: bv32, a: bv32, b: bv32)
    ensures And(p, And(a, b)) == And(And(p, a), b)
  {
  }

  // ------------------------------------------------------------------ bytes

  predicate Test(b: bv8, mask: bv8) {
    b & mask != 0
  }

  /** The bits of a byte, most significant first. */
  function Bits(b: bv8): (s: seq<bool>)
    ensures |s| == 8
  {
    [Test(b, 0x80), Test(b, 0x40), Test(b, 0x20), Test(b, 0x10),
     Test(b, 0x08), Test(b, 0x04), Test(b, 0x02), Test(b, 0x01)]
  }

  /** The reverse of Bits. */
  function Byte(s: seq<bool>): bv8
    requires |s| == 8
  {
    Weigh(s[0], 0x80) | Weigh(s[1], 0x40) | Weigh(s[2], 0x20) | Weigh(s[3], 0x10)
    | Weigh(s[4], 0x08) | Weigh(s[5], 0x04) | Weigh(s[6], 0x02) | Weigh(s[7], 0x01)
  }

  function Weigh(b: bool, w: bv8): bv8 {
    if b then w else 0
  }

  lemma ByteOfBits(b: bv8)
    ensures Byte(Bits(b)) == b
  {
  }

  // ------------------------------------------------------------------ what a transfer means

  /** One more edge. */
  function More(h: seq<Edge>, cs: bool, d: bool): seq<Edge> {
    h + [Edge(cs, d)]
  }

  /** The card's history after these bits have been clocked in. */
  function Clocked(h: seq<Edge>, cs: bool, bits: seq<bool>): (h': seq<Edge>)
  {
    h + seq(|bits|, i requires 0 <= i < |bits| => Edge(cs, bits[i]))
  }

  /** What the card answers to each of the bits. */
  function Answers(card: Card, h: seq<Edge>, cs: bool, bits: seq<bool>): (s: seq<bool>)
    ensures |s| == |bits|
  {
    seq(|bits|, i requires 0 <= i < |bits| => card(Clocked(h, cs, bits[..i + 1])))
  }

  function Sent(h: seq<Edge>, cs: bool, b: bv8): seq<Edge> {
    Clocked(h, cs, Bits(b))
  }

  function Answer(card: Card, h: seq<Edge>, cs: bool, b: bv8): bv8 {
    Byte(Answers(card, h, cs, Bits(b)))
  }

  /** After sending several bytes. */
  function SentAll(h: seq<Edge>, cs: bool, bytes: seq<bv8>): seq<Edge> {
    if bytes == [] then h
    else Sent(SentAll(h, cs, bytes[..|bytes| - 1]), cs, bytes[|bytes| - 1])
  }

  /** After clocking `n` bytes of ones. */
  function Idle(h: seq<Edge>, cs: bool, n: nat): seq<Edge> {
    if n == 0 then h else Sent(Idle(h, cs, n - 1), cs, 0xff)
  }

  /** The card's answers to `n` bytes of ones. */
  function Received(card: Card, h: seq<Edge>, cs: bool, n: nat): (s: seq<bv8>)
    ensures |s| == n
  {
    if n == 0 then [] else Received(card, h, cs, n - 1) + [Answer(card, Idle(h, cs, n - 1), cs, 0xff)]
  }

  datatype Polled = Polled(hist: seq<Edge>, last: bv8)

  /** Clock bytes of ones until the card answers `want`, at most `n` times. */
  function Poll(card: Card, h: seq<Edge>, cs: bool, n: nat, want: bv8): Polled
    requires n > 0
    decreases n
  {
    var r := Answer(card, h, cs, 0xff);
    if r == want || n == 1 then Polled(Sent(h, cs, 0xff), r)
    else Poll(card, Sent(h, cs, 0xff), cs, n - 1, want)
  }

  /** A command with an address, most significant byte first. */
  function Command(code: bv8, addr: bv32): seq<bv8> {
    [code, ((addr >> 24) & 0xff) as bv8, ((addr >> 16) & 0xff) as bv8, ((addr >> 8) & 0xff) as bv8,
     (addr & 0xff) as bv8]
  }

  datatype Outcome = Outcome(rc: int, data: seq<bv8>, hist: seq<Edge>)

  function Finish(h: seq<Edge>): seq<Edge> {
    Sent(h, true, 0xff)
  }

  /** The command phase: the card's response is the last byte polled. */
  function Commanded(card: Card, h: seq<Edge>, code: bv8, addr: bv32): Polled {
    Poll(card, Idle(SentAll(Idle(h, false, 4), false, Command(code, addr)), false, 1), false, COMMAND_TRIES, 0x00)
  }

  function ReadBlock(card: Card, h: seq<Edge>, addr: bv32): Outcome {
    var c := Commanded(card, h, 0x51, addr);
    if c.last != 0x00 then Outcome(1, [], Finish(c.hist))
    else
      var t := Poll(card, c.hist, false, TOKEN_TRIES, 0xfe);
      if t.last != 0xfe then Outcome(2, [], Finish(t.hist))
      else Outcome(0, Received(card, t.hist, false, BLOCK), Finish(Idle(Idle(t.hist, false, BLOCK), false, 2)))
  }

  function WriteBlock(card: Card, h: seq<Edge>, addr: bv32, data: seq<bv8>): Outcome {
    var c := Commanded(card, h, 0x58, addr);
    if c.last != 0x00 then Outcome(1, [], Finish(c.hist))
    else
      var sent := SentAll(Sent(c.hist, false, 0xfe), false, data);
      var w := Poll(card, Idle(sent, false, 2), false, BUSY_TRIES, 0xff);
      Outcome(if w.last != 0xff then 3 else 0, [], Finish(w.hist))
  }

  lemma ClockedMore(h: seq<Edge>, cs: bool, bits: seq<bool>, k: nat)
    requires k < |bits|
    ensures More(Clocked(h, cs, bits[..k]), cs, bits[k]) == Clocked(h, cs, bits[..k + 1])
  {
  }

  lemma AnswersMore(card: Card, h: seq<Edge>, cs: bool, bits: seq<bool>, k: nat)
    requires k < |bits|
    ensures Answers(card, h, cs, bits[..k]) + [card(Clocked(h, cs, bits[..k + 1]))]
            == Answers(card, h, cs, bits[..k + 1])
  {
    var shorter, longer := bits[..k], bits[..k + 1];
    forall i | 0 <= i < k ensures Answers(card, h, cs, shorter)[i] == Answers(card, h, cs, longer)[i] {
      assert shorter[..i + 1] == longer[..i + 1];
    }
    assert longer[..k + 1] == longer;
  }

  // ------------------------------------------------------------------ what the card can read

  /** The byte in eight edges. */
  function Sampled(edges: seq<Edge>): bv8
    requires |edges| == 8
  {
    Byte(seq(8, i requires 0 <= i < 8 => edges[i].di))
  }

  /** The bytes that a card with the same clock reads from a history that has grown from `n` edges on. */
  function ReadBy(h: seq<Edge>, n: nat): (bytes: seq<bv8>)
    decreases |h|
  {
    if |h| < n + 8 then [] else ReadBy(h[..|h| - 8], n) + [Sampled(h[|h| - 8..])]
  }

  /** A byte sent is the byte a card reads... */
  lemma SentIsRead(h: seq<Edge>, cs: bool, b: bv8)
    ensures |Sent(h, cs, b)| == |h| + 8 && Sent(h, cs, b)[..|h|] == h && Sampled(Sent(h, cs, b)[|h|..]) == b
  {
    hide Bits;
    hide Byte;
    var bits := Bits(b);
    var edges := Sent(h, cs, b)[|h|..];
    assert seq(8, i requires 0 <= i < 8 => edges[i].di) == bits;
    ByteOfBits(b);
  }

  /** ...and so for any number of them. */
  lemma {:induction false} SentAllIsRead(h: seq<Edge>, cs: bool, bytes: seq<bv8>)
    ensures |SentAll(h, cs, bytes)| == |h| + 8 * |bytes| && ReadBy(SentAll(h, cs, bytes), |h|) == bytes
    decreases |bytes|
  {
    hide Sent;
    hide Sampled;
    hide ReadBy;
    if bytes == [] {
      ReadNothing(h);
    } else {
      var k := |bytes| - 1;
      var before := SentAll(h, cs, bytes[..k]);
      SentAllIsRead(h, cs, bytes[..k]);
      SentIsRead(before, cs, bytes[k]);
      ReadOne(before, Sent(before, cs, bytes[k]), |h|);
      assert bytes == bytes[..k] + [bytes[k]];
    }
  }

  lemma ReadNothing(h: seq<Edge>)
    ensures ReadBy(h, |h|) == []
  {
  }

  lemma ReadOne(h: seq<Edge>, h': seq<Edge>, n: nat)
    requires |h'| == |h| + 8 && h'[..|h|] == h && n <= |h|
    ensures ReadBy(h', n) == ReadBy(h, n) + [Sampled(h'[|h|..])]
  {
    hide Sampled;
  }

  // ------------------------------------------------------------------ collecting a byte

  function Mask(k: nat): bv8 {
    if k == 0 then 0x80 else if k == 1 then 0x40 else if k == 2 then 0x20 else if k == 3 then 0x10
    else if k == 4 then 0x08 else if k == 5 then 0x04 else if k == 6 then 0x02 else if k == 7 then 0x01 else 0
  }

  lemma MaskShift(k: nat)
    requires k < 8
    ensures Mask(k) >> 1 == Mask(k + 1) && Mask(k) != 0
  {
  }

  lemma BitAt(b: bv8, k: nat)
    requires k < 8
    ensures Bits(b)[k] <==> Test(b, Mask(k))
  {
    hide Test;
  }

  /** What `result |= i` has collected. */
  function Collected(s: seq<bool>): bv8 {
    if s == [] then 0 else Collected(s[..|s| - 1]) | Weigh(s[|s| - 1], Mask(|s| - 1))
  }

  lemma CollectedMore(s: seq<bool>, a: bool)
    ensures Collected(s + [a]) == Collected(s) | Weigh(a, Mask(|s|))
  {
    assert (s + [a])[..|s|] == s;
  }

  lemma CollectedPrefix(s: seq<bool>, k: nat)
    requires k < |s|
    ensures Collected(s[..k + 1]) == Collected(s[..k]) | Weigh(s[k], Mask(k))
  {
    assert s[..k + 1] == s[..k] + [s[k]];
    CollectedMore(s[..k], s[k]);
  }

  lemma CollectedHalf(s: seq<bool>)
    requires |s| == 8
    ensures Collected(s[..4]) == Weigh(s[0], 0x80) | Weigh(s[1], 0x40) | Weigh(s[2], 0x20) | Weigh(s[3], 0x10)
  {
    CollectedPrefix(s, 0);
    CollectedPrefix(s, 1);
    CollectedPrefix(s, 2);
    CollectedPrefix(s, 3);
    assert Collected(s[..0]) == 0;
    hide Collected;
    hide Weigh;
    assert 0 | Weigh(s[0], 0x80) == Weigh(s[0], 0x80);
  }

  lemma CollectedByte(s: seq<bool>)
    requires |s| == 8
    ensures Collected(s) == Byte(s)
  {
    hide Weigh;
    hide Collected;
    CollectedHalf(s);
    CollectedPrefix(s, 4);
    CollectedPrefix(s, 5);
    CollectedPrefix(s, 6);
    CollectedPrefix(s, 7);
    assert s[..8] == s;
  }

  lemma ShiftedByte(s: seq<bool>)
    requires |s| == 8
    ensures Shifted(s) == Byte(s)
  {
  }

  /** What `result <<= 1; result |= bit` has collected. */
  function Shifted(s: seq<bool>): bv8
    requires |s| == 8
  {
    Push(Push(Push(Push(Push(Push(Push(Push(0, s[0]), s[1]), s[2]), s[3]), s[4]), s[5]), s[6]), s[7])
  }

  function Push(r: bv8, b: bool): bv8 {
    (r << 1) | Weigh(b, 0x01)
  }

  lemma SentAllMore(h: seq<Edge>, cs: bool, bytes: seq<bv8>, k: nat)
    requires k < |bytes|
    ensures Sent(SentAll(h, cs, bytes[..k]), cs, bytes[k]) == SentAll(h, cs, bytes[..k + 1])
  {
    assert bytes[..k + 1][..k] == bytes[..k];
  }

  lemma MaskEnd(k: nat)
    requires k <= 8
    ensures Mask(k) == 0 <==> k == 8
  {
  }

  lemma BeforeByte(card: Card, h: seq<Edge>, cs: bool, bits: seq<bool>)
    ensures Clocked(h, cs, bits[..0]) == h && Collected(Answers(card, h, cs, bits[..0])) == 0 && Mask(0) == 0x80
  {
  }

  lemma ByteStep(card: Card, h: seq<Edge>, cs: bool, b: bv8, k: nat)
    requires k < 8
    ensures Mask(k) >> 1 == Mask(k + 1) && Test(b, Mask(k)) == Bits(b)[k]
    ensures var bits := Bits(b);
            && More(Clocked(h, cs, bits[..k]), cs, bits[k]) == Clocked(h, cs, bits[..k + 1])
            && Collected(Answers(card, h, cs, bits[..k])) | Weigh(card(Clocked(h, cs, bits[..k + 1])), Mask(k))
               == Collected(Answers(card, h, cs, bits[..k + 1]))
  {
    hide *;
    MaskShift(k);
    BitAt(b, k);
    var bits := Bits(b);
    ClockedMore(h, cs, bits, k);
    AnswersMore(card, h, cs, bits, k);
    CollectedMore(Answers(card, h, cs, bits[..k]), card(Clocked(h, cs, bits[..k + 1])));
  }

  lemma AfterByte(card: Card, h: seq<Edge>, cs: bool, bits: seq<bool>)
    requires |bits| == 8
    ensures bits[..8] == bits && Collected(Answers(card, h, cs, bits)) == Byte(Answers(card, h, cs, bits))
  {
    CollectedByte(Answers(card, h, cs, bits));
  }

  // ------------------------------------------------------------------ blocks

  /** A read ended with this code, history and data, as the meaning of the operation demands. */
  ghost predicate ReadEffect(card: Card, h: seq<Edge>, addr: bv32, rc: int, hist: seq<Edge>, was: seq<bv8>,
                             data: seq<bv8>) {
    var o := ReadBlock(card, h, addr);
    rc == o.rc && hist == o.hist && data == if o.rc == 0 then o.data else was
  }

  ghost predicate WriteEffect(card: Card, h: seq<Edge>, addr: bv32, data: seq<bv8>, rc: int, hist: seq<Edge>) {
    var o := WriteBlock(card, h, addr, data);
    rc == o.rc && hist == o.hist
  }

  lemma OneByte(card: Card, h: seq<Edge>, cs: bool)
    ensures Idle(h, cs, 1) == Sent(h, cs, 0xff) && Received(card, h, cs, 1) == [Answer(card, h, cs, 0xff)]
  {
    hide Sent;
    hide Answer;
    assert Idle(h, cs, 0) == h && Received(card, h, cs, 0) == [];
  }

  lemma SentAllSnoc(h: seq<Edge>, cs: bool, bytes: seq<bv8>, b: bv8)
    ensures SentAll(h, cs, bytes + [b]) == Sent(SentAll(h, cs, bytes), cs, b)
  {
    assert (bytes + [b])[..|bytes|] == bytes;
  }

  lemma SendOnly(h: seq<Edge>, b: bv8)
    ensures SentAll(h, false, [b]) == Sent(h, false, b)
  {
    hide Sent;
    SentAllSnoc(h, false, [], b);
    assert [] + [b] == [b];
  }

  lemma SendTwo(h: seq<Edge>)
    ensures SentAll(h, false, [0xff, 0xff]) == Idle(h, false, 2)
  {
    hide Sent;
    SendOnly(h, 0xff);
    SentAllSnoc(h, false, [0xff], 0xff);
    assert [0xff] + [0xff] == [0xff as bv8, 0xff];
    hide SentAll;
    assert Idle(h, false, 0) == h && Idle(h, false, 1) == Sent(h, false, 0xff);
  }

  /** The byte of ones behind a command may go out with it. */
  lemma CommandAndOne(h: seq<Edge>, bytes: seq<bv8>, command: seq<bv8>)
    requires bytes == command + [0xff]
    ensures SentAll(h, false, bytes) == Idle(SentAll(h, false, command), false, 1)
  {
    hide Sent;
    SentAllSnoc(h, false, command, 0xff);
    hide SentAll;
    assert Idle(SentAll(h, false, command), false, 0) == SentAll(h, false, command);
  }

  lemma SameTail(a: seq<bv8>, b: seq<bv8>)
    requires |a| == |b| == 8 && a[1..] == b[1..]
    ensures a[5] == b[5] && a[6] == b[6] && a[7] == b[7]
  {
    assert a[5] == a[1..][4] && a[6] == a[1..][5] && a[7] == a[1..][6];
    assert b[5] == b[1..][4] && b[6] == b[1..][5] && b[7] == b[1..][6];
  }

  /** The optimised driver shifts the address down in steps. */
  method FillCommand(buf: array<bv8>, code: bv8, addr: bv32)
    requires 5 <= buf.Length
    modifies buf
    ensures buf[..5] == Command(code, addr) && buf[5..] == old(buf[5..])
  {
    buf[0] := code;
    buf[4] := (0xff & addr) as bv8;
    var a := addr >> 8;
    buf[3] := (0xff & a) as bv8;
    a := a >> 8;
    buf[2] := (0xff & a) as bv8;
    a := a >> 8;
    buf[1] := (0xff & a) as bv8;
  }

  // ------------------------------------------------------------------ unrolled transfers

  /** The four port values prepared by mmc_spi_write_14. */
  datatype Levels = Levels(cldl: bv32, cldh: bv32, chdl: bv32, chdh: bv32)

  ghost predicate LevelsOk(w: Wiring, v: Levels, cs: bool, others: bv32) {
    && View(w, v.cldl) == Pins(cs, false, false, others) && View(w, v.cldh) == Pins(cs, true, false, others)
    && View(w, v.chdl) == Pins(cs, false, true, others) && View(w, v.chdh) == Pins(cs, true, true, others)
  }

  /** The port values that mmc_spi_write_14 prepares. */
  function LevelsFrom(w: Wiring, p: bv32): Levels {
    Levels(Clear2(p, w.di, w.clk), Clear(Set(p, w.di), w.clk), Clear(Set(p, w.clk), w.di), Set(Set(p, w.clk), w.di))
  }

  lemma MakeLevels(w: Wiring, p: bv32, cs: bool, others: bv32)
    requires Apart(w) && View(w, p).cs == cs && View(w, p).others == others
    ensures LevelsOk(w, LevelsFrom(w, p), cs, others)
  {
    hide View;
    hide Set;
    hide Clear;
    hide Apart;
    hide Clear2;
    ClearBoth(p, w.di, w.clk);
    DataLowPins(w, p);
    ClockLowPins(w, Clear(p, w.di));
    DataHighPins(w, p);
    ClockLowPins(w, Set(p, w.di));
    ClockHighPins(w, p);
    DataLowPins(w, Set(p, w.clk));
    DataHighPins(w, Set(p, w.clk));
  }

  lemma SentBits(h: seq<Edge>, cs: bool, b: bv8)
    ensures Sent(h, cs, b)
            == More(More(More(More(More(More(More(More(h, cs, Test(b, 0x80)), cs, Test(b, 0x40)), cs, Test(b, 0x20)),
                 cs, Test(b, 0x10)), cs, Test(b, 0x08)), cs, Test(b, 0x04)), cs, Test(b, 0x02)), cs, Test(b, 0x01))
  {
    hide Test;
    var bits := Bits(b);
    assert bits[0] == Test(b, 0x80) && bits[1] == Test(b, 0x40) && bits[2] == Test(b, 0x20) && bits[3] == Test(b, 0x10);
    assert bits[4] == Test(b, 0x08) && bits[5] == Test(b, 0x04) && bits[6] == Test(b, 0x02) && bits[7] == Test(b, 0x01);
    assert Sent(h, cs, b) == Clocked(h, cs, bits);
    hide Bits;
    ClockedEight(h, cs, bits);
    hide *;
  }

  lemma ClockedEight(h: seq<Edge>, cs: bool, bits: seq<bool>)
    requires |bits| == 8
    ensures Clocked(h, cs, bits)
            == More(More(More(More(More(More(More(More(h, cs, bits[0]), cs, bits[1]), cs, bits[2]), cs, bits[3]),
                 cs, bits[4]), cs, bits[5]), cs, bits[6]), cs, bits[7])
  {
    ClockedFour(h, cs, bits);
    ClockedAll(h, cs, bits);
    hide *;
    ClockedMore(h, cs, bits, 4);
    ClockedMore(h, cs, bits, 5);
    ClockedMore(h, cs, bits, 6);
    ClockedMore(h, cs, bits, 7);
  }

  lemma ClockedAll(h: seq<Edge>, cs: bool, bits: seq<bool>)
    requires |bits| == 8
    ensures Clocked(h, cs, bits[..8]) == Clocked(h, cs, bits)
  {
    assert bits[..8] == bits;
  }

  lemma ClockedFour(h: seq<Edge>, cs: bool, bits: seq<bool>)
    requires |bits| == 8
    ensures Clocked(h, cs, bits[..4]) == More(More(More(More(h, cs, bits[0]), cs, bits[1]), cs, bits[2]), cs, bits[3])
  {
    assert Clocked(h, cs, bits[..0]) == h;
    hide *;
    ClockedMore(h, cs, bits, 0);
    ClockedMore(h, cs, bits, 1);
    ClockedMore(h, cs, bits, 2);
    ClockedMore(h, cs, bits, 3);
  }

  lemma AnswerOnes(card: Card, h: seq<Edge>, cs: bool)
    ensures var e := [Edge(cs, true)];
            && Sent(h, cs, 0xff) == h + e + e + e + e + e + e + e + e
            && Answer(card, h, cs, 0xff)
               == Push(Push(Push(Push(Push(Push(Push(Push(0,
                    card(h + e)), card(h + e + e)), card(h + e + e + e)), card(h + e + e + e + e)),
                    card(h + e + e + e + e + e)), card(h + e + e + e + e + e + e)),
                    card(h + e + e + e + e + e + e + e)), card(h + e + e + e + e + e + e + e + e))
  {
    var e := [Edge(cs, true)];
    var ones := Bits(0xff);
    assert ones == [true, true, true, true, true, true, true, true];
    hide Bits;
    assert Clocked(h, cs, ones[..1]) == h + e;
    assert Clocked(h, cs, ones[..2]) == h + e + e;
    assert Clocked(h, cs, ones[..3]) == h + e + e + e;
    assert Clocked(h, cs, ones[..4]) == h + e + e + e + e;
    assert Clocked(h, cs, ones[..5]) == h + e + e + e + e + e;
    assert Clocked(h, cs, ones[..6]) == h + e + e + e + e + e + e;
    assert Clocked(h, cs, ones[..7]) == h + e + e + e + e + e + e + e;
    assert ones[..8] == ones;
    assert Clocked(h, cs, ones) == h + e + e + e + e + e + e + e + e;
    ShiftedByte(Answers(card, h, cs, ones));
    hide Byte;
    hide Push;
    hide Clocked;
  }

  /** The level of the output pin is none of the driver's pins. */
  lemma OutputPin(w: Wiring, p: bv32)
    ensures Apart(w) ==> View(w, Set(p, w.out)) == View(w, p) && View(w, Clear(p, w.out)) == View(w, p)
    ensures w.out != 0 ==> And(Set(p, w.out), w.out) != 0 && And(Clear(p, w.out), w.out) == 0
  {
    hide And;
    hide Set;
    hide Clear;
    hide Rest;
    SetSame(p, w.out);
    ClearSame(p, w.out);
    Outside(w);
    if Apart(w) {
      SetOther(p, w.out, w.cs);
      SetOther(p, w.out, w.di);
      SetOther(p, w.out, w.clk);
      SetOther(p, w.out, Rest(w));
      ClearOther(p, w.out, w.cs);
      ClearOther(p, w.out, w.di);
      ClearOther(p, w.out, w.clk);
      ClearOther(p, w.out, Rest(w));
    }
  }

  // ------------------------------------------------------------------ the port and the card

  class Spi {
    const card: Card
    const wiring: Wiring
    var pbdat: bv32
    var hist: seq<Edge>

    /** The clock rests low; chip select and the pins of others are as given. */
    ghost predicate Resting(cs: bool, others: bv32)
      reads this
    {
      Apart(wiring) && !View(wiring, pbdat).clk && View(wiring, pbdat).cs == cs && View(wiring, pbdat).others == others
    }

    /** Write the port. The card sees a rising clock edge. */
    method Out(v: bv32)
      modifies this
      ensures pbdat == v
      ensures hist == if !View(wiring, old(pbdat)).clk && View(wiring, v).clk
                      then old(hist) + [Edge(View(wiring, v).cs, View(wiring, v).di)]
                      else old(hist)
    {
      if !View(wiring, pbdat).clk && View(wiring, v).clk {
        hist := hist + [Edge(View(wiring, v).cs, View(wiring, v).di)];
      }
      pbdat := v;
    }

    /** Read the port: where the card's output is on it, that pin shows its level. */
    method Port() returns (p: bv32)
      ensures Apart(wiring) ==> View(wiring, p) == View(wiring, pbdat)
      ensures wiring.out != 0 ==> (And(p, wiring.out) != 0 <==> card(hist))
    {
      hide View;
      hide And;
      hide Set;
      hide Clear;
      hide Apart;
      p := pbdat;
      if wiring.out != 0 {
        p := if card(hist) then Set(pbdat, wiring.out) else Clear(pbdat, wiring.out);
        OutputPin(wiring, pbdat);
      }
    }

    /** Read the card's output, from port A or from port B. */
    method In() returns (bit: bool)
      ensures bit == card(hist)
    {
      if wiring.out == 0 {
        bit := card(hist);
      } else {
        var p := Port();
        bit := And(p, wiring.out) != 0;
      }
    }

    method SelectCard(ghost others: bv32)
      requires Resting(View(wiring, pbdat).cs, others)
      modifies this
      ensures Resting(false, others) && hist == old(hist)
    {
      hide View;
      hide Apart;
      var p := Port();
      SelectLowPins(wiring, p);
      Out(Clear(p, wiring.cs));
    }

    method DeselectCard(ghost others: bv32)
      requires Resting(View(wiring, pbdat).cs, others)
      modifies this
      ensures Resting(true, others) && hist == old(hist)
    {
      hide View;
      hide Apart;
      var p := Port();
      SelectHighPins(wiring, p);
      Out(Set(p, wiring.cs));
    }

    // ---------------------------------------------------------------- plain transfers

    /** One round of mmc_spi_io_1. */
    method ClockBit(d: bool, ghost cs: bool, ghost others: bv32) returns (a: bool)
      requires Resting(cs, others)
      modifies this
      ensures Resting(cs, others) && hist == More(old(hist), cs, d) && a == card(hist)
    {
      hide View;
      hide Apart;
      var p := Port();
      if d {
        DataHighPins(wiring, p);
        Out(Set(p, wiring.di));
      } else {
        DataLowPins(wiring, p);
        Out(Clear(p, wiring.di));
      }
      p := Port();
      ClockHighPins(wiring, p);
      Out(Set(p, wiring.clk));
      a := In();
      p := Port();
      ClockLowPins(wiring, p);
      Out(Clear(p, wiring.clk));
    }

    method SpiIo(b: bv8, ghost cs: bool, ghost others: bv32) returns (result: bv8)
      requires Resting(cs, others)
      modifies this
      ensures Resting(cs, others) && hist == Sent(old(hist), cs, b) && result == Answer(card, old(hist), cs, b)
    {
      hide View;
      hide Bits;
      hide Mask;
      hide Byte;
      hide Answers;
      hide Weigh;
      hide More;
      hide Clocked;
      var i: bv8 := 0x80;
      result := 0;
      ghost var h, bits, k := hist, Bits(b), 0;
      BeforeByte(card, h, cs, bits);
      while i != 0
        invariant k <= 8 && i == Mask(k) && Resting(cs, others) && hist == Clocked(h, cs, bits[..k])
        invariant result == Collected(Answers(card, h, cs, bits[..k]))
        decreases 8 - k
      {
        MaskEnd(k);
        ByteStep(card, h, cs, b, k);
        var a := ClockBit(Test(b, i), cs, others);
        result := result | Weigh(a, i);
        i := i >> 1;
        k := k + 1;
      }
      MaskEnd(k);
      AfterByte(card, h, cs, bits);
    }

    /** Several bytes of ones, with the answers ignored. */
    method IoIdle(n: nat, ghost cs: bool, ghost others: bv32)
      requires Resting(cs, others)
      modifies this
      ensures Resting(cs, others) && hist == Idle(old(hist), cs, n)
    {
      hide Sent;
      hide Answer;
      hide View;
      for i := 0 to n
        invariant Resting(cs, others) && hist == Idle(old(hist), cs, i)
      {
        var r := SpiIo(0xff, cs, others);
      }
    }

    method IoSend(bytes: seq<bv8>, ghost cs: bool, ghost others: bv32)
      requires Resting(cs, others)
      modifies this
      ensures Resting(cs, others) && hist == SentAll(old(hist), cs, bytes)
    {
      hide Sent;
      hide Answer;
      hide View;
      for i := 0 to |bytes|
        invariant Resting(cs, others) && hist == SentAll(old(hist), cs, bytes[..i])
      {
        SentAllMore(old(hist), cs, bytes, i);
        var r := SpiIo(bytes[i], cs, others);
      }
      assert bytes[..|bytes|] == bytes;
    }

    method IoPoll(n: nat, want: bv8, ghost cs: bool, ghost others: bv32) returns (r: bv8)
      requires Resting(cs, others) && n > 0
      modifies this
      ensures Resting(cs, others) && Polled(hist, r) == Poll(card, old(hist), cs, n, want)
    {
      hide Sent;
      hide Answer;
      hide View;
      r := 0;
      for i := 0 to n
        invariant Resting(cs, others)
        invariant Poll(card, old(hist), cs, n, want)
                  == if i < n then Poll(card, hist, cs, n - i, want) else Polled(hist, r)
      {
        r := SpiIo(0xff, cs, others);
        if r == want {
          return;
        }
      }
    }

    method IoReceive(data: array<bv8>, n: nat, ghost cs: bool, ghost others: bv32)
      requires Resting(cs, others) && n <= data.Length
      modifies this, data
      ensures Resting(cs, others) && hist == Idle(old(hist), cs, n)
      ensures data[..n] == Received(card, old(hist), cs, n) && data[n..] == old(data[n..])
    {
      hide Sent;
      hide Answer;
      hide View;
      for i := 0 to n
        invariant Resting(cs, others) && hist == Idle(old(hist), cs, i)
        invariant data[..i] == Received(card, old(hist), cs, i) && data[n..] == old(data[n..])
      {
        var r := SpiIo(0xff, cs, others);
        data[i] := r;
        assert data[..i + 1] == data[..i] + [r];
      }
    }

    // ---------------------------------------------------------------- optimised transfers

    ghost predicate Held(cs: bool, others: bv32)
      reads this
    {
      View(wiring, pbdat).cs == cs && View(wiring, pbdat).others == others
    }

    /** One bit of mmc_spi_write_14; the clock stays high behind it. */
    method WriteBit(d: bool, v: Levels, ghost cs: bool, ghost others: bv32)
      requires Held(cs, others) && LevelsOk(wiring, v, cs, others)
      modifies this
      ensures Held(cs, others) && hist == More(old(hist), cs, d)
    {
      hide View;
      if d {
        Out(v.cldh);
        Out(v.chdh);
      } else {
        Out(v.cldl);
        Out(v.chdl);
      }
    }

    method WriteByte(b: bv8, v: Levels, ghost cs: bool, ghost others: bv32)
      requires Held(cs, others) && LevelsOk(wiring, v, cs, others)
      modifies this
      ensures Held(cs, others) && hist == Sent(old(hist), cs, b)
    {
      hide *;
      SentBits(hist, cs, b);
      WriteBit(Test(b, 0x80), v, cs, others);
      WriteBit(Test(b, 0x40), v, cs, others);
      WriteBit(Test(b, 0x20), v, cs, others);
      WriteBit(Test(b, 0x10), v, cs, others);
      WriteBit(Test(b, 0x08), v, cs, others);
      WriteBit(Test(b, 0x04), v, cs, others);
      WriteBit(Test(b, 0x02), v, cs, others);
      WriteBit(Test(b, 0x01), v, cs, others);
    }

    /** mmc_spi_write_14 */
    method Write14(data: array<bv8>, from: nat, charcnt: nat, ghost cs: bool, ghost others: bv32)
      requires Resting(cs, others) && from + charcnt <= data.Length
      modifies this
      ensures Resting(cs, others) && hist == SentAll(old(hist), cs, data[from..from + charcnt])
    {
      var p := Port();
      var v := LevelsFrom(wiring, p);
      MakeLevels(wiring, p, cs, others);
      ghost var bytes := data[from..from + charcnt];
      hide Sent;
      hide View;
      for i := 0 to charcnt
        invariant Held(cs, others) && hist == SentAll(old(hist), cs, bytes[..i])
      {
        SentAllMore(old(hist), cs, bytes, i);
        WriteByte(data[from + i], v, cs, others);
      }
      assert bytes[..charcnt] == bytes;
      Out(v.cldh);
    }

    /** One bit of mmc_read_multiple_1. */
    method ReadBit(result: bv8, high: bv32, low: bv32, ghost cs: bool, ghost others: bv32) returns (r: bv8)
      requires Resting(cs, others) && View(wiring, high) == Pins(cs, true, true, others)
               && View(wiring, low) == Pins(cs, true, false, others)
      modifies this
      ensures Resting(cs, others) && hist == old(hist) + [Edge(cs, true)] && r == Push(result, card(hist))
    {
      hide View;
      hide Push;
      Out(high);
      var a := In();
      r := Push(result, a);
      Out(low);
    }

    method ReadByte(high: bv32, low: bv32, ghost cs: bool, ghost others: bv32) returns (r: bv8)
      requires Resting(cs, others) && View(wiring, high) == Pins(cs, true, true, others)
               && View(wiring, low) == Pins(cs, true, false, others)
      modifies this
      ensures Resting(cs, others) && hist == Sent(old(hist), cs, 0xff) && r == Answer(card, old(hist), cs, 0xff)
    {
      hide *;
      AnswerOnes(card, hist, cs);
      r := ReadBit(0, high, low, cs, others);
      r := ReadBit(r, high, low, cs, others);
      r := ReadBit(r, high, low, cs, others);
      r := ReadBit(r, high, low, cs, others);
      r := ReadBit(r, high, low, cs, others);
      r := ReadBit(r, high, low, cs, others);
      r := ReadBit(r, high, low, cs, others);
      r := ReadBit(r, high, low, cs, others);
    }

    /** mmc_read_multiple_1 */
    method ReadMultiple(dest: array<bv8>, charcnt: nat, ghost cs: bool, ghost others: bv32)
      requires Resting(cs, others) && charcnt <= dest.Length
      modifies this, dest
      ensures Resting(cs, others) && hist == Idle(old(hist), cs, charcnt)
      ensures dest[..charcnt] == Received(card, old(hist), cs, charcnt) && dest[charcnt..] == old(dest[charcnt..])
    {
      hide Sent;
      hide Answer;
      hide View;
      var p := Port();
      var high, low := LevelsFrom(wiring, p).chdh, LevelsFrom(wiring, p).cldh;
      MakeLevels(wiring, p, cs, others);
      DataHighPins(wiring, p);
      hide LevelsFrom;
      hide Apart;
      Out(Set(p, wiring.di));
      for i := 0 to charcnt
        invariant Resting(cs, others) && hist == Idle(old(hist), cs, i)
        invariant dest[..i] == Received(card, old(hist), cs, i) && dest[charcnt..] == old(dest[charcnt..])
      {
        var r := ReadByte(high, low, cs, others);
        dest[i] := r;
        assert dest[..i + 1] == dest[..i] + [r];
      }
    }

    // ---------------------------------------------------------------- block transfers

    /** The command phase with plain transfers. */
    method CommandPlain(code: bv8, addr: bv32, ghost others: bv32) returns (r: bv8)
      requires Resting(View(wiring, pbdat).cs, others)
      modifies this
      ensures Resting(false, others) && Polled(hist, r) == Commanded(card, old(hist), code, addr)
    {
      assert COMMAND_TRIES > 0;
      hide Poll;
      hide Idle;
      hide SentAll;
      hide Sent;
      hide Received;
      hide Command;
      hide Resting;
      hide COMMAND_TRIES;
      SelectCard(others);
      IoIdle(4, false, others);
      IoSend(Command(code, addr), false, others);
      IoIdle(1, false, others);
      r := IoPoll(COMMAND_TRIES, 0x00, false, others);
    }

    method FinishPlain(ghost others: bv32)
      requires Resting(false, others)
      modifies this
      ensures Resting(true, others) && hist == Finish(old(hist))
    {
      hide Sent;
      hide Answer;
      hide View;
      DeselectCard(others);
      var r := SpiIo(0xff, true, others);
    }

    /** mmc_read_block with opt = 0. */
    method ReadBlockPlain(data: array<bv8>, addr: bv32, ghost others: bv32) returns (rc: int)
      requires Resting(View(wiring, pbdat).cs, others) && data.Length == BLOCK
      modifies this, data
      ensures Resting(true, others) && ReadEffect(card, old(hist), addr, rc, hist, old(data[..]), data[..])
    {
      assert TOKEN_TRIES > 0 && data.Length == BLOCK;
      hide Poll;
      hide Idle;
      hide SentAll;
      hide Sent;
      hide Received;
      hide Command;
      hide Resting;
      hide Commanded;
      hide Finish;
      hide TOKEN_TRIES;
      hide BLOCK;
      var r := CommandPlain(0x51, addr, others);
      if r != 0x00 {
        FinishPlain(others);
        return 1;
      }
      r := IoPoll(TOKEN_TRIES, 0xfe, false, others);
      if r != 0xfe {
        FinishPlain(others);
        return 2;
      }
      IoReceive(data, data.Length, false, others);
      IoIdle(2, false, others);
      FinishPlain(others);
      assert data[..data.Length] == data[..];
      rc := 0;
    }

    /** mmc_write_block with opt = 0. */
    method WriteBlockPlain(data: array<bv8>, addr: bv32, ghost others: bv32) returns (rc: int)
      requires Resting(View(wiring, pbdat).cs, others) && data.Length == BLOCK
      modifies this
      ensures Resting(true, others) && WriteEffect(card, old(hist), addr, data[..], rc, hist)
    {
      assert BUSY_TRIES > 0;
      hide Poll;
      hide Idle;
      hide SentAll;
      hide Sent;
      hide Received;
      hide Command;
      hide Resting;
      hide Commanded;
      hide Finish;
      hide BUSY_TRIES;
      hide BLOCK;
      var r := CommandPlain(0x58, addr, others);
      if r != 0x00 {
        FinishPlain(others);
        return 1;
      }
      r := SpiIo(0xfe, false, others);
      IoSend(data[..], false, others);
      IoIdle(2, false, others);
      r := IoPoll(BUSY_TRIES, 0xff, false, others);
      FinishPlain(others);
      rc := if r != 0xff then 3 else 0;
    }

    /** Reading single bytes until one is `want`. */
    method PollFast(buf: array<bv8>, n: nat, want: bv8, ghost others: bv32)
      requires Resting(false, others) && n > 0 && buf.Length > 0
      modifies this, buf
      ensures Resting(false, others) && Polled(hist, buf[0]) == Poll(card, old(hist), false, n, want)
      ensures buf[1..] == old(buf[1..])
    {
      hide Sent;
      hide Answer;
      hide Received;
      hide Idle;
      hide Resting;
      for i := 0 to n
        invariant Resting(false, others) && buf[1..] == old(buf[1..])
        invariant Poll(card, old(hist), false, n, want)
                  == if i < n then Poll(card, hist, false, n - i, want) else Polled(hist, buf[0])
      {
        OneByte(card, hist, false);
        ReadMultiple(buf, 1, false, others);
        assert buf[0] == buf[..1][0];
        if buf[0] == want {
          return;
        }
      }
    }

    /** The command phase with optimised transfers; `extra` bytes of ones go out with the command. */
    method CommandFast(buf: array<bv8>, code: bv8, addr: bv32, extra: nat, ghost others: bv32)
      requires Resting(View(wiring, pbdat).cs, others) && 5 <= buf.Length
               && (extra == 0 || (extra == 1 && buf.Length == 8))
      modifies this, buf
      ensures Resting(false, others) && Polled(hist, buf[0]) == Commanded(card, old(hist), code, addr)
      ensures extra == 1 ==> buf[5] == 0xff && buf[6] == 0xff && buf[7] == 0xfe
    {
      assert COMMAND_TRIES > 0;
      hide Poll;
      hide Idle;
      hide SentAll;
      hide Sent;
      hide Received;
      hide Command;
      hide Resting;
      hide COMMAND_TRIES;
      SelectCard(others);
      ReadMultiple(buf, 4, false, others);
      FillCommand(buf, code, addr);
      if extra == 1 {
        buf[5], buf[6], buf[7] := 0xff, 0xff, 0xfe;
        CommandAndOne(hist, buf[..6], Command(code, addr));
        Write14(buf, 0, 6, false, others);
      } else {
        Write14(buf, 0, 5, false, others);
        ReadMultiple(buf, 1, false, others);
      }
      ghost var before := buf[..];
      PollFast(buf, COMMAND_TRIES, 0x00, others);
      assert buf[1..] == buf[..][1..] && before[1..] == buf[1..];
      if extra == 1 {
        SameTail(before, buf[..]);
      }
    }

    method FinishFast(buf: array<bv8>, ghost others: bv32)
      requires Resting(false, others) && buf.Length > 0
      modifies this, buf
      ensures Resting(true, others) && hist == Finish(old(hist)) && buf[1..] == old(buf[1..])
    {
      hide Sent;
      hide Received;
      hide View;
      OneByte(card, hist, true);
      hide Idle;
      DeselectCard(others);
      ReadMultiple(buf, 1, true, others);
    }

    /** mmc_read_block with opt = 1. */
    method ReadBlockFast(data: array<bv8>, addr: bv32, ghost others: bv32) returns (rc: int)
      requires Resting(View(wiring, pbdat).cs, others) && data.Length == BLOCK
      modifies this, data
      ensures Resting(true, others) && ReadEffect(card, old(hist), addr, rc, hist, old(data[..]), data[..])
    {
      assert TOKEN_TRIES > 0 && data.Length == BLOCK;
      hide Poll;
      hide Idle;
      hide SentAll;
      hide Sent;
      hide Received;
      hide Command;
      hide Resting;
      hide Commanded;
      hide Finish;
      hide TOKEN_TRIES;
      hide BLOCK;
      var buf := new bv8[5](i => 0);
      CommandFast(buf, 0x51, addr, 0, others);
      if buf[0] != 0x00 {
        FinishFast(buf, others);
        return 1;
      }
      PollFast(buf, TOKEN_TRIES, 0xfe, others);
      if buf[0] != 0xfe {
        FinishFast(buf, others);
        return 2;
      }
      ReadMultiple(data, data.Length, false, others);
      assert data[..data.Length] == data[..];
      ReadMultiple(buf, 2, false, others);
      FinishFast(buf, others);
      rc := 0;
    }

    /** Start token, data and a dummy checksum. */
    method SendData(buf: array<bv8>, data: array<bv8>, ghost others: bv32)
      requires Resting(false, others) && buf.Length == 8 && buf[5] == 0xff && buf[6] == 0xff && buf[7] == 0xfe
      modifies this
      ensures Resting(false, others)
      ensures hist == Idle(SentAll(Sent(old(hist), false, 0xfe), false, data[..]), false, 2)
    {
      hide *;
      SendOnly(hist, 0xfe);
      assert buf[7..7 + 1] == [0xfe];
      Write14(buf, 7, 1, false, others);
      assert data[0..0 + data.Length] == data[..];
      Write14(data, 0, data.Length, false, others);
      SendTwo(hist);
      assert buf[5..5 + 2] == [0xff, 0xff];
      Write14(buf, 5, 2, false, others);
    }

    /** mmc_write_block with opt = 1. */
    method WriteBlockFast(data: array<bv8>, addr: bv32, ghost others: bv32) returns (rc: int)
      requires Resting(View(wiring, pbdat).cs, others) && data.Length == BLOCK
      modifies this
      ensures Resting(true, others) && WriteEffect(card, old(hist), addr, data[..], rc, hist)
    {
      assert BUSY_TRIES > 0;
      hide Poll;
      hide Idle;
      hide SentAll;
      hide Sent;
      hide Received;
      hide Command;
      hide Resting;
      hide Commanded;
      hide Finish;
      hide BUSY_TRIES;
      hide BLOCK;
      var buf := new bv8[8](i => 0);
      CommandFast(buf, 0x58, addr, 1, others);
      if buf[0] != 0x00 {
        FinishFast(buf, others);
        return 1;
      }
      SendData(buf, data, others);
      PollFast(buf, BUSY_TRIES, 0xff, others);
      rc := if buf[0] != 0xff then 3 else 0;
      FinishFast(buf, others);
    }
  }
}