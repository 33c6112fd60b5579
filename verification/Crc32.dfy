/**
 CRC-32 in its three forms: the raw bytewise loop of mkfs.jffs2, the unrolled crc32 of mkdnimg, and
 as reference the shift register that takes a message bit by bit.
 */
module Crc32 {

  import opened CrcTable

  type Message = seq<bv8>

  const ONES: bv32 := 0xffff_ffff

  function LowByte(v: bv32): bv8 {
    (v & 0xff) as bv8
  }

  function Wide(b: bv8): bv32 {
    b as bv32
  }

  function Down(v: bv32): bv32 {
    v >> 8
  }

  /** The update common to both programs: the body of the jffs2 loop and the macro DO1. */
  function Update(v: bv32, b: bv8): bv32 {
    Xor(Table(LowByte(Xor(v, Wide(b)))), Down(v))
  }

  /** The raw form of mkfs.jffs2, as a function. */
  function Raw(v: bv32, s: Message): bv32
    decreases |s|
  {
    if s == [] then v else Raw(Update(v, s[0]), s[1..])
  }

  /** The complemented form of mkdnimg, as a function. */
  function Crc(crc: bv32, s: Message): bv32 {
    Xor(Raw(Xor(crc, ONES), s), ONES)
  }

  // ------------------------------------------------------------------ the two programs

  method RawCrc32(val: bv32, s: Message) returns (r: bv32)
    ensures r == Raw(val, s)
  {
    r := val;
    for i := 0 to |s|
      invariant Raw(r, s[i..]) == Raw(val, s)
    {
      assert s[i..][1..] == s[i + 1..];
      r := Update(r, s[i]);
    }
  }

  lemma RawStep(v: bv32, s: Message, i: nat)
    requires i < |s|
    ensures Raw(v, s[i..]) == Raw(Update(v, s[i]), s[i + 1..])
  {
    assert s[i..][1..] == s[i + 1..];
  }

  /** DO1: `s` is the whole message, stored from `from` on. */
  method Do1(v: bv32, buf: array<bv8>, from: nat, at: nat, ghost s: Message) returns (r: bv32)
    requires from + |s| <= buf.Length && s == buf[from..from + |s|] && at < |s|
    ensures Raw(r, s[at + 1..]) == Raw(v, s[at..])
  {
    RawStep(v, s, at);
    r := Update(v, buf[from + at]);
  }

  /** DO8 */
  method Do8(v: bv32, buf: array<bv8>, from: nat, at: nat, ghost s: Message) returns (r: bv32)
    requires from + |s| <= buf.Length && s == buf[from..from + |s|] && at + 8 <= |s|
    ensures Raw(r, s[at + 8..]) == Raw(v, s[at..])
  {
    hide *;
    r := Do1(v, buf, from, at, s);
    r := Do1(r, buf, from, at + 1, s);
    r := Do1(r, buf, from, at + 2, s);
    r := Do1(r, buf, from, at + 3, s);
    r := Do1(r, buf, from, at + 4, s);
    r := Do1(r, buf, from, at + 5, s);
    r := Do1(r, buf, from, at + 6, s);
    r := Do1(r, buf, from, at + 7, s);
  }

  method CrcLoops(v: bv32, buf: array<bv8>, from: nat, len: nat) returns (r: bv32)
    requires from + len <= buf.Length
    ensures r == Raw(v, buf[from..from + len])
  {
    hide *;
    r := v;
    ghost var s := buf[from..from + len];
    var at, left := 0, len;
    RawEnds(r, s);
    while left >= 8
      invariant at + left == len && Raw(r, s[at..]) == Raw(v, s)
    {
      r := Do8(r, buf, from, at, s);
      at, left := at + 8, left - 8;
    }
    while left > 0
      invariant at + left == len && Raw(r, s[at..]) == Raw(v, s)
    {
      r := Do1(r, buf, from, at, s);
      at, left := at + 1, left - 1;
    }
    RawEnds(r, s);
  }

  /** mkdnimg's crc32 on `len` bytes from `from` on; a null pointer gives 0. */
  method UnrolledCrc32(crc: bv32, buf: array?<bv8>, from: nat, len: nat) returns (r: bv32)
    requires buf != null ==> from + len <= buf.Length
    ensures r == if buf == null then 0 else Crc(crc, buf[from..from + len])
  {
    if buf == null {
      return 0;
    }
    hide Raw;
    hide Xor;
    r := CrcLoops(Xor(crc, ONES), buf, from, len);
    r := Xor(r, ONES);
  }

  lemma RawEnds(v: bv32, s: Message)
    ensures Raw(v, s[0..]) == Raw(v, s) && Raw(v, s[|s|..]) == v
  {
    assert s[0..] == s && s[|s|..] == [];
  }

  // ------------------------------------------------------------------ chaining

  lemma {:induction false} RawAppend(v: bv32, a: Message, b: Message)
    ensures Raw(v, a + b) == Raw(Raw(v, a), b)
    decreases |a|
  {
    hide Update;
    if a == [] {
      assert a + b == b;
    } else {
      assert (a + b)[1..] == a[1..] + b;
      RawAppend(Update(v, a[0]), a[1..], b);
    }
  }

  /** The checksum may be computed piece by piece. */
  lemma Chaining(crc: bv32, a: Message, b: Message)
    ensures Crc(Crc(crc, a), b) == Crc(crc, a + b)
  {
    hide Raw;
    hide Xor;
    RawAppend(Xor(crc, ONES), a, b);
    XorCancel(Raw(Xor(crc, ONES), a), ONES);
  }

  // ------------------------------------------------------------------ arithmetic of the register

  lemma XorComm(a: bv32, b: bv32)
    ensures Xor(a, b) == Xor(b, a)
  {
  }

  lemma XorAssoc(a: bv32, b: bv32, c: bv32)
    ensures Xor(Xor(a, b), c) == Xor(a, Xor(b, c))
  {
    assert a ^ b ^ c == a ^ (b ^ c);
  }

  lemma XorZero(a: bv32)
    ensures Xor(a, 0) == Xor(0, a) == a && Xor(a, a) == 0
  {
  }

  lemma XorCancel(a: bv32, b: bv32)
    ensures Xor(Xor(a, b), b) == a
  {
    XorAssoc(a, b, b);
    XorZero(b);
    XorZero(a);
    hide Xor;
  }

  lemma XorPoly(a: bv32, b: bv32)
    ensures Xor(Xor(a, POLY), b) == Xor(Xor(a, b), POLY) == Xor(a, Xor(b, POLY))
    ensures Xor(Xor(a, POLY), Xor(b, POLY)) == Xor(a, b)
  {
    hide Xor;
    hide POLY;
    XorAssoc(a, POLY, b);
    XorComm(POLY, b);
    XorAssoc(a, b, POLY);
    XorAssoc(Xor(a, POLY), b, POLY);
    XorAssoc(Xor(a, b), POLY, POLY);
    XorZero(POLY);
    XorZero(Xor(a, b));
  }

  lemma HalfXor(a: bv32, b: bv32)
    ensures Half(Xor(a, b)) == Xor(Half(a), Half(b))
  {
  }

  lemma OddXor(a: bv32, b: bv32)
    ensures Odd(Xor(a, b)) == (Odd(a) != Odd(b))
  {
    assert (a ^ b) & 1 == (a & 1) ^ (b & 1);
  }

  lemma ShiftLinear(a: bv32, b: bv32)
    ensures Shift(Xor(a, b)) == Xor(Shift(a), Shift(b))
  {
    HalfXor(a, b);
    OddXor(a, b);
    XorPoly(Half(a), Half(b));
    hide Xor;
    hide Half;
    hide Odd;
    hide POLY;
  }

  /** The register never loses information. */
  lemma ShiftToZero(v: bv32)
    requires Shift(v) == 0
    ensures v == 0
  {
  }

  lemma Shift8Linear(a: bv32, b: bv32)
    ensures Shift8(Xor(a, b)) == Xor(Shift8(a), Shift8(b))
  {
    hide Shift;
    hide Xor;
    var a1, b1 := Shift(a), Shift(b);
    var a2, b2 := Shift(a1), Shift(b1);
    var a3, b3 := Shift(a2), Shift(b2);
    var a4, b4 := Shift(a3), Shift(b3);
    var a5, b5 := Shift(a4), Shift(b4);
    var a6, b6 := Shift(a5), Shift(b5);
    var a7, b7 := Shift(a6), Shift(b6);
    ShiftLinear(a, b);
    ShiftLinear(a1, b1);
    ShiftLinear(a2, b2);
    ShiftLinear(a3, b3);
    ShiftLinear(a4, b4);
    ShiftLinear(a5, b5);
    ShiftLinear(a6, b6);
    ShiftLinear(a7, b7);
  }

  function Upper(x: bv32): bv32 {
    x & 0xffff_ff00
  }

  lemma UpperLow(x: bv32)
    ensures Upper(x) & 0xff == 0
  {
  }

  lemma UpperDown(x: bv32)
    ensures Down(Upper(x)) == Down(x)
  {
  }

  lemma Shift8High(x: bv32)
    requires x & 0xff == 0
    ensures Shift8(x) == Down(x)
  {
  }

  lemma Shift8Upper(x: bv32)
    ensures Shift8(Upper(x)) == Down(x)
  {
    hide Shift8;
    hide Upper;
    hide Down;
    UpperLow(x);
    UpperDown(x);
    Shift8High(Upper(x));
  }

  lemma Parts(x: bv32)
    ensures x == Xor(Wide(LowByte(x)), Upper(x))
  {
    assert ((x & 0xff) as bv8) as bv32 == x & 0xff;
  }

  lemma DownKeeps(v: bv32, b: bv8)
    ensures Down(Xor(v, Wide(b))) == Down(v)
  {
  }

  lemma TableWide(i: bv8)
    ensures Table(i) == Shift8(Wide(i))
  {
    TableIsSerial(i);
    hide Table;
    hide Shift8;
  }

  /** The table update is eight steps of the register after exclusive-oring the byte in. */
  lemma UpdateIsSerial(v: bv32, b: bv8)
    ensures Update(v, b) == Shift8(Xor(v, Wide(b)))
  {
    hide Table;
    hide Shift8;
    hide Xor;
    hide Wide;
    hide LowByte;
    hide Down;
    hide Upper;
    var x := Xor(v, Wide(b));
    Parts(x);
    DownKeeps(v, b);
    TableWide(LowByte(x));
    Shift8Upper(x);
    Shift8Linear(Wide(LowByte(x)), Upper(x));
  }

  // ------------------------------------------------------------------ the register taking a message bit by bit

  function Bit(b: bool): bv32 {
    if b then 1 else 0
  }

  /** A message is fed bit by bit, each byte starting with its least significant bit. */
  function FeedBits(v: bv32, bits: seq<bool>): bv32
    decreases |bits|
  {
    if bits == [] then v else FeedBits(Shift(Xor(v, Bit(bits[0]))), bits[1..])
  }

  function BitsOf(w: bv32, n: nat): (bits: seq<bool>)
    ensures |bits| == n
    decreases n
  {
    if n == 0 then [] else [Odd(w)] + BitsOf(Half(w), n - 1)
  }

  function MessageBits(s: Message): seq<bool> {
    if s == [] then [] else BitsOf(Wide(s[0]), 8) + MessageBits(s[1..])
  }

  function Shifts(v: bv32, n: nat): bv32
    decreases n
  {
    if n == 0 then v else Shifts(Shift(v), n - 1)
  }

  function Halves(w: bv32, n: nat): bv32
    decreases n
  {
    if n == 0 then w else Halves(Half(w), n - 1)
  }

  lemma ShiftBit(b: bool)
    ensures Shift(Bit(b)) == if b then POLY else 0
  {
  }

  /** A bit may be exclusive-ored in alone, or together with those that come later. */
  lemma FeedOne(v: bv32, w: bv32)
    ensures Xor(Shift(Xor(v, Bit(Odd(w)))), Half(w)) == Shift(Xor(v, w))
  {
    ShiftBit(Odd(w));
    var sw, hw := Shift(w), Half(w);
    assert sw == if Odd(w) then Xor(hw, POLY) else hw;
    ShiftLinear(v, Bit(Odd(w)));
    ShiftLinear(v, w);
    hide *;
    XorPoly(Shift(v), hw);
    XorZero(Shift(v));
  }

  lemma {:induction false} FeedAtOnce(v: bv32, w: bv32, n: nat)
    ensures FeedBits(v, BitsOf(w, n)) == Xor(Shifts(Xor(v, w), n), Halves(w, n))
    decreases n
  {
    hide Xor;
    hide Shift;
    hide Half;
    hide Odd;
    hide Bit;
    if n == 0 {
      XorCancel(v, w);
    } else {
      assert BitsOf(w, n)[1..] == BitsOf(Half(w), n - 1);
      FeedAtOnce(Shift(Xor(v, Bit(Odd(w)))), Half(w), n - 1);
      FeedOne(v, w);
    }
  }

  lemma {:induction false} FeedAppend(v: bv32, a: seq<bool>, b: seq<bool>)
    ensures FeedBits(v, a + b) == FeedBits(FeedBits(v, a), b)
    decreases |a|
  {
    hide Xor;
    hide Shift;
    hide Bit;
    if a == [] {
      assert a + b == b;
    } else {
      assert (a + b)[1..] == a[1..] + b;
      FeedAppend(Shift(Xor(v, Bit(a[0]))), a[1..], b);
    }
  }

  lemma Shifts8(v: bv32)
    ensures Shifts(v, 8) == Shift8(v)
  {
    hide Shift;
    var v1 := Shift(v);
    var v2 := Shift(v1);
    var v3 := Shift(v2);
    var v4 := Shift(v3);
    var v5 := Shift(v4);
    assert Shifts(v, 8) == Shifts(v1, 7) == Shifts(v2, 6) == Shifts(v3, 5) == Shifts(v4, 4) == Shifts(v5, 3);
  }

  lemma {:induction false} HalvesByte(b: bv8)
    ensures Halves(Wide(b), 8) == 0
  {
    var w := Wide(b);
    var w1 := Half(w);
    var w2 := Half(w1);
    var w3 := Half(w2);
    var w4 := Half(w3);
    var w5 := Half(w4);
    var w6 := Half(w5);
    var w7 := Half(w6);
    assert Half(w7) == 0;
    hide Half;
    assert Halves(w, 8) == Halves(w1, 7) == Halves(w2, 6) == Halves(w3, 5) == Halves(w4, 4) == Halves(w5, 3);
  }

  /** The bytewise form is the bit-serial register. */
  lemma {:induction false} RawIsSerial(v: bv32, s: Message)
    ensures Raw(v, s) == FeedBits(v, MessageBits(s))
    decreases |s|
  {
    hide Update;
    hide Xor;
    hide Shift8;
    hide Wide;
    hide BitsOf;
    hide Shifts;
    hide Halves;
    if s != [] {
      var w := Wide(s[0]);
      UpdateIsSerial(v, s[0]);
      FeedAtOnce(v, w, 8);
      Shifts8(Xor(v, w));
      HalvesByte(s[0]);
      XorZero(Shift8(Xor(v, w)));
      FeedAppend(v, BitsOf(w, 8), MessageBits(s[1..]));
      RawIsSerial(Update(v, s[0]), s[1..]);
    }
  }

  // ------------------------------------------------------------------ error detection

  lemma ShiftInjective(v: bv32, w: bv32)
    requires Shift(v) == Shift(w)
    ensures v == w
  {
    ShiftLinear(v, w);
    XorZero(Shift(v));
    ShiftToZero(Xor(v, w));
    XorEqual(v, w);
  }

  lemma XorEqual(v: bv32, w: bv32)
    requires Xor(v, w) == 0
    ensures v == w
  {
  }

  lemma XorInjective(v: bv32, w: bv32, c: bv32)
    requires Xor(v, c) == Xor(w, c)
    ensures v == w
  {
    hide Xor;
    XorCancel(v, c);
    XorCancel(w, c);
  }

  /** Once two registers differ, no common remainder makes them agree again. */
  lemma {:induction false} FeedInjective(v: bv32, w: bv32, bits: seq<bool>)
    requires FeedBits(v, bits) == FeedBits(w, bits)
    ensures v == w
    decreases |bits|
  {
    hide Xor;
    hide Shift;
    hide Bit;
    if bits != [] {
      var b := Bit(bits[0]);
      FeedInjective(Shift(Xor(v, b)), Shift(Xor(w, b)), bits[1..]);
      ShiftInjective(Xor(v, b), Xor(w, b));
      XorInjective(v, w, b);
    }
  }

  lemma {:induction false} ShiftsToZero(v: bv32, n: nat)
    requires Shifts(v, n) == 0
    ensures v == 0
    decreases n
  {
    hide Shift;
    if n > 0 {
      ShiftsToZero(Shift(v), n - 1);
      ShiftToZero(v);
    }
  }

  /** A message with some of its bits inverted. */
  function Flipped(bits: seq<bool>, error: seq<bool>): (r: seq<bool>)
    requires |bits| == |error|
    ensures |r| == |bits|
  {
    if bits == [] then [] else [bits[0] != error[0]] + Flipped(bits[1..], error[1..])
  }

  lemma BitXor(v: bv32, w: bv32, a: bool, b: bool)
    ensures Xor(Xor(v, w), Bit(a != b)) == Xor(Xor(v, Bit(a)), Xor(w, Bit(b)))
  {
    var x, y := Bit(a), Bit(b);
    assert Bit(a != b) == Xor(x, y);
    hide Xor;
    hide Bit;
    XorAssoc(Xor(v, w), x, y);
    XorAssoc(v, w, x);
    XorComm(w, x);
    XorAssoc(v, x, w);
    XorAssoc(Xor(v, x), w, y);
  }

  /** An error changes the register by what it would make of a register that is zero. */
  lemma {:induction false} FeedLinear(v: bv32, w: bv32, bits: seq<bool>, error: seq<bool>)
    requires |bits| == |error|
    ensures FeedBits(Xor(v, w), Flipped(bits, error)) == Xor(FeedBits(v, bits), FeedBits(w, error))
    decreases |bits|
  {
    hide Xor;
    hide Shift;
    hide Bit;
    if bits != [] {
      BitXor(v, w, bits[0], error[0]);
      var x, y := Xor(v, Bit(bits[0])), Xor(w, Bit(error[0]));
      ShiftLinear(x, y);
      assert Flipped(bits, error)[1..] == Flipped(bits[1..], error[1..]);
      FeedLinear(Shift(x), Shift(y), bits[1..], error[1..]);
    }
  }

  /** Inverting a pattern of at most 32 bits, anywhere in a message, changes the register. */
  lemma BurstIsSeen(v: bv32, before: seq<bool>, bits: seq<bool>, after: seq<bool>, pattern: bv32)
    requires pattern != 0 && Halves(pattern, |bits|) == 0
    ensures FeedBits(v, before + Flipped(bits, BitsOf(pattern, |bits|)) + after) != FeedBits(v, before + bits + after)
  {
    hide *;
    var error := BitsOf(pattern, |bits|);
    var bad := Flipped(bits, error);
    var r := FeedBits(v, before);
    XorZero(r);
    FeedLinear(r, 0, bits, error);
    FeedAtOnce(0, pattern, |bits|);
    XorZero(pattern);
    var d := Shifts(pattern, |bits|);
    XorZero(d);
    if d == 0 {
      ShiftsToZero(pattern, |bits|);
    }
    var u := FeedBits(r, bits);
    if Xor(u, d) == u {
      XorZero(u);
      XorComm(u, d);
      XorComm(u, 0);
      XorInjective(d, 0, u);
    }
    FeedAppend(v, before, bad);
    FeedAppend(v, before, bits);
    FeedAppend(v, before + bad, after);
    FeedAppend(v, before + bits, after);
    if FeedBits(FeedBits(r, bad), after) == FeedBits(u, after) {
      FeedInjective(FeedBits(r, bad), u, after);
    }
  }

  /** The same for a burst of at most 32 bits in a checksummed message. */
  lemma CrcSeesBurst(crc: bv32, good: Message, bad: Message, before: seq<bool>, bits: seq<bool>, after: seq<bool>,
                     pattern: bv32)
    requires pattern != 0 && Halves(pattern, |bits|) == 0
    requires MessageBits(good) == before + bits + after
    requires MessageBits(bad) == before + Flipped(bits, BitsOf(pattern, |bits|)) + after
    ensures Crc(crc, good) != Crc(crc, bad)
  {
    hide Raw;
    hide Xor;
    hide FeedBits;
    var v := Xor(crc, ONES);
    RawIsSerial(v, good);
    RawIsSerial(v, bad);
    BurstIsSeen(v, before, bits, after, pattern);
    if Crc(crc, good) == Crc(crc, bad) {
      XorInjective(Raw(v, good), Raw(v, bad), ONES);
    }
  }

  // ------------------------------------------------------------------ errors within four bytes

  function Up(w: bv32): bv32 {
    w << 8
  }

  lemma Shift8Up(w: bv32)
    requires w & 0xff00_0000 == 0
    ensures Shift8(Up(w)) == w
  {
    assert Up(w) & 0xff == 0;
    assert Down(Up(w)) == w;
    hide Shift8;
    Shift8High(Up(w));
  }

  /** The first byte of a message and up to three more, exclusive-ored in at once. */
  lemma AtOnce(v: bv32, b: bv8, w: bv32)
    requires w & 0xff00_0000 == 0
    ensures Xor(Update(v, b), w) == Shift8(Xor(v, Xor(Wide(b), Up(w))))
  {
    Shift8Up(w);
    UpdateIsSerial(v, b);
    hide *;
    XorAssoc(v, Wide(b), Up(w));
    Shift8Linear(Xor(v, Wide(b)), Up(w));
  }

  function Pack2(a: bv8, b: bv8): bv32 {
    Xor(Wide(a), Up(Wide(b)))
  }

  function Pack3(a: bv8, b: bv8, c: bv8): bv32 {
    Xor(Wide(a), Up(Pack2(b, c)))
  }

  function Pack4(a: bv8, b: bv8, c: bv8, d: bv8): bv32 {
    Xor(Wide(a), Up(Pack3(b, c, d)))
  }

  lemma PackRoom(a: bv8, b: bv8, c: bv8)
    ensures Wide(a) & 0xff00_0000 == 0
    ensures Pack2(a, b) & 0xff00_0000 == 0
    ensures Pack3(a, b, c) & 0xff00_0000 == 0
  {
  }

  lemma PackInjective(a: bv8, w: bv32, a': bv8, w': bv32)
    requires w & 0xff00_0000 == 0 && w' & 0xff00_0000 == 0
    requires Xor(Wide(a), Up(w)) == Xor(Wide(a'), Up(w'))
    ensures a == a' && w == w'
  {
  }

  lemma Shift8Injective(v: bv32, w: bv32)
    requires Shift8(v) == Shift8(w)
    ensures v == w
  {
    hide Shift;
    var v1, w1 := Shift(v), Shift(w);
    var v2, w2 := Shift(v1), Shift(w1);
    var v3, w3 := Shift(v2), Shift(w2);
    var v4, w4 := Shift(v3), Shift(w3);
    var v5, w5 := Shift(v4), Shift(w4);
    var v6, w6 := Shift(v5), Shift(w5);
    var v7, w7 := Shift(v6), Shift(w6);
    ShiftInjective(v7, w7);
    ShiftInjective(v6, w6);
    ShiftInjective(v5, w5);
    ShiftInjective(v4, w4);
    ShiftInjective(v3, w3);
    ShiftInjective(v2, w2);
    ShiftInjective(v1, w1);
    ShiftInjective(v, w);
  }

  /** Four bytes amount to one 32-bit word exclusive-ored into the register. */
  lemma RawFour(v: bv32, a: bv8, b: bv8, c: bv8, d: bv8)
    ensures Raw(v, [a, b, c, d]) == Shift8(Shift8(Shift8(Shift8(Xor(v, Pack4(a, b, c, d))))))
  {
    PackRoom(d, 0, 0);
    PackRoom(c, d, 0);
    PackRoom(b, c, d);
    hide Update;
    hide Shift8;
    hide Xor;
    hide Wide;
    hide Up;
    var v1 := Update(v, a);
    var v2 := Update(v1, b);
    var v3 := Update(v2, c);
    RawFold(v, a, b, c, d);
    UpdateIsSerial(v3, d);
    AtOnce(v2, c, Wide(d));
    AtOnce(v1, b, Pack2(c, d));
    AtOnce(v, a, Pack3(b, c, d));
  }

  lemma RawFold(v: bv32, a: bv8, b: bv8, c: bv8, d: bv8)
    ensures Raw(v, [a, b, c, d]) == Update(Update(Update(Update(v, a), b), c), d)
  {
    hide *;
    var s := [a, b, c, d];
    RawEnds(v, s);
    RawStep(v, s, 0);
    RawStep(Update(v, a), s, 1);
    RawStep(Update(Update(v, a), b), s, 2);
    RawStep(Update(Update(Update(v, a), b), c), s, 3);
    RawEnds(Update(Update(Update(Update(v, a), b), c), d), s);
  }

  lemma FourDiffer(v: bv32, x: Message, y: Message)
    requires |x| == |y| == 4 && Raw(v, x) == Raw(v, y)
    ensures x == y
  {
    hide *;
    assert x == [x[0], x[1], x[2], x[3]] && y == [y[0], y[1], y[2], y[3]];
    var p, q := Pack4(x[0], x[1], x[2], x[3]), Pack4(y[0], y[1], y[2], y[3]);
    RawFour(v, x[0], x[1], x[2], x[3]);
    RawFour(v, y[0], y[1], y[2], y[3]);
    var s, t := Xor(v, p), Xor(v, q);
    Shift8Injective(Shift8(Shift8(Shift8(s))), Shift8(Shift8(Shift8(t))));
    Shift8Injective(Shift8(Shift8(s)), Shift8(Shift8(t)));
    Shift8Injective(Shift8(s), Shift8(t));
    Shift8Injective(s, t);
    XorComm(v, p);
    XorComm(v, q);
    XorInjective(p, q, v);
    Pack4Injective(x[0], x[1], x[2], x[3], y[0], y[1], y[2], y[3]);
  }

  lemma Pack4Injective(a: bv8, b: bv8, c: bv8, d: bv8, a': bv8, b': bv8, c': bv8, d': bv8)
    requires Pack4(a, b, c, d) == Pack4(a', b', c', d')
    ensures a == a' && b == b' && c == c' && d == d'
  {
    PackRoom(d, 0, 0);
    PackRoom(c, d, 0);
    PackRoom(b, c, d);
    PackRoom(d', 0, 0);
    PackRoom(c', d', 0);
    PackRoom(b', c', d');
    hide Xor;
    hide Up;
    hide Wide;
    PackInjective(a, Pack3(b, c, d), a', Pack3(b', c', d'));
    PackInjective(b, Pack2(c, d), b', Pack2(c', d'));
    PackInjective(c, Wide(d), c', Wide(d'));
    WideInjective(d, d');
  }

  lemma WideInjective(d: bv8, d': bv8)
    requires Wide(d) == Wide(d')
    ensures d == d'
  {
  }

  /** Messages of equal length that differ only within four consecutive bytes have different checksums. */
  lemma CrcSeesFourBytes(crc: bv32, before: Message, x: Message, y: Message, after: Message)
    requires |x| == |y| <= 4 && x != y
    ensures Crc(crc, before + x + after) != Crc(crc, before + y + after)
  {
    hide Raw;
    hide Xor;
    var v := Xor(crc, ONES);
    if Crc(crc, before + x + after) == Crc(crc, before + y + after) {
      XorInjective(Raw(v, before + x + after), Raw(v, before + y + after), ONES);
      RawSeesFourBytes(v, before, x, y, after);
    }
  }

  lemma RawSeesFourBytes(v: bv32, before: Message, x: Message, y: Message, after: Message)
    requires |x| == |y| <= 4 && Raw(v, before + x + after) == Raw(v, before + y + after)
    ensures x == y
  {
    hide *;
    var r := Raw(v, before);
    RawAppend(v, before + x, after);
    RawAppend(v, before + y, after);
    RawAppend(v, before, x);
    RawAppend(v, before, y);
    RawInjective(Raw(r, x), Raw(r, y), after);
    var pad: Message := seq(4 - |x|, i => 0);
    RawAppend(r, x, pad);
    RawAppend(r, y, pad);
    FourDiffer(r, x + pad, y + pad);
    assert x == (x + pad)[..|x|] && y == (y + pad)[..|y|];
  }

  lemma RawInjective(v: bv32, w: bv32, s: Message)
    requires Raw(v, s) == Raw(w, s)
    ensures v == w
  {
    hide *;
    RawIsSerial(v, s);
    RawIsSerial(w, s);
    FeedInjective(v, w, MessageBits(s));
  }
}
