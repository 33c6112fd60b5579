/** mkusbimg: a flash image with a header page, both protected by CRC-32. */
module UsbImage {

  import opened Arithmetic
  import opened Bytes
  import opened Options
  import opened CrcTable
  import opened Crc32

  const HEADER_SIZE := 0x1000
  const IMG_MAGIC: bv32 := 0x4669_6d67
  const STRUCTURE_SIZE: bv32 := 80
  const DATA_OFFSET: bv32 := 0x1000
  const H_NAME_SIZE := 32

  datatype Fields = Fields(vendorId: bv32, productId: bv32, hwModel: bv32, hwVersion: bv32,
                           startAddr: bv32, eraseSize: bv32, name: seq<bv8>)

  /** A word in network byte order. */
  function Be32(x: bv32): (s: Message)
    ensures |s| == 4
  {
    [((x >> 24) & 0xff) as bv8, ((x >> 16) & 0xff) as bv8, ((x >> 8) & 0xff) as bv8, (x & 0xff) as bv8]
  }

  function WordAt(s: Message, at: nat): bv32
    requires at + 4 <= |s|
  {
    FromBe(s[at], s[at + 1], s[at + 2], s[at + 3])
  }

  function FromBe(a: bv8, b: bv8, c: bv8, d: bv8): bv32 {
    ((a as bv32) << 24) | ((b as bv32) << 16) | ((c as bv32) << 8) | (d as bv32)
  }

  lemma BeRoundTrip(x: bv32)
    ensures var s := Be32(x); FromBe(s[0], s[1], s[2], s[3]) == x
  {
  }

  lemma BeInjective(a: bv8, b: bv8, c: bv8, d: bv8, a': bv8, b': bv8, c': bv8, d': bv8)
    requires FromBe(a, b, c, d) == FromBe(a', b', c', d')
    ensures a == a' && b == b' && c == c' && d == d'
  {
  }

  function SizeWord(n: nat): bv32 {
    (n % 0x1_0000_0000) as bv32
  }

  /** The name field: cut to 31 bytes, padded with zeros. */
  function NameField(name: seq<bv8>): (s: Message)
    ensures |s| == H_NAME_SIZE
  {
    var n := if |name| < H_NAME_SIZE then |name| else H_NAME_SIZE - 1;
    name[..n] + seq(H_NAME_SIZE - n, i => 0)
  }

  /** What the header's own description promises of an image. */
  predicate Accepts(image: Message) {
    && |image| >= HEADER_SIZE
    && WordAt(image, 0) == Crc(ONES, image[4..HEADER_SIZE])
    && WordAt(image, 4) == IMG_MAGIC
    && WordAt(image, 36) == DATA_OFFSET && WordAt(image, 40) == SizeWord(|image| - HEADER_SIZE)
    && WordAt(image, 44) == Crc(ONES, image[HEADER_SIZE..])
  }

  // ------------------------------------------------------------------ the header page

  /** The words of the header structure behind its checksum. */
  function Words(f: Fields, size: nat, dataCrc: bv32): (ws: seq<bv32>)
    ensures |ws| == 11
  {
    [IMG_MAGIC, STRUCTURE_SIZE, f.vendorId, f.productId, f.hwModel, f.hwVersion, f.startAddr, f.eraseSize,
     DATA_OFFSET, SizeWord(size), dataCrc]
  }

  function BeAll(ws: seq<bv32>): (s: Message)
    ensures |s| == 4 * |ws|
  {
    if ws == [] then [] else Be32(ws[0]) + BeAll(ws[1..])
  }

  /** The header page behind its checksum. */
  function Body(ws: seq<bv32>, name: seq<bv8>): (s: Message)
    requires |ws| == 11
    ensures |s| == HEADER_SIZE - 4
  {
    BeAll(ws) + NameField(name) + seq(HEADER_SIZE - 80, i => 0)
  }

  lemma {:induction false} BeAllAt(ws: seq<bv32>, rest: Message, k: nat)
    requires k < |ws|
    ensures WordAt(BeAll(ws) + rest, 4 * k) == ws[k]
    decreases k
  {
    hide Be32;
    hide FromBe;
    var tail := BeAll(ws[1..]) + rest;
    assert BeAll(ws) + rest == Be32(ws[0]) + tail;
    if k == 0 {
      BeRoundTrip(ws[0]);
    } else {
      BeAllAt(ws[1..], rest, k - 1);
    }
  }

  /** Every word of an image can be read back from its place. */
  lemma ImageWords(crc: bv32, ws: seq<bv32>, name: seq<bv8>, data: Message, k: nat)
    requires |ws| == 11 && k < 12
    ensures WordAt(Be32(crc) + Body(ws, name) + data, 4 * k) == ([crc] + ws)[k]
  {
    hide Be32;
    hide NameField;
    hide WordAt;
    var rest := NameField(name) + seq(HEADER_SIZE - 80, i => 0) + data;
    assert ([crc] + ws)[1..] == ws;
    assert BeAll([crc] + ws) == Be32(crc) + BeAll(ws);
    assert Be32(crc) + Body(ws, name) + data == BeAll([crc] + ws) + rest;
    BeAllAt([crc] + ws, rest, k);
  }

  /** An image put together like this is accepted. */
  lemma BuiltIsAccepted(f: Fields, data: Message)
    ensures var body := Body(Words(f, |data|, Crc(ONES, data)), f.name);
            Accepts(Be32(Crc(ONES, body)) + body + data)
  {
    var ws := Words(f, |data|, Crc(ONES, data));
    var body := Body(ws, f.name);
    var crc := Crc(ONES, body);
    hide Body;
    hide Be32;
    hide WordAt;
    hide Crc;
    var image := Be32(crc) + body + data;
    ImageWords(crc, ws, f.name, data, 0);
    ImageWords(crc, ws, f.name, data, 1);
    ImageWords(crc, ws, f.name, data, 9);
    ImageWords(crc, ws, f.name, data, 10);
    ImageWords(crc, ws, f.name, data, 11);
    assert image[4..HEADER_SIZE] == body;
    assert image[HEADER_SIZE..] == data;
  }

  // ------------------------------------------------------------------ the program

  /** The data loop. `sizes(k)` is how many bytes the k-th fread is willing to deliver. */
  method WriteData(data: Message, sizes: nat -> nat, buf: array<bv8>) returns (ok: bool, out: Message, crc: bv32)
    requires buf.Length == HEADER_SIZE
    modifies buf
    ensures ok ==> out == data && crc == Crc(ONES, data)
    ensures !ok ==> exists k :: sizes(k) == 0
  {
    out, crc := [], ONES;
    var a, k := 0, 0;
    CrcOfNothing(ONES);
    while a < |data|
      invariant a <= |data| && out == data[..a] && crc == Crc(ONES, data[..a])
      decreases |data| - a
    {
      var readed := Min(Min(sizes(k), HEADER_SIZE), |data| - a);
      if readed == 0 {
        return false, out, crc;
      }
      ghost var part := data[a..a + readed];
      assert data[..a + readed] == data[..a] + part;
      Blit(buf, 0, data[a..a + readed]);
      Chaining(ONES, data[..a], part);
      hide Crc;
      crc := UnrolledCrc32(crc, buf, 0, readed);
      assert buf[0..0 + readed] == part;
      out := out + buf[..readed];
      a, k := a + readed, k + 1;
    }
    assert data[..a] == data;
    ok := true;
  }

  lemma CrcOfNothing(crc: bv32)
    ensures Crc(crc, []) == crc
  {
    XorCancel(crc, ONES);
  }

  /** The header page, built in the buffer; the checksum's place holds junk at first. */
  method WriteHeader(ws: seq<bv32>, name: seq<bv8>, junk: bv32, buf: array<bv8>)
    requires buf.Length == HEADER_SIZE && |ws| == 11
    modifies buf
    ensures buf[..] == Be32(Crc(ONES, Body(ws, name))) + Body(ws, name)
  {
    hide Be32;
    hide NameField;
    hide BeAll;
    hide Crc;
    var zeros: Message := seq(HEADER_SIZE, i => 0);
    Blit(buf, 0, zeros);
    assert buf[80..] == buf[..HEADER_SIZE][80..] == seq(HEADER_SIZE - 80, i => 0);
    Blit(buf, 0, Be32(junk) + BeAll(ws) + NameField(name));
    assert buf[4..4 + (HEADER_SIZE - 4)] == buf[..80][4..] + buf[80..] == Body(ws, name);
    var crc := UnrolledCrc32(ONES, buf, 4, HEADER_SIZE - 4);
    Blit(buf, 0, Be32(crc));
    assert buf[..] == buf[..4] + buf[4..];
  }

  /**
   The whole program. Whatever the sizes of the reads, it fails because one of them delivers
   nothing, or makes an accepted image of the data with the given fields in their places.
   */
  method MkUsbImg(f: Fields, data: Message, sizes: nat -> nat, junk: bv32) returns (r: Option<Message>)
    ensures r.None? ==> exists k :: sizes(k) == 0
    ensures r.Some? ==> Accepts(r.value) && r.value[HEADER_SIZE..] == data
    ensures r.Some? ==> forall k :: 1 <= k < 12 ==> WordAt(r.value, 4 * k) == Words(f, |data|, Crc(ONES, data))[k - 1]
    ensures r.Some? ==> r.value[48..80] == NameField(f.name)
  {
    var buf := new bv8[HEADER_SIZE](i => 0);
    var ok, out, crc := WriteData(data, sizes, buf);
    if !ok {
      return None;
    }
    hide NameField;
    hide BeAll;
    hide Be32;
    hide Crc;
    hide Words;
    hide WordAt;
    var ws := Words(f, |data|, crc);
    WriteHeader(ws, f.name, junk, buf);
    r := Some(buf[..] + out);
    BuiltIsAccepted(f, data);
    forall k | 1 <= k < 12 ensures WordAt(r.value, 4 * k) == ws[k - 1] {
      ImageWords(Crc(ONES, Body(ws, f.name)), ws, f.name, data, k);
    }
    assert r.value[48..80] == Body(ws, f.name)[44..76];
  }

  // ------------------------------------------------------------------ damaged images

  /** A change that touches the header page behind its checksum, but not the checksum. */
  lemma HeaderChange(a: Message, x: Message, y: Message, b: Message, b': Message)
    requires Accepts(a + x + b) && |x| == |y| <= 4 && x != y && 4 <= |a| && |a| + |x| <= HEADER_SIZE
    requires var n := HEADER_SIZE - |a| - |x|; n <= |b'| && b[..n] == b'[..n]
    ensures !Accepts(a + y + b')
  {
    hide Crc;
    var good, bad := a + x + b, a + y + b';
    assert WordAt(good, 0) == WordAt(bad, 0);
    hide WordAt;
    var n := HEADER_SIZE - |a| - |x|;
    assert good[4..HEADER_SIZE] == a[4..] + x + b[..n];
    assert bad[4..HEADER_SIZE] == a[4..] + y + b'[..n];
    CrcSeesFourBytes(ONES, a[4..], x, y, b[..n]);
  }

  lemma DataChange(a: Message, x: Message, y: Message, b: Message)
    requires Accepts(a + x + b) && |x| == |y| <= 4 && x != y && HEADER_SIZE <= |a|
    ensures !Accepts(a + y + b)
  {
    hide Crc;
    var good, bad := a + x + b, a + y + b;
    assert WordAt(good, 44) == WordAt(bad, 44);
    hide WordAt;
    assert good[HEADER_SIZE..] == a[HEADER_SIZE..] + x + b;
    assert bad[HEADER_SIZE..] == a[HEADER_SIZE..] + y + b;
    CrcSeesFourBytes(ONES, a[HEADER_SIZE..], x, y, b);
  }

  lemma ChecksumChange(a: Message, x: Message, y: Message, b: Message)
    requires Accepts(a + x + b) && |x| == |y| && x != y && |a| + |x| <= 4
    ensures !Accepts(a + y + b)
  {
    hide Crc;
    hide FromBe;
    var good, bad := a + x + b, a + y + b;
    assert good[4..HEADER_SIZE] == bad[4..HEADER_SIZE];
    if WordAt(good, 0) == WordAt(bad, 0) {
      BeInjective(good[0], good[1], good[2], good[3], bad[0], bad[1], bad[2], bad[3]);
    }
  }

  /** No image stays acceptable when bytes within four consecutive ones are changed. */
  lemma DamageIsSeen(a: Message, x: Message, y: Message, b: Message)
    requires Accepts(a + x + b) && |x| == |y| <= 4 && x != y
    ensures !Accepts(a + y + b)
  {
    assert |a + x + b| >= HEADER_SIZE;
    hide Accepts;
    hide Crc;
    if |a| + |x| <= 4 {
      ChecksumChange(a, x, y, b);
    } else if |a| < 4 {
      MagicChange(a, x, y, b, 4 - |a|);
    } else if |a| + |x| <= HEADER_SIZE {
      HeaderChange(a, x, y, b, b);
    } else if HEADER_SIZE <= |a| {
      DataChange(a, x, y, b);
    } else {
      StraddlingChange(a, x, y, b, HEADER_SIZE - |a|);
    }
  }

  /** A change across the end of the header's checksum shows in the magic number or in the checksum. */
  lemma MagicChange(a: Message, x: Message, y: Message, b: Message, cut: nat)
    requires Accepts(a + x + b) && |x| == |y| <= 4 && x != y
    requires cut <= |x| && |a| + cut == 4
    ensures !Accepts(a + y + b)
  {
    hide Crc;
    hide WordAt;
    var n := |a + x + b|;
    assert n >= HEADER_SIZE && WordAt(a + x + b, 4) == IMG_MAGIC;
    var x1, x2, y1, y2 := x[..cut], x[cut..], y[..cut], y[cut..];
    assert x == x1 + x2 && y == y1 + y2;
    if x2 == y2 {
      assert a + x + b == a + x1 + (x2 + b) && a + y + b == a + y1 + (x2 + b);
      hide Accepts;
      ChecksumChange(a, x1, y1, x2 + b);
    } else {
      assert a + x + b == (a + x1) + x2 + b && a + y + b == (a + y1) + y2 + b;
      MagicDiffers(a + x1, a + y1, x2, y2, b);
      WrongMagic(a + y + b);
      hide Accepts;
    }
  }

  lemma WrongMagic(image: Message)
    requires |image| >= HEADER_SIZE && WordAt(image, 4) != IMG_MAGIC
    ensures !Accepts(image)
  {
    hide Crc;
    hide WordAt;
  }

  lemma MagicDiffers(a: Message, a': Message, x: Message, y: Message, b: Message)
    requires |a| == |a'| == 4 && |x| == |y| <= 4 && x != y && |x| + |b| >= 4
    ensures WordAt(a + x + b, 4) != WordAt(a' + y + b, 4)
  {
    hide FromBe;
    var good, bad := a + x + b, a' + y + b;
    if WordAt(good, 4) == WordAt(bad, 4) {
      BeInjective(good[4], good[5], good[6], good[7], bad[4], bad[5], bad[6], bad[7]);
    }
  }

  lemma StraddlingChange(a: Message, x: Message, y: Message, b: Message, cut: nat)
    requires Accepts(a + x + b) && |x| == |y| <= 4 && x != y
    requires 4 <= |a| && cut <= |x| && |a| + cut == HEADER_SIZE
    ensures !Accepts(a + y + b)
  {
    hide Accepts;
    var x1, x2, y1, y2 := x[..cut], x[cut..], y[..cut], y[cut..];
    assert x == x1 + x2 && y == y1 + y2;
    assert a + x + b == a + x1 + (x2 + b) == (a + x1) + x2 + b;
    assert a + y + b == a + y1 + (y2 + b) == (a + y1) + y2 + b;
    if x1 != y1 {
      HeaderChange(a, x1, y1, x2 + b, y2 + b);
    } else {
      DataChange(a + x1, x2, y2, b);
    }
  }

  // ------------------------------------------------------------------ what the checksums cannot see

  /**
   Both checksums start from a register of zero: what leaves it at zero goes unseen in front of the
   data, and nothing else.
   */
  lemma PrefixIsUnseen(p: Message, s: Message)
    ensures Crc(ONES, p + s) == Crc(ONES, s) <==> Raw(0, p) == 0
  {
    XorZero(ONES);
    hide Raw;
    hide Xor;
    RawAppend(0, p, s);
    if Crc(ONES, p + s) == Crc(ONES, s) {
      XorInjective(Raw(0, p + s), Raw(0, s), ONES);
      RawInjective(Raw(0, p), 0, s);
    }
  }

  function Zeros(n: nat): (s: Message)
    ensures |s| == n
  {
    seq(n, i => 0)
  }

  lemma {:induction false} ZerosGiveZero(n: nat)
    ensures Raw(0, Zeros(n)) == 0
  {
    if n > 0 {
      ZerosGiveZero(n - 1);
      assert Zeros(n) == [0] + Zeros(n - 1);
      ZeroStep(Zeros(n - 1));
    }
  }

  lemma ZeroStep(s: Message)
    ensures Raw(0, [0] + s) == Raw(0, s)
  {
    assert Update(0, 0) == 0;
    hide Update;
    assert ([0] + s)[1..] == s;
  }

  /** Any number of zeros in front of the data leaves its checksum unchanged. */
  lemma LeadingZeros(n: nat, s: Message)
    ensures Crc(ONES, Zeros(n) + s) == Crc(ONES, s)
  {
    hide *;
    ZerosGiveZero(n);
    PrefixIsUnseen(Zeros(n), s);
  }

  /** Of prefixes of up to four bytes, zeros are the only ones. */
  lemma ShortPrefixIsUnseen(p: Message, s: Message)
    requires |p| <= 4
    ensures Crc(ONES, p + s) == Crc(ONES, s) <==> p == Zeros(|p|)
  {
    hide *;
    PrefixIsUnseen(p, s);
    ZerosGiveZero(|p|);
    if Raw(0, p) == 0 {
      assert [] + p + [] == p && [] + Zeros(|p|) + [] == Zeros(|p|);
      RawSeesFourBytes(0, [], p, Zeros(|p|), []);
    }
  }
}
