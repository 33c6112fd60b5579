/**
 The JFFS2 "rtime" codec: an LZ77-like scheme in which encoder and decoder each keep
 a table of the last position at which every byte value was sent verbatim.
 */
module Rtime {

  import opened Bytes

  /** The largest source length for which every table entry that is read fits a C `short`. */
  const SHORT_LIMIT := 0x8000

  /** Assignment of an int to a 16-bit `short`. */
  function ToShort(n: nat): (s: int)
    ensures n < 0x10000 ==> (s == n <==> n < SHORT_LIMIT)
  {
    var m := n % 0x10000;
    if m < 0x8000 then m else m - 0x10000
  }

  /** The C table `positions` holds the positions of `last`, cut down to shorts. */
  ghost predicate Shorts(positions: seq<int>, last: seq<nat>) {
    && |positions| == |last| == 256
    && forall v :: 0 <= v < 256 ==> positions[v] == ToShort(last[v])
  }

  lemma ShortsGet(positions: seq<int>, last: seq<nat>, v: byte)
    requires Shorts(positions, last) && last[v] < SHORT_LIMIT
    ensures positions[v] == last[v]
  {
  }

  lemma ShortsSet(positions: seq<int>, last: seq<nat>, v: byte, n: nat)
    requires Shorts(positions, last)
    ensures Shorts(positions[v := ToShort(n)], last[v := n])
  {
  }

  // ------------------------------------------------------------------ reference decoder

  /** What a decoder knows: the bytes produced and, per value, where its last verbatim copy ended. */
  datatype Decoder = Decoder(out: seq<byte>, last: seq<nat>)

  ghost predicate Consistent(d: Decoder) {
    && |d.last| == 256
    && forall v :: 0 <= v < 256 ==> d.last[v] <= |d.out|
  }

  function Start(): (d: Decoder)
    ensures Consistent(d)
  {
    Decoder([], seq(256, i => 0))
  }

  /** Byte-by-byte copy from `from`, where the source may run into the bytes being appended. */
  function CopyRun(out: seq<byte>, from: nat, n: nat): (r: seq<byte>)
    requires from < |out|
    ensures |r| == |out| + n
    decreases n
  {
    if n == 0 then out else CopyRun(out + [out[from]], from + 1, n - 1)
  }

  function Token(d: Decoder, v: byte, run: byte): (r: Decoder)
    requires Consistent(d)
    ensures Consistent(r) && |r.out| == |d.out| + 1 + run
  {
    var out := d.out + [v];
    Decoder(CopyRun(out, d.last[v], run), d.last[v := |out|])
  }

  /** The meaning of the first `n` (value, run length) tokens of a packed string. */
  function Unpack(packed: seq<byte>, n: nat): (d: Decoder)
    requires 2 * n <= |packed|
    ensures Consistent(d)
    decreases n
  {
    if n == 0 then Start()
    else Token(Unpack(packed, n - 1), packed[2 * n - 2], packed[2 * n - 1])
  }

  /** The first `n` tokens of `packed` expand to exactly `destlen` bytes. */
  ghost predicate ExpandsTo(packed: seq<byte>, n: nat, destlen: nat) {
    2 * n <= |packed| && |Unpack(packed, n).out| == destlen
  }

  // ------------------------------------------------------------------ reference encoder

  datatype Encoder = Encoder(pos: nat, packed: seq<byte>, tokens: nat, last: seq<nat>)

  /** The `n` bytes from `pos` on repeat those from `from` on. */
  ghost predicate Matches(data: seq<byte>, from: nat, pos: nat, n: nat)
    requires from < pos && pos + n <= |data|
  {
    data[pos..pos + n] == data[from..from + n]
  }

  lemma MatchesExtends(data: seq<byte>, from: nat, pos: nat, n: nat)
    requires from < pos && pos + n < |data|
    requires Matches(data, from, pos, n) && data[from + n] == data[pos + n]
    ensures Matches(data, from, pos, n + 1)
  {
    assert data[pos..pos + n + 1] == data[pos..pos + n] + [data[pos + n]];
    assert data[from..from + n + 1] == data[from..from + n] + [data[from + n]];
  }

  lemma NotExtending(data: seq<byte>, from: nat, pos: nat, n: nat)
    requires from < pos && pos + n < |data| && !Matches(data, from, pos, n + 1)
    ensures Matches(data, from, pos, n) ==> data[from + n] != data[pos + n]
  {
    if Matches(data, from, pos, n) && data[from + n] == data[pos + n] {
      MatchesExtends(data, from, pos, n);
    }
  }

  lemma MatchesAt(data: seq<byte>, from: nat, pos: nat, n: nat, k: nat)
    requires from < pos && pos + n <= |data| && k < n && Matches(data, from, pos, n)
    ensures data[from + k] == data[pos + k]
  {
    assert data[pos..pos + n][k] == data[from..from + n][k];
  }

  /** `r` is the length of the longest match, at most 255 bytes. */
  ghost predicate IsLongest(data: seq<byte>, from: nat, pos: nat, r: int)
    requires from < pos <= |data|
  {
    && 0 <= r <= 255 && pos + r <= |data| && Matches(data, from, pos, r)
    && (r == 255 || pos + r == |data| || data[from + r] != data[pos + r])
  }

  lemma LongestIsUnique(data: seq<byte>, from: nat, pos: nat, r: int, r': int)
    requires from < pos <= |data| && IsLongest(data, from, pos, r) && IsLongest(data, from, pos, r')
    ensures r == r'
  {
    if r < r' {
      MatchesAt(data, from, pos, r', r);
    } else if r' < r {
      MatchesAt(data, from, pos, r, r');
    }
  }

  /** The longest match of at most `bound` bytes. */
  function LongestUpTo(data: seq<byte>, from: nat, pos: nat, bound: byte): (r: byte)
    requires from < pos && pos + bound <= |data|
    ensures r <= bound && Matches(data, from, pos, r)
    ensures r < bound ==> data[from + r] != data[pos + r]
    decreases bound
  {
    if bound == 0 || data[pos..pos + bound] == data[from..from + bound] then bound
    else
      NotExtending(data, from, pos, bound - 1);
      LongestUpTo(data, from, pos, bound - 1)
  }

  function Longest(data: seq<byte>, from: nat, pos: nat): (r: byte)
    requires from < pos <= |data|
    ensures IsLongest(data, from, pos, r)
  {
    LongestUpTo(data, from, pos, if |data| - pos < 255 then |data| - pos else 255)
  }

  /** The packed string stands for the data before `pos`, and both tables agree. */
  ghost predicate Encoding(data: seq<byte>, e: Encoder) {
    && e.pos <= |data|
    && |e.packed| == 2 * e.tokens
    && Unpack(e.packed, e.tokens) == Decoder(data[..e.pos], e.last)
  }

  function Encode(data: seq<byte>, e: Encoder): (r: Encoder)
    requires |e.last| == 256 && e.pos < |data|
    requires e.last[data[e.pos]] <= e.pos
    ensures e.pos < r.pos <= |data|
  {
    var v := data[e.pos];
    var n := Longest(data, e.last[v], e.pos + 1);
    Encoder(e.pos + 1 + n, (e.packed + [v]) + [n], e.tokens + 1, e.last[v := e.pos + 1])
  }

  ghost function PackFrom(data: seq<byte>, limit: nat, e: Encoder): (r: Encoder)
    requires Encoding(data, e) && |e.packed| <= limit
    ensures Encoding(data, r) && |r.packed| <= limit
    ensures r.pos == |data| || |r.packed| + 2 > limit
    decreases |data| - e.pos
  {
    if e.pos < |data| && |e.packed| + 2 <= limit then
      EncodeKeepsMeaning(data, e);
      PackFrom(data, limit, Encode(data, e))
    else e
  }

  function Begin(): (e: Encoder) {
    Encoder(0, [], 0, Start().last)
  }

  ghost function Pack(data: seq<byte>, limit: nat): (r: Encoder)
    ensures Encoding(data, r) && |r.packed| <= limit
    ensures r.pos == |data| || |r.packed| + 2 > limit
  {
    PackFrom(data, limit, Begin())
  }

  // ------------------------------------------------------------------ lemmas

  /** A run that matches the data extends a prefix of the data to a longer prefix. */
  lemma {:induction false} CopyRunFollowsMatch(data: seq<byte>, out: seq<byte>, from: nat, n: nat)
    requires from < |out| && |out| + n <= |data|
    requires out == data[..|out|]
    requires Matches(data, from, |out|, n)
    ensures CopyRun(out, from, n) == data[..|out| + n]
    decreases n
  {
    if n > 0 {
      var out' := out + [out[from]];
      assert data[|out|] == data[|out|..|out| + n][0] == data[from..from + n][0] == data[from];
      assert out' == data[..|out'|];
      assert data[|out'|..|out| + n] == data[|out|..|out| + n][1..];
      assert data[from + 1..from + n] == data[from..from + n][1..];
      CopyRunFollowsMatch(data, out', from + 1, n - 1);
    }
  }

  /** When source and destination do not overlap a run is a plain memcpy. */
  lemma {:induction false} CopyRunDisjoint(out: seq<byte>, from: nat, n: nat)
    requires from < |out| && from + n <= |out|
    ensures CopyRun(out, from, n) == out + out[from..from + n]
    decreases n
  {
    if n > 0 {
      var out' := out + [out[from]];
      if n > 1 {
        CopyRunDisjoint(out', from + 1, n - 1);
      }
      assert out' + out'[from + 1..from + n] == out + out[from..from + n];
    }
  }

  /** A token whose run matches the data takes the decoder along the data. */
  lemma TokenFollowsMatch(data: seq<byte>, d: Decoder, n: byte)
    requires Consistent(d) && |d.out| + 1 + n <= |data| && d.out == data[..|d.out|]
    requires Matches(data, d.last[data[|d.out|]], |d.out| + 1, n)
    ensures Token(d, data[|d.out|], n).out == data[..|d.out| + 1 + n]
  {
    var v := data[|d.out|];
    assert d.out + [v] == data[..|d.out| + 1];
    CopyRunFollowsMatch(data, d.out + [v], d.last[v], n);
  }

  /** Unpacking looks at no more than the tokens it is asked for. */
  lemma {:induction false} UnpackPrefix(packed: seq<byte>, more: seq<byte>, n: nat)
    requires 2 * n <= |packed| <= |more| && packed == more[..|packed|]
    ensures Unpack(packed, n) == Unpack(more, n)
  {
    if n > 0 {
      UnpackPrefix(packed, more, n - 1);
    }
  }

  lemma UnpackSnoc(packed: seq<byte>, n: nat, v: byte, run: byte)
    requires |packed| == 2 * n
    ensures Unpack((packed + [v]) + [run], n + 1) == Token(Unpack(packed, n), v, run)
  {
    UnpackPrefix(packed, (packed + [v]) + [run], n);
  }

  /** One encoder round keeps the packed string a faithful encoding, tables in lockstep. */
  lemma EncodeKeepsMeaning(data: seq<byte>, e: Encoder)
    requires Encoding(data, e) && e.pos < |data|
    ensures |e.last| == 256 && e.last[data[e.pos]] <= e.pos
    ensures Encoding(data, Encode(data, e))
  {
    hide Longest;
    hide CopyRun;
    hide Matches;
    var d := Decoder(data[..e.pos], e.last);
    assert Consistent(d) by { assert d == Unpack(e.packed, e.tokens); }
    var n := Longest(data, e.last[data[e.pos]], e.pos + 1);
    UnpackSnoc(e.packed, e.tokens, data[e.pos], n);
    TokenFollowsMatch(data, d, n);
  }

  /** Each token produces at least one byte, so an output length fixes the number of tokens read. */
  lemma {:induction false} UnpackGrows(packed: seq<byte>, m: nat, n: nat)
    requires m < n && 2 * n <= |packed|
    ensures |Unpack(packed, m).out| < |Unpack(packed, n).out|
    decreases n - m
  {
    if m < n - 1 {
      UnpackGrows(packed, m, n - 1);
    }
  }

  /** While the output is short of its final length another whole token can be read, and it still fits. */
  lemma NextToken(packed: seq<byte>, m: nat, n: nat, destlen: nat)
    requires m <= n && ExpandsTo(packed, n, destlen)
    requires |Unpack(packed, m).out| < destlen
    ensures m < n && 2 * m + 2 <= |packed|
    ensures Unpack(packed, m + 1) == Token(Unpack(packed, m), packed[2 * m], packed[2 * m + 1])
    ensures |Unpack(packed, m).out| + 1 + packed[2 * m + 1] <= destlen
  {
    if m + 1 < n { UnpackGrows(packed, m + 1, n); }
  }

  /**
   The codec's round trip: what Pack produces expands to exactly the prefix it reports,
   and that length is reached by reading all of the packed bytes and in no other way.
   */
  lemma RoundTrip(data: seq<byte>, limit: nat)
    ensures var e := Pack(data, limit);
            && 2 * e.tokens == |e.packed|
            && ExpandsTo(e.packed, e.tokens, e.pos)
            && Unpack(e.packed, e.tokens).out == data[..e.pos]
            && forall n: nat :: ExpandsTo(e.packed, n, e.pos) ==> n == e.tokens
  {
    var e := Pack(data, limit);
    forall n: nat | ExpandsTo(e.packed, n, e.pos) ensures n == e.tokens {
      if n < e.tokens {
        UnpackGrows(e.packed, n, e.tokens);
      }
    }
  }

  // ------------------------------------------------------------------ how far the table of shorts goes

  /** The encoder after `k` rounds with room for all of them. */
  ghost function Encoded(data: seq<byte>, k: nat): (e: Encoder)
    ensures Encoding(data, e) && |e.last| == 256
  {
    if k == 0 then
      assert data[..0] == [];
      Begin()
    else
      var e := Encoded(data, k - 1);
      if e.pos < |data| then
        EncodeKeepsMeaning(data, e);
        Encode(data, e)
      else e
  }

  /** Every entry that is read in encoding `data` fits a short. */
  ghost predicate EntriesFit(data: seq<byte>) {
    forall k: nat :: var e := Encoded(data, k); e.pos < |data| ==> e.last[data[e.pos]] < SHORT_LIMIT
  }

  /** Entries fit in all data of length `n`, if and only if that is at most 32768. */
  lemma ShortsSuffice(n: nat)
    ensures (forall data: seq<byte> :: |data| == n ==> EntriesFit(data)) <==> n <= SHORT_LIMIT
  {
    if n <= SHORT_LIMIT {
      forall data: seq<byte> | |data| == n ensures EntriesFit(data) {
        ShortDataFits(data);
      }
    } else {
      Overflows(n);
      assert |Witness(n)| == n;
    }
  }

  lemma ShortDataFits(data: seq<byte>)
    requires |data| <= SHORT_LIMIT
    ensures EntriesFit(data)
  {
    hide Encoded;
    forall k: nat ensures var e := Encoded(data, k); e.pos < |data| ==> e.last[data[e.pos]] < SHORT_LIMIT {
      var e := Encoded(data, k);
      if e.pos < |data| {
        EncodeKeepsMeaning(data, e);
      }
    }
  }

  /** Data that reads the entry 32768: a 7, zeros, and two more 7s at 32767 and 32768. */
  function Witness(n: nat): (data: seq<byte>)
    requires n > SHORT_LIMIT
    ensures |data| == n
  {
    seq(n, i => if i == 0 || i == 0x7fff || i == 0x8000 then 7 else 0)
  }

  /** Where the encoder stands after `k` rounds, and the entries of 0 and 7. */
  ghost predicate Stands(data: seq<byte>, k: nat, pos: nat, zero: nat, seven: nat) {
    var e := Encoded(data, k);
    e.pos == pos && e.last[0] == zero && e.last[7] == seven
  }

  lemma EncodeTo(data: seq<byte>, e: Encoder, run: nat)
    requires |e.last| == 256 && e.pos < |data| && e.last[data[e.pos]] <= e.pos
    requires IsLongest(data, e.last[data[e.pos]], e.pos + 1, run)
    ensures Encode(data, e).pos == e.pos + 1 + run && Encode(data, e).last == e.last[data[e.pos] := e.pos + 1]
  {
    var from := e.last[data[e.pos]];
    LongestIsUnique(data, from, e.pos + 1, run, Longest(data, from, e.pos + 1));
    hide Longest;
    hide IsLongest;
  }

  lemma NextEncoded(data: seq<byte>, k: nat)
    requires Encoded(data, k).pos < |data|
    ensures var e := Encoded(data, k);
            e.last[data[e.pos]] <= e.pos && Encoded(data, k + 1) == Encode(data, e)
  {
    hide Encoding;
    hide Encode;
    EncodeKeepsMeaning(data, Encoded(data, k));
  }

  /** A round that sends a 0 or a 7 and repeats `run` bytes. */
  lemma RoundTakes(data: seq<byte>, k: nat, pos: nat, zero: nat, seven: nat, run: nat)
    requires Stands(data, k, pos, zero, seven) && pos < |data| && (data[pos] == 0 || data[pos] == 7)
    requires zero <= pos && seven <= pos
    requires IsLongest(data, if data[pos] == 0 then zero else seven, pos + 1, run)
    ensures Stands(data, k + 1, pos + 1 + run, if data[pos] == 0 then pos + 1 else zero,
                   if data[pos] == 7 then pos + 1 else seven)
  {
    hide IsLongest;
    hide Encode;
    hide Encoded;
    hide Encoding;
    NextEncoded(data, k);
    EncodeTo(data, Encoded(data, k), run);
  }

  /** Zeros repeat zeros, up to the first difference. */
  lemma ZerosMatch(data: seq<byte>, from: nat, pos: nat, n: nat)
    requires from < pos && pos + n <= |data| && n <= 255
    requires forall i :: from <= i < from + n ==> data[i] == 0
    requires forall i :: pos <= i < pos + n ==> data[i] == 0
    requires n == 255 || (pos + n < |data| && data[from + n] != data[pos + n])
    ensures IsLongest(data, from, pos, n)
  {
    assert data[pos..pos + n] == data[from..from + n];
  }

  /** After the first two rounds each takes 256 zeros. */
  lemma {:induction false} WitnessRounds(n: nat, k: nat)
    requires n > SHORT_LIMIT && k <= 127
    ensures Stands(Witness(n), 2 + k, 2 + 256 * k, if k == 0 then 2 else 256 * k - 253, 1)
    decreases k
  {
    hide Stands;
    hide IsLongest;
    var data := Witness(n);
    if k == 0 {
      WitnessStart(n);
    } else {
      WitnessRounds(n, k - 1);
      var pos := 256 * k - 254;
      var zero := if k == 1 then 2 else 256 * k - 509;
      ZerosMatch(data, zero, pos + 1, 255);
      assert data[pos] == 0;
      hide Witness;
      RoundTakes(data, k + 1, pos, zero, 1, 255);
    }
  }

  lemma WitnessStart(n: nat)
    requires n > SHORT_LIMIT
    ensures Stands(Witness(n), 2, 2, 2, 1)
  {
    var data := Witness(n);
    assert Stands(data, 0, 0, 0, 0);
    hide Stands;
    hide IsLongest;
    ZerosMatch(data, 0, 1, 0);
    ZerosMatch(data, 0, 2, 0);
    assert data[0] == 7 && data[1] == 0;
    hide Witness;
    RoundTakes(data, 0, 0, 0, 0, 0);
    RoundTakes(data, 1, 1, 0, 1, 0);
  }

  /** The entry of 7 that is read at 32768 does not fit, and is negative as a short. */
  lemma Overflows(n: nat)
    requires n > SHORT_LIMIT
    ensures Stands(Witness(n), 131, 0x8000, 32515, 0x8000) && ToShort(0x8000) < 0
    ensures !EntriesFit(Witness(n))
  {
    var data := Witness(n);
    WitnessEnd(n);
    assert data[0x8000] == 7;
    var e := Encoded(data, 131);
    hide Encoded;
    assert e.last[data[e.pos]] == 0x8000;
  }

  lemma WitnessEnd(n: nat)
    requires n > SHORT_LIMIT
    ensures Stands(Witness(n), 131, 0x8000, 32515, 0x8000)
  {
    hide Stands;
    hide IsLongest;
    var data := Witness(n);
    WitnessRounds(n, 127);
    ZerosMatch(data, 32259, 32515, 252);
    ZerosMatch(data, 1, 0x8000, 0);
    assert data[32514] == 0 && data[32767] == 7;
    hide Witness;
    RoundTakes(data, 129, 32514, 32259, 1, 252);
    RoundTakes(data, 130, 32767, 32515, 1, 0);
  }

  // ------------------------------------------------------------------ the two C routines

  /** The inner loop of the compressor: how far the data at `start` repeats the data at `from`. */
  method FindRun(dataIn: array<byte>, sourcelen: nat, start: nat, from: nat) returns (runlen: byte)
    requires from < start <= sourcelen <= dataIn.Length
    ensures runlen == Longest(dataIn[..sourcelen], from, start)
  {
    ghost var data := dataIn[..sourcelen];
    var backpos, pos, run := from, start, 0;
    while true
      invariant 0 <= run <= 255 && pos == start + run <= sourcelen
      invariant backpos == from + run
      invariant Matches(data, from, start, run)
      decreases sourcelen - pos
    {
      if !(backpos < pos && pos < sourcelen) { break; }
      var same := dataIn[pos] == dataIn[backpos];
      if !same || run >= 255 { break; }
      MatchesExtends(data, from, start, run);
      backpos, pos, run := backpos + 1, pos + 1, run + 1;
    }
    LongestIsUnique(data, from, start, run, Longest(data, from, start));
    runlen := run;
  }

  /** One round of the compressor's outer loop. */
  method CompressToken(dataIn: array<byte>, cpageOut: array<byte>, sourcelen: nat, positions: seq<int>, pos: nat,
                       outpos: nat, ghost e: Encoder, ghost was: seq<byte>)
    returns (pos': nat, outpos': nat, positions': seq<int>)
    requires dataIn != cpageOut && sourcelen <= dataIn.Length && sourcelen <= SHORT_LIMIT
    requires Encoding(dataIn[..sourcelen], e) && e.pos == pos < sourcelen
    requires |e.packed| == outpos && outpos + 2 <= |was|
    requires cpageOut[..] == e.packed + was[outpos..]
    requires Shorts(positions, e.last) && e.last[dataIn[pos]] <= pos
    modifies cpageOut
    ensures var e' := Encode(dataIn[..sourcelen], e);
            && pos' == e'.pos && outpos' == |e'.packed| == outpos + 2
            && cpageOut[..] == e'.packed + was[outpos'..]
            && Shorts(positions', e'.last)
  {
    hide Unpack;
    hide Longest;
    var value := dataIn[pos];
    Put(cpageOut, outpos, value, e.packed, was);
    pos' := pos + 1;
    ShortsGet(positions, e.last, value);
    var backpos := positions[value];
    ShortsSet(positions, e.last, value, pos');
    positions' := positions[value := ToShort(pos')];
    var runlen := FindRun(dataIn, sourcelen, pos', backpos);
    Put(cpageOut, outpos + 1, runlen, e.packed + [value], was);
    pos', outpos' := pos' + runlen, outpos + 2;
  }

  /** jffs2_rtime_compress: 0 and the two lengths on success, -1 and unchanged lengths otherwise. */
  method Compress(dataIn: array<byte>, cpageOut: array<byte>, sourcelen: nat, dstlen: nat)
    returns (rc: int, newSourcelen: nat, newDstlen: nat)
    requires dataIn != cpageOut
    requires sourcelen <= dataIn.Length && dstlen <= cpageOut.Length
    requires sourcelen <= SHORT_LIMIT
    modifies cpageOut
    ensures var e := Pack(dataIn[..sourcelen], dstlen);
            && cpageOut[..] == e.packed + old(cpageOut[..])[|e.packed|..]
            && (|e.packed| < e.pos ==> rc == 0 && newSourcelen == e.pos && newDstlen == |e.packed|)
            && (|e.packed| >= e.pos ==> rc == -1 && newSourcelen == sourcelen && newDstlen == dstlen)
  {
    hide Longest;
    hide CopyRun;
    hide Token;
    ghost var data := dataIn[..sourcelen];
    ghost var was := cpageOut[..];
    var positions := seq(256, i => 0);
    var outpos, pos := 0, 0;
    ghost var e := Begin();
    assert data[..0] == [];
    while pos < sourcelen && outpos + 2 <= dstlen
      invariant Encoding(data, e) && e.pos == pos && |e.packed| == outpos <= dstlen
      invariant cpageOut[..] == e.packed + was[outpos..]
      invariant Shorts(positions, e.last)
      invariant Pack(data, dstlen) == PackFrom(data, dstlen, e)
      decreases sourcelen - pos
    {
      EncodeKeepsMeaning(data, e);
      pos, outpos, positions := CompressToken(dataIn, cpageOut, sourcelen, positions, pos, outpos, e, was);
      e := Encode(data, e);
    }
    if outpos >= pos {
      return -1, sourcelen, dstlen;
    }
    return 0, pos, outpos;
  }

  /** The copying part of the decompressor, with its overlapping and its memcpy branch. */
  method CopyBack(cpageOut: array<byte>, backoffs: nat, outpos: nat, repeat: byte)
    requires backoffs < outpos && outpos + repeat <= cpageOut.Length
    modifies cpageOut
    ensures cpageOut[..] == CopyRun(old(cpageOut[..outpos]), backoffs, repeat) + old(cpageOut[..])[outpos + repeat..]
  {
    hide CopyRun;
    if backoffs + repeat >= outpos {
      CopyOverlapping(cpageOut, backoffs, outpos, repeat);
    } else {
      ghost var out := cpageOut[..outpos];
      CopyRunDisjoint(out, backoffs, repeat);
      assert out[backoffs..backoffs + repeat] == cpageOut[backoffs..backoffs + repeat];
      Blit(cpageOut, outpos, cpageOut[backoffs..backoffs + repeat]);
      assert old(cpageOut[..])[..outpos] == out;
    }
  }

  method CopyOverlapping(cpageOut: array<byte>, backoffs0: nat, outpos0: nat, repeat0: byte)
    requires backoffs0 < outpos0 && outpos0 + repeat0 <= cpageOut.Length
    modifies cpageOut
    ensures cpageOut[..] == CopyRun(old(cpageOut[..outpos0]), backoffs0, repeat0)
            + old(cpageOut[..])[outpos0 + repeat0..]
  {
    ghost var was, out := cpageOut[..], cpageOut[..outpos0];
    var backoffs, outpos, repeat := backoffs0, outpos0, repeat0;
    ghost var cur := out;
    assert was == out + was[outpos..];
    while repeat != 0
      invariant 0 <= repeat && outpos + repeat == outpos0 + repeat0 <= |was|
      invariant 0 <= backoffs < outpos == |cur|
      invariant cpageOut[..] == cur + was[outpos..]
      invariant CopyRun(cur, backoffs, repeat) == CopyRun(out, backoffs0, repeat0)
    {
      CopyRunStep(cur, backoffs, repeat);
      hide CopyRun;
      assert cpageOut[backoffs] == (cur + was[outpos..])[backoffs];
      Put(cpageOut, outpos, cpageOut[backoffs], cur, was);
      cur := cur + [cur[backoffs]];
      outpos, backoffs, repeat := outpos + 1, backoffs + 1, repeat - 1;
    }
  }

  lemma CopyRunStep(out: seq<byte>, from: nat, n: nat)
    requires from < |out| && n > 0
    ensures CopyRun(out, from, n) == CopyRun(out + [out[from]], from + 1, n - 1)
  {
  }

  /** One round of the decompressor's loop: a verbatim byte, then its run. */
  method DecompressToken(cpageOut: array<byte>, outpos: nat, positions: seq<int>, value: byte, repeat: byte,
                         ghost d: Decoder, ghost was: seq<byte>)
    returns (outpos': nat, positions': seq<int>)
    requires Consistent(d) && Shorts(positions, d.last)
    requires outpos == |d.out| && outpos + 1 + repeat <= |was| && outpos < SHORT_LIMIT
    requires cpageOut[..] == d.out + was[outpos..]
    modifies cpageOut
    ensures outpos' == outpos + 1 + repeat
    ensures cpageOut[..] == Token(d, value, repeat).out + was[outpos'..]
    ensures Shorts(positions', Token(d, value, repeat).last)
  {
    ghost var out := d.out + [value];
    Put(cpageOut, outpos, value, d.out, was);
    outpos' := outpos + 1;
    var backoffs := positions[value];
    ShortsSet(positions, d.last, value, outpos');
    positions' := positions[value := ToShort(outpos')];
    if repeat != 0 {
      assert cpageOut[..outpos'] == (out + was[outpos'..])[..outpos'] == out;
      assert (out + was[outpos'..])[outpos' + repeat..] == was[outpos' + repeat..];
      CopyBack(cpageOut, backoffs, outpos', repeat);
      outpos' := outpos' + repeat;
    }
  }

  /** jffs2_rtime_decompress: also returns how many tokens were read. */
  method Decompress(dataIn: array<byte>, cpageOut: array<byte>, srclen: nat, destlen: nat)
    returns (tokens: nat)
    requires dataIn != cpageOut
    requires srclen <= dataIn.Length && destlen <= cpageOut.Length && destlen <= SHORT_LIMIT
    requires exists n: nat :: ExpandsTo(dataIn[..srclen], n, destlen)
    modifies cpageOut
    ensures ExpandsTo(dataIn[..srclen], tokens, destlen)
    ensures cpageOut[..] == Unpack(dataIn[..srclen], tokens).out + old(cpageOut[..])[destlen..]
  {
    hide CopyRun;
    ghost var packed := dataIn[..srclen];
    ghost var was := cpageOut[..];
    ghost var n: nat :| ExpandsTo(packed, n, destlen);
    var positions := seq(256, i => 0);
    var outpos := 0;
    ghost var d := Start();
    tokens := 0;
    while outpos < destlen
      invariant tokens <= n && d == Unpack(packed, tokens)
      invariant outpos == |d.out| <= destlen
      invariant cpageOut[..] == d.out + was[outpos..]
      invariant Shorts(positions, d.last)
      decreases destlen - outpos
    {
      NextToken(packed, tokens, n, destlen);
      var value := dataIn[2 * tokens];
      var repeat := dataIn[2 * tokens + 1];
      assert value == packed[2 * tokens] && repeat == packed[2 * tokens + 1];
      outpos, positions := DecompressToken(cpageOut, outpos, positions, value, repeat, d, was);
      d := Token(d, value, repeat);
      tokens := tokens + 1;
    }
  }
}
