/** The byte type and the few sequence facts shared by every module. */
module Bytes {

  type byte = x: int | 0 <= x < 256

  type word = x: int | 0 <= x < 0x10000

  /** `n` copies of one byte, as written by memset. */
  function Fill(b: byte, n: nat): (s: seq<byte>)
    ensures |s| == n
    ensures forall i :: 0 <= i < n ==> s[i] == b
  {
    seq(n, i => b)
  }

  lemma Concat3<T>(a: seq<T>, b: seq<T>, c: seq<T>)
    ensures a + b + c == a + (b + c)
  {
  }

  lemma SplitSlice<T>(s: seq<T>, a: int, b: int, c: int)
    requires 0 <= a <= b <= c <= |s|
    ensures s[a..c] == s[a..b] + s[b..c]
  {
  }

  /** Slices of two sequences that agree byte by byte at a fixed distance are equal. */
  lemma ShiftedSlices<T>(a: seq<T>, i: int, b: seq<T>, j: int, n: nat)
    requires 0 <= i && i + n <= |a| && 0 <= j && j + n <= |b|
    requires forall k :: i <= k < i + n ==> a[k] == b[k + (j - i)]
    ensures a[i..i + n] == b[j..j + n]
  {
  }

  /** Equal slices stay equal when both are cut to the same part. */
  lemma CutSlices<T>(a: seq<T>, i: int, b: seq<T>, j: int, n: nat, m: nat)
    requires 0 <= i && i + n <= |a| && 0 <= j && j + n <= |b| && m <= n
    requires a[i..i + n] == b[j..j + n]
    ensures a[i..i + m] == b[j..j + m]
  {
    assert a[i..i + m] == a[i..i + n][..m];
    assert b[j..j + m] == b[j..j + n][..m];
  }

  lemma SliceAt<T>(a: seq<T>, i: int, b: seq<T>, j: int, n: nat, k: nat)
    requires 0 <= i && i + n <= |a| && 0 <= j && j + n <= |b| && k < n
    requires a[i..i + n] == b[j..j + n]
    ensures a[i + k] == b[j + k]
  {
    assert a[i + k] == a[i..i + n][k] && b[j + k] == b[j..j + n][k];
  }

  lemma CutPrefix<T>(a: seq<T>, b: seq<T>, j: int, n: nat, m: nat)
    requires n <= |a| && 0 <= j && j + n <= |b| && m <= n
    requires a[..n] == b[j..j + n]
    ensures a[..m] == b[j..j + m]
  {
    assert a[..m] == a[..n][..m];
    assert b[j..j + m] == b[j..j + n][..m];
  }

  /** Store one byte right behind the written part of a buffer, leaving the rest as it was. */
  method Put(buffer: array<byte>, at: nat, b: byte, ghost written: seq<byte>, ghost was: seq<byte>)
    requires at == |written| < |was|
    requires buffer[..] == written + was[at..]
    modifies buffer
    ensures buffer[..] == (written + [b]) + was[at + 1..]
  {
    buffer[at] := b;
    assert buffer[..] == (written + was[at..])[at := b];
  }

  /** A buffer with something copied to `at`. */
  function Blitted<T>(b: seq<T>, at: nat, part: seq<T>): (r: seq<T>)
    requires at + |part| <= |b|
    ensures |r| == |b|
  {
    b[..at] + part + b[at + |part|..]
  }

  /** memcpy */
  method Blit<T>(buf: array<T>, at: nat, part: seq<T>)
    requires at + |part| <= buf.Length
    modifies buf
    ensures buf[..] == Blitted(old(buf[..]), at, part)
  {
    for i := 0 to |part|
      invariant buf[..at] == old(buf[..at])
      invariant buf[at..at + i] == part[..i]
      invariant buf[at + i..] == old(buf[at + i..])
    {
      ghost var rest := buf[at + i..];
      buf[at + i] := part[i];
      assert buf[at..at + i + 1] == buf[at..at + i] + [part[i]];
      assert buf[at + i + 1..] == rest[1..];
    }
    assert buf[..] == buf[..at] + buf[at..at + |part|] + buf[at + |part|..];
  }
}
