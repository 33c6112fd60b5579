/**
 ggrab's ring buffer: a fixed array with physical pointers standing for an unbounded
 byte stream with 64-bit logical positions, shared by a producer (the socket reader),
 a parser that searches start codes and a multiplexer that copies and discards.
 Each method is one critical section; `Action`s are the critical sections of the other
 threads that may run while a caller waits on the condition variable.
 */
module CBuffers {

  import opened Bytes
  import opened Arithmetic

  /** What another thread may do to the buffer while a caller waits for data. */
  datatype Action = Commit(data: seq<byte>) | Discard(to: int)

  datatype CopyResult = Copied(bytes: seq<byte>) | Waiting | NotInBuffer

  datatype SearchResult = Found(pos: int, id: byte) | NotFound | Timeout | BadPointer

  /** A complete start code 00 00 01 begins at `q`, followed by an id that `sel` accepts. */
  predicate MatchAt(s: seq<byte>, q: int, sel: byte -> bool) {
    && 0 <= q && q + 4 <= |s|
    && s[q] == 0 && s[q + 1] == 0 && s[q + 2] == 1 && sel(s[q + 3])
  }

  /** No complete start code begins in [from, to). */
  ghost predicate NoMatch(s: seq<byte>, from: int, to: int, sel: byte -> bool) {
    forall q :: from <= q < to ==> !MatchAt(s, q, sel)
  }

  /** Stretches of equal bytes contain the same start codes. */
  lemma SameMatches(b: seq<byte>, i: int, s: seq<byte>, j: int, n: nat, sel: byte -> bool)
    requires 0 <= i && i + n + 3 <= |b| && 0 <= j && j + n + 3 <= |s|
    requires b[i..i + (n + 3)] == s[j..j + (n + 3)]
    ensures forall q :: j <= q < j + n ==> MatchAt(s, q, sel) == MatchAt(b, q + (i - j), sel)
  {
    forall q | j <= q < j + n ensures MatchAt(s, q, sel) == MatchAt(b, q + (i - j), sel) {
      var k := q - j;
      assert s[q] == s[j..j + (n + 3)][k] && b[q + (i - j)] == b[i..i + (n + 3)][k];
      assert s[q + 1] == s[j..j + (n + 3)][k + 1] && b[q + (i - j) + 1] == b[i..i + (n + 3)][k + 1];
      assert s[q + 2] == s[j..j + (n + 3)][k + 2] && b[q + (i - j) + 2] == b[i..i + (n + 3)][k + 2];
      assert s[q + 3] == s[j..j + (n + 3)][k + 3] && b[q + (i - j) + 3] == b[i..i + (n + 3)][k + 3];
    }
  }

  lemma NoMatchEmpty(s: seq<byte>, a: int, b: int, sel: byte -> bool)
    requires b <= a
    ensures NoMatch(s, a, b, sel)
  {
  }

  lemma NoMatchJoin(s: seq<byte>, a: int, b: int, c: int, sel: byte -> bool)
    requires a <= b <= c && NoMatch(s, a, b, sel) && NoMatch(s, b, c, sel)
    ensures NoMatch(s, a, c, sel)
  {
  }

  /** Start codes that were complete stay what they were when the stream grows. */
  lemma NoMatchExtends(s: seq<byte>, s': seq<byte>, a: int, b: int, sel: byte -> bool)
    requires s <= s' && NoMatch(s, a, b, sel) && (b <= a || b + 3 <= |s|)
    ensures NoMatch(s', a, b, sel)
  {
    forall q | a <= q < b ensures !MatchAt(s', q, sel) {
      assert !MatchAt(s, q, sel);
    }
  }

  /** The masked comparison of the id byte made by SearchStreamId. */
  function Masked(pattern: byte, mask: byte): byte -> bool {
    (id: byte) => ((id as bv8) & (mask as bv8)) == pattern as bv8
  }

  /** The number of zero bytes right before position `hi`, looking no further back than `lo`. */
  function ZerosBefore(s: seq<byte>, lo: int, hi: int): (n: nat)
    requires 0 <= lo <= hi <= |s|
    ensures n <= hi - lo
    ensures forall i :: hi - n <= i < hi ==> s[i] == 0
    ensures n < hi - lo ==> s[hi - 1 - n] != 0
    decreases hi - lo
  {
    if hi == lo || s[hi - 1] != 0 then 0 else 1 + ZerosBefore(s, lo, hi - 1)
  }

  /** The pointers of the ring: array indices pIn, pOut and logical counters lIn, lOut. */
  datatype Ring = Ring(size: nat, pIn: int, pOut: int, lIn: int, lOut: int) {

    /** The array index of a live logical position. */
    function Phys(l: int): int {
      var o := l - lOut + pOut;
      if o < size then o else o - size
    }

    ghost predicate Ok() {
      && 0 <= pIn < size && 0 <= pOut < size
      && 0 <= lOut <= lIn && lIn - lOut < size
      && pIn == Phys(lIn)
    }

    function Granting(n: nat): (ok: bool) {
      pIn + n <= size && lIn - lOut + n < size
    }
  }

  ghost predicate Shape(b: seq<byte>, r: Ring, stream: seq<byte>) {
    r.Ok() && |b| == r.size + 3 && |stream| == r.lIn
  }

  ghost predicate Live(b: seq<byte>, r: Ring, stream: seq<byte>)
    requires Shape(b, r, stream)
  {
    forall l :: r.lOut <= l < r.lIn ==> b[r.Phys(l)] == stream[l]
  }

  /** The array holds every live byte of the stream where the pointers say. */
  ghost predicate Holds(b: seq<byte>, r: Ring, stream: seq<byte>) {
    Shape(b, r, stream) && Live(b, r, stream)
  }

  /** Live bytes whose places do not wrap lie in one stretch of the array. */
  lemma Stretch(b: seq<byte>, r: Ring, stream: seq<byte>, l: int, n: nat)
    requires Holds(b, r, stream) && r.lOut <= l && l + n <= r.lIn
    requires l - r.lOut + r.pOut + n <= r.size || r.size <= l - r.lOut + r.pOut
    ensures 0 <= r.Phys(l) && r.Phys(l) + n <= r.size
    ensures b[r.Phys(l)..r.Phys(l) + n] == stream[l..l + n]
  {
    var p := r.Phys(l);
    forall i | p <= i < p + n ensures b[i] == stream[i + (l - p)] {
      assert r.Phys(i + (l - p)) == i;
    }
    ShiftedSlices(b, p, stream, l, n);
  }

  /** Live bytes whose array index is not above pIn form one stretch ending at pIn. */
  lemma LayoutLow(b: seq<byte>, r: Ring, stream: seq<byte>, l: int)
    requires Holds(b, r, stream) && r.lOut <= l <= r.lIn && r.Phys(l) <= r.pIn
    ensures 0 <= r.Phys(l) == r.pIn - (r.lIn - l)
    ensures b[r.Phys(l)..r.pIn] == stream[l..r.lIn]
  {
    hide Live;
    Stretch(b, r, stream, l, r.lIn - l);
  }

  lemma LiveByte(b: seq<byte>, r: Ring, stream: seq<byte>, l: int)
    requires Holds(b, r, stream) && r.lOut <= l < r.lIn
    ensures 0 <= r.Phys(l) < r.size && b[r.Phys(l)] == stream[l]
    ensures r.Phys(l) == if r.Phys(l + 1) == 0 then r.size - 1 else r.Phys(l + 1) - 1
  {
  }

  /** Otherwise they run to the end of the array ... */
  lemma LayoutHigh(b: seq<byte>, r: Ring, stream: seq<byte>, l: int)
    requires Holds(b, r, stream) && r.lOut <= l <= r.lIn && r.Phys(l) > r.pIn
    ensures r.Phys(l) == l - r.lOut + r.pOut < r.size
    ensures l + (r.size - r.Phys(l)) == r.lIn - r.pIn
    ensures b[r.Phys(l)..r.size] == stream[l..r.lIn - r.pIn]
  {
    hide Live;
    Stretch(b, r, stream, l, r.size - r.Phys(l));
  }

  /** ... and continue at its start. */
  lemma LayoutWrapped(b: seq<byte>, r: Ring, stream: seq<byte>, l: int)
    requires Holds(b, r, stream) && r.lOut <= l <= r.lIn && r.Phys(l) > r.pIn
    ensures r.lOut <= r.lIn - r.pIn
    ensures b[..r.pIn] == stream[r.lIn - r.pIn..r.lIn]
  {
    hide Live;
    var from := r.lIn - r.pIn;
    Stretch(b, r, stream, from, r.pIn);
    if r.pIn > 0 {
      assert b[0..0 + r.pIn] == b[..r.pIn];
    }
  }

  /** The two pieces of a copy that crosses the end of the array are one stretch of the stream. */
  lemma Gather(b: seq<byte>, r: Ring, stream: seq<byte>, l: int, len: nat, lens: nat)
    requires Holds(b, r, stream) && r.lOut <= l && l + len <= r.lIn && r.Phys(l) > r.pIn
    requires lens <= len && r.Phys(l) + lens <= r.size && (lens < len ==> r.Phys(l) + lens == r.size)
    ensures len - lens <= r.pIn
    ensures b[r.Phys(l)..r.Phys(l) + lens] + b[..len - lens] == stream[l..l + len]
  {
    LayoutHigh(b, r, stream, l);
    var p := r.Phys(l);
    CutSlices(b, p, stream, l, r.size - p, lens);
    if lens < len {
      LayoutWrapped(b, r, stream, l);
      CutPrefix(b, stream, l + lens, r.pIn, len - lens);
    }
    SplitSlice(stream, l, l + lens, l + len);
  }

  /** What CopyBuffer puts together. */
  lemma Pieces(b: seq<byte>, r: Ring, stream: seq<byte>, l: int, len: nat)
    requires Holds(b, r, stream) && r.lOut <= l && l + len <= r.lIn
    ensures var p := r.Phys(l);
            if p > r.pIn then
              var lens := if r.size - p > len then len else r.size - p;
              p <= r.size && len - lens <= r.pIn && b[p..p + lens] + b[..len - lens] == stream[l..l + len]
            else 0 <= p && p + len <= r.size && b[p..p + len] == stream[l..l + len]
  {
    hide Live;
    var p := r.Phys(l);
    if p > r.pIn {
      Gather(b, r, stream, l, len, if r.size - p > len then len else r.size - p);
    } else {
      LayoutLow(b, r, stream, l);
      CutSlices(b, p, stream, l, r.pIn - p, len);
    }
  }

  /** With the first three array bytes repeated behind its end, a wrapping stretch can be read in one go. */
  lemma ShadowStretch(b: seq<byte>, b': seq<byte>, r: Ring, stream: seq<byte>, l: int)
    requires Holds(b, r, stream) && r.lOut <= l <= r.lIn && r.Phys(l) > r.pIn >= 3
    requires b' == b[..r.size] + b[..3]
    ensures l + (r.size - r.Phys(l)) + 3 <= r.lIn
    ensures b'[r.Phys(l)..r.size + 3] == stream[l..l + (r.size - r.Phys(l)) + 3]
  {
    Gather(b, r, stream, l, r.size - r.Phys(l) + 3, r.size - r.Phys(l));
    assert b'[r.Phys(l)..r.size + 3] == b[r.Phys(l)..r.size] + b[..3];
  }

  /** Writing behind pIn, within the space that may be granted, touches no live byte. */
  lemma DepositKeepsLive(b: seq<byte>, b': seq<byte>, r: Ring, stream: seq<byte>, n: nat)
    requires Holds(b, r, stream) && r.Granting(n) && |b'| == |b|
    requires forall i :: 0 <= i < |b| && !(r.pIn <= i < r.pIn + n) ==> b'[i] == b[i]
    ensures Holds(b', r, stream)
  {
    forall l | r.lOut <= l < r.lIn ensures b'[r.Phys(l)] == stream[l] {
      assert b[r.Phys(l)] == stream[l];
    }
  }

  lemma BlittedOutside(b: seq<byte>, at: nat, data: seq<byte>)
    requires at + |data| <= |b|
    ensures var c := Blitted(b, at, data);
            c[at..at + |data|] == data && forall i :: 0 <= i < |b| && !(at <= i < at + |data|) ==> c[i] == b[i]
  {
  }

  function Committed(r: Ring, n: nat): Ring {
    r.(lIn := r.lIn + n, pIn := if r.pIn + n == r.size then r.pIn + n - r.size else r.pIn + n)
  }

  lemma CommitExtends(b: seq<byte>, r: Ring, stream: seq<byte>, data: seq<byte>)
    requires Holds(b, r, stream) && r.Granting(|data|)
    requires b[r.pIn..r.pIn + |data|] == data
    ensures Holds(b, Committed(r, |data|), stream + data)
  {
    var r' := Committed(r, |data|);
    forall l | r'.lOut <= l < r'.lIn ensures b[r'.Phys(l)] == (stream + data)[l] {
      if l < r.lIn {
        assert b[r.Phys(l)] == stream[l];
      } else {
        assert b[r.pIn..r.pIn + |data|][l - r.lIn] == b[r'.Phys(l)];
      }
    }
  }

  function Discarded(r: Ring, ptr: int): Ring {
    var p := r.pOut + (ptr - r.lOut);
    r.(lOut := ptr, pOut := if p >= r.size then p - r.size else p)
  }

  lemma DiscardShrinks(b: seq<byte>, r: Ring, stream: seq<byte>, ptr: int)
    requires Holds(b, r, stream) && r.lOut <= ptr <= r.lIn
    ensures Holds(b, Discarded(r, ptr), stream)
    ensures forall l :: ptr <= l <= r.lIn ==> Discarded(r, ptr).Phys(l) == r.Phys(l)
  {
    forall l | ptr <= l < r.lIn ensures b[Discarded(r, ptr).Phys(l)] == stream[l] {
      assert b[r.Phys(l)] == stream[l];
    }
  }

  // ------------------------------------------------------------------ what other threads do, on values

  /** The pointers and everything committed so far. */
  datatype View = View(ring: Ring, stream: seq<byte>)

  /** The contiguous space that may be filled, one byte of the ring staying free. */
  function Space(r: Ring): (n: nat) {
    var a, b := r.size - r.pIn, r.size - 1 - (r.lIn - r.lOut);
    if a < 0 || b < 0 then 0 else Min(a, b)
  }

  lemma SpaceIsGrant(r: Ring, n: nat)
    requires r.Ok()
    ensures r.Granting(n) <==> n <= Space(r)
  {
  }

  /** As much as there is space for is committed; nothing is discarded from `floor` on. */
  ghost function After(v: View, a: Action, floor: int): View {
    match a
    case Commit(data) =>
      var n := Min(|data|, Space(v.ring));
      View(Committed(v.ring, n), v.stream + data[..n])
    case Discard(to) =>
      if v.ring.lOut <= to <= floor then v.(ring := Discarded(v.ring, to)) else v
  }

  ghost function AfterAll(v: View, actions: seq<Action>, floor: int): View {
    if actions == [] then v else After(AfterAll(v, actions[..|actions| - 1], floor), actions[|actions| - 1], floor)
  }

  /** After a number of waits, during each of which nothing is discarded from its floor on. */
  ghost function Played(v: View, waits: seq<seq<Action>>, floors: seq<int>): View
    requires |waits| == |floors|
    decreases |waits|
  {
    if waits == [] then v
    else
      var k := |waits| - 1;
      AfterAll(Played(v, waits[..k], floors[..k]), waits[k], floors[k])
  }

  /** The search has come to `at` without a match, short of its end but not of what can be read. */
  ghost predicate Stuck(v: View, ptr: int, end: int, at: int, sel: byte -> bool) {
    && |v.stream| == v.ring.lIn && v.ring.lOut <= at <= v.ring.lIn
    && ptr <= at < end && v.ring.lIn <= at + 5 && NoMatch(v.stream, ptr, at, sel)
  }

  ghost predicate GivesUp(v: View, ptr: int, end: int, sel: byte -> bool) {
    exists at :: Stuck(v, ptr, end, at, sel)
  }

  /** At each of its waits the search was stuck. */
  ghost predicate WaitsWell(v: View, waits: seq<seq<Action>>, floors: seq<int>, ptr: int, end: int, sel: byte -> bool) {
    && |floors| <= |waits|
    && forall k :: 0 <= k < |floors| ==> Stuck(Played(v, waits[..k], floors[..k]), ptr, end, floors[k], sel)
  }

  lemma PlayedMore(v: View, waits: seq<seq<Action>>, floors: seq<int>, at: int)
    requires |floors| < |waits|
    ensures Played(v, waits[..|floors| + 1], floors + [at])
            == AfterAll(Played(v, waits[..|floors|], floors), waits[|floors|], at)
  {
    hide AfterAll;
    var k := |floors|;
    assert waits[..k + 1][..k] == waits[..k];
    assert (floors + [at])[..k] == floors;
  }

  lemma WaitsMore(v: View, waits: seq<seq<Action>>, floors: seq<int>, at: int, ptr: int, end: int, sel: byte -> bool)
    requires WaitsWell(v, waits, floors, ptr, end, sel) && |floors| < |waits|
    requires Stuck(Played(v, waits[..|floors|], floors), ptr, end, at, sel)
    ensures WaitsWell(v, waits, floors + [at], ptr, end, sel)
  {
    hide Stuck;
    hide Played;
    var more := floors + [at];
    forall k | 0 <= k < |more| ensures Stuck(Played(v, waits[..k], more[..k]), ptr, end, more[k], sel) {
      assert more[..k] == floors[..k];
      if k == |floors| {
        assert floors[..k] == floors;
      }
    }
  }

  /** A start code that a search from `ptr` to `end` can read. */
  predicate Visible(v: View, ptr: int, end: int, q: int, sel: byte -> bool) {
    ptr <= q < end && q + 5 < |v.stream| && MatchAt(v.stream, q, sel)
  }

  /** There was none from the first wait to the last, nor behind it. */
  ghost predicate NeverVisible(v: View, waits: seq<seq<Action>>, floors: seq<int>, ptr: int, end: int,
                               sel: byte -> bool)
    requires |floors| <= |waits|
  {
    forall k, q :: 0 <= k <= |floors| ==> !Visible(Played(v, waits[..k], floors[..k]), ptr, end, q, sel)
  }

  lemma NoneSeen(v: View, waits: seq<seq<Action>>, floors: seq<int>, ptr: int, end: int, sel: byte -> bool)
    requires WaitsWell(v, waits, floors, ptr, end, sel)
    requires var last := Played(v, waits[..|floors|], floors);
             GivesUp(last, ptr, end, sel) || NoMatch(last.stream, ptr, end, sel)
    ensures NeverVisible(v, waits, floors, ptr, end, sel)
  {
    hide Played;
    hide MatchAt;
    forall k, q | 0 <= k <= |floors| ensures !Visible(Played(v, waits[..k], floors[..k]), ptr, end, q, sel) {
      if k < |floors| {
        assert Stuck(Played(v, waits[..k], floors[..k]), ptr, end, floors[k], sel);
      } else {
        assert floors[..k] == floors;
      }
    }
  }

  class CBuffer {
    const size: nat
    const buf: array<byte>
    var pIn: nat
    var pOut: nat
    var lIn: int
    var lOut: int

    /** Everything ever committed: the byte at logical position l is stream[l]. */
    ghost var stream: seq<byte>
    /** How often the out pointer has wrapped. */
    ghost var lap: nat
    /** The space last handed to the producer, and what it has put there so far. */
    ghost var granted: nat
    ghost var pending: seq<byte>

    function Ptrs(): Ring
      reads this
    {
      Ring(size, pIn, pOut, lIn, lOut)
    }

    ghost function Now(): View
      reads this
    {
      View(Ptrs(), stream)
    }

    ghost predicate Valid()
      reads this, buf
    {
      && buf.Length == size + 3
      && Holds(buf[..], Ptrs(), stream)
      && lOut == lap * size + pOut
      && |pending| <= granted && Ptrs().Granting(granted)
      && buf[pIn..pIn + |pending|] == pending
    }

    constructor (n: nat)
      requires 0 < n
      ensures Valid() && fresh(buf) && size == n
      ensures stream == [] && lIn == lOut == 0 && granted == 0 && pending == []
    {
      size := n;
      buf := new byte[n + 3](i => 0);
      pIn, pOut, lIn, lOut := 0, 0, 0, 0;
      stream, lap, granted, pending := [], 0, 0, [];
    }

    // ---------------------------------------------------------------- producer

    method GetNextFillBuffer() returns (at: nat, len: nat)
      requires Valid()
      modifies this`granted, this`pending
      ensures Valid() && granted == len && pending == [] && at == pIn
      ensures !Ptrs().Granting(len + 1)
    {
      hide Live;
      at := pIn;
      if pOut > pIn {
        len := pOut - pIn;
      } else {
        len := size - pIn;
      }
      if lIn - lOut + len == size {
        len := len - 1;
      }
      granted, pending := len, [];
    }

    /** The producer's read() or memcpy into the space it was granted. */
    method Deposit(data: seq<byte>)
      requires Valid() && |data| <= granted
      modifies this`pending, buf
      ensures Valid() && pending == data
    {
      hide Live;
      ghost var was := buf[..];
      Blit(buf, pIn, data);
      pending := data;
      BlittedOutside(was, pIn, data);
      DepositKeepsLive(was, buf[..], Ptrs(), stream, |data|);
      assert buf[pIn..pIn + |data|] == buf[..][pIn..pIn + |data|];
    }

    method CommitFillBuffer(len: nat)
      requires Valid() && len <= |pending|
      modifies this`pIn, this`lIn, this`stream, this`granted, this`pending
      ensures Valid() && granted == 0 && pending == []
      ensures stream == old(stream) + old(pending)[..len] && Ptrs() == Committed(old(Ptrs()), len)
    {
      hide Live;
      ghost var put := pending[..len];
      CutSlices(buf[..], pIn, pending, 0, |pending|, len);
      assert pending[0..0 + len] == put;
      CommitExtends(buf[..], Ptrs(), stream, put);
      pIn := pIn + len;
      lIn := lIn + len;
      if pIn == size {
        pIn := pIn - size;
      }
      stream := stream + put;
      granted, pending := 0, [];
    }

    // ---------------------------------------------------------------- consumer

    /** False stands for the "Underrun" exit. */
    method DiscardToPtr(ptr: int) returns (ok: bool)
      requires Valid()
      modifies this`pOut, this`lOut, this`lap
      ensures Valid()
      ensures ok <==> old(lOut) <= ptr <= lIn
      ensures Ptrs() == if ok then Discarded(old(Ptrs()), ptr) else old(Ptrs())
      ensures forall l :: lOut <= l <= lIn ==> Ptrs().Phys(l) == old(Ptrs()).Phys(l)
    {
      hide Live;
      if ptr < lOut || ptr > lIn {
        return false;
      }
      DiscardShrinks(buf[..], Ptrs(), stream, ptr);
      var bytes := ptr - lOut;
      lOut := ptr;
      pOut := pOut + bytes;
      if pOut >= size {
        pOut := pOut - size;
        lap := lap + 1;
      }
      return true;
    }

    /** The array index of a live position. */
    method Place(ptr: int) returns (pAct: nat)
      requires Valid() && lOut <= ptr <= lIn
      ensures pAct == Ptrs().Phys(ptr)
    {
      hide Live;
      pAct := pOut + (ptr - lOut);
      if pAct >= size {
        pAct := pAct - size;
      }
    }

    /** The logical bytes [ptr, ptr + len), gathered in one or two pieces. */
    method CopyBuffer(ptr: int, len: nat) returns (r: CopyResult)
      requires Valid()
      ensures ptr < lOut ==> r == NotInBuffer
      ensures lOut <= ptr && ptr + len > lIn ==> r == Waiting
      ensures lOut <= ptr && ptr + len <= lIn ==> r == Copied(stream[ptr..ptr + len])
    {
      hide Live;
      if ptr < lOut {
        return NotInBuffer;
      }
      if ptr + len > lIn {
        return Waiting;
      }
      hide Holds;
      var pAct := Place(ptr);
      Pieces(buf[..], Ptrs(), stream, ptr, len);
      if pAct > pIn {
        var len2 := size - pAct;
        var lens := if len2 > len then len else len2;
        return Copied(buf[..][pAct..pAct + lens] + buf[..][..len - lens]);
      }
      return Copied(buf[..][pAct..pAct + len]);
    }

    /** The backward loop of RemovePadding, run outside the lock. */
    method CountZeros(start: int, len: nat, ghost lptr: int, ghost r: Ring, ghost st: seq<byte>) returns (n: nat)
      requires Holds(buf[..], r, st) && r.size == size
      requires r.lOut <= lptr && lptr + len <= r.lIn && start == r.Phys(lptr + len)
      ensures n == ZerosBefore(st, lptr, lptr + len)
    {
      hide Live;
      var pAct := start;
      n := 0;
      while n < len
        invariant n <= len && pAct == r.Phys(lptr + len - n)
        invariant ZerosBefore(st, lptr, lptr + len) == n + ZerosBefore(st, lptr, lptr + len - n)
      {
        pAct := pAct - 1;
        if pAct < 0 {
          pAct := size - 1;
        }
        LiveByte(buf[..], r, st, lptr + len - n - 1);
        if buf[pAct] != 0 {
          break;
        }
        n := n + 1;
      }
    }

    /** Trims trailing zeros from a stretch of the stream, keeping at most four of them. */
    method RemovePadding(lptr: int, len: nat) returns (r: int, ok: bool)
      requires Valid() && lptr + len <= lIn
      ensures ok <==> lOut <= lptr < lIn
      ensures ok ==>
                var zeros := ZerosBefore(stream, lptr, lptr + len);
                r == len - if zeros > 4 then zeros - 4 else 0
    {
      hide Live;
      if lptr < lOut || lptr >= lIn {
        return 0, false;
      }
      var pAct := pOut + (lptr - lOut) + len;
      if pAct >= size {
        pAct := pAct - size;
      }
      assert pAct == Ptrs().Phys(lptr + len);
      var n := CountZeros(pAct, len, lptr, Ptrs(), stream);
      r := len;
      if n > 4 {
        r := len - (n - 4);
      }
      ok := true;
    }

    // ---------------------------------------------------------------- other threads during a wait

    method Perform(a: Action, floor: int)
      requires Valid() && lOut <= floor <= lIn
      modifies this, buf
      ensures Valid() && lOut <= floor <= lIn && old(lOut) <= lOut
      ensures Now() == After(old(Now()), a, floor)
      ensures old(stream) <= stream
      ensures Ptrs().Phys(floor) == old(Ptrs()).Phys(floor)
    {
      hide Live;
      match a
      case Commit(data) => Supply(data, floor);
      case Discard(to) =>
        if to <= floor {
          var _ := DiscardToPtr(to);
        }
    }

    lemma SupplyIs(v: View, data: seq<byte>, floor: int, n: nat)
      requires n == Min(|data|, Space(v.ring))
      ensures After(v, Commit(data), floor) == View(Committed(v.ring, n), v.stream + data[..n])
    {
    }

    lemma CommitKeepsPlaces(r: Ring, n: nat, l: int)
      ensures Committed(r, n).Phys(l) == r.Phys(l) && Committed(r, n).lIn == r.lIn + n
    {
    }

    /** The producer puts in as much as there is space for. */
    method Supply(data: seq<byte>, ghost floor: int)
      requires Valid() && lOut <= floor <= lIn
      modifies this`pIn, this`lIn, this`stream, this`granted, this`pending, buf
      ensures Valid() && floor <= lIn && Now() == After(old(Now()), Commit(data), floor)
      ensures old(stream) <= stream && Ptrs().Phys(floor) == old(Ptrs()).Phys(floor)
    {
      hide Live;
      hide Holds;
      hide Valid;
      hide Space;
      hide Committed;
      hide Discarded;
      hide After;
      var _, len := GetNextFillBuffer();
      GrantIsSpace();
      var n := if |data| < len then |data| else len;
      SupplyIs(Now(), data, floor, n);
      Deposit(data[..n]);
      CommitFillBuffer(n);
      CommitKeepsPlaces(old(Ptrs()), n, floor);
    }

    lemma GrantIsSpace()
      requires Valid() && !Ptrs().Granting(granted + 1)
      ensures granted == Space(Now().ring) && Now() == View(Ptrs(), stream) && |stream| == lIn == Ptrs().lIn
    {
      SpaceIsGrant(Ptrs(), granted);
      SpaceIsGrant(Ptrs(), granted + 1);
      hide Live;
    }

    method Wait(actions: seq<Action>, floor: int)
      requires Valid() && lOut <= floor <= lIn
      modifies this, buf
      ensures Valid() && lOut <= floor <= lIn && old(lOut) <= lOut
      ensures Now() == AfterAll(old(Now()), actions, floor)
      ensures old(stream) <= stream
      ensures Ptrs().Phys(floor) == old(Ptrs()).Phys(floor)
    {
      hide Live;
      hide After;
      for i := 0 to |actions|
        invariant Valid() && lOut <= floor <= lIn && old(lOut) <= lOut
        invariant Now() == AfterAll(old(Now()), actions[..i], floor)
        invariant old(stream) <= stream
        invariant Ptrs().Phys(floor) == old(Ptrs()).Phys(floor)
      {
        Perform(actions[i], floor);
        assert actions[..i + 1][..i] == actions[..i];
      }
      assert actions[..|actions|] == actions;
    }

    // ---------------------------------------------------------------- start code search

    /** The comparison loop of SearchStreamId over `lens` array positions. */
    method Scan(pAct: nat, lens: nat, sel: byte -> bool) returns (p: nat, found: bool)
      requires pAct + lens + 3 <= buf.Length
      ensures pAct <= p <= pAct + lens
      ensures NoMatch(buf[..], pAct, p, sel)
      ensures if found then p < pAct + lens && MatchAt(buf[..], p, sel) else p == pAct + lens
    {
      p, found := pAct, false;
      while p < pAct + lens && !found
        invariant pAct <= p <= pAct + lens
        invariant NoMatch(buf[..], pAct, p, sel)
        invariant found ==> p < pAct + lens && MatchAt(buf[..], p, sel)
        decreases pAct + lens - p, !found
      {
        if buf[p] == 0 && buf[p + 1] == 0 && buf[p + 2] == 1 && sel(buf[p + 3]) {
          found := true;
        } else {
          p := p + 1;
        }
      }
    }

    /** The same in stream positions, for a stretch of the array that equals the stream from `cur` on. */
    method ScanStretch(pAct: nat, lens: nat, sel: byte -> bool, ghost cur: int) returns (p: nat, found: bool, id: byte)
      requires pAct + (lens + 3) <= buf.Length && 0 <= cur && cur + (lens + 3) <= |stream|
      requires buf[..][pAct..pAct + (lens + 3)] == stream[cur..cur + (lens + 3)]
      ensures pAct <= p <= pAct + lens
      ensures NoMatch(stream, cur, cur + (p - pAct), sel)
      ensures if found then
                MatchAt(stream, cur + (p - pAct), sel) && p < pAct + lens && id == stream[cur + (p - pAct) + 3]
              else p == pAct + lens
    {
      SameMatches(buf[..], pAct, stream, cur, lens, sel);
      p, found := Scan(pAct, lens, sel);
      id := 0;
      if found {
        SliceAt(buf[..], pAct, stream, cur, lens + 3, p - pAct + 3);
        id := buf[p + 3];
      }
    }

    /** Search the first `len` of `len2` readable positions of a stretch. */
    method Decide(pAct: nat, len: nat, len2: nat, sel: byte -> bool, ghost cur: int)
      returns (p: nat, found: bool, id: byte, lens: nat)
      requires len2 > 0 ==> pAct + (len2 + 3) <= buf.Length && 0 <= cur && cur + (len2 + 3) <= |stream|
      requires len2 > 0 ==> buf[..][pAct..pAct + (len2 + 3)] == stream[cur..cur + (len2 + 3)]
      ensures lens == (if len2 > len then len else len2) && pAct <= p <= pAct + lens
      ensures NoMatch(stream, cur, cur + (p - pAct), sel)
      ensures if found then
                MatchAt(stream, cur + (p - pAct), sel) && p < pAct + lens && id == stream[cur + (p - pAct) + 3]
              else p == pAct + lens
    {
      lens := if len2 > len then len else len2;
      if lens > 0 {
        CutSlices(buf[..], pAct, stream, cur, len2 + 3, lens + 3);
        p, found, id := ScanStretch(pAct, lens, sel, cur);
      } else {
        p, found, id := pAct, false, 0;
      }
    }

    /** How many positions can be searched in the stretch that ends at pIn. */
    method ReadableLow(pAct: nat, ghost cur: int) returns (len2: nat)
      requires Valid() && lOut <= cur <= lIn && pAct == Ptrs().Phys(cur) <= pIn
      ensures cur == lIn - (pIn - pAct)
      ensures len2 == if pIn - pAct > 3 then pIn - pAct - 3 else 0
      ensures len2 > 0 ==> buf[..][pAct..pAct + (len2 + 3)] == stream[cur..cur + (len2 + 3)]
    {
      hide Live;
      LayoutLow(buf[..], Ptrs(), stream, cur);
      len2 := if pIn - pAct > 3 then pIn - pAct - 3 else 0;
    }

    /** How many can be searched up to the end of the array, filling the shadow area when pIn allows it. */
    method ReadableHigh(pAct: nat, ghost cur: int) returns (len2: nat)
      requires Valid() && lOut <= cur <= lIn && pAct == Ptrs().Phys(cur) > pIn
      modifies buf
      ensures Valid()
      ensures cur == lOut + (pAct - pOut) && cur + (size - pAct) + pIn == lIn && pAct < size
      ensures if pIn >= 3 then len2 == size - pAct else len2 == if size - pAct > 3 then size - pAct - 3 else 0
      ensures len2 > 0 ==> buf[..][pAct..pAct + (len2 + 3)] == stream[cur..cur + (len2 + 3)]
    {
      hide Live;
      LayoutHigh(buf[..], Ptrs(), stream, cur);
      len2 := size - pAct;
      if pIn >= 3 {
        FillShadow(cur);
      } else {
        len2 := if len2 - 3 < 0 then 0 else len2 - 3;
      }
    }

    /**
     One round of the search loop: `lens` further positions are decided, and a match is
     reported at the logical position computed from whichever pointer shares its stretch.
     */
    method SearchRound(pAct: nat, len: nat, sel: byte -> bool, ghost cur: int)
      returns (p: nat, lfound: int, id: byte, lens: nat, wrapped: bool)
      requires Valid() && lOut <= cur <= lIn && pAct == Ptrs().Phys(cur)
      modifies buf
      ensures Valid() && lens <= len
      ensures lens > 0 ==> cur + lens + 3 <= lIn
      ensures lfound != -1 ==> cur <= lfound < cur + lens && NoMatch(stream, cur, lfound, sel)
                               && MatchAt(stream, lfound, sel) && id == stream[lfound + 3]
      ensures lfound == -1 ==> NoMatch(stream, cur, cur + lens, sel) && p == Ptrs().Phys(cur + lens)
      ensures lfound == -1 && wrapped ==> lens > 0
      ensures lfound == -1 && !wrapped && lens < len ==> cur + lens + 5 >= lIn
    {
      hide *;
      if pAct <= pIn {
        p, lfound, id, lens := SearchLow(pAct, len, sel, cur);
        wrapped := false;
      } else {
        p, lfound, id, lens, wrapped := SearchHigh(pAct, len, sel, cur);
      }
    }

    method SearchLow(pAct: nat, len: nat, sel: byte -> bool, ghost cur: int)
      returns (p: nat, lfound: int, id: byte, lens: nat)
      requires Valid() && lOut <= cur <= lIn && pAct == Ptrs().Phys(cur) <= pIn
      ensures lens <= len && (lens > 0 ==> cur + lens + 3 <= lIn)
      ensures lfound != -1 ==> cur <= lfound < cur + lens && NoMatch(stream, cur, lfound, sel)
                               && MatchAt(stream, lfound, sel) && id == stream[lfound + 3]
      ensures lfound == -1 ==> NoMatch(stream, cur, cur + lens, sel) && p == Ptrs().Phys(cur + lens)
      ensures lfound == -1 && lens < len ==> cur + lens + 5 >= lIn
    {
      hide Live;
      hide MatchAt;
      hide NoMatch;
      lfound := -1;
      var len2 := ReadableLow(pAct, cur);
      var found;
      p, found, id, lens := Decide(pAct, len, len2, sel, cur);
      if found {
        lfound := lIn - (pIn - p);
      }
    }

    method SearchHigh(pAct: nat, len: nat, sel: byte -> bool, ghost cur: int)
      returns (p: nat, lfound: int, id: byte, lens: nat, wrapped: bool)
      requires Valid() && lOut <= cur <= lIn && pAct == Ptrs().Phys(cur) > pIn
      modifies buf
      ensures Valid() && lens <= len
      ensures lens > 0 ==> cur + lens + 3 <= lIn
      ensures lfound != -1 ==> cur <= lfound < cur + lens && NoMatch(stream, cur, lfound, sel)
                               && MatchAt(stream, lfound, sel) && id == stream[lfound + 3]
      ensures lfound == -1 ==> NoMatch(stream, cur, cur + lens, sel) && p == Ptrs().Phys(cur + lens)
      ensures lfound == -1 && wrapped ==> lens > 0
      ensures lfound == -1 && !wrapped && lens < len ==> cur + lens + 5 >= lIn
    {
      hide Live;
      hide MatchAt;
      hide NoMatch;
      lfound, wrapped := -1, false;
      var len2 := ReadableHigh(pAct, cur);
      var found;
      p, found, id, lens := Decide(pAct, len, len2, sel, cur);
      if found {
        lfound := lOut + (p - pOut);
      }
      if p == size {
        p, wrapped := p - size, true;
      }
    }

    /** memcpy of the first three bytes behind the end of the array. */
    method FillShadow(ghost cur: int)
      requires Valid() && lOut <= cur <= lIn && Ptrs().Phys(cur) > pIn >= 3
      modifies buf
      ensures Valid()
      ensures cur + (size - Ptrs().Phys(cur)) + 3 <= lIn
      ensures buf[Ptrs().Phys(cur)..size + 3] == stream[cur..cur + (size - Ptrs().Phys(cur)) + 3]
    {
      hide Live;
      ghost var was := buf[..];
      buf[size], buf[size + 1], buf[size + 2] := buf[0], buf[1], buf[2];
      assert buf[..] == was[..size] + was[..3];
      ShadowKeeps(was, buf[..]);
      ShadowStretch(was, buf[..], Ptrs(), stream, cur);
      assert buf[pIn..pIn + |pending|] == was[pIn..pIn + |pending|];
    }

    /** Filling the shadow area changes nothing that is live or pending. */
    lemma ShadowKeeps(was: seq<byte>, now: seq<byte>)
      requires size >= 3 && |was| == |now| == size + 3 && now[..size] == was[..size]
      requires Holds(was, Ptrs(), stream)
      ensures Holds(now, Ptrs(), stream)
    {
      forall l | lOut <= l < lIn ensures now[Ptrs().Phys(l)] == stream[l] {
        assert was[..size][Ptrs().Phys(l)] == now[..size][Ptrs().Phys(l)];
      }
    }

    lemma StreamSize()
      requires Valid()
      ensures |stream| == lIn && size > 0
    {
    }

    lemma StuckNow(ptr: int, end: int, at: int, sel: byte -> bool)
      requires Valid() && lOut <= at <= lIn && ptr <= at < end && lIn <= at + 5 && NoMatch(stream, ptr, at, sel)
      ensures Stuck(Now(), ptr, end, at, sel) && GivesUp(Now(), ptr, end, sel)
    {
      assert Stuck(Now(), ptr, end, at, sel);
    }

    /**
     SearchStreamId. `waits` is what the other threads do during each wait on the condition variable;
     when it is used up the wait times out. Other threads discard no further than the position being
     searched: `floors` are the positions at the waits made. The search waits only as long as there is
     no start code that it can read, and gives up only when all waits have been made.
     */
    method SearchStreamId(ptr: int, len0: nat, sel: byte -> bool, waits: seq<seq<Action>>)
      returns (r: SearchResult, ghost floors: seq<int>)
      requires Valid()
      modifies this, buf
      ensures Valid() && old(stream) <= stream
      ensures r.BadPointer? <==> !(old(lOut) <= ptr <= old(lIn))
      ensures var len := if len0 == 0 then size else len0;
              && WaitsWell(old(Now()), waits, floors, ptr, ptr + len, sel)
              && Now() == Played(old(Now()), waits[..|floors|], floors)
              && match r
                 case Found(q, id) =>
                   && ptr <= q < ptr + len && NoMatch(stream, ptr, q, sel)
                   && MatchAt(stream, q, sel) && id == stream[q + 3] && lOut <= q
                 case NotFound => ptr + len + 3 <= lIn && NoMatch(stream, ptr, ptr + len, sel)
                 case Timeout => |floors| == |waits| && GivesUp(Now(), ptr, ptr + len, sel)
                 case BadPointer => floors == []
      ensures r.Timeout? || r.NotFound? ==>
                NeverVisible(old(Now()), waits, floors, ptr, ptr + (if len0 == 0 then size else len0), sel)
    {
      hide *;
      floors := [];
      assert waits[..0] == [];
      BeforeWaits(Now(), waits, ptr, ptr + (if len0 == 0 then size else len0), sel);
      if ptr < lOut || ptr > lIn {
        return BadPointer, [];
      }
      NoMatchEmpty(stream, ptr, ptr, sel);
      StreamSize();
      var len := if len0 == 0 then size else len0;
      ghost var end := ptr + len;
      var cur := ptr;
      var pAct := Place(ptr);
      var w := 0;
      while len > 0
        invariant Valid() && old(stream) <= stream && w == |floors| <= |waits|
        invariant WaitsWell(old(Now()), waits, floors, ptr, end, sel)
        invariant Now() == Played(old(Now()), waits[..w], floors)
        invariant 0 <= len && ptr <= cur && lOut <= cur <= lIn && cur + len == end
        invariant cur == ptr || cur + 3 <= lIn
        invariant pAct == Ptrs().Phys(cur)
        invariant NoMatch(stream, ptr, cur, sel)
        decreases len + |waits| - w
      {
        ghost var was := Now();
        var p, lfound, id, lens, wrapped := SearchRound(pAct, len, sel, cur);
        assert Now() == was;
        if lfound != -1 {
          NoMatchJoin(stream, ptr, cur, lfound, sel);
          return Found(lfound, id), floors;
        }
        NoMatchJoin(stream, ptr, cur, cur + lens, sel);
        cur, pAct, len := cur + lens, p, len - lens;
        if !wrapped && len > 0 {
          StuckNow(ptr, end, cur, sel);
          if w == |waits| {
            NoneSeen(old(Now()), waits, floors, ptr, end, sel);
            return Timeout, floors;
          }
          ghost var seen := stream;
          StreamSize();
          WaitsMore(old(Now()), waits, floors, cur, ptr, end, sel);
          PlayedMore(old(Now()), waits, floors, cur);
          Wait(waits[w], cur);
          StreamSize();
          NoMatchExtends(seen, stream, ptr, cur, sel);
          w, floors := w + 1, floors + [cur];
        }
      }
      NoneSeenBy(old(Now()), Now(), waits, floors, ptr, end, sel);
      return NotFound, floors;
    }

    lemma NoneSeenBy(v: View, last: View, waits: seq<seq<Action>>, floors: seq<int>, ptr: int, end: int,
                     sel: byte -> bool)
      requires WaitsWell(v, waits, floors, ptr, end, sel) && |floors| <= |waits|
      requires last == Played(v, waits[..|floors|], floors) && last == Now() && NoMatch(stream, ptr, end, sel)
      ensures NeverVisible(v, waits, floors, ptr, end, sel)
    {
      hide WaitsWell;
      hide Played;
      hide NeverVisible;
      NoneSeen(v, waits, floors, ptr, end, sel);
    }

    lemma BeforeWaits(v: View, waits: seq<seq<Action>>, ptr: int, end: int, sel: byte -> bool)
      ensures WaitsWell(v, waits, [], ptr, end, sel) && Played(v, [], []) == v
    {
    }

    /** The physical pointers are the logical counters modulo the size, and they meet only when empty. */
    lemma PointersAreCountersModSize()
      requires Valid()
      ensures pOut == lOut % size && pIn == lIn % size
      ensures pIn == pOut <==> lIn == lOut
    {
      DivUnique(lOut, size, lap, pOut);
      if lIn - lOut + pOut < size {
        DivUnique(lIn, size, lap, pIn);
      } else {
        DivUnique(lIn, size, lap + 1, pIn);
      }
    }
  }
}
