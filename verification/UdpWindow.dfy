/**
 The reassembly window of mkdvd's recorder: numbered packets arrive in any order, fifteen slots of
 consecutive packets are filled, and a writer empties the slots in order, well behind the receiver.
 */
module UdpWindow {

  import opened Arithmetic
  import opened Bytes

  const STREAM_BUF_NUM := 15
  const WRITE_READ_DISTANCE := 5

  type Data = seq<byte>

  // ------------------------------------------------------------------ the tables

  function ReadWriteBuf(r: nat): (row: seq<int>)
    ensures |row| == STREAM_BUF_NUM
  {
    match r
    case 0 => [0, 0, 0, 0, 0, 0, 0, 0, 0, 0, 1, 1, 1, 1, 1]
    case 1 => [1, 0, 0, 0, 0, 0, 0, 0, 0, 0, 0, 1, 1, 1, 1]
    case 2 => [1, 1, 0, 0, 0, 0, 0, 0, 0, 0, 0, 0, 1, 1, 1]
    case 3 => [1, 1, 1, 0, 0, 0, 0, 0, 0, 0, 0, 0, 0, 1, 1]
    case 4 => [1, 1, 1, 1, 0, 0, 0, 0, 0, 0, 0, 0, 0, 0, 1]
    case 5 => [1, 1, 1, 1, 1, 0, 0, 0, 0, 0, 0, 0, 0, 0, 0]
    case 6 => [0, 1, 1, 1, 1, 1, 0, 0, 0, 0, 0, 0, 0, 0, 0]
    case 7 => [0, 0, 1, 1, 1, 1, 1, 0, 0, 0, 0, 0, 0, 0, 0]
    case 8 => [0, 0, 0, 1, 1, 1, 1, 1, 0, 0, 0, 0, 0, 0, 0]
    case 9 => [0, 0, 0, 0, 1, 1, 1, 1, 1, 0, 0, 0, 0, 0, 0]
    case 10 => [0, 0, 0, 0, 0, 1, 1, 1, 1, 1, 0, 0, 0, 0, 0]
    case 11 => [0, 0, 0, 0, 0, 0, 1, 1, 1, 1, 1, 0, 0, 0, 0]
    case 12 => [0, 0, 0, 0, 0, 0, 0, 1, 1, 1, 1, 1, 0, 0, 0]
    case 13 => [0, 0, 0, 0, 0, 0, 0, 0, 1, 1, 1, 1, 1, 0, 0]
    case _ => [0, 0, 0, 0, 0, 0, 0, 0, 0, 1, 1, 1, 1, 1, 0]
  }

  function NextStreamBuf(i: nat): (j: nat)
    requires i < STREAM_BUF_NUM
    ensures j < STREAM_BUF_NUM
  {
    if i == STREAM_BUF_NUM - 1 then 0 else i + 1
  }

  /** How far slot `w` is ahead of slot `r` on the ring. */
  function Ahead(r: nat, w: nat): (d: nat)
    requires r < STREAM_BUF_NUM && w < STREAM_BUF_NUM
    ensures d < STREAM_BUF_NUM
  {
    if w >= r then w - r else w + STREAM_BUF_NUM - r
  }

  lemma RowsLow(r: nat, w: nat)
    requires r < 5 && w < STREAM_BUF_NUM
    ensures ReadWriteBuf(r)[w] == 1 <==> Ahead(r, w) >= 10
  {
  }

  lemma RowsMid(r: nat, w: nat)
    requires 5 <= r < 10 && w < STREAM_BUF_NUM
    ensures ReadWriteBuf(r)[w] == 1 <==> Ahead(r, w) >= 10
  {
  }

  lemma RowsHigh(r: nat, w: nat)
    requires 10 <= r < 15 && w < STREAM_BUF_NUM
    ensures ReadWriteBuf(r)[w] == 1 <==> Ahead(r, w) >= 10
  {
  }

  /** The table lets the writer read when the receiver is at least ten slots ahead on the ring. */
  lemma TableMeansDistance(r: nat, w: nat)
    requires r < STREAM_BUF_NUM && w < STREAM_BUF_NUM
    ensures ReadWriteBuf(r)[w] == 1 <==> Ahead(r, w) >= 10
  {
    hide ReadWriteBuf;
    hide Ahead;
    if r < 5 {
      RowsLow(r, w);
    } else if r < 10 {
      RowsMid(r, w);
    } else {
      RowsHigh(r, w);
    }
  }

  // ------------------------------------------------------------------ which counts the slots hold

  /** The slot of a count; the writer starts behind count -1. */
  function Slot(c: int): (i: nat)
    requires c >= -1
    ensures i < STREAM_BUF_NUM
  {
    (c + STREAM_BUF_NUM) % STREAM_BUF_NUM
  }

  lemma SlotNext(c: int)
    requires c >= -1
    ensures Slot(c + 1) == NextStreamBuf(Slot(c))
  {
    var q, r := (c + STREAM_BUF_NUM) / STREAM_BUF_NUM, Slot(c);
    assert c + STREAM_BUF_NUM == q * STREAM_BUF_NUM + r;
    if r == STREAM_BUF_NUM - 1 {
      DivUnique(c + 1 + STREAM_BUF_NUM, STREAM_BUF_NUM, q + 1, 0);
    } else {
      DivUnique(c + 1 + STREAM_BUF_NUM, STREAM_BUF_NUM, q, r + 1);
    }
  }

  /** What slot `i` holds when `w` is the latest count. */
  function CountAt(w: nat, i: nat): (c: int)
    requires i < STREAM_BUF_NUM
    ensures c >= -1
  {
    var c := w - Ahead(i, Slot(w));
    if c < 0 then -1 else c
  }

  lemma AheadOfCount(c: int, w: int)
    requires -1 <= c <= w < c + STREAM_BUF_NUM
    ensures Ahead(Slot(c), Slot(w)) == w - c
  {
    var q, r, d := (c + STREAM_BUF_NUM) / STREAM_BUF_NUM, Slot(c), w - c;
    assert c + STREAM_BUF_NUM == q * STREAM_BUF_NUM + r;
    if r + d < STREAM_BUF_NUM {
      DivUnique(w + STREAM_BUF_NUM, STREAM_BUF_NUM, q, r + d);
    } else {
      DivUnique(w + STREAM_BUF_NUM, STREAM_BUF_NUM, q + 1, r + d - STREAM_BUF_NUM);
    }
  }

  /** Going back from count `w` by the distance to slot `i` leads to that slot. */
  lemma SlotBack(w: nat, i: nat)
    requires i < STREAM_BUF_NUM && w - Ahead(i, Slot(w)) >= -1
    ensures Slot(w - Ahead(i, Slot(w))) == i
  {
    var q, s, d := (w + STREAM_BUF_NUM) / STREAM_BUF_NUM, Slot(w), Ahead(i, Slot(w));
    assert w + STREAM_BUF_NUM == q * STREAM_BUF_NUM + s;
    DivUnique(w - d + STREAM_BUF_NUM, STREAM_BUF_NUM, if s >= i then q else q - 1, i);
  }

  /** The slots hold exactly the latest fifteen counts, each in the slot of its residue. */
  lemma CountAtExactly(w: nat, c: nat, i: nat)
    requires i < STREAM_BUF_NUM
    ensures CountAt(w, i) == c <==> w - STREAM_BUF_NUM < c <= w && i == Slot(c)
  {
    if w - STREAM_BUF_NUM < c <= w && i == Slot(c) {
      AheadOfCount(c, w);
    }
    if CountAt(w, i) == c {
      SlotBack(w, i);
    }
    hide Slot;
    hide Ahead;
  }

  lemma CountAtNext(w: nat, i: nat)
    requires i < STREAM_BUF_NUM
    ensures CountAt(w + 1, i) == if i == Slot(w + 1) then w + 1 else CountAt(w, i)
  {
    SlotNext(w);
  }

  ghost predicate Window(bufCount: seq<int>, w: nat) {
    |bufCount| == STREAM_BUF_NUM && forall i :: 0 <= i < STREAM_BUF_NUM ==> bufCount[i] == CountAt(w, i)
  }

  lemma WindowNext(bufCount: seq<int>, w: nat)
    requires Window(bufCount, w)
    ensures bufCount[Slot(w)] == w
    ensures Window(bufCount[Slot(w + 1) := w + 1], w + 1)
  {
    CountAtExactly(w, w, Slot(w));
    forall i | 0 <= i < STREAM_BUF_NUM ensures CountAt(w + 1, i) == if i == Slot(w + 1) then w + 1 else CountAt(w, i) {
      CountAtNext(w, i);
    }
    hide CountAt;
    hide Slot;
  }

  // ------------------------------------------------------------------ what the slots contain

  /** One slot: for each of its packets whether it is there, and its data. */
  datatype Block = Block(status: seq<bool>, data: seq<Data>)

  /** A packet is named by its count and its place in the block. */
  type Name = (nat, nat)

  ghost function Payload(payload: nat -> Data, p: nat, c: nat, v: nat): Data {
    payload(c * p + v)
  }

  ghost predicate Shaped(blocks: seq<Block>, p: nat) {
    && |blocks| == STREAM_BUF_NUM
    && forall i :: 0 <= i < STREAM_BUF_NUM ==> |blocks[i].status| == p && |blocks[i].data| == p
  }

  /** An unread block has every packet that was accepted for it... */
  ghost predicate Has(b: Block, p: nat, c: nat, payload: nat -> Data, accepted: set<Name>)
    requires |b.status| == |b.data| == p
  {
    forall v :: 0 <= v < p && (c, v) in accepted ==> b.status[v] && b.data[v] == Payload(payload, p, c, v)
  }

  /** ...and no others. */
  ghost predicate Only(b: Block, p: nat, c: nat, accepted: set<Name>)
    requires |b.status| == p
  {
    forall v :: 0 <= v < p && b.status[v] ==> (c, v) in accepted
  }

  ghost predicate Blank(b: Block) {
    forall v :: 0 <= v < |b.status| ==> !b.status[v]
  }

  /** The unread counts are r + 1 to w. With `late` packets, read slots may hold leftovers. */
  ghost predicate Kept(blocks: seq<Block>, p: nat, r: int, w: nat, payload: nat -> Data, accepted: set<Name>,
                       late: bool) {
    && Shaped(blocks, p) && -1 <= r < w <= r + 14
    && (forall c :: r < c <= w ==> Has(blocks[Slot(c)], p, c, payload, accepted))
    && (!late ==> forall c :: r < c <= w ==> Only(blocks[Slot(c)], p, c, accepted))
    && (!late ==> forall c :: w < c <= r + 15 ==> Blank(blocks[Slot(c)]))
    && (forall c, v :: (c, v) in accepted ==> c <= w && v < p)
  }

  lemma SlotsDiffer(c: int, d: int)
    requires -1 <= c < d < c + STREAM_BUF_NUM
    ensures Slot(c) != Slot(d)
  {
  }

  /** A new count takes over a slot that has been read. */
  lemma KeptAdvance(blocks: seq<Block>, p: nat, r: int, w: nat, payload: nat -> Data, accepted: set<Name>, late: bool)
    requires Kept(blocks, p, r, w, payload, accepted, late) && w + 1 <= r + 14
    ensures Kept(blocks, p, r, w + 1, payload, accepted, late)
  {
  }

  /** Storing a packet of an unread count. */
  lemma KeptStore(blocks: seq<Block>, p: nat, r: int, w: nat, payload: nat -> Data, accepted: set<Name>, late: bool,
                  c: nat, v: nat)
    requires Kept(blocks, p, r, w, payload, accepted, late) && r < c <= w && v < p
    ensures var b := blocks[Slot(c)];
            Kept(blocks[Slot(c) := Block(b.status[v := true], b.data[v := Payload(payload, p, c, v)])],
                 p, r, w, payload, accepted + {(c, v)}, late)
  {
    hide Payload;
    var b := blocks[Slot(c)];
    var blocks' := blocks[Slot(c) := Block(b.status[v := true], b.data[v := Payload(payload, p, c, v)])];
    var accepted' := accepted + {(c, v)};
    forall d | r < d <= r + 15
      ensures d != c ==> Slot(d) != Slot(c) && blocks'[Slot(d)] == blocks[Slot(d)]
    {
      if d < c {
        SlotsDiffer(d, c);
      } else if c < d {
        SlotsDiffer(c, d);
      }
    }
    hide Slot;
  }

  /** A packet of a count that was read already may go into its old slot. */
  lemma KeptLate(blocks: seq<Block>, p: nat, r: int, w: nat, payload: nat -> Data, accepted: set<Name>, late: bool,
                 c: nat, v: nat, data: Data)
    requires Kept(blocks, p, r, w, payload, accepted, late) && w - STREAM_BUF_NUM < c <= r && v < p
    ensures var b := blocks[Slot(c)];
            Kept(blocks[Slot(c) := Block(b.status[v := true], b.data[v := data])], p, r, w, payload, accepted, true)
  {
    var b := blocks[Slot(c)];
    var blocks' := blocks[Slot(c) := Block(b.status[v := true], b.data[v := data])];
    forall d | r < d <= w ensures blocks'[Slot(d)] == blocks[Slot(d)] {
      SlotsDiffer(c, d);
    }
    hide Slot;
  }

  /** Reading the next block clears it. */
  lemma KeptRead(blocks: seq<Block>, p: nat, r: int, w: nat, payload: nat -> Data, accepted: set<Name>, late: bool,
                 status: seq<bool>)
    requires Kept(blocks, p, r, w, payload, accepted, late) && r + 1 < w
    requires |status| == p && forall v :: 0 <= v < p ==> !status[v]
    ensures Kept(blocks[Slot(r + 1) := blocks[Slot(r + 1)].(status := status)], p, r + 1, w, payload, accepted, late)
  {
    var blocks' := blocks[Slot(r + 1) := blocks[Slot(r + 1)].(status := status)];
    forall d | r + 1 < d <= r + 15 ensures blocks'[Slot(d)] == blocks[Slot(d)] {
      SlotsDiffer(r + 1, d);
    }
    assert Slot(r + 16) == Slot(r + 1);
    hide Slot;
  }

  // ------------------------------------------------------------------ the stream

  /** Every packet of count `c` was accepted before the block was read. */
  ghost predicate Complete(accepted: set<Name>, p: nat, c: nat) {
    forall v :: 0 <= v < p ==> (c, v) in accepted
  }

  /** The packets of count `c` in order. */
  ghost function Chunk(payload: nat -> Data, p: nat, c: nat): (s: seq<Data>)
    ensures |s| == p
  {
    seq(p, v requires 0 <= v < p => Payload(payload, p, c, v))
  }

  /** The block written for each complete count has its packets in number order. */
  ghost predicate Ordered(out: seq<seq<Data>>, p: nat, payload: nat -> Data, accepted: set<Name>) {
    forall c :: 0 <= c < |out| && Complete(accepted, p, c) ==> out[c] == Chunk(payload, p, c)
  }

  lemma OrderedMore(out: seq<seq<Data>>, p: nat, payload: nat -> Data, accepted: set<Name>, chunk: seq<Data>)
    requires Ordered(out, p, payload, accepted)
    requires Complete(accepted, p, |out|) ==> chunk == Chunk(payload, p, |out|)
    ensures Ordered(out + [chunk], p, payload, accepted)
  {
    hide Chunk;
    hide Complete;
  }

  /** Packets accepted for counts that are still unread do not change what was written. */
  lemma OrderedKeeps(out: seq<seq<Data>>, p: nat, payload: nat -> Data, accepted: set<Name>, c: nat, v: nat)
    requires Ordered(out, p, payload, accepted) && c >= |out|
    ensures Ordered(out, p, payload, accepted + {(c, v)})
  {
    hide Chunk;
    forall d | 0 <= d < |out| && Complete(accepted + {(c, v)}, p, d) ensures Complete(accepted, p, d) {
    }
  }

  datatype Event = Arrive(n: nat, stale: bool) | Poll

  /** The blocks one after the other. */
  function Join(out: seq<seq<Data>>): seq<Data> {
    if out == [] then [] else Join(out[..|out| - 1]) + out[|out| - 1]
  }

  /** The first `n` packets in number order. */
  ghost function Packets(payload: nat -> Data, n: nat): (s: seq<Data>)
    ensures |s| == n
  {
    seq(n, i requires 0 <= i < n => payload(i))
  }

  lemma PacketsMore(payload: nat -> Data, p: nat, c: nat, chunk: seq<Data>)
    requires forall v :: 0 <= v < |chunk| ==> chunk[v] == Payload(payload, p, c, v)
    ensures Packets(payload, c * p) + chunk == Packets(payload, c * p + |chunk|)
  {
  }

  lemma {:induction false} JoinIsOrdered(out: seq<seq<Data>>, last: seq<Data>, p: nat, payload: nat -> Data)
    requires forall c :: 0 <= c < |out| ==> out[c] == Chunk(payload, p, c)
    requires forall v :: 0 <= v < |last| ==> last[v] == Payload(payload, p, |out|, v)
    ensures Join(out + [last]) == Packets(payload, |out| * p + |last|)
    decreases |out|
  {
    var k := |out|;
    JoinMore(out, last);
    PacketsMore(payload, p, k, last);
    if k == 0 {
      assert out == [] && Packets(payload, 0) == [];
    } else {
      var init, x := out[..k - 1], out[k - 1];
      assert out == init + [x];
      hide Join;
      hide Packets;
      JoinIsOrdered(init, x, p, payload);
      Multiple(k, p);
    }
  }

  lemma JoinMore(out: seq<seq<Data>>, last: seq<Data>)
    ensures Join(out + [last]) == Join(out) + last
  {
    assert (out + [last])[..|out|] == out;
  }

  lemma Multiple(k: nat, p: nat)
    requires k > 0
    ensures (k - 1) * p + p == k * p
  {
  }

  class StreamWindow {
    const p: nat                       // BufPacketNum
    ghost const payload: nat -> Data   // the data of each packet number, the same in every resend
    var bufCount: seq<int>
    var blocks: seq<Block>
    var readBuf: nat
    var writeBuf: nat
    var out: seq<seq<Data>>            // the blocks written to the file
    ghost var w: nat                   // the latest count
    ghost var r: int                   // the last count read
    ghost var accepted: set<Name>      // packets accepted before their block was read
    ghost var late: bool               // a packet was accepted after its block had been read
    ghost var lapped: bool             // the receiver was more than 14 counts ahead of the writer

    /** What holds in every run. */
    ghost predicate Valid()
      reads this
    {
      && p > 0 && r >= -1 && Shaped(blocks, p)
      && Window(bufCount, w) && writeBuf == Slot(w) && readBuf == Slot(r)
      && (!lapped ==> Kept(blocks, p, r, w, payload, accepted, late))
      && (!lapped ==> |out| == r + 1 && Ordered(out, p, payload, accepted))
    }

    constructor (packets: nat, ghost data: nat -> Data)
      requires packets > 0
      ensures Valid() && p == packets && payload == data && w == 0 && r == -1 && !late && !lapped && out == []
    {
      p, payload := packets, data;
      bufCount := seq(STREAM_BUF_NUM, i => if i == 0 then 0 else -1);
      blocks := seq(STREAM_BUF_NUM, i => Block(seq(packets, v => false), seq(packets, v => [])));
      readBuf, writeBuf, out := STREAM_BUF_NUM - 1, 0, [];
      w, r, accepted, late, lapped := 0, -1, {}, false, false;
    }

    /** Move the window up to count `count`, by four at most. */
    method Advance(count: nat) returns (tooLarge: bool)
      requires Valid() && count > w
      modifies this`bufCount, this`writeBuf, this`w, this`lapped
      ensures Valid() && tooLarge == (count - old(w) >= WRITE_READ_DISTANCE)
      ensures w == if tooLarge then old(w) + WRITE_READ_DISTANCE - 1 else count
      ensures lapped <==> old(lapped) || w - r > 14
    {
      var u := 1;
      tooLarge := true;
      while u < WRITE_READ_DISTANCE && tooLarge
        invariant Valid() && 1 <= u <= WRITE_READ_DISTANCE && w == old(w) + u - (if tooLarge then 1 else 0)
        invariant if tooLarge then w < count else w == count && u < WRITE_READ_DISTANCE
        invariant lapped <==> old(lapped) || w - r > 14
        decreases WRITE_READ_DISTANCE - u, tooLarge
      {
        Next();
        if bufCount[writeBuf] == count {
          tooLarge := false;
        } else {
          u := u + 1;
        }
      }
    }

    /** The window moves by one. */
    method Next()
      requires Valid()
      modifies this`bufCount, this`writeBuf, this`w, this`lapped
      ensures Valid() && w == old(w) + 1 && bufCount[writeBuf] == w && (lapped <==> old(lapped) || w - r > 14)
    {
      WindowNext(bufCount, w);
      SlotNext(w);
      if !lapped && w + 1 - r <= 14 {
        KeptAdvance(blocks, p, r, w, payload, accepted, late);
      }
      hide Window;
      hide Kept;
      hide Ordered;
      hide Slot;
      var last := bufCount[writeBuf];
      writeBuf := NextStreamBuf(writeBuf);
      bufCount := bufCount[writeBuf := last + 1];
      w := w + 1;
      lapped := lapped || w - r > 14;
    }

    /** The slot that holds this count, or STREAM_BUF_NUM. */
    method Find(count: nat) returns (slot: nat)
      requires Window(bufCount, w)
      ensures if w - STREAM_BUF_NUM < count <= w then slot == Slot(count) else slot == STREAM_BUF_NUM
    {
      hide CountAt;
      hide Slot;
      slot := 0;
      while slot < STREAM_BUF_NUM
        invariant slot <= STREAM_BUF_NUM
        invariant forall i :: 0 <= i < slot ==> bufCount[i] != count
      {
        CountAtExactly(w, count, slot);
        if bufCount[slot] == count {
          return;
        }
        slot := slot + 1;
      }
      if w - STREAM_BUF_NUM < count <= w {
        CountAtExactly(w, count, Slot(count));
      }
    }

    /** Put a packet into the slot of its count. */
    method Put(count: nat, v: nat, data: Data)
      requires Valid() && v < p && w - STREAM_BUF_NUM < count <= w && data == Payload(payload, p, count, v)
      modifies this`blocks, this`accepted, this`late
      ensures Valid() && late == (old(late) || count <= r)
      ensures accepted == if count > r then old(accepted) + {(count, v)} else old(accepted)
    {
      hide Window;
      hide Payload;
      var i := Slot(count);
      var b := blocks[i];
      if !lapped {
        if count > r {
          KeptStore(blocks, p, r, w, payload, accepted, late, count, v);
          OrderedKeeps(out, p, payload, accepted, count, v);
        } else {
          KeptLate(blocks, p, r, w, payload, accepted, late, count, v, data);
        }
      }
      hide Kept;
      hide Ordered;
      hide Slot;
      blocks := blocks[i := Block(b.status[v := true], b.data[v := data])];
      if count > r {
        accepted := accepted + {(count, v)};
      } else {
        late := true;
      }
    }

    /**
     A packet arrives. `stale` stands for the loop counter that the check for too large counts finds
     when the window did not have to move.
     */
    method Receive(n: nat, data: Data, stale: bool) returns (ok: bool)
      requires Valid() && data == payload(n)
      modifies this`bufCount, this`writeBuf, this`w, this`lapped, this`blocks, this`accepted, this`late
      ensures Valid()
      ensures ok <==> if n / p > old(w) then n / p - old(w) < WRITE_READ_DISTANCE
                      else !stale && n / p > old(w) - STREAM_BUF_NUM
      ensures w == if n / p <= old(w) then old(w) else if ok then n / p else old(w) + WRITE_READ_DISTANCE - 1
      ensures accepted == if ok && n / p > r then old(accepted) + {(n / p, n % p)} else old(accepted)
      ensures late == (old(late) || (ok && n / p <= r)) && lapped == (old(lapped) || (w > old(w) && w - r > 14))
    {
      var v, count := n % p, n / p;
      assert data == Payload(payload, p, count, v) by { assert n == count * p + v; }
      Latest();
      hide Kept;
      hide Ordered;
      hide Payload;
      var tooLarge := stale;
      if count > bufCount[writeBuf] {
        tooLarge := Advance(count);
      }
      if tooLarge {
        return false;
      }
      var slot := Find(count);
      if slot == STREAM_BUF_NUM {
        return false;
      }
      Put(count, v, data);
      ok := true;
    }

    lemma Latest()
      requires Valid()
      ensures bufCount[writeBuf] == w
    {
      CountAtExactly(w, w, Slot(w));
    }

    /** Read the next block; `ended` says that it is the last one. */
    method Take(ended: bool) returns (lost: nat)
      requires Valid() && (!lapped ==> if ended then w == r + 1 else w > r + 1)
      modifies this`readBuf, this`blocks, this`out, this`r
      ensures r == old(r) + 1 && |out| == old(|out|) + 1 && old(out) <= out && readBuf == NextStreamBuf(old(readBuf))
      ensures !ended ==> Valid()
      ensures !lapped && !ended && Complete(accepted, p, r) ==> lost == 0
      ensures !lapped && !ended && !late && lost == 0 ==> Complete(accepted, p, r)
      ensures !lapped ==> |out| == r + 1 && Ordered(out, p, payload, accepted) && (ended ==> Last(out[r]))
    {
      hide Kept;
      hide Ordered;
      hide Missing;
      hide Complete;
      hide Last;
      hide Window;
      SlotNext(r);
      hide Slot;
      var i := NextStreamBuf(readBuf);
      var status, cut;
      status, cut, lost := Scan(blocks[i], p, ended);
      if !lapped {
        ReadKeeps(ended, status, cut, lost);
      }
      Finish(i, cut, status);
    }

    method Finish(i: nat, cut: nat, status: seq<bool>)
      requires Shaped(blocks, p) && |status| == p && i < STREAM_BUF_NUM && cut <= p
      modifies this`readBuf, this`blocks, this`out, this`r
      ensures readBuf == i && r == old(r) + 1 && Shaped(blocks, p)
      ensures blocks == old(blocks)[i := old(blocks)[i].(status := status)]
      ensures out == old(out) + [old(blocks)[i].data[..cut]]
      ensures forall chunk :: old(Last(chunk)) ==> Last(chunk)
    {
      readBuf := i;
      out := out + [blocks[i].data[..cut]];
      blocks := blocks[i := blocks[i].(status := status)];
      r := r + 1;
    }

    /** The writer's step: read the next block, if the receiver is far enough ahead or has stopped. */
    method Read(stopped: bool) returns (did: bool, ended: bool, lost: nat)
      requires Valid()
      modifies this`readBuf, this`blocks, this`out, this`r
      ensures did <==> stopped || Ahead(old(readBuf), writeBuf) >= 10
      ensures !did ==> !ended && unchanged(this)
      ensures did ==>
                && r == old(r) + 1 && |out| == old(|out|) + 1 && old(out) <= out
                && readBuf == NextStreamBuf(old(readBuf))
      ensures did ==> ended == (stopped && readBuf == writeBuf)
      ensures !ended ==> Valid()
      ensures !lapped && did ==> ended == (stopped && r == w) && r <= w
      ensures !lapped && did && !ended && Complete(accepted, p, r) ==> lost == 0
      ensures !lapped && did && !ended && !late && lost == 0 ==> Complete(accepted, p, r)
      ensures !lapped && did ==> |out| == r + 1 && Ordered(out, p, payload, accepted) && (ended ==> Last(out[r]))
    {
      TableMeansDistance(readBuf, writeBuf);
      if !lapped {
        Distance();
      }
      hide Ordered;
      hide Complete;
      hide Last;
      hide Window;
      hide Slot;
      hide Ahead;
      hide ReadWriteBuf;
      hide NextStreamBuf;
      did := stopped || ReadWriteBuf(readBuf)[writeBuf] == 1;
      ended, lost := false, 0;
      if did {
        ended := stopped && NextStreamBuf(readBuf) == writeBuf;
        lost := Take(ended);
      }
    }

    /**
     A whole recording: packets arrive and the writer looks for work in any order, then the
     receiver stops and the writer empties the window. If the receiver never was too far ahead and
     every block's packets were accepted before it was read, the file has all packets in number order.
     */
    method Record(events: seq<Event>, data: nat -> Data)
      requires Valid() && r == -1 && payload == data
      modifies this
      ensures !lapped ==> |out| == w + 1 && Ordered(out, p, payload, accepted) && Last(out[w])
      ensures !lapped && (forall c :: 0 <= c <= w ==> Complete(accepted, p, c)) ==>
                Join(out) == Packets(payload, (w + 1) * p)
      ensures !lapped && !late && (forall c :: 0 <= c < w ==> Complete(accepted, p, c))
              ==> Join(out) == Packets(payload, w * p + |out[w]|)
    {
      hide Window;
      hide Kept;
      hide Ordered;
      hide Complete;
      hide Last;
      hide Slot;
      for i := 0 to |events|
        invariant Valid() && payload == data
      {
        match events[i]
        case Arrive(n, stale) =>
          var ok := Receive(n, data(n), stale);
        case Poll =>
          var did, ended, lost := Read(false);
      }
      Empty();
      if !lapped {
        Recorded();
      }
    }

    /** The receiver has stopped: read all blocks. */
    method Empty()
      requires Valid()
      modifies this`readBuf, this`blocks, this`out, this`r
      ensures !lapped ==> r == w && |out| == w + 1 && Ordered(out, p, payload, accepted) && Last(out[w])
    {
      hide Window;
      hide Kept;
      hide Ordered;
      hide Complete;
      hide Last;
      hide Slot;
      var ended := false;
      while !ended
        invariant !ended ==> Valid()
        invariant ended && !lapped ==> r == w && |out| == w + 1 && Ordered(out, p, payload, accepted) && Last(out[w])
        invariant readBuf < STREAM_BUF_NUM && writeBuf < STREAM_BUF_NUM
        decreases !ended, if readBuf == writeBuf then STREAM_BUF_NUM else Ahead(readBuf, writeBuf)
      {
        var did, lost;
        did, ended, lost := Read(true);
      }
    }

    lemma Recorded()
      requires |out| == w + 1 && Ordered(out, p, payload, accepted) && Last(out[w])
      ensures (forall c :: 0 <= c <= w ==> Complete(accepted, p, c)) ==> Join(out) == Packets(payload, (w + 1) * p)
      ensures !late && (forall c :: 0 <= c < w ==> Complete(accepted, p, c)) ==>
                Join(out) == Packets(payload, w * p + |out[w]|)
    {
      hide Complete;
      hide Payload;
      assert out == out[..w] + [out[w]];
      if forall c :: 0 <= c <= w ==> Complete(accepted, p, c) {
        assert w * p + p == (w + 1) * p;
        JoinIsOrdered(out[..w], out[w], p, payload);
      } else if !late && forall c :: 0 <= c < w ==> Complete(accepted, p, c) {
        JoinIsOrdered(out[..w], out[w], p, payload);
      }
    }

    /** What the block about to be read yields. */
    lemma ReadKeeps(ended: bool, status: seq<bool>, cut: nat, lost: nat)
      requires Valid() && !lapped && (ended ==> w == r + 1) && |status| == p && cut <= p
      requires !ended ==> w > r + 1 && cut == p && forall v :: 0 <= v < p ==> !status[v]
      requires var b := blocks[Slot(r + 1)];
               && (ended ==> (forall v :: 0 <= v < cut ==> b.status[v]) && (cut < p ==> !b.status[cut]))
               && (!ended && lost == 0 ==> forall v :: 0 <= v < p ==> b.status[v])
               && (!ended && lost > 0 ==> exists v :: 0 <= v < p && !b.status[v])
      ensures var b := blocks[Slot(r + 1)];
              && (!ended ==> Kept(blocks[Slot(r + 1) := b.(status := status)], p, r + 1, w, payload, accepted, late))
              && Ordered(out + [b.data[..cut]], p, payload, accepted)
              && (ended ==> Last(b.data[..cut]))
      ensures !ended && Complete(accepted, p, r + 1) ==> lost == 0
      ensures !ended && !late && lost == 0 ==> Complete(accepted, p, r + 1)
    {
      var b := blocks[Slot(r + 1)];
      assert Has(b, p, r + 1, payload, accepted);
      assert !late ==> Only(b, p, r + 1, accepted);
      if !ended {
        KeptRead(blocks, p, r, w, payload, accepted, late, status);
      }
      hide Kept;
      hide Payload;
      hide Slot;
      if Complete(accepted, p, r + 1) {
        assert cut < p ==> (r + 1, cut) in accepted;
        assert b.data[..cut] == Chunk(payload, p, r + 1);
      }
      OrderedMore(out, p, payload, accepted, b.data[..cut]);
    }

    /** How the writer knows where it is. */
    lemma Distance()
      requires Valid() && !lapped
      ensures Ahead(readBuf, writeBuf) == w - r && (NextStreamBuf(readBuf) == writeBuf <==> w == r + 1)
    {
      AheadOfCount(r, w);
      SlotNext(r);
      if r + 1 < w {
        SlotsDiffer(r + 1, w);
      }
      hide Kept;
    }

    /** The last block holds the packets before the first one missing. */
    ghost predicate Last(chunk: seq<Data>)
      reads this
    {
      && |chunk| <= p
      && (!late ==> forall v :: 0 <= v < |chunk| ==> (w, v) in accepted && chunk[v] == Payload(payload, p, w, v))
      && (|chunk| < p ==> (w, |chunk|) !in accepted)
    }
  }

  // ------------------------------------------------------------------ one block

  function Missing(status: seq<bool>): nat {
    if status == [] then 0 else Missing(status[..|status| - 1]) + if status[|status| - 1] then 0 else 1
  }

  /** The loop over a block that is read: count or stop at packets that are missing, and clear. */
  method Scan(b: Block, p: nat, ended: bool) returns (status: seq<bool>, cut: nat, lost: nat)
    requires |b.status| == |b.data| == p
    ensures |status| == p && cut <= p
    ensures !ended ==> cut == p && lost == Missing(b.status) && forall v :: 0 <= v < p ==> !status[v]
    ensures ended ==> (forall v :: 0 <= v < cut ==> b.status[v]) && (cut < p ==> !b.status[cut])
    ensures lost == 0 && !ended ==> forall v :: 0 <= v < p ==> b.status[v]
    ensures lost > 0 && !ended ==> exists v :: 0 <= v < p && !b.status[v]
  {
    status, lost := b.status, 0;
    cut := p;
    for v := 0 to p
      invariant |status| == p && cut == p
      invariant forall k :: 0 <= k < v ==> !status[k]
      invariant forall k :: v <= k < p ==> status[k] == b.status[k]
      invariant lost == Missing(b.status[..v])
      invariant lost == 0 ==> forall k :: 0 <= k < v ==> b.status[k]
      invariant lost > 0 ==> !ended && exists k :: 0 <= k < v && !b.status[k]
    {
      assert b.status[..v + 1][..v] == b.status[..v];
      if !status[v] {
        if ended {
          cut := v;
          return;
        }
        lost := lost + 1;
      }
      status := status[v := false];
    }
    assert b.status[..p] == b.status;
  }
}
