/** The buffer cache: a fixed set of buffers on one circular list, recycled from
    its far end unless in use or pinned, read and written through to the disk. */
module BufferCache {
  import opened Blocks

  const NBUF := 30 // MAXOPBLOCKS * 3
  const ROOTDEV := 1
  const HEAD := 30 // bcache.head, as a list index after the buffers

  datatype Buf = Buf(dev: int, blockno: int, valid: bool, dirty: bool, refcnt: nat, data: Block)

  // The list -------------------------------------------------------------------------------

  /** The i-th stop when walking `next` from the head and back to it. */
  function Stop(order: seq<int>, i: nat): (b: int)
    requires i <= |order| + 1
  {
    if i == 0 || i == |order| + 1 then HEAD else order[i - 1]
  }

  predicate Distinct(order: seq<int>) {
    && (forall i :: 0 <= i < |order| ==> 0 <= order[i] < NBUF)
    && forall i, j :: 0 <= i < j < |order| ==> order[i] != order[j]
  }

  /** prev and next agree on one ring through the head and `order`. */
  predicate Ring(order: seq<int>, next: seq<int>, prev: seq<int>) {
    && |next| == |prev| == NBUF + 1
    && Distinct(order)
    && forall i :: 0 <= i <= |order| ==>
         next[Stop(order, i)] == Stop(order, i + 1) && prev[Stop(order, i + 1)] == Stop(order, i)
  }

  /** Unlinking the buffer at position `k`. */
  lemma UnlinkRing(order: seq<int>, next: seq<int>, prev: seq<int>, k: nat)
    requires Ring(order, next, prev) && k < |order|
    ensures var b := order[k];
            && 0 <= next[b] <= NBUF && 0 <= prev[b] <= NBUF
            && Ring(order[..k] + order[k + 1..], next[prev[b] := next[b]], prev[next[b] := prev[b]])
  {
    var b, r := order[k], order[..k] + order[k + 1..];
    assert b == Stop(order, k + 1) && prev[b] == Stop(order, k) && next[b] == Stop(order, k + 2);
    var n, p := next[prev[b] := next[b]], prev[next[b] := prev[b]];
    forall i | 0 <= i <= |r| ensures n[Stop(r, i)] == Stop(r, i + 1) && p[Stop(r, i + 1)] == Stop(r, i) {
      if i < k {
        assert Stop(r, i) == Stop(order, i) && Stop(r, i + 1) == Stop(order, i + 1);
      } else if i == k {
        assert Stop(r, i) == Stop(order, i) && Stop(r, i + 1) == Stop(order, i + 2);
      } else {
        assert Stop(r, i) == Stop(order, i + 1) && Stop(r, i + 1) == Stop(order, i + 2);
      }
    }
  }

  /** Linking `b` in after the head. */
  lemma FrontRing(order: seq<int>, next: seq<int>, prev: seq<int>, b: int)
    requires Ring(order, next, prev) && 0 <= b < NBUF && b !in order
    ensures var f := next[HEAD]; var n := next[b := f]; var p := prev[b := HEAD];
            0 <= f <= NBUF && Ring([b] + order, n[HEAD := b], p[f := b])
  {
    var r, f := [b] + order, next[HEAD];
    assert Stop(order, 0) == HEAD;
    assert next[Stop(order, 0)] == Stop(order, 1);
    var n, p := next[b := f][HEAD := b], prev[b := HEAD][f := b];
    forall i | 0 <= i <= |r| ensures n[Stop(r, i)] == Stop(r, i + 1) && p[Stop(r, i + 1)] == Stop(r, i) {
      if i >= 1 {
        assert Stop(r, i + 1) == Stop(order, i);
        if i >= 2 {
          assert Stop(r, i) == Stop(order, i - 1);
        }
      }
    }
  }

  // Cache states ---------------------------------------------------------------------------

  datatype Cache = Cache(bufs: seq<Buf>, order: seq<int>, disk: seq<Block>)

  predicate Holds(b: Buf, dev: int, bno: int) {
    b.dev == dev && b.blockno == bno
  }

  predicate Shape(c: Cache) {
    && |c.bufs| == NBUF && |c.order| == NBUF && Distinct(c.order)
    && forall b :: 0 <= b < NBUF ==> b in c.order
  }

  /** Position of the first buffer in list order holding the block, or NBUF. */
  function Lookup(c: Cache, dev: int, bno: int, i: nat): (k: nat)
    requires Shape(c) && i <= NBUF
    ensures i <= k <= NBUF
    ensures k < NBUF ==> Holds(c.bufs[c.order[k]], dev, bno)
    ensures forall j :: i <= j < k ==> !Holds(c.bufs[c.order[j]], dev, bno)
    decreases NBUF - i
  {
    if i == NBUF then i
    else if Holds(c.bufs[c.order[i]], dev, bno) then i
    else Lookup(c, dev, bno, i + 1)
  }

  predicate Idle(b: Buf) {
    b.refcnt == 0 && !b.dirty
  }

  /** Position of the last idle buffer at or before `i - 1` in list order, or -1. */
  function Recycle(c: Cache, i: nat): (k: int)
    requires Shape(c) && i <= NBUF
    ensures -1 <= k < i
    ensures k >= 0 ==> Idle(c.bufs[c.order[k]])
    ensures forall j :: k < j < i ==> !Idle(c.bufs[c.order[j]])
  {
    if i == 0 then -1
    else if Idle(c.bufs[c.order[i - 1]]) then i - 1
    else Recycle(c, i - 1)
  }

  /** bget: the buffer's index, or -1 for "no buffers". */
  function Got(c: Cache, dev: int, bno: int): (r: (Cache, int))
    requires Shape(c)
    ensures Shape(r.0)
  {
    var k := Lookup(c, dev, bno, 0);
    if k < NBUF then
      var b := c.order[k];
      (c.(bufs := c.bufs[b := c.bufs[b].(refcnt := c.bufs[b].refcnt + 1)]), b)
    else
      var j := Recycle(c, NBUF);
      if j == -1 then (c, -1)
      else
        var b := c.order[j];
        (c.(bufs := c.bufs[b := Buf(dev, bno, false, false, 1, c.bufs[b].data)]), b)
  }

  /** bget, field by field: a buffer holding the block counts one more user; if
      none does, an idle one becomes the block's, with old data and one user; if
      none is idle, -1. The list, the disk and the other buffers stay. */
  predicate GetPost(c: Cache, dev: int, bno: int, r: Cache, b: int)
    requires |c.bufs| == NBUF
  {
    && r.order == c.order && r.disk == c.disk && |r.bufs| == NBUF
    && (forall i :: 0 <= i < NBUF && i != b ==> r.bufs[i] == c.bufs[i])
    && if exists i :: 0 <= i < NBUF && Holds(c.bufs[i], dev, bno) then
         0 <= b < NBUF && Holds(c.bufs[b], dev, bno) && r.bufs[b] == c.bufs[b].(refcnt := c.bufs[b].refcnt + 1)
       else if exists i :: 0 <= i < NBUF && Idle(c.bufs[i]) then
         0 <= b < NBUF && Idle(c.bufs[b]) && r.bufs[b] == Buf(dev, bno, false, false, 1, c.bufs[b].data)
       else
         b == -1
  }

  lemma GotIs(c: Cache, dev: int, bno: int)
    requires Shape(c)
    ensures GetPost(c, dev, bno, Got(c, dev, bno).0, Got(c, dev, bno).1)
  {
    hide Lookup, Recycle;
    if Lookup(c, dev, bno, 0) == NBUF {
      NoneHolds(c, dev, bno);
      if Recycle(c, NBUF) == -1 {
        NoneIdle(c);
      }
    }
  }

  lemma NoneIdle(c: Cache)
    requires Shape(c) && Recycle(c, NBUF) == -1
    ensures forall i :: 0 <= i < NBUF ==> !Idle(c.bufs[i])
  {
    forall i | 0 <= i < NBUF ensures !Idle(c.bufs[i]) {
      assert i in c.order;
      var k :| 0 <= k < NBUF && c.order[k] == i;
    }
  }

  predicate OnDisk(c: Cache, b: int) {
    && 0 <= b < |c.bufs| && c.bufs[b].refcnt > 0
    && c.bufs[b].dev == ROOTDEV && 0 <= c.bufs[b].blockno < |c.disk|
  }

  /** iderw on a buffer that is not valid. */
  function Filled(c: Cache, b: int): (r: Cache)
    requires OnDisk(c, b)
  {
    c.(bufs := c.bufs[b := c.bufs[b].(data := c.disk[c.bufs[b].blockno], valid := true)])
  }

  /** The holder changes the data and calls log_write, which pins the buffer. */
  function Logged(c: Cache, b: int, data: Block): (r: Cache)
    requires OnDisk(c, b)
  {
    c.(bufs := c.bufs[b := c.bufs[b].(data := data, dirty := true)])
  }

  /** The holder (the log) changes the data and calls bwrite. */
  function Written(c: Cache, b: int, data: Block): (r: Cache)
    requires OnDisk(c, b)
  {
    c.(bufs := c.bufs[b := c.bufs[b].(data := data, dirty := false, valid := true)],
       disk := c.disk[c.bufs[b].blockno := data])
  }

  function Position(order: seq<int>, b: int): (k: nat)
    requires b in order
    ensures k < |order| && order[k] == b
  {
    if order[0] == b then 0 else 1 + Position(order[1..], b)
  }

  function MovedToFront(order: seq<int>, b: int): (r: seq<int>)
    requires b in order
  {
    var k := Position(order, b);
    [b] + (order[..k] + order[k + 1..])
  }

  /** brelse: the last user moves the buffer to the front of the list. */
  function Released(c: Cache, b: int): (r: Cache)
    requires Shape(c) && 0 <= b < NBUF && c.bufs[b].refcnt > 0
  {
    var n := c.bufs[b].refcnt - 1;
    Cache(c.bufs[b := c.bufs[b].(refcnt := n)], if n == 0 then MovedToFront(c.order, b) else c.order, c.disk)
  }

  function Without(order: seq<int>, b: int): (r: seq<int>) {
    if order == [] then []
    else if order[0] == b then Without(order[1..], b)
    else [order[0]] + Without(order[1..], b)
  }

  lemma {:induction false} WithoutNone(order: seq<int>, b: int)
    requires b !in order
    ensures Without(order, b) == order
  {
    if order != [] {
      WithoutNone(order[1..], b);
    }
  }

  lemma {:induction false} WithoutOne(order: seq<int>, b: int)
    requires Distinct(order) && b in order
    ensures var k := Position(order, b); Without(order, b) == order[..k] + order[k + 1..]
  {
    if order[0] == b {
      WithoutNone(order[1..], b);
    } else {
      WithoutOne(order[1..], b);
    }
  }

  /** brelse, field by field: one count less; the last user puts the buffer in
      front of all others, whose order stays; nothing else changes. */
  predicate ReleasePost(c: Cache, b: int, r: Cache)
    requires |c.bufs| == NBUF && 0 <= b < NBUF && c.bufs[b].refcnt > 0
  {
    && |r.bufs| == NBUF && r.disk == c.disk && (forall i :: 0 <= i < NBUF && i != b ==> r.bufs[i] == c.bufs[i])
    && r.bufs[b] == c.bufs[b].(refcnt := c.bufs[b].refcnt - 1)
    && r.order == if c.bufs[b].refcnt == 1 then [b] + Without(c.order, b) else c.order
  }

  lemma ReleasedIs(c: Cache, b: int)
    requires Shape(c) && 0 <= b < NBUF && c.bufs[b].refcnt > 0
    ensures ReleasePost(c, b, Released(c, b))
  {
    WithoutOne(c.order, b);
  }

  lemma MovedShape(order: seq<int>, b: int)
    requires Distinct(order) && b in order
    ensures var r := MovedToFront(order, b);
            Distinct(r) && |r| == |order| && forall x :: x in r <==> x in order
  {
  }

  lemma ReleasedShape(c: Cache, b: int)
    requires Shape(c) && 0 <= b < NBUF && c.bufs[b].refcnt > 0
    ensures Shape(Released(c, b))
  {
    MovedShape(c.order, b);
  }

  // Against a plain block store -----------------------------------------------------------

  /** No two buffers hold one disk block; a buffer with nothing to write back
      agrees with the disk; only valid disk buffers are pinned. */
  predicate CacheInv(c: Cache) {
    && Shape(c)
    && (forall i, j :: 0 <= i < j < NBUF && c.bufs[i].dev == ROOTDEV && c.bufs[j].dev == ROOTDEV ==>
          c.bufs[i].blockno != c.bufs[j].blockno)
    && (forall i :: 0 <= i < NBUF && c.bufs[i].dirty ==> c.bufs[i].valid && c.bufs[i].dev == ROOTDEV)
    && (forall i :: 0 <= i < NBUF && c.bufs[i].valid && c.bufs[i].dev == ROOTDEV ==>
          0 <= c.bufs[i].blockno < |c.disk|)
  }

  predicate Pinned(c: Cache, bno: int) {
    exists i :: 0 <= i < |c.bufs| && Holds(c.bufs[i], ROOTDEV, bno) && c.bufs[i].dirty
  }

  /** Cache and disk together stand for `store`. */
  predicate Represents(c: Cache, store: seq<Block>) {
    && CacheInv(c) && |store| == |c.disk|
    && (forall i :: 0 <= i < NBUF && c.bufs[i].valid && c.bufs[i].dev == ROOTDEV ==>
          c.bufs[i].data == store[c.bufs[i].blockno])
    && forall b :: 0 <= b < |store| && c.disk[b] != store[b] ==> Pinned(c, b)
  }

  lemma NoneHolds(c: Cache, dev: int, bno: int)
    requires Shape(c) && Lookup(c, dev, bno, 0) == NBUF
    ensures forall i :: 0 <= i < NBUF ==> !Holds(c.bufs[i], dev, bno)
  {
    forall i | 0 <= i < NBUF ensures !Holds(c.bufs[i], dev, bno) {
      assert i in c.order;
      var k :| 0 <= k < NBUF && c.order[k] == i;
    }
  }

  /** Changing one buffer leaves every other pinned block pinned. */
  lemma StillPinned(c: Cache, r: Cache, b: int, bno: int)
    requires |c.bufs| == |r.bufs| && 0 <= b < |c.bufs| && Pinned(c, bno)
    requires forall i :: 0 <= i < |c.bufs| && i != b ==> r.bufs[i] == c.bufs[i]
    requires Holds(c.bufs[b], ROOTDEV, bno) && c.bufs[b].dirty ==> Holds(r.bufs[b], ROOTDEV, bno) && r.bufs[b].dirty
    ensures Pinned(r, bno)
  {
  }

  lemma CountedOk(c: Cache, b: int, n: nat, store: seq<Block>)
    requires Represents(c, store) && 0 <= b < NBUF
    ensures Represents(c.(bufs := c.bufs[b := c.bufs[b].(refcnt := n)]), store)
  {
    var r := c.(bufs := c.bufs[b := c.bufs[b].(refcnt := n)]);
    forall x | 0 <= x < |store| && c.disk[x] != store[x] ensures Pinned(r, x) {
      StillPinned(c, r, b, x);
    }
  }

  /** Recycling an idle buffer loses nothing: it had nothing to write back. */
  lemma RecycledOk(c: Cache, b: int, bno: int, store: seq<Block>)
    requires Represents(c, store) && 0 <= b < NBUF && Idle(c.bufs[b])
    requires forall i :: 0 <= i < NBUF ==> !Holds(c.bufs[i], ROOTDEV, bno)
    ensures Represents(c.(bufs := c.bufs[b := Buf(ROOTDEV, bno, false, false, 1, c.bufs[b].data)]), store)
  {
    var r := c.(bufs := c.bufs[b := Buf(ROOTDEV, bno, false, false, 1, c.bufs[b].data)]);
    forall x | 0 <= x < |store| && c.disk[x] != store[x] ensures Pinned(r, x) {
      StillPinned(c, r, b, x);
    }
  }

  lemma GotHit(c: Cache, bno: int, store: seq<Block>)
    requires Represents(c, store) && 0 <= bno < |store| && Lookup(c, ROOTDEV, bno, 0) < NBUF
    ensures var (r, b) := Got(c, ROOTDEV, bno);
            b != -1 && Represents(r, store) && OnDisk(r, b) && Holds(r.bufs[b], ROOTDEV, bno)
  {
    var b := c.order[Lookup(c, ROOTDEV, bno, 0)];
    CountedOk(c, b, c.bufs[b].refcnt + 1, store);
  }

  lemma GotMiss(c: Cache, bno: int, store: seq<Block>)
    requires Represents(c, store) && 0 <= bno < |store| && Lookup(c, ROOTDEV, bno, 0) == NBUF && Recycle(c, NBUF) != -1
    ensures var (r, b) := Got(c, ROOTDEV, bno);
            b != -1 && Represents(r, store) && OnDisk(r, b) && Holds(r.bufs[b], ROOTDEV, bno)
  {
    NoneHolds(c, ROOTDEV, bno);
    RecycledOk(c, c.order[Recycle(c, NBUF)], bno, store);
  }

  lemma GotOk(c: Cache, bno: int, store: seq<Block>)
    requires Represents(c, store) && 0 <= bno < |store|
    ensures var (r, b) := Got(c, ROOTDEV, bno);
            && Represents(r, store)
            && (b != -1 ==> OnDisk(r, b) && Holds(r.bufs[b], ROOTDEV, bno))
  {
    if Lookup(c, ROOTDEV, bno, 0) < NBUF {
      GotHit(c, bno, store);
    } else if Recycle(c, NBUF) != -1 {
      GotMiss(c, bno, store);
    }
  }

  /** A buffer read from disk holds the store's block: were the disk behind, the
      block would be pinned in another buffer, and there is no other. */
  lemma FilledOk(c: Cache, b: int, store: seq<Block>)
    requires Represents(c, store) && OnDisk(c, b) && !c.bufs[b].valid
    ensures Represents(Filled(c, b), store)
    ensures Filled(c, b).bufs[b].data == store[c.bufs[b].blockno]
  {
    var r, bno := Filled(c, b), c.bufs[b].blockno;
    assert !Pinned(c, bno);
    forall x | 0 <= x < |store| && c.disk[x] != store[x] ensures Pinned(r, x) {
      StillPinned(c, r, b, x);
    }
  }

  lemma LoggedOk(c: Cache, b: int, data: Block, store: seq<Block>)
    requires Represents(c, store) && OnDisk(c, b) && c.bufs[b].valid
    ensures Represents(Logged(c, b, data), store[c.bufs[b].blockno := data])
  {
    var r, bno := Logged(c, b, data), c.bufs[b].blockno;
    forall x | 0 <= x < |store| && r.disk[x] != store[bno := data][x] ensures Pinned(r, x) {
      if x == bno {
        assert Holds(r.bufs[b], ROOTDEV, bno) && r.bufs[b].dirty;
      } else {
        StillPinned(c, r, b, x);
      }
    }
  }

  lemma WrittenOk(c: Cache, b: int, data: Block, store: seq<Block>)
    requires Represents(c, store) && OnDisk(c, b) && c.bufs[b].valid
    ensures Represents(Written(c, b, data), store[c.bufs[b].blockno := data])
  {
    var r, bno := Written(c, b, data), c.bufs[b].blockno;
    forall x | 0 <= x < |store| && r.disk[x] != store[bno := data][x] ensures Pinned(r, x) {
      StillPinned(c, r, b, x);
    }
  }

  lemma ReleasedOk(c: Cache, b: int, store: seq<Block>)
    requires Represents(c, store) && 0 <= b < NBUF && c.bufs[b].refcnt > 0
    ensures Represents(Released(c, b), store)
  {
    var r := Released(c, b);
    ReleasedShape(c, b);
    forall x | 0 <= x < |store| && c.disk[x] != store[x] ensures Pinned(r, x) {
      StillPinned(c, r, b, x);
    }
  }

  /** binit: all buffers belong to device 0, the last one linked in comes first. */
  function Fresh(disk: seq<Block>, junk: Block): (c: Cache) {
    Cache(seq(NBUF, _ => Buf(0, 0, false, false, 0, junk)), seq(NBUF, i => NBUF - 1 - i), disk)
  }

  lemma FreshOk(disk: seq<Block>, junk: Block)
    ensures Represents(Fresh(disk, junk), disk)
  {
    var c := Fresh(disk, junk);
    forall b | 0 <= b < NBUF ensures b in c.order {
      assert c.order[NBUF - 1 - b] == b;
    }
  }

  // bio.c ------------------------------------------------------------------------------------

  class BCache {
    var next: seq<int>
    var prev: seq<int>
    var bufs: seq<Buf>
    var disk: seq<Block>
    ghost var order: seq<int>

    ghost function State(): Cache
      reads this
    {
      Cache(bufs, order, disk)
    }

    ghost predicate Valid()
      reads this
    {
      Ring(order, next, prev) && Shape(State())
    }

    constructor (disk: seq<Block>, junk: Block)
      ensures Valid() && State() == Fresh(disk, junk)
    {
      this.disk := disk;
      bufs := seq(NBUF, _ => Buf(0, 0, false, false, 0, junk));
      next, prev := seq(NBUF + 1, _ => HEAD), seq(NBUF + 1, _ => HEAD);
      order := [];
      new;
      var b := 0;
      while b < NBUF
        invariant 0 <= b <= NBUF
        invariant Ring(order, next, prev)
        invariant order == seq(b, i => b - 1 - i)
        invariant this.disk == disk && bufs == Fresh(disk, junk).bufs
      {
        InsertFront(b);
        b := b + 1;
      }
      FreshOk(disk, junk);
    }

    /** The four link assignments shared by binit and brelse. */
    method InsertFront(b: int)
      requires Ring(order, next, prev) && 0 <= b < NBUF && b !in order
      modifies this`next, this`prev, this`order
      ensures Ring(order, next, prev) && order == [b] + old(order)
    {
      FrontRing(order, next, prev, b);
      next := next[b := next[HEAD]];
      prev := prev[b := HEAD];
      prev := prev[next[HEAD] := b];
      next := next[HEAD := b];
      order := [b] + order;
    }

    /** bget's first loop: from the head forwards; HEAD if not cached. */
    method FindCached(dev: int, bno: int) returns (b: int)
      requires Valid()
      ensures b == Stop(order, Lookup(State(), dev, bno, 0) + 1)
    {
      ghost var i := 0;
      ghost var k := Lookup(State(), dev, bno, 0);
      assert next[Stop(order, 0)] == Stop(order, 1);
      b := next[HEAD];
      while b != HEAD
        invariant 0 <= i <= k && b == Stop(order, i + 1)
        decreases NBUF - i
      {
        if bufs[b].dev == dev && bufs[b].blockno == bno {
          return;
        }
        assert next[Stop(order, i + 1)] == Stop(order, i + 2);
        b := next[b];
        i := i + 1;
      }
    }

    /** bget's second loop: from the head backwards; HEAD if all are in use. */
    method FindIdle() returns (b: int)
      requires Valid()
      ensures b == Stop(order, Recycle(State(), NBUF) + 1)
    {
      ghost var j := NBUF;
      ghost var k := Recycle(State(), NBUF);
      assert prev[Stop(order, NBUF + 1)] == Stop(order, NBUF);
      b := prev[HEAD];
      while b != HEAD
        invariant k < j <= NBUF && b == Stop(order, j)
        decreases j
      {
        if bufs[b].refcnt == 0 && !bufs[b].dirty {
          return;
        }
        assert prev[Stop(order, j)] == Stop(order, j - 1);
        b := prev[b];
        j := j - 1;
      }
    }

    /** One buffer's fields change; the list does not. */
    method SetBuf(b: int, f: Buf)
      requires Valid() && 0 <= b < NBUF
      modifies this`bufs
      ensures Valid() && State() == Cache(old(bufs)[b := f], order, disk)
    {
      bufs := bufs[b := f];
    }

    /** bget: an index of a buffer now counted as used, or -1 for its panic. */
    method Bget(dev: int, bno: int) returns (b: int)
      requires Valid()
      modifies this`bufs
      ensures Valid() && (State(), b) == Got(old(State()), dev, bno) && GetPost(old(State()), dev, bno, State(), b)
    {
      GotIs(State(), dev, bno);
      hide Ring, Lookup, Recycle, GetPost;
      b := FindCached(dev, bno);
      if b != HEAD {
        SetBuf(b, bufs[b].(refcnt := bufs[b].refcnt + 1));
        return;
      }
      b := FindIdle();
      if b != HEAD {
        SetBuf(b, Buf(dev, bno, false, false, 1, bufs[b].data));
        return;
      }
      b := -1;
    }

    /** bread of a disk block: the store's block, in a buffer of its own. */
    method Bread(bno: int, ghost store: seq<Block>) returns (b: int)
      requires Valid() && Represents(State(), store) && 0 <= bno < |store|
      modifies this`bufs
      ensures Valid() && Represents(State(), store)
      ensures b == -1 <==> Got(old(State()), ROOTDEV, bno).1 == -1
      ensures b != -1 ==> OnDisk(State(), b) && Holds(bufs[b], ROOTDEV, bno)
      ensures b != -1 ==> bufs[b].valid && bufs[b].data == store[bno]
    {
      GotOk(State(), bno, store);
      b := Bget(ROOTDEV, bno);
      if b != -1 && !bufs[b].valid {
        FilledOk(State(), b, store);
        bufs := bufs[b := bufs[b].(data := disk[bno], valid := true)];
      }
    }

    /** The holder's change followed by log_write, which pins the buffer. */
    method LogWrite(b: int, data: Block)
      requires Valid() && OnDisk(State(), b) && bufs[b].valid
      modifies this`bufs
      ensures Valid() && State() == Logged(old(State()), b, data)
    {
      bufs := bufs[b := bufs[b].(data := data)];
      bufs := bufs[b := bufs[b].(dirty := true)];
    }

    /** The holder's change followed by bwrite, whose iderw clears B_DIRTY. */
    method Bwrite(b: int, data: Block)
      requires Valid() && OnDisk(State(), b) && bufs[b].valid
      modifies this`bufs, this`disk
      ensures Valid() && State() == Written(old(State()), b, data)
    {
      bufs := bufs[b := bufs[b].(data := data)];
      bufs := bufs[b := bufs[b].(dirty := true)];
      disk := disk[bufs[b].blockno := bufs[b].data];
      bufs := bufs[b := bufs[b].(dirty := false, valid := true)];
    }

    /** The two link assignments that take a buffer out of the list. */
    method Unlink(b: int, ghost k: nat)
      requires Ring(order, next, prev) && k < |order| && b == order[k]
      modifies this`next, this`prev, this`order
      ensures Ring(order, next, prev) && order == old(order[..k] + order[k + 1..]) && b !in order
    {
      UnlinkRing(order, next, prev, k);
      var n, p := next[b], prev[b];
      prev := prev[n := p];
      next := next[p := n];
      order := order[..k] + order[k + 1..];
    }

    /** brelse's six link assignments. */
    method ToFront(b: int)
      requires Ring(order, next, prev) && b in order
      modifies this`next, this`prev, this`order
      ensures Ring(order, next, prev) && order == MovedToFront(old(order), b)
    {
      Unlink(b, Position(order, b));
      InsertFront(b);
    }

    /** brelse: drop one use; the last one moves the buffer to the front. */
    method Brelse(b: int)
      requires Valid() && 0 <= b < NBUF && bufs[b].refcnt > 0
      modifies this`next, this`prev, this`bufs, this`order
      ensures Valid() && State() == Released(old(State()), b) && ReleasePost(old(State()), b, State())
    {
      ReleasedIs(State(), b);
      ReleasedShape(State(), b);
      assert b in order;
      hide Ring, ReleasePost, Shape, MovedToFront;
      SetBuf(b, bufs[b].(refcnt := bufs[b].refcnt - 1));
      if bufs[b].refcnt == 0 {
        ToFront(b);
      }
    }
  }
}
