/** writei as a sequence of writes inside single blocks: what they add up to in
    the file, and which blocks they give to the log. */
module Writes {
  import opened Blocks
  import opened Files
  import opened Contents
  import opened BlockMap
  import opened Journal

  // The blocks logged ---------------------------------------------------------------------------------

  ghost function BlockOf(t: Table, i: nat, bn: nat): (b: nat) {
    if DataPos(i, bn) in t then t[DataPos(i, bn)] else 0
  }

  /** The file's blocks from `lo` up to `hi`. */
  ghost function DataBlocks(t: Table, i: nat, lo: nat, hi: nat): (s: set<nat>) {
    if hi <= lo then {} else DataBlocks(t, i, lo, hi - 1) + {BlockOf(t, i, hi - 1)}
  }

  /** Their bitmap blocks. */
  ghost function BitBlocks(sb: Super, t: Table, i: nat, lo: nat, hi: nat): (s: set<nat>) {
    if hi <= lo then {} else BitBlocks(sb, t, i, lo, hi - 1) + {BlockOf(t, i, hi - 1) / BPB + sb.bmapstart}
  }

  lemma {:induction false} DataCard(t: Table, i: nat, lo: nat, hi: nat)
    ensures |DataBlocks(t, i, lo, hi)| <= if hi <= lo then 0 else hi - lo
    decreases hi
  {
    if hi > lo {
      DataCard(t, i, lo, hi - 1);
      AddOne(DataBlocks(t, i, lo, hi - 1), BlockOf(t, i, hi - 1));
    }
  }

  lemma {:induction false} BitCard(sb: Super, t: Table, i: nat, lo: nat, hi: nat)
    ensures |BitBlocks(sb, t, i, lo, hi)| <= if hi <= lo then 0 else hi - lo
    decreases hi
  {
    if hi > lo {
      BitCard(sb, t, i, lo, hi - 1);
      AddOne(BitBlocks(sb, t, i, lo, hi - 1), BlockOf(t, i, hi - 1) / BPB + sb.bmapstart);
    }
  }

  lemma AddOne<T>(s: set<T>, x: T)
    ensures |s + {x}| <= |s| + 1
  {
  }

  lemma UnionCard<T>(s: set<T>, u: set<T>)
    ensures |s + u| <= |s| + |u|
  {
  }

  predicate Range(sb: Super, t: Table, i: nat, lo: nat, hi: nat) {
    forall bn :: lo <= bn < hi ==> HasBlock(sb, t, i, bn)
  }

  lemma {:induction false} SameBlocks(sb: Super, t: Table, t': Table, i: nat, lo: nat, hi: nat, f: nat)
    requires Range(sb, t, i, lo, hi) && Grows(t, t') && 0 < sb.start && lo <= f
    ensures DataBlocks(t', i, lo, hi) == DataBlocks(t, i, lo, hi)
    ensures BitBlocks(sb, t', i, f, hi) == BitBlocks(sb, t, i, f, hi)
    decreases hi
  {
    if hi > lo {
      assert HasBlock(sb, t, i, hi - 1);
      SameBlocks(sb, t, t', i, lo, hi - 1, f);
    }
  }

  /** What a write of blocks `lo` to `hi`, new from `f` on, may log: the blocks,
      the bitmap blocks of the new ones, the indirect block and its bitmap block. */
  ghost function Bill(sb: Super, t: Table, i: nat, lo: nat, f: nat, hi: nat): (s: set<nat>)
    requires LayoutOk(sb)
  {
    DataBlocks(t, i, lo, hi) + BitBlocks(sb, t, i, f, hi) + Indirect(sb, t, i)
  }

  lemma BillCard(sb: Super, t: Table, i: nat, lo: nat, f: nat, hi: nat)
    requires LayoutOk(sb) && lo <= hi
    ensures |Bill(sb, t, i, lo, f, hi)| <= (hi - lo) + (if f < hi then hi - f else 0) + 2
  {
    DataCard(t, i, lo, hi);
    BitCard(sb, t, i, f, hi);
    UnionCard(DataBlocks(t, i, lo, hi), BitBlocks(sb, t, i, f, hi));
    UnionCard(DataBlocks(t, i, lo, hi) + BitBlocks(sb, t, i, f, hi), Indirect(sb, t, i));
    IndirectCard(sb, t, i);
  }

  lemma IndirectCard(sb: Super, t: Table, i: nat)
    requires LayoutOk(sb)
    ensures |Indirect(sb, t, i)| <= 2
  {
  }

  /** One more block. */
  lemma BillGrows(sb: Super, t: Table, t': Table, i: nat, lo: nat, f: nat, hi: nat, l: set<nat>, l0: set<nat>,
                  l': set<nat>)
    requires LayoutOk(sb) && 0 < sb.start && lo <= f && lo <= hi && Range(sb, t, i, lo, hi) && Grows(t, t')
    requires l <= l0 + Bill(sb, t, i, lo, f, hi)
    requires HasBlock(sb, t', i, hi) && (hi < f ==> HasBlock(sb, t, i, hi))
    requires var b := t'[DataPos(i, hi)];
             l' <= l + {b} + if HasBlock(sb, t, i, hi) then {} else {BBlock(sb, b)} + Indirect(sb, t', i)
    ensures l' <= l0 + Bill(sb, t', i, lo, f, hi + 1) && Range(sb, t', i, lo, hi + 1)
  {
    SameBlocks(sb, t, t', i, lo, hi, f);
    assert Indirect(sb, t, i) <= Indirect(sb, t', i);
    assert Bill(sb, t, i, lo, f, hi) <= Bill(sb, t', i, lo, f, hi + 1);
    forall bn | lo <= bn < hi ensures HasBlock(sb, t', i, bn) {
      assert HasBlock(sb, t, i, bn);
    }
  }

  // One block -----------------------------------------------------------------------------------------

  ghost predicate ChunkPre(v: Fs, m: Meaning, off: nat, c: seq<Byte>) {
    && Fits(v, m) && off <= |m.files[v.ip.inum]|
    && 0 < |c| && off % BSIZE + |c| <= BSIZE && off + |c| <= MAXBYTES
  }

  ghost predicate Fits(v: Fs, m: Meaning) {
    Shaped(v) && |m.files| == v.sb.ninodes && 0 < v.sb.start
  }

  /** Bytes `c` are in the file at `off`; the block and, if it is new, its
      bitmap block and the indirect block's were logged. */
  ghost predicate ChunkPost(v: Fs, m: Meaning, l: set<nat>, off: nat, c: seq<Byte>, v': Fs, m': Meaning, l': set<nat>)
    requires ChunkPre(v, m, off, c)
  {
    var i, bn := v.ip.inum, off / BSIZE;
    && Fits(v', m') && v'.sb == v.sb && v'.ip == v.ip.(addrs := v'.ip.addrs)
    && m'.files == m.files[i := Splice(m.files[i], off, c)] && Grows(m.t, m'.t) && SameInodes(v, v')
    && HasBlock(v.sb, m'.t, i, bn)
    && (HasBlock(v.sb, m.t, i, bn) ==> v'.ip == v.ip && (Synced(v) ==> Synced(v')))
    && var b := m'.t[DataPos(i, bn)];
       l' <= l + {b} + if HasBlock(v.sb, m.t, i, bn) then {} else {BBlock(v.sb, b)} + Indirect(v.sb, m'.t, i)
  }

  lemma SyncedStays(v: Fs, v': Fs)
    requires Shaped(v) && Shaped(v') && v'.sb == v.sb && v'.ip == v.ip && Synced(v)
    requires v'.disk[IBlock(v.sb, v.ip.inum)] == v.disk[IBlock(v.sb, v.ip.inum)]
    ensures Synced(v')
  {
  }

  /** bmap, then the bytes, then log_write. */
  lemma ChunkDone(v: Fs, m: Meaning, l: set<nat>, off: nat, c: seq<Byte>, v1: Fs, m1: Meaning, l1: set<nat>, b: nat)
    returns (v': Fs, m': Meaning)
    requires ChunkPre(v, m, off, c) && off / BSIZE < MAXFILE && MapPost(v, m, l, off / BSIZE, v1, m1, l1, b)
    ensures b < |v1.disk| && v' == Written(v1, b, off % BSIZE, c)
    ensures Means(v', m') && ChunkPost(v, m, l, off, c, v', m', l1 + {b})
  {
    var i := v.ip.inum;
    WrittenMeans(v1, m1, off, c);
    v' := Written(v1, b, off % BSIZE, c);
    m' := m1.(files := m1.files[i := Splice(m1.files[i], off, c)]);
    if HasBlock(v.sb, m.t, i, off / BSIZE) && Synced(v) {
      SyncedStays(v, v');
    }
  }

  // A whole write -----------------------------------------------------------------------------------

  function Last(off: nat, n: nat): (hi: nat) {
    if n == 0 then off / BSIZE else BlocksFor(off + n)
  }

  function Max(a: nat, b: nat): (c: nat) {
    if a < b then b else a
  }

  /** The first block of a write at `off` that may be new, for a file of `n` bytes. */
  function FirstNew(off: nat, n: nat): (f: nat) {
    Max(off / BSIZE, BlocksFor(n))
  }

  /** A write of `c` at `off`, so far. */
  ghost predicate WroteTo(v0: Fs, m0: Meaning, l0: set<nat>, off: nat, c: seq<Byte>, v: Fs, m: Meaning, l: set<nat>)
    requires Fits(v0, m0) && off <= |m0.files[v0.ip.inum]|
  {
    var i := v0.ip.inum;
    && Fits(v, m) && v.sb == v0.sb && v.ip == v0.ip.(addrs := v.ip.addrs)
    && m.files == m0.files[i := Splice(m0.files[i], off, c)] && Grows(m0.t, m.t) && SameInodes(v0, v)
    && (off + |c| <= |m0.files[i]| ==> v.ip == v0.ip && (Synced(v0) ==> Synced(v)))
    && WriteBilled(v.sb, m.t, i, off, |c|, |m0.files[i]|, l0, l)
  }

  /** `n` bytes at `off` of a file that had `size` bytes: the blocks are there
      and no more was logged than they call for. */
  ghost predicate WriteBilled(sb: Super, t: Table, i: nat, off: nat, n: nat, size: nat, l0: set<nat>, l: set<nat>)
    requires LayoutOk(sb)
  {
    && off / BSIZE <= Last(off, n) && Range(sb, t, i, off / BSIZE, Last(off, n))
    && l <= l0 + Bill(sb, t, i, off / BSIZE, FirstNew(off, size), Last(off, n))
  }

  lemma LastIs(off: nat, n: nat, d: nat)
    requires (n == 0 || (off + n) % BSIZE == 0) && 0 < d && (off + n) % BSIZE + d <= BSIZE
    ensures Last(off, n) == (off + n) / BSIZE && Last(off, n + d) == (off + n) / BSIZE + 1
  {
  }

  lemma BilledMore(sb: Super, t: Table, t': Table, i: nat, off: nat, n: nat, d: nat, size: nat, l0: set<nat>,
                   l: set<nat>, l': set<nat>)
    requires LayoutOk(sb) && 0 < sb.start && WriteBilled(sb, t, i, off, n, size, l0, l)
    requires (n == 0 || (off + n) % BSIZE == 0) && 0 < d && (off + n) % BSIZE + d <= BSIZE
    requires Grows(t, t') && Range(sb, t, i, 0, BlocksFor(size)) && HasBlock(sb, t', i, (off + n) / BSIZE)
    requires var b := t'[DataPos(i, (off + n) / BSIZE)];
             l' <= l + {b} + if HasBlock(sb, t, i, (off + n) / BSIZE) then {} else {BBlock(sb, b)} + Indirect(sb, t', i)
    ensures WriteBilled(sb, t', i, off, n + d, size, l0, l')
  {
    LastIs(off, n, d);
    BillGrows(sb, t, t', i, off / BSIZE, FirstNew(off, size), Last(off, n), l, l0, l');
  }

  /** Blocks below the old size were mapped before the write and still are. */
  lemma OldBlocks(sb: Super, t: Table, t': Table, i: nat, n: nat)
    requires Range(sb, t, i, 0, n) && Grows(t, t') && 0 < sb.start
    ensures Range(sb, t', i, 0, n)
  {
    forall bn | 0 <= bn < n ensures HasBlock(sb, t', i, bn) {
      assert HasBlock(sb, t, i, bn);
    }
  }

  lemma WroteMore(v0: Fs, m0: Meaning, l0: set<nat>, off: nat, c: seq<Byte>, v: Fs, m: Meaning, l: set<nat>,
                  d: seq<Byte>, v': Fs, m': Meaning, l': set<nat>)
    requires Fits(v0, m0) && off <= |m0.files[v0.ip.inum]| && WroteTo(v0, m0, l0, off, c, v, m, l)
    requires Range(v0.sb, m0.t, v0.ip.inum, 0, BlocksFor(|m0.files[v0.ip.inum]|))
    requires |c| == 0 || (off + |c|) % BSIZE == 0
    requires ChunkPre(v, m, off + |c|, d) && ChunkPost(v, m, l, off + |c|, d, v', m', l')
    ensures WroteTo(v0, m0, l0, off, c + d, v', m', l')
  {
    hide Bill, Indirect, Splice, Synced;
    var i, size := v0.ip.inum, |m0.files[v0.ip.inum]|;
    SpliceTwice(m0.files[i], off, c, d);
    OldBlocks(v.sb, m0.t, m.t, i, BlocksFor(size));
    BilledMore(v.sb, m.t, m'.t, i, off, |c|, |d|, size, l0, l, l');
    if off + |c + d| <= size {
      assert HasBlock(v.sb, m.t, i, (off + |c|) / BSIZE);
    }
  }

  /** writei's bounds, in the wrapping arithmetic of `uint`. */
  predicate Refused(size: nat, off: nat, n: nat) {
    off > size || (off + n) % WORD_MAX < off || off + n > MAXBYTES
  }

  lemma AtRestStart(v: Fs, m: Meaning, l: set<nat>, off: nat)
    requires Means(v, m) && off <= |m.files[v.ip.inum]|
    ensures Fits(v, m) && WroteTo(v, m, l, off, [], v, m, l)
    ensures Range(v.sb, m.t, v.ip.inum, 0, BlocksFor(|m.files[v.ip.inum]|))
    ensures |m.files[v.ip.inum]| <= MAXBYTES
  {
    var i := v.ip.inum;
    assert Holds(v.sb, v.disk, m.t, i, m.files[i]);
    assert Splice(m.files[i], off, []) == m.files[i];
  }

  /** Where writei's loop is after `tot` bytes; it began at `v`, `m`, `l`. */
  ghost predicate Writing(v: Fs, m: Meaning, l: set<nat>, off: nat, src: seq<Byte>, tot: nat, v1: Fs, m1: Meaning,
                          l1: set<nat>) {
    && Fits(v, m) && off <= |m.files[v.ip.inum]| && off + |src| <= MAXBYTES
    && Range(v.sb, m.t, v.ip.inum, 0, BlocksFor(|m.files[v.ip.inum]|))
    && tot <= |src| && (tot == |src| || tot == 0 || (off + tot) % BSIZE == 0)
    && WroteTo(v, m, l, off, src[..tot], v1, m1, l1)
  }

  /** The next `n` bytes, up to the end of the block or of `src`. */
  predicate Turn(off: nat, src: seq<Byte>, tot: nat, n: nat) {
    && 0 < n && tot + n <= |src| && (off + tot) % BSIZE + n <= BSIZE
    && (tot + n == |src| || (off + tot + n) % BSIZE == 0)
  }

  lemma TurnIs(off: nat, src: seq<Byte>, tot: nat, n: nat)
    requires tot < |src|
    requires var room := BSIZE - (off + tot) % BSIZE; n == if |src| - tot < room then |src| - tot else room
    ensures Turn(off, src, tot, n)
  {
  }

  lemma TurnPre(v: Fs, m: Meaning, l: set<nat>, off: nat, src: seq<Byte>, tot: nat, c: seq<Byte>, v1: Fs,
                m1: Meaning, l1: set<nat>)
    requires Writing(v, m, l, off, src, tot, v1, m1, l1) && Turn(off, src, tot, |c|)
    ensures ChunkPre(v1, m1, off + tot, c)
  {
  }

  lemma TurnDone(v: Fs, m: Meaning, l: set<nat>, off: nat, src: seq<Byte>, tot: nat, c: seq<Byte>, next: nat,
                 v1: Fs, m1: Meaning, l1: set<nat>, v': Fs, m': Meaning, l': set<nat>)
    requires Writing(v, m, l, off, src, tot, v1, m1, l1) && Turn(off, src, tot, |c|)
    requires next == tot + |c| && c == src[tot..next]
    requires ChunkPre(v1, m1, off + tot, c) && ChunkPost(v1, m1, l1, off + tot, c, v', m', l')
    ensures Writing(v, m, l, off, src, next, v', m', l')
  {
    var d := src[..tot];
    assert |d| == tot;
    WroteMore(v, m, l, off, d, v1, m1, l1, c, v', m', l');
    assert d + c == src[..next];
  }

  // writei ----------------------------------------------------------------------------------------------

  function Resized(v: Fs, n: nat): (r: Fs) {
    v.(ip := v.ip.(size := n))
  }

  lemma ResizedMeans(v: Fs, m: Meaning, n: nat)
    requires Means(v, m) && n < WORD_MAX
    ensures Means(Resized(v, n), m)
  {
  }

  /** The file is spliced, all others are as before, and the inode is back on
      disk; no more was logged than the write called for. */
  ghost predicate WritePost(v: Fs, m: Meaning, l: set<nat>, off: nat, src: seq<Byte>, v': Fs, m': Meaning, l': set<nat>)
    requires Fits(v, m) && off <= |m.files[v.ip.inum]|
  {
    var i := v.ip.inum;
    && AtRest(v', m') && v'.sb == v.sb && v'.ip.inum == i && KeepsInodes(v, v')
    && m'.files == m.files[i := Splice(m.files[i], off, src)]
    && l' <= l + WriteLog(v.sb, m'.t, i, off, |src|, |m.files[i]|)
  }

  ghost function WriteLog(sb: Super, t: Table, i: nat, off: nat, n: nat, size: nat): (s: set<nat>)
    requires LayoutOk(sb) && i < sb.ninodes
  {
    Bill(sb, t, i, off / BSIZE, FirstNew(off, size), Last(off, n)) + {IBlock(sb, i)}
  }

  lemma WritingShape(v: Fs, m: Meaning, l: set<nat>, off: nat, src: seq<Byte>, v1: Fs, m1: Meaning, l1: set<nat>)
    requires Writing(v, m, l, off, src, |src|, v1, m1, l1)
    ensures Fits(v, m) && Shaped(v1) && v1.ip.size == v.ip.size && v1.ip.inum == v.ip.inum
    ensures off <= |m.files[v.ip.inum]| && off + |src| <= MAXBYTES
  {
  }

  /** Only the locked inode's dinode is rewritten, and of it size and blocks. */
  lemma UpdatedInodes(v: Fs, v1: Fs, n: nat)
    requires Shaped(v) && Shaped(v1) && SameInodes(v, v1) && v1.ip == v.ip.(addrs := v1.ip.addrs) && n < WORD_MAX
    ensures Shaped(Resized(v1, n)) && KeepsInodes(v, Updated(Resized(v1, n)))
  {
    var r := Resized(v1, n);
    forall i, k | 0 <= i < v.sb.ninodes && i != v.ip.inum && 0 <= k < INODE_WORDS
      ensures DinodeWord(Updated(r), i, k) == DinodeWord(v, i, k)
    {
      UpdatedOther(r, i, k);
    }
  }

  lemma SameKeeps(v: Fs, v1: Fs)
    requires Shaped(v) && Shaped(v1) && SameInodes(v, v1) && v1.ip == v.ip.(addrs := v1.ip.addrs)
    ensures KeepsInodes(v, v1)
  {
  }

  lemma GrewMeans(v: Fs, m: Meaning, n: nat)
    requires Means(v, m) && n < WORD_MAX && |m.files[v.ip.inum]| == n
    ensures Shaped(Resized(v, n)) && AtRest(Updated(Resized(v, n)), m)
    ensures Updated(Resized(v, n)).sb == v.sb && Updated(Resized(v, n)).ip.inum == v.ip.inum
  {
    ResizedMeans(v, m, n);
    UpdatedMeans(Resized(v, n), m);
  }

  /** The file grew: size and blocks go to the dinode. */
  lemma GrewDone(v: Fs, m: Meaning, l: set<nat>, off: nat, src: seq<Byte>, v1: Fs, m1: Meaning, l1: set<nat>)
    requires Means(v1, m1) && Writing(v, m, l, off, src, |src|, v1, m1, l1)
    requires off + |src| > |m.files[v.ip.inum]|
    ensures Shaped(Resized(v1, off + |src|))
    ensures WritePost(v, m, l, off, src, Updated(Resized(v1, off + |src|)), m1, l1 + {IBlock(v.sb, v.ip.inum)})
  {
    hide AtRest, KeepsInodes, Updated, SameInodes, Synced, Bill;
    assert src[..|src|] == src;
    GrewMeans(v1, m1, off + |src|);
    UpdatedInodes(v, v1, off + |src|);
  }

  /** The file did not grow: no block was new and the dinode is still right. */
  lemma WithinDone(v: Fs, m: Meaning, l: set<nat>, off: nat, src: seq<Byte>, v1: Fs, m1: Meaning, l1: set<nat>)
    requires Means(v1, m1) && Writing(v, m, l, off, src, |src|, v1, m1, l1)
    requires off + |src| <= |m.files[v.ip.inum]| == v.ip.size && Synced(v)
    ensures WritePost(v, m, l, off, src, v1, m1, l1)
  {
    assert src[..|src|] == src;
    SameKeeps(v, v1);
  }

  // readi -----------------------------------------------------------------------------------------------

  /** Bytes of the file within one block. */
  lemma BlockSlice(v: Fs, m: Meaning, off: nat, n: nat)
    requires Means(v, m) && off + n <= |m.files[v.ip.inum]| && 0 < n && off % BSIZE + n <= BSIZE
    ensures off / BSIZE < MAXFILE && HasBlock(v.sb, m.t, v.ip.inum, off / BSIZE)
    ensures var d := v.disk[m.t[DataPos(v.ip.inum, off / BSIZE)]];
            d[off % BSIZE..off % BSIZE + n] == m.files[v.ip.inum][off..off + n]
  {
  }

  lemma SliceJoin<T>(s: seq<T>, a: nat, b: nat, c: nat)
    requires a <= b <= c <= |s|
    ensures s[a..b] + s[b..c] == s[a..c]
  {
  }

  // itrunc ----------------------------------------------------------------------------------------------

  /** No owner was added, and only owners in inode `i` were removed. */
  ghost predicate Kept(owner: map<nat, Pos>, owner': map<nat, Pos>, i: nat) {
    && (forall b :: b in owner' ==> b in owner && owner'[b] == owner[b])
    && forall b :: b in owner && owner[b].inum != i ==> b in owner'
  }

  /** itrunc under way: the inode's file is forgotten, its first `done`
      indirect entries are freed. */
  ghost predicate Truncating(v0: Fs, m0: Meaning, v: Fs, m: Meaning, done: nat) {
    && MeansPast(v, m, done) && v.sb == v0.sb && v.ip == v0.ip.(addrs := v.ip.addrs)
    && v0.ip.inum < |m0.files| && m.files == m0.files[v0.ip.inum := []] && SameInodes(v0, v)
    && Kept(m0.owner, m.owner, v0.ip.inum)
  }

  lemma TruncatingShaped(v0: Fs, m0: Meaning, v: Fs, m: Meaning, done: nat)
    requires Truncating(v0, m0, v, m, done)
    ensures Shaped(v)
  {
  }

  lemma TruncStart(v: Fs, m: Meaning) returns (m': Meaning)
    requires Means(v, m)
    ensures Truncating(v, m, v, m', 0) && m' == m.(files := m.files[v.ip.inum := []])
  {
    Forgotten(v, m);
    m' := m.(files := m.files[v.ip.inum := []]);
  }

  lemma PosIs(v: Fs, m: Meaning, done: nat, p: nat)
    requires MeansPast(v, m, done) && p < SLOTS
    ensures Pos(v.ip.inum, p) in m.t && m.t[Pos(v.ip.inum, p)] == Ref(v, v.ip.inum, p)
    ensures v.ip.addrs[NDIRECT] < v.sb.size
  {
    var q, n := Pos(v.ip.inum, p), Pos(v.ip.inum, NDIRECT);
    assert q in m.t && n in m.t && m.t[n] == Ref(v, n.inum, n.slot);
  }

  lemma KeptLess(owner: map<nat, Pos>, owner': map<nat, Pos>, i: nat, b: nat)
    requires Kept(owner, owner', i) && b in owner' && owner'[b].inum == i
    ensures Kept(owner, owner' - {b}, i)
  {
  }

  lemma TruncDirect(v0: Fs, m0: Meaning, v: Fs, m: Meaning, k: nat) returns (v': Fs, m': Meaning)
    requires Truncating(v0, m0, v, m, 0) && k < NDIRECT && v.ip.addrs[k] != 0
    ensures var b := v.ip.addrs[k];
            b < v.sb.size && InUse(v, b) && v' == SetAddr(Freed(v, b), k, 0)
    ensures Truncating(v0, m0, v', m', 0)
  {
    PosIs(v, m, 0, k);
    FreedFacts(v, m, 0, k);
    DirectFreed(v, m, k);
    var b := v.ip.addrs[k];
    KeptLess(m0.owner, m.owner, v0.ip.inum, b);
    v', m' := SetAddr(Freed(v, b), k, 0), FreedMeaning(m, m.t[Pos(v.ip.inum, k) := 0], b);
  }

  lemma TruncSkip(v0: Fs, m0: Meaning, v: Fs, m: Meaning, j: nat)
    requires Truncating(v0, m0, v, m, j) && j < WORDS && Pos(v.ip.inum, NDIRECT + 1 + j) in m.t
    requires m.t[Pos(v.ip.inum, NDIRECT + 1 + j)] == 0
    ensures Truncating(v0, m0, v, m, j + 1)
  {
    OwnedDrop(v.sb, m.t, m.used, m.owner, v.ip.inum, j);
  }

  lemma TruncDrop(v0: Fs, m0: Meaning, v: Fs, m: Meaning, j: nat, b: nat) returns (m': Meaning)
    requires Truncating(v0, m0, v, m, j) && j < WORDS && Pos(v.ip.inum, NDIRECT + 1 + j) in m.t
    requires b == m.t[Pos(v.ip.inum, NDIRECT + 1 + j)] != 0
    ensures b < v.sb.size && InUse(v, b) && Truncating(v0, m0, Freed(v, b), m', j + 1)
  {
    FreedFacts(v, m, j, NDIRECT + 1 + j);
    EntryFreed(v, m, j);
    KeptLess(m0.owner, m.owner, v0.ip.inum, b);
    m' := FreedMeaning(m, m.t, b);
  }

  lemma TruncEntry(v0: Fs, m0: Meaning, v: Fs, m: Meaning, j: nat) returns (m': Meaning)
    requires Truncating(v0, m0, v, m, j) && j < WORDS && v.ip.addrs[NDIRECT] != 0
    ensures v.ip.addrs[NDIRECT] < v.sb.size
    ensures var b := Word(v.disk[v.ip.addrs[NDIRECT]], j);
            if b == 0 then Truncating(v0, m0, v, m', j + 1)
            else b < v.sb.size && InUse(v, b) && Truncating(v0, m0, Freed(v, b), m', j + 1)
  {
    PosIs(v, m, j, NDIRECT + 1 + j);
    var b := Word(v.disk[v.ip.addrs[NDIRECT]], j);
    if b == 0 {
      TruncSkip(v0, m0, v, m, j);
      m' := m;
    } else {
      m' := TruncDrop(v0, m0, v, m, j, b);
    }
  }

  lemma TruncIndirect(v0: Fs, m0: Meaning, v: Fs, m: Meaning) returns (v': Fs, m': Meaning)
    requires Truncating(v0, m0, v, m, WORDS) && v.ip.addrs[NDIRECT] != 0
    ensures var b := v.ip.addrs[NDIRECT];
            b < v.sb.size && InUse(v, b) && v' == SetAddr(Freed(v, b), NDIRECT, 0)
    ensures Truncating(v0, m0, v', m', 0)
  {
    PosIs(v, m, WORDS, NDIRECT);
    FreedFacts(v, m, WORDS, NDIRECT);
    IndirectFreed(v, m);
    var b := v.ip.addrs[NDIRECT];
    KeptLess(m0.owner, m.owner, v0.ip.inum, b);
    v', m' := SetAddr(Freed(v, b), NDIRECT, 0), FreedMeaning(m, WithoutIndirect(m.t, v.ip.inum), b);
  }

  /** itrunc's result: the file is empty, all others are as before, and the
      blocks freed are exactly those its slots referred to. */
  ghost predicate TruncPost(v: Fs, m: Meaning, v': Fs, m': Meaning)
    requires Shaped(v)
  {
    var i := v.ip.inum;
    && AtRest(v', m') && v'.sb == v.sb && v'.ip.inum == i && i < |m.files| && KeepsInodes(v, v')
    && m'.files == m.files[i := []]
    && (forall p :: 0 <= p < SLOTS ==> Ref(v', i, p) == 0)
    && forall b :: 0 <= b < v.sb.size ==> (InUse(v', b) <==> InUse(v, b) && !InFile(v, b))
  }

  /** Some slot of the locked inode refers to `b`. */
  ghost predicate InFile(v: Fs, b: nat)
    requires Shaped(v)
  {
    b != 0 && exists p :: 0 <= p < SLOTS && Ref(v, v.ip.inum, p) == b
  }

  lemma NoSlots(v: Fs)
    requires Shaped(v) && forall k :: 0 <= k <= NDIRECT ==> v.ip.addrs[k] == 0
    ensures forall p :: 0 <= p < SLOTS ==> Ref(v, v.ip.inum, p) == 0
  {
  }

  /** Who is left in use, once the inode has no slot filled. */
  lemma FreedExactly(v0: Fs, m0: Meaning, v: Fs, m: Meaning, b: nat)
    requires Means(v0, m0) && Means(v, m) && v.sb == v0.sb && v.ip.inum == v0.ip.inum && b < v.sb.size
    requires Kept(m0.owner, m.owner, v0.ip.inum) && forall p :: 0 <= p < SLOTS ==> Ref(v, v.ip.inum, p) == 0
    ensures InUse(v, b) <==> InUse(v0, b) && !InFile(v0, b)
  {
    if b in m0.owner {
      OwnerSlot(v0, m0, b);
      if b in m.owner {
        OwnerSlot(v, m, b);
      }
    }
    if InFile(v0, b) {
      var p :| 0 <= p < SLOTS && Ref(v0, v0.ip.inum, p) == b;
      SlotOwner(v0, m0, p);
    }
  }

  lemma OwnerSlot(v: Fs, m: Meaning, b: nat)
    requires Means(v, m) && b in m.owner
    ensures IsPos(v.sb, m.owner[b]) && Ref(v, m.owner[b].inum, m.owner[b].slot) == b != 0
  {
    assert m.owner[b] in m.t;
  }

  lemma SlotOwner(v: Fs, m: Meaning, p: nat)
    requires Means(v, m) && p < SLOTS && Ref(v, v.ip.inum, p) != 0
    ensures var b := Ref(v, v.ip.inum, p); b in m.owner && m.owner[b] == Pos(v.ip.inum, p)
  {
  }

  lemma TruncDone(v0: Fs, m0: Meaning, v: Fs, m: Meaning)
    requires Means(v0, m0) && Truncating(v0, m0, v, m, 0) && forall k :: 0 <= k <= NDIRECT ==> v.ip.addrs[k] == 0
    ensures Shaped(Resized(v, 0)) && TruncPost(v0, m0, Updated(Resized(v, 0)), m)
  {
    ResizedMeans(v, m, 0);
    UpdatedMeans(Resized(v, 0), m);
    var v' := Updated(Resized(v, 0));
    NoSlots(v');
    UpdatedInodes(v0, v, 0);
    forall b | 0 <= b < v.sb.size ensures InUse(v', b) <==> InUse(v0, b) && !InFile(v0, b) {
      FreedExactly(v0, m0, v', m, b);
    }
  }

  // filewrite -------------------------------------------------------------------------------------------

  /** (MAXOPBLOCKS - 1 - 1 - 2) / 2 * 512: room for the inode, the indirect
      block and two blocks of slop. */
  const CHUNK := 1536

  lemma SubsetCard<T>(s: set<T>, u: set<T>)
    requires s <= u
    ensures |s| <= |u|
  {
    assert u == s + (u - s);
  }

  /** A chunk touches at most four blocks, of which at most three are new. */
  lemma ChunkSpan(off: nat, n: nat, size: nat)
    requires 0 < n <= CHUNK && off <= size
    ensures off / BSIZE <= Last(off, n)
    ensures var lo, f, hi := off / BSIZE, FirstNew(off, size), Last(off, n); hi - lo <= 4 && hi - f <= 3
  {
  }

  /** A chunk logs at most MAXOPBLOCKS blocks, however many bitmap blocks there
      are and wherever the file's blocks lie. */
  lemma ChunkBound(sb: Super, t: Table, i: nat, off: nat, n: nat, size: nat)
    requires LayoutOk(sb) && i < sb.ninodes && 0 < n <= CHUNK && off <= size
    ensures |WriteLog(sb, t, i, off, n, size)| <= MAXOPBLOCKS
  {
    var lo, f, hi := off / BSIZE, FirstNew(off, size), Last(off, n);
    ChunkSpan(off, n, size);
    BillCard(sb, t, i, lo, f, hi);
    AddOne(Bill(sb, t, i, lo, f, hi), IBlock(sb, i));
  }

  /** Blocks an operation may log: home blocks, no more than begin_op reserves. */
  predicate Admissible(sb: Super, bs: set<nat>) {
    |bs| <= MAXOPBLOCKS && forall b :: b in bs ==> sb.inodestart <= b < sb.size
  }

  lemma {:induction false} FileBlocksHome(sb: Super, t: Table, i: nat, lo: nat, f: nat, hi: nat)
    requires LayoutOk(sb) && Range(sb, t, i, lo, hi) && lo <= f
    ensures forall b :: b in DataBlocks(t, i, lo, hi) + BitBlocks(sb, t, i, f, hi) ==> sb.inodestart <= b < sb.size
    decreases hi
  {
    if lo < hi {
      FileBlocksHome(sb, t, i, lo, f, hi - 1);
      assert HasBlock(sb, t, i, hi - 1);
      var b := BlockOf(t, i, hi - 1);
      assert b / BPB + sb.bmapstart == BBlock(sb, b) < sb.start;
      forall x | x in DataBlocks(t, i, lo, hi) + BitBlocks(sb, t, i, f, hi) ensures sb.inodestart <= x < sb.size {
        assert x == b || x == BBlock(sb, b) || x in DataBlocks(t, i, lo, hi - 1) + BitBlocks(sb, t, i, f, hi - 1);
      }
    }
  }

  lemma IndirectHome(v: Fs, m: Meaning)
    requires Means(v, m)
    ensures forall b :: b in Indirect(v.sb, m.t, v.ip.inum) ==> v.sb.inodestart <= b < v.sb.size
  {
    var q := Pos(v.ip.inum, NDIRECT);
    if q in m.t && m.t[q] != 0 {
      assert m.owner[m.t[q]] == q;
    }
  }

  lemma WrittenRange(v: Fs, m: Meaning, off: nat, n: nat)
    requires Means(v, m) && off + n <= |m.files[v.ip.inum]|
    ensures Fits(v, m) && Range(v.sb, m.t, v.ip.inum, off / BSIZE, Last(off, n))
  {
    assert Holds(v.sb, v.disk, m.t, v.ip.inum, m.files[v.ip.inum]);
  }

  /** What a chunk logs is no more than begin_op reserved, and never the log. */
  lemma ChunkAdmissible(v: Fs, m: Meaning, off: nat, n: nat, size: nat, bs: set<nat>)
    requires AtRest(v, m) && 0 < n <= CHUNK && off <= size && off + n <= |m.files[v.ip.inum]|
    requires bs <= WriteLog(v.sb, m.t, v.ip.inum, off, n, size)
    ensures Admissible(v.sb, bs)
  {
    hide Means, DataBlocks, BitBlocks, Indirect, IBlock;
    var i := v.ip.inum;
    WrittenRange(v, m, off, n);
    ChunkBound(v.sb, m.t, i, off, n, size);
    SubsetCard(bs, WriteLog(v.sb, m.t, i, off, n, size));
    FileBlocksHome(v.sb, m.t, i, off / BSIZE, FirstNew(off, size), Last(off, n));
    IndirectHome(v, m);
  }

  ghost function Interval(a: nat, n: nat): (s: set<nat>)
    ensures |s| == n && forall m :: m in s <==> a <= m < a + n
  {
    if n == 0 then {} else Interval(a, n - 1) + {a + n - 1}
  }

  /** All bitmap blocks. */
  ghost function MapBlocks(sb: Super): (s: set<nat>) {
    Interval(sb.bmapstart, sb.size / BPB + 1)
  }

  /** What itrunc may log: any bitmap block, and the inode's. */
  ghost function TruncLog(sb: Super, i: nat): (s: set<nat>)
    requires LayoutOk(sb) && i < sb.ninodes
  {
    MapBlocks(sb) + {IBlock(sb, i)}
  }

  /** That is within an operation's budget exactly on volumes of at most
      MAXOPBLOCKS - 1 bitmap blocks. */
  lemma TruncAdmissible(sb: Super, i: nat)
    requires LayoutOk(sb) && i < sb.ninodes
    ensures |TruncLog(sb, i)| == sb.size / BPB + 2
    ensures Admissible(sb, TruncLog(sb, i)) <==> sb.size / BPB + 1 <= MAXOPBLOCKS - 1
  {
    assert IBlock(sb, i) !in MapBlocks(sb);
  }

  /** How many of `n` bytes at `off` filewrite writes. */
  function Accepted(size: nat, off: nat, n: int): (k: nat)
    ensures n >= 0 ==> k <= n
    ensures n < 0 ==> k == 0
  {
    if n <= 0 || off > size then 0
    else if off + n <= MAXBYTES then n
    else if off > MAXBYTES then 0
    else MAXBYTES - off - (MAXBYTES - off) % CHUNK
  }

  function Spliced(files: seq<seq<Byte>>, i: nat, off: nat, c: seq<Byte>): (r: seq<seq<Byte>>)
    requires i < |files| && off <= |files[i]|
  {
    files[i := Splice(files[i], off, c)]
  }

  function ChunkAt(n: int, i: nat): (k: int) {
    if n - i > CHUNK then CHUNK else n - i
  }

  /** filewrite's loop after `i` bytes: `v1` and `m1` came from `v` and `m`. */
  ghost predicate Filing(v: Fs, m: Meaning, off: nat, src: seq<Byte>, n: int, i: nat, v1: Fs, m1: Meaning) {
    && v1.ip.inum == v.ip.inum < |m.files| && |m.files[v.ip.inum]| == v.ip.size && Shaped(v) && KeepsInodes(v, v1)
    && (i > 0 ==> i <= n) && n <= |src|
    && (i == 0 ==> v1 == v && m1 == m)
    && (i > 0 ==> off <= v.ip.size && off + i <= MAXBYTES && m1.files == Spliced(m.files, v.ip.inum, off, src[..i]))
    && (i == n || i % CHUNK == 0)
  }

  lemma FilingNext(v: Fs, m: Meaning, off: nat, src: seq<Byte>, n: int, i: nat, v1: Fs, m1: Meaning, v': Fs,
                   m': Meaning)
    requires Filing(v, m, off, src, n, i, v1, m1) && i < n && v.ip.inum < |m1.files|
    requires off + i <= |m1.files[v.ip.inum]| && off + i + ChunkAt(n, i) <= MAXBYTES && (i == 0 ==> off <= v.ip.size)
    requires v'.ip.inum == v1.ip.inum && Shaped(v1) && KeepsInodes(v1, v')
    requires m'.files == Spliced(m1.files, v.ip.inum, off + i, src[i..i + ChunkAt(n, i)])
    ensures Filing(v, m, off, src, n, i + ChunkAt(n, i), v', m')
  {
    var k := ChunkAt(n, i);
    var c, d := src[..i], src[i..i + k];
    assert |c| == i && c + d == src[..i + k];
    if i == 0 {
      assert d == src[..i + k];
    } else {
      SplicedTwice(m.files, v.ip.inum, off, c, d);
    }
    Aligned(i);
  }

  lemma Aligned(i: nat)
    ensures i % CHUNK == 0 ==> (i + CHUNK) % CHUNK == 0
  {
  }

  lemma SplicedTwice(files: seq<seq<Byte>>, i: nat, off: nat, c: seq<Byte>, d: seq<Byte>)
    requires i < |files| && off <= |files[i]|
    ensures Spliced(Spliced(files, i, off, c), i, off + |c|, d) == Spliced(files, i, off, c + d)
  {
    SpliceTwice(files[i], off, c, d);
  }

  lemma AcceptedIs(size: nat, off: nat, n: int, i: nat)
    requires i < n && i % CHUNK == 0 && off <= size && off + i <= MAXBYTES && off + i + ChunkAt(n, i) > MAXBYTES
    ensures Accepted(size, off, n) == i
  {
  }

  lemma FilingEnd(v: Fs, m: Meaning, off: nat, src: seq<Byte>, n: int, i: nat, v1: Fs, m1: Meaning)
    requires Filing(v, m, off, src, n, i, v1, m1) && off < WORD_MAX
    requires i < n ==> Stuck(v1, m1, off + i, ChunkAt(n, i))
    ensures i == Accepted(v.ip.size, off, n)
    ensures off <= v.ip.size ==> m1.files == Spliced(m.files, v.ip.inum, off, src[..i])
    ensures off > v.ip.size ==> v1 == v && m1 == m
  {
    if i == 0 && off <= v.ip.size {
      assert src[..0] == [] && Splice(m.files[v.ip.inum], off, []) == m.files[v.ip.inum];
    }
    if i < n && off <= v.ip.size {
      AcceptedIs(v.ip.size, off, n, i);
    }
  }

  lemma FilingStart(v: Fs, m: Meaning, off: nat, src: seq<Byte>, n: int)
    requires AtRest(v, m) && n <= |src|
    ensures Filing(v, m, off, src, n, 0, v, m)
  {
  }

  lemma FilingSame(v: Fs, m: Meaning, off: nat, src: seq<Byte>, n: int, i: nat, v1: Fs, m1: Meaning)
    requires Filing(v, m, off, src, n, i, v1, m1)
    ensures v1.ip.inum == v.ip.inum < |m.files| && |m.files[v.ip.inum]| == v.ip.size
    ensures Shaped(v) && KeepsInodes(v, v1)
  {
  }

  /** writei refuses the next chunk, in a file no larger than the largest. */
  ghost predicate Stuck(v: Fs, m: Meaning, off: nat, n: int) {
    && v.ip.inum < |m.files| && v.ip.size == |m.files[v.ip.inum]| <= MAXBYTES
    && n > 0 && Refused(v.ip.size, off, n)
  }

  lemma SizeFits(v: Fs, m: Meaning)
    requires AtRest(v, m)
    ensures v.ip.inum < |m.files| && v.ip.size == |m.files[v.ip.inum]| <= MAXBYTES
  {
  }

  /** A chunk of filewrite that is done: what it logged, and the volume then. */
  datatype Chunk = Chunk(puts: seq<Put>, v: Fs, m: Meaning)

  /** The bytes sent with `k` chunks. */
  function Sent(n: int, k: nat): (i: nat)
    ensures i == 0 || i <= n
  {
    if n <= 0 then 0 else if k * CHUNK < n then k * CHUNK else n
  }

  /** The volume before chunk `k`. */
  function Before(v: Fs, m: Meaning, tr: seq<Chunk>, k: nat): (r: (Fs, Meaning))
    requires k <= |tr|
  {
    if k == 0 then (v, m) else (tr[k - 1].v, tr[k - 1].m)
  }

  /** Chunk `j` in one operation took the volume before it to one at rest, with
      one more chunk of `src` in the file. */
  ghost predicate ChunkLeft(v: Fs, m: Meaning, off: nat, src: seq<Byte>, n: int, tr: seq<Chunk>, j: nat)
    requires j < |tr|
  {
    var (c, i, k) := (tr[j], v.ip.inum, Sent(n, j + 1));
    && AtRest(c.v, c.m) && c.v.sb == v.sb && c.v.ip.inum == i && Shaped(v) && KeepsInodes(v, c.v)
    && c.v.disk == Redo(Before(v, m, tr, j).0.disk, c.puts) && Admissible(v.sb, Bnos(c.puts)) && c.puts != []
    && i < |m.files| && off <= |m.files[i]| && k <= |src|
    && c.m.files == Spliced(m.files, i, off, src[..k])
  }

  ghost predicate Trail(v: Fs, m: Meaning, off: nat, src: seq<Byte>, n: int, tr: seq<Chunk>) {
    forall j :: 0 <= j < |tr| ==> ChunkLeft(v, m, off, src, n, tr, j)
  }

  lemma TrailGrows(v: Fs, m: Meaning, off: nat, src: seq<Byte>, n: int, tr: seq<Chunk>, i: nat, c: Chunk)
    requires Trail(v, m, off, src, n, tr) && i == Sent(n, |tr|) < n
    requires AtRest(c.v, c.m) && c.v.sb == v.sb && Filing(v, m, off, src, n, i + ChunkAt(n, i), c.v, c.m)
    requires c.v.disk == Redo(Before(v, m, tr, |tr|).0.disk, c.puts) && Admissible(v.sb, Bnos(c.puts)) && c.puts != []
    ensures Trail(v, m, off, src, n, tr + [c]) && Sent(n, |tr| + 1) == i + ChunkAt(n, i)
  {
    hide AtRest, Redo, Bnos;
    var t := tr + [c];
    forall j | 0 <= j < |t| ensures ChunkLeft(v, m, off, src, n, t, j) {
      if j < |tr| {
        assert ChunkLeft(v, m, off, src, n, tr, j);
      }
    }
  }
}
