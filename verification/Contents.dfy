/** What the blocks of fs.c stand for: a byte sequence for every inode. */
module Contents {
  import opened Blocks
  import opened Files

  const MAXBYTES := 71680 // MAXFILE * BSIZE

  function BlocksFor(n: nat): (k: nat) {
    (n + BSIZE - 1) / BSIZE
  }

  function DataPos(i: nat, bn: nat): (q: Pos)
    ensures q.slot != NDIRECT
  {
    Pos(i, Slot(bn))
  }

  /** Every block below the size is mapped. */
  predicate NoHoles(sb: Super, t: Table, i: nat, n: nat) {
    n <= MAXBYTES && forall bn :: 0 <= bn < BlocksFor(n) ==> HasBlock(sb, t, i, bn)
  }

  predicate HasBlock(sb: Super, t: Table, i: nat, bn: nat) {
    DataPos(i, bn) in t && sb.start <= t[DataPos(i, bn)] < sb.size
  }

  /** Block contents `d` agree with the file's bytes from `base` on. */
  predicate BlockHolds(d: Block, s: seq<Byte>, base: nat) {
    forall k :: base <= k < |s| && k < base + BSIZE ==> s[k] == d[k - base]
  }

  predicate Holds(sb: Super, disk: seq<Block>, t: Table, i: nat, s: seq<Byte>)
    requires |disk| == sb.size
  {
    && NoHoles(sb, t, i, |s|)
    && forall bn :: 0 <= bn < BlocksFor(|s|) ==>
         HasBlock(sb, t, i, bn) && BlockHolds(disk[t[DataPos(i, bn)]], s, BSIZE * bn)
  }

  /** `c` over the bytes of `s` from `off` on, past the end if need be. */
  function Splice(s: seq<Byte>, off: nat, c: seq<Byte>): (r: seq<Byte>)
    requires off <= |s|
    ensures |r| == if off + |c| < |s| then |s| else off + |c|
  {
    s[..off] + c + (if off + |c| < |s| then s[off + |c|..] else [])
  }

  lemma SpliceTwice(s: seq<Byte>, off: nat, c: seq<Byte>, d: seq<Byte>)
    requires off <= |s|
    ensures Splice(Splice(s, off, c), off + |c|, d) == Splice(s, off, c + d)
  {
  }

  predicate Alone(t: Table, i: nat, n: nat, bn: nat) {
    forall b :: 0 <= b < n && b != bn && DataPos(i, b) in t && DataPos(i, bn) in t ==>
      t[DataPos(i, b)] != t[DataPos(i, bn)]
  }

  /** Writing `c` at `off`, inside one block, splices it into the file. */
  lemma HoldsWrite(sb: Super, disk: seq<Block>, t: Table, i: nat, s: seq<Byte>, off: nat, c: seq<Byte>,
                   disk': seq<Block>)
    requires |disk| == sb.size && Holds(sb, disk, t, i, s)
    requires off <= |s| && 0 < |c| && off % BSIZE + |c| <= BSIZE && off + |c| <= MAXBYTES
    requires HasBlock(sb, t, i, off / BSIZE) && Alone(t, i, BlocksFor(|s|), off / BSIZE)
    requires var b := t[DataPos(i, off / BSIZE)]; disk' == disk[b := PutBytes(disk[b], off % BSIZE, c)]
    ensures Holds(sb, disk', t, i, Splice(s, off, c))
  {
  }

  // The whole disk -------------------------------------------------------------------------------

  /** Every inode's blocks hold its file. */
  ghost predicate Stored(sb: Super, disk: seq<Block>, t: Table, files: seq<seq<Byte>>) {
    && |disk| == sb.size && |files| == sb.ninodes
    && forall i :: 0 <= i < sb.ninodes ==> Holds(sb, disk, t, i, files[i])
  }

  /** Every inode but the locked one has its file's size. */
  ghost predicate Sized(v: Fs, files: seq<seq<Byte>>)
    requires Shaped(v) && |files| == v.sb.ninodes
  {
    forall i :: 0 <= i < v.sb.ninodes && i != v.ip.inum ==> SizeAt(v, i) == |files[i]|
  }

  /** What the disk stands for: its block table, the blocks in use and who
      owns them, and the files. */
  datatype Meaning = Meaning(t: Table, used: set<nat>, owner: map<nat, Pos>, files: seq<seq<Byte>>)

  /** `done` entries of the indirect block have been freed by itrunc. */
  ghost predicate MeansPast(v: Fs, g: Meaning, done: nat) {
    && Shaped(v) && Tabled(v, g.t) && Mapped(v, g.used)
    && Owned(v.sb, g.t, g.used, g.owner, v.ip.inum, done)
    && Stored(v.sb, v.disk, g.t, g.files) && Sized(v, g.files)
  }

  ghost predicate Means(v: Fs, g: Meaning) {
    MeansPast(v, g, 0)
  }

  /** Between operations: the locked inode, too, has its file's size and is on disk. */
  ghost predicate AtRest(v: Fs, g: Meaning) {
    Means(v, g) && |g.files[v.ip.inum]| == v.ip.size && Synced(v)
  }

  /** Files change only where data blocks do. */
  lemma StoredFrame(sb: Super, disk: seq<Block>, disk': seq<Block>, t: Table, t': Table, files: seq<seq<Byte>>)
    requires Stored(sb, disk, t, files) && |disk'| == |disk|
    requires forall q :: q in t && q.slot != NDIRECT && sb.start <= t[q] < sb.size ==>
               q in t' && t'[q] == t[q] && disk'[t[q]] == disk[t[q]]
    ensures Stored(sb, disk', t', files)
  {
  }

  lemma StoredWrite(sb: Super, disk: seq<Block>, t: Table, files: seq<seq<Byte>>, i: nat, off: nat, c: seq<Byte>,
                    disk': seq<Block>)
    requires Stored(sb, disk, t, files) && i < sb.ninodes
    requires off <= |files[i]| && 0 < |c| && off % BSIZE + |c| <= BSIZE && off + |c| <= MAXBYTES
    requires HasBlock(sb, t, i, off / BSIZE)
    requires var q := DataPos(i, off / BSIZE); forall p :: p in t && p != q ==> t[p] != t[q]
    requires var b := t[DataPos(i, off / BSIZE)]; disk' == disk[b := PutBytes(disk[b], off % BSIZE, c)]
    ensures Stored(sb, disk', t, files[i := Splice(files[i], off, c)])
  {
    hide PutBytes, Splice;
    HoldsWrite(sb, disk, t, i, files[i], off, c, disk');
  }

  // Steps of bmap and writei ------------------------------------------------------------------------

  /** Block `b` newly allocated for slot `p` of the locked inode. */
  function Filled(v: Fs, p: nat, b: nat): (r: Fs)
    requires Shaped(v) && p < SLOTS && b < v.sb.size && v.ip.addrs[NDIRECT] < v.sb.size
    ensures Shaped(r) && r.sb == v.sb
  {
    if p <= NDIRECT then SetAddr(Alloc(v, b), p, b) else SetEntry(Alloc(v, b), p - NDIRECT - 1, b)
  }

  function FilledMeaning(v: Fs, g: Meaning, p: nat, b: nat): (r: Meaning) {
    var q := Pos(v.ip.inum, p);
    Meaning(g.t[q := b], g.used + {b}, g.owner[b := q], g.files)
  }

  ghost predicate CanFill(v: Fs, g: Meaning, p: nat, b: nat) {
    && Means(v, g) && p < SLOTS && g.t[Pos(v.ip.inum, p)] == 0
    && b < v.sb.size && b !in g.used && (p > NDIRECT ==> v.ip.addrs[NDIRECT] != 0)
  }

  lemma CanFillFacts(v: Fs, g: Meaning, p: nat, b: nat)
    requires CanFill(v, g, p, b)
    ensures v.sb.start <= b && Tabled(Alloc(v, b), g.t) && Mapped(Alloc(v, b), g.used + {b})
    ensures v.ip.addrs[NDIRECT] == g.t[Pos(v.ip.inum, NDIRECT)] < v.sb.size
    ensures v.ip.addrs[NDIRECT] != 0 ==> v.sb.start <= v.ip.addrs[NDIRECT] && v.ip.addrs[NDIRECT] != b
    ensures forall i :: 0 <= i < v.sb.ninodes && i != v.ip.inum && v.ip.addrs[NDIRECT] != 0 ==>
              g.t[Pos(i, NDIRECT)] != v.ip.addrs[NDIRECT]
  {
    var t := g.t;
    var q := Pos(v.ip.inum, NDIRECT);
    assert q in t && t[q] == Ref(v, q.inum, q.slot);
    forall i | 0 <= i < v.sb.ninodes
      ensures t[Pos(i, NDIRECT)] != b && (t[Pos(i, NDIRECT)] != 0 ==> v.sb.start <= t[Pos(i, NDIRECT)])
      ensures i != v.ip.inum && t[q] != 0 ==> t[Pos(i, NDIRECT)] != t[q]
    {
      assert Pos(i, NDIRECT) in t;
    }
    AllocTabled(v, t, b);
    AllocMapped(v, g.used, b);
  }

  lemma FilledAddr(v: Fs, g: Meaning, p: nat, b: nat)
    requires CanFill(v, g, p, b) && p <= NDIRECT
    ensures Tabled(SetAddr(Alloc(v, b), p, b), g.t[Pos(v.ip.inum, p) := b])
  {
    CanFillFacts(v, g, p, b);
    var a := Alloc(v, b);
    if p < NDIRECT {
      SetDirectTabled(a, g.t, p, b);
    } else {
      ZeroNoEntries();
      assert a.disk[b] == Zero();
      SetIndirectTabled(a, g.t, b);
    }
  }

  lemma FilledEntry(v: Fs, g: Meaning, p: nat, b: nat)
    requires CanFill(v, g, p, b) && p > NDIRECT
    ensures v.ip.addrs[NDIRECT] < v.sb.size
    ensures Tabled(SetEntry(Alloc(v, b), p - NDIRECT - 1, b), g.t[Pos(v.ip.inum, p) := b])
  {
    CanFillFacts(v, g, p, b);
    SetEntryTabled(Alloc(v, b), g.t, p - NDIRECT - 1, b);
  }

  lemma FilledTabled(v: Fs, g: Meaning, p: nat, b: nat)
    requires CanFill(v, g, p, b)
    ensures v.ip.addrs[NDIRECT] < v.sb.size
    ensures Tabled(Filled(v, p, b), g.t[Pos(v.ip.inum, p) := b])
  {
    CanFillFacts(v, g, p, b);
    if p <= NDIRECT {
      FilledAddr(v, g, p, b);
    } else {
      FilledEntry(v, g, p, b);
    }
  }

  lemma SameBits(v: Fs, v': Fs, used: set<nat>)
    requires Shaped(v) && Shaped(v') && v'.sb == v.sb && Mapped(v, used)
    requires forall m :: v.sb.bmapstart <= m < v.sb.start ==> v'.disk[m] == v.disk[m]
    ensures Mapped(v', used)
  {
  }

  lemma SameSizes(v: Fs, v': Fs, files: seq<seq<Byte>>)
    requires Shaped(v) && Shaped(v') && v'.sb == v.sb && v'.ip.inum == v.ip.inum
    requires |files| == v.sb.ninodes && Sized(v, files)
    requires forall m :: v.sb.inodestart <= m < v.sb.bmapstart ==> v'.disk[m] == v.disk[m]
    ensures Sized(v', files)
  {
  }

  lemma FilledElsewhere(v: Fs, p: nat, b: nat, x: nat)
    requires Shaped(v) && p < SLOTS && b < v.sb.size && v.ip.addrs[NDIRECT] < v.sb.size
    requires v.sb.start <= x < v.sb.size && x != b && (p > NDIRECT ==> x != v.ip.addrs[NDIRECT])
    ensures |Filled(v, p, b).disk| == v.sb.size && Filled(v, p, b).disk[x] == v.disk[x]
  {
  }

  /** Data blocks in slots are neither the new block nor the indirect one. */
  lemma DataKept(v: Fs, g: Meaning, p: nat, b: nat, q: Pos)
    requires CanFill(v, g, p, b) && v.ip.addrs[NDIRECT] < v.sb.size
    requires q in g.t && q.slot != NDIRECT && v.sb.start <= g.t[q] < v.sb.size
    ensures q != Pos(v.ip.inum, p) && |Filled(v, p, b).disk| == v.sb.size
    ensures Filled(v, p, b).disk[g.t[q]] == v.disk[g.t[q]]
  {
    CanFillFacts(v, g, p, b);
    var ind := Pos(v.ip.inum, NDIRECT);
    assert ind in g.t && g.t[q] in g.owner;
    FilledElsewhere(v, p, b, g.t[q]);
  }

  lemma FilledStored(v: Fs, g: Meaning, p: nat, b: nat)
    requires CanFill(v, g, p, b) && v.ip.addrs[NDIRECT] < v.sb.size
    ensures Stored(v.sb, Filled(v, p, b).disk, g.t[Pos(v.ip.inum, p) := b], g.files)
  {
    var t, v' := g.t, Filled(v, p, b);
    forall q | q in t && q.slot != NDIRECT && v.sb.start <= t[q] < v.sb.size
      ensures q != Pos(v.ip.inum, p) && |v'.disk| == v.sb.size && v'.disk[t[q]] == v.disk[t[q]]
    {
      DataKept(v, g, p, b, q);
    }
    StoredFrame(v.sb, v.disk, v'.disk, t, t[Pos(v.ip.inum, p) := b], g.files);
  }

  lemma FilledBits(v: Fs, g: Meaning, p: nat, b: nat)
    requires CanFill(v, g, p, b) && v.ip.addrs[NDIRECT] < v.sb.size
    ensures Mapped(Filled(v, p, b), g.used + {b}) && Sized(Filled(v, p, b), g.files)
  {
    CanFillFacts(v, g, p, b);
    SameBits(Alloc(v, b), Filled(v, p, b), g.used + {b});
    SameSizes(v, Filled(v, p, b), g.files);
  }

  /** bmap gives an empty slot a block nothing else uses, and no file changes. */
  lemma FilledMeans(v: Fs, g: Meaning, p: nat, b: nat)
    requires CanFill(v, g, p, b)
    ensures v.ip.addrs[NDIRECT] < v.sb.size
    ensures Means(Filled(v, p, b), FilledMeaning(v, g, p, b))
  {
    FilledTabled(v, g, p, b);
    FilledStored(v, g, p, b);
    FilledBits(v, g, p, b);
    CanFillFacts(v, g, p, b);
    OwnedFill(v.sb, g.t, g.used, g.owner, v.ip.inum, Pos(v.ip.inum, p), b);
  }

  /** Bytes `c` written to block `b` at `at`. */
  function Written(v: Fs, b: nat, at: nat, c: seq<Byte>): (r: Fs)
    requires b < |v.disk| && at + |c| <= BSIZE
  {
    v.(disk := v.disk[b := PutBytes(v.disk[b], at, c)])
  }

  ghost predicate CanWrite(v: Fs, g: Meaning, off: nat, c: seq<Byte>) {
    && Means(v, g) && HasBlock(v.sb, g.t, v.ip.inum, off / BSIZE)
    && off <= |g.files[v.ip.inum]| && 0 < |c| && off % BSIZE + |c| <= BSIZE && off + |c| <= MAXBYTES
  }

  /** A write inside one block of the file splices the bytes into that file,
      and no other file changes. */
  lemma WrittenMeans(v: Fs, g: Meaning, off: nat, c: seq<Byte>)
    requires CanWrite(v, g, off, c)
    ensures var b, i := g.t[DataPos(v.ip.inum, off / BSIZE)], v.ip.inum;
            Means(Written(v, b, off % BSIZE, c), g.(files := g.files[i := Splice(g.files[i], off, c)]))
  {
    var q := DataPos(v.ip.inum, off / BSIZE);
    var b := g.t[q];
    var v' := Written(v, b, off % BSIZE, c);
    forall p | p in g.t && p != q ensures g.t[p] != b {
      assert g.owner[b] == q;
    }
    SameTable(v, v', g.t);
    SameBits(v, v', g.used);
    SameSizes(v, v', g.files);
    StoredWrite(v.sb, v.disk, g.t, g.files, v.ip.inum, off, c, v'.disk);
  }

  // iupdate --------------------------------------------------------------------------------------------

  /** The first `n` words of the dinode, written over its place in `d`. */
  function PutDinode(d: Block, ip: Inode, n: nat): (r: Block)
    requires InodeOk(ip) && n <= INODE_WORDS
  {
    if n == 0 then d else PutWord(PutDinode(d, ip, n - 1), DinodeIndex(ip.inum, n - 1), InodeWord(ip, n - 1))
  }

  lemma {:induction false} PutDinodeReads(d: Block, ip: Inode, n: nat, w: nat)
    requires InodeOk(ip) && n <= INODE_WORDS && w < WORDS
    ensures var k := w - DinodeIndex(ip.inum, 0);
            Word(PutDinode(d, ip, n), w) == if 0 <= k < n then InodeWord(ip, k) else Word(d, w)
  {
    if n > 0 {
      PutDinodeReads(d, ip, n - 1, w);
      PutWordReads(PutDinode(d, ip, n - 1), DinodeIndex(ip.inum, n - 1), InodeWord(ip, n - 1), w);
    }
  }

  function Updated(v: Fs): (r: Fs)
    requires Shaped(v)
    ensures Shaped(r) && r.sb == v.sb && r.ip == v.ip
  {
    var m := IBlock(v.sb, v.ip.inum);
    v.(disk := v.disk[m := PutDinode(v.disk[m], v.ip, INODE_WORDS)])
  }

  lemma UpdatedWord(v: Fs, k: nat)
    requires Shaped(v) && k < INODE_WORDS
    ensures DinodeWord(Updated(v), v.ip.inum, k) == InodeWord(v.ip, k)
  {
    PutDinodeReads(v.disk[IBlock(v.sb, v.ip.inum)], v.ip, INODE_WORDS, DinodeIndex(v.ip.inum, k));
  }

  lemma UpdatedSynced(v: Fs)
    requires Shaped(v)
    ensures Synced(Updated(v))
  {
    var v' := Updated(v);
    forall k | 0 <= k < INODE_WORDS ensures DinodeWord(v', v.ip.inum, k) == InodeWord(v.ip, k) {
      UpdatedWord(v, k);
    }
  }

  /** Other dinodes, also those in the same block, stay as they were. */
  lemma UpdatedOther(v: Fs, i: nat, k: nat)
    requires Shaped(v) && i < v.sb.ninodes && i != v.ip.inum && k < INODE_WORDS
    ensures DinodeWord(Updated(v), i, k) == DinodeWord(v, i, k)
  {
    var m := IBlock(v.sb, v.ip.inum);
    if IBlock(v.sb, i) == m {
      PutDinodeReads(v.disk[m], v.ip, INODE_WORDS, DinodeIndex(i, k));
      assert i % IPB != v.ip.inum % IPB;
    }
  }

  lemma UpdatedAddr(v: Fs, i: nat, k: nat)
    requires Shaped(v) && i < v.sb.ninodes && k <= NDIRECT
    ensures AddrAt(Updated(v), i, k) == AddrAt(v, i, k)
  {
    if i != v.ip.inum {
      UpdatedOther(v, i, 3 + k);
    }
  }

  lemma UpdatedRef(v: Fs, i: nat, p: nat)
    requires Shaped(v) && i < v.sb.ninodes && p < SLOTS
    requires AddrAt(v, i, NDIRECT) != 0 ==> v.sb.start <= AddrAt(v, i, NDIRECT)
    ensures Ref(Updated(v), i, p) == Ref(v, i, p)
  {
    if p <= NDIRECT {
      UpdatedAddr(v, i, p);
    } else {
      UpdatedAddr(v, i, NDIRECT);
    }
  }

  lemma UpdatedTabled(v: Fs, g: Meaning)
    requires Means(v, g)
    ensures Tabled(Updated(v), g.t)
  {
    forall q | q in g.t ensures g.t[q] == Ref(Updated(v), q.inum, q.slot) {
      var ind := Pos(q.inum, NDIRECT);
      assert ind in g.t && g.t[ind] == Ref(v, q.inum, NDIRECT);
      UpdatedRef(v, q.inum, q.slot);
    }
  }

  lemma UpdatedSized(v: Fs, g: Meaning)
    requires Means(v, g)
    ensures Sized(Updated(v), g.files)
  {
    forall i | 0 <= i < v.sb.ninodes && i != v.ip.inum ensures SizeAt(Updated(v), i) == |g.files[i]| {
      UpdatedOther(v, i, 2);
      assert SizeAt(v, i) == |g.files[i]|;
    }
  }

  /** iupdate brings the dinode up to date and changes nothing else. */
  lemma UpdatedMeans(v: Fs, g: Meaning)
    requires Means(v, g)
    ensures Means(Updated(v), g) && Synced(Updated(v))
  {
    UpdatedSynced(v);
    UpdatedTabled(v, g);
    UpdatedSized(v, g);
    SameBits(v, Updated(v), g.used);
    StoredFrame(v.sb, v.disk, Updated(v).disk, g.t, g.t, g.files);
  }

  // itrunc ---------------------------------------------------------------------------------------------

  /** Nothing is promised about a file whose blocks are being freed. */
  lemma Forgotten(v: Fs, g: Meaning)
    requires Means(v, g)
    ensures Means(v, g.(files := g.files[v.ip.inum := []]))
  {
  }

  ghost predicate CanFree(v: Fs, g: Meaning, done: nat, p: nat) {
    && MeansPast(v, g, done) && p < SLOTS && g.files[v.ip.inum] == []
    && g.t[Pos(v.ip.inum, p)] != 0 && !Dropped(v.ip.inum, Pos(v.ip.inum, p), done)
  }

  /** A block in a slot is marked in use, so freeing it cannot panic. */
  lemma FreedFacts(v: Fs, g: Meaning, done: nat, p: nat)
    requires CanFree(v, g, done, p)
    ensures var b := g.t[Pos(v.ip.inum, p)];
            && v.sb.start <= b < v.sb.size && InUse(v, b)
            && Tabled(Freed(v, b), g.t) && Mapped(Freed(v, b), g.used - {b})
            && Stored(v.sb, Freed(v, b).disk, g.t, g.files) && Sized(Freed(v, b), g.files)
  {
    var q := Pos(v.ip.inum, p);
    assert q in g.t;
    var b := g.t[q];
    forall i | 0 <= i < v.sb.ninodes && g.t[Pos(i, NDIRECT)] != 0 ensures v.sb.start <= g.t[Pos(i, NDIRECT)] {
      assert Pos(i, NDIRECT) in g.t;
    }
    FreedMapped(v, g.used, b);
    FreedTabled(v, g.t, b);
    SameSizes(v, Freed(v, b), g.files);
    StoredFrame(v.sb, v.disk, Freed(v, b).disk, g.t, g.t, g.files);
  }

  function FreedMeaning(g: Meaning, t: Table, b: nat): (r: Meaning) {
    Meaning(t, g.used - {b}, g.owner - {b}, g.files)
  }

  /** A table that differs only in slots of an inode whose file is empty. */
  lemma StoredLess(sb: Super, disk: seq<Block>, t: Table, t': Table, files: seq<seq<Byte>>, inum: nat)
    requires Stored(sb, disk, t, files) && inum < sb.ninodes && files[inum] == []
    requires forall q :: q in t && q.inum != inum ==> q in t' && t'[q] == t[q]
    ensures Stored(sb, disk, t', files)
  {
  }

  lemma DirectFreed(v: Fs, g: Meaning, k: nat)
    requires CanFree(v, g, 0, k) && k < NDIRECT
    ensures var b := g.t[Pos(v.ip.inum, k)];
            && b < v.sb.size
            && Means(SetAddr(Freed(v, b), k, 0), FreedMeaning(g, g.t[Pos(v.ip.inum, k) := 0], b))
  {
    var q := Pos(v.ip.inum, k);
    var b := g.t[q];
    FreedFacts(v, g, 0, k);
    SetDirectTabled(Freed(v, b), g.t, k, 0);
    OwnedClear(v.sb, g.t, g.used, g.owner, v.ip.inum, q);
    StoredLess(v.sb, Freed(v, b).disk, g.t, g.t[q := 0], g.files, v.ip.inum);
    SameBits(Freed(v, b), SetAddr(Freed(v, b), k, 0), g.used - {b});
    SameSizes(Freed(v, b), SetAddr(Freed(v, b), k, 0), g.files);
  }

  lemma EntryFreed(v: Fs, g: Meaning, done: nat)
    requires done < WORDS && CanFree(v, g, done, NDIRECT + 1 + done)
    ensures var b := g.t[Pos(v.ip.inum, NDIRECT + 1 + done)];
            b < v.sb.size && MeansPast(Freed(v, b), FreedMeaning(g, g.t, b), done + 1)
  {
    FreedFacts(v, g, done, NDIRECT + 1 + done);
    OwnedDrop(v.sb, g.t, g.used, g.owner, v.ip.inum, done);
  }

  lemma NoIndirectTabled(v: Fs, t: Table)
    requires Shaped(v) && Tabled(v, t)
    ensures Tabled(SetAddr(v, NDIRECT, 0), WithoutIndirect(t, v.ip.inum))
  {
  }

  lemma IndirectFreed(v: Fs, g: Meaning)
    requires CanFree(v, g, WORDS, NDIRECT)
    ensures var b := g.t[Pos(v.ip.inum, NDIRECT)];
            && b < v.sb.size
            && Means(SetAddr(Freed(v, b), NDIRECT, 0), FreedMeaning(g, WithoutIndirect(g.t, v.ip.inum), b))
  {
    var b := g.t[Pos(v.ip.inum, NDIRECT)];
    FreedFacts(v, g, WORDS, NDIRECT);
    NoIndirectTabled(Freed(v, b), g.t);
    OwnedNoIndirect(v.sb, g.t, g.used, g.owner, v.ip.inum);
    StoredLess(v.sb, Freed(v, b).disk, g.t, WithoutIndirect(g.t, v.ip.inum), g.files, v.ip.inum);
    SameBits(Freed(v, b), SetAddr(Freed(v, b), NDIRECT, 0), g.used - {b});
    SameSizes(Freed(v, b), SetAddr(Freed(v, b), NDIRECT, 0), g.files);
  }

  // ilock ----------------------------------------------------------------------------------------------

  /** The inode in memory is what dinode `ip.inum` on disk says. */
  ghost predicate ReadFrom(v: Fs, ip: Inode)
    requires Shaped(v)
  {
    && InodeOk(ip) && ip.inum < v.sb.ninodes
    && forall k :: 0 <= k < INODE_WORDS ==> DinodeWord(v, ip.inum, k) == InodeWord(ip, k)
  }

  function Locked(v: Fs, ip: Inode): (r: Fs) {
    v.(ip := ip)
  }

  lemma LockedAddr(v: Fs, ip: Inode, i: nat, k: nat)
    requires Shaped(v) && Synced(v) && ReadFrom(v, ip) && i < v.sb.ninodes && k <= NDIRECT
    ensures AddrAt(Locked(v, ip), i, k) == AddrAt(v, i, k)
  {
    if i == ip.inum {
      assert DinodeWord(v, i, 3 + k) == InodeWord(ip, 3 + k);
    }
    if i == v.ip.inum {
      assert DinodeWord(v, i, 3 + k) == InodeWord(v.ip, 3 + k);
    }
  }

  lemma LockedSize(v: Fs, ip: Inode, i: nat)
    requires Shaped(v) && Synced(v) && ReadFrom(v, ip) && i < v.sb.ninodes
    ensures SizeAt(Locked(v, ip), i) == SizeAt(v, i)
  {
    if i == ip.inum {
      assert DinodeWord(v, i, 2) == InodeWord(ip, 2);
    }
    if i == v.ip.inum {
      assert DinodeWord(v, i, 2) == InodeWord(v.ip, 2);
    }
  }

  lemma LockedTabled(v: Fs, ip: Inode, t: Table)
    requires Shaped(v) && Synced(v) && ReadFrom(v, ip) && Tabled(v, t)
    ensures Tabled(Locked(v, ip), t)
  {
    forall q | q in t ensures t[q] == Ref(Locked(v, ip), q.inum, q.slot) {
      LockedAddr(v, ip, q.inum, NDIRECT);
      if q.slot < NDIRECT {
        LockedAddr(v, ip, q.inum, q.slot);
      }
    }
  }

  lemma LockedSized(v: Fs, g: Meaning, ip: Inode)
    requires Shaped(v) && Synced(v) && ReadFrom(v, ip) && |g.files| == v.sb.ninodes && Sized(v, g.files)
    requires |g.files[v.ip.inum]| == v.ip.size
    ensures Sized(Locked(v, ip), g.files) && |g.files[ip.inum]| == ip.size
  {
    forall i | 0 <= i < v.sb.ninodes ensures SizeAt(Locked(v, ip), i) == |g.files[i]| {
      LockedSize(v, ip, i);
    }
    assert SizeAt(Locked(v, ip), ip.inum) == |g.files[ip.inum]|;
  }

  /** Between operations, what the disk stands for does not depend on which
      inode is locked: any other may be read in and used next. */
  lemma LockedMeans(v: Fs, g: Meaning, ip: Inode)
    requires AtRest(v, g) && ReadFrom(v, ip)
    ensures AtRest(Locked(v, ip), g)
  {
    LockedTabled(v, ip, g.t);
    LockedSized(v, g, ip);
    SameBits(v, Locked(v, ip), g.used);
  }
}
