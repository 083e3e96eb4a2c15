/** fs.c's block allocator, block map, truncation, reads and writes, in place
    on the disk and the locked inode. */
module Volume {
  import opened Blocks
  import opened Files
  import opened Contents
  import opened BlockMap
  import opened Writes
  import opened Journal

  lemma InodeRead(v: Fs, ip: Inode)
    requires Shaped(v) && ip.inum < v.sb.ninodes
    requires var d := v.disk[IBlock(v.sb, ip.inum)];
             var w0, w1 := Word(d, DinodeIndex(ip.inum, 0)), Word(d, DinodeIndex(ip.inum, 1));
             && ip.kind == w0 % 0x1_0000 && ip.major == w0 / 0x1_0000
             && ip.minor == w1 % 0x1_0000 && ip.nlink == w1 / 0x1_0000
             && ip.size == Word(d, DinodeIndex(ip.inum, 2)) && |ip.addrs| == NDIRECT + 1
             && forall j :: 0 <= j <= NDIRECT ==> ip.addrs[j] == Word(d, DinodeIndex(ip.inum, 3 + j))
    ensures ReadFrom(v, ip)
  {
  }

  class Volume {
    const sb: Super
    var disk: seq<Block>
    var ip: Inode
    ghost var g: Meaning
    ghost var logged: set<nat>    // blocks given to log_write
    ghost var base: seq<Block>    // the disk when the operation began, and
    ghost var puts: seq<Put>      // what it has given to log_write since

    constructor (v: Fs, m: Meaning)
      requires AtRest(v, m)
      ensures Value() == v && g == m && logged == {} && Journaled()
    {
      sb, disk, ip, g := v.sb, v.disk, v.ip, m;
      base, puts, logged := v.disk, [], {};
    }

    function Value(): Fs
      reads this
    {
      Fs(sb, disk, ip)
    }

    /** Every change to the disk went through log_write. */
    ghost predicate Journaled()
      reads this
    {
      disk == Redo(base, puts) && logged == Bnos(puts)
    }

    /** A block changed in its buffer and given to log_write. */
    method LogPut(b: nat, x: Block)
      requires Journaled() && b < |disk|
      modifies this`disk, this`logged, this`puts
      ensures Journaled() && disk == old(disk)[b := x] && logged == old(logged) + {b} && puts != []
    {
      OnePut(base, puts, Put(b, x));
      disk := disk[b := x];
      logged := logged + {b};
      puts := puts + [Put(b, x)];
    }

    /** balloc's search of one bitmap block, for the blocks from `base` on. */
    method ScanBlock(m: nat, base: nat) returns (found: bool, bi: nat)
      requires m < |disk|
      ensures found ==> bi < BPB && base + bi < sb.size && !BitAt(disk[m], bi)
      ensures found ==> forall j :: 0 <= j < bi ==> BitAt(disk[m], j)
      ensures !found ==> forall j :: 0 <= j < BPB && base + j < sb.size ==> BitAt(disk[m], j)
    {
      bi := 0;
      while bi < BPB && base + bi < sb.size
        invariant 0 <= bi <= BPB
        invariant forall j :: 0 <= j < bi ==> BitAt(disk[m], j)
      {
        if !BitAt(disk[m], bi) {
          return true, bi;
        }
        bi := bi + 1;
      }
      found := false;
    }

    /** balloc's search: the first block whose bit is clear. */
    method FindFree() returns (found: bool, b: nat)
      requires Shaped(Value())
      ensures found ==> b < sb.size && !InUse(Value(), b) && UsedTo(Value(), b)
      ensures !found ==> UsedTo(Value(), sb.size)
    {
      ghost var v := Value();
      var base := 0;
      while base < sb.size
        invariant base % BPB == 0 && UsedTo(v, base)
      {
        var m := base / BPB + sb.bmapstart;
        BlockIndex(sb, base, 0);
        var bi;
        found, bi := ScanBlock(m, base);
        ScanMeans(v, base, m, if found then bi else BPB);
        if found {
          return true, base + bi;
        }
        base := base + BPB;
      }
      return false, 0;
    }

    /** balloc: mark the block, zero it; no free block is a panic. */
    method Balloc() returns (ok: bool, b: nat)
      requires Shaped(Value())
      requires Journaled()
      modifies this`disk, this`logged, this`puts
      ensures Journaled() && base == old(base)
      ensures ok ==> b < sb.size && !InUse(old(Value()), b) && Value() == Alloc(old(Value()), b)
      ensures ok ==> logged == old(logged) + {BBlock(sb, b), b}
      ensures ok ==> UsedTo(old(Value()), b)
      ensures !ok ==> Full(old(Value())) && Value() == old(Value()) && logged == old(logged)
    {
      ok, b := FindFree();
      if ok {
        var m := b / BPB + sb.bmapstart;
        LogPut(m, PutBit(disk[m], b % BPB, true));
        LogPut(b, Zero());
      }
    }

    /** bfree; a clear bit is a panic, which callers rule out. */
    method Bfree(b: nat)
      requires Shaped(Value()) && b < sb.size && InUse(Value(), b)
      requires Journaled()
      modifies this`disk, this`logged, this`puts
      ensures Journaled() && base == old(base)
      ensures Value() == Freed(old(Value()), b)
      ensures logged == old(logged) + {BBlock(sb, b)} && BBlock(sb, b) in MapBlocks(sb)
    {
      var m := b / BPB + sb.bmapstart;
      LogPut(m, PutBit(disk[m], b % BPB, false));
    }

    /** bmap's direct case, and its first step for the indirect block: fill
        ip->addrs[p] if it is empty. */
    method AddrSlot(p: nat) returns (ok: bool, addr: nat)
      requires Sound(Value()) && p <= NDIRECT
      requires Journaled()
      modifies this`disk, this`ip, this`logged, this`puts
      ensures Journaled() && base == old(base)
      ensures old(ip.addrs[p]) != 0 ==> ok && addr == old(ip.addrs[p])
      ensures old(ip.addrs[p]) != 0 ==> Value() == old(Value()) && logged == old(logged)
      ensures old(ip.addrs[p]) == 0 && ok ==> Step(old(Value()), p, addr, Value())
      ensures old(ip.addrs[p]) == 0 && ok ==> logged == old(logged) + {BBlock(sb, addr), addr}
      ensures !ok ==> Full(Value())
    {
      ok, addr := true, ip.addrs[p];
      if addr == 0 {
        ok, addr := Balloc();
        if ok {
          ip := ip.(addrs := ip.addrs[p := addr]);
        }
      }
    }

    /** bmap's entry `k` of the indirect block. */
    method EntrySlot(k: nat) returns (ok: bool, addr: nat)
      requires Sound(Value()) && ip.addrs[NDIRECT] != 0 && k < WORDS
      requires Journaled()
      modifies this`disk, this`ip, this`logged, this`puts
      ensures Journaled() && base == old(base)
      ensures var o := Ref(old(Value()), old(ip.inum), NDIRECT + 1 + k);
              o != 0 ==> ok && addr == o && Value() == old(Value()) && logged == old(logged)
      ensures var o := Ref(old(Value()), old(ip.inum), NDIRECT + 1 + k);
              && (o == 0 && ok ==> Step(old(Value()), NDIRECT + 1 + k, addr, Value()))
              && (o == 0 && ok ==> logged == old(logged) + {BBlock(sb, addr), addr} + {old(ip.addrs[NDIRECT])})
      ensures !ok ==> Full(Value())
    {
      var ind := ip.addrs[NDIRECT];
      ok, addr := true, Word(disk[ind], k);
      if addr == 0 {
        ok, addr := Balloc();
        if ok {
          LogPut(ind, PutWord(disk[ind], k, addr));
        }
      }
    }

    /** bmap's first step for the indirect entries; `b1` is the new indirect block, if any. */
    method NeedIndirect() returns (ok: bool, ghost b1: nat)
      requires Sound(Value())
      requires Journaled()
      modifies this`disk, this`ip, this`logged, this`puts
      ensures Journaled() && base == old(base)
      ensures ok ==> FirstDone(old(Value()), b1, Value()) && Sound(Value()) && ip.addrs[NDIRECT] != 0
      ensures ok ==> ip.inum == old(ip.inum) && b1 < sb.size
      ensures ok ==> logged == old(logged) + if b1 == 0 then {} else {BBlock(sb, b1), b1}
      ensures old(ip.addrs[NDIRECT]) != 0 ==> ok
      ensures !ok ==> Full(Value())
    {
      ghost var v := Value();
      var ind;
      ok, ind := AddrSlot(NDIRECT);
      b1 := if v.ip.addrs[NDIRECT] == 0 then ind else 0;
      if ok {
        IndirectReady(v, b1, Value());
      }
    }

    /** bmap's second step; `b2` is the new block, if any. */
    method NeedEntry(bn: nat) returns (ok: bool, addr: nat, ghost b2: nat)
      requires Sound(Value()) && ip.addrs[NDIRECT] != 0 && NDIRECT <= bn < MAXFILE
      requires Journaled()
      modifies this`disk, this`ip, this`logged, this`puts
      ensures Journaled() && base == old(base)
      ensures ok ==> SecondDone(old(Value()), bn, b2, Value(), addr) && b2 < sb.size
      ensures ok ==> logged == old(logged) + if b2 == 0 then {} else {BBlock(sb, b2), b2} + {old(ip.addrs[NDIRECT])}
      ensures Ref(old(Value()), old(ip.inum), Slot(bn)) != 0 ==> ok
      ensures !ok ==> Full(Value())
    {
      ghost var v := Value();
      ok, addr := EntrySlot(bn - NDIRECT);
      b2 := if Ref(v, v.ip.inum, Slot(bn)) == 0 then addr else 0;
      if ok {
        EntryReady(v, bn, b2, Value(), addr);
      }
    }

    /** bmap for the indirect block's entries, with the blocks it chose. */
    method BmapIndirect(bn: nat) returns (ok: bool, addr: nat, ghost w: Mapping)
      requires Sound(Value()) && NDIRECT <= bn < MAXFILE
      requires Journaled()
      modifies this`disk, this`ip, this`logged, this`puts
      ensures Journaled() && base == old(base)
      ensures ok ==> StepsPost(old(Value()), old(logged), bn, w, Value(), logged, addr)
      ensures Ref(old(Value()), old(ip.inum), Slot(bn)) != 0 ==> ok
      ensures !ok ==> Full(Value())
    {
      ghost var v, l := Value(), logged;
      ghost var b1, b2;
      w := Mapping(0, v, 0);
      ok, b1 := NeedIndirect();
      if !ok {
        return false, 0, w;
      }
      ghost var v1, l1 := Value(), logged;
      ok, addr, b2 := NeedEntry(bn);
      if ok {
        StepsDone(v, l, bn, b1, v1, l1, b2, Value(), logged, addr);
        w := Mapping(b1, v1, b2);
      }
    }

    /** bmap for the direct blocks. */
    method BmapDirect(bn: nat) returns (ok: bool, addr: nat, ghost w: Mapping)
      requires Sound(Value()) && bn < NDIRECT
      requires Journaled()
      modifies this`disk, this`ip, this`logged, this`puts
      ensures Journaled() && base == old(base)
      ensures ok ==> StepsPost(old(Value()), old(logged), bn, w, Value(), logged, addr)
      ensures Ref(old(Value()), old(ip.inum), Slot(bn)) != 0 ==> ok
      ensures !ok ==> Full(Value())
    {
      ghost var v := Value();
      w := Mapping(0, v, 0);
      ok, addr := AddrSlot(bn);
      if ok && v.ip.addrs[bn] == 0 {
        StepSound(v, bn, addr, Value());
        StepRef(v, bn, addr, Value());
        w := Mapping(0, v, addr);
      }
    }

    /** bmap, with the blocks it chose. */
    method BmapSteps(bn: nat) returns (ok: bool, addr: nat, ghost w: Mapping)
      requires Sound(Value()) && bn < MAXFILE
      requires Journaled()
      modifies this`disk, this`ip, this`logged, this`puts
      ensures Journaled() && base == old(base)
      ensures ok ==> StepsPost(old(Value()), old(logged), bn, w, Value(), logged, addr)
      ensures Ref(old(Value()), old(ip.inum), Slot(bn)) != 0 ==> ok
      ensures !ok ==> Full(Value())
    {
      if bn < NDIRECT {
        ok, addr, w := BmapDirect(bn);
      } else {
        ok, addr, w := BmapIndirect(bn);
      }
    }

    /** bmap: the disk address of block `bn` of the file, allocated on demand. */
    method Bmap(bn: nat) returns (ok: bool, addr: nat)
      requires Means(Value(), g) && bn < MAXFILE
      requires Journaled()
      modifies this
      ensures Journaled() && base == old(base)
      ensures ok ==> MapPost(old(Value()), old(g), old(logged), bn, Value(), g, logged, addr)
      ensures HasBlock(sb, old(g.t), old(ip.inum), bn) ==> ok
      ensures !ok ==> Full(Value())
    {
      hide Means, StepsPost, MapPost, Redo, Bnos;
      ghost var v, m, l := Value(), g, logged;
      MeansSound(v, m, bn);
      ghost var w;
      ok, addr, w := BmapSteps(bn);
      if ok {
        g := BmapDone(v, m, l, bn, w, Value(), logged, addr);
      }
    }

    /** iupdate: the dinode, word by word, over its place in the inode block. */
    method Iupdate()
      requires Shaped(Value())
      requires Journaled()
      modifies this`disk, this`logged, this`puts
      ensures Journaled() && base == old(base)
      ensures Value() == Updated(old(Value())) && logged == old(logged) + {IBlock(sb, ip.inum)} && puts != []
    {
      var m := IBlock(sb, ip.inum);
      var d := disk[m];
      for k := 0 to INODE_WORDS
        invariant d == PutDinode(disk[m], ip, k)
      {
        d := PutWord(d, DinodeIndex(ip.inum, k), InodeWord(ip, k));
      }
      LogPut(m, d);
    }

    /** One turn of writei's loop. */
    method WriteChunk(off: nat, c: seq<Byte>) returns (ok: bool)
      requires Means(Value(), g) && ChunkPre(Value(), g, off, c)
      requires Journaled()
      modifies this
      ensures Journaled() && base == old(base)
      ensures ok ==> Means(Value(), g) && ChunkPost(old(Value()), old(g), old(logged), off, c, Value(), g, logged)
      ensures ok ==> puts != []
      ensures !ok ==> Full(Value())
    {
      hide Means, ChunkPost, MapPost, Redo, Bnos, PutBytes;
      ghost var v, m, l := Value(), g, logged;
      var addr;
      ok, addr := Bmap(off / BSIZE);
      if ok {
        ghost var v', m' := ChunkDone(v, m, l, off, c, Value(), g, logged, addr);
        LogPut(addr, PutBytes(disk[addr], off % BSIZE, c));
        g := m';
        assert Value() == v';
      }
    }

    /** A turn of writei's loop at `tot`: as much as fits in the block. */
    method WriteNext(ghost v: Fs, ghost m: Meaning, ghost l: set<nat>, off: nat, src: seq<Byte>, tot: nat)
      returns (ok: bool, next: nat)
      requires Means(Value(), g) && Writing(v, m, l, off, src, tot, Value(), g, logged) && tot < |src|
      requires Journaled()
      modifies this
      ensures Journaled() && base == old(base)
      ensures ok ==> Means(Value(), g) && Writing(v, m, l, off, src, next, Value(), g, logged) && tot < next
      ensures ok ==> puts != []
      ensures !ok ==> Full(Value())
    {
      hide Means, ChunkPost, Writing;
      var room := BSIZE - (off + tot) % BSIZE;
      var n := if |src| - tot < room then |src| - tot else room;
      next := tot + n;
      TurnIs(off, src, tot, n);
      var c := src[tot..next];
      assert |c| == n;
      ghost var v1, m1, l1 := Value(), g, logged;
      assert Writing(v, m, l, off, src, tot, v1, m1, l1);
      TurnPre(v, m, l, off, src, tot, c, v1, m1, l1);
      ok := WriteChunk(off + tot, c);
      if ok {
        TurnDone(v, m, l, off, src, tot, c, next, v1, m1, l1, Value(), g, logged);
      }
    }

    /** writei's loop. */
    method WriteAll(off: nat, src: seq<Byte>) returns (ok: bool)
      requires Means(Value(), g) && off <= |g.files[ip.inum]| && off + |src| <= MAXBYTES
      requires Journaled()
      modifies this
      ensures Journaled() && base == old(base)
      ensures ok ==> Means(Value(), g)
      ensures ok ==> Writing(old(Value()), old(g), old(logged), off, src, |src|, Value(), g, logged)
      ensures ok && src != [] ==> puts != []
      ensures !ok ==> Full(Value())
    {
      ghost var v, m, l := Value(), g, logged;
      AtRestStart(v, m, l, off);
      assert src[..0] == [];
      var tot := 0;
      while tot < |src|
        invariant Means(Value(), g) && Writing(v, m, l, off, src, tot, Value(), g, logged)
        invariant tot > 0 ==> puts != []
        invariant Journaled() && base == old(base)
      {
        ok, tot := WriteNext(v, m, l, off, src, tot);
        if !ok {
          return;
        }
      }
      ok := true;
    }

    /** writei: -1 and no change if the range is refused; otherwise the bytes
        are in the file and the inode is on disk. */
    method Writei(src: seq<Byte>, off: nat) returns (ok: bool, r: int)
      requires AtRest(Value(), g) && off < WORD_MAX && |src| < WORD_MAX
      requires Journaled()
      modifies this
      ensures Journaled() && base == old(base)
      ensures Refused(old(ip.size), off, |src|) ==> ok && r == -1
      ensures Refused(old(ip.size), off, |src|) ==> Value() == old(Value()) && g == old(g) && logged == old(logged)
      ensures ok && !Refused(old(ip.size), off, |src|) ==>
                r == |src| && WritePost(old(Value()), old(g), old(logged), off, src, Value(), g, logged)
      ensures ok && !Refused(old(ip.size), off, |src|) && src != [] ==> puts != []
      ensures !ok ==> Full(Value())
    {
      if off > ip.size || (off + |src|) % WORD_MAX < off {
        return true, -1;
      }
      if off + |src| > MAXFILE * BSIZE {
        return true, -1;
      }
      ok := WriteInRange(off, src);
      r := |src|;
    }

    /** ip->size = n, and iupdate. */
    method SetSize(n: nat)
      requires Shaped(Value()) && n < WORD_MAX
      requires Journaled()
      modifies this`disk, this`ip, this`logged, this`puts
      ensures Journaled() && base == old(base)
      ensures Shaped(Resized(old(Value()), n)) && Value() == Updated(Resized(old(Value()), n))
      ensures logged == old(logged) + {IBlock(sb, old(ip.inum))} && puts != []
    {
      ip := ip.(size := n);
      Iupdate();
    }

    /** writei, its bounds checked. */
    method WriteInRange(off: nat, src: seq<Byte>) returns (ok: bool)
      requires AtRest(Value(), g) && off <= ip.size && off + |src| <= MAXBYTES
      requires Journaled()
      modifies this
      ensures Journaled() && base == old(base)
      ensures Fits(old(Value()), old(g))
      ensures ok && src != [] ==> puts != []
      ensures ok ==> WritePost(old(Value()), old(g), old(logged), off, src, Value(), g, logged)
      ensures !ok ==> Full(Value())
    {
      ghost var v, m, l := Value(), g, logged;
      ok := WriteAll(off, src);
      if ok {
        WriteEnd(v, m, l, off, src);
      }
    }

    /** writei after its loop. */
    method WriteEnd(ghost v: Fs, ghost m: Meaning, ghost l: set<nat>, off: nat, src: seq<Byte>)
      requires Means(Value(), g) && Writing(v, m, l, off, src, |src|, Value(), g, logged)
      requires |m.files[v.ip.inum]| == v.ip.size && Synced(v) && v.sb == sb
      requires Journaled()
      modifies this`disk, this`ip, this`logged, this`puts
      ensures Journaled() && base == old(base)
      ensures Fits(v, m) && WritePost(v, m, l, off, src, Value(), g, logged)
      ensures old(puts) != [] ==> puts != []
    {
      hide Means, Writing, WritePost;
      WritingShape(v, m, l, off, src, Value(), g, logged);
      if |src| > 0 && off + |src| > ip.size {
        GrewDone(v, m, l, off, src, Value(), g, logged);
        SetSize(off + |src|);
      } else {
        WithinDone(v, m, l, off, src, Value(), g, logged);
      }
    }

    /** A turn of readi's loop: `k` bytes at `at`, all in one block. */
    method ReadChunk(at: nat, k: nat) returns (c: seq<Byte>)
      requires Means(Value(), g) && 0 < k && at % BSIZE + k <= BSIZE && at + k <= |g.files[ip.inum]|
      requires Journaled()
      modifies this
      ensures Journaled() && base == old(base)
      ensures Value() == old(Value()) && g == old(g) && logged == old(logged)
      ensures c == g.files[ip.inum][at..at + k]
    {
      BlockSlice(Value(), g, at, k);
      var ok, addr := Bmap(at / BSIZE);
      c := disk[addr][at % BSIZE..at % BSIZE + k];
    }

    /** readi: -1 if the start is past the end or the range wraps, otherwise the
        bytes from `off`, as many as there are up to `n`; nothing is allocated. */
    method Readi(off: nat, n: nat) returns (r: int, dst: seq<Byte>)
      requires AtRest(Value(), g) && off < WORD_MAX && n < WORD_MAX
      requires Journaled()
      modifies this
      ensures Journaled() && base == old(base)
      ensures Value() == old(Value()) && g == old(g) && logged == old(logged)
      ensures r == -1 <==> off > ip.size || (off + n) % WORD_MAX < off
      ensures r != -1 ==> r == (if off + n > ip.size then ip.size - off else n)
      ensures r != -1 ==> dst == g.files[ip.inum][off..off + r]
    {
      dst := [];
      if off > ip.size || (off + n) % WORD_MAX < off {
        return -1, dst;
      }
      var len := if off + n > ip.size then ip.size - off else n;
      ghost var v, m, l := Value(), g, logged;
      ghost var s := m.files[v.ip.inum];
      var tot := 0;
      while tot < len
        invariant 0 <= tot <= len && Value() == v && g == m && logged == l
        invariant dst == s[off..off + tot] && Journaled() && base == old(base)
      {
        var room := BSIZE - (off + tot) % BSIZE;
        var k := if len - tot < room then len - tot else room;
        var c := ReadChunk(off + tot, k);
        SliceJoin(s, off, off + tot, off + tot + k);
        dst := dst + c;
        tot := tot + k;
      }
      r := len;
    }

    /** itrunc's direct blocks. */
    method TruncDirects(ghost v: Fs, ghost m: Meaning)
      requires v == Value() && Truncating(v, m, Value(), g, 0)
      requires Journaled()
      modifies this
      ensures Journaled() && base == old(base)
      ensures Truncating(v, m, Value(), g, 0) && ip.addrs[NDIRECT] == old(ip.addrs[NDIRECT])
      ensures forall k :: 0 <= k < NDIRECT ==> ip.addrs[k] == 0
      ensures logged <= old(logged) + MapBlocks(sb)
    {
      hide MapBlocks, Redo, Bnos;
      for i := 0 to NDIRECT
        invariant Truncating(v, m, Value(), g, 0) && ip.addrs[NDIRECT] == old(ip.addrs[NDIRECT])
        invariant forall k :: 0 <= k < i ==> ip.addrs[k] == 0
        invariant Journaled() && base == old(base) && logged <= old(logged) + MapBlocks(sb)
      {
        if ip.addrs[i] != 0 {
          ghost var v', m' := TruncDirect(v, m, Value(), g, i);
          Bfree(ip.addrs[i]);
          ip := ip.(addrs := ip.addrs[i := 0]);
          g := m';
          assert Value() == v';
        }
      }
    }

    /** Entry `j` of the inode's indirect block, freed if there is one. */
    method TruncNext(ghost v: Fs, ghost m: Meaning, j: nat)
      requires Truncating(v, m, Value(), g, j) && ip.addrs[NDIRECT] != 0 && j < WORDS
      requires Journaled()
      modifies this
      ensures Journaled() && base == old(base)
      ensures Truncating(v, m, Value(), g, j + 1) && ip == old(ip) && logged <= old(logged) + MapBlocks(sb)
    {
      hide Redo, Bnos, Truncating;
      assert Shaped(Value()) by {
        TruncatingShaped(v, m, Value(), g, j);
      }
      ghost var m' := TruncEntry(v, m, Value(), g, j);
      var b := Word(disk[ip.addrs[NDIRECT]], j);
      if b != 0 {
        Bfree(b);
      }
      g := m';
    }

    /** itrunc's indirect block: its entries, then the block itself. */
    method TruncEntries(ghost v: Fs, ghost m: Meaning)
      requires Truncating(v, m, Value(), g, 0) && ip.addrs[NDIRECT] != 0
      requires Journaled()
      modifies this
      ensures Journaled() && base == old(base)
      ensures Truncating(v, m, Value(), g, WORDS) && ip == old(ip) && logged <= old(logged) + MapBlocks(sb)
    {
      hide Redo, Bnos, Truncating;
      TruncatingShaped(v, m, Value(), g, 0);
      for j := 0 to WORDS
        invariant Truncating(v, m, Value(), g, j) && ip == old(ip)
        invariant Journaled() && base == old(base) && logged <= old(logged) + MapBlocks(sb)
      {
        TruncNext(v, m, j);
      }
    }

    method TruncBlock(ghost v: Fs, ghost m: Meaning)
      requires Truncating(v, m, Value(), g, WORDS) && ip.addrs[NDIRECT] != 0
      requires Journaled()
      modifies this
      ensures Journaled() && base == old(base)
      ensures Truncating(v, m, Value(), g, 0) && ip == old(ip).(addrs := old(ip).addrs[NDIRECT := 0])
      ensures logged <= old(logged) + MapBlocks(sb)
    {
      ghost var v', m' := TruncIndirect(v, m, Value(), g);
      Bfree(ip.addrs[NDIRECT]);
      ip := ip.(addrs := ip.addrs[NDIRECT := 0]);
      g := m';
      assert Value() == v';
    }

    /** itrunc. */
    method Itrunc()
      requires Means(Value(), g)
      requires Journaled()
      modifies this
      ensures Journaled() && base == old(base)
      ensures TruncPost(old(Value()), old(g), Value(), g)
      ensures logged <= old(logged) + TruncLog(sb, old(ip.inum))
    {
      ghost var v, m := Value(), g;
      g := TruncStart(v, m);
      TruncDirects(v, m);
      if ip.addrs[NDIRECT] != 0 {
        TruncEntries(v, m);
        TruncBlock(v, m);
      }
      TruncDone(v, m, Value(), g);
      SetSize(0);
    }

    /** One chunk of filewrite: begin_op, writei, end_op. What the operation
        gives to the log never exceeds what begin_op reserved. */
    method WriteOp(c: seq<Byte>, off: nat) returns (ok: bool, r: int)
      requires AtRest(Value(), g) && off < WORD_MAX && 0 < |c| <= CHUNK
      modifies this
      ensures Refused(old(ip.size), off, |c|) ==> ok && r == -1 && Value() == old(Value()) && g == old(g)
      ensures ok && !Refused(old(ip.size), off, |c|) ==> r == |c| && AtRest(Value(), g) && ip.inum == old(ip.inum)
      ensures Shaped(old(Value())) && (ok ==> KeepsInodes(old(Value()), Value()))
      ensures ok && !Refused(old(ip.size), off, |c|) ==> g.files == Spliced(old(g.files), ip.inum, off, c) && puts != []
      ensures disk == Redo(old(disk), puts) && (ok ==> Admissible(sb, Bnos(puts)))
      ensures !ok ==> Full(Value())
    {
      base, puts, logged := disk, [], {};
      ghost var size := ip.size;
      ok, r := Writei(c, off);
      if ok && r != -1 {
        ChunkAdmissible(Value(), g, off, |c|, size, logged);
      }
    }

    /** A turn of filewrite's loop, `i` bytes in. */
    method FileNext(ghost v: Fs, ghost m: Meaning, src: seq<Byte>, n: int, off: nat, i: nat) returns (ok: bool, r: int)
      requires AtRest(Value(), g) && Filing(v, m, off, src, n, i, Value(), g) && i < n && off < WORD_MAX
      modifies this
      ensures ok && r >= 0 ==> r == ChunkAt(n, i) && AtRest(Value(), g) && Filing(v, m, off, src, n, i + r, Value(), g)
      ensures ok && r >= 0 ==> puts != []
      ensures ok && r < 0 ==> Value() == old(Value()) && g == old(g) && Stuck(Value(), g, off + i, ChunkAt(n, i))
      ensures disk == Redo(old(disk), puts) && (ok ==> Admissible(sb, Bnos(puts)))
      ensures !ok ==> Full(Value())
    {
      var n1 := if n - i > CHUNK then CHUNK else n - i;
      ghost var v1, m1 := Value(), g;
      SizeFits(v1, m1);
      ok, r := WriteOp(src[i..i + n1], off + i);
      if ok && r >= 0 {
        FilingNext(v, m, off, src, n, i, v1, m1, Value(), g);
      }
    }

    /** filewrite, for a file that is an inode: `n` bytes of `src` at offset
        `off` in chunks, each a transaction of its own. A write that would pass
        the largest file stops after the last chunk that fits and answers -1.
        `tr` are the chunks done; `puts` what a chunk cut short by balloc's panic
        has logged. */
    method Filewrite(src: seq<Byte>, n: int, off: nat) returns (ok: bool, r: int, end: nat, ghost tr: seq<Chunk>)
      requires AtRest(Value(), g) && n <= |src| < WORD_MAX && off < WORD_MAX
      modifies this
      ensures ok ==> AtRest(Value(), g) && ip.inum == old(ip.inum)
      ensures Shaped(old(Value())) && (ok ==> KeepsInodes(old(Value()), Value()))
      ensures ok ==> end == off + Accepted(old(ip.size), off, n)
      ensures ok ==> r == (if n >= 0 && Accepted(old(ip.size), off, n) == n then n else -1)
      ensures ok && off <= old(ip.size) ==>
                g.files == Spliced(old(g.files), ip.inum, off, src[..Accepted(old(ip.size), off, n)])
      ensures ok && off > old(ip.size) ==> Value() == old(Value()) && g == old(g)
      ensures !ok ==> Full(Value())
      ensures Trail(old(Value()), old(g), off, src, n, tr)
      ensures ok ==> (Value(), g) == Before(old(Value()), old(g), tr, |tr|)
      ensures !ok ==> disk == Redo(Before(old(Value()), old(g), tr, |tr|).0.disk, puts)
    {
      hide AtRest, Filing, Redo, Bnos, ChunkLeft;
      ghost var v, m := Value(), g;
      FilingStart(v, m, off, src, n);
      var i := 0;
      r, tr := 0, [];
      while i < n
        invariant AtRest(Value(), g) && Filing(v, m, off, src, n, i, Value(), g)
        invariant Trail(v, m, off, src, n, tr) && i == Sent(n, |tr|)
        invariant (Value(), g) == Before(v, m, tr, |tr|)
        decreases n - i
      {
        ok, r := FileNext(v, m, src, n, off, i);
        if !ok {
          return false, 0, off, tr;
        }
        if r < 0 {
          break;
        }
        TrailGrows(v, m, off, src, n, tr, i, Chunk(puts, Value(), g));
        tr := tr + [Chunk(puts, Value(), g)];
        i := i + r;
      }
      FilingEnd(v, m, off, src, n, i, Value(), g);
      FilingSame(v, m, off, src, n, i, Value(), g);
      ok, end := true, off + i;
      r := if i == n then n else -1;
    }

    /** ilock of inode `i`: the fields of its dinode, read into memory. */
    method Ilock(i: nat)
      requires AtRest(Value(), g) && i < sb.ninodes
      modifies this`ip
      ensures AtRest(Value(), g) && ip.inum == i
    {
      ghost var v := Value();
      var d := disk[IBlock(sb, i)];
      var w0, w1 := Word(d, DinodeIndex(i, 0)), Word(d, DinodeIndex(i, 1));
      var addrs: seq<nat> := [];
      for k := 0 to NDIRECT + 1
        invariant |addrs| == k
        invariant forall j :: 0 <= j < k ==> addrs[j] == Word(d, DinodeIndex(i, 3 + j))
      {
        addrs := addrs + [Word(d, DinodeIndex(i, 3 + k))];
      }
      var size := Word(d, DinodeIndex(i, 2));
      var now := Inode(i, w0 % 0x1_0000, w0 / 0x1_0000, w1 % 0x1_0000, w1 / 0x1_0000, size, addrs);
      InodeRead(v, now);
      LockedMeans(v, g, now);
      ip := now;
    }
  }
}
