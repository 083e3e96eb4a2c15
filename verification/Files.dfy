/** The file layer of fs.c: inodes, their block maps, and who owns which block.
    The blocks are those the buffer cache and the log present. */
module Files {
  import opened Blocks

  const NDIRECT := 12
  const SLOTS := 141   // NDIRECT + 1 + WORDS: direct blocks, the indirect block, its entries
  const MAXFILE := 140 // NDIRECT + WORDS
  const IPB := 8
  const INODE_WORDS := 16

  /** The superblock; `start` is where the data blocks begin. */
  datatype Super = Super(size: nat, ninodes: nat, inodestart: nat, bmapstart: nat, start: nat)

  /** Boot and super block, log, inodes, bitmap, data: none overlap. */
  predicate LayoutOk(sb: Super) {
    && 2 <= sb.inodestart
    && sb.inodestart + sb.ninodes / IPB + 1 <= sb.bmapstart
    && sb.bmapstart + sb.size / BPB + 1 <= sb.start <= sb.size < WORD_MAX
  }

  function IBlock(sb: Super, i: nat): (b: nat)
    requires LayoutOk(sb) && i < sb.ninodes
    ensures sb.inodestart <= b < sb.bmapstart
  {
    i / IPB + sb.inodestart
  }

  function BBlock(sb: Super, b: nat): (m: nat)
    requires LayoutOk(sb) && b < sb.size
    ensures sb.bmapstart <= m < sb.start
  {
    b / BPB + sb.bmapstart
  }

  /** Where in its block word `k` of a dinode is. */
  function DinodeIndex(i: nat, k: nat): (w: nat)
    requires k < INODE_WORDS
    ensures w < WORDS
  {
    INODE_WORDS * (i % IPB) + k
  }

  /** The inode in memory, which is locked for the operation at hand. */
  datatype Inode = Inode(inum: nat, kind: nat, major: nat, minor: nat, nlink: nat, size: nat, addrs: seq<nat>)

  predicate InodeOk(ip: Inode) {
    && ip.kind < 0x1_0000 && ip.major < 0x1_0000 && ip.minor < 0x1_0000 && ip.nlink < 0x1_0000
    && ip.size < WORD_MAX
    && |ip.addrs| == NDIRECT + 1 && forall k :: 0 <= k <= NDIRECT ==> ip.addrs[k] < WORD_MAX
  }

  datatype Fs = Fs(sb: Super, disk: seq<Block>, ip: Inode)

  predicate Shaped(v: Fs) {
    LayoutOk(v.sb) && |v.disk| == v.sb.size && v.ip.inum < v.sb.ninodes && InodeOk(v.ip)
  }

  /** Word `k` of the dinode of inode `i`. */
  function DinodeWord(v: Fs, i: nat, k: nat): (w: nat)
    requires Shaped(v) && i < v.sb.ninodes && k < INODE_WORDS
  {
    Word(v.disk[IBlock(v.sb, i)], DinodeIndex(i, k))
  }

  /** Word `k` of the dinode that iupdate writes: four shorts, size, addrs. */
  function InodeWord(ip: Inode, k: nat): (w: nat)
    requires InodeOk(ip) && k < INODE_WORDS
    ensures w < WORD_MAX
  {
    if k == 0 then ip.kind + 0x1_0000 * ip.major
    else if k == 1 then ip.minor + 0x1_0000 * ip.nlink
    else if k == 2 then ip.size
    else ip.addrs[k - 3]
  }

  /** The dinode on disk says what the inode in memory says. */
  predicate Synced(v: Fs)
    requires Shaped(v)
  {
    forall k :: 0 <= k < INODE_WORDS ==> DinodeWord(v, v.ip.inum, k) == InodeWord(v.ip, k)
  }

  function AddrAt(v: Fs, i: nat, k: nat): (b: nat)
    requires Shaped(v) && i < v.sb.ninodes && k <= NDIRECT
  {
    if i == v.ip.inum then v.ip.addrs[k] else DinodeWord(v, i, 3 + k)
  }

  function SizeAt(v: Fs, i: nat): (n: nat)
    requires Shaped(v) && i < v.sb.ninodes
  {
    if i == v.ip.inum then v.ip.size else DinodeWord(v, i, 2)
  }

  /** The block in slot `p` of inode `i`, 0 for none. */
  function Ref(v: Fs, i: nat, p: nat): (b: nat)
    requires Shaped(v) && i < v.sb.ninodes && p < SLOTS
  {
    if p <= NDIRECT then AddrAt(v, i, p)
    else
      var ind := AddrAt(v, i, NDIRECT);
      if ind == 0 || ind >= v.sb.size then 0 else Word(v.disk[ind], p - NDIRECT - 1)
  }

  /** The slot of the file's block `bn`. */
  function Slot(bn: nat): (p: nat)
    ensures p != NDIRECT && (bn < MAXFILE ==> p < SLOTS)
  {
    if bn < NDIRECT then bn else bn + 1
  }

  predicate InUse(v: Fs, b: nat)
    requires Shaped(v) && b < v.sb.size
  {
    BitAt(v.disk[BBlock(v.sb, b)], b % BPB)
  }

  /** No inode block differs. */
  predicate SameInodes(v: Fs, v': Fs) {
    && v'.sb == v.sb && |v'.disk| == |v.disk|
    && forall m :: v.sb.inodestart <= m < v.sb.bmapstart && m < |v.disk| ==> v'.disk[m] == v.disk[m]
  }

  /** The locked inode keeps its type, device numbers and link count, and the
      dinode of every other inode is as it was. */
  ghost predicate KeepsInodes(v: Fs, v': Fs)
    requires Shaped(v)
  {
    && Shaped(v') && v'.sb == v.sb && v'.ip.inum == v.ip.inum
    && v'.ip.kind == v.ip.kind && v'.ip.major == v.ip.major && v'.ip.minor == v.ip.minor && v'.ip.nlink == v.ip.nlink
    && forall i, k :: 0 <= i < v.sb.ninodes && i != v.ip.inum && 0 <= k < INODE_WORDS ==>
         DinodeWord(v', i, k) == DinodeWord(v, i, k)
  }

  // Ownership ------------------------------------------------------------------------------------

  datatype Pos = Pos(inum: nat, slot: nat)

  /** Which block is in which slot. */
  type Table = map<Pos, nat>

  predicate IsPos(sb: Super, q: Pos) {
    q.inum < sb.ninodes && q.slot < SLOTS
  }

  /** `t` is what the inodes and indirect blocks say. */
  ghost predicate Tabled(v: Fs, t: Table)
    requires Shaped(v)
  {
    && (forall q :: q in t <==> IsPos(v.sb, q))
    && forall q :: q in t ==> t[q] == Ref(v, q.inum, q.slot)
  }

  /** `used` is what the bitmap says. */
  ghost predicate Mapped(v: Fs, used: set<nat>)
    requires Shaped(v)
  {
    && (forall b :: b in used ==> b < v.sb.size)
    && forall b :: 0 <= b < v.sb.size ==> (InUse(v, b) <==> b in used)
  }

  /** Entries of the inode's indirect block that itrunc has already freed. */
  predicate Dropped(inum: nat, q: Pos, done: nat) {
    q.inum == inum && NDIRECT < q.slot <= NDIRECT + done
  }

  /** The blocks in use are the metadata and, each for one slot, the blocks
      that slots refer to. Slots already `done` by itrunc refer to nothing. */
  ghost predicate Owned(sb: Super, t: Table, used: set<nat>, owner: map<nat, Pos>, inum: nat, done: nat) {
    && 0 < sb.start
    && (forall q :: q in t && !Dropped(inum, q, done) && t[q] != 0 ==> t[q] in owner && owner[t[q]] == q)
    && (forall b :: b in owner ==>
          sb.start <= b < sb.size && owner[b] in t && !Dropped(inum, owner[b], done) && t[owner[b]] == b)
    && forall b :: 0 <= b < sb.size ==> (b in used <==> b < sb.start || b in owner)
  }

  /** What ownership means without naming the owner map: a bit is set exactly
      for metadata and for blocks some slot refers to, and no two slots refer
      to one block. */
  lemma OwnershipExact(v: Fs, t: Table, used: set<nat>, owner: map<nat, Pos>)
    requires Shaped(v) && Tabled(v, t) && Mapped(v, used) && Owned(v.sb, t, used, owner, v.ip.inum, 0)
    ensures forall b :: 0 <= b < v.sb.size ==> (InUse(v, b) <==> b < v.sb.start || Referenced(v, b))
    ensures forall q, r :: IsPos(v.sb, q) && IsPos(v.sb, r) && RefOf(v, q) == RefOf(v, r) != 0 ==> q == r
    ensures forall q :: IsPos(v.sb, q) && RefOf(v, q) != 0 ==> v.sb.start <= RefOf(v, q) < v.sb.size
  {
  }

  function RefOf(v: Fs, q: Pos): (b: nat)
    requires Shaped(v) && IsPos(v.sb, q)
  {
    Ref(v, q.inum, q.slot)
  }

  ghost predicate Referenced(v: Fs, b: nat)
    requires Shaped(v)
  {
    b != 0 && exists q :: IsPos(v.sb, q) && RefOf(v, q) == b
  }

  /** Slots read only the inode's own dinode and indirect block. */
  lemma SameRef(v: Fs, v': Fs, i: nat, p: nat)
    requires Shaped(v) && Shaped(v') && v'.sb == v.sb && i < v.sb.ninodes && p < SLOTS
    requires v'.ip.inum == v.ip.inum && (i == v.ip.inum ==> v'.ip.addrs == v.ip.addrs)
    requires i != v.ip.inum ==> v'.disk[IBlock(v.sb, i)] == v.disk[IBlock(v.sb, i)]
    requires 0 < Ref(v, i, NDIRECT) < v.sb.size ==> v'.disk[Ref(v, i, NDIRECT)] == v.disk[Ref(v, i, NDIRECT)]
    ensures Ref(v', i, p) == Ref(v, i, p)
  {
  }

  /** Writes that miss the inode blocks and the indirect blocks. */
  lemma SameTable(v: Fs, v': Fs, t: Table)
    requires Shaped(v) && Shaped(v') && v'.sb == v.sb && v'.ip == v.ip && Tabled(v, t)
    requires forall m :: v.sb.inodestart <= m < v.sb.bmapstart ==> v'.disk[m] == v.disk[m]
    requires forall i :: 0 <= i < v.sb.ninodes && 0 < t[Pos(i, NDIRECT)] < v.sb.size ==>
               v'.disk[t[Pos(i, NDIRECT)]] == v.disk[t[Pos(i, NDIRECT)]]
    ensures Tabled(v', t)
  {
    forall q | q in t ensures t[q] == Ref(v', q.inum, q.slot) {
      assert t[Pos(q.inum, NDIRECT)] == Ref(v, q.inum, NDIRECT);
      SameRef(v, v', q.inum, q.slot);
    }
  }

  // Allocating and freeing -----------------------------------------------------------------------

  /** balloc of block `b`: its bit is set and it is zeroed. */
  function Alloc(v: Fs, b: nat): (r: Fs)
    requires Shaped(v) && b < v.sb.size
    ensures Shaped(r) && r.sb == v.sb && r.ip == v.ip
  {
    var m := BBlock(v.sb, b);
    v.(disk := v.disk[m := PutBit(v.disk[m], b % BPB, true)][b := Zero()])
  }

  /** bfree of block `b`. */
  function Freed(v: Fs, b: nat): (r: Fs)
    requires Shaped(v) && b < v.sb.size
    ensures Shaped(r) && r.sb == v.sb && r.ip == v.ip
  {
    var m := BBlock(v.sb, b);
    v.(disk := v.disk[m := PutBit(v.disk[m], b % BPB, false)])
  }

  lemma BitFlip(v: Fs, v': Fs, b: nat, on: bool, c: nat)
    requires Shaped(v) && Shaped(v') && v'.sb == v.sb && b < v.sb.size && c < v.sb.size
    requires var m := BBlock(v.sb, b); v'.disk[m] == PutBit(v.disk[m], b % BPB, on)
    requires BBlock(v.sb, c) != BBlock(v.sb, b) ==> v'.disk[BBlock(v.sb, c)] == v.disk[BBlock(v.sb, c)]
    ensures InUse(v', c) == if c == b then on else InUse(v, c)
  {
    if c / BPB == b / BPB {
      PutBitReads(v.disk[BBlock(v.sb, b)], b % BPB, on, c % BPB);
    }
  }

  lemma AllocUse(v: Fs, b: nat, c: nat)
    requires Shaped(v) && v.sb.start <= b < v.sb.size && c < v.sb.size
    ensures (InUse(Alloc(v, b), c) <==> c == b || InUse(v, c))
  {
    BitFlip(v, Alloc(v, b), b, true, c);
  }

  lemma FreedUse(v: Fs, b: nat, c: nat)
    requires Shaped(v) && b < v.sb.size && c < v.sb.size
    ensures (InUse(Freed(v, b), c) <==> c != b && InUse(v, c))
  {
    BitFlip(v, Freed(v, b), b, false, c);
  }

  lemma AllocMapped(v: Fs, used: set<nat>, b: nat)
    requires Shaped(v) && v.sb.start <= b < v.sb.size && Mapped(v, used)
    ensures Mapped(Alloc(v, b), used + {b})
  {
    forall c | 0 <= c < v.sb.size ensures InUse(Alloc(v, b), c) <==> c in used + {b} {
      AllocUse(v, b, c);
    }
  }

  lemma FreedMapped(v: Fs, used: set<nat>, b: nat)
    requires Shaped(v) && b < v.sb.size && Mapped(v, used)
    ensures Mapped(Freed(v, b), used - {b})
  {
    forall c | 0 <= c < v.sb.size ensures InUse(Freed(v, b), c) <==> c in used - {b} {
      FreedUse(v, b, c);
    }
  }

  lemma AllocTabled(v: Fs, t: Table, b: nat)
    requires Shaped(v) && v.sb.start <= b < v.sb.size && Tabled(v, t)
    requires forall i :: 0 <= i < v.sb.ninodes ==> t[Pos(i, NDIRECT)] != b
    requires forall i :: 0 <= i < v.sb.ninodes && t[Pos(i, NDIRECT)] != 0 ==> v.sb.start <= t[Pos(i, NDIRECT)]
    ensures Tabled(Alloc(v, b), t)
  {
    SameTable(v, Alloc(v, b), t);
  }

  lemma FreedTabled(v: Fs, t: Table, b: nat)
    requires Shaped(v) && b < v.sb.size && Tabled(v, t)
    requires forall i :: 0 <= i < v.sb.ninodes && t[Pos(i, NDIRECT)] != 0 ==> v.sb.start <= t[Pos(i, NDIRECT)]
    ensures Tabled(Freed(v, b), t)
  {
    SameTable(v, Freed(v, b), t);
  }

  // Filling a slot -------------------------------------------------------------------------------

  /** ip->addrs[k] = b. */
  function SetAddr(v: Fs, k: nat, b: nat): (r: Fs)
    requires Shaped(v) && k <= NDIRECT && b < WORD_MAX
    ensures Shaped(r) && r.sb == v.sb && r.disk == v.disk
  {
    v.(ip := v.ip.(addrs := v.ip.addrs[k := b]))
  }

  /** a[k] = b, in the indirect block. */
  function SetEntry(v: Fs, k: nat, b: nat): (r: Fs)
    requires Shaped(v) && k < WORDS && b < WORD_MAX && v.ip.addrs[NDIRECT] < v.sb.size
    ensures Shaped(r) && r.sb == v.sb && r.ip == v.ip
  {
    var ind := v.ip.addrs[NDIRECT];
    v.(disk := v.disk[ind := PutWord(v.disk[ind], k, b)])
  }

  lemma SetDirectTabled(v: Fs, t: Table, k: nat, b: nat)
    requires Shaped(v) && k < NDIRECT && b < WORD_MAX && Tabled(v, t)
    ensures Tabled(SetAddr(v, k, b), t[Pos(v.ip.inum, k) := b])
  {
  }

  ghost predicate NoEntries(d: Block) {
    forall w :: 0 <= w < WORDS ==> Word(d, w) == 0
  }

  lemma ZeroNoEntries()
    ensures NoEntries(Zero())
  {
  }

  /** A zeroed block as the indirect block has no entries. */
  lemma SetIndirectTabled(v: Fs, t: Table, b: nat)
    requires Shaped(v) && v.ip.addrs[NDIRECT] == 0 && 0 < b < v.sb.size && NoEntries(v.disk[b]) && Tabled(v, t)
    ensures Tabled(SetAddr(v, NDIRECT, b), t[Pos(v.ip.inum, NDIRECT) := b])
  {
  }

  lemma SetEntryOwn(v: Fs, k: nat, b: nat, p: nat)
    requires Shaped(v) && k < WORDS && b < WORD_MAX && 0 < v.ip.addrs[NDIRECT] < v.sb.size && p < SLOTS
    ensures Ref(SetEntry(v, k, b), v.ip.inum, p) == if p == NDIRECT + 1 + k then b else Ref(v, v.ip.inum, p)
  {
  }

  lemma SetEntryOther(v: Fs, k: nat, b: nat, i: nat, p: nat)
    requires Shaped(v) && k < WORDS && b < WORD_MAX && v.sb.start <= v.ip.addrs[NDIRECT] < v.sb.size
    requires i < v.sb.ninodes && i != v.ip.inum && p < SLOTS && Ref(v, i, NDIRECT) != v.ip.addrs[NDIRECT]
    ensures Ref(SetEntry(v, k, b), i, p) == Ref(v, i, p)
  {
  }

  lemma SetEntryTabled(v: Fs, t: Table, k: nat, b: nat)
    requires Shaped(v) && k < WORDS && b < WORD_MAX && v.sb.start <= v.ip.addrs[NDIRECT] < v.sb.size && Tabled(v, t)
    requires forall i :: 0 <= i < v.sb.ninodes && i != v.ip.inum ==> t[Pos(i, NDIRECT)] != v.ip.addrs[NDIRECT]
    ensures Tabled(SetEntry(v, k, b), t[Pos(v.ip.inum, NDIRECT + 1 + k) := b])
  {
    var v' := SetEntry(v, k, b);
    assert Shaped(v');
    forall q | q in t ensures t[Pos(v.ip.inum, NDIRECT + 1 + k) := b][q] == Ref(v', q.inum, q.slot) {
      if q.inum == v.ip.inum {
        SetEntryOwn(v, k, b, q.slot);
      } else {
        assert t[Pos(q.inum, NDIRECT)] == Ref(v, q.inum, NDIRECT);
        SetEntryOther(v, k, b, q.inum, q.slot);
      }
    }
  }

  // Ownership kept -------------------------------------------------------------------------------

  lemma OwnedFill(sb: Super, t: Table, used: set<nat>, owner: map<nat, Pos>, inum: nat, q: Pos, b: nat)
    requires Owned(sb, t, used, owner, inum, 0) && q in t && t[q] == 0 && 0 < b < sb.size && b !in used
    ensures Owned(sb, t[q := b], used + {b}, owner[b := q], inum, 0)
  {
  }

  lemma OwnedClear(sb: Super, t: Table, used: set<nat>, owner: map<nat, Pos>, inum: nat, q: Pos)
    requires Owned(sb, t, used, owner, inum, 0) && q in t && t[q] != 0
    ensures Owned(sb, t[q := 0], used - {t[q]}, owner - {t[q]}, inum, 0)
  {
  }

  lemma OwnedDrop(sb: Super, t: Table, used: set<nat>, owner: map<nat, Pos>, inum: nat, done: nat)
    requires Owned(sb, t, used, owner, inum, done) && Pos(inum, NDIRECT + 1 + done) in t
    ensures var b := t[Pos(inum, NDIRECT + 1 + done)];
            if b == 0 then Owned(sb, t, used, owner, inum, done + 1)
            else Owned(sb, t, used - {b}, owner - {b}, inum, done + 1)
  {
  }

  /** The table once the indirect block is gone. */
  ghost function WithoutIndirect(t: Table, inum: nat): (r: Table) {
    map q | q in t :: if q.inum == inum && q.slot >= NDIRECT then 0 else t[q]
  }

  lemma OwnedNoIndirect(sb: Super, t: Table, used: set<nat>, owner: map<nat, Pos>, inum: nat)
    requires Owned(sb, t, used, owner, inum, WORDS) && Pos(inum, NDIRECT) in t && t[Pos(inum, NDIRECT)] != 0
    requires forall q :: q in t ==> IsPos(sb, q)
    ensures var b := t[Pos(inum, NDIRECT)];
            Owned(sb, WithoutIndirect(t, inum), used - {b}, owner - {b}, inum, 0)
  {
  }
}
