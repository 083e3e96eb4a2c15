/** mkfs.c: its layout and bitmap, and what its last change to the root
    directory does to the block map. */
module Mkfs {
  import opened Blocks
  import opened Files
  import opened Contents
  import opened Writes

  /** balloc(used): the first `used` bits set. */
  function Marked(used: nat): (d: Block)
    requires used <= BPB
  {
    if used == 0 then Zero() else PutBit(Marked(used - 1), used - 1, true)
  }

  lemma {:induction false} MarkedReads(used: nat, bi: nat)
    requires used <= BPB && bi < BPB
    ensures BitAt(Marked(used), bi) <==> bi < used
  {
    if used == 0 {
      ZeroBit(bi % 8);
    } else {
      MarkedReads(used - 1, bi);
      PutBitReads(Marked(used - 1), used - 1, true, bi);
    }
  }

  lemma {:induction false} ZeroBit(k: nat)
    ensures !Bit(0, k)
  {
    if k > 0 {
      ZeroBit(k - 1);
    }
  }

  /** mkfs's balloc, which fills one bitmap block. */
  method Balloc(used: nat) returns (buf: Block)
    requires used < BPB
    ensures forall bi :: 0 <= bi < BPB ==> (BitAt(buf, bi) <==> bi < used)
  {
    buf := Zero();
    for i := 0 to used
      invariant buf == Marked(i)
    {
      buf := PutBit(buf, i, true);
    }
    forall bi | 0 <= bi < BPB ensures BitAt(buf, bi) <==> bi < used {
      MarkedReads(used, bi);
    }
  }

  /** mkfs asserts that its one bitmap block is enough. */
  predicate Makeable(sb: Super) {
    LayoutOk(sb) && sb.start < BPB
  }

  function EmptyDisk(sb: Super, super: Block): (d: seq<Block>)
    requires Makeable(sb)
    ensures |d| == sb.size
  {
    seq(sb.size, (b: nat) => EmptyBlock(sb, super, b))
  }

  function EmptyBlock(sb: Super, super: Block, b: nat): (d: Block)
    requires Makeable(sb)
  {
    if b == 1 then super else if b == sb.bmapstart then Marked(sb.start) else Zero()
  }

  /** A free inode, all zero. */
  function Blank(i: nat): (ip: Inode) {
    Inode(i, 0, 0, 0, 0, 0, seq(NDIRECT + 1, _ => 0))
  }

  ghost function Positions(sb: Super): (s: set<Pos>)
    ensures forall q :: q in s <==> IsPos(sb, q)
  {
    set i: nat, p: nat | 0 <= i < sb.ninodes && 0 <= p < SLOTS :: Pos(i, p)
  }

  ghost function Firsts(n: nat): (s: set<nat>)
    ensures forall b: nat :: b in s <==> b < n
  {
    if n == 0 then {} else Firsts(n - 1) + {n - 1}
  }

  /** No slot filled, metadata in use, all files empty. */
  ghost function NoFiles(sb: Super): (g: Meaning) {
    Meaning(map q | q in Positions(sb) :: 0, Firsts(sb.start), map[], seq(sb.ninodes, _ => []))
  }

  lemma EmptyWords(sb: Super, super: Block, j: nat, i: nat, k: nat)
    requires Makeable(sb) && j < sb.ninodes && i < sb.ninodes && k < INODE_WORDS
    ensures DinodeWord(Fs(sb, EmptyDisk(sb, super), Blank(j)), i, k) == 0
  {
    var b := IBlock(sb, i);
    assert EmptyDisk(sb, super)[b] == EmptyBlock(sb, super, b) == Zero();
  }

  lemma EmptyBits(sb: Super, super: Block, i: nat)
    requires Makeable(sb) && i < sb.ninodes
    ensures Mapped(Fs(sb, EmptyDisk(sb, super), Blank(i)), NoFiles(sb).used)
  {
    var v := Fs(sb, EmptyDisk(sb, super), Blank(i));
    forall b | 0 <= b < sb.size ensures InUse(v, b) <==> b < sb.start {
      var m := BBlock(sb, b);
      assert v.disk[m] == EmptyBlock(sb, super, m);
      if b / BPB == 0 {
        MarkedReads(sb.start, b % BPB);
      } else {
        ZeroBit(b % BPB % 8);
      }
    }
  }

  lemma EmptyTable(sb: Super, super: Block, i: nat)
    requires Makeable(sb) && i < sb.ninodes
    ensures Tabled(Fs(sb, EmptyDisk(sb, super), Blank(i)), NoFiles(sb).t)
  {
    hide EmptyDisk, DinodeWord;
    var v := Fs(sb, EmptyDisk(sb, super), Blank(i));
    forall q | IsPos(sb, q) ensures Ref(v, q.inum, q.slot) == 0 {
      EmptyWords(sb, super, i, q.inum, 3 + if q.slot <= NDIRECT then q.slot else NDIRECT);
    }
  }

  lemma EmptySizes(sb: Super, super: Block, i: nat)
    requires Makeable(sb) && i < sb.ninodes
    ensures var v := Fs(sb, EmptyDisk(sb, super), Blank(i)); Sized(v, NoFiles(sb).files) && Synced(v)
  {
    hide EmptyDisk, DinodeWord;
    var v := Fs(sb, EmptyDisk(sb, super), Blank(i));
    forall j | 0 <= j < sb.ninodes ensures DinodeWord(v, j, 2) == 0 {
      EmptyWords(sb, super, i, j, 2);
    }
    forall k | 0 <= k < INODE_WORDS ensures DinodeWord(v, i, k) == InodeWord(v.ip, k) {
      EmptyWords(sb, super, i, i, k);
    }
  }

  /** A volume with no inode made, and the bitmap balloc writes for it, is in
      order with every file empty, whichever inode is locked. */
  lemma EmptyAtRest(sb: Super, super: Block, i: nat)
    requires Makeable(sb) && i < sb.ninodes
    ensures AtRest(Fs(sb, EmptyDisk(sb, super), Blank(i)), NoFiles(sb))
  {
    hide EmptyDisk, Tabled, Mapped, Sized, Synced;
    EmptyBits(sb, super, i);
    EmptyTable(sb, super, i);
    EmptySizes(sb, super, i);
  }

  /** The superblock mkfs writes for FSSIZE and NINODES. */
  const DEFAULT := Super(1000, 200, 32, 58, 59)

  lemma DefaultMakeable()
    ensures Makeable(DEFAULT)
  {
  }

  // The root directory's size ----------------------------------------------------------------------

  const DIRENT := 16 // bytes of a directory entry

  /** The size mkfs gives the root directory at the end. */
  function Padded(n: nat): (p: nat) {
    (n / BSIZE + 1) * BSIZE
  }

  /** iappend has mapped no block past the last byte of the locked inode's file. */
  ghost predicate Snug(v: Fs, m: Meaning) {
    forall bn :: BlocksFor(v.ip.size) <= bn < MAXFILE ==> !HasBlock(v.sb, m.t, v.ip.inum, bn)
  }

  function PaddedRoot(v: Fs): (r: Fs)
    requires Shaped(v) && Padded(v.ip.size) < WORD_MAX
  {
    Updated(Resized(v, Padded(v.ip.size)))
  }

  /** The last block's bytes after the file's. */
  lemma LongerHolds(sb: Super, disk: seq<Block>, t: Table, i: nat, s: seq<Byte>) returns (r: seq<Byte>)
    requires |disk| == sb.size && Holds(sb, disk, t, i, s) && |s| % BSIZE != 0
    ensures |r| == Padded(|s|) && s <= r && Holds(sb, disk, t, i, r)
  {
    var bn := |s| / BSIZE;
    assert HasBlock(sb, t, i, bn);
    var d := disk[t[DataPos(i, bn)]];
    r := s + d[|s| % BSIZE..];
    assert BlocksFor(|r|) == BlocksFor(|s|);
    forall b | 0 <= b < BlocksFor(|r|) ensures BlockHolds(disk[t[DataPos(i, b)]], r, BSIZE * b) {
      assert HasBlock(sb, t, i, b) && BlockHolds(disk[t[DataPos(i, b)]], s, BSIZE * b);
    }
  }

  lemma PaddedInOrder(v: Fs, m: Meaning) returns (m': Meaning)
    requires AtRest(v, m) && v.ip.size % BSIZE != 0
    ensures Padded(v.ip.size) < WORD_MAX && AtRest(PaddedRoot(v), m')
  {
    var i := v.ip.inum;
    assert Holds(v.sb, v.disk, m.t, i, m.files[i]);
    var r := LongerHolds(v.sb, v.disk, m.t, i, m.files[i]);
    m' := m.(files := m.files[i := r]);
    GrewMeans(v, m', Padded(v.ip.size));
  }

  /** The block after the last one is missing. */
  lemma PaddedHole(v: Fs, m: Meaning, m': Meaning)
    requires AtRest(v, m) && Snug(v, m) && Padded(v.ip.size) < WORD_MAX && AtRest(PaddedRoot(v), m')
    ensures v.ip.size % BSIZE != 0
  {
    var i, r, n := v.ip.inum, PaddedRoot(v), v.ip.size;
    ResizedMeans(v, m, Padded(n));
    UpdatedMeans(Resized(v, Padded(n)), m);
    assert Holds(r.sb, r.disk, m'.t, i, m'.files[i]);
    if n % BSIZE == 0 {
      SameSlot(r, m.t, m'.t, i, n / BSIZE);
    }
  }

  lemma SameSlot(r: Fs, t: Table, t': Table, i: nat, bn: nat)
    requires Shaped(r) && Tabled(r, t) && Tabled(r, t') && i < r.sb.ninodes && bn < MAXFILE && HasBlock(r.sb, t', i, bn)
    ensures HasBlock(r.sb, t, i, bn)
  {
    assert DataPos(i, bn) in t && DataPos(i, bn) in t';
  }

  /** mkfs's last change to the root directory keeps the volume in order if and
      only if the directory does not end on a block boundary, so if and only if
      its entries are not a multiple of 32; otherwise its last block is a hole. */
  lemma RootFix(v: Fs, m: Meaning, entries: nat)
    requires AtRest(v, m) && Snug(v, m) && v.ip.size == DIRENT * entries
    ensures Padded(v.ip.size) < WORD_MAX
    ensures (exists m' :: AtRest(PaddedRoot(v), m')) <==> entries % 32 != 0
  {
    assert Holds(v.sb, v.disk, m.t, v.ip.inum, m.files[v.ip.inum]);
    hide AtRest, PaddedRoot, Snug;
    if entries % 32 != 0 {
      var m' := PaddedInOrder(v, m);
    }
    if m' :| AtRest(PaddedRoot(v), m') {
      PaddedHole(v, m, m');
    }
  }

  /** A directory of no entries is one of those: it would get a block's size and
      no block. */
  lemma EmptyRootHole(sb: Super, super: Block, i: nat)
    requires Makeable(sb) && i < sb.ninodes
    ensures var v := Fs(sb, EmptyDisk(sb, super), Blank(i));
            Padded(v.ip.size) < WORD_MAX && !exists m' :: AtRest(PaddedRoot(v), m')
  {
    hide AtRest, PaddedRoot, EmptyDisk;
    var v := Fs(sb, EmptyDisk(sb, super), Blank(i));
    EmptyAtRest(sb, super, i);
    assert Snug(v, NoFiles(sb));
    RootFix(v, NoFiles(sb), 0);
  }
}
