/** bmap as steps on values: filling empty slots of the locked inode with free
    blocks, and what that does to the files and the log. */
module BlockMap {
  import opened Blocks
  import opened Files
  import opened Contents

  ghost predicate UsedTo(v: Fs, n: nat)
    requires Shaped(v)
  {
    forall c :: 0 <= c < n && c < v.sb.size ==> InUse(v, c)
  }

  /** No block is left to allocate. */
  ghost predicate Full(v: Fs) {
    Shaped(v) && UsedTo(v, v.sb.size)
  }

  /** Slots that had a block keep it. */
  ghost predicate Grows(t: Table, t': Table) {
    forall q :: q in t ==> q in t' && (t[q] != 0 ==> t'[q] == t[q])
  }

  /** The indirect block and its bitmap block. */
  ghost function Indirect(sb: Super, t: Table, i: nat): (s: set<nat>)
    requires LayoutOk(sb)
  {
    var q := Pos(i, NDIRECT);
    if q !in t || t[q] == 0 || t[q] >= sb.size then {} else {t[q], BBlock(sb, t[q])}
  }

  lemma BlockIndex(sb: Super, base: nat, bi: nat)
    requires LayoutOk(sb) && base % BPB == 0 && bi < BPB && base + bi < sb.size
    ensures (base + bi) % BPB == bi && BBlock(sb, base + bi) == base / BPB + sb.bmapstart
  {
  }

  /** The bits of one bitmap block are those of its blocks. */
  lemma ScanMeans(v: Fs, base: nat, m: nat, n: nat)
    requires Shaped(v) && base % BPB == 0 && base < v.sb.size && n <= BPB
    requires m == BBlock(v.sb, base) && UsedTo(v, base)
    requires forall j :: 0 <= j < n && base + j < v.sb.size ==> BitAt(v.disk[m], j)
    ensures UsedTo(v, base + n)
    ensures n < BPB && base + n < v.sb.size && !BitAt(v.disk[m], n) ==> !InUse(v, base + n)
  {
  }

  /** Slot `p` of the locked inode, empty before, now has the free block `b`. */
  ghost predicate Step(v: Fs, p: nat, b: nat, v': Fs) {
    && Shaped(v) && p < SLOTS && b < v.sb.size && !InUse(v, b) && Ref(v, v.ip.inum, p) == 0
    && v.ip.addrs[NDIRECT] < v.sb.size && (p > NDIRECT ==> v.ip.addrs[NDIRECT] != 0)
    && v' == Filled(v, p, b)
  }

  /** Metadata is marked in use, and the indirect block is a data block. */
  ghost predicate Sound(v: Fs) {
    && Shaped(v) && UsedTo(v, v.sb.start) && 0 < v.sb.start
    && (v.ip.addrs[NDIRECT] == 0 || v.sb.start <= v.ip.addrs[NDIRECT] < v.sb.size)
  }

  lemma StepSound(v: Fs, p: nat, b: nat, v': Fs)
    requires Sound(v) && Step(v, p, b, v')
    ensures Sound(v') && v.sb.start <= b && v'.sb == v.sb && v'.ip.inum == v.ip.inum
  {
    assert v.sb.start <= b;
    forall c | 0 <= c < v.sb.start ensures InUse(v', c) {
      AllocUse(v, b, c);
      assert v'.disk[BBlock(v.sb, c)] == Alloc(v, b).disk[BBlock(v.sb, c)];
    }
  }

  lemma StepRef(v: Fs, p: nat, b: nat, v': Fs)
    requires Sound(v) && Step(v, p, b, v')
    ensures Shaped(v') && Ref(v', v.ip.inum, p) == b
  {
  }

  ghost function TableAt(g: Meaning, i: nat, p: nat): (b: nat) {
    if Pos(i, p) in g.t then g.t[Pos(i, p)] else 0
  }

  /** The table at a slot of the locked inode. */
  lemma SlotIs(v: Fs, g: Meaning, p: nat)
    requires Means(v, g) && p < SLOTS
    ensures Pos(v.ip.inum, p) in g.t && TableAt(g, v.ip.inum, p) == Ref(v, v.ip.inum, p)
    ensures Ref(v, v.ip.inum, p) != 0 ==> v.sb.start <= Ref(v, v.ip.inum, p) < v.sb.size
    ensures v.ip.addrs[NDIRECT] < v.sb.size
  {
    var q, n := Pos(v.ip.inum, p), Pos(v.ip.inum, NDIRECT);
    assert q in g.t && n in g.t && g.t[n] == Ref(v, n.inum, n.slot);
  }

  lemma TableFilled(v: Fs, m: Meaning, p: nat, b: nat)
    requires Pos(v.ip.inum, p) in m.t && m.t[Pos(v.ip.inum, p)] == 0
    ensures var m' := FilledMeaning(v, m, p, b);
            && Grows(m.t, m'.t) && m'.files == m.files
            && forall s :: TableAt(m', v.ip.inum, s) == if s == p then b else TableAt(m, v.ip.inum, s)
  {
  }

  lemma StepMeans(v: Fs, m: Meaning, p: nat, b: nat, v': Fs) returns (m': Meaning)
    requires Means(v, m) && Step(v, p, b, v')
    ensures m' == FilledMeaning(v, m, p, b) && Means(v', m')
    ensures v.sb.start <= b && Pos(v.ip.inum, p) in m.t && m.t[Pos(v.ip.inum, p)] == 0
  {
    SlotIs(v, m, p);
    FilledMeans(v, m, p, b);
    CanFillFacts(v, m, p, b);
    m' := FilledMeaning(v, m, p, b);
  }

  lemma StepShape(v: Fs, p: nat, b: nat, v': Fs)
    requires Step(v, p, b, v')
    ensures v'.sb == v.sb && v'.ip == v.ip.(addrs := v'.ip.addrs)
  {
  }

  /** What bmap does for block `bn`: perhaps a new indirect block `b1`, perhaps
      a new block `b2` for the slot (0 for none). */
  datatype Mapping = Mapping(b1: nat, v1: Fs, b2: nat)

  ghost predicate Bmapped(v: Fs, bn: nat, w: Mapping, v': Fs) {
    && Shaped(v) && bn < MAXFILE
    && (if w.b1 == 0 then w.v1 == v else bn >= NDIRECT && Step(v, NDIRECT, w.b1, w.v1))
    && (if w.b2 == 0 then v' == w.v1 else Step(w.v1, Slot(bn), w.b2, v'))
    && Shaped(v') && Ref(v', v'.ip.inum, Slot(bn)) != 0
  }

  /** Blocks bmap gave to log_write. */
  ghost function MapLog(v: Fs, bn: nat, w: Mapping): (s: set<nat>)
    requires LayoutOk(v.sb) && w.b1 < v.sb.size && w.b2 < v.sb.size && |w.v1.ip.addrs| == NDIRECT + 1
  {
    (if w.b1 == 0 then {} else {BBlock(v.sb, w.b1), w.b1})
    + (if w.b2 == 0 then {} else {BBlock(v.sb, w.b2), w.b2})
    + (if w.b2 == 0 || bn < NDIRECT then {} else {w.v1.ip.addrs[NDIRECT]})
  }

  /** Blocks were added to the locked inode; no file changed. */
  ghost predicate Extends(v: Fs, m: Meaning, v': Fs, m': Meaning) {
    && v'.sb == v.sb && v'.ip == v.ip.(addrs := v'.ip.addrs)
    && m'.files == m.files && Grows(m.t, m'.t) && SameInodes(v, v')
  }

  /** bmap's writes are to the bitmap, the new block and the indirect block. */
  lemma StepInodes(v: Fs, m: Meaning, p: nat, b: nat, v': Fs)
    requires Means(v, m) && Step(v, p, b, v') && v.sb.start <= b
    ensures SameInodes(v, v')
  {
    SlotIs(v, m, NDIRECT);
  }

  lemma FirstStep(v: Fs, m: Meaning, bn: nat, w: Mapping, v': Fs) returns (m1: Meaning)
    requires Means(v, m) && Bmapped(v, bn, w, v')
    ensures Means(w.v1, m1) && Extends(v, m, w.v1, m1)
    ensures TableAt(m1, v.ip.inum, Slot(bn)) == TableAt(m, v.ip.inum, Slot(bn))
    ensures w.b1 != 0 ==> TableAt(m1, v.ip.inum, NDIRECT) == w.b1 < v.sb.size && v.sb.start <= w.b1
  {
    m1 := m;
    if w.b1 != 0 {
      m1 := StepMeans(v, m, NDIRECT, w.b1, w.v1);
      TableFilled(v, m, NDIRECT, w.b1);
      StepShape(v, NDIRECT, w.b1, w.v1);
      StepInodes(v, m, NDIRECT, w.b1, w.v1);
    }
  }

  lemma SecondStep(v: Fs, m: Meaning, bn: nat, w: Mapping, v': Fs, m1: Meaning) returns (m': Meaning)
    requires Means(w.v1, m1) && Bmapped(v, bn, w, v')
    ensures Means(v', m') && Extends(w.v1, m1, v', m')
    ensures TableAt(m', w.v1.ip.inum, NDIRECT) == TableAt(m1, w.v1.ip.inum, NDIRECT)
    ensures w.b2 != 0 ==> TableAt(m', w.v1.ip.inum, Slot(bn)) == w.b2 && TableAt(m1, w.v1.ip.inum, Slot(bn)) == 0
  {
    m' := m1;
    if w.b2 != 0 {
      m' := StepMeans(w.v1, m1, Slot(bn), w.b2, v');
      TableFilled(w.v1, m1, Slot(bn), w.b2);
      StepShape(w.v1, Slot(bn), w.b2, v');
      StepInodes(w.v1, m1, Slot(bn), w.b2, v');
    }
  }

  lemma ExtendsTwice(v: Fs, m: Meaning, v': Fs, m': Meaning, v'': Fs, m'': Meaning)
    requires Extends(v, m, v', m') && Extends(v', m', v'', m'')
    ensures Extends(v, m, v'', m'')
  {
  }

  /** bmap's promise, once its steps are known. */
  lemma BmappedMeans(v: Fs, m: Meaning, bn: nat, w: Mapping, v': Fs) returns (m': Meaning)
    requires Means(v, m) && Bmapped(v, bn, w, v')
    ensures Means(v', m') && Extends(v, m, v', m')
    ensures HasBlock(v.sb, m'.t, v.ip.inum, bn) && m'.t[DataPos(v.ip.inum, bn)] == Ref(v', v.ip.inum, Slot(bn))
    ensures w.b1 != 0 ==> TableAt(m', v.ip.inum, NDIRECT) == w.b1 < v.sb.size
    ensures w.b2 != 0 ==> TableAt(m', v.ip.inum, Slot(bn)) == w.b2 && TableAt(m, v.ip.inum, Slot(bn)) == 0
    ensures |w.v1.ip.addrs| == NDIRECT + 1 && w.v1.ip.addrs[NDIRECT] == TableAt(m', v.ip.inum, NDIRECT) < v.sb.size
  {
    var m1 := FirstStep(v, m, bn, w, v');
    m' := SecondStep(v, m, bn, w, v', m1);
    ExtendsTwice(v, m, w.v1, m1, v', m');
    SlotIs(w.v1, m1, NDIRECT);
    SlotIs(v', m', Slot(bn));
  }

  /** bmap's promise: the block is mapped, to `addr`, and no file changed;
      nothing at all changed if it was mapped before; otherwise no blocks were
      logged but the new one, the indirect block and their bitmap blocks. */
  ghost predicate MapPost(v: Fs, m: Meaning, l: set<nat>, bn: nat, v': Fs, m': Meaning, l': set<nat>, addr: nat) {
    && Means(v', m') && Extends(v, m, v', m')
    && HasBlock(v.sb, m'.t, v.ip.inum, bn) && addr == m'.t[DataPos(v.ip.inum, bn)]
    && if HasBlock(v.sb, m.t, v.ip.inum, bn) then v' == v && m' == m && l' == l
       else l' <= l + {addr, BBlock(v.sb, addr)} + Indirect(v.sb, m'.t, v.ip.inum)
  }

  /** The blocks bmap logged, by where they are in the table. */
  lemma MapLogFits(v: Fs, bn: nat, w: Mapping, m': Meaning, addr: nat)
    requires LayoutOk(v.sb) && w.b1 < v.sb.size && w.b2 < v.sb.size && addr < v.sb.size
    requires |w.v1.ip.addrs| == NDIRECT + 1
    requires w.b1 != 0 ==> TableAt(m', v.ip.inum, NDIRECT) == w.b1
    requires w.b2 != 0 ==> addr == w.b2
    requires w.v1.ip.addrs[NDIRECT] == TableAt(m', v.ip.inum, NDIRECT) < v.sb.size
    requires w.b2 != 0 && bn >= NDIRECT ==> w.v1.ip.addrs[NDIRECT] != 0
    ensures MapLog(v, bn, w) <= {addr, BBlock(v.sb, addr)} + Indirect(v.sb, m'.t, v.ip.inum)
  {
  }

  lemma BmapNew(v: Fs, m: Meaning, l: set<nat>, bn: nat, w: Mapping, v': Fs, l': set<nat>, addr: nat)
    returns (m': Meaning)
    requires Means(v, m) && StepsPost(v, l, bn, w, v', l', addr)
    ensures Means(v', m') && Extends(v, m, v', m')
    ensures HasBlock(v.sb, m'.t, v.ip.inum, bn) && addr == m'.t[DataPos(v.ip.inum, bn)]
    ensures l' <= l + {addr, BBlock(v.sb, addr)} + Indirect(v.sb, m'.t, v.ip.inum)
  {
    m' := BmappedMeans(v, m, bn, w, v');
    MapLogFits(v, bn, w, m', addr);
  }

  lemma BmapDone(v: Fs, m: Meaning, l: set<nat>, bn: nat, w: Mapping, v': Fs, l': set<nat>, addr: nat)
    returns (m': Meaning)
    requires Means(v, m) && StepsPost(v, l, bn, w, v', l', addr)
    ensures MapPost(v, m, l, bn, v', m', l', addr)
  {
    MeansSound(v, m, bn);
    if Ref(v, v.ip.inum, Slot(bn)) != 0 {
      m' := m;
    } else {
      m' := BmapNew(v, m, l, bn, w, v', l', addr);
    }
  }

  ghost predicate StepsPost(v: Fs, l: set<nat>, bn: nat, w: Mapping, v': Fs, l': set<nat>, addr: nat) {
    && Bmapped(v, bn, w, v') && addr == Ref(v', v'.ip.inum, Slot(bn))
    && w.b1 < v.sb.size && w.b2 < v.sb.size && |w.v1.ip.addrs| == NDIRECT + 1
    && l' == l + MapLog(v, bn, w)
    && (Ref(v, v.ip.inum, Slot(bn)) != 0 ==> w.b1 == 0 && w.b2 == 0)
  }

  ghost predicate FirstDone(v: Fs, b1: nat, v1: Fs) {
    && Shaped(v)
    && if b1 == 0 then v1 == v && v.ip.addrs[NDIRECT] != 0
       else v.ip.addrs[NDIRECT] == 0 && Step(v, NDIRECT, b1, v1)
  }

  ghost predicate SecondDone(v1: Fs, bn: nat, b2: nat, v2: Fs, addr: nat) {
    && Shaped(v1) && bn < MAXFILE
    && if Ref(v1, v1.ip.inum, Slot(bn)) != 0
       then b2 == 0 && v2 == v1 && addr == Ref(v1, v1.ip.inum, Slot(bn))
       else b2 == addr && Step(v1, Slot(bn), b2, v2)
  }

  lemma IndirectReady(v: Fs, b1: nat, v1: Fs)
    requires Sound(v) && (v.ip.addrs[NDIRECT] != 0 ==> b1 == 0 && v1 == v)
    requires v.ip.addrs[NDIRECT] == 0 ==> Step(v, NDIRECT, b1, v1)
    ensures FirstDone(v, b1, v1) && Sound(v1) && v1.ip.addrs[NDIRECT] != 0 && v1.sb == v.sb && v1.ip.inum == v.ip.inum
  {
    if v.ip.addrs[NDIRECT] == 0 {
      StepSound(v, NDIRECT, b1, v1);
      StepRef(v, NDIRECT, b1, v1);
    }
  }

  lemma EntryReady(v1: Fs, bn: nat, b2: nat, v2: Fs, addr: nat)
    requires Sound(v1) && SecondDone(v1, bn, b2, v2, addr)
    ensures Shaped(v2) && Ref(v2, v2.ip.inum, Slot(bn)) == addr && v2.sb == v1.sb && v2.ip.inum == v1.ip.inum
    ensures addr != 0 && (b2 == 0 <==> Ref(v1, v1.ip.inum, Slot(bn)) != 0)
  {
  }

  lemma StepsBmapped(v: Fs, bn: nat, b1: nat, v1: Fs, b2: nat, v2: Fs, addr: nat)
    requires Sound(v1) && v1.sb == v.sb && v1.ip.inum == v.ip.inum && NDIRECT <= bn < MAXFILE
    requires FirstDone(v, b1, v1) && SecondDone(v1, bn, b2, v2, addr)
    ensures Bmapped(v, bn, Mapping(b1, v1, b2), v2) && addr == Ref(v2, v2.ip.inum, Slot(bn))
    ensures Ref(v, v.ip.inum, Slot(bn)) != 0 ==> b1 == 0 && b2 == 0
  {
    EntryReady(v1, bn, b2, v2, addr);
  }

  lemma StepsLog(v: Fs, bn: nat, w: Mapping, l: set<nat>, l1: set<nat>, l2: set<nat>)
    requires LayoutOk(v.sb) && w.b1 < v.sb.size && w.b2 < v.sb.size && |w.v1.ip.addrs| == NDIRECT + 1 && NDIRECT <= bn
    requires l1 == l + (if w.b1 == 0 then {} else {BBlock(v.sb, w.b1), w.b1})
    requires l2 == l1 + if w.b2 == 0 then {} else {BBlock(v.sb, w.b2), w.b2} + {w.v1.ip.addrs[NDIRECT]}
    ensures l2 == l + MapLog(v, bn, w)
  {
  }

  lemma StepsDone(v: Fs, l: set<nat>, bn: nat, b1: nat, v1: Fs, l1: set<nat>, b2: nat, v2: Fs, l2: set<nat>, addr: nat)
    requires Sound(v1) && v1.sb == v.sb && v1.ip.inum == v.ip.inum && NDIRECT <= bn < MAXFILE
    requires FirstDone(v, b1, v1) && b1 < v.sb.size && l1 == l + (if b1 == 0 then {} else {BBlock(v.sb, b1), b1})
    requires SecondDone(v1, bn, b2, v2, addr) && b2 < v.sb.size
    requires l2 == l1 + if b2 == 0 then {} else {BBlock(v.sb, b2), b2} + {v1.ip.addrs[NDIRECT]}
    ensures StepsPost(v, l, bn, Mapping(b1, v1, b2), v2, l2, addr)
  {
    StepsBmapped(v, bn, b1, v1, b2, v2, addr);
    StepsLog(v, bn, Mapping(b1, v1, b2), l, l1, l2);
  }

  lemma MeansSound(v: Fs, m: Meaning, bn: nat)
    requires Means(v, m) && bn < MAXFILE
    ensures Sound(v)
    ensures HasBlock(v.sb, m.t, v.ip.inum, bn) <==> Ref(v, v.ip.inum, Slot(bn)) != 0
    ensures TableAt(m, v.ip.inum, Slot(bn)) == Ref(v, v.ip.inum, Slot(bn))
  {
    SlotIs(v, m, NDIRECT);
    SlotIs(v, m, Slot(bn));
  }
}
