/** One process's pages, each in a RAM frame or in a slot of its swap file, and
    the steps of vm.c that move them. The victim of an eviction is an argument,
    so what is proved here holds under every replacement policy. */
module Paging {
  const SLOTS := 16 // MAX_PSYC_PAGES
  const TOTAL := 32 // MAX_TOTAL_PAGES
  const PGSIZE := 4096
  const MAXFILEBYTES := 140 * 512 // MAXFILE * BSIZE

  /** What a page holds. */
  datatype Page = Page(bytes: seq<int>)

  function Filled(x: int): (p: Page) { Page(seq(PGSIZE, _ => x)) }

  /** `ram` and `disk` are memory_pg_arr and disk_pg_arr: the page number in
      each slot, -1 for none. `free` is kalloc's list, `swap` the swap file. */
  datatype Vm = Vm(
    ram: seq<int>, disk: seq<int>, pte: map<int, Pte>,
    frames: map<int, Page>, free: seq<int>, swap: seq<Page>)

  // Page-table entries -----------------------------------------------------------

  /** The bits of an entry that paging uses, and its physical address. */
  datatype Pte = Pte(present: bool, paged: bool, accessed: bool, frame: int)

  function Mapped(f: int): (p: Pte) {
    Pte(true, false, false, f)
  }

  function PagedIn(p: Pte, f: int): (r: Pte) {
    Pte(true, false, p.accessed, f)
  }

  function PagedOut(p: Pte): (r: Pte) {
    Pte(false, true, p.accessed, 0)
  }

  function Evicted(): (p: Pte) {
    Pte(false, true, false, 0)
  }

  function Unaccessed(p: Pte): (r: Pte) {
    Pte(p.present, p.paged, false, p.frame)
  }

  // Slot arrays ------------------------------------------------------------------

  /** The scan all of vm.c's slot loops make: first index holding `v`. */
  function Find(a: seq<int>, v: int): (i: nat)
    ensures i <= |a|
    ensures i < |a| ==> a[i] == v
    ensures forall j :: 0 <= j < i ==> a[j] != v
    ensures i < |a| <==> v in a
  {
    if a == [] || a[0] == v then 0 else 1 + Find(a[1..], v)
  }

  /** The slots of `a` in use hold the pages of `s`, each once. */
  ghost predicate Holds(a: seq<int>, s: set<int>) {
    && |a| == SLOTS
    && -1 !in s
    && (forall i, j :: 0 <= i < j < |a| && a[i] == a[j] ==> a[i] == -1)
    && (forall i :: 0 <= i < |a| && a[i] != -1 ==> a[i] in s)
    && forall x :: x in s ==> x in a
  }

  function Occupied(a: seq<int>): int {
    |a| - multiset(a)[-1]
  }

  lemma OccupiedUpdate(a: seq<int>, i: nat, v: int)
    requires i < |a|
    ensures Occupied(a[i := v]) == Occupied(a) + (if a[i] == -1 then 1 else 0) - (if v == -1 then 1 else 0)
  {
    assert multiset(a[i := v]) == multiset(a) - multiset{a[i]} + multiset{v};
  }

  lemma HoldsAdd(a: seq<int>, s: set<int>, i: nat, v: int)
    requires Holds(a, s) && i < SLOTS && a[i] == -1 && v !in s && v != -1
    ensures Holds(a[i := v], s + {v})
  {
    var b := a[i := v];
    forall x | x in s + {v} ensures x in b {
      if x == v { assert b[i] == v; }
      else { var j :| 0 <= j < |a| && a[j] == x; assert b[j] == x; }
    }
  }

  lemma HoldsRemove(a: seq<int>, s: set<int>, i: nat)
    requires Holds(a, s) && i < SLOTS && a[i] != -1
    ensures Holds(a[i := -1], s - {a[i]})
  {
    var b := a[i := -1];
    forall x | x in s - {a[i]} ensures x in b {
      var j :| 0 <= j < |a| && a[j] == x;
      assert b[j] == x;
    }
  }

  /** Overwriting a slot moves no other page. */
  lemma FindStable(a: seq<int>, s: set<int>, i: nat, y: int, x: int)
    requires Holds(a, s) && i < SLOTS && x in s && x != a[i] && x != y
    ensures Find(a[i := y], x) == Find(a, x)
  {
    var j := Find(a, x);
    assert a[i := y][j] == x;
    var k := Find(a[i := y], x);
    assert a[k] == x;
  }

  lemma SomeOf<T>(s: set<T>) returns (x: T)
    requires s != {}
    ensures x in s
  {
    x :| x in s;
  }

  /** The slot counters count pages. */
  lemma {:induction false} OccupiedIsCard(a: seq<int>, s: set<int>)
    requires Holds(a, s)
    ensures Occupied(a) == |s|
    decreases s
  {
    if s == {} {
      assert a == seq(SLOTS, _ => -1);
      AllFree(SLOTS);
    } else {
      var x := SomeOf(s);
      var i :| 0 <= i < |a| && a[i] == x;
      HoldsRemove(a, s, i);
      OccupiedIsCard(a[i := -1], s - {x});
      OccupiedUpdate(a, i, -1);
    }
  }

  lemma {:induction false} AllFree(n: nat)
    ensures multiset(seq(n, _ => -1))[-1] == n
  {
    if n > 0 {
      AllFree(n - 1);
      assert seq(n, _ => -1) == seq(n - 1, _ => -1) + [-1];
    }
  }

  // The swap file ----------------------------------------------------------------

  /** writeToSwapFile of one page at slot `i`: writei refuses to start past the
      end of the file or to pass the largest file size. */
  predicate SwapWritable(swap: seq<Page>, i: nat) {
    i <= |swap| && (i + 1) * PGSIZE <= MAXFILEBYTES
  }

  function SwapWritten(swap: seq<Page>, i: nat, p: Page): (r: seq<Page>)
    requires i <= |swap|
  {
    if i < |swap| then swap[i := p] else swap + [p]
  }

  // Invariant --------------------------------------------------------------------

  ghost function Present(pte: map<int, Pte>): set<int> {
    set v | v in pte && pte[v].present
  }

  ghost function Paged(pte: map<int, Pte>): set<int> {
    set v | v in pte && pte[v].paged
  }

  /** Every page is in exactly one of the two arrays, and its entry says which. */
  ghost predicate TablesOk(m: Vm) {
    && Holds(m.ram, Present(m.pte)) && Holds(m.disk, Paged(m.pte))
    && forall v :: v in m.pte ==> m.pte[v].present != m.pte[v].paged
  }

  /** Present pages have frames of their own, none of them on the free list. */
  ghost predicate FramesOk(m: Vm) {
    && (forall v :: v in m.pte && m.pte[v].present ==>
          m.pte[v].frame in m.frames && m.pte[v].frame !in m.free)
    && (forall u, v :: u in m.pte && v in m.pte && u != v && m.pte[u].present && m.pte[v].present ==>
          m.pte[u].frame != m.pte[v].frame)
    && (forall v :: v in m.pte && m.pte[v].paged ==> m.pte[v].frame == 0)
    && (forall f :: f in m.free ==> f in m.frames)
    && (forall i, j :: 0 <= i < j < |m.free| ==> m.free[i] != m.free[j])
  }

  /** Every slot in use lies inside the swap file. */
  predicate SwapOk(m: Vm) {
    && |m.disk| == SLOTS && |m.swap| <= SLOTS
    && forall i :: 0 <= i < SLOTS && m.disk[i] != -1 ==> i < |m.swap|
  }

  ghost predicate VmOk(m: Vm) {
    TablesOk(m) && FramesOk(m) && SwapOk(m)
  }

  ghost function PageOf(m: Vm, v: int): (p: Page)
    requires VmOk(m) && v in m.pte
  {
    if m.pte[v].present then m.frames[m.pte[v].frame] else m.swap[Find(m.disk, v)]
  }

  /** Flat memory: what each page holds, wherever it is kept. */
  ghost function Flat(m: Vm): (r: map<int, Page>)
    requires VmOk(m)
  {
    map v | v in m.pte :: PageOf(m, v)
  }

  lemma SameFlat(m: Vm, r: Vm)
    requires VmOk(m) && VmOk(r) && m.pte.Keys == r.pte.Keys
    requires forall v :: v in m.pte ==> PageOf(r, v) == PageOf(m, v)
    ensures Flat(r) == Flat(m)
  {
    assert Flat(r).Keys == Flat(m).Keys;
  }

  // Steps ------------------------------------------------------------------------

  /** The hardware sets the accessed bit; a policy or the clock clears it. */
  function Marked(m: Vm, v: int, a: bool): (r: Vm)
    requires v in m.pte
  {
    m.(pte := m.pte[v := m.pte[v].(accessed := a)])
  }

  /** User stores that leave a present page holding `p`. */
  function Stored(m: Vm, v: int, p: Page): (r: Vm)
    requires v in m.pte
  {
    m.(frames := m.frames[m.pte[v].frame := p])
  }

  predicate CanFault(m: Vm, v: int) {
    && v in m.pte && v in m.disk && m.free != [] && |m.ram| == SLOTS && |m.disk| == SLOTS
    && Find(m.disk, v) < |m.swap|
  }

  /** getPageFromFile with a free RAM slot: read the page in, free its slot. */
  function PageIn(m: Vm, v: int): (r: Vm)
    requires CanFault(m, v) && Find(m.ram, -1) < SLOTS
  {
    var f, s := m.free[0], Find(m.disk, v);
    m.(ram := m.ram[Find(m.ram, -1) := v], disk := m.disk[s := -1],
       pte := m.pte[v := PagedIn(m.pte[v], f)],
       frames := m.frames[f := m.swap[s]], free := m.free[1..])
  }

  predicate CanEvict(m: Vm, w: int) {
    && |m.ram| == SLOTS && |m.disk| == SLOTS && 0 <= w < SLOTS
    && m.ram[w] in m.pte && m.pte[m.ram[w]].frame in m.frames
  }

  /** The disk slot writePageToFile takes once page `v` has been read back. */
  function VacatedSlot(m: Vm, v: int): (i: nat)
    requires v in m.disk
  {
    Find(m.disk[Find(m.disk, v) := -1], -1)
  }

  /** getPageFromFile with RAM full: `w` is the slot the policy chose. The page
      is read into a buffer before the victim is written, since the victim may
      go to the very slot just vacated. */
  function PageSwap(m: Vm, v: int, w: int): (r: Vm)
    requires CanFault(m, v) && CanEvict(m, w) && VacatedSlot(m, v) <= |m.swap|
  {
    var u, f, s := m.ram[w], m.free[0], Find(m.disk, v);
    var ram1 := m.ram[w := -1];
    assert ram1[w] == -1;
    var disk1 := m.disk[s := -1];
    assert disk1[s] == -1;
    var was := m.pte[u].frame;
    var pte1 := m.pte[v := PagedIn(m.pte[v], f)];
    var frames1 := m.frames[f := m.swap[s]];
    var i := Find(disk1, -1);
    Vm(ram1[Find(ram1, -1) := v], disk1[i := u],
       pte1[u := PagedOut(pte1[u])],
       frames1[was := Filled(1)], [was] + m.free[1..],
       SwapWritten(m.swap, i, frames1[was]))
  }

  /** Map page `v` to frame `f`, zeroed, and enter it in the first free slot. */
  function AddPage(m: Vm, v: int, f: int): (r: Vm)
    requires |m.ram| == SLOTS && Find(m.ram, -1) < SLOTS
  {
    m.(ram := m.ram[Find(m.ram, -1) := v], pte := m.pte[v := Mapped(f)], frames := m.frames[f := Filled(0)])
  }

  /** moveram_to_disk and insert_to_disk: write slot `w`'s page out and free it. */
  function Evict(m: Vm, w: int): (r: Vm)
    requires CanEvict(m, w) && Find(m.disk, -1) < SLOTS && Find(m.disk, -1) <= |m.swap|
  {
    var u, i := m.ram[w], Find(m.disk, -1);
    var was := m.pte[u].frame;
    m.(ram := m.ram[w := -1], disk := m.disk[i := u], pte := m.pte[u := Evicted()],
       frames := m.frames[was := Filled(1)], free := [was] + m.free,
       swap := SwapWritten(m.swap, i, m.frames[was]))
  }

  predicate FullEnough(m: Vm) {
    |m.ram| == SLOTS && Find(m.ram, -1) == SLOTS
  }

  /** One page of allocuvm: the frame is taken first; with RAM full, slot `w` is
      then evicted to make room. */
  function Grow(m: Vm, v: int, w: int): (r: Vm)
    requires m.free != [] && |m.ram| == SLOTS
    requires FullEnough(m) ==> CanEvict(m, w) && Find(m.disk, -1) < SLOTS && Find(m.disk, -1) <= |m.swap|
  {
    var taken := m.(free := m.free[1..]);
    if FullEnough(m) then
      var e := Evict(taken, w);
      assert e.ram[w] == -1;
      AddPage(e, v, m.free[0])
    else AddPage(taken, v, m.free[0])
  }

  // First fit keeps swap writes legal ---------------------------------------------

  /** The first free slot is at most one past the last page in the file, and the
      file never grows past what the file system allows. */
  lemma FirstFitWritable(m: Vm)
    requires SwapOk(m) && Find(m.disk, -1) < SLOTS
    ensures SwapWritable(m.swap, Find(m.disk, -1))
  {
    var i := Find(m.disk, -1);
    if i > 0 {
      assert m.disk[i - 1] != -1;
    }
  }

  lemma VacatedWritable(m: Vm, v: int)
    requires SwapOk(m) && v in m.disk && v != -1
    ensures SwapWritable(m.swap, VacatedSlot(m, v))
  {
    var s := Find(m.disk, v);
    assert m.disk[s := -1][s] == -1;
    FirstFitWritable(m.(disk := m.disk[s := -1]));
  }

  // Steps keep the invariant and flat memory ---------------------------------------

  lemma MarkedOk(m: Vm, v: int, a: bool)
    requires VmOk(m) && v in m.pte
    ensures VmOk(Marked(m, v, a)) && Flat(Marked(m, v, a)) == Flat(m)
  {
    var r := Marked(m, v, a);
    assert Present(r.pte) == Present(m.pte);
    assert Paged(r.pte) == Paged(m.pte);
    assert TablesOk(r);
    SameFlat(m, r);
  }

  lemma StoredOk(m: Vm, v: int, p: Page)
    requires VmOk(m) && v in m.pte && m.pte[v].present
    ensures VmOk(Stored(m, v, p))
    ensures Flat(Stored(m, v, p)) == Flat(m)[v := p]
  {
    var r := Stored(m, v, p);
    forall x | x in m.pte ensures PageOf(r, x) == if x == v then p else PageOf(m, x) {
    }
    assert Flat(r).Keys == m.pte.Keys;
  }

  lemma PageInTables(m: Vm, v: int)
    requires VmOk(m) && CanFault(m, v) && Find(m.ram, -1) < SLOTS
    ensures TablesOk(PageIn(m, v))
  {
    var r := PageIn(m, v);
    HoldsAdd(m.ram, Present(m.pte), Find(m.ram, -1), v);
    HoldsRemove(m.disk, Paged(m.pte), Find(m.disk, v));
    assert Present(r.pte) == Present(m.pte) + {v};
    assert Paged(r.pte) == Paged(m.pte) - {v};
  }

  lemma PageInFrames(m: Vm, v: int)
    requires VmOk(m) && CanFault(m, v) && Find(m.ram, -1) < SLOTS
    ensures FramesOk(PageIn(m, v))
  {
  }

  lemma PageInOk(m: Vm, v: int)
    requires VmOk(m) && CanFault(m, v) && Find(m.ram, -1) < SLOTS
    ensures VmOk(PageIn(m, v)) && Flat(PageIn(m, v)) == Flat(m)
  {
    var r := PageIn(m, v);
    PageInTables(m, v);
    PageInFrames(m, v);
    forall x | x in m.pte ensures PageOf(r, x) == PageOf(m, x) {
      if m.pte[x].paged && x != v {
        FindStable(m.disk, Paged(m.pte), Find(m.disk, v), -1, x);
      }
    }
    SameFlat(m, r);
  }

  // A fault with RAM full ------------------------------------------------------------

  ghost predicate SwapFault(m: Vm, v: int, w: int) {
    VmOk(m) && CanFault(m, v) && v != -1 && CanEvict(m, w) && Find(m.ram, -1) == SLOTS
  }

  lemma SwapFaultFacts(m: Vm, v: int, w: int)
    requires SwapFault(m, v, w)
    ensures v in Paged(m.pte) && m.ram[w] in Present(m.pte) && m.ram[w] != v
    ensures VacatedSlot(m, v) < SLOTS && SwapWritable(m.swap, VacatedSlot(m, v))
    ensures Find(m.ram[w := -1], -1) == w
  {
    VacatedWritable(m, v);
    var s := Find(m.disk, v);
    assert m.disk[s := -1][s] == -1;
    var ram1 := m.ram[w := -1];
    assert ram1[w] == -1;
    assert forall j :: 0 <= j < SLOTS && j != w ==> ram1[j] == m.ram[j];
  }

  lemma PageSwapTables(m: Vm, v: int, w: int)
    requires SwapFault(m, v, w) && VacatedSlot(m, v) <= |m.swap|
    ensures TablesOk(PageSwap(m, v, w))
  {
    SwapFaultFacts(m, v, w);
    var r, u, s := PageSwap(m, v, w), m.ram[w], Find(m.disk, v);
    HoldsRemove(m.ram, Present(m.pte), w);
    HoldsAdd(m.ram[w := -1], Present(m.pte) - {u}, w, v);
    HoldsRemove(m.disk, Paged(m.pte), s);
    HoldsAdd(m.disk[s := -1], Paged(m.pte) - {v}, VacatedSlot(m, v), u);
    assert Present(r.pte) == Present(m.pte) - {u} + {v};
    assert Paged(r.pte) == Paged(m.pte) - {v} + {u};
  }

  lemma PageSwapFrames(m: Vm, v: int, w: int)
    requires SwapFault(m, v, w) && VacatedSlot(m, v) <= |m.swap|
    ensures FramesOk(PageSwap(m, v, w))
  {
    SwapFaultFacts(m, v, w);
  }

  /** The victim goes to swap and the faulting page to RAM; no page changes,
      not even when the victim takes the slot the faulting page just left. */
  lemma PageSwapOk(m: Vm, v: int, w: int)
    requires SwapFault(m, v, w) && VacatedSlot(m, v) <= |m.swap|
    ensures VmOk(PageSwap(m, v, w)) && Flat(PageSwap(m, v, w)) == Flat(m)
  {
    SwapFaultFacts(m, v, w);
    PageSwapTables(m, v, w);
    PageSwapFrames(m, v, w);
    assert SwapOk(PageSwap(m, v, w));
    PageSwapFlat(m, v, w);
  }

  lemma PageSwapFlat(m: Vm, v: int, w: int)
    requires SwapFault(m, v, w) && VacatedSlot(m, v) <= |m.swap| && VmOk(PageSwap(m, v, w))
    ensures Flat(PageSwap(m, v, w)) == Flat(m)
  {
    SwapFaultFacts(m, v, w);
    var r, u, s, i := PageSwap(m, v, w), m.ram[w], Find(m.disk, v), VacatedSlot(m, v);
    HoldsRemove(m.disk, Paged(m.pte), s);
    forall x | x in m.pte ensures PageOf(r, x) == PageOf(m, x) {
      if x == u {
        assert r.disk[i] == u;
        assert Find(r.disk, u) == i;
      } else if x != v && m.pte[x].paged {
        FindStable(m.disk, Paged(m.pte), s, -1, x);
        FindStable(m.disk[s := -1], Paged(m.pte) - {v}, i, u, x);
        assert Find(m.disk, x) != i;
      }
    }
    SameFlat(m, r);
  }

  // Growth ---------------------------------------------------------------------------

  ghost predicate Unused(m: Vm, f: int) {
    f !in m.free && forall v :: v in m.pte && m.pte[v].present ==> m.pte[v].frame != f
  }

  lemma AddPageTables(m: Vm, v: int, f: int)
    requires VmOk(m) && v !in m.pte && v != -1 && Find(m.ram, -1) < SLOTS && Unused(m, f)
    ensures TablesOk(AddPage(m, v, f)) && FramesOk(AddPage(m, v, f))
  {
    var r := AddPage(m, v, f);
    HoldsAdd(m.ram, Present(m.pte), Find(m.ram, -1), v);
    assert Present(r.pte) == Present(m.pte) + {v};
    assert Paged(r.pte) == Paged(m.pte);
  }

  lemma AddedPage(m: Vm, v: int, f: int, x: int)
    requires VmOk(m) && v !in m.pte && Find(m.ram, -1) < SLOTS && Unused(m, f) && VmOk(AddPage(m, v, f)) && x in m.pte
    ensures PageOf(AddPage(m, v, f), x) == PageOf(m, x)
  {
    hide Find;
  }

  lemma AddPageFlat(m: Vm, v: int, f: int)
    requires VmOk(m) && v !in m.pte && |m.ram| == SLOTS && Find(m.ram, -1) < SLOTS && Unused(m, f)
    requires VmOk(AddPage(m, v, f))
    ensures Flat(AddPage(m, v, f)) == Flat(m)[v := Filled(0)]
  {
    hide TablesOk, FramesOk, SwapOk, Find;
    var r := AddPage(m, v, f);
    forall x | x in m.pte ensures PageOf(r, x) == PageOf(m, x) {
      AddedPage(m, v, f, x);
    }
    assert Flat(r).Keys == m.pte.Keys + {v};
  }

  lemma AddPageOk(m: Vm, v: int, f: int)
    requires VmOk(m) && v !in m.pte && v != -1 && Find(m.ram, -1) < SLOTS && Unused(m, f)
    ensures VmOk(AddPage(m, v, f)) && Flat(AddPage(m, v, f)) == Flat(m)[v := Filled(0)]
  {
    AddPageTables(m, v, f);
    AddPageFlat(m, v, f);
  }

  lemma EvictTables(m: Vm, w: int)
    requires VmOk(m) && CanEvict(m, w) && m.ram[w] != -1 && Find(m.disk, -1) < SLOTS && Find(m.disk, -1) <= |m.swap|
    ensures TablesOk(Evict(m, w))
  {
    var r, u := Evict(m, w), m.ram[w];
    HoldsRemove(m.ram, Present(m.pte), w);
    HoldsAdd(m.disk, Paged(m.pte), Find(m.disk, -1), u);
    assert Present(r.pte) == Present(m.pte) - {u};
    assert Paged(r.pte) == Paged(m.pte) + {u};
  }

  lemma EvictOk(m: Vm, w: int)
    requires VmOk(m) && CanEvict(m, w) && m.ram[w] != -1 && Find(m.disk, -1) < SLOTS && Find(m.disk, -1) <= |m.swap|
    ensures VmOk(Evict(m, w)) && Flat(Evict(m, w)) == Flat(m)
  {
    var r, u, i := Evict(m, w), m.ram[w], Find(m.disk, -1);
    EvictTables(m, w);
    assert FramesOk(r);
    assert SwapOk(r);
    forall x | x in m.pte ensures PageOf(r, x) == PageOf(m, x) {
      if x == u {
        assert r.disk[i] == u;
        assert Find(r.disk, u) == i;
      } else if m.pte[x].paged {
        FindStable(m.disk, Paged(m.pte), i, u, x);
        assert Find(m.disk, x) != i;
      }
    }
    SameFlat(m, r);
  }

  lemma GrowOk(m: Vm, v: int, w: int)
    requires VmOk(m) && v !in m.pte && v != -1 && m.free != []
    requires FullEnough(m) ==> CanEvict(m, w) && Find(m.disk, -1) < SLOTS && Find(m.disk, -1) <= |m.swap|
    ensures VmOk(Grow(m, v, w)) && Flat(Grow(m, v, w)) == Flat(m)[v := Filled(0)]
  {
    var taken := m.(free := m.free[1..]);
    assert Unused(taken, m.free[0]);
    assert VmOk(taken);
    SameFlat(m, taken);
    if FullEnough(m) {
      EvictOk(taken, w);
      var e := Evict(taken, w);
      assert e.ram[w] == -1;
      assert Unused(e, m.free[0]);
      AddPageOk(e, v, m.free[0]);
    } else {
      AddPageOk(taken, v, m.free[0]);
    }
  }

  // Frames ----------------------------------------------------------------------------

  predicate Uses(m: Vm, v: int, f: int) {
    v in m.pte && m.pte[v].present && m.pte[v].frame == f
  }

  /** Frame `f` is on the free list or some page's. */
  ghost predicate Held(m: Vm, f: int) {
    f in m.free || exists v :: Uses(m, v, f)
  }

  /** No frame got lost and none appeared. */
  ghost predicate Conserves(m: Vm, r: Vm) {
    && (forall f :: Held(r, f) <==> Held(m, f))
    && |r.free| + |Present(r.pte)| == |m.free| + |Present(m.pte)|
  }

  lemma HeldUse(m: Vm, f: int, v: int)
    requires Uses(m, v, f)
    ensures Held(m, f)
  {
  }

  /** Page `v` takes the first free frame. */
  lemma TakeFrame(m: Vm, r: Vm, v: int)
    requires m.free != [] && r.free == m.free[1..] && Uses(r, v, m.free[0]) && !(v in m.pte && m.pte[v].present)
    requires forall x :: x != v ==> (x in r.pte && r.pte[x].present <==> x in m.pte && m.pte[x].present)
    requires forall x :: x != v && x in m.pte && m.pte[x].present ==> r.pte[x].frame == m.pte[x].frame
    ensures Conserves(m, r)
  {
    assert m.free == [m.free[0]] + m.free[1..];
    forall f ensures Held(r, f) <==> Held(m, f) {
      if x :| Uses(m, x, f) {
        assert Uses(r, x, f);
      }
      if x :| Uses(r, x, f) {
        assert x == v || Uses(m, x, f);
      }
    }
    forall x ensures x in Present(r.pte) <==> x in Present(m.pte) + {v} {
      assert x in r.pte && r.pte[x].present <==> x == v || (x in m.pte && m.pte[x].present);
    }
    assert Present(r.pte) == Present(m.pte) + {v};
  }

  /** Page `u` gives its frame back. */
  lemma GiveFrame(m: Vm, r: Vm, u: int)
    requires u in m.pte && m.pte[u].present && r.free == [m.pte[u].frame] + m.free && !(u in r.pte && r.pte[u].present)
    requires forall x :: x != u ==> (x in r.pte && r.pte[x].present <==> x in m.pte && m.pte[x].present)
    requires forall x :: x != u && x in m.pte && m.pte[x].present ==> r.pte[x].frame == m.pte[x].frame
    ensures Conserves(m, r)
  {
    forall f ensures Held(r, f) <==> Held(m, f) {
      if x :| Uses(m, x, f) {
        assert x == u || Uses(r, x, f);
      }
      if x :| Uses(r, x, f) {
        assert Uses(m, x, f);
      }
      if f == m.pte[u].frame {
        HeldUse(m, f, u);
      }
    }
    forall x ensures x in Present(r.pte) <==> x in Present(m.pte) - {u} {
      assert x in r.pte && r.pte[x].present <==> x != u && x in m.pte && m.pte[x].present;
    }
    assert Present(r.pte) == Present(m.pte) - {u};
  }

  lemma ConservesTwice(a: Vm, b: Vm, c: Vm)
    requires Conserves(a, b) && Conserves(b, c)
    ensures Conserves(a, c)
  {
  }

  lemma ConservesSame(m: Vm, r: Vm)
    requires r.free == m.free && r.pte.Keys == m.pte.Keys
    requires forall x :: x in m.pte ==> r.pte[x].present == m.pte[x].present && r.pte[x].frame == m.pte[x].frame
    ensures Conserves(m, r)
  {
    forall f ensures Held(r, f) <==> Held(m, f) {
      if x :| Uses(m, x, f) {
        assert Uses(r, x, f);
      }
      if x :| Uses(r, x, f) {
        assert Uses(m, x, f);
      }
    }
    forall x ensures x in Present(r.pte) <==> x in Present(m.pte) {
      assert x in r.pte.Keys <==> x in m.pte.Keys;
    }
    assert Present(r.pte) == Present(m.pte);
  }

  /** A fault with memory full: the victim's frame is freed, a free one is taken. */
  lemma SwapConserves(m: Vm, v: int, w: int)
    requires SwapFault(m, v, w) && VacatedSlot(m, v) <= |m.swap|
    ensures Conserves(m, PageSwap(m, v, w))
  {
    SwapFaultFacts(m, v, w);
    var r, u := PageSwap(m, v, w), m.ram[w];
    var x := m.(pte := m.pte[v := PagedIn(m.pte[v], m.free[0])], free := m.free[1..]);
    TakeFrame(m, x, v);
    GiveFrame(x, r, u);
    ConservesTwice(m, x, r);
  }

  lemma GrowConserves(m: Vm, v: int, w: int)
    requires VmOk(m) && v !in m.pte && m.free != []
    requires FullEnough(m) ==> CanEvict(m, w) && m.ram[w] != -1
    requires FullEnough(m) ==> Find(m.disk, -1) < SLOTS && Find(m.disk, -1) <= |m.swap|
    ensures Conserves(m, Grow(m, v, w))
  {
    var r := Grow(m, v, w);
    if FullEnough(m) {
      var u := m.ram[w];
      assert u in Present(m.pte);
      var x := m.(pte := m.pte[v := Mapped(m.free[0])], free := m.free[1..]);
      TakeFrame(m, x, v);
      GiveFrame(x, r, u);
      ConservesTwice(m, x, r);
    } else {
      TakeFrame(m, r, v);
    }
  }

  // Shrinking --------------------------------------------------------------------------

  predicate CanDrop(m: Vm, v: int) {
    v in m.pte && if m.pte[v].present then v in m.ram else v in m.disk
  }

  /** A turn of deallocuvm's loop, where the policy keeps no list: the page's
      frame or swap slot is free again and its entry gone. */
  function Drop(m: Vm, v: int): (r: Vm)
    requires CanDrop(m, v)
  {
    var f := m.pte[v].frame;
    if m.pte[v].present then
      m.(ram := m.ram[Find(m.ram, v) := -1], pte := m.pte - {v},
         frames := m.frames[f := Filled(1)], free := [f] + m.free)
    else m.(disk := m.disk[Find(m.disk, v) := -1], pte := m.pte - {v})
  }

  lemma DropReady(m: Vm, v: int)
    requires VmOk(m) && v in m.pte
    ensures CanDrop(m, v) && v != -1
  {
    assert v in Present(m.pte) || v in Paged(m.pte);
  }

  lemma DropTables(m: Vm, v: int)
    requires VmOk(m) && CanDrop(m, v) && v != -1
    ensures TablesOk(Drop(m, v))
  {
    var r := Drop(m, v);
    if m.pte[v].present {
      HoldsRemove(m.ram, Present(m.pte), Find(m.ram, v));
      assert Present(r.pte) == Present(m.pte) - {v};
      assert Paged(r.pte) == Paged(m.pte);
    } else {
      HoldsRemove(m.disk, Paged(m.pte), Find(m.disk, v));
      assert Paged(r.pte) == Paged(m.pte) - {v};
      assert Present(r.pte) == Present(m.pte);
    }
  }

  /** One page less, and no other page changed. */
  lemma DropOk(m: Vm, v: int)
    requires VmOk(m) && v in m.pte
    ensures CanDrop(m, v) && VmOk(Drop(m, v)) && Flat(Drop(m, v)) == Flat(m) - {v} && Conserves(m, Drop(m, v))
  {
    DropReady(m, v);
    DropConserves(m, v);
    DropTables(m, v);
    DropFrames(m, v);
    DropFlat(m, v);
  }

  lemma DropConserves(m: Vm, v: int)
    requires VmOk(m) && CanDrop(m, v)
    ensures Conserves(m, Drop(m, v))
  {
    hide Find;
    var r := Drop(m, v);
    if m.pte[v].present {
      GiveFrame(m, r, v);
    } else {
      forall f ensures Held(r, f) <==> Held(m, f) {
        if x :| Uses(m, x, f) {
          assert Uses(r, x, f);
        }
        if x :| Uses(r, x, f) {
          assert Uses(m, x, f);
        }
      }
      forall x ensures x in Present(r.pte) <==> x in Present(m.pte) {
        assert x in r.pte <==> x in m.pte && x != v;
      }
      assert Present(r.pte) == Present(m.pte);
    }
  }

  lemma DropFrames(m: Vm, v: int)
    requires VmOk(m) && CanDrop(m, v)
    ensures FramesOk(Drop(m, v)) && SwapOk(Drop(m, v))
  {
    hide TablesOk, Find;
  }

  lemma DropPage(m: Vm, v: int, x: int)
    requires VmOk(m) && CanDrop(m, v) && VmOk(Drop(m, v)) && x in m.pte && x != v
    ensures x in Drop(m, v).pte && PageOf(Drop(m, v), x) == PageOf(m, x)
  {
    hide Find;
    if m.pte[x].paged && !m.pte[v].present {
      FindStable(m.disk, Paged(m.pte), Find(m.disk, v), -1, x);
    }
  }

  lemma DropFlat(m: Vm, v: int)
    requires VmOk(m) && CanDrop(m, v) && VmOk(Drop(m, v))
    ensures Flat(Drop(m, v)) == Flat(m) - {v}
  {
    hide TablesOk, FramesOk, SwapOk, PageOf, Find;
    var r := Drop(m, v);
    forall x | x in m.pte && x != v ensures x in r.pte && PageOf(r, x) == PageOf(m, x) {
      DropPage(m, v, x);
    }
    assert Flat(r).Keys == (Flat(m) - {v}).Keys;
  }

  /** The pages below `lo`, and from `hi` on. */
  function Without(f: map<int, Page>, lo: int, hi: int): (r: map<int, Page>) {
    map x | x in f && !(lo <= x < hi) :: f[x]
  }

  /** deallocuvm: pages `lo` to `hi`, from below. */
  ghost function Shrunk(m: Vm, lo: int, hi: int): (r: Vm)
    requires VmOk(m) && forall v :: lo <= v < hi ==> v in m.pte
    ensures VmOk(r) && forall v :: v in r.pte <==> v in m.pte && !(lo <= v < hi)
    decreases hi - lo
  {
    if hi <= lo then m
    else
      var p := Shrunk(m, lo, hi - 1);
      DropOk(p, hi - 1);
      Drop(p, hi - 1)
  }

  /** It removes those pages and no others, and loses no frame. */
  lemma {:induction false} ShrunkOk(m: Vm, lo: int, hi: int)
    requires VmOk(m) && forall v :: lo <= v < hi ==> v in m.pte
    ensures Flat(Shrunk(m, lo, hi)) == Without(Flat(m), lo, hi) && Conserves(m, Shrunk(m, lo, hi))
    decreases hi - lo
  {
    hide VmOk, Flat, Conserves, Without;
    if hi <= lo {
      ShrunkNone(m, lo, hi);
      ConservesSame(m, m);
    } else {
      var p := Shrunk(m, lo, hi - 1);
      ShrunkOk(m, lo, hi - 1);
      DropOk(p, hi - 1);
      ShrunkOne(Flat(m), lo, hi);
      ConservesTwice(m, p, Drop(p, hi - 1));
    }
  }

  lemma ShrunkNone(m: Vm, lo: int, hi: int)
    requires VmOk(m) && hi <= lo
    ensures Flat(m) == Without(Flat(m), lo, hi)
  {
  }

  lemma ShrunkOne(f: map<int, Page>, lo: int, hi: int)
    requires lo < hi
    ensures Without(f, lo, hi - 1) - {hi - 1} == Without(f, lo, hi)
  {
  }

  // Runs -------------------------------------------------------------------------------

  /** What can happen to a process; `w` is the slot its policy picks if RAM is full. */
  datatype Event =
    | Fault(v: int, w: int)
    | Alloc(w: int)
    | Shrink(n: nat)
    | Store(v: int, p: Page)
    | Mark(v: int, a: bool)

  /** The state allocproc sets up. */
  function Fresh(frames: map<int, Page>, free: seq<int>): (m: Vm) {
    Vm(seq(SLOTS, _ => -1), seq(SLOTS, _ => -1), map[], frames, free, [])
  }

  ghost predicate RunOk(m: Vm) {
    VmOk(m) && (forall v :: v in m.pte <==> 0 <= v < |m.pte|) && |m.pte| <= TOTAL
  }

  /** kalloc finds a frame; a fault is on a swapped-out page; allocuvm has
      checked the size limit; only present pages are stored to. Shrinking is to
      `n` pages, and nothing if there are no more. */
  predicate CanHappen(m: Vm, e: Event) {
    match e
    case Fault(v, w) => v in m.pte && m.pte[v].paged && m.free != [] && 0 <= w < SLOTS
    case Alloc(w) => |m.pte| < TOTAL && m.free != [] && 0 <= w < SLOTS
    case Shrink(n) => forall v :: n <= v < |m.pte| ==> v in m.pte
    case Store(v, p) => v in m.pte && m.pte[v].present
    case Mark(v, a) => v in m.pte
  }

  lemma VictimReady(m: Vm, w: int)
    requires VmOk(m) && FullEnough(m) && 0 <= w < SLOTS
    ensures CanEvict(m, w) && m.ram[w] != -1
  {
    assert m.ram[w] in Present(m.pte);
  }

  lemma Partition<T, U>(m: map<T, U>, a: set<T>, b: set<T>)
    requires forall x :: x in a || x in b ==> x in m
    requires forall x :: x in m ==> (x in a <==> x !in b)
    ensures |a| + |b| == |m|
  {
    assert a + b == m.Keys;
    assert a !! b;
    assert |m| == |m.Keys|;
  }

  /** Slot counters are page counts, so RAM and swap cannot both be full while
      the process is below MAX_TOTAL_PAGES: allocuvm's panic is unreachable. */
  lemma Accounting(m: Vm)
    requires VmOk(m)
    ensures Occupied(m.ram) == |Present(m.pte)| && Occupied(m.disk) == |Paged(m.pte)|
    ensures Occupied(m.ram) + Occupied(m.disk) == |m.pte|
    ensures |m.pte| < TOTAL && FullEnough(m) ==> Occupied(m.disk) < SLOTS && Find(m.disk, -1) < SLOTS
  {
    OccupiedIsCard(m.ram, Present(m.pte));
    OccupiedIsCard(m.disk, Paged(m.pte));
    forall v | v in m.pte ensures v in Present(m.pte) <==> v !in Paged(m.pte) {
      assert m.pte[v].present != m.pte[v].paged;
    }
    Partition(m.pte, Present(m.pte), Paged(m.pte));
  }

  lemma FaultReady(m: Vm, v: int)
    requires VmOk(m) && v in m.pte && m.pte[v].paged && m.free != []
    ensures CanFault(m, v) && v != -1
    ensures VacatedSlot(m, v) < SLOTS && VacatedSlot(m, v) <= |m.swap|
  {
    assert v in Paged(m.pte);
    VacatedWritable(m, v);
    assert m.disk[Find(m.disk, v) := -1][Find(m.disk, v)] == -1;
  }

  lemma GrowReady(m: Vm, w: int)
    requires VmOk(m) && |m.pte| < TOTAL && 0 <= w < SLOTS
    ensures FullEnough(m) ==> CanEvict(m, w) && Find(m.disk, -1) < SLOTS && Find(m.disk, -1) <= |m.swap|
  {
    if FullEnough(m) {
      VictimReady(m, w);
      Accounting(m);
      FirstFitWritable(m);
    }
  }

  ghost function Happened(m: Vm, e: Event): (r: Vm)
    requires VmOk(m) && CanHappen(m, e)
  {
    match e
    case Fault(v, w) =>
      FaultReady(m, v);
      if FullEnough(m) then VictimReady(m, w); PageSwap(m, v, w) else PageIn(m, v)
    case Alloc(w) => GrowReady(m, w); Grow(m, |m.pte|, w)
    case Shrink(n) => Shrunk(m, n, |m.pte|)
    case Store(v, p) => Stored(m, v, p)
    case Mark(v, a) => Marked(m, v, a)
  }

  /** The same events on a plain map of pages, with no frames and no swap. */
  function FlatStep(f: map<int, Page>, e: Event): (r: map<int, Page>) {
    match e
    case Fault(_, _) => f
    case Alloc(_) => f[|f| := Filled(0)]
    case Shrink(n) => Without(f, n, |f|)
    case Store(v, p) => f[v := p]
    case Mark(_, _) => f
  }

  lemma SamePages(m: Vm, r: Vm)
    requires RunOk(m) && VmOk(r) && r.pte.Keys == m.pte.Keys
    ensures RunOk(r)
  {
    assert |r.pte| == |r.pte.Keys| && |m.pte| == |m.pte.Keys|;
    assert forall v :: v in r.pte <==> v in m.pte.Keys;
  }

  lemma FaultHappened(m: Vm, e: Event)
    requires RunOk(m) && CanHappen(m, e) && e.Fault?
    ensures RunOk(Happened(m, e)) && Flat(Happened(m, e)) == Flat(m)
  {
    var r := Happened(m, e);
    FaultReady(m, e.v);
    if FullEnough(m) {
      VictimReady(m, e.w);
      PageSwapOk(m, e.v, e.w);
      assert m.ram[e.w] in Present(m.pte);
    } else {
      PageInOk(m, e.v);
    }
    assert r.pte.Keys == m.pte.Keys;
    SamePages(m, r);
  }

  lemma KeysGrow<U>(a: map<int, U>, b: map<int, U>)
    requires forall v :: v in a <==> 0 <= v < |a|
    requires b.Keys == a.Keys + {|a|}
    ensures |b| == |a| + 1 && forall v :: v in b <==> 0 <= v < |b|
  {
    assert |a| !in a;
    assert |b| == |b.Keys| && |a| == |a.Keys|;
    assert forall v :: v in b <==> v in a.Keys + {|a|};
  }

  lemma FlatSize(m: Vm)
    requires VmOk(m)
    ensures |Flat(m)| == |m.pte|
  {
    assert Flat(m).Keys == m.pte.Keys;
    assert |Flat(m)| == |Flat(m).Keys| && |m.pte| == |m.pte.Keys|;
  }

  lemma GrowKeys(m: Vm, v: int, w: int)
    requires VmOk(m) && v !in m.pte && v != -1 && m.free != []
    requires FullEnough(m) ==> CanEvict(m, w) && Find(m.disk, -1) < SLOTS && Find(m.disk, -1) <= |m.swap|
    ensures Grow(m, v, w).pte.Keys == m.pte.Keys + {v}
  {
    if FullEnough(m) {
      assert m.ram[w] in m.pte;
    }
  }

  lemma AllocHappened(m: Vm, e: Event)
    requires RunOk(m) && CanHappen(m, e) && e.Alloc?
    ensures RunOk(Happened(m, e)) && Flat(Happened(m, e)) == Flat(m)[|Flat(m)| := Filled(0)]
  {
    var n := |m.pte|;
    assert n !in m.pte;
    GrowReady(m, e.w);
    GrowOk(m, n, e.w);
    GrowKeys(m, n, e.w);
    KeysGrow(m.pte, Grow(m, n, e.w).pte);
    FlatSize(m);
  }

  lemma KeysBelow<U>(b: map<int, U>, n: nat)
    requires forall v :: v in b <==> 0 <= v < n
    ensures |b| == n
  {
    FirstNumbers(b.Keys, n);
  }

  lemma {:induction false} FirstNumbers(s: set<int>, n: nat)
    requires forall v :: v in s <==> 0 <= v < n
    ensures |s| == n
  {
    if n > 0 {
      FirstNumbers(s - {n - 1}, n - 1);
    } else {
      assert forall v :: v !in s;
      assert s == {};
    }
  }

  lemma ShrinkHappened(m: Vm, e: Event)
    requires RunOk(m) && CanHappen(m, e) && e.Shrink?
    ensures RunOk(Happened(m, e)) && Flat(Happened(m, e)) == Without(Flat(m), e.n, |Flat(m)|)
  {
    hide TablesOk, FramesOk, SwapOk, Flat;
    ShrunkOk(m, e.n, |m.pte|);
    var r := Happened(m, e);
    KeysBelow(r.pte, if e.n < |m.pte| then e.n else |m.pte|);
    FlatSize(m);
  }

  lemma HappenedOk(m: Vm, e: Event)
    requires RunOk(m) && CanHappen(m, e)
    ensures RunOk(Happened(m, e)) && Flat(Happened(m, e)) == FlatStep(Flat(m), e)
  {
    match e
    case Fault(v, w) => FaultHappened(m, e);
    case Alloc(w) => AllocHappened(m, e);
    case Shrink(n) => ShrinkHappened(m, e);
    case Store(v, p) => StoredOk(m, v, p);
    case Mark(v, a) =>
      MarkedOk(m, v, a);
      assert Marked(m, v, a).pte.Keys == m.pte.Keys;
      SamePages(m, Marked(m, v, a));
  }

  lemma HappenedConserves(m: Vm, e: Event)
    requires RunOk(m) && CanHappen(m, e)
    ensures Conserves(m, Happened(m, e))
  {
    hide Conserves;
    match e
    case Fault(v, w) =>
      FaultReady(m, v);
      if FullEnough(m) {
        VictimReady(m, w);
        SwapConserves(m, v, w);
      } else {
        TakeFrame(m, PageIn(m, v), v);
      }
    case Alloc(w) =>
      assert |m.pte| !in m.pte;
      GrowReady(m, w);
      if FullEnough(m) {
        VictimReady(m, w);
      }
      GrowConserves(m, |m.pte|, w);
    case Shrink(n) => ShrunkOk(m, n, |m.pte|);
    case Store(v, p) => ConservesSame(m, Stored(m, v, p));
    case Mark(v, a) => ConservesSame(m, Marked(m, v, a));
  }

  /** A run of one process: states linked by events that can happen. */
  ghost predicate IsRun(ms: seq<Vm>, es: seq<Event>, frames: map<int, Page>, free: seq<int>) {
    && (forall f :: f in free ==> f in frames)
    && (forall i, j :: 0 <= i < j < |free| ==> free[i] != free[j])
    && |ms| == |es| + 1 && ms[0] == Fresh(frames, free)
    && forall i :: 0 <= i < |es| ==> Linked(ms[i], es[i], ms[i + 1])
  }

  ghost predicate Linked(m: Vm, e: Event, r: Vm) {
    VmOk(m) && CanHappen(m, e) && r == Happened(m, e)
  }

  function FlatRun(es: seq<Event>): (f: map<int, Page>) {
    if es == [] then map[] else FlatStep(FlatRun(es[..|es| - 1]), es[|es| - 1])
  }

  /** Runs exist, for every pool of distinct frames, and go on with every event that can happen. */
  lemma RunsExtend(ms: seq<Vm>, es: seq<Event>, frames: map<int, Page>, free: seq<int>, e: Event)
    requires IsRun(ms, es, frames, free) && CanHappen(ms[|es|], e)
    ensures IsRun([Fresh(frames, free)], [], frames, free)
    ensures exists m :: IsRun(ms + [m], es + [e], frames, free)
  {
    SwapRefinesFlat(ms, es, frames, free);
    var m := Happened(ms[|es|], e);
    assert IsRun(ms + [m], es + [e], frames, free);
  }

  /** Swap refines flat memory: after any run, under any choice of victims, each
      page holds what the user last stored there, zeros at first. The counters
      account for every page and at most MAX_TOTAL_PAGES exist. */
  lemma {:induction false} SwapRefinesFlat(ms: seq<Vm>, es: seq<Event>, frames: map<int, Page>, free: seq<int>)
    requires IsRun(ms, es, frames, free)
    ensures RunOk(ms[|es|])
    ensures Flat(ms[|es|]) == FlatRun(es)
    ensures Occupied(ms[|es|].ram) + Occupied(ms[|es|].disk) == |ms[|es|].pte| <= TOTAL
    decreases |es|
  {
    if es == [] {
      assert VmOk(ms[0]);
    } else {
      var n := |es| - 1;
      SwapRefinesFlat(ms[..|es|], es[..n], frames, free);
      assert Linked(ms[n], es[n], ms[n + 1]);
      HappenedOk(ms[n], es[n]);
    }
    Accounting(ms[|es|]);
  }

  /** Over every run the frames free and in use are those the process began with. */
  lemma {:induction false} FramesConserved(ms: seq<Vm>, es: seq<Event>, frames: map<int, Page>, free: seq<int>)
    requires IsRun(ms, es, frames, free)
    ensures forall f :: Held(ms[|es|], f) <==> f in free
    ensures |ms[|es|].free| + |Present(ms[|es|].pte)| == |free|
    decreases |es|
  {
    if es == [] {
      assert Present(ms[0].pte) == {};
    } else {
      var n := |es| - 1;
      SwapRefinesFlat(ms[..|es|], es[..n], frames, free);
      FramesConserved(ms[..|es|], es[..n], frames, free);
      assert Linked(ms[n], es[n], ms[n + 1]);
      HappenedConserves(ms[n], es[n]);
    }
  }

  predicate Growth(es: seq<Event>) {
    forall i :: 0 <= i < |es| ==> es[i].Alloc?
  }

  ghost predicate Numbered(f: map<int, Page>) {
    forall v :: v in f <==> 0 <= v < |f|
  }

  lemma {:induction false} GrownPages(es: seq<Event>, more: seq<Event>)
    requires Growth(more) && Numbered(FlatRun(es))
    ensures var (f, g) := (FlatRun(es), FlatRun(es + more)); Numbered(g) && Without(g, |f|, |g|) == f
  {
    var f := FlatRun(es);
    if more == [] {
      assert es + more == es;
      assert Without(f, |f|, |f|) == f;
    } else {
      var n := |more| - 1;
      GrownPages(es, more[..n]);
      assert (es + more)[..|es + more| - 1] == es + more[..n];
      var h, g := FlatRun(es + more[..n]), FlatRun(es + more);
      assert g == h[|h| := Filled(0)];
      KeysGrow(h, g);
      assert Without(g, |f|, |g|) == Without(h, |f|, |h|);
    }
  }

  /** allocuvm that fails after any number of pages, and deallocuvm to the old
      size: memory is as it was before. */
  lemma GrowthUndone(ms: seq<Vm>, es: seq<Event>, more: seq<Event>, all: seq<Event>, frames: map<int, Page>,
                     free: seq<int>)
    requires all == es + more + [Shrink(|FlatRun(es)|)] && Growth(more)
    requires IsRun(ms, all, frames, free)
    ensures RunOk(ms[|all|]) && Flat(ms[|all|]) == FlatRun(es)
  {
    hide IsRun, RunOk, VmOk, Flat, Numbered, Growth;
    SwapRefinesFlat(ms, all, frames, free);
    RunPrefix(ms, all, frames, free, |es|);
    assert all[..|es|] == es;
    GrownPages(es, more);
    FlatUndone(es, more, all);
  }

  lemma FlatUndone(es: seq<Event>, more: seq<Event>, all: seq<Event>)
    requires all == es + more + [Shrink(|FlatRun(es)|)]
    ensures FlatRun(all) == Without(FlatRun(es + more), |FlatRun(es)|, |FlatRun(es + more)|)
  {
    hide Without;
    assert all[..|all| - 1] == es + more;
  }

  lemma RunPrefix(ms: seq<Vm>, es: seq<Event>, frames: map<int, Page>, free: seq<int>, n: nat)
    requires IsRun(ms, es, frames, free) && n <= |es|
    ensures Numbered(FlatRun(es[..n]))
  {
    hide VmOk, Happened;
    SwapRefinesFlat(ms[..n + 1], es[..n], frames, free);
    FlatSize(ms[n]);
    assert Flat(ms[n]).Keys == ms[n].pte.Keys;
  }
}
