/** Second-chance FIFO replacement: the linked queue of vm.c against the
    textbook algorithm, and the fault and growth paths that use it. */
module Scfifo {
  import opened Paging

  // The abstract policy --------------------------------------------------------------

  /** How many entries have their accessed bit set before the first clear one. */
  function Skipped(bits: seq<bool>): (k: nat)
    ensures k <= |bits|
    ensures forall j :: 0 <= j < k ==> bits[j]
    ensures k < |bits| ==> !bits[k]
  {
    if bits == [] || !bits[0] then 0 else 1 + Skipped(bits[1..])
  }

  /** The first entry with a clear bit, or the head if every bit is set. */
  function Victim(q: seq<int>, bits: seq<bool>): (w: int)
    requires |q| == |bits| > 0
    ensures w in q
  {
    var k := Skipped(bits);
    if k < |q| then q[k] else q[0]
  }

  /** The queue left behind: skipped entries at the back, in order. */
  function Remaining(q: seq<int>, bits: seq<bool>): (r: seq<int>)
    requires |q| == |bits| > 0
    ensures |r| == |q| - 1
  {
    var k := Skipped(bits);
    if k < |q| then q[k + 1..] + q[..k] else q[1..]
  }

  function SetBits(bits: seq<bool>): nat {
    if bits == [] then 0 else SetBits(bits[1..]) + if bits[0] then 1 else 0
  }

  lemma {:induction false} SetBitsAppend(bits: seq<bool>)
    ensures SetBits(bits + [false]) == SetBits(bits)
  {
    if bits != [] {
      SetBitsAppend(bits[1..]);
      assert (bits + [false])[1..] == bits[1..] + [false];
    }
  }

  /** Second chance as the textbooks give it: a head in use goes to the back
      with its bit cleared, and the next head is tried. */
  function Textbook(q: seq<int>, bits: seq<bool>): (r: (int, seq<int>))
    requires |q| == |bits| > 0
    decreases SetBits(bits)
  {
    if !bits[0] then (q[0], q[1..])
    else SetBitsAppend(bits[1..]); Textbook(q[1..] + [q[0]], bits[1..] + [false])
  }

  function Clear(k: nat): (bits: seq<bool>)
    ensures |bits| == k && forall i :: 0 <= i < k ==> !bits[i]
  {
    if k == 0 then [] else Clear(k - 1) + [false]
  }

  lemma {:induction false} TextbookFrom(q: seq<int>, bits: seq<bool>, k: nat)
    requires |q| == |bits| > 0 && k <= Skipped(bits)
    ensures Textbook(q, bits) == Textbook(q[k..] + q[..k], bits[k..] + Clear(k))
  {
    if k == 0 {
      assert q[0..] + q[..0] == q && bits[0..] + Clear(0) == bits;
    } else {
      TextbookFrom(q, bits, k - 1);
      var p, b := q[k - 1..] + q[..k - 1], bits[k - 1..] + Clear(k - 1);
      assert p[1..] + [p[0]] == q[k..] + q[..k];
      assert b[1..] + [false] == bits[k..] + Clear(k);
    }
  }

  lemma TextbookHead(q: seq<int>, bits: seq<bool>)
    requires |q| == |bits| > 0 && !bits[0]
    ensures Textbook(q, bits) == (q[0], q[1..])
  {
  }

  /** The closed form picks what the textbook algorithm picks. */
  lemma VictimIsTextbook(q: seq<int>, bits: seq<bool>)
    requires |q| == |bits| > 0
    ensures Textbook(q, bits) == (Victim(q, bits), Remaining(q, bits))
  {
    hide Textbook, Skipped;
    var k := Skipped(bits);
    TextbookFrom(q, bits, k);
    TextbookHead(q[k..] + q[..k], bits[k..] + Clear(k));
    if k < |q| {
      assert (q[k..] + q[..k])[1..] == q[k + 1..] + q[..k];
    } else {
      assert q[k..] + q[..k] == q;
    }
  }

  // The policy from call to call -------------------------------------------------------

  /** A page in the queue and its accessed bit. */
  datatype Entry = Entry(page: int, used: bool)

  function UsedCount(r: seq<Entry>): nat {
    if r == [] then 0 else UsedCount(r[1..]) + if r[0].used then 1 else 0
  }

  lemma {:induction false} UsedAppend(r: seq<Entry>, p: int)
    ensures UsedCount(r + [Entry(p, false)]) == UsedCount(r)
  {
    if r != [] {
      UsedAppend(r[1..], p);
      assert (r + [Entry(p, false)])[1..] == r[1..] + [Entry(p, false)];
    }
  }

  /** Second chance on a queue that keeps its bits: the victim, and the queue
      with the bits as they are afterwards. */
  function SecondChance(r: seq<Entry>): (x: (int, seq<Entry>))
    requires |r| > 0
    ensures |x.1| == |r| - 1
    decreases UsedCount(r)
  {
    if !r[0].used then (r[0].page, r[1..])
    else UsedAppend(r[1..], r[0].page); SecondChance(r[1..] + [Entry(r[0].page, false)])
  }

  function Passed(r: seq<Entry>): (x: seq<Entry>)
    ensures |x| == |r| && forall i :: 0 <= i < |r| ==> x[i] == Entry(r[i].page, false)
  {
    seq(|r|, i requires 0 <= i < |r| => Entry(r[i].page, false))
  }

  lemma {:induction false} ChanceFrom(r: seq<Entry>, k: nat)
    requires |r| > 0 && k <= |r| && forall i :: 0 <= i < k ==> r[i].used
    ensures SecondChance(r) == SecondChance(r[k..] + Passed(r[..k]))
  {
    if k == 0 {
      assert r[0..] + Passed(r[..0]) == r;
    } else {
      ChanceFrom(r, k - 1);
      var p := r[k - 1..] + Passed(r[..k - 1]);
      assert p[1..] + [Entry(p[0].page, false)] == r[k..] + Passed(r[..k]);
    }
  }

  lemma ChanceHead(r: seq<Entry>)
    requires |r| > 0 && !r[0].used
    ensures SecondChance(r) == (r[0].page, r[1..])
  {
  }

  /** The queue with its first `k` entries moved to the back. */
  function Turned(q: seq<int>, k: nat): (r: seq<int>)
    requires k <= |q|
    ensures |r| == |q|
  {
    q[k..] + q[..k]
  }

  // The linked queue -----------------------------------------------------------------

  /** The chain head, next, next, ... visits exactly the slots of `q`; only
      the head's prev link is relied on. */
  predicate Chain(q: seq<int>, next: seq<int>, prev: seq<int>, head: int, tail: int) {
    && |next| == |prev| == SLOTS
    && (forall i :: 0 <= i < |q| ==> 0 <= q[i] < SLOTS)
    && (forall i, j :: 0 <= i < j < |q| ==> q[i] != q[j])
    && (q == [] ==> head == -1 && tail == -1)
    && (q != [] ==> head == q[0] && tail == q[|q| - 1] && prev[head] == -1 && next[tail] == -1)
    && forall i :: 0 <= i < |q| - 1 ==> next[q[i]] == q[i + 1]
  }

  /** The queue holds the slots in use. */
  predicate Covers(q: seq<int>, ram: seq<int>) {
    && |ram| == SLOTS
    && forall i :: 0 <= i < SLOTS ==> (i in q <==> ram[i] != -1)
  }

  /** The accessed bits of the queued pages, in queue order. */
  function Bits(q: seq<int>, m: Vm): (r: seq<bool>)
    requires Queued(q, m)
    ensures |r| == |q|
  {
    seq(|q|, i requires 0 <= i < |q| => m.pte[m.ram[q[i]]].accessed)
  }

  /** The scan comes to an end: a lone page whose bit is set would be unlinked
      from itself, its next link null. */
  predicate Scannable(q: seq<int>, m: Vm) {
    Queued(q, m) && (|q| >= 2 || (|q| == 1 && !m.pte[m.ram[q[0]]].accessed))
  }

  predicate Queued(q: seq<int>, m: Vm) {
    |m.ram| == SLOTS && forall i :: 0 <= i < |q| ==> 0 <= q[i] < SLOTS && m.ram[q[i]] in m.pte
  }

  /** Clearing the accessed bits of the pages in the first `k` queue entries. */
  function Cleared(m: Vm, q: seq<int>, k: nat): (r: Vm)
    requires Queued(q, m) && k <= |q|
    ensures r == m.(pte := r.pte) && r.pte.Keys == m.pte.Keys
  {
    if k == 0 then m else Marked(Cleared(m, q, k - 1), m.ram[q[k - 1]], false)
  }

  lemma {:induction false} ClearedAt(m: Vm, q: seq<int>, k: nat, v: int)
    requires Queued(q, m) && k <= |q|
    requires v in m.pte && forall i :: 0 <= i < k ==> m.ram[q[i]] != v
    ensures Cleared(m, q, k).pte[v] == m.pte[v]
  {
    if k > 0 {
      ClearedAt(m, q, k - 1, v);
    }
  }

  /** The queue as the policy sees it. */
  function Line(q: seq<int>, m: Vm): (r: seq<Entry>)
    requires Queued(q, m)
    ensures |r| == |q|
    ensures forall i :: 0 <= i < |q| ==> r[i] == Entry(m.ram[q[i]], m.pte[m.ram[q[i]]].accessed)
  {
    seq(|q|, i requires 0 <= i < |q| => Entry(m.ram[q[i]], m.pte[m.ram[q[i]]].accessed))
  }

  predicate DistinctPages(q: seq<int>, m: Vm)
    requires Queued(q, m)
  {
    forall i, j :: 0 <= i < j < |q| ==> m.ram[q[i]] != m.ram[q[j]]
  }

  /** The bits of the pages passed are clear, and nothing else in any entry changed. */
  predicate OnlyCleared(q: seq<int>, k: nat, m: Vm, pte: map<int, Pte>)
    requires Queued(q, m) && k <= |q|
  {
    && pte.Keys == m.pte.Keys
    && (forall i :: 0 <= i < k ==> var v := m.ram[q[i]]; v in pte && pte[v] == m.pte[v].(accessed := false))
    && forall v :: v in m.pte && (forall i :: 0 <= i < k ==> m.ram[q[i]] != v) ==> v in pte && pte[v] == m.pte[v]
  }

  lemma {:induction false} ClearedIs(m: Vm, q: seq<int>, k: nat)
    requires Queued(q, m) && k <= |q| && DistinctPages(q, m)
    ensures OnlyCleared(q, k, m, Cleared(m, q, k).pte)
  {
    if k > 0 {
      ClearedIs(m, q, k - 1);
    }
  }

  /** Pages that are not queued keep their bits. */
  ghost predicate SameBits(m: Vm, c: Vm) {
    forall v :: v in m.pte && v !in m.ram ==> v in c.pte && c.pte[v].accessed == m.pte[v].accessed
  }

  lemma ChosenIs(m: Vm, q: seq<int>, bits: seq<bool>, c: Vm)
    requires Queued(q, m) && |q| > 0 && DistinctPages(q, m)
    requires bits == Bits(q, m) && c == Cleared(m, q, Skipped(bits))
    ensures Chosen(q, m, Victim(q, bits), Remaining(q, bits), c) && SameBits(m, c)
  {
    hide SecondChance, Skipped, Cleared, Victim, Remaining;
    PolicyIsSecondChance(m, q, bits, c);
    ClearedIs(m, q, Skipped(bits));
  }

  lemma LineTail(p: seq<int>, c: Vm)
    requires Queued(p, c) && |p| > 0
    ensures Queued(p[1..], c) && Line(p, c)[1..] == Line(p[1..], c)
  {
  }

  /** scfifo_alg's victim and the queue and bits it leaves are second chance's. */
  lemma PolicyIsSecondChance(m: Vm, q: seq<int>, bits: seq<bool>, c: Vm)
    requires Queued(q, m) && |q| > 0 && DistinctPages(q, m)
    requires bits == Bits(q, m) && c == Cleared(m, q, Skipped(bits))
    ensures Queued(Remaining(q, bits), c) && 0 <= Victim(q, bits) < SLOTS
    ensures SecondChance(Line(q, m)) == (m.ram[Victim(q, bits)], Line(Remaining(q, bits), c))
  {
    hide SecondChance, Skipped, Cleared, OnlyCleared, Victim, Remaining;
    var k := Skipped(bits);
    ClearedIs(m, q, k);
    RotatedVictim(q, bits);
    var p := Turned(q, k);
    QueuedTurned(m, q, k, c);
    LineTurned(m, q, k, c);
    PassedUsed(m, q, k);
    ChanceFrom(Line(q, m), k);
    HeadUnused(m, q, k, c);
    ChanceHead(Line(p, c));
    LineTail(p, c);
  }

  lemma PassedUsed(m: Vm, q: seq<int>, k: nat)
    requires Queued(q, m) && k <= Skipped(Bits(q, m))
    ensures k <= |q| && forall i :: 0 <= i < k ==> Line(q, m)[i].used
  {
    var bits := Bits(q, m);
    forall i | 0 <= i < k ensures Line(q, m)[i].used {
      assert bits[i];
    }
  }

  lemma QueuedTurned(m: Vm, q: seq<int>, k: nat, c: Vm)
    requires Queued(q, m) && k <= |q| && c == m.(pte := c.pte) && c.pte.Keys == m.pte.Keys
    ensures Queued(Turned(q, k), c)
  {
  }

  lemma HeadUnused(m: Vm, q: seq<int>, k: nat, c: Vm)
    requires Queued(q, m) && |q| > 0 && DistinctPages(q, m) && k == Skipped(Bits(q, m))
    requires c == m.(pte := c.pte) && OnlyCleared(q, k, m, c.pte) && Queued(Turned(q, k), c)
    ensures !Line(Turned(q, k), c)[0].used
  {
    LineTurned(m, q, k, c);
    assert k < |q| ==> !Line(q, m)[k].used;
  }

  lemma LineTurned(m: Vm, q: seq<int>, k: nat, c: Vm)
    requires Queued(q, m) && k <= |q| && DistinctPages(q, m) && c == m.(pte := c.pte) && OnlyCleared(q, k, m, c.pte)
    requires Queued(Turned(q, k), c)
    ensures Line(Turned(q, k), c) == Line(q, m)[k..] + Passed(Line(q, m)[..k])
  {
    var p, x, y := Turned(q, k), Line(Turned(q, k), c), Line(q, m)[k..] + Passed(Line(q, m)[..k]);
    forall i | 0 <= i < |p| ensures x[i] == y[i] {
      if i < |q| - k {
        assert p[i] == q[k + i];
        assert forall j :: 0 <= j < k ==> m.ram[q[j]] != m.ram[q[k + i]];
      } else {
        assert p[i] == q[i - (|q| - k)];
      }
    }
  }

  /** Slot `w` of `m` was chosen from queue `q`, leaving `q'` and the bits of `c`. */
  ghost predicate Chosen(q: seq<int>, m: Vm, w: int, q': seq<int>, c: Vm) {
    && Queued(q, m) && |q| > 0 && Queued(q', c) && 0 <= w < |m.ram|
    && SecondChance(Line(q, m)) == (m.ram[w], Line(q', c))
  }

  /** A page comes into memory, behind all others; if memory is full, second
      chance picks the one that goes. */
  function Bring(r: seq<Entry>, e: Entry): (x: seq<Entry>) {
    (if |r| >= SLOTS then SecondChance(r).1 else r) + [e]
  }

  ghost predicate Brought(q: seq<int>, m: Vm, e: Entry, q': seq<int>, r: Vm) {
    Queued(q, m) && Queued(q', r) && Line(q', r) == Bring(Line(q, m), e)
  }

  /** A page is used. */
  function Touched(r: seq<Entry>, v: int): (x: seq<Entry>)
    ensures |x| == |r| && forall i :: 0 <= i < |r| ==> x[i] == if r[i].page == v then Entry(v, true) else r[i]
  {
    seq(|r|, i requires 0 <= i < |r| => if r[i].page == v then Entry(v, true) else r[i])
  }

  /** An access to page `v`: a fault first if it is in swap. */
  function Used(r: seq<Entry>, v: int, p: Pte): (x: seq<Entry>) {
    Touched(if p.paged then Bring(r, Entry(v, p.accessed)) else r, v)
  }

  /** Pages `n` to `k` come in one after the other, unused. */
  function BringAll(r: seq<Entry>, n: nat, k: nat): (x: seq<Entry>) {
    if k <= n then r else Bring(BringAll(r, n, k - 1), Entry(k - 1, false))
  }

  /** A queue seen in two states that agree on its pages. */
  lemma LineSame(q: seq<int>, m: Vm, r: Vm)
    requires Queued(q, m) && |r.ram| == SLOTS
    requires forall i :: 0 <= i < |q| ==> r.ram[q[i]] == m.ram[q[i]] && m.ram[q[i]] in r.pte
    requires forall i :: 0 <= i < |q| ==> r.pte[m.ram[q[i]]].accessed == m.pte[m.ram[q[i]]].accessed
    ensures Queued(q, r) && Line(q, r) == Line(q, m)
  {
  }

  lemma LineFrames(q: seq<int>, m: Vm, frames: map<int, Page>)
    ensures Queued(q, m.(frames := frames)) <==> Queued(q, m)
    ensures Queued(q, m) ==> Line(q, m.(frames := frames)) == Line(q, m)
  {
  }

  lemma TouchedLine(q: seq<int>, m: Vm, r: Vm, v: int)
    requires v in m.pte && r == m.(pte := m.pte[v := m.pte[v].(accessed := true)])
    ensures Queued(q, r) <==> Queued(q, m)
    ensures Queued(q, m) ==> Line(q, r) == Touched(Line(q, m), v)
    ensures Touched([], v) == []
  {
  }

  lemma LineAppend(q: seq<int>, r: Vm, i: int)
    requires Queued(q, r) && 0 <= i < SLOTS && r.ram[i] in r.pte
    ensures Queued(q + [i], r) && Line(q + [i], r) == Line(q, r) + [Entry(r.ram[i], r.pte[r.ram[i]].accessed)]
  {
  }

  ghost function SlotSet(n: nat): (s: set<int>)
    ensures |s| == n && forall i :: i in s <==> 0 <= i < n
  {
    if n == 0 then {} else SlotSet(n - 1) + {n - 1}
  }

  ghost function Members(q: seq<int>): (s: set<int>)
    ensures forall i :: i in s <==> i in q
  {
    set i | i in q
  }

  lemma {:induction false} MembersCount(q: seq<int>)
    requires forall i, j :: 0 <= i < j < |q| ==> q[i] != q[j]
    ensures |Members(q)| == |q|
  {
    if q == [] {
      assert Members(q) == {};
    } else {
      var m := |q| - 1;
      MembersCount(q[..m]);
      assert q == q[..m] + [q[m]];
      assert Members(q) == Members(q[..m]) + {q[m]};
    }
  }

  lemma AllMembers(q: seq<int>, n: nat)
    requires forall i :: 0 <= i < |q| ==> 0 <= q[i] < n
    requires forall i, j :: 0 <= i < j < |q| ==> q[i] != q[j]
    ensures |q| <= n && (|q| == n <==> forall i :: 0 <= i < n ==> i in q)
  {
    MembersCount(q);
    var a, b := Members(q), SlotSet(n);
    assert a <= b && |b - a| == |b| - |a|;
    if |q| == n {
      forall i | 0 <= i < n ensures i in q {
        assert i in b && i !in b - a;
      }
    }
    if forall i :: 0 <= i < n ==> i in q {
      assert b - a == {};
    }
  }

  /** The queue is full exactly when memory is. */
  lemma QueueFull(q: seq<int>, m: Vm)
    requires Covers(q, m.ram) && forall i :: 0 <= i < |q| ==> 0 <= q[i] < SLOTS
    requires forall i, j :: 0 <= i < j < |q| ==> q[i] != q[j]
    ensures |q| <= SLOTS && (|q| == SLOTS <==> FullEnough(m))
  {
    hide Find;
    AllMembers(q, |m.ram|);
    if !FullEnough(m) {
      assert m.ram[Find(m.ram, -1)] == -1;
    }
  }

  lemma FullQueue(q: seq<int>, next: seq<int>, prev: seq<int>, head: int, tail: int, m: Vm)
    requires VmOk(m) && Chain(q, next, prev, head, tail) && Covers(q, m.ram)
    ensures |q| <= SLOTS && (|q| == SLOTS <==> FullEnough(m))
    ensures Queued(q, m) && forall i :: 0 <= i < |q| ==> m.ram[q[i]] != -1 && m.pte[m.ram[q[i]]].present
  {
    hide Find;
    QueueFacts(m, q);
    QueueFull(q, m);
  }

  /** What is still queued once slot `w` has been chosen. */
  lemma ChosenQueue(q: seq<int>, next: seq<int>, prev: seq<int>, head: int, tail: int, m: Vm, c: Vm, v: int, w: int)
    requires VmOk(c) && c == m.(pte := c.pte) && 0 <= w < SLOTS && SameResidence(m, c)
    requires Chain(q, next, prev, head, tail) && Covers(q, c.ram[w := -1])
    ensures forall i :: 0 <= i < |q| ==>
              && 0 <= q[i] < SLOTS && q[i] != w && c.ram[q[i]] != -1
              && c.ram[q[i]] in c.pte && c.pte[c.ram[q[i]]].present
    ensures v in m.pte && m.pte[v].paged ==> v !in m.ram
  {
    forall i | 0 <= i < |q| ensures q[i] != w && c.ram[q[i]] != -1 && c.ram[q[i]] in Present(c.pte) {
      assert q[i] in q && c.ram[w := -1][q[i]] != -1;
    }
  }

  lemma BroughtRing(q: seq<int>, m: Vm, e: Entry, q': seq<int>, r: Vm)
    requires Brought(q, m, e, q', r)
    ensures Queued(q, m) && Queued(q', r) && Line(q', r) == Bring(Line(q, m), e)
  {
  }

  /** A fault with room: the page joins the queue with the bit of its entry. */
  lemma InBrings(q: seq<int>, m: Vm, v: int)
    requires VmOk(m) && CanFault(m, v) && m.pte[v].paged && Find(m.ram, -1) < SLOTS && |q| < SLOTS
    requires Queued(q, m) && forall i :: 0 <= i < |q| ==> m.ram[q[i]] != -1 && m.pte[m.ram[q[i]]].present
    ensures Brought(q, m, Entry(v, m.pte[v].accessed), q + [Find(m.ram, -1)], PageIn(m, v))
  {
    hide Find;
    var r := PageIn(m, v);
    LineSame(q, m, r);
    LineAppend(q, r, Find(m.ram, -1));
  }

  /** A fault with memory full: second chance's victim goes, the page joins. */
  lemma SwapBrings(q: seq<int>, m: Vm, v: int, w: int, q': seq<int>, c: Vm)
    requires Chosen(q, m, w, q', c) && |q| == SLOTS && SameBits(m, c) && c == m.(pte := c.pte)
    requires SwapFault(c, v, w) && SwapReady(c, v, w) && v in m.pte && v !in m.ram
    requires forall i :: 0 <= i < |q'| ==> q'[i] != w && c.ram[q'[i]] != -1 && c.pte[c.ram[q'[i]]].present
    ensures Brought(q, m, Entry(v, m.pte[v].accessed), q' + [Find(c.ram[w := -1], -1)], PageSwap(c, v, w))
  {
    hide Find, SecondChance;
    SwapFaultFacts(c, v, w);
    var r := PageSwap(c, v, w);
    LineSame(q', c, r);
    LineAppend(q', r, Find(c.ram[w := -1], -1));
  }

  /** Room has been made for page `v`, which is mapped and unused: second chance
      was applied if memory was full. */
  ghost predicate Roomy(q: seq<int>, m: Vm, q': seq<int>, r: Vm, v: int) {
    && Queued(q, m) && Queued(q', r) && v in r.pte && !r.pte[v].accessed && v !in r.ram
    && Line(q', r) == if |q| >= SLOTS then SecondChance(Line(q, m)).1 else Line(q, m)
  }

  lemma MovedLine(q: seq<int>, m: Vm, v: int, w: int, f: int, q': seq<int>, c: Vm)
    requires Chosen(q, m, w, q', c) && |q| == SLOTS && EvictReady(c, w) && c == m.(pte := c.pte)
    requires v !in c.pte && VmOk(c) && v != -1
    requires forall i :: 0 <= i < |q'| ==> 0 <= q'[i] < SLOTS && q'[i] != w && c.ram[q'[i]] != -1
    ensures Roomy(q, m, q', Moved(c, v, w, f), v)
  {
    hide Find, SecondChance;
    assert c.ram[w] in Present(c.pte);
    LineSame(q', c, Moved(c, v, w, f));
  }

  lemma RoomLine(q: seq<int>, m: Vm, v: int, f: int)
    requires Queued(q, m) && |q| < SLOTS && v !in m.pte && m.free != [] && TablesOk(m) && v != -1
    ensures Roomy(q, m, q, Mapping(m, v, f), v)
  {
    LineSame(q, m, Mapping(m, v, f));
  }

  lemma EnterBrings(q: seq<int>, m: Vm, q': seq<int>, x: Vm, v: int)
    requires Roomy(q, m, q', x, v) && |x.ram| == SLOTS && Find(x.ram, -1) < SLOTS && v != -1
    requires Covers(q', x.ram)
    ensures Brought(q, m, Entry(v, false), q' + [Find(x.ram, -1)], x.(ram := x.ram[Find(x.ram, -1) := v]))
  {
    hide Find, SecondChance;
    var i := Find(x.ram, -1);
    var r := x.(ram := x.ram[i := v]);
    LineSame(q', x, r);
    LineAppend(q', r, i);
  }

  lemma MarkedFlat(m: Vm, v: int, f: map<int, Page>)
    requires VmOk(m) && v in m.pte && Flat(m) == f
    ensures VmOk(Marked(m, v, false)) && Flat(Marked(m, v, false)) == f
  {
    MarkedOk(m, v, false);
  }

  lemma {:induction false} ClearedOk(m: Vm, q: seq<int>, k: nat, f: map<int, Page>)
    requires VmOk(m) && Queued(q, m) && k <= |q| && Flat(m) == f
    ensures VmOk(Cleared(m, q, k)) && Flat(Cleared(m, q, k)) == f
  {
    hide VmOk, Flat;
    if k > 0 {
      ClearedOk(m, q, k - 1, f);
      MarkedFlat(Cleared(m, q, k - 1), m.ram[q[k - 1]], f);
    }
  }

  class Proc {
    var ram: seq<int>
    var next: seq<int>
    var prev: seq<int>
    var head: int
    var tail: int
    var disk: seq<int>
    var memCount: int
    var swapCount: int
    var pte: map<int, Pte>
    var frames: map<int, Page>
    var free: seq<int>
    var swap: seq<Page>
    ghost var queue: seq<int>

    /** allocproc: no page anywhere. */
    constructor (frames: map<int, Page>, free: seq<int>)
      requires forall f :: f in free ==> f in frames
      requires forall i, j :: 0 <= i < j < |free| ==> free[i] != free[j]
      ensures Valid() && State() == Fresh(frames, free) && Flat(State()) == map[]
    {
      ram, disk := seq(SLOTS, _ => -1), seq(SLOTS, _ => -1);
      next, prev := seq(SLOTS, _ => -1), seq(SLOTS, _ => -1);
      head, tail := -1, -1;
      memCount, swapCount := 0, 0;
      pte, this.frames, this.free, swap := map[], frames, free, [];
      queue := [];
      new;
      AllFree(SLOTS);
      assert Holds(ram, {}) && Holds(disk, {});
      assert Present(pte) == {} && Paged(pte) == {};
    }

    ghost function State(): Vm
      reads this
    {
      Vm(ram, disk, pte, frames, free, swap)
    }

    /** The queue as second chance sees it. */
    ghost function Ring(): (r: seq<Entry>)
      reads this
    {
      if Queued(queue, State()) then Line(queue, State()) else []
    }

    ghost predicate QueueOk()
      reads this
    {
      && Chain(queue, next, prev, head, tail)
      && Queued(queue, State())
      && forall i, j :: 0 <= i < j < |queue| ==> ram[queue[i]] != ram[queue[j]]
    }

    /** The head, still in use, goes to the back of the queue. */
    method Rotate()
      requires Chain(queue, next, prev, head, tail) && |queue| >= 2
      modifies this`next, this`prev, this`head, this`tail, this`queue
      ensures Chain(queue, next, prev, head, tail)
      ensures queue == old(queue)[1..] + [old(queue)[0]]
    {
      var tmp := head;
      assert head == queue[0] && next[head] == queue[1];
      head := next[head];
      prev := prev[head := -1];
      next := next[tmp := -1];
      prev := prev[tmp := tail];
      next := next[tail := tmp];
      tail := tmp;
      queue := queue[1..] + [queue[0]];
    }

    /** Unlinks `tmp`, the head of the queue. */
    method Unlink(tmp: int)
      requires Chain(queue, next, prev, head, tail) && |queue| >= 1 && tmp == head
      modifies this`next, this`prev, this`head, this`tail, this`queue
      ensures Chain(queue, next, prev, head, tail)
      ensures queue == old(queue)[1..] && prev[tmp] == -1
    {
      assert next[tmp] == if |queue| == 1 then -1 else queue[1];
      if prev[tmp] != -1 {
        assert false; // nothing precedes the head
      }
      if next[tmp] != -1 {
        prev := prev[next[tmp] := prev[tmp]];
      }
      if head == tmp {
        head := next[tmp];
      }
      if tail == tmp {
        tail := prev[tmp];
      }
      queue := queue[1..];
    }

    /** Rotate, for a queue already turned by `k`. */
    method TurnOn(ghost q: seq<int>, ghost k: nat)
      requires Chain(queue, next, prev, head, tail) && |queue| >= 2
      requires k < |q| && queue == Turned(q, k) && forall i, j :: 0 <= i < j < |q| ==> q[i] != q[j]
      modifies this`next, this`prev, this`head, this`tail, this`queue
      ensures Chain(queue, next, prev, head, tail)
      ensures queue == Turned(q, k + 1) && State() == old(State())
      ensures head == q[0] <==> k + 1 == |q|
    {
      Rotate();
      RotateOnce(q, k);
    }

    /** updateAccessBit on the page in slot `w`. */
    method UpdateAccessBit(w: int) returns (acc: bool)
      requires 0 <= w < |ram| && ram[w] in pte
      modifies this`pte
      ensures acc == old(pte)[ram[w]].accessed && ram[w] in pte && !pte[ram[w]].accessed
      ensures pte == old(pte)[ram[w] := old(pte)[ram[w]].(accessed := false)]
      ensures State() == Marked(old(State()), ram[w], false)
    {
      acc := pte[ram[w]].accessed;
      pte := pte[ram[w] := pte[ram[w]].(accessed := false)];
    }

    /** Tests and clears the head's bit after `k` entries have been passed. */
    method TestHead(ghost q: seq<int>, ghost m: Vm, ghost k: nat) returns (acc: bool)
      requires Queued(q, m) && k < |q| && head == q[k]
      requires forall i, j :: 0 <= i < j < |q| ==> m.ram[q[i]] != m.ram[q[j]]
      requires State() == Cleared(m, q, k)
      modifies this`pte
      ensures acc == Bits(q, m)[k]
      ensures k <= Skipped(Bits(q, m)) ==> if acc then k < Skipped(Bits(q, m)) else k == Skipped(Bits(q, m))
      ensures State() == Cleared(m, q, if acc then k + 1 else k)
    {
      ClearedAt(m, q, k, m.ram[q[k]]);
      acc := UpdateAccessBit(head);
      if !acc {
        SameMark(Cleared(m, q, k), m.ram[q[k]]);
      }
    }

    /** scfifo_alg's loop, by how far it turns the queue: at most once round. */
    method Scan(ghost q: seq<int>, ghost m: Vm) returns (ghost k: nat)
      requires QueueOk() && Scannable(queue, State())
      requires q == queue && m == State()
      modifies this`next, this`prev, this`head, this`tail, this`pte, this`queue
      ensures k == Skipped(Bits(q, m))
      ensures queue == Turned(q, k)
      ensures State() == Cleared(m, q, k)
      ensures Chain(queue, next, prev, head, tail)
    {
      k := 0;
      ghost var stop := Skipped(Bits(q, m));
      var oldHead := head;
      assert q == Turned(q, 0);
      var acc := true;
      while acc
        invariant k <= stop && (k < |q| || !acc)
        invariant acc || k == stop
        invariant queue == Turned(q, k)
        invariant Chain(queue, next, prev, head, tail)
        invariant State() == Cleared(m, q, k)
        decreases |q| - k, acc
      {
        assert head == q[k];
        acc := TestHead(q, m, k);
        if acc {
          TurnOn(q, k);
          k := k + 1;
          if head == oldHead {
            acc := false;
          }
        }
      }
    }

    /** scfifo_alg: picks the victim, unlinks it, clears the bits it passed. */
    method ScfifoAlg() returns (w: int)
      requires QueueOk() && Scannable(queue, State())
      modifies this`next, this`prev, this`head, this`tail, this`pte, this`queue
      ensures var bits := Bits(old(queue), old(State()));
              && w == Victim(old(queue), bits)
              && queue == Remaining(old(queue), bits)
              && State() == Cleared(old(State()), old(queue), Skipped(bits))
      ensures Chain(queue, next, prev, head, tail) && prev[w] == -1
      ensures Chosen(old(queue), old(State()), w, queue, State())
      ensures OnlyCleared(old(queue), Skipped(Bits(old(queue), old(State()))), old(State()), pte)
    {
      hide Skipped, Cleared, OnlyCleared, Chosen, SameBits, Victim, Remaining;
      ghost var q, m, bits := queue, State(), Bits(queue, State());
      ghost var k := Scan(q, m);
      ClearedIs(m, q, k);
      ChosenIs(m, q, bits, State());
      assert head == queue[0];
      RotatedVictim(q, bits);
      w := head;
      Unlink(w);
    }

    // Paging with the queue ------------------------------------------------------------

    ghost predicate Valid()
      reads this
    {
      && RunOk(State())
      && Chain(queue, next, prev, head, tail) && Covers(queue, ram)
      && memCount == Occupied(ram) && swapCount == Occupied(disk)
    }

    /** update_memoryscfifo: page `v` takes the first free slot and joins the tail. */
    method UpdateMemory(v: int) returns (i: nat)
      requires Chain(queue, next, prev, head, tail) && Covers(queue, ram)
      requires Find(ram, -1) < SLOTS && v != -1
      modifies this`ram, this`next, this`prev, this`head, this`tail, this`memCount, this`queue
      ensures Chain(queue, next, prev, head, tail) && Covers(queue, ram)
      ensures i == Find(old(ram), -1) && ram == old(ram)[i := v]
      ensures queue == old(queue) + [i]
      ensures memCount - Occupied(ram) == old(memCount - Occupied(ram))
    {
      if (head == -1 && tail != -1) || (head != -1 && tail == -1) {
        assert false; // "structure is wrong"
      }
      if head != -1 && prev[head] != -1 {
        assert false; // "queue head got prev pointer"
      }
      i := 0;
      while ram[i] != -1
        invariant 0 <= i <= Find(ram, -1)
        decreases |ram| - i
      {
        i := i + 1;
      }
      OccupiedUpdate(ram, i, v);
      AppendChain(queue, next, prev, head, tail, ram, i, v);
      ram := ram[i := v];
      memCount := memCount + 1;
      if head == -1 && tail == -1 {
        next := next[i := -1];
        prev := prev[i := -1];
        head := i;
        tail := i;
      } else {
        if next[tail] != -1 {
          assert false; // "queue tail got next pointer"
        }
        next := next[tail := i];
        tail := i;
        next := next[tail := -1];
      }
      queue := queue + [i];
    }

    /** readPageFromFile: frees the slot of `v` and enters `v` in RAM. */
    method ReadPageFromFile(v: int) returns (data: Page)
      requires Chain(queue, next, prev, head, tail) && Covers(queue, ram)
      requires Find(ram, -1) < SLOTS && v != -1
      requires Find(disk, v) < |disk| && Find(disk, v) < |swap|
      modifies this`ram, this`next, this`prev, this`head, this`tail, this`memCount, this`queue,
               this`disk, this`swapCount
      ensures Chain(queue, next, prev, head, tail) && Covers(queue, ram)
      ensures data == swap[Find(old(disk), v)]
      ensures disk == old(disk)[Find(old(disk), v) := -1]
      ensures ram == old(ram)[Find(old(ram), -1) := v] && queue == old(queue) + [Find(old(ram), -1)]
      ensures memCount - Occupied(ram) == old(memCount - Occupied(ram))
      ensures swapCount - Occupied(disk) == old(swapCount - Occupied(disk))
    {
      var i := 0;
      while disk[i] != v
        invariant 0 <= i <= Find(disk, v)
        decreases |disk| - i
      {
        i := i + 1;
      }
      data := swap[i];
      OccupiedUpdate(disk, i, -1);
      disk := disk[i := -1];
      swapCount := swapCount - 1;
      var j := UpdateMemory(v);
    }

    /** writePageToFile: `u` goes to the first free slot of the swap file. */
    method WritePageToFile(u: int, data: Page)
      requires u != -1 && Find(disk, -1) < |disk| && SwapWritable(swap, Find(disk, -1))
      modifies this`disk, this`swap, this`swapCount
      ensures disk == old(disk)[Find(old(disk), -1) := u]
      ensures swapCount - Occupied(disk) == old(swapCount - Occupied(disk))
      ensures swap == SwapWritten(old(swap), Find(old(disk), -1), data)
    {
      var i := 0;
      while disk[i] != -1
        invariant 0 <= i <= Find(disk, -1)
        decreases |disk| - i
      {
        i := i + 1;
      }
      OccupiedUpdate(disk, i, u);
      swap := SwapWritten(swap, i, data);
      disk := disk[i := u];
      swapCount := swapCount + 1;
    }

    /** getPageFromFile from the victim's selection on: `c` is the state the
        policy left, `w` the slot it chose and `f` the frame already taken. */
    method SwapOver(ghost c: Vm, v: int, w: int, f: int)
      requires SwapReady(c, v, w) && f == c.free[0]
      requires State() == c.(free := c.free[1..])
      requires Chain(queue, next, prev, head, tail) && Covers(queue, ram[w := -1])
      modifies this
      ensures State() == PageSwap(c, v, w) && queue == old(queue) + [Find(c.ram[w := -1], -1)]
      ensures Chain(queue, next, prev, head, tail) && Covers(queue, ram)
      ensures memCount - Occupied(ram) == old(memCount - Occupied(ram))
      ensures swapCount - Occupied(disk) == old(swapCount - Occupied(disk))
    {
      hide Chain, Covers;
      var u := ReleaseSlot(w);
      pte := pte[v := PagedIn(pte[v], f)];
      var data := ReadPageFromFile(v);
      frames := frames[f := data];
      PageOut(u);
    }

    method ReleaseSlot(w: int) returns (u: int)
      requires 0 <= w < |ram| && ram[w] != -1
      modifies this`ram, this`memCount
      ensures u == old(ram)[w] && ram == old(ram)[w := -1]
      ensures memCount - Occupied(ram) == old(memCount - Occupied(ram))
    {
      u := ram[w];
      OccupiedUpdate(ram, w, -1);
      ram := ram[w := -1];
      memCount := memCount - 1;
    }

    /** writePageToFile, fixPagedOutPTE and kfree for victim `u`. */
    method PageOut(u: int)
      requires u in pte && pte[u].frame in frames && u != -1
      requires Find(disk, -1) < |disk| && SwapWritable(swap, Find(disk, -1))
      modifies this`disk, this`swap, this`swapCount, this`pte, this`frames, this`free
      ensures disk == old(disk)[Find(old(disk), -1) := u]
      ensures pte == old(pte)[u := PagedOut(old(pte)[u])]
      ensures var was := old(pte)[u].frame;
              && swap == SwapWritten(old(swap), Find(old(disk), -1), old(frames)[was])
              && frames == old(frames)[was := Filled(1)] && free == [was] + old(free)
      ensures swapCount - Occupied(disk) == old(swapCount - Occupied(disk))
    {
      var was := pte[u].frame;
      WritePageToFile(u, frames[was]);
      pte := pte[u := PagedOut(pte[u])];
      frames := frames[was := Filled(1)];
      free := [was] + free;
    }

    /** getPageFromFile's branch with a RAM slot to spare. */
    method BringIn(ghost m: Vm, v: int, f: int)
      requires CanFault(m, v) && v != -1 && Find(m.ram, -1) < SLOTS && f == m.free[0]
      requires State() == m.(free := m.free[1..])
      requires Chain(queue, next, prev, head, tail) && Covers(queue, ram)
      modifies this
      ensures State() == PageIn(m, v) && queue == old(queue) + [Find(m.ram, -1)]
      ensures Chain(queue, next, prev, head, tail) && Covers(queue, ram)
      ensures memCount - Occupied(ram) == old(memCount - Occupied(ram))
      ensures swapCount - Occupied(disk) == old(swapCount - Occupied(disk))
    {
      hide Chain, Covers;
      pte := pte[v := PagedIn(pte[v], f)];
      var data := ReadPageFromFile(v);
      frames := frames[f := data];
    }

    /** scfifo_alg in the state `m` with a frame taken off the free list. */
    method SelectPage(ghost m: Vm) returns (w: int, ghost c: Vm)
      requires VmOk(m) && State() == m.(free := free) && FullEnough(m)
      requires Chain(queue, next, prev, head, tail) && Covers(queue, ram)
      modifies this`next, this`prev, this`head, this`tail, this`pte, this`queue
      ensures 0 <= w < SLOTS && State() == c.(free := free)
      ensures VmOk(c) && Flat(c) == Flat(m) && c == m.(pte := c.pte) && SameResidence(m, c)
      ensures Chain(queue, next, prev, head, tail) && Covers(queue, ram[w := -1])
      ensures Chosen(old(queue), m, w, queue, c) && SameBits(m, c)
    {
      hide VmOk, Flat, SameResidence, Skipped, Chosen, SameBits, Cleared, Victim, Remaining, OnlyCleared;
      ghost var q := queue;
      QueueFacts(m, q);
      assert 0 in q && 1 in q;
      ghost var bits := Bits(q, m);
      c := Cleared(m, q, Skipped(bits));
      ChosenIs(m, q, bits, c);
      ClearedFree(m, q, Skipped(bits), free);
      VictimLeaves(q, bits, ram);
      PolicyKeeps(m, q, Skipped(bits));
      w := ScfifoAlg();
    }

    /** scfifo_alg while new page `v` is mapped to frame `f` and not yet queued. */
    method SelectPageMapped(ghost m: Vm, ghost v: int, ghost f: int) returns (w: int, ghost c: Vm)
      requires VmOk(m) && FullEnough(m) && m.free != [] && v !in m.pte && State() == Mapping(m, v, f)
      requires Chain(queue, next, prev, head, tail) && Covers(queue, ram)
      modifies this`next, this`prev, this`head, this`tail, this`pte, this`queue
      ensures 0 <= w < SLOTS && c == m.(pte := c.pte) && State() == Mapping(c, v, f)
      ensures VmOk(c) && Flat(c) == Flat(m) && SameResidence(m, c)
      ensures Chain(queue, next, prev, head, tail) && Covers(queue, ram[w := -1])
      ensures Chosen(old(queue), m, w, queue, c)
    {
      hide VmOk, Flat, SameResidence, Skipped, Chosen, SameBits, Cleared, Victim, Remaining, OnlyCleared;
      ghost var q := queue;
      QueueFacts(m, q);
      assert 0 in q && 1 in q;
      ghost var bits := Bits(q, m);
      c := Cleared(m, q, Skipped(bits));
      ChosenIs(m, q, bits, c);
      ClearedMapping(m, q, Skipped(bits), v, f);
      assert Bits(q, State()) == bits;
      VictimLeaves(q, bits, ram);
      PolicyKeeps(m, q, Skipped(bits));
      w := ScfifoAlg();
    }

    /** getPageFromFile's two branches, after kalloc gave `f`. */
    method FaultFull(ghost m: Vm, v: int, f: int)
      requires RunOk(m) && v in m.pte && m.pte[v].paged && m.free != [] && FullEnough(m)
      requires f == m.free[0] && State() == m.(free := m.free[1..])
      requires Chain(queue, next, prev, head, tail) && Covers(queue, ram)
      modifies this
      ensures RunOk(State()) && v in pte && pte[v].present
      ensures pte.Keys == m.pte.Keys && Flat(State()) == Flat(m)
      ensures Chain(queue, next, prev, head, tail) && Covers(queue, ram)
      ensures memCount - Occupied(ram) == old(memCount - Occupied(ram))
      ensures swapCount - Occupied(disk) == old(swapCount - Occupied(disk))
      ensures Brought(old(queue), m, Entry(v, m.pte[v].accessed), queue, State()) && Conserves(m, State())
    {
      hide Chosen, Brought, SameBits, Flat, VmOk, Chain, Covers, Queued, Conserves;
      ghost var q := queue;
      FullQueue(q, next, prev, head, tail, m);
      var w, c := SelectPage(m);
      ghost var q' := queue;
      ChosenQueue(q', next, prev, head, tail, m, c, v, w);
      BecomesReady(m, c, v, w);
      SwapOver(c, v, w, f);
      SwapDone(m, c, v, w);
      SwapBrings(q, m, v, w, q', c);
    }

    /** getPageFromFile on swapped-out page `v`: `v` is brought in, every page
        of flat memory keeps its contents, and no panic is met on the way. */
    method GetPageFromFile(v: int)
      requires Valid() && v in pte && pte[v].paged && free != []
      modifies this
      ensures Valid() && v in pte && pte[v].present
      ensures pte.Keys == old(pte).Keys && Flat(State()) == old(Flat(State()))
      ensures Ring() == Bring(old(Ring()), Entry(v, old(pte)[v].accessed)) && Conserves(old(State()), State())
    {
      hide Brought, Chosen, Chain, Covers, Queued, Line, Conserves;
      ghost var m, q := State(), queue;
      FaultCases(m, v);
      var f := free[0];
      free := free[1..];
      if memCount >= SLOTS {
        FaultFull(m, v, f);
      } else {
        FullQueue(q, next, prev, head, tail, m);
        BringIn(m, v, f);
        InDone(m, v);
        InBrings(q, m, v);
      }
      BroughtRing(q, m, Entry(v, m.pte[v].accessed), queue, State());
    }

    /** The hardware's side of an access to a present page. */
    method Touch(v: int)
      requires Valid() && v in pte && pte[v].present
      modifies this`pte
      ensures Valid() && v in pte && pte[v].present && Flat(State()) == old(Flat(State()))
      ensures Ring() == Touched(old(Ring()), v) && Conserves(old(State()), State())
    {
      hide Conserves;
      ghost var m := State();
      MarkedOk(m, v, true);
      pte := pte[v := pte[v].(accessed := true)];
      TouchedLine(queue, m, State(), v);
      assert State() == Marked(m, v, true);
      assert State().pte.Keys == m.pte.Keys;
      SamePages(m, State());
      ConservesSame(m, State());
    }

    /** The page is in memory, brought in by a fault if need be. */
    method Fetch(v: int)
      requires Valid() && v in pte && (pte[v].paged ==> free != [])
      modifies this
      ensures Valid() && v in pte && pte[v].present && Flat(State()) == old(Flat(State()))
      ensures Ring() == Used(old(Ring()), v, old(pte)[v]) && Conserves(old(State()), State())
    {
      hide Conserves, Held;
      ghost var m := State();
      ConservesSame(m, m);
      if pte[v].paged {
        GetPageFromFile(v);
      }
      ghost var c := State();
      Touch(v);
      ConservesTwice(m, c, State());
    }

    /** A user load of page `v`, faulting it in first if need be. */
    method Load(v: int) returns (p: Page)
      requires Valid() && v in pte && (pte[v].paged ==> free != [])
      modifies this
      ensures Valid() && Flat(State()) == old(Flat(State()))
      ensures v in Flat(State()) && p == Flat(State())[v]
      ensures Ring() == Used(old(Ring()), v, old(pte)[v]) && Conserves(old(State()), State())
    {
      Fetch(v);
      p := frames[pte[v].frame];
    }

    /** User stores that leave page `v` holding `p`. */
    method Store(v: int, p: Page)
      requires Valid() && v in pte && (pte[v].paged ==> free != [])
      modifies this
      ensures Valid() && Flat(State()) == old(Flat(State()))[v := p]
      ensures Ring() == Used(old(Ring()), v, old(pte)[v]) && Conserves(old(State()), State())
    {
      hide Line, Used, Chain, Covers, Occupied, Conserves;
      ghost var m := State();
      Fetch(v);
      ghost var c := State();
      StoredOk(c, v, p);
      LineFrames(queue, State(), frames[pte[v].frame := p]);
      frames := frames[pte[v].frame := p];
      ConservesSame(c, State());
      ConservesTwice(m, c, State());
    }

    /** insert_to_disk: slot `w`'s page goes to swap slot `i`. */
    method InsertToDisk(i: nat, w: int)
      requires 0 <= w < |ram| && ram[w] != -1 && ram[w] in pte && pte[ram[w]].frame in frames
      requires i < |disk| && disk[i] == -1 && SwapWritable(swap, i)
      modifies this`ram, this`memCount, this`disk, this`swap, this`swapCount, this`pte, this`frames, this`free
      ensures var u := old(ram)[w]; var was := old(pte)[u].frame;
              && disk == old(disk)[i := u] && ram == old(ram)[w := -1]
              && swap == SwapWritten(old(swap), i, old(frames)[was])
              && pte == old(pte)[u := Evicted()]
              && frames == old(frames)[was := Filled(1)] && free == [was] + old(free)
      ensures memCount - Occupied(ram) == old(memCount - Occupied(ram))
      ensures swapCount - Occupied(disk) == old(swapCount - Occupied(disk))
    {
      OccupiedUpdate(disk, i, ram[w]);
      disk := disk[i := ram[w]];
      swapCount := swapCount + 1;
      var was := pte[ram[w]].frame;
      swap := SwapWritten(swap, i, frames[was]);
      var u := ReleaseSlot(w);
      frames := frames[was := Filled(1)];
      free := [was] + free;
      pte := pte[u := Evicted()];
    }

    /** moveram_to_disk's search for a free swap slot. */
    method FindSwapSlot() returns (i: nat)
      requires Find(disk, -1) < |disk|
      ensures i == Find(disk, -1)
    {
      i := 0;
      while disk[i] != -1
        invariant 0 <= i <= Find(disk, -1)
        decreases |disk| - i
      {
        i := i + 1;
      }
    }

    /** moveram_to_disk while new page `v` is mapped to frame `f`. */
    method MoveRamToDisk(ghost m: Vm, v: int, f: int) returns (ghost c: Vm, ghost w: int)
      requires VmOk(m) && FullEnough(m) && m.free != [] && f == m.free[0] && v !in m.pte
      requires Find(disk, -1) < SLOTS && SwapWritable(swap, Find(disk, -1))
      requires State() == Mapping(m, v, f)
      requires Chain(queue, next, prev, head, tail) && Covers(queue, ram)
      modifies this
      ensures VmOk(c) && Flat(c) == Flat(m) && c == m.(pte := c.pte) && SameResidence(m, c) && EvictReady(c, w)
      ensures State() == Moved(c, v, w, f) && Chosen(old(queue), m, w, queue, c) && Covers(queue, c.ram[w := -1])
      ensures Chain(queue, next, prev, head, tail) && Covers(queue, ram)
      ensures memCount - Occupied(ram) == old(memCount - Occupied(ram))
      ensures swapCount - Occupied(disk) == old(swapCount - Occupied(disk))
    {
      hide Chain, Covers, VmOk, Flat, Chosen;
      TableSizes(m);
      var i := FindSwapSlot();
      var x, y := SelectPageMapped(m, v, f);
      c, w := y, x;
      VictimMapped(m, c, w, f);
      InsertToDisk(i, x);
    }

    /** moveram_to_disk, in terms of what update_memory will then complete. */
    method MakeRoom(ghost m: Vm, v: int, f: int)
      requires RunOk(m) && FullEnough(m) && m.free != [] && f == m.free[0] && v == |m.pte| < TOTAL && v !in m.pte
      requires Find(disk, -1) < SLOTS && SwapWritable(swap, Find(disk, -1))
      requires State() == Mapping(m, v, f)
      requires Chain(queue, next, prev, head, tail) && Covers(queue, ram)
      modifies this
      ensures |ram| == SLOTS && Find(ram, -1) < SLOTS
      ensures Grown(m, v, State().(ram := ram[Find(ram, -1) := v]))
      ensures Chain(queue, next, prev, head, tail) && Covers(queue, ram)
      ensures Roomy(old(queue), m, queue, State(), v)
      ensures memCount - Occupied(ram) == old(memCount - Occupied(ram))
      ensures swapCount - Occupied(disk) == old(swapCount - Occupied(disk))
    {
      hide Chosen, Chain, Covers, Queued, Flat, VmOk;
      ghost var q := queue;
      FullQueue(q, next, prev, head, tail, m);
      ghost var c, w := MoveRamToDisk(m, v, f);
      ChosenQueue(queue, next, prev, head, tail, m, c, v, w);
      MovedThenAdded(m, c, v, w, f);
      MovedLine(q, m, v, w, f, queue, c);
    }

    /** kalloc, memset and mappages for page `v`. */
    method MapPage(v: int) returns (f: int)
      requires free != []
      modifies this`free, this`frames, this`pte
      ensures f == old(free)[0] && State() == Mapping(old(State()), v, f)
    {
      f := free[0];
      free := free[1..];
      frames := frames[f := Filled(0)];
      pte := pte[v := Mapped(f)];
    }

    /** Makes sure there is a slot for the page just mapped. */
    method PrepareSlot(ghost m: Vm, v: int, f: int)
      requires RunOk(m) && m.free != [] && f == m.free[0] && v == |m.pte| < TOTAL && v !in m.pte
      requires State() == Mapping(m, v, f)
      requires Chain(queue, next, prev, head, tail) && Covers(queue, ram)
      requires memCount == Occupied(ram) && swapCount == Occupied(disk)
      modifies this
      ensures |ram| == SLOTS && Find(ram, -1) < SLOTS
      ensures Grown(m, v, State().(ram := ram[Find(ram, -1) := v]))
      ensures Chain(queue, next, prev, head, tail) && Covers(queue, ram)
      ensures memCount == Occupied(ram) && swapCount == Occupied(disk)
      ensures Roomy(old(queue), m, queue, State(), v)
    {
      hide Roomy, Chain, Covers, Queued;
      FullQueue(queue, next, prev, head, tail, m);
      GrowCases(m);
      if memCount >= SLOTS {
        if swapCount >= SLOTS {
          assert false; // "swap file and ram full": excluded by the size check
        }
        MakeRoom(m, v, f);
      } else {
        RoomThenAdded(m, v, f);
        RoomLine(queue, m, v, f);
      }
    }

    /** One turn of allocuvm's loop: page number `v` is the next one. */
    method AllocPage(v: int)
      requires Valid() && v == |pte| < TOTAL && free != []
      modifies this
      ensures Valid() && Grown(old(State()), v, State())
      ensures Ring() == Bring(old(Ring()), Entry(v, false))
    {
      hide Roomy, Brought, Chain, Covers, Queued, Line, Bring;
      ghost var m, q := State(), queue;
      assert v !in m.pte;
      var f := MapPage(v);
      PrepareSlot(m, v, f);
      EnterPage(m, v, q);
      BroughtRing(q, m, Entry(v, false), queue, State());
    }

    method EnterPage(ghost m: Vm, v: int, ghost q: seq<int>)
      requires |ram| == SLOTS && Find(ram, -1) < SLOTS && v != -1
      requires Grown(m, v, State().(ram := ram[Find(ram, -1) := v]))
      requires Chain(queue, next, prev, head, tail) && Covers(queue, ram)
      requires memCount == Occupied(ram) && swapCount == Occupied(disk)
      requires Roomy(q, m, queue, State(), v)
      modifies this`ram, this`next, this`prev, this`head, this`tail, this`memCount, this`queue
      ensures Valid() && Grown(m, v, State())
      ensures Brought(q, m, Entry(v, false), queue, State())
    {
      hide Roomy, Brought, Bring;
      ghost var r := State().(ram := ram[Find(ram, -1) := v]);
      EnterBrings(q, m, queue, State(), v);
      var i := UpdateMemory(v);
      assert State() == r;
    }

    /** allocuvm for a process below the paging limits: the new pages read as
        zeros and the old ones keep their contents. `oom` is kalloc's failure,
        with every page up to the one refused in place; deallocuvm comes next. */
    method AllocUvm(oldsz: nat, newsz: nat) returns (r: nat, oom: bool)
      requires Valid() && |pte| == Pages(oldsz)
      modifies this
      ensures Valid()
      ensures r == if oom || newsz >= KERNBASE || (newsz >= oldsz && Pages(newsz) > TOTAL) then 0
                   else if newsz < oldsz then oldsz else newsz
      ensures !oom ==>
        |pte| == if newsz >= KERNBASE || newsz < oldsz || Pages(newsz) > TOTAL then Pages(oldsz) else Pages(newsz)
      ensures oom ==> newsz < KERNBASE && free == [] && Pages(oldsz) <= |pte| < Pages(newsz) <= TOTAL
      ensures oom ==> Pages(newsz) > old(|pte| + |free|)
      ensures Flat(State()) == ZeroExtended(old(Flat(State())), |old(pte)|, |pte|)
      ensures Ring() == BringAll(old(Ring()), |old(pte)|, |pte|) && Conserves(old(State()), State())
    {
      hide Chain, Covers, VmOk, Ring, Bring, Conserves;
      oom := false;
      ConservesSame(State(), State());
      if newsz >= KERNBASE {
        return 0, false;
      }
      if newsz < oldsz {
        return oldsz, false;
      }
      if Pages(newsz) > TOTAL {
        return 0, false;
      }
      ghost var flat, n := Flat(State()), |pte|;
      var a := Pages(oldsz) * PGSIZE;
      while a < newsz
        invariant Valid() && a == |pte| * PGSIZE && n <= |pte| <= Pages(newsz)
        invariant |pte| + |free| >= old(|pte| + |free|)
        invariant Flat(State()) == ZeroExtended(flat, n, |pte|)
        invariant Ring() == BringAll(old(Ring()), n, |pte|) && Conserves(old(State()), State())
        decreases newsz - a
      {
        if free == [] {
          return 0, true;
        }
        ghost var m := State();
        AllocPage(a / PGSIZE);
        ConservesTwice(old(State()), m, State());
        a := a + PGSIZE;
      }
      r := newsz;
    }
  }

  const KERNBASE := 0x80000000

  /** PGROUNDUP(n) / PGSIZE. */
  function Pages(n: nat): (p: nat) {
    (n + PGSIZE - 1) / PGSIZE
  }

  /** Flat memory grown from `n` pages to `k`, with zeros. */
  function ZeroExtended(f: map<int, Page>, n: nat, k: nat): (r: map<int, Page>) {
    if k <= n then f else ZeroExtended(f, n, k - 1)[k - 1 := Filled(0)]
  }

  lemma {:induction false} ZeroExtendedAt(f: map<int, Page>, n: nat, k: nat, v: int)
    ensures v in ZeroExtended(f, n, k) <==> v in f || n <= v < k
    ensures v in ZeroExtended(f, n, k) ==> ZeroExtended(f, n, k)[v] == if n <= v < k then Filled(0) else f[v]
    decreases k
  {
    if k > n {
      ZeroExtendedAt(f, n, k - 1, v);
    }
  }

  ghost predicate Grown(m: Vm, v: int, r: Vm) {
    && VmOk(m) && RunOk(r) && Flat(r) == Flat(m)[v := Filled(0)]
    && |r.pte| == v + 1 && |r.free| >= |m.free| - 1 && Conserves(m, r)
  }

  /** allocuvm between mappages and update_memory. */
  function Mapping(m: Vm, v: int, f: int): (r: Vm)
    requires m.free != []
  {
    m.(free := m.free[1..], frames := m.frames[f := Filled(0)], pte := m.pte[v := Mapped(f)])
  }

  predicate EvictReady(c: Vm, w: int) {
    && CanEvict(c, w) && c.ram[w] != -1 && c.free != []
    && Find(c.disk, -1) < SLOTS && SwapWritable(c.swap, Find(c.disk, -1))
  }

  /** allocuvm between moveram_to_disk and update_memory. */
  function Moved(c: Vm, v: int, w: int, f: int): (r: Vm)
    requires EvictReady(c, w)
  {
    var e := Evict(c.(free := c.free[1..]), w);
    e.(pte := c.pte[v := Mapped(f)][c.ram[w] := Evicted()],
       frames := c.frames[f := Filled(0)][c.pte[c.ram[w]].frame := Filled(1)])
  }

  lemma TableSizes(m: Vm)
    requires VmOk(m)
    ensures |m.ram| == |m.disk| == SLOTS
  {
  }

  lemma VictimMapped(m: Vm, c: Vm, w: int, f: int)
    requires VmOk(c) && c == m.(pte := c.pte) && FullEnough(m) && 0 <= w < SLOTS
    requires m.free != [] && f == m.free[0]
    ensures CanEvict(c, w) && c.ram[w] != -1 && c.pte[c.ram[w]].frame != f
  {
  }

  lemma EvictedRoom(c: Vm, w: int)
    requires EvictReady(c, w)
    ensures Find(Evict(c.(free := c.free[1..]), w).ram, -1) < SLOTS
  {
    assert c.ram[w := -1][w] == -1;
  }

  /** Mapping the new page before the eviction or after it is all one. */
  lemma EvictThenAdd(c: Vm, v: int, w: int, f: int)
    requires EvictReady(c, w) && FullEnough(c) && f == c.free[0]
    requires v != c.ram[w] && c.pte[c.ram[w]].frame != f
    ensures var x := Moved(c, v, w, f);
            && Find(x.ram, -1) < SLOTS
            && x.(ram := x.ram[Find(x.ram, -1) := v]) == Grow(c, v, w)
  {
    EvictedRoom(c, w);
    var u, was := c.ram[w], c.pte[c.ram[w]].frame;
    assert c.pte[v := Mapped(f)][u := Evicted()] == c.pte[u := Evicted()][v := Mapped(f)];
    assert c.frames[f := Filled(0)][was := Filled(1)] == c.frames[was := Filled(1)][f := Filled(0)];
  }

  lemma GrowDone(m: Vm, c: Vm, v: int, w: int)
    requires RunOk(m) && VmOk(c) && Flat(c) == Flat(m) && c == m.(pte := c.pte) && SameResidence(m, c)
    requires v == |m.pte| < TOTAL && m.free != []
    requires if FullEnough(m) then EvictReady(c, w) else true
    ensures var r := Grow(c, v, w);
            && RunOk(r) && Flat(r) == Flat(m)[v := Filled(0)]
            && |r.pte| == v + 1 && |r.free| >= |m.free| - 1 && Conserves(m, r)
  {
    hide Conserves;
    assert v !in c.pte;
    ResidenceConserves(m, c);
    GrowConserves(c, v, w);
    ConservesTwice(m, c, Grow(c, v, w));
    GrowOk(c, v, w);
    GrowKeys(c, v, w);
    KeysGrow(m.pte, Grow(c, v, w).pte);
  }

  lemma MovedThenAdded(m: Vm, c: Vm, v: int, w: int, f: int)
    requires RunOk(m) && VmOk(c) && Flat(c) == Flat(m) && c == m.(pte := c.pte) && SameResidence(m, c)
    requires v == |m.pte| < TOTAL && v !in m.pte && m.free != [] && f == m.free[0] && FullEnough(m) && EvictReady(c, w)
    ensures var x := Moved(c, v, w, f);
            && Find(x.ram, -1) < SLOTS
            && Grown(m, v, x.(ram := x.ram[Find(x.ram, -1) := v]))
  {
    VictimMapped(m, c, w, f);
    EvictThenAdd(c, v, w, f);
    GrowDone(m, c, v, w);
  }

  lemma RoomThenAdded(m: Vm, v: int, f: int)
    requires RunOk(m) && v == |m.pte| < TOTAL && v !in m.pte && m.free != [] && f == m.free[0]
    requires Find(m.ram, -1) < SLOTS
    ensures var x := Mapping(m, v, f); Grown(m, v, x.(ram := x.ram[Find(x.ram, -1) := v]))
  {
    assert Grow(m, v, 0) == Mapping(m, v, f).(ram := m.ram[Find(m.ram, -1) := v]);
    GrowDone(m, m, v, 0);
  }

  lemma GrowCases(m: Vm)
    requires RunOk(m) && |m.pte| < TOTAL
    ensures |m.pte| !in m.pte
    ensures Occupied(m.ram) >= SLOTS ==>
              FullEnough(m) && Occupied(m.disk) < SLOTS
              && Find(m.disk, -1) < SLOTS && SwapWritable(m.swap, Find(m.disk, -1))
    ensures Occupied(m.ram) < SLOTS ==> Find(m.ram, -1) < SLOTS
  {
    Accounting(m);
    if Occupied(m.ram) >= SLOTS {
      FirstFitWritable(m);
    }
  }

  lemma FaultCases(m: Vm, v: int)
    requires VmOk(m) && v in m.pte && m.pte[v].paged && m.free != []
    ensures CanFault(m, v) && v != -1
    ensures if Occupied(m.ram) >= SLOTS then FullEnough(m) else Find(m.ram, -1) < SLOTS
  {
  }

  /** The policy moves no page. */
  ghost predicate SameResidence(m: Vm, c: Vm) {
    && c.pte.Keys == m.pte.Keys
    && forall v :: v in m.pte ==> c.pte[v] == m.pte[v].(accessed := c.pte[v].accessed)
  }

  lemma ResidenceConserves(m: Vm, c: Vm)
    requires SameResidence(m, c) && c.free == m.free
    ensures Conserves(m, c)
  {
    ConservesSame(m, c);
  }

  /** All that the swap itself relies on. */
  predicate SwapReady(c: Vm, v: int, w: int) {
    && CanFault(c, v) && CanEvict(c, w) && v != -1 && c.ram[w] != -1 && c.ram[w] != v
    && VacatedSlot(c, v) < SLOTS && SwapWritable(c.swap, VacatedSlot(c, v))
    && Find(c.ram[w := -1], -1) < SLOTS
  }

  lemma PolicyKeeps(m: Vm, q: seq<int>, k: nat)
    requires VmOk(m) && Queued(q, m) && k <= |q|
    ensures var c := Cleared(m, q, k); VmOk(c) && Flat(c) == Flat(m) && SameResidence(m, c)
  {
    ClearedOk(m, q, k, Flat(m));
    var c := Cleared(m, q, k);
    forall v | v in m.pte ensures c.pte[v] == m.pte[v].(accessed := c.pte[v].accessed) {
      KeepsPaged(m, q, k, v);
    }
  }

  lemma BecomesReady(m: Vm, c: Vm, v: int, w: int)
    requires VmOk(c) && SameResidence(m, c) && c == m.(pte := c.pte)
    requires v in m.pte && m.pte[v].paged && m.free != [] && FullEnough(m) && 0 <= w < SLOTS
    ensures SwapFault(c, v, w) && SwapReady(c, v, w)
  {
    FaultReady(c, v);
    VictimReady(c, w);
    SwapFaultFacts(c, v, w);
  }

  lemma SwapDone(m: Vm, c: Vm, v: int, w: int)
    requires RunOk(m) && SwapFault(c, v, w) && SwapReady(c, v, w)
    requires SameResidence(m, c) && c.free == m.free && Flat(c) == Flat(m)
    ensures var r := PageSwap(c, v, w);
            && RunOk(r) && Flat(r) == Flat(m) && r.pte.Keys == m.pte.Keys && r.pte[v].present && Conserves(m, r)
  {
    hide Conserves;
    var r := PageSwap(c, v, w);
    PageSwapOk(c, v, w);
    assert r.pte.Keys == c.pte.Keys;
    SamePages(m, r);
    ResidenceConserves(m, c);
    SwapConserves(c, v, w);
    ConservesTwice(m, c, r);
  }

  lemma InDone(m: Vm, v: int)
    requires RunOk(m) && CanFault(m, v) && Find(m.ram, -1) < SLOTS
    ensures var r := PageIn(m, v);
            && RunOk(r) && Flat(r) == Flat(m) && r.pte.Keys == m.pte.Keys && r.pte[v].present && Conserves(m, r)
  {
    hide Conserves;
    var r := PageIn(m, v);
    PageInOk(m, v);
    assert r.pte.Keys == m.pte.Keys;
    SamePages(m, r);
    TakeFrame(m, r, v);
  }

  lemma AppendChain(q: seq<int>, next: seq<int>, prev: seq<int>, head: int, tail: int, ram: seq<int>, i: nat, v: int)
    requires Chain(q, next, prev, head, tail) && Covers(q, ram)
    requires i < SLOTS && ram[i] == -1 && v != -1
    ensures Covers(q + [i], ram[i := v])
    ensures if q == [] then Chain([i], next[i := -1], prev[i := -1], i, i)
            else Chain(q + [i], next[tail := i][i := -1], prev, head, i)
  {
  }

  /** What a valid queue gives: its slots hold distinct mapped pages. */
  lemma QueueFacts(m: Vm, q: seq<int>)
    requires VmOk(m) && Covers(q, m.ram)
    requires forall i :: 0 <= i < |q| ==> 0 <= q[i] < SLOTS
    requires forall i, j :: 0 <= i < j < |q| ==> q[i] != q[j]
    ensures Queued(q, m)
    ensures forall i, j :: 0 <= i < j < |q| ==> m.ram[q[i]] != m.ram[q[j]]
  {
  }

  lemma {:induction false} KeepsPaged(m: Vm, q: seq<int>, k: nat, v: int)
    requires Queued(q, m) && k <= |q| && v in m.pte
    ensures var p := Cleared(m, q, k).pte; p[v] == m.pte[v].(accessed := p[v].accessed)
  {
    if k > 0 {
      KeepsPaged(m, q, k - 1, v);
    }
  }

  lemma {:induction false} ClearedFree(m: Vm, q: seq<int>, k: nat, free: seq<int>)
    requires Queued(q, m) && k <= |q|
    ensures Cleared(m.(free := free), q, k) == Cleared(m, q, k).(free := free)
  {
    if k > 0 {
      ClearedFree(m, q, k - 1, free);
    }
  }

  /** A page outside the queue plays no part in the policy. */
  lemma {:induction false} ClearedMapping(m: Vm, q: seq<int>, k: nat, v: int, f: int)
    requires Queued(q, m) && k <= |q| && m.free != [] && v !in m.pte
    ensures Queued(q, Mapping(m, v, f))
    ensures Cleared(Mapping(m, v, f), q, k) == Mapping(Cleared(m, q, k), v, f)
  {
    if k > 0 {
      ClearedMapping(m, q, k - 1, v, f);
      var c, x := Cleared(m, q, k - 1), m.ram[q[k - 1]];
      MarkMapped(c, v, f, x);
    }
  }

  lemma MarkMapped(c: Vm, v: int, f: int, x: int)
    requires x in c.pte && x != v && c.free != []
    ensures Marked(Mapping(c, v, f), x, false) == Mapping(Marked(c, x, false), v, f)
  {
  }

  lemma SameMark(m: Vm, v: int)
    requires v in m.pte && !m.pte[v].accessed
    ensures Marked(m, v, false) == m
  {
  }

  /** Unqueueing the victim leaves the queue covering the other slots in use. */
  lemma VictimLeaves(q: seq<int>, bits: seq<bool>, ram: seq<int>)
    requires |q| == |bits| > 0 && Covers(q, ram)
    requires forall i :: 0 <= i < |q| ==> 0 <= q[i] < SLOTS
    requires forall i, j :: 0 <= i < j < |q| ==> q[i] != q[j]
    ensures 0 <= Victim(q, bits) < SLOTS
    ensures Covers(Remaining(q, bits), ram[Victim(q, bits) := -1])
  {
    var w, r := Victim(q, bits), Remaining(q, bits);
    RotatedVictim(q, bits);
    var p := Turned(q, Skipped(bits));
    assert p == [w] + r;
    forall i | 0 <= i < SLOTS && i != w ensures i in r <==> i in q {
      assert i in r <==> i in p;
      assert i in p <==> i in q[Skipped(bits)..] || i in q[..Skipped(bits)];
      assert q == q[..Skipped(bits)] + q[Skipped(bits)..];
    }
    assert w !in r;
  }

  lemma RotatedVictim(q: seq<int>, bits: seq<bool>)
    requires |q| == |bits| > 0
    ensures var k := Skipped(bits); var p := Turned(q, k);
            p[0] == Victim(q, bits) && p[1..] == Remaining(q, bits)
  {
    var k := Skipped(bits);
    if k < |q| {
      assert (q[k..] + q[..k])[1..] == q[k + 1..] + q[..k];
    } else {
      assert q[k..] + q[..k] == q;
    }
  }

  lemma RotateOnce(q: seq<int>, k: nat)
    requires k < |q| && forall i, j :: 0 <= i < j < |q| ==> q[i] != q[j]
    ensures var p := Turned(q, k); p[1..] + [p[0]] == Turned(q, k + 1)
    ensures Turned(q, k + 1)[0] == q[0] <==> k + 1 == |q|
  {
  }
}
