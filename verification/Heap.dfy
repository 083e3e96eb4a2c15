/** The Kernighan and Ritchie allocator of umalloc.c: a circular free list in
    address order, coalescing on free and splitting tails on malloc. */
module Heap {

  const UNIT := 8 // sizeof(Header)
  const MINUNITS := 4096
  const WRAP := 0x1_0000_0000

  /** A block: where its header is and how many units it has, header included. */
  datatype Blk = Blk(addr: int, units: int)

  function End(b: Blk): int {
    b.addr + UNIT * b.units
  }

  predicate Apart(a: Blk, b: Blk) {
    End(a) <= b.addr || End(b) <= a.addr
  }

  function Sum(s: seq<Blk>): int {
    if s == [] then 0 else Sum(s[..|s| - 1]) + s[|s| - 1].units
  }

  lemma {:induction false} SumConcat(s: seq<Blk>, t: seq<Blk>)
    ensures Sum(s + t) == Sum(s) + Sum(t)
  {
    if t == [] {
      assert s + t == s;
    } else {
      var m := |t| - 1;
      SumConcat(s, t[..m]);
      assert (s + t)[..|s| + m] == s + t[..m];
    }
  }

  lemma SumThree(x: seq<Blk>, y: seq<Blk>, z: seq<Blk>)
    ensures Sum(x + y + z) == Sum(x) + Sum(y) + Sum(z)
  {
    SumConcat(x + y, z);
    SumConcat(x, y);
  }

  lemma SumSwap(x: seq<Blk>, y: seq<Blk>, z: seq<Blk>, m: Blk)
    ensures Sum(x + [m] + z) == Sum(x + y + z) - Sum(y) + m.units
  {
    SumThree(x, y, z);
    SumThree(x, [m], z);
    SumOne(m);
  }

  lemma SplitThree<T>(s: seq<T>, lo: nat, hi: nat)
    requires lo <= hi <= |s|
    ensures s == s[..lo] + s[lo..hi] + s[hi..]
  {
  }

  lemma SumOne(b: Blk)
    ensures Sum([b]) == b.units
  {
  }

  lemma SumAt(s: seq<Blk>, i: nat)
    requires i < |s|
    ensures Sum(s) == Sum(s[..i]) + s[i].units + Sum(s[i + 1..])
  {
    assert s == (s[..i] + [s[i]]) + s[i + 1..];
    SumConcat(s[..i] + [s[i]], s[i + 1..]);
    SumConcat(s[..i], [s[i]]);
    SumOne(s[i]);
  }

  // Free lists as values ---------------------------------------------------------------------

  /** Address order, disjoint, and never two neighbours that touch. */
  predicate FreeOk(fl: seq<Blk>, base: int) {
    && (forall i :: 0 <= i < |fl| ==> fl[i].units > 0 && base < fl[i].addr)
    && forall i, j :: 0 <= i < j < |fl| ==> End(fl[i]) < fl[j].addr
  }

  predicate ApartAll(b: Blk, s: seq<Blk>) {
    forall i :: 0 <= i < |s| ==> Apart(b, s[i])
  }

  /** How many free blocks lie below `addr`. */
  function Below(fl: seq<Blk>, addr: int): (i: nat)
    ensures i <= |fl|
  {
    if fl == [] || fl[0].addr >= addr then 0 else 1 + Below(fl[1..], addr)
  }

  lemma {:induction false} BelowSplits(fl: seq<Blk>, base: int, addr: int)
    requires FreeOk(fl, base)
    ensures forall i :: 0 <= i < |fl| ==> (i < Below(fl, addr) <==> fl[i].addr < addr)
  {
    if fl != [] && fl[0].addr < addr {
      assert FreeOk(fl[1..], base);
      BelowSplits(fl[1..], base, addr);
      forall i | 0 <= i < |fl| ensures i < Below(fl, addr) <==> fl[i].addr < addr {
        if i > 0 {
          assert fl[i] == fl[1..][i - 1];
        }
      }
    } else if fl != [] {
      forall i | 0 <= i < |fl| ensures fl[i].addr >= addr {
        if i > 0 {
          assert End(fl[0]) < fl[i].addr;
        }
      }
    }
  }

  predicate JoinsUp(fl: seq<Blk>, i: nat, b: Blk)
    requires i <= |fl|
  {
    i < |fl| && End(b) == fl[i].addr
  }

  predicate JoinsDown(fl: seq<Blk>, i: nat, b: Blk)
    requires i <= |fl|
  {
    i > 0 && End(fl[i - 1]) == b.addr
  }

  /** `m` in place of the blocks from `lo` up to `hi`. */
  function Replaced(fl: seq<Blk>, lo: nat, hi: nat, m: Blk): (r: seq<Blk>)
    requires lo <= hi <= |fl|
    ensures |r| == |fl| - (hi - lo) + 1
  {
    fl[..lo] + [m] + fl[hi..]
  }

  lemma ReplacedAt(fl: seq<Blk>, lo: nat, hi: nat, m: Blk, k: nat)
    requires lo <= hi <= |fl| && k < |Replaced(fl, lo, hi, m)|
    ensures Replaced(fl, lo, hi, m)[k] == if k < lo then fl[k] else if k == lo then m else fl[k - lo - 1 + hi]
  {
  }

  lemma ReplacedFree(fl: seq<Blk>, base: int, lo: nat, hi: nat, m: Blk)
    requires FreeOk(fl, base) && lo <= hi <= |fl| && m.units > 0 && base < m.addr
    requires forall k :: 0 <= k < lo ==> End(fl[k]) < m.addr
    requires forall k :: hi <= k < |fl| ==> End(m) < fl[k].addr
    ensures FreeOk(Replaced(fl, lo, hi, m), base)
  {
  }

  lemma ReplacedSum(fl: seq<Blk>, lo: nat, hi: nat, m: Blk)
    requires lo <= hi <= |fl|
    ensures Sum(Replaced(fl, lo, hi, m)) == Sum(fl) - Sum(fl[lo..hi]) + m.units
  {
    SplitThree(fl, lo, hi);
    SumSwap(fl[..lo], fl[lo..hi], fl[hi..], m);
  }

  function Lo(fl: seq<Blk>, i: nat, b: Blk): (k: nat)
    requires i <= |fl|
    ensures k <= i
  {
    if JoinsDown(fl, i, b) then i - 1 else i
  }

  function Hi(fl: seq<Blk>, i: nat, b: Blk): (k: nat)
    requires i <= |fl|
    ensures i <= k <= |fl|
  {
    if JoinsUp(fl, i, b) then i + 1 else i
  }

  /** `b` together with the neighbours it touches. */
  function Joined(fl: seq<Blk>, i: nat, b: Blk): (m: Blk)
    requires i <= |fl|
  {
    var up := if JoinsUp(fl, i, b) then Blk(b.addr, b.units + fl[i].units) else b;
    if JoinsDown(fl, i, b) then Blk(fl[i - 1].addr, fl[i - 1].units + up.units) else up
  }

  /** free: `b` goes in at position `i`, joined to the neighbours it touches. */
  function Inserted(fl: seq<Blk>, i: nat, b: Blk): (r: seq<Blk>)
    requires i <= |fl|
  {
    Replaced(fl, Lo(fl, i, b), Hi(fl, i, b), Joined(fl, i, b))
  }

  lemma InsertedFree(fl: seq<Blk>, base: int, b: Blk)
    requires FreeOk(fl, base) && b.units > 0 && base < b.addr && ApartAll(b, fl)
    ensures FreeOk(Inserted(fl, Below(fl, b.addr), b), base)
  {
    var i := Below(fl, b.addr);
    BelowSplits(fl, base, b.addr);
    var lo, hi, m := Lo(fl, i, b), Hi(fl, i, b), Joined(fl, i, b);
    if i > 0 { assert Apart(b, fl[i - 1]); }
    if i < |fl| { assert Apart(b, fl[i]); }
    forall k | 0 <= k < lo ensures End(fl[k]) < m.addr {
      if k < i - 1 { assert End(fl[k]) < fl[i - 1].addr; }
    }
    forall k | hi <= k < |fl| ensures End(m) < fl[k].addr {
      if k > i { assert End(fl[i]) < fl[k].addr; }
    }
    ReplacedFree(fl, base, lo, hi, m);
  }

  lemma JoinedSum(fl: seq<Blk>, i: nat, b: Blk)
    requires i <= |fl|
    ensures Sum(fl[Lo(fl, i, b)..Hi(fl, i, b)]) + b.units == Joined(fl, i, b).units
  {
    if JoinsDown(fl, i, b) && JoinsUp(fl, i, b) {
      assert fl[i - 1..i + 1] == [fl[i - 1]] + [fl[i]];
      SumConcat([fl[i - 1]], [fl[i]]);
      SumOne(fl[i - 1]);
      SumOne(fl[i]);
    } else if JoinsDown(fl, i, b) {
      assert fl[i - 1..i] == [fl[i - 1]];
      SumOne(fl[i - 1]);
    } else if JoinsUp(fl, i, b) {
      assert fl[i..i + 1] == [fl[i]];
      SumOne(fl[i]);
    }
  }

  lemma InsertedSum(fl: seq<Blk>, i: nat, b: Blk)
    requires i <= |fl|
    ensures Sum(Inserted(fl, i, b)) == Sum(fl) + b.units
  {
    JoinedSum(fl, i, b);
    ReplacedSum(fl, Lo(fl, i, b), Hi(fl, i, b), Joined(fl, i, b));
  }

  /** Joining covers no more than the parts did. */
  lemma InsertedApart(fl: seq<Blk>, i: nat, b: Blk, x: Blk)
    requires i <= |fl| && ApartAll(x, fl) && Apart(x, b)
    requires x.units > 0 && b.units > 0 && forall k :: 0 <= k < |fl| ==> fl[k].units > 0
    ensures ApartAll(x, Inserted(fl, i, b))
  {
  }

  /** malloc from free block `i`: all of it, or its tail. */
  function Taken(fl: seq<Blk>, i: nat, n: int): (r: (seq<Blk>, Blk))
    requires i < |fl| && fl[i].units >= n
  {
    if fl[i].units == n then (fl[..i] + fl[i + 1..], fl[i])
    else
      var left := Blk(fl[i].addr, fl[i].units - n);
      (fl[i := left], Blk(End(left), n))
  }

  lemma TakenSum(fl: seq<Blk>, i: nat, n: int)
    requires i < |fl| && fl[i].units >= n
    ensures Sum(Taken(fl, i, n).0) + n == Sum(fl)
  {
    SumAt(fl, i);
    if fl[i].units == n {
      SumConcat(fl[..i], fl[i + 1..]);
    } else {
      var r := Taken(fl, i, n).0;
      SumAt(r, i);
      assert r[..i] == fl[..i] && r[i + 1..] == fl[i + 1..];
    }
  }

  lemma TakenOk(fl: seq<Blk>, base: int, i: nat, n: int)
    requires FreeOk(fl, base) && i < |fl| && fl[i].units >= n > 0
    ensures var (r, b) := Taken(fl, i, n);
            && FreeOk(r, base) && b.units == n && base < b.addr && ApartAll(b, r)
            && fl[i].addr <= b.addr && End(b) == End(fl[i])
  {
  }

  // Byte by byte ---------------------------------------------------------------------------------

  predicate InBlk(a: int, b: Blk) {
    b.addr <= a < End(b)
  }

  predicate IsFree(fl: seq<Blk>, a: int) {
    exists k :: 0 <= k < |fl| && InBlk(a, fl[k])
  }

  /** Joining blocks that touch covers exactly what they covered. */
  lemma JoinedCovers(fl: seq<Blk>, i: nat, b: Blk, a: int)
    requires i <= |fl| && b.units > 0 && forall k :: 0 <= k < |fl| ==> fl[k].units > 0
    ensures InBlk(a, Joined(fl, i, b)) <==>
            InBlk(a, b) || (JoinsDown(fl, i, b) && InBlk(a, fl[i - 1])) || (JoinsUp(fl, i, b) && InBlk(a, fl[i]))
  {
  }

  /** After free, the free bytes are those that were and the block's. */
  lemma InsertedCovers(fl: seq<Blk>, i: nat, b: Blk, a: int)
    requires i <= |fl| && b.units > 0 && forall k :: 0 <= k < |fl| ==> fl[k].units > 0
    ensures IsFree(Inserted(fl, i, b), a) <==> IsFree(fl, a) || InBlk(a, b)
  {
    hide InBlk;
    var lo, hi, m := Lo(fl, i, b), Hi(fl, i, b), Joined(fl, i, b);
    var r := Inserted(fl, i, b);
    JoinedCovers(fl, i, b, a);
    if IsFree(r, a) {
      var k :| 0 <= k < |r| && InBlk(a, r[k]);
      ReplacedAt(fl, lo, hi, m, k);
    }
    if IsFree(fl, a) {
      var k :| 0 <= k < |fl| && InBlk(a, fl[k]);
      var o := if k < lo then k else if k < hi then lo else k + lo + 1 - hi;
      ReplacedAt(fl, lo, hi, m, o);
      assert InBlk(a, r[o]);
    }
    if InBlk(a, b) {
      ReplacedAt(fl, lo, hi, m, lo);
      assert InBlk(a, r[lo]);
    }
  }

  /** Before malloc, the free bytes are those left and the new block's. */
  lemma TakenCovers(fl: seq<Blk>, i: nat, n: int, a: int)
    requires i < |fl| && fl[i].units >= n > 0
    ensures IsFree(fl, a) <==> IsFree(Taken(fl, i, n).0, a) || InBlk(a, Taken(fl, i, n).1)
  {
    var (r, b) := Taken(fl, i, n);
    if IsFree(fl, a) {
      var k :| 0 <= k < |fl| && InBlk(a, fl[k]);
      if k != i {
        assert InBlk(a, r[if fl[i].units == n && k > i then k - 1 else k]);
      } else if fl[i].units != n && !InBlk(a, b) {
        assert InBlk(a, r[i]);
      }
    }
    if IsFree(r, a) {
      var k :| 0 <= k < |r| && InBlk(a, r[k]);
      assert InBlk(a, fl[if fl[i].units == n && k >= i then k + 1 else k]);
    }
    if InBlk(a, b) {
      assert InBlk(a, fl[i]);
    }
  }

  /** `p` is the last header on the list below `addr`. */
  predicate JustBelow(fl: seq<Blk>, base: int, p: int, addr: int) {
    && (p == base || exists k :: 0 <= k < |fl| && fl[k].addr == p)
    && p < addr && forall k :: 0 <= k < |fl| ==> fl[k].addr <= p || addr < fl[k].addr
  }

  lemma PlaceIs(fl: seq<Blk>, base: int, b: Blk)
    requires FreeOk(fl, base) && b.units > 0 && base < b.addr && ApartAll(b, fl)
    ensures JustBelow(fl, base, Node(fl, base, Below(fl, b.addr)), b.addr)
  {
    var i := Below(fl, b.addr);
    BelowSplits(fl, base, b.addr);
    forall k | 0 <= k < |fl| ensures fl[k].addr <= Node(fl, base, i) || b.addr < fl[k].addr {
      assert Apart(b, fl[k]);
      if k + 1 < i {
        assert End(fl[k]) < fl[i - 1].addr;
      }
    }
  }

  // The list in memory --------------------------------------------------------------------------

  /** Headers on the list: the static `base` first, then the free blocks. */
  function Node(fl: seq<Blk>, base: int, k: nat): (a: int)
    requires k <= |fl|
  {
    if k == 0 then base else fl[k - 1].addr
  }

  function After(fl: seq<Blk>, base: int, k: nat): (a: int)
    requires k <= |fl|
  {
    if k == |fl| then base else fl[k].addr
  }

  /** One ring through base and the free blocks, in address order. */
  predicate Linked(fl: seq<Blk>, base: int, ptr: map<int, int>, size: map<int, int>) {
    && base in size && size[base] == 0
    && (forall k :: 0 <= k <= |fl| ==> Node(fl, base, k) in ptr && ptr[Node(fl, base, k)] == After(fl, base, k))
    && forall k :: 0 <= k < |fl| ==> fl[k].addr in size && size[fl[k].addr] == fl[k].units
  }

  /** free's two tests: between neighbours, or at the ends of the arena. */
  predicate Stops(bp: int, p: int, n: int) {
    (bp > p && bp < n) || (p >= n && (bp > p || bp < n))
  }

  /** Where free's two tests stop the search for a block at `addr`. */
  lemma SearchStops(fl: seq<Blk>, base: int, addr: int, k: nat)
    requires FreeOk(fl, base) && base < addr && k <= |fl|
    requires forall i :: 0 <= i < |fl| ==> fl[i].addr != addr
    ensures var p, n := Node(fl, base, k), After(fl, base, k);
            Stops(addr, p, n) <==> k == Below(fl, addr)
  {
    BelowSplits(fl, base, addr);
    if k > 0 && k < |fl| {
      assert End(fl[k - 1]) < fl[k].addr;
    }
  }

  datatype Mem = Mem(ptr: map<int, int>, size: map<int, int>)

  /** free's header writes, once the place `p` is found. */
  function Wired(m: Mem, bp: int, p: int): (r: Mem)
    requires bp in m.size && p in m.ptr && p in m.size && m.ptr[p] in m.ptr && m.ptr[p] in m.size
  {
    var n := m.ptr[p];
    var m1 := if bp + UNIT * m.size[bp] == n
              then Mem(m.ptr[bp := m.ptr[n]], m.size[bp := m.size[bp] + m.size[n]])
              else Mem(m.ptr[bp := n], m.size);
    if p + UNIT * m1.size[p] == bp
    then Mem(m1.ptr[p := m1.ptr[bp]], m1.size[p := m1.size[p] + m1.size[bp]])
    else Mem(m1.ptr[p := bp], m1.size)
  }

  ghost predicate Insertable(fl: seq<Blk>, base: int, m: Mem, b: Blk) {
    && FreeOk(fl, base) && Linked(fl, base, m.ptr, m.size)
    && b.units > 0 && base < b.addr && ApartAll(b, fl)
    && b.addr in m.size && m.size[b.addr] == b.units
  }

  /** The place found: its node, its successor, and which joins happen. */
  lemma PlaceFacts(fl: seq<Blk>, base: int, m: Mem, b: Blk)
    requires Insertable(fl, base, m, b)
    ensures var i := Below(fl, b.addr); var p, n := Node(fl, base, i), After(fl, base, i);
            && p in m.ptr && p in m.size && m.ptr[p] == n && n in m.ptr && n in m.size && p < b.addr
            && (b.addr + UNIT * m.size[b.addr] == n <==> JoinsUp(fl, i, b))
            && (p + UNIT * m.size[p] == b.addr <==> JoinsDown(fl, i, b))
            && (JoinsUp(fl, i, b) ==> m.ptr[n] == After(fl, base, i + 1) && m.size[n] == fl[i].units && n != p)
  {
    var i := Below(fl, b.addr);
    BelowSplits(fl, base, b.addr);
    assert Node(fl, base, 0) == base && base in m.ptr;
    assert i < |fl| ==> After(fl, base, i) == Node(fl, base, i + 1);
    if i > 0 { assert Apart(b, fl[i - 1]); }
  }

  /** What the writes amount to. */
  lemma WiredFacts(fl: seq<Blk>, base: int, m: Mem, b: Blk)
    requires Insertable(fl, base, m, b)
    ensures var i := Below(fl, b.addr); var p := Node(fl, base, i);
            && p in m.ptr && p in m.size && m.ptr[p] in m.ptr && m.ptr[p] in m.size && p != b.addr
            && var w := Wired(m, b.addr, p); var up := After(fl, base, Hi(fl, i, b)); var j := Joined(fl, i, b);
            && w.ptr == m.ptr[b.addr := up][p := if JoinsDown(fl, i, b) then up else b.addr]
            && j.addr in w.size && w.size[j.addr] == j.units
            && (forall a :: a in m.size && a != b.addr && a != j.addr ==> a in w.size && w.size[a] == m.size[a])
  {
    PlaceFacts(fl, base, m, b);
  }

  lemma WiredSizes(fl: seq<Blk>, base: int, m: Mem, b: Blk)
    requires Insertable(fl, base, m, b)
    requires var p := Node(fl, base, Below(fl, b.addr));
             p in m.ptr && p in m.size && m.ptr[p] in m.ptr && m.ptr[p] in m.size
    ensures var i := Below(fl, b.addr); var w, r := Wired(m, b.addr, Node(fl, base, i)), Inserted(fl, i, b);
            && base in w.size && w.size[base] == 0
            && forall k :: 0 <= k < |r| ==> r[k].addr in w.size && w.size[r[k].addr] == r[k].units
  {
    WiredFacts(fl, base, m, b);
    InsertedFree(fl, base, b);
    var i := Below(fl, b.addr);
    BelowSplits(fl, base, b.addr);
    var w, r := Wired(m, b.addr, Node(fl, base, i)), Inserted(fl, i, b);
    var lo, hi, j := Lo(fl, i, b), Hi(fl, i, b), Joined(fl, i, b);
    forall k | 0 <= k < |r| ensures r[k].addr in w.size && w.size[r[k].addr] == r[k].units {
      ReplacedAt(fl, lo, hi, j, k);
      ReplacedAt(fl, lo, hi, j, lo);
      assert k < lo ==> End(r[k]) < r[lo].addr;
      assert lo < k ==> End(r[lo]) < r[k].addr;
    }
  }

  lemma ReplacedNode(fl: seq<Blk>, base: int, lo: nat, hi: nat, m: Blk, k: nat)
    requires lo <= hi <= |fl| && k <= |fl| - (hi - lo) + 1
    ensures Node(Replaced(fl, lo, hi, m), base, k) ==
            if k <= lo then Node(fl, base, k) else if k == lo + 1 then m.addr else Node(fl, base, k - lo - 1 + hi)
    ensures After(Replaced(fl, lo, hi, m), base, k) ==
            if k < lo then After(fl, base, k) else if k == lo then m.addr else After(fl, base, k - lo - 1 + hi)
  {
  }

  /** The node of the joined block. */
  lemma WiredNew(fl: seq<Blk>, base: int, m: Mem, b: Blk, ptr: map<int, int>)
    requires Insertable(fl, base, m, b)
    requires var i := Below(fl, b.addr); var up := After(fl, base, Hi(fl, i, b));
             ptr == m.ptr[b.addr := up][Node(fl, base, i) := if JoinsDown(fl, i, b) then up else b.addr]
    ensures var i := Below(fl, b.addr); var j := Joined(fl, i, b);
            j.addr in ptr && ptr[j.addr] == After(fl, base, Hi(fl, i, b))
  {
  }

  /** A node that was listed before, and is not the one in front of the joined block. */
  lemma WiredOld(fl: seq<Blk>, base: int, m: Mem, b: Blk, ptr: map<int, int>, o: nat)
    requires Insertable(fl, base, m, b) && o <= |fl| && o != Below(fl, b.addr)
    requires var i := Below(fl, b.addr); var up := After(fl, base, Hi(fl, i, b));
             ptr == m.ptr[b.addr := up][Node(fl, base, i) := if JoinsDown(fl, i, b) then up else b.addr]
    ensures Node(fl, base, o) in ptr && ptr[Node(fl, base, o)] == After(fl, base, o)
  {
  }

  lemma WiredNext(fl: seq<Blk>, base: int, m: Mem, b: Blk, ptr: map<int, int>, k: nat)
    requires Insertable(fl, base, m, b) && k <= |Inserted(fl, Below(fl, b.addr), b)|
    requires var i := Below(fl, b.addr); var up := After(fl, base, Hi(fl, i, b));
             ptr == m.ptr[b.addr := up][Node(fl, base, i) := if JoinsDown(fl, i, b) then up else b.addr]
    ensures var r := Inserted(fl, Below(fl, b.addr), b);
            Node(r, base, k) in ptr && ptr[Node(r, base, k)] == After(r, base, k)
  {
    var i := Below(fl, b.addr);
    var lo, hi, j := Lo(fl, i, b), Hi(fl, i, b), Joined(fl, i, b);
    ReplacedNode(fl, base, lo, hi, j, k);
    if k == lo + 1 {
      WiredNew(fl, base, m, b, ptr);
    } else if k != i {
      WiredOld(fl, base, m, b, ptr, if k <= lo then k else k - lo - 1 + hi);
    }
  }

  lemma NodesDiffer(fl: seq<Blk>, base: int, k: nat, j: nat)
    requires FreeOk(fl, base) && k <= |fl| && j <= |fl| && k != j
    ensures Node(fl, base, k) != Node(fl, base, j)
  {
  }

  lemma WiredLinked(fl: seq<Blk>, base: int, m: Mem, b: Blk)
    requires Insertable(fl, base, m, b)
    ensures var i := Below(fl, b.addr); var p := Node(fl, base, i);
            && p in m.ptr && p in m.size && m.ptr[p] in m.ptr && m.ptr[p] in m.size
            && var w := Wired(m, b.addr, p); Linked(Inserted(fl, i, b), base, w.ptr, w.size)
  {
    WiredFacts(fl, base, m, b);
    WiredSizes(fl, base, m, b);
    var w := Wired(m, b.addr, Node(fl, base, Below(fl, b.addr)));
    forall k | 0 <= k <= |Inserted(fl, Below(fl, b.addr), b)|
      ensures var r := Inserted(fl, Below(fl, b.addr), b);
              Node(r, base, k) in w.ptr && w.ptr[Node(r, base, k)] == After(r, base, k)
    {
      WiredNext(fl, base, m, b, w.ptr, k);
    }
  }

  /** malloc's header writes when free block `i` is used whole. */
  lemma UnlinkLinked(fl: seq<Blk>, base: int, m: Mem, i: nat)
    requires FreeOk(fl, base) && Linked(fl, base, m.ptr, m.size) && i < |fl|
    ensures Node(fl, base, i + 1) in m.ptr
    ensures Linked(fl[..i] + fl[i + 1..], base, m.ptr[Node(fl, base, i) := m.ptr[Node(fl, base, i + 1)]], m.size)
  {
    var r, p := fl[..i] + fl[i + 1..], Node(fl, base, i);
    var ptr := m.ptr[p := m.ptr[Node(fl, base, i + 1)]];
    forall k | 0 <= k <= |r| ensures Node(r, base, k) in ptr && ptr[Node(r, base, k)] == After(r, base, k) {
      var o := if k <= i then k else k + 1;
      assert Node(r, base, k) == Node(fl, base, o) && Node(fl, base, o) in m.ptr;
      if o != i {
        NodesDiffer(fl, base, o, i);
      }
    }
  }

  /** ... and when its tail is split off. */
  lemma SplitLinked(fl: seq<Blk>, base: int, m: Mem, i: nat, n: int)
    requires FreeOk(fl, base) && Linked(fl, base, m.ptr, m.size) && i < |fl| && fl[i].units > n > 0
    ensures var (r, b) := Taken(fl, i, n);
            Linked(r, base, m.ptr, m.size[fl[i].addr := fl[i].units - n][b.addr := n])
  {
    var (r, b) := Taken(fl, i, n);
    TakenOk(fl, base, i, n);
    forall k | 0 <= k <= |r| ensures Node(r, base, k) in m.ptr && m.ptr[Node(r, base, k)] == After(r, base, k) {
      assert Node(r, base, k) == Node(fl, base, k) && After(r, base, k) == After(fl, base, k);
    }
    forall k | 0 <= k < |r| ensures r[k].addr != b.addr && (k != i ==> r[k].addr != fl[i].addr) {
      assert Apart(b, r[k]);
      if k < i { assert End(fl[k]) < fl[i].addr; }
      if k > i { assert End(fl[i]) < fl[k].addr; }
    }
  }

  // Live blocks ----------------------------------------------------------------------------------

  ghost predicate LiveOk(live: seq<Blk>, fl: seq<Blk>, base: int, size: map<int, int>) {
    && (forall i :: 0 <= i < |live| ==>
          && live[i].units > 0 && base < live[i].addr && ApartAll(live[i], fl)
          && live[i].addr in size && size[live[i].addr] == live[i].units)
    && forall i, j :: 0 <= i < j < |live| ==> Apart(live[i], live[j])
  }

  predicate Under(s: seq<Blk>, top: int) {
    forall i :: 0 <= i < |s| ==> End(s[i]) <= top
  }

  /** The allocator: header memory and freep; for the record the free list with
      freep's place on it, the live blocks, the units morecore has added and
      where they end; and the process's break, the end of the memory it has,
      and the bytes by which morecore has moved the break. */
  datatype State = State(
    m: Mem, freep: int, started: bool,
    fl: seq<Blk>, at: nat, live: seq<Blk>, total: int, top: int, brk: int, mem: int, given: int)

  predicate ListOk(s: State, base: int) {
    && FreeOk(s.fl, base) && Under(s.fl, s.top) && base < s.top
    && (s.started ==> Linked(s.fl, base, s.m.ptr, s.m.size) && s.at <= |s.fl| && s.freep == Node(s.fl, base, s.at))
    && (!s.started ==> s.fl == [])
  }

  /** The list is one address-ordered ring of disjoint blocks no two of which
      touch; live blocks overlap neither it nor each other; and free and live
      units together are the units morecore added. */
  ghost predicate HeapOk(s: State, base: int) {
    && ListOk(s, base)
    && (!s.started ==> s.live == [])
    && LiveOk(s.live, s.fl, base, s.m.size) && Under(s.live, s.top)
    && Sum(s.fl) + Sum(s.live) == s.total
  }

  /** The units are memory: all blocks lie in it, and morecore has added as many
      as it obtained. */
  predicate Backed(s: State) {
    s.top <= s.mem == s.brk < KERNBASE && UNIT * s.total == s.given
  }

  ghost predicate Sound(s: State, base: int) {
    HeapOk(s, base) && Backed(s)
  }

  /** Memory below KERNBASE has no block of 2^28 units. */
  lemma NoGiant(s: State, base: int, i: nat)
    requires Sound(s, base) && base > 0 && i < |s.fl|
    ensures s.fl[i].units < REACH
  {
    assert End(s.fl[i]) <= s.top && base < s.fl[i].addr;
  }

  // Steps ------------------------------------------------------------------------------------------

  ghost predicate CanPutBack(s: State, base: int, b: Blk) {
    ListOk(s, base) && s.started && Insertable(s.fl, base, s.m, b) && End(b) <= s.top
  }

  /** free of a block that is in nobody's hands. */
  function PutBack(s: State, base: int, b: Blk): (r: State)
    requires var p := Node(s.fl, base, Below(s.fl, b.addr));
             b.addr in s.m.size && p in s.m.ptr && p in s.m.size && s.m.ptr[p] in s.m.ptr && s.m.ptr[p] in s.m.size
  {
    var i := Below(s.fl, b.addr);
    var p := Node(s.fl, base, i);
    s.(m := Wired(s.m, b.addr, p), freep := p, fl := Inserted(s.fl, i, b), at := i)
  }

  predicate PlaceKnown(s: State, base: int, b: Blk) {
    var p := Node(s.fl, base, Below(s.fl, b.addr));
    b.addr in s.m.size && p in s.m.ptr && p in s.m.size && s.m.ptr[p] in s.m.ptr && s.m.ptr[p] in s.m.size
  }

  lemma PutBackOk(s: State, base: int, b: Blk)
    requires CanPutBack(s, base, b)
    ensures PlaceKnown(s, base, b) && ListOk(PutBack(s, base, b), base)
    ensures forall i :: 0 <= i < |s.fl| ==> s.fl[i].addr != b.addr
    ensures var w := PutBack(s, base, b).m;
            forall a :: a in s.m.size && a != b.addr && a != Joined(s.fl, Below(s.fl, b.addr), b).addr ==>
              a in w.size && w.size[a] == s.m.size[a]
  {
    FreedList(s.fl, base, b, s.top);
    FreedMem(s.fl, base, s.m, b);
  }

  lemma PutBackCovers(s: State, base: int, b: Blk)
    requires CanPutBack(s, base, b)
    ensures JustBelow(s.fl, base, Node(s.fl, base, Below(s.fl, b.addr)), b.addr)
    ensures forall a :: IsFree(Inserted(s.fl, Below(s.fl, b.addr), b), a) <==> IsFree(s.fl, a) || InBlk(a, b)
  {
    hide IsFree, InBlk, JustBelow, Inserted;
    PlaceIs(s.fl, base, b);
    forall a ensures IsFree(Inserted(s.fl, Below(s.fl, b.addr), b), a) <==> IsFree(s.fl, a) || InBlk(a, b) {
      InsertedCovers(s.fl, Below(s.fl, b.addr), b, a);
    }
  }

  lemma CanPlace(s: State, base: int, b: Blk)
    requires CanPutBack(s, base, b)
    ensures PlaceKnown(s, base, b) && base < b.addr
    ensures OnRing(s.fl, base, s.m.ptr, s.m.size, s.at, s.freep)
    ensures forall i :: 0 <= i < |s.fl| ==> s.fl[i].addr != b.addr
  {
    hide Wired, Inserted, ApartAll;
    PutBackOk(s, base, b);
  }

  /** free of live block `j`. */
  ghost function Freed(s: State, base: int, j: nat): (r: State)
    requires j < |s.live| && PlaceKnown(s, base, s.live[j])
  {
    PutBack(s, base, s.live[j]).(live := s.live[..j] + s.live[j + 1..])
  }

  lemma CanFree(s: State, base: int, j: nat)
    requires HeapOk(s, base) && j < |s.live|
    ensures CanPutBack(s, base, s.live[j]) && PlaceKnown(s, base, s.live[j])
  {
    assert CanPutBack(s, base, s.live[j]);
    PutBackOk(s, base, s.live[j]);
  }

  lemma FreedSum(s: State, base: int, j: nat)
    requires j < |s.live| && PlaceKnown(s, base, s.live[j])
    ensures var r := Freed(s, base, j); Sum(r.fl) + Sum(r.live) == Sum(s.fl) + Sum(s.live)
  {
    InsertedSum(s.fl, Below(s.fl, s.live[j].addr), s.live[j]);
    SumAt(s.live, j);
    SumConcat(s.live[..j], s.live[j + 1..]);
  }

  /** free keeps the heap in order and returns exactly the block's units. */
  lemma FreedOk(s: State, base: int, j: nat)
    requires HeapOk(s, base) && j < |s.live|
    ensures PlaceKnown(s, base, s.live[j]) && HeapOk(Freed(s, base, j), base)
  {
    hide FreeOk, Linked, Wired, Inserted, Sum;
    CanFree(s, base, j);
    PutBackOk(s, base, s.live[j]);
    FreedSum(s, base, j);
    var r := Freed(s, base, j);
    LiveAfterFree(s.live, j, s.fl, base, s.m.size, r.m.size);
    assert Under(r.live, r.top);
  }

  function WithNew(s: State, b: Blk): (r: State) {
    s.(m := s.m.(size := s.m.size[b.addr := b.units]), top := End(b))
  }

  /** morecore: new block `b` from sbrk joins the list. */
  ghost function Grown(s: State, base: int, b: Blk): (r: State)
    requires PlaceKnown(WithNew(s, b), base, b)
  {
    PutBack(WithNew(s, b), base, b).(total := s.total + b.units)
  }

  lemma CanGrow(s: State, base: int, b: Blk)
    requires HeapOk(s, base) && s.started && b.addr >= s.top && b.units > 0
    ensures CanPutBack(WithNew(s, b), base, b)
  {
  }

  lemma GrownOk(s: State, base: int, b: Blk)
    requires HeapOk(s, base) && s.started && b.addr >= s.top && b.units > 0
    ensures PlaceKnown(WithNew(s, b), base, b) && HeapOk(Grown(s, base, b), base)
  {
    CanGrow(s, base, b);
    FreshBlock(s.fl, s.live, base, s.m, s.top, b);
    var w := WithNew(s, b);
    PutBackOk(w, base, b);
    InsertedSum(s.fl, Below(s.fl, b.addr), b);
    LiveAfterMore(s.live, s.fl, base, w.m.size, b, Grown(s, base, b).m.size);
  }

  predicate Has(fl: seq<Blk>, n: int) {
    exists k :: 0 <= k < |fl| && fl[k].units >= n
  }

  lemma GrownState(s: State, base: int, b: Blk) returns (r: State)
    requires HeapOk(s, base) && s.started && b.addr >= s.top && b.units > 0
    ensures CanPutBack(WithNew(s, b), base, b)
    ensures PlaceKnown(WithNew(s, b), base, b) && r == Grown(s, base, b) && HeapOk(r, base)
    ensures r.started && r.live == s.live && r.total == s.total + b.units && Has(r.fl, b.units)
    ensures r.top == End(b) && r.brk == s.brk && r.mem == s.mem && r.given == s.given
  {
    CanGrow(s, base, b);
    GrownOk(s, base, b);
    BigEnough(s.fl, base, b.addr, b.units);
    r := Grown(s, base, b);
  }

  /** malloc of `n` units from free block `i`. */
  function Took(s: State, base: int, i: nat, n: int): (r: State)
    requires i < |s.fl| && s.fl[i].units >= n && s.fl[i].addr in s.m.ptr
  {
    var (fl, b) := Taken(s.fl, i, n);
    var prevp, p := Node(s.fl, base, i), s.fl[i].addr;
    State(if s.fl[i].units == n then s.m.(ptr := s.m.ptr[prevp := s.m.ptr[p]])
          else s.m.(size := s.m.size[p := s.fl[i].units - n][b.addr := n]),
          prevp, true, fl, i, s.live + [b], s.total, s.top, s.brk, s.mem, s.given)
  }

  lemma TookList(s: State, base: int, i: nat, n: int)
    requires HeapOk(s, base) && s.started && i < |s.fl| && s.fl[i].units >= n > 0
    ensures s.fl[i].addr in s.m.ptr && ListOk(Took(s, base, i, n), base)
  {
    assert Node(s.fl, base, i + 1) in s.m.ptr;
    TakenOk(s.fl, base, i, n);
    TakenUnder(s.fl, i, n, s.top);
    if s.fl[i].units == n {
      UnlinkLinked(s.fl, base, s.m, i);
    } else {
      SplitLinked(s.fl, base, s.m, i, n);
    }
  }

  /** malloc keeps the heap in order and takes exactly the units asked for. */
  lemma TookOk(s: State, base: int, i: nat, n: int)
    requires HeapOk(s, base) && s.started && i < |s.fl| && s.fl[i].units >= n > 0
    ensures s.fl[i].addr in s.m.ptr && HeapOk(Took(s, base, i, n), base)
  {
    TookList(s, base, i, n);
    var r := Took(s, base, i, n);
    TakenSum(s.fl, i, n);
    TakenUnder(s.fl, i, n, s.top);
    LiveAfterTake(s.live, s.fl, base, s.m.size, i, n, r.m.size);
    SumConcat(s.live, [Taken(s.fl, i, n).1]);
    SumOne(Taken(s.fl, i, n).1);
  }

  /** malloc took `n` units from the first free block after freep that had them. */
  ghost predicate FirstFit(s: State, base: int, n: int, r: State) {
    exists i :: 0 <= i < |s.fl| && s.fl[i].units >= n && s.fl[i].addr in s.m.ptr && Lapped(s.fl, s.at, i + 1, n)
                && r == Took(s, base, i, n)
  }

  // sbrk --------------------------------------------------------------------------------------------

  const KERNBASE := 0x8000_0000
  const REACH := 0x1000_0000 // 2^28 units are 2^31 bytes, too many for an `int`

  /** sbrk(n) with the break at `brk` and memory up to `mem`: its answer, the new
      break and the memory there is. The kernel may refuse to grow. Shrinking
      past zero wraps and changes nothing; shrinking to zero gives all memory
      back and fails for it. */
  function Sbrk(brk: int, mem: int, n: int, refuse: bool): (r: (int, int, int)) {
    if n > 0 then if refuse || brk + n >= KERNBASE then (-1, brk, mem) else (brk, brk + n, brk + n)
    else if n == 0 || brk + n < 0 then (brk, brk, mem)
    else if brk + n == 0 then (-1, brk, 0)
    else (brk, brk + n, brk + n)
  }

  /** What sbrk, whose parameter is an `int`, is asked for. */
  function SbrkArgument(nu: nat): (n: int) {
    var bytes := UNIT * nu % WRAP;
    if bytes < WRAP / 2 then bytes else bytes - WRAP
  }

  /** morecore asks for the units malloc needs exactly when they are fewer
      than 2^28; otherwise it asks to keep the break or to move it down. */
  lemma SbrkAsked(nu: nat)
    requires nu <= WRAP / UNIT
    ensures SbrkArgument(nu) == UNIT * nu <==> nu < REACH
    ensures nu >= REACH ==> SbrkArgument(nu) <= 0
  {
  }

  /** morecore asks sbrk for no less than MINUNITS units. */
  function AtLeast(nu: nat): (n: nat)
    ensures n >= nu && n >= MINUNITS
  {
    if nu < MINUNITS then MINUNITS else nu
  }

  /** What sbrk does when morecore calls it. */
  function Asked(s: State, nu: nat, refuse: bool): (r: (int, int, int)) {
    Sbrk(s.brk, s.mem, SbrkArgument(AtLeast(nu)), refuse)
  }

  /** The break moved, and not yet a block made of it. */
  function Moved(s: State, nu: nat, refuse: bool): (r: State) {
    var (_, brk, mem) := Asked(s, nu, refuse);
    s.(brk := brk, mem := mem, given := s.given + brk - s.brk)
  }

  ghost predicate CanMore(s: State, base: int, nu: nat, refuse: bool) {
    && s.started && 0 < nu <= WRAP / UNIT
    && var b := Blk(Asked(s, nu, refuse).0, AtLeast(nu));
       b.addr != -1 ==> PlaceKnown(WithNew(Moved(s, nu, refuse), b), base, b)
  }

  /** morecore: the block it makes at the old break joins the list. */
  ghost function More(s: State, base: int, nu: nat, refuse: bool): (r: State)
    requires CanMore(s, base, nu, refuse)
  {
    var got, w := Asked(s, nu, refuse).0, Moved(s, nu, refuse);
    if got == -1 then w else Grown(w, base, Blk(got, AtLeast(nu)))
  }

  /** What sbrk gave morecore: memory at the old break, and enough of it exactly
      when fewer than 2^28 units are wanted. */
  lemma MovedOk(s: State, base: int, nu: nat, refuse: bool)
    requires Sound(s, base) && base > 0 && s.started && nu <= WRAP / UNIT
    ensures var (got, w, n) := (Asked(s, nu, refuse).0, Moved(s, nu, refuse), AtLeast(nu));
            && HeapOk(w, base) && w == s.(brk := w.brk, mem := w.mem, given := w.given) && 0 < w.top
            && (got == -1 ==> w == s.(mem := w.mem) && (w.mem == s.mem <==> n < REACH))
            && (got == -1 && w.mem != s.mem ==> w.mem == 0)
            && (got != -1 ==> got == s.brk >= w.top)
            && (got != -1 && n < REACH ==> got + UNIT * n == w.mem == w.brk < KERNBASE && w.given == s.given + UNIT * n)
            && (n >= REACH ==> w.brk <= s.brk)
  {
    SbrkAsked(AtLeast(nu));
  }

  /** The block morecore makes is memory exactly when it has fewer than 2^28 units. */
  lemma MoreOk(s: State, base: int, nu: nat, refuse: bool) returns (r: State)
    requires Sound(s, base) && base > 0 && s.started && 0 < nu <= WRAP / UNIT
    ensures CanMore(s, base, nu, refuse) && r == More(s, base, nu, refuse) && HeapOk(r, base)
    ensures r.started && r.live == s.live && (Asked(s, nu, refuse).0 == -1 || Has(r.fl, AtLeast(nu)))
    ensures r.total == s.total + if Asked(s, nu, refuse).0 == -1 then 0 else AtLeast(nu)
    ensures Backed(r) <==> AtLeast(nu) < REACH
  {
    hide HeapOk, PlaceKnown, SbrkArgument, Grown, WithNew;
    MovedOk(s, base, nu, refuse);
    var got, w := Asked(s, nu, refuse).0, Moved(s, nu, refuse);
    r := w;
    if got != -1 {
      r := GrownState(w, base, Blk(got, AtLeast(nu)));
      assert r.top == got + UNIT * AtLeast(nu) && UNIT * r.total == UNIT * s.total + UNIT * AtLeast(nu);
    }
  }

  /** A request of 2 GB: the break does not rise, and the heap is not memory any more. */
  lemma MoreUnbacked(s: State, base: int) returns (r: State)
    requires Sound(s, base) && base > 0 && s.started
    ensures Units(0x8000_0000) == REACH + 1 && CanMore(s, base, REACH + 1, false)
    ensures r == More(s, base, REACH + 1, false) && !Backed(r) && r.brk <= s.brk
  {
    hide HeapOk, PlaceKnown, SbrkArgument;
    r := MoreOk(s, base, REACH + 1, false);
    MovedOk(s, base, REACH + 1, false);
  }

  // Runs -------------------------------------------------------------------------------------------

  /** Before the first call. */
  function Fresh(base: int, brk: int): (s: State) {
    State(Mem(map[], map[]), 0, false, [], 0, [], 0, base + 1, brk, brk, 0)
  }

  /** The degenerate list: base alone, pointing at itself. */
  function Started(s: State, base: int): (r: State) {
    s.(m := Mem(s.m.ptr[base := base], s.m.size[base := 0]), freep := base, started := true, at := 0)
  }

  /** What the calls of a run do: set up base, free live block `j`, ask sbrk for
      `nu` units, take `n` units from free block `i`; or the program grows by
      itself. */
  datatype Move =
    | Begin
    | Give(j: nat)
    | Fetch(nu: nat, refuse: bool)
    | Take(i: nat, n: int)
    | Elsewhere(bytes: nat)

  ghost predicate Moves(s: State, base: int, mv: Move, s': State) {
    match mv
    case Begin => !s.started && s' == Started(s, base)
    case Give(j) => j < |s.live| && PlaceKnown(s, base, s.live[j]) && s' == Freed(s, base, j)
    case Fetch(nu, refuse) => CanMore(s, base, nu, refuse) && s' == More(s, base, nu, refuse)
    case Take(i, n) =>
      s.started && i < |s.fl| && s.fl[i].units >= n > 0 && s.fl[i].addr in s.m.ptr && s' == Took(s, base, i, n)
    case Elsewhere(bytes) => (var (_, brk, mem) := Sbrk(s.brk, s.mem, bytes, false); s' == s.(brk := brk, mem := mem))
  }

  ghost predicate IsRun(ss: seq<State>, mvs: seq<Move>, base: int, brk: int) {
    && 0 < base < brk < KERNBASE
    && |ss| == |mvs| + 1 && ss[0] == Fresh(base, brk)
    && forall k :: 0 <= k < |mvs| ==> Moves(ss[k], base, mvs[k], ss[k + 1])
  }

  /** A morecore for more than sbrk can be asked for. */
  predicate Overreaches(mv: Move) {
    mv.Fetch? && AtLeast(mv.nu) >= REACH
  }

  lemma BeginOk(s: State, base: int)
    requires Sound(s, base) && !s.started
    ensures Sound(Started(s, base), base)
  {
  }

  lemma HeapAside(s: State, base: int, brk: int, mem: int)
    requires HeapOk(s, base)
    ensures HeapOk(s.(brk := brk, mem := mem), base)
  {
  }

  lemma MovesOk(s: State, base: int, mv: Move, s': State)
    requires Sound(s, base) && base > 0 && Moves(s, base, mv, s')
    ensures HeapOk(s', base) && (Backed(s') <==> !Overreaches(mv))
  {
    hide HeapOk, PlaceKnown, SbrkArgument;
    match mv
    case Begin => BeginOk(s, base);
    case Give(j) => FreedOk(s, base, j);
    case Fetch(nu, refuse) => var _ := MoreOk(s, base, nu, refuse);
    case Take(i, n) => TookOk(s, base, i, n);
    case Elsewhere(bytes) => HeapAside(s, base, s'.brk, s'.mem);
  }

  lemma FreshSound(base: int, brk: int)
    requires 0 < base < brk < KERNBASE
    ensures Sound(Fresh(base, brk), base)
  {
  }

  /** Over any calls from the first on: one address-ordered ring of free blocks
      no two of which touch, live blocks that overlap neither it nor each other,
      all of it memory, and as many units free and live as sbrk gave;
      for exactly as long as no call overreaches. */
  lemma {:induction false} RunKeepsHeap(ss: seq<State>, mvs: seq<Move>, base: int, brk: int, m: nat)
    requires IsRun(ss, mvs, base, brk) && m < |ss|
    ensures (forall k :: 0 <= k <= m ==> Sound(ss[k], base)) <==> (forall k :: 0 <= k < m ==> !Overreaches(mvs[k]))
  {
    hide HeapOk, Moves;
    if m == 0 {
      FreshSound(base, brk);
    } else {
      RunKeepsHeap(ss, mvs, base, brk, m - 1);
      assert Moves(ss[m - 1], base, mvs[m - 1], ss[m - 1 + 1]);
      if Sound(ss[m - 1], base) {
        MovesOk(ss[m - 1], base, mvs[m - 1], ss[m]);
      }
    }
  }

  // umalloc.c -----------------------------------------------------------------------------------------

  class Heap {
    const base: int // the static Header, below everything sbrk returns
    var ptr: map<int, int>
    var size: map<int, int>
    var freep: int
    var started: bool // freep != 0
    ghost var fl: seq<Blk>
    ghost var at: nat
    ghost var live: seq<Blk>
    ghost var total: int
    ghost var top: int
    var brk: int // the process's break, as sbrk moves it
    var mem: int // the end of its memory
    ghost var given: int

    ghost function Value(): State
      reads this
    {
      State(Mem(ptr, size), freep, started, fl, at, live, total, top, brk, mem, given)
    }

    ghost predicate Valid()
      reads this
    {
      base > 0 && Sound(Value(), base)
    }

    constructor (base: int, brk: int)
      requires 0 < base < brk < KERNBASE
      ensures Valid() && Value() == Fresh(base, brk)
    {
      this.base := base;
      this.brk, mem, given := brk, brk, 0;
      ptr, size, freep, started := map[], map[], 0, false;
      fl, at, live, total, top := [], 0, [], 0, base + 1;
    }

    /** free's search: the list node after which `bp` belongs. */
    method FindPlace(bp: int) returns (p: int)
      requires OnRing(fl, base, ptr, size, at, freep) && base < bp
      requires forall i :: 0 <= i < |fl| ==> fl[i].addr != bp
      ensures p == Node(fl, base, Below(fl, bp))
    {
      p := freep;
      ghost var k := at;
      PlaceAt(fl, base, ptr, size, bp, k, p);
      while !(bp > p && bp < ptr[p])
        invariant OnRing(fl, base, ptr, size, k, p) && p in ptr
        invariant Stops(bp, p, ptr[p]) <==> k == Below(fl, bp)
        decreases Togo(fl, Below(fl, bp), k)
      {
        if p >= ptr[p] && (bp > p || bp < ptr[p]) {
          break;
        }
        k := PlaceStep(fl, base, ptr, size, bp, k, p);
        p := ptr[p];
      }
    }

    /** free's joins and links. */
    method Wire(bp: int, p: int)
      requires bp in size && p in ptr && p in size && ptr[p] in ptr && ptr[p] in size
      modifies this`ptr, this`size
      ensures Mem(ptr, size) == Wired(Mem(old(ptr), old(size)), bp, p)
    {
      var n := ptr[p];
      if bp + UNIT * size[bp] == n {
        size := size[bp := size[bp] + size[n]];
        ptr := ptr[bp := ptr[n]];
      } else {
        ptr := ptr[bp := n];
      }
      if p + UNIT * size[p] == bp {
        size := size[p := size[p] + size[bp]];
        ptr := ptr[p := ptr[bp]];
      } else {
        ptr := ptr[p := bp];
      }
    }

    /** free, for a block `b` that is in nobody's hands. */
    method Free(ap: int, ghost b: Blk)
      requires CanPutBack(Value(), base, b) && b.addr == ap - UNIT
      modifies this`ptr, this`size, this`freep, this`fl, this`at
      ensures PlaceKnown(old(Value()), base, b) && Value() == PutBack(old(Value()), base, b)
      ensures JustBelow(old(fl), base, freep, b.addr)
      ensures forall a :: IsFree(fl, a) <==> IsFree(old(fl), a) || InBlk(a, b)
    {
      PutBackCovers(Value(), base, b);
      hide Wired, Inserted, CanPutBack, OnRing, Below, Node, IsFree, InBlk, JustBelow;
      var bp := ap - UNIT;
      CanPlace(Value(), base, b);
      var p := FindPlace(bp);
      Wire(bp, p);
      freep := p;
      at := Below(fl, bp);
      fl := Inserted(fl, at, b);
    }

    /** free as its callers use it: `ap` was returned by malloc, as live block `j`. */
    method FreeLive(ap: int, ghost j: nat)
      requires Valid() && j < |live| && ap == live[j].addr + UNIT
      modifies this
      ensures Valid() && PlaceKnown(old(Value()), base, old(live)[j])
      ensures Value() == Freed(old(Value()), base, j) && live == old(live[..j] + live[j + 1..])
      ensures JustBelow(old(fl), base, freep, old(live)[j].addr)
      ensures forall a :: IsFree(fl, a) <==> IsFree(old(fl), a) || InBlk(a, old(live)[j])
    {
      hide HeapOk, PutBack, CanPutBack, PlaceKnown, IsFree, InBlk, JustBelow;
      CanFree(Value(), base, j);
      FreedOk(Value(), base, j);
      Free(ap, live[j]);
      live := live[..j] + live[j + 1..];
    }

    /** A new block of `n` units at `got`, handed to free. */
    method AddBlock(got: int, n: int)
      requires CanPutBack(WithNew(Value(), Blk(got, n)), base, Blk(got, n))
      modifies this
      ensures PlaceKnown(WithNew(old(Value()), Blk(got, n)), base, Blk(got, n))
      ensures Value() == Grown(old(Value()), base, Blk(got, n)) && total == old(total) + n && live == old(live)
      ensures forall a :: IsFree(fl, a) <==> IsFree(old(fl), a) || InBlk(a, Blk(got, n))
    {
      hide IsFree, InBlk, JustBelow;
      ghost var w := WithNew(Value(), Blk(got, n));
      size := size[got := n];
      top := End(Blk(got, n));
      assert Value() == w;
      Free(got + UNIT, Blk(got, n));
      total := total + n;
    }

    /** The system call; see Sbrk. */
    method SysSbrk(n: int, refuse: bool) returns (got: int)
      modifies this`brk, this`mem
      ensures (got, brk, mem) == Sbrk(old(brk), old(mem), n, refuse)
      ensures n > 0 && (refuse || old(brk) + n >= KERNBASE) ==> got == -1 && brk == old(brk) && mem == old(mem)
      ensures n == 0 || (n < 0 && old(brk) + n < 0) ==> got == brk == old(brk) && mem == old(mem)
      ensures n < 0 && old(brk) + n == 0 ==> got == -1 && brk == old(brk) && mem == 0
      ensures (if n > 0 then !refuse && old(brk) + n < KERNBASE else n < 0 && old(brk) + n > 0) ==>
                got == old(brk) && brk == mem == old(brk) + n
    {
      got := brk;
      if n > 0 {
        if refuse || brk + n >= KERNBASE {
          return -1;
        }
        brk := brk + n;
        mem := brk;
      } else if n < 0 && brk + n >= 0 {
        mem := brk + n;
        if brk + n == 0 {
          return -1;
        }
        brk := brk + n;
      }
    }

    /** morecore: false if sbrk failed; the heap is memory afterwards exactly when
        fewer than 2^28 units were asked for. */
    method Morecore(nu: nat, refuse: bool) returns (ok: bool)
      requires Valid() && started && 0 < nu <= WRAP / UNIT
      modifies this
      ensures CanMore(old(Value()), base, nu, refuse) && Value() == More(old(Value()), base, nu, refuse)
      ensures ok == (Asked(old(Value()), nu, refuse).0 != -1) && HeapOk(Value(), base) && live == old(live) && started
      ensures total == old(total) + if ok then AtLeast(nu) else 0
      ensures ok ==> Has(fl, AtLeast(nu))
      ensures !ok ==> Value() == old(Value()).(mem := mem)
      ensures Backed(Value()) <==> AtLeast(nu) < REACH
    {
      hide HeapOk, PlaceKnown, CanPutBack, Grown, SbrkArgument;
      ghost var v := Value();
      ghost var r := MoreOk(v, base, nu, refuse);
      MovedOk(v, base, nu, refuse);
      var n := nu;
      if n < MINUNITS {
        n := MINUNITS;
      }
      var got := SysSbrk(SbrkArgument(n), refuse);
      given := given + brk - v.brk;
      if got == -1 {
        return false;
      }
      assert Value() == Moved(v, nu, refuse);
      CanGrow(Value(), base, Blk(got, n));
      AddBlock(got, n);
      ok := true;
    }

    /** One lap of malloc's loop: the first block of at least `n` units after
        freep, and the list node before it. */
    method Search(n: int) returns (found: bool, prevp: int, p: int, ghost i: nat)
      requires OnRing(fl, base, ptr, size, at, freep) && n > 0
      ensures found ==> i < |fl| && fl[i].units >= n && p == fl[i].addr && prevp == Node(fl, base, i)
      ensures found ==> Lapped(fl, at, i + 1, n)
      ensures !found ==> forall k :: 0 <= k < |fl| ==> fl[k].units < n
    {
      prevp := freep;
      ghost var k := RingStep(fl, base, ptr, size, at, at, n, prevp);
      p := ptr[prevp];
      while size[p] < n
        invariant OnRing(fl, base, ptr, size, k, p) && p in size && p in ptr
        invariant k > 0 ==> prevp == Node(fl, base, k - 1)
        invariant Lapped(fl, at, k, n)
        decreases Togo(fl, at, k)
      {
        if p == freep {
          LapDone(fl, base, ptr, size, at, k, n, p);
          return false, prevp, p, 0;
        }
        prevp := p;
        p := ptr[p];
        k := RingStep(fl, base, ptr, size, at, k, n, prevp);
      }
      found := true;
      i := FoundAt(fl, base, ptr, size, k, n, p);
    }

    /** malloc's header writes for the block Search found. */
    method Carve(prevp: int, p: int, n: int) returns (q: int)
      requires p in ptr && p in size
      modifies this`ptr, this`size, this`freep
      ensures freep == prevp
      ensures size == if old(size[p]) == n then old(size)
                      else old(size)[p := old(size[p]) - n][q := n]
      ensures ptr == if old(size[p]) == n then old(ptr)[prevp := old(ptr[p])] else old(ptr)
      ensures q == if old(size[p]) == n then p else p + UNIT * (old(size[p]) - n)
    {
      if size[p] == n {
        ptr := ptr[prevp := ptr[p]];
        q := p;
      } else {
        size := size[p := size[p] - n];
        q := p + UNIT * size[p];
        size := size[q := n];
      }
      freep := prevp;
    }

    /** malloc, once Search has found free block `i`. */
    method Take(prevp: int, p: int, n: int, ghost i: nat) returns (q: int)
      requires HeapOk(Value(), base) && started && n > 0
      requires i < |fl| && fl[i].units >= n && p == fl[i].addr && prevp == Node(fl, base, i)
      modifies this
      ensures HeapOk(Value(), base) && p in old(ptr) && Value() == Took(old(Value()), base, i, n)
      ensures live == old(live) + [Blk(q, n)] && freep == prevp
      ensures forall a :: IsFree(old(fl), a) <==> IsFree(fl, a) || InBlk(a, Blk(q, n))
    {
      hide HeapOk, IsFree, InBlk;
      forall a ensures IsFree(fl, a) <==> IsFree(Taken(fl, i, n).0, a) || InBlk(a, Taken(fl, i, n).1) {
        TakenCovers(fl, i, n, a);
      }
      ghost var r := TookState(Value(), base, i, n);
      q := Carve(prevp, p, n);
      live, fl, at := r.live, r.fl, r.at;
      assert Value() == r;
    }

    /** The degenerate list: base alone, pointing at itself. */
    method Start()
      requires Valid() && !started
      modifies this`ptr, this`size, this`freep, this`started, this`at
      ensures Valid() && Value() == Started(old(Value()), base)
    {
      BeginOk(Value(), base);
      ptr := ptr[base := base];
      size := size[base := 0];
      freep := base;
      started := true;
      at := 0;
    }

    /** Search again after morecore, which cannot fail a second time. */
    method Refill(n: nat, refuse: bool) returns (ok: bool, prevp: int, p: int, ghost i: nat)
      requires Valid() && started && 0 < n <= WRAP / UNIT
      modifies this
      ensures HeapOk(Value(), base) && started && live == old(live)
      ensures !ok ==> Value() == old(Value()).(mem := mem) && Asked(old(Value()), n, refuse).0 == -1
      ensures ok ==> i < |fl| && fl[i].units >= n && p == fl[i].addr && prevp == Node(fl, base, i)
      ensures ok ==> total == old(total) + AtLeast(n) && Lapped(fl, at, i + 1, n)
      ensures CanMore(old(Value()), base, n, refuse) && Value() == More(old(Value()), base, n, refuse)
      ensures Backed(Value()) <==> AtLeast(n) < REACH
    {
      hide Sum, LiveOk, Under, PlaceKnown, Grown, SbrkArgument;
      ok := Morecore(n, refuse);
      if !ok {
        return false, 0, 0, 0;
      }
      var found: bool;
      found, prevp, p, i := Search(n);
      assert Has(fl, n);
    }

    method TakeFit(prevp: int, p: int, n: int, ghost i: nat) returns (ap: int)
      requires base > 0 && HeapOk(Value(), base) && started && n > 0
      requires i < |fl| && fl[i].units >= n && p == fl[i].addr && prevp == Node(fl, base, i)
      modifies this
      ensures HeapOk(Value(), base) && ap > 0 && live == old(live) + [Blk(ap - UNIT, n)]
      ensures total == old(total) && (Backed(Value()) <==> old(Backed(Value())))
      ensures p in old(ptr) && Value() == Took(old(Value()), base, i, n)
    {
      hide IsFree, InBlk;
      var q := Take(prevp, p, n, i);
      ap := q + UNIT;
      assert live[|live| - 1].addr > base;
    }

    /** malloc's loop: a lap, and after morecore another. */
    method FindFit(n: nat, refuse: bool) returns (ok: bool, prevp: int, p: int, ghost i: nat)
      requires Valid() && started && 0 < n <= WRAP / UNIT
      modifies this
      ensures HeapOk(Value(), base) && started && live == old(live)
      ensures !ok ==> Value() == old(Value()).(mem := mem) && Asked(old(Value()), n, refuse).0 == -1
      ensures !ok ==> forall k :: 0 <= k < |fl| ==> fl[k].units < n
      ensures ok ==> i < |fl| && fl[i].units >= n && p == fl[i].addr && prevp == Node(fl, base, i)
      ensures ok ==> total == old(total) || total == old(total) + AtLeast(n)
      ensures ok ==> Lapped(fl, at, i + 1, n) && (total == old(total) ==> Value() == old(Value()))
      ensures total != old(total) ==>
                CanMore(old(Value()), base, n, refuse) && Value() == More(old(Value()), base, n, refuse)
      ensures Backed(Value()) <==> AtLeast(n) < REACH
    {
      ok, prevp, p, i := Search(n);
      if ok {
        NoGiant(Value(), base, i);
      } else {
        ok, prevp, p, i := Refill(n, refuse);
      }
    }

    /** malloc: the address after the header of a new live block, 0 for none.
        The heap stays memory, and sound, exactly when the request comes to fewer
        than 2^28 units. */
    method Malloc(nbytes: nat, refuse: bool) returns (ap: int)
      requires Valid() && nbytes < WRAP
      modifies this
      ensures Valid() <==> AtLeast(Units(nbytes)) < REACH
      ensures ap != 0 ==> live == old(live) + [Blk(ap - UNIT, Units(nbytes))]
      ensures ap == 0 ==> live == old(live) && total == old(total) && brk == old(brk)
      ensures ap == 0 ==> forall k :: 0 <= k < |fl| ==> fl[k].units < Units(nbytes)
      ensures ap == 0 ==> Sbrk(brk, old(mem), SbrkArgument(AtLeast(Units(nbytes))), refuse).0 == -1
      ensures total == old(total) || total == old(total) + AtLeast(Units(nbytes))
      ensures ap != 0 && total == old(total) ==> FirstFit(old(Value()), base, Units(nbytes), Value())
      ensures ap != 0 && total != old(total) ==>
                var s := if old(started) then old(Value()) else Started(old(Value()), base);
                CanMore(s, base, Units(nbytes), refuse)
                && FirstFit(More(s, base, Units(nbytes), refuse), base, Units(nbytes), Value())
    {
      hide Took, More, CanMore, Lapped, LiveOk, Linked, FreeOk, Sum, Under;
      var n := Units(nbytes);
      if !started {
        Start();
      }
      var ok, prevp, p, i := FindFit(n, refuse);
      if !ok {
        return 0;
      }
      ghost var s := Value();
      ap := TakeFit(prevp, p, n, i);
      assert FirstFit(s, base, n, Value());
    }
  }

  predicate Small(fl: seq<Blk>, k: nat, n: int) {
    k == 0 || k > |fl| || fl[k - 1].units < n
  }

  /** Every node passed between `at` and `k`, going round, is too small. */
  predicate Lapped(fl: seq<Blk>, at: nat, k: nat, n: int) {
    if k > at then forall j :: at < j < k ==> Small(fl, j, n)
    else (forall j :: at < j <= |fl| ==> Small(fl, j, n)) && (forall j :: 0 <= j < k ==> Small(fl, j, n))
  }

  /** Nodes still to pass before the walk is back at `at`. */
  ghost function Togo(fl: seq<Blk>, at: nat, k: nat): int {
    if k <= at then at - k else |fl| + 1 - k + at
  }

  /** `p` is node `k` of the list in memory. */
  predicate OnRing(fl: seq<Blk>, base: int, ptr: map<int, int>, size: map<int, int>, k: nat, p: int) {
    FreeOk(fl, base) && Linked(fl, base, ptr, size) && k <= |fl| && p == Node(fl, base, k)
  }

  lemma PlaceAt(fl: seq<Blk>, base: int, ptr: map<int, int>, size: map<int, int>, bp: int, k: nat, p: int)
    requires OnRing(fl, base, ptr, size, k, p) && base < bp
    requires forall i :: 0 <= i < |fl| ==> fl[i].addr != bp
    ensures p in ptr && (Stops(bp, p, ptr[p]) <==> k == Below(fl, bp))
  {
    LinkAt(fl, base, ptr, size, k);
    SearchStops(fl, base, bp, k);
  }

  lemma PlaceStep(fl: seq<Blk>, base: int, ptr: map<int, int>, size: map<int, int>, bp: int, k: nat, p: int)
    returns (k': nat)
    requires OnRing(fl, base, ptr, size, k, p) && base < bp && k != Below(fl, bp)
    requires forall i :: 0 <= i < |fl| ==> fl[i].addr != bp
    ensures p in ptr && OnRing(fl, base, ptr, size, k', ptr[p]) && ptr[p] in ptr
    ensures Stops(bp, ptr[p], ptr[ptr[p]]) <==> k' == Below(fl, bp)
    ensures 0 <= Togo(fl, Below(fl, bp), k') < Togo(fl, Below(fl, bp), k)
  {
    LinkAt(fl, base, ptr, size, k);
    k' := if k == |fl| then 0 else k + 1;
    PlaceAt(fl, base, ptr, size, bp, k', ptr[p]);
  }

  /** One step of the walk from node `k`, which was too small (or is where it began). */
  lemma RingStep(fl: seq<Blk>, base: int, ptr: map<int, int>, size: map<int, int>, at: nat, k: nat, n: int, p: int)
    returns (k': nat)
    requires OnRing(fl, base, ptr, size, k, p) && at <= |fl|
    requires k != at ==> Lapped(fl, at, k, n) && p in size && size[p] < n
    ensures p in ptr && OnRing(fl, base, ptr, size, k', ptr[p]) && ptr[p] in size && ptr[p] in ptr
    ensures k' > 0 ==> p == Node(fl, base, k' - 1)
    ensures Lapped(fl, at, k', n)
    ensures k != at ==> Togo(fl, at, k') < Togo(fl, at, k)
  {
    LinkAt(fl, base, ptr, size, k);
    k' := if k == |fl| then 0 else k + 1;
    LinkAt(fl, base, ptr, size, k');
    assert k != at ==> Small(fl, k, n);
  }

  lemma LapDone(fl: seq<Blk>, base: int, ptr: map<int, int>, size: map<int, int>, at: nat, k: nat, n: int, p: int)
    requires OnRing(fl, base, ptr, size, k, p) && OnRing(fl, base, ptr, size, at, p)
    requires Lapped(fl, at, k, n) && p in size && size[p] < n
    ensures forall j :: 0 <= j < |fl| ==> fl[j].units < n
  {
    LinkAt(fl, base, ptr, size, k);
    if k != at { NodesDiffer(fl, base, k, at); }
    forall j | 0 <= j < |fl| ensures fl[j].units < n {
      assert Small(fl, j + 1, n);
    }
  }

  lemma FoundAt(fl: seq<Blk>, base: int, ptr: map<int, int>, size: map<int, int>, k: nat, n: int, p: int)
    returns (i: nat)
    requires OnRing(fl, base, ptr, size, k, p) && p in size && size[p] >= n > 0
    ensures k == i + 1 && i < |fl| && fl[i].units >= n && p == fl[i].addr
  {
    LinkAt(fl, base, ptr, size, k);
    i := k - 1;
  }

  /** The list invariant at one node. */
  lemma LinkAt(fl: seq<Blk>, base: int, ptr: map<int, int>, size: map<int, int>, k: nat)
    requires Linked(fl, base, ptr, size) && k <= |fl|
    ensures var a := Node(fl, base, k);
            && a in ptr && ptr[a] == After(fl, base, k)
            && a in size && size[a] == (if k == 0 then 0 else fl[k - 1].units)
  {
  }

  lemma TookState(s: State, base: int, i: nat, n: int) returns (r: State)
    requires HeapOk(s, base) && s.started && i < |s.fl| && s.fl[i].units >= n > 0
    ensures var p := s.fl[i].addr;
            && p in s.m.ptr && p in s.m.size && s.m.size[p] == s.fl[i].units
            && r == Took(s, base, i, n) && HeapOk(r, base)
  {
    TookOk(s, base, i, n);
    LinkAt(s.fl, base, s.m.ptr, s.m.size, i + 1);
    r := Took(s, base, i, n);
  }

  /** nunits, in the wrapping arithmetic of `uint`. */
  function Units(nbytes: nat): (n: nat)
    ensures n > 0
  {
    ((nbytes + UNIT - 1) % WRAP) / UNIT + 1
  }

  /** The block has room for what was asked, unless rounding up wrapped. */
  lemma UnitsCover(nbytes: nat)
    requires nbytes < WRAP
    ensures UNIT * (Units(nbytes) - 1) >= nbytes <==> nbytes <= WRAP - UNIT
    ensures nbytes <= WRAP - UNIT ==> UNIT * (Units(nbytes) - 1) < nbytes + UNIT
  {
  }

  /** The largest request gets a header and nothing else. */
  lemma UnitsWrap()
    ensures Units(WRAP - 1) == 1
  {
  }

  /** A block apart from the freed one and from the list stays clear of the joined block. */
  lemma StaysLive(fl: seq<Blk>, base: int, b: Blk, x: Blk)
    requires FreeOk(fl, base) && b.units > 0 && x.units > 0 && ApartAll(x, fl) && Apart(x, b)
    ensures var i := Below(fl, b.addr);
            ApartAll(x, Inserted(fl, i, b)) && x.addr != b.addr && x.addr != Joined(fl, i, b).addr
  {
    var i := Below(fl, b.addr);
    InsertedApart(fl, i, b, x);
    if i > 0 { assert Apart(x, fl[i - 1]); }
  }

  lemma LiveAfterFree(live: seq<Blk>, j: nat, fl: seq<Blk>, base: int, size: map<int, int>, size': map<int, int>)
    requires FreeOk(fl, base) && LiveOk(live, fl, base, size) && j < |live|
    requires var b := live[j]; var m := Joined(fl, Below(fl, b.addr), b);
             forall a :: a in size && a != b.addr && a != m.addr ==> a in size' && size'[a] == size[a]
    ensures LiveOk(live[..j] + live[j + 1..], Inserted(fl, Below(fl, live[j].addr), live[j]), base, size')
  {
    hide Inserted, FreeOk;
    var b, r := live[j], live[..j] + live[j + 1..];
    forall k | 0 <= k < |r|
      ensures ApartAll(r[k], Inserted(fl, Below(fl, b.addr), b)) && r[k].addr in size' && size'[r[k].addr] == r[k].units
    {
      var o := if k < j then k else k + 1;
      assert r[k] == live[o] && Apart(live[if o < j then o else j], live[if o < j then j else o]);
      StaysLive(fl, base, b, live[o]);
    }
  }

  lemma LiveAfterMore(live: seq<Blk>, fl: seq<Blk>, base: int, size: map<int, int>, b: Blk, size': map<int, int>)
    requires FreeOk(fl, base) && LiveOk(live, fl, base, size)
    requires b.units > 0 && ApartAll(b, live) && b.addr !in Addrs(live)
    requires var m := Joined(fl, Below(fl, b.addr), b);
             forall a :: a in size && a != b.addr && a != m.addr ==> a in size' && size'[a] == size[a]
    ensures LiveOk(live, Inserted(fl, Below(fl, b.addr), b), base, size')
  {
    forall k | 0 <= k < |live|
      ensures ApartAll(live[k], Inserted(fl, Below(fl, b.addr), b))
      ensures live[k].addr in size' && size'[live[k].addr] == live[k].units
    {
      assert Apart(b, live[k]) && ApartAll(live[k], fl);
      StaysLive(fl, base, b, live[k]);
    }
  }

  function Addrs(s: seq<Blk>): set<int> {
    set i | 0 <= i < |s| :: s[i].addr
  }

  /** New memory above the top overlaps nothing and has no header in use. */
  lemma FreshBlock(fl: seq<Blk>, live: seq<Blk>, base: int, m: Mem, top: int, b: Blk)
    requires FreeOk(fl, base) && Under(fl, top) && base < top && Linked(fl, base, m.ptr, m.size)
    requires LiveOk(live, fl, base, m.size) && Under(live, top) && b.addr >= top && b.units > 0
    ensures Insertable(fl, base, m.(size := m.size[b.addr := b.units]), b)
    ensures ApartAll(b, live) && b.addr !in Addrs(live)
    ensures LiveOk(live, fl, base, m.size[b.addr := b.units])
  {
  }

  lemma TakenUnder(fl: seq<Blk>, i: nat, n: int, top: int)
    requires i < |fl| && fl[i].units >= n > 0 && Under(fl, top)
    ensures var (r, b) := Taken(fl, i, n); Under(r, top) && End(b) <= top
  {
  }

  lemma LiveAfterTake(live: seq<Blk>, fl: seq<Blk>, base: int, size: map<int, int>, i: nat, n: int,
                      size': map<int, int>)
    requires FreeOk(fl, base) && LiveOk(live, fl, base, size) && i < |fl| && fl[i].units >= n > 0
    requires var (r, b) := Taken(fl, i, n);
             && b.addr in size' && size'[b.addr] == n
             && forall a :: a in size && a != b.addr && a != fl[i].addr ==> a in size' && size'[a] == size[a]
    ensures var (r, b) := Taken(fl, i, n); LiveOk(live + [b], r, base, size')
  {
  }

  /** After morecore some block is big enough, so the next lap finds one. */
  lemma BigEnough(fl: seq<Blk>, base: int, got: int, n: int)
    requires FreeOk(fl, base) && n > 0
    ensures Has(Inserted(fl, Below(fl, got), Blk(got, n)), n)
  {
    var b, i := Blk(got, n), Below(fl, got);
    var k := Lo(fl, i, b);
    ReplacedAt(fl, k, Hi(fl, i, b), Joined(fl, i, b), k);
    assert Inserted(fl, i, b)[k].units >= n;
  }

  lemma FreedMem(fl: seq<Blk>, base: int, m: Mem, b: Blk)
    requires Insertable(fl, base, m, b)
    ensures forall i :: 0 <= i < |fl| ==> fl[i].addr != b.addr
    ensures var i := Below(fl, b.addr); var p := Node(fl, base, i);
            && p in m.ptr && p in m.size && m.ptr[p] in m.ptr && m.ptr[p] in m.size
            && var w := Wired(m, b.addr, p);
            && Linked(Inserted(fl, i, b), base, w.ptr, w.size)
            && forall a :: a in m.size && a != b.addr && a != Joined(fl, i, b).addr ==>
                 a in w.size && w.size[a] == m.size[a]
  {
    NotListedAny(fl, base, b);
    WiredFacts(fl, base, m, b);
    WiredLinked(fl, base, m, b);
  }

  lemma FreedList(fl: seq<Blk>, base: int, b: Blk, top: int)
    requires FreeOk(fl, base) && b.units > 0 && base < b.addr && ApartAll(b, fl)
    requires Under(fl, top) && End(b) <= top
    ensures var i := Below(fl, b.addr); var r := Inserted(fl, i, b);
            FreeOk(r, base) && Under(r, top) && i <= |r| && Node(r, base, i) == Node(fl, base, i)
  {
    var i := Below(fl, b.addr);
    InsertedFree(fl, base, b);
    InsertedUnder(fl, i, b, top);
    ReplacedNode(fl, base, Lo(fl, i, b), Hi(fl, i, b), Joined(fl, i, b), i);
  }

  lemma NotListedAny(fl: seq<Blk>, base: int, b: Blk)
    requires FreeOk(fl, base) && b.units > 0 && base < b.addr && ApartAll(b, fl)
    ensures forall i :: 0 <= i < |fl| ==> fl[i].addr != b.addr
  {
  }

  lemma InsertedUnder(fl: seq<Blk>, i: nat, b: Blk, top: int)
    requires i <= |fl| && Under(fl, top) && End(b) <= top
    requires b.units > 0 && forall k :: 0 <= k < |fl| ==> fl[k].units > 0
    ensures Under(Inserted(fl, i, b), top)
  {
  }
}
