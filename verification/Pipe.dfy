/** Pipes: a 512-byte ring indexed by 32-bit counters that wrap, shared by any
    number of readers and writers that sleep and wake each other. */
module Pipe {

  const PIPESIZE := 512
  const WRAP := 0x1_0000_0000

  // The ring ---------------------------------------------------------------------------

  datatype Ring = Ring(data: seq<int>, nread: nat, nwrite: nat)

  /** Bytes in the ring, as the C code's wrapping subtraction gives it. */
  function Count(r: Ring): (c: nat) {
    (r.nwrite - r.nread) % WRAP
  }

  predicate RingOk(r: Ring) {
    |r.data| == PIPESIZE && r.nread < WRAP && r.nwrite < WRAP && Count(r) <= PIPESIZE
  }

  /** pipewrite's test for a full ring, in wrapping arithmetic. */
  predicate Full(r: Ring) {
    r.nwrite == (r.nread + PIPESIZE) % WRAP
  }

  predicate Empty(r: Ring) {
    r.nread == r.nwrite
  }

  /** The queue the ring stands for. */
  function Contents(r: Ring): (s: seq<int>)
    requires RingOk(r)
    ensures |s| == Count(r)
  {
    seq(Count(r), k requires 0 <= k < Count(r) => r.data[(r.nread + k) % WRAP % PIPESIZE])
  }

  function Put(r: Ring, b: int): (q: Ring)
    requires |r.data| == PIPESIZE
  {
    Ring(r.data[r.nwrite % PIPESIZE := b], r.nread, (r.nwrite + 1) % WRAP)
  }

  function Got(r: Ring): (q: Ring) {
    r.(nread := (r.nread + 1) % WRAP)
  }

  lemma FullIsFull(r: Ring)
    requires RingOk(r)
    ensures Full(r) <==> Count(r) == PIPESIZE
    ensures Empty(r) <==> Count(r) == 0
  {
  }

  /** The ring size divides the counters' range, so indices survive the wrap. */
  lemma WrapIndex(n: nat, k: nat)
    requires n < WRAP && k <= PIPESIZE
    ensures (n + k) % WRAP % PIPESIZE == (n + k) % PIPESIZE
  {
  }

  lemma SlotsDiffer(n: nat, j: nat, k: nat)
    requires j < k < PIPESIZE
    ensures (n + j) % PIPESIZE != (n + k) % PIPESIZE
  {
  }

  lemma CountIs(r: Ring)
    requires r.nread < WRAP && r.nwrite < WRAP
    ensures Count(r) == if r.nwrite >= r.nread then r.nwrite - r.nread else r.nwrite - r.nread + WRAP
  {
  }

  lemma PutCount(r: Ring, b: int)
    requires RingOk(r) && !Full(r)
    ensures RingOk(Put(r, b)) && Count(Put(r, b)) == Count(r) + 1 <= PIPESIZE
    ensures r.nwrite == (r.nread + Count(r)) % WRAP
  {
    FullIsFull(r);
    CountIs(r);
    assert (r.nwrite + 1) % WRAP == if r.nwrite + 1 == WRAP then 0 else r.nwrite + 1;
    CountIs(Put(r, b));
  }

  lemma PutKeeps(r: Ring, b: int, k: nat)
    requires RingOk(r) && !Full(r) && k < Count(r) < PIPESIZE && r.nwrite == (r.nread + Count(r)) % WRAP
    ensures Put(r, b).data[(r.nread + k) % WRAP % PIPESIZE] == r.data[(r.nread + k) % WRAP % PIPESIZE]
    ensures Put(r, b).data[(r.nread + Count(r)) % WRAP % PIPESIZE] == b
  {
    WrapIndex(r.nread, k);
    WrapIndex(r.nread, Count(r));
    SlotsDiffer(r.nread, k, Count(r));
  }

  lemma PutAppends(r: Ring, b: int)
    requires RingOk(r) && !Full(r)
    ensures RingOk(Put(r, b)) && Contents(Put(r, b)) == Contents(r) + [b]
  {
    PutCount(r, b);
    var q, c := Put(r, b), Count(r);
    forall k | 0 <= k < c ensures Contents(q)[k] == Contents(r)[k] {
      PutKeeps(r, b, k);
    }
    assert Contents(q)[c] == b;
  }

  lemma WrapNext(n: nat, k: nat)
    requires n < WRAP && k < PIPESIZE
    ensures ((n + 1) % WRAP + k) % WRAP == (n + (k + 1)) % WRAP
  {
  }

  lemma GotCount(r: Ring)
    requires RingOk(r) && !Empty(r)
    ensures RingOk(Got(r)) && Count(Got(r)) == Count(r) - 1
  {
  }

  lemma GotRemoves(r: Ring)
    requires RingOk(r) && !Empty(r)
    ensures RingOk(Got(r)) && Contents(r) == [r.data[r.nread % PIPESIZE]] + Contents(Got(r))
  {
    GotCount(r);
    var q := Got(r);
    var s := [r.data[r.nread % PIPESIZE]] + Contents(q);
    forall k | 0 <= k < Count(r) ensures Contents(r)[k] == s[k] {
      if k > 0 {
        WrapNext(r.nread, k - 1);
        assert Contents(q)[k - 1] == q.data[(q.nread + (k - 1)) % WRAP % PIPESIZE];
      }
    }
    assert Contents(r) == s;
  }

  function PutAll(r: Ring, s: seq<int>): (q: Ring)
    requires |r.data| == PIPESIZE
    ensures |q.data| == PIPESIZE
  {
    if s == [] then r else Put(PutAll(r, s[..|s| - 1]), s[|s| - 1])
  }

  function GotAll(r: Ring, n: nat): (q: Ring) {
    if n == 0 then r else Got(GotAll(r, n - 1))
  }

  lemma {:induction false} PutAllAppends(r: Ring, s: seq<int>)
    requires RingOk(r) && Count(r) + |s| <= PIPESIZE
    ensures RingOk(PutAll(r, s)) && Contents(PutAll(r, s)) == Contents(r) + s
  {
    if s == [] {
      assert Contents(r) + s == Contents(r);
    } else {
      var t, b := s[..|s| - 1], s[|s| - 1];
      PutAllAppends(r, t);
      FullIsFull(PutAll(r, t));
      PutAppends(PutAll(r, t), b);
      assert Contents(r) + t + [b] == Contents(r) + s;
    }
  }

  lemma {:induction false} GotAllRemoves(r: Ring, n: nat)
    requires RingOk(r) && n <= Count(r)
    ensures RingOk(GotAll(r, n)) && Contents(GotAll(r, n)) == Contents(r)[n..]
  {
    if n == 0 {
      assert Contents(r)[0..] == Contents(r);
    } else {
      GotAllRemoves(r, n - 1);
      FullIsFull(GotAll(r, n - 1));
      GotRemoves(GotAll(r, n - 1));
    }
  }

  // pipe.c's copy loops ------------------------------------------------------------------

  class PipeBuf {
    var data: array<int>
    var nread: nat
    var nwrite: nat

    ghost function Value(): Ring
      reads this, data
    {
      Ring(data[..], nread, nwrite)
    }

    ghost predicate Valid()
      reads this, data
    {
      RingOk(Value())
    }

    constructor ()
      ensures Valid() && fresh(data) && Contents(Value()) == []
    {
      data := new int[PIPESIZE];
      nread, nwrite := 0, 0;
    }

    /** pipewrite between two waits: bytes go in until all are in or the ring is full. */
    method Fill(addr: seq<int>, i: nat) returns (j: nat)
      requires Valid() && i <= |addr|
      modifies this`nwrite, data
      ensures Valid() && data == old(data) && nread == old(nread)
      ensures i <= j <= |addr| && (j == |addr| || Full(Value()))
      ensures j - i == Min(|addr| - i, PIPESIZE - Count(old(Value())))
      ensures Value() == PutAll(old(Value()), addr[i..j])
      ensures Contents(Value()) == old(Contents(Value())) + addr[i..j]
    {
      hide Contents;
      j := i;
      assert addr[i..i] == [];
      while j < |addr| && nwrite != (nread + PIPESIZE) % WRAP
        invariant Valid() && i <= j <= |addr|
        invariant Value() == PutAll(old(Value()), addr[i..j])
        invariant Contents(Value()) == old(Contents(Value())) + addr[i..j]
        decreases |addr| - j
      {
        PutAppends(Value(), addr[j]);
        data[nwrite % PIPESIZE] := addr[j];
        nwrite := (nwrite + 1) % WRAP;
        assert addr[i..j + 1][..j - i] == addr[i..j];
        j := j + 1;
      }
      FullIsFull(Value());
      assert Count(Value()) == Count(old(Value())) + (j - i);
    }

    /** piperead's copy: at most `n` bytes, all there are if fewer. */
    method Drain(n: nat) returns (s: seq<int>)
      requires Valid()
      modifies this`nread
      ensures Valid() && nwrite == old(nwrite)
      ensures |s| <= n && (|s| == n || Empty(Value()))
      ensures |s| == Min(n, Count(old(Value())))
      ensures Value() == GotAll(old(Value()), |s|)
      ensures old(Contents(Value())) == s + Contents(Value())
    {
      s := [];
      while |s| < n && nread != nwrite
        invariant Valid() && |s| <= n
        invariant Value() == GotAll(old(Value()), |s|)
        invariant old(Contents(Value())) == s + Contents(Value())
        decreases n - |s|
      {
        GotRemoves(Value());
        ghost var b, rest := data[nread % PIPESIZE], Contents(Got(Value()));
        assert s + ([b] + rest) == (s + [b]) + rest;
        s := s + [data[nread % PIPESIZE]];
        nread := (nread + 1) % WRAP;
      }
      FullIsFull(Value());
      assert Count(old(Value())) == |s| + Count(Value());
    }
  }

  // Readers and writers --------------------------------------------------------------------

  /** A process in a pipe call: bytes still to write or room still to fill, and
      whether it sleeps on &p->nwrite or &p->nread. */
  datatype Call = None | Writing(todo: seq<int>, asleep: bool) | Reading(n: nat, asleep: bool)

  /** `put` and `taken` are all bytes ever stored and ever returned. */
  datatype State = State(
    ring: Ring, readOpen: bool, writeOpen: bool,
    calls: seq<Call>, killed: seq<bool>,
    put: seq<int>, taken: seq<int>)

  datatype Step =
    | BeginWrite(p: nat, s: seq<int>)
    | BeginRead(p: nat, n: nat)
    | RunWriter(p: nat)
    | RunReader(p: nat)
    | CloseWrite
    | CloseRead
    | Kill(p: nat)

  function Wake(c: Call): Call {
    match c
    case None => None
    case Writing(t, _) => Writing(t, false)
    case Reading(n, _) => Reading(n, false)
  }

  function WakeReaders(cs: seq<Call>): (r: seq<Call>)
    ensures |r| == |cs|
  {
    seq(|cs|, i requires 0 <= i < |cs| => if cs[i].Reading? then Wake(cs[i]) else cs[i])
  }

  function WakeWriters(cs: seq<Call>): (r: seq<Call>)
    ensures |r| == |cs|
  {
    seq(|cs|, i requires 0 <= i < |cs| => if cs[i].Writing? then Wake(cs[i]) else cs[i])
  }

  /** An end is closed only when the last file holding it is, so never while a
      call through it is in progress. */
  predicate Enabled(s: State, t: Step) {
    match t
    case BeginWrite(p, _) => p < |s.calls| && s.calls[p].None? && s.writeOpen
    case BeginRead(p, _) => p < |s.calls| && s.calls[p].None? && s.readOpen
    case RunWriter(p) => p < |s.calls| && s.calls[p].Writing? && !s.calls[p].asleep
    case RunReader(p) => p < |s.calls| && s.calls[p].Reading? && !s.calls[p].asleep
    case CloseWrite => s.writeOpen && forall i :: 0 <= i < |s.calls| ==> !s.calls[i].Writing?
    case CloseRead => s.readOpen && forall i :: 0 <= i < |s.calls| ==> !s.calls[i].Reading?
    case Kill(p) => p < |s.calls|
  }

  function Min(a: int, b: int): int { if a < b then a else b }

  /** Each Run step is one stretch of pipewrite or piperead with p->lock held. */
  function Next(s: State, t: Step): (r: State)
    requires RingOk(s.ring) && |s.killed| == |s.calls| && Enabled(s, t)
  {
    match t
    case BeginWrite(p, b) => s.(calls := s.calls[p := Writing(b, false)])
    case BeginRead(p, n) => s.(calls := s.calls[p := Reading(n, false)])
    case RunWriter(p) =>
      var todo := s.calls[p].todo;
      var m := Min(|todo|, PIPESIZE - Count(s.ring));
      var s1 := s.(ring := PutAll(s.ring, todo[..m]), put := s.put + todo[..m]);
      if m == |todo| then s1.(calls := WakeReaders(s.calls[p := None]))
      else if !s.readOpen || s.killed[p] then s1.(calls := s.calls[p := None])
      else s1.(calls := WakeReaders(s.calls[p := Writing(todo[m..], true)]))
    case RunReader(p) =>
      if Empty(s.ring) && s.writeOpen then
        s.(calls := s.calls[p := if s.killed[p] then None else Reading(s.calls[p].n, true)])
      else
        var m := Min(s.calls[p].n, Count(s.ring));
        s.(ring := GotAll(s.ring, m), taken := s.taken + Contents(s.ring)[..m],
           calls := WakeWriters(s.calls[p := None]))
    case CloseWrite => s.(writeOpen := false, calls := WakeReaders(s.calls))
    case CloseRead => s.(readOpen := false, calls := WakeWriters(s.calls))
    case Kill(p) => s.(killed := s.killed[p := true], calls := s.calls[p := Wake(s.calls[p])])
  }

  /** A new pipe, its counters anywhere in their range, and `n` processes. */
  function Init(r: Ring, n: nat): (s: State) {
    State(r, true, true, seq(n, _ => None), seq(n, _ => false), [], [])
  }

  ghost predicate FifoInv(s: State) {
    && RingOk(s.ring) && |s.killed| == |s.calls|
    && s.put == s.taken + Contents(s.ring)
  }

  /** A sleeping reader faces an empty pipe whose write end is open. */
  predicate ReadersOk(s: State) {
    forall i :: 0 <= i < |s.calls| && s.calls[i].Reading? && s.calls[i].asleep ==> Empty(s.ring) && s.writeOpen
  }

  /** A sleeping writer faces a full pipe whose read end is open. */
  predicate WritersOk(s: State) {
    forall i :: 0 <= i < |s.calls| && s.calls[i].Writing? && s.calls[i].asleep ==> Full(s.ring) && s.readOpen
  }

  /** A call is in progress only through an open end. */
  predicate EndsOpen(s: State) {
    && (forall i :: 0 <= i < |s.calls| && s.calls[i].Reading? ==> s.readOpen)
    && (forall i :: 0 <= i < |s.calls| && s.calls[i].Writing? ==> s.writeOpen)
  }

  predicate ReaderAsleep(s: State) {
    exists i :: 0 <= i < |s.calls| && s.calls[i].Reading? && s.calls[i].asleep
  }

  /** The one way to lose a wakeup: a killed writer puts bytes in the ring, fills
      it with more to go, and returns past the wakeup while a reader sleeps. */
  predicate Strands(s: State, t: Step) {
    && t.RunWriter? && t.p < |s.calls| && t.p < |s.killed| && s.calls[t.p].Writing?
    && s.killed[t.p] && s.readOpen
    && Count(s.ring) < PIPESIZE && |s.calls[t.p].todo| > PIPESIZE - Count(s.ring)
    && ReaderAsleep(s)
  }

  lemma RunWriterFifo(s: State, p: nat)
    requires FifoInv(s) && Enabled(s, RunWriter(p))
    ensures FifoInv(Next(s, RunWriter(p)))
  {
    var todo := s.calls[p].todo;
    var m := Min(|todo|, PIPESIZE - Count(s.ring));
    PutAllAppends(s.ring, todo[..m]);
    assert s.taken + (Contents(s.ring) + todo[..m]) == (s.taken + Contents(s.ring)) + todo[..m];
  }

  lemma RunReaderFifo(s: State, p: nat)
    requires FifoInv(s) && Enabled(s, RunReader(p))
    ensures FifoInv(Next(s, RunReader(p)))
  {
    if !(Empty(s.ring) && s.writeOpen) {
      var m := Min(s.calls[p].n, Count(s.ring));
      GotAllRemoves(s.ring, m);
      var c := Contents(s.ring);
      assert s.taken + (c[..m] + c[m..]) == (s.taken + c[..m]) + c[m..];
      assert c[..m] + c[m..] == c;
    }
  }

  lemma FifoNext(s: State, t: Step)
    requires FifoInv(s) && Enabled(s, t)
    ensures FifoInv(Next(s, t))
  {
    match t
    case RunWriter(p) => RunWriterFifo(s, p);
    case RunReader(p) => RunReaderFifo(s, p);
    case _ =>
  }

  lemma RunWriterRing(s: State, p: nat)
    requires FifoInv(s) && Enabled(s, RunWriter(p))
    ensures var r := Next(s, RunWriter(p)); var todo := s.calls[p].todo;
            && RingOk(r.ring) && Count(r.ring) == Count(s.ring) + Min(|todo|, PIPESIZE - Count(s.ring))
            && (Full(r.ring) <==> Count(r.ring) == PIPESIZE) && (Empty(r.ring) <==> Count(r.ring) == 0)
            && (Full(s.ring) <==> Count(s.ring) == PIPESIZE) && (Empty(s.ring) <==> Count(s.ring) == 0)
  {
    var todo := s.calls[p].todo;
    PutAllAppends(s.ring, todo[..Min(|todo|, PIPESIZE - Count(s.ring))]);
    FullIsFull(s.ring);
    FullIsFull(Next(s, RunWriter(p)).ring);
  }

  /** No step, kills included, leaves a writer asleep that could go on. */
  lemma WritersNext(s: State, t: Step)
    requires FifoInv(s) && WritersOk(s) && EndsOpen(s) && Enabled(s, t)
    ensures WritersOk(Next(s, t)) && EndsOpen(Next(s, t))
  {
    if t.RunWriter? {
      RunWriterRing(s, t.p);
    }
  }

  lemma WriterStep(s: State, p: nat)
    requires FifoInv(s) && ReadersOk(s) && WritersOk(s) && EndsOpen(s) && Enabled(s, RunWriter(p))
    ensures ReadersOk(Next(s, RunWriter(p))) <==> !Strands(s, RunWriter(p))
  {
    RunWriterRing(s, p);
    var r := Next(s, RunWriter(p));
    if Strands(s, RunWriter(p)) {
      var i :| 0 <= i < |s.calls| && s.calls[i].Reading? && s.calls[i].asleep;
      assert r.calls[i] == s.calls[i];
    }
  }

  /** A step leaves no reader asleep that could go on, exactly if it is not the
      one that strands readers. */
  lemma ReadersNext(s: State, t: Step)
    requires FifoInv(s) && ReadersOk(s) && WritersOk(s) && EndsOpen(s) && Enabled(s, t)
    ensures ReadersOk(Next(s, t)) <==> !Strands(s, t)
  {
    match t
    case RunWriter(p) => WriterStep(s, p);
    case _ =>
  }

  ghost predicate IsRun(ss: seq<State>, ts: seq<Step>, r: Ring, n: nat) {
    && RingOk(r) && Empty(r)
    && |ss| == |ts| + 1 && ss[0] == Init(r, n)
    && forall i :: 0 <= i < |ts| ==> Linked(ss[i], ts[i], ss[i + 1])
  }

  ghost predicate Linked(s: State, t: Step, r: State) {
    RingOk(s.ring) && |s.killed| == |s.calls| && Enabled(s, t) && r == Next(s, t)
  }

  lemma {:induction false} RunInv(ss: seq<State>, ts: seq<Step>, r: Ring, n: nat, k: nat)
    requires IsRun(ss, ts, r, n) && k < |ss|
    ensures FifoInv(ss[k]) && WritersOk(ss[k]) && EndsOpen(ss[k])
  {
    if k > 0 {
      RunInv(ss, ts, r, n, k - 1);
      assert Linked(ss[k - 1], ts[k - 1], ss[k]);
      FifoNext(ss[k - 1], ts[k - 1]);
      WritersNext(ss[k - 1], ts[k - 1]);
    }
  }

  /** Over every interleaving, and from any starting counters, bytes come out in
      the order they went in and at most PIPESIZE of them are in between. */
  lemma PipeIsFifo(ss: seq<State>, ts: seq<Step>, r: Ring, n: nat, k: nat)
    requires IsRun(ss, ts, r, n) && k < |ss|
    ensures ss[k].taken <= ss[k].put
    ensures |ss[k].put| - |ss[k].taken| <= PIPESIZE
    ensures RingOk(ss[k].ring) && ss[k].put[|ss[k].taken|..] == Contents(ss[k].ring)
  {
    RunInv(ss, ts, r, n, k);
  }

  /** No writer is ever left asleep before a pipe it could write to; and readers
      are left asleep before a pipe they could read from in exactly the runs in
      which a step strands them. */
  lemma {:induction false} NoLostWakeup(ss: seq<State>, ts: seq<Step>, r: Ring, n: nat, m: nat)
    requires IsRun(ss, ts, r, n) && m < |ss|
    ensures WritersOk(ss[m])
    ensures (forall k :: 0 <= k <= m ==> ReadersOk(ss[k])) <==> (forall k :: 0 <= k < m ==> !Strands(ss[k], ts[k]))
  {
    RunInv(ss, ts, r, n, m);
    if m > 0 {
      NoLostWakeup(ss, ts, r, n, m - 1);
      RunInv(ss, ts, r, n, m - 1);
      assert Linked(ss[m - 1], ts[m - 1], ss[m - 1 + 1]);
      if ReadersOk(ss[m - 1]) {
        ReadersNext(ss[m - 1], ts[m - 1]);
      }
    }
  }

  /** Such a run: a killed writer that fills the ring returns without its wakeup,
      and a reader sleeps on before a full pipe. */
  lemma KilledWriterStrandsReader(r: Ring) returns (ss: seq<State>, ts: seq<Step>)
    requires RingOk(r) && Empty(r)
    ensures IsRun(ss, ts, r, 2)
    ensures |ts| > 0 && Strands(ss[|ts| - 1], ts[|ts| - 1])
    ensures var s := ss[|ts|]; |s.calls| == 2 && s.calls[0] == Reading(1, true) && Full(s.ring)
  {
    var b := seq(PIPESIZE + 1, _ => 0);
    ts := [BeginRead(0, 1), RunReader(0), BeginWrite(1, b), Kill(1), RunWriter(1)];
    var s0 := Init(r, 2);
    var s1 := Next(s0, ts[0]);
    var s2 := Next(s1, ts[1]);
    var s3 := Next(s2, ts[2]);
    var s4 := Next(s3, ts[3]);
    FullIsFull(r);
    PutAllAppends(r, b[..PIPESIZE]);
    FullIsFull(PutAll(r, b[..PIPESIZE]));
    var s5 := Next(s4, ts[4]);
    ss := [s0, s1, s2, s3, s4, s5];
    assert Linked(s0, ts[0], s1) && Linked(s1, ts[1], s2) && Linked(s2, ts[2], s3);
    assert Linked(s3, ts[3], s4) && Linked(s4, ts[4], s5);
    assert s4.calls[0] == Reading(1, true);
  }
}
