/** Group commit as a state machine: file-system operations begin, log block
    writes and end in any interleaving; the last one to end commits, one disk
    write per step; the machine may stop after any step. */
module GroupCommit {
  import opened Blocks
  import opened RedoLog

  // struct log, in memory ------------------------------------------------------

  datatype LogState = LogState(lh: seq<int>, outstanding: int, committing: bool)

  /** Log absorption: a block already recorded takes no second slot. */
  function Absorb(lh: seq<int>, b: int): (r: seq<int>)
    ensures lh <= r && b in r
    ensures Distinct(lh) ==> Distinct(r)
  {
    if b in lh then lh else lh + [b]
  }

  /** begin_op's admission test, the negation of both of its sleep conditions. */
  predicate MayBegin(g: LogState) {
    !g.committing && |g.lh| + (g.outstanding + 1) * MAXOPBLOCKS <= LOGSIZE
  }

  /** log_write's two panics. */
  predicate WritePanics(l: Layout, g: LogState) {
    |g.lh| >= LOGSIZE || |g.lh| >= l.size - 1 || g.outstanding < 1
  }

  // The machine ------------------------------------------------------------------

  /** A running operation and how many new blocks it has put in the log. */
  datatype Running = Running(id: nat, spent: nat)

  datatype Write = Write(op: nat, bno: int, data: Block)

  /** `cache` holds the pinned buffers, `base` the disk when this transaction
      began, `k` the disk writes its commit has done, `hist` every logged write
      of the run and `since` where this transaction's writes start in it. */
  datatype State = State(
    l: Layout, disk: Disk, log: LogState, cache: map<int, Block>,
    active: seq<Running>, finished: set<nat>,
    base: Disk, k: nat, hist: seq<Write>, since: nat)

  datatype Step =
    | BeginOp(id: nat)
    | LogWrite(i: nat, bno: int, data: Block)
    | EndOp(i: nat)
    | CommitWrite
    | CommitDone

  function Init(l: Layout, d: Disk): (s: State) {
    State(l, d, LogState([], 0, false), map[], [], {}, d, 0, [], 0)
  }

  predicate FreshId(s: State, id: nat) {
    id !in s.finished && forall i :: 0 <= i < |s.active| ==> s.active[i].id != id
  }

  /** When a step can happen. An operation names home blocks only and adds at
      most MAXOPBLOCKS new ones; a panic stops the machine. */
  predicate Enabled(s: State, t: Step) {
    match t
    case BeginOp(id) => MayBegin(s.log) && FreshId(s, id)
    case LogWrite(i, b, _) =>
      && i < |s.active| && 0 <= b < |s.base| && !InLog(s.l, b)
      && (b in s.log.lh || s.active[i].spent < MAXOPBLOCKS)
      && !WritePanics(s.l, s.log)
    case EndOp(i) => i < |s.active| && !s.log.committing
    case CommitWrite => s.log.committing && s.k < CommitLength(|s.log.lh|) && CommitReady(s)
    case CommitDone => s.log.committing && s.k == CommitLength(|s.log.lh|)
  }

  predicate CommitReady(s: State) {
    && s.l.start + |s.log.lh| < |s.disk| <= WORD_MAX && |s.log.lh| <= LOGSIZE
    && forall i :: 0 <= i < |s.log.lh| ==> s.log.lh[i] in s.cache && 0 <= s.log.lh[i] < |s.disk|
  }

  /** The next single-block write of commit, from the disk as it is. */
  function OneWrite(s: State): (d: Disk)
    requires CommitReady(s) && s.k < CommitLength(|s.log.lh|)
  {
    var n := |s.log.lh|;
    if s.k < n then s.disk[s.l.start + 1 + s.k := s.cache[s.log.lh[s.k]]]
    else if s.k == n then PutHead(s.l, s.disk, s.log.lh)
    else if s.k <= 2 * n then
      var j := s.k - n - 1;
      s.disk[s.log.lh[j] := s.disk[s.l.start + 1 + j]]
    else PutHead(s.l, s.disk, [])
  }

  function Next(s: State, t: Step): (r: State)
    requires Enabled(s, t)
  {
    match t
    case BeginOp(id) =>
      s.(log := s.log.(outstanding := s.log.outstanding + 1), active := s.active + [Running(id, 0)])
    case LogWrite(i, b, data) =>
      var cost := if b in s.log.lh then 0 else 1;
      var a := s.active[i];
      s.(log := s.log.(lh := Absorb(s.log.lh, b)), cache := s.cache[b := data],
         active := s.active[i := Running(a.id, a.spent + cost)],
         hist := s.hist + [Write(a.id, b, data)])
    case EndOp(i) =>
      var out := s.log.outstanding - 1;
      s.(log := s.log.(outstanding := out, committing := out == 0),
         active := s.active[..i] + s.active[i + 1..], finished := s.finished + {s.active[i].id})
    case CommitWrite => s.(disk := OneWrite(s), k := s.k + 1)
    case CommitDone =>
      s.(log := LogState([], s.log.outstanding, false), cache := map[],
         base := s.disk, k := 0, since := |s.hist|)
  }

  /** A run: states linked by enabled steps from a clean disk. */
  ghost predicate IsRun(l: Layout, d: Disk, ss: seq<State>, ts: seq<Step>) {
    && GoodDisk(l, d) && HeadList(l, d) == []
    && |ss| == |ts| + 1 && ss[0] == Init(l, d)
    && forall i :: 0 <= i < |ts| ==> Enabled(ss[i], ts[i]) && ss[i + 1] == Next(ss[i], ts[i])
  }

  // Reference: what the operations wrote -----------------------------------------

  /** The disk after the writes of `h`, in order, with no cache and no log. */
  function Replay(d: Disk, h: seq<Write>): (r: Disk)
    ensures |r| == |d|
  {
    if h == [] then d
    else
      var p, w := Replay(d, h[..|h| - 1]), h[|h| - 1];
      if 0 <= w.bno < |p| then p[w.bno := w.data] else p
  }

  lemma ReplayOne(d: Disk, h: seq<Write>, w: Write)
    ensures Replay(d, h + [w]) == if 0 <= w.bno < |d| then Replay(d, h)[w.bno := w.data] else Replay(d, h)
  {
  }

  /** New blocks the running operations may still add. */
  function Unspent(a: seq<Running>): int {
    if a == [] then 0 else Unspent(a[..|a| - 1]) + MAXOPBLOCKS - a[|a| - 1].spent
  }

  lemma {:induction false} UnspentWithout(a: seq<Running>, i: nat)
    requires i < |a|
    ensures Unspent(a) == Unspent(a[..i] + a[i + 1..]) + MAXOPBLOCKS - a[i].spent
  {
    var m := |a| - 1;
    var rest := a[..i] + a[i + 1..];
    if i == m {
      assert rest == a[..m];
    } else {
      UnspentWithout(a[..m], i);
      assert rest[..m - 1] == a[..m][..i] + a[..m][i + 1..];
      assert rest[m - 1] == a[m];
    }
  }

  lemma {:induction false} UnspentUpdate(a: seq<Running>, i: nat, r: Running)
    requires i < |a|
    ensures Unspent(a[i := r]) == Unspent(a) + a[i].spent - r.spent
  {
    var m := |a| - 1;
    if i == m {
      assert a[i := r][..m] == a[..m];
    } else {
      UnspentUpdate(a[..m], i, r);
      assert a[i := r][..m] == a[..m][i := r];
    }
  }

  lemma {:induction false} UnspentBounds(a: seq<Running>)
    requires forall i :: 0 <= i < |a| ==> a[i].spent <= MAXOPBLOCKS
    ensures 0 <= Unspent(a) <= |a| * MAXOPBLOCKS
  {
    if a != [] {
      UnspentBounds(a[..|a| - 1]);
    }
  }

  // Invariant ----------------------------------------------------------------------

  /** Log bookkeeping: counts, budgets and the space reserved for them. */
  ghost predicate LogInv(s: State) {
    && s.log.outstanding == |s.active|
    && (s.log.committing ==> s.active == [])
    && (forall i :: 0 <= i < |s.active| ==> s.active[i].spent <= MAXOPBLOCKS)
    && |s.log.lh| + Unspent(s.active) <= LOGSIZE
    && GoodList(s.l, s.base, s.log.lh)
    && (forall b :: b in s.cache <==> b in s.log.lh)
  }

  /** Where the disk stands, and what the cache means. */
  ghost predicate DiskInv(s: State, d0: Disk)
    requires LogInv(s)
  {
    && |s.base| == |d0| && s.since <= |s.hist|
    && GoodDisk(s.l, s.base) && HeadList(s.l, s.base) == []
    && SameHome(s.l, s.base, Replay(d0, s.hist[..s.since]))
    && SameHome(s.l, Applied(s.base, s.cache, s.log.lh), Replay(d0, s.hist))
    && (!s.log.committing ==> s.k == 0)
    && s.k <= CommitLength(|s.log.lh|)
    && s.disk == CommitStep(s.l, s.base, s.log.lh, s.cache, s.k)
  }

  /** Who wrote what: writes before `since` are of finished operations that
      wrote nothing after it. */
  predicate OwnerInv(s: State) {
    && s.since <= |s.hist|
    && (forall i, j :: 0 <= i < j < |s.active| ==> s.active[i].id != s.active[j].id)
    && (forall i :: 0 <= i < |s.active| ==> s.active[i].id !in s.finished)
    && (forall i :: 0 <= i < s.since ==> s.hist[i].op in s.finished)
    && (forall i :: s.since <= i < |s.hist| ==> s.hist[i].op in s.finished || IsActive(s, s.hist[i].op))
    && (forall i, j :: 0 <= i < s.since <= j < |s.hist| ==> s.hist[i].op != s.hist[j].op)
  }

  predicate IsActive(s: State, id: nat) {
    exists i :: 0 <= i < |s.active| && s.active[i].id == id
  }

  ghost predicate Inv(s: State, d0: Disk) {
    LogInv(s) && DiskInv(s, d0) && OwnerInv(s)
  }

  lemma InitInv(l: Layout, d: Disk)
    requires GoodDisk(l, d) && HeadList(l, d) == []
    ensures Inv(Init(l, d), d)
  {
  }

  lemma LogInvWrite(s: State, t: Step)
    requires LogInv(s) && Enabled(s, t) && t.LogWrite?
    ensures LogInv(Next(s, t))
  {
    UnspentUpdate(s.active, t.i, Next(s, t).active[t.i]);
  }

  lemma LogInvEnd(s: State, t: Step)
    requires LogInv(s) && Enabled(s, t) && t.EndOp?
    ensures LogInv(Next(s, t))
  {
    UnspentWithout(s.active, t.i);
  }

  lemma LogInvNext(s: State, t: Step)
    requires LogInv(s) && Enabled(s, t)
    requires t.CommitDone? ==> |s.disk| == |s.base|
    ensures LogInv(Next(s, t))
  {
    match t
    case BeginOp(id) =>
      UnspentBounds(s.active);
      assert Next(s, t).active[..|s.active|] == s.active;
    case LogWrite(_, _, _) => LogInvWrite(s, t);
    case EndOp(_) => LogInvEnd(s, t);
    case CommitWrite =>
    case CommitDone =>
  }

  lemma DiskInvWrite(s: State, t: Step, d0: Disk)
    requires LogInv(s) && DiskInv(s, d0) && Enabled(s, t) && t.LogWrite?
    requires LogInv(Next(s, t))
    ensures DiskInv(Next(s, t), d0)
  {
    var r := Next(s, t);
    var w := Write(s.active[t.i].id, t.bno, t.data);
    ReplayOne(d0, s.hist, w);
    assert r.hist[..s.since] == s.hist[..s.since];
    var x, y := Applied(r.base, r.cache, r.log.lh), Replay(d0, r.hist);
    var x0 := Applied(s.base, s.cache, s.log.lh);
    forall b | 0 <= b < |d0| && !InLog(s.l, b) ensures x[b] == y[b] {
      if b != t.bno {
        assert b in r.log.lh <==> b in s.log.lh;
        assert x[b] == x0[b];
      }
    }
  }

  /** Each write of commit moves the disk one CommitStep on. */
  lemma OneWriteIsStep(s: State)
    requires LogInv(s) && CommitReady(s) && s.k < CommitLength(|s.log.lh|)
    requires s.disk == CommitStep(s.l, s.base, s.log.lh, s.cache, s.k)
    ensures OneWrite(s) == CommitStep(s.l, s.base, s.log.lh, s.cache, s.k + 1)
  {
    hide EncodeHead, HeadWords, Word;
  }

  lemma DiskInvDone(s: State, d0: Disk)
    requires LogInv(s) && DiskInv(s, d0) && Enabled(s, CommitDone)
    requires LogInv(Next(s, CommitDone))
    ensures DiskInv(Next(s, CommitDone), d0)
  {
    hide EncodeHead, HeadWords, Word;
    var r := Next(s, CommitDone);
    CommitComplete(s.l, s.base, s.log.lh, s.cache);
    assert s.hist[..|s.hist|] == s.hist;
    assert Applied(r.base, r.cache, r.log.lh) == r.base;
  }

  lemma OwnerInvNext(s: State, t: Step)
    requires LogInv(s) && OwnerInv(s) && Enabled(s, t)
    ensures OwnerInv(Next(s, t))
  {
    hide EncodeHead, HeadWords, Word, GoodList;
    var r := Next(s, t);
    match t
    case BeginOp(id) =>
      forall i | s.since <= i < |s.hist| && IsActive(s, s.hist[i].op) ensures IsActive(r, s.hist[i].op) {
        var j :| 0 <= j < |s.active| && s.active[j].id == s.hist[i].op;
        assert r.active[j] == s.active[j];
      }
    case LogWrite(n, b, data) =>
      forall i | s.since <= i < |r.hist| && r.hist[i].op !in r.finished ensures IsActive(r, r.hist[i].op) {
        var j :| 0 <= j < |s.active| && s.active[j].id == r.hist[i].op;
        assert r.active[j].id == s.active[j].id;
      }
    case EndOp(n) =>
      forall i | s.since <= i < |s.hist| && s.hist[i].op !in r.finished ensures IsActive(r, s.hist[i].op) {
        var j :| 0 <= j < |s.active| && s.active[j].id == s.hist[i].op;
        assert r.active[if j < n then j else j - 1] == s.active[j];
      }
    case CommitWrite =>
    case CommitDone =>
  }

  lemma InvNext(s: State, t: Step, d0: Disk)
    requires Inv(s, d0) && Enabled(s, t)
    ensures Inv(Next(s, t), d0)
  {
    hide EncodeHead, HeadWords, Word;
    LogInvNext(s, t);
    OwnerInvNext(s, t);
    match t
    case BeginOp(_) =>
    case LogWrite(_, _, _) => DiskInvWrite(s, t, d0);
    case EndOp(_) =>
    case CommitWrite => OneWriteIsStep(s);
    case CommitDone => DiskInvDone(s, d0);
  }

  lemma {:induction false} RunInv(l: Layout, d: Disk, ss: seq<State>, ts: seq<Step>, n: nat)
    requires IsRun(l, d, ss, ts) && n < |ss|
    ensures Inv(ss[n], d) && ss[n].l == l
  {
    if n == 0 {
      InitInv(l, d);
    } else {
      RunInv(l, d, ss, ts, n - 1);
      assert Enabled(ss[n - 1], ts[n - 1]);
      InvNext(ss[n - 1], ts[n - 1], d);
    }
  }

  // Main results ---------------------------------------------------------------------

  /** How many writes of the history a recovery from this state would keep. */
  function Durable(s: State): (c: nat) {
    if s.log.committing && s.k > |s.log.lh| then |s.hist| else s.since
  }

  lemma CrashState(s: State, d: Disk)
    requires Inv(s, d)
    ensures var c := Durable(s);
            && GoodDisk(s.l, s.disk) && c <= |s.hist|
            && SameHome(s.l, Recovered(s.l, s.disk), Replay(d, s.hist[..c]))
            && (forall i :: 0 <= i < c ==> s.hist[i].op in s.finished)
            && (forall i, j :: 0 <= i < c <= j < |s.hist| ==> s.hist[i].op != s.hist[j].op)
  {
    CommitCrash(s.l, s.base, s.log.lh, s.cache, s.k);
    assert s.hist[..|s.hist|] == s.hist;
    if Durable(s) > s.since {
      forall i | 0 <= i < |s.hist| ensures s.hist[i].op in s.finished {
        assert !IsActive(s, s.hist[i].op);
      }
    }
  }

  /** Stop the machine at any point of any run and recover: the home blocks hold
      exactly the first `Durable` logged writes; all of them are of finished
      operations, and each operation is in with all its writes or with none. */
  lemma CrashConsistency(l: Layout, d: Disk, ss: seq<State>, ts: seq<Step>, n: nat)
    requires IsRun(l, d, ss, ts) && n < |ss|
    ensures var s := ss[n]; var c := Durable(s);
            && GoodDisk(l, s.disk) && c <= |s.hist|
            && SameHome(l, Recovered(l, s.disk), Replay(d, s.hist[..c]))
            && (forall i :: 0 <= i < c ==> s.hist[i].op in s.finished)
            && (forall i, j :: 0 <= i < c <= j < |s.hist| ==> s.hist[i].op != s.hist[j].op)
  {
    RunInv(l, d, ss, ts, n);
    CrashState(ss[n], d);
  }

  /** Write-ahead: until the header write, no home block has changed on disk. */
  lemma HomeWaitsForHeader(l: Layout, d: Disk, ss: seq<State>, ts: seq<Step>, n: nat)
    requires IsRun(l, d, ss, ts) && n < |ss|
    requires ss[n].k <= |ss[n].log.lh|
    ensures ss[n].since <= |ss[n].hist|
    ensures SameHome(l, ss[n].disk, Replay(d, ss[n].hist[..ss[n].since]))
  {
    RunInv(l, d, ss, ts, n);
    var s := ss[n];
    LogWrittenAt(s.l, s.base, s.log.lh, s.cache, s.k);
  }

  /** How many home blocks the commit under way has installed. */
  function Installs(s: State): (j: nat)
    ensures j <= |s.log.lh|
  {
    var n := |s.log.lh|;
    if s.k <= n then 0 else if s.k <= 2 * n + 1 then s.k - n - 1 else n
  }

  /** What a home block holds on disk, at every point of a commit. */
  lemma HomeOnDisk(s: State, d: Disk, b: int)
    requires Inv(s, d) && 0 <= b < |d| && !InLog(s.l, b)
    ensures |s.disk| == |d|
    ensures s.disk[b] == if b in s.log.lh[..Installs(s)] then s.cache[b] else s.base[b]
  {
    hide EncodeHead, HeadWords, Word;
    var n := |s.log.lh|;
    if s.k <= n {
      LogWrittenAt(s.l, s.base, s.log.lh, s.cache, s.k);
    } else {
      InstallingAt(s.l, s.base, s.log.lh, s.cache, Installs(s), b);
    }
  }

  /** While home blocks are being installed, the log holds the transaction. */
  lemma LogOnDisk(s: State, d: Disk, i: nat)
    requires Inv(s, d) && |s.log.lh| < s.k <= 2 * |s.log.lh| + 1 && i < |s.log.lh|
    ensures s.l.start + 1 + i < |s.disk| && s.log.lh[i] in s.cache
    ensures s.disk[s.l.start + 1 + i] == s.cache[s.log.lh[i]]
  {
    hide EncodeHead, HeadWords, Word;
    HeadWrittenAt(s.l, s.base, s.log.lh, s.cache);
    InstalledKeepsLog(s.l, HeadWritten(s.l, s.base, s.log.lh, s.cache), s.log.lh, Installs(s));
    assert InLog(s.l, s.l.start + 1 + i);
  }

  /** Pinned buffer first, then the disk: the last write to a home block. */
  lemma LastWrite(s: State, d: Disk, b: int)
    requires Inv(s, d) && 0 <= b < |d| && !InLog(s.l, b)
    ensures |s.disk| == |d|
    ensures (if b in s.cache then s.cache[b] else s.disk[b]) == Replay(d, s.hist)[b]
  {
    HomeOnDisk(s, d, b);
    assert Applied(s.base, s.cache, s.log.lh)[b] == if b in s.cache then s.cache[b] else s.base[b];
  }

  /** What a process reads, pinned buffer first, is the last write of the run,
      also while a commit is moving blocks. */
  lemma ReadsSeeLastWrite(l: Layout, d: Disk, ss: seq<State>, ts: seq<Step>, n: nat, b: int)
    requires IsRun(l, d, ss, ts) && n < |ss|
    requires 0 <= b < |d| && !InLog(l, b)
    ensures |ss[n].disk| == |d|
    ensures (if b in ss[n].cache then ss[n].cache[b] else ss[n].disk[b]) == Replay(d, ss[n].hist)[b]
  {
    RunInv(l, d, ss, ts, n);
    LastWrite(ss[n], d, b);
  }

  /** A commit never gets stuck: until it is done its next write can be made. */
  lemma CommitGoesOn(l: Layout, d: Disk, ss: seq<State>, ts: seq<Step>, n: nat)
    requires IsRun(l, d, ss, ts) && n < |ss| && ss[n].log.committing
    ensures CommitReady(ss[n])
    ensures Enabled(ss[n], CommitWrite) || Enabled(ss[n], CommitDone)
  {
    hide EncodeHead, HeadWords, Word;
    RunInv(l, d, ss, ts, n);
  }

  /** Commit runs alone, so end_op's "log.committing" panic cannot happen; log
      space is always reserved for what running operations may still add; no
      block is recorded twice and every log block written is inside the log. */
  lemma LogSafety(l: Layout, d: Disk, ss: seq<State>, ts: seq<Step>, n: nat)
    requires IsRun(l, d, ss, ts) && n < |ss|
    ensures var s := ss[n];
            && (s.log.committing ==> s.log.outstanding == 0 && s.active == [])
            && s.log.outstanding == |s.active|
            && |s.log.lh| + Unspent(s.active) <= LOGSIZE
            && Distinct(s.log.lh)
            && (forall i :: 0 <= i < |s.log.lh| ==> InLog(l, l.start + 1 + i) && !InLog(l, s.log.lh[i]))
  {
    RunInv(l, d, ss, ts, n);
  }

  // Budgets ---------------------------------------------------------------------------

  /** The blocks an operation has logged. */
  function BlocksOf(h: seq<Write>, id: nat): (s: set<int>) {
    if h == [] then {}
    else
      var w := h[|h| - 1];
      BlocksOf(h[..|h| - 1], id) + if w.op == id then {w.bno} else {}
  }

  lemma BlocksOne(h: seq<Write>, w: Write, id: nat)
    ensures BlocksOf(h + [w], id) == BlocksOf(h, id) + if w.op == id then {w.bno} else {}
  {
    assert (h + [w])[..|h|] == h;
  }

  lemma {:induction false} NoBlocks(h: seq<Write>, id: nat)
    requires forall x :: 0 <= x < |h| ==> h[x].op != id
    ensures BlocksOf(h, id) == {}
  {
    if h != [] {
      NoBlocks(h[..|h| - 1], id);
    }
  }

  predicate Within(s: State, i: nat)
    requires i < |s.active|
  {
    var bs := BlocksOf(s.hist, s.active[i].id);
    s.active[i].spent <= |bs| && forall b :: b in bs ==> b in s.log.lh
  }

  /** A running operation's blocks are all in the list, and it has spent no more
      than it has distinct blocks. */
  predicate SpentInv(s: State) {
    forall i :: 0 <= i < |s.active| ==> Within(s, i)
  }

  lemma SpentWrite(s: State, t: Step, j: nat)
    requires OwnerInv(s) && SpentInv(s) && Enabled(s, t) && t.LogWrite? && j < |s.active|
    ensures Within(Next(s, t), j)
  {
    var r, w := Next(s, t), Write(s.active[t.i].id, t.bno, t.data);
    BlocksOne(s.hist, w, s.active[j].id);
    assert Within(s, j);
  }

  lemma SpentNext(s: State, t: Step, d: Disk)
    requires Inv(s, d) && SpentInv(s) && Enabled(s, t)
    ensures SpentInv(Next(s, t))
  {
    hide EncodeHead, HeadWords, Word, DiskInv, OneWrite, BlocksOf;
    var r := Next(s, t);
    match t
    case BeginOp(id) =>
      NoBlocks(s.hist, id);
      forall i | 0 <= i < |r.active| ensures Within(r, i) {
        if i < |s.active| {
          assert Within(s, i);
        }
      }
    case LogWrite(_, _, _) =>
      forall i | 0 <= i < |r.active| ensures Within(r, i) {
        SpentWrite(s, t, i);
      }
    case EndOp(k) =>
      forall i | 0 <= i < |r.active| ensures Within(r, i) {
        assert Within(s, if i < k then i else i + 1);
      }
    case CommitWrite =>
    case CommitDone =>
  }

  lemma NoneSpent(l: Layout, d: Disk)
    ensures SpentInv(Init(l, d))
  {
  }

  /** An operation that keeps to a set of MAXOPBLOCKS blocks has budget left for
      each block it logs that is not in the list. */
  lemma BudgetSuffices(s: State, i: nat, bs: set<int>, b: int)
    requires SpentInv(s) && i < |s.active|
    requires |bs| <= MAXOPBLOCKS && b in bs && BlocksOf(s.hist, s.active[i].id) <= bs
    ensures b in s.log.lh || s.active[i].spent < MAXOPBLOCKS
  {
    assert Within(s, i);
    var used := BlocksOf(s.hist, s.active[i].id);
    if b !in s.log.lh {
      assert used + {b} <= bs && |used + {b}| == |used| + 1;
      assert bs == (used + {b}) + (bs - (used + {b}));
    }
  }

  /** What an operation has logged was logged by one of its writes. */
  lemma {:induction false} BlockLogged(h: seq<Write>, id: nat, b: int) returns (x: nat)
    requires b in BlocksOf(h, id)
    ensures x < |h| && h[x].op == id && h[x].bno == b
  {
    var n := |h| - 1;
    if h[n].op == id && h[n].bno == b {
      x := n;
    } else {
      x := BlockLogged(h[..n], id, b);
    }
  }

  // log_write's panic -------------------------------------------------------------------

  /** The longest list log_write will add to. */
  function Brim(l: Layout): int {
    if LOGSIZE < l.size - 1 then LOGSIZE else l.size - 1
  }

  /** While an operation runs, log_write panics exactly when the list is full,
      be the block new or already in the list. */
  lemma PanicsExactly(l: Layout, d: Disk, ss: seq<State>, ts: seq<Step>, n: nat)
    requires IsRun(l, d, ss, ts) && n < |ss| && ss[n].active != []
    ensures WritePanics(l, ss[n].log) <==> |ss[n].log.lh| == Brim(l)
  {
    RunInv(l, d, ss, ts, n);
    UnspentBounds(ss[n].active);
  }

  /** At this point of a run, operation `i` may still add a block. */
  ghost predicate MayAdd(l: Layout, d: Disk, ss: seq<State>, ts: seq<Step>, n: nat, i: nat) {
    IsRun(l, d, ss, ts) && n < |ss| && i < |ss[n].active| && ss[n].active[i].spent < MAXOPBLOCKS
  }

  /** If the log region has more than LOGSIZE blocks, a running operation within
      its budget never meets log_write's panics on a new block. */
  lemma RoomForNewBlock(l: Layout, d: Disk, ss: seq<State>, ts: seq<Step>, n: nat, i: nat)
    requires MayAdd(l, d, ss, ts, n, i) && l.size > LOGSIZE
    ensures !WritePanics(l, ss[n].log)
  {
    RunInv(l, d, ss, ts, n);
    var s := ss[n];
    UnspentWithout(s.active, i);
    UnspentBounds(s.active[..i] + s.active[i + 1..]);
  }

  function Clamp(x: int): int {
    if x < 0 then 0 else if x > MAXOPBLOCKS then MAXOPBLOCKS else x
  }

  /** Three admitted operations that have together logged the first `m` of `homes`. */
  predicate Filled(s: State, l: Layout, d: Disk, homes: seq<int>, m: nat)
    requires m <= |homes|
  {
    && s.l == l && s.base == d && |s.active| == 3
    && s.log == LogState(homes[..m], 3, false)
    && forall i :: 0 <= i < 3 ==> s.active[i].spent == Clamp(m - i * MAXOPBLOCKS)
  }

  ghost predicate HomeList(l: Layout, d: Disk, homes: seq<int>) {
    && Distinct(homes)
    && forall i :: 0 <= i < |homes| ==> 0 <= homes[i] < |d| && !InLog(l, homes[i])
  }

  lemma Extend(l: Layout, d: Disk, ss: seq<State>, ts: seq<Step>, t: Step)
    requires IsRun(l, d, ss, ts) && Enabled(ss[|ts|], t)
    ensures IsRun(l, d, ss + [Next(ss[|ts|], t)], ts + [t])
  {
    hide Enabled, Next, GoodDisk, HeadList, Init;
  }

  lemma BeginThree(l: Layout, d: Disk, homes: seq<int>) returns (ss: seq<State>, ts: seq<Step>)
    requires GoodDisk(l, d) && HeadList(l, d) == []
    ensures IsRun(l, d, ss, ts) && Filled(ss[|ts|], l, d, homes, 0)
  {
    ss, ts := [Init(l, d)], [];
    Extend(l, d, ss, ts, BeginOp(0));
    ss, ts := ss + [Next(ss[|ts|], BeginOp(0))], ts + [BeginOp(0)];
    Extend(l, d, ss, ts, BeginOp(1));
    ss, ts := ss + [Next(ss[|ts|], BeginOp(1))], ts + [BeginOp(1)];
    Extend(l, d, ss, ts, BeginOp(2));
    ss, ts := ss + [Next(ss[|ts|], BeginOp(2))], ts + [BeginOp(2)];
  }

  lemma {:induction false} FillLog(l: Layout, d: Disk, homes: seq<int>, m: nat) returns (ss: seq<State>, ts: seq<Step>)
    requires GoodDisk(l, d) && HeadList(l, d) == []
    requires HomeList(l, d, homes) && m < |homes| && m < l.size && m < LOGSIZE
    ensures IsRun(l, d, ss, ts) && Filled(ss[|ts|], l, d, homes, m)
  {
    if m == 0 {
      ss, ts := BeginThree(l, d, homes);
    } else {
      ss, ts := FillLog(l, d, homes, m - 1);
      var t := LogWrite((m - 1) / MAXOPBLOCKS, homes[m - 1], d[l.start]);
      Extend(l, d, ss, ts, t);
      ss, ts := ss + [Next(ss[|ts|], t)], ts + [t];
      assert homes[..m] == homes[..m - 1] + [homes[m - 1]];
    }
  }

  /** With LOGSIZE blocks or fewer in the log region, three operations that each
      stay within MAXOPBLOCKS can run into log_write's panic on a new block:
      its size test allows one block less than begin_op reserves. */
  lemma PanicReachable(l: Layout, d: Disk, homes: seq<int>)
    returns (ss: seq<State>, ts: seq<Step>, i: nat)
    requires GoodDisk(l, d) && HeadList(l, d) == []
    requires l.size <= LOGSIZE && HomeList(l, d, homes) && |homes| >= l.size
    ensures IsRun(l, d, ss, ts)
    ensures var s := ss[|ts|];
            && i < |s.active| && s.active[i].spent < MAXOPBLOCKS
            && homes[l.size - 1] !in s.log.lh
            && WritePanics(l, s.log)
  {
    ss, ts := FillLog(l, d, homes, l.size - 1);
    i := (l.size - 1) / MAXOPBLOCKS;
  }

  /** The reservation protects new blocks exactly in log regions of more than
      LOGSIZE blocks (on a disk with enough home blocks to fill the log). */
  lemma NewBlocksSafe(l: Layout, d: Disk, homes: seq<int>)
    requires GoodDisk(l, d) && HeadList(l, d) == [] && HomeList(l, d, homes) && |homes| >= LOGSIZE
    ensures l.size > LOGSIZE <==>
              forall ss: seq<State>, ts: seq<Step>, n: nat, i: nat :: MayAdd(l, d, ss, ts, n, i) ==>
                !WritePanics(l, ss[n].log)
  {
    if l.size > LOGSIZE {
      forall ss: seq<State>, ts: seq<Step>, n: nat, i: nat | MayAdd(l, d, ss, ts, n, i)
        ensures !WritePanics(l, ss[n].log)
      {
        RoomForNewBlock(l, d, ss, ts, n, i);
      }
    } else {
      var ss, ts, i := PanicReachable(l, d, homes);
      assert MayAdd(l, d, ss, ts, |ts|, i);
    }
  }

  /** It never protects absorbed blocks: whatever the size, operations within
      their budgets reach a state in which writing a listed block again panics. */
  lemma AbsorbedPanics(l: Layout, d: Disk, homes: seq<int>) returns (ss: seq<State>, ts: seq<Step>)
    requires GoodDisk(l, d) && HeadList(l, d) == [] && l.size > LOGSIZE
    requires HomeList(l, d, homes) && |homes| >= LOGSIZE
    ensures IsRun(l, d, ss, ts)
    ensures var s := ss[|ts|];
            && s.active != [] && (forall i :: 0 <= i < |s.active| ==> s.active[i].spent <= MAXOPBLOCKS)
            && homes[0] in s.log.lh && WritePanics(l, s.log)
  {
    var m := LOGSIZE - 1;
    ss, ts := FillLog(l, d, homes, m);
    var t := LogWrite(2, homes[m], d[l.start]);
    Extend(l, d, ss, ts, t);
    assert homes[..m][0] == homes[0];
    ss, ts := ss + [Next(ss[|ts|], t)], ts + [t];
  }
}
