/** The log on top of the buffer cache, as one machine: processes read, change
    and release buffers while the last operation to end commits, and commit
    itself works through bread, bwrite and brelse. */
module CachedLog {
  import opened Blocks
  import opened RedoLog
  import C = BufferCache
  import G = GroupCommit

  // The machine --------------------------------------------------------------------------------

  /** Buffers commit holds: the first bread's, both breads', or those it has
      still to release once the block is written. */
  datatype Held = Rest | First(a: int) | Both(a: int, b: int) | Leaving(rs: seq<int>)

  function Refs(h: Held): (m: multiset<int>) {
    match h
    case Rest => multiset{}
    case First(a) => multiset{a}
    case Both(a, b) => multiset{a, b}
    case Leaving(rs) => multiset(rs)
  }

  /** The cache with the disk under it, the log, and the buffers that processes
      other than the committing one hold. */
  datatype State = State(c: C.Cache, g: G.State, users: multiset<int>, held: Held)

  datatype Step =
    | Get(bno: int)                          // bread by a process: bget, and
    | Fill(b: int)                           // iderw if the buffer is not valid
    | Release(b: int)
    | Begin(id: nat)
    | Log(i: nat, b: int, data: Block)       // operation i changes its buffer and calls log_write
    | End(i: nat)
    | CommitGet                              // bget of commit's next bread
    | CommitPut                              // memmove or header edit, and bwrite
    | CommitRelease
    | CommitDone

  predicate Busy(g: G.State) {
    g.log.committing && g.k < CommitLength(|g.log.lh|)
  }

  /** Log and install writes copy between two buffers; header writes use one. */
  predicate Paired(g: G.State) {
    g.k != |g.log.lh| && g.k != 2 * |g.log.lh| + 1
  }

  predicate Logging(g: G.State) {
    g.k < |g.log.lh|
  }

  predicate Installing(g: G.State) {
    Paired(g) && !Logging(g)
  }

  function Tail(g: G.State): (i: nat)
    requires Busy(g) && Paired(g)
    ensures i < |g.log.lh|
  {
    if Logging(g) then g.k else g.k - |g.log.lh| - 1
  }

  /** The block of the first bread: a log block, or the header. */
  function FirstBlock(g: G.State): (b: int)
    requires Busy(g)
  {
    if Paired(g) then g.l.start + 1 + Tail(g) else g.l.start
  }

  /** The block of the next bread. */
  function Wanted(s: State): (b: int)
    requires Busy(s.g) && (s.held.Rest? || (s.held.First? && Paired(s.g)))
  {
    if s.held.Rest? then FirstBlock(s.g) else s.g.log.lh[Tail(s.g)]
  }

  predicate ValidBuf(c: C.Cache, b: int) {
    C.OnDisk(c, b) && c.bufs[b].valid
  }

  /** All buffers for the next block write are here. */
  predicate Ready(s: State) {
    && Busy(s.g) && HeadFits(s.g.log.lh)
    && (if Paired(s.g) then s.held.Both? && ValidBuf(s.c, s.held.b) else s.held.First?)
    && ValidBuf(s.c, s.held.a)
  }

  /** write_log writes the first buffer, install_trans the second. */
  function Target(s: State): (b: int)
    requires Ready(s)
    ensures ValidBuf(s.c, b)
  {
    if Installing(s.g) then s.held.b else s.held.a
  }

  function Content(s: State): (d: Block)
    requires Ready(s)
  {
    if !Paired(s.g) then EncodeHead(s.c.bufs[s.held.a].data, if s.g.k == |s.g.log.lh| then s.g.log.lh else [])
    else s.c.bufs[if Logging(s.g) then s.held.b else s.held.a].data
  }

  /** The order of the brelse calls. */
  function Departing(s: State): (rs: seq<int>)
    requires Ready(s)
  {
    if !Paired(s.g) then [s.held.a]
    else if Logging(s.g) then [s.held.b, s.held.a]
    else [s.held.a, s.held.b]
  }

  predicate InUse(c: C.Cache, b: int) {
    C.Shape(c) && 0 <= b < C.NBUF && c.bufs[b].refcnt > 0
  }

  /** When a step can happen; "no buffers" stops the machine. */
  predicate Enabled(s: State, t: Step) {
    && C.Shape(s.c)
    && match t
       case Get(bno) => 0 <= bno < |s.c.disk| && C.Got(s.c, C.ROOTDEV, bno).1 != -1
       case Fill(b) => C.OnDisk(s.c, b) && !s.c.bufs[b].valid && b in s.users + Refs(s.held)
       case Release(b) => b in s.users && InUse(s.c, b)
       case Begin(id) => G.Enabled(s.g, G.BeginOp(id))
       case Log(i, b, data) =>
         b in s.users && ValidBuf(s.c, b) && G.Enabled(s.g, G.LogWrite(i, s.c.bufs[b].blockno, data))
       case End(i) => G.Enabled(s.g, G.EndOp(i))
       case CommitGet =>
         && Busy(s.g) && (s.held.Rest? || (s.held.First? && Paired(s.g) && ValidBuf(s.c, s.held.a)))
         && 0 <= Wanted(s) < |s.c.disk| && C.Got(s.c, C.ROOTDEV, Wanted(s)).1 != -1
       case CommitPut => Ready(s) && G.Enabled(s.g, G.CommitWrite)
       case CommitRelease => s.held.Leaving? && s.held.rs != [] && InUse(s.c, s.held.rs[0])
       case CommitDone => s.held.Rest? && G.Enabled(s.g, G.CommitDone)
  }

  function Next(s: State, t: Step): (r: State)
    requires Enabled(s, t)
  {
    match t
    case Get(bno) =>
      var (c, b) := C.Got(s.c, C.ROOTDEV, bno);
      s.(c := c, users := s.users + multiset{b})
    case Fill(b) => s.(c := C.Filled(s.c, b))
    case Release(b) => s.(c := C.Released(s.c, b), users := s.users - multiset{b})
    case Begin(id) => s.(g := G.Next(s.g, G.BeginOp(id)))
    case Log(i, b, data) =>
      s.(c := C.Logged(s.c, b, data), g := G.Next(s.g, G.LogWrite(i, s.c.bufs[b].blockno, data)))
    case End(i) => s.(g := G.Next(s.g, G.EndOp(i)))
    case CommitGet =>
      var (c, b) := C.Got(s.c, C.ROOTDEV, Wanted(s));
      s.(c := c, held := if s.held.Rest? then First(b) else Both(s.held.a, b))
    case CommitPut =>
      State(C.Written(s.c, Target(s), Content(s)), G.Next(s.g, G.CommitWrite), s.users, Leaving(Departing(s)))
    case CommitRelease =>
      var rs := s.held.rs;
      s.(c := C.Released(s.c, rs[0]), held := if |rs| == 1 then Rest else Leaving(rs[1..]))
    case CommitDone => s.(g := G.Next(s.g, G.CommitDone))
  }

  /** A cache that says what the disk says, with no buffer pinned or in use. */
  predicate Settled(c: C.Cache, d: Disk) {
    && c.disk == d && C.Represents(c, d)
    && forall i :: 0 <= i < C.NBUF ==> C.Idle(c.bufs[i])
  }

  function Init(c: C.Cache, l: Layout): (s: State) {
    State(c, G.Init(l, c.disk), multiset{}, Rest)
  }

  /** A run: states linked by enabled steps, from a clean log. */
  ghost predicate IsRun(l: Layout, d: Disk, ss: seq<State>, ts: seq<Step>) {
    && GoodDisk(l, d) && HeadList(l, d) == []
    && |ss| == |ts| + 1 && Settled(ss[0].c, d) && ss[0] == Init(ss[0].c, l)
    && forall i :: 0 <= i < |ts| ==> Enabled(ss[i], ts[i]) && ss[i + 1] == Next(ss[i], ts[i])
  }

  // Invariant ----------------------------------------------------------------------------------

  /** What the blocks should hold: every logged write at home, and in the log
      region whatever is on the disk. */
  ghost function Store(g: G.State, d: Disk): (r: Disk)
    requires |g.disk| == |d|
    ensures |r| == |d|
  {
    seq(|d|, b requires 0 <= b < |d| => if InLog(g.l, b) then g.disk[b] else G.Replay(d, g.hist)[b])
  }

  /** The blocks recorded and not yet installed. */
  function Todo(g: G.State): (bl: seq<int>) {
    g.log.lh[G.Installs(g)..]
  }

  /** Pinned are exactly the blocks of the list. */
  predicate PinInv(c: C.Cache, bl: seq<int>) {
    && (forall i :: 0 <= i < |c.bufs| && c.bufs[i].dirty ==> c.bufs[i].blockno in bl)
    && forall j :: 0 <= j < |bl| ==> C.Pinned(c, bl[j])
  }

  /** Reference counts count the holders. */
  predicate RefInv(c: C.Cache, m: multiset<int>) {
    forall i :: 0 <= i < |c.bufs| ==> c.bufs[i].refcnt == m[i]
  }

  /** What commit's buffers hold. */
  predicate HeldInv(c: C.Cache, g: G.State, h: Held) {
    match h
    case Rest => true
    case First(a) => Busy(g) && 0 <= a < |c.bufs| && C.Holds(c.bufs[a], C.ROOTDEV, FirstBlock(g))
    case Both(a, b) =>
      && Busy(g) && Paired(g) && 0 <= a < |c.bufs| && C.Holds(c.bufs[a], C.ROOTDEV, FirstBlock(g))
      && c.bufs[a].valid && 0 <= b < |c.bufs| && C.Holds(c.bufs[b], C.ROOTDEV, g.log.lh[Tail(g)])
    case Leaving(rs) => g.log.committing && rs != [] && forall i :: 0 <= i < |rs| ==> 0 <= rs[i] < |c.bufs|
  }

  ghost predicate Inv(s: State, d: Disk) {
    && G.Inv(s.g, d) && |s.g.disk| == |d| && s.c.disk == s.g.disk
    && C.Represents(s.c, Store(s.g, d))
    && PinInv(s.c, Todo(s.g))
    && RefInv(s.c, s.users + Refs(s.held))
    && HeldInv(s.c, s.g, s.held)
  }

  // Steps of the cache ---------------------------------------------------------------------------

  /** No buffer became or ceased to be pinned, nor changed its block while pinned. */
  predicate SamePins(c: C.Cache, r: C.Cache) {
    && |r.bufs| == |c.bufs|
    && forall i :: 0 <= i < |c.bufs| ==>
         && r.bufs[i].dirty == c.bufs[i].dirty
         && (c.bufs[i].dirty ==> r.bufs[i].dev == c.bufs[i].dev && r.bufs[i].blockno == c.bufs[i].blockno)
  }

  lemma PinsStay(c: C.Cache, r: C.Cache, bl: seq<int>)
    requires SamePins(c, r) && PinInv(c, bl)
    ensures PinInv(r, bl)
  {
    forall j | 0 <= j < |bl| ensures C.Pinned(r, bl[j]) {
      assert C.Pinned(c, bl[j]);
      var i :| 0 <= i < |c.bufs| && C.Holds(c.bufs[i], C.ROOTDEV, bl[j]) && c.bufs[i].dirty;
      assert r.bufs[i].dirty;
    }
  }

  /** Buffers in use keep their block and stay as valid as they were. */
  predicate Steady(c: C.Cache, r: C.Cache) {
    && |r.bufs| == |c.bufs|
    && forall i :: 0 <= i < |c.bufs| && c.bufs[i].refcnt > 0 ==>
         && r.bufs[i].dev == c.bufs[i].dev && r.bufs[i].blockno == c.bufs[i].blockno
         && (c.bufs[i].valid ==> r.bufs[i].valid)
  }

  lemma OneBuf(c: C.Cache, r: C.Cache, b: int, f: C.Buf)
    requires 0 <= b < |c.bufs| && r.bufs == c.bufs[b := f] && f.dirty == c.bufs[b].dirty
    requires c.bufs[b].dirty || c.bufs[b].refcnt > 0 ==> f.dev == c.bufs[b].dev && f.blockno == c.bufs[b].blockno
    requires c.bufs[b].refcnt > 0 && c.bufs[b].valid ==> f.valid
    ensures SamePins(c, r) && Steady(c, r)
  {
  }

  /** What bget did: one buffer counted once more. */
  predicate Gained(c: C.Cache, r: C.Cache, b: int, bno: int) {
    && |r.bufs| == |c.bufs| && 0 <= b < |c.bufs| && C.Holds(r.bufs[b], C.ROOTDEV, bno)
    && SamePins(c, r) && Steady(c, r) && r.disk == c.disk
    && forall i :: 0 <= i < |c.bufs| ==> r.bufs[i].refcnt == c.bufs[i].refcnt + if i == b then 1 else 0
  }

  lemma GainedRefs(c: C.Cache, r: C.Cache, b: int, bno: int, m: multiset<int>)
    requires Gained(c, r, b, bno) && RefInv(c, m)
    ensures RefInv(r, m + multiset{b})
  {
    hide SamePins, Steady;
  }

  lemma GotGained(c: C.Cache, bno: int)
    requires C.Shape(c) && C.Got(c, C.ROOTDEV, bno).1 != -1
    ensures var (r, b) := C.Got(c, C.ROOTDEV, bno); Gained(c, r, b, bno)
  {
    hide SamePins, Steady, C.Lookup, C.Recycle;
    var r, k, j := C.Got(c, C.ROOTDEV, bno).0, C.Lookup(c, C.ROOTDEV, bno, 0), C.Recycle(c, C.NBUF);
    if k < C.NBUF {
      var b := c.order[k];
      OneBuf(c, r, b, c.bufs[b].(refcnt := c.bufs[b].refcnt + 1));
    } else {
      var b := c.order[j];
      OneBuf(c, r, b, C.Buf(C.ROOTDEV, bno, false, false, 1, c.bufs[b].data));
    }
  }

  lemma HeldStays(c: C.Cache, r: C.Cache, g: G.State, h: Held, users: multiset<int>)
    requires HeldInv(c, g, h) && Steady(c, r) && RefInv(c, users + Refs(h))
    ensures HeldInv(r, g, h)
  {
    match h
    case Rest =>
    case First(a) => assert c.bufs[a].refcnt == (users + Refs(h))[a];
    case Both(a, b) => assert c.bufs[a].refcnt == (users + Refs(h))[a] && c.bufs[b].refcnt == (users + Refs(h))[b];
    case Leaving(rs) =>
  }

  // Steps of the machine ---------------------------------------------------------------------------

  lemma GetInv(s: State, t: Step, d: Disk)
    requires Inv(s, d) && Enabled(s, t) && t.Get?
    ensures Inv(Next(s, t), d)
  {
    hide G.Inv, C.Represents, C.Got, PinInv, RefInv, HeldInv;
    C.GotOk(s.c, t.bno, Store(s.g, d));
    GotGained(s.c, t.bno);
    var (r, b) := C.Got(s.c, C.ROOTDEV, t.bno);
    GainedRefs(s.c, r, b, t.bno, s.users + Refs(s.held));
    assert s.users + Refs(s.held) + multiset{b} == s.users + multiset{b} + Refs(s.held);
    PinsStay(s.c, r, Todo(s.g));
    HeldStays(s.c, r, s.g, s.held, s.users);
  }

  lemma CommitGetInv(s: State, d: Disk)
    requires Inv(s, d) && Enabled(s, CommitGet)
    ensures Inv(Next(s, CommitGet), d)
  {
    hide G.Inv, C.Represents, C.Got, PinInv, RefInv;
    C.GotOk(s.c, Wanted(s), Store(s.g, d));
    GotGained(s.c, Wanted(s));
    var (r, b) := C.Got(s.c, C.ROOTDEV, Wanted(s));
    GainedRefs(s.c, r, b, Wanted(s), s.users + Refs(s.held));
    assert s.users + Refs(s.held) + multiset{b} == s.users + Refs(Next(s, CommitGet).held);
    PinsStay(s.c, r, Todo(s.g));
    HeldStays(s.c, r, s.g, s.held, s.users);
  }

  lemma FillInv(s: State, t: Step, d: Disk)
    requires Inv(s, d) && Enabled(s, t) && t.Fill?
    ensures Inv(Next(s, t), d)
  {
    hide G.Inv, C.Represents;
    C.FilledOk(s.c, t.b, Store(s.g, d));
    var r := Next(s, t);
    OneBuf(s.c, r.c, t.b, r.c.bufs[t.b]);
    PinsStay(s.c, r.c, Todo(s.g));
    HeldStays(s.c, r.c, s.g, s.held, s.users);
  }

  /** brelse by whoever holds the buffer. */
  lemma Let(s: State, b: int, d: Disk)
    requires Inv(s, d) && InUse(s.c, b)
    ensures var r := C.Released(s.c, b);
            && r.disk == s.c.disk && C.Represents(r, Store(s.g, d)) && PinInv(r, Todo(s.g))
            && Steady(s.c, r) && HeldInv(r, s.g, s.held)
            && r.bufs == s.c.bufs[b := s.c.bufs[b].(refcnt := s.c.bufs[b].refcnt - 1)]
  {
    hide G.Inv, C.Represents;
    C.ReleasedOk(s.c, b, Store(s.g, d));
    var r := C.Released(s.c, b);
    OneBuf(s.c, r, b, r.bufs[b]);
    PinsStay(s.c, r, Todo(s.g));
    HeldStays(s.c, r, s.g, s.held, s.users);
  }

  lemma ReleaseInv(s: State, t: Step, d: Disk)
    requires Inv(s, d) && Enabled(s, t) && t.Release?
    ensures Inv(Next(s, t), d)
  {
    hide G.Inv, C.Represents, HeldInv, PinInv;
    Let(s, t.b, d);
  }

  lemma CommitReleaseInv(s: State, d: Disk)
    requires Inv(s, d) && Enabled(s, CommitRelease)
    ensures Inv(Next(s, CommitRelease), d)
  {
    hide G.Inv, C.Represents, PinInv;
    var rs := s.held.rs;
    Let(s, rs[0], d);
    assert rs == [rs[0]] + rs[1..];
  }

  lemma BeginInv(s: State, t: Step, d: Disk)
    requires Inv(s, d) && Enabled(s, t) && t.Begin?
    ensures Inv(Next(s, t), d)
  {
    hide G.Inv, C.Represents, PinInv;
    G.InvNext(s.g, G.BeginOp(t.id), d);
    assert Store(Next(s, t).g, d) == Store(s.g, d);
  }

  lemma EndInv(s: State, t: Step, d: Disk)
    requires Inv(s, d) && Enabled(s, t) && t.End?
    ensures Inv(Next(s, t), d)
  {
    hide G.Inv, C.Represents, PinInv;
    G.InvNext(s.g, G.EndOp(t.i), d);
    assert Store(Next(s, t).g, d) == Store(s.g, d);
  }

  /** What the log's own invariant gives. */
  lemma LogFacts(g: G.State, d: Disk)
    requires G.Inv(g, d)
    ensures GoodList(g.l, g.base, g.log.lh) && |g.base| == |g.disk| == |d| && HeadFits(g.log.lh)
    ensures forall i :: 0 <= i < |g.log.lh| ==> g.log.lh[i] in g.cache
    ensures !g.log.committing ==> g.k == 0
    ensures g.active != [] ==> !g.log.committing
    ensures g.log.committing ==> G.CommitReady(g)
    ensures g.k <= CommitLength(|g.log.lh|)
  {
    hide EncodeHead, HeadWords, Word;
  }

  lemma LogInv(s: State, t: Step, d: Disk)
    requires Inv(s, d) && Enabled(s, t) && t.Log?
    ensures Inv(Next(s, t), d)
  {
    hide G.Inv, C.Represents, PinInv, Store;
    var bno := s.c.bufs[t.b].blockno;
    LogFacts(s.g, d);
    G.InvNext(s.g, G.LogWrite(t.i, bno, t.data), d);
    C.LoggedOk(s.c, t.b, t.data, Store(s.g, d));
    LoggedStore(s.g, t.i, bno, t.data, d);
    LoggedPins(s.c, t.b, t.data, Todo(s.g));
    assert Todo(s.g) == s.g.log.lh && Todo(Next(s, t).g) == G.Absorb(s.g.log.lh, bno);
  }

  lemma LoggedStore(g: G.State, i: nat, bno: int, data: Block, d: Disk)
    requires |g.disk| == |g.base| == |d| && G.Enabled(g, G.LogWrite(i, bno, data))
    ensures Store(G.Next(g, G.LogWrite(i, bno, data)), d) == Store(g, d)[bno := data]
  {
    G.ReplayOne(d, g.hist, G.Write(g.active[i].id, bno, data));
  }

  lemma LoggedPins(c: C.Cache, b: int, data: Block, bl: seq<int>)
    requires PinInv(c, bl) && C.OnDisk(c, b)
    ensures PinInv(C.Logged(c, b, data), G.Absorb(bl, c.bufs[b].blockno))
  {
    var r, bno := C.Logged(c, b, data), c.bufs[b].blockno;
    var al := G.Absorb(bl, bno);
    assert C.Holds(r.bufs[b], C.ROOTDEV, bno) && r.bufs[b].dirty;
    forall j | 0 <= j < |al| ensures C.Pinned(r, al[j]) {
      if al[j] != bno {
        assert al[j] == bl[j];
        C.StillPinned(c, r, b, bl[j]);
      }
    }
  }

  // Commit's block writes -----------------------------------------------------------------------------

  /** A valid buffer holds its block of the store. */
  lemma BufHolds(s: State, d: Disk, b: int)
    requires Inv(s, d) && 0 <= b < |s.c.bufs| && s.c.bufs[b].valid && s.c.bufs[b].dev == C.ROOTDEV
    ensures 0 <= s.c.bufs[b].blockno < |d| && s.c.bufs[b].data == Store(s.g, d)[s.c.bufs[b].blockno]
  {
    hide G.Inv;
  }

  /** The block commit writes next and what it puts there are the log's next
      write, and that changes no home block of the store. */
  predicate RightPut(s: State, d: Disk, tb: int, data: Block)
    requires |s.g.disk| == |d|
  {
    && 0 <= tb < |d| && G.CommitReady(s.g) && Busy(s.g)
    && G.OneWrite(s.g) == s.g.disk[tb := data]
    && if Installing(s.g)
       then !InLog(s.g.l, tb) && tb == s.g.log.lh[Tail(s.g)] && data == G.Replay(d, s.g.hist)[tb]
       else InLog(s.g.l, tb)
  }

  lemma HeadPut(s: State, d: Disk)
    requires Inv(s, d) && Ready(s) && !Paired(s.g)
    ensures RightPut(s, d, s.c.bufs[Target(s)].blockno, Content(s))
  {
    hide G.Inv, C.Represents, EncodeHead, PinInv, RefInv;
    LogFacts(s.g, d);
    BufHolds(s, d, s.held.a);
  }

  lemma LogPut(s: State, d: Disk)
    requires Inv(s, d) && Ready(s) && Paired(s.g) && Logging(s.g)
    ensures RightPut(s, d, s.c.bufs[Target(s)].blockno, Content(s))
  {
    hide G.Inv, C.Represents, EncodeHead, PinInv, RefInv;
    LogFacts(s.g, d);
    BufHolds(s, d, s.held.b);
    G.LastWrite(s.g, d, s.g.log.lh[Tail(s.g)]);
  }

  lemma InstallPut(s: State, d: Disk)
    requires Inv(s, d) && Ready(s) && Installing(s.g)
    ensures RightPut(s, d, s.c.bufs[Target(s)].blockno, Content(s))
  {
    hide G.Inv, C.Represents, EncodeHead, PinInv, RefInv;
    LogFacts(s.g, d);
    BufHolds(s, d, s.held.a);
    G.LastWrite(s.g, d, s.g.log.lh[Tail(s.g)]);
    G.LogOnDisk(s.g, d, Tail(s.g));
  }

  lemma PutContent(s: State, d: Disk)
    requires Inv(s, d) && Ready(s)
    ensures RightPut(s, d, s.c.bufs[Target(s)].blockno, Content(s))
  {
    hide Inv, RightPut;
    if !Paired(s.g) {
      HeadPut(s, d);
    } else if Logging(s.g) {
      LogPut(s, d);
    } else {
      InstallPut(s, d);
    }
  }

  lemma StoreWrite(g: G.State, r: G.State, d: Disk, tb: int, data: Block)
    requires |g.disk| == |d| && 0 <= tb < |d|
    requires r.l == g.l && r.hist == g.hist && r.disk == g.disk[tb := data]
    requires InLog(g.l, tb) || data == G.Replay(d, g.hist)[tb]
    ensures Store(r, d) == Store(g, d)[tb := data]
  {
  }

  /** Only an install write shortens the list of blocks to install, by its own. */
  lemma TodoNext(g: G.State, r: G.State)
    requires Busy(g) && r.log == g.log && r.k == g.k + 1
    ensures if Installing(g) then Todo(g) != [] && Todo(g)[0] == g.log.lh[Tail(g)] && Todo(r) == Todo(g)[1..]
            else Todo(r) == Todo(g)
  {
  }

  lemma LogBlockPins(c: C.Cache, r: C.Cache, bl: seq<int>, x: int)
    requires PinInv(c, bl) && 0 <= x < |c.bufs| && c.bufs[x].blockno !in bl
    requires |r.bufs| == |c.bufs| && r.bufs == c.bufs[x := r.bufs[x]] && !r.bufs[x].dirty
    ensures PinInv(r, bl)
  {
    forall j | 0 <= j < |bl| ensures C.Pinned(r, bl[j]) {
      C.StillPinned(c, r, x, bl[j]);
    }
  }

  lemma PutPins(s: State, d: Disk)
    requires Inv(s, d) && Enabled(s, CommitPut)
    ensures PinInv(Next(s, CommitPut).c, Todo(Next(s, CommitPut).g))
  {
    hide G.Inv, G.OneWrite, EncodeHead, PinInv, RefInv, Todo, C.Shape;
    LogFacts(s.g, d);
    PutContent(s, d);
    HomeTodo(s.g, d);
    var r, x := Next(s, CommitPut), Target(s);
    TodoNext(s.g, r.g);
    if Installing(s.g) {
      InstalledPins(s.c, r.c, Todo(s.g), x);
    } else {
      LogBlockPins(s.c, r.c, Todo(s.g), x);
    }
  }

  lemma HomeTodo(g: G.State, d: Disk)
    requires G.Inv(g, d)
    ensures Distinct(Todo(g)) && forall b :: b in Todo(g) ==> !InLog(g.l, b)
  {
    hide G.Inv;
    LogFacts(g, d);
  }

  /** An install write unpins its own block and no other. */
  lemma InstalledPins(c: C.Cache, r: C.Cache, bl: seq<int>, x: int)
    requires C.CacheInv(c) && PinInv(c, bl) && bl != [] && Distinct(bl)
    requires 0 <= x < |c.bufs| && C.Holds(c.bufs[x], C.ROOTDEV, bl[0])
    requires |r.bufs| == |c.bufs| && r.bufs == c.bufs[x := r.bufs[x]] && !r.bufs[x].dirty
    ensures PinInv(r, bl[1..])
  {
    forall j | 0 <= j < |bl[1..]| ensures C.Pinned(r, bl[1..][j]) {
      C.StillPinned(c, r, x, bl[j + 1]);
    }
  }

  lemma CommitPutInv(s: State, d: Disk)
    requires Inv(s, d) && Enabled(s, CommitPut)
    ensures Inv(Next(s, CommitPut), d)
  {
    hide G.Inv, C.Represents, PinInv, HeldInv, RefInv, EncodeHead, G.OneWrite;
    LogFacts(s.g, d);
    PutContent(s, d);
    var r, x := Next(s, CommitPut), Target(s);
    G.InvNext(s.g, G.CommitWrite, d);
    C.WrittenOk(s.c, x, Content(s), Store(s.g, d));
    StoreWrite(s.g, r.g, d, s.c.bufs[x].blockno, Content(s));
    PutPins(s, d);
    PutHeld(s, d);
  }

  lemma PutHeld(s: State, d: Disk)
    requires Inv(s, d) && Enabled(s, CommitPut)
    ensures var r := Next(s, CommitPut);
            HeldInv(r.c, r.g, r.held) && RefInv(r.c, r.users + Refs(r.held))
  {
    hide G.Inv, C.Represents, PinInv, EncodeHead, G.OneWrite, G.Enabled;
    DepartingRefs(s);
    var r := Next(s, CommitPut);
    assert r.users + Refs(r.held) == s.users + Refs(s.held);
  }

  lemma DepartingRefs(s: State)
    requires Ready(s)
    ensures multiset(Departing(s)) == Refs(s.held)
    ensures forall i :: 0 <= i < |Departing(s)| ==> C.OnDisk(s.c, Departing(s)[i])
  {
  }

  lemma CommitDoneInv(s: State, d: Disk)
    requires Inv(s, d) && Enabled(s, CommitDone)
    ensures Inv(Next(s, CommitDone), d)
  {
    hide G.Inv, C.Represents;
    LogFacts(s.g, d);
    G.InvNext(s.g, G.CommitDone, d);
    assert Store(Next(s, CommitDone).g, d) == Store(s.g, d);
  }

  lemma SameLayout(s: State, t: Step)
    requires Enabled(s, t)
    ensures Next(s, t).g.l == s.g.l
  {
    hide C.Got, C.Filled, C.Released, C.Written, C.Logged, Content, Departing, Target;
  }

  lemma InvNext(s: State, t: Step, d: Disk)
    requires Inv(s, d) && Enabled(s, t)
    ensures Inv(Next(s, t), d) && Next(s, t).g.l == s.g.l
  {
    SameLayout(s, t);
    hide Inv, Enabled, Next;
    match t
    case Get(_) => GetInv(s, t, d);
    case Fill(_) => FillInv(s, t, d);
    case Release(_) => ReleaseInv(s, t, d);
    case Begin(_) => BeginInv(s, t, d);
    case Log(_, _, _) => LogInv(s, t, d);
    case End(_) => EndInv(s, t, d);
    case CommitGet => CommitGetInv(s, d);
    case CommitPut => CommitPutInv(s, d);
    case CommitRelease => CommitReleaseInv(s, d);
    case CommitDone => CommitDoneInv(s, d);
  }

  lemma InitInv(l: Layout, d: Disk, c: C.Cache)
    requires GoodDisk(l, d) && HeadList(l, d) == [] && Settled(c, d)
    ensures Inv(Init(c, l), d)
  {
    hide G.Inv;
    G.InitInv(l, d);
    assert Store(G.Init(l, d), d) == d;
  }

  lemma {:induction false} RunInv(l: Layout, d: Disk, ss: seq<State>, ts: seq<Step>, n: nat)
    requires IsRun(l, d, ss, ts) && n < |ss|
    ensures Inv(ss[n], d) && ss[n].g.l == l
  {
    hide Inv, Enabled, Next;
    if n == 0 {
      InitInv(l, d, ss[0].c);
    } else {
      RunInv(l, d, ss, ts, n - 1);
      assert Enabled(ss[n - 1], ts[n - 1]);
      InvNext(ss[n - 1], ts[n - 1], d);
    }
  }

  // Main results -----------------------------------------------------------------------------------

  /** What a bread of the block would return: its valid buffer, or else the disk. */
  ghost function Seen(c: C.Cache, bno: int): (d: Block)
    requires 0 <= bno < |c.disk|
  {
    if exists i :: Shows(c, i, bno) then var i :| Shows(c, i, bno); c.bufs[i].data else c.disk[bno]
  }

  predicate Shows(c: C.Cache, i: int, bno: int) {
    0 <= i < |c.bufs| && c.bufs[i].valid && C.Holds(c.bufs[i], C.ROOTDEV, bno)
  }

  lemma SeenIs(s: State, d: Disk, bno: int)
    requires Inv(s, d) && 0 <= bno < |d|
    ensures Seen(s.c, bno) == Store(s.g, d)[bno]
  {
    hide G.Inv;
    if C.Pinned(s.c, bno) {
      var i :| 0 <= i < |s.c.bufs| && C.Holds(s.c.bufs[i], C.ROOTDEV, bno) && s.c.bufs[i].dirty;
      assert Shows(s.c, i, bno);
    }
  }

  /** Cache, log and disk refine a plain block store: at any point of any run,
      a commit under way or not, a bread of a home block gives the last data
      logged for it. */
  lemma SeenIsLastWrite(l: Layout, d: Disk, ss: seq<State>, ts: seq<Step>, n: nat, bno: int)
    requires IsRun(l, d, ss, ts) && n < |ss| && 0 <= bno < |d| && !InLog(l, bno)
    ensures |ss[n].c.disk| == |d| && Seen(ss[n].c, bno) == G.Replay(d, ss[n].g.hist)[bno]
  {
    hide G.Inv, C.Represents;
    RunInv(l, d, ss, ts, n);
    SeenIs(ss[n], d, bno);
  }

  /** The same of every buffer a reader may look at; no other buffer holds its
      block, and the list still visits all NBUF buffers. */
  lemma ReadsLastWrite(l: Layout, d: Disk, ss: seq<State>, ts: seq<Step>, n: nat, b: int)
    requires IsRun(l, d, ss, ts) && n < |ss| && 0 <= b < |ss[n].c.bufs|
    requires ss[n].c.bufs[b].valid && ss[n].c.bufs[b].dev == C.ROOTDEV
    ensures var (c, g, bno) := (ss[n].c, ss[n].g, ss[n].c.bufs[b].blockno);
            && 0 <= bno < |d| == |c.disk|
            && c.bufs[b].data == (if InLog(l, bno) then c.disk[bno] else G.Replay(d, g.hist)[bno])
            && (forall i :: 0 <= i < |c.bufs| && C.Holds(c.bufs[i], C.ROOTDEV, bno) ==> i == b)
            && |c.order| == C.NBUF && C.Distinct(c.order)
  {
    hide G.Inv;
    RunInv(l, d, ss, ts, n);
  }

  /** Only log_write changes it; reads, evictions and every step of commit do not. */
  lemma OnlyLogChanges(l: Layout, d: Disk, ss: seq<State>, ts: seq<Step>, n: nat, bno: int)
    requires IsRun(l, d, ss, ts) && n < |ts| && 0 <= bno < |d| && !InLog(l, bno)
    ensures |ss[n].c.disk| == |ss[n + 1].c.disk| == |d|
    ensures Seen(ss[n + 1].c, bno) ==
              if ts[n].Log? && 0 <= ts[n].b < |ss[n].c.bufs| && ss[n].c.bufs[ts[n].b].blockno == bno then ts[n].data
              else Seen(ss[n].c, bno)
  {
    hide Seen;
    SeenIsLastWrite(l, d, ss, ts, n, bno);
    SeenIsLastWrite(l, d, ss, ts, n + 1, bno);
    assert Enabled(ss[n], ts[n]);
    HistNext(ss[n], ts[n], d);
  }

  lemma HistNext(s: State, t: Step, d: Disk)
    requires Enabled(s, t)
    ensures var h := Next(s, t).g.hist;
            if t.Log? then G.Replay(d, h) == (var b := s.c.bufs[t.b].blockno;
              if 0 <= b < |d| then G.Replay(d, s.g.hist)[b := t.data] else G.Replay(d, s.g.hist))
            else h == s.g.hist
  {
    hide C.Got, C.Filled, C.Released, C.Written, C.Logged, Content, Departing, Target;
    if t.Log? {
      G.ReplayOne(d, s.g.hist, G.Write(s.g.active[t.i].id, s.c.bufs[t.b].blockno, t.data));
    }
  }

  /** Pinned are exactly the blocks of the log's list that commit has yet to
      install; every home block that is not pinned is up to date on disk; and no
      block is in two buffers. */
  lemma PinnedUntilInstalled(l: Layout, d: Disk, ss: seq<State>, ts: seq<Step>, n: nat)
    requires IsRun(l, d, ss, ts) && n < |ss|
    ensures var (c, g) := (ss[n].c, ss[n].g);
            && (forall j :: G.Installs(g) <= j < |g.log.lh| ==> C.Pinned(c, g.log.lh[j]))
            && (forall i :: 0 <= i < |c.bufs| && c.bufs[i].dirty ==> c.bufs[i].blockno in g.log.lh[G.Installs(g)..])
            && |c.disk| == |d|
            && (forall b :: 0 <= b < |d| && !InLog(l, b) && !C.Pinned(c, b) ==> c.disk[b] == G.Replay(d, g.hist)[b])
            && (forall i, j :: 0 <= i < j < |c.bufs| && c.bufs[i].dev == C.ROOTDEV == c.bufs[j].dev ==>
                  c.bufs[i].blockno != c.bufs[j].blockno)
  {
    hide G.Inv;
    RunInv(l, d, ss, ts, n);
    var c, g := ss[n].c, ss[n].g;
    forall j | G.Installs(g) <= j < |g.log.lh| ensures C.Pinned(c, g.log.lh[j]) {
      assert g.log.lh[j] == Todo(g)[j - G.Installs(g)];
    }
  }

  /** Reference counts count the holders, so a buffer in use is never recycled. */
  lemma RefsCount(l: Layout, d: Disk, ss: seq<State>, ts: seq<Step>, n: nat, i: int)
    requires IsRun(l, d, ss, ts) && n < |ss| && 0 <= i < |ss[n].c.bufs|
    ensures ss[n].c.bufs[i].refcnt == (ss[n].users + Refs(ss[n].held))[i]
  {
    hide G.Inv, C.Represents;
    RunInv(l, d, ss, ts, n);
  }

  /** Stop the machine at any point and recover from the disk under the cache:
      whole finished operations, in order, and nothing else. */
  lemma CrashConsistency(l: Layout, d: Disk, ss: seq<State>, ts: seq<Step>, n: nat)
    requires IsRun(l, d, ss, ts) && n < |ss|
    ensures var g := ss[n].g; var k := G.Durable(g);
            && GoodDisk(l, ss[n].c.disk) && k <= |g.hist|
            && SameHome(l, Recovered(l, ss[n].c.disk), G.Replay(d, g.hist[..k]))
            && (forall i :: 0 <= i < k ==> g.hist[i].op in g.finished)
            && (forall i, j :: 0 <= i < k <= j < |g.hist| ==> g.hist[i].op != g.hist[j].op)
  {
    hide G.Inv, C.Represents;
    RunInv(l, d, ss, ts, n);
    G.CrashState(ss[n].g, d);
  }

  lemma SpentNext(s: State, t: Step, d: Disk)
    requires G.Inv(s.g, d) && G.SpentInv(s.g) && Enabled(s, t)
    ensures G.SpentInv(Next(s, t).g)
  {
    hide G.Inv, G.SpentInv, G.Enabled, G.Next;
    hide C.Got, C.Filled, C.Released, C.Written, C.Logged, Content, Departing, Target;
    match t
    case Begin(id) => G.SpentNext(s.g, G.BeginOp(id), d);
    case Log(i, b, data) => G.SpentNext(s.g, G.LogWrite(i, s.c.bufs[b].blockno, data), d);
    case End(i) => G.SpentNext(s.g, G.EndOp(i), d);
    case CommitPut => G.SpentNext(s.g, G.CommitWrite, d);
    case CommitDone => G.SpentNext(s.g, G.CommitDone, d);
    case _ =>
  }

  /** In every run, running operations have spent no more than they have
      distinct blocks, all of them in the list. */
  lemma {:induction false} RunSpent(l: Layout, d: Disk, ss: seq<State>, ts: seq<Step>, n: nat)
    requires IsRun(l, d, ss, ts) && n < |ss|
    ensures G.SpentInv(ss[n].g)
  {
    hide Enabled, Next, G.SpentInv, G.Inv, C.Represents, GoodDisk, HeadList;
    if n == 0 {
      G.NoneSpent(l, ss[0].c.disk);
    } else {
      RunSpent(l, d, ss, ts, n - 1);
      RunInv(l, d, ss, ts, n - 1);
      assert Enabled(ss[n - 1], ts[n - 1]);
      SpentNext(ss[n - 1], ts[n - 1], d);
    }
  }

  // Running out of buffers -----------------------------------------------------------------------------

  /** "bget: no buffers" for the block commit wants. */
  predicate Starved(s: State) {
    && C.Shape(s.c) && Busy(s.g) && (s.held.Rest? || (s.held.First? && Paired(s.g)))
    && C.Got(s.c, C.ROOTDEV, Wanted(s)).1 == -1
  }

  lemma ShapeOf(s: State, d: Disk)
    requires Inv(s, d)
    ensures C.Shape(s.c)
  {
    hide G.Inv;
  }

  lemma HeldInUse(s: State, d: Disk, i: int)
    requires Inv(s, d) && i in Refs(s.held) && 0 <= i < |s.c.bufs|
    ensures InUse(s.c, i)
  {
    hide G.Inv;
    assert s.c.bufs[i].refcnt == (s.users + Refs(s.held))[i];
  }

  lemma HeldOnDisk(s: State, d: Disk)
    requires Inv(s, d) && (s.held.First? || s.held.Both?)
    ensures C.OnDisk(s.c, s.held.a) && (s.held.Both? ==> C.OnDisk(s.c, s.held.b))
  {
    hide G.Inv, C.Represents, RefInv, PinInv;
    LogFacts(s.g, d);
    HeldInUse(s, d, s.held.a);
    if s.held.Both? {
      HeldInUse(s, d, s.held.b);
    }
  }

  lemma WantedOnDisk(s: State, d: Disk)
    requires Inv(s, d) && Busy(s.g) && (s.held.Rest? || (s.held.First? && Paired(s.g)))
    ensures 0 <= Wanted(s) < |s.c.disk|
  {
    hide G.Inv, C.Represents, RefInv, PinInv;
    LogFacts(s.g, d);
  }

  /** Commit can always go on, unless bget finds no buffer. */
  lemma CommitGoesOn(s: State, d: Disk) returns (t: Step)
    requires Inv(s, d) && s.g.log.committing && !Starved(s)
    ensures Enabled(s, t) && (t.Fill? || t.CommitGet? || t.CommitPut? || t.CommitRelease? || t.CommitDone?)
  {
    hide G.Inv, C.Represents, C.Got, EncodeHead, RefInv, PinInv;
    LogFacts(s.g, d);
    ShapeOf(s, d);
    if s.held.Leaving? {
      HeldInUse(s, d, s.held.rs[0]);
      t := CommitRelease;
    } else if s.held.Rest? && !Busy(s.g) {
      t := CommitDone;
    } else if s.held.Rest? {
      WantedOnDisk(s, d);
      t := CommitGet;
    } else {
      HeldOnDisk(s, d);
      t := CommitWaits(s, d);
    }
  }

  lemma CommitNeverStuck(l: Layout, d: Disk, ss: seq<State>, ts: seq<Step>, n: nat) returns (t: Step)
    requires IsRun(l, d, ss, ts) && n < |ss| && ss[n].g.log.committing && !Starved(ss[n])
    ensures Enabled(ss[n], t) && (t.Fill? || t.CommitGet? || t.CommitPut? || t.CommitRelease? || t.CommitDone?)
  {
    hide Inv, Enabled, Starved;
    RunInv(l, d, ss, ts, n);
    t := CommitGoesOn(ss[n], d);
  }

  /** Its step once it holds a buffer. */
  lemma CommitWaits(s: State, d: Disk) returns (t: Step)
    requires Inv(s, d) && !Starved(s) && C.Shape(s.c)
    requires s.held.First? || s.held.Both?
    requires C.OnDisk(s.c, s.held.a) && (s.held.Both? ==> C.OnDisk(s.c, s.held.b))
    ensures Enabled(s, t) && (t.Fill? || t.CommitGet? || t.CommitPut?)
  {
    hide G.Inv, C.Represents, C.Shape, C.Got, EncodeHead, RefInv, PinInv;
    LogFacts(s.g, d);
    if !s.c.bufs[s.held.a].valid {
      t := Fill(s.held.a);
    } else if s.held.Both? {
      t := if s.c.bufs[s.held.b].valid then CommitPut else Fill(s.held.b);
    } else if Paired(s.g) {
      WantedOnDisk(s, d);
      t := CommitGet;
    } else {
      t := CommitPut;
    }
  }

  /** Commit's second bread always finds its block: it is still pinned. */
  lemma SecondIsCached(s: State, d: Disk)
    requires Inv(s, d) && s.held.First?
    ensures !Starved(s)
  {
    hide G.Inv;
    if Paired(s.g) {
      assert Todo(s.g)[Tail(s.g) - G.Installs(s.g)] == Wanted(s);
      PinnedIsCached(s.c, Wanted(s));
    }
  }

  lemma PinnedIsCached(c: C.Cache, bno: int)
    requires C.Shape(c) && C.Pinned(c, bno)
    ensures C.Got(c, C.ROOTDEV, bno).1 != -1
  {
    if C.Lookup(c, C.ROOTDEV, bno, 0) == C.NBUF {
      C.NoneHolds(c, C.ROOTDEV, bno);
    }
  }

  ghost function Range(n: nat): (r: set<int>)
    ensures |r| == n && forall i :: i in r <==> 0 <= i < n
  {
    if n == 0 then {} else Range(n - 1) + {n - 1}
  }

  /** The buffers in which the blocks of `bl` are pinned. */
  ghost function PinnedIn(c: C.Cache, bl: seq<int>): (r: set<int>)
    ensures forall i :: i in r <==> 0 <= i < |c.bufs| && c.bufs[i].dirty && c.bufs[i].blockno in bl
  {
    set i | 0 <= i < |c.bufs| && c.bufs[i].dirty && c.bufs[i].blockno in bl
  }

  predicate PinnedOnce(c: C.Cache) {
    forall i, j :: 0 <= i < j < |c.bufs| && c.bufs[i].dirty && c.bufs[j].dirty ==>
      c.bufs[i].blockno != c.bufs[j].blockno
  }

  lemma PinMore(c: C.Cache, bl: seq<int>, m: nat, x: int)
    requires PinnedOnce(c) && |bl| == m + 1 && Distinct(bl)
    requires 0 <= x < |c.bufs| && c.bufs[x].dirty && c.bufs[x].blockno == bl[m]
    ensures PinnedIn(c, bl) == PinnedIn(c, bl[..m]) + {x} && x !in PinnedIn(c, bl[..m])
  {
    assert bl == bl[..m] + [bl[m]];
    forall i | i in PinnedIn(c, bl) && i != x ensures i in PinnedIn(c, bl[..m]) {
      assert c.bufs[i].blockno != bl[m];
    }
  }

  lemma {:induction false} PinCount(c: C.Cache, bl: seq<int>)
    requires PinnedOnce(c) && Distinct(bl) && forall j :: 0 <= j < |bl| ==> C.Pinned(c, bl[j])
    ensures |PinnedIn(c, bl)| == |bl|
  {
    if bl != [] {
      var m := |bl| - 1;
      PinCount(c, bl[..m]);
      assert C.Pinned(c, bl[m]);
      var x :| 0 <= x < |c.bufs| && C.Holds(c.bufs[x], C.ROOTDEV, bl[m]) && c.bufs[x].dirty;
      PinMore(c, bl, m, x);
    } else {
      assert PinnedIn(c, bl) == {};
    }
  }

  lemma DirtyAre(c: C.Cache, bl: seq<int>)
    requires PinInv(c, bl)
    ensures forall i :: i in PinnedIn(c, bl) <==> 0 <= i < |c.bufs| && c.bufs[i].dirty
  {
  }

  /** No buffer for the log block: it is not cached, and every buffer is pinned
      or in another process's hands. */
  predicate NoneLeft(s: State)
    requires Busy(s.g)
  {
    && (forall i :: 0 <= i < |s.c.bufs| ==> !C.Holds(s.c.bufs[i], C.ROOTDEV, FirstBlock(s.g)))
    && forall i :: 0 <= i < |s.c.bufs| ==> s.c.bufs[i].dirty || i in s.users
  }

  lemma NoneFree(c: C.Cache, bno: int)
    requires C.Shape(c) && forall i :: 0 <= i < C.NBUF ==> !C.Idle(c.bufs[i]) && !C.Holds(c.bufs[i], C.ROOTDEV, bno)
    ensures C.Got(c, C.ROOTDEV, bno).1 == -1
  {
    hide C.Lookup, C.Recycle;
  }

  lemma SomeFree(c: C.Cache, bno: int)
    requires C.Shape(c) && C.Got(c, C.ROOTDEV, bno).1 == -1
    ensures forall i :: 0 <= i < C.NBUF ==> !C.Idle(c.bufs[i]) && !C.Holds(c.bufs[i], C.ROOTDEV, bno)
  {
    C.NoneHolds(c, C.ROOTDEV, bno);
    forall i | 0 <= i < C.NBUF ensures !C.Idle(c.bufs[i]) {
      if C.Idle(c.bufs[i]) {
        IdleFound(c, i);
      }
    }
  }

  /** Whoever else holds buffers, commit runs out of them exactly in its first
      bread, when the log block is not cached and no buffer can be recycled. */
  lemma StarvedExactly(s: State, d: Disk)
    requires Inv(s, d) && Busy(s.g)
    ensures Starved(s) <==> s.held.Rest? && NoneLeft(s)
  {
    hide G.Inv, Todo, PinInv, C.Got;
    ShapeOf(s, d);
    if s.held.First? {
      SecondIsCached(s, d);
    } else if s.held.Rest? {
      if Starved(s) {
        SomeFree(s.c, Wanted(s));
      }
      if NoneLeft(s) {
        NoneFree(s.c, Wanted(s));
      }
    }
  }

  lemma PinnedAre(s: State, d: Disk)
    requires Inv(s, d)
    ensures |s.c.bufs| == C.NBUF && |PinnedIn(s.c, Todo(s.g))| == |Todo(s.g)|
    ensures forall i :: i in PinnedIn(s.c, Todo(s.g)) <==> 0 <= i < C.NBUF && s.c.bufs[i].dirty
  {
    hide G.Inv, Todo;
    HomeTodo(s.g, d);
    PinCount(s.c, Todo(s.g));
    DirtyAre(s.c, Todo(s.g));
  }

  ghost function Holders(m: multiset<int>): (h: set<int>)
    ensures forall i :: i in h <==> i in m
  {
    set i | i in m
  }

  /** Fewer buffers pinned or held than there are: bget finds one. */
  lemma RoomLeft(s: State, d: Disk, bno: int)
    requires Inv(s, d) && s.held.Rest? && |Todo(s.g)| + |Holders(s.users)| < C.NBUF
    ensures C.Got(s.c, C.ROOTDEV, bno).1 != -1
  {
    hide G.Inv, Todo, PinInv, PinnedIn;
    PinnedAre(s, d);
    var i := NotAll(PinnedIn(s.c, Todo(s.g)), Holders(s.users), C.NBUF);
    assert s.c.bufs[i].refcnt == (s.users + Refs(s.held))[i];
    IdleFound(s.c, i);
  }

  lemma NotAll(p: set<int>, h: set<int>, n: nat) returns (i: int)
    requires |p| + |h| < n
    ensures 0 <= i < n && i !in p && i !in h
  {
    var all := Range(n);
    assert |p + h| <= |p| + |h|;
    if all <= p + h {
      SubsetSize(all, p + h);
    }
    i :| i in all && i !in p + h;
  }

  lemma SubsetSize(a: set<int>, b: set<int>)
    requires a <= b
    ensures |a| <= |b|
  {
    assert b == a + (b - a);
  }

  lemma IdleFound(c: C.Cache, i: int)
    requires C.Shape(c) && 0 <= i < C.NBUF && C.Idle(c.bufs[i])
    ensures C.Recycle(c, C.NBUF) != -1
  {
    assert i in c.order;
    var k :| 0 <= k < C.NBUF && c.order[k] == i;
  }

  // A commit that runs out of buffers ---------------------------------------------------------------------

  lemma Push(l: Layout, d: Disk, ss: seq<State>, ts: seq<Step>, t: Step) returns (ss': seq<State>, ts': seq<Step>)
    requires IsRun(l, d, ss, ts) && Enabled(ss[|ts|], t)
    ensures IsRun(l, d, ss', ts') && ss'[|ts'|] == Next(ss[|ts|], t)
  {
    hide Enabled, Next, GoodDisk, HeadList, Settled, Init;
    ss', ts' := ss + [Next(ss[|ts|], t)], ts + [t];
  }

  lemma LastInv(l: Layout, d: Disk, ss: seq<State>, ts: seq<Step>) returns (s: State)
    requires IsRun(l, d, ss, ts)
    ensures |ss| == |ts| + 1 && s == ss[|ts|] && Inv(s, d) && C.Shape(s.c) && s.g.l == l && |s.c.disk| == |d|
    ensures RefInv(s.c, s.users + Refs(s.held)) && l.start < |d| && (!s.g.log.committing ==> s.g.k == 0)
  {
    hide G.Inv, EncodeHead, HeadWords, Word;
    s := ss[|ts|];
    RunInv(l, d, ss, ts, |ts|);
    LogFacts(s.g, d);
  }

  /** Three operations have logged the first `m` of `homes` and released them. */
  predicate Loaded(s: State, l: Layout, d: Disk, homes: seq<int>, m: nat)
    requires m <= |homes|
  {
    G.Filled(s.g, l, d, homes, m) && s.users == multiset{} && s.held == Rest
  }

  lemma BeginThree(l: Layout, d: Disk, homes: seq<int>, junk: Block) returns (ss: seq<State>, ts: seq<Step>)
    requires GoodDisk(l, d) && HeadList(l, d) == []
    ensures IsRun(l, d, ss, ts) && Loaded(ss[|ts|], l, d, homes, 0)
  {
    var c := C.Fresh(d, junk);
    C.FreshOk(d, junk);
    ss, ts := [Init(c, l)], [];
    ss, ts := Push(l, d, ss, ts, Begin(0));
    ss, ts := Push(l, d, ss, ts, Begin(1));
    ss, ts := Push(l, d, ss, ts, Begin(2));
  }

  /** bread of a block, when not all buffers are pinned or held. */
  lemma ReadOne(l: Layout, d: Disk, ss: seq<State>, ts: seq<Step>, bno: int)
    returns (ss': seq<State>, ts': seq<Step>, b: int)
    requires IsRun(l, d, ss, ts) && 0 <= bno < |d|
    requires ss[|ts|].held == Rest && |Todo(ss[|ts|].g)| + |Holders(ss[|ts|].users)| < C.NBUF
    ensures IsRun(l, d, ss', ts')
    ensures var (s, r) := (ss[|ts|], ss'[|ts'|]);
            && r.g == s.g && r.users == s.users + multiset{b} && r.held == Rest && Steady(s.c, r.c)
            && ValidBuf(r.c, b) && r.c.bufs[b].blockno == bno
  {
    hide Inv, C.Got;
    var s := LastInv(l, d, ss, ts);
    RoomLeft(s, d, bno);
    GotGained(s.c, bno);
    b := C.Got(s.c, C.ROOTDEV, bno).1;
    ss', ts' := Push(l, d, ss, ts, Get(bno));
    if !ss'[|ts'|].c.bufs[b].valid {
      ss', ts' := Push(l, d, ss', ts', Fill(b));
    }
  }

  lemma LogOne(l: Layout, d: Disk, homes: seq<int>, ss: seq<State>, ts: seq<Step>, m: nat, b: int)
    returns (ss': seq<State>, ts': seq<Step>)
    requires IsRun(l, d, ss, ts) && G.HomeList(l, d, homes) && m < |homes| && m < G.Brim(l)
    requires |ss| == |ts| + 1 && G.Filled(ss[|ts|].g, l, d, homes, m) && b in ss[|ts|].users
    requires ValidBuf(ss[|ts|].c, b) && ss[|ts|].c.bufs[b].blockno == homes[m]
    ensures IsRun(l, d, ss', ts') && |ss'| == |ts'| + 1 && G.Filled(ss'[|ts'|].g, l, d, homes, m + 1)
    ensures ss'[|ts'|].users == ss[|ts|].users && ss'[|ts'|].held == ss[|ts|].held
  {
    hide Inv, IsRun;
    var s := LastInv(l, d, ss, ts);
    ss', ts' := Push(l, d, ss, ts, Log(m / MAXOPBLOCKS, b, d[l.start]));
    s := LastInv(l, d, ss', ts');
    assert homes[..m + 1] == homes[..m] + [homes[m]];
  }

  lemma LoadOne(l: Layout, d: Disk, homes: seq<int>, ss: seq<State>, ts: seq<Step>, m: nat)
    returns (ss': seq<State>, ts': seq<Step>)
    requires IsRun(l, d, ss, ts) && G.HomeList(l, d, homes) && m < |homes| && m < G.Brim(l)
    requires Loaded(ss[|ts|], l, d, homes, m)
    ensures IsRun(l, d, ss', ts') && Loaded(ss'[|ts'|], l, d, homes, m + 1)
  {
    hide Inv, IsRun;
    var s := LastInv(l, d, ss, ts);
    var b;
    ss', ts', b := ReadOne(l, d, ss, ts, homes[m]);
    s := LastInv(l, d, ss', ts');
    ss', ts' := LogOne(l, d, homes, ss', ts', m, b);
    s := LastInv(l, d, ss', ts');
    assert s.c.bufs[b].refcnt == multiset{b}[b];
    ss', ts' := Push(l, d, ss', ts', Release(b));
  }

  lemma {:induction false} LoadAll(l: Layout, d: Disk, homes: seq<int>, junk: Block, m: nat)
    returns (ss: seq<State>, ts: seq<Step>)
    requires GoodDisk(l, d) && HeadList(l, d) == []
    requires G.HomeList(l, d, homes) && m <= |homes| && m <= G.Brim(l)
    ensures IsRun(l, d, ss, ts) && Loaded(ss[|ts|], l, d, homes, m)
  {
    hide IsRun, Loaded;
    if m == 0 {
      ss, ts := BeginThree(l, d, homes, junk);
    } else {
      ss, ts := LoadAll(l, d, homes, junk, m - 1);
      ss, ts := LoadOne(l, d, homes, ss, ts, m - 1);
    }
  }

  /** Processes hold the buffers `bs`, of the blocks of `homes` from `m` on. */
  predicate Reading(s: State, homes: seq<int>, m: nat, bs: seq<int>) {
    && m + |bs| <= |homes| && s.users == multiset(bs) && s.held == Rest
    && forall x :: 0 <= x < |bs| ==>
         0 <= bs[x] < |s.c.bufs| && C.Holds(s.c.bufs[bs[x]], C.ROOTDEV, homes[m + x])
  }

  lemma ReadingApart(s: State, homes: seq<int>, m: nat, bs: seq<int>)
    requires Reading(s, homes, m, bs) && Distinct(homes)
    ensures |Holders(s.users)| == |bs| == |s.users|
  {
    forall x, y | 0 <= x < y < |bs| ensures bs[x] != bs[y] {
      assert homes[m + x] != homes[m + y];
    }
    HoldersCount(bs);
  }

  lemma {:induction false} HoldersCount(bs: seq<int>)
    requires Distinct(bs)
    ensures |Holders(multiset(bs))| == |bs|
  {
    if bs == [] {
      assert Holders(multiset(bs)) == {};
    } else {
      var m := |bs| - 1;
      HoldersCount(bs[..m]);
      assert bs == bs[..m] + [bs[m]];
      assert Holders(multiset(bs)) == Holders(multiset(bs[..m])) + {bs[m]};
    }
  }

  /** Readers take and keep blocks until no buffer is left. */
  lemma {:induction false} ReadOn(l: Layout, d: Disk, homes: seq<int>, ss: seq<State>, ts: seq<Step>, m: nat, n: nat)
    returns (ss': seq<State>, ts': seq<Step>, bs: seq<int>)
    requires IsRun(l, d, ss, ts) && G.HomeList(l, d, homes) && m + n <= C.NBUF && m + n <= |homes|
    requires Loaded(ss[|ts|], l, d, homes, m)
    ensures IsRun(l, d, ss', ts') && G.Filled(ss'[|ts'|].g, l, d, homes, m)
    ensures |bs| == n && Reading(ss'[|ts'|], homes, m, bs)
  {
    hide Inv, IsRun;
    if n == 0 {
      var s := LastInv(l, d, ss, ts);
      ss', ts', bs := ss, ts, [];
    } else {
      ss', ts', bs := ReadOn(l, d, homes, ss, ts, m, n - 1);
      var s := LastInv(l, d, ss', ts');
      ReadingApart(s, homes, m, bs);
      var b;
      ss', ts', b := ReadOne(l, d, ss', ts', homes[m + n - 1]);
      var r := LastInv(l, d, ss', ts');
      ReadingMore(s, r, homes, m, bs, b);
      bs := bs + [b];
    }
  }

  lemma ReadingMore(s: State, r: State, homes: seq<int>, m: nat, bs: seq<int>, b: int)
    requires Reading(s, homes, m, bs) && m + |bs| < |homes| && RefInv(s.c, s.users + Refs(s.held)) && Steady(s.c, r.c)
    requires r.users == s.users + multiset{b} && r.held == Rest
    requires ValidBuf(r.c, b) && r.c.bufs[b].blockno == homes[m + |bs|]
    ensures Reading(r, homes, m, bs + [b])
  {
    forall x | 0 <= x < |bs| ensures C.Holds(r.c.bufs[bs[x]], C.ROOTDEV, homes[m + x]) {
      assert bs[x] in multiset(bs);
      assert s.c.bufs[bs[x]].refcnt == (s.users + Refs(s.held))[bs[x]];
    }
  }

  /** Pinned and held buffers together are all there are. */
  lemma AllTaken(s: State, d: Disk, homes: seq<int>, m: nat, bs: seq<int>)
    requires Inv(s, d) && Busy(s.g) && Reading(s, homes, m, bs) && m + |bs| == C.NBUF
    requires Todo(s.g) == homes[..m] && Distinct(homes) && forall x :: 0 <= x < |homes| ==> !InLog(s.g.l, homes[x])
    ensures NoneLeft(s)
  {
    hide Inv, Todo, Distinct, Holders, FirstBlock;
    PinnedAre(s, d);
    ReadingApart(s, homes, m, bs);
    FirstInLog(s, d);
    var p, h := PinnedIn(s.c, Todo(s.g)), Holders(s.users);
    HeldNotPinned(s.c, homes, m, bs, p, h);
    WholeRange(p, h, C.NBUF);
    forall i | 0 <= i < C.NBUF ensures !C.Holds(s.c.bufs[i], C.ROOTDEV, FirstBlock(s.g)) {
      assert i in p || i in multiset(bs);
    }
  }

  lemma FirstInLog(s: State, d: Disk)
    requires Inv(s, d) && Busy(s.g)
    ensures InLog(s.g.l, FirstBlock(s.g))
  {
    hide G.Inv;
    LogFacts(s.g, d);
  }

  lemma HeldNotPinned(c: C.Cache, homes: seq<int>, m: nat, bs: seq<int>, p: set<int>, h: set<int>)
    requires Distinct(homes) && m + |bs| <= |homes|
    requires forall i :: i in p ==> 0 <= i < |c.bufs| && c.bufs[i].blockno in homes[..m]
    requires forall i :: i in h <==> i in multiset(bs)
    requires forall x :: 0 <= x < |bs| ==> 0 <= bs[x] < |c.bufs| && C.Holds(c.bufs[bs[x]], C.ROOTDEV, homes[m + x])
    ensures p !! h && forall i :: i in h ==> 0 <= i < |c.bufs|
  {
    forall i | i in h ensures i !in p && 0 <= i < |c.bufs| {
      var x :| 0 <= x < |bs| && bs[x] == i;
      assert homes[m + x] !in homes[..m];
    }
  }

  lemma WholeRange(p: set<int>, h: set<int>, n: nat)
    requires p !! h && |p| + |h| == n && forall i :: i in p + h ==> 0 <= i < n
    ensures forall i :: 0 <= i < n ==> i in p || i in h
  {
    var all := Range(n);
    assert |p + h| == n && p + h <= all;
    assert |all - (p + h)| == |all| - |p + h|;
    forall i | 0 <= i < n ensures i in p || i in h {
      assert i in all && i !in all - (p + h);
    }
  }

  /** Three operations within their budgets fill the log, processes that only
      read hold the buffers this leaves, and the commit panics in its first
      bread. In a region of LOGSIZE blocks, as mkfs makes it, it takes one reader;
      in a larger one, none. */
  lemma CommitStarves(l: Layout, d: Disk, homes: seq<int>, junk: Block) returns (ss: seq<State>, ts: seq<Step>)
    requires GoodDisk(l, d) && HeadList(l, d) == [] && l.size >= 2
    requires G.HomeList(l, d, homes) && |homes| >= C.NBUF
    ensures IsRun(l, d, ss, ts)
    ensures var s := ss[|ts|];
            && s.g.k == 0 && s.held == Rest && Starved(s)
            && |s.users| == |Holders(s.users)| == C.NBUF - G.Brim(l)
            && (l.size == LOGSIZE ==> |s.users| == 1) && (l.size > LOGSIZE ==> s.users == multiset{})
  {
    hide Inv, IsRun;
    var m := G.Brim(l);
    ss, ts := LoadAll(l, d, homes, junk, m);
    var bs;
    ss, ts, bs := ReadOn(l, d, homes, ss, ts, m, C.NBUF - m);
    var s := LastInv(l, d, ss, ts);
    ss, ts := Push(l, d, ss, ts, End(0));
    ss, ts := Push(l, d, ss, ts, End(0));
    ss, ts := Push(l, d, ss, ts, End(0));
    s := LastInv(l, d, ss, ts);
    ReadingApart(s, homes, m, bs);
    AllTaken(s, d, homes, m, bs);
    StarvedExactly(s, d);
  }

  ghost function RunEnd(l: Layout, d: Disk, ss: seq<State>, ts: seq<Step>): (s: State)
    requires IsRun(l, d, ss, ts)
  {
    ss[|ts|]
  }

  /** At the end of this run other processes hold at most `r` buffers. */
  ghost predicate FewHeld(l: Layout, d: Disk, ss: seq<State>, ts: seq<Step>, r: nat) {
    IsRun(l, d, ss, ts) && |Holders(RunEnd(l, d, ss, ts).users)| <= r
  }

  lemma FewHeldSafe(l: Layout, d: Disk, ss: seq<State>, ts: seq<Step>, r: nat)
    requires FewHeld(l, d, ss, ts, r) && G.Brim(l) + r < C.NBUF
    ensures !Starved(RunEnd(l, d, ss, ts))
  {
    hide Inv, IsRun, C.Got;
    var s := LastInv(l, d, ss, ts);
    if s.held.First? {
      SecondIsCached(s, d);
    } else if Busy(s.g) && s.held.Rest? {
      WaitingFits(s, d);
      RoomLeft(s, d, Wanted(s));
    }
  }

  lemma WaitingFits(s: State, d: Disk)
    requires Inv(s, d)
    ensures |Todo(s.g)| <= G.Brim(s.g.l)
  {
    hide G.Inv;
    LogFacts(s.g, d);
  }

  /** While other processes hold at most `r` buffers, no run makes commit's bget
      panic, if and only if the longest list log_write allows leaves more than
      `r` buffers (on a disk with enough home blocks to fill the cache). */
  lemma CommitsSafe(l: Layout, d: Disk, homes: seq<int>, junk: Block, r: nat)
    requires GoodDisk(l, d) && HeadList(l, d) == [] && l.size >= 2
    requires G.HomeList(l, d, homes) && |homes| >= C.NBUF
    ensures G.Brim(l) + r < C.NBUF <==>
              forall ss: seq<State>, ts: seq<Step> :: FewHeld(l, d, ss, ts, r) ==> !Starved(RunEnd(l, d, ss, ts))
  {
    hide Inv, IsRun, Starved;
    if G.Brim(l) + r < C.NBUF {
      forall ss: seq<State>, ts: seq<Step> | FewHeld(l, d, ss, ts, r) ensures !Starved(RunEnd(l, d, ss, ts)) {
        FewHeldSafe(l, d, ss, ts, r);
      }
    } else {
      var ss, ts := CommitStarves(l, d, homes, junk);
      assert FewHeld(l, d, ss, ts, r);
    }
  }
}
