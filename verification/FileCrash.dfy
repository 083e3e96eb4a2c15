/** A machine that stops during filewrite: what recovery leaves of the file. */
module FileCrash {
  import opened Blocks
  import opened RedoLog
  import opened Files
  import opened Contents
  import opened Writes
  import opened Journal
  import G = GroupCommit
  import C = BufferCache
  import K = CachedLog

  // Operations one after the other --------------------------------------------------------------

  function Tag(id: nat, ps: seq<Put>): (h: seq<G.Write>)
    ensures |h| == |ps|
  {
    seq(|ps|, i requires 0 <= i < |ps| => G.Write(id, ps[i].bno, ps[i].data))
  }

  /** The writes of operations 0, 1, ..., in order. */
  function History(ws: seq<seq<Put>>): (h: seq<G.Write>) {
    if ws == [] then [] else History(ws[..|ws| - 1]) + Tag(|ws| - 1, ws[|ws| - 1])
  }

  /** How far the process that does the operations `ws` has come: an operation
      that has ended has logged all its writes, and the last one has not ended. */
  predicate Performs(s: G.State, ws: seq<seq<Put>>) {
    && s.hist <= History(ws)
    && forall id :: id in s.finished ==> id + 1 < |ws| && |History(ws[..id + 1])| <= |s.hist|
  }

  lemma HistoryStep(ws: seq<seq<Put>>, k: nat)
    requires k < |ws|
    ensures History(ws[..k + 1]) == History(ws[..k]) + Tag(k, ws[k])
  {
    assert ws[..k + 1][..k] == ws[..k];
  }

  lemma {:induction false} HistoryPrefix(ws: seq<seq<Put>>, k: nat)
    requires k <= |ws|
    ensures History(ws[..k]) <= History(ws)
    decreases |ws| - k
  {
    if k == |ws| {
      assert ws[..k] == ws;
    } else {
      HistoryStep(ws, k);
      HistoryPrefix(ws, k + 1);
    }
  }

  /** The operation whose write is at `x`. */
  lemma {:induction false} OpAt(ws: seq<seq<Put>>, x: nat) returns (k: nat)
    requires x < |History(ws)|
    ensures k < |ws| && |History(ws[..k])| <= x < |History(ws[..k + 1])| && History(ws)[x].op == k
    decreases |ws|
  {
    var n := |ws| - 1;
    var p := ws[..n];
    HistoryStep(ws, n);
    assert ws[..n + 1] == ws;
    if x < |History(p)| {
      k := OpAt(p, x);
      assert p[..k] == ws[..k] && p[..k + 1] == ws[..k + 1];
    } else {
      k := n;
    }
  }

  lemma SameOp(ws: seq<seq<Put>>, k: nat, x: nat)
    requires k < |ws| && |History(ws[..k])| <= x < |History(ws[..k + 1])|
    ensures x < |History(ws)| && History(ws)[x].op == k
  {
    HistoryStep(ws, k);
    HistoryPrefix(ws, k + 1);
    assert History(ws)[x] == History(ws[..k + 1])[x];
  }

  lemma NotYet(ws: seq<seq<Put>>, s: G.State, k: nat, x: nat)
    requires Performs(s, ws) && k in s.finished && |History(ws[..k])| <= x < |History(ws[..k + 1])|
    ensures x < |s.hist| && s.hist[x].op == k
  {
    SameOp(ws, k, x);
  }

  /** A prefix that splits no operation and has only ended ones ends where one ends. */
  lemma WholeOps(ws: seq<seq<Put>>, s: G.State, c: nat) returns (k: nat)
    requires Performs(s, ws) && c <= |s.hist| && ws != []
    requires forall i :: 0 <= i < c ==> s.hist[i].op in s.finished
    requires forall i, j :: 0 <= i < c <= j < |s.hist| ==> s.hist[i].op != s.hist[j].op
    ensures k < |ws| && s.hist[..c] == History(ws[..k])
  {
    if c == 0 {
      k := 0;
    } else {
      var j := OpAt(ws, c - 1);
      k := j + 1;
      assert s.hist[c - 1] == History(ws)[c - 1];
      assert j in s.finished;
      HistoryPrefix(ws, k);
      if c < |History(ws[..k])| {
        NotYet(ws, s, j, c);
      }
    }
  }

  // What they do to the disk --------------------------------------------------------------------

  lemma {:induction false} ReplayTag(d: Disk, h: seq<G.Write>, id: nat, ps: seq<Put>)
    ensures G.Replay(d, h + Tag(id, ps)) == Redo(G.Replay(d, h), ps)
  {
    if ps == [] {
      assert h + Tag(id, ps) == h;
    } else {
      var n := |ps| - 1;
      ReplayTag(d, h, id, ps[..n]);
      var w := G.Write(id, ps[n].bno, ps[n].data);
      assert h + Tag(id, ps) == (h + Tag(id, ps[..n])) + [w];
      G.ReplayOne(d, h + Tag(id, ps[..n]), w);
    }
  }

  function Logs(tr: seq<Chunk>): (ws: seq<seq<Put>>) {
    seq(|tr|, i requires 0 <= i < |tr| => tr[i].puts)
  }

  lemma {:induction false} ReplayChunks(v: Fs, m: Meaning, off: nat, src: seq<Byte>, n: int, tr: seq<Chunk>,
                                        ws: seq<seq<Put>>, k: nat)
    requires Trail(v, m, off, src, n, tr) && k <= |tr| && Logs(tr) <= ws
    ensures G.Replay(v.disk, History(ws[..k])) == Before(v, m, tr, k).0.disk
  {
    hide AtRest, Redo, Bnos;
    if k > 0 {
      ReplayChunks(v, m, off, src, n, tr, ws, k - 1);
      assert ChunkLeft(v, m, off, src, n, tr, k - 1);
      HistoryStep(ws, k - 1);
      assert Logs(tr)[k - 1] == ws[k - 1];
      ReplayTag(v.disk, History(ws[..k - 1]), k - 1, ws[k - 1]);
    }
  }

  /** The file layer reads no block below the inodes. */
  lemma AtRestHome(v: Fs, g: Meaning, d: Disk)
    requires AtRest(v, g) && |d| == |v.disk|
    requires forall b :: v.sb.inodestart <= b < v.sb.size ==> d[b] == v.disk[b]
    ensures AtRest(v.(disk := d), g)
  {
    var r := v.(disk := d);
    SameTable(v, r, g.t);
    SameBits(v, r, g.used);
    SameSizes(v, r, g.files);
  }

  // The result ----------------------------------------------------------------------------------

  /** The volume on disk `d`, whichever inode is locked first after the boot, is
      at rest and means `g`. */
  ghost predicate Boots(sb: Super, d: Disk, ip: Inode, g: Meaning) {
    && AtRest(Fs(sb, d, ip), g)
    && forall now :: ReadFrom(Fs(sb, d, ip), now) ==> AtRest(Fs(sb, d, now), g)
  }

  lemma AtRestBoots(v: Fs, g: Meaning, l: Layout, d: Disk)
    requires AtRest(v, g) && l.start + l.size <= v.sb.inodestart && SameHome(l, d, v.disk)
    ensures Boots(v.sb, d, v.ip, g)
  {
    AtRestHome(v, g, d);
    var r := v.(disk := d);
    forall now | ReadFrom(r, now) ensures AtRest(Fs(v.sb, d, now), g) {
      LockedMeans(r, g, now);
    }
  }

  lemma BeforeAtRest(v: Fs, m: Meaning, off: nat, src: seq<Byte>, n: int, tr: seq<Chunk>, k: nat)
    requires AtRest(v, m) && Trail(v, m, off, src, n, tr) && k <= |tr|
    ensures var (w, g) := Before(v, m, tr, k);
            && AtRest(w, g) && w.sb == v.sb
            && (k == 0 ==> g.files == m.files)
            && (k > 0 ==> v.ip.inum < |m.files| && off <= |m.files[v.ip.inum]| && Sent(n, k) <= |src|)
            && (k > 0 ==> g.files == Spliced(m.files, v.ip.inum, off, src[..Sent(n, k)]))
  {
    hide AtRest, Redo, Bnos;
    if k > 0 {
      assert ChunkLeft(v, m, off, src, n, tr, k - 1);
    }
  }

  /** `d`, recovered, is a volume at rest that has the first `k` chunks of `src`
      in the file, whole, and all else as it was. */
  ghost predicate Keeps(l: Layout, d: Disk, v: Fs, m: Meaning, off: nat, src: seq<Byte>, n: int, tr: seq<Chunk>,
                        k: nat) {
    && GoodDisk(l, d) && k <= |tr|
    && var (w, g) := Before(v, m, tr, k);
       && Boots(v.sb, Recovered(l, d), w.ip, g)
       && (k == 0 ==> g.files == m.files)
       && (k > 0 ==> v.ip.inum < |m.files| && off <= |m.files[v.ip.inum]| && Sent(n, k) <= |src|)
       && (k > 0 ==> g.files == Spliced(m.files, v.ip.inum, off, src[..Sent(n, k)]))
  }

  lemma {:induction false} HistoryGrows(ws: seq<seq<Put>>, j: nat, k: nat)
    requires j <= k <= |ws|
    ensures |History(ws[..j])| <= |History(ws[..k])|
    decreases k
  {
    if j < k {
      HistoryStep(ws, k - 1);
      HistoryGrows(ws, j, k - 1);
    }
  }

  /** Recovery would keep all writes of operation `j`. */
  predicate DurableOp(s: G.State, ws: seq<seq<Put>>, j: nat) {
    j < |ws| && |History(ws[..j + 1])| <= G.Durable(s)
  }

  /** A chunk is kept exactly when its writes are durable. */
  predicate KeepsDurable(s: G.State, ws: seq<seq<Put>>, n: nat, k: nat) {
    && k <= n <= |ws| && G.Durable(s) <= |s.hist|
    && s.hist[..G.Durable(s)] == History(ws[..k])
    && forall j :: 0 <= j < n ==> (j < k <==> DurableOp(s, ws, j))
  }

  lemma DurableChunks(s: G.State, v: Fs, m: Meaning, off: nat, src: seq<Byte>, n: int, tr: seq<Chunk>,
                      last: seq<Put>, k: nat)
    requires Trail(v, m, off, src, n, tr) && k <= |tr| && G.Durable(s) <= |s.hist|
    requires s.hist[..G.Durable(s)] == History((Logs(tr) + [last])[..k])
    ensures KeepsDurable(s, Logs(tr) + [last], |tr|, k)
  {
    hide AtRest, Redo, Bnos;
    var ws := Logs(tr) + [last];
    forall j | 0 <= j < |tr| ensures j < k <==> DurableOp(s, ws, j) {
      assert ChunkLeft(v, m, off, src, n, tr, j);
      HistoryStep(ws, j);
      if j < k {
        HistoryGrows(ws, j + 1, k);
      } else {
        HistoryGrows(ws, k, j);
      }
    }
  }

  predicate HeaderWritten(s: G.State) {
    s.log.committing && s.k > |s.log.lh|
  }

  predicate KeepsEnded(s: G.State, k: nat) {
    forall j :: j in s.finished ==> j < k
  }

  /** Once the header is written, every operation that has ended is kept. */
  lemma HeaderKeeps(s: G.State, ws: seq<seq<Put>>, n: nat, k: nat)
    requires Performs(s, ws) && |ws| == n + 1 && KeepsDurable(s, ws, n, k)
    requires HeaderWritten(s)
    ensures KeepsEnded(s, k)
  {
    forall j | j in s.finished ensures j < k {
      assert DurableOp(s, ws, j);
    }
  }

  lemma CrashKeeps(s: G.State, v: Fs, m: Meaning, off: nat, src: seq<Byte>, n: int, tr: seq<Chunk>, last: seq<Put>)
    returns (k: nat)
    requires AtRest(v, m) && Trail(v, m, off, src, n, tr) && s.l.start + s.l.size <= v.sb.inodestart
    requires G.Inv(s, v.disk) && Performs(s, Logs(tr) + [last])
    ensures Keeps(s.l, s.disk, v, m, off, src, n, tr, k)
    ensures KeepsDurable(s, Logs(tr) + [last], |tr|, k)
  {
    hide AtRest, GoodDisk, Trail, Boots, G.Inv, KeepsDurable;
    var ws := Logs(tr) + [last];
    G.CrashState(s, v.disk);
    k := WholeOps(ws, s, G.Durable(s));
    DurableChunks(s, v, m, off, src, n, tr, last, k);
    ReplayChunks(v, m, off, src, n, tr, ws, k);
    BeforeAtRest(v, m, off, src, n, tr, k);
    var (w, g) := Before(v, m, tr, k);
    AtRestBoots(w, g, s.l, Recovered(s.l, s.disk));
  }

  /** Stop the machine of cache, log and disk at any point of a filewrite, in a
      chunk or between two, a commit under way or not: recovery keeps a whole
      number of chunks, exactly those whose writes are durable; once a commit has
      written its header, all chunks that have ended. */
  lemma FilewriteCrash(l: Layout, v: Fs, m: Meaning, off: nat, src: seq<Byte>, n: int, tr: seq<Chunk>, last: seq<Put>,
                       ss: seq<K.State>, ts: seq<K.Step>, x: nat)
    returns (k: nat)
    requires x < |ss| && Performs(ss[x].g, Logs(tr) + [last]) && l.start + l.size <= v.sb.inodestart
    requires K.IsRun(l, v.disk, ss, ts) && AtRest(v, m) && Trail(v, m, off, src, n, tr)
    ensures Keeps(l, ss[x].c.disk, v, m, off, src, n, tr, k)
    ensures KeepsDurable(ss[x].g, Logs(tr) + [last], |tr|, k)
    ensures HeaderWritten(ss[x].g) ==> KeepsEnded(ss[x].g, k)
  {
    hide AtRest, Trail, Keeps, G.Inv, K.IsRun, Performs, KeepsDurable, C.Represents;
    K.RunInv(l, v.disk, ss, ts, x);
    var g := ss[x].g;
    k := CrashKeeps(g, v, m, off, src, n, tr, last);
    if HeaderWritten(g) {
      HeaderKeeps(g, Logs(tr) + [last], |tr|, k);
    }
  }

  // The budget ----------------------------------------------------------------------------------

  lemma {:induction false} PutIn(ps: seq<Put>, y: nat)
    requires y < |ps|
    ensures ps[y].bno in Bnos(ps)
  {
    if y < |ps| - 1 {
      PutIn(ps[..|ps| - 1], y);
    }
  }

  lemma OwnBlocks(s: G.State, ws: seq<seq<Put>>, j: nat)
    requires Performs(s, ws) && j < |ws|
    ensures G.BlocksOf(s.hist, j) <= Bnos(ws[j])
  {
    forall b | b in G.BlocksOf(s.hist, j) ensures b in Bnos(ws[j]) {
      var x := G.BlockLogged(s.hist, j, b);
      assert s.hist[x] == History(ws)[x];
      var k := OpAt(ws, x);
      HistoryStep(ws, k);
      HistoryPrefix(ws, k + 1);
      assert History(ws)[x] == History(ws[..k + 1])[x] == Tag(k, ws[k])[x - |History(ws[..k])|];
      PutIn(ws[k], x - |History(ws[..k])|);
    }
  }

  /** What begin_op reserves is enough for a chunk: whatever else is in the
      transaction, log_write of each of its blocks is of a home block, and the
      operation has budget left or the block is in the list. */
  lemma ChunkInBudget(l: Layout, v: Fs, m: Meaning, off: nat, src: seq<Byte>, n: int, tr: seq<Chunk>, last: seq<Put>,
                      ss: seq<K.State>, ts: seq<K.Step>, x: nat, i: nat, y: nat)
    requires x < |ss| && Performs(ss[x].g, Logs(tr) + [last]) && l.start + l.size <= v.sb.inodestart
    requires i < |ss[x].g.active| && ss[x].g.active[i].id < |tr| && y < |tr[ss[x].g.active[i].id].puts|
    requires K.IsRun(l, v.disk, ss, ts) && Trail(v, m, off, src, n, tr)
    ensures var (g, b) := (ss[x].g, tr[ss[x].g.active[i].id].puts[y].bno);
            && b < v.sb.size && !InLog(l, b)
            && (b in g.log.lh || g.active[i].spent < MAXOPBLOCKS)
  {
    hide AtRest, Redo, K.IsRun, Performs;
    var g, ws := ss[x].g, Logs(tr) + [last];
    var j := g.active[i].id;
    assert ChunkLeft(v, m, off, src, n, tr, j);
    OwnBlocks(g, ws, j);
    PutIn(tr[j].puts, y);
    K.RunSpent(l, v.disk, ss, ts, x);
    G.BudgetSuffices(g, i, Bnos(tr[j].puts), tr[j].puts[y].bno);
  }
}
