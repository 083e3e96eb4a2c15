/** The on-disk redo log of log.c: its format, what a run of commit or of
    recovery leaves on the disk after each single-block write, and why a crash
    between any two of those writes is harmless. */
module RedoLog {
  import opened Blocks

  const LOGSIZE := 30 // MAXOPBLOCKS * 3

  type Disk = seq<Block>

  /** log.start and log.size: the header sits at `start`, log blocks follow it. */
  datatype Layout = Layout(start: nat, size: nat)

  predicate InLog(l: Layout, b: int) {
    l.start <= b < l.start + l.size
  }

  predicate Distinct(bl: seq<int>) {
    forall i, j :: 0 <= i < j < |bl| ==> bl[i] != bl[j]
  }

  /** Block numbers a transaction may hold: real home blocks, no repeats,
      and few enough for both the header and the log region. */
  predicate GoodList(l: Layout, d: Disk, bl: seq<int>) {
    && |bl| <= LOGSIZE
    && l.start + |bl| < l.start + l.size <= |d| <= WORD_MAX
    && (forall i :: 0 <= i < |bl| ==> 0 <= bl[i] < |d| && !InLog(l, bl[i]))
    && Distinct(bl)
  }

  /** Both disks hold the same blocks outside the log region. */
  predicate SameHome(l: Layout, d: Disk, e: Disk) {
    && |d| == |e|
    && forall b :: 0 <= b < |d| && !InLog(l, b) ==> d[b] == e[b]
  }

  // Header block -----------------------------------------------------------

  predicate HeadFits(bl: seq<int>) {
    |bl| <= LOGSIZE && forall i :: 0 <= i < |bl| ==> 0 <= bl[i] < WORD_MAX
  }

  /** The header block with the count and the first `k` block numbers written. */
  function EncodeList(hb: Block, bl: seq<int>, k: nat): (r: Block)
    requires HeadFits(bl) && k <= |bl|
  {
    if k == 0 then PutWord(hb, 0, |bl|) else PutWord(EncodeList(hb, bl, k - 1), k, bl[k - 1])
  }

  /** What write_head leaves in the header block: the count, the numbers in
      use, and stale words after them. */
  function EncodeHead(hb: Block, bl: seq<int>): (r: Block)
    requires HeadFits(bl)
  {
    EncodeList(hb, bl, |bl|)
  }

  lemma {:induction false} EncodeReads(hb: Block, bl: seq<int>, k: nat, w: nat)
    requires HeadFits(bl) && k <= |bl| && w < WORDS
    ensures Word(EncodeList(hb, bl, k), w) == if w == 0 then |bl| else if w <= k then bl[w - 1] else Word(hb, w)
  {
    if k == 0 {
      PutWordReads(hb, 0, |bl|, w);
    } else {
      EncodeReads(hb, bl, k - 1, w);
      PutWordReads(EncodeList(hb, bl, k - 1), k, bl[k - 1], w);
    }
  }

  /** Words 1 to `n` of the header block. */
  function HeadWords(hb: Block, n: nat): (bl: seq<int>)
    requires n <= LOGSIZE
    ensures |bl| == n && forall i :: 0 <= i < n ==> bl[i] == Word(hb, 1 + i)
  {
    if n == 0 then [] else HeadWords(hb, n - 1) + [Word(hb, n)]
  }

  predicate HeadReadable(l: Layout, d: Disk) {
    l.start < |d| && Word(d[l.start], 0) <= LOGSIZE
  }

  function HeadList(l: Layout, d: Disk): (bl: seq<int>)
    requires HeadReadable(l, d)
  {
    HeadWords(d[l.start], Word(d[l.start], 0))
  }

  function PutHead(l: Layout, d: Disk, bl: seq<int>): (r: Disk)
    requires l.start < |d| && HeadFits(bl)
    ensures |r| == |d|
  {
    d[l.start := EncodeHead(d[l.start], bl)]
  }

  lemma PutHeadReads(l: Layout, d: Disk, bl: seq<int>)
    requires l.start < |d| && HeadFits(bl)
    ensures HeadReadable(l, PutHead(l, d, bl))
    ensures HeadList(l, PutHead(l, d, bl)) == bl
  {
    var hb := EncodeHead(d[l.start], bl);
    EncodeReads(d[l.start], bl, |bl|, 0);
    forall i | 0 <= i < |bl| ensures HeadWords(hb, |bl|)[i] == bl[i] {
      EncodeReads(d[l.start], bl, |bl|, 1 + i);
    }
  }

  /** A disk a boot may find: its header names a good list. */
  predicate GoodDisk(l: Layout, d: Disk) {
    HeadReadable(l, d) && GoodList(l, d, HeadList(l, d))
  }

  // Installing ---------------------------------------------------------------

  /** install_trans after `k` of its disk writes. */
  function Installed(l: Layout, d: Disk, bl: seq<int>, k: nat): (r: Disk)
    requires GoodList(l, d, bl) && k <= |bl|
    ensures |r| == |d|
  {
    if k == 0 then d
    else var p := Installed(l, d, bl, k - 1); p[bl[k - 1] := p[l.start + k]]
  }

  lemma {:induction false} InstalledAt(l: Layout, d: Disk, bl: seq<int>, k: nat)
    requires GoodList(l, d, bl) && k <= |bl|
    ensures forall i :: 0 <= i < k ==> Installed(l, d, bl, k)[bl[i]] == d[l.start + 1 + i]
    ensures forall b :: 0 <= b < |d| && b !in bl[..k] ==> Installed(l, d, bl, k)[b] == d[b]
  {
    if k > 0 {
      InstalledAt(l, d, bl, k - 1);
      assert bl[..k] == bl[..k - 1] + [bl[k - 1]];
      assert l.start + k !in bl[..k - 1] by {
        assert InLog(l, l.start + k);
      }
    }
  }

  /** Installing leaves the log region, header included, as it was. */
  lemma InstalledKeepsLog(l: Layout, d: Disk, bl: seq<int>, k: nat)
    requires GoodList(l, d, bl) && k <= |bl|
    ensures forall b :: InLog(l, b) ==> Installed(l, d, bl, k)[b] == d[b]
  {
  }

  /** Installing over a partly installed disk ends where installing ends. */
  lemma InstallAgain(l: Layout, d: Disk, bl: seq<int>, k: nat)
    requires GoodList(l, d, bl) && k <= |bl|
    ensures Installed(l, Installed(l, d, bl, k), bl, |bl|) == Installed(l, d, bl, |bl|)
  {
    var p := Installed(l, d, bl, k);
    var x, y := Installed(l, p, bl, |bl|), Installed(l, d, bl, |bl|);
    InstalledAt(l, d, bl, k);
    InstalledAt(l, d, bl, |bl|);
    InstalledAt(l, p, bl, |bl|);
    InstalledKeepsLog(l, d, bl, k);
    assert bl[..|bl|] == bl;
    forall b | 0 <= b < |d| ensures x[b] == y[b] {
      if b in bl {
        var i :| 0 <= i < |bl| && bl[i] == b;
        assert InLog(l, l.start + 1 + i);
      } else {
        assert b !in bl[..k];
      }
    }
  }

  // Recovery -------------------------------------------------------------------

  /** The disk after `k` writes of recover_from_log. */
  function RecoverStep(l: Layout, d: Disk, k: nat): (r: Disk)
    requires GoodDisk(l, d) && k <= |HeadList(l, d)| + 1
    ensures |r| == |d|
  {
    var bl := HeadList(l, d);
    if k <= |bl| then Installed(l, d, bl, k) else PutHead(l, Installed(l, d, bl, |bl|), [])
  }

  function Recovered(l: Layout, d: Disk): (r: Disk)
    requires GoodDisk(l, d)
    ensures |r| == |d|
  {
    RecoverStep(l, d, |HeadList(l, d)| + 1)
  }

  /** A recovery that runs to its end leaves an empty log. */
  lemma RecoveredIsClean(l: Layout, d: Disk)
    requires GoodDisk(l, d)
    ensures GoodDisk(l, Recovered(l, d)) && HeadList(l, Recovered(l, d)) == []
  {
    var bl := HeadList(l, d);
    PutHeadReads(l, Installed(l, d, bl, |bl|), []);
  }

  /** With an empty log, recovery changes no home block. */
  lemma RecoverCleanDisk(l: Layout, d: Disk)
    requires GoodDisk(l, d) && HeadList(l, d) == []
    ensures SameHome(l, Recovered(l, d), d)
  {
  }

  /** A recovery cut short after any of its writes recovers to the same blocks. */
  lemma RecoverAfterCrash(l: Layout, d: Disk, k: nat)
    requires GoodDisk(l, d) && k <= |HeadList(l, d)| + 1
    ensures GoodDisk(l, RecoverStep(l, d, k))
    ensures SameHome(l, Recovered(l, RecoverStep(l, d, k)), Recovered(l, d))
  {
    var bl := HeadList(l, d);
    if k <= |bl| {
      InstalledKeepsLog(l, d, bl, k);
      assert InLog(l, l.start);
      InstallAgain(l, d, bl, k);
    } else {
      RecoveredIsClean(l, d);
      RecoverCleanDisk(l, Recovered(l, d));
    }
  }

  /** Each disk in the chain is one a crashed recovery of the previous one left. */
  ghost predicate CrashChain(l: Layout, ds: seq<Disk>) {
    && |ds| > 0
    && (forall i :: 0 <= i < |ds| ==> GoodDisk(l, ds[i]))
    && forall i :: 0 < i < |ds| ==> CrashedRecovery(l, ds[i - 1], ds[i])
  }

  ghost predicate CrashedRecovery(l: Layout, d: Disk, e: Disk)
    requires GoodDisk(l, d)
  {
    exists k: nat :: k <= |HeadList(l, d)| + 1 && e == RecoverStep(l, d, k)
  }

  /** Any number of crashed recoveries, then one complete one, give the blocks
      one undisturbed recovery gives, and an empty log. */
  lemma {:induction false} RecoverAfterCrashes(l: Layout, ds: seq<Disk>)
    requires CrashChain(l, ds)
    ensures SameHome(l, Recovered(l, ds[|ds| - 1]), Recovered(l, ds[0]))
    ensures HeadList(l, Recovered(l, ds[|ds| - 1])) == []
    decreases |ds|
  {
    RecoveredIsClean(l, ds[|ds| - 1]);
    if |ds| > 1 {
      var pre := ds[..|ds| - 1];
      assert CrashedRecovery(l, ds[|ds| - 2], ds[|ds| - 1]);
      RecoverAfterCrashes(l, pre);
      var k: nat :| k <= |HeadList(l, ds[|ds| - 2])| + 1 && ds[|ds| - 1] == RecoverStep(l, ds[|ds| - 2], k);
      RecoverAfterCrash(l, ds[|ds| - 2], k);
    }
  }

  // Commit ---------------------------------------------------------------------

  /** write_log after `k` of its disk writes. */
  function LogWritten(l: Layout, d: Disk, bl: seq<int>, cache: map<int, Block>, k: nat): (r: Disk)
    requires GoodList(l, d, bl) && k <= |bl|
    requires forall b :: b in bl ==> b in cache
    ensures |r| == |d|
  {
    if k == 0 then d
    else LogWritten(l, d, bl, cache, k - 1)[l.start + k := cache[bl[k - 1]]]
  }

  lemma {:induction false} LogWrittenAt(l: Layout, d: Disk, bl: seq<int>, cache: map<int, Block>, k: nat)
    requires GoodList(l, d, bl) && k <= |bl|
    requires forall b :: b in bl ==> b in cache
    ensures forall i :: 0 <= i < k ==> LogWritten(l, d, bl, cache, k)[l.start + 1 + i] == cache[bl[i]]
    ensures forall b :: 0 <= b < |d| && !(l.start < b <= l.start + k) ==> LogWritten(l, d, bl, cache, k)[b] == d[b]
  {
    if k > 0 {
      LogWrittenAt(l, d, bl, cache, k - 1);
    }
  }

  /** The disk with the transaction's blocks at home. */
  function Applied(d: Disk, cache: map<int, Block>, bl: seq<int>): (r: Disk)
    requires forall b :: b in bl ==> b in cache
  {
    seq(|d|, b requires 0 <= b < |d| => if b in bl then cache[b] else d[b])
  }

  /** Disk writes in one commit of `n` blocks: none for an empty transaction. */
  function CommitLength(n: nat): nat {
    if n == 0 then 0 else 2 * n + 2
  }

  /** The disk after `k` writes of commit. */
  function CommitStep(l: Layout, d: Disk, bl: seq<int>, cache: map<int, Block>, k: nat): (r: Disk)
    requires GoodList(l, d, bl) && k <= CommitLength(|bl|)
    requires forall b :: b in bl ==> b in cache
    ensures |r| == |d|
  {
    if k <= |bl| then LogWritten(l, d, bl, cache, k)
    else
      var h := HeadWritten(l, d, bl, cache);
      if k <= 2 * |bl| + 1 then Installed(l, h, bl, k - |bl| - 1)
      else PutHead(l, Installed(l, h, bl, |bl|), [])
  }

  /** The disk at the commit point: log blocks written, header naming them. */
  function HeadWritten(l: Layout, d: Disk, bl: seq<int>, cache: map<int, Block>): (h: Disk)
    requires GoodList(l, d, bl)
    requires forall b :: b in bl ==> b in cache
    ensures |h| == |d|
  {
    PutHead(l, LogWritten(l, d, bl, cache, |bl|), bl)
  }

  lemma HeadWrittenAt(l: Layout, d: Disk, bl: seq<int>, cache: map<int, Block>)
    requires GoodList(l, d, bl)
    requires forall b :: b in bl ==> b in cache
    ensures var h := HeadWritten(l, d, bl, cache);
            && GoodDisk(l, h) && HeadList(l, h) == bl
            && (forall i :: 0 <= i < |bl| ==> h[l.start + 1 + i] == cache[bl[i]])
            && (forall b :: 0 <= b < |d| && !InLog(l, b) ==> h[b] == d[b])
  {
    LogWrittenAt(l, d, bl, cache, |bl|);
    PutHeadReads(l, LogWritten(l, d, bl, cache, |bl|), bl);
  }

  /** After any number of install writes, what a home block holds. */
  lemma InstallingAt(l: Layout, d: Disk, bl: seq<int>, cache: map<int, Block>, j: nat, b: int)
    requires GoodList(l, d, bl) && j <= |bl| && 0 <= b < |d| && !InLog(l, b)
    requires forall x :: x in bl ==> x in cache
    ensures Installed(l, HeadWritten(l, d, bl, cache), bl, j)[b] == if b in bl[..j] then cache[b] else d[b]
  {
    HeadWrittenAt(l, d, bl, cache);
    InstalledAt(l, HeadWritten(l, d, bl, cache), bl, j);
    if b in bl[..j] {
      var i :| 0 <= i < j && bl[..j][i] == b;
      assert bl[i] == b;
    }
  }

  /** The header write is the commit point: the log then holds the transaction. */
  lemma CommittedHead(l: Layout, d: Disk, bl: seq<int>, cache: map<int, Block>)
    requires GoodList(l, d, bl)
    requires forall b :: b in bl ==> b in cache
    ensures var h := HeadWritten(l, d, bl, cache);
            && GoodDisk(l, h) && HeadList(l, h) == bl
            && Installed(l, h, bl, |bl|)[l.start] == h[l.start]
            && SameHome(l, Installed(l, h, bl, |bl|), Applied(d, cache, bl))
  {
    var h := HeadWritten(l, d, bl, cache);
    HeadWrittenAt(l, d, bl, cache);
    InstalledKeepsLog(l, h, bl, |bl|);
    assert InLog(l, l.start);
    assert bl[..|bl|] == bl;
    var x, y := Installed(l, h, bl, |bl|), Applied(d, cache, bl);
    forall b | 0 <= b < |d| && !InLog(l, b) ensures x[b] == y[b] {
      InstallingAt(l, d, bl, cache, |bl|, b);
    }
  }

  lemma CrashAfterHead(l: Layout, d: Disk, bl: seq<int>, cache: map<int, Block>, k: nat)
    requires GoodList(l, d, bl) && |bl| < k <= CommitLength(|bl|)
    requires forall b :: b in bl ==> b in cache
    ensures var c := CommitStep(l, d, bl, cache, k);
            GoodDisk(l, c) && SameHome(l, Recovered(l, c), Applied(d, cache, bl))
  {
    var h := HeadWritten(l, d, bl, cache);
    CommittedHead(l, d, bl, cache);
    var j := k - |bl| - 1;
    assert CommitStep(l, d, bl, cache, k) == RecoverStep(l, h, j);
    hide CommitStep, HeadWritten, Installed, Applied;
    RecoverAfterCrash(l, h, j);
  }

  /** Crash atomicity: recovery from the disk after any `k` writes of commit
      gives the whole old state up to the header write and the whole new state
      from it on. */
  lemma CommitCrash(l: Layout, d: Disk, bl: seq<int>, cache: map<int, Block>, k: nat)
    requires GoodList(l, d, bl) && k <= CommitLength(|bl|)
    requires forall b :: b in bl ==> b in cache
    requires GoodDisk(l, d) && HeadList(l, d) == []
    ensures var c := CommitStep(l, d, bl, cache, k);
            && GoodDisk(l, c)
            && SameHome(l, Recovered(l, c), if k <= |bl| then d else Applied(d, cache, bl))
  {
    var c := CommitStep(l, d, bl, cache, k);
    if k <= |bl| {
      LogWrittenAt(l, d, bl, cache, k);
      RecoverCleanDisk(l, c);
    } else {
      CrashAfterHead(l, d, bl, cache, k);
    }
  }

  /** A commit that runs to its end leaves the new state and an empty log. */
  lemma CommitComplete(l: Layout, d: Disk, bl: seq<int>, cache: map<int, Block>)
    requires GoodList(l, d, bl)
    requires forall b :: b in bl ==> b in cache
    requires GoodDisk(l, d) && HeadList(l, d) == []
    ensures var c := CommitStep(l, d, bl, cache, CommitLength(|bl|));
            && GoodDisk(l, c) && HeadList(l, c) == []
            && SameHome(l, c, Applied(d, cache, bl))
  {
    CommittedHead(l, d, bl, cache);
    var h := HeadWritten(l, d, bl, cache);
    PutHeadReads(l, Installed(l, h, bl, |bl|), []);
    assert InLog(l, l.start);
  }

  /** Crash atomicity: a commit cut off after any write, then any number of
      recoveries cut off after any write, then one complete recovery: all of the
      transaction or none of it, and an empty header. */
  lemma CrashAtomicity(l: Layout, d: Disk, bl: seq<int>, cache: map<int, Block>, k: nat, ds: seq<Disk>)
    requires GoodList(l, d, bl) && k <= CommitLength(|bl|)
    requires forall b :: b in bl ==> b in cache
    requires GoodDisk(l, d) && HeadList(l, d) == []
    requires CrashChain(l, ds) && ds[0] == CommitStep(l, d, bl, cache, k)
    ensures var r := Recovered(l, ds[|ds| - 1]);
            && SameHome(l, r, if k <= |bl| then d else Applied(d, cache, bl))
            && HeadList(l, r) == []
  {
    CommitCrash(l, d, bl, cache, k);
    RecoverAfterCrashes(l, ds);
  }
}
