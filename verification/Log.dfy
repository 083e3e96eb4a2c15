/** log.c itself: the in-memory log and the loops that write the disk, each
    tied to the step functions of RedoLog and GroupCommit. */
module Log {
  import opened Blocks
  import opened RedoLog
  import opened GroupCommit

  /** A disk of atomic single-block writes; `trace` is every state it has been in
      since it was attached, so every point at which power may fail. */
  class Drive {
    var blocks: Disk
    ghost var trace: seq<Disk>

    method Write(b: nat, data: Block)
      requires b < |blocks|
      modifies this
      ensures blocks == old(blocks)[b := data]
      ensures trace == old(trace) + [blocks]
    {
      blocks := blocks[b := data];
      trace := trace + [blocks];
    }
  }

  datatype EndResult = Panic | LastOut | Wake

  class Log {
    const l: Layout
    const drive: Drive
    var n: nat
    var block: array<int>
    var outstanding: int
    var committing: bool
    var cache: map<int, Block> // buffers pinned by B_DIRTY

    /** initlog: no operation runs before recovery is done. */
    constructor (l: Layout, drive: Drive)
      requires GoodDisk(l, drive.blocks)
      modifies drive
      ensures this.l == l && this.drive == drive && fresh(block)
      ensures Valid() && Mem() == LogState([], 0, false) && cache == map[]
      ensures drive.blocks == Recovered(l, old(drive.blocks))
    {
      hide EncodeHead, HeadWords, Word, Installed;
      this.l := l;
      this.drive := drive;
      n := 0;
      block := new int[LOGSIZE];
      outstanding := 0;
      committing := false;
      cache := map[];
      new;
      RecoverFromLog();
      assert cache.Keys == {};
    }

    ghost predicate Valid()
      reads this, block
    {
      block.Length == LOGSIZE && n <= LOGSIZE
    }

    ghost function Mem(): LogState
      requires Valid()
      reads this, block
    {
      LogState(block[..n], outstanding, committing)
    }

    /** What commit needs: every recorded block is a home block and is pinned. */
    ghost predicate Committable()
      reads this, block, drive
    {
      && Valid()
      && GoodList(l, drive.blocks, block[..n])
      && forall b :: b in block[..n] ==> b in cache
    }

    /** One pass of begin_op's loop: admitted, or back to sleep unchanged. */
    method BeginOp() returns (admitted: bool)
      requires Valid()
      modifies this`outstanding
      ensures Valid() && admitted == MayBegin(old(Mem()))
      ensures admitted <==> !old(committing) && n + (old(outstanding) + 1) * MAXOPBLOCKS <= LOGSIZE
      ensures Mem() == if admitted then old(Mem()).(outstanding := old(outstanding) + 1) else old(Mem())
    {
      if committing {
        admitted := false;
      } else if n + (outstanding + 1) * MAXOPBLOCKS > LOGSIZE {
        admitted := false;
      } else {
        outstanding := outstanding + 1;
        admitted := true;
      }
    }

    /** end_op up to the release of log.lock. */
    method EndOp() returns (r: EndResult)
      requires Valid()
      modifies this`outstanding, this`committing
      ensures Valid()
      ensures r == Panic <==> old(committing)
      ensures r == LastOut <==> !old(committing) && old(outstanding) == 1
      ensures Mem() == LogState(old(Mem()).lh, old(outstanding) - 1, old(committing) || r == LastOut)
    {
      outstanding := outstanding - 1;
      if committing {
        return Panic;
      }
      if outstanding == 0 {
        committing := true;
        r := LastOut;
      } else {
        r := Wake;
      }
    }

    /** Records and pins a block the caller has modified to `data`. */
    method LogWrite(b: int, data: Block) returns (ok: bool)
      requires Valid()
      modifies this`n, this`cache, block
      ensures Valid() && block == old(block)
      ensures ok == !WritePanics(l, old(Mem()))
      ensures ok ==> Mem() == old(Mem()).(lh := Absorb(old(Mem()).lh, b)) && cache == old(cache)[b := data]
      ensures !ok ==> Mem() == old(Mem()) && cache == old(cache)
    {
      if n >= LOGSIZE || n >= l.size - 1 {
        return false;
      }
      if outstanding < 1 {
        return false;
      }
      var i := 0;
      while i < n && block[i] != b
        invariant 0 <= i <= n
        invariant b !in block[..i]
      {
        i := i + 1;
      }
      ghost var lh := block[..n];
      block[i] := b;
      if i == n {
        assert block[..n + 1] == lh + [b];
        assert lh == lh[..i];
        n := n + 1;
      } else {
        assert lh[i] == b;
        assert block[..n] == lh;
      }
      cache := cache[b := data];
      ok := true;
    }

    method WriteLog()
      requires Committable()
      modifies drive
      ensures drive.blocks == LogWritten(l, old(drive.blocks), block[..n], cache, n)
      ensures old(drive.trace) <= drive.trace && |drive.trace| == |old(drive.trace)| + n
      ensures forall k :: 0 < k <= n ==>
                drive.trace[|old(drive.trace)| + k - 1] == LogWritten(l, old(drive.blocks), block[..n], cache, k)
    {
      var tail := 0;
      while tail < n
        invariant 0 <= tail <= n
        invariant drive.blocks == LogWritten(l, old(drive.blocks), block[..n], cache, tail)
        invariant old(drive.trace) <= drive.trace && |drive.trace| == |old(drive.trace)| + tail
        invariant forall k :: 0 < k <= tail ==>
                    drive.trace[|old(drive.trace)| + k - 1] == LogWritten(l, old(drive.blocks), block[..n], cache, k)
      {
        assert block[tail] == block[..n][tail];
        drive.Write(l.start + tail + 1, cache[block[tail]]);
        tail := tail + 1;
      }
    }

    method WriteHead()
      requires Valid() && l.start < |drive.blocks| && HeadFits(block[..n])
      modifies drive
      ensures drive.blocks == PutHead(l, old(drive.blocks), block[..n])
      ensures drive.trace == old(drive.trace) + [drive.blocks]
    {
      ghost var bl := block[..n];
      var hb: Block := PutWord(drive.blocks[l.start], 0, n);
      var i := 0;
      while i < n
        invariant 0 <= i <= n && hb == EncodeList(drive.blocks[l.start], bl, i)
      {
        assert block[i] == bl[i];
        hb := PutWord(hb, 1 + i, block[i]);
        i := i + 1;
      }
      drive.Write(l.start, hb);
    }

    /** Reads the header block into the in-memory log header. */
    method ReadHead()
      requires Valid() && HeadReadable(l, drive.blocks)
      modifies this`n, block
      ensures Valid() && block == old(block)
      ensures block[..n] == HeadList(l, drive.blocks)
    {
      var hb := drive.blocks[l.start];
      n := Word(hb, 0);
      var i := 0;
      while i < n
        invariant 0 <= i <= n == Word(hb, 0)
        invariant block[..i] == HeadWords(hb, i)
      {
        block[i] := Word(hb, 1 + i);
        i := i + 1;
      }
    }

    /** Copies the log to the home blocks; each bwrite also unpins its buffer. */
    method InstallTrans()
      requires Valid() && GoodList(l, drive.blocks, block[..n])
      modifies drive, this`cache
      ensures drive.blocks == Installed(l, old(drive.blocks), block[..n], n)
      ensures old(drive.trace) <= drive.trace && |drive.trace| == |old(drive.trace)| + n
      ensures forall k :: 0 < k <= n ==>
                drive.trace[|old(drive.trace)| + k - 1] == Installed(l, old(drive.blocks), block[..n], k)
      ensures cache == old(cache) - (set b | b in block[..n])
    {
      var tail := 0;
      while tail < n
        invariant 0 <= tail <= n
        invariant drive.blocks == Installed(l, old(drive.blocks), block[..n], tail)
        invariant old(drive.trace) <= drive.trace && |drive.trace| == |old(drive.trace)| + tail
        invariant forall k :: 0 < k <= tail ==>
                    drive.trace[|old(drive.trace)| + k - 1] == Installed(l, old(drive.blocks), block[..n], k)
        invariant cache == old(cache) - (set b | b in block[..tail])
      {
        assert block[tail] == block[..n][tail];
        drive.Write(block[tail], drive.blocks[l.start + tail + 1]);
        cache := cache - {block[tail]};
        tail := tail + 1;
      }
    }

    /** commit: the disk goes through exactly the states CommitStep 1, 2, ... */
    method Commit()
      requires Committable()
      modifies drive, this`n, this`cache
      ensures Valid() && n == 0
      ensures var bl, d := old(block[..n]), old(drive.blocks);
              && drive.blocks == CommitStep(l, d, bl, old(cache), CommitLength(|bl|))
              && old(drive.trace) <= drive.trace
              && |drive.trace| == |old(drive.trace)| + CommitLength(|bl|)
              && (forall k :: 0 < k <= CommitLength(|bl|) ==>
                    drive.trace[|old(drive.trace)| + k - 1] == CommitStep(l, d, bl, old(cache), k))
      ensures cache == old(cache) - (set b | b in old(block[..n]))
    {
      hide EncodeHead, HeadWords, Word;
      if n > 0 {
        WriteLog();
        WriteHead();
        InstallTrans();
        n := 0;
        WriteHead();
      }
    }

    /** Boot: the disk goes through exactly the states RecoverStep 1, 2, ... */
    method RecoverFromLog()
      requires Valid() && GoodDisk(l, drive.blocks)
      modifies drive, this`n, this`cache, block
      ensures Valid() && n == 0 && block == old(block)
      ensures var d := old(drive.blocks); var m := |HeadList(l, d)| + 1;
              && drive.blocks == Recovered(l, d)
              && old(drive.trace) <= drive.trace && |drive.trace| == |old(drive.trace)| + m
              && (forall k :: 0 < k <= m ==> drive.trace[|old(drive.trace)| + k - 1] == RecoverStep(l, d, k))
      ensures cache.Keys <= old(cache).Keys
    {
      hide EncodeHead, HeadWords, Word;
      ReadHead();
      InstallTrans();
      n := 0;
      WriteHead();
    }
  }
}
