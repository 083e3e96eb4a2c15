/** What each call through a pipe does to the stream. A call is named by the
    step of the run that begins it, so its argument is what that step was given. */
module PipeCalls {
  import opened Pipe

  /** A byte in the stream and the call that put it there. */
  datatype Byte = Byte(value: int, call: int)

  predicate Begins(t: Step, p: nat) {
    (t.BeginWrite? || t.BeginRead?) && t.p == p
  }

  /** The last call process `p` began in the first `k` steps, or -1. */
  function CallOf(ts: seq<Step>, p: nat, k: nat): (j: int)
    requires k <= |ts|
    ensures -1 <= j < k && (j >= 0 ==> Begins(ts[j], p))
    ensures forall i :: j < i < k ==> !Begins(ts[i], p)
  {
    if k == 0 then -1 else if Begins(ts[k - 1], p) then k - 1 else CallOf(ts, p, k - 1)
  }

  function Tagged(bytes: seq<int>, call: int): (r: seq<Byte>)
    ensures |r| == |bytes|
  {
    seq(|bytes|, i requires 0 <= i < |bytes| => Byte(bytes[i], call))
  }

  /** What one step adds to the stream. */
  function Added(a: State, b: State): seq<int> {
    if |a.put| <= |b.put| then b.put[|a.put|..] else []
  }

  /** The stream after `k` steps, each byte with the call it came from. */
  function Stream(ss: seq<State>, ts: seq<Step>, k: nat): (r: seq<Byte>)
    requires k < |ss| && k <= |ts|
  {
    if k == 0 then []
    else
      var t := ts[k - 1];
      Stream(ss, ts, k - 1)
      + Tagged(Added(ss[k - 1], ss[k]), if t.RunWriter? then CallOf(ts, t.p, k - 1) else -1)
  }

  function Values(r: seq<Byte>): (s: seq<int>)
    ensures |s| == |r|
  {
    seq(|r|, i requires 0 <= i < |r| => r[i].value)
  }

  /** One call's bytes, in stream order. */
  function Mine(r: seq<Byte>, j: int): seq<int> {
    if r == [] then []
    else Mine(r[..|r| - 1], j) + if r[|r| - 1].call == j then [r[|r| - 1].value] else []
  }

  lemma {:induction false} MineAppend(r: seq<Byte>, bytes: seq<int>, i: int, j: int)
    ensures Mine(r + Tagged(bytes, i), j) == Mine(r, j) + if i == j then bytes else []
  {
    if bytes == [] {
      assert r + Tagged(bytes, i) == r;
    } else {
      var n := |bytes| - 1;
      MineAppend(r, bytes[..n], i, j);
      var all := r + Tagged(bytes, i);
      assert all[..|all| - 1] == r + Tagged(bytes[..n], i);
      assert bytes[..n] + [bytes[n]] == bytes;
    }
  }

  // A call's life --------------------------------------------------------------------------

  /** Call `j` is in progress before step `k`. */
  predicate Active(ss: seq<State>, ts: seq<Step>, k: nat, j: nat) {
    && j < k < |ss| && k <= |ts| && (ts[j].BeginWrite? || ts[j].BeginRead?)
    && ts[j].p < |ss[k].calls| && !ss[k].calls[ts[j].p].None? && CallOf(ts, ts[j].p, k) == j
  }

  /** Step `e` runs the writer of call `j` when it is killed or has no reader. */
  predicate CutOff(ss: seq<State>, ts: seq<Step>, e: nat, j: nat) {
    && Active(ss, ts, e, j) && e < |ts| && ts[e] == RunWriter(ts[j].p)
    && ts[j].p < |ss[e].killed| && (ss[e].killed[ts[j].p] || !ss[e].readOpen)
  }

  predicate WasCut(ss: seq<State>, ts: seq<Step>, k: nat, j: nat) {
    exists e :: j < e < k && CutOff(ss, ts, e, j)
  }

  /** A call in progress is the one its begin step says: a write has put its
      argument but for what it has yet to do; a read still wants all it asked for. */
  predicate OnTrack(ss: seq<State>, ts: seq<Step>, k: nat, j: nat)
    requires j < k < |ss| && k <= |ts|
  {
    var t := ts[j];
    && (t.BeginWrite? && Active(ss, ts, k, j) ==>
          ss[k].calls[t.p].Writing? && t.s == Mine(Stream(ss, ts, k), j) + ss[k].calls[t.p].todo)
    && (t.BeginWrite? && !Active(ss, ts, k, j) ==>
          Mine(Stream(ss, ts, k), j) == t.s || (Mine(Stream(ss, ts, k), j) < t.s && WasCut(ss, ts, k, j)))
    && (t.BeginRead? && Active(ss, ts, k, j) ==> ss[k].calls[t.p].Reading? && ss[k].calls[t.p].n == t.n)
  }

  /** Everyone in a call began it, and no byte is from a call not yet begun. */
  predicate AllBegan(ss: seq<State>, ts: seq<Step>, k: nat)
    requires k < |ss| && k <= |ts|
  {
    && (forall p :: 0 <= p < |ss[k].calls| && !ss[k].calls[p].None? ==> CallOf(ts, p, k) >= 0)
    && forall i :: 0 <= i < |Stream(ss, ts, k)| ==> BeganWrite(ts, k, Stream(ss, ts, k)[i].call)
  }

  predicate BeganWrite(ts: seq<Step>, k: nat, j: int) {
    0 <= j < k <= |ts| && ts[j].BeginWrite?
  }

  // One step ---------------------------------------------------------------------------------

  /** The same call, asleep or not. */
  predicate SameCall(c: Call, d: Call) {
    || (c.None? && d.None?)
    || (c.Writing? && d.Writing? && c.todo == d.todo)
    || (c.Reading? && d.Reading? && c.n == d.n)
  }

  predicate OthersSame(cs: seq<Call>, ds: seq<Call>, p: int) {
    |cs| == |ds| && forall i :: 0 <= i < |cs| && i != p ==> SameCall(cs[i], ds[i])
  }

  /** A stretch of pipewrite: some first bytes of those to do go in; the call ends
      when all did, or when it is cut off. */
  predicate Wrote(s: State, r: State, p: nat) {
    && p < |s.calls| == |r.calls| == |s.killed| && s.calls[p].Writing? && OthersSame(s.calls, r.calls, p)
    && var todo := s.calls[p].todo;
       exists m :: 0 <= m <= |todo| && r.put == s.put + todo[..m]
                   && (r.calls[p].None? ==> m == |todo| || s.killed[p] || !s.readOpen)
                   && (!r.calls[p].None? ==> r.calls[p].Writing? && r.calls[p].todo == todo[m..])
  }

  predicate StepPost(s: State, t: Step, r: State) {
    match t
    case BeginWrite(p, b) =>
      && p < |s.calls| == |r.calls| && s.calls[p].None? && r.calls[p].Writing? && r.calls[p].todo == b
      && OthersSame(s.calls, r.calls, p) && r.put == s.put
    case BeginRead(p, n) =>
      && p < |s.calls| == |r.calls| && s.calls[p].None? && r.calls[p].Reading? && r.calls[p].n == n
      && OthersSame(s.calls, r.calls, p) && r.put == s.put
    case RunWriter(p) => Wrote(s, r, p)
    case RunReader(p) =>
      && p < |s.calls| == |r.calls| && s.calls[p].Reading? && (r.calls[p].None? || SameCall(s.calls[p], r.calls[p]))
      && OthersSame(s.calls, r.calls, p) && r.put == s.put
    case _ => OthersSame(s.calls, r.calls, -1) && r.put == s.put
  }

  lemma WriterWrote(s: State, p: nat)
    requires FifoInv(s) && Enabled(s, RunWriter(p))
    ensures Wrote(s, Next(s, RunWriter(p)), p)
  {
    hide PutAll, Contents;
    var todo := s.calls[p].todo;
    var m := Min(|todo|, PIPESIZE - Count(s.ring));
    assert Next(s, RunWriter(p)).put == s.put + todo[..m];
  }

  lemma StepIs(s: State, t: Step)
    requires FifoInv(s) && Enabled(s, t)
    ensures StepPost(s, t, Next(s, t))
  {
    hide PutAll, Contents, GotAll;
    if t.RunWriter? {
      WriterWrote(s, t.p);
    }
  }

  /** What stays true of a call through a step that adds nothing of its own. */
  lemma KeptTrack(ss: seq<State>, ts: seq<Step>, k: nat, j: nat)
    requires j < k && k + 1 < |ss| && k < |ts| && OnTrack(ss, ts, k, j)
    requires Mine(Stream(ss, ts, k + 1), j) == Mine(Stream(ss, ts, k), j)
    requires Active(ss, ts, k + 1, j) ==>
               Active(ss, ts, k, j) && SameCall(ss[k].calls[ts[j].p], ss[k + 1].calls[ts[j].p])
    requires ts[j].BeginWrite? && Active(ss, ts, k, j) ==> Active(ss, ts, k + 1, j)
    ensures OnTrack(ss, ts, k + 1, j)
  {
    if WasCut(ss, ts, k, j) {
      var e :| j < e < k && CutOff(ss, ts, e, j);
      assert j < e < k + 1 && CutOff(ss, ts, e, j);
    }
  }

  lemma StreamNext(ss: seq<State>, ts: seq<Step>, k: nat, j: int)
    requires k + 1 < |ss| && k < |ts| && ss[k].put <= ss[k + 1].put
    ensures var i := if ts[k].RunWriter? then CallOf(ts, ts[k].p, k) else -1;
            Mine(Stream(ss, ts, k + 1), j)
            == Mine(Stream(ss, ts, k), j) + if i == j then Added(ss[k], ss[k + 1]) else []
  {
    MineAppend(Stream(ss, ts, k), Added(ss[k], ss[k + 1]), if ts[k].RunWriter? then CallOf(ts, ts[k].p, k) else -1, j);
  }

  lemma WriterTrack(ss: seq<State>, ts: seq<Step>, k: nat, j: nat)
    requires j < k && k + 1 < |ss| && k < |ts| && OnTrack(ss, ts, k, j) && AllBegan(ss, ts, k)
    requires ts[k].RunWriter? && Wrote(ss[k], ss[k + 1], ts[k].p)
    requires ts[j].BeginWrite? || ts[j].BeginRead?
    ensures OnTrack(ss, ts, k + 1, j)
  {
    var p := ts[k].p;
    StreamNext(ss, ts, k, j);
    if CallOf(ts, p, k) == j {
      assert Active(ss, ts, k, j);
      var todo := ss[k].calls[p].todo;
      var m := |ss[k + 1].put| - |ss[k].put|;
      assert Added(ss[k], ss[k + 1]) == todo[..m];
      assert todo == todo[..m] + todo[m..];
      if ss[k + 1].calls[p].None? && m < |todo| {
        assert CutOff(ss, ts, k, j);
      }
    } else {
      KeptTrack(ss, ts, k, j);
    }
  }

  lemma BeginTrack(ss: seq<State>, ts: seq<Step>, k: nat)
    requires k + 1 < |ss| && k < |ts| && AllBegan(ss, ts, k) && StepPost(ss[k], ts[k], ss[k + 1])
    requires ts[k].BeginWrite? || ts[k].BeginRead?
    ensures OnTrack(ss, ts, k + 1, k)
  {
    StreamNext(ss, ts, k, k);
    NoneYet(ts, k, Stream(ss, ts, k), k);
  }

  /** A call that begins later has nothing in the stream. */
  lemma {:induction false} NoneYet(ts: seq<Step>, k: nat, r: seq<Byte>, j: nat)
    requires forall i :: 0 <= i < |r| ==> BeganWrite(ts, k, r[i].call)
    requires j >= k
    ensures Mine(r, j) == []
  {
    if r != [] {
      NoneYet(ts, k, r[..|r| - 1], j);
    }
  }

  lemma TrackNext(ss: seq<State>, ts: seq<Step>, k: nat, j: nat)
    requires k + 1 < |ss| && k < |ts| && AllBegan(ss, ts, k) && StepPost(ss[k], ts[k], ss[k + 1])
    requires j <= k && (j < k ==> OnTrack(ss, ts, k, j)) && (ts[j].BeginWrite? || ts[j].BeginRead?)
    ensures OnTrack(ss, ts, k + 1, j)
  {
    hide Stream, Mine;
    if j == k {
      BeginTrack(ss, ts, k);
    } else if ts[k].RunWriter? {
      WriterTrack(ss, ts, k, j);
    } else {
      StreamNext(ss, ts, k, j);
      KeptTrack(ss, ts, k, j);
    }
  }

  lemma BeganNext(ss: seq<State>, ts: seq<Step>, k: nat)
    requires k + 1 < |ss| && k < |ts| && AllBegan(ss, ts, k) && StepPost(ss[k], ts[k], ss[k + 1])
    requires forall j :: 0 <= j < k && (ts[j].BeginWrite? || ts[j].BeginRead?) ==> OnTrack(ss, ts, k, j)
    ensures AllBegan(ss, ts, k + 1)
  {
    var l, cs := k + 1, ss[k + 1].calls;
    forall p | 0 <= p < |cs| && !cs[p].None? ensures CallOf(ts, p, l) >= 0 {
      CallerBegan(ss, ts, k, p);
    }
    var before, more := Stream(ss, ts, k), Added(ss[k], ss[k + 1]);
    if ts[k].RunWriter? {
      var j := CallOf(ts, ts[k].p, k);
      assert Active(ss, ts, k, j) && OnTrack(ss, ts, k, j);
      assert Stream(ss, ts, k + 1) == before + Tagged(more, j);
    } else {
      assert more == [];
      assert Stream(ss, ts, k + 1) == before;
    }
  }

  lemma CallerBegan(ss: seq<State>, ts: seq<Step>, k: nat, p: nat)
    requires k + 1 < |ss| && k < |ts| && AllBegan(ss, ts, k) && StepPost(ss[k], ts[k], ss[k + 1])
    requires p < |ss[k + 1].calls| && !ss[k + 1].calls[p].None?
    ensures CallOf(ts, p, k + 1) >= 0
  {
    hide Stream, Mine;
    if !Begins(ts[k], p) {
      assert !ss[k].calls[p].None?;
    }
  }

  // Over runs ----------------------------------------------------------------------------------

  ghost predicate CallsOk(ss: seq<State>, ts: seq<Step>, k: nat)
    requires k < |ss| && k <= |ts|
  {
    && AllBegan(ss, ts, k) && Values(Stream(ss, ts, k)) == ss[k].put
    && forall j :: 0 <= j < k && (ts[j].BeginWrite? || ts[j].BeginRead?) ==> OnTrack(ss, ts, k, j)
  }

  lemma {:induction false} CallsRun(ss: seq<State>, ts: seq<Step>, r: Ring, n: nat, k: nat)
    requires IsRun(ss, ts, r, n) && k < |ss|
    ensures CallsOk(ss, ts, k)
  {
    if k > 0 {
      var i := k - 1;
      CallsRun(ss, ts, r, n, i);
      RunInv(ss, ts, r, n, i);
      assert Linked(ss[i], ts[i], ss[i + 1]);
      StepIs(ss[i], ts[i]);
      hide CallsOk, StepPost, IsRun, Linked, FifoInv;
      CallsNext(ss, ts, i);
    }
  }

  lemma CallsNext(ss: seq<State>, ts: seq<Step>, k: nat)
    requires k + 1 < |ss| && k < |ts| && CallsOk(ss, ts, k) && StepPost(ss[k], ts[k], ss[k + 1])
    ensures CallsOk(ss, ts, k + 1)
  {
    hide OnTrack, AllBegan, Mine;
    BeganNext(ss, ts, k);
    var l := k + 1;
    forall j | 0 <= j < l && (ts[j].BeginWrite? || ts[j].BeginRead?) ensures OnTrack(ss, ts, l, j) {
      TrackNext(ss, ts, k, j);
    }
    StreamValues(ss, ts, k);
  }

  lemma StreamValues(ss: seq<State>, ts: seq<Step>, k: nat)
    requires k + 1 < |ss| && k < |ts| && StepPost(ss[k], ts[k], ss[k + 1]) && Values(Stream(ss, ts, k)) == ss[k].put
    ensures Values(Stream(ss, ts, k + 1)) == ss[k + 1].put
  {
    var more := Added(ss[k], ss[k + 1]);
    assert ss[k + 1].put == ss[k].put + more;
    assert Values(Stream(ss, ts, k + 1)) == Values(Stream(ss, ts, k)) + more;
  }

  /** In every state of every run the bytes stored are an interleaving of the
      arguments of the write calls. Each byte is from a call that has begun. The
      bytes of a call in progress are its argument up to what it has yet to do;
      those of a call that returned are all of its argument, or, if its writer was
      killed or had lost its readers, the beginning of it. */
  lemma WritesInterleave(ss: seq<State>, ts: seq<Step>, r: Ring, n: nat, k: nat, j: nat)
    requires IsRun(ss, ts, r, n) && j < k < |ss| && ts[j].BeginWrite?
    ensures Values(Stream(ss, ts, k)) == ss[k].put
    ensures forall i :: 0 <= i < |Stream(ss, ts, k)| ==> BeganWrite(ts, k, Stream(ss, ts, k)[i].call)
    ensures var sent := Mine(Stream(ss, ts, k), j);
            if Active(ss, ts, k, j) then ss[k].calls[ts[j].p].Writing? && sent + ss[k].calls[ts[j].p].todo == ts[j].s
            else sent == ts[j].s || (sent < ts[j].s && WasCut(ss, ts, k, j))
  {
    CallsRun(ss, ts, r, n, k);
  }

  /** The flags are what the steps so far say. */
  lemma {:induction false} FlagsFollow(ss: seq<State>, ts: seq<Step>, r: Ring, n: nat, k: nat)
    requires IsRun(ss, ts, r, n) && k < |ss|
    ensures ss[k].readOpen <==> CloseRead !in ts[..k]
    ensures ss[k].writeOpen <==> CloseWrite !in ts[..k]
    ensures |ss[k].killed| == n && forall p :: 0 <= p < n ==> (ss[k].killed[p] <==> Kill(p) in ts[..k])
  {
    if k > 0 {
      FlagsFollow(ss, ts, r, n, k - 1);
      assert Linked(ss[k - 1], ts[k - 1], ss[k - 1 + 1]);
      hide PutAll, GotAll, Contents, RingOk, Count;
      assert ts[..k] == ts[..k - 1] + [ts[k - 1]];
    }
  }

  /** A write returns when its last byte is in; or, with the ring full and more to
      put, when its process was killed or the read end closed; otherwise it sleeps. */
  lemma WriteReturns(ss: seq<State>, ts: seq<Step>, r: Ring, n: nat, k: nat, j: nat)
    requires IsRun(ss, ts, r, n) && j < k < |ts| && ts[j].BeginWrite? && Active(ss, ts, k, j)
    requires ts[k] == RunWriter(ts[j].p)
    ensures RingOk(ss[k].ring) && RingOk(ss[k + 1].ring)
    ensures var left := |ts[j].s| - |Mine(Stream(ss, ts, k), j)|;
            if Count(ss[k].ring) + left <= PIPESIZE then
              !Active(ss, ts, k + 1, j) && Mine(Stream(ss, ts, k + 1), j) == ts[j].s
            else
              && Full(ss[k + 1].ring)
              && (Active(ss, ts, k + 1, j) <==> Kill(ts[j].p) !in ts[..k] && CloseRead !in ts[..k])
              && (Active(ss, ts, k + 1, j) ==> ss[k + 1].calls[ts[j].p].asleep)
  {
    CallsRun(ss, ts, r, n, k);
    RunInv(ss, ts, r, n, k);
    RunInv(ss, ts, r, n, k + 1);
    FlagsFollow(ss, ts, r, n, k);
    assert Linked(ss[k], ts[k], ss[k + 1]);
    assert OnTrack(ss, ts, k, j);
    WriterEnds(ss[k], ts[j].p);
    hide Next, Linked, IsRun, Stream, Mine, CallsOk, Full, Count, RingOk, Contents, WritersOk, EndsOpen;
    StreamNext(ss, ts, k, j);
  }

  lemma WriterEnds(s: State, p: nat)
    requires FifoInv(s) && Enabled(s, RunWriter(p))
    ensures var r, todo := Next(s, RunWriter(p)), s.calls[p].todo;
            && |r.calls| == |s.calls| && s.put <= r.put
            && if Count(s.ring) + |todo| <= PIPESIZE then r.calls[p].None? && r.put == s.put + todo
               else
                 && Full(r.ring) && (r.calls[p].None? <==> s.killed[p] || !s.readOpen)
                 && (!r.calls[p].None? ==> r.calls[p].Writing? && r.calls[p].asleep)
  {
    RunWriterRing(s, p);
    hide PutAll, Contents;
    var todo := s.calls[p].todo;
    assert todo[..|todo|] == todo;
  }

  /** A read returns when it is killed before an empty pipe that can still fill,
      and otherwise with the first bytes there are, as many as it was asked for or
      all; none only if it was asked for none or the write end is closed. */
  lemma ReadReturns(ss: seq<State>, ts: seq<Step>, r: Ring, n: nat, k: nat, j: nat)
    requires IsRun(ss, ts, r, n) && j < k < |ts| && ts[j].BeginRead? && Active(ss, ts, k, j)
    requires ts[k] == RunReader(ts[j].p)
    ensures RingOk(ss[k].ring) && RingOk(ss[k + 1].ring)
    ensures var c, m := Contents(ss[k].ring), Min(ts[j].n, Count(ss[k].ring));
            if c == [] && CloseWrite !in ts[..k] then
              && ss[k + 1].taken == ss[k].taken && ss[k + 1].ring == ss[k].ring
              && (Active(ss, ts, k + 1, j) <==> Kill(ts[j].p) !in ts[..k])
              && (Active(ss, ts, k + 1, j) ==> ss[k + 1].calls[ts[j].p].asleep)
            else
              && !Active(ss, ts, k + 1, j) && ss[k + 1].taken == ss[k].taken + c[..m]
              && Contents(ss[k + 1].ring) == c[m..] && (m == 0 <==> ts[j].n == 0 || c == [])
  {
    FlagsFollow(ss, ts, r, n, k);
    CallsRun(ss, ts, r, n, k);
    RunInv(ss, ts, r, n, k);
    RunInv(ss, ts, r, n, k + 1);
    assert Linked(ss[k], ts[k], ss[k + 1]);
    FullIsFull(ss[k].ring);
    GotAllRemoves(ss[k].ring, Min(ts[j].n, Count(ss[k].ring)));
  }
}
