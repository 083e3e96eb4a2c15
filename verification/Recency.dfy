/** The cache's list is the order of last use, in every run of the log on the
    cache, so bget recycles the idle buffer unused for longest. */
module Recency {
  import opened Blocks
  import opened RedoLog
  import opened C = BufferCache
  import L = CachedLog

  /** The buffer a step releases, or -1. */
  function Freed(s: L.State, t: L.Step): int {
    match t
    case Release(b) => b
    case CommitRelease => if s.held.Leaving? && s.held.rs != [] then s.held.rs[0] else -1
    case _ => -1
  }

  predicate Unused(c: Cache, b: int) {
    0 <= b < |c.bufs| && c.bufs[b].refcnt == 0
  }

  /** When the buffer was last given up by its last user: the number of that
      step; before the first such step, by its place in the list at the start. */
  function LastUse(ss: seq<L.State>, ts: seq<L.Step>, k: nat, b: int): (u: int)
    requires k < |ss| && k <= |ts|
    ensures u < k
  {
    if k == 0 then (if b in ss[0].c.order then -1 - Position(ss[0].c.order, b) else -1)
    else if Freed(ss[k - 1], ts[k - 1]) == b && Unused(ss[k].c, b) then k - 1
    else LastUse(ss, ts, k - 1, b)
  }

  predicate ByLastUse(ss: seq<L.State>, ts: seq<L.Step>, k: nat)
    requires k < |ss| && k <= |ts|
  {
    var o := ss[k].c.order;
    forall i, j :: 0 <= i < j < |o| ==> LastUse(ss, ts, k, o[i]) > LastUse(ss, ts, k, o[j])
  }

  lemma {:induction false} PositionIs(order: seq<int>, k: nat)
    requires C.Distinct(order) && k < |order|
    ensures Position(order, order[k]) == k
  {
    if k > 0 {
      assert order[1..][k - 1] == order[k];
      PositionIs(order[1..], k - 1);
    }
  }

  lemma StartSorted(ss: seq<L.State>, ts: seq<L.Step>)
    requires |ss| > 0 && Shape(ss[0].c)
    ensures ByLastUse(ss, ts, 0)
  {
    var o := ss[0].c.order;
    forall i, j | 0 <= i < j < |o| ensures LastUse(ss, ts, 0, o[i]) > LastUse(ss, ts, 0, o[j]) {
      PositionIs(o, i);
      PositionIs(o, j);
    }
  }

  /** Steps other than a last release leave the list alone. */
  predicate Quiet(s: L.State, t: L.Step, r: L.State) {
    r.c.order == s.c.order && !Unused(r.c, Freed(s, t))
  }

  predicate LastRelease(s: L.State, t: L.Step, r: L.State) {
    var b := Freed(s, t);
    b in s.c.order && Unused(r.c, b) && r.c.order == [b] + Without(s.c.order, b)
  }

  lemma StepIs(s: L.State, t: L.Step)
    requires L.Enabled(s, t)
    ensures var r := L.Next(s, t); Shape(r.c) && (Quiet(s, t, r) || LastRelease(s, t, r))
  {
    var b := Freed(s, t);
    if t.Release? || t.CommitRelease? {
      ReleasedIs(s.c, b);
      MovedShape(s.c.order, b);
    }
  }

  lemma SortedNext(ss: seq<L.State>, ts: seq<L.Step>, k: nat)
    requires k + 1 < |ss| && k < |ts| && C.Distinct(ss[k].c.order) && ByLastUse(ss, ts, k)
    requires Quiet(ss[k], ts[k], ss[k + 1]) || LastRelease(ss[k], ts[k], ss[k + 1])
    ensures ByLastUse(ss, ts, k + 1)
  {
    var o, q := ss[k].c.order, ss[k + 1].c.order;
    if Quiet(ss[k], ts[k], ss[k + 1]) {
      forall i, j | 0 <= i < j < |q| ensures LastUse(ss, ts, k + 1, q[i]) > LastUse(ss, ts, k + 1, q[j]) {
        assert LastUse(ss, ts, k, o[i]) > LastUse(ss, ts, k, o[j]);
      }
    } else {
      var b := Freed(ss[k], ts[k]);
      var p := Position(o, b);
      WithoutOne(o, b);
      forall i, j | 0 <= i < j < |q| ensures LastUse(ss, ts, k + 1, q[i]) > LastUse(ss, ts, k + 1, q[j]) {
        var y := if j <= p then j - 1 else j;
        assert q[j] == o[y] && o[y] != b;
        if i > 0 {
          var x := if i <= p then i - 1 else i;
          assert q[i] == o[x] && o[x] != b;
          assert LastUse(ss, ts, k, o[x]) > LastUse(ss, ts, k, o[y]);
        }
      }
    }
  }

  lemma {:induction false} RunSorted(l: Layout, d: Disk, ss: seq<L.State>, ts: seq<L.Step>, k: nat)
    requires L.IsRun(l, d, ss, ts) && k < |ss|
    ensures Shape(ss[k].c) && ByLastUse(ss, ts, k)
  {
    if k == 0 {
      StartSorted(ss, ts);
    } else {
      RunSorted(l, d, ss, ts, k - 1);
      assert L.Enabled(ss[k - 1], ts[k - 1]) && ss[k - 1 + 1] == L.Next(ss[k - 1], ts[k - 1]);
      StepIs(ss[k - 1], ts[k - 1]);
      hide L.IsRun, L.Enabled, L.Next, Quiet, LastRelease, ByLastUse;
      SortedNext(ss, ts, k - 1);
    }
  }

  /** At any point of any run, bget of a block not in the cache finds no buffer
      exactly if none is idle, and otherwise takes the idle buffer whose last use
      is further back than that of every other. */
  lemma RecyclesLeastRecent(l: Layout, d: Disk, ss: seq<L.State>, ts: seq<L.Step>, k: nat, bno: int)
    requires L.IsRun(l, d, ss, ts) && k < |ss|
    requires forall i :: 0 <= i < |ss[k].c.bufs| ==> !Holds(ss[k].c.bufs[i], ROOTDEV, bno)
    ensures Shape(ss[k].c)
    ensures var c := ss[k].c; var b := Got(c, ROOTDEV, bno).1;
            && (b == -1 <==> forall x :: 0 <= x < NBUF ==> !Idle(c.bufs[x]))
            && (b != -1 ==> 0 <= b < NBUF && Idle(c.bufs[b]))
            && (b != -1 ==> forall x :: 0 <= x < NBUF && Idle(c.bufs[x]) && x != b ==>
                  LastUse(ss, ts, k, b) < LastUse(ss, ts, k, x))
  {
    RunSorted(l, d, ss, ts, k);
    hide L.IsRun, LastUse, Lookup, Recycle;
    var c := ss[k].c;
    forall x | 0 <= x < NBUF && Idle(c.bufs[x])
      ensures var j := Recycle(c, NBUF);
              j >= 0 && (x != c.order[j] ==> LastUse(ss, ts, k, c.order[j]) < LastUse(ss, ts, k, x))
    {
      LaterUsed(ss, ts, k, x);
    }
    GotVictim(c, bno);
  }

  lemma LaterUsed(ss: seq<L.State>, ts: seq<L.Step>, k: nat, x: int)
    requires k < |ss| && k <= |ts| && Shape(ss[k].c) && ByLastUse(ss, ts, k)
    requires 0 <= x < NBUF && Idle(ss[k].c.bufs[x])
    ensures var c := ss[k].c; var j := Recycle(c, NBUF);
            j >= 0 && (x != c.order[j] ==> LastUse(ss, ts, k, c.order[j]) < LastUse(ss, ts, k, x))
  {
    hide LastUse, Recycle;
    var c := ss[k].c;
    assert x in c.order;
    var i :| 0 <= i < NBUF && c.order[i] == x;
    var j := Recycle(c, NBUF);
    assert i <= j;
  }

  /** The buffer bget takes for a block not in the cache. */
  lemma GotVictim(c: Cache, bno: int)
    requires Shape(c) && forall i :: 0 <= i < |c.bufs| ==> !Holds(c.bufs[i], ROOTDEV, bno)
    ensures var j := Recycle(c, NBUF); Got(c, ROOTDEV, bno).1 == if j == -1 then -1 else c.order[j]
  {
    hide Recycle, Lookup;
  }
}
