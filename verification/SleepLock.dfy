/** Sleep locks at the grain of single lock operations: acquiresleep and
    releasesleep over sleep and wakeup, with both spinlocks visible. */
module SleepLock {

  /** Where a process is. The comment gives the spinlocks it holds there. */
  datatype Pc =
    | Out        // not using the lock
    | WantLk     // acquiresleep, or waking up in sleep: spinning on lk->lk
    | Test       // lk: at the while
    | WantPt     // lk: sleep has been called, spinning on ptable.lock
    | DropLk     // lk, ptable: about to release lk->lk
    | SetState   // ptable: about to become SLEEPING
    | Sched      // ptable: SLEEPING, in sched
    | Asleep     // SLEEPING
    | Woken      // RUNNABLE again
    | Resume     // ptable: back from sched
    | Hold       // acquiresleep has returned
    | RelWant    // releasesleep: spinning on lk->lk
    | RelSet     // lk: about to clear locked
    | WakeWant   // lk: wakeup, spinning on ptable.lock
    | WakeDo     // lk, ptable: about to run wakeup1
    | WakeDone   // lk, ptable: wakeup1 has run
    | RelDone    // lk: about to release lk->lk

  predicate HasLk(c: Pc) {
    c.Test? || c.WantPt? || c.DropLk? || c.RelSet? || c.WakeWant? || c.WakeDo? || c.WakeDone? || c.RelDone?
  }

  predicate HasPt(c: Pc) {
    c.DropLk? || c.SetState? || c.Sched? || c.Resume? || c.WakeDo? || c.WakeDone?
  }

  /** p->state == SLEEPING with p->chan == lk. */
  predicate Sleeping(c: Pc) {
    c.Sched? || c.Asleep?
  }

  /** Has found the lock taken and not been woken since. */
  predicate Waiting(c: Pc) {
    c.WantPt? || c.DropLk? || c.SetState? || Sleeping(c)
  }

  /** Holds the sleep lock. */
  predicate Owns(c: Pc) {
    c.Hold? || c.RelWant? || c.RelSet?
  }

  /** `lk` and `pt` say which process holds each spinlock, -1 for none; other
      kernel code may hold ptable.lock, shown as -2. */
  datatype State = State(locked: bool, lk: int, pt: int, pc: seq<Pc>)

  datatype Step =
    | Move(p: nat)       // the process's next instruction
    | Release(p: nat)    // the owner calls releasesleep
    | Kill(p: nat)       // kill() makes a sleeper runnable
    | PtTaken            // other kernel code and ptable.lock
    | PtDropped

  predicate Enabled(s: State, t: Step) {
    match t
    case Move(p) =>
      && p < |s.pc| && !s.pc[p].Asleep? && !s.pc[p].Hold?
      && (s.pc[p].WantLk? || s.pc[p].RelWant? ==> s.lk == -1)
      && (s.pc[p].WantPt? || s.pc[p].Woken? || s.pc[p].WakeWant? ==> s.pt == -1)
    case Release(p) => p < |s.pc| && s.pc[p].Hold?
    case Kill(p) => p < |s.pc| && s.pc[p].Asleep? && s.pt == -1
    case PtTaken => s.pt == -1
    case PtDropped => s.pt == -2
  }

  /** wakeup1: every process sleeping on the lock becomes runnable. */
  function WakeAll(pc: seq<Pc>): (r: seq<Pc>)
    ensures |r| == |pc|
  {
    seq(|pc|, i requires 0 <= i < |pc| => if pc[i].Asleep? then Woken else pc[i])
  }

  function At(s: State, p: nat, c: Pc): State
    requires p < |s.pc|
  {
    s.(pc := s.pc[p := c])
  }

  function Moved(s: State, p: nat): (r: State)
    requires p < |s.pc|
  {
    match s.pc[p]
    case Out => At(s, p, WantLk)
    case WantLk => At(s, p, Test).(lk := p)
    case Test => if s.locked then At(s, p, WantPt) else At(s, p, Hold).(locked := true, lk := -1)
    case WantPt => At(s, p, DropLk).(pt := p)
    case DropLk => At(s, p, SetState).(lk := -1)
    case SetState => At(s, p, Sched)
    case Sched => At(s, p, Asleep).(pt := -1)
    case Asleep => s
    case Woken => At(s, p, Resume).(pt := p)
    case Resume => At(s, p, WantLk).(pt := -1)
    case Hold => s
    case RelWant => At(s, p, RelSet).(lk := p)
    case RelSet => At(s, p, WakeWant).(locked := false)
    case WakeWant => At(s, p, WakeDo).(pt := p)
    case WakeDo => s.(pc := WakeAll(s.pc)[p := WakeDone])
    case WakeDone => At(s, p, RelDone).(pt := -1)
    case RelDone => At(s, p, Out).(lk := -1)
  }

  function Next(s: State, t: Step): (r: State)
    requires Enabled(s, t)
  {
    match t
    case Move(p) => Moved(s, p)
    case Release(p) => At(s, p, RelWant)
    case Kill(p) => At(s, p, Woken)
    case PtTaken => s.(pt := -2)
    case PtDropped => s.(pt := -1)
  }

  function Init(n: nat): (s: State) {
    State(false, -1, -1, seq(n, _ => Out))
  }

  // Invariant ------------------------------------------------------------------------------

  /** Spinlock holders are the processes at the right places, so one at a time. */
  predicate LocksInv(s: State) {
    && (forall p :: 0 <= p < |s.pc| ==> (HasLk(s.pc[p]) <==> s.lk == p))
    && (forall p :: 0 <= p < |s.pc| ==> (HasPt(s.pc[p]) <==> s.pt == p))
    && -1 <= s.lk < |s.pc| && -2 <= s.pt < |s.pc|
  }

  /** Exactly one owner when locked, none when not. */
  predicate OwnerInv(s: State) {
    && (forall p :: 0 <= p < |s.pc| && Owns(s.pc[p]) ==> s.locked)
    && (forall p, q :: 0 <= p < q < |s.pc| ==> !(Owns(s.pc[p]) && Owns(s.pc[q])))
    && (s.locked ==> exists p :: 0 <= p < |s.pc| && Owns(s.pc[p]))
  }

  /** Whoever waits, waits for an owner or for a wakeup already under way. */
  predicate WaitInv(s: State) {
    forall p :: 0 <= p < |s.pc| && Waiting(s.pc[p]) ==> s.locked || WakeupDue(s)
  }

  predicate WakeupDue(s: State) {
    0 <= s.lk < |s.pc| && (s.pc[s.lk].WakeWant? || s.pc[s.lk].WakeDo?)
  }

  predicate Inv(s: State) {
    LocksInv(s) && OwnerInv(s) && WaitInv(s)
  }

  /** A step moves one process; wakeup1 also turns sleepers into runnable ones. */
  lemma MovedOthers(s: State, p: nat, q: nat)
    requires p < |s.pc| && q < |s.pc| && p != q
    ensures var r := Moved(s, p);
            && |r.pc| == |s.pc|
            && (r.pc[q] == s.pc[q] || (s.pc[q].Asleep? && r.pc[q].Woken?))
  {
  }

  lemma MovedLocks(s: State, p: nat)
    requires LocksInv(s) && Enabled(s, Move(p))
    ensures var r := Moved(s, p);
            && |r.pc| == |s.pc|
            && (HasLk(r.pc[p]) <==> r.lk == p) && (HasPt(r.pc[p]) <==> r.pt == p)
            && (r.lk == s.lk || (s.lk == -1 && r.lk == p) || (s.lk == p && r.lk == -1))
            && (r.pt == s.pt || (s.pt == -1 && r.pt == p) || (s.pt == p && r.pt == -1))
  {
  }

  lemma LocksMove(s: State, p: nat)
    requires LocksInv(s) && Enabled(s, Move(p))
    ensures LocksInv(Moved(s, p))
  {
    var r := Moved(s, p);
    MovedLocks(s, p);
    forall q | 0 <= q < |s.pc| && q != p
      ensures (HasLk(r.pc[q]) <==> r.lk == q) && (HasPt(r.pc[q]) <==> r.pt == q)
    {
      MovedOthers(s, p, q);
    }
  }

  lemma LocksNext(s: State, t: Step)
    requires LocksInv(s) && Enabled(s, t)
    ensures LocksInv(Next(s, t))
  {
    if t.Move? {
      LocksMove(s, t.p);
    }
  }

  /** Ownership changes only when a process takes the lock or clears it. */
  lemma MovedOwner(s: State, p: nat)
    requires LocksInv(s) && OwnerInv(s) && Enabled(s, Move(p))
    ensures var r := Moved(s, p);
            && |r.pc| == |s.pc|
            && (r.locked ==> s.locked || Owns(r.pc[p]))
            && (Owns(r.pc[p]) ==> r.locked && (Owns(s.pc[p]) || !s.locked))
            && (Owns(s.pc[p]) ==> Owns(r.pc[p]) || !r.locked)
            && (s.locked && !r.locked ==> Owns(s.pc[p]))
  {
  }

  lemma OwnerMove(s: State, p: nat)
    requires LocksInv(s) && OwnerInv(s) && Enabled(s, Move(p))
    ensures OwnerInv(Moved(s, p))
  {
    var r := Moved(s, p);
    MovedOwner(s, p);
    forall q | 0 <= q < |s.pc| && q != p ensures Owns(r.pc[q]) <==> Owns(s.pc[q]) {
      MovedOthers(s, p, q);
    }
    if r.locked {
      if Owns(r.pc[p]) {
      } else {
        var q :| 0 <= q < |s.pc| && Owns(s.pc[q]);
        assert Owns(r.pc[q]);
      }
    }
  }

  lemma OwnerNext(s: State, t: Step)
    requires LocksInv(s) && OwnerInv(s) && Enabled(s, t)
    ensures OwnerInv(Next(s, t))
  {
    if t.Move? {
      OwnerMove(s, t.p);
    } else if s.locked {
      var q :| 0 <= q < |s.pc| && Owns(s.pc[q]);
      assert Owns(Next(s, t).pc[q]);
    }
  }

  lemma WaitNext(s: State, t: Step)
    requires Inv(s) && Enabled(s, t)
    ensures WaitInv(Next(s, t))
  {
    if t.Move? {
      WaitMove(s, t.p);
    }
  }

  lemma WaitMove(s: State, p: nat)
    requires Inv(s) && Enabled(s, Move(p))
    ensures WaitInv(Moved(s, p))
  {
    hide OwnerInv;
    var r := Moved(s, p);
    forall q | 0 <= q < |r.pc| && Waiting(r.pc[q]) ensures r.locked || WakeupDue(r) {
      if q != p {
        MovedOthers(s, p, q);
      }
    }
  }

  ghost predicate IsRun(ss: seq<State>, ts: seq<Step>, n: nat) {
    && |ss| == |ts| + 1 && ss[0] == Init(n)
    && forall i :: 0 <= i < |ts| ==> Enabled(ss[i], ts[i]) && ss[i + 1] == Next(ss[i], ts[i])
  }

  lemma {:induction false} RunInv(ss: seq<State>, ts: seq<Step>, n: nat, k: nat)
    requires IsRun(ss, ts, n) && k < |ss|
    ensures Inv(ss[k])
  {
    if k > 0 {
      RunInv(ss, ts, n, k - 1);
      assert Enabled(ss[k - 1], ts[k - 1]);
      LocksNext(ss[k - 1], ts[k - 1]);
      OwnerNext(ss[k - 1], ts[k - 1]);
      WaitNext(ss[k - 1], ts[k - 1]);
    }
  }

  /** At most one process holds the sleep lock, at every point of every run. */
  lemma MutualExclusion(ss: seq<State>, ts: seq<Step>, n: nat, k: nat, p: nat, q: nat)
    requires IsRun(ss, ts, n) && k < |ss|
    requires p < |ss[k].pc| && q < |ss[k].pc| && Owns(ss[k].pc[p]) && Owns(ss[k].pc[q])
    ensures p == q && ss[k].locked
  {
    RunInv(ss, ts, n, k);
  }

  /** No lost wakeup: whenever lk->lk is free, a process asleep on the lock means
      the lock is taken, by a process that has its releasesleep still to come. */
  lemma NoLostWakeup(ss: seq<State>, ts: seq<Step>, n: nat, k: nat, p: nat)
    requires IsRun(ss, ts, n) && k < |ss|
    requires p < |ss[k].pc| && Sleeping(ss[k].pc[p]) && ss[k].lk == -1
    ensures ss[k].locked
    ensures exists q :: 0 <= q < |ss[k].pc| && (ss[k].pc[q].Hold? || ss[k].pc[q].RelWant?)
  {
    RunInv(ss, ts, n, k);
    var q :| 0 <= q < |ss[k].pc| && Owns(ss[k].pc[q]);
    assert !HasLk(ss[k].pc[q]);
  }
}
