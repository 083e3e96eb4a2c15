/** exit, wait, wakeup and kill on the process table. Each runs with
    ptable.lock held, so between any two of them the lock is free. */
module WaitExit {

  datatype PState = UNUSED | EMBRYO | SLEEPING | RUNNABLE | RUNNING | ZOMBIE

  /** parent is an index into the table, -1 for none. chan is the sleep
      channel: a process waiting in wait sleeps on its own index; other
      channels are numbers outside the table. */
  datatype Proc = Proc(state: PState, parent: int, chan: int, killed: bool, pid: int)

  type Table = seq<Proc>

  predicate InWait(t: Table, w: int) {
    0 <= w < |t| && t[w].state == SLEEPING && t[w].chan == w
  }

  // The table after each operation ---------------------------------------------------------

  function Woken(p: Proc, chan: int): Proc {
    if p.state == SLEEPING && p.chan == chan then p.(state := RUNNABLE) else p
  }

  function Wakeup(t: Table, chan: int): (r: Table)
    ensures |r| == |t|
  {
    seq(|t|, i requires 0 <= i < |t| => Woken(t[i], chan))
  }

  predicate HasZombieChild(t: Table, cur: int) {
    exists c :: 0 <= c < |t| && t[c].parent == cur && t[c].state == ZOMBIE
  }

  /** What exit leaves: the parent woken, the children given to init, init woken
      if one of them is a zombie, and the caller a zombie. */
  function Exited(t: Table, cur: nat, init: nat): (r: Table)
    requires cur < |t| && init < |t|
    ensures |r| == |t|
  {
    var t1 := Wakeup(t, t[cur].parent);
    var t2 := if HasZombieChild(t, cur) then Wakeup(t1, init) else t1;
    var t3 := seq(|t|, i requires 0 <= i < |t| => if t2[i].parent == cur then t2[i].(parent := init) else t2[i]);
    t3[cur := t3[cur].(state := ZOMBIE)]
  }

  datatype WaitResult = Reaped(pid: int) | NoChild | Slept

  /** The first zombie child, or the table's length. */
  function FirstZombie(t: Table, cur: int, i: nat): (k: nat)
    requires i <= |t|
    ensures i <= k <= |t|
    ensures k < |t| ==> t[k].parent == cur && t[k].state == ZOMBIE
    ensures forall j :: i <= j < k ==> !(t[j].parent == cur && t[j].state == ZOMBIE)
    decreases |t| - i
  {
    if i == |t| then i
    else if t[i].parent == cur && t[i].state == ZOMBIE then i
    else FirstZombie(t, cur, i + 1)
  }

  predicate HasChild(t: Table, cur: int) {
    exists c :: 0 <= c < |t| && t[c].parent == cur
  }

  /** One pass of wait's loop. */
  function WaitOnce(t: Table, cur: nat): (r: (Table, WaitResult))
    requires cur < |t|
    ensures |r.0| == |t|
  {
    var k := FirstZombie(t, cur, 0);
    if k < |t| then (t[k := t[k].(pid := 0, parent := -1, killed := false, state := UNUSED)], Reaped(t[k].pid))
    else if !HasChild(t, cur) || t[cur].killed then (t, NoChild)
    else (t[cur := t[cur].(chan := cur, state := SLEEPING)], Slept)
  }

  // What they come to, slot by slot -------------------------------------------------------------

  /** The process wakes when `cur` exits: it sleeps on its parent's channel, or on
      init's and one of cur's children is a zombie. */
  predicate WokenByExit(t: Table, cur: nat, init: nat, i: nat)
    requires cur < |t| && i < |t|
  {
    t[i].state == SLEEPING && (t[i].chan == t[cur].parent || (t[i].chan == init && HasZombieChild(t, cur)))
  }

  /** exit: cur is a zombie and its children are init's; sleepers on two channels
      may run; every other field of every process is as it was. */
  predicate ExitPost(t: Table, cur: nat, init: nat, r: Table)
    requires cur < |t|
  {
    |r| == |t| && forall i :: 0 <= i < |t| ==> ExitSlot(t, cur, init, i, r[i])
  }

  predicate ExitSlot(t: Table, cur: nat, init: nat, i: nat, p: Proc)
    requires cur < |t| && i < |t|
  {
    && p.parent == (if t[i].parent == cur then init else t[i].parent)
    && p.state == (if i == cur then ZOMBIE else if WokenByExit(t, cur, init, i) then RUNNABLE else t[i].state)
    && p.pid == t[i].pid && p.killed == t[i].killed && p.chan == t[i].chan
  }

  /** Every slot but `k` is as it was. */
  predicate OnlyAt(t: Table, k: nat, r: Table) {
    |r| == |t| && forall i :: 0 <= i < |t| && i != k ==> r[i] == t[i]
  }

  predicate IsZombieChild(t: Table, cur: nat, k: nat) {
    k < |t| && t[k].parent == cur && t[k].state == ZOMBIE
  }

  /** One pass of wait: a zombie child, the first, is reaped and its pid returned
      and its slot free; else -1 without children or if killed; else asleep. */
  predicate WaitPost(t: Table, cur: nat, r: Table, w: WaitResult)
    requires cur < |t|
  {
    match w
    case Reaped(pid) =>
      exists k :: 0 <= k < |t| && IsZombieChild(t, cur, k) && (forall j :: 0 <= j < k ==> !IsZombieChild(t, cur, j))
                  && pid == t[k].pid && OnlyAt(t, k, r) && r[k] == Proc(UNUSED, -1, t[k].chan, false, 0)
    case NoChild => r == t && !HasZombieChild(t, cur) && (HasChild(t, cur) ==> t[cur].killed)
    case Slept =>
      && !HasZombieChild(t, cur) && HasChild(t, cur) && !t[cur].killed && OnlyAt(t, cur, r)
      && r[cur] == Proc(SLEEPING, t[cur].parent, cur, false, t[cur].pid)
  }

  lemma ExitedIs(t: Table, cur: nat, init: nat)
    requires cur < |t| && init < |t|
    ensures ExitPost(t, cur, init, Exited(t, cur, init))
  {
    hide HasZombieChild;
    forall i | 0 <= i < |t| ensures ExitSlot(t, cur, init, i, Exited(t, cur, init)[i]) {
      var w := Woken(t[i], t[cur].parent);
      assert Wakeup(t, t[cur].parent)[i] == w;
      assert Wakeup(Wakeup(t, t[cur].parent), init)[i] == Woken(w, init);
    }
  }

  lemma WaitOnceIs(t: Table, cur: nat)
    requires cur < |t|
    ensures WaitPost(t, cur, WaitOnce(t, cur).0, WaitOnce(t, cur).1)
  {
    var k := FirstZombie(t, cur, 0);
    if k < |t| {
      assert IsZombieChild(t, cur, k);
    }
  }

  // proc.c's loops ----------------------------------------------------------------------------

  class PTable {
    var t: array<Proc>
    const initproc: nat

    ghost predicate Valid()
      reads this, t
    {
      initproc < t.Length
    }

    constructor (n: nat, initproc: nat)
      requires initproc < n
      ensures Valid() && fresh(t) && this.initproc == initproc && t[..] == Boot(n, initproc)
    {
      this.initproc := initproc;
      t := new Proc[n](i => if i == initproc then Proc(RUNNABLE, -1, -1, false, 1) else Proc(UNUSED, -1, -1, false, 0));
    }

    method Wakeup1(chan: int)
      modifies t
      ensures t[..] == Wakeup(old(t[..]), chan)
    {
      for i := 0 to t.Length
        invariant forall j :: 0 <= j < i ==> t[j] == Woken(old(t[j]), chan)
        invariant forall j :: i <= j < t.Length ==> t[j] == old(t[j])
      {
        if t[i].state == SLEEPING && t[i].chan == chan {
          t[i] := t[i].(state := RUNNABLE);
        }
      }
    }

    /** exit from the acquire of ptable.lock on; init itself would panic. */
    method Exit(cur: nat)
      requires Valid() && cur < t.Length && cur != initproc
      modifies t
      ensures t[..] == Exited(old(t[..]), cur, initproc) && ExitPost(old(t[..]), cur, initproc, t[..])
    {
      ghost var t0 := t[..];
      Wakeup1(t[cur].parent);
      ghost var t1 := t[..];
      ghost var seen := false;
      for i := 0 to t.Length
        invariant seen <==> exists c :: 0 <= c < i && t0[c].parent == cur && t0[c].state == ZOMBIE
        invariant forall j :: 0 <= j < t.Length ==>
                    t[j] == var p := if seen then Woken(t1[j], initproc) else t1[j];
                            if j < i && p.parent == cur then p.(parent := initproc) else p
      {
        if t[i].parent == cur {
          t[i] := t[i].(parent := initproc);
          if t[i].state == ZOMBIE {
            seen := true;
            Wakeup1(initproc);
          }
        }
      }
      assert seen <==> HasZombieChild(t0, cur);
      t[cur] := t[cur].(state := ZOMBIE);
      ExitedIs(t0, cur, initproc);
    }

    /** wait, up to its return or its sleep. */
    method Wait(cur: nat) returns (r: WaitResult)
      requires cur < t.Length
      modifies t
      ensures (t[..], r) == WaitOnce(old(t[..]), cur) && WaitPost(old(t[..]), cur, t[..], r)
    {
      WaitOnceIs(t[..], cur);
      var haveKids := false;
      for p := 0 to t.Length
        invariant t[..] == old(t[..])
        invariant haveKids <==> exists c :: 0 <= c < p && t[c].parent == cur
        invariant p <= FirstZombie(t[..], cur, 0)
      {
        if t[p].parent == cur {
          haveKids := true;
          if t[p].state == ZOMBIE {
            var pid := t[p].pid;
            t[p] := t[p].(pid := 0, parent := -1, killed := false, state := UNUSED);
            return Reaped(pid);
          }
        }
      }
      if !haveKids || t[cur].killed {
        return NoChild;
      }
      t[cur] := t[cur].(chan := cur, state := SLEEPING);
      r := Slept;
    }

    /** kill: the first process with this pid is marked and, if asleep, woken. */
    method Kill(pid: int) returns (k: nat)
      modifies t
      ensures k <= t.Length
      ensures forall j :: 0 <= j < k ==> old(t[j]).pid != pid
      ensures k == t.Length ==> t[..] == old(t[..])
      ensures k < t.Length ==> old(t[k]).pid == pid && t[..] == Killed(old(t[..]), k)
      ensures k < t.Length ==> OnlyAt(old(t[..]), k, t[..]) && t[k].killed && t[k].state != SLEEPING
      ensures k < t.Length ==> t[k].parent == old(t[k].parent) && t[k].pid == pid && t[k].chan == old(t[k].chan)
      ensures k < t.Length && old(t[k].state) != SLEEPING ==> t[k].state == old(t[k].state)
      ensures k < t.Length && old(t[k].state) == SLEEPING ==> t[k].state == RUNNABLE
    {
      for p := 0 to t.Length
        invariant t[..] == old(t[..])
        invariant forall j :: 0 <= j < p ==> t[j].pid != pid
      {
        if t[p].pid == pid {
          t[p] := t[p].(killed := true);
          if t[p].state == SLEEPING {
            t[p] := t[p].(state := RUNNABLE);
          }
          return p;
        }
      }
      return t.Length;
    }
  }

  // Runs ---------------------------------------------------------------------------------------

  function Boot(n: nat, init: nat): (t: Table) {
    seq(n, i => if i == init then Proc(RUNNABLE, -1, -1, false, 1) else Proc(UNUSED, -1, -1, false, 0))
  }

  function Killed(t: Table, p: nat): (r: Table)
    requires p < |t|
    ensures |r| == |t|
  {
    t[p := t[p].(killed := true, state := if t[p].state == SLEEPING then RUNNABLE else t[p].state)]
  }

  datatype Step =
    | Alloc(c: nat, pid: int)          // allocproc
    | SetParent(p: nat, c: nat)        // fork, without the lock
    | Start(c: nat)                    // fork's last assignment, after that of parent
    | Schedule(p: nat)
    | Yield(p: nat)
    | SleepOn(p: nat, chan: int)       // any sleep but wait's
    | WakeOn(chan: int)                // any wakeup outside exit
    | DoExit(p: nat)
    | DoWait(p: nat)
    | DoKill(p: nat)

  predicate Enabled(t: Table, init: nat, s: Step) {
    match s
    case Alloc(c, _) => c < |t| && t[c].state == UNUSED
    case SetParent(p, c) => p < |t| && c < |t| && t[c].state == EMBRYO && t[p].state == RUNNING
    case Start(c) => c < |t| && t[c].state == EMBRYO && t[c].parent != -1
    case Schedule(p) => p < |t| && t[p].state == RUNNABLE
    case Yield(p) => p < |t| && t[p].state == RUNNING
    case SleepOn(p, chan) => p < |t| && t[p].state == RUNNING && !(0 <= chan < |t|)
    case WakeOn(_) => true
    case DoExit(p) => p < |t| && t[p].state == RUNNING && p != init
    case DoWait(p) => p < |t| && t[p].state == RUNNING
    case DoKill(p) => p < |t|
  }

  function Next(t: Table, init: nat, s: Step): (r: Table)
    requires init < |t| && Enabled(t, init, s)
    ensures |r| == |t|
  {
    match s
    case Alloc(c, pid) => t[c := t[c].(state := EMBRYO, pid := pid)]
    case SetParent(p, c) => t[c := t[c].(parent := p)]
    case Start(c) => t[c := t[c].(state := RUNNABLE)]
    case Schedule(p) => t[p := t[p].(state := RUNNING, chan := -1)]
    case Yield(p) => t[p := t[p].(state := RUNNABLE)]
    case SleepOn(p, chan) => t[p := t[p].(state := SLEEPING, chan := chan)]
    case WakeOn(chan) => Wakeup(t, chan)
    case DoExit(p) => Exited(t, p, init)
    case DoWait(p) => WaitOnce(t, p).0
    case DoKill(p) => Killed(t, p)
  }

  /** A process asleep in wait has no zombie child. */
  predicate WaitInv(t: Table) {
    forall w, c :: 0 <= w < |t| && 0 <= c < |t| && InWait(t, w) && t[c].parent == w ==> t[c].state != ZOMBIE
  }

  /** Nobody is its own parent, and init has none. */
  predicate ParentInv(t: Table, init: nat) {
    && init < |t| && t[init].parent == -1 && t[init].state !in {UNUSED, EMBRYO}
    && forall p :: 0 <= p < |t| ==> t[p].parent != p
  }

  predicate Alive(p: Proc) {
    p.state == SLEEPING || p.state == RUNNABLE || p.state == RUNNING
  }

  /** Parents are alive, and every process but init that has run has one; slots
      not in use have none. */
  predicate FamilyInv(t: Table, init: nat) {
    && init < |t| && Alive(t[init])
    && (forall c :: 0 <= c < |t| && t[c].state == UNUSED ==> t[c].parent == -1)
    && (forall c :: 0 <= c < |t| && t[c].parent != -1 ==> 0 <= t[c].parent < |t| && Alive(t[t[c].parent]))
    && forall c :: 0 <= c < |t| && c != init && t[c].state != UNUSED && t[c].state != EMBRYO ==> t[c].parent != -1
  }

  lemma FamilyExit(t: Table, cur: nat, init: nat)
    requires FamilyInv(t, init) && ParentInv(t, init) && cur < |t| && cur != init && t[cur].state == RUNNING
    ensures FamilyInv(Exited(t, cur, init), init)
  {
    hide Exited;
    var r := Exited(t, cur, init);
    ExitedIs(t, cur, init);
    forall i | 0 <= i < |t| ensures ExitSlot(t, cur, init, i, r[i]) && (i != cur ==> (Alive(r[i]) <==> Alive(t[i]))) {
    }
  }

  lemma FamilyNext(t: Table, init: nat, s: Step)
    requires FamilyInv(t, init) && ParentInv(t, init) && Enabled(t, init, s)
    ensures FamilyInv(Next(t, init, s), init)
  {
    hide Exited, WaitOnce;
    assert init < |t|;
    hide ParentInv, FamilyInv;
    if s.DoExit? {
      FamilyExit(t, s.p, init);
    } else if s.DoWait? {
      FamilyWait(t, s.p, init);
    } else {
      FamilyKept(t, Next(t, init, s), init);
    }
  }

  lemma FamilyWait(t: Table, cur: nat, init: nat)
    requires FamilyInv(t, init) && ParentInv(t, init) && cur < |t| && t[cur].state == RUNNING
    ensures FamilyInv(WaitOnce(t, cur).0, init)
  {
    hide WaitOnce;
    assert init < |t| && t[init].state != ZOMBIE;
    hide FamilyInv, ParentInv;
    WaitOnceIs(t, cur);
    FamilyKept(t, WaitOnce(t, cur).0, init);
  }

  /** Steps other than exit keep the living alive. */
  lemma FamilyKept(t: Table, r: Table, init: nat)
    requires FamilyInv(t, init) && |r| == |t|
    requires forall i :: 0 <= i < |t| && Alive(t[i]) ==> Alive(r[i])
    requires forall i :: 0 <= i < |t| ==>
               || (r[i].parent == t[i].parent && (r[i].state == t[i].state || r[i].state != UNUSED))
               || (r[i].parent == -1 && r[i].state == UNUSED && i != init)
               || (0 <= r[i].parent < |t| && Alive(r[r[i].parent]) && r[i].state == t[i].state == EMBRYO)
    requires forall i :: 0 <= i < |t| && (t[i].state == UNUSED || t[i].state == EMBRYO) && Alive(r[i]) ==>
               r[i].parent != -1
    requires forall i :: 0 <= i < |t| && r[i].state == ZOMBIE ==> t[i].state == ZOMBIE
    ensures FamilyInv(r, init)
  {
  }

  lemma ExitParents(t: Table, cur: nat, init: nat)
    requires ParentInv(t, init) && cur < |t| && cur != init && t[cur].state == RUNNING
    ensures ParentInv(Exited(t, cur, init), init)
  {
  }

  lemma ExitKeeps(t: Table, cur: nat, init: nat)
    requires WaitInv(t) && ParentInv(t, init) && cur < |t| && cur != init && t[cur].state == RUNNING
    ensures WaitInv(Exited(t, cur, init))
  {
    var r := Exited(t, cur, init);
    forall w, c | 0 <= w < |t| && 0 <= c < |t| && InWait(r, w) && r[c].parent == w
      ensures r[c].state != ZOMBIE
    {
      assert InWait(t, w) && w != t[cur].parent;
      if t[c].parent == cur {
        assert t[c].state == ZOMBIE ==> HasZombieChild(t, cur);
      } else {
        assert t[c].parent == w;
      }
    }
  }

  lemma WaitOnceKeeps(t: Table, cur: nat, init: nat)
    requires WaitInv(t) && ParentInv(t, init) && cur < |t| && t[cur].state == RUNNING
    ensures WaitInv(WaitOnce(t, cur).0) && ParentInv(WaitOnce(t, cur).0, init)
  {
    var k, r := FirstZombie(t, cur, 0), WaitOnce(t, cur).0;
    if k < |t| {
      assert k != init;
    }
    forall w, c | 0 <= w < |t| && 0 <= c < |t| && InWait(r, w) && r[c].parent == w
      ensures r[c].state != ZOMBIE
    {
      if w != cur {
        assert InWait(t, w);
      }
    }
  }

  lemma InvNext(t: Table, init: nat, s: Step)
    requires WaitInv(t) && ParentInv(t, init) && Enabled(t, init, s)
    ensures WaitInv(Next(t, init, s)) && ParentInv(Next(t, init, s), init)
  {
    match s
    case DoExit(p) => ExitParents(t, p, init); ExitKeeps(t, p, init);
    case DoWait(p) => WaitOnceKeeps(t, p, init);
    case _ =>
      var r := Next(t, init, s);
      forall w, c | 0 <= w < |t| && 0 <= c < |t| && InWait(r, w) && r[c].parent == w
        ensures r[c].state != ZOMBIE
      {
        assert InWait(t, w);
      }
  }

  ghost predicate IsRun(ts: seq<Table>, ss: seq<Step>, n: nat, init: nat) {
    && init < n
    && |ts| == |ss| + 1 && ts[0] == Boot(n, init)
    && forall i :: 0 <= i < |ss| ==> Linked(ts[i], ss[i], ts[i + 1], init)
  }

  predicate Linked(t: Table, s: Step, r: Table, init: nat) {
    init < |t| && Enabled(t, init, s) && r == Next(t, init, s)
  }

  lemma {:induction false} RunInv(ts: seq<Table>, ss: seq<Step>, n: nat, init: nat, k: nat)
    requires IsRun(ts, ss, n, init) && k < |ts|
    ensures WaitInv(ts[k]) && ParentInv(ts[k], init) && FamilyInv(ts[k], init)
  {
    if k > 0 {
      RunInv(ts, ss, n, init, k - 1);
      assert Linked(ts[k - 1], ss[k - 1], ts[k], init);
      InvNext(ts[k - 1], init, ss[k - 1]);
      FamilyNext(ts[k - 1], init, ss[k - 1]);
    }
  }

  /** No lost wakeup in wait: whenever ptable.lock is free, a process asleep in
      wait has no zombie child, be it its own or one that exit gave to init. */
  lemma WaiterHasNoZombie(ts: seq<Table>, ss: seq<Step>, n: nat, init: nat, k: nat, w: nat, c: nat)
    requires IsRun(ts, ss, n, init) && k < |ts| && w < |ts[k]| && c < |ts[k]|
    requires InWait(ts[k], w) && ts[k][c].parent == w
    ensures ts[k][c].state != ZOMBIE
  {
    RunInv(ts, ss, n, init, k);
  }

  /** Nobody is lost: whenever ptable.lock is free, every process but init that
      has run, zombies included, has a parent that is alive and can reap it, and no
      process is the child of a slot that is free or a zombie. */
  lemma ParentsAlive(ts: seq<Table>, ss: seq<Step>, n: nat, init: nat, k: nat, c: nat)
    requires IsRun(ts, ss, n, init) && k < |ts| && c < |ts[k]|
    ensures var t := ts[k];
            && (t[c].parent != -1 ==> 0 <= t[c].parent < |t| && Alive(t[t[c].parent]))
            && (t[c].parent == -1 ==> c == init || t[c].state == UNUSED || t[c].state == EMBRYO)
  {
    RunInv(ts, ss, n, init, k);
  }
}
