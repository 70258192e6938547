/**
 fork, exit and wait never deadlock on their spinlocks, and wait_lock is held for a
 bounded number of steps (kernel/proc.c).
 */
module ExitProgress {
  import opened ExitWait

  /** In the middle of fork, exit or wait, and not asleep. */
  predicate Busy(pc: Pc) {
    !(pc.Free? || pc.New? || pc.Run? || pc.Parked? || pc.Asleep? || pc.Gone?)
  }

  /** What the process does next. */
  function NextStep(s: S, p: nat): Step
    requires Shape(s) && p < NPROC && Busy(s.proc[p].pc)
  {
    match s.proc[p].pc
    case Forking(_) => ForkParent(p)
    case Forked(_) => ForkRun(p)
    case ExitScan(_) => ExitVisit(p)
    case ExitWakeInit(_, _) => WakeInit(p)
    case ExitWakeParent(_) => WakeParent(p)
    case ExitLocked => SetZombie(p)
    case ExitZombie => ExitRelease(p)
    case ExitSwitch => Switch(p)
    case WaitScan(_, _, _) => WaitVisit(p, false)
    case WaitDecide(_, _) => WaitEnd(p)
    case SleepLocked(_) => SleepRelease(p)
    case SleepCommitted(_) => SleepMark(p)
    case Reacquire(_) => WaitAgain(p)
  }

  /** `p` spins on a lock that `q` holds: wait_lock, or the p->lock of `q`. */
  predicate WaitsFor(s: S, p: nat, q: nat)
    requires Shape(s) && p < NPROC && q < NPROC
  {
    q != p &&
    match s.proc[p].pc
    case Forking(_) => HoldsWait(s.proc[q].pc)
    case Reacquire(_) => HoldsWait(s.proc[q].pc)
    case ExitWakeInit(_, j) => q == j && HoldsOwn(s.proc[q].pc)
    case ExitWakeParent(j) => q == j && HoldsOwn(s.proc[q].pc)
    case WaitScan(i, _, _) => q == i && HoldsOwn(s.proc[q].pc)
    case _ => false
  }

  /** Can go on now. */
  predicate Goes(s: S, p: nat)
    requires Shape(s) && p < NPROC
  {
    Busy(s.proc[p].pc) && Enabled(s, NextStep(s, p))
  }

  /** Whoever cannot go on waits for somebody else's lock. */
  lemma StuckWaits(s: S, p: nat) returns (q: nat)
    requires Inv(s) && p < NPROC && Busy(s.proc[p].pc) && s.proc[p].st != RUNNABLE
    ensures q < NPROC && (Goes(s, p) || WaitsFor(s, p, q))
  {
    assert Each(s, p);
    var pc := s.proc[p].pc;
    q := p;
    if (pc.Forking? || pc.Reacquire?) && s.wl != NONE {
      q := s.wl;
      assert Each(s, q);
    } else if pc.ExitWakeInit? && pc.j < NPROC {
      q := pc.j;
    } else if pc.ExitWakeParent? && pc.j < NPROC {
      q := pc.j;
    } else if pc.WaitScan? && pc.i < NPROC {
      q := pc.i;
    }
  }

  /** A process that holds only its own lock goes on: it switches away or goes to sleep. */
  lemma OwnGoes(s: S, p: nat)
    requires Inv(s) && p < NPROC && HoldsOwn(s.proc[p].pc)
    ensures Goes(s, p)
  {
    assert Each(s, p);
  }

  /**
   No deadlock, in any state of any run: a process in the middle of fork, exit or wait
   that has a processor goes on, or it spins on a lock whose holder goes on, or whose
   holder spins on the lock of one that does.
   */
  lemma NoDeadlock(run: seq<S>, steps: seq<Step>, k: nat, p: nat) returns (q: nat)
    requires IsRun(run, steps) && k < |run| && Shape(run[k]) && p < NPROC
    requires Busy(run[k].proc[p].pc) && run[k].proc[p].st != RUNNABLE
    ensures q < NPROC && Goes(run[k], q)
    ensures q == p || WaitsFor(run[k], p, q)
            || exists r: nat :: r < NPROC && WaitsFor(run[k], p, r) && WaitsFor(run[k], r, q)
  {
    RunInv(run, steps, k);
    var s := run[k];
    q := StuckWaits(s, p);
    if Goes(s, p) { return p; }
    if !Goes(s, q) {
      var r := q;
      assert Each(s, r);
      if HoldsOwn(s.proc[r].pc) { OwnGoes(s, r); }
      q := StuckWaits(s, r);
      OwnGoes(s, q);
    }
  }

  /** A process that runs may begin to fork, to exit or to wait, the latter two once wait_lock is free. */
  lemma MayBegin(run: seq<S>, steps: seq<Step>, k: nat, p: nat, c: nat, t: Target)
    requires IsRun(run, steps) && k < |run| && Shape(run[k]) && p < NPROC && c < NPROC
    requires run[k].proc[p].pc == Run && run[k].proc[p].st != RUNNABLE
    ensures run[k].wl == NONE ==> Enabled(run[k], WaitBegin(p, t)) && (p != INIT ==> Enabled(run[k], ExitBegin(p)))
    ensures run[k].proc[c].st == UNUSED ==> Enabled(run[k], Fork(p, c))
  {
    RunInv(run, steps, k);
    assert Each(run[k], p);
  }

  // ---------- how long wait_lock is held ----------

  function Down(i: nat): nat {
    if i < NPROC then NPROC - i else 0
  }

  /** A bound on the steps that the holder of wait_lock takes until it gives it back. */
  function Rank(pc: Pc): nat {
    match pc
    case ExitScan(i) => Down(i) * (NPROC + 2) + NPROC + 4
    case ExitWakeInit(i, j) => Down(i + 1) * (NPROC + 2) + NPROC + 5 + Down(j)
    case ExitWakeParent(j) => Down(j) + 3
    case ExitLocked => 2
    case ExitZombie => 1
    case WaitScan(i, _, _) => Down(i) + 3
    case WaitDecide(_, _) => 2
    case SleepLocked(_) => 1
    case _ => 0
  }

  predicate Own(a: Step, p: nat) {
    Actor(a) == p && !a.Kill?
  }

  /** The holder gives the lock back or comes nearer to it; nobody else moves the holder. */
  lemma RankFalls(s: S, a: Step, p: nat)
    requires Inv(s) && Enabled(s, a) && p < NPROC && s.wl == p && Do(s, a).wl == p
    ensures Shape(Do(s, a)) && Rank(Do(s, a).proc[p].pc) + (if Own(a, p) then 1 else 0) <= Rank(s.proc[p].pc)
  {
    assert Each(s, p) && Each(s, Actor(a));
    if Own(a, p) { OwnFalls(s, a); } else { assert Do(s, a).proc[p].pc == s.proc[p].pc; }
  }

  lemma OwnFalls(s: S, a: Step)
    requires Shape(s) && Enabled(s, a) && !a.Kill? && HoldsWait(s.proc[Actor(a)].pc)
    requires s.proc[Actor(a)].st == RUNNING || s.proc[Actor(a)].st == ZOMBIE
    requires Do(s, a).wl == Actor(a)
    ensures Shape(Do(s, a)) && Rank(Do(s, a).proc[Actor(a)].pc) < Rank(s.proc[Actor(a)].pc)
  {
  }

  /** The steps that `p` takes itself, from `i` up to `k`. */
  function OwnSteps(steps: seq<Step>, p: nat, i: nat, k: nat): nat
    requires i <= k <= |steps|
    decreases k
  {
    if i == k then 0 else OwnSteps(steps, p, i, k - 1) + if Own(steps[k - 1], p) then 1 else 0
  }

  ghost predicate HoldsFrom(run: seq<S>, p: nat, i: nat, k: nat) {
    forall j :: i <= j <= k && j < |run| ==> run[j].wl == p
  }

  lemma {:induction false} RankOver(run: seq<S>, steps: seq<Step>, p: nat, i: nat, k: nat)
    requires IsRun(run, steps) && i <= k < |run| && p < NPROC && HoldsFrom(run, p, i, k)
    requires Shape(run[i]) && Shape(run[k])
    ensures OwnSteps(steps, p, i, k) + Rank(run[k].proc[p].pc) <= Rank(run[i].proc[p].pc)
    decreases k
  {
    if i < k {
      RunInv(run, steps, k - 1);
      RankOver(run, steps, p, i, k - 1);
      RankFalls(run[k - 1], steps[k - 1], p);
    }
  }

  /** wait_lock is held for at most so many steps of its holder, in any run: one scan with a wakeup for each child. */
  lemma LockIsGivenBack(run: seq<S>, steps: seq<Step>, p: nat, i: nat, k: nat)
    requires IsRun(run, steps) && i <= k < |run| && p < NPROC && HoldsFrom(run, p, i, k)
    ensures OwnSteps(steps, p, i, k) <= NPROC * (NPROC + 2) + NPROC + 4
  {
    RunInv(run, steps, i);
    RunInv(run, steps, k);
    RankOver(run, steps, p, i, k);
  }
}
