/**
 exit and wait in kernel/proc.c as a protocol: processes step one at a time, each step
 being what happens under the locks it holds.  A spinlock taken and given back within
 one step is not shown; the step waits until nobody holds it.
 */
module ExitWait {

  const NPROC: nat := 64
  const INIT: nat := 0                     // initproc
  const NONE: int := -1

  datatype PState = UNUSED | USED | SLEEPING | RUNNABLE | RUNNING | ZOMBIE

  /** Which children a waiter waits for: any (kwait), or the one with a pid (kwaitpid). */
  datatype Target = AnyChild | Pid(pid: nat)

  /** Where a process is in the kernel. */
  datatype Pc =
    | Free                                 // the slot is not in use
    | New                                  // allocated by a fork that has not finished
    | Run                                  // user code or elsewhere in the kernel
    | Parked                               // asleep on some other channel
    | Forking(c: nat)                      // kfork, the child has no parent yet
    | Forked(c: nat)                       // kfork, p->parent is set
    | ExitScan(i: nat)                     // reparent, wait_lock held
    | ExitWakeInit(i: nat, j: nat)         // its wakeup(initproc)
    | ExitWakeParent(j: nat)               // wakeup(p->parent)
    | ExitLocked                           // p->lock and wait_lock held
    | ExitZombie                           // the same, and ZOMBIE
    | ExitSwitch                           // only p->lock held, on the way into swtch
    | Gone                                 // off its stack
    | WaitScan(i: nat, found: bool, t: Target)
    | WaitDecide(found: bool, t: Target)
    | SleepLocked(t: Target)               // sleep, p->lock and wait_lock held
    | SleepCommitted(t: Target)            // only p->lock held
    | Asleep(t: Target)                    // switched away, sleeping on its own proc as channel
    | Reacquire(t: Target)                 // woken, about to take wait_lock again

  datatype Proc = Proc(st: PState, pc: Pc, chan: int, parent: int, killed: bool, pid: nat)

  /** proc[], and who holds wait_lock. */
  datatype S = S(proc: seq<Proc>, nextpid: nat, wl: int)

  predicate HoldsWait(pc: Pc) {
    pc.ExitScan? || pc.ExitWakeInit? || pc.ExitWakeParent? || pc.ExitLocked? || pc.ExitZombie? || pc.WaitScan?
        || pc.WaitDecide? || pc.SleepLocked?
  }

  /** The process holds its own p->lock. */
  predicate HoldsOwn(pc: Pc) {
    pc.ExitLocked? || pc.ExitZombie? || pc.ExitSwitch? || pc.SleepLocked? || pc.SleepCommitted?
  }

  datatype Step =
    | Fork(p: nat, c: nat) | ForkFail(p: nat) | ForkParent(p: nat) | ForkRun(p: nat)
    | Park(p: nat) | Unpark(p: nat) | Kill(q: nat) | Yield(p: nat) | Dispatch(p: nat)
    | ExitBegin(p: nat) | ExitVisit(p: nat) | WakeInit(p: nat) | WakeParent(p: nat) | SetZombie(p: nat)
        | ExitRelease(p: nat) | Switch(p: nat)
    | WaitBegin(p: nat, t: Target) | WaitVisit(p: nat, bad: bool) | WaitEnd(p: nat) | SleepRelease(p: nat)
        | SleepMark(p: nat) | WaitAgain(p: nat)

  predicate Shape(s: S) {
    |s.proc| == NPROC
  }

  predicate Runs(s: S, p: nat)
    requires Shape(s)
  {
    p < NPROC && s.proc[p].st == RUNNING
  }

  function Actor(a: Step): nat {
    match a
    case Kill(q) => q
    case Fork(p, _) => p
    case WaitBegin(p, _) => p
    case WaitVisit(p, _) => p
    case _ => a.p
  }

  predicate Enabled(s: S, a: Step)
    requires Shape(s)
  {
    Actor(a) < NPROC &&
    match a
    case Fork(p, c) => Runs(s, p) && s.proc[p].pc == Run && c < NPROC && s.proc[c].st == UNUSED
    case ForkFail(p) => Runs(s, p) && s.proc[p].pc.Forking?
    case ForkParent(p) => Runs(s, p) && s.proc[p].pc.Forking? && s.wl == NONE
    case ForkRun(p) => Runs(s, p) && s.proc[p].pc.Forked?
    case Park(p) => Runs(s, p) && s.proc[p].pc == Run
    case Unpark(p) => s.proc[p].st == SLEEPING && s.proc[p].pc == Parked
    case Kill(q) => !HoldsOwn(s.proc[q].pc)
    case Yield(p) => Runs(s, p)
        && (s.proc[p].pc == Run || s.proc[p].pc.Reacquire? || s.proc[p].pc.Forking? || s.proc[p].pc.Forked?)
    case Dispatch(p) => s.proc[p].st == RUNNABLE
    case ExitBegin(p) => Runs(s, p) && s.proc[p].pc == Run && p != INIT && s.wl == NONE
    case ExitVisit(p) => Runs(s, p) && s.proc[p].pc.ExitScan?
    case WakeInit(p) => Runs(s, p) && s.proc[p].pc.ExitWakeInit? && Visitable(s, p, s.proc[p].pc.j)
    case WakeParent(p) => Runs(s, p) && s.proc[p].pc.ExitWakeParent? && Visitable(s, p, s.proc[p].pc.j)
    case SetZombie(p) => Runs(s, p) && s.proc[p].pc.ExitLocked?
    case ExitRelease(p) => s.proc[p].pc.ExitZombie?
    case Switch(p) => s.proc[p].pc.ExitSwitch?
    case WaitBegin(p, t) => Runs(s, p) && s.proc[p].pc == Run && s.wl == NONE
    case WaitVisit(p, bad) => Runs(s, p) && s.proc[p].pc.WaitScan?
        && (s.proc[p].pc.i < NPROC ==> !Locks(s, p, s.proc[p].pc.i) || !HoldsOwn(s.proc[s.proc[p].pc.i].pc))
    case WaitEnd(p) => Runs(s, p) && s.proc[p].pc.WaitDecide?
    case SleepRelease(p) => Runs(s, p) && s.proc[p].pc.SleepLocked?
    case SleepMark(p) => Runs(s, p) && s.proc[p].pc.SleepCommitted?
    case WaitAgain(p) => Runs(s, p) && s.proc[p].pc.Reacquire? && s.wl == NONE
  }

  /** wakeup can take the lock of process `j`, or skips it. */
  predicate Visitable(s: S, p: nat, j: nat)
    requires Shape(s)
  {
    j < NPROC && j != p ==> !HoldsOwn(s.proc[j].pc)
  }

  /** Whether the wait loop takes the lock of process `i`: kwait only for its children, kwaitpid always. */
  predicate Locks(s: S, p: nat, i: nat)
    requires Shape(s) && p < NPROC && i < NPROC && s.proc[p].pc.WaitScan?
  {
    s.proc[p].pc.t.Pid? || s.proc[i].parent == p
  }

  /** One visit of wakeup(chan). */
  function Woken(s: S, p: nat, j: nat, chan: int): S
    requires Shape(s)
  {
    if j < NPROC && j != p && s.proc[j].st == SLEEPING
        && s.proc[j].chan == chan then Set(s, j, s.proc[j].(st := RUNNABLE)) else s
  }

  function Set(s: S, p: nat, x: Proc): S
    requires Shape(s) && p < NPROC
  {
    s.(proc := s.proc[p := x])
  }

  function At(s: S, p: nat, pc: Pc): S
    requires Shape(s) && p < NPROC
  {
    Set(s, p, s.proc[p].(pc := pc))
  }

  /** freeproc */
  function Freed(s: S, c: nat): S
    requires Shape(s) && c < NPROC
  {
    Set(s, c, Proc(UNUSED, Free, NONE, NONE, false, 0))
  }

  function Do(s: S, a: Step): S
    requires Shape(s) && Enabled(s, a)
  {
    var x := s.proc[Actor(a)];
    match a
    case Fork(p, c) => At(Set(s, c, s.proc[c].(st := USED, pc := New, pid := s.nextpid)), p, Forking(c)).(nextpid :=
        s.nextpid + 1)
    case ForkFail(p) => if x.pc.c < NPROC then At(Freed(s, x.pc.c), p, Run) else s
    case ForkParent(p) => if x.pc.c < NPROC then At(Set(s, x.pc.c, s.proc[x.pc.c].(parent := p)), p, Forked(x.pc.c))
        else s
    case ForkRun(p) => if x.pc.c < NPROC then At(Set(s, x.pc.c, s.proc[x.pc.c].(st := RUNNABLE, pc := Run)), p, Run)
        else s
    case Park(p) => Set(s, p, x.(st := SLEEPING, pc := Parked, chan := NPROC))
    case Unpark(p) => Set(s, p, x.(st := RUNNABLE))
    case Kill(q) => Set(s, q, x.(killed := true, st := if x.st == SLEEPING then RUNNABLE else x.st))
    case Yield(p) => Set(s, p, x.(st := RUNNABLE))
    case Dispatch(p) => Set(s, p, Resumed(x))
    case ExitBegin(p) => At(s, p, ExitScan(0)).(wl := p)
    case ExitVisit(p) =>
      var i := x.pc.i;
      if i >= NPROC then At(s, p, ExitWakeParent(0))
      else if s.proc[i].parent == p then At(Set(s, i, s.proc[i].(parent := INIT)), p, ExitWakeInit(i, 0))
      else At(s, p, ExitScan(i + 1))
    case WakeInit(p) => if x.pc.j >= NPROC then At(s, p, ExitScan(x.pc.i + 1))
        else At(Woken(s, p, x.pc.j, INIT), p, ExitWakeInit(x.pc.i, x.pc.j + 1))
    case WakeParent(p) => if x.pc.j >= NPROC then At(s, p, ExitLocked)
        else At(Woken(s, p, x.pc.j, x.parent), p, ExitWakeParent(x.pc.j + 1))
    case SetZombie(p) => Set(s, p, x.(st := ZOMBIE, pc := ExitZombie))
    case ExitRelease(p) => At(s, p, ExitSwitch).(wl := NONE)
    case Switch(p) => At(s, p, Gone)
    case WaitBegin(p, t) => At(s, p, WaitScan(0, false, t)).(wl := p)
    case WaitVisit(p, bad) => Visit(s, p, bad)
    case WaitEnd(p) => if !x.pc.found || x.killed then At(s, p, Run).(wl := NONE) else At(s, p, SleepLocked(x.pc.t))
    case SleepRelease(p) => At(s, p, SleepCommitted(x.pc.t)).(wl := NONE)
    case SleepMark(p) => Set(s, p, x.(st := SLEEPING, chan := p, pc := Asleep(x.pc.t)))
    case WaitAgain(p) => At(s, p, WaitScan(0, false, x.pc.t)).(wl := p)
  }

  /** The scheduler runs the process, which tidies up after a sleep. */
  function Resumed(x: Proc): Proc {
    match x.pc
    case Asleep(t) => x.(st := RUNNING, chan := NONE, pc := Reacquire(t))
    case Parked => x.(st := RUNNING, chan := NONE, pc := Run)
    case _ => x.(st := RUNNING)
  }

  /** One round of the scan in kwait or kwaitpid; `bad` says that copying out the status fails. */
  function Visit(s: S, p: nat, bad: bool): S
    requires Shape(s) && p < NPROC && s.proc[p].pc.WaitScan?
  {
    var i, found, t := s.proc[p].pc.i, s.proc[p].pc.found, s.proc[p].pc.t;
    if i >= NPROC then At(s, p, WaitDecide(found, t))
    else
      match t
      case AnyChild =>
        if s.proc[i].parent != p then At(s, p, WaitScan(i + 1, found, t))
        else if s.proc[i].st != ZOMBIE then At(s, p, WaitScan(i + 1, true, t))
        else if bad then At(s, p, Run).(wl := NONE)
        else At(Freed(s, i), p, Run).(wl := NONE)
      case Pid(pid) =>
        if s.proc[i].st == UNUSED || s.proc[i].pid != pid then At(s, p, WaitScan(i + 1, found, t))
        else if s.proc[i].parent != p then At(s, p, Run).(wl := NONE)
        else if s.proc[i].st == ZOMBIE then At(Freed(s, i), p, Run).(wl := NONE)
        else At(s, p, WaitDecide(true, t))
  }

  // ---------- the invariant ----------

  predicate LockOk(s: S, p: nat)
    requires Shape(s) && p < NPROC
  {
    s.wl == p <==> HoldsWait(s.proc[p].pc)
  }

  /** Scheduling state and place in the kernel agree; a process keeps its lock until it is off its stack. */
  predicate StateOk(s: S, p: nat)
    requires Shape(s) && p < NPROC
  {
    match s.proc[p].pc
    case Free => s.proc[p].st == UNUSED && s.proc[p].parent == NONE
    case New => s.proc[p].st == USED && p != INIT
    case Run => s.proc[p].st == RUNNING || s.proc[p].st == RUNNABLE
    case Reacquire(_) => s.proc[p].st == RUNNING || s.proc[p].st == RUNNABLE
    case Forking(_) => s.proc[p].st == RUNNING || s.proc[p].st == RUNNABLE
    case Forked(_) => s.proc[p].st == RUNNING || s.proc[p].st == RUNNABLE
    case Parked => (s.proc[p].st == SLEEPING && s.proc[p].chan == NPROC) || s.proc[p].st == RUNNABLE
    case Asleep(_) => (s.proc[p].st == SLEEPING && s.proc[p].chan == p) || s.proc[p].st == RUNNABLE
    case ExitZombie => s.proc[p].st == ZOMBIE && p != INIT
    case ExitSwitch => s.proc[p].st == ZOMBIE && p != INIT
    case Gone => s.proc[p].st == ZOMBIE && p != INIT
    case ExitScan(_) => s.proc[p].st == RUNNING && p != INIT
    case ExitWakeInit(_, _) => s.proc[p].st == RUNNING && p != INIT
    case ExitWakeParent(_) => s.proc[p].st == RUNNING && p != INIT
    case ExitLocked => s.proc[p].st == RUNNING && p != INIT
    case _ => s.proc[p].st == RUNNING
  }

  predicate ForkOk(s: S, p: nat)
    requires Shape(s) && p < NPROC
  {
    && (s.proc[p].pc.Forking? ==>
      s.proc[p].pc.c < NPROC && s.proc[p].pc.c != p && s.proc[s.proc[p].pc.c].pc == New
      && s.proc[s.proc[p].pc.c].parent == NONE)
    && (s.proc[p].pc.Forked? ==>
      s.proc[p].pc.c < NPROC && s.proc[p].pc.c != p && s.proc[s.proc[p].pc.c].pc == New
      && s.proc[s.proc[p].pc.c].parent == p)
  }

  function ForkChild(pc: Pc): int {
    if pc.Forking? then pc.c else if pc.Forked? then pc.c else NONE
  }

  /** An exiting process has given away the children its scan has passed. */
  predicate MayHave(pc: Pc, c: nat) {
    match pc
    case Free => false
    case New => false
    case ExitScan(i) => c >= i
    case ExitWakeInit(i, _) => c > i
    case ExitWakeParent(_) => false
    case ExitLocked => false
    case ExitZombie => false
    case ExitSwitch => false
    case Gone => false
    case _ => true
  }

  /** Every process past fork, but init, has a parent that is neither unused nor a zombie. */
  predicate ParentOk(s: S, c: nat)
    requires Shape(s) && c < NPROC
  {
    && (s.proc[c].parent != NONE ==>
        0 <= s.proc[c].parent < NPROC && s.proc[c].parent != c && c != INIT && MayHave(s.proc[s.proc[c].parent].pc, c))
    && (c != INIT && s.proc[c].pc != Free && s.proc[c].pc != New ==> s.proc[c].parent != NONE)
  }

  /** On the way to sleep in wait with wait_lock released, or asleep there. */
  predicate Sleepy(s: S, p: nat)
    requires Shape(s) && p < NPROC
  {
    s.proc[p].pc.SleepCommitted? || (s.proc[p].pc.Asleep? && s.proc[p].st == SLEEPING)
  }

  predicate Matches(t: Target, pid: nat) {
    t.AnyChild? || t.pid == pid
  }

  /** A zombie that the waiter is waiting for. */
  predicate ZombieFor(s: S, p: nat, c: nat, t: Target)
    requires Shape(s) && c < NPROC
  {
    s.proc[c].parent == p && s.proc[c].st == ZOMBIE && Matches(t, s.proc[c].pid)
  }

  /** Some exiting process has yet to wake init. */
  predicate InitPending(s: S, p: nat)
    requires Shape(s)
  {
    p == INIT && 0 <= s.wl < NPROC && s.proc[s.wl].pc.ExitWakeInit? && s.proc[s.wl].pc.j <= INIT
  }

  predicate WaitOk(s: S, p: nat, c: nat)
    requires Shape(s) && p < NPROC && c < NPROC
  {
    && (Sleepy(s, p) && ZombieFor(s, p, c, s.proc[p].pc.t) ==> InitPending(s, p))
    && (s.proc[p].pc.WaitScan? && c < s.proc[p].pc.i ==> !ZombieFor(s, p, c, s.proc[p].pc.t))
    && (s.proc[p].pc.WaitDecide? ==> !ZombieFor(s, p, c, s.proc[p].pc.t))
    && (s.proc[p].pc.SleepLocked? ==> !ZombieFor(s, p, c, s.proc[p].pc.t))
  }

  /** The parent of a process that has called wakeup(p->parent) is not asleep in wait. */
  predicate ExitOk(s: S, e: nat)
    requires Shape(s) && e < NPROC
  {
    && (s.proc[e].pc.ExitWakeParent? && 0 <= s.proc[e].parent < NPROC && s.proc[e].parent < s.proc[e].pc.j ==>
        !Sleepy(s, s.proc[e].parent))
    && (s.proc[e].pc.ExitLocked? && 0 <= s.proc[e].parent < NPROC ==> !Sleepy(s, s.proc[e].parent))
  }

  predicate PidOk(s: S, p: nat, q: nat)
    requires Shape(s) && p < NPROC && q < NPROC
  {
    (s.proc[p].st != UNUSED ==> s.proc[p].pid < s.nextpid)
        && (p != q && s.proc[p].st != UNUSED && s.proc[q].st != UNUSED ==> s.proc[p].pid != s.proc[q].pid)
  }

  /** What holds of each process. */
  predicate Each(s: S, p: nat)
    requires Shape(s) && p < NPROC
  {
    LockOk(s, p) && StateOk(s, p) && ForkOk(s, p) && ParentOk(s, p) && ExitOk(s, p)
  }

  /** What holds of each two processes. */
  predicate Pair(s: S, p: nat, q: nat)
    requires Shape(s) && p < NPROC && q < NPROC
  {
    WaitOk(s, p, q) && PidOk(s, p, q)
        && (p != q && ForkChild(s.proc[p].pc) != NONE ==> ForkChild(s.proc[p].pc) != ForkChild(s.proc[q].pc))
  }

  ghost predicate Inv(s: S) {
    && Shape(s) && (s.wl == NONE || 0 <= s.wl < NPROC) && s.proc[INIT].st != UNUSED
    && (forall p: nat :: p < NPROC ==> Each(s, p))
    && (forall p: nat, q: nat :: p < NPROC && q < NPROC ==> Pair(s, p, q))
  }

  /** After userinit: only init. */
  function Start(): S {
    S(seq(NPROC, i => if i == INIT then Proc(RUNNABLE, Run, NONE, NONE, false, 1)
        else Proc(UNUSED, Free, NONE, NONE, false, 0)), 2, NONE)
  }

  lemma StartInv()
    ensures Inv(Start())
  {
  }

  // ---------- one process changes ----------

  function With(s: S, p: nat, x: Proc, l: int): S
    requires Shape(s) && p < NPROC
  {
    Set(s, p, x).(wl := l)
  }

  predicate SleepyProc(x: Proc) {
    x.pc.SleepCommitted? || (x.pc.Asleep? && x.st == SLEEPING)
  }

  /** What process `p` must look like after a step of its own, or one that wakes it. */
  predicate Fits(s: S, p: nat, x: Proc, l: int)
    requires Shape(s) && p < NPROC
  {
    var y := s.proc[p];
    && StateOk(With(s, p, x, l), p) && (l == p <==> HoldsWait(x.pc))
    && (l == s.wl || (s.wl == NONE && l == p) || (s.wl == p && l == NONE))
    && x.parent == y.parent && x.pid == y.pid && (x.st == UNUSED <==> y.st == UNUSED) && (x.pc == New <==> y.pc == New)
        && (x.pc == Free <==> y.pc == Free)
    && (x.st == ZOMBIE ==> y.st == ZOMBIE || y.pc == ExitLocked)
    && (ForkChild(x.pc) == NONE || x.pc == y.pc)
    && (SleepyProc(x) ==> (SleepyProc(y) && x.pc.t == y.pc.t) || (y.pc.SleepLocked? && x.pc.t == y.pc.t))
    && (y.pc.ExitWakeInit? && y.pc.j <= INIT ==> !Sleepy(s, INIT) || (x.pc.ExitWakeInit? && x.pc.j <= INIT))
    && (x.pc.ExitWakeParent? && 0 <= y.parent < NPROC && y.parent < x.pc.j ==> !Sleepy(s, y.parent))
    && (x.pc.ExitLocked? && 0 <= y.parent < NPROC ==> !Sleepy(s, y.parent))
  }

  ghost predicate FitsAll(s: S, p: nat, x: Proc, l: int)
    requires Shape(s) && p < NPROC
  {
    && Fits(s, p, x, l)
    && (forall c: nat :: c < NPROC && s.proc[c].parent == p ==> MayHave(x.pc, c))
    && (forall c: nat :: c < NPROC ==> NoZombieSeen(s, p, x.pc, c))
  }

  /** A scan has passed, or a decision to sleep was made on, no zombie. */
  predicate NoZombieSeen(s: S, p: nat, pc: Pc, c: nat)
    requires Shape(s) && c < NPROC
  {
    && (pc.WaitScan? && c < pc.i ==> !ZombieFor(s, p, c, pc.t))
    && (pc.WaitDecide? ==> !ZombieFor(s, p, c, pc.t))
    && (pc.SleepLocked? ==> !ZombieFor(s, p, c, pc.t))
  }

  lemma OneEach(s: S, p: nat, x: Proc, l: int, q: nat)
    requires Inv(s) && p < NPROC && q < NPROC && FitsAll(s, p, x, l)
    ensures Each(With(s, p, x, l), q)
  {
    assert Each(s, q) && Each(s, p);
    if 0 <= s.proc[q].parent < NPROC { assert Each(s, s.proc[q].parent); }
  }

  lemma OnePair(s: S, p: nat, x: Proc, l: int, q: nat, r: nat)
    requires Inv(s) && p < NPROC && q < NPROC && r < NPROC && FitsAll(s, p, x, l)
    ensures Pair(With(s, p, x, l), q, r)
  {
    assert Pair(s, q, r) && Each(s, q) && Each(s, p) && Each(s, r);
    assert NoZombieSeen(s, p, x.pc, r);
  }

  lemma One(s: S, p: nat, x: Proc, l: int)
    requires Inv(s) && p < NPROC && FitsAll(s, p, x, l)
    ensures Inv(With(s, p, x, l))
  {
    forall q: nat | q < NPROC ensures Each(With(s, p, x, l), q) { OneEach(s, p, x, l, q); }
    forall q: nat, r: nat | q < NPROC && r < NPROC ensures Pair(With(s, p, x, l), q, r) { OnePair(s, p, x, l, q, r); }
  }

  // ---------- steps that change two ----------

  /** reparent: the child, zombie or not, becomes init's, which is then woken. */
  lemma Reparent(s: S, p: nat, i: nat)
    requires Inv(s) && p < NPROC && i < NPROC && s.proc[p].pc == ExitScan(i) && s.proc[i].parent == p
    ensures Inv(At(Set(s, i, s.proc[i].(parent := INIT)), p, ExitWakeInit(i, 0)))
  {
    var t := At(Set(s, i, s.proc[i].(parent := INIT)), p, ExitWakeInit(i, 0));
    forall q: nat | q < NPROC ensures Each(t, q) { ReparentEach(s, p, i, q); }
    forall q: nat, r: nat | q < NPROC && r < NPROC ensures Pair(t, q, r) {
      assert Pair(s, q, r) && Each(s, q) && Each(s, p) && Each(s, i);
    }
  }

  lemma ReparentEach(s: S, p: nat, i: nat, q: nat)
    requires Inv(s) && p < NPROC && i < NPROC && s.proc[p].pc == ExitScan(i) && s.proc[i].parent == p && q < NPROC
    ensures Each(At(Set(s, i, s.proc[i].(parent := INIT)), p, ExitWakeInit(i, 0)), q)
  {
    assert Each(s, q) && Each(s, p) && Each(s, i) && Each(s, INIT);
    if 0 <= s.proc[q].parent < NPROC { assert Each(s, s.proc[q].parent); }
  }

  ghost predicate NoForker(s: S, c: nat)
    requires Shape(s)
  {
    forall q: nat :: q < NPROC ==> ForkChild(s.proc[q].pc) != c
  }

  /** freeproc of a zombie off its stack, or of a child whose fork failed. */
  lemma FreeOk(s: S, c: nat)
    requires Inv(s) && c < NPROC && (s.proc[c].pc == Gone || s.proc[c].pc == New) && NoForker(s, c)
    ensures Inv(Freed(s, c))
  {
    var t := Freed(s, c);
    assert Each(s, c);
    forall q: nat | q < NPROC ensures Each(t, q) {
      assert Each(s, q);
      if 0 <= s.proc[q].parent < NPROC { assert Each(s, s.proc[q].parent); }
    }
    forall q: nat, r: nat | q < NPROC && r < NPROC ensures Pair(t, q, r) { assert Pair(s, q, r); }
  }

  /** allocproc */
  lemma NewOk(s: S, c: nat)
    requires Inv(s) && c < NPROC && s.proc[c].st == UNUSED
    ensures NoForker(s, c) && s.proc[c].parent == NONE && s.proc[c].pc == Free
    ensures Inv(Set(s, c, s.proc[c].(st := USED, pc := New, pid := s.nextpid)).(nextpid := s.nextpid + 1))
  {
    var t := Set(s, c, s.proc[c].(st := USED, pc := New, pid := s.nextpid)).(nextpid := s.nextpid + 1);
    assert Each(s, c);
    forall q: nat | q < NPROC ensures Each(t, q) && ForkChild(s.proc[q].pc) != c {
      assert Each(s, q);
      if 0 <= s.proc[q].parent < NPROC { assert Each(s, s.proc[q].parent); }
    }
    forall q: nat, r: nat | q < NPROC && r < NPROC ensures Pair(t, q, r) { assert Pair(s, q, r) && Pair(s, r, q); }
  }

  lemma ForkingOk(s: S, p: nat, c: nat)
    requires Inv(s) && p < NPROC && c < NPROC && p != c && Runs(s, p) && s.proc[p].pc == Run && s.proc[c].pc == New
             && s.proc[c].parent == NONE && NoForker(s, c)
    ensures Inv(At(s, p, Forking(c)))
  {
    var t := At(s, p, Forking(c));
    assert Each(s, p);
    forall q: nat | q < NPROC ensures Each(t, q) {
      assert Each(s, q);
      if 0 <= s.proc[q].parent < NPROC { assert Each(s, s.proc[q].parent); }
    }
    forall q: nat, r: nat | q < NPROC && r < NPROC ensures Pair(t, q, r) { assert Pair(s, q, r); }
  }

  /** kfork sets the parent under wait_lock. */
  lemma ParentSet(s: S, p: nat)
    requires Inv(s) && p < NPROC && s.proc[p].pc.Forking? && s.wl == NONE
    ensures s.proc[p].pc.c < NPROC
            && Inv(At(Set(s, s.proc[p].pc.c, s.proc[s.proc[p].pc.c].(parent := p)), p, Forked(s.proc[p].pc.c)))
  {
    assert Each(s, p);
    var c := s.proc[p].pc.c;
    assert Each(s, c);
    var t := At(Set(s, c, s.proc[c].(parent := p)), p, Forked(c));
    forall q: nat | q < NPROC ensures Each(t, q) { ParentEach(s, p, c, q); }
    forall q: nat, r: nat | q < NPROC && r < NPROC ensures Pair(t, q, r) { ParentPair(s, p, c, q, r); }
  }

  lemma ParentEach(s: S, p: nat, c: nat, q: nat)
    requires Inv(s) && p < NPROC && s.proc[p].pc == Forking(c) && s.wl == NONE && c < NPROC && q < NPROC
    ensures Each(At(Set(s, c, s.proc[c].(parent := p)), p, Forked(c)), q)
  {
    assert Each(s, p) && Each(s, c) && Each(s, q) && Pair(s, p, q);
    if 0 <= s.proc[q].parent < NPROC { assert Each(s, s.proc[q].parent); }
  }

  lemma ParentPair(s: S, p: nat, c: nat, q: nat, r: nat)
    requires Inv(s) && p < NPROC && s.proc[p].pc == Forking(c) && s.wl == NONE && c < NPROC && q < NPROC && r < NPROC
    ensures Pair(At(Set(s, c, s.proc[c].(parent := p)), p, Forked(c)), q, r)
  {
    assert Each(s, p) && Each(s, c) && Each(s, q) && Pair(s, q, r);
  }

  /** kfork makes the child runnable. */
  lemma ChildStarts(s: S, c: nat)
    requires Inv(s) && c < NPROC && s.proc[c].pc == New && s.proc[c].parent != NONE && NoForker(s, c)
    ensures Inv(Set(s, c, s.proc[c].(st := RUNNABLE, pc := Run)))
  {
    var t := Set(s, c, s.proc[c].(st := RUNNABLE, pc := Run));
    assert Each(s, c);
    forall q: nat | q < NPROC ensures Each(t, q) {
      assert Each(s, q);
      if 0 <= s.proc[q].parent < NPROC { assert Each(s, s.proc[q].parent); }
    }
    forall q: nat, r: nat | q < NPROC && r < NPROC ensures Pair(t, q, r) { assert Pair(s, q, r); }
  }

  // ---------- every step ----------

  /** A change of pc alone. */
  lemma Moves(s: S, p: nat, pc: Pc, l: int)
    requires Inv(s) && p < NPROC && FitsAll(s, p, s.proc[p].(pc := pc), l)
    ensures Inv(At(s, p, pc).(wl := l))
  {
    One(s, p, s.proc[p].(pc := pc), l);
  }

  lemma ForkSteps(s: S, a: Step)
    requires Inv(s) && Enabled(s, a) && (a.Fork? || a.ForkFail? || a.ForkParent? || a.ForkRun?)
    ensures Inv(Do(s, a))
  {
    var p := Actor(a);
    assert Each(s, p);
    match a
    case Fork(_, c) =>
      NewOk(s, c);
      ForkingOk(Set(s, c, s.proc[c].(st := USED, pc := New, pid := s.nextpid)).(nextpid := s.nextpid + 1), p, c);
    case ForkFail(_) => ForkFailStep(s, p);
    case ForkParent(_) => ParentSet(s, p);
    case ForkRun(_) => ForkRunStep(s, p);
  }

  lemma ForkFailStep(s: S, p: nat)
    requires Inv(s) && Enabled(s, ForkFail(p))
    ensures Inv(Do(s, ForkFail(p)))
  {
    assert Each(s, p);
    var c := s.proc[p].pc.c;
    Moves(s, p, Run, s.wl);
    ForkerLeft(s, p);
    FreeOk(At(s, p, Run), c);
    assert At(Freed(s, c), p, Run) == Freed(At(s, p, Run), c);
  }

  lemma ForkRunStep(s: S, p: nat)
    requires Inv(s) && Enabled(s, ForkRun(p))
    ensures Inv(Do(s, ForkRun(p)))
  {
    assert Each(s, p);
    var c := s.proc[p].pc.c;
    Moves(s, p, Run, s.wl);
    ForkerLeft(s, p);
    ChildStarts(At(s, p, Run), c);
    assert Do(s, ForkRun(p)) == Set(At(s, p, Run), c, s.proc[c].(st := RUNNABLE, pc := Run));
  }

  lemma ForkerLeft(s: S, p: nat)
    requires Inv(s) && p < NPROC && ForkChild(s.proc[p].pc) != NONE
    ensures 0 <= ForkChild(s.proc[p].pc) < NPROC && NoForker(At(s, p, Run), ForkChild(s.proc[p].pc))
  {
    assert Each(s, p);
    forall q: nat | q < NPROC && q != p
        ensures ForkChild(s.proc[q].pc) != ForkChild(s.proc[p].pc) { assert Pair(s, p, q); }
  }

  lemma QuietSteps(s: S, a: Step)
    requires Inv(s) && Enabled(s, a) && (a.Park? || a.Unpark? || a.Kill? || a.Yield? || a.Dispatch?)
    ensures Inv(Do(s, a))
  {
    var p := Actor(a);
    QuietFits(s, a);
    One(s, p, Do(s, a).proc[p], s.wl);
    assert Do(s, a) == With(s, p, Do(s, a).proc[p], s.wl);
  }

  lemma QuietFits(s: S, a: Step)
    requires Inv(s) && Enabled(s, a) && (a.Park? || a.Unpark? || a.Kill? || a.Yield? || a.Dispatch?)
    ensures FitsAll(s, Actor(a), Do(s, a).proc[Actor(a)], s.wl)
  {
    assert Each(s, Actor(a));
    QuietSeen(s, a);
  }

  lemma QuietSeen(s: S, a: Step)
    requires Inv(s) && Enabled(s, a) && (a.Park? || a.Unpark? || a.Kill? || a.Yield? || a.Dispatch?)
    ensures var p, pc := Actor(a), Do(s, a).proc[Actor(a)].pc;
            && (forall c: nat :: c < NPROC ==> NoZombieSeen(s, p, pc, c))
            && (forall c: nat :: c < NPROC && s.proc[c].parent == p ==> MayHave(pc, c))
  {
    var p := Actor(a);
    assert Each(s, p);
    forall c: nat | c < NPROC ensures NoZombieSeen(s, p, Do(s, a).proc[p].pc, c) { assert Pair(s, p, c); }
    forall c: nat | c < NPROC && s.proc[c].parent == p ensures MayHave(Do(s, a).proc[p].pc, c) { assert Each(s, c); }
  }

  lemma ScanSteps(s: S, a: Step)
    requires Inv(s) && Enabled(s, a) && (a.ExitBegin? || a.ExitVisit?)
    ensures Inv(Do(s, a))
  {
    var p := Actor(a);
    assert Each(s, p);
    if a.ExitVisit? && s.proc[p].pc.i < NPROC && s.proc[s.proc[p].pc.i].parent == p {
      Reparent(s, p, s.proc[p].pc.i);
    } else {
      forall c: nat | c < NPROC && s.proc[c].parent == p ensures MayHave(Do(s, a).proc[p].pc, c) { assert Each(s, c); }
      One(s, p, Do(s, a).proc[p], Do(s, a).wl);
      assert Do(s, a) == With(s, p, Do(s, a).proc[p], Do(s, a).wl);
    }
  }

  lemma ExitSteps(s: S, a: Step)
    requires Inv(s) && Enabled(s, a) && (a.SetZombie? || a.ExitRelease? || a.Switch?)
    ensures Inv(Do(s, a))
  {
    var p := Actor(a);
    assert Each(s, p);
    forall c: nat | c < NPROC ensures s.proc[c].parent != p { assert Each(s, c); }
    One(s, p, Do(s, a).proc[p], Do(s, a).wl);
    assert Do(s, a) == With(s, p, Do(s, a).proc[p], Do(s, a).wl);
  }

  /** wakeup's visit of process `j` leaves it not sleeping there. */
  lemma WakeVisit(s: S, p: nat, j: nat, chan: nat)
    requires Inv(s) && p < NPROC && j < NPROC && chan < NPROC && Visitable(s, p, j)
    ensures Inv(Woken(s, p, j, chan)) && Woken(s, p, j, chan).proc[p] == s.proc[p]
    ensures j == chan && j != p ==> !Sleepy(Woken(s, p, j, chan), j)
    ensures forall q: nat :: q < NPROC && !Sleepy(s, q) ==> !Sleepy(Woken(s, p, j, chan), q)
    ensures forall q: nat :: q < NPROC ==> Woken(s, p, j, chan).proc[q].parent == s.proc[q].parent
  {
    assert Each(s, j);
    var x := s.proc[j].(st := RUNNABLE);
    if j != p && s.proc[j].st == SLEEPING && s.proc[j].chan == chan {
      forall c: nat | c < NPROC && s.proc[c].parent == j ensures MayHave(x.pc, c) { assert Each(s, c); }
      One(s, j, x, s.wl);
      assert With(s, j, x, s.wl) == Woken(s, p, j, chan);
    }
  }

  lemma WakeSteps(s: S, a: Step)
    requires Inv(s) && Enabled(s, a) && (a.WakeInit? || a.WakeParent?)
    ensures Inv(Do(s, a))
  {
    var p := Actor(a);
    assert Each(s, p);
    var j := s.proc[p].pc.j;
    var chan := if a.WakeInit? then INIT else s.proc[p].parent;
    var t := if j < NPROC then Woken(s, p, j, chan) else s;
    if j < NPROC { WakeVisit(s, p, j, chan); }
    WakeMoves(s, a, t, j, chan);
  }

  lemma WakeMoves(s: S, a: Step, t: S, j: nat, chan: nat)
    requires Inv(s) && Enabled(s, a) && (a.WakeInit? || a.WakeParent?) && Each(s, Actor(a))
             && j == s.proc[Actor(a)].pc.j
    requires chan == (if a.WakeInit? then INIT else s.proc[Actor(a)].parent) && Inv(t)
    requires t == (if j < NPROC then Woken(s, Actor(a), j, chan) else s) && t.proc[Actor(a)] == s.proc[Actor(a)]
    requires j < NPROC && j == chan && j != Actor(a) ==> !Sleepy(t, j)
    requires forall q: nat :: q < NPROC && !Sleepy(s, q) ==> !Sleepy(t, q)
    requires forall q: nat :: q < NPROC ==> t.proc[q].parent == s.proc[q].parent
    ensures Inv(Do(s, a))
  {
    var p := Actor(a);
    var pc := Do(s, a).proc[p].pc;
    forall c: nat | c < NPROC && t.proc[c].parent == p ensures MayHave(pc, c) { assert Each(s, c); }
    Moves(t, p, pc, t.wl);
    assert Do(s, a) == At(t, p, pc).(wl := t.wl);
  }

  lemma WaitSteps(s: S, a: Step)
    requires Inv(s) && Enabled(s, a) && (a.WaitBegin? || a.WaitEnd? || a.WaitAgain?)
    ensures Inv(Do(s, a))
  {
    var p := Actor(a);
    assert Each(s, p);
    forall c: nat | c < NPROC ensures NoZombieSeen(s, p, Do(s, a).proc[p].pc, c) { assert Pair(s, p, c); }
    forall c: nat | c < NPROC && s.proc[c].parent == p ensures MayHave(Do(s, a).proc[p].pc, c) { assert Each(s, c); }
    One(s, p, Do(s, a).proc[p], Do(s, a).wl);
    assert Do(s, a) == With(s, p, Do(s, a).proc[p], Do(s, a).wl);
  }

  lemma SleepSteps(s: S, a: Step)
    requires Inv(s) && Enabled(s, a) && (a.SleepRelease? || a.SleepMark?)
    ensures Inv(Do(s, a))
  {
    var p := Actor(a);
    assert Each(s, p);
    forall c: nat | c < NPROC ensures NoZombieSeen(s, p, Do(s, a).proc[p].pc, c) { assert Pair(s, p, c); }
    forall c: nat | c < NPROC && s.proc[c].parent == p ensures MayHave(Do(s, a).proc[p].pc, c) { assert Each(s, c); }
    One(s, p, Do(s, a).proc[p], Do(s, a).wl);
    assert Do(s, a) == With(s, p, Do(s, a).proc[p], Do(s, a).wl);
  }

  /** The zombie a scan frees is off its stack and belongs to the waiter. */
  predicate Reaps(s: S, p: nat, bad: bool)
    requires Shape(s) && p < NPROC
  {
    && s.proc[p].pc.WaitScan? && s.proc[p].pc.i < NPROC
    && var i, t := s.proc[p].pc.i, s.proc[p].pc.t;
       s.proc[i].st == ZOMBIE && s.proc[i].parent == p && (t.AnyChild? ==> !bad) && (t.Pid? ==> s.proc[i].pid == t.pid)
  }

  lemma VisitSteps(s: S, p: nat, bad: bool)
    requires Inv(s) && Enabled(s, WaitVisit(p, bad))
    ensures Inv(Do(s, WaitVisit(p, bad)))
  {
    assert Each(s, p);
    var t := Visit(s, p, bad);
    if Reaps(s, p, bad) {
      ReapStep(s, p, bad);
    } else {
      VisitMoves(s, p, bad);
    }
  }

  lemma VisitMoves(s: S, p: nat, bad: bool)
    requires Inv(s) && Enabled(s, WaitVisit(p, bad)) && Each(s, p) && !Reaps(s, p, bad)
    ensures Inv(Visit(s, p, bad))
  {
    var t := Visit(s, p, bad);
    VisitFits(s, p, bad);
    Moves(s, p, t.proc[p].pc, t.wl);
    assert t == At(s, p, t.proc[p].pc).(wl := t.wl);
  }

  lemma VisitFits(s: S, p: nat, bad: bool)
    requires Inv(s) && Enabled(s, WaitVisit(p, bad)) && Each(s, p) && !Reaps(s, p, bad)
    ensures var t := Visit(s, p, bad); FitsAll(s, p, s.proc[p].(pc := t.proc[p].pc), t.wl)
  {
    var t := Visit(s, p, bad);
    forall c: nat | c < NPROC ensures NoZombieSeen(s, p, t.proc[p].pc, c) { SeenNext(s, p, bad, c); }
    forall c: nat | c < NPROC && s.proc[c].parent == p ensures MayHave(t.proc[p].pc, c) { assert Each(s, c); }
  }

  lemma SeenNext(s: S, p: nat, bad: bool, c: nat)
    requires Inv(s) && Enabled(s, WaitVisit(p, bad)) && !Reaps(s, p, bad) && c < NPROC
    ensures NoZombieSeen(s, p, Visit(s, p, bad).proc[p].pc, c)
  {
    assert Pair(s, p, c) && Each(s, c);
    if s.proc[p].pc.i < NPROC { assert Pair(s, s.proc[p].pc.i, c); }
  }

  /** A zombie is freed by its own parent, once it has given up its lock, which it does when it is off its stack. */
  lemma ReapStep(s: S, p: nat, bad: bool)
    requires Inv(s) && Enabled(s, WaitVisit(p, bad)) && Reaps(s, p, bad)
    ensures var c := s.proc[p].pc.i;
            && s.proc[c].pc == Gone && s.proc[c].parent == p
            && Do(s, WaitVisit(p, bad)) == At(Freed(s, c), p, Run).(wl := NONE) && Inv(Do(s, WaitVisit(p, bad)))
  {
    var c := s.proc[p].pc.i;
    assert Each(s, p) && Each(s, c);
    forall q: nat | q < NPROC ensures ForkChild(s.proc[q].pc) != c { assert Each(s, q); }
    FreeOk(s, c);
    var t := Freed(s, c);
    forall d: nat | d < NPROC && t.proc[d].parent == p ensures MayHave(Run, d) {}
    Moves(t, p, Run, NONE);
  }

  /** Every step keeps the invariant. */
  lemma StepInv(s: S, a: Step)
    requires Inv(s) && Enabled(s, a)
    ensures Inv(Do(s, a))
  {
    if a.Fork? || a.ForkFail? || a.ForkParent? || a.ForkRun? {
      ForkSteps(s, a);
    } else if a.Park? || a.Unpark? || a.Kill? || a.Yield? || a.Dispatch? {
      QuietSteps(s, a);
    } else if a.WakeInit? || a.WakeParent? {
      WakeSteps(s, a);
    } else if a.WaitBegin? || a.WaitEnd? || a.WaitAgain? {
      WaitSteps(s, a);
    } else if a.SleepRelease? || a.SleepMark? {
      SleepSteps(s, a);
    } else if a.ExitBegin? || a.ExitVisit? {
      ScanSteps(s, a);
    } else if a.WaitVisit? {
      VisitSteps(s, a.p, a.bad);
    } else {
      ExitSteps(s, a);
    }
  }

  // ---------- whole runs ----------

  /** The states of a run that takes the given steps. */
  ghost predicate IsRun(run: seq<S>, steps: seq<Step>) {
    && |run| == |steps| + 1 && run[0] == Start()
    && forall k :: 0 <= k < |steps| ==> Shape(run[k]) && Enabled(run[k], steps[k]) && run[k + 1] == Do(run[k], steps[k])
  }

  lemma {:induction false} RunInv(run: seq<S>, steps: seq<Step>, k: nat)
    requires IsRun(run, steps) && k < |run|
    ensures Inv(run[k])
    decreases k
  {
    if k == 0 {
      StartInv();
    } else {
      RunInv(run, steps, k - 1);
      StepInv(run[k - 1], steps[k - 1]);
    }
  }

  /** No lost exit: while wait_lock is free, nobody sleeps in wait with a zombie child they wait for. */
  lemma NoLostExit(run: seq<S>, steps: seq<Step>, k: nat, p: nat, c: nat)
    requires IsRun(run, steps) && k < |run| && Shape(run[k]) && p < NPROC && c < NPROC && run[k].wl == NONE
    requires run[k].proc[p].st == SLEEPING && run[k].proc[p].pc.Asleep?
    ensures !ZombieFor(run[k], p, c, run[k].proc[p].pc.t)
  {
    RunInv(run, steps, k);
    assert Pair(run[k], p, c);
  }

  /** No orphan: every process past fork, but init, has a parent in use that is no zombie. */
  lemma NoOrphan(run: seq<S>, steps: seq<Step>, k: nat, c: nat)
    requires IsRun(run, steps) && k < |run| && Shape(run[k]) && c < NPROC && c != INIT
    requires run[k].proc[c].st != UNUSED && run[k].proc[c].st != USED
    ensures 0 <= run[k].proc[c].parent < NPROC
    ensures run[k].proc[run[k].proc[c].parent].st != UNUSED && run[k].proc[run[k].proc[c].parent].st != ZOMBIE
  {
    RunInv(run, steps, k);
    assert Each(run[k], c);
    assert Each(run[k], run[k].proc[c].parent);
  }

  /** Only a visit of the scan takes a process out of ZOMBIE. */
  lemma OnlyReaped(s: S, a: Step, c: nat)
    requires Inv(s) && Enabled(s, a) && c < NPROC && s.proc[c].st == ZOMBIE
    ensures a.WaitVisit? || Do(s, a).proc[c].st == ZOMBIE
  {
    assert Each(s, c) && Each(s, Actor(a));
  }

  /** A slot leaves ZOMBIE only by being freed, by its parent, after it has switched off its stack. */
  lemma FreedOnceSwitched(run: seq<S>, steps: seq<Step>, k: nat, c: nat)
    requires IsRun(run, steps) && k < |steps| && Shape(run[k]) && Shape(run[k + 1]) && c < NPROC
    requires run[k].proc[c].st == ZOMBIE && run[k + 1].proc[c].st != ZOMBIE
    ensures run[k + 1].proc[c].st == UNUSED && run[k].proc[c].pc == Gone
    ensures steps[k].WaitVisit? && run[k].proc[c].parent == steps[k].p && run[k].wl == steps[k].p
  {
    RunInv(run, steps, k);
    OnlyReaped(run[k], steps[k], c);
    assert Each(run[k], c) && Each(run[k], Actor(steps[k]));
  }
}
