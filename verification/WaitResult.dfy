/**
 What kwait and kwaitpid return, and when they sleep (kernel/proc.c): exactly as the
 children of the caller are.
 */
module WaitResult {
  import opened ExitWait

  /** A child that the call waits for. */
  predicate Child(s: S, p: nat, c: nat, t: Target)
    requires Shape(s) && c < NPROC
  {
    s.proc[c].parent == p && Matches(t, s.proc[c].pid)
  }

  predicate HasChild(s: S, p: nat, t: Target, n: nat)
    requires Shape(s)
  {
    exists c: nat :: c < n && c < NPROC && Child(s, p, c, t)
  }

  /** `found` says whether there is such a child, among the slots the scan has passed; a sleeper has one. */
  predicate FoundOk(s: S, p: nat)
    requires Shape(s) && p < NPROC
  {
    match s.proc[p].pc
    case WaitScan(i, found, t) => i <= NPROC && (found <==> HasChild(s, p, t, i))
    case WaitDecide(found, t) => found <==> HasChild(s, p, t, NPROC)
    case SleepLocked(t) => HasChild(s, p, t, NPROC)
    case SleepCommitted(t) => HasChild(s, p, t, NPROC)
    case Asleep(t) => HasChild(s, p, t, NPROC)
    case _ => true
  }

  ghost predicate AllFound(s: S) {
    Inv(s) && forall p: nat :: p < NPROC ==> FoundOk(s, p)
  }

  lemma StartFound()
    ensures AllFound(Start())
  {
    StartInv();
  }

  /** The children of `p` are the same, as far as the call can tell. */
  ghost predicate SameKids(s: S, u: S, p: nat)
    requires Shape(s) && Shape(u)
  {
    forall c: nat, t: Target :: c < NPROC ==> (Child(s, p, c, t) <==> Child(u, p, c, t))
  }

  ghost predicate KeepsKids(s: S, u: S, p: nat)
    requires Shape(s) && Shape(u)
  {
    forall c: nat, t: Target :: c < NPROC && Child(s, p, c, t) ==> Child(u, p, c, t)
  }

  lemma SameHas(s: S, u: S, p: nat, t: Target, n: nat)
    requires Shape(s) && Shape(u) && SameKids(s, u, p)
    ensures HasChild(s, p, t, n) <==> HasChild(u, p, t, n)
  {
  }

  lemma KeepsHas(s: S, u: S, p: nat, t: Target, n: nat)
    requires Shape(s) && Shape(u) && KeepsKids(s, u, p)
    ensures HasChild(s, p, t, n) ==> HasChild(u, p, t, n)
  {
  }

  /** While `p` holds wait_lock nobody else changes its children; without it they stay unless it acts itself. */
  lemma KidsStay(s: S, a: Step, p: nat)
    requires Inv(s) && Enabled(s, a) && p < NPROC && p != Actor(a)
    requires s.proc[p].pc.WaitScan? || s.proc[p].pc.WaitDecide? || s.proc[p].pc.SleepLocked?
             || s.proc[p].pc.SleepCommitted? || s.proc[p].pc.Asleep?
    ensures Shape(Do(s, a)) && KeepsKids(s, Do(s, a), p)
    ensures HoldsWait(s.proc[p].pc) ==> SameKids(s, Do(s, a), p)
  {
    assert Each(s, p) && Each(s, Actor(a));
    forall c: nat, t: Target | c < NPROC
      ensures Child(s, p, c, t) ==> Child(Do(s, a), p, c, t)
      ensures HoldsWait(s.proc[p].pc) ==> (Child(s, p, c, t) <==> Child(Do(s, a), p, c, t))
    {
      assert Each(s, c);
      KidStays(s, a, p, c, t);
    }
  }

  lemma KidStays(s: S, a: Step, p: nat, c: nat, t: Target)
    requires Inv(s) && Enabled(s, a) && p < NPROC && p != Actor(a) && c < NPROC
    requires Each(s, p) && Each(s, c) && Each(s, Actor(a))
    requires s.proc[p].pc.WaitScan? || s.proc[p].pc.WaitDecide? || s.proc[p].pc.SleepLocked?
             || s.proc[p].pc.SleepCommitted? || s.proc[p].pc.Asleep?
    ensures Shape(Do(s, a)) && (Child(s, p, c, t) ==> Child(Do(s, a), p, c, t))
    ensures HoldsWait(s.proc[p].pc) ==> (Child(s, p, c, t) <==> Child(Do(s, a), p, c, t))
  {
    if MovesLinks(a) { LinksMove(s, a, c); } else { LinksStay(s, a, c); }
  }

  /** The steps that change whose child a process is, or its pid. */
  predicate MovesLinks(a: Step) {
    a.Fork? || a.ForkFail? || a.ForkParent? || a.ExitVisit? || a.WaitVisit?
  }

  lemma LinksStay(s: S, a: Step, c: nat)
    requires Shape(s) && Enabled(s, a) && c < NPROC && !MovesLinks(a)
    ensures Shape(Do(s, a)) && Do(s, a).proc[c].parent == s.proc[c].parent && Do(s, a).proc[c].pid == s.proc[c].pid
  {
  }

  lemma LinksMove(s: S, a: Step, c: nat)
    requires Inv(s) && Enabled(s, a) && c < NPROC && MovesLinks(a)
    ensures var x, y := s.proc[c], Do(s, a).proc[c];
            match a
            case Fork(_, d) => if c == d then x.parent == NONE == y.parent else y.parent == x.parent && y.pid == x.pid
            case ForkFail(p) => (x.parent == NONE == y.parent) || (y.parent == x.parent && y.pid == x.pid)
            case ForkParent(p) =>
              y.pid == x.pid && (y.parent == x.parent || (x.parent == NONE && y.parent == p)) && s.wl == NONE
            case ExitVisit(p) => y.pid == x.pid && s.wl == p
                && (y.parent == x.parent || (x.parent == p && y.parent == INIT))
            case WaitVisit(p, _) =>
              s.wl == p && ((y.parent == x.parent && y.pid == x.pid) || (x.parent == p && y.parent == NONE))
            case _ => true
  {
    assert Each(s, c) && Each(s, Actor(a));
    if ForkChild(s.proc[Actor(a)].pc) != NONE { assert Each(s, ForkChild(s.proc[Actor(a)].pc)); }
  }

  /** Another process's step leaves the caller where it is, but for waking it. */
  lemma OthersStep(s: S, a: Step, p: nat)
    requires AllFound(s) && Enabled(s, a) && p < NPROC && p != Actor(a)
    ensures Shape(Do(s, a)) && FoundOk(Do(s, a), p)
  {
    var u, pc := Do(s, a), s.proc[p].pc;
    assert FoundOk(s, p) && Each(s, p) && Each(s, Actor(a));
    PcStays(s, a, p);
    if pc.WaitScan? || pc.WaitDecide? || pc.SleepLocked? || pc.SleepCommitted? || pc.Asleep? {
      KidsStay(s, a, p);
      if pc.WaitScan? { SameHas(s, u, p, pc.t, pc.i); } else { KeepsHas(s, u, p, pc.t, NPROC); }
      if pc.WaitDecide? { SameHas(s, u, p, pc.t, NPROC); }
    }
  }

  lemma PcStays(s: S, a: Step, p: nat)
    requires Inv(s) && Enabled(s, a) && p < NPROC && p != Actor(a)
    ensures Shape(Do(s, a))
    ensures Do(s, a).proc[p].pc == s.proc[p].pc
            || Do(s, a).proc[p].pc in {Free, New, Run}
  {
    assert Each(s, p) && Each(s, Actor(a));
  }

  /** A step of the caller itself. */
  lemma OwnStep(s: S, a: Step)
    requires AllFound(s) && Enabled(s, a)
    ensures Shape(Do(s, a)) && FoundOk(Do(s, a), Actor(a))
  {
    var p := Actor(a);
    assert FoundOk(s, p) && Each(s, p);
    if a.WaitVisit? {
      VisitFound(s, p, a.bad);
    } else if Do(s, a).proc[p].pc != s.proc[p].pc || Do(s, a).proc != s.proc {
      OtherFound(s, a);
    }
  }

  lemma OtherFound(s: S, a: Step)
    requires AllFound(s) && Enabled(s, a) && !a.WaitVisit?
    ensures Shape(Do(s, a)) && FoundOk(Do(s, a), Actor(a))
  {
    var p, u := Actor(a), Do(s, a);
    assert FoundOk(s, p) && Each(s, p);
    if u.proc[p].pc.WaitDecide? || u.proc[p].pc.SleepLocked? || u.proc[p].pc.SleepCommitted? || u.proc[p].pc.Asleep?
       || (u.proc[p].pc.WaitScan? && s.proc[p].pc.WaitScan?) {
      SameHas(s, u, p, u.proc[p].pc.t, NPROC);
      if u.proc[p].pc.WaitScan? { SameHas(s, u, p, u.proc[p].pc.t, u.proc[p].pc.i); }
    }
  }

  lemma VisitFound(s: S, p: nat, bad: bool)
    requires AllFound(s) && Enabled(s, WaitVisit(p, bad))
    ensures Shape(Do(s, WaitVisit(p, bad))) && FoundOk(Do(s, WaitVisit(p, bad)), p)
  {
    assert FoundOk(s, p) && Each(s, p);
    if s.proc[p].pc.i < NPROC { assert Each(s, s.proc[p].pc.i); }
    VisitMoves(s, p, bad);
  }

  /** The scan passes one slot more, and remembers a child it saw there. */
  lemma VisitMoves(s: S, p: nat, bad: bool)
    requires Shape(s) && Enabled(s, WaitVisit(p, bad)) && FoundOk(s, p)
    requires s.proc[p].pc.i < NPROC && s.proc[s.proc[p].pc.i].st == UNUSED ==> s.proc[s.proc[p].pc.i].parent != p
    ensures Shape(Do(s, WaitVisit(p, bad))) && FoundOk(Do(s, WaitVisit(p, bad)), p)
  {
    var u := Do(s, WaitVisit(p, bad));
    var i, t := s.proc[p].pc.i, s.proc[p].pc.t;
    if u.proc[p].pc != Run {
      VisitKeeps(s, p, bad);
      if i < NPROC {
        OneMoreChild(s, p, t, i);
        SameHas(s, u, p, t, i + 1);
      }
      SameHas(s, u, p, t, NPROC);
    }
  }

  /** A visit that does not return only moves on. */
  lemma VisitKeeps(s: S, p: nat, bad: bool)
    requires Shape(s) && Enabled(s, WaitVisit(p, bad)) && Do(s, WaitVisit(p, bad)).proc[p].pc != Run
    ensures var u := Do(s, WaitVisit(p, bad)); Shape(u) && SameKids(s, u, p)
  {
    var u := Do(s, WaitVisit(p, bad));
    forall c: nat | c < NPROC ensures u.proc[c].parent == s.proc[c].parent && u.proc[c].pid == s.proc[c].pid {
    }
  }

  lemma OneMoreChild(s: S, p: nat, t: Target, i: nat)
    requires Shape(s) && i < NPROC
    ensures HasChild(s, p, t, i + 1) <==> HasChild(s, p, t, i) || Child(s, p, i, t)
  {
    if Child(s, p, i, t) { assert i < i + 1; }
  }

  lemma StepFound(s: S, a: Step)
    requires AllFound(s) && Enabled(s, a)
    ensures AllFound(Do(s, a))
  {
    StepInv(s, a);
    OwnStep(s, a);
    forall p: nat | p < NPROC && p != Actor(a) ensures FoundOk(Do(s, a), p) { OthersStep(s, a, p); }
  }

  // ---------- whole runs ----------

  lemma {:induction false} RunFound(run: seq<S>, steps: seq<Step>, k: nat)
    requires IsRun(run, steps) && k < |run|
    ensures AllFound(run[k])
    decreases k
  {
    if k == 0 {
      StartFound();
    } else {
      RunFound(run, steps, k - 1);
      StepFound(run[k - 1], steps[k - 1]);
    }
  }

  /** The call frees a child's slot: a zombie it waits for, off its stack. */
  ghost predicate Reaped(s: S, u: S, p: nat, t: Target)
    requires Shape(s) && Shape(u)
  {
    exists c: nat :: c < NPROC && ZombieFor(s, p, c, t) && s.proc[c].pc == Gone && u.proc[c].st == UNUSED
  }

  /**
   When a wait returns, in any run, it has freed a zombie child that it waited for, or it
   gives up and changes nothing; and it gives up only when the caller is killed, has no
   child that it waits for, or (kwait) the status of a zombie cannot be copied out.
   */
  lemma WaitReturns(run: seq<S>, steps: seq<Step>, k: nat, p: nat, t: Target)
    requires IsRun(run, steps) && k < |steps| && Shape(run[k]) && Shape(run[k + 1]) && p < NPROC
    requires run[k].proc[p].pc.WaitScan? || run[k].proc[p].pc.WaitDecide?
    requires t == run[k].proc[p].pc.t && run[k + 1].proc[p].pc == Run
    ensures Actor(steps[k]) == p && run[k].wl == p && run[k + 1].wl == NONE
    ensures Reaped(run[k], run[k + 1], p, t) || run[k + 1] == At(run[k], p, Run).(wl := NONE)
    ensures Reaped(run[k], run[k + 1], p, t) || run[k].proc[p].killed || !HasChild(run[k], p, t, NPROC)
            || (t.AnyChild? && steps[k].WaitVisit? && steps[k].bad
                && exists c: nat :: c < NPROC && ZombieFor(run[k], p, c, t))
  {
    var s, u, a := run[k], run[k + 1], steps[k];
    RunFound(run, steps, k);
    assert Each(s, p) && FoundOk(s, p);
    if Actor(a) != p { PcStays(s, a, p); OthersLeave(s, a, p); }
    if a.WaitVisit? { VisitReturns(s, p, a.bad); }
  }

  lemma OthersLeave(s: S, a: Step, p: nat)
    requires Inv(s) && Enabled(s, a) && p < NPROC && p != Actor(a)
             && (s.proc[p].pc.WaitScan? || s.proc[p].pc.WaitDecide?)
    ensures Do(s, a).proc[p].pc != Run
  {
    assert Each(s, p) && Each(s, Actor(a));
  }

  lemma VisitReturns(s: S, p: nat, bad: bool)
    requires AllFound(s) && Enabled(s, WaitVisit(p, bad)) && Do(s, WaitVisit(p, bad)).proc[p].pc == Run
    ensures var u, i, t := Do(s, WaitVisit(p, bad)), s.proc[p].pc.i, s.proc[p].pc.t;
            && Shape(u) && i < NPROC && u.wl == NONE && s.wl == p
            && if Reaps(s, p, bad) then Reaped(s, u, p, t)
               else u == At(s, p, Run).(wl := NONE)
                    && if t.AnyChild? then bad && ZombieFor(s, p, i, t) else !HasChild(s, p, t, NPROC)
  {
    var u, i, t := Do(s, WaitVisit(p, bad)), s.proc[p].pc.i, s.proc[p].pc.t;
    assert Each(s, p) && Each(s, i);
    if Reaps(s, p, bad) {
      ReapStep(s, p, bad);
      assert ZombieFor(s, p, i, t) && u.proc[i].st == UNUSED;
    } else if t.Pid? {
      forall c: nat | c < NPROC ensures !Child(s, p, c, t) { assert Pair(s, i, c) && Each(s, c); }
    }
  }

  /** A scan that comes to a zombie it waits for frees it, unless its status cannot be copied out. */
  lemma ZombieIsReaped(s: S, p: nat, bad: bool)
    requires Inv(s) && Enabled(s, WaitVisit(p, bad)) && s.proc[p].pc.i < NPROC
    requires ZombieFor(s, p, s.proc[p].pc.i, s.proc[p].pc.t) && (s.proc[p].pc.t.AnyChild? ==> !bad)
    ensures Reaped(s, Do(s, WaitVisit(p, bad)), p, s.proc[p].pc.t) && Do(s, WaitVisit(p, bad)).proc[p].pc == Run
  {
    var i := s.proc[p].pc.i;
    assert Each(s, i);
    ReapStep(s, p, bad);
    assert ZombieFor(s, p, i, s.proc[p].pc.t);
  }

  /**
   After a scan that found no zombie the caller sleeps exactly when it has a child that it
   waits for and is not killed.
   */
  lemma WaitSleeps(run: seq<S>, steps: seq<Step>, k: nat, p: nat)
    requires IsRun(run, steps) && k < |steps| && Shape(run[k]) && Shape(run[k + 1]) && steps[k] == WaitEnd(p)
    ensures p < NPROC && run[k].proc[p].pc.WaitDecide?
    ensures var t := run[k].proc[p].pc.t;
            && (run[k + 1].proc[p].pc == SleepLocked(t) <==> HasChild(run[k], p, t, NPROC) && !run[k].proc[p].killed)
            && (run[k + 1].proc[p].pc != SleepLocked(t) ==> run[k + 1].proc[p].pc == Run)
            && forall c: nat :: c < NPROC ==> !ZombieFor(run[k], p, c, t)
  {
    RunFound(run, steps, k);
    assert Each(run[k], p) && FoundOk(run[k], p);
    forall c: nat | c < NPROC ensures !ZombieFor(run[k], p, c, run[k].proc[p].pc.t) { assert Pair(run[k], p, c); }
  }

  /** Whoever sleeps in wait has a child that they wait for. */
  lemma SleeperHasChild(run: seq<S>, steps: seq<Step>, k: nat, p: nat)
    requires IsRun(run, steps) && k < |run| && Shape(run[k]) && p < NPROC && run[k].proc[p].pc.Asleep?
    ensures HasChild(run[k], p, run[k].proc[p].pc.t, NPROC)
  {
    RunFound(run, steps, k);
    assert FoundOk(run[k], p);
  }

  /** kill marks its victim, which does not sleep on. */
  lemma KillMarks(s: S, q: nat)
    requires Inv(s) && Enabled(s, Kill(q))
    ensures var u := Do(s, Kill(q));
            && u.proc[q].killed && u.proc[q].st != SLEEPING && u.proc[q].pc == s.proc[q].pc
            && forall p: nat :: p < NPROC && p != q ==> u.proc[p] == s.proc[p]
  {
  }

  /** Nothing else marks a process as killed or takes the mark away while it is in use. */
  lemma OnlyKilled(s: S, a: Step, c: nat)
    requires Inv(s) && Enabled(s, a) && c < NPROC && Do(s, a).proc[c].st != UNUSED
    ensures Shape(Do(s, a)) && (Do(s, a).proc[c].killed <==> s.proc[c].killed || a == Kill(c))
  {
    if a.WaitVisit? { VisitKills(s, a, c); }
  }

  lemma VisitKills(s: S, a: Step, c: nat)
    requires Inv(s) && Enabled(s, a) && a.WaitVisit? && c < NPROC && Do(s, a).proc[c].st != UNUSED
    ensures Shape(Do(s, a)) && (Do(s, a).proc[c].killed <==> s.proc[c].killed)
  {
  }
}
