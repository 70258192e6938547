/**
 sleep and wakeup in kernel/proc.c under any condition lock and channel: a wakeup made
 with the condition lock held reaches every process that tested its condition under
 that lock and went to sleep on the channel.
 */
module SleepWake {

  datatype Pc =
    | Working
    | SleepLocked(chan: nat, lk: nat)         // sleep: p->lock taken, lk still held
    | SleepCommitted(chan: nat, lk: nat)      // lk released, p->lock held
    | Asleep(chan: nat, lk: nat)              // switched away; the scheduler gave p->lock back
    | Reacquire(lk: nat)                      // woken, about to take lk again
    | Wakeup(chan: nat, j: nat)               // in wakeup's loop

  /** `sleeping` is p->state == SLEEPING; `held` are the condition locks the process holds. */
  datatype Proc = Proc(pc: Pc, sleeping: bool, held: set<nat>)

  type S = seq<Proc>

  datatype Step =
    | Acquire(p: nat, lk: nat) | Release(p: nat, lk: nat)
    | Sleep(p: nat, chan: nat, lk: nat) | SleepRelease(p: nat) | SleepMark(p: nat) | Resume(p: nat) | Again(p: nat)
    | WakeBegin(p: nat, chan: nat) | WakeVisit(p: nat) | Kill(p: nat)

  predicate HoldsOwn(pc: Pc) {
    pc.SleepLocked? || pc.SleepCommitted?
  }

  ghost predicate Unheld(s: S, lk: nat) {
    forall q :: 0 <= q < |s| ==> lk !in s[q].held
  }

  ghost predicate Enabled(s: S, a: Step) {
    a.p < |s| &&
    match a
    case Acquire(p, lk) => s[p].pc == Working && Unheld(s, lk)
    case Release(p, lk) => s[p].pc == Working && lk in s[p].held
    case Sleep(p, chan, lk) => s[p].pc == Working && lk in s[p].held
    case SleepRelease(p) => s[p].pc.SleepLocked?
    case SleepMark(p) => s[p].pc.SleepCommitted?
    case Resume(p) => s[p].pc.Asleep? && !s[p].sleeping
    case Again(p) => s[p].pc.Reacquire? && Unheld(s, s[p].pc.lk)
    case WakeBegin(p, chan) => s[p].pc == Working
    case WakeVisit(p) => s[p].pc.Wakeup? && (s[p].pc.j < |s| && s[p].pc.j != p ==> !HoldsOwn(s[s[p].pc.j].pc))
    case Kill(p) => !HoldsOwn(s[p].pc)
  }

  ghost function Do(s: S, a: Step): S
    requires Enabled(s, a)
  {
    var x := s[a.p];
    match a
    case Acquire(p, lk) => s[p := x.(held := x.held + {lk})]
    case Release(p, lk) => s[p := x.(held := x.held - {lk})]
    case Sleep(p, chan, lk) => s[p := x.(pc := SleepLocked(chan, lk))]
    case SleepRelease(p) => s[p := x.(pc := SleepCommitted(x.pc.chan, x.pc.lk), held := x.held - {x.pc.lk})]
    case SleepMark(p) => s[p := x.(pc := Asleep(x.pc.chan, x.pc.lk), sleeping := true)]
    case Resume(p) => s[p := x.(pc := Reacquire(x.pc.lk))]
    case Again(p) => s[p := x.(pc := Working, held := x.held + {x.pc.lk})]
    case WakeBegin(p, chan) => s[p := x.(pc := Wakeup(chan, 0))]
    case WakeVisit(p) =>
      if x.pc.j >= |s| then s[p := x.(pc := Working)]
      else Visited(s, p, x.pc.j, x.pc.chan)[p := x.(pc := Wakeup(x.pc.chan, x.pc.j + 1))]
    case Kill(p) => s[p := x.(sleeping := false)]
  }

  function Visited(s: S, p: nat, j: nat, chan: nat): S
    requires j < |s|
  {
    if j != p && s[j].pc.Asleep? && s[j].sleeping && s[j].pc.chan == chan then s[j := s[j].(sleeping := false)] else s
  }

  /** The process tested its condition under `lk` and is asleep on `chan`, or can no longer turn back. */
  predicate Sleepy(x: Proc, chan: nat, lk: nat) {
    x.pc == SleepCommitted(chan, lk) || (x.pc == Asleep(chan, lk) && x.sleeping)
  }

  ghost predicate Exclusive(s: S) {
    forall p, q, lk :: 0 <= p < q < |s| && lk in s[p].held ==> lk !in s[q].held
  }

  predicate OwnOk(x: Proc) {
    && (x.pc.SleepLocked? ==> x.pc.lk in x.held)
    && (x.pc.SleepCommitted? || x.pc.Asleep? || x.pc.Reacquire? ==> x.pc.lk !in x.held)
    && (x.sleeping ==> x.pc.Asleep?)
  }

  /** wakeup has passed no sleeper that its caller's locks protect. */
  predicate Passed(s: S, w: nat, q: nat)
    requires w < |s| && q < |s|
  {
    s[w].pc.Wakeup? && q < s[w].pc.j && q != w && SleepyUnder(s[q], s[w].pc.chan) ==> s[q].pc.lk !in s[w].held
  }

  predicate SleepyUnder(x: Proc, chan: nat) {
    (x.pc.SleepCommitted? || (x.pc.Asleep? && x.sleeping)) && x.pc.chan == chan
  }

  ghost predicate Inv(s: S) {
    && Exclusive(s) && (forall p :: 0 <= p < |s| ==> OwnOk(s[p]))
    && forall w: nat, q: nat :: w < |s| && q < |s| ==> Passed(s, w, q)
  }

  lemma StepInv(s: S, a: Step)
    requires Inv(s) && Enabled(s, a)
    ensures Inv(Do(s, a))
  {
    var t := Do(s, a);
    assert OwnOk(s[a.p]);
    forall w: nat, q: nat | w < |t| && q < |t| ensures Passed(t, w, q) {
      assert Passed(s, w, q) && OwnOk(s[q]) && OwnOk(s[w]);
    }
  }

  ghost predicate IsRun(run: seq<S>, steps: seq<Step>) {
    && |run| == |steps| + 1
    && (forall p :: 0 <= p < |run[0]| ==> run[0][p] == Proc(Working, false, {}))
    && forall k :: 0 <= k < |steps| ==> Enabled(run[k], steps[k]) && run[k + 1] == Do(run[k], steps[k])
  }

  lemma {:induction false} RunInv(run: seq<S>, steps: seq<Step>, k: nat)
    requires IsRun(run, steps) && k < |run|
    ensures Inv(run[k])
    decreases k
  {
    if k > 0 {
      RunInv(run, steps, k - 1);
      StepInv(run[k - 1], steps[k - 1]);
    }
  }

  /**
   No lost wakeup: when wakeup(chan) comes to its end with `lk` held, nobody sleeps on `chan` having
   tested under `lk`.
   */
  lemma NoLostWakeup(run: seq<S>, steps: seq<Step>, k: nat, w: nat, q: nat, lk: nat)
    requires IsRun(run, steps) && k < |run| && w < |run[k]| && q < |run[k]| && q != w
    requires run[k][w].pc.Wakeup? && run[k][w].pc.j >= |run[k]| && lk in run[k][w].held
    ensures !Sleepy(run[k][q], run[k][w].pc.chan, lk)
  {
    RunInv(run, steps, k);
    assert Passed(run[k], w, q);
  }

  /** A step that ends the sleep of `p`: kill, or the visit of a wakeup on its channel. */
  predicate Rouses(s: S, a: Step, p: nat, chan: nat) {
    a == Kill(p) || (a.WakeVisit? && a.p < |s| && s[a.p].pc == Wakeup(chan, p))
  }

  lemma SleepsOn(s: S, a: Step, p: nat)
    requires Inv(s) && Enabled(s, a) && p < |s| && s[p].pc.Asleep? && s[p].sleeping
    ensures |Do(s, a)| == |s| && Do(s, a)[p].pc == s[p].pc && Do(s, a)[p].held == s[p].held
    ensures Do(s, a)[p].sleeping <==> !Rouses(s, a, p, s[p].pc.chan)
  {
    assert OwnOk(s[p]) && OwnOk(s[a.p]);
  }

  /** From `i` on up to `k`, process `p` is at `pc` and asleep. */
  ghost predicate AsleepFrom(run: seq<S>, i: nat, k: nat, p: nat, pc: Pc) {
    forall j :: i <= j <= k && j < |run| ==> p < |run[j]| && run[j][p].pc == pc && run[j][p].sleeping
  }

  /**
   Nobody wakes without a reason: a process that went to sleep on a channel is asleep, and
   without the condition lock, in every state until a kill or a wakeup on that channel.
   */
  lemma {:induction false} SleepsUntilRoused(run: seq<S>, steps: seq<Step>, i: nat, k: nat, p: nat)
    requires IsRun(run, steps) && i < |steps| && i < k < |run| && steps[i] == SleepMark(p) && p < |run[i]|
    requires run[i][p].pc.SleepCommitted? ==>
               forall j :: i < j < k ==> !Rouses(run[j], steps[j], p, run[i][p].pc.chan)
    ensures run[i][p].pc.SleepCommitted?
    ensures var pc := Asleep(run[i][p].pc.chan, run[i][p].pc.lk);
            AsleepFrom(run, i + 1, k, p, pc) && pc.lk !in run[k][p].held
    decreases k
  {
    RunInv(run, steps, k);
    assert Enabled(run[i], steps[i]) && run[i + 1] == Do(run[i], steps[i]);
    if k > i + 1 {
      SleepsUntilRoused(run, steps, i, k - 1, p);
      RunInv(run, steps, k - 1);
      assert run[k] == Do(run[k - 1], steps[k - 1]);
      SleepsOn(run[k - 1], steps[k - 1], p);
    }
    assert OwnOk(run[k][p]);
  }

  /** kill and wakeup rouse a sleeper, and nobody else. */
  lemma Roused(s: S, a: Step, p: nat)
    requires Inv(s) && Enabled(s, a) && p < |s| && s[p].pc.Asleep? && s[p].sleeping && Rouses(s, a, p, s[p].pc.chan)
    ensures !Do(s, a)[p].sleeping && Enabled(Do(s, a), Resume(p))
    ensures forall q :: 0 <= q < |s| && q != p ==> Do(s, a)[q].sleeping == s[q].sleeping
  {
    SleepsOn(s, a, p);
  }

  /** sleep is called with the condition lock, gives it up before it sleeps, and returns with it. */
  lemma SleepKeepsLock(s: S, a: Step, p: nat)
    requires Inv(s) && Enabled(s, a) && a.p == p
    ensures a.Sleep? ==> a.lk in s[p].held && Do(s, a)[p].pc == SleepLocked(a.chan, a.lk)
    ensures a.SleepRelease? ==> Do(s, a)[p].held == s[p].held - {s[p].pc.lk}
    ensures a.SleepMark? ==> Do(s, a)[p].sleeping && s[p].pc.lk !in s[p].held
    ensures a.Again? ==> Do(s, a)[p].pc == Working && Do(s, a)[p].held == s[p].held + {s[p].pc.lk}
    ensures a.Resume? ==> Do(s, a)[p].pc == Reacquire(s[p].pc.lk)
  {
    assert OwnOk(s[p]);
  }
}
