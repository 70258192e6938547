/**
 The life of a disk request over whole runs of the driver and the device: whatever happens
 to other requests, one that virtio_disk_rw returns from was taken, completed without error
 and handled, once each and in that order.
 */
module VirtioRun {
  import opened Virtio

  ghost predicate IsRun(run: seq<Q>, steps: seq<Step>) {
    |run| == |steps| + 1 && forall k: nat :: k < |steps| ==> StepAt(run, steps, k)
  }

  ghost predicate StepAt(run: seq<Q>, steps: seq<Step>, k: nat)
    requires k < |steps| && k + 1 < |run|
  {
    QStep(run[k], run[k + 1], steps[k])
  }

  /** Step `i` enters a request with head `a`, and up to state `m` its chain is not freed. */
  ghost predicate Issued(run: seq<Q>, steps: seq<Step>, i: nat, m: nat, a: nat) {
    && IsRun(run, steps) && i < m < |run| && steps[i].Issue? && steps[i].a == a
    && forall k: nat :: i < k < m ==> steps[k] != Drop(a)
  }

  /** The phase at state `t` of a request taken at step `x`, completed at `y` and handled at `z`. */
  function PhaseBy(t: nat, x: nat, y: nat, z: nat): Phase {
    if t <= x then Queued else if t <= y then AtDevice else if t <= z then Done else Handled
  }

  /** The request at state `t`. */
  predicate Shows(q: Q, a: nat, s: Step, phase: Phase)
    requires s.Issue?
  {
    a in q.fl && q.fl[a].d1 == s.d1 && q.fl[a].d2 == s.d2 && q.fl[a].buf == s.b && q.fl[a].phase == phase
  }

  /** What has happened to the request between steps `i` and `m`; a step that has not happened counts as `m`. */
  ghost predicate Story(run: seq<Q>, steps: seq<Step>, i: nat, m: nat, a: nat, x: nat, y: nat, z: nat) {
    && i < m < |run| == |steps| + 1 && steps[i].Issue? && i < x <= y <= z <= m
    && (x < m ==> x < y && steps[x] == Take(a))
    && (y < m ==> y < z && steps[y] == Complete(a, a in run[m].fl && run[m].fl[a].ok))
    && (z < m ==> steps[z] == Handle(a) && steps[y] == Complete(a, true))
    && (forall t: nat :: i < t <= m ==> Shows(run[t], a, steps[i], PhaseBy(t, x, y, z)))
  }

  /** A step other than one of its own leaves a request alone, and its own steps come in order. */
  lemma Others(q: Q, r: Q, step: Step, a: nat)
    requires QStep(q, r, step) && a in q.fl && step != Drop(a)
    ensures a in r.fl
    ensures step != Take(a) && step != Handle(a) && (step.Complete? ==> step.h != a) ==> r.fl[a] == q.fl[a]
    ensures step == Take(a) ==> q.fl[a].phase == Queued && r.fl[a] == q.fl[a].(phase := AtDevice)
    ensures step.Complete? && step.h == a ==>
            q.fl[a].phase == AtDevice && r.fl[a] == q.fl[a].(phase := Done, ok := step.ok)
    ensures step == Handle(a) ==> q.fl[a].phase == Done && q.fl[a].ok && r.fl[a] == q.fl[a].(phase := Handled)
  {
  }

  lemma {:induction false} StoryOf(run: seq<Q>, steps: seq<Step>, i: nat, m: nat, a: nat)
      returns (x: nat, y: nat, z: nat)
    requires Issued(run, steps, i, m, a)
    ensures Story(run, steps, i, m, a, x, y, z)
    decreases m
  {
    if m == i + 1 {
      x, y, z := m, m, m;
      assert StepAt(run, steps, i);
    } else {
      var k := m - 1;
      x, y, z := StoryOf(run, steps, i, k, a);
      assert StepAt(run, steps, k) && Shows(run[k], a, steps[i], PhaseBy(k, x, y, z));
      Others(run[k], run[m], steps[k], a);
      x, y, z := Extend(run, steps, i, k, a, x, y, z);
    }
  }

  /** One more step. */
  lemma Extend(run: seq<Q>, steps: seq<Step>, i: nat, k: nat, a: nat, x: nat, y: nat, z: nat)
      returns (x': nat, y': nat, z': nat)
    requires Story(run, steps, i, k, a, x, y, z) && k + 1 < |run| && a in run[k].fl && a in run[k + 1].fl
    requires var q, r, step := run[k], run[k + 1], steps[k];
             && (step != Take(a) && step != Handle(a) && (step.Complete? ==> step.h != a) ==> r.fl[a] == q.fl[a])
             && (step == Take(a) ==> q.fl[a].phase == Queued && r.fl[a] == q.fl[a].(phase := AtDevice))
             && (step.Complete? && step.h == a ==>
                 q.fl[a].phase == AtDevice && r.fl[a] == q.fl[a].(phase := Done, ok := step.ok))
             && (step == Handle(a) ==> q.fl[a].phase == Done && q.fl[a].ok && r.fl[a] == q.fl[a].(phase := Handled))
    ensures Story(run, steps, i, k + 1, a, x', y', z')
  {
    var m := k + 1;
    assert Shows(run[k], a, steps[i], PhaseBy(k, x, y, z));
    x' := if x < k || steps[k] == Take(a) then x else m;
    y' := if y < k || (steps[k].Complete? && steps[k].h == a) then y else m;
    z' := if z < k || steps[k] == Handle(a) then z else m;
    forall t: nat | i < t <= m ensures Shows(run[t], a, steps[i], PhaseBy(t, x', y', z')) {
      if t < m { assert Shows(run[t], a, steps[i], PhaseBy(t, x, y, z)); }
    }
  }

  /**
   virtio_disk_rw returns only after its own request came back.  Between the step that enters
   the request and the step that frees its chain, the device took it, completed it with status
   0, and the interrupt handler handled that completion, in this order and once each; at every
   moment in between the request shows the phase that this makes it have.
   */
  lemma Lifecycle(run: seq<Q>, steps: seq<Step>, i: nat, m: nat, a: nat) returns (x: nat, y: nat, z: nat)
    requires Issued(run, steps, i, m, a) && m < |steps| && steps[m] == Drop(a)
    ensures i < x < y < z < m && steps[x] == Take(a) && steps[y] == Complete(a, true) && steps[z] == Handle(a)
    ensures forall t: nat :: i < t <= m ==> Shows(run[t], a, steps[i], PhaseBy(t, x, y, z))
    ensures forall k: nat :: i < k < m && k != x && k != y && k != z ==>
            steps[k] != Take(a) && steps[k] != Handle(a) && (steps[k].Complete? ==> steps[k].h != a)
  {
    x, y, z := StoryOf(run, steps, i, m, a);
    assert StepAt(run, steps, m) && Shows(run[m], a, steps[i], PhaseBy(m, x, y, z));
    forall k: nat | i < k < m && k != x && k != y && k != z
      ensures steps[k] != Take(a) && steps[k] != Handle(a) && (steps[k].Complete? ==> steps[k].h != a)
    {
      Once(run, steps, i, m, a, x, y, z, k);
    }
  }

  lemma Once(run: seq<Q>, steps: seq<Step>, i: nat, m: nat, a: nat, x: nat, y: nat, z: nat, k: nat)
    requires IsRun(run, steps) && i < k < m < |run| && k != x && k != y && k != z && steps[i].Issue?
             && steps[k] != Drop(a)
    requires x < y < z && forall t: nat :: i < t <= m ==> Shows(run[t], a, steps[i], PhaseBy(t, x, y, z))
    ensures steps[k] != Take(a) && steps[k] != Handle(a) && (steps[k].Complete? ==> steps[k].h != a)
  {
    assert StepAt(run, steps, k);
    assert Shows(run[k], a, steps[i], PhaseBy(k, x, y, z)) && Shows(run[k + 1], a, steps[i], PhaseBy(k + 1, x, y, z));
    Others(run[k], run[k + 1], steps[k], a);
  }
}
