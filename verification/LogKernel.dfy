/**
 The procedures of kernel/log.c refine the machine: whatever calls are made, in whatever
 order, the states of the log are states of one run of LogMachine from boot, so what is
 proved of all runs holds of the code.
 */
module LogKernel {
  import opened Gates
  import opened LogCore
  import opened LogMachine
  import opened LogRuns
  import opened LogImpl

  lemma {:induction false} RunJoin(s: State, a: seq<Step>, t: State, b: seq<Step>, u: State)
    requires Run(s, a, t) && Run(t, b, u)
    ensures Run(s, a + b, u)
    decreases |a|
  {
    if a == [] {
      assert a + b == b;
    } else {
      RunJoin(Do(s, a[0]), a[1..], t, b, u);
      assert (a + b)[1..] == a[1..] + b;
    }
  }

  /** A run from boot (unfolded only at a Gate). */
  ghost predicate Traced(home: seq<Block>, start: State, steps: seq<Step>, s: State) {
    forall z: nat {:trigger Gate(z)} :: Gate(z) ==> Init(start, home) && Run(start, steps, s) && Inv(s, home)
  }

  lemma TracedMore(home: seq<Block>, start: State, steps: seq<Step>, s: State, more: seq<Step>, t: State)
    returns (all: seq<Step>)
    requires Traced(home, start, steps, s) && Run(s, more, t)
    ensures all == steps + more && Traced(home, start, all, t)
  {
    assert Gate(0);
    RunJoin(start, steps, s, more, t);
    RunInv(s, more, t, home);
    all := steps + more;
  }

  lemma OneStep(s: State, step: Step)
    requires Enabled(s, step)
    ensures Run(s, [step], Do(s, step))
  {
    assert [step][1..] == [] && Run(Do(s, step), [], Do(s, step));
  }

  /** Nothing but the disk, the groups and the open transaction differ. */
  predicate SameCalls(s: State, t: State) {
    && t.outstanding == s.outstanding && t.committing == s.committing && t.panicked == s.panicked
    && t.active == s.active && t.ended == s.ended && t.issued == s.issued && t.durable == s.durable
  }

  /** The disk writes of a procedure are steps of the machine. */
  lemma {:induction false} PathRuns(s: State, path: seq<Core>) returns (t: State)
    requires IsPath(path) && s.core == path[0] && !s.panicked
    ensures Run(s, Writes(|path| - 1), t) && t.core == Last(path) && SameCalls(s, t)
    decreases |path|
  {
    if |path| == 1 {
      t := s;
    } else {
      assert CanStep(path[0]) && path[1] == DiskStep(path[0]);
      var more := path[1..];
      forall i | 0 <= i < |more| - 1 ensures CanStep(more[i]) && more[i + 1] == DiskStep(more[i]) {
        assert more[i] == path[i + 1] && more[i + 1] == path[i + 2];
      }
      t := PathRuns(Do(s, DiskWrite), more);
      var n := |path| - 1;
      assert Writes(n) == [DiskWrite] + Writes(n - 1) && ([DiskWrite] + Writes(n - 1))[1..] == Writes(n - 1);
    }
  }

  /** What the procedures need to know of a state with no commit under way. */
  lemma IdleCore(home: seq<Block>, start: State, steps: seq<Step>, s: State)
      returns (committed: seq<Block>, view: seq<Block>)
    requires Traced(home, start, steps, s) && s.core.pc.Idle?
    ensures committed == ApplyGroups(home, s.groups) && view == ApplyWrites(committed, s.cur)
    ensures CoreInv(s.core, committed, view) && |s.core.disk.home| == |home| && !s.committing
  {
    assert Gate(0);
    committed := ApplyGroups(home, s.groups);
    view := ApplyWrites(committed, s.cur);
  }

  class Kernel {
    var log: Log
    ghost var home: seq<Block>          // the home blocks at boot
    ghost var start: State
    ghost var steps: seq<Step>
    ghost var s: State                  // where the run is

    ghost predicate Valid()
      reads this, log, log.block
    {
      && log.Valid() && Traced(home, start, steps, s) && !s.panicked
      && s.core == log.At(Idle) && s.outstanding == log.outstanding && !log.committing
    }

    /** Boot on a disk with an empty log. */
    constructor (d: Disk)
      requires ValidDisk(d) && d.header.n == 0
      ensures Valid() && fresh(log) && fresh(log.block) && home == d.home && s.issued == map[] && s.groups == []
      ensures log.disk.home == d.home && log.outstanding == 0
    {
      var l := new Log(d);
      log := l;
      home := d.home;
      ghost var s0 := State(Core(d, [], map[], RecoverRead), 0, false, false, map[], {}, map[], [], [], {});
      start := s0;
      assert l.At(RecoverRead) == s0.core;
      ghost var path := l.RecoverFromLog();
      ghost var t := PathRuns(s0, path);
      InitInv(s0, d.home);
      RunInv(s0, Writes(|path| - 1), t, d.home);
      steps := Writes(|path| - 1);
      s := t;
      NoGroups(s0, Writes(|path| - 1), t);
      assert d.header.block[..d.header.n] == [];
    }

    /** One turn of begin_op. */
    method BeginOp(op: nat) returns (admitted: bool)
      requires Valid() && op !in s.issued
      modifies this`steps, this`s, log`outstanding
      ensures Valid() && log == old(log) && home == old(home)
      ensures admitted <==> Enabled(old(s), LogMachine.BeginOp(op))
      ensures admitted ==> s == Do(old(s), LogMachine.BeginOp(op)) && steps == old(steps) + [LogMachine.BeginOp(op)]
      ensures !admitted ==> s == old(s) && steps == old(steps)
    {
      ghost var c, v := IdleCore(home, start, steps, s);
      admitted := log.BeginOp();
      if admitted {
        ghost var step := LogMachine.BeginOp(op);
        OneStep(s, step);
        ghost var t := Do(s, step);
        steps := TracedMore(home, start, steps, s, [step], t);
        s := t;
      }
    }

    /** log_write by an operation; a panic is one of the machine. */
    method LogWrite(op: nat, bn: nat, data: Block) returns (panicked: bool)
      requires Valid() && op in s.active && bn < |home|
      modifies this`steps, this`s, log`n, log`cache, log.block
      ensures log == old(log) && home == old(home) && Enabled(old(s), LogMachine.LogWrite(op, bn, data))
      ensures panicked <==> Do(old(s), LogMachine.LogWrite(op, bn, data)).panicked
      ensures !panicked ==>
                Valid() && s == Do(old(s), LogMachine.LogWrite(op, bn, data))
                && steps == old(steps) + [LogMachine.LogWrite(op, bn, data)]
    {
      ghost var c, v := IdleCore(home, start, steps, s);
      ghost var step := LogMachine.LogWrite(op, bn, data);
      ghost var t := WriteIs(s, op, bn, data);
      panicked := log.LogWrite(bn, data);
      if !panicked {
        steps := TracedMore(home, start, steps, s, [step], t);
        s := t;
      }
    }

    /** end_op of an operation: a step of the machine, and the commit when it was the last one out. */
    method EndOp(op: nat) returns (panicked: bool, ghost n: nat)
      requires Valid() && op in s.active
      modifies this`steps, this`s, log
      ensures !panicked && Valid() && log == old(log) && home == old(home)
      ensures log.outstanding == old(log.outstanding) - 1
      ensures log.outstanding > 0 ==>
                steps == old(steps) + [LogMachine.EndOp(op)] && log.disk == old(log.disk)
      ensures log.outstanding == 0 ==>
                && steps == old(steps) + ([LogMachine.EndOp(op)] + (Writes(n) + [Finish]))
                && op in s.durable && log.disk.home == ApplyGroups(home, s.groups)
    {
      ghost var committed, view := IdleCore(home, start, steps, s);
      ghost var step, s0 := LogMachine.EndOp(op), s;
      ActiveCount(home, start, steps, s, op);
      OneStep(s0, step);
      ghost var s1 := Do(s0, step);
      ghost var path;
      n := 0;
      panicked, path := log.EndOp(committed, view);
      if log.outstanding > 0 {
        steps := TracedMore(home, start, steps, s0, [step], s1);
        s := s1;
      } else {
        ghost var t;
        n, t := CommitRun(s0, s1, op, path, log.At(CommitDone));
        ghost var more := [step] + (Writes(n) + [Finish]);
        steps := TracedMore(home, start, steps, s0, more, t);
        s := t;
        CommittedHome(home, start, steps, t);
      }
    }

    /** A crash and the reboot after it. */
    method CrashAndBoot()
      requires Valid()
      modifies this`log, this`steps, this`s
      ensures Valid() && fresh(log) && fresh(log.block) && home == old(home)
      ensures |steps| > |old(steps)| && steps == old(steps) + ([Crash] + Writes(|steps| - |old(steps)| - 1))
      ensures s.groups == old(s.groups) && log.disk.home == ApplyGroups(home, s.groups)
    {
      ghost var c, v := IdleCore(home, start, steps, s);
      ghost var s1 := Do(s, Crash);
      OneStep(s, Crash);
      var l := new Log(log.disk);
      assert l.At(RecoverRead) == s1.core;
      ghost var path := l.RecoverFromLog();
      ghost var t := PathRuns(s1, path);
      RunJoin(s, [Crash], s1, Writes(|path| - 1), t);
      NoGroups(s1, Writes(|path| - 1), t);
      steps := TracedMore(home, start, steps, s, [Crash] + Writes(|path| - 1), t);
      s := t;
      log := l;
    }
  }

  lemma WriteIs(s: State, op: nat, bn: nat, data: Block) returns (t: State)
    requires !s.panicked && op in s.active && bn < |s.core.disk.home|
    ensures Enabled(s, LogMachine.LogWrite(op, bn, data)) && t == Do(s, LogMachine.LogWrite(op, bn, data))
    ensures Run(s, [LogMachine.LogWrite(op, bn, data)], t)
    ensures t.panicked <==> |s.core.lh| >= LOGBLOCKS || s.outstanding < 1
    ensures !t.panicked ==>
              && t.core == s.core.(lh := if bn in s.core.lh then s.core.lh else s.core.lh + [bn],
                   cache := s.core.cache[bn := data])
              && t.outstanding == s.outstanding
  {
    t := Do(s, LogMachine.LogWrite(op, bn, data));
    OneStep(s, LogMachine.LogWrite(op, bn, data));
  }

  /** Disk writes outside a commit add no group. */
  lemma {:induction false} NoGroups(s: State, steps: seq<Step>, t: State)
    requires Run(s, steps, t) && (!Booted(s) || s.core.pc.Idle?) && forall i :: 0 <= i < |steps| ==>
               steps[i] == DiskWrite
    ensures t.groups == s.groups
    decreases |steps|
  {
    if steps != [] {
      NoGroups(Do(s, steps[0]), steps[1..], t);
    }
  }

  lemma ActiveCount(home: seq<Block>, start: State, steps: seq<Step>, s: State, op: nat)
    requires Traced(home, start, steps, s) && op in s.active && s.core.pc.Idle? && !s.panicked
    ensures s.outstanding > 0 && Enabled(s, LogMachine.EndOp(op)) && !Do(s, LogMachine.EndOp(op)).panicked
  {
    assert Gate(0);
    assert op in s.active.Keys;
  }

  /** The last end_op, its disk writes and the step that clears log.committing. */
  lemma CommitRun(s0: State, s1: State, op: nat, path: seq<Core>, last: Core) returns (n: nat, t: State)
    requires Enabled(s0, LogMachine.EndOp(op)) && s1 == Do(s0, LogMachine.EndOp(op)) && !s0.committing
             && s0.outstanding == 1
    requires last.pc == CommitDone
    requires if s0.core.lh == [] then last == s0.core.(pc := CommitDone)
             else IsPath(path) && path[0] == s0.core.(pc := CommitLog(0)) && Last(path) == last
    ensures Run(s0, [LogMachine.EndOp(op)] + (Writes(n) + [Finish]), t)
    ensures t.core == last.(pc := Idle) && t.outstanding == 0 && !t.committing && !t.panicked && op in t.durable
  {
    var u;
    if s0.core.lh == [] {
      n, u := 0, s1;
    } else {
      n := |path| - 1;
      u := PathRuns(s1, path);
    }
    t := Do(u, Finish);
    OneStep(u, Finish);
    RunJoin(s1, Writes(n), u, [Finish], t);
    OneStep(s0, LogMachine.EndOp(op));
    RunJoin(s0, [LogMachine.EndOp(op)], s1, Writes(n) + [Finish], t);
  }

  lemma CommittedHome(home: seq<Block>, start: State, steps: seq<Step>, t: State)
    requires Traced(home, start, steps, t) && t.core.pc.Idle? && t.outstanding == 0 && !t.committing
    ensures t.core.disk.home == ApplyGroups(home, t.groups)
  {
    assert Gate(0);
    NothingLeft(home, start, steps, t);
  }
}
