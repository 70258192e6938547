/**
 Log-space admission: what begin_op's reservation of MAXOPBLOCKS block numbers per
 operation guarantees about log_write's "too big a transaction" panic.
 */
module LogSpace {
  import opened Common
  import opened LogCore
  import opened LogMachine

  /** Block numbers that the active operations have reserved and not yet used. */
  ghost function Unused(active: map<nat, nat>): int {
    if active == map[] then 0
    else
      var op :| op in active;
      MAXOPBLOCKS - active[op] + Unused(active - {op})
  }

  lemma {:induction false} UnusedWithout(active: map<nat, nat>, op: nat)
    requires op in active
    ensures Unused(active) == MAXOPBLOCKS - active[op] + Unused(active - {op})
    decreases |active|
  {
    var o :| o in active && Unused(active) == MAXOPBLOCKS - active[o] + Unused(active - {o});
    if o != op {
      UnusedWithout(active - {o}, op);
      UnusedWithout(active - {op}, o);
      assert active - {o} - {op} == active - {op} - {o};
    }
  }

  lemma UnusedUpdate(active: map<nat, nat>, op: nat, n: nat)
    ensures Unused(active[op := n]) == MAXOPBLOCKS - n + Unused(active - {op})
  {
    UnusedWithout(active[op := n], op);
    assert active[op := n] - {op} == active - {op};
  }

  lemma {:induction false} UnusedBounds(active: map<nat, nat>)
    requires forall op :: op in active ==> active[op] <= MAXOPBLOCKS
    ensures 0 <= Unused(active) <= |active| * MAXOPBLOCKS
    decreases |active|
  {
    if active != map[] {
      var op :| op in active;
      UnusedWithout(active, op);
      assert (active - {op}).Keys == active.Keys - {op};
      UnusedBounds(active - {op});
    }
  }

  /** The caller's side of the bargain: an operation lists at most `limit` new block numbers. */
  predicate Within(s: State, step: Step, limit: nat) {
    step.LogWrite? && step.bn !in s.core.lh && step.op in s.active ==> s.active[step.op] < limit
  }

  ghost predicate RunWithin(s: State, steps: seq<Step>, limit: nat)
    decreases |steps|
  {
    steps != [] ==>
      Enabled(s, steps[0]) ==> Within(s, steps[0], limit) && RunWithin(Do(s, steps[0]), steps[1..], limit)
  }

  /** Listed numbers and reservations together fit in the log. */
  ghost predicate SpaceInv(s: State, limit: nat) {
    && |s.core.lh| + Unused(s.active) <= LOGBLOCKS
    && forall op :: op in s.active ==> s.active[op] <= limit
  }

  lemma StepSpace(s: State, step: Step, home: seq<Block>, limit: nat)
    requires Inv(s, home) && SpaceInv(s, limit) && Enabled(s, step) && Within(s, step, limit)
    requires limit <= MAXOPBLOCKS
    ensures SpaceInv(Do(s, step), limit)
  {
    match step
    case BeginOp(op) =>
      assert OpInv(s, op);
      BeginSpace(s, op, limit);
    case LogWrite(op, bn, data) => LogWriteSpace(s, step, limit);
    case EndOp(op) => UnusedWithout(s.active, op);
    case DiskWrite => DiskWriteSpace(s, home, limit);
    case Finish =>
    case Crash =>
  }

  lemma BeginSpace(s: State, op: nat, limit: nat)
    requires SpaceInv(s, limit) && Enabled(s, BeginOp(op)) && limit <= MAXOPBLOCKS
    requires op !in s.active && s.outstanding == |s.active|
    ensures SpaceInv(Do(s, BeginOp(op)), limit)
  {
    assert s.active - {op} == s.active;
    UnusedUpdate(s.active, op, 0);
    UnusedBounds(s.active);
  }

  lemma LogWriteSpace(s: State, step: Step, limit: nat)
    requires SpaceInv(s, limit) && step.LogWrite? && Enabled(s, step) && Within(s, step, limit)
    ensures SpaceInv(Do(s, step), limit)
  {
    UnusedWithout(s.active, step.op);
    UnusedUpdate(s.active, step.op, s.active[step.op] + 1);
  }

  lemma DiskWriteSpace(s: State, home: seq<Block>, limit: nat)
    requires Inv(s, home) && SpaceInv(s, limit) && Enabled(s, DiskWrite)
    ensures SpaceInv(Do(s, DiskWrite), limit)
  {
    assert s.active == map[];
    assert |Do(s, DiskWrite).core.lh| <= LOGBLOCKS by { StepInv(s, DiskWrite, home); }
  }

  lemma {:induction false} RunSpace(s: State, steps: seq<Step>, t: State, home: seq<Block>, limit: nat)
    requires Inv(s, home) && SpaceInv(s, limit) && Run(s, steps, t) && RunWithin(s, steps, limit)
    requires limit <= MAXOPBLOCKS
    ensures Inv(t, home) && SpaceInv(t, limit)
    ensures limit < MAXOPBLOCKS && !s.panicked ==> !t.panicked
    decreases |steps|
  {
    if steps != [] {
      StepInv(s, steps[0], home);
      StepSpace(s, steps[0], home, limit);
      if limit < MAXOPBLOCKS && !s.panicked { NoPanicStep(s, steps[0], home, limit); }
      RunSpace(Do(s, steps[0]), steps[1..], t, home, limit);
    }
  }

  lemma NoPanicStep(s: State, step: Step, home: seq<Block>, limit: nat)
    requires Inv(s, home) && SpaceInv(s, limit) && Enabled(s, step) && limit < MAXOPBLOCKS && !s.panicked
    ensures !Do(s, step).panicked
  {
    if step.LogWrite? {
      RoomForActive(s, step.op, limit);
      assert step.op in s.active.Keys;
    }
  }

  lemma RoomForActive(s: State, op: nat, limit: nat)
    requires SpaceInv(s, limit) && op in s.active && limit <= MAXOPBLOCKS
    ensures |s.core.lh| <= LOGBLOCKS - (MAXOPBLOCKS - s.active[op])
  {
    UnusedWithout(s.active, op);
    UnusedBounds(s.active - {op});
  }

  /**
   If every operation adds fewer than MAXOPBLOCKS block numbers, no panic of
   begin_op, log_write or end_op is reachable, in any run with any crashes.
   */
  lemma NoPanic(home: seq<Block>, s: State, steps: seq<Step>, t: State)
    requires Init(s, home) && Run(s, steps, t) && RunWithin(s, steps, MAXOPBLOCKS - 1)
    ensures !t.panicked
    ensures |t.core.lh| <= LOGBLOCKS && Distinct(t.core.lh)
    ensures t.committing ==> t.outstanding == 0
  {
    InitInv(s, home);
    RunSpace(s, steps, t, home, MAXOPBLOCKS - 1);
  }

  /**
   With the full allowance of MAXOPBLOCKS, log_write panics exactly when the header
   is full, and then only on a number that is already listed: a write that would
   have needed no space.
   */
  lemma PanicExactly(home: seq<Block>, s: State, steps: seq<Step>, t: State, op: nat, bn: nat, data: Block)
    requires Init(s, home) && Run(s, steps, t) && RunWithin(s, steps, MAXOPBLOCKS)
    requires Enabled(t, LogWrite(op, bn, data)) && Within(t, LogWrite(op, bn, data), MAXOPBLOCKS)
    ensures Do(t, LogWrite(op, bn, data)).panicked <==> |t.core.lh| == LOGBLOCKS
    ensures Do(t, LogWrite(op, bn, data)).panicked ==> bn in t.core.lh
  {
    InitInv(s, home);
    RunSpace(s, steps, t, home, MAXOPBLOCKS);
    RoomForActive(t, op, MAXOPBLOCKS);
    assert op in t.active.Keys;
  }

  // ---------- the full allowance really can panic ----------

  lemma {:induction false} RunThen(s: State, steps: seq<Step>, t: State, step: Step, limit: nat)
    requires Run(s, steps, t) && RunWithin(s, steps, limit)
    requires Enabled(t, step) && Within(t, step, limit)
    ensures Run(s, steps + [step], Do(t, step)) && RunWithin(s, steps + [step], limit)
    decreases |steps|
  {
    if steps == [] {
      assert ([step])[1..] == [];
    } else {
      RunThen(Do(s, steps[0]), steps[1..], t, step, limit);
      assert (steps + [step])[1..] == steps[1..] + [step];
    }
  }

  function UpTo(n: nat): (r: seq<nat>)
    ensures |r| == n && forall i :: 0 <= i < n ==> r[i] == i
  {
    seq(n, i => i)
  }

  /** Three operations, the first `n` block numbers listed in order, ten to each. */
  ghost predicate Filled(t: State, n: nat) {
    && n <= LOGBLOCKS && t.core.lh == UpTo(n) && t.outstanding == 3 && !t.panicked && |t.core.disk.home| >= LOGBLOCKS
    && t.active.Keys == {0, 1, 2}
    && (forall k :: 0 <= k < 3 ==>
        t.active[k] == if n <= 10 * k then 0 else if n <= 10 * k + 10 then n - 10 * k else 10)
  }

  lemma {:induction false} FillLog(s: State, steps: seq<Step>, t: State, n: nat) returns (more: seq<Step>, u: State)
    requires Run(s, steps, t) && RunWithin(s, steps, MAXOPBLOCKS) && Filled(t, n)
    ensures Run(s, more, u) && RunWithin(s, more, MAXOPBLOCKS) && Filled(u, LOGBLOCKS)
    decreases LOGBLOCKS - n
  {
    if n == LOGBLOCKS {
      more, u := steps, t;
    } else {
      var step := LogWrite(n / 10, n, []);
      RunThen(s, steps, t, step, MAXOPBLOCKS);
      assert Do(t, step).core.lh == UpTo(n + 1);
      more, u := FillLog(s, steps + [step], Do(t, step), n + 1);
    }
  }

  /** A run in which no operation adds more than MAXOPBLOCKS numbers and log_write still panics. */
  lemma FullLogPanics(s: State, home: seq<Block>) returns (steps: seq<Step>, t: State)
    requires Init(s, home) && |home| >= LOGBLOCKS
    ensures Run(s, steps, t) && RunWithin(s, steps, MAXOPBLOCKS) && t.panicked
  {
    steps, t := [], s;
    RunThen(s, steps, t, DiskWrite, MAXOPBLOCKS);
    steps, t := steps + [DiskWrite], Do(t, DiskWrite);
    assert t.core.lh == [] && t.core.pc == RecoverClear;
    RunThen(s, steps, t, DiskWrite, MAXOPBLOCKS);
    steps, t := steps + [DiskWrite], Do(t, DiskWrite);
    RunThen(s, steps, t, BeginOp(0), MAXOPBLOCKS);
    steps, t := steps + [BeginOp(0)], Do(t, BeginOp(0));
    RunThen(s, steps, t, BeginOp(1), MAXOPBLOCKS);
    steps, t := steps + [BeginOp(1)], Do(t, BeginOp(1));
    RunThen(s, steps, t, BeginOp(2), MAXOPBLOCKS);
    steps, t := steps + [BeginOp(2)], Do(t, BeginOp(2));
    steps, t := FillLog(s, steps, t, 0);
    assert UpTo(LOGBLOCKS)[0] == 0;
    RunThen(s, steps, t, LogWrite(2, 0, []), MAXOPBLOCKS);
    steps, t := steps + [LogWrite(2, 0, [])], Do(t, LogWrite(2, 0, []));
  }
}
