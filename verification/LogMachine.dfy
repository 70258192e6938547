/**
 Whole runs of the logging system of kernel/log.c: any interleaving of begin_op,
 log_write and end_op by any number of operations, the disk steps of commit, and a
 crash between any two steps, also during recovery.  Each step is what happens
 under one hold of log.lock, or one disk write.
 */
module LogMachine {
  import opened LogCore

  /** One log_write: operation `op` has changed block `bn` to `data`. */
  datatype Write = Write(op: nat, bn: nat, data: Block)

  /**
   `core`, `outstanding`, `committing` are the kernel's state, `panicked` a halt.
   The other fields record the history: which operations are between begin_op and
   end_op and how many block numbers each has added to the header, which have ended
   since the last commit, every write each operation ever logged, the writes of the
   open transaction, the committed transactions, and the operations whose commit
   has been acknowledged.
   */
  datatype State = State(
    core: Core, outstanding: nat, committing: bool, panicked: bool,
    active: map<nat, nat>, ended: set<nat>, issued: map<nat, seq<Write>>,
    cur: seq<Write>, groups: seq<seq<Write>>, durable: set<nat>)

  datatype Step =
    | BeginOp(op: nat)
    | LogWrite(op: nat, bn: nat, data: Block)
    | EndOp(op: nat)
    | DiskWrite
    | Finish
    | Crash

  // ---------- the steps ----------

  /** The test in begin_op; the caller sleeps while it is false. */
  predicate Admits(s: State) {
    && !s.committing
    && |s.core.lh| + (s.outstanding + 1) * MAXOPBLOCKS <= LOGBLOCKS
  }

  /** No operation starts before recovery has finished, since fsinit runs first. */
  predicate Booted(s: State) {
    !s.core.pc.RecoverRead? && !s.core.pc.RecoverInstall? && !s.core.pc.RecoverClear?
  }

  ghost predicate Enabled(s: State, step: Step) {
    match step
    case Crash => true
    case BeginOp(op) => !s.panicked && Booted(s) && op !in s.issued && Admits(s)
    case LogWrite(op, bn, _) => !s.panicked && op in s.active && bn < |s.core.disk.home|
    case EndOp(op) => !s.panicked && op in s.active && s.outstanding > 0
    case DiskWrite => !s.panicked && CanStep(s.core)
    case Finish => !s.panicked && s.core.pc.CommitDone?
  }

  ghost function Do(s: State, step: Step): State
    requires Enabled(s, step)
  {
    match step
    case BeginOp(op) =>
      s.(outstanding := s.outstanding + 1, active := s.active[op := 0], issued := s.issued[op := []])
    case LogWrite(op, bn, data) => DoLogWrite(s, op, bn, data)
    case EndOp(op) => DoEndOp(s, op)
    case DiskWrite =>
      var core := DiskStep(s.core);
      if s.core.pc.CommitHead?
      then s.(core := core, groups := s.groups + [s.cur], cur := [])
      else s.(core := core)
    case Finish =>
      s.(core := s.core.(pc := Idle), committing := false, durable := s.durable + s.ended, ended := {})
    case Crash =>
      s.(core := Core(s.core.disk, [], map[], RecoverRead), outstanding := 0, committing := false,
         panicked := false, active := map[], ended := {}, cur := [])
  }

  ghost function DoLogWrite(s: State, op: nat, bn: nat, data: Block): State
    requires op in s.active
  {
    if |s.core.lh| >= LOGBLOCKS || s.outstanding < 1 then s.(panicked := true)
    else
      var w := Write(op, bn, data);
      var isNew := bn !in s.core.lh;
      s.(core := s.core.(lh := if isNew then s.core.lh + [bn] else s.core.lh,
                         cache := s.core.cache[bn := data]),
         active := if isNew then s.active[op := s.active[op] + 1] else s.active,
         issued := s.issued[op := (if op in s.issued then s.issued[op] else []) + [w]],
         cur := s.cur + [w])
  }

  ghost function DoEndOp(s: State, op: nat): State
    requires op in s.active && s.outstanding > 0
  {
    if s.committing then s.(panicked := true)
    else
      var t := s.(outstanding := s.outstanding - 1, active := s.active - {op}, ended := s.ended + {op});
      if s.outstanding == 1
      then t.(committing := true,
              core := s.core.(pc := if s.core.lh == [] then CommitDone else CommitLog(0)))
      else t
  }

  /** `t` is reached from `s` by `steps`. */
  ghost predicate Run(s: State, steps: seq<Step>, t: State)
    decreases |steps|
  {
    if steps == [] then s == t
    else Enabled(s, steps[0]) && Run(Do(s, steps[0]), steps[1..], t)
  }

  /** A machine that has just been switched on with an empty log. */
  ghost predicate Init(s: State, home: seq<Block>) {
    && ValidDisk(s.core.disk) && s.core.disk.header.n == 0 && s.core.disk.home == home
    && s == State(Core(s.core.disk, [], map[], RecoverRead), 0, false, false,
                  map[], {}, map[], [], [], {})
  }

  // ---------- what the committed groups mean ----------

  /** The home blocks after a list of writes. */
  function ApplyWrites(home: seq<Block>, ws: seq<Write>): (r: seq<Block>)
    ensures |r| == |home|
  {
    if ws == [] then home
    else
      var k := |ws| - 1;
      var h := ApplyWrites(home, ws[..k]);
      if ws[k].bn < |h| then h[ws[k].bn := ws[k].data] else h
  }

  /** The home blocks after a list of groups. */
  function ApplyGroups(home: seq<Block>, groups: seq<seq<Write>>): (r: seq<Block>)
    ensures |r| == |home|
  {
    if groups == [] then home
    else
      var k := |groups| - 1;
      ApplyWrites(ApplyGroups(home, groups[..k]), groups[k])
  }

  /** The writes of one operation, in the order it logged them. */
  function WritesOf(ws: seq<Write>, op: nat): seq<Write> {
    if ws == [] then []
    else
      var k := |ws| - 1;
      WritesOf(ws[..k], op) + if ws[k].op == op then [ws[k]] else []
  }

  ghost predicate InNoGroup(s: State, op: nat) {
    forall k :: 0 <= k < |s.groups| ==> WritesOf(s.groups[k], op) == []
  }

  ghost predicate InGroup(s: State, op: nat, k: nat)
    requires op in s.issued
  {
    && k < |s.groups|
    && WritesOf(s.groups[k], op) == s.issued[op]
    && forall j :: 0 <= j < |s.groups| && j != k ==> WritesOf(s.groups[j], op) == []
  }

  /** All of an operation's writes are in one group, or none is in any group. */
  ghost predicate Atomic(s: State, op: nat)
    requires op in s.issued
  {
    InNoGroup(s, op) || exists k: nat :: InGroup(s, op, k)
  }

  // ---------- the invariant ----------

  /** The open transaction has reached its commit point. */
  predicate PastCommitPoint(s: State) {
    s.core.pc.CommitInstall? || s.core.pc.CommitClear? || s.core.pc.CommitDone?
  }

  /** Operations whose writes are still in the open transaction. */
  ghost predicate Pending(s: State, op: nat) {
    op in s.active || (op in s.ended && !PastCommitPoint(s))
  }

  ghost predicate DiskInv(s: State, home: seq<Block>) {
    && |s.core.disk.home| == |home|
    && CoreInv(s.core, ApplyGroups(home, s.groups), ApplyWrites(ApplyGroups(home, s.groups), s.cur))
    && (PastCommitPoint(s) || !Booted(s) ==> s.cur == [])
    && (forall i :: 0 <= i < |s.cur| ==> s.cur[i].bn in s.core.lh)
  }

  ghost predicate LockInv(s: State) {
    && s.outstanding == |s.active|
    && s.committing == (Booted(s) && !s.core.pc.Idle?)
    && (s.committing || !Booted(s) ==> s.active == map[])
    && (!Booted(s) ==> s.ended == {})
  }

  ghost predicate OpInv(s: State, op: nat) {
    if op !in s.issued then
      !Pending(s, op) && op !in s.ended && op !in s.durable && WritesOf(s.cur, op) == [] && InNoGroup(s, op)
    else if Pending(s, op) then
      op !in s.durable && WritesOf(s.cur, op) == s.issued[op] && InNoGroup(s, op)
    else
      && WritesOf(s.cur, op) == [] && Atomic(s, op)
      && (op in s.durable || op in s.ended ==>
            s.issued[op] == [] || exists k: nat :: InGroup(s, op, k))
  }

  ghost predicate Inv(s: State, home: seq<Block>) {
    && DiskInv(s, home)
    && LockInv(s)
    && forall op :: OpInv(s, op)
  }

  lemma InitInv(s: State, home: seq<Block>)
    requires Init(s, home)
    ensures Inv(s, home)
  {
    assert s.core.disk.header.block[..s.core.disk.header.n] == [];
    assert s.core.disk.log[..s.core.disk.header.n] == [];
  }

  // ---------- preservation, step by step ----------

  lemma ApplyAppend(home: seq<Block>, ws: seq<Write>, w: Write)
    requires w.bn < |home|
    ensures ApplyWrites(home, ws + [w]) == ApplyWrites(home, ws)[w.bn := w.data]
  {
    assert (ws + [w])[..|ws|] == ws;
  }

  lemma WritesOfAppend(ws: seq<Write>, w: Write, op: nat)
    ensures WritesOf(ws + [w], op) == WritesOf(ws, op) + if w.op == op then [w] else []
  {
    assert (ws + [w])[..|ws|] == ws;
  }

  lemma LogWriteKeepsDisk(s: State, op: nat, bn: nat, data: Block, home: seq<Block>)
    requires DiskInv(s, home) && LockInv(s) && Enabled(s, LogWrite(op, bn, data))
    ensures DiskInv(Do(s, LogWrite(op, bn, data)), home)
  {
    var t, w := Do(s, LogWrite(op, bn, data)), Write(op, bn, data);
    if !t.panicked {
      var base := ApplyGroups(home, s.groups);
      var c := Pinned(s.core, base, ApplyWrites(base, s.cur), bn, data);
      ApplyAppend(base, s.cur, w);
      LoggedListed(s.cur, s.core.lh, w, c.lh);
      DiskInvIs(t, c, base, ApplyWrites(base, s.cur)[bn := data], home);
    }
  }

  lemma Pinned(c: Core, committed: seq<Block>, view: seq<Block>, bn: nat, data: Block) returns (d: Core)
    requires CoreInv(c, committed, view) && c.pc.Idle? && bn < |c.disk.home| && |c.lh| < LOGBLOCKS
    ensures |view| == |c.disk.home| && CoreInv(d, committed, view[bn := data])
    ensures d == c.(lh := if bn !in c.lh then c.lh + [bn] else c.lh, cache := c.cache[bn := data])
  {
    PinKeepsInv(c, committed, view, bn, data);
    d := Core(c.disk, if bn !in c.lh then c.lh + [bn] else c.lh, c.cache[bn := data], Idle);
  }

  lemma LoggedListed(ws: seq<Write>, lh: seq<nat>, w: Write, lh': seq<nat>)
    requires forall i :: 0 <= i < |ws| ==> ws[i].bn in lh
    requires lh' == if w.bn !in lh then lh + [w.bn] else lh
    ensures forall i :: 0 <= i < |ws + [w]| ==> (ws + [w])[i].bn in lh'
  {
  }

  lemma DiskInvIs(t: State, c: Core, base: seq<Block>, view: seq<Block>, home: seq<Block>)
    requires t.core == c && c.pc.Idle? && |c.disk.home| == |home| && CoreInv(c, base, view)
    requires base == ApplyGroups(home, t.groups) && view == ApplyWrites(base, t.cur)
    requires forall i :: 0 <= i < |t.cur| ==> t.cur[i].bn in c.lh
    ensures DiskInv(t, home)
  {
  }

  lemma LogWriteKeepsOps(s: State, op: nat, bn: nat, data: Block, home: seq<Block>)
    requires Inv(s, home) && Enabled(s, LogWrite(op, bn, data))
    ensures forall o :: OpInv(Do(s, LogWrite(op, bn, data)), o)
  {
    var t := Do(s, LogWrite(op, bn, data));
    forall o ensures OpInv(t, o) {
      assert OpInv(s, o) && OpInv(s, op);
      if !t.panicked {
        WritesOfAppend(s.cur, Write(op, bn, data), o);
        SameHistory(s, t, o);
      } else {
        SameHistory(s, t, o);
      }
    }
  }

  /** An operation whose history did not change keeps its place in the groups. */
  lemma SameHistory(s: State, t: State, op: nat)
    requires s.groups == t.groups
    ensures InNoGroup(s, op) <==> InNoGroup(t, op)
    ensures op in s.issued && op in t.issued && s.issued[op] == t.issued[op] ==>
              && (Atomic(s, op) <==> Atomic(t, op))
              && ((exists k: nat :: InGroup(s, op, k)) <==> (exists k: nat :: InGroup(t, op, k)))
  {
    if op in s.issued && op in t.issued && s.issued[op] == t.issued[op] {
      forall k: nat ensures InGroup(s, op, k) <==> InGroup(t, op, k) {}
    }
  }

  lemma HeadKeepsOps(s: State, home: seq<Block>)
    requires Inv(s, home) && Enabled(s, DiskWrite) && s.core.pc.CommitHead?
    ensures forall o :: OpInv(Do(s, DiskWrite), o)
  {
    var t := Do(s, DiskWrite);
    forall o ensures OpInv(t, o) {
      assert OpInv(s, o);
      if o in s.issued {
        if Pending(s, o) {
          assert InGroup(t, o, |s.groups|);
        } else if !InNoGroup(s, o) {
          var k: nat :| InGroup(s, o, k);
          assert InGroup(t, o, k);
        }
      }
    }
  }

  lemma QuietKeepsOps(s: State, t: State)
    requires forall o :: OpInv(s, o)
    requires t.groups == s.groups && t.issued == s.issued && (t.cur == s.cur || t.cur == [])
    requires forall o :: Pending(t, o) ==> Pending(s, o) && t.cur == s.cur
    requires forall o :: Pending(s, o) && !Pending(t, o) ==> t.cur == [] && o !in t.ended
    requires forall o :: o in t.durable || o in t.ended ==> o in s.durable || o in s.ended
    requires forall o :: o in t.durable && o !in s.durable ==> o in s.ended && !Pending(s, o)
    ensures forall o :: OpInv(t, o)
  {
    forall o ensures OpInv(t, o) {
      assert OpInv(s, o);
      SameHistory(s, t, o);
    }
  }

  /** Every step keeps the invariant. */
  lemma StepInv(s: State, step: Step, home: seq<Block>)
    requires Inv(s, home) && Enabled(s, step)
    ensures Inv(Do(s, step), home)
  {
    match step
    case BeginOp(op) => BeginKeepsInv(s, op, home);
    case LogWrite(op, bn, data) =>
      LogWriteKeepsDisk(s, op, bn, data, home);
      LogWriteKeepsOps(s, op, bn, data, home);
      LogWriteKeepsLock(s, op, bn, data, home);
    case EndOp(op) => EndKeepsInv(s, op, home);
    case DiskWrite => DiskKeepsInv(s, home);
    case Finish => FinishKeepsInv(s, home);
    case Crash => CrashKeepsInv(s, home);
  }

  lemma LogWriteKeepsLock(s: State, op: nat, bn: nat, data: Block, home: seq<Block>)
    requires Inv(s, home) && Enabled(s, LogWrite(op, bn, data))
    ensures LockInv(Do(s, LogWrite(op, bn, data)))
  {
    var t := Do(s, LogWrite(op, bn, data));
    assert t.active.Keys == s.active.Keys;
    assert |t.active| == |t.active.Keys| == |s.active|;
  }

  lemma BeginKeepsInv(s: State, op: nat, home: seq<Block>)
    requires Inv(s, home) && Enabled(s, BeginOp(op))
    ensures Inv(Do(s, BeginOp(op)), home)
  {
    var t := Do(s, BeginOp(op));
    assert OpInv(s, op);
    assert op !in s.active;
    assert t.active.Keys == s.active.Keys + {op};
    assert |t.active| == |t.active.Keys| == |s.active.Keys| + 1;
    forall o ensures OpInv(t, o) {
      assert OpInv(s, o);
      BeginKeepsOp(s, op, o);
    }
  }

  lemma BeginKeepsOp(s: State, op: nat, o: nat)
    requires OpInv(s, o) && LockInv(s) && Enabled(s, BeginOp(op))
    ensures OpInv(Do(s, BeginOp(op)), o)
  {
    SameHistory(s, Do(s, BeginOp(op)), o);
  }

  lemma EndKeepsInv(s: State, op: nat, home: seq<Block>)
    requires Inv(s, home) && Enabled(s, EndOp(op))
    ensures Inv(Do(s, EndOp(op)), home)
  {
    var t := Do(s, EndOp(op));
    assert s.core.pc.Idle? && !s.committing;
    assert t.active.Keys == s.active.Keys - {op};
    assert |t.active| == |t.active.Keys| == |s.active.Keys| - 1;
    if t.committing { assert t.active.Keys == {}; }
    assert s.core.lh[0..] == s.core.lh;
    EndKeepsOps(s, op, home);
    EndKeepsDisk(s, op, home);
  }

  lemma EndKeepsOps(s: State, op: nat, home: seq<Block>)
    requires Inv(s, home) && Enabled(s, EndOp(op))
    ensures forall o :: OpInv(Do(s, EndOp(op)), o)
  {
    var t := Do(s, EndOp(op));
    if t.core.pc.CommitDone? { NothingLogged(s, home); }
    forall o ensures OpInv(t, o) {
      assert OpInv(s, o);
      EndKeepsOp(s, op, o);
    }
  }

  lemma EndKeepsOp(s: State, op: nat, o: nat)
    requires OpInv(s, o) && LockInv(s) && Enabled(s, EndOp(op)) && s.core.pc.Idle?
    requires s.outstanding == 1 && s.core.lh == [] ==> s.cur == []
    ensures OpInv(Do(s, EndOp(op)), o)
  {
    SameHistory(s, Do(s, EndOp(op)), o);
    assert s.cur == [] ==> WritesOf(s.cur, o) == [];
  }

  /** With an empty header nothing is pinned, so nothing was logged. */
  lemma NothingLogged(s: State, home: seq<Block>)
    requires Inv(s, home) && s.core.pc.Idle? && s.core.lh == []
    ensures s.cur == []
  {
  }

  lemma EndKeepsDisk(s: State, op: nat, home: seq<Block>)
    requires Inv(s, home) && Enabled(s, EndOp(op))
    ensures DiskInv(Do(s, EndOp(op)), home)
  {
  }

  lemma DiskKeepsInv(s: State, home: seq<Block>)
    requires Inv(s, home) && Enabled(s, DiskWrite)
    ensures Inv(Do(s, DiskWrite), home)
  {
    DiskKeepsDisk(s, home);
    DiskKeepsLock(s);
    if s.core.pc.CommitHead? {
      HeadKeepsOps(s, home);
    } else {
      DiskKeepsOps(s);
    }
  }

  lemma DiskKeepsLock(s: State)
    requires LockInv(s) && Enabled(s, DiskWrite)
    ensures LockInv(Do(s, DiskWrite))
  {
  }

  lemma DiskKeepsOps(s: State)
    requires LockInv(s) && Enabled(s, DiskWrite) && !s.core.pc.CommitHead?
    requires forall o :: OpInv(s, o)
    ensures forall o :: OpInv(Do(s, DiskWrite), o)
  {
    var t := Do(s, DiskWrite);
    assert PastCommitPoint(t) == PastCommitPoint(s);
    QuietKeepsOps(s, t);
  }

  lemma DiskKeepsDisk(s: State, home: seq<Block>)
    requires Inv(s, home) && Enabled(s, DiskWrite)
    ensures DiskInv(Do(s, DiskWrite), home)
  {
    var base := ApplyGroups(home, s.groups);
    StepKeepsInv(s.core, base, ApplyWrites(base, s.cur));
    if s.core.pc.CommitHead? {
      assert (s.groups + [s.cur])[..|s.groups|] == s.groups;
    }
  }

  lemma FinishKeepsInv(s: State, home: seq<Block>)
    requires Inv(s, home) && Enabled(s, Finish)
    ensures Inv(Do(s, Finish), home)
  {
    var t := Do(s, Finish);
    QuietKeepsOps(s, t);
    assert CacheView(t.core.disk.home, t.core.cache) == t.core.disk.home;
    assert t.core.disk.header.block[..0] == [];
  }

  lemma CrashKeepsInv(s: State, home: seq<Block>)
    requires Inv(s, home)
    ensures Inv(Do(s, Crash), home)
  {
    QuietKeepsOps(s, Do(s, Crash));
  }

  // ---------- the results ----------

  /** The invariant holds in every state of every run. */
  lemma {:induction false} RunInv(s: State, steps: seq<Step>, t: State, home: seq<Block>)
    requires Inv(s, home) && Run(s, steps, t)
    ensures Inv(t, home)
    decreases |steps|
  {
    if steps != [] {
      StepInv(s, steps[0], home);
      RunInv(Do(s, steps[0]), steps[1..], t, home);
    }
  }

  /** Committed groups and acknowledged operations are never lost, whatever happens later. */
  lemma {:induction false} HistoryGrows(s: State, steps: seq<Step>, t: State)
    requires Run(s, steps, t)
    ensures s.groups <= t.groups
    ensures s.durable <= t.durable
    decreases |steps|
  {
    if steps != [] { HistoryGrows(Do(s, steps[0]), steps[1..], t); }
  }

  /**
   Crash atomicity.  Start with home blocks `home`, run any steps to any state `t`,
   and crash there; recover, with any number of further crashes on the way.  When
   the log is idle again the home blocks are exactly the groups committed before
   that crash applied in order, every operation's writes are in one group entirely
   or in none, and every acknowledged operation is in one.
   */
  lemma CrashAtomicity(home: seq<Block>, s: State, before: seq<Step>, t: State, after: seq<Step>, u: State)
    requires Init(s, home) && Run(s, before, t)
    requires Run(Do(t, Crash), after, u) && u.core.pc.Idle?
    requires forall i :: 0 <= i < |after| ==> after[i] in {DiskWrite, Crash}
    ensures u.core.disk.home == ApplyGroups(home, t.groups)
    ensures u.core.disk.header.n == 0
    ensures forall op :: op in t.issued ==> Atomic(t, op)
    ensures forall op :: op in t.durable ==>
              op in t.issued && (t.issued[op] == [] || exists k: nat :: InGroup(t, op, k))
  {
    InitInv(s, home);
    RunInv(s, before, t, home);
    StepInv(t, Crash, home);
    RunInv(Do(t, Crash), after, u, home);
    RecoveryCommitsNothing(Do(t, Crash), after, u, home);
    assert u.core.disk.header.block[..0] == [];
    forall op | op in t.issued ensures Atomic(t, op) { assert OpInv(t, op); }
    forall op | op in t.durable
      ensures op in t.issued && (t.issued[op] == [] || exists k: nat :: InGroup(t, op, k))
    {
      assert OpInv(t, op);
    }
  }

  /** Disk steps and crashes after a crash add no group: recovery never commits. */
  lemma {:induction false} RecoveryCommitsNothing(s: State, steps: seq<Step>, t: State, home: seq<Block>)
    requires Inv(s, home) && Run(s, steps, t) && (!Booted(s) || s.core.pc.Idle?)
    requires forall i :: 0 <= i < |steps| ==> steps[i] in {DiskWrite, Crash}
    ensures t.groups == s.groups
    decreases |steps|
  {
    if steps != [] {
      assert steps[0] in {DiskWrite, Crash};
      StepInv(s, steps[0], home);
      RecoveryCommitsNothing(Do(s, steps[0]), steps[1..], t, home);
    }
  }

  /**
   Durability.  Once the committing end_op has returned, the operations of that
   transaction stay in one and the same group in every later state, across crashes.
   */
  lemma AcknowledgedSurvives(home: seq<Block>, s: State, before: seq<Step>, t: State, after: seq<Step>, u: State,
      op: nat)
    requires Init(s, home) && Run(s, before, t) && Run(t, after, u)
    requires op in t.durable
    ensures op in t.issued && op in u.issued && u.issued[op] == t.issued[op]
    ensures t.issued[op] != [] ==>
              exists k: nat :: InGroup(t, op, k) && InGroup(u, op, k) && u.groups[k] == t.groups[k]
    ensures t.groups <= u.groups
    ensures ValidDisk(u.core.disk) && Recovered(u.core.disk) == ApplyGroups(home, u.groups)
  {
    InitInv(s, home);
    RunInv(s, before, t, home);
    RunInv(t, after, u, home);
    HistoryGrows(t, after, u);
    assert OpInv(t, op) && OpInv(u, op);
    EndedWritesNothing(t, after, u, home, op);
    if t.issued[op] != [] {
      var k: nat :| InGroup(t, op, k);
      var j: nat :| InGroup(u, op, j);
      assert u.groups[k] == t.groups[k];
      assert j == k;
    }
  }

  /** An operation that has ended logs nothing more. */
  lemma {:induction false} EndedWritesNothing(s: State, steps: seq<Step>, t: State, home: seq<Block>, op: nat)
    requires Inv(s, home) && Run(s, steps, t) && op in s.issued && op !in s.active
    ensures op in t.issued && t.issued[op] == s.issued[op]
    decreases |steps|
  {
    if steps != [] {
      StepInv(s, steps[0], home);
      StaysEnded(s, steps[0], op);
      EndedWritesNothing(Do(s, steps[0]), steps[1..], t, home, op);
    }
  }

  lemma StaysEnded(s: State, step: Step, op: nat)
    requires Enabled(s, step) && op in s.issued && op !in s.active
    ensures op in Do(s, step).issued && Do(s, step).issued[op] == s.issued[op] && op !in Do(s, step).active
  {
  }

  /** Reads through the cache see every logged write, committed or not. */
  lemma ReadsSeeAllWrites(home: seq<Block>, s: State, steps: seq<Step>, t: State)
    requires Init(s, home) && Run(s, steps, t) && Booted(t)
    ensures CacheView(t.core.disk.home, t.core.cache) == ApplyWrites(ApplyGroups(home, t.groups), t.cur)
  {
    InitInv(s, home);
    RunInv(s, steps, t, home);
    CoreReads(t.core, ApplyGroups(home, t.groups), ApplyWrites(ApplyGroups(home, t.groups), t.cur));
  }
}
