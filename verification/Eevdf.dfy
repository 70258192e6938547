/**
 The EEVDF scheduler of kernel/proc.c: weights, slice accounting, run-queue
 statistics in 64-bit unsigned arithmetic, eligibility, and the choice of the next
 process, together with every place that sets a deadline.
 */
module Eevdf {

  const NPROC: nat := 64
  const BASE_SLICE: nat := 5
  const TICK_WORK: nat := 1024000       // MILLI_TICK * NICE_20_WEIGHT
  const SLICE_WORK: nat := 5120000      // BASE_SLICE * MILLI_TICK * NICE_20_WEIGHT
  const MIN_WEIGHT: nat := 15
  const MAX_WEIGHT: nat := 88761
  const TWO64: nat := 0x1_0000_0000_0000_0000
  const SPREAD_LIMIT: nat := 0x200_0000_0000   // 2^41

  const NICE_TO_WEIGHT: seq<nat> := [
    88761, 71755, 56483, 46273, 36291,
    29154, 23254, 18705, 14949, 11916,
    9548, 7620, 6100, 4904, 3906,
    3121, 2501, 1991, 1586, 1277,
    1024, 820, 655, 526, 423,
    335, 272, 215, 172, 137,
    110, 87, 70, 56, 45,
    36, 29, 23, 18, 15]

  datatype PState = UNUSED | USED | SLEEPING | RUNNABLE | RUNNING | ZOMBIE

  /** The scheduling fields of `struct proc`. */
  datatype Proc = Proc(state: PState, pid: nat, chan: nat, killed: bool, nice: nat, weight: nat,
                       runtime: nat, vruntime: nat, vdeadline: nat, remain: nat, eligible: bool)

  /** The fields of `struct eevdf_rq_stats`. */
  datatype Stats = Stats(v0: nat, sumWeight: nat, avgNumer: nat, nr: nat)

  function U64(x: nat): nat {
    x % TWO64
  }

  predicate ValidWeight(w: nat) {
    MIN_WEIGHT <= w <= MAX_WEIGHT
  }

  lemma TableWeights(nice: nat)
    requires nice < 40
    ensures |NICE_TO_WEIGHT| == 40 && ValidWeight(NICE_TO_WEIGHT[nice])
  {
  }

  // ---------- expressions ----------

  /** The virtual time of one tick. */
  function TickDelta(w: nat): nat
    requires w > 0
  {
    TICK_WORK / w
  }

  /** eevdf_slice_delta */
  function SliceDelta(w: nat): nat
    requires w > 0
  {
    SLICE_WORK / w
  }

  lemma DivBounds(a: nat, w: nat)
    requires w > 0
    ensures w * (a / w) <= a < w * (a / w) + w
  {
  }

  lemma MulCancel(w: nat, x: int, y: int)
    requires w > 0 && w * x < w * y
    ensures x < y
  {
    if x >= y { MulLeInt(w, y, x); }
  }

  lemma MulLeInt(w: nat, x: int, y: int)
    requires x <= y
    ensures w * x <= w * y
  {
    assert w * y - w * x == w * (y - x);
  }

  /** Five truncated ticks are never more than one truncated slice. */
  lemma FiveTicks(w: nat, r: nat)
    requires w > 0 && r <= BASE_SLICE
    ensures r * TickDelta(w) <= SliceDelta(w)
  {
    DivBounds(TICK_WORK, w);
    DivBounds(SLICE_WORK, w);
    var t, s := TickDelta(w), SliceDelta(w);
    calc <= {
      w * (r * t);
      r * (w * t);
      { MulLeInt(r, w * t, TICK_WORK); }
      r * TICK_WORK;
      SLICE_WORK;
    }
    assert w * (s + 1) == w * s + w;
    MulCancel(w, r * t, s + 1);
  }

  /** A tick's work, rounded down, loses less than one weight. */
  lemma TickWork(w: nat)
    requires ValidWeight(w)
    ensures TICK_WORK - MAX_WEIGHT < w * TickDelta(w) <= TICK_WORK
  {
    DivBounds(TICK_WORK, w);
  }

  predicate OnRq(p: Proc) {
    p.state == RUNNABLE || p.state == RUNNING
  }

  /** eevdf_refresh_deadline */
  function Refreshed(p: Proc): Proc
    requires p.weight > 0
  {
    p.(vdeadline := p.vruntime + SliceDelta(p.weight))
  }

  /** eevdf_tick */
  function Ticked(p: Proc): Proc
    requires p.weight > 0
  {
    p.(runtime := p.runtime + 1000, vruntime := p.vruntime + TickDelta(p.weight),
       remain := if p.remain > 0 then p.remain - 1 else 0)
  }

  /** The timer branch of usertrap and kerneltrap: account, and at the end of the slice start a new one and yield. */
  function TimerTicked(p: Proc): Proc
    requires p.weight > 0
  {
    var q := Ticked(p);
    if q.remain <= 0 then Refreshed(q.(remain := BASE_SLICE)).(state := RUNNABLE) else q
  }

  /** wakeup on a sleeper */
  function Woken(p: Proc): Proc
    requires p.weight > 0
  {
    Refreshed(p.(remain := BASE_SLICE)).(state := RUNNABLE)
  }

  /** kkill on its victim */
  function Killed(p: Proc): Proc
    requires p.state == SLEEPING ==> p.weight > 0
  {
    if p.state == SLEEPING
    then Refreshed(p.(killed := true, remain := BASE_SLICE, eligible := false)).(state := RUNNABLE)
    else p.(killed := true)
  }

  /** ksetnice on its target */
  function Reniced(p: Proc, value: nat): Proc
    requires value < 40
  {
    TableWeights(value);
    Refreshed(p.(nice := value, weight := NICE_TO_WEIGHT[value]))
  }

  /** What kfork gives the child's scheduling fields. */
  function ForkChild(np: Proc, parent: Proc): Proc
    requires parent.nice < 40
  {
    TableWeights(parent.nice);
    Refreshed(np.(nice := parent.nice, weight := NICE_TO_WEIGHT[parent.nice], runtime := 0,
                  vruntime := parent.vruntime, remain := BASE_SLICE))
  }

  /** What allocproc gives a new process. */
  function NewProc(pid: nat): Proc {
    Proc(USED, pid, 0, false, 20, 1024, 0, 0, SliceDelta(1024), BASE_SLICE, false)
  }

  // ---------- the deadline invariant ----------

  /**
   A process in use has a positive slice, and its deadline leaves room for exactly
   what is left of the slice and not more than a whole one.
   */
  predicate DeadlineOk(p: Proc) {
    p.state != UNUSED ==>
      && p.nice < 40 && ValidWeight(p.weight)
      && 1 <= p.remain <= BASE_SLICE
      && p.vruntime + p.remain * TickDelta(p.weight) <= p.vdeadline <= p.vruntime + SliceDelta(p.weight)
  }

  lemma RefreshKeeps(p: Proc)
    requires p.nice < 40 && ValidWeight(p.weight) && 1 <= p.remain <= BASE_SLICE
    ensures DeadlineOk(Refreshed(p))
  {
    FiveTicks(p.weight, p.remain);
  }

  lemma TickKeeps(p: Proc)
    requires p.state != UNUSED && DeadlineOk(p)
    ensures DeadlineOk(TimerTicked(p))
  {
    var q := Ticked(p);
    if q.remain == 0 {
      RefreshKeeps(q.(remain := BASE_SLICE));
    } else {
      assert p.remain * TickDelta(p.weight) == TickDelta(p.weight) + q.remain * TickDelta(p.weight);
    }
  }

  lemma WakeKeeps(p: Proc)
    requires p.state != UNUSED && DeadlineOk(p)
    ensures DeadlineOk(Woken(p)) && DeadlineOk(Killed(p))
  {
    RefreshKeeps(p.(remain := BASE_SLICE));
    RefreshKeeps(p.(killed := true, remain := BASE_SLICE, eligible := false));
  }

  lemma ReniceKeeps(p: Proc, value: nat)
    requires p.state != UNUSED && DeadlineOk(p) && value < 40
    ensures DeadlineOk(Reniced(p, value))
  {
    TableWeights(value);
    RefreshKeeps(p.(nice := value, weight := NICE_TO_WEIGHT[value]));
  }

  lemma ForkKeeps(pid: nat, parent: Proc)
    requires parent.state != UNUSED && DeadlineOk(parent)
    ensures DeadlineOk(NewProc(pid)) && DeadlineOk(ForkChild(NewProc(pid), parent))
  {
    TableWeights(parent.nice);
    RefreshKeeps(NewProc(pid).(nice := parent.nice, weight := NICE_TO_WEIGHT[parent.nice], runtime := 0,
                               vruntime := parent.vruntime, remain := BASE_SLICE));
    FiveTicks(1024, BASE_SLICE);
  }

  // ---------- run-queue statistics ----------

  /** The weight with which a slot enters the averages. */
  function Wt(p: Proc): nat {
    if OnRq(p) then p.weight else 0
  }

  function SumWeight(ps: seq<Proc>): nat {
    if ps == [] then 0 else SumWeight(ps[..|ps| - 1]) + Wt(ps[|ps| - 1])
  }

  /** The sum of (v - v0) * w over the run queue, exactly. */
  function SumLag(ps: seq<Proc>, v0: int): int {
    if ps == [] then 0
    else SumLag(ps[..|ps| - 1], v0) + (ps[|ps| - 1].vruntime - v0) * Wt(ps[|ps| - 1])
  }

  function CountRq(ps: seq<Proc>): nat {
    if ps == [] then 0 else CountRq(ps[..|ps| - 1]) + if OnRq(ps[|ps| - 1]) then 1 else 0
  }

  /** `v0` is the least virtual time on the run queue, or 0 when it is empty. */
  predicate IsMinV(ps: seq<Proc>, v0: nat) {
    && (forall i :: 0 <= i < |ps| && OnRq(ps[i]) ==> v0 <= ps[i].vruntime)
    && (if CountRq(ps) == 0 then v0 == 0 else exists i :: 0 <= i < |ps| && OnRq(ps[i]) && ps[i].vruntime == v0)
  }

  /** eevdf_is_eligible, in unsigned 64-bit arithmetic. */
  predicate IsEligible(p: Proc, st: Stats) {
    && st.nr != 0 && st.sumWeight != 0 && OnRq(p) && p.vruntime >= st.v0
    && st.avgNumer >= U64(U64(p.vruntime - st.v0) * st.sumWeight)
  }

  /** What eevdf_collect_rq_stats computes. */
  predicate IsStats(ps: seq<Proc>, st: Stats) {
    && IsMinV(ps, st.v0)
    && st.nr == CountRq(ps)
    && st.sumWeight == U64(SumWeight(ps))
    && SumLag(ps, st.v0) >= 0 && st.avgNumer == U64(SumLag(ps, st.v0))
  }

  /** The weighted test that eligibility stands for: v * sum(w) <= sum(v_j * w_j). */
  predicate AtOrBelowAverage(ps: seq<Proc>, p: Proc) {
    p.vruntime * SumWeight(ps) <= SumLag(ps, 0)
  }

  ghost predicate Spread(ps: seq<Proc>, limit: nat) {
    forall i, j :: 0 <= i < |ps| && 0 <= j < |ps| && OnRq(ps[i]) && OnRq(ps[j]) ==>
      ps[i].vruntime - ps[j].vruntime < limit
  }

  ghost predicate GoodWeights(ps: seq<Proc>) {
    forall i :: 0 <= i < |ps| && OnRq(ps[i]) ==> ValidWeight(ps[i].weight)
  }

  lemma {:induction false} SumWeightBound(ps: seq<Proc>)
    requires GoodWeights(ps)
    ensures SumWeight(ps) <= |ps| * MAX_WEIGHT
    ensures CountRq(ps) > 0 ==> SumWeight(ps) > 0
    ensures (exists i :: 0 <= i < |ps| && OnRq(ps[i])) <==> CountRq(ps) > 0
  {
    if ps != [] {
      var k := |ps| - 1;
      SumWeightBound(ps[..k]);
      if CountRq(ps[..k]) > 0 { var i :| 0 <= i < k && OnRq(ps[..k][i]); assert OnRq(ps[i]); }
      if exists i :: 0 <= i < |ps| && OnRq(ps[i]) {
        var i :| 0 <= i < |ps| && OnRq(ps[i]);
        if i < k { assert OnRq(ps[..k][i]); }
      }
    }
  }

  lemma {:induction false} SumLagBound(ps: seq<Proc>, v0: nat, limit: nat)
    requires GoodWeights(ps) && limit > 0
    requires forall i :: 0 <= i < |ps| && OnRq(ps[i]) ==> v0 <= ps[i].vruntime < v0 + limit
    ensures 0 <= SumLag(ps, v0) <= |ps| * (MAX_WEIGHT * (limit - 1))
  {
    if ps != [] {
      var k := |ps| - 1;
      SumLagBound(ps[..k], v0, limit);
      if OnRq(ps[k]) { MulLe(ps[k].vruntime - v0, limit - 1, ps[k].weight, MAX_WEIGHT); }
      OneMore(k, MAX_WEIGHT * (limit - 1));
    }
  }

  lemma OneMore(k: nat, c: nat)
    ensures (k + 1) * c == k * c + c
  {
  }

  lemma MulLe(a: nat, b: nat, c: nat, d: nat)
    requires a <= b && c <= d
    ensures a * c <= b * d
  {
    assert b * d - a * c == b * (d - c) + (b - a) * c;
  }

  /** Shifting the origin of the sum. */
  lemma {:induction false} SumLagShift(ps: seq<Proc>, v0: int)
    ensures SumLag(ps, v0) == SumLag(ps, 0) - v0 * SumWeight(ps)
  {
    if ps != [] {
      var k := |ps| - 1;
      SumLagShift(ps[..k], v0);
      var v, w := ps[k].vruntime, Wt(ps[k]);
      assert (v - v0) * w == v * w - v0 * w;
      assert v0 * (SumWeight(ps[..k]) + w) == v0 * SumWeight(ps[..k]) + v0 * w;
    }
  }

  lemma U64Small(x: nat)
    requires x < TWO64
    ensures U64(x) == x
  {
  }

  /** Within the spread limit the three unsigned computations give their exact values. */
  lemma NoWrap(ps: seq<Proc>, st: Stats, i: nat)
    requires |ps| <= NPROC && GoodWeights(ps) && Spread(ps, SPREAD_LIMIT) && IsStats(ps, st)
    requires i < |ps| && OnRq(ps[i])
    ensures st.sumWeight == SumWeight(ps) > 0 && st.nr > 0 && st.avgNumer == SumLag(ps, st.v0)
    ensures ps[i].vruntime >= st.v0
    ensures U64(U64(ps[i].vruntime - st.v0) * st.sumWeight) == (ps[i].vruntime - st.v0) * st.sumWeight
  {
    SumWeightBound(ps);
    SumLagBounded(ps, st.v0, i);
    MulLe(|ps|, NPROC, MAX_WEIGHT, MAX_WEIGHT);
    U64Small(SumWeight(ps));
    U64Small(SumLag(ps, st.v0));
    ProductExact(ps[i].vruntime - st.v0, SumWeight(ps));
  }

  lemma ProductExact(d: nat, w: nat)
    requires d < SPREAD_LIMIT && w <= NPROC * MAX_WEIGHT
    ensures U64(U64(d) * w) == d * w
  {
    ProductBound(d, w);
    U64Small(d);
    U64Small(d * w);
  }

  lemma ProductBound(d: nat, w: nat)
    requires d < SPREAD_LIMIT && w <= NPROC * MAX_WEIGHT
    ensures d * w < TWO64
  {
    MulLe(d, SPREAD_LIMIT - 1, w, NPROC * MAX_WEIGHT);
  }

  lemma SumLagBounded(ps: seq<Proc>, v0: nat, i: nat)
    requires |ps| <= NPROC && GoodWeights(ps) && Spread(ps, SPREAD_LIMIT) && IsMinV(ps, v0)
    requires i < |ps| && OnRq(ps[i])
    ensures 0 <= SumLag(ps, v0) < TWO64 && v0 <= ps[i].vruntime < v0 + SPREAD_LIMIT
  {
    SumWeightBound(ps);
    var m :| 0 <= m < |ps| && OnRq(ps[m]) && ps[m].vruntime == v0;
    SumLagBound(ps, v0, SPREAD_LIMIT);
    MulLe(|ps|, NPROC, MAX_WEIGHT * (SPREAD_LIMIT - 1), MAX_WEIGHT * (SPREAD_LIMIT - 1));
  }

  /**
   When the virtual times on the run queue lie within 2^41 of each other, nothing
   wraps, and a process on it is eligible exactly when it is at or below the
   weighted average.
   */
  lemma EligibleExactly(ps: seq<Proc>, st: Stats, i: nat)
    requires |ps| <= NPROC && GoodWeights(ps) && Spread(ps, SPREAD_LIMIT) && IsStats(ps, st)
    requires i < |ps| && OnRq(ps[i])
    ensures IsEligible(ps[i], st) <==> AtOrBelowAverage(ps, ps[i])
  {
    NoWrap(ps, st, i);
    SumLagShift(ps, st.v0);
    SameTest(ps[i].vruntime, st.v0, SumWeight(ps), SumLag(ps, 0));
  }

  lemma SameTest(v: int, v0: int, w: int, sum: int)
    ensures sum - v0 * w >= (v - v0) * w <==> v * w <= sum
  {
    assert (v - v0) * w == v * w - v0 * w;
  }

  /** The process of least virtual time is always eligible. */
  lemma LeastIsEligible(ps: seq<Proc>, st: Stats)
    requires GoodWeights(ps) && IsStats(ps, st) && CountRq(ps) > 0 && |ps| <= NPROC
    ensures exists i :: 0 <= i < |ps| && IsEligible(ps[i], st)
  {
    SumWeightBound(ps);
    MulLe(|ps|, NPROC, MAX_WEIGHT, MAX_WEIGHT);
    var m :| 0 <= m < |ps| && OnRq(ps[m]) && ps[m].vruntime == st.v0;
    assert U64(0 * st.sumWeight) == 0;
    assert IsEligible(ps[m], st);
  }
}
