/**
 fork: the child gets a copy of the parent's heap and shares its mmap pages
 (mmap_copy_pages and mmapfork in kernel/vm.c, kfork in kernel/proc.c).
 */
module VmFork {
  import opened Common
  import opened Gates
  import opened Kalloc
  import opened PageTable
  import opened VmMem
  import opened Vm
  import opened VmUser
  import opened VmProc
  import opened VmView
  import opened VmSys
  import opened VmMmap
  import opened VmLife

  /** A mapped page is in two of the areas of `p`: mmapfork maps it twice, and mappages panics. */
  ghost predicate Doubled(flat: map<Key, Pte>, area: seq<Slot>, p: nat, from: nat, n: nat, u: nat)
    requires n <= |area|
  {
    (from, u) in flat && exists i, j :: 0 <= i < j < n && Covers(area[i], p, u) && Covers(area[j], p, u)
  }

  /** `b` says whether there is such a page (unfolded only at a Gate). */
  ghost predicate Doubles(b: bool, flat: map<Key, Pte>, area: seq<Slot>, p: nat, from: nat) {
    forall z: nat {:trigger Gate(z)} :: Gate(z) ==> (b <==> exists u: nat :: Doubled(flat, area, p, from, |area|, u))
  }

  predicate Owned(s: Slot, p: nat) {
    s.Used? && s.area.owner == p
  }

  /** Mapping a page a second time at the same address keeps the sharing rule. */
  lemma ShareOk(flat: map<Key, Pte>, from: Key, to: Key)
    requires SharingOk(flat) && from in flat && to !in flat && from.1 == to.1 && to.1 >= MMAPVPN
    ensures SharingOk(flat[to := flat[from]])
  {
  }

  lemma ShareView(v: View, flat: map<Key, Pte>, role: map<nat, Role>, p: nat, q: nat, u: nat, j: nat)
    requires ViewIs(v) && p in v.procs && q in v.procs && MMAPVPN <= u < TRAPVPN
             && GrowsFor(v.role, role, v.procs[q].root, u)
    requires (v.procs[q].root, u) !in v.flat && j < |v.area| && Covers(v.area[j], q, u)
    requires flat == v.flat
             || ((v.procs[p].root, u) in v.flat && flat == v.flat[(v.procs[q].root, u) := v.flat[(v.procs[p].root, u)]])
    ensures ViewIs(v.(flat := flat, role := role))
  {
    OpenView(v);
    GrowsTables(v.role, v.role, role, v.procs[q].root, u, u, u + 1);
    if flat != v.flat { ShareOk(v.flat, (v.procs[p].root, u), (v.procs[q].root, u)); }
    assert Within(v.area[j], q, u, u + 1);
    GrowView(v, flat, role, q, u, u + 1);
  }

  // ---------- the memory that sharing takes: tables only ----------

  /** A page was linked, exactly when there was memory for the missing tables. */
  ghost predicate TookTables(role0: map<nat, Role>, free0: nat, role: map<nat, Role>, free: nat, root: nat, v: nat,
      ok: bool) {
    && (ok <==> free0 >= Missing(role0, root, v))
    && (ok ==> free + Missing(role0, root, v) == free0 && GrowsFor(role0, role, root, v) && Missing(role, root, v) == 0)
  }

  /** How much memory linking these pages has taken (unfolded only at a Gate). */
  ghost predicate Linked(role0: map<nat, Role>, free0: nat, role: map<nat, Role>, free: nat, root: nat,
      pages: set<nat>) {
    forall z: nat {:trigger Gate(z)} :: Gate(z) ==>
      RolesGrew(role0, role, root, pages) && free + |NewTables(role0, root, pages)| == free0
  }

  /** `ok` says whether there is memory for the tables (unfolded only at a Gate). */
  ghost predicate CanLink(ok: bool, free: nat, role: map<nat, Role>, root: nat, pages: set<nat>) {
    forall z: nat {:trigger Gate(z)} :: Gate(z) ==> (ok <==> free >= |NewTables(role, root, pages)|)
  }

  lemma LinkedStart(role: map<nat, Role>, free: nat, root: nat)
    ensures Linked(role, free, role, free, root, {})
  {
    RolesStart(role, root);
  }

  lemma LinkedIs(role0: map<nat, Role>, free0: nat, role: map<nat, Role>, free: nat, root: nat, pages: set<nat>)
    requires Linked(role0, free0, role, free, root, pages)
    ensures RolesGrew(role0, role, root, pages) && free + |NewTables(role0, root, pages)| == free0
  {
    assert Gate(0);
  }

  lemma LinkedNext(role0: map<nat, Role>, free0: nat, role1: map<nat, Role>, free1: nat, role: map<nat, Role>,
      free: nat,
      root: nat, done: set<nat>, v: nat, ok: bool, all: set<nat>)
    requires Linked(role0, free0, role1, free1, root, done) && TookTables(role1, free1, role, free, root, v, ok)
    requires done + {v} <= all
    ensures ok ==> Linked(role0, free0, role, free, root, done + {v})
    ensures !ok ==> CanLink(false, free0, role0, root, all)
  {
    LinkedIs(role0, free0, role1, free1, root, done);
    if ok {
      RolesNext(role0, role1, role, root, done, v);
    } else {
      TablesLeft(role0, role1, root, done, v, all);
      assert Gate(0);
    }
  }

  /** The pages of `from` mapped in the areas of `p`. */
  ghost function AreaPages(flat: map<Key, Pte>, area: seq<Slot>, p: nat, from: nat): set<nat> {
    set k | k in flat && k.0 == from && InAreas(area, p, k.1) :: k.1
  }

  /** Those in its first `n` slots and in [lo, hi), each of them once (unfolded only at a Gate). */
  ghost predicate IsZoned(done: set<nat>, flat: map<Key, Pte>, area: seq<Slot>, p: nat, from: nat, n: nat, lo: nat,
      hi: nat) {
    forall z: nat {:trigger Gate(z)} :: Gate(z) ==>
      && n <= |area| && (forall v :: v in done <==> (from, v) in flat && Zone(area, p, n, lo, hi, v))
      && (forall v: nat :: !Doubled(flat, area, p, from, n, v))
      && (forall v: nat :: lo <= v < hi && (from, v) in flat ==> !InAreas(area[..n], p, v))
  }

  lemma ZonedNext(done: set<nat>, flat: map<Key, Pte>, area: seq<Slot>, p: nat, from: nat, n: nat, lo: nat, u: nat)
    returns (next: set<nat>)
    requires IsZoned(done, flat, area, p, from, n, lo, u) && lo <= u && n < |area|
    requires forall v :: lo <= v <= u ==> Covers(area[n], p, v)
    requires (from, u) in flat ==> !InAreas(area[..n], p, u)
    ensures next == (if (from, u) in flat then done + {u} else done)
    ensures IsZoned(next, flat, area, p, from, n, lo, u + 1) && next <= AreaPages(flat, area, p, from)
  {
    assert Gate(0);
    next := if (from, u) in flat then done + {u} else done;
    forall v | v in next ensures v in AreaPages(flat, area, p, from) {
      ZoneInAreas(area, p, n, lo, u + 1, v);
      assert (from, v) in flat;
    }
  }

  lemma ZoneInAreas(area: seq<Slot>, p: nat, n: nat, lo: nat, hi: nat, v: nat)
    requires n <= |area| && Zone(area, p, n, lo, hi, v) && (lo < hi ==> n < |area|)
    requires forall u :: lo <= u < hi ==> Covers(area[n], p, u)
    ensures InAreas(area, p, v)
  {
    if InAreas(area[..n], p, v) {
      var i :| 0 <= i < n && Covers(area[..n][i], p, v);
      assert Covers(area[i], p, v);
    } else {
      assert Covers(area[n], p, v);
    }
  }

  lemma ZonedSkip(done: set<nat>, flat: map<Key, Pte>, area: seq<Slot>, p: nat, from: nat, n: nat)
    requires IsZoned(done, flat, area, p, from, n, 0, 0) && n < |area| && !Owned(area[n], p)
    ensures IsZoned(done, flat, area, p, from, n + 1, 0, 0)
  {
    assert Gate(0);
    var m: nat := n + 1;
    forall v: nat ensures !Doubled(flat, area, p, from, m, v) { assert !Doubled(flat, area, p, from, n, v); }
    forall u: nat ensures Zone(area, p, n + 1, 0, 0, u) <==> Zone(area, p, n, 0, 0, u) { NextArea(area, p, u, n); }
  }

  lemma ZonedAt(done: set<nat>, flat: map<Key, Pte>, area: seq<Slot>, p: nat, from: nat, n: nat, lo: nat)
    requires IsZoned(done, flat, area, p, from, n, 0, 0)
    ensures IsZoned(done, flat, area, p, from, n, lo, lo)
  {
    assert Gate(0);
  }

  lemma ZonedArea(done: set<nat>, flat: map<Key, Pte>, area: seq<Slot>, p: nat, from: nat, n: nat, a: Area)
    requires n < |area| && area[n] == Used(a) && a.owner == p
    requires IsZoned(done, flat, area, p, from, n, a.start, a.start + a.npages)
    ensures IsZoned(done, flat, area, p, from, n + 1, 0, 0)
  {
    assert Gate(0);
    var lo, hi := a.start, a.start + a.npages;
    var m: nat := n + 1;
    forall v: nat ensures !Doubled(flat, area, p, from, m, v) { OnceMore(flat, area, p, from, n, v); }
    forall u: nat ensures Zone(area, p, n + 1, 0, 0, u) <==> Zone(area, p, n, lo, hi, u) { NextArea(area, p, u, n); }
  }

  lemma OnceMore(flat: map<Key, Pte>, area: seq<Slot>, p: nat, from: nat, n: nat, v: nat)
    requires n < |area| && !Doubled(flat, area, p, from, n, v)
    requires Covers(area[n], p, v) && (from, v) in flat ==> !InAreas(area[..n], p, v)
    ensures !Doubled(flat, area, p, from, n + 1, v)
  {
    if (from, v) in flat && Covers(area[n], p, v) {
      forall i | 0 <= i < n ensures !Covers(area[i], p, v) { assert !Covers(area[..n][i], p, v); }
    }
  }

  lemma ZonedAll(done: set<nat>, flat: map<Key, Pte>, area: seq<Slot>, p: nat, from: nat)
    requires IsZoned(done, flat, area, p, from, |area|, 0, 0)
    ensures done == AreaPages(flat, area, p, from) && Doubles(false, flat, area, p, from)
  {
    assert Gate(0);
    assert area[..|area|] == area;
    forall v ensures v in done <==> v in AreaPages(flat, area, p, from) {
      if v in done { assert (from, v) in flat; }
    }
  }

  /** kaddref and mappages of one page; the reference is given back on failure. */
  method ShareLeaf(m: Memory, from: nat, to: nat, u: nat, e: Pte) returns (ok: bool)
    requires m.Valid() && m.IsRoot(to) && u < TRAPVPN && (to, u) !in m.flat && (from, u) in m.flat
             && e == m.flat[(from, u)]
    modifies m
    ensures m.Valid() && m.held == old(m.held) && Keeps(old(m.flat), old(m.data), m.data)
            && GrowsFor(old(m.role), m.role, to, u)
    ensures m.flat == if ok then old(m.flat)[(to, u) := e] else old(m.flat)
    ensures TookTables(old(m.role), |old(m.fr.free)|, m.role, |m.fr.free|, to, u, ok)
  {
    assert (from, u) in Users(m.flat, e.frame);
    FlatLeaf(m.M(), (from, u));
    m.Kaddref(e.frame);
    ghost var m1, data1 := m.M(), m.data;
    ok := m.MapPage(to, u, e);
    SurviveKeeps(m1, data1, m.data);
    if !ok {
      KfreeKeeps(m, e.frame, data1);
    }
  }

  /** The body of mmap_copy_pages' loop; mappages panics when the child has the page already. */
  method SharePage(k: Machine, p: nat, q: nat, u: nat, ghost j: nat) returns (ok: bool, panicked: bool)
    requires k.Valid() && p in k.procs && q in k.procs && MMAPVPN <= u < TRAPVPN
    requires j < |k.area| && Covers(k.area[j], q, u)
    modifies k.mem
    ensures k.Valid() && k.mem.held == old(k.mem.held) && Keeps(old(k.mem.flat), old(k.mem.data), k.mem.data)
    ensures k.mem.flat == if ok && (k.procs[p].root, u) in old(k.mem.flat)
            then old(k.mem.flat)[(k.procs[q].root, u) := old(k.mem.flat)[(k.procs[p].root, u)]]
                          else old(k.mem.flat)
    ensures panicked <==> (k.procs[p].root, u) in old(k.mem.flat) && (k.procs[q].root, u) in old(k.mem.flat)
    ensures if panicked then !ok else if (k.procs[p].root, u) in old(k.mem.flat)
            then TookTables(old(k.mem.role), |old(k.mem.fr.free)|, k.mem.role, |k.mem.fr.free|, k.procs[q].root, u, ok)
            else ok && k.mem.role == old(k.mem.role) && |k.mem.fr.free| == |old(k.mem.fr.free)|
  {
    ghost var v0 := k.V();
    ProcAt(v0, p);
    ProcAt(v0, q);
    var e := Lookup(k.mem, k.procs[p].root, u);
    if !e.v {
      return true, false;
    }
    var c := Lookup(k.mem, k.procs[q].root, u);
    if c.v {
      return false, true;
    }
    panicked := false;
    ok := ShareLeaf(k.mem, k.procs[p].root, k.procs[q].root, u, e);
    ShareView(v0, k.mem.flat, k.mem.role, p, q, u, j);
  }

  /**
   The mappings of `from` in the first `n` slots of `p`, and those in [lo, hi), are also
   in `to`; no other mapping changed.
   */
  ghost predicate Shared(flat0: map<Key, Pte>, flat: map<Key, Pte>, area: seq<Slot>, p: nat, from: nat, to: nat,
      n: nat, lo: nat, hi: nat)
    requires n <= |area|
  {
    && (forall k :: k in flat <==> k in flat0 || (k.0 == to && (from, k.1) in flat0 && Zone(area, p, n, lo, hi, k.1)))
    && (forall k :: k in flat ==> flat[k] == if k in flat0 then flat0[k] else if (from, k.1) in flat0
        then flat0[(from, k.1)] else ZERO)
  }

  ghost predicate Zone(area: seq<Slot>, p: nat, n: nat, lo: nat, hi: nat, u: nat)
    requires n <= |area|
  {
    InAreas(area[..n], p, u) || lo <= u < hi
  }

  lemma SharedNext(flat0: map<Key, Pte>, flat1: map<Key, Pte>, flat: map<Key, Pte>, area: seq<Slot>, p: nat, from: nat,
      to: nat, n: nat, lo: nat, u: nat)
    requires n <= |area| && lo <= u && Shared(flat0, flat1, area, p, from, to, n, lo, u) && from != to
             && (to, u) !in flat0
    requires flat == if (from, u) in flat1 then flat1[(to, u) := flat1[(from, u)]] else flat1
    ensures Shared(flat0, flat, area, p, from, to, n, lo, u + 1)
  {
    forall v: nat ensures Zone(area, p, n, lo, u + 1, v) <==> Zone(area, p, n, lo, u, v) || v == u {
    }
  }

  /** The child has a page of the area already exactly when the parent's page is in an area before. */
  lemma Already(flat0: map<Key, Pte>, flat: map<Key, Pte>, area: seq<Slot>, p: nat, from: nat, to: nat, n: nat, lo: nat,
      u: nat)
    requires n < |area| && Covers(area[n], p, u) && Shared(flat0, flat, area, p, from, to, n, lo, u)
             && (to, u) !in flat0
    requires from != to
    ensures (from, u) in flat <==> (from, u) in flat0
    ensures (to, u) in flat <==> (from, u) in flat0 && InAreas(area[..n], p, u)
  {
  }

  lemma TwiceIn(flat: map<Key, Pte>, area: seq<Slot>, p: nat, from: nat, n: nat, u: nat)
    requires n < |area| && Covers(area[n], p, u) && InAreas(area[..n], p, u) && (from, u) in flat
    ensures Doubles(true, flat, area, p, from)
  {
    var i :| 0 <= i < n && Covers(area[..n][i], p, u);
    assert Covers(area[i], p, u);
    assert Doubled(flat, area, p, from, |area|, u);
  }

  /** Only translations of `root` changed. */
  ghost predicate SpaceOnly(flat0: map<Key, Pte>, flat: map<Key, Pte>, root: nat) {
    forall k: Key :: k.0 != root ==> (k in flat <==> k in flat0) && (k in flat ==> flat[k] == flat0[k])
  }

  /** mmap_copy_pages: the parent's pages in the area, shared at the same addresses; on failure only some of them. */
  method MmapCopyPages(k: Machine, a: Area, p: nat, q: nat, ghost i: nat, ghost j: nat, ghost flat0: map<Key, Pte>,
      ghost area0: seq<Slot>, ghost role0: map<nat, Role>, ghost free0: nat, ghost done: set<nat>)
    returns (ok: bool, panicked: bool, ghost next: set<nat>)
    requires k.Valid() && p in k.procs && q in k.procs && p != q && AreaOk(k.procs, a)
    requires i < |area0| && area0[i] == Used(a) && a.owner == p && j < |k.area| && k.area[j] == Used(a.(owner := q))
    requires NoLeaves(flat0, k.procs[q].root, MMAPVPN, TRAPVPN)
    requires Shared(flat0, k.mem.flat, area0, p, k.procs[p].root, k.procs[q].root, i, a.start, a.start)
    requires Linked(role0, free0, k.mem.role, |k.mem.fr.free|, k.procs[q].root, done)
    requires IsZoned(done, flat0, area0, p, k.procs[p].root, i, a.start, a.start)
    modifies k.mem
    ensures k.Valid() && k.mem.held == old(k.mem.held) && Keeps(old(k.mem.flat), old(k.mem.data), k.mem.data)
    ensures SpaceOnly(old(k.mem.flat), k.mem.flat, k.procs[q].root)
    ensures ok ==> Shared(flat0, k.mem.flat, area0, p, k.procs[p].root, k.procs[q].root, i, a.start, a.start + a.npages)
    ensures ok ==> Linked(role0, free0, k.mem.role, |k.mem.fr.free|, k.procs[q].root, next)
    ensures ok ==> IsZoned(next, flat0, area0, p, k.procs[p].root, i, a.start, a.start + a.npages)
    ensures !ok && !panicked ==>
              CanLink(false, free0, role0, k.procs[q].root, AreaPages(flat0, area0, p, k.procs[p].root))
    ensures panicked ==> !ok && Doubles(true, flat0, area0, p, k.procs[p].root)
  {
    ghost var flat1, data1 := k.mem.flat, k.mem.data;
    var u := a.start;
    next := done;
    panicked := false;
    while u < a.start + a.npages
      invariant a.start <= u <= a.start + a.npages && k.Valid() && k.mem.held == old(k.mem.held)
      invariant Keeps(flat1, data1, k.mem.data) && SpaceOnly(flat1, k.mem.flat, k.procs[q].root)
                && SubMap(flat1, k.mem.flat)
      invariant Shared(flat0, k.mem.flat, area0, p, k.procs[p].root, k.procs[q].root, i, a.start, u)
      invariant Linked(role0, free0, k.mem.role, |k.mem.fr.free|, k.procs[q].root, next)
      invariant IsZoned(next, flat0, area0, p, k.procs[p].root, i, a.start, u)
    {
      ok, panicked, next := CopyPagesNext(k, a, p, q, u, i, j, flat0, area0, role0, free0, next, flat1, data1);
      if !ok {
        return;
      }
      u := u + 1;
    }
    ok, panicked := true, false;
  }

  /** One page of mmap_copy_pages. */
  method CopyPagesNext(k: Machine, ghost a: Area, p: nat, q: nat, u: nat, ghost i: nat, ghost j: nat,
      ghost flat0: map<Key, Pte>, ghost area0: seq<Slot>, ghost role0: map<nat, Role>, ghost free0: nat,
          ghost done: set<nat>,
      ghost flat1: map<Key, Pte>, ghost data1: map<nat, Page>)
    returns (ok: bool, panicked: bool, ghost next: set<nat>)
    requires k.Valid() && p in k.procs && q in k.procs && p != q && AreaOk(k.procs, a)
    requires i < |area0| && area0[i] == Used(a) && a.owner == p && j < |k.area| && k.area[j] == Used(a.(owner := q))
    requires a.start <= u < a.start + a.npages && NoLeaves(flat0, k.procs[q].root, MMAPVPN, TRAPVPN)
    requires Keeps(flat1, data1, k.mem.data) && SpaceOnly(flat1, k.mem.flat, k.procs[q].root)
             && SubMap(flat1, k.mem.flat)
    requires Shared(flat0, k.mem.flat, area0, p, k.procs[p].root, k.procs[q].root, i, a.start, u)
    requires Linked(role0, free0, k.mem.role, |k.mem.fr.free|, k.procs[q].root, done)
    requires IsZoned(done, flat0, area0, p, k.procs[p].root, i, a.start, u)
    modifies k.mem
    ensures k.Valid() && k.mem.held == old(k.mem.held) && Keeps(flat1, data1, k.mem.data)
    ensures SpaceOnly(flat1, k.mem.flat, k.procs[q].root) && SubMap(flat1, k.mem.flat)
    ensures ok ==> Shared(flat0, k.mem.flat, area0, p, k.procs[p].root, k.procs[q].root, i, a.start, u + 1)
    ensures ok ==> Linked(role0, free0, k.mem.role, |k.mem.fr.free|, k.procs[q].root, next)
    ensures ok ==> IsZoned(next, flat0, area0, p, k.procs[p].root, i, a.start, u + 1)
    ensures !ok && !panicked ==>
              CanLink(false, free0, role0, k.procs[q].root, AreaPages(flat0, area0, p, k.procs[p].root))
    ensures panicked ==> !ok && Doubles(true, flat0, area0, p, k.procs[p].root)
  {
    ProcAt(k.V(), p);
    ghost var from, to, flat2, data2 := k.procs[p].root, k.procs[q].root, k.mem.flat, k.mem.data;
    ghost var role2, free2 := k.mem.role, |k.mem.fr.free|;
    Already(flat0, flat2, area0, p, from, to, i, a.start, u);
    next := done;
    ok, panicked := SharePage(k, p, q, u, j);
    SubKeeps(flat1, flat2, data1, data2, k.mem.data);
    SubNext(flat1, flat2, k.mem.flat, from, to, u);
    if panicked {
      TwiceIn(flat0, area0, p, from, i, u);
      return;
    }
    next := ZonedNext(done, flat0, area0, p, from, i, a.start, u);
    if (from, u) in flat2 {
      LinkedNext(role0, free0, role2, free2, k.mem.role, |k.mem.fr.free|, to, done, u, ok,
          AreaPages(flat0, area0, p, from));
    }
    if ok {
      SharedNext(flat0, flat2, k.mem.flat, area0, p, from, to, i, a.start, u);
    }
  }

  lemma SubNext(flat1: map<Key, Pte>, flat2: map<Key, Pte>, flat: map<Key, Pte>, from: nat, to: nat, u: nat)
    requires SubMap(flat1, flat2) && SpaceOnly(flat1, flat2, to)
    requires flat == flat2 || ((from, u) in flat2 && (to, u) !in flat2 && flat == flat2[(to, u) := flat2[(from, u)]])
    ensures SubMap(flat1, flat) && SpaceOnly(flat1, flat, to)
  {
    assert Gate(0);
  }

  // ---------- mmapfork ----------

  /** The first `n` slots of `p` have copies owned by `q`, in slots that were free; nothing else is in the table. */
  ghost predicate SlotsForked(area0: seq<Slot>, area: seq<Slot>, p: nat, q: nat, n: nat) {
    && n <= |area0| && |area| == |area0|
    && (forall j :: 0 <= j < |area| && area0[j].Used? ==> area[j] == area0[j])
    && (forall j :: 0 <= j < |area| && area0[j].Empty? && area[j].Used? ==> IsChild(area0, area[j], p, q, n))
    && (forall s: nat :: s < n && Owned(area0[s], p) ==> HasChild(area, area0[s].area, q))
  }

  ghost predicate IsChild(area0: seq<Slot>, c: Slot, p: nat, q: nat, n: nat)
    requires n <= |area0|
  {
    exists s :: 0 <= s < n && Owned(area0[s], p) && c == Used(area0[s].area.(owner := q))
  }

  ghost predicate HasChild(area: seq<Slot>, a: Area, q: nat) {
    exists j :: 0 <= j < |area| && area[j] == Used(a.(owner := q))
  }

  lemma SlotsSkip(area0: seq<Slot>, area: seq<Slot>, p: nat, q: nat, n: nat)
    requires SlotsForked(area0, area, p, q, n) && n < |area0| && !Owned(area0[n], p)
    ensures SlotsForked(area0, area, p, q, n + 1)
  {
    forall j | 0 <= j < |area| && area0[j].Empty? && area[j].Used? ensures IsChild(area0, area[j], p, q, n + 1) {
      assert IsChild(area0, area[j], p, q, n);
    }
  }

  lemma SlotsNext(area0: seq<Slot>, area: seq<Slot>, p: nat, q: nat, n: nat, j: nat)
    requires SlotsForked(area0, area, p, q, n) && n < |area0| && Owned(area0[n], p) && j < |area| && area[j].Empty?
    ensures SlotsForked(area0, area[j := Used(area0[n].area.(owner := q))], p, q, n + 1)
  {
    var c := Used(area0[n].area.(owner := q));
    var w := area[j := c];
    forall i | 0 <= i < |w| && area0[i].Empty? && w[i].Used? ensures IsChild(area0, w[i], p, q, n + 1) {
      if i != j { assert IsChild(area0, area[i], p, q, n); } else { assert w[i] == c; }
    }
    forall s: nat | s < n + 1 && Owned(area0[s], p) ensures HasChild(w, area0[s].area, q) {
      if s < n {
        assert HasChild(area, area0[s].area, q);
        var i :| 0 <= i < |area| && area[i] == Used(area0[s].area.(owner := q));
        assert w[i] == area[i];
      } else {
        assert w[j] == c;
      }
    }
  }

  lemma SharedSkip(flat0: map<Key, Pte>, flat: map<Key, Pte>, area: seq<Slot>, p: nat, from: nat, to: nat, n: nat,
      lo: nat)
    requires n < |area| && !Owned(area[n], p) && Shared(flat0, flat, area, p, from, to, n, lo, lo)
    ensures Shared(flat0, flat, area, p, from, to, n + 1, 0, 0)
  {
    forall u: nat ensures Zone(area, p, n + 1, 0, 0, u) <==> Zone(area, p, n, lo, lo, u) { NextArea(area, p, u, n); }
  }

  lemma SharedArea(flat0: map<Key, Pte>, flat: map<Key, Pte>, area: seq<Slot>, p: nat, from: nat, to: nat, n: nat)
    requires n < |area| && Owned(area[n], p)
    requires Shared(flat0, flat, area, p, from, to, n, area[n].area.start, area[n].area.start + area[n].area.npages)
    ensures Shared(flat0, flat, area, p, from, to, n + 1, 0, 0)
  {
    var lo, hi := area[n].area.start, area[n].area.start + area[n].area.npages;
    forall u: nat ensures Zone(area, p, n + 1, 0, 0, u) <==> Zone(area, p, n, lo, hi, u) { NextArea(area, p, u, n); }
  }

  lemma SharedAt(flat0: map<Key, Pte>, flat: map<Key, Pte>, area: seq<Slot>, p: nat, from: nat, to: nat, n: nat,
      lo: nat)
    requires n <= |area| && Shared(flat0, flat, area, p, from, to, n, 0, 0)
    ensures Shared(flat0, flat, area, p, from, to, n, lo, lo)
  {
    forall u: nat ensures Zone(area, p, n, lo, lo, u) <==> InAreas(area[..n], p, u) {}
    forall u: nat ensures Zone(area, p, n, 0, 0, u) <==> InAreas(area[..n], p, u) {}
  }

  /** The slots of the table that are free. */
  function EmptySlots(area: seq<Slot>): set<nat> {
    set j: nat | j < |area| && area[j].Empty?
  }

  /** The slots of `p` among the first `n`. */
  function OwnedIn(area: seq<Slot>, p: nat, n: nat): set<nat> {
    set j: nat | j < |area| && j < n && Owned(area[j], p)
  }

  function NewSlots(area0: seq<Slot>, area: seq<Slot>): set<nat> {
    EmptySlots(area0) - EmptySlots(area)
  }

  /** How far mmapfork has come after `n` slots, unfolded only at a Gate. */
  ghost predicate Forked(area0: seq<Slot>, flat0: map<Key, Pte>, area: seq<Slot>, flat: map<Key, Pte>, p: nat, q: nat,
      from: nat, to: nat, n: nat) {
    forall z: nat {:trigger Gate(z)} :: Gate(z) ==>
      && SlotsForked(area0, area, p, q, n) && Shared(flat0, flat, area0, p, from, to, n, 0, 0)
      && Placed(area0, area, p, q, n)
  }

  /** One new slot for each area of `p`, in the same order (unfolded only at a Latch). */
  ghost predicate Placed(area0: seq<Slot>, area: seq<Slot>, p: nat, q: nat, n: nat) {
    forall z: nat {:trigger Latch(z)} :: Latch(z) ==>
      && |NewSlots(area0, area)| == |OwnedIn(area0, p, n)|
      && exists pos: seq<nat> :: |pos| == n && PlacedAt(area0, area, p, q, pos)
  }

  /** The copy of slot `s` is in slot pos[s]; new slots come before free ones. */
  ghost predicate PlacedAt(area0: seq<Slot>, area: seq<Slot>, p: nat, q: nat, pos: seq<nat>) {
    && |pos| <= |area0| == |area|
    && (forall s: nat :: CopyAtPos(area0, area, p, q, pos, s))
    && (forall s: nat, t: nat :: InOrder(area0, p, pos, s, t))
    && (forall j: nat :: NewFrom(area0, area, p, pos, j))
    && (forall s: nat, j: nat :: BeforeFree(area0, area, p, pos, s, j))
  }

  ghost predicate CopyAtPos(area0: seq<Slot>, area: seq<Slot>, p: nat, q: nat, pos: seq<nat>, s: nat) {
    s < |pos| && s < |area0| && Owned(area0[s], p) ==>
      pos[s] < |area| && pos[s] < |area0| && area0[pos[s]].Empty? && area[pos[s]] == Used(area0[s].area.(owner := q))
  }

  ghost predicate InOrder(area0: seq<Slot>, p: nat, pos: seq<nat>, s: nat, t: nat) {
    s < t < |pos| && t < |area0| && Owned(area0[s], p) && Owned(area0[t], p) ==> pos[s] < pos[t]
  }

  ghost predicate NewFrom(area0: seq<Slot>, area: seq<Slot>, p: nat, pos: seq<nat>, j: nat) {
    j < |area| && j < |area0| && area0[j].Empty? && area[j].Used? ==> FromSlot(area0, p, pos, j)
  }

  ghost predicate BeforeFree(area0: seq<Slot>, area: seq<Slot>, p: nat, pos: seq<nat>, s: nat, j: nat) {
    s < |pos| && s < |area0| && Owned(area0[s], p) && j < |area| && area[j].Empty? ==> pos[s] < j
  }

  ghost predicate FromSlot(area0: seq<Slot>, p: nat, pos: seq<nat>, j: nat) {
    exists s :: 0 <= s < |pos| && s < |area0| && Owned(area0[s], p) && pos[s] == j
  }

  lemma PlacedStart(area: seq<Slot>, p: nat, q: nat)
    ensures Placed(area, area, p, q, 0)
  {
    assert PlacedAt(area, area, p, q, []);
  }

  lemma PlacedSkip(area0: seq<Slot>, area: seq<Slot>, p: nat, q: nat, n: nat)
    requires Placed(area0, area, p, q, n) && n < |area0| && !Owned(area0[n], p)
    ensures Placed(area0, area, p, q, n + 1)
  {
    assert Latch(0);
    var pos: seq<nat> :| |pos| == n && PlacedAt(area0, area, p, q, pos);
    PlacedMore(area0, area, p, q, pos);
    assert OwnedIn(area0, p, n + 1) == OwnedIn(area0, p, n);
  }

  lemma PlacedMore(area0: seq<Slot>, area: seq<Slot>, p: nat, q: nat, pos: seq<nat>)
    requires PlacedAt(area0, area, p, q, pos) && |pos| < |area0| && !Owned(area0[|pos|], p)
    ensures PlacedAt(area0, area, p, q, pos + [0])
  {
    var next := pos + [0];
    forall s: nat ensures CopyAtPos(area0, area, p, q, next, s) { assert CopyAtPos(area0, area, p, q, pos, s); }
    forall s: nat, t: nat ensures InOrder(area0, p, next, s, t) { assert InOrder(area0, p, pos, s, t); }
    forall j: nat ensures NewFrom(area0, area, p, next, j) {
      assert NewFrom(area0, area, p, pos, j);
      if FromSlot(area0, p, pos, j) { FromMore(area0, p, pos, 0, j); }
    }
    forall s: nat, j: nat ensures BeforeFree(area0, area, p, next, s, j) {
      assert BeforeFree(area0, area, p, pos, s, j);
    }
  }

  lemma FromMore(area0: seq<Slot>, p: nat, pos: seq<nat>, x: nat, j: nat)
    requires FromSlot(area0, p, pos, j)
    ensures FromSlot(area0, p, pos + [x], j)
  {
    var s :| 0 <= s < |pos| && s < |area0| && Owned(area0[s], p) && pos[s] == j;
    assert (pos + [x])[s] == j;
  }

  lemma PlacedNext(area0: seq<Slot>, area1: seq<Slot>, area: seq<Slot>, p: nat, q: nat, n: nat, j: nat)
    requires Placed(area0, area1, p, q, n) && |area0| == |area1| && n < |area0| && Owned(area0[n], p)
    requires j < |area1| && area1[j].Empty? && area0[j].Empty? && forall i :: 0 <= i < j ==> area1[i].Used?
    requires area == area1[j := Used(area0[n].area.(owner := q))]
    ensures Placed(area0, area, p, q, n + 1)
  {
    assert Latch(0);
    var pos: seq<nat> :| |pos| == n && PlacedAt(area0, area1, p, q, pos);
    PlacedHere(area0, area1, area, p, q, pos, j);
    OwnedNext(area0, p, n);
    SlotTaken(area0, area1, j, Used(area0[n].area.(owner := q)));
  }

  lemma PlacedHere(area0: seq<Slot>, area1: seq<Slot>, area: seq<Slot>, p: nat, q: nat, pos: seq<nat>, j: nat)
    requires PlacedAt(area0, area1, p, q, pos) && |pos| < |area0| && Owned(area0[|pos|], p)
    requires j < |area1| && area1[j].Empty? && area0[j].Empty? && forall i :: 0 <= i < j ==> area1[i].Used?
    requires area == area1[j := Used(area0[|pos|].area.(owner := q))]
    ensures PlacedAt(area0, area, p, q, pos + [j])
  {
    var next := pos + [j];
    forall s: nat ensures CopyAtPos(area0, area, p, q, next, s) {
      assert CopyAtPos(area0, area1, p, q, pos, s) && BeforeFree(area0, area1, p, pos, s, j);
    }
    forall s: nat, t: nat ensures InOrder(area0, p, next, s, t) {
      assert InOrder(area0, p, pos, s, t) && BeforeFree(area0, area1, p, pos, s, j);
    }
    forall i: nat ensures NewFrom(area0, area, p, next, i) {
      assert NewFrom(area0, area1, p, pos, i) && next[|pos|] == j;
      if FromSlot(area0, p, pos, i) { FromMore(area0, p, pos, j, i); }
    }
    forall s: nat, i: nat ensures BeforeFree(area0, area, p, next, s, i) {
      assert BeforeFree(area0, area1, p, pos, s, i);
    }
  }

  lemma OwnedNext(area: seq<Slot>, p: nat, n: nat)
    requires n < |area| && Owned(area[n], p)
    ensures |OwnedIn(area, p, n + 1)| == |OwnedIn(area, p, n)| + 1
  {
    assert OwnedIn(area, p, n + 1) == OwnedIn(area, p, n) + {n};
  }

  lemma SlotTaken(area0: seq<Slot>, area1: seq<Slot>, j: nat, c: Slot)
    requires |area0| == |area1| && j < |area1| && area1[j].Empty? && area0[j].Empty? && c.Used?
    ensures |NewSlots(area0, area1[j := c])| == |NewSlots(area0, area1)| + 1
  {
    var area := area1[j := c];
    assert EmptySlots(area) == EmptySlots(area1) - {j};
    assert NewSlots(area0, area) == NewSlots(area0, area1) + {j};
  }

  lemma ForkedSkip(area0: seq<Slot>, flat0: map<Key, Pte>, area: seq<Slot>, flat: map<Key, Pte>, p: nat, q: nat,
      from: nat, to: nat, n: nat)
    requires Forked(area0, flat0, area, flat, p, q, from, to, n) && n < |area| && p != q && !Owned(area[n], p)
    ensures Forked(area0, flat0, area, flat, p, q, from, to, n + 1) && |area0| == |area| && !Owned(area0[n], p)
  {
    assert Gate(0);
    if area0[n].Empty? && area[n].Used? { assert IsChild(area0, area[n], p, q, n); }
    SlotsSkip(area0, area, p, q, n);
    SharedSkip(flat0, flat, area0, p, from, to, n, 0);
    PlacedSkip(area0, area, p, q, n);
  }

  /** A slot of the parent is as it was. */
  lemma ParentSlot(area0: seq<Slot>, flat0: map<Key, Pte>, area: seq<Slot>, flat: map<Key, Pte>, p: nat, q: nat,
      from: nat, to: nat, n: nat)
    requires Forked(area0, flat0, area, flat, p, q, from, to, n) && n < |area| && p != q && Owned(area[n], p)
    ensures |area0| == |area| && area0[n] == area[n]
            && Shared(flat0, flat, area0, p, from, to, n, area[n].area.start, area[n].area.start)
  {
    assert Gate(0);
    assert area0[n].Empty? ==> IsChild(area0, area[n], p, q, n);
    SharedAt(flat0, flat, area0, p, from, to, n, area[n].area.start);
  }

  lemma ForkedNext(area0: seq<Slot>, flat0: map<Key, Pte>, area1: seq<Slot>, flat1: map<Key, Pte>, area: seq<Slot>,
      flat: map<Key, Pte>, p: nat, q: nat, from: nat, to: nat, n: nat, j: nat, a: Area, child: Area)
    requires Forked(area0, flat0, area1, flat1, p, q, from, to, n) && |area0| == |area1| && n < |area0|
             && area0[n] == Used(a) && a.owner == p && child == a.(owner := q)
    requires j < |area1| && area1[j].Empty? && area == area1[j := Used(child)]
    requires forall i :: 0 <= i < j ==> area1[i].Used?
    requires Shared(flat0, flat, area0, p, from, to, n, a.start, a.start + a.npages)
    ensures Forked(area0, flat0, area, flat, p, q, from, to, n + 1)
  {
    assert Gate(0);
    SlotsNext(area0, area1, p, q, n, j);
    SharedArea(flat0, flat, area0, p, from, to, n);
    PlacedNext(area0, area1, area, p, q, n, j);
  }

  /** New slots belong to `q`; the others are as they were (unfolded only at a Gate). */
  ghost predicate OnlyChildren(area0: seq<Slot>, area: seq<Slot>, q: nat) {
    forall z: nat {:trigger Gate(z)} :: Gate(z) ==>
      && |area| == |area0|
      && (forall j :: 0 <= j < |area| && area0[j].Used? ==> area[j] == area0[j])
      && (forall j :: 0 <= j < |area| && area0[j].Empty? && area[j].Used? ==> Owned(area[j], q))
  }

  lemma ForkedChildren(area0: seq<Slot>, flat0: map<Key, Pte>, area1: seq<Slot>, flat: map<Key, Pte>, area: seq<Slot>,
      p: nat, q: nat, from: nat, to: nat, n: nat, j: nat, a: Area)
    requires Forked(area0, flat0, area1, flat, p, q, from, to, n)
    requires area == area1 || (j < |area1| && area1[j].Empty? && a.owner == q && area == area1[j := Used(a)])
    ensures OnlyChildren(area0, area, q)
  {
    assert Gate(0);
    forall i | 0 <= i < |area| && area0[i].Empty? && area[i].Used? ensures Owned(area[i], q) {
      if area[i] == area1[i] { assert IsChild(area0, area1[i], p, q, n); }
    }
  }

  /** mmapfreeproc after a failure clears the new slots, and any other of `q`. */
  lemma ChildrenDropped(area0: seq<Slot>, area1: seq<Slot>, area: seq<Slot>, q: nat)
    requires OnlyChildren(area0, area1, q) && SlotsDropped(area1, area, q, |area1|)
    ensures SlotsDropped(area0, area, q, |area0|)
  {
    assert Gate(0);
  }

  /** `ok` says whether mmapfork has the slots and the memory for tables that it needs (unfolded only at a Gate). */
  ghost predicate CanFork(ok: bool, area: seq<Slot>, flat: map<Key, Pte>, role: map<nat, Role>, free: nat, p: nat,
      from: nat, to: nat) {
    forall z: nat {:trigger Gate(z)} :: Gate(z) ==>
      (ok <==>
        && |EmptySlots(area)| >= |OwnedIn(area, p, |area|)|
        && free >= |NewTables(role, to, AreaPages(flat, area, p, from))|)
  }

  lemma NoSlot(area0: seq<Slot>, flat0: map<Key, Pte>, area: seq<Slot>, flat: map<Key, Pte>, role0: map<nat, Role>,
      free0: nat, p: nat, q: nat, from: nat, to: nat, n: nat)
    requires Forked(area0, flat0, area, flat, p, q, from, to, n) && n < |area| && p != q && Owned(area[n], p)
    requires forall j :: 0 <= j < |area| ==> area[j].Used?
    ensures CanFork(false, area0, flat0, role0, free0, p, from, to)
  {
    ParentSlot(area0, flat0, area, flat, p, q, from, to, n);
    assert Gate(0) && Latch(0);
    assert EmptySlots(area) == {} && NewSlots(area0, area) == EmptySlots(area0);
    OwnedNext(area0, p, n);
    SubsetSize(OwnedIn(area0, p, n + 1), OwnedIn(area0, p, |area0|));
  }

  lemma NoTables(area: seq<Slot>, flat: map<Key, Pte>, role: map<nat, Role>, free: nat, p: nat, from: nat, to: nat)
    requires CanLink(false, free, role, to, AreaPages(flat, area, p, from))
    ensures CanFork(false, area, flat, role, free, p, from, to)
  {
    assert Gate(0);
  }

  lemma ForkedAll(area0: seq<Slot>, flat0: map<Key, Pte>, data0: map<nat, Page>, role0: map<nat, Role>, free0: nat,
      image0: imap<Key, Page>, area: seq<Slot>, flat: map<Key, Pte>, data: map<nat, Page>, role: map<nat, Role>,
          free: nat,
      image: imap<Key, Page>, p: nat, q: nat, from: nat, to: nat, done: set<nat>)
    requires Forking(area0, flat0, data0, role0, free0, image0, area, flat, data, role, free, image, p, q, from, to,
               |area|,
               done)
    ensures CanFork(true, area0, flat0, role0, free0, p, from, to) && Doubles(false, flat0, area0, p, from)
    ensures Forked(area0, flat0, area, flat, p, q, from, to, |area|) && OthersKeep(image0, image, q)
    ensures Keeps(flat0, data0, data) && SpaceOnly(flat0, flat, to)
  {
    assert Latch(0);
    ForkedFits(area0, flat0, area, flat, role0, free0, role, free, p, q, from, to, done);
  }

  lemma ForkedFits(area0: seq<Slot>, flat0: map<Key, Pte>, area: seq<Slot>, flat: map<Key, Pte>, role0: map<nat, Role>,
      free0: nat, role: map<nat, Role>, free: nat, p: nat, q: nat, from: nat, to: nat, done: set<nat>)
    requires Forked(area0, flat0, area, flat, p, q, from, to, |area|)
    requires Linked(role0, free0, role, free, to, done) && IsZoned(done, flat0, area0, p, from, |area|, 0, 0)
    ensures CanFork(true, area0, flat0, role0, free0, p, from, to) && Doubles(false, flat0, area0, p, from)
  {
    assert Gate(0) && Latch(0);
    ZonedAll(done, flat0, area0, p, from);
    SubsetSize(NewSlots(area0, area), EmptySlots(area0));
  }

  /** One slot of the table in mmapfork's loop. */
  method ForkSlot(k: Machine, i: nat, p: nat, q: nat, ghost area0: seq<Slot>, ghost flat0: map<Key, Pte>,
      ghost role0: map<nat, Role>, ghost free0: nat, ghost done: set<nat>, ghost files: Files)
    returns (ok: bool, panicked: bool, ghost next: set<nat>)
    requires k.Valid() && p in k.procs && q in k.procs && p != q && i < |k.area|
    requires NoLeaves(flat0, k.procs[q].root, MMAPVPN, TRAPVPN)
    requires Forked(area0, flat0, k.area, k.mem.flat, p, q, k.procs[p].root, k.procs[q].root, i)
    requires Linked(role0, free0, k.mem.role, |k.mem.fr.free|, k.procs[q].root, done)
    requires IsZoned(done, flat0, area0, p, k.procs[p].root, i, 0, 0)
    modifies k`area, k.mem
    ensures k.Valid() && k.mem.held == old(k.mem.held) && |k.area| == old(|k.area|)
            && OthersKeep(old(k.Image(files)), k.Image(files), q)
    ensures ok ==> Forked(area0, flat0, k.area, k.mem.flat, p, q, k.procs[p].root, k.procs[q].root, i + 1)
    ensures ok ==> Linked(role0, free0, k.mem.role, |k.mem.fr.free|, k.procs[q].root, next)
    ensures ok ==> IsZoned(next, flat0, area0, p, k.procs[p].root, i + 1, 0, 0)
    ensures !ok && !panicked ==> CanFork(false, area0, flat0, role0, free0, p, k.procs[p].root, k.procs[q].root)
    ensures panicked ==> !ok && Doubles(true, flat0, area0, p, k.procs[p].root)
    ensures !ok ==> OnlyChildren(area0, k.area, q)
    ensures Keeps(old(k.mem.flat), old(k.mem.data), k.mem.data)
            && SpaceOnly(old(k.mem.flat), k.mem.flat, k.procs[q].root)
  {
    next := done;
    if !Owned(k.area[i], p) {
      ForkedSkip(area0, flat0, k.area, k.mem.flat, p, q, k.procs[p].root, k.procs[q].root, i);
      ZonedSkip(done, flat0, area0, p, k.procs[p].root, i);
      return true, false, next;
    }
    var a := k.area[i].area;
    AreaAt(k.V(), i);
    var j := FreeSlot(k.area);
    if j == |k.area| {
      NoSlot(area0, flat0, k.area, k.mem.flat, role0, free0, p, q, k.procs[p].root, k.procs[q].root, i);
      ForkedChildren(area0, flat0, k.area, k.mem.flat, k.area, p, q, k.procs[p].root, k.procs[q].root, i, j, a);
      return false, false, next;
    }
    ok, panicked, next := ForkArea(k, a, i, j, p, q, area0, flat0, role0, free0, done, files);
  }

  /** mmapfork's copy of one area, into a free slot. */
  method ForkArea(k: Machine, a: Area, ghost i: nat, j: nat, p: nat, q: nat, ghost area0: seq<Slot>,
      ghost flat0: map<Key, Pte>, ghost role0: map<nat, Role>, ghost free0: nat, ghost done: set<nat>,
          ghost files: Files)
    returns (ok: bool, panicked: bool, ghost next: set<nat>)
    requires k.Valid() && p in k.procs && q in k.procs && p != q && i < |k.area|
    requires k.area[i] == Used(a) && a.owner == p && AreaOk(k.procs, a) && j < |k.area| && k.area[j].Empty?
    requires forall i :: 0 <= i < j ==> k.area[i].Used?
    requires NoLeaves(flat0, k.procs[q].root, MMAPVPN, TRAPVPN)
    requires Forked(area0, flat0, k.area, k.mem.flat, p, q, k.procs[p].root, k.procs[q].root, i)
    requires Linked(role0, free0, k.mem.role, |k.mem.fr.free|, k.procs[q].root, done)
    requires IsZoned(done, flat0, area0, p, k.procs[p].root, i, 0, 0)
    modifies k`area, k.mem
    ensures k.Valid() && k.mem.held == old(k.mem.held) && |k.area| == old(|k.area|)
            && OthersKeep(old(k.Image(files)), k.Image(files), q)
    ensures ok ==> Forked(area0, flat0, k.area, k.mem.flat, p, q, k.procs[p].root, k.procs[q].root, i + 1)
    ensures ok ==> Linked(role0, free0, k.mem.role, |k.mem.fr.free|, k.procs[q].root, next)
    ensures ok ==> IsZoned(next, flat0, area0, p, k.procs[p].root, i + 1, 0, 0)
    ensures !ok && !panicked ==> CanFork(false, area0, flat0, role0, free0, p, k.procs[p].root, k.procs[q].root)
    ensures panicked ==> !ok && Doubles(true, flat0, area0, p, k.procs[p].root)
    ensures !ok ==> OnlyChildren(area0, k.area, q)
    ensures Keeps(old(k.mem.flat), old(k.mem.data), k.mem.data)
            && SpaceOnly(old(k.mem.flat), k.mem.flat, k.procs[q].root)
  {
    ghost var from, to, v1, data1 := k.procs[p].root, k.procs[q].root, k.V(), k.mem.data;
    ProcAt(v1, q);
    ParentSlot(area0, flat0, k.area, k.mem.flat, p, q, from, to, i);
    ZonedAt(done, flat0, area0, p, from, i, a.start);
    var child := a.(owner := q);
    InsertIs(v1, j, child);
    k.area := k.area[j := Used(child)];
    ok, panicked, next := MmapCopyPages(k, a, p, q, i, j, flat0, area0, role0, free0, done);
    ChildImage(v1, data1, k.mem.flat, k.mem.data, q, j, child, files);
    if ok {
      ForkedNext(area0, flat0, v1.area, v1.flat, k.area, k.mem.flat, p, q, from, to, i, j, a, child);
      ZonedArea(next, flat0, area0, p, from, i, a);
    } else {
      if !panicked { NoTables(area0, flat0, role0, free0, p, from, to); }
      ForkedChildren(area0, flat0, v1.area, v1.flat, k.area, p, q, from, to, i, j, child);
    }
  }

  /** An area and translations of `q` alone change nothing for others. */
  lemma ChildImage(v: View, data0: map<nat, Page>, flat: map<Key, Pte>, data: map<nat, Page>, q: nat, j: nat, a: Area,
      files: Files)
    requires q in v.procs && DistinctRoots(v.procs) && j < |v.area| && v.area[j].Empty? && a.owner == q
    requires Keeps(v.flat, data0, data) && SpaceOnly(v.flat, flat, v.procs[q].root)
    ensures OthersKeep(ImageOf(v.flat, data0, v.procs, v.area, files),
            ImageOf(flat, data, v.procs, v.area[j := Used(a)], files), q)
  {
    forall k: Key | k.0 in v.procs && k.0 != q && k.1 < TRAPVPN
      ensures PageOf(flat, data, v.procs, v.area[j := Used(a)], files, k)
              == PageOf(v.flat, data0, v.procs, v.area, files, k)
    {
      var key := (v.procs[k.0].root, k.1);
      assert key.0 != v.procs[q].root;
      if key in v.flat { assert Counted(key) && Contents(v.flat, data, key) == Contents(v.flat, data0, key); }
      OtherAbsent(v.area, j, a, k.0, k.1, files);
    }
  }

  lemma OtherAbsent(area: seq<Slot>, j: nat, a: Area, p: nat, vpn: nat, files: Files)
    requires j < |area| && area[j].Empty? && a.owner != p
    ensures Absent(area[j := Used(a)], files, p, vpn) == Absent(area, files, p, vpn)
  {
    var w := area[j := Used(a)];
    assert forall i :: 0 <= i < |area| ==> Covers(w[i], p, vpn) == Covers(area[i], p, vpn);
  }

  lemma ForkedStart(area: seq<Slot>, flat: map<Key, Pte>, p: nat, q: nat, from: nat, to: nat)
    ensures Forked(area, flat, area, flat, p, q, from, to, 0)
  {
    PlacedStart(area, p, q);
  }

  /**
   mmapfork: it panics only when a mapped page is in two of the parent's areas, and never
   succeeds then.  Otherwise the child gets every area of the parent and shares every page
   mapped in them, exactly when there are free slots for all areas and memory for the
   tables; on failure it is left without areas.  No other process notices.
   */
  method Mmapfork(k: Machine, p: nat, q: nat, ghost files: Files) returns (ok: bool, panicked: bool)
    requires k.Valid() && p in k.procs && q in k.procs && p != q
    requires NoLeaves(k.mem.flat, k.procs[q].root, MMAPVPN, TRAPVPN)
    modifies k`area, k.mem
    ensures k.Valid() && k.mem.held == old(k.mem.held) && OthersKeep(old(k.Image(files)), k.Image(files), q)
    ensures SpaceOnly(old(k.mem.flat), k.mem.flat, k.procs[q].root)
    ensures ok ==> Keeps(old(k.mem.flat), old(k.mem.data), k.mem.data)
    ensures ok ==>
            Forked(old(k.area), old(k.mem.flat), k.area, k.mem.flat, p, q, k.procs[p].root, k.procs[q].root, |k.area|)
    ensures !ok && !panicked ==> NoAreas(k.area, q) && SlotsDropped(old(k.area), k.area, q, |k.area|)
    ensures !panicked ==>
              CanFork(ok, old(k.area), old(k.mem.flat), old(k.mem.role), |old(k.mem.fr.free)|, p, k.procs[p].root,
                k.procs[q].root)
    ensures ok ==> Doubles(false, old(k.mem.flat), old(k.area), p, k.procs[p].root)
    ensures panicked ==> !ok && Doubles(true, old(k.mem.flat), old(k.area), p, k.procs[p].root)
  {
    ghost var area0, flat0, data0, image0 := k.area, k.mem.flat, k.mem.data, k.Image(files);
    ghost var role0, free0, from, to := k.mem.role, |k.mem.fr.free|, k.procs[p].root, k.procs[q].root;
    ForkStart(area0, flat0, data0, role0, free0, image0, p, q, from, to);
    ghost var done;
    ok, panicked, done := ForkSlots(k, p, q, from, to, area0, flat0, data0, role0, free0, image0, files);
    if ok {
      ForkedAll(area0, flat0, data0, role0, free0, image0, k.area, k.mem.flat, k.mem.data, k.mem.role, |k.mem.fr.free|,
          k.Image(files), p, q, from, to, done);
    } else if !panicked {
      UndoFork(k, p, q, area0, flat0, image0, files);
    }
  }

  /** The loop of mmapfork. */
  method ForkSlots(k: Machine, p: nat, q: nat, ghost from: nat, ghost to: nat, ghost area0: seq<Slot>,
      ghost flat0: map<Key, Pte>, ghost data0: map<nat, Page>, ghost role0: map<nat, Role>, ghost free0: nat,
      ghost image0: imap<Key, Page>, ghost files: Files)
    returns (ok: bool, panicked: bool, ghost done: set<nat>)
    requires k.Valid() && p in k.procs && q in k.procs && p != q
    requires from == k.procs[p].root && to == k.procs[q].root && NoLeaves(flat0, to, MMAPVPN, TRAPVPN)
    requires Forking(area0, flat0, data0, role0, free0, image0, k.area, k.mem.flat, k.mem.data, k.mem.role,
               |k.mem.fr.free|, k.Image(files), p, q, from, to, 0, {})
    modifies k`area, k.mem
    ensures k.Valid() && k.mem.held == old(k.mem.held)
    ensures ok ==>
              Forking(area0, flat0, data0, role0, free0, image0, k.area, k.mem.flat, k.mem.data, k.mem.role,
                |k.mem.fr.free|, k.Image(files), p, q, from, to, |k.area|, done)
    ensures !ok ==> OthersKeep(image0, k.Image(files), q) && SpaceOnly(flat0, k.mem.flat, to)
    ensures !ok ==> OnlyChildren(area0, k.area, q)
    ensures !ok && !panicked ==> CanFork(false, area0, flat0, role0, free0, p, from, to)
    ensures panicked ==> !ok && Doubles(true, flat0, area0, p, from)
  {
    done := {};
    ok, panicked := true, false;
    var i := 0;
    while i < |k.area|
      invariant 0 <= i <= |k.area| && k.Valid() && k.mem.held == old(k.mem.held)
      invariant Forking(area0, flat0, data0, role0, free0, image0, k.area, k.mem.flat, k.mem.data, k.mem.role,
                  |k.mem.fr.free|, k.Image(files), p, q, from, to, i, done)
    {
      ok, panicked, done := ForkNext(k, i, p, q, from, to, area0, flat0, data0, role0, free0, image0, done, files);
      if !ok {
        return;
      }
      i := i + 1;
    }
    ok, panicked := true, false;
  }

  /** The loop invariant of mmapfork after `n` slots (unfolded only at a Latch). */
  ghost predicate Forking(area0: seq<Slot>, flat0: map<Key, Pte>, data0: map<nat, Page>, role0: map<nat, Role>,
      free0: nat,
      image0: imap<Key, Page>, area: seq<Slot>, flat: map<Key, Pte>, data: map<nat, Page>, role: map<nat, Role>,
          free: nat,
      image: imap<Key, Page>, p: nat, q: nat, from: nat, to: nat, n: nat, done: set<nat>) {
    forall z: nat {:trigger Latch(z)} :: Latch(z) ==>
      && Forked(area0, flat0, area, flat, p, q, from, to, n) && OthersKeep(image0, image, q)
      && Linked(role0, free0, role, free, to, done) && IsZoned(done, flat0, area0, p, from, n, 0, 0)
      && Keeps(flat0, data0, data) && SubMap(flat0, flat) && SpaceOnly(flat0, flat, to)
  }

  lemma ForkStart(area: seq<Slot>, flat: map<Key, Pte>, data: map<nat, Page>, role: map<nat, Role>, free: nat,
      image: imap<Key, Page>, p: nat, q: nat, from: nat, to: nat)
    ensures Forking(area, flat, data, role, free, image, area, flat, data, role, free, image, p, q, from, to, 0, {})
  {
    ForkedStart(area, flat, p, q, from, to);
    LinkedStart(role, free, to);
  }

  /** One round of that loop. */
  method ForkNext(k: Machine, i: nat, p: nat, q: nat, ghost from: nat, ghost to: nat, ghost area0: seq<Slot>,
      ghost flat0: map<Key, Pte>, ghost data0: map<nat, Page>, ghost role0: map<nat, Role>, ghost free0: nat,
      ghost image0: imap<Key, Page>, ghost done: set<nat>, ghost files: Files)
    returns (ok: bool, panicked: bool, ghost next: set<nat>)
    requires k.Valid() && p in k.procs && q in k.procs && p != q && i < |k.area|
    requires from == k.procs[p].root && to == k.procs[q].root && NoLeaves(flat0, to, MMAPVPN, TRAPVPN)
    requires Forking(area0, flat0, data0, role0, free0, image0, k.area, k.mem.flat, k.mem.data, k.mem.role,
               |k.mem.fr.free|, k.Image(files), p, q, from, to, i, done)
    modifies k`area, k.mem
    ensures k.Valid() && k.mem.held == old(k.mem.held) && |k.area| == old(|k.area|)
    ensures ok ==>
              Forking(area0, flat0, data0, role0, free0, image0, k.area, k.mem.flat, k.mem.data, k.mem.role,
                |k.mem.fr.free|, k.Image(files), p, q, from, to, i + 1, next)
    ensures !ok ==> OthersKeep(image0, k.Image(files), q) && SpaceOnly(flat0, k.mem.flat, to)
    ensures !ok ==> OnlyChildren(area0, k.area, q)
    ensures !ok && !panicked ==> CanFork(false, area0, flat0, role0, free0, p, from, to)
    ensures panicked ==> !ok && Doubles(true, flat0, area0, p, from)
  {
    assert Latch(0);
    ghost var image1, data1, flat1 := k.Image(files), k.mem.data, k.mem.flat;
    ok, panicked, next := ForkSlot(k, i, p, q, area0, flat0, role0, free0, done, files);
    OthersKeepBoth(image0, image1, k.Image(files), q);
    OnlyBoth(flat0, flat1, k.mem.flat, k.procs[q].root);
    if ok {
      SubKeeps(flat0, flat1, data0, data1, k.mem.data);
      ForkedSub(area0, flat0, k.area, k.mem.flat, p, q, k.procs[p].root, k.procs[q].root, i + 1);
    }
  }

  lemma OnlyBoth(flat0: map<Key, Pte>, flat1: map<Key, Pte>, flat: map<Key, Pte>, root: nat)
    requires SpaceOnly(flat0, flat1, root) && SpaceOnly(flat1, flat, root)
    ensures SpaceOnly(flat0, flat, root)
  {
  }

  /** The error path of mmapfork. */
  method UndoFork(k: Machine, p: nat, q: nat, ghost area0: seq<Slot>, ghost flat0: map<Key, Pte>,
      ghost image0: imap<Key, Page>, ghost files: Files)
    requires k.Valid() && q in k.procs && OthersKeep(image0, k.Image(files), q)
    requires SpaceOnly(flat0, k.mem.flat, k.procs[q].root) && OnlyChildren(area0, k.area, q)
    modifies k`area, k.mem
    ensures k.Valid() && k.mem.held == old(k.mem.held) && OthersKeep(image0, k.Image(files), q)
    ensures SpaceOnly(flat0, k.mem.flat, k.procs[q].root)
    ensures NoAreas(k.area, q) && SlotsDropped(area0, k.area, q, |k.area|)
  {
    ghost var image1, flat1, area1 := k.Image(files), k.mem.flat, k.area;
    Mmapfreeproc(k, q, files);
    assert OthersKeep(image1, k.Image(files), q);
    OthersKeepBoth(image0, image1, k.Image(files), q);
    ChildrenDropped(area0, area1, k.area, q);
    DroppedOnly(area1, flat1, k.mem.flat, q, k.procs[q].root, |k.area|);
    OnlyBoth(flat0, flat1, k.mem.flat, k.procs[q].root);
  }

  lemma DroppedOnly(area0: seq<Slot>, flat0: map<Key, Pte>, flat: map<Key, Pte>, p: nat, root: nat, n: nat)
    requires n <= |area0| && LeavesDropped(area0, flat0, flat, p, root, n)
    ensures SpaceOnly(flat0, flat, root)
  {
  }

  /** Unfolded only at a Gate. */
  ghost predicate SubMap(flat0: map<Key, Pte>, flat: map<Key, Pte>) {
    forall z: nat {:trigger Gate(z)} :: Gate(z) ==> forall k :: k in flat0 ==> k in flat && flat[k] == flat0[k]
  }

  lemma SubKeeps(flat0: map<Key, Pte>, flat1: map<Key, Pte>, data0: map<nat, Page>, data1: map<nat, Page>,
      data: map<nat, Page>)
    requires Keeps(flat0, data0, data1) && Keeps(flat1, data1, data) && SubMap(flat0, flat1)
    ensures Keeps(flat0, data0, data)
  {
    assert Gate(0);
    KeepsBoth(flat0, flat1, data0, data1, data);
  }

  lemma ForkedSub(area0: seq<Slot>, flat0: map<Key, Pte>, area: seq<Slot>, flat: map<Key, Pte>, p: nat, q: nat,
      from: nat, to: nat, n: nat)
    requires Forked(area0, flat0, area, flat, p, q, from, to, n)
    ensures SubMap(flat0, flat)
  {
  }

  /** After mmapfork the child sees in the mmap zone what the parent sees. */
  lemma ForkImage(v0: View, v: View, data: map<nat, Page>, p: nat, q: nat, u: nat, files: Files)
    requires ViewIs(v0) && p in v0.procs && q in v0.procs && p != q && v.procs == v0.procs
             && NoAreas(v0.area, q)
    requires Forked(v0.area, v0.flat, v.area, v.flat, p, q, v.procs[p].root, v.procs[q].root, |v.area|)
    requires NoLeaves(v0.flat, v0.procs[q].root, MMAPVPN, TRAPVPN) && MMAPVPN <= u < TRAPVPN
    ensures PageOf(v.flat, data, v.procs, v.area, files, (q, u)) == PageOf(v.flat, data, v.procs, v.area, files, (p, u))
  {
    ForkLeaf(v0, v, p, q, u);
    if (v.procs[p].root, u) !in v.flat {
        ForkAbsent(v0.area, v0.flat, v.area, v.flat, p, q, v.procs[p].root, v.procs[q].root, u, files); }
  }

  lemma ForkLeaf(v0: View, v: View, p: nat, q: nat, u: nat)
    requires ViewIs(v0) && p in v0.procs && q in v0.procs && p != q && v.procs == v0.procs
    requires Forked(v0.area, v0.flat, v.area, v.flat, p, q, v.procs[p].root, v.procs[q].root, |v.area|)
    requires NoLeaves(v0.flat, v0.procs[q].root, MMAPVPN, TRAPVPN) && MMAPVPN <= u < TRAPVPN
    ensures (v.procs[q].root, u) in v.flat <==> (v.procs[p].root, u) in v.flat
    ensures (v.procs[q].root, u) in v.flat ==> v.flat[(v.procs[q].root, u)] == v.flat[(v.procs[p].root, u)]
  {
    assert Gate(0);
    OpenView(v0);
    assert ProcOk(v0, p) && ProcOk(v0, q);
    assert v0.area[..|v.area|] == v0.area;
    if (v.procs[p].root, u) in v0.flat { assert LeafOk(v0, (v.procs[p].root, u)); }
  }

  /** Absent pages count for the child as what they count for the parent. */
  lemma ForkAbsent(area0: seq<Slot>, flat0: map<Key, Pte>, area: seq<Slot>, flat: map<Key, Pte>, p: nat, q: nat,
      from: nat, to: nat, u: nat, files: Files)
    requires Forked(area0, flat0, area, flat, p, q, from, to, |area|) && p != q && NoAreas(area0, q)
    ensures Absent(area, files, q, u) == Absent(area, files, p, u)
  {
    var pos := ForkedAt(area0, flat0, area, flat, p, q, from, to);
    FirstArea(area0, area, p, q, u, pos);
  }

  lemma ForkedAt(area0: seq<Slot>, flat0: map<Key, Pte>, area: seq<Slot>, flat: map<Key, Pte>, p: nat, q: nat,
      from: nat, to: nat)
    returns (pos: seq<nat>)
    requires Forked(area0, flat0, area, flat, p, q, from, to, |area|)
    ensures SlotsForked(area0, area, p, q, |area|) && |pos| == |area| && PlacedAt(area0, area, p, q, pos)
    ensures Shared(flat0, flat, area0, p, from, to, |area|, 0, 0)
  {
    assert Gate(0) && Latch(0);
    pos :| |pos| == |area| && PlacedAt(area0, area, p, q, pos);
  }

  /** The first area over a page is the same for both: the copies are in the order of the originals. */
  lemma FirstArea(area0: seq<Slot>, area: seq<Slot>, p: nat, q: nat, u: nat, pos: seq<nat>)
    requires SlotsForked(area0, area, p, q, |area|) && PlacedAt(area0, area, p, q, pos) && |pos| == |area|
    requires p != q && NoAreas(area0, q)
    ensures var i, j := FindArea(area, p, u, 0), FindArea(area, q, u, 0);
            if i < |area| then j < |area| && area[j] == Used(area[i].area.(owner := q)) else j == |area|
  {
    var i, j := FindArea(area, p, u, 0), FindArea(area, q, u, 0);
    if i < |area| {
      ParentCover(area0, area, p, q, i, u);
      assert CopyAtPos(area0, area, p, q, pos, i);
      assert Covers(area[pos[i]], q, u);
    }
    if j < |area| {
      var s := ChildCover(area0, area, p, q, j, u, pos);
      assert Covers(area[s], p, u) && InOrder(area0, p, pos, i, s);
    }
  }

  lemma ParentCover(area0: seq<Slot>, area: seq<Slot>, p: nat, q: nat, i: nat, u: nat)
    requires SlotsForked(area0, area, p, q, |area|) && i < |area| && Covers(area[i], p, u) && p != q
    ensures area[i] == area0[i] && Owned(area0[i], p)
  {
    assert area0[i].Empty? ==> IsChild(area0, area[i], p, q, |area|);
  }

  lemma ChildCover(area0: seq<Slot>, area: seq<Slot>, p: nat, q: nat, j: nat, u: nat, pos: seq<nat>) returns (s: nat)
    requires SlotsForked(area0, area, p, q, |area|) && PlacedAt(area0, area, p, q, pos) && |pos| == |area|
    requires j < |area| && Covers(area[j], q, u) && NoAreas(area0, q)
    ensures s < |area| && area[s] == area0[s] && Covers(area0[s], p, u) && pos[s] == j
    ensures area[j] == Used(area0[s].area.(owner := q))
  {
    assert NewFrom(area0, area, p, pos, j);
    s :| 0 <= s < |pos| && s < |area0| && Owned(area0[s], p) && pos[s] == j;
    assert CopyAtPos(area0, area, p, q, pos, s);
  }

  // ---------- kfork ----------

  /** The child sees in [lo, hi) what the parent sees (unfolded only at a Gate). */
  ghost predicate SameSight(image: imap<Key, Page>, p: nat, q: nat, lo: nat, hi: nat) {
    forall z: nat {:trigger Gate(z)} :: Gate(z) ==>
      forall u: nat :: lo <= u < hi ==> (p, u) in image && (q, u) in image && image[(q, u)] == image[(p, u)]
  }

  /** uvmcopy keeps the invariant; the child's size follows when it succeeds. */
  lemma CopyView(v: View, data0: map<nat, Page>, flat: map<Key, Pte>, data: map<nat, Page>, role: map<nat, Role>,
      p: nat, q: nat, ok: bool)
    requires ViewIs(v) && p in v.procs && q in v.procs && p != q && v.procs[q].sz == 0
    requires TablesFor(v.role, role, v.procs[q].root, 0, PgUp(v.procs[p].sz))
    requires if ok then Copied(v.flat, data0, flat, data, v.procs[p].root, v.procs[q].root, PgUp(v.procs[p].sz))
             else flat == v.flat
    ensures ViewIs(v.(flat := flat, role := role, procs := if ok then v.procs[q := v.procs[q].(sz := v.procs[p].sz)]
            else v.procs))
  {
    OpenView(v);
    assert ProcOk(v, p);
    var sz := v.procs[p].sz;
    if ok {
      SizeView(v, v.flat, q, sz);
      PrivateSharing(v.flat, flat);
      GrowView(v.(procs := v.procs[q := v.procs[q].(sz := sz)]), flat, role, q, 0, PgUp(sz));
    } else {
      GrowView(v, flat, role, q, 0, PgUp(sz));
    }
  }

  /** With the parent's pages copied, the child's heap is the parent's, absent pages included. */
  lemma CopySight(v: View, data0: map<nat, Page>, flat: map<Key, Pte>, data: map<nat, Page>, p: nat, q: nat,
      files: Files)
    requires ViewIs(v) && p in v.procs && q in v.procs && p != q && Keeps(v.flat, data0, data)
    requires NoLeaves(v.flat, v.procs[q].root, 0, TRAPVPN)
    requires Copied(v.flat, data0, flat, data, v.procs[p].root, v.procs[q].root, PgUp(v.procs[p].sz))
    ensures SameSight(ImageOf(flat, data, v.procs, v.area, files), p, q, 0, MMAPVPN)
    ensures NoLeaves(flat, v.procs[q].root, MMAPVPN, TRAPVPN)
  {
    ProcAt(v, p);
    HeapTop(v, p);
    var from, to := v.procs[p].root, v.procs[q].root;
    forall u: nat | u < MMAPVPN
      ensures PageOf(flat, data, v.procs, v.area, files, (q, u)) == PageOf(flat, data, v.procs, v.area, files, (p, u))
    {
      HeapAbsent(v, p, u, files);
      HeapAbsent(v, q, u, files);
      if (from, u) in v.flat {
        assert u < PgUp(v.procs[p].sz);
        assert CopyAt(v.flat, data0, flat, data, from, to, u) && Counted((from, u));
        assert Contents(v.flat, data, (from, u)) == Contents(v.flat, data0, (from, u));
      }
    }
  }

  /** Pages of `q` alone change nothing for others. */
  lemma OnlyImage(v: View, data0: map<nat, Page>, flat: map<Key, Pte>, data: map<nat, Page>, q: nat, files: Files)
    requires q in v.procs && DistinctRoots(v.procs) && Keeps(v.flat, data0, data)
             && SpaceOnly(v.flat, flat, v.procs[q].root)
    ensures OthersKeep(ImageOf(v.flat, data0, v.procs, v.area, files), ImageOf(flat, data, v.procs, v.area, files), q)
  {
    forall k: Key | k.0 in v.procs && k.0 != q && k.1 < TRAPVPN
      ensures PageOf(flat, data, v.procs, v.area, files, k) == PageOf(v.flat, data0, v.procs, v.area, files, k)
    {
      var key := (v.procs[k.0].root, k.1);
      assert key.0 != v.procs[q].root;
      if key in v.flat { assert Counted(key) && Contents(v.flat, data, key) == Contents(v.flat, data0, key); }
    }
  }

  // ---------- which pages the child has, and what they cost ----------

  /** Below page `hi` the child has the pages of the parent, with the same permissions (unfolded only at a Gate). */
  ghost predicate SameMaps(flat: map<Key, Pte>, from: nat, to: nat, hi: nat) {
    forall z: nat {:trigger Gate(z)} :: Gate(z) ==> forall u: nat :: u < hi ==> SamePage(flat, from, to, u)
  }

  /** Heap pages are copies, in pages of their own; pages of areas are shared. */
  ghost predicate SamePage(flat: map<Key, Pte>, from: nat, to: nat, u: nat) {
    && ((to, u) in flat <==> (from, u) in flat)
    && ((to, u) in flat ==>
          && flat[(to, u)] == flat[(from, u)].(frame := flat[(to, u)].frame)
          && (flat[(to, u)].frame == flat[(from, u)].frame <==> u >= MMAPVPN))
  }

  lemma CopyMaps(v: View, data0: map<nat, Page>, flat: map<Key, Pte>, data: map<nat, Page>, p: nat, q: nat)
    requires ViewIs(v) && p in v.procs && q in v.procs && p != q && NoLeaves(v.flat, v.procs[q].root, 0, TRAPVPN)
    requires Copied(v.flat, data0, flat, data, v.procs[p].root, v.procs[q].root, PgUp(v.procs[p].sz))
    ensures SameMaps(flat, v.procs[p].root, v.procs[q].root, MMAPVPN) && SpaceOnly(v.flat, flat, v.procs[q].root)
  {
    ProcAt(v, p);
    HeapTop(v, p);
    var from, to := v.procs[p].root, v.procs[q].root;
    forall u: nat | u < MMAPVPN ensures SamePage(flat, from, to, u) {
      if (from, u) in v.flat {
        HeapPage(v, p, u);
        assert CopyAt(v.flat, data0, flat, data, from, to, u) && Counted((from, u)) && Counted((to, u));
      }
    }
  }

  lemma HeapPage(v: View, p: nat, u: nat)
    requires ViewIs(v) && p in v.procs && u < MMAPVPN && (v.procs[p].root, u) in v.flat
    ensures u < PgUp(v.procs[p].sz)
  {
    HeapTop(v, p);
  }

  /** The pages that fork copies. */
  ghost function HeapPages(flat: map<Key, Pte>, from: nat, sz: nat): set<nat> {
    Mapped(flat, from, 0, PgUp(sz))
  }

  /** `ok` says whether there are slots and memory to fill the child (unfolded only at a Gate). */
  ghost predicate CanFill(ok: bool, area: seq<Slot>, flat: map<Key, Pte>, role: map<nat, Role>, free: nat, p: nat,
      from: nat, to: nat, sz: nat) {
    forall z: nat {:trigger Gate(z)} :: Gate(z) ==>
      (ok <==>
        && |EmptySlots(area)| >= |OwnedIn(area, p, |area|)|
        && free >= |HeapPages(flat, from, sz)|
                   + |NewTables(role, to, HeapPages(flat, from, sz) + AreaPages(flat, area, p, from))|)
  }

  lemma CannotCopy(area: seq<Slot>, flat: map<Key, Pte>, role: map<nat, Role>, free: nat, p: nat, from: nat, to: nat,
      sz: nat)
    requires Afford(false, free, role, to, HeapPages(flat, from, sz))
    ensures CanFill(false, area, flat, role, free, p, from, to, sz)
  {
    var h, a := HeapPages(flat, from, sz), AreaPages(flat, area, p, from);
    FewerTables(role, to, h, h + a);
    assert Gate(0);
  }

  lemma FillIs(ok: bool, area: seq<Slot>, flat0: map<Key, Pte>, role0: map<nat, Role>, free0: nat, flat: map<Key, Pte>,
      role: map<nat, Role>, free: nat, p: nat, from: nat, to: nat, sz: nat)
    requires Spent(role0, free0, role, free, to, HeapPages(flat0, from, sz)) && SpaceOnly(flat0, flat, to) && from != to
    requires CanFork(ok, area, flat, role, free, p, from, to)
    ensures CanFill(ok, area, flat0, role0, free0, p, from, to, sz)
  {
    var h, a := HeapPages(flat0, from, sz), AreaPages(flat0, area, p, from);
    SpentIs(role0, free0, role, free, to, h);
    SameAreaPages(area, flat0, flat, p, from, to);
    TablesBoth(role0, role, to, h, a);
    assert Gate(0);
  }

  lemma SameAreaPages(area: seq<Slot>, flat0: map<Key, Pte>, flat: map<Key, Pte>, p: nat, from: nat, to: nat)
    requires SpaceOnly(flat0, flat, to) && from != to
    ensures AreaPages(flat, area, p, from) == AreaPages(flat0, area, p, from)
  {
    forall v ensures v in AreaPages(flat, area, p, from) <==> v in AreaPages(flat0, area, p, from) {
      assert (from, v) in flat <==> (from, v) in flat0;
    }
  }

  /**
   The memory that fork takes: the trapframe page, the root table, a page for each mapped
   heap page, and the tables over the heap, the area pages and the top pages.
   */
  ghost function ForkCost(flat: map<Key, Pte>, area: seq<Slot>, p: nat, from: nat, sz: nat): nat {
    2 + |HeapPages(flat, from, sz)| + |Path(0, HeapPages(flat, from, sz) + AreaPages(flat, area, p, from) + {TRAPVPN})|
  }

  /** `ok` says whether there are slots and memory for the child (unfolded only at a Gate). */
  ghost predicate CanKfork(ok: bool, area: seq<Slot>, flat: map<Key, Pte>, free: nat, p: nat, from: nat, sz: nat) {
    forall z: nat {:trigger Gate(z)} :: Gate(z) ==>
      (ok <==> |EmptySlots(area)| >= |OwnedIn(area, p, |area|)| && free >= ForkCost(flat, area, p, from, sz))
  }

  lemma CannotAlloc(area: seq<Slot>, flat: map<Key, Pte>, free: nat, p: nat, from: nat, sz: nat)
    requires free < 4
    ensures CanKfork(false, area, flat, free, p, from, sz)
  {
    var pages := HeapPages(flat, from, sz) + AreaPages(flat, area, p, from);
    PathAdd(0, pages, TRAPVPN);
    SubsetSize({Mid(0, Px2(TRAPVPN)), Low(0, Px2(TRAPVPN), Px1(TRAPVPN))}, Path(0, pages + {TRAPVPN}));
  }

  lemma KforkIs(ok: bool, area: seq<Slot>, flat0: map<Key, Pte>, free0: nat, flat: map<Key, Pte>, role: map<nat, Role>,
      free: nat, p: nat, from: nat, to: nat, sz: nat)
    requires free + 4 == free0 && TopTables(role, to) && OthersOf(flat, to) == flat0 && from != to
    requires CanFill(ok, area, flat, role, free, p, from, to, sz)
    ensures CanKfork(ok, area, flat0, free0, p, from, sz)
  {
    OthersOnly(flat, to);
    SameAreaPages(area, flat0, flat, p, from, to);
    SameHeapPages(flat0, flat, from, to, sz);
    var pages := HeapPages(flat0, from, sz) + AreaPages(flat0, area, p, from);
    TopTablesCount(role, to, pages);
    PathSize(0, to, pages + {TRAPVPN});
    assert Gate(0);
  }

  lemma OthersOnly(flat: map<Key, Pte>, root: nat)
    ensures SpaceOnly(OthersOf(flat, root), flat, root)
  {
  }

  lemma SameHeapPages(flat0: map<Key, Pte>, flat: map<Key, Pte>, from: nat, to: nat, sz: nat)
    requires SpaceOnly(flat0, flat, to) && from != to
    ensures HeapPages(flat, from, sz) == HeapPages(flat0, from, sz)
  {
  }

  lemma TopTablesCount(role: map<nat, Role>, root: nat, pages: set<nat>)
    requires TopTables(role, root)
    ensures |NewTables(role, root, pages)| + 2 == |Path(root, pages + {TRAPVPN})|
  {
    var mid, low := Mid(root, Px2(TRAPVPN)), Low(root, Px2(TRAPVPN), Px1(TRAPVPN));
    PathAdd(root, pages, TRAPVPN);
    PathAdd(root, {}, TRAPVPN);
    assert {} + {TRAPVPN} == {TRAPVPN} && Path(root, {}) == {};
    assert Gate(0);
    assert Path(root, pages + {TRAPVPN}) == NewTables(role, root, pages) + {mid, low};
    assert NewTables(role, root, pages) !! {mid, low};
  }

  /** How many tables pages need does not depend on the root. */
  lemma {:induction false} PathSize(a: nat, b: nat, pages: set<nat>)
    ensures |Path(a, pages)| == |Path(b, pages)|
  {
    if pages == {} {
      assert Path(a, pages) == {} == Path(b, pages);
    } else {
      var v :| v in pages;
      var rest := pages - {v};
      assert rest + {v} == pages;
      PathSize(a, b, rest);
      PathAdd(a, rest, v);
      PathAdd(b, rest, v);
      PathOne(a, rest, v);
      PathOne(b, rest, v);
    }
  }

  predicate HasMid(pages: set<nat>, v: nat) {
    exists u :: u in pages && Px2(u) == Px2(v)
  }

  predicate HasLow(pages: set<nat>, v: nat) {
    exists u :: u in pages && Px2(u) == Px2(v) && Px1(u) == Px1(v)
  }

  lemma PathOne(root: nat, pages: set<nat>, v: nat)
    ensures |Path(root, pages + {v})| == |Path(root, pages)|
            + (if HasMid(pages, v) then 0 else 1) + if HasLow(pages, v) then 0 else 1
  {
    var mid, low, path := Mid(root, Px2(v)), Low(root, Px2(v), Px1(v)), Path(root, pages);
    PathAdd(root, pages, v);
    PathHas(root, pages, v);
    AddOne(path, mid);
    AddOne(path + {mid}, low);
    assert path + {mid, low} == path + {mid} + {low};
  }

  lemma PathHas(root: nat, pages: set<nat>, v: nat)
    ensures Mid(root, Px2(v)) in Path(root, pages) <==> HasMid(pages, v)
    ensures Low(root, Px2(v), Px1(v)) in Path(root, pages) <==> HasLow(pages, v)
  {
  }

  lemma AddOne(path: set<Role>, r: Role)
    ensures |path + {r}| == |path| + if r in path then 0 else 1
  {
    if r in path { assert path + {r} == path; }
  }

  /** kfork's call of uvmcopy, and the child's size. */
  method CopyHeap(k: Machine, p: nat, q: nat, ghost files: Files) returns (ok: bool)
    requires k.Valid() && p in k.procs && q in k.procs && p != q && k.procs[q].sz == 0
    requires NoLeaves(k.mem.flat, k.procs[q].root, 0, TRAPVPN)
    modifies k`procs, k.mem
    ensures k.Valid() && k.mem.held == old(k.mem.held) && OthersKeep(old(k.Image(files)), k.Image(files), q)
    ensures k.procs == old(k.procs)[q := old(k.procs)[q].(sz := if ok then old(k.procs)[p].sz else 0)]
    ensures SpaceOnly(old(k.mem.flat), k.mem.flat, k.procs[q].root)
    ensures ok ==>
              SameSight(k.Image(files), p, q, 0, MMAPVPN) && NoLeaves(k.mem.flat, k.procs[q].root, MMAPVPN, TRAPVPN)
    ensures ok ==> SameMaps(k.mem.flat, k.procs[p].root, k.procs[q].root, MMAPVPN)
    ensures var pages := HeapPages(old(k.mem.flat), k.procs[p].root, k.procs[p].sz);
            && Afford(ok, |old(k.mem.fr.free)|, old(k.mem.role), k.procs[q].root, pages)
            && (ok ==> Spent(old(k.mem.role), |old(k.mem.fr.free)|, k.mem.role, |k.mem.fr.free|, k.procs[q].root,
                pages))
  {
    ghost var v0 := k.V();
    ProcAt(v0, p);
    ProcAt(v0, q);
    ok := Uvmcopy(k.mem, k.procs[p].root, k.procs[q].root, k.procs[p].sz);
    CopyView(v0, old(k.mem.data), k.mem.flat, k.mem.data, k.mem.role, p, q, ok);
    OnlyImage(v0, old(k.mem.data), k.mem.flat, k.mem.data, q, files);
    if ok {
      CopySight(v0, old(k.mem.data), k.mem.flat, k.mem.data, p, q, files);
      CopyMaps(v0, old(k.mem.data), k.mem.flat, k.mem.data, p, q);
      SizeKeepsImage(k.mem.flat, k.mem.data, k.procs, q, k.procs[p].sz, k.area, files);
      k.procs := k.procs[q := k.procs[q].(sz := k.procs[p].sz)];
    } else {
      assert k.procs[q].(sz := 0) == k.procs[q] && k.procs[q := k.procs[q]] == k.procs;
    }
  }

  /** mmapfork leaves the child's heap alone. */
  lemma ForkHeap(v0: View, data0: map<nat, Page>, v: View, data: map<nat, Page>, p: nat, q: nat, u: nat, files: Files)
    requires ViewIs(v0) && ViewIs(v) && p in v0.procs && q in v0.procs && v.procs == v0.procs
             && Keeps(v0.flat, data0, data) && u < MMAPVPN
    requires Forked(v0.area, v0.flat, v.area, v.flat, p, q, v.procs[p].root, v.procs[q].root, |v.area|)
    ensures PageOf(v.flat, data, v.procs, v.area, files, (q, u))
            == PageOf(v0.flat, data0, v0.procs, v0.area, files, (q, u))
  {
    HeapAbsent(v0, q, u, files);
    HeapAbsent(v0, p, u, files);
    HeapAbsent(v, q, u, files);
    assert Gate(0);
    assert v0.area[..|v.area|] == v0.area;
    var key := (v.procs[q].root, u);
    if key in v0.flat { assert Counted(key) && Contents(v0.flat, data, key) == Contents(v0.flat, data0, key); }
  }

  /** After uvmcopy and mmapfork the child sees everything the parent sees. */
  lemma ForkSight(v0: View, data0: map<nat, Page>, v: View, data: map<nat, Page>, p: nat, q: nat, files: Files)
    requires ViewIs(v0) && ViewIs(v) && p in v0.procs && q in v0.procs && p != q && v.procs == v0.procs
             && Keeps(v0.flat, data0, data)
    requires Forked(v0.area, v0.flat, v.area, v.flat, p, q, v.procs[p].root, v.procs[q].root, |v.area|)
    requires NoAreas(v0.area, q) && NoLeaves(v0.flat, v0.procs[q].root, MMAPVPN, TRAPVPN)
    requires SameSight(ImageOf(v0.flat, data0, v0.procs, v0.area, files), p, q, 0, MMAPVPN)
    requires OthersKeep(ImageOf(v0.flat, data0, v0.procs, v0.area, files),
             ImageOf(v.flat, data, v.procs, v.area, files), q)
    ensures SameSight(ImageOf(v.flat, data, v.procs, v.area, files), p, q, 0, TRAPVPN)
  {
    var image0, image := ImageOf(v0.flat, data0, v0.procs, v0.area, files),
        ImageOf(v.flat, data, v.procs, v.area, files);
    forall u: nat | u < TRAPVPN ensures (p, u) in image && (q, u) in image && image[(q, u)] == image[(p, u)] {
      if u < MMAPVPN {
        assert Gate(0);
        ForkHeap(v0, data0, v, data, p, q, u, files);
        assert image0[(q, u)] == image0[(p, u)] && image[(p, u)] == image0[(p, u)];
      } else {
        ForkImage(v0, v, data, p, q, u, files);
      }
    }
  }

  /** A process that does not exist has no areas. */
  lemma NoProcNoAreas(v: View, q: nat)
    requires ViewIs(v) && q !in v.procs
    ensures NoAreas(v.area, q)
  {
    OpenView(v);
  }

  /** mmapfork leaves the heap's pages alone and shares the others. */
  lemma ForkMaps(v0: View, v: View, p: nat, q: nat)
    requires ViewIs(v0) && p in v0.procs && q in v0.procs && p != q && v.procs == v0.procs
    requires Forked(v0.area, v0.flat, v.area, v.flat, p, q, v.procs[p].root, v.procs[q].root, |v.area|)
    requires NoLeaves(v0.flat, v0.procs[q].root, MMAPVPN, TRAPVPN)
    requires SameMaps(v0.flat, v.procs[p].root, v.procs[q].root, MMAPVPN)
    ensures SameMaps(v.flat, v.procs[p].root, v.procs[q].root, TRAPVPN)
  {
    var from, to := v.procs[p].root, v.procs[q].root;
    forall u: nat | u < TRAPVPN ensures SamePage(v.flat, from, to, u) {
      if u < MMAPVPN {
        assert SamePage(v0.flat, from, to, u) by { assert Gate(0); }
        HeapStays(v0, v, p, q, from, u);
        HeapStays(v0, v, p, q, to, u);
      } else {
        ForkLeaf(v0, v, p, q, u);
      }
    }
  }

  lemma HeapStays(v0: View, v: View, p: nat, q: nat, root: nat, u: nat)
    requires ViewIs(v0) && p in v0.procs && q in v0.procs && p != q && v.procs == v0.procs && u < MMAPVPN
    requires Forked(v0.area, v0.flat, v.area, v.flat, p, q, v.procs[p].root, v.procs[q].root, |v.area|)
    ensures (root, u) in v.flat <==> (root, u) in v0.flat
    ensures (root, u) in v.flat ==> v.flat[(root, u)] == v0.flat[(root, u)]
  {
    OpenView(v0);
    assert Gate(0);
    assert v0.area[..|v.area|] == v0.area;
  }

  /** The child has a copy of each area of the parent and no other area (unfolded only at a Gate). */
  ghost predicate ChildAreas(area0: seq<Slot>, area: seq<Slot>, p: nat, q: nat) {
    forall z: nat {:trigger Gate(z)} :: Gate(z) ==> SlotsForked(area0, area, p, q, |area|)
  }

  /** Parent and child can both fork again. */
  lemma ForkedOnce(v0: View, v: View, p: nat, q: nat)
    requires ViewIs(v0) && p in v0.procs && q in v0.procs && p != q && v.procs == v0.procs && NoAreas(v0.area, q)
    requires Forked(v0.area, v0.flat, v.area, v.flat, p, q, v.procs[p].root, v.procs[q].root, |v.area|)
    requires NoLeaves(v0.flat, v0.procs[q].root, MMAPVPN, TRAPVPN)
             && Doubles(false, v0.flat, v0.area, p, v.procs[p].root)
    ensures ChildAreas(v0.area, v.area, p, q)
    ensures Doubles(false, v.flat, v.area, p, v.procs[p].root) && Doubles(false, v.flat, v.area, q, v.procs[q].root)
  {
    var from, to := v.procs[p].root, v.procs[q].root;
    var pos := ForkedAt(v0.area, v0.flat, v.area, v.flat, p, q, from, to);
    ProcAt(v0, p);
    forall u: nat ensures !Doubled(v.flat, v.area, p, from, |v.area|, u) {
      ParentTwice(v0.area, v0.flat, v.area, v.flat, p, q, from, to, u);
      assert !Doubled(v0.flat, v0.area, p, from, |v0.area|, u) by { assert Gate(0); }
    }
    forall u: nat ensures !Doubled(v.flat, v.area, q, to, |v.area|, u) {
      ChildTwice(v0, v, p, q, u, pos);
      assert !Doubled(v0.flat, v0.area, p, from, |v0.area|, u) by { assert Gate(0); }
    }
  }

  lemma ParentTwice(area0: seq<Slot>, flat0: map<Key, Pte>, area: seq<Slot>, flat: map<Key, Pte>, p: nat, q: nat,
      from: nat, to: nat, u: nat)
    requires p != q && from != to && SlotsForked(area0, area, p, q, |area|)
    requires Shared(flat0, flat, area0, p, from, to, |area|, 0, 0)
    ensures Doubled(flat, area, p, from, |area|, u) ==> Doubled(flat0, area0, p, from, |area0|, u)
  {
    forall i: nat | i < |area| && Covers(area[i], p, u) ensures Covers(area0[i], p, u) {
      ParentCover(area0, area, p, q, i, u);
    }
  }

  lemma ChildTwice(v0: View, v: View, p: nat, q: nat, u: nat, pos: seq<nat>)
    requires ViewIs(v0) && p in v0.procs && q in v0.procs && p != q && v.procs == v0.procs && NoAreas(v0.area, q)
    requires SlotsForked(v0.area, v.area, p, q, |v.area|) && PlacedAt(v0.area, v.area, p, q, pos) && |pos| == |v.area|
    requires Shared(v0.flat, v.flat, v0.area, p, v.procs[p].root, v.procs[q].root, |v.area|, 0, 0)
    requires NoLeaves(v0.flat, v0.procs[q].root, MMAPVPN, TRAPVPN)
    ensures Doubled(v.flat, v.area, q, v.procs[q].root, |v.area|, u) ==>
              Doubled(v0.flat, v0.area, p, v0.procs[p].root, |v0.area|, u)
  {
    if Doubled(v.flat, v.area, q, v.procs[q].root, |v.area|, u) {
      var i, j :| 0 <= i < j < |v.area| && Covers(v.area[i], q, u) && Covers(v.area[j], q, u);
      var s := ChildCover(v0.area, v.area, p, q, i, u, pos);
      var t := ChildCover(v0.area, v.area, p, q, j, u, pos);
      AreaAt(v0, s);
      assert s != t && Covers(v0.area[s], p, u) && Covers(v0.area[t], p, u);
      assert (v0.procs[p].root, u) in v0.flat;
    }
  }

  lemma SameDoubles(b: bool, flat0: map<Key, Pte>, flat: map<Key, Pte>, area: seq<Slot>, p: nat, from: nat, to: nat)
    requires Doubles(b, flat, area, p, from) && SpaceOnly(flat0, flat, to) && from != to
    ensures Doubles(b, flat0, area, p, from)
  {
    assert Gate(0);
    forall u: nat ensures Doubled(flat, area, p, from, |area|, u) <==> Doubled(flat0, area, p, from, |area|, u) {
      assert (from, u) in flat <==> (from, u) in flat0;
    }
  }

  /** Clearing the slots of a process that has none changes nothing. */
  lemma NothingDropped(area0: seq<Slot>, area: seq<Slot>, q: nat)
    requires SlotsDropped(area0, area, q, |area|) && NoAreas(area0, q)
    ensures area == area0
  {
  }

  /** What mmapfork contributes to kfork, after uvmcopy took what it needs. */
  method ForkAreas(k: Machine, p: nat, q: nat, ghost files: Files, ghost image0: imap<Key, Page>, ghost flat0: map<Key,
      Pte>,
      ghost role0: map<nat, Role>, ghost free0: nat, ghost from: nat, ghost to: nat, ghost sz: nat)
    returns (ok: bool, panicked: bool)
    requires k.Valid() && p in k.procs && q in k.procs && p != q && NoAreas(k.area, q)
    requires from == k.procs[p].root && to == k.procs[q].root && from != to
    requires NoLeaves(k.mem.flat, to, MMAPVPN, TRAPVPN) && SameSight(k.Image(files), p, q, 0, MMAPVPN)
    requires SameMaps(k.mem.flat, from, to, MMAPVPN) && OthersKeep(image0, k.Image(files), q)
    requires SpaceOnly(flat0, k.mem.flat, to)
    requires Spent(role0, free0, k.mem.role, |k.mem.fr.free|, to, HeapPages(flat0, from, sz))
    modifies k`area, k.mem
    ensures k.Valid() && k.mem.held == old(k.mem.held) && OthersKeep(image0, k.Image(files), q)
    ensures SpaceOnly(flat0, k.mem.flat, to)
    ensures ok ==> SameSight(k.Image(files), p, q, 0, TRAPVPN) && SameMaps(k.mem.flat, from, to, TRAPVPN)
    ensures ok ==> ChildAreas(old(k.area), k.area, p, q)
    ensures ok ==> Doubles(false, k.mem.flat, k.area, p, from) && Doubles(false, k.mem.flat, k.area, q, to)
    ensures !ok && !panicked ==> k.area == old(k.area)
    ensures !panicked ==> CanFill(ok, old(k.area), flat0, role0, free0, p, from, to, sz)
    ensures ok ==> Doubles(false, flat0, old(k.area), p, from)
    ensures panicked ==> !ok && Doubles(true, flat0, old(k.area), p, from)
  {
    ghost var v0, image1, free1 := k.V(), k.Image(files), |k.mem.fr.free|;
    ok, panicked := Mmapfork(k, p, q, files);
    OthersKeepBoth(image0, image1, k.Image(files), q);
    OnlyBoth(flat0, v0.flat, k.mem.flat, to);
    if panicked {
      SameDoubles(true, flat0, v0.flat, v0.area, p, from, to);
      return;
    }
    FillIs(ok, v0.area, flat0, role0, free0, v0.flat, v0.role, free1, p, from, to, sz);
    if ok {
      SameDoubles(false, flat0, v0.flat, v0.area, p, from, to);
      ForkSight(v0, old(k.mem.data), k.V(), k.mem.data, p, q, files);
      ForkMaps(v0, k.V(), p, q);
      ForkedOnce(v0, k.V(), p, q);
    } else {
      NothingDropped(v0.area, k.area, q);
    }
  }

  /**
   kfork's memory: it panics only when a mapped page is in two of the parent's areas, and
   never succeeds then.  Otherwise it succeeds exactly when there are free slots for the
   parent's areas and memory for the copy.  The child then has the parent's areas and
   pages, heap pages copied and area pages shared, sees everything the parent sees, mapped
   or not, and either can fork again; when it fails no trace of the child is left.  No
   other process notices.
   */
  method KforkMemory(k: Machine, p: nat, q: nat, tramp: nat, ghost files: Files) returns (ok: bool, panicked: bool)
    requires k.Valid() && HeldOk(k.mem.held, k.procs) && p in k.procs && q !in k.procs
    modifies k, k.mem
    ensures k.Valid() && HeldOk(k.mem.held, k.procs) && OthersKeep(old(k.Image(files)), k.Image(files), q)
    ensures ok ==> q in k.procs && k.procs == old(k.procs)[q := k.procs[q]] && k.procs[q].sz == k.procs[p].sz
    ensures ok ==> SameSight(k.Image(files), p, q, 0, TRAPVPN)
    ensures ok ==> SameMaps(k.mem.flat, k.procs[p].root, k.procs[q].root, TRAPVPN)
    ensures ok ==> OthersOf(k.mem.flat, k.procs[q].root) == old(k.mem.flat)
    ensures ok ==> SlotsForked(old(k.area), k.area, p, q, |k.area|)
    ensures ok ==>
              && Doubles(false, old(k.mem.flat), old(k.area), p, old(k.procs)[p].root)
              && Doubles(false, k.mem.flat, k.area, p, old(k.procs)[p].root)
              && Doubles(false, k.mem.flat, k.area, q, k.procs[q].root)
    ensures !ok && !panicked ==> k.procs == old(k.procs) && k.area == old(k.area) && k.mem.flat == old(k.mem.flat)
    ensures !panicked ==>
              CanKfork(ok, old(k.area), old(k.mem.flat), |old(k.mem.fr.free)|, p, old(k.procs)[p].root,
                  old(k.procs)[p].sz)
    ensures panicked ==> !ok && Doubles(true, old(k.mem.flat), old(k.area), p, old(k.procs)[p].root)
  {
    NoProcNoAreas(k.V(), q);
    ghost var image0, flat0, free0, area0, pr := k.Image(files), k.mem.flat, |k.mem.fr.free|, k.area, k.procs[p];
    panicked := false;
    ok := AllocProcMemory(k, q, tramp, files);
    if !ok {
      CannotAlloc(area0, flat0, free0, p, pr.root, pr.sz);
      return;
    }
    ProcAt(k.V(), p);
    ghost var procs1, flat1, role1, free1, to := k.procs, k.mem.flat, k.mem.role, |k.mem.fr.free|, k.procs[q].root;
    ok, panicked := FillChild(k, p, q, files, image0, flat0, pr.root, to, pr.sz);
    ProcsBack(old(k.procs), procs1, k.procs, q);
    OthersSame(flat1, k.mem.flat, to);
    if panicked {
      return;
    }
    KforkIs(ok, area0, flat0, free0, flat1, role1, free1, p, pr.root, to, pr.sz);
    if ok {
      assert Gate(0);
    } else {
      UndoChild(k, q, files, image0, area0);
    }
  }

  /** kfork's error path. */
  method UndoChild(k: Machine, q: nat, ghost files: Files, ghost image0: imap<Key, Page>, ghost area0: seq<Slot>)
    requires k.Valid() && HeldOk(k.mem.held, k.procs) && q in k.procs && OthersKeep(image0, k.Image(files), q)
    requires k.area == area0 && NoAreas(area0, q)
    modifies k, k.mem
    ensures k.Valid() && HeldOk(k.mem.held, k.procs) && OthersKeep(image0, k.Image(files), q)
    ensures k.procs == old(k.procs) - {q} && k.area == area0
    ensures k.mem.flat == OthersOf(old(k.mem.flat), old(k.procs)[q].root)
  {
    ghost var image1 := k.Image(files);
    var panicked := FreeProcMemory(k, q, files);
    OthersKeepBoth(image0, image1, k.Image(files), q);
    NothingDropped(area0, k.area, q);
  }

  lemma OthersSame(flat0: map<Key, Pte>, flat: map<Key, Pte>, root: nat)
    requires SpaceOnly(flat0, flat, root)
    ensures OthersOf(flat, root) == OthersOf(flat0, root)
  {
    assert forall k :: k in OthersOf(flat, root) <==> k in OthersOf(flat0, root);
  }

  lemma ProcsBack(procs0: map<nat, Proc>, procs1: map<nat, Proc>, procs: map<nat, Proc>, q: nat)
    requires q !in procs0 && q in procs1 && procs1 == procs0[q := procs1[q]] && q in procs
             && procs == procs1[q := procs[q]]
    ensures procs == procs0[q := procs[q]] && procs - {q} == procs0
  {
  }

  /** The copying part of kfork. */
  method FillChild(k: Machine, p: nat, q: nat, ghost files: Files, ghost image0: imap<Key, Page>, ghost flat0: map<Key,
      Pte>,
      ghost from: nat, ghost to: nat, ghost sz: nat)
    returns (ok: bool, panicked: bool)
    requires p in k.procs && q in k.procs && from == k.procs[p].root && to == k.procs[q].root && sz == k.procs[p].sz
    requires k.Valid() && HeldOk(k.mem.held, k.procs) && p in k.procs && q in k.procs && p != q && k.procs[q].sz == 0
    requires NoAreas(k.area, q) && NoLeaves(k.mem.flat, k.procs[q].root, 0, TRAPVPN)
    requires OthersKeep(image0, k.Image(files), q) && OthersOf(k.mem.flat, to) == flat0
    modifies k`procs, k`area, k.mem
    ensures k.Valid() && HeldOk(k.mem.held, k.procs) && OthersKeep(image0, k.Image(files), q)
    ensures q in k.procs && k.procs == old(k.procs)[q := k.procs[q]] && k.procs[q].root == to
    ensures SpaceOnly(old(k.mem.flat), k.mem.flat, to)
    ensures ok ==> k.procs[q].sz == sz && SameSight(k.Image(files), p, q, 0, TRAPVPN)
    ensures ok ==> SameMaps(k.mem.flat, from, to, TRAPVPN) && ChildAreas(old(k.area), k.area, p, q)
    ensures ok ==> Doubles(false, k.mem.flat, k.area, p, from) && Doubles(false, k.mem.flat, k.area, q, to)
    ensures !ok && !panicked ==> k.area == old(k.area)
    ensures !panicked ==>
              CanFill(ok, old(k.area), old(k.mem.flat), old(k.mem.role), |old(k.mem.fr.free)|, p, from, to, sz)
    ensures ok ==> Doubles(false, flat0, old(k.area), p, from)
    ensures panicked ==> !ok && Doubles(true, flat0, old(k.area), p, from)
  {
    ghost var image1, procs1, flat1, role1, free1 := k.Image(files), k.procs, k.mem.flat, k.mem.role, |k.mem.fr.free|;
    ghost var area1 := k.area;
    panicked := false;
    ProcAt(k.V(), p);
    OthersOnly(flat1, to);
    ok := CopyHeap(k, p, q, files);
    OthersKeepBoth(image0, image1, k.Image(files), q);
    SizeHeld(k.mem.held, procs1, k.procs, q);
    if !ok {
      CannotCopy(k.area, flat1, role1, free1, p, from, to, sz);
      return;
    }
    ok, panicked := ForkAreas(k, p, q, files, image0, flat1, role1, free1, from, to, sz);
    if ok {
      SameDoubles(false, flat0, flat1, area1, p, from, to);
    } else if panicked {
      SameDoubles(true, flat0, flat1, area1, p, from, to);
    }
  }

  lemma SizeHeld(held: multiset<nat>, procs0: map<nat, Proc>, procs: map<nat, Proc>, q: nat)
    requires HeldOk(held, procs0) && q in procs0 && q in procs && procs == procs0[q := procs[q]]
             && procs[q].trapframe == procs0[q].trapframe
    ensures HeldOk(held, procs)
  {
    forall f: nat | held[f] > 0 ensures exists p :: p in procs && procs[p].trapframe == f {
      var p :| p in procs0 && procs0[p].trapframe == f;
      assert procs[p].trapframe == f;
    }
  }

  /** One page mapped twice, as in MmapTwice: no fork of the process succeeds any more. */
  method ForkAfterTwice(k: Machine, p: nat, q: nat, tramp: nat, files: Files, ghost i: nat, ghost j: nat)
    returns (ok: bool, panicked: bool)
    requires k.Valid() && HeldOk(k.mem.held, k.procs) && p in k.procs && q !in k.procs
    requires (k.procs[p].root, MMAPVPN) !in k.mem.flat && |k.mem.fr.free| >= 3
    requires i < j < |k.area| && k.area[i].Empty? && k.area[j].Empty?
    modifies k, k.mem
    ensures k.Valid() && !ok
  {
    var r0, slot0, r, slot := MmapTwice(k, p, files, i, j);
    ghost var flat1, area1, from := k.mem.flat, k.area, k.procs[p].root;
    ok, panicked := KforkMemory(k, p, q, tramp, files);
    if ok { OneTwice(flat1, area1, p, from, slot0, slot); }
  }

  lemma OneTwice(flat: map<Key, Pte>, area: seq<Slot>, p: nat, from: nat, i: nat, j: nat)
    requires i < |area| && j < |area| && i != j && Covers(area[i], p, MMAPVPN) && Covers(area[j], p, MMAPVPN)
    requires (from, MMAPVPN) in flat
    ensures !Doubles(false, flat, area, p, from)
  {
    assert Gate(0);
    assert Doubled(flat, area, p, from, |area|, MMAPVPN);
  }
}
