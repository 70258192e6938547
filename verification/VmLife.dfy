/**
 The memory of a process from allocproc to freeproc (kernel/proc.c).
 */
module VmLife {
  import opened Gates
  import opened Kalloc
  import opened PageTable
  import opened VmMem
  import opened Vm
  import opened VmUser
  import opened VmProc
  import opened VmView
  import opened VmSys
  import opened VmMmap

  /** All memory other than that of process `p` is as it was (unfolded only at a Gate). */
  ghost predicate OthersKeep(image0: imap<Key, Page>, image: imap<Key, Page>, p: nat) {
    forall z: nat {:trigger Gate(z)} :: Gate(z) ==>
      forall k: Key :: k.0 != p ==> (k in image <==> k in image0) && (k in image ==> image[k] == image0[k])
  }

  lemma OthersKeepBoth(image0: imap<Key, Page>, image1: imap<Key, Page>, image: imap<Key, Page>, p: nat)
    requires OthersKeep(image0, image1, p) && OthersKeep(image1, image, p)
    ensures OthersKeep(image0, image, p)
  {
    assert Gate(0);
  }

  // ---------- allocproc ----------

  /** A mapped page has its lowest-level table. */
  lemma LeafHasLow(m: Mem, k: Key) returns (f: nat)
    requires MemOk(m) && k in m.s.flat
    ensures f in m.s.role && m.s.role[f] == Low(k.0, Px2(k.1), Px1(k.1))
  {
    Open(m);
    assert FlatOk(m.s, k.0, k.1);
    var e2 := m.s.tab[k.0][Px2(k.1)];
    assert EntryOk(m.s, k.0, Px2(k.1));
    assert EntryOk(m.s, e2.frame, Px1(k.1));
    f := m.s.tab[e2.frame][Px1(k.1)].frame;
  }

  /** The new process has its two top pages and nothing else. */
  ghost predicate NewSpace(v: View, flat: map<Key, Pte>, role: map<nat, Role>, root: nat) {
    && OnlyRootAdded(v.role, role, root) && !HasLeaf(v.flat, root)
    && (root, TRAMPVPN) in flat && (root, TRAPVPN) in flat && !flat[(root, TRAMPVPN)].u && !flat[(root, TRAPVPN)].u
    && flat == v.flat[(root, TRAMPVPN) := flat[(root, TRAMPVPN)]][(root, TRAPVPN) := flat[(root, TRAPVPN)]]
    && exists f :: f in role && role[f] == Low(root, 255, 511)
  }

  function AddProc(v: View, flat: map<Key, Pte>, role: map<nat, Role>, p: nat, pr: Proc): View {
    v.(flat := flat, role := role, procs := v.procs[p := pr], owner := v.owner[pr.root := p])
  }

  lemma AddProcView(v: View, flat: map<Key, Pte>, role: map<nat, Role>, p: nat, pr: Proc)
    requires ViewIs(v) && p !in v.procs && NewSpace(v, flat, role, pr.root) && pr.sz == 0
    ensures ViewIs(AddProc(v, flat, role, p, pr))
  {
    OpenView(v);
    var w := AddProc(v, flat, role, p, pr);
    AddProcProcs(v, w, p, pr);
    AddProcLeaves(v, w, p, pr);
    AddProcTables(v, w, p, pr);
  }

  lemma AddProcLeaves(v: View, w: View, p: nat, pr: Proc)
    requires LeavesOk(v) && SharingOk(v.flat) && p !in v.procs && NewSpace(v, w.flat, w.role, pr.root)
             && w == AddProc(v, w.flat, w.role, p, pr)
    ensures LeavesOk(w) && SharingOk(w.flat)
  {
    forall k | k in w.flat ensures LeafOk(w, k) && (Counted(k) ==> k in v.flat && w.flat[k] == v.flat[k]) {
      if k in v.flat { assert LeafOk(v, k); }
    }
  }

  lemma AddProcProcs(v: View, w: View, p: nat, pr: Proc)
    requires ProcsOk(v) && p !in v.procs && NewSpace(v, w.flat, w.role, pr.root) && pr.sz == 0
             && w == AddProc(v, w.flat, w.role, p, pr)
    ensures ProcsOk(w)
  {
    forall q | q in w.procs ensures ProcOk(w, q) {
      if q != p { assert ProcOk(v, q); }
    }
  }

  lemma AddProcTables(v: View, w: View, p: nat, pr: Proc)
    requires TablesOk(v) && ProcsOk(v) && NewSpace(v, w.flat, w.role, pr.root) && w == AddProc(v, w.flat, w.role, p, pr)
    ensures TablesOk(w)
  {
    forall f | f in w.role ensures TableOk(w, f) {
      if f in v.role {
        assert TableOk(v, f);
        if !v.role[f].Root? { assert ProcOk(v, v.owner[v.role[f].root]); }
        UsedStays(v.flat, v.role, w.flat, w.role, v.role[f]);
      } else if w.role[f].Low? {
        assert RoleLo(w.role[f]) == 67108352;
        assert (pr.root, TRAPVPN) in w.flat;
      }
    }
  }

  /** The tables of a space are those over its top pages (unfolded only at a Gate). */
  ghost predicate TopTables(role: map<nat, Role>, root: nat) {
    forall z: nat {:trigger Gate(z)} :: Gate(z) ==>
      forall r: Role :: !r.Root? && r.root == root ==> (HasRole(role, r) <==> r in Path(root, {TRAPVPN}))
  }

  lemma TopTablesOnly(m0: Mem, m: Mem, root: nat)
    requires MemOk(m0) && MemOk(m) && OnlyRootAdded(m0.s.role, m.s.role, root) && (root, TRAPVPN) in m.s.flat
    ensures TopTables(m.s.role, root) && exists f :: f in m.s.role && m.s.role[f] == Low(root, 255, 511)
  {
    NoStrayTables(m0, root);
    var f := LeafHasLow(m, (root, TRAPVPN));
    assert Px2(TRAPVPN) == 255 && Px1(TRAPVPN) == 511;
    LowHasMid(m, root, TRAPVPN);
    forall r: Role | !r.Root? && r.root == root ensures HasRole(m.s.role, r) <==> r in Path(root, {TRAPVPN}) {
      assert HasRole(m.s.role, Low(root, 255, 511)) && HasRole(m.s.role, Mid(root, 255));
      assert r in Path(root, {TRAPVPN}) <==> r == Mid(root, 255) || r == Low(root, 255, 511);
    }
  }

  /** The page and the page table that allocproc takes, or no trace of either. */
  method NewProcMemory(m: Memory, tramp: nat, ghost v: View) returns (ok: bool, tf: nat, root: nat)
    requires m.Valid() && v.flat == m.flat && v.role == m.role
    modifies m
    ensures m.Valid() && Keeps(old(m.flat), old(m.data), m.data)
    ensures (ok <==> |old(m.fr.free)| >= 4) && (ok ==> |m.fr.free| + 4 == |old(m.fr.free)| && TopTables(m.role, root))
    ensures ok ==> m.held == old(m.held) + multiset{tf} && old(m.held)[tf] == 0 && NewSpace(v, m.flat, m.role, root)
    ensures !ok ==> m.held == old(m.held) && m.flat == old(m.flat) && m.role == old(m.role)
  {
    ghost var m0 := m.M();
    root := 0;
    ok, tf := m.Kalloc();
    SurviveKeeps(m0, old(m.data), m.data);
    if !ok {
      return;
    }
    ghost var data1 := m.data;
    ok, root := ProcPagetable(m, tramp, tf);
    KeepsBoth(m0.s.flat, m0.s.flat, old(m.data), data1, m.data);
    if ok {
      TopTablesOnly(m0, m.M(), root);
    } else {
      KfreeKeeps(m, tf, old(m.data));
    }
  }

  /** Freeing a held page changes no page that a mapping owns. */
  method KfreeKeeps(m: Memory, f: nat, ghost data0: map<nat, Page>)
    requires m.Valid() && m.held[f] > 0 && Keeps(m.flat, data0, m.data)
    modifies m
    ensures m.Valid() && m.held == old(m.held) - multiset{f} && m.S() == old(m.S()) && Keeps(m.flat, data0, m.data)
    ensures Keeps(m.flat, old(m.data), m.data)
  {
    ghost var m0, data1 := m.M(), m.data;
    m.Kfree(f);
    forall k | k in m.flat && Counted(k) ensures Contents(m.flat, m.data, k) == Contents(m.flat, data1, k) {
      Live(m.M(), k);
    }
    KeepsBoth(m.flat, m.flat, data0, data1, m.data);
  }

  /** allocproc's memory. */
  method AllocProcMemory(k: Machine, p: nat, tramp: nat, ghost files: Files) returns (ok: bool)
    requires k.Valid() && HeldOk(k.mem.held, k.procs) && p !in k.procs
    modifies k`procs, k`owner, k.mem
    ensures k.Valid() && HeldOk(k.mem.held, k.procs)
    ensures OthersKeep(old(k.Image(files)), k.Image(files), p)
    ensures ok ==> p in k.procs && k.procs == old(k.procs)[p := k.procs[p]] && k.procs[p].sz == 0
    ensures ok ==> NoLeaves(k.mem.flat, k.procs[p].root, 0, TRAPVPN) && TopTables(k.mem.role, k.procs[p].root)
    ensures ok ==> OthersOf(k.mem.flat, k.procs[p].root) == old(k.mem.flat)
    ensures !ok ==> k.V() == old(k.V())
    ensures (ok <==> |old(k.mem.fr.free)| >= 4) && (ok ==> |k.mem.fr.free| + 4 == |old(k.mem.fr.free)|)
  {
    ghost var v0 := k.V();
    var tf, root;
    ok, tf, root := NewProcMemory(k.mem, tramp, v0);
    var pr := Proc(root, 0, tf);
    AllocImage(v0, old(k.mem.data), k.mem.flat, k.mem.data, p, pr, ok, files);
    if ok {
      NewSpaceOnly(v0, k.mem.flat, k.mem.role, root);
      AddProcView(v0, k.mem.flat, k.mem.role, p, pr);
      AddHeld(old(k.mem.held), k.procs, p, pr);
      k.procs := k.procs[p := pr];
      k.owner := k.owner[root := p];
    }
  }

  lemma NewSpaceOnly(v: View, flat: map<Key, Pte>, role: map<nat, Role>, root: nat)
    requires NewSpace(v, flat, role, root)
    ensures OthersOf(flat, root) == v.flat && NoLeaves(flat, root, 0, TRAPVPN)
  {
    var w := OthersOf(flat, root);
    assert forall k :: k in w <==> k in v.flat;
  }

  lemma AddHeld(held: multiset<nat>, procs: map<nat, Proc>, p: nat, pr: Proc)
    requires HeldOk(held, procs) && p !in procs && held[pr.trapframe] == 0
    ensures HeldOk(held + multiset{pr.trapframe}, procs[p := pr])
  {
    var procs1 := procs[p := pr];
    forall f: nat | (held + multiset{pr.trapframe})[f] > 0 ensures exists q :: q in procs1 && procs1[q].trapframe == f {
      if f == pr.trapframe {
        assert procs1[p].trapframe == f;
      } else {
        assert held[f] > 0;
        var q :| q in procs && procs[q].trapframe == f;
        assert procs1[q].trapframe == f;
      }
    }
  }

  lemma AllocImage(v: View, data0: map<nat, Page>, flat: map<Key, Pte>, data: map<nat, Page>, p: nat, pr: Proc,
      ok: bool, files: Files)
    requires p !in v.procs && Keeps(v.flat, data0, data)
    requires forall k :: Counted(k) ==> (k in flat <==> k in v.flat) && (k in flat ==> flat[k] == v.flat[k])
    ensures OthersKeep(ImageOf(v.flat, data0, v.procs, v.area, files),
            ImageOf(flat, data, if ok then v.procs[p := pr] else v.procs, v.area, files), p)
  {
    var procs := if ok then v.procs[p := pr] else v.procs;
    forall k: Key | k.0 in v.procs && k.1 < TRAPVPN
      ensures PageOf(flat, data, procs, v.area, files, k) == PageOf(v.flat, data0, v.procs, v.area, files, k)
    {
      var key := (v.procs[k.0].root, k.1);
      assert Counted(key);
      if key in v.flat { assert Contents(v.flat, data, key) == Contents(v.flat, data0, key); }
    }
  }

  // ---------- freeproc ----------

  function DropProc(v: View, flat: map<Key, Pte>, role: map<nat, Role>, p: nat): View
    requires p in v.procs
  {
    v.(flat := flat, role := role, procs := v.procs - {p}, owner := v.owner - {v.procs[p].root})
  }

  lemma DropProcView(v: View, flat: map<Key, Pte>, role: map<nat, Role>, p: nat)
    requires ViewIs(v) && p in v.procs && NoAreas(v.area, p)
    requires flat == OthersOf(v.flat, v.procs[p].root) && OnlyOtherRoles(v.role, role, v.procs[p].root)
    ensures ViewIs(DropProc(v, flat, role, p))
  {
    OpenView(v);
    var w := DropProc(v, flat, role, p);
    DropProcProcs(v, w, p);
    DropProcLeaves(v, w, p);
    DropProcTables(v, w, p);
  }

  lemma DropProcProcs(v: View, w: View, p: nat)
    requires ProcsOk(v) && p in v.procs && NoAreas(v.area, p) && w == DropProc(v, w.flat, w.role, p)
    requires OnlyOtherRoles(v.role, w.role, v.procs[p].root)
    ensures ProcsOk(w)
  {
    assert ProcOk(v, p);
    forall q | q in w.procs ensures ProcOk(w, q) { assert ProcOk(v, q); }
  }

  lemma DropProcLeaves(v: View, w: View, p: nat)
    requires ProcsOk(v) && LeavesOk(v) && SharingOk(v.flat) && p in v.procs && w == DropProc(v, w.flat, w.role, p)
    requires w.flat == OthersOf(v.flat, v.procs[p].root)
    ensures LeavesOk(w) && SharingOk(w.flat)
  {
    forall k | k in w.flat ensures LeafOk(w, k) { assert LeafOk(v, k); }
  }

  lemma DropProcTables(v: View, w: View, p: nat)
    requires ProcsOk(v) && TablesOk(v) && p in v.procs && w == DropProc(v, w.flat, w.role, p)
    requires w.flat == OthersOf(v.flat, v.procs[p].root) && OnlyOtherRoles(v.role, w.role, v.procs[p].root)
    ensures TablesOk(w)
  {
    assert ProcOk(v, p);
    forall f | f in w.role ensures TableOk(w, f) {
      assert TableOk(v, f);
      OtherUsed(v, w, v.procs[p].root, v.role[f]);
    }
  }

  lemma OtherUsed(v: View, w: View, root: nat, r: Role)
    requires w.flat == OthersOf(v.flat, root) && OnlyOtherRoles(v.role, w.role, root) && (r.Root? || r.root != root)
    requires root in v.role && v.role[root] == Root
    ensures TableUsed(v.flat, v.role, r) ==> TableUsed(w.flat, w.role, r)
  {
    if TableUsed(v.flat, v.role, r) && r.Mid? {
      var f :| f in v.role && v.role[f].Low? && v.role[f].root == r.root && v.role[f].i2 == r.i2;
      assert f in w.role;
    }
  }

  lemma DropHeld(held: multiset<nat>, procs: map<nat, Proc>, p: nat)
    requires HeldOk(held, procs) && p in procs
    ensures HeldOk(held - multiset{procs[p].trapframe}, procs - {p})
  {
    var procs1, held1 := procs - {p}, held - multiset{procs[p].trapframe};
    forall f: nat | held1[f] > 0 ensures exists q :: q in procs1 && procs1[q].trapframe == f {
      assert held[f] > 0;
      var q :| q in procs && procs[q].trapframe == f;
      assert q != p;
      assert procs1[q].trapframe == f;
    }
  }

  /**
   freeproc's memory: freewalk meets no leaf, no translation and no table of the process
   is left, and no other process notices.
   */
  method FreeProcMemory(k: Machine, p: nat, ghost files: Files) returns (panicked: bool)
    requires k.Valid() && HeldOk(k.mem.held, k.procs) && p in k.procs
    modifies k, k.mem
    ensures !panicked && k.Valid() && HeldOk(k.mem.held, k.procs)
    ensures k.procs == old(k.procs) - {p} && NoAreas(k.area, p) && OthersKeep(old(k.Image(files)), k.Image(files), p)
    ensures SlotsDropped(old(k.area), k.area, p, |k.area|)
    ensures k.mem.flat == OthersOf(old(k.mem.flat), old(k.procs)[p].root)
    ensures forall f :: f in k.mem.role ==>
            f != old(k.procs)[p].root && (k.mem.role[f].Root? || k.mem.role[f].root != old(k.procs)[p].root)
  {
    var pr := k.procs[p];
    ghost var data0 := k.mem.data;
    KfreeKeeps(k.mem, pr.trapframe, data0);
    KeepsImage(k.mem.flat, data0, k.mem.data, k.procs, k.area, files);
    ghost var image1 := k.Image(files);
    ghost var flat1 := k.mem.flat;
    Mmapfreeproc(k, p, files);
    OthersDropped(old(k.area), flat1, k.mem.flat, p, pr.root, |k.area|);
    ghost var image2 := k.Image(files);
    panicked := DropProcMemory(k, p, files);
    OthersKeepBoth(image1, image2, k.Image(files), p);
    DropHeld(old(k.mem.held), old(k.procs), p);
  }

  lemma OthersDropped(area0: seq<Slot>, flat0: map<Key, Pte>, flat: map<Key, Pte>, p: nat, root: nat, n: nat)
    requires n <= |area0| && LeavesDropped(area0, flat0, flat, p, root, n)
    ensures OthersOf(flat, root) == OthersOf(flat0, root)
  {
    var w := OthersOf(flat0, root);
    assert forall k :: k in OthersOf(flat, root) <==> k in w;
  }

  /** The rest of freeproc, once there are no areas. */
  method DropProcMemory(k: Machine, p: nat, ghost files: Files) returns (panicked: bool)
    requires k.Valid() && p in k.procs && NoAreas(k.area, p)
    modifies k`procs, k`owner, k.mem
    ensures !panicked && k.Valid() && k.mem.held == old(k.mem.held)
    ensures k.procs == old(k.procs) - {p} && OthersKeep(old(k.Image(files)), k.Image(files), p)
    ensures k.mem.flat == OthersOf(old(k.mem.flat), old(k.procs)[p].root)
            && OnlyOtherRoles(old(k.mem.role), k.mem.role, old(k.procs)[p].root)
  {
    ghost var v0 := k.V();
    ProcAt(v0, p);
    HeapOnly(v0, k.mem.M(), p);
    panicked := ProcFreepagetable(k.mem, k.procs[p].root, k.procs[p].sz);
    DropProcView(v0, k.mem.flat, k.mem.role, p);
    DropImage(v0, old(k.mem.data), k.mem.flat, k.mem.data, p, files);
    k.owner := k.owner - {k.procs[p].root};
    k.procs := k.procs - {p};
  }

  lemma HeapOnly(v: View, m: Mem, p: nat)
    requires ViewIs(v) && MemOk(m) && m.s.role == v.role && p in v.procs && NoAreas(v.area, p)
    ensures HeapAndTop(v.flat, v.procs[p].root, v.procs[p].sz)
  {
    OpenView(v);
    RolesAreOk(m);
    NoAreaNoTables(v, p);
  }

  lemma DropImage(v: View, data0: map<nat, Page>, flat: map<Key, Pte>, data: map<nat, Page>, p: nat, files: Files)
    requires p in v.procs && DistinctRoots(v.procs) && Keeps(flat, data0, data)
             && flat == OthersOf(v.flat, v.procs[p].root)
    ensures OthersKeep(ImageOf(v.flat, data0, v.procs, v.area, files),
            ImageOf(flat, data, v.procs - {p}, v.area, files), p)
  {
    forall k: Key | k.0 in v.procs && k.0 != p && k.1 < TRAPVPN
      ensures PageOf(flat, data, v.procs - {p}, v.area, files, k) == PageOf(v.flat, data0, v.procs, v.area, files, k)
    {
      var key := (v.procs[k.0].root, k.1);
      if key in flat { assert Counted(key) && Contents(flat, data, key) == Contents(flat, data0, key); }
    }
  }

  /** Every leaf and every table belongs to a process. */
  lemma AllOwned(v: View)
    requires ViewOk(v)
    ensures forall k :: k in v.flat ==> k.0 in v.owner && v.owner[k.0] in v.procs
    ensures forall f :: f in v.role ==> RootOf(f, v.role[f]) in v.owner && v.owner[RootOf(f, v.role[f])] in v.procs
  {
    forall k | k in v.flat ensures k.0 in v.owner && v.owner[k.0] in v.procs { assert LeafOk(v, k); }
    forall f | f in v.role ensures RootOf(f, v.role[f]) in v.owner { assert TableOk(v, f); }
  }

  /** When no process is left, every page is free again. */
  lemma AllReturned(v: View, m: Mem)
    requires ViewIs(v) && MemOk(m) && m.s.flat == v.flat && m.s.role == v.role && HeldOk(m.held, v.procs)
             && v.procs == map[]
    ensures v.flat == map[] && v.role == map[]
    ensures forall f: nat :: f in m.fr.refcnt ==> m.fr.refcnt[f] == 0 && f in m.fr.free
  {
    OpenView(v);
    Open(m);
    AllOwned(v);
    forall f: nat | f in m.fr.refcnt ensures m.fr.refcnt[f] == 0 {
      assert OwnerOk(m, f);
      assert Users(m.s.flat, f) == {};
    }
  }
}
