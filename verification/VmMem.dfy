/**
 Who owns each physical page: page-table pages, pages mapped by user leaf entries,
 and pages the kernel holds directly.  A page's reference count is the number of
 its owners (kernel/kalloc.c, kernel/vm.c).
 */
module VmMem {
  import opened Kalloc
  import opened PageTable

  const TRAMPVPN: nat := 0x3FF_FFFF      // TRAMPOLINE / PGSIZE
  const TRAPVPN: nat := 0x3FF_FFFE       // TRAPFRAME / PGSIZE
  const MMAPVPN: nat := 0x4_0000         // MMAPBASE / PGSIZE

  /** The allocator, all page tables, and the references the kernel holds outside page tables. */
  datatype Mem = Mem(fr: Frames, s: Space, held: multiset<nat>)

  /** Mappings that own their page: all but the trampoline and the trapframe. */
  predicate Counted(k: Key) {
    k.1 < TRAPVPN
  }

  ghost function Users(flat: map<Key, Pte>, f: nat): set<Key> {
    set k | k in flat && flat[k].frame == f && Counted(k)
  }

  ghost function Owners(m: Mem, f: nat): nat {
    |Users(m.s.flat, f)| + m.held[f] + if f in m.s.role then 1 else 0
  }

  ghost predicate OwnerOk(m: Mem, f: nat) {
    && (f in m.fr.refcnt ==> m.fr.refcnt[f] == Owners(m, f))
    && (f !in m.fr.refcnt ==> Owners(m, f) == 0)
    && (f in m.s.role ==> Users(m.s.flat, f) == {} && m.held[f] == 0)
  }

  /** The invariant of physical memory, written out. */
  ghost predicate MemFacts(m: Mem) {
    && TreeOk(m.s)
    && FramesOk(m.fr, {})
    && forall f: nat :: OwnerOk(m, f)
  }

  /** Mentioned where the invariant is to be unfolded; elsewhere the verifier keeps it folded. */
  predicate Look(m: Mem) {
    true
  }

  /** The invariant of physical memory. */
  ghost predicate MemOk(m: Mem) {
    && (forall f :: f in m.s.role ==> IsNode(m.s, f))
    && (forall n: Mem {:trigger Look(n)} :: Look(n) && n == m ==> MemFacts(n))
  }

  lemma Open(m: Mem)
    requires MemOk(m)
    ensures MemFacts(m)
  {
    assert Look(m);
  }

  lemma EntryAt(m: Mem, f: nat, i: nat)
    requires MemOk(m) && f in m.s.role && i < ENTRIES
    ensures EntryOk(m.s, f, i) && BackOk(m.s, f)
  {
    Open(m);
  }

  lemma Close(m: Mem)
    requires MemFacts(m)
    ensures MemOk(m)
  {
  }

  lemma UsersAdd(flat: map<Key, Pte>, k: Key, e: Pte, f: nat)
    requires k !in flat
    ensures Users(flat[k := e], f) == Users(flat, f) + if e.frame == f && Counted(k) then {k} else {}
    ensures |Users(flat[k := e], f)| == |Users(flat, f)| + if e.frame == f && Counted(k) then 1 else 0
  {
    assert k !in Users(flat, f);
    assert Users(flat[k := e], f) == Users(flat, f) + if e.frame == f && Counted(k) then {k} else {};
  }

  lemma UsersDel(flat: map<Key, Pte>, k: Key, f: nat)
    requires k in flat
    ensures Users(flat - {k}, f) == Users(flat, f) - {k}
    ensures |Users(flat - {k}, f)| == |Users(flat, f)| - if flat[k].frame == f && Counted(k) then 1 else 0
  {
    assert Users(flat - {k}, f) == Users(flat, f) - {k};
    if flat[k].frame == f && Counted(k) { assert k in Users(flat, f); }
  }

  // ---------- the steps ----------

  /** kalloc: the page now belongs to its caller alone. */
  lemma AllocStep(m: Mem) returns (n: Mem)
    requires MemOk(m) && m.fr.free != []
    ensures n == Mem(AllocFrame(m.fr), m.s, m.held + multiset{m.fr.free[0]})
    ensures MemOk(n) && Fresh(n, m.fr.free[0])
  {
    Open(m);
    AllocOk(m.fr);
    n := Mem(AllocFrame(m.fr), m.s, m.held + multiset{m.fr.free[0]});
    assert OwnerOk(m, m.fr.free[0]);
    forall f: nat ensures OwnerOk(n, f) { assert OwnerOk(m, f); }
    Close(n);
  }

  /** A page that only the caller has. */
  ghost predicate Fresh(m: Mem, f: nat) {
    && f !in m.s.role && m.held[f] == 1 && Users(m.s.flat, f) == {}
    && f in m.fr.refcnt && m.fr.refcnt[f] == 1
  }

  /** kfree by a holder. */
  lemma FreeStep(m: Mem, f: nat) returns (n: Mem)
    requires MemOk(m) && m.held[f] > 0
    ensures f in m.fr.refcnt && m.fr.refcnt[f] > 0
    ensures n == Mem(FreeFrame(m.fr, f), m.s, m.held - multiset{f})
    ensures MemOk(n)
  {
    Open(m);
    assert OwnerOk(m, f);
    FreeOk(m.fr, f);
    n := Mem(FreeFrame(m.fr, f), m.s, m.held - multiset{f});
    forall g: nat ensures OwnerOk(n, g) { assert OwnerOk(m, g); }
    Close(n);
  }

  /** kaddref on a page some mapping owns. */
  lemma AddRefStep(m: Mem, f: nat) returns (n: Mem)
    requires MemOk(m) && Users(m.s.flat, f) != {}
    ensures f in m.fr.refcnt && m.fr.refcnt[f] > 0
    ensures n == Mem(AddRef(m.fr, f), m.s, m.held + multiset{f})
    ensures MemOk(n)
  {
    Open(m);
    assert OwnerOk(m, f);
    n := Mem(AddRef(m.fr, f), m.s, m.held + multiset{f});
    forall g: nat ensures OwnerOk(n, g) { assert OwnerOk(m, g); }
    Close(n);
  }

  /** walk's allocation of one table: from the caller's hands into the tree. */
  lemma NewTableStep(m: Mem, p: nat, i: nat, f: nat) returns (n: Mem)
    requires MemOk(m) && Fresh(m, f)
    requires p in m.s.role && !m.s.role[p].Low? && i < ENTRIES && !m.s.tab[p][i].v
    ensures n == Mem(m.fr, AddTable(m.s, p, i, f), m.held - multiset{f})
    ensures MemOk(n)
  {
    Open(m);
    AddTableOk(m.s, p, i, f);
    n := Mem(m.fr, AddTable(m.s, p, i, f), m.held - multiset{f});
    forall g: nat ensures OwnerOk(n, g) { assert OwnerOk(m, g); }
    Close(n);
  }

  /** kfree of an empty table and the clearing of the entry that led to it. */
  lemma FreeTableStep(m: Mem, p: nat, i: nat) returns (n: Mem)
    requires MemOk(m) && p in m.s.role && !m.s.role[p].Low? && i < ENTRIES && m.s.tab[p][i].v
    requires m.s.tab[p][i].frame in m.s.tab && EmptyTable(m.s.tab[m.s.tab[p][i].frame])
    ensures m.s.tab[p][i].frame in m.fr.refcnt && m.fr.refcnt[m.s.tab[p][i].frame] == 1
    ensures n == Mem(FreeFrame(m.fr, m.s.tab[p][i].frame), DropTable(m.s, p, i), m.held)
    ensures MemOk(n)
  {
    Open(m);
    DropTableOk(m.s, p, i);
    var f := m.s.tab[p][i].frame;
    assert OwnerOk(m, f);
    FreeOk(m.fr, f);
    n := Mem(FreeFrame(m.fr, f), DropTable(m.s, p, i), m.held);
    forall g: nat ensures OwnerOk(n, g) { assert OwnerOk(m, g); }
    Close(n);
  }

  ghost function KeyOf(s: Space, t: nat, i: nat): Key
    requires t in s.role && s.role[t].Low?
  {
    (s.role[t].root, VpnOf(s.role[t].i2, s.role[t].i1, i))
  }

  /** An entry of a lowest-level table is what the flat map has at its key. */
  lemma FlatAt(s: Space, t: nat, i: nat)
    requires TreeOk(s) && t in s.role && s.role[t].Low? && i < ENTRIES
    ensures KeyOf(s, t, i).1 < TABLEVPN
    ensures s.tab[t][i].v <==> KeyOf(s, t, i) in s.flat
    ensures s.tab[t][i].v ==> s.flat[KeyOf(s, t, i)] == s.tab[t][i]
  {
    assert BackOk(s, t);
    var k := KeyOf(s, t, i);
    VpnRoundTrip(s.role[t].i2, s.role[t].i1, i);
    assert FlatOk(s, k.0, k.1);
  }

  /** The write of a leaf entry by mappages: the caller's reference becomes the mapping's. */
  lemma MapStep(m: Mem, t: nat, i: nat, e: Pte) returns (n: Mem)
    requires MemOk(m) && t in m.s.role && m.s.role[t].Low? && i < ENTRIES && !m.s.tab[t][i].v && IsLeaf(e)
    requires Counted(KeyOf(m.s, t, i)) ==> m.held[e.frame] > 0
    ensures n == Mem(m.fr, SetLeaf(m.s, t, i, e), if Counted(KeyOf(m.s, t, i)) then m.held - multiset{e.frame}
            else m.held)
    ensures KeyOf(m.s, t, i) !in m.s.flat && n.s.flat == m.s.flat[KeyOf(m.s, t, i) := e]
    ensures MemOk(n)
  {
    Open(m);
    SetLeafOk(m.s, t, i, e);
    FlatAt(m.s, t, i);
    n := Mem(m.fr, SetLeaf(m.s, t, i, e), if Counted(KeyOf(m.s, t, i)) then m.held - multiset{e.frame} else m.held);
    forall g: nat ensures OwnerOk(n, g) {
      assert OwnerOk(m, g);
      UsersAdd(m.s.flat, KeyOf(m.s, t, i), e, g);
    }
    Close(n);
  }

  /** uvmunmap of one page: a counted mapping gives its reference back to the allocator. */
  lemma UnmapStep(m: Mem, t: nat, i: nat) returns (n: Mem)
    requires MemOk(m) && t in m.s.role && m.s.role[t].Low? && i < ENTRIES && m.s.tab[t][i].v
    ensures Counted(KeyOf(m.s, t, i)) ==> m.s.tab[t][i].frame in m.fr.refcnt && m.fr.refcnt[m.s.tab[t][i].frame] > 0
    ensures n == Mem(if Counted(KeyOf(m.s, t, i)) then FreeFrame(m.fr, m.s.tab[t][i].frame) else m.fr,
                     SetLeaf(m.s, t, i, ZERO), m.held)
    ensures KeyOf(m.s, t, i) in m.s.flat && n.s.flat == m.s.flat - {KeyOf(m.s, t, i)}
    ensures MemOk(n)
  {
    Open(m);
    SetLeafOk(m.s, t, i, ZERO);
    FlatAt(m.s, t, i);
    var k, f := KeyOf(m.s, t, i), m.s.tab[t][i].frame;
    assert OwnerOk(m, f);
    if Counted(k) {
      assert k in Users(m.s.flat, f);
      FreeOk(m.fr, f);
    }
    n := Mem(if Counted(k) then FreeFrame(m.fr, f) else m.fr, SetLeaf(m.s, t, i, ZERO), m.held);
    forall g: nat ensures OwnerOk(n, g) {
      assert OwnerOk(m, g);
      UsersDel(m.s.flat, k, g);
    }
    Close(n);
  }

  /** uvmcreate */
  lemma NewRootStep(m: Mem, f: nat) returns (n: Mem)
    requires MemOk(m) && Fresh(m, f)
    ensures n == Mem(m.fr, AddRoot(m.s, f), m.held - multiset{f})
    ensures MemOk(n)
  {
    Open(m);
    AddRootOk(m.s, f);
    n := Mem(m.fr, AddRoot(m.s, f), m.held - multiset{f});
    forall g: nat ensures OwnerOk(n, g) { assert OwnerOk(m, g); }
    Close(n);
  }

  /** The last kfree of freewalk. */
  lemma FreeRootStep(m: Mem, f: nat) returns (n: Mem)
    requires MemOk(m) && f in m.s.role && m.s.role[f] == Root && EmptyTable(m.s.tab[f])
    ensures f in m.fr.refcnt && m.fr.refcnt[f] == 1
    ensures n == Mem(FreeFrame(m.fr, f), DropRoot(m.s, f), m.held)
    ensures MemOk(n)
  {
    Open(m);
    DropRootOk(m.s, f);
    assert OwnerOk(m, f);
    FreeOk(m.fr, f);
    n := Mem(FreeFrame(m.fr, f), DropRoot(m.s, f), m.held);
    forall g: nat ensures OwnerOk(n, g) { assert OwnerOk(m, g); }
    Close(n);
  }
}
