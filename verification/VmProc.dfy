/**
 The user page table of a process from creation to teardown: proc_pagetable,
 proc_freepagetable and uvmfree (kernel/proc.c, kernel/vm.c).
 */
module VmProc {
  import opened Kalloc
  import opened PageTable
  import opened VmMem
  import opened Vm
  import opened VmUser

  const TRAMP_RX: Pte := Pte(true, true, false, true, false, 0)     // PTE_R|PTE_X
  const TRAP_RW: Pte := Pte(true, true, true, false, false, 0)      // PTE_R|PTE_W

  /** The tables of address space `root` are all that was added. */
  ghost predicate OnlyRootAdded(role0: map<nat, Role>, role: map<nat, Role>, root: nat) {
    && root !in role0 && root in role && role[root] == Root
    && (forall f :: f in role0 ==> f in role && role[f] == role0[f])
    && (forall f :: f in role && f !in role0 && f != root ==>
          role[f] == Mid(root, 255) || role[f] == Low(root, 255, 511))
  }

  /** No table belongs to a root that is not there. */
  lemma NoStrayTables(m: Mem, r: nat)
    requires MemOk(m) && r !in m.s.role
    ensures forall f :: f in m.s.role && !m.s.role[f].Root? ==> m.s.role[f].root != r
  {
    Open(m);
    forall f | f in m.s.role && !m.s.role[f].Root? ensures m.s.role[f].root != r { assert BackOk(m.s, f); }
  }

  /** A fresh root has no tables. */
  lemma FreshMissing(role: map<nat, Role>, root: nat, vpn: nat)
    requires root !in role && forall f :: f in role && !role[f].Root? ==> role[f].root != root
    ensures Missing(role[root := Root], root, vpn) == 2
  {
  }

  /** The two top pages are in one table. */
  lemma SameTop(role: map<nat, Role>, root: nat)
    ensures Missing(role, root, TRAPVPN) == Missing(role, root, TRAMPVPN)
  {
    assert Px2(TRAPVPN) == Px2(TRAMPVPN) && Px1(TRAPVPN) == Px1(TRAMPVPN);
  }

  lemma TopAdded(role0: map<nat, Role>, role1: map<nat, Role>, role: map<nat, Role>, root: nat, vpn: nat)
    requires OnlyRootAdded(role0, role1, root) && GrowsFor(role1, role, root, vpn)
             && (vpn == TRAMPVPN || vpn == TRAPVPN)
    ensures OnlyRootAdded(role0, role, root)
  {
  }

  /** The tables that freewalk leaves are those there were before the address space. */
  lemma OnlyOthersLeft(role0: map<nat, Role>, s1: Space, s: Space, root: nat)
    requires OnlyRootAdded(role0, s1.role, root) && OnlyOthers(s1, s, root)
    requires forall f :: f in role0 && !role0[f].Root? ==> role0[f].root != root
    ensures s.role == role0
  {
    assert forall f :: f in s.role <==> f in role0;
  }

  /** uvmfree with nothing mapped below the top pages: no panic, and no trace of the address space. */
  method DropSpace(m: Memory, root: nat, ghost role0: map<nat, Role>)
    requires m.Valid() && m.IsRoot(root) && OnlyRootAdded(role0, m.role, root) && !HasLeaf(m.flat, root)
    requires forall f :: f in role0 && !role0[f].Root? ==> role0[f].root != root
    modifies m
    ensures m.Valid() && m.role == role0 && m.flat == old(m.flat) && m.held == old(m.held)
            && Keeps(m.flat, old(m.data), m.data)
  {
    var panicked := m.Freewalk(root);
    OnlyOthersLeft(role0, old(m.S()), m.S(), root);
    ShrinksKeeps(old(m.fr), old(m.data), m.M(), m.data);
  }

  /** proc_pagetable: a new address space with the two top pages only, or no trace of one. */
  method ProcPagetable(m: Memory, tramp: nat, trapframe: nat) returns (ok: bool, root: nat)
    requires m.Valid()
    modifies m
    ensures m.Valid() && m.held == old(m.held) && Keeps(old(m.flat), old(m.data), m.data)
    ensures ok ==> OnlyRootAdded(old(m.role), m.role, root) && !HasLeaf(old(m.flat), root)
    ensures ok ==>
            m.flat == old(m.flat)[(root, TRAMPVPN) := TRAMP_RX.(frame := tramp)][(root, TRAPVPN) :=
                TRAP_RW.(frame := trapframe)]
    ensures !ok ==> m.flat == old(m.flat) && m.role == old(m.role)
    ensures (ok <==> |old(m.fr.free)| >= 3) && (ok ==> |m.fr.free| + 3 == |old(m.fr.free)|)
  {
    ghost var m0 := m.M();
    ok, root := m.Uvmcreate();
    SurviveKeeps(m0, old(m.data), m.data);
    if !ok {
      return;
    }
    NoStrayTables(m0, root);
    ghost var role1 := m.role;
    FreshMissing(m0.s.role, root, TRAMPVPN);
    ok := m.MapPage(root, TRAMPVPN, TRAMP_RX.(frame := tramp));
    SameTop(m.role, root);
    TopAdded(m0.s.role, role1, m.role, root, TRAMPVPN);
    SurviveKeeps(m0, old(m.data), m.data);
    if !ok {
      ghost var data1 := m.data;
      DropSpace(m, root, m0.s.role);
      KeepsBoth(m0.s.flat, m.flat, old(m.data), data1, m.data);
      return;
    }
    ok := MapTrapframe(m, root, trapframe, m0.s.flat, old(m.data), m0.s.role);
  }

  /** The second half of proc_pagetable. */
  method MapTrapframe(m: Memory, root: nat, trapframe: nat, ghost flat0: map<Key, Pte>, ghost data0: map<nat, Page>,
      ghost role0: map<nat, Role>)
    returns (ok: bool)
    requires m.Valid() && m.IsRoot(root) && OnlyRootAdded(role0, m.role, root) && !HasLeaf(flat0, root)
             && Keeps(flat0, data0, m.data)
    requires (root, TRAMPVPN) in m.flat && m.flat == flat0[(root, TRAMPVPN) := m.flat[(root, TRAMPVPN)]]
    requires forall f :: f in role0 && !role0[f].Root? ==> role0[f].root != root
    modifies m
    ensures m.Valid() && m.held == old(m.held) && Keeps(flat0, data0, m.data)
    ensures ok ==>
              OnlyRootAdded(role0, m.role, root)
              && m.flat == old(m.flat)[(root, TRAPVPN) := TRAP_RW.(frame := trapframe)]
    ensures !ok ==> m.flat == flat0 && m.role == role0
    ensures ok <==> |old(m.fr.free)| >= Missing(old(m.role), root, TRAPVPN)
    ensures ok ==> |m.fr.free| + Missing(old(m.role), root, TRAPVPN) == |old(m.fr.free)|
  {
    ghost var m1, data1 := m.M(), m.data;
    ok := m.MapPage(root, TRAPVPN, TRAP_RW.(frame := trapframe));
    TopAdded(role0, m1.s.role, m.role, root, TRAPVPN);
    SurviveKeeps(m1, data1, m.data);
    KeepsBoth(flat0, m1.s.flat, data0, data1, m.data);
    if !ok {
      DropTop(m, root, flat0, data0, role0);
    }
  }

  /** The error path of proc_pagetable once the trampoline is mapped. */
  method DropTop(m: Memory, root: nat, ghost flat0: map<Key, Pte>, ghost data0: map<nat, Page>, ghost role0: map<nat,
      Role>)
    requires m.Valid() && m.IsRoot(root) && OnlyRootAdded(role0, m.role, root) && !HasLeaf(flat0, root)
             && Keeps(flat0, data0, m.data)
    requires (root, TRAMPVPN) in m.flat && m.flat == flat0[(root, TRAMPVPN) := m.flat[(root, TRAMPVPN)]]
    requires forall f :: f in role0 && !role0[f].Root? ==> role0[f].root != root
    modifies m
    ensures m.Valid() && m.held == old(m.held) && Keeps(flat0, data0, m.data) && m.flat == flat0 && m.role == role0
  {
    ghost var data1 := m.data;
    m.Uvmunmap(root, TRAMPVPN, 1, false);
    assert m.flat == flat0;
    ShrinksKeeps(old(m.fr), data1, m.M(), m.data);
    KeepsBoth(flat0, m.flat, data0, data1, m.data);
    ghost var data2 := m.data;
    DropSpace(m, root, role0);
    KeepsBoth(flat0, m.flat, data0, data2, m.data);
  }

  /** Leaves only in the heap and the two top pages. */
  ghost predicate HeapAndTop(flat: map<Key, Pte>, root: nat, sz: nat) {
    forall k :: k in flat && k.0 == root ==> k.1 < PgUp(sz) || k.1 == TRAPVPN || k.1 == TRAMPVPN
  }

  ghost function OthersOf(flat: map<Key, Pte>, root: nat): map<Key, Pte> {
    map k | k in flat && k.0 != root :: flat[k]
  }

  /** Exactly the tables of other address spaces are left. */
  ghost predicate OnlyOtherRoles(role0: map<nat, Role>, role: map<nat, Role>, root: nat) {
    && (forall f :: f in role <==> f in role0 && f != root && (role0[f].Root? || role0[f].root != root))
    && (forall f :: f in role ==> role[f] == role0[f])
  }

  lemma KeepsChain(small: map<Key, Pte>, big: map<Key, Pte>, data0: map<nat, Page>, data1: map<nat, Page>,
      data: map<nat, Page>)
    requires Keeps(big, data0, data1) && Keeps(small, data1, data) && forall k :: k in small ==>
             k in big && small[k] == big[k]
    ensures Keeps(small, data0, data)
  {
    forall k | k in small && Counted(k) ensures Contents(small, data, k) == Contents(small, data0, k) {
      assert Contents(big, data1, k) == Contents(big, data0, k);
    }
  }

  /** uvmfree: it panics exactly when a leaf above the size is left. */
  method Uvmfree(m: Memory, root: nat, sz: nat) returns (panicked: bool)
    requires m.Valid() && m.IsRoot(root) && PgUp(sz) <= TRAPVPN
    modifies m
    ensures m.flat == Without(old(m.flat), root, 0, PgUp(sz)) && (panicked <==> HasLeaf(m.flat, root))
    ensures !panicked ==>
              m.Valid() && m.held == old(m.held) && Keeps(m.flat, old(m.data), m.data)
              && OnlyOtherRoles(old(m.role), m.role, root)
  {
    if sz > 0 {
      m.Uvmunmap(root, 0, PgUp(sz), true);
    }
    assert m.flat == Without(old(m.flat), root, 0, PgUp(sz));
    ghost var data1 := m.data;
    assert Keeps(m.flat, old(m.data), data1) by {
      if sz > 0 { ShrinksKeeps(old(m.fr), old(m.data), m.M(), m.data); }
    }
    ghost var fr1 := m.fr;
    panicked := m.Freewalk(root);
    if !panicked {
      ShrinksKeeps(fr1, data1, m.M(), m.data);
      KeepsChain(m.flat, m.flat, old(m.data), data1, m.data);
    }
  }

  /**
   proc_freepagetable: when every leaf is in the heap or one of the top pages, freewalk
   does not panic, and no translation and no table of the address space is left.
   */
  method ProcFreepagetable(m: Memory, root: nat, sz: nat) returns (panicked: bool)
    requires m.Valid() && m.IsRoot(root) && PgUp(sz) <= TRAPVPN && HeapAndTop(m.flat, root, sz)
    modifies m
    ensures !panicked && m.Valid() && m.held == old(m.held) && Keeps(m.flat, old(m.data), m.data)
    ensures m.flat == OthersOf(old(m.flat), root)
    ensures OnlyOtherRoles(old(m.role), m.role, root)
  {
    UnmapTop(m, root);
    ghost var flat1, data1 := m.flat, m.data;
    panicked := Uvmfree(m, root, sz);
    assert m.flat == OthersOf(old(m.flat), root);
    KeepsChain(m.flat, flat1, old(m.data), data1, m.data);
  }

  /** The first half of proc_freepagetable. */
  method UnmapTop(m: Memory, root: nat)
    requires m.Valid() && m.IsRoot(root)
    modifies m
    ensures m.Valid() && m.held == old(m.held) && m.role == old(m.role) && Keeps(m.flat, old(m.data), m.data)
    ensures m.flat == Without(old(m.flat), root, TRAPVPN, MAXVPN)
  {
    m.Uvmunmap(root, TRAMPVPN, 1, false);
    ShrinksKeeps(old(m.fr), old(m.data), m.M(), m.data);
    ghost var m1, data1 := m.M(), m.data;
    m.Uvmunmap(root, TRAPVPN, 1, false);
    ShrinksKeeps(m1.fr, data1, m.M(), m.data);
    KeepsChain(m.flat, m1.s.flat, old(m.data), data1, m.data);
    assert m.flat == Without(old(m.flat), root, TRAPVPN, MAXVPN);
  }
}
