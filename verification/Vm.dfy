/**
 The page-table routines of kernel/vm.c as they run on physical memory: walk,
 mappages, uvmunmap, the freeing of empty mmap tables, and freewalk.
 */
module Vm {
  import opened Kalloc
  import opened PageTable
  import opened VmMem

  type Page = seq<bv8>

  function Filled(b: bv8): (p: Page)
    ensures |p| == PGSIZE && forall i :: 0 <= i < PGSIZE ==> p[i] == b
  {
    seq(PGSIZE, _ => b)
  }

  /** The flat map without pages [lo, hi) of root `r`. */
  ghost function Without(flat: map<Key, Pte>, r: nat, lo: nat, hi: nat): map<Key, Pte> {
    map k | k in flat && !(k.0 == r && lo <= k.1 < hi) :: flat[k]
  }

  /** References are only given up, and a page that keeps one keeps its contents. */
  ghost predicate Shrinks(fr0: Frames, data0: map<nat, Page>, fr: Frames, data: map<nat, Page>) {
    forall f :: f in fr.refcnt && f in data ==>
      f in fr0.refcnt && fr.refcnt[f] <= fr0.refcnt[f] && f in data0 && (fr.refcnt[f] > 0 ==> data[f] == data0[f])
  }

  /** Every page in use stays in use, with the same count and contents. */
  ghost predicate Untouched(fr0: Frames, data0: map<nat, Page>, fr: Frames, data: map<nat, Page>) {
    forall f :: f in fr0.refcnt && fr0.refcnt[f] > 0 && f in data0 ==>
      f in fr.refcnt && fr.refcnt[f] == fr0.refcnt[f] && f in data && data[f] == data0[f]
  }

  /** Roles are kept, and new tables are on the path to page `vpn` of `root`. */
  ghost predicate GrowsFor(role0: map<nat, Role>, role: map<nat, Role>, root: nat, vpn: nat) {
    && (forall f :: f in role0 ==> f in role && role[f] == role0[f])
    && (forall f :: f in role && f !in role0 ==>
        role[f] == Mid(root, Px2(vpn)) || role[f] == Low(root, Px2(vpn), Px1(vpn)))
  }

  ghost predicate HasRole(role: map<nat, Role>, r: Role) {
    exists f :: f in role && role[f] == r
  }

  /** How many tables on the way to page `vpn` of `root` are not there. */
  ghost function Missing(role: map<nat, Role>, root: nat, vpn: nat): (n: nat)
    ensures n <= 2
  {
    (if HasRole(role, Mid(root, Px2(vpn))) then 0 else 1) + if HasRole(role, Low(root, Px2(vpn), Px1(vpn))) then 0
        else 1
  }

  /** What walk has found and allocated when it reaches a level. */
  ghost predicate Descended(role0: map<nat, Role>, free0: nat, role: map<nat, Role>, free: nat, root: nat, vpn: nat,
      level: nat) {
    var mid, low := Mid(root, Px2(vpn)), Low(root, Px2(vpn), Px1(vpn));
    if level == 2 then role == role0 && free == free0
    else if level == 1 then
      && HasRole(role, mid) && (HasRole(role, low) <==> HasRole(role0, low))
      && free + (if HasRole(role0, mid) then 0 else 1) == free0
    else HasRole(role, mid) && HasRole(role, low) && free + Missing(role0, root, vpn) == free0
  }

  /** The role of the table that walk has reached at a level. */
  function LevelRole(root: nat, vpn: nat, level: nat): Role {
    if level >= 2 then Root else if level == 1 then Mid(root, Px2(vpn)) else Low(root, Px2(vpn), Px1(vpn))
  }

  /** The pages that the table of a role can map. */
  function RoleLo(role: Role): nat {
    match role
    case Root => 0
    case Mid(_, i2) => VpnOf(i2, 0, 0)
    case Low(_, i2, i1) => VpnOf(i2, i1, 0)
  }

  function RoleSize(role: Role): nat {
    match role
    case Root => TABLEVPN
    case Mid(_, _) => 262144
    case Low(_, _, _) => 512
  }

  predicate Overlaps(role: Role, lo: nat, hi: nat) {
    RoleLo(role) < hi && lo < RoleLo(role) + RoleSize(role)
  }

  class Memory {
    var fr: Frames
    var tab: map<nat, seq<Pte>>
    var data: map<nat, Page>          // contents of the pages that are not page tables
    ghost var role: map<nat, Role>
    ghost var flat: map<Key, Pte>
    ghost var held: multiset<nat>

    ghost function S(): Space
      reads this
    {
      Space(tab, role, flat)
    }

    ghost function M(): Mem
      reads this
    {
      Mem(fr, S(), held)
    }

    ghost predicate Valid()
      reads this
    {
      && MemOk(M())
      && forall f :: f in fr.refcnt ==> f in data && |data[f]| == PGSIZE
    }

    ghost predicate IsRoot(r: nat)
      reads this
    {
      r in role && role[r] == Root
    }

    /** After kinit: every page is free. */
    constructor (fr0: Frames)
      requires FramesOk(fr0, {}) && forall f :: f in fr0.refcnt ==> fr0.refcnt[f] == 0
      ensures Valid() && fr == fr0 && tab == map[] && role == map[] && flat == map[] && held == multiset{}
    {
      fr, tab, role, flat, held := fr0, map[], map[], map[], multiset{};
      data := map f | f in fr0.refcnt :: Filled(1);
      new;
      forall f: nat ensures OwnerOk(M(), f) {}
      Close(M());
    }

    method Kalloc() returns (ok: bool, f: nat)
      requires Valid()
      modifies this`fr, this`data, this`held
      ensures Valid()
      ensures ok <==> old(fr.free) != []
      ensures !ok ==> M() == old(M()) && data == old(data)
      ensures ok ==> f == old(fr.free)[0] && held == old(held) + multiset{f} && Fresh(M(), f)
      ensures ok ==> fr == AllocFrame(old(fr)) && data == old(data)[f := Filled(5)]
      ensures ok ==> f in old(fr.refcnt) && old(fr.refcnt[f]) == 0
    {
      if fr.free == [] {
        return false, 0;
      }
      f := fr.free[0];
      AllocOk(fr) by { Open(M()); }
      ghost var n := AllocStep(M());
      fr := AllocFrame(fr);
      data := data[f := Filled(5)];
      held := n.held;
      ok := true;
    }

    method Kfree(f: nat)
      requires Valid() && held[f] > 0
      modifies this`fr, this`data, this`held
      ensures Valid() && held == old(held) - multiset{f}
      ensures f in old(fr.refcnt) && old(fr.refcnt[f]) > 0 && fr == FreeFrame(old(fr), f)
      ensures data == if old(fr.refcnt[f]) == 1 then old(data)[f := Filled(1)] else old(data)
    {
      ghost var n := FreeStep(M(), f);
      if fr.refcnt[f] == 1 {
        data := data[f := Filled(1)];
      }
      fr := FreeFrame(fr, f);
      held := n.held;
    }

    method Kaddref(f: nat)
      requires Valid() && Users(flat, f) != {}
      modifies this`fr, this`held
      ensures Valid() && held == old(held) + multiset{f}
      ensures f in old(fr.refcnt) && old(fr.refcnt[f]) > 0 && fr == AddRef(old(fr), f)
    {
      ghost var n := AddRefStep(M(), f);
      fr := AddRef(fr, f);
      held := n.held;
    }

    /** walk's allocation: a zeroed table below entry `i` of `p`. */
    method NewTable(p: nat, i: nat) returns (ok: bool, f: nat)
      requires Valid() && p in role && !role[p].Low? && i < ENTRIES && !tab[p][i].v
      modifies this`fr, this`tab, this`data, this`role, this`held
      ensures Valid() && flat == old(flat) && held == old(held) && Untouched(old(fr), old(data), fr, data)
      ensures !ok ==> fr.free == [] && M() == old(M()) && data == old(data)
      ensures ok ==> f !in old(role) && role == old(role)[f := ChildRole(old(S()), p, i)]
      ensures ok ==> |fr.free| + 1 == |old(fr.free)|
    {
      ok, f := Kalloc();
      if !ok {
        return;
      }
      ghost var n := NewTableStep(M(), p, i, f);
      tab := tab[f := ZeroTable()][p := tab[p][i := TablePte(f)]];
      role, held := n.s.role, n.held;
      assert M() == n;
    }

    /** One level of walk: the table below entry `i` of `t`, created if it is missing and `alloc` is set. */
    method Descend(t: nat, i: nat, alloc: bool) returns (ok: bool, c: nat)
      requires Valid() && t in role && !role[t].Low? && i < ENTRIES
      modifies this`fr, this`tab, this`data, this`role, this`held
      ensures Valid() && flat == old(flat) && held == old(held) && Untouched(old(fr), old(data), fr, data)
      ensures var child := ChildRole(old(S()), t, i);
              && (ok ==> c in role && role[c] == child)
              && (HasRole(old(role), child) || !alloc ==> M() == old(M()) && data == old(data))
              && (HasRole(old(role), child) ==> ok)
              && (!HasRole(old(role), child) ==> (ok <==> alloc && old(fr.free) != []))
              && (!HasRole(old(role), child) && ok ==>
                    |fr.free| + 1 == |old(fr.free)| && c !in old(role) && role == old(role)[c := child])
      ensures !ok ==> M() == old(M()) && data == old(data)
    {
      EntryAt(M(), t, i);
      if tab[t][i].v {
        return true, tab[t][i].frame;
      }
      NoChild(S(), t, i) by { Open(M()); }
      if !alloc {
        return false, 0;
      }
      ok, c := NewTable(t, i);
    }

    /**
     walk: down the levels, creating missing tables when `alloc` is set.  It never
     changes a translation; without `alloc` it changes nothing and fails exactly when
     there is no lowest-level table; with it, it fails exactly when there are fewer
     free pages than missing tables.
     */
    method Walk(root: nat, vpn: nat, alloc: bool) returns (ok: bool, t: nat)
      requires Valid() && IsRoot(root) && vpn < MAXVPN
      modifies this`fr, this`tab, this`data, this`role, this`held
      ensures Valid() && flat == old(flat) && held == old(held)
      ensures ok ==> t in role && role[t] == Low(root, Px2(vpn), Px1(vpn))
      ensures !alloc ==> M() == old(M()) && data == old(data)
      ensures !alloc ==> (ok <==> HasRole(role, Low(root, Px2(vpn), Px1(vpn))))
      ensures !alloc && !ok ==> (root, vpn) !in flat
      ensures alloc ==> (ok <==> |old(fr.free)| >= Missing(old(role), root, vpn))
      ensures alloc && ok ==>
                |fr.free| + Missing(old(role), root, vpn) == |old(fr.free)| && Missing(role, root, vpn) == 0
      ensures alloc && !ok ==> fr.free == []
      ensures GrowsFor(old(role), role, root, vpn) && Untouched(old(fr), old(data), fr, data)
    {
      t := root;
      var level := 2;
      LowHasMid(M(), root, vpn);
      while level > 0
        invariant 0 <= level <= 2 && Valid() && flat == old(flat) && held == old(held)
        invariant t in role && role[t] == LevelRole(root, vpn, level) && (level == 2 ==> t == root)
        invariant !alloc ==> M() == old(M()) && data == old(data)
        invariant Descended(old(role), |old(fr.free)|, role, |fr.free|, root, vpn, level)
        invariant GrowsFor(old(role), role, root, vpn) && Untouched(old(fr), old(data), fr, data)
      {
        var i := if level == 2 then Px2(vpn) else Px1(vpn);
        ghost var role1, free1 := role, |fr.free|;
        ok, t := Descend(t, i, alloc);
        if !ok {
          if !alloc { NoLowNoLeaf(M(), root, vpn); }
          return;
        }
        DescendedNext(old(role), |old(fr.free)|, role1, free1, role, |fr.free|, root, vpn, level, t);
        level := level - 1;
      }
      ok := true;
    }

    /**
     mappages for one page: on success exactly that translation is added, on failure,
     which needs fewer free pages than missing tables, none is changed.
     */
    method MapPage(root: nat, vpn: nat, e: Pte) returns (ok: bool)
      requires Valid() && IsRoot(root) && vpn < MAXVPN && IsLeaf(e) && (root, vpn) !in flat
      requires Counted((root, vpn)) ==> held[e.frame] > 0
      modifies this`fr, this`tab, this`data, this`role, this`held, this`flat
      ensures Valid()
      ensures ok ==> flat == old(flat)[(root, vpn) := e]
      ensures ok ==> held == if Counted((root, vpn)) then old(held) - multiset{e.frame} else old(held)
      ensures !ok ==> flat == old(flat) && held == old(held) && fr.free == []
      ensures ok <==> |old(fr.free)| >= Missing(old(role), root, vpn)
      ensures ok ==> |fr.free| + Missing(old(role), root, vpn) == |old(fr.free)| && Missing(role, root, vpn) == 0
      ensures GrowsFor(old(role), role, root, vpn) && Untouched(old(fr), old(data), fr, data)
    {
      var t;
      ok, t := Walk(root, vpn, true);
      if !ok {
        return;
      }
      var i := Px0(vpn);
      PxRoundTrip(vpn);
      FlatAt(S(), t, i) by { Open(M()); }
      ghost var n := MapStep(M(), t, i, e);
      tab := tab[t := tab[t][i := e]];
      flat, held := n.s.flat, n.held;
      assert M() == n;
    }

    /** The body of uvmunmap's loop. */
    method UnmapOne(root: nat, vpn: nat, doFree: bool)
      requires Valid() && IsRoot(root) && vpn < MAXVPN && doFree == Counted((root, vpn))
      modifies this`fr, this`tab, this`data, this`role, this`held, this`flat
      ensures Valid() && role == old(role) && held == old(held)
      ensures flat == old(flat) - {(root, vpn)}
      ensures fr.refcnt.Keys == old(fr.refcnt.Keys) && Shrinks(old(fr), old(data), fr, data)
    {
      var ok, t := Walk(root, vpn, false);
      if !ok {
        return;
      }
      var i := Px0(vpn);
      PxRoundTrip(vpn);
      FlatAt(S(), t, i) by { Open(M()); }
      if !tab[t][i].v {
        return;
      }
      ghost var n := UnmapStep(M(), t, i);
      if doFree {
        var f := tab[t][i].frame;
        if fr.refcnt[f] == 1 {
          data := data[f := Filled(1)];
        }
        fr := FreeFrame(fr, f);
      }
      tab := tab[t := tab[t][i := ZERO]];
      flat := n.s.flat;
      assert M() == n;
    }

    /** uvmunmap: exactly the translations of the range go, mapped or not. */
    method Uvmunmap(root: nat, vpn: nat, npages: nat, doFree: bool)
      requires Valid() && IsRoot(root) && vpn + npages <= MAXVPN
      requires doFree ==> vpn + npages <= TRAPVPN
      requires !doFree ==> vpn >= TRAPVPN
      modifies this`fr, this`tab, this`data, this`role, this`held, this`flat
      ensures Valid() && role == old(role) && held == old(held)
      ensures flat == Without(old(flat), root, vpn, vpn + npages)
      ensures fr.refcnt.Keys == old(fr.refcnt.Keys) && Shrinks(old(fr), old(data), fr, data)
    {
      var a := vpn;
      while a < vpn + npages
        invariant vpn <= a <= vpn + npages
        invariant Valid() && role == old(role) && held == old(held)
        invariant flat == Without(old(flat), root, vpn, a)
        invariant fr.refcnt.Keys == old(fr.refcnt.Keys) && Shrinks(old(fr), old(data), fr, data)
      {
        UnmapOne(root, a, doFree);
        a := a + 1;
      }
    }

    /** pagetable_empty */
    method PagetableEmpty(t: nat) returns (empty: bool)
      requires t in tab
      ensures empty == EmptyTable(tab[t])
    {
      for i := 0 to |tab[t]|
        invariant forall j :: 0 <= j < i ==> !tab[t][j].v
      {
        if tab[t][i].v {
          return false;
        }
      }
      empty := true;
    }

    /** Free the table below entry `i` of `p` if it is empty. */
    method FreeIfEmpty(p: nat, i: nat)
      requires Valid() && p in role && !role[p].Low? && i < ENTRIES && tab[p][i].v
      modifies this`fr, this`tab, this`data, this`role
      ensures Valid() && fr.refcnt.Keys == old(fr.refcnt.Keys) && Shrinks(old(fr), old(data), fr, data)
      ensures var f := old(tab)[p][i].frame;
              && f in old(role) && old(role)[f] == ChildRole(old(S()), p, i) && f in old(tab) && f != p
              && (EmptyTable(old(tab)[f]) ==>
                  role == old(role) - {f} && tab == (old(tab) - {f})[p := old(tab)[p][i := ZERO]])
              && (!EmptyTable(old(tab)[f]) ==> role == old(role) && tab == old(tab))
    {
      EntryAt(M(), p, i);
      var f := tab[p][i].frame;
      var empty := PagetableEmpty(f);
      if empty {
        ghost var n := FreeTableStep(M(), p, i);
        data := data[f := Filled(1)];
        fr := FreeFrame(fr, f);
        tab := (tab - {f})[p := tab[p][i := ZERO]];
        role := n.s.role;
        assert M() == n;
      }
    }

    /** free_empty_mmap_l0 */
    method FreeEmptyL0(root: nat, vpn: nat)
      requires Valid() && IsRoot(root) && vpn < MAXVPN
      modifies this`fr, this`tab, this`data, this`role
      ensures Valid() && IsRoot(root) && fr.refcnt.Keys == old(fr.refcnt.Keys) && Shrinks(old(fr), old(data), fr, data)
      ensures forall t :: t in role ==> t in old(role) && role[t] == old(role)[t]
      ensures forall t :: t in old(role) && t !in role ==> old(role)[t] == Low(root, Px2(vpn), Px1(vpn))
      ensures forall t :: t in role && role[t].Low? ==> tab[t] == old(tab)[t]
      ensures forall t :: t in role && role[t] == Low(root, Px2(vpn), Px1(vpn)) ==> !EmptyTable(tab[t])
    {
      EntryAt(M(), root, Px2(vpn));
      forall t | t in role && role[t] == Low(root, Px2(vpn), Px1(vpn)) ensures BackOk(S(), t) { EntryAt(M(), t, 0); }
      if !IsTable(tab[root][Px2(vpn)]) {
        return;
      }
      var l1 := tab[root][Px2(vpn)].frame;
      EntryAt(M(), l1, Px1(vpn));
      if !IsTable(tab[l1][Px1(vpn)]) {
        return;
      }
      FreeIfEmpty(l1, Px1(vpn));
    }

    /** free_empty_mmap_l1 */
    method FreeEmptyL1(root: nat, vpn: nat)
      requires Valid() && IsRoot(root) && vpn < MAXVPN
      modifies this`fr, this`tab, this`data, this`role
      ensures Valid() && IsRoot(root) && fr.refcnt.Keys == old(fr.refcnt.Keys) && Shrinks(old(fr), old(data), fr, data)
      ensures forall t :: t in role ==> t in old(role) && role[t] == old(role)[t]
      ensures forall t :: t in old(role) && t !in role ==> old(role)[t] == Mid(root, Px2(vpn))
      ensures forall t :: t in role && !role[t].Root? ==> tab[t] == old(tab)[t]
      ensures forall t :: t in role && role[t] == Mid(root, Px2(vpn)) ==> !EmptyTable(tab[t])
    {
      EntryAt(M(), root, Px2(vpn));
      forall t | t in role && role[t] == Mid(root, Px2(vpn)) ensures BackOk(S(), t) { EntryAt(M(), t, 0); }
      if !IsTable(tab[root][Px2(vpn)]) {
        return;
      }
      FreeIfEmpty(root, Px2(vpn));
    }

    /** The first loop of free_empty_mmap_pagetables. */
    method FreeEmptyLows(root: nat, start: nat, npages: nat)
      requires Valid() && IsRoot(root) && start + npages <= MAXVPN
      modifies this`fr, this`tab, this`data, this`role
      ensures Valid() && IsRoot(root) && fr.refcnt.Keys == old(fr.refcnt.Keys) && Shrinks(old(fr), old(data), fr, data)
      ensures LostLows(old(S()), S(), root, start, start + npages)
              && CleanLow(S(), root, start, start + npages, start + npages)
    {
      var va, end := start, start + npages;
      while va < end
        invariant start <= va <= end && Valid() && IsRoot(root)
        invariant fr.refcnt.Keys == old(fr.refcnt.Keys) && Shrinks(old(fr), old(data), fr, data)
        invariant LostLows(old(S()), S(), root, start, end) && CleanLow(S(), root, start, end, va)
      {
        var next := (va / 512 + 1) * 512;        // next_pt_boundary(va, 1)
        ghost var s := S();
        FreeEmptyL0(root, va);
        LostLowsNext(old(S()), s, S(), root, start, end, va);
        CleanLowNext(s, S(), root, start, end, va) by { Open(M()); }
        va := if next > va && next < end then next else end;
      }
    }

    /** The second loop of free_empty_mmap_pagetables. */
    method FreeEmptyMids(root: nat, start: nat, npages: nat)
      requires Valid() && IsRoot(root) && start + npages <= MAXVPN
      modifies this`fr, this`tab, this`data, this`role
      ensures Valid() && IsRoot(root) && fr.refcnt.Keys == old(fr.refcnt.Keys) && Shrinks(old(fr), old(data), fr, data)
      ensures LostMids(old(S()), S(), root, start, start + npages)
              && CleanMid(S(), root, start, start + npages, start + npages)
    {
      var va, end := start, start + npages;
      while va < end
        invariant start <= va <= end && Valid() && IsRoot(root)
        invariant fr.refcnt.Keys == old(fr.refcnt.Keys) && Shrinks(old(fr), old(data), fr, data)
        invariant LostMids(old(S()), S(), root, start, end) && CleanMid(S(), root, start, end, va)
      {
        var next := (va / 262144 + 1) * 262144;  // next_pt_boundary(va, 2)
        ghost var s := S();
        FreeEmptyL1(root, va);
        LostMidsNext(old(S()), s, S(), root, start, end, va);
        CleanMidNext(s, S(), root, start, end, va) by { Open(M()); }
        va := if next > va && next < end then next else end;
      }
    }

    /**
     free_empty_mmap_pagetables: no translation changes, and afterwards no table of
     `root` over the range is empty, for any start and length.
     */
    method FreeEmptyPagetables(root: nat, start: nat, npages: nat)
      requires Valid() && IsRoot(root) && start + npages <= MAXVPN
      modifies this`fr, this`tab, this`data, this`role
      ensures Valid() && IsRoot(root) && fr.refcnt.Keys == old(fr.refcnt.Keys) && Shrinks(old(fr), old(data), fr, data)
      ensures LostTables(old(S()), S(), root, start, start + npages)
      ensures NoEmptyTable(S(), root, start, start + npages)
    {
      ghost var s := S();
      FreeEmptyLows(root, start, npages);
      ghost var t := S();
      FreeEmptyMids(root, start, npages);
      BothClean(s, t, S(), root, start, start + npages);
    }

    /** uvmcreate */
    method Uvmcreate() returns (ok: bool, r: nat)
      requires Valid()
      modifies this`fr, this`tab, this`data, this`role, this`held
      ensures Valid() && flat == old(flat) && held == old(held) && Untouched(old(fr), old(data), fr, data)
      ensures !ok ==> M() == old(M())
      ensures (ok <==> old(fr.free) != []) && (ok ==> |fr.free| + 1 == |old(fr.free)|)
      ensures ok ==> r !in old(role) && role == old(role)[r := Root] && !HasLeaf(flat, r)
    {
      ok, r := Kalloc();
      if !ok {
        return;
      }
      NoRootNoLeaf(S(), r) by { Open(M()); }
      ghost var n := NewRootStep(M(), r);
      tab := tab[r := ZeroTable()];
      role, held := n.s.role, n.held;
      assert M() == n;
    }

    /**
     The walk of freewalk over table `p`: every table below is freed and every entry
     cleared.  It panics only on a leaf.
     */
    method EmptyOut(p: nat, level: nat) returns (panicked: bool)
      requires Valid() && p in role && level == LevelOf(role[p])
      modifies this`fr, this`tab, this`data, this`role
      ensures panicked ==> HasLeaf(flat, RootOf(p, old(role)[p]))
      ensures !panicked ==> Valid() && Pruned(old(S()), S(), p, ENTRIES) && EmptyTable(tab[p])
      ensures !panicked ==> fr.refcnt.Keys == old(fr.refcnt.Keys) && Shrinks(old(fr), old(data), fr, data)
      decreases level, 1
    {
      PrunedStart(S(), p) by { Open(M()); }
      var i := 0;
      while i < ENTRIES
        invariant 0 <= i <= ENTRIES && Valid() && Pruned(old(S()), S(), p, i)
        invariant forall j :: 0 <= j < i ==> !tab[p][j].v
        invariant fr.refcnt.Keys == old(fr.refcnt.Keys) && Shrinks(old(fr), old(data), fr, data)
      {
        ghost var m1 := M();
        EntryAt(m1, p, i);
        if IsTable(tab[p][i]) {
          panicked := DropChild(p, i, level);
          if panicked {
            return;
          }
          PrunedNext(old(S()), m1.s, S(), p, i);
        } else if tab[p][i].v {
          LeafBelow(m1.s, p, i) by { Open(m1); }
          return true;
        } else {
          PrunedSkip(old(S()), m1.s, p, i) by { Open(m1); }
        }
        i := i + 1;
      }
      panicked := false;
    }

    /** freewalk's recursive call, and the clearing of the entry behind it. */
    method DropChild(p: nat, i: nat, level: nat) returns (panicked: bool)
      requires Valid() && p in role && level == LevelOf(role[p]) && !role[p].Low? && i < ENTRIES && IsTable(tab[p][i])
      modifies this`fr, this`tab, this`data, this`role
      ensures panicked ==> HasLeaf(flat, RootOf(p, old(role)[p]))
      ensures !panicked ==> Valid() && PrunedAt(old(S()), S(), p, i)
      ensures !panicked ==> fr.refcnt.Keys == old(fr.refcnt.Keys) && Shrinks(old(fr), old(data), fr, data)
      decreases level, 0
    {
      ghost var m1 := M();
      EntryAt(m1, p, i);
      var c := tab[p][i].frame;
      panicked := EmptyOut(c, level - 1);
      if panicked {
        return;
      }
      ghost var s2 := S();
      ChildKeeps(m1.s, s2, p, i, c) by { Open(m1); }
      FreeIfEmpty(p, i);
      PrunedChild(m1.s, s2, S(), p, i, c) by { Open(m1); }
    }

    /** freewalk: it panics exactly when a leaf is left, and otherwise returns every table of the address space. */
    method Freewalk(root: nat) returns (panicked: bool)
      requires Valid() && IsRoot(root)
      modifies this`fr, this`tab, this`data, this`role
      ensures panicked <==> HasLeaf(flat, root)
      ensures !panicked ==> Valid() && fr.refcnt.Keys == old(fr.refcnt.Keys) && Shrinks(old(fr), old(data), fr, data)
      ensures !panicked ==> OnlyOthers(old(S()), S(), root)
    {
      ghost var m0 := M();
      panicked := EmptyOut(root, 2);
      if panicked {
        return;
      }
      EmptyRootNoLeaf(S(), root) by { Open(M()); }
      ghost var s1, fr1, data1 := S(), fr, data;
      FreeRoot(root);
      ShrinksTwice(old(fr), old(data), fr1, data1, fr, data);
      PrunedRoot(m0.s, s1, S(), root) by { Open(m0); }
    }

    /** freewalk's last line: the root itself. */
    method FreeRoot(root: nat)
      requires Valid() && IsRoot(root) && root in tab && EmptyTable(tab[root])
      modifies this`fr, this`tab, this`data, this`role
      ensures Valid() && role == old(role) - {root} && tab == old(tab) - {root}
      ensures fr.refcnt.Keys == old(fr.refcnt.Keys) && Shrinks(old(fr), old(data), fr, data)
    {
      ghost var n := FreeRootStep(M(), root);
      data := data[root := Filled(1)];
      fr := FreeFrame(fr, root);
      tab := tab - {root};
      role := n.s.role;
      assert M() == n;
    }
  }

  ghost predicate HasLeaf(flat: map<Key, Pte>, root: nat) {
    exists k :: k in flat && k.0 == root
  }

  /** All tables of other address spaces, and nothing else. */
  ghost predicate OnlyOthers(s0: Space, s: Space, root: nat) {
    && (forall f :: f in s.role <==> f in s0.role && f != root && (s0.role[f].Root? || s0.role[f].root != root))
    && (forall f :: f in s.role ==> s.role[f] == s0.role[f] && f in s.tab && f in s0.tab && s.tab[f] == s0.tab[f])
  }

  // ---------- empty tables over a range ----------

  /** No lowest-level table of `root` over the range is empty, as far as the scan has come. */
  ghost predicate CleanLow(s: Space, root: nat, lo: nat, hi: nat, done: nat) {
    forall t :: t in s.role && s.role[t].Low? && s.role[t].root == root && Overlaps(s.role[t], lo, hi)
                && lo < hi && (RoleLo(s.role[t]) + 512 <= done || done == hi)
                ==> t in s.tab && !EmptyTable(s.tab[t])
  }

  ghost predicate CleanMid(s: Space, root: nat, lo: nat, hi: nat, done: nat) {
    forall t :: t in s.role && s.role[t].Mid? && s.role[t].root == root && Overlaps(s.role[t], lo, hi)
                && lo < hi && (RoleLo(s.role[t]) + 262144 <= done || done == hi)
                ==> t in s.tab && !EmptyTable(s.tab[t])
  }

  ghost predicate NoEmptyTable(s: Space, root: nat, lo: nat, hi: nat) {
    forall t :: t in s.role && !s.role[t].Root? && s.role[t].root == root && lo < hi && Overlaps(s.role[t], lo, hi)
                ==> t in s.tab && !EmptyTable(s.tab[t])
  }

  /** Only tables of `root` over the range are gone, and the lowest-level tables that are left are unchanged. */
  ghost predicate LostTables(s0: Space, s: Space, root: nat, lo: nat, hi: nat) {
    && (forall t :: t in s.role ==> t in s0.role && s.role[t] == s0.role[t])
    && (forall t :: t in s0.role && t !in s.role ==>
        !s0.role[t].Root? && s0.role[t].root == root && Overlaps(s0.role[t], lo, hi))
    && (forall t :: t in s.role && s.role[t].Low? ==> t in s.tab && t in s0.tab && s.tab[t] == s0.tab[t])
  }

  ghost predicate LostLows(s0: Space, s: Space, root: nat, lo: nat, hi: nat) {
    LostTables(s0, s, root, lo, hi) && forall t :: t in s0.role && t !in s.role ==> s0.role[t].Low?
  }

  ghost predicate LostMids(s0: Space, s: Space, root: nat, lo: nat, hi: nat) {
    && LostTables(s0, s, root, lo, hi) && (forall t :: t in s0.role && t !in s.role ==> s0.role[t].Mid?)
    && (forall t :: t in s.role && s.role[t].Mid? ==> t in s.tab && t in s0.tab && s.tab[t] == s0.tab[t])
  }

  lemma LowIndex(i2: nat, i1: nat, vpn: nat)
    requires i2 < 512 && i1 < 512 && VpnOf(i2, i1, 0) == vpn / 512 * 512
    ensures i2 == Px2(vpn) && i1 == Px1(vpn)
  {
    assert vpn / 512 == i2 * 512 + i1;
    assert vpn / 262144 == vpn / 512 / 512;
  }

  lemma LostLowsNext(s0: Space, s: Space, t: Space, root: nat, lo: nat, hi: nat, va: nat)
    requires LostLows(s0, s, root, lo, hi) && lo <= va < hi <= MAXVPN
    requires forall f :: f in t.role ==> f in s.role && t.role[f] == s.role[f]
    requires forall f :: f in s.role && f !in t.role ==> s.role[f] == Low(root, Px2(va), Px1(va))
    requires forall f :: f in t.role && t.role[f].Low? ==> f in t.tab && f in s.tab && t.tab[f] == s.tab[f]
    ensures LostLows(s0, t, root, lo, hi)
  {
    BlockOf(va);
  }

  /** The block of pages that the tables on the way to `vpn` cover. */
  lemma BlockOf(vpn: nat)
    requires vpn < MAXVPN
    ensures VpnOf(Px2(vpn), Px1(vpn), 0) == vpn / 512 * 512
    ensures VpnOf(Px2(vpn), 0, 0) == vpn / 262144 * 262144
  {
    var q := vpn / 512;
    assert vpn / 262144 == q / 512 && q / 512 < 512;
    assert q == q / 512 * 512 + q % 512;
  }

  lemma CleanLowNext(s: Space, t: Space, root: nat, lo: nat, hi: nat, va: nat)
    requires TreeOk(t) && CleanLow(s, root, lo, hi, va) && lo <= va < hi <= MAXVPN
    requires forall f :: f in t.role ==> f in s.role && t.role[f] == s.role[f]
    requires forall f :: f in t.role && t.role[f].Low? ==> f in t.tab && f in s.tab && t.tab[f] == s.tab[f]
    requires forall f :: f in t.role && t.role[f] == Low(root, Px2(va), Px1(va)) ==> !EmptyTable(t.tab[f])
    ensures var next := (va / 512 + 1) * 512; CleanLow(t, root, lo, hi, if next > va && next < hi then next else hi)
  {
    var next := (va / 512 + 1) * 512;
    forall f | f in t.role && t.role[f].Low? && t.role[f].root == root && Overlaps(t.role[f], lo, hi)
        && RoleLo(t.role[f]) < next
      ensures f in t.tab && !EmptyTable(t.tab[f])
    {
      assert BackOk(t, f);
      var k := t.role[f].i2 * 512 + t.role[f].i1;
      assert RoleLo(t.role[f]) == k * 512;
      if k == va / 512 { LowIndex(t.role[f].i2, t.role[f].i1, va); }
    }
  }

  lemma LostMidsNext(s0: Space, s: Space, t: Space, root: nat, lo: nat, hi: nat, va: nat)
    requires LostMids(s0, s, root, lo, hi) && lo <= va < hi <= MAXVPN
    requires forall f :: f in t.role ==> f in s.role && t.role[f] == s.role[f]
    requires forall f :: f in s.role && f !in t.role ==> s.role[f] == Mid(root, Px2(va))
    requires forall f :: f in t.role && !t.role[f].Root? ==> f in t.tab && f in s.tab && t.tab[f] == s.tab[f]
    ensures LostMids(s0, t, root, lo, hi)
  {
    BlockOf(va);
  }

  lemma CleanMidNext(s: Space, t: Space, root: nat, lo: nat, hi: nat, va: nat)
    requires TreeOk(t) && CleanMid(s, root, lo, hi, va) && lo <= va < hi <= MAXVPN
    requires forall f :: f in t.role ==> f in s.role && t.role[f] == s.role[f]
    requires forall f :: f in t.role && !t.role[f].Root? ==> f in t.tab && f in s.tab && t.tab[f] == s.tab[f]
    requires forall f :: f in t.role && t.role[f] == Mid(root, Px2(va)) ==> !EmptyTable(t.tab[f])
    ensures var next := (va / 262144 + 1) * 262144;
            CleanMid(t, root, lo, hi, if next > va && next < hi then next else hi)
  {
    var next := (va / 262144 + 1) * 262144;
    forall f | f in t.role && t.role[f].Mid? && t.role[f].root == root && Overlaps(t.role[f], lo, hi)
        && RoleLo(t.role[f]) < next
      ensures f in t.tab && !EmptyTable(t.tab[f])
    {
      assert BackOk(t, f);
      assert RoleLo(t.role[f]) == t.role[f].i2 * 262144;
    }
  }

  lemma BothClean(s: Space, t: Space, u: Space, root: nat, lo: nat, hi: nat)
    requires LostLows(s, t, root, lo, hi) && CleanLow(t, root, lo, hi, hi)
    requires LostMids(t, u, root, lo, hi) && CleanMid(u, root, lo, hi, hi)
    ensures LostTables(s, u, root, lo, hi) && NoEmptyTable(u, root, lo, hi)
  {
  }

  // ---------- freewalk ----------

  /** The tables below the first `i` entries of `p` are gone; all else but `p` itself is as it was. */
  ghost predicate Pruned(s0: Space, s: Space, p: nat, i: nat) {
    && p in s0.role && p in s.role
    && (forall f :: f in s.role <==>
        f in s0.role && !(Below(s0.role[p], p, s0.role[f]) && BelowIndex(s0.role[p], s0.role[f]) < i))
    && (forall f :: f in s.role ==>
        s.role[f] == s0.role[f] && f in s.tab && f in s0.tab && (f != p ==> s.tab[f] == s0.tab[f]))
  }

  lemma PrunedStart(s: Space, p: nat)
    requires TreeOk(s) && p in s.role
    ensures Pruned(s, s, p, 0)
  {
  }

  /** Nothing hangs below an entry that is not valid. */
  lemma PrunedSkip(s0: Space, s: Space, p: nat, i: nat)
    requires TreeOk(s) && Pruned(s0, s, p, i) && i < ENTRIES && !s.tab[p][i].v
    ensures Pruned(s0, s, p, i + 1)
  {
    forall f | f in s.role && Below(s.role[p], p, s.role[f]) ensures BelowIndex(s.role[p], s.role[f]) != i {
      assert BackOk(s, f) && BackOk(s, p);
    }
  }

  /** Emptying a child leaves its parent alone. */
  lemma ChildKeeps(s1: Space, s2: Space, p: nat, i: nat, c: nat)
    requires TreeOk(s1) && Pruned(s1, s2, c, ENTRIES) && p in s1.role && !s1.role[p].Low? && i < ENTRIES
    requires s1.tab[p][i].v && s1.tab[p][i].frame == c
    ensures c != p && p in s2.role && s2.role[p] == s1.role[p] && s2.tab[p] == s1.tab[p]
            && s1.role[c] == ChildRole(s1, p, i)
  {
    assert EntryOk(s1, p, i);
  }

  /** The tables below entry `i` of `p` are gone, and that entry is cleared. */
  ghost predicate PrunedAt(s0: Space, s: Space, p: nat, i: nat) {
    && p in s0.role && p in s.role && p in s0.tab && p in s.tab && i < |s0.tab[p]| && s.tab[p] == s0.tab[p][i := ZERO]
    && (forall f :: f in s.role <==>
        f in s0.role && !(Below(s0.role[p], p, s0.role[f]) && BelowIndex(s0.role[p], s0.role[f]) == i))
    && (forall f :: f in s.role ==>
        s.role[f] == s0.role[f] && f in s.tab && f in s0.tab && (f != p ==> s.tab[f] == s0.tab[f]))
  }

  lemma PrunedNext(s0: Space, s1: Space, s: Space, p: nat, i: nat)
    requires Pruned(s0, s1, p, i) && PrunedAt(s1, s, p, i)
    ensures Pruned(s0, s, p, i + 1)
  {
  }

  /** Emptying and freeing the child below entry `i` prunes that entry. */
  lemma PrunedChild(s1: Space, s2: Space, s3: Space, p: nat, i: nat, c: nat)
    requires TreeOk(s1) && p in s1.role && !s1.role[p].Low? && i < ENTRIES && s1.tab[p][i].v && s1.tab[p][i].frame == c
    requires Pruned(s1, s2, c, ENTRIES) && c != p && p in s2.role && s1.role[c] == ChildRole(s1, p, i)
    requires s3.role == s2.role - {c} && s3.tab == (s2.tab - {c})[p := s1.tab[p][i := ZERO]]
    ensures PrunedAt(s1, s3, p, i)
  {
    forall f | f in s1.role
      ensures Below(s1.role[p], p, s1.role[f]) && BelowIndex(s1.role[p], s1.role[f]) == i <==>
              f == c || (Below(s1.role[c], c, s1.role[f]) && BelowIndex(s1.role[c], s1.role[f]) < ENTRIES)
    {
      assert BackOk(s1, f) && BackOk(s1, p);
    }
  }

  lemma LeafBelow(s: Space, p: nat, i: nat)
    requires TreeOk(s) && p in s.role && i < ENTRIES && s.tab[p][i].v && !IsTable(s.tab[p][i])
    ensures HasLeaf(s.flat, RootOf(p, s.role[p]))
  {
    assert EntryOk(s, p, i);
    FlatAt(s, p, i);
  }

  lemma EmptyRootNoLeaf(s: Space, root: nat)
    requires TreeOk(s) && root in s.role && s.role[root] == Root && EmptyTable(s.tab[root])
    ensures !HasLeaf(s.flat, root)
  {
    forall k | k in s.flat ensures k.0 != root { assert FlatOk(s, k.0, k.1); }
  }

  lemma ShrinksTwice(fr0: Frames, data0: map<nat, Page>, fr1: Frames, data1: map<nat, Page>, fr: Frames, data: map<nat,
      Page>)
    requires Shrinks(fr0, data0, fr1, data1) && Shrinks(fr1, data1, fr, data)
    ensures Shrinks(fr0, data0, fr, data)
  {
  }

  lemma PrunedRoot(s0: Space, s1: Space, s2: Space, root: nat)
    requires TreeOk(s0) && Pruned(s0, s1, root, ENTRIES) && s0.role[root] == Root
    requires s2.role == s1.role - {root} && s2.tab == s1.tab - {root}
    ensures OnlyOthers(s0, s2, root)
  {
    forall f | f in s0.role && Below(Root, root, s0.role[f]) ensures BelowIndex(Root, s0.role[f]) < ENTRIES {
      assert BackOk(s0, f);
    }
  }

  function LevelOf(role: Role): nat {
    match role case Root => 2 case Mid(_, _) => 1 case Low(_, _, _) => 0
  }

  function RootOf(p: nat, role: Role): nat {
    if role.Root? then p else role.root
  }

  /** A table of role `r` hangs somewhere below table `p` of role `rp`. */
  predicate Below(rp: Role, p: nat, r: Role) {
    match rp
    case Root => !r.Root? && r.root == p
    case Mid(root, i2) => r.Low? && r.root == root && r.i2 == i2
    case Low(_, _, _) => false
  }

  /** Which entry of the upper table leads there. */
  function BelowIndex(rp: Role, r: Role): nat {
    match rp
    case Root => if r.Root? then 0 else r.i2
    case Mid(_, _) => if r.Low? then r.i1 else 0
    case Low(_, _, _) => 0
  }

  lemma NoRootNoLeaf(s: Space, r: nat)
    requires TreeOk(s) && r !in s.role
    ensures !HasLeaf(s.flat, r)
  {
    forall k | k in s.flat ensures k.0 != r { assert FlatOk(s, k.0, k.1); }
  }

  /** An entry that is not valid has no table below it. */
  lemma NoChild(s: Space, t: nat, i: nat)
    requires TreeOk(s) && t in s.role && !s.role[t].Low? && i < ENTRIES && !s.tab[t][i].v
    ensures !HasRole(s.role, ChildRole(s, t, i))
  {
    assert BackOk(s, t);
    forall f | f in s.role ensures s.role[f] != ChildRole(s, t, i) { assert BackOk(s, f); }
  }

  lemma DescendedNext(role0: map<nat, Role>, free0: nat, role1: map<nat, Role>, free1: nat, role: map<nat, Role>,
      free: nat, root: nat, vpn: nat, level: nat, c: nat)
    requires 1 <= level <= 2 && Descended(role0, free0, role1, free1, root, vpn, level)
    requires c in role && role[c] == LevelRole(root, vpn, level - 1)
    requires if HasRole(role1, LevelRole(root, vpn, level - 1)) then role == role1 && free == free1
             else free + 1 == free1 && c !in role1 && role == role1[c := LevelRole(root, vpn, level - 1)]
    requires level == 2 && HasRole(role1, Low(root, Px2(vpn), Px1(vpn))) ==> HasRole(role1, Mid(root, Px2(vpn)))
    ensures Descended(role0, free0, role, free, root, vpn, level - 1)
  {
    var mid, low := Mid(root, Px2(vpn)), Low(root, Px2(vpn), Px1(vpn));
    if HasRole(role1, mid) {
      var f :| f in role1 && role1[f] == mid;
      assert role[f] == mid;
    }
    if HasRole(role, low) && level == 2 {
      var f :| f in role && role[f] == low;
      assert f in role1 && role1[f] == low;
    }
    if HasRole(role1, low) {
      var f :| f in role1 && role1[f] == low;
      assert role[f] == low;
    }
  }

  lemma LowHasMid(m: Mem, root: nat, vpn: nat)
    requires MemOk(m)
    ensures HasRole(m.s.role, Low(root, Px2(vpn), Px1(vpn))) ==> HasRole(m.s.role, Mid(root, Px2(vpn)))
  {
    Open(m);
    forall f | f in m.s.role && m.s.role[f] == Low(root, Px2(vpn), Px1(vpn))
        ensures HasRole(m.s.role, Mid(root, Px2(vpn))) {
      assert BackOk(m.s, f);
    }
  }

  /** A missing lowest-level table means the page is not mapped. */
  lemma NoLowNoLeaf(m: Mem, root: nat, vpn: nat)
    requires MemOk(m) && root in m.s.role && m.s.role[root] == Root && !HasRole(m.s.role, Low(root, Px2(vpn), Px1(vpn)))
    ensures (root, vpn) !in m.s.flat
  {
    Open(m);
    assert FlatOk(m.s, root, vpn);
    var e2 := m.s.tab[root][Px2(vpn)];
    assert EntryOk(m.s, root, Px2(vpn));
    if e2.v { assert EntryOk(m.s, e2.frame, Px1(vpn)); }
  }
}
