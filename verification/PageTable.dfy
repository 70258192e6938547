/**
 Three-level Sv39 page tables in physical memory (kernel/vm.c; section 4.4 of the
 RISC-V Privileged Architecture, version 20211203), and the flat map from virtual
 page numbers to leaf entries that they represent.
 */
module PageTable {

  const ENTRIES: nat := 512
  const MAXVPN: nat := 0x400_0000        // MAXVA / PGSIZE, 2^26
  const TABLEVPN: nat := 0x800_0000      // what three levels of 512 entries can index

  /** A page-table entry, decoded: the V, R, W, X, U bits and the page it points to. */
  datatype Pte = Pte(v: bool, r: bool, w: bool, x: bool, u: bool, frame: nat)

  const ZERO: Pte := Pte(false, false, false, false, false, 0)

  /** pte_points_to_pagetable */
  predicate IsTable(e: Pte) {
    e.v && !e.r && !e.w && !e.x
  }

  predicate IsLeaf(e: Pte) {
    e.v && (e.r || e.w || e.x)
  }

  function TablePte(f: nat): Pte {
    Pte(true, false, false, false, false, f)
  }

  // The three 9-bit indices PX(level, va) of a virtual page number.

  function Px2(vpn: nat): nat {
    vpn / 262144 % 512
  }

  function Px1(vpn: nat): nat {
    vpn / 512 % 512
  }

  function Px0(vpn: nat): nat {
    vpn % 512
  }

  function VpnOf(i2: nat, i1: nat, i0: nat): nat {
    i2 * 262144 + i1 * 512 + i0
  }

  lemma PxRoundTrip(vpn: nat)
    requires vpn < TABLEVPN
    ensures VpnOf(Px2(vpn), Px1(vpn), Px0(vpn)) == vpn
  {
  }

  lemma VpnRoundTrip(i2: nat, i1: nat, i0: nat)
    requires i2 < 512 && i1 < 512 && i0 < 512
    ensures VpnOf(i2, i1, i0) < TABLEVPN
    ensures Px2(VpnOf(i2, i1, i0)) == i2 && Px1(VpnOf(i2, i1, i0)) == i1 && Px0(VpnOf(i2, i1, i0)) == i0
  {
  }

  /** What a page-table page is for: the root of an address space, or the table below given indices of a root. */
  datatype Role = Root | Mid(root: nat, i2: nat) | Low(root: nat, i2: nat, i1: nat)

  type Key = (nat, nat)    // root page and virtual page number

  /**
   All page-table pages in memory (`tab`), the role of each, and the flat map that
   they represent together.
   */
  datatype Space = Space(tab: map<nat, seq<Pte>>, role: map<nat, Role>, flat: map<Key, Pte>)

  predicate IsNode(s: Space, f: nat) {
    f in s.role && f in s.tab && |s.tab[f]| == ENTRIES
  }

  /** Entry `i` of page `f` is empty, or points to the table of the right role, or is a leaf at the lowest level. */
  predicate EntryOk(s: Space, f: nat, i: nat)
    requires IsNode(s, f) && i < ENTRIES
  {
    var e := s.tab[f][i];
    e.v ==>
      match s.role[f]
      case Root => IsTable(e) && IsNode(s, e.frame) && s.role[e.frame] == Mid(f, i)
      case Mid(r, i2) => IsTable(e) && IsNode(s, e.frame) && s.role[e.frame] == Low(r, i2, i)
      case Low(_, _, _) => IsLeaf(e)
  }

  /** A table below a root is the one its root's entries lead to. */
  predicate BackOk(s: Space, f: nat)
    requires f in s.role
  {
    match s.role[f]
    case Root => true
    case Mid(r, i2) => RootEntry(s, r, i2, f)
    case Low(r, i2, i1) =>
      && i2 < ENTRIES && IsNode(s, r)
      && var m := s.tab[r][i2].frame;
         && RootEntry(s, r, i2, m) && IsNode(s, m) && s.role[m] == Mid(r, i2)
         && i1 < ENTRIES && s.tab[m][i1].v && s.tab[m][i1].frame == f
  }

  predicate RootEntry(s: Space, r: nat, i2: nat, m: nat) {
    IsNode(s, r) && s.role[r] == Root && i2 < ENTRIES && s.tab[r][i2].v && s.tab[r][i2].frame == m
  }

  /** walk without allocation: the entry that maps `vpn` in the tables of `r`. */
  function Find(s: Space, r: nat, vpn: nat): Pte {
    if !IsNode(s, r) || s.role[r] != Root then ZERO
    else
      var e2 := s.tab[r][Px2(vpn)];
      if !e2.v || !IsNode(s, e2.frame) then ZERO
      else
        var e1 := s.tab[e2.frame][Px1(vpn)];
        if !e1.v || !IsNode(s, e1.frame) then ZERO
        else s.tab[e1.frame][Px0(vpn)]
  }

  predicate FlatOk(s: Space, r: nat, vpn: nat) {
    ((r, vpn) in s.flat <==> vpn < TABLEVPN && Find(s, r, vpn).v)
    && ((r, vpn) in s.flat ==> s.flat[(r, vpn)] == Find(s, r, vpn))
  }

  ghost predicate TreeOk(s: Space) {
    && (forall f :: f in s.role <==> f in s.tab)
    && (forall f :: f in s.role ==> IsNode(s, f))
    && (forall f, i :: f in s.role && 0 <= i < ENTRIES ==> EntryOk(s, f, i))
    && (forall f :: f in s.role ==> BackOk(s, f))
    && (forall r, vpn :: 0 <= r && 0 <= vpn ==> FlatOk(s, r, vpn))
  }

  function ZeroTable(): (t: seq<Pte>)
    ensures |t| == ENTRIES && forall i :: 0 <= i < ENTRIES ==> t[i] == ZERO
  {
    seq(ENTRIES, _ => ZERO)
  }

  function ChildRole(s: Space, p: nat, i: nat): Role
    requires p in s.role && !s.role[p].Low?
  {
    match s.role[p]
    case Root => Mid(p, i)
    case Mid(r, i2) => Low(r, i2, i)
  }

  // ---------- the changes that vm.c makes to page-table memory ----------

  /** Hang a fresh zeroed table `f` below entry `i` of `p`. */
  function AddTable(s: Space, p: nat, i: nat, f: nat): Space
    requires IsNode(s, p) && !s.role[p].Low? && i < ENTRIES
  {
    s.(tab := s.tab[f := ZeroTable()][p := s.tab[p][i := TablePte(f)]], role := s.role[f := ChildRole(s, p, i)])
  }

  lemma AddTableOk(s: Space, p: nat, i: nat, f: nat)
    requires TreeOk(s) && p in s.role && !s.role[p].Low? && i < ENTRIES && !s.tab[p][i].v && f !in s.role
    ensures TreeOk(AddTable(s, p, i, f))
  {
    var t := AddTable(s, p, i, f);
    assert EntryOk(s, p, i);
    forall g, j | g in t.role && 0 <= j < ENTRIES ensures EntryOk(t, g, j) {
      if g != f { assert EntryOk(s, g, j); }
    }
    forall g | g in t.role ensures BackOk(t, g) {
      if g != f { assert BackOk(s, g); } else { assert BackOk(s, p); }
    }
    forall r, vpn | 0 <= r && 0 <= vpn ensures FlatOk(t, r, vpn) {
      assert FlatOk(s, r, vpn);
      AddTableFind(s, p, i, f, r, vpn);
    }
  }

  lemma AddTableFind(s: Space, p: nat, i: nat, f: nat, r: nat, vpn: nat)
    requires TreeOk(s) && p in s.role && !s.role[p].Low? && i < ENTRIES && !s.tab[p][i].v && f !in s.role
    ensures Find(AddTable(s, p, i, f), r, vpn).v == Find(s, r, vpn).v
    ensures Find(s, r, vpn).v ==> Find(AddTable(s, p, i, f), r, vpn) == Find(s, r, vpn)
  {
    var t := AddTable(s, p, i, f);
    if r in s.role && s.role[r] == Root {
      assert EntryOk(s, r, Px2(vpn));
      var e2 := s.tab[r][Px2(vpn)];
      if e2.v {
        assert EntryOk(s, e2.frame, Px1(vpn));
        var e1 := s.tab[e2.frame][Px1(vpn)];
        if e1.v { assert e1.frame != p && e1.frame != f; }
      }
    }
  }

  /** Write entry `i` of lowest-level table `f`. */
  function SetLeaf(s: Space, f: nat, i: nat, e: Pte): Space
    requires IsNode(s, f) && s.role[f].Low? && i < ENTRIES
  {
    var k := (s.role[f].root, VpnOf(s.role[f].i2, s.role[f].i1, i));
    Space(s.tab[f := s.tab[f][i := e]], s.role, if e.v then s.flat[k := e] else s.flat - {k})
  }

  lemma SetLeafOk(s: Space, f: nat, i: nat, e: Pte)
    requires TreeOk(s) && f in s.role && s.role[f].Low? && i < ENTRIES && (e.v ==> IsLeaf(e))
    ensures TreeOk(SetLeaf(s, f, i, e))
  {
    var t := SetLeaf(s, f, i, e);
    assert BackOk(s, f);
    forall g, j | g in t.role && 0 <= j < ENTRIES ensures EntryOk(t, g, j) { assert EntryOk(s, g, j); }
    forall g | g in t.role ensures BackOk(t, g) { assert BackOk(s, g); }
    forall r, vpn | 0 <= r && 0 <= vpn ensures FlatOk(t, r, vpn) {
      assert FlatOk(s, r, vpn);
      SetLeafFind(s, f, i, e, r, vpn);
    }
  }

  lemma SetLeafFind(s: Space, f: nat, i: nat, e: Pte, r: nat, vpn: nat)
    requires TreeOk(s) && f in s.role && s.role[f].Low? && i < ENTRIES
    ensures vpn < TABLEVPN ==>
              Find(SetLeaf(s, f, i, e), r, vpn) ==
              if r == s.role[f].root && vpn == VpnOf(s.role[f].i2, s.role[f].i1, i) then e else Find(s, r, vpn)
    ensures VpnOf(s.role[f].i2, s.role[f].i1, i) < TABLEVPN
  {
    assert BackOk(s, f);
    VpnRoundTrip(s.role[f].i2, s.role[f].i1, i);
    if vpn < TABLEVPN { PxRoundTrip(vpn); }
    if r in s.role && s.role[r] == Root {
      assert EntryOk(s, r, Px2(vpn));
      var e2 := s.tab[r][Px2(vpn)];
      if e2.v { assert EntryOk(s, e2.frame, Px1(vpn)); }
    }
  }

  predicate EmptyTable(t: seq<Pte>) {
    forall i :: 0 <= i < |t| ==> !t[i].v
  }

  /** Cut off and free the empty table below entry `i` of `p`. */
  function DropTable(s: Space, p: nat, i: nat): Space
    requires IsNode(s, p) && i < ENTRIES
  {
    var f := s.tab[p][i].frame;
    s.(tab := (s.tab - {f})[p := s.tab[p][i := ZERO]], role := s.role - {f})
  }

  lemma DropTableOk(s: Space, p: nat, i: nat)
    requires TreeOk(s) && p in s.role && !s.role[p].Low? && i < ENTRIES && s.tab[p][i].v
    requires s.tab[p][i].frame in s.tab && EmptyTable(s.tab[s.tab[p][i].frame])
    ensures s.tab[p][i].frame != p && s.tab[p][i].frame in s.role && s.role[s.tab[p][i].frame] == ChildRole(s, p, i)
    ensures TreeOk(DropTable(s, p, i))
  {
    var t, f := DropTable(s, p, i), s.tab[p][i].frame;
    assert EntryOk(s, p, i);
    forall g, j | g in t.role && 0 <= j < ENTRIES ensures EntryOk(t, g, j) {
      assert EntryOk(s, g, j);
      if s.tab[g][j].v && !s.role[g].Low? && s.tab[g][j].frame == f {
          assert g == p && j == i by { SameParent(s, p, i, g, j); } }
    }
    forall g | g in t.role ensures BackOk(t, g) {
      assert BackOk(s, g);
      DropTableBack(s, p, i, g);
    }
    forall r, vpn | 0 <= r && 0 <= vpn ensures FlatOk(t, r, vpn) {
      assert FlatOk(s, r, vpn);
      DropTableFind(s, p, i, r, vpn);
    }
  }

  /** Two entries that lead to the same table are the same entry. */
  lemma SameParent(s: Space, p: nat, i: nat, g: nat, j: nat)
    requires TreeOk(s) && p in s.role && g in s.role && !s.role[p].Low? && !s.role[g].Low? && i < ENTRIES && j < ENTRIES
    requires s.tab[p][i].v && s.tab[g][j].v && s.tab[p][i].frame == s.tab[g][j].frame
    ensures p == g && i == j
  {
    assert EntryOk(s, p, i) && EntryOk(s, g, j);
    assert BackOk(s, p) && BackOk(s, g);
    assert BackOk(s, s.tab[p][i].frame);
  }

  lemma DropTableBack(s: Space, p: nat, i: nat, g: nat)
    requires TreeOk(s) && p in s.role && !s.role[p].Low? && i < ENTRIES && s.tab[p][i].v
    requires s.tab[p][i].frame in s.tab && EmptyTable(s.tab[s.tab[p][i].frame]) && s.tab[p][i].frame != p
    requires g in s.role && g != s.tab[p][i].frame
    ensures BackOk(DropTable(s, p, i), g)
  {
    var t, f := DropTable(s, p, i), s.tab[p][i].frame;
    assert BackOk(s, g) && EntryOk(s, p, i) && BackOk(s, p);
  }

  lemma DropTableFind(s: Space, p: nat, i: nat, r: nat, vpn: nat)
    requires TreeOk(s) && p in s.role && !s.role[p].Low? && i < ENTRIES && s.tab[p][i].v
    requires s.tab[p][i].frame in s.tab && EmptyTable(s.tab[s.tab[p][i].frame]) && s.tab[p][i].frame != p
    ensures Find(DropTable(s, p, i), r, vpn).v == Find(s, r, vpn).v
    ensures Find(s, r, vpn).v ==> Find(DropTable(s, p, i), r, vpn) == Find(s, r, vpn)
  {
    var t, f := DropTable(s, p, i), s.tab[p][i].frame;
    assert EntryOk(s, p, i);
    if r in s.role && s.role[r] == Root {
      assert EntryOk(s, r, Px2(vpn));
      var e2 := s.tab[r][Px2(vpn)];
      if e2.v {
        assert EntryOk(s, e2.frame, Px1(vpn));
        var e1 := s.tab[e2.frame][Px1(vpn)];
        if e2.frame == f { assert !e1.v; }
        else if e1.v && e1.frame == f { assert !s.tab[f][Px0(vpn)].v; }
      }
    }
  }

  /** uvmcreate: a zeroed root. */
  function AddRoot(s: Space, f: nat): Space {
    s.(tab := s.tab[f := ZeroTable()], role := s.role[f := Root])
  }

  lemma AddRootOk(s: Space, f: nat)
    requires TreeOk(s) && f !in s.role
    ensures TreeOk(AddRoot(s, f))
  {
    var t := AddRoot(s, f);
    forall g, j | g in t.role && 0 <= j < ENTRIES ensures EntryOk(t, g, j) {
      if g != f { assert EntryOk(s, g, j); }
    }
    forall g | g in t.role ensures BackOk(t, g) {
      if g != f { assert BackOk(s, g); }
    }
    forall r, vpn | 0 <= r && 0 <= vpn ensures FlatOk(t, r, vpn) {
      assert FlatOk(s, r, vpn);
      if r in s.role && s.role[r] == Root {
        assert EntryOk(s, r, Px2(vpn));
        var e2 := s.tab[r][Px2(vpn)];
        if e2.v { assert EntryOk(s, e2.frame, Px1(vpn)); }
      }
    }
  }

  /** The end of freewalk: an empty root goes. */
  function DropRoot(s: Space, f: nat): Space {
    s.(tab := s.tab - {f}, role := s.role - {f})
  }

  lemma DropRootOk(s: Space, f: nat)
    requires TreeOk(s) && f in s.role && s.role[f] == Root && EmptyTable(s.tab[f])
    ensures TreeOk(DropRoot(s, f))
  {
    var t := DropRoot(s, f);
    forall g, j | g in t.role && 0 <= j < ENTRIES ensures EntryOk(t, g, j) { assert EntryOk(s, g, j); }
    forall g | g in t.role ensures BackOk(t, g) { assert BackOk(s, g); }
    forall r, vpn | 0 <= r && 0 <= vpn ensures FlatOk(t, r, vpn) {
      assert FlatOk(s, r, vpn);
      if r in s.role && s.role[r] == Root {
        assert EntryOk(s, r, Px2(vpn));
        var e2 := s.tab[r][Px2(vpn)];
        if e2.v { assert EntryOk(s, e2.frame, Px1(vpn)); }
      }
    }
  }
}
