/**
 User memory in kernel/vm.c: growing, shrinking and copying the heap of an address
 space, and what the pages of an address space hold.
 */
module VmUser {
  import opened Common
  import opened Gates
  import opened Kalloc
  import opened PageTable
  import opened VmMem
  import opened Vm

  /** PGROUNDUP(sz) / PGSIZE */
  function PgUp(sz: nat): nat {
    (sz + PGSIZE - 1) / PGSIZE
  }

  /** The least number of pages that holds `sz` bytes. */
  lemma PgUpLeast(sz: nat, n: nat)
    ensures PgUp(sz) <= n <==> sz <= n * PGSIZE
  {
  }

  const USER_RW: Pte := Pte(true, true, true, false, true, 0)    // PTE_R|PTE_W|PTE_U

  /** What a mapped page holds. */
  ghost function Contents(flat: map<Key, Pte>, data: map<nat, Page>, k: Key): Page {
    if k in flat && flat[k].frame in data then data[flat[k].frame] else []
  }

  /** The pages that these mappings own hold what they held. */
  ghost predicate Keeps(flat: map<Key, Pte>, data0: map<nat, Page>, data: map<nat, Page>) {
    forall k :: k in flat && Counted(k) ==> Contents(flat, data, k) == Contents(flat, data0, k)
  }

  /** A mapping that is not in `flat0` shares its page with no other. */
  ghost predicate Private(flat0: map<Key, Pte>, flat: map<Key, Pte>) {
    forall k, l :: k in flat && k !in flat0 && l in flat && Counted(k) && Counted(l) && k != l ==>
        flat[k].frame != flat[l].frame
  }

  lemma PrivateBoth(flat0: map<Key, Pte>, flat1: map<Key, Pte>, flat: map<Key, Pte>)
    requires Private(flat0, flat1) && Private(flat1, flat)
    requires forall k :: k in flat1 ==> k in flat && flat[k] == flat1[k]
    ensures Private(flat0, flat)
  {
  }

  /** Tables are only added, and only tables of `root` over pages [lo, hi). */
  ghost predicate TablesFor(role0: map<nat, Role>, role: map<nat, Role>, root: nat, lo: nat, hi: nat) {
    && (forall f :: f in role0 ==> f in role && role[f] == role0[f])
    && (forall f :: f in role && f !in role0 ==> !role[f].Root? && role[f].root == root && Overlaps(role[f], lo, hi))
  }

  lemma GrowsTables(role0: map<nat, Role>, role1: map<nat, Role>, role: map<nat, Role>, root: nat, vpn: nat, lo: nat,
      hi: nat)
    requires TablesFor(role0, role1, root, lo, hi) && GrowsFor(role1, role, root, vpn) && lo <= vpn < hi && vpn < MAXVPN
    ensures TablesFor(role0, role, root, lo, hi)
  {
    BlockOf(vpn);
  }

  // ---------- how many tables a set of pages needs ----------

  predicate IsPage(v: nat) {
    true
  }

  function Range(lo: nat, hi: nat): set<nat> {
    set v: nat | lo <= v < hi && IsPage(v)
  }

  /** The tables of `root` on the way to these pages. */
  function Path(root: nat, pages: set<nat>): set<Role> {
    (set v | v in pages :: Mid(root, Px2(v))) + (set v | v in pages :: Low(root, Px2(v), Px1(v)))
  }

  /** Those of them that are not there. */
  ghost function NewTables(role: map<nat, Role>, root: nat, pages: set<nat>): set<Role> {
    AbsentRoles(role, Path(root, pages))
  }

  /** Exactly the tables on the way to these pages have been added, where they were missing. */
  ghost predicate RolesGrew(role0: map<nat, Role>, role: map<nat, Role>, root: nat, pages: set<nat>) {
    forall r: Role :: !r.Root? ==> (HasRole(role, r) <==> HasRole(role0, r) || r in Path(root, pages))
  }

  lemma PathAdd(root: nat, pages: set<nat>, v: nat)
    ensures Path(root, pages + {v}) == Path(root, pages) + {Mid(root, Px2(v)), Low(root, Px2(v), Px1(v))}
  {
  }

  lemma PathJoin(root: nat, a: set<nat>, b: set<nat>)
    ensures Path(root, a + b) == Path(root, a) + Path(root, b)
  {
  }

  lemma RolesStart(role: map<nat, Role>, root: nat)
    ensures RolesGrew(role, role, root, {}) && NewTables(role, root, {}) == {}
  {
    assert Path(root, {}) == {};
  }

  /** Mapping one more page adds the tables that were missing on its way. */
  lemma RolesNext(role0: map<nat, Role>, role1: map<nat, Role>, role: map<nat, Role>, root: nat, pages: set<nat>,
      v: nat)
    requires RolesGrew(role0, role1, root, pages) && GrowsFor(role1, role, root, v) && Missing(role, root, v) == 0
    ensures RolesGrew(role0, role, root, pages + {v})
    ensures |NewTables(role0, root, pages + {v})| == |NewTables(role0, root, pages)| + Missing(role1, root, v)
  {
    PathAdd(root, pages, v);
    forall r: Role | !r.Root? ensures HasRole(role, r) <==> HasRole(role0, r) || r in Path(root, pages + {v}) {
      RoleStays(role1, role, root, v, r);
    }
    TablesAdd(role0, role1, root, pages, v);
  }

  lemma TablesAdd(role0: map<nat, Role>, role1: map<nat, Role>, root: nat, pages: set<nat>, v: nat)
    requires RolesGrew(role0, role1, root, pages)
    ensures |NewTables(role0, root, pages + {v})| == |NewTables(role0, root, pages)| + Missing(role1, root, v)
  {
    var mid, low := Mid(root, Px2(v)), Low(root, Px2(v), Px1(v));
    PathAdd(root, pages, v);
    AbsentAdd(role0, role1, Path(root, pages), mid, low);
  }

  /** The roles of a set that no table has. */
  ghost function AbsentRoles(role: map<nat, Role>, path: set<Role>): set<Role> {
    set r | r in path && !HasRole(role, r)
  }

  lemma AbsentAdd(role0: map<nat, Role>, role1: map<nat, Role>, path: set<Role>, mid: Role, low: Role)
    requires mid != low && (HasRole(role1, mid) <==> HasRole(role0, mid) || mid in path)
    requires HasRole(role1, low) <==> HasRole(role0, low) || low in path
    ensures |AbsentRoles(role0, path + {mid, low})| == |AbsentRoles(role0, path)|
            + (if HasRole(role1, mid) then 0 else 1) + if HasRole(role1, low) then 0 else 1
  {
    AbsentOne(role0, path, mid);
    AbsentOne(role0, path + {mid}, low);
    assert path + {mid, low} == path + {mid} + {low};
  }

  lemma AbsentOne(role: map<nat, Role>, path: set<Role>, r: Role)
    ensures |AbsentRoles(role, path + {r})| == |AbsentRoles(role, path)| + if HasRole(role, r)
            || r in path then 0 else 1
  {
    var now := AbsentRoles(role, path);
    assert AbsentRoles(role, path + {r}) == if HasRole(role, r) || r in path then now else now + {r};
  }

  lemma RoleStays(role1: map<nat, Role>, role: map<nat, Role>, root: nat, v: nat, r: Role)
    requires GrowsFor(role1, role, root, v) && Missing(role, root, v) == 0 && !r.Root?
    ensures HasRole(role, r) <==> HasRole(role1, r) || r == Mid(root, Px2(v)) || r == Low(root, Px2(v), Px1(v))
  {
    if HasRole(role1, r) {
      var f :| f in role1 && role1[f] == r;
      assert role[f] == r;
    }
  }

  /** Two sets of pages one after the other need what they need together. */
  lemma TablesBoth(role0: map<nat, Role>, role1: map<nat, Role>, root: nat, a: set<nat>, b: set<nat>)
    requires RolesGrew(role0, role1, root, a)
    ensures |NewTables(role0, root, a + b)| == |NewTables(role0, root, a)| + |NewTables(role1, root, b)|
  {
    PathJoin(root, a, b);
    var x, y := NewTables(role0, root, a), NewTables(role1, root, b);
    assert NewTables(role0, root, a + b) == x + y && x !! y;
  }

  lemma FewerTables(role: map<nat, Role>, root: nat, a: set<nat>, b: set<nat>)
    requires a <= b
    ensures |NewTables(role, root, a)| <= |NewTables(role, root, b)|
  {
    assert a + b == b;
    PathJoin(root, a, b);
    SubsetSize(NewTables(role, root, a), NewTables(role, root, b));
  }

  /** The pages of a space that are mapped. */
  ghost function Mapped(flat: map<Key, Pte>, root: nat, lo: nat, hi: nat): set<nat> {
    set v | lo <= v < hi && (root, v) in flat
  }

  /** A page for each of these and the missing tables on their way. */
  ghost function Cost(role: map<nat, Role>, root: nat, pages: set<nat>): nat {
    |pages| + |NewTables(role, root, pages)|
  }

  /** `ok` says whether there is memory for it (unfolded only at a Gate). */
  ghost predicate Afford(ok: bool, free: nat, role: map<nat, Role>, root: nat, pages: set<nat>) {
    forall z: nat {:trigger Gate(z)} :: Gate(z) ==> (ok <==> free >= Cost(role, root, pages))
  }

  lemma CostNext(role0: map<nat, Role>, role1: map<nat, Role>, role: map<nat, Role>, root: nat, pages: set<nat>, v: nat)
    requires RolesGrew(role0, role1, root, pages) && GrowsFor(role1, role, root, v) && Missing(role, root, v) == 0
    requires v !in pages
    ensures RolesGrew(role0, role, root, pages + {v})
    ensures Cost(role0, root, pages + {v}) == Cost(role0, root, pages) + 1 + Missing(role1, root, v)
  {
    RolesNext(role0, role1, role, root, pages, v);
  }

  /** What the next page needs is part of what all pages need. */
  lemma CostLeft(role0: map<nat, Role>, role1: map<nat, Role>, root: nat, done: set<nat>, v: nat, all: set<nat>)
    requires RolesGrew(role0, role1, root, done) && v !in done && done + {v} <= all
    ensures Cost(role0, root, done) + 1 + Missing(role1, root, v) <= Cost(role0, root, all)
  {
    TablesLeft(role0, role1, root, done, v, all);
    SubsetSize(done + {v}, all);
  }

  lemma TablesLeft(role0: map<nat, Role>, role1: map<nat, Role>, root: nat, done: set<nat>, v: nat, all: set<nat>)
    requires RolesGrew(role0, role1, root, done) && done + {v} <= all
    ensures |NewTables(role0, root, done)| + Missing(role1, root, v) <= |NewTables(role0, root, all)|
  {
    TablesAdd(role0, role1, root, done, v);
    FewerTables(role0, root, done + {v}, all);
  }

  /** The page of an owning mapping is in use. */
  lemma Live(m: Mem, k: Key)
    requires MemOk(m) && k in m.s.flat && Counted(k)
    ensures m.s.flat[k].frame in m.fr.refcnt && m.fr.refcnt[m.s.flat[k].frame] > 0
  {
    Open(m);
    assert k in Users(m.s.flat, m.s.flat[k].frame);
    assert OwnerOk(m, m.s.flat[k].frame);
  }

  /** Every page that was in use holds what it held. */
  ghost predicate Survive(fr0: Frames, data0: map<nat, Page>, data: map<nat, Page>) {
    forall f :: f in fr0.refcnt && fr0.refcnt[f] > 0 ==> f in data0 && f in data && data[f] == data0[f]
  }

  lemma SurviveKeeps(m0: Mem, data0: map<nat, Page>, data: map<nat, Page>)
    requires MemOk(m0) && Survive(m0.fr, data0, data)
    ensures Keeps(m0.s.flat, data0, data)
  {
    forall k | k in m0.s.flat && Counted(k) ensures Contents(m0.s.flat, data, k) == Contents(m0.s.flat, data0, k) {
      Live(m0, k);
    }
  }

  lemma FreshPrivate(flat: map<Key, Pte>, k: Key, e: Pte)
    requires Users(flat, e.frame) == {} && k !in flat
    ensures Private(flat, flat[k := e])
  {
    forall l | l in flat && Counted(l) ensures flat[l].frame != e.frame {
      assert l !in Users(flat, e.frame);
    }
  }

  lemma ShrinksKeeps(fr0: Frames, data0: map<nat, Page>, m: Mem, data: map<nat, Page>)
    requires MemOk(m) && Shrinks(fr0, data0, m.fr, data) && forall f :: f in m.fr.refcnt ==> f in data
    ensures Keeps(m.s.flat, data0, data)
  {
    forall k | k in m.s.flat && Counted(k) ensures Contents(m.s.flat, data, k) == Contents(m.s.flat, data0, k) {
      Live(m, k);
    }
  }

  /** One new page, with given permissions and contents, that nothing else uses. */
  ghost predicate NewPage(flat0: map<Key, Pte>, flat: map<Key, Pte>, data: map<nat, Page>, k: Key, perm: Pte,
      page: Page) {
    && k in flat && flat == flat0[k := flat[k]]
    && flat[k] == perm.(frame := flat[k].frame)
    && Contents(flat, data, k) == page
    && Private(flat0, flat)
  }

  /** kalloc, fill the page and mappages; the page is given back when there is no memory for a table. */
  method MapNew(m: Memory, root: nat, vpn: nat, perm: Pte, page: Page) returns (ok: bool)
    requires m.Valid() && m.IsRoot(root) && vpn < TRAPVPN && (root, vpn) !in m.flat && IsLeaf(perm) && |page| == PGSIZE
    modifies m
    ensures m.Valid() && m.held == old(m.held) && GrowsFor(old(m.role), m.role, root, vpn)
    ensures Keeps(old(m.flat), old(m.data), m.data)
    ensures ok ==> NewPage(old(m.flat), m.flat, m.data, (root, vpn), perm, page)
    ensures !ok ==> m.flat == old(m.flat)
    ensures ok <==> |old(m.fr.free)| >= 1 + Missing(old(m.role), root, vpn)
    ensures ok ==>
              |m.fr.free| + 1 + Missing(old(m.role), root, vpn) == |old(m.fr.free)| && Missing(m.role, root, vpn) == 0
  {
    ghost var m0 := m.M();
    var f;
    ok, f := m.Kalloc();
    if !ok {
      return;
    }
    ok := MapHeld(m, root, vpn, perm, page, f);
    if ok {
      FreshPrivate(m0.s.flat, (root, vpn), perm.(frame := f));
    }
    SurviveKeeps(m0, old(m.data), m.data);
  }

  /** Fill a fresh page and map it, or give it back. */
  method MapHeld(m: Memory, root: nat, vpn: nat, perm: Pte, page: Page, f: nat) returns (ok: bool)
    requires m.Valid() && m.IsRoot(root) && vpn < TRAPVPN && (root, vpn) !in m.flat && IsLeaf(perm) && |page| == PGSIZE
    requires m.held[f] > 0 && Fresh(m.M(), f)
    modifies m
    ensures m.Valid() && m.held == old(m.held) - multiset{f} && GrowsFor(old(m.role), m.role, root, vpn)
    ensures ok ==>
              m.flat == old(m.flat)[(root, vpn) := perm.(frame := f)] && f in m.data && m.data[f] == page
    ensures !ok ==> m.flat == old(m.flat)
    ensures ok <==> |old(m.fr.free)| >= Missing(old(m.role), root, vpn)
    ensures ok ==> |m.fr.free| + Missing(old(m.role), root, vpn) == |old(m.fr.free)| && Missing(m.role, root, vpn) == 0
    ensures forall g :: g in old(m.fr.refcnt) && old(m.fr.refcnt[g]) > 0 && g != f && g in old(m.data) ==>
            g in m.data && m.data[g] == old(m.data)[g]
  {
    m.data := m.data[f := page];
    ok := m.MapPage(root, vpn, perm.(frame := f));
    if !ok {
      m.Kfree(f);
    }
  }

  /** walk without allocation, and the entry it leads to. */
  method Lookup(m: Memory, root: nat, vpn: nat) returns (e: Pte)
    requires m.Valid() && m.IsRoot(root) && vpn < MAXVPN
    modifies m
    ensures m.Valid() && m.M() == old(m.M()) && m.data == old(m.data)
    ensures e.v <==> (root, vpn) in m.flat
    ensures e.v ==> e == m.flat[(root, vpn)]
  {
    var ok, t := m.Walk(root, vpn, false);
    if !ok {
      return ZERO;
    }
    PxRoundTrip(vpn);
    FlatAt(m.S(), t, Px0(vpn)) by { Open(m.M()); }
    e := m.tab[t][Px0(vpn)];
  }

  /** uvmdealloc: the pages from PGROUNDUP(newsz) up to PGROUNDUP(oldsz) go. */
  method Uvmdealloc(m: Memory, root: nat, oldsz: nat, newsz: nat) returns (r: nat)
    requires m.Valid() && m.IsRoot(root) && PgUp(oldsz) <= TRAPVPN
    modifies m
    ensures m.Valid() && m.role == old(m.role) && m.held == old(m.held)
    ensures r == if newsz < oldsz then newsz else oldsz
    ensures m.flat == if newsz < oldsz then Without(old(m.flat), root, PgUp(newsz), PgUp(oldsz)) else old(m.flat)
    ensures Keeps(m.flat, old(m.data), m.data)
  {
    if newsz >= oldsz {
      return oldsz;
    }
    if PgUp(newsz) < PgUp(oldsz) {
      m.Uvmunmap(root, PgUp(newsz), PgUp(oldsz) - PgUp(newsz), true);
      ShrinksKeeps(old(m.fr), old(m.data), m.M(), m.data);
    }
    r := newsz;
  }

  /** Pages [lo, hi) of `root` are new, zeroed and its own; everything else is as before. */
  ghost predicate GrewZero(flat0: map<Key, Pte>, flat: map<Key, Pte>, data: map<nat, Page>, root: nat, lo: nat,
      hi: nat, perm: Pte) {
    && (forall k :: k in flat <==> k in flat0 || (k.0 == root && lo <= k.1 < hi))
    && (forall k :: k in flat0 ==> flat[k] == flat0[k])
    && (forall v :: lo <= v < hi ==>
        flat[(root, v)] == perm.(frame := flat[(root, v)].frame) && Contents(flat, data, (root, v)) == Filled(0))
    && Private(flat0, flat)
  }

  ghost predicate NoLeaves(flat: map<Key, Pte>, root: nat, lo: nat, hi: nat) {
    forall v :: lo <= v < hi ==> (root, v) !in flat
  }

  lemma GrewZeroNext(flat0: map<Key, Pte>, flat1: map<Key, Pte>, data1: map<nat, Page>, flat: map<Key, Pte>,
      data: map<nat, Page>,
                     root: nat, lo: nat, a: nat, perm: Pte)
    requires GrewZero(flat0, flat1, data1, root, lo, a, perm) && lo <= a < TRAPVPN && (root, a) !in flat1
    requires NewPage(flat1, flat, data, (root, a), perm, Filled(0)) && Keeps(flat1, data1, data)
    ensures GrewZero(flat0, flat, data, root, lo, a + 1, perm)
  {
    forall v | lo <= v < a + 1
      ensures flat[(root, v)] == perm.(frame := flat[(root, v)].frame) && Contents(flat, data, (root, v)) == Filled(0)
    {
      if v < a {
        assert (root, v) in flat1 && Counted((root, v));
        assert Contents(flat1, data, (root, v)) == Contents(flat1, data1, (root, v));
      }
    }
  }

  /** Unmapping what was added brings the old translations back. */
  lemma GrewZeroUndo(flat0: map<Key, Pte>, flat1: map<Key, Pte>, data1: map<nat, Page>, root: nat, lo: nat, a: nat,
      perm: Pte)
    requires GrewZero(flat0, flat1, data1, root, lo, a, perm) && NoLeaves(flat0, root, lo, a)
    ensures Without(flat1, root, lo, a) == flat0
  {
    var w := Without(flat1, root, lo, a);
    assert forall k :: k in w <==> k in flat0;
  }

  /** A page was mapped, exactly when there was memory for it and the missing tables. */
  ghost predicate Took(role0: map<nat, Role>, free0: nat, role: map<nat, Role>, free: nat, root: nat, v: nat,
      ok: bool) {
    && (ok <==> free0 >= 1 + Missing(role0, root, v))
    && (ok ==>
          && free + 1 + Missing(role0, root, v) == free0 && GrowsFor(role0, role, root, v)
          && Missing(role, root, v) == 0)
  }

  /** How much memory mapping these pages has taken (unfolded only at a Gate). */
  ghost predicate Spent(role0: map<nat, Role>, free0: nat, role: map<nat, Role>, free: nat, root: nat,
      pages: set<nat>) {
    forall z: nat {:trigger Gate(z)} :: Gate(z) ==>
      RolesGrew(role0, role, root, pages) && free + Cost(role0, root, pages) == free0
  }

  lemma SpentIs(role0: map<nat, Role>, free0: nat, role: map<nat, Role>, free: nat, root: nat, pages: set<nat>)
    requires Spent(role0, free0, role, free, root, pages)
    ensures RolesGrew(role0, role, root, pages) && free + Cost(role0, root, pages) == free0
  {
    assert Gate(0);
  }

  lemma SpentStart(role: map<nat, Role>, free: nat, root: nat)
    ensures Spent(role, free, role, free, root, {})
  {
    RolesStart(role, root);
  }

  lemma SpentNext(role0: map<nat, Role>, free0: nat, role1: map<nat, Role>, free1: nat, role: map<nat, Role>, free: nat,
      root: nat, done: set<nat>, v: nat, ok: bool, all: set<nat>)
    requires Spent(role0, free0, role1, free1, root, done) && Took(role1, free1, role, free, root, v, ok)
    requires v !in done && done + {v} <= all
    ensures ok ==> Spent(role0, free0, role, free, root, done + {v})
    ensures !ok ==> Afford(false, free0, role0, root, all)
  {
    SpentIs(role0, free0, role1, free1, root, done);
    if ok {
      CostNext(role0, role1, role, root, done, v);
    } else {
      CostLeft(role0, role1, root, done, v, all);
      assert Gate(0);
    }
  }

  /** Those of `all` that are below `i` (unfolded only at a Gate). */
  ghost predicate UpTo(done: set<nat>, all: set<nat>, i: nat) {
    forall z: nat {:trigger Gate(z)} :: Gate(z) ==> forall v :: v in done <==> v in all && v < i
  }

  lemma UpToStart(all: set<nat>, lo: nat)
    requires forall v :: v in all ==> lo <= v
    ensures UpTo({}, all, lo)
  {
  }

  lemma UpToNext(done: set<nat>, all: set<nat>, i: nat) returns (next: set<nat>)
    requires UpTo(done, all, i)
    ensures i !in done && (i in all ==> done + {i} <= all)
    ensures next == (if i in all then done + {i} else done) && UpTo(next, all, i + 1)
  {
    assert Gate(0);
    next := if i in all then done + {i} else done;
  }

  lemma SpentAll(role0: map<nat, Role>, free0: nat, role: map<nat, Role>, free: nat, root: nat, done: set<nat>,
      all: set<nat>, hi: nat)
    requires Spent(role0, free0, role, free, root, done) && UpTo(done, all, hi) && forall v :: v in all ==> v < hi
    ensures Spent(role0, free0, role, free, root, all) && Afford(true, free0, role0, root, all)
  {
    assert Gate(0);
    assert done == all;
  }

  /** One round of uvmalloc's loop. */
  method GrowOne(m: Memory, root: nat, lo: nat, a: nat, hi: nat, perm: Pte, ghost flat0: map<Key, Pte>,
      ghost data0: map<nat, Page>, ghost role0: map<nat, Role>, ghost free0: nat, ghost done: set<nat>,
          ghost all: set<nat>)
    returns (ok: bool)
    requires m.Valid() && m.IsRoot(root) && lo <= a < hi <= TRAPVPN && IsLeaf(perm) && NoLeaves(flat0, root, lo, hi)
    requires GrewZero(flat0, m.flat, m.data, root, lo, a, perm) && TablesFor(role0, m.role, root, lo, hi)
             && Keeps(flat0, data0, m.data)
    requires Spent(role0, free0, m.role, |m.fr.free|, root, done) && a !in done && done + {a} <= all
    modifies m
    ensures m.Valid() && m.IsRoot(root) && m.held == old(m.held)
    ensures TablesFor(role0, m.role, root, lo, hi) && Keeps(flat0, data0, m.data)
    ensures ok ==> GrewZero(flat0, m.flat, m.data, root, lo, a + 1, perm)
    ensures ok ==> Spent(role0, free0, m.role, |m.fr.free|, root, done + {a})
    ensures !ok ==> m.flat == flat0 && Afford(false, free0, role0, root, all)
  {
    ghost var flat1, data1, role1, free1 := m.flat, m.data, m.role, |m.fr.free|;
    ok := MapNew(m, root, a, perm, Filled(0));
    GrowsTables(role0, role1, m.role, root, a, lo, hi);
    KeepsBoth(flat0, flat1, data0, data1, m.data);
    SpentNext(role0, free0, role1, free1, m.role, |m.fr.free|, root, done, a, ok, all);
    if ok {
      GrewZeroNext(flat0, flat1, data1, m.flat, m.data, root, lo, a, perm);
    } else {
      GrewZeroUndo(flat0, flat1, data1, root, lo, a, perm);
      GrowFailed(m, root, lo, a, flat0, data0);
    }
  }

  /** uvmalloc's error path. */
  method GrowFailed(m: Memory, root: nat, lo: nat, a: nat, ghost flat0: map<Key, Pte>, ghost data0: map<nat, Page>)
    requires m.Valid() && m.IsRoot(root) && lo <= a <= TRAPVPN
    requires Without(m.flat, root, lo, a) == flat0 && Keeps(flat0, data0, m.data)
    modifies m
    ensures m.Valid() && m.role == old(m.role) && m.held == old(m.held) && m.flat == flat0
            && Keeps(flat0, data0, m.data)
  {
    var r := Uvmdealloc(m, root, a * PGSIZE, lo * PGSIZE);
    KeepsBoth(flat0, m.flat, data0, old(m.data), m.data);
  }

  lemma KeepsBoth(flat0: map<Key, Pte>, flat1: map<Key, Pte>, data0: map<nat, Page>, data1: map<nat, Page>,
      data: map<nat, Page>)
    requires Keeps(flat0, data0, data1) && Keeps(flat1, data1, data)
    requires forall k :: k in flat0 ==> k in flat1 && flat1[k] == flat0[k]
    ensures Keeps(flat0, data0, data)
  {
    forall k | k in flat0 && Counted(k) ensures Contents(flat0, data, k) == Contents(flat0, data0, k) {
      assert Contents(flat1, data, k) == Contents(flat1, data1, k);
    }
  }

  /**
   uvmalloc: the pages between the two sizes are added zero-filled, or none is.  It
   fails exactly when there is no memory for them and the missing tables.
   */
  method Uvmalloc(m: Memory, root: nat, oldsz: nat, newsz: nat, perm: Pte) returns (r: nat)
    requires m.Valid() && m.IsRoot(root) && PgUp(newsz) <= TRAPVPN && IsLeaf(perm)
    requires NoLeaves(m.flat, root, PgUp(oldsz), PgUp(newsz))
    modifies m
    ensures m.Valid() && m.IsRoot(root) && m.held == old(m.held)
            && TablesFor(old(m.role), m.role, root, PgUp(oldsz), PgUp(newsz))
    ensures Keeps(old(m.flat), old(m.data), m.data)
    ensures newsz < oldsz ==> r == oldsz && m.flat == old(m.flat)
    ensures newsz >= oldsz ==> r == newsz || r == 0
    ensures newsz >= oldsz && r == newsz ==> GrewZero(old(m.flat), m.flat, m.data, root, PgUp(oldsz), PgUp(newsz), perm)
    ensures newsz >= oldsz && r != newsz ==> m.flat == old(m.flat)
    ensures newsz >= oldsz && newsz > 0 ==>
              Afford(r == newsz, |old(m.fr.free)|, old(m.role), root, Range(PgUp(oldsz), PgUp(newsz)))
  {
    if newsz < oldsz {
      return oldsz;
    }
    var lo := PgUp(oldsz);
    var a := lo;
    ghost var role0, free0, all, done: set<nat> := m.role, |m.fr.free|, Range(lo, PgUp(newsz)), {};
    SpentStart(m.role, |m.fr.free|, root);
    UpToStart(all, lo);
    while a * PGSIZE < newsz
      invariant lo <= a <= PgUp(newsz) && m.Valid() && m.IsRoot(root) && m.held == old(m.held)
      invariant GrewZero(old(m.flat), m.flat, m.data, root, lo, a, perm)
      invariant TablesFor(old(m.role), m.role, root, lo, PgUp(newsz)) && Keeps(old(m.flat), old(m.data), m.data)
      invariant Spent(role0, free0, m.role, |m.fr.free|, root, done) && UpTo(done, all, a)
      decreases PgUp(newsz) - a
    {
      ghost var next := UpToNext(done, all, a);
      var ok := GrowOne(m, root, lo, a, PgUp(newsz), perm, old(m.flat), old(m.data), old(m.role), free0, done, all);
      if !ok {
        return 0;
      }
      done := next;
      a := a + 1;
    }
    SpentAll(role0, free0, m.role, |m.fr.free|, root, done, all, a);
    r := newsz;
  }

  /** Below page `n`, address space `to` has a copy of each page of `from`, and nothing else changed. */
  ghost predicate Copied(flat0: map<Key, Pte>, data0: map<nat, Page>, flat: map<Key, Pte>, data: map<nat, Page>,
                         from: nat, to: nat, n: nat) {
    && (forall k :: k in flat <==> k in flat0 || (k.0 == to && k.1 < n && (from, k.1) in flat0))
    && (forall k :: k in flat0 ==> flat[k] == flat0[k])
    && (forall v: nat :: v < n && (from, v) in flat0 ==> CopyAt(flat0, data0, flat, data, from, to, v))
    && Private(flat0, flat)
  }

  /** The same contents and permissions, in a page of its own. */
  ghost predicate CopyAt(flat0: map<Key, Pte>, data0: map<nat, Page>, flat: map<Key, Pte>, data: map<nat, Page>,
                         from: nat, to: nat, v: nat) {
    && (from, v) in flat0 && (to, v) in flat
    && flat[(to, v)] == flat0[(from, v)].(frame := flat[(to, v)].frame)
    && Contents(flat, data, (to, v)) == Contents(flat0, data0, (from, v))
  }

  lemma CopyStays(flat0: map<Key, Pte>, data0: map<nat, Page>, flat1: map<Key, Pte>, data1: map<nat, Page>,
                  flat: map<Key, Pte>, data: map<nat, Page>, from: nat, to: nat, v: nat)
    requires CopyAt(flat0, data0, flat1, data1, from, to, v) && Keeps(flat1, data1, data) && v < TRAPVPN
    requires (to, v) in flat && flat[(to, v)] == flat1[(to, v)]
    ensures CopyAt(flat0, data0, flat, data, from, to, v)
  {
    assert Contents(flat1, data, (to, v)) == Contents(flat1, data1, (to, v));
  }

  lemma CopiedNext(flat0: map<Key, Pte>, data0: map<nat, Page>, flat1: map<Key, Pte>, data1: map<nat, Page>,
                   flat: map<Key, Pte>, data: map<nat, Page>, from: nat, to: nat, i: nat)
    requires Copied(flat0, data0, flat1, data1, from, to, i) && Keeps(flat1, data1, data) && i < TRAPVPN
             && (from, i) in flat0
    requires from != to && (to, i) !in flat1 && Keeps(flat0, data0, data1)
    requires NewPage(flat1, flat, data, (to, i), flat0[(from, i)], Contents(flat0, data0, (from, i)))
    ensures Copied(flat0, data0, flat, data, from, to, i + 1)
  {
    PrivateBoth(flat0, flat1, flat);
    forall v: nat | v < i + 1 && (from, v) in flat0 ensures CopyAt(flat0, data0, flat, data, from, to, v) {
      if v < i { CopyStays(flat0, data0, flat1, data1, flat, data, from, to, v); }
    }
  }

  lemma CopiedUndo(flat0: map<Key, Pte>, data0: map<nat, Page>, flat1: map<Key, Pte>, data1: map<nat, Page>, from: nat,
      to: nat, i: nat)
    requires Copied(flat0, data0, flat1, data1, from, to, i) && NoLeaves(flat0, to, 0, i)
    ensures Without(flat1, to, 0, i) == flat0
  {
    var w := Without(flat1, to, 0, i);
    assert forall k :: k in w <==> k in flat0;
  }

  lemma FlatLeaf(m: Mem, k: Key)
    requires MemOk(m) && k in m.s.flat
    ensures IsLeaf(m.s.flat[k])
  {
    Open(m);
    assert FlatOk(m.s, k.0, k.1);
    var e2 := m.s.tab[k.0][Px2(k.1)];
    assert EntryOk(m.s, k.0, Px2(k.1));
    assert EntryOk(m.s, e2.frame, Px1(k.1));
    assert EntryOk(m.s, m.s.tab[e2.frame][Px1(k.1)].frame, Px0(k.1));
  }

  /** One round of uvmcopy's loop. */
  method CopyOne(m: Memory, from: nat, to: nat, i: nat, n: nat, ghost flat0: map<Key, Pte>, ghost data0: map<nat, Page>,
      ghost role0: map<nat, Role>, ghost free0: nat, ghost done: set<nat>, ghost all: set<nat>, ghost next: set<nat>)
    returns (ok: bool)
    requires m.Valid() && m.IsRoot(from) && m.IsRoot(to) && from != to && i < n <= TRAPVPN && NoLeaves(flat0, to, 0, n)
    requires Copied(flat0, data0, m.flat, m.data, from, to, i) && TablesFor(role0, m.role, to, 0, n)
             && Keeps(flat0, data0, m.data)
    requires Spent(role0, free0, m.role, |m.fr.free|, to, done) && i !in done
    requires if (from, i) in flat0 then done + {i} <= all && next == done + {i} else next == done
    modifies m
    ensures m.Valid() && m.IsRoot(from) && m.IsRoot(to) && m.held == old(m.held)
    ensures TablesFor(role0, m.role, to, 0, n) && Keeps(flat0, data0, m.data)
    ensures ok ==> Copied(flat0, data0, m.flat, m.data, from, to, i + 1)
    ensures ok ==> Spent(role0, free0, m.role, |m.fr.free|, to, next)
    ensures !ok ==> m.flat == flat0 && Afford(false, free0, role0, to, all)
  {
    var e := Lookup(m, from, i);
    if !e.v {
      return true;
    }
    ok := CopyThis(m, from, to, i, n, e, flat0, data0, role0, free0, done, all);
  }

  /** The same for a page that is there. */
  method CopyThis(m: Memory, from: nat, to: nat, i: nat, n: nat, e: Pte, ghost flat0: map<Key, Pte>,
      ghost data0: map<nat, Page>, ghost role0: map<nat, Role>, ghost free0: nat, ghost done: set<nat>,
          ghost all: set<nat>)
    returns (ok: bool)
    requires m.Valid() && m.IsRoot(from) && m.IsRoot(to) && from != to && i < n <= TRAPVPN && NoLeaves(flat0, to, 0, n)
    requires Copied(flat0, data0, m.flat, m.data, from, to, i) && TablesFor(role0, m.role, to, 0, n)
             && Keeps(flat0, data0, m.data) && (from, i) in flat0 && e == flat0[(from, i)]
    requires Spent(role0, free0, m.role, |m.fr.free|, to, done) && i !in done && done + {i} <= all
    modifies m
    ensures m.Valid() && m.IsRoot(from) && m.IsRoot(to) && m.held == old(m.held)
    ensures TablesFor(role0, m.role, to, 0, n) && Keeps(flat0, data0, m.data)
    ensures ok ==> Copied(flat0, data0, m.flat, m.data, from, to, i + 1)
    ensures ok ==> Spent(role0, free0, m.role, |m.fr.free|, to, done + {i})
    ensures !ok ==> m.flat == flat0 && Afford(false, free0, role0, to, all)
  {
    ghost var flat1, data1, role1, free1 := m.flat, m.data, m.role, |m.fr.free|;
    Live(m.M(), (from, i));
    FlatLeaf(m.M(), (from, i));
    assert m.data[e.frame] == Contents(flat0, data0, (from, i));
    ok := MapNew(m, to, i, e, m.data[e.frame]);
    GrowsTables(role0, role1, m.role, to, i, 0, n);
    SpentNext(role0, free0, role1, free1, m.role, |m.fr.free|, to, done, i, ok, all);
    if ok {
      CopiedNext(flat0, data0, flat1, data1, m.flat, m.data, from, to, i);
      KeepsBoth(flat0, flat1, data0, data1, m.data);
    } else {
      CopyFailed(m, from, to, i, flat0, data0, data1);
    }
  }

  /** uvmcopy's error path. */
  method CopyFailed(m: Memory, from: nat, to: nat, i: nat, ghost flat0: map<Key, Pte>, ghost data0: map<nat, Page>,
      ghost data1: map<nat, Page>)
    requires m.Valid() && m.IsRoot(to) && i <= TRAPVPN && NoLeaves(flat0, to, 0, i)
    requires Copied(flat0, data0, m.flat, data1, from, to, i) && Keeps(flat0, data0, data1)
             && Keeps(m.flat, data1, m.data)
    modifies m
    ensures m.Valid() && m.held == old(m.held) && m.role == old(m.role) && m.flat == flat0
            && Keeps(flat0, data0, m.data)
  {
    CopiedUndo(flat0, data0, m.flat, data1, from, to, i);
    KeepsBoth(flat0, m.flat, data0, data1, m.data);
    m.Uvmunmap(to, 0, i, true);
    ShrinksKeeps(old(m.fr), old(m.data), m.M(), m.data);
    KeepsBoth(flat0, m.flat, data0, old(m.data), m.data);
  }

  /**
   uvmcopy: every page of `from` below the size is copied to `to`, absent ones stay
   absent; on failure nothing is left behind.
   */
  method Uvmcopy(m: Memory, from: nat, to: nat, sz: nat) returns (ok: bool)
    requires m.Valid() && m.IsRoot(from) && m.IsRoot(to) && from != to && PgUp(sz) <= TRAPVPN
    requires NoLeaves(m.flat, to, 0, PgUp(sz))
    modifies m
    ensures m.Valid() && m.IsRoot(from) && m.IsRoot(to) && m.held == old(m.held)
            && TablesFor(old(m.role), m.role, to, 0, PgUp(sz))
    ensures Keeps(old(m.flat), old(m.data), m.data)
    ensures ok ==> Copied(old(m.flat), old(m.data), m.flat, m.data, from, to, PgUp(sz))
    ensures !ok ==> m.flat == old(m.flat)
    ensures var pages := Mapped(old(m.flat), from, 0, PgUp(sz));
            && Afford(ok, |old(m.fr.free)|, old(m.role), to, pages)
            && (ok ==> Spent(old(m.role), |old(m.fr.free)|, m.role, |m.fr.free|, to, pages))
  {
    var i := 0;
    ghost var flat0, role0, free0, done: set<nat> := m.flat, m.role, |m.fr.free|, {};
    ghost var all := Mapped(m.flat, from, 0, PgUp(sz));
    SpentStart(m.role, |m.fr.free|, to);
    UpToStart(all, 0);
    while i * PGSIZE < sz
      invariant 0 <= i <= PgUp(sz) && m.Valid() && m.IsRoot(from) && m.IsRoot(to) && m.held == old(m.held)
      invariant Copied(flat0, old(m.data), m.flat, m.data, from, to, i)
      invariant TablesFor(role0, m.role, to, 0, PgUp(sz)) && Keeps(flat0, old(m.data), m.data)
      invariant Spent(role0, free0, m.role, |m.fr.free|, to, done) && UpTo(done, all, i)
      decreases PgUp(sz) - i
    {
      ghost var next := UpToNext(done, all, i);
      ok := CopyOne(m, from, to, i, PgUp(sz), flat0, old(m.data), role0, free0, done, all, next);
      if !ok {
        return;
      }
      done := next;
      i := i + 1;
    }
    SpentAll(role0, free0, m.role, |m.fr.free|, to, done, all, i);
    ok := true;
  }
}
