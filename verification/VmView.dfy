/**
 The address spaces of all processes: heap sizes, the table of mmap areas
 (`mmaptable`), where leaf entries and page tables may be, which pages may be shared,
 and the memory each process sees (kernel/vm.c, kernel/proc.c, kernel/sysproc.c).
 */
module VmView {
  import opened Kalloc
  import opened PageTable
  import opened VmMem
  import opened Vm
  import opened VmUser

  const NMMAPAREA: nat := 64
  const MMAPBASE: nat := 0x4000_0000

  /** What an absent page of an area is filled from. */
  datatype Backing = Anon | File(id: nat, offset: nat)

  /** struct mmap_area, in pages; `write` is PROT_WRITE. */
  datatype Area = Area(owner: nat, start: nat, npages: nat, write: bool, backing: Backing)

  datatype Slot = Empty | Used(area: Area)

  /** The memory of one process: its root table, p->sz, and the trapframe page. */
  datatype Proc = Proc(root: nat, sz: nat, trapframe: nat)

  /** `owner` gives the process of each root. */
  datatype View = View(flat: map<Key, Pte>, role: map<nat, Role>, procs: map<nat, Proc>, area: seq<Slot>,
      owner: map<nat, nat>)

  predicate Covers(s: Slot, p: nat, vpn: nat) {
    s.Used? && s.area.owner == p && s.area.start <= vpn < s.area.start + s.area.npages
  }

  predicate Touches(s: Slot, p: nat, lo: nat, hi: nat) {
    s.Used? && s.area.owner == p && s.area.start < hi && lo < s.area.start + s.area.npages
  }

  ghost predicate InAreas(area: seq<Slot>, p: nat, vpn: nat) {
    exists i :: 0 <= i < |area| && Covers(area[i], p, vpn)
  }

  ghost predicate AreaOver(area: seq<Slot>, p: nat, lo: nat, hi: nat) {
    exists i :: 0 <= i < |area| && Touches(area[i], p, lo, hi)
  }

  predicate AreaOk(procs: map<nat, Proc>, a: Area) {
    a.owner in procs && MMAPVPN <= a.start && a.npages > 0 && a.start + a.npages <= TRAPVPN
  }

  predicate ProcOk(v: View, p: nat)
    requires p in v.procs
  {
    var r := v.procs[p].root;
    r in v.owner && v.owner[r] == p && r in v.role && v.role[r] == Root && v.procs[p].sz <= MMAPBASE
  }

  /** A leaf is below PGROUNDUP(sz), inside a live area, or one of the two top pages, which users cannot access. */
  ghost predicate LeafOk(v: View, k: Key)
    requires k in v.flat
  {
    && k.0 in v.owner && v.owner[k.0] in v.procs
    && (k.1 < PgUp(v.procs[v.owner[k.0]].sz) || InAreas(v.area, v.owner[k.0], k.1)
        || ((k.1 == TRAPVPN || k.1 == TRAMPVPN) && !v.flat[k].u))
  }

  /** A table has something below it. */
  ghost predicate TableUsed(flat: map<Key, Pte>, role: map<nat, Role>, r: Role) {
    match r
    case Root => true
    case Mid(root, i2) => exists f :: f in role && role[f].Low? && role[f].root == root && role[f].i2 == i2
    case Low(root, _, _) => exists k :: k in flat && k.0 == root && RoleLo(r) <= k.1 < RoleLo(r) + 512
  }

  /** A table over the mmap zone is in use or lies over a live area of its process. */
  ghost predicate TableOk(v: View, f: nat)
    requires f in v.role
  {
    var r := v.role[f];
    !r.Root? ==>
      r.root in v.owner
          && (r.i2 >= 1 ==>
            TableUsed(v.flat, v.role, r) || AreaOver(v.area, v.owner[r.root], RoleLo(r), RoleLo(r) + RoleSize(r)))
  }

  /** Two mappings of one page are at the same address, in the mmap zone. */
  ghost predicate SharingOk(flat: map<Key, Pte>) {
    forall k, l :: k in flat && l in flat && Counted(k) && Counted(l) && k != l && flat[k].frame == flat[l].frame ==>
      k.1 == l.1 && k.1 >= MMAPVPN
  }

  /** Processes and their roots, and the areas. */
  ghost predicate ProcsOk(v: View) {
    && |v.area| == NMMAPAREA
    && (forall p :: p in v.procs ==> ProcOk(v, p))
    && (forall r :: r in v.owner ==> v.owner[r] in v.procs && v.procs[v.owner[r]].root == r)
    && (forall f :: f in v.role && v.role[f] == Root ==> f in v.owner)
    && (forall i :: 0 <= i < |v.area| && v.area[i].Used? ==> AreaOk(v.procs, v.area[i].area))
  }

  ghost predicate LeavesOk(v: View) {
    forall k :: k in v.flat ==> LeafOk(v, k)
  }

  ghost predicate TablesOk(v: View) {
    forall f :: f in v.role ==> TableOk(v, f)
  }

  ghost predicate ViewOk(v: View) {
    ProcsOk(v) && LeavesOk(v) && TablesOk(v) && SharingOk(v.flat)
  }

  /** The kernel's own references: the trapframe pages, one process each. */
  ghost predicate HeldOk(held: multiset<nat>, procs: map<nat, Proc>) {
    && (forall p, q :: p in procs && q in procs && p != q ==> procs[p].trapframe != procs[q].trapframe)
    && (forall p :: p in procs ==> held[procs[p].trapframe] == 1)
    && (forall f: nat :: held[f] > 0 ==> exists p :: p in procs && procs[p].trapframe == f)
  }

  // ---------- what processes see ----------

  datatype ReadResult = ReadFailed | Read(bytes: seq<bv8>)

  /** readi on a file, by file and 32-bit offset. */
  type Files = (nat, nat) -> ReadResult

  function Padded(b: seq<bv8>): (p: Page)
    ensures |p| == PGSIZE
  {
    if |b| >= PGSIZE then b[..PGSIZE] else b + seq(PGSIZE - |b|, _ => 0)
  }

  function ReadPage(a: Area, vpn: nat, files: Files): ReadResult
    requires a.start <= vpn
  {
    match a.backing
    case Anon => Read([])
    case File(id, offset) => files(id, (offset + (vpn - a.start) * PGSIZE) % 0x1_0000_0000)
  }

  /** mmap_lookup: the first slot that covers the page. */
  function FindArea(area: seq<Slot>, p: nat, vpn: nat, i: nat): (r: nat)
    requires i <= |area|
    ensures i <= r <= |area| && (r < |area| ==> Covers(area[r], p, vpn))
    ensures forall j :: i <= j < r ==> !Covers(area[j], p, vpn)
    decreases |area| - i
  {
    if i == |area| || Covers(area[i], p, vpn) then i else FindArea(area, p, vpn, i + 1)
  }

  /** What a page that is not mapped counts as: file contents in a file area, else zeros. */
  function Absent(area: seq<Slot>, files: Files, p: nat, vpn: nat): (page: Page)
    ensures |page| == PGSIZE
  {
    var i := FindArea(area, p, vpn, 0);
    if i < |area| && ReadPage(area[i].area, vpn, files).Read? then Padded(ReadPage(area[i].area, vpn, files).bytes)
        else Filled(0)
  }

  /** The memory of every process, page by page, whether mapped yet or not. */
  ghost function ImageOf(flat: map<Key, Pte>, data: map<nat, Page>, procs: map<nat, Proc>, area: seq<Slot>,
      files: Files): imap<Key, Page> {
    imap k: Key | k.0 in procs && k.1 < TRAPVPN :: PageOf(flat, data, procs, area, files, k)
  }

  ghost function PageOf(flat: map<Key, Pte>, data: map<nat, Page>, procs: map<nat, Proc>, area: seq<Slot>,
      files: Files, k: Key): Page
    requires k.0 in procs
  {
    if (procs[k.0].root, k.1) in flat then Contents(flat, data, (procs[k.0].root, k.1))
        else Absent(area, files, k.0, k.1)
  }

  ghost predicate DistinctRoots(procs: map<nat, Proc>) {
    forall p, q :: p in procs && q in procs && p != q ==> procs[p].root != procs[q].root
  }

  lemma RootsDistinct(v: View)
    requires ViewOk(v)
    ensures DistinctRoots(v.procs)
  {
    forall p, q | p in v.procs && q in v.procs && p != q ensures v.procs[p].root != v.procs[q].root {
      assert ProcOk(v, p) && ProcOk(v, q);
    }
  }

  /** Bringing in absent pages with the contents they counted as changes no process's memory. */
  lemma FaultKeepsImage(flat0: map<Key, Pte>, data0: map<nat, Page>, flat: map<Key, Pte>, data: map<nat, Page>,
                        procs: map<nat, Proc>, area: seq<Slot>, p: nat, files: Files)
    requires DistinctRoots(procs) && p in procs && Keeps(flat0, data0, data)
    requires forall k :: k in flat0 ==> k in flat && flat[k] == flat0[k]
    requires forall k :: k in flat && k !in flat0 ==>
             k.0 == procs[p].root && Contents(flat, data, k) == Absent(area, files, p, k.1)
    ensures ImageOf(flat, data, procs, area, files) == ImageOf(flat0, data0, procs, area, files)
  {
    forall k: Key | k.0 in procs && k.1 < TRAPVPN
      ensures PageOf(flat, data, procs, area, files, k) == PageOf(flat0, data0, procs, area, files, k)
    {
      var key := (procs[k.0].root, k.1);
      if key in flat0 { assert Counted(key) && Contents(flat0, data, key) == Contents(flat0, data0, key); }
    }
  }

  lemma KeepsImage(flat: map<Key, Pte>, data0: map<nat, Page>, data: map<nat, Page>, procs: map<nat, Proc>,
      area: seq<Slot>, files: Files)
    requires Keeps(flat, data0, data)
    ensures ImageOf(flat, data, procs, area, files) == ImageOf(flat, data0, procs, area, files)
  {
    forall k: Key | k.0 in procs && k.1 < TRAPVPN
      ensures PageOf(flat, data, procs, area, files, k) == PageOf(flat, data0, procs, area, files, k)
    {
      var key := (procs[k.0].root, k.1);
      if key in flat { assert Counted(key) && Contents(flat, data, key) == Contents(flat, data0, key); }
    }
  }

  /** Changing sizes changes no memory. */
  lemma SizeKeepsImage(flat: map<Key, Pte>, data: map<nat, Page>, procs: map<nat, Proc>, p: nat, sz: nat,
      area: seq<Slot>, files: Files)
    requires p in procs
    ensures ImageOf(flat, data, procs[p := procs[p].(sz := sz)], area, files) == ImageOf(flat, data, procs, area, files)
  {
    var q := procs[p := procs[p].(sz := sz)];
    forall k: Key | k.0 in procs ensures PageOf(flat, data, q, area, files, k)
        == PageOf(flat, data, procs, area, files, k) {
    }
  }

  /** Pages [lo, hi) of process `p` read as absent; all other memory is as before. */
  ghost predicate Cleared(image0: imap<Key, Page>, image: imap<Key, Page>, area: seq<Slot>, files: Files, p: nat,
      lo: nat, hi: nat) {
    && image.Keys == image0.Keys
    && forall k: Key :: k in image ==>
        image[k] == if k.0 == p && lo <= k.1 < hi then Absent(area, files, p, k.1) else image0[k]
  }

  lemma UnmapClears(flat0: map<Key, Pte>, data0: map<nat, Page>, flat: map<Key, Pte>, data: map<nat, Page>,
                    procs: map<nat, Proc>, area: seq<Slot>, p: nat, lo: nat, hi: nat, files: Files)
    requires DistinctRoots(procs) && p in procs && flat == Without(flat0, procs[p].root, lo, hi)
             && Keeps(flat, data0, data)
    ensures Cleared(ImageOf(flat0, data0, procs, area, files), ImageOf(flat, data, procs, area, files), area, files, p,
            lo, hi)
  {
    forall k: Key | k.0 in procs && k.1 < TRAPVPN
      ensures PageOf(flat, data, procs, area, files, k) ==
              if k.0 == p && lo <= k.1 < hi then Absent(area, files, p, k.1)
                  else PageOf(flat0, data0, procs, area, files, k)
    {
      var key := (procs[k.0].root, k.1);
      if key in flat { assert Counted(key) && Contents(flat, data, key) == Contents(flat, data0, key); }
    }
  }

  // ---------- steps that keep the invariant ----------

  /** Mapping pages of process `p` inside [lo, hi), which is in the heap zone or in one area. */
  lemma GrowView(v: View, flat: map<Key, Pte>, role: map<nat, Role>, p: nat, lo: nat, hi: nat)
    requires ViewOk(v) && p in v.procs
    requires forall k :: k in v.flat ==> k in flat && flat[k] == v.flat[k]
    requires forall k :: k in flat && k !in v.flat ==> k.0 == v.procs[p].root && lo <= k.1 < hi
    requires TablesFor(v.role, role, v.procs[p].root, lo, hi) && SharingOk(flat)
    requires (hi <= MMAPVPN && (flat == v.flat || hi <= PgUp(v.procs[p].sz)))
             || exists i :: 0 <= i < |v.area| && Within(v.area[i], p, lo, hi)
    ensures ViewOk(v.(flat := flat, role := role))
  {
    var w := v.(flat := flat, role := role);
    assert ProcOk(v, p);
    forall q | q in w.procs ensures ProcOk(w, q) { assert ProcOk(v, q); }
    forall k | k in flat ensures LeafOk(w, k) {
      if k in v.flat { assert LeafOk(v, k); }
    }
    forall f | f in role ensures TableOk(w, f) {
      if f in v.role {
        assert TableOk(v, f);
        UsedStays(v.flat, v.role, flat, role, v.role[f]);
      } else if role[f].i2 >= 1 {
        assert RoleLo(role[f]) >= MMAPVPN;
        var i :| 0 <= i < |v.area| && Within(v.area[i], p, lo, hi);
        assert Touches(v.area[i], p, RoleLo(role[f]), RoleLo(role[f]) + RoleSize(role[f]));
      }
    }
  }

  predicate Within(s: Slot, p: nat, lo: nat, hi: nat) {
    s.Used? && s.area.owner == p && s.area.start <= lo && hi <= s.area.start + s.area.npages
  }

  lemma UsedStays(flat0: map<Key, Pte>, role0: map<nat, Role>, flat: map<Key, Pte>, role: map<nat, Role>, r: Role)
    requires forall k :: k in flat0 ==> k in flat
    requires forall f :: f in role0 ==> f in role && role[f] == role0[f]
    ensures TableUsed(flat0, role0, r) ==> TableUsed(flat, role, r)
  {
  }

  lemma PrivateSharing(flat0: map<Key, Pte>, flat: map<Key, Pte>)
    requires SharingOk(flat0) && Private(flat0, flat) && forall k :: k in flat0 ==> k in flat && flat[k] == flat0[k]
    ensures SharingOk(flat)
  {
  }

  /** Changing p->sz, with the pages beyond the new size gone. */
  lemma SizeView(v: View, flat: map<Key, Pte>, p: nat, sz: nat)
    requires ViewOk(v) && p in v.procs && sz <= MMAPBASE
    requires flat == if sz < v.procs[p].sz then Without(v.flat, v.procs[p].root, PgUp(sz), PgUp(v.procs[p].sz))
             else v.flat
    ensures ViewOk(v.(flat := flat, procs := v.procs[p := v.procs[p].(sz := sz)]))
  {
    var w := v.(flat := flat, procs := v.procs[p := v.procs[p].(sz := sz)]);
    assert ProcOk(v, p);
    SizeProcs(v, w, p, sz);
    SizeLeaves(v, w, p, sz);
    SizeTables(v, w);
    FewerShare(v.flat, flat);
  }

  lemma FewerShare(flat0: map<Key, Pte>, flat: map<Key, Pte>)
    requires SharingOk(flat0) && forall k :: k in flat ==> k in flat0 && flat[k] == flat0[k]
    ensures SharingOk(flat)
  {
  }

  lemma SizeProcs(v: View, w: View, p: nat, sz: nat)
    requires ProcsOk(v) && p in v.procs && sz <= MMAPBASE
             && w == v.(flat := w.flat, procs := v.procs[p := v.procs[p].(sz := sz)])
    requires forall q :: q in v.procs ==> ProcOk(v, q)
    ensures ProcsOk(w)
  {
    forall q | q in w.procs ensures ProcOk(w, q) { assert ProcOk(v, q); }
  }

  lemma SizeTables(v: View, w: View)
    requires TablesOk(v) && w.role == v.role && w.area == v.area && w.owner == v.owner
    requires forall k :: k in v.flat && k.1 >= MMAPVPN ==> k in w.flat
    ensures TablesOk(w)
  {
    forall f | f in w.role ensures TableOk(w, f) {
      assert TableOk(v, f);
      if !v.role[f].Root? && v.role[f].i2 >= 1 { UsedAbove(v.flat, w.flat, v.role, v.role[f]); }
    }
  }

  lemma SizeLeaves(v: View, w: View, p: nat, sz: nat)
    requires LeavesOk(v) && p in v.procs && v.procs[p].root in v.owner && v.owner[v.procs[p].root] == p
    requires forall k :: k in w.flat ==> k in v.flat && w.flat[k] == v.flat[k]
    requires forall k :: k in w.flat && k.0 == v.procs[p].root ==> k.1 < PgUp(sz) || k.1 >= PgUp(v.procs[p].sz)
    requires forall r :: r in v.owner ==> v.owner[r] in v.procs && v.procs[v.owner[r]].root == r
    requires w == v.(flat := w.flat, procs := v.procs[p := v.procs[p].(sz := sz)])
    ensures LeavesOk(w)
  {
    forall k | k in w.flat ensures LeafOk(w, k) { assert LeafOk(v, k); }
  }

  lemma UsedAbove(flat0: map<Key, Pte>, flat: map<Key, Pte>, role: map<nat, Role>, r: Role)
    requires !r.Root? && r.i2 >= 1 && forall k :: k in flat0 && k.1 >= MMAPVPN ==> k in flat
    ensures TableUsed(flat0, role, r) ==> TableUsed(flat, role, r)
  {
    assert RoleLo(r) >= MMAPVPN;
  }

  /** mmap_insert */
  lemma InsertView(v: View, i: nat, a: Area)
    requires ViewOk(v) && i < |v.area| && v.area[i].Empty? && AreaOk(v.procs, a)
    ensures ViewOk(v.(area := v.area[i := Used(a)]))
  {
    var w := v.(area := v.area[i := Used(a)]);
    forall q | q in w.procs ensures ProcOk(w, q) { assert ProcOk(v, q); }
    forall k | k in w.flat ensures LeafOk(w, k) {
      assert LeafOk(v, k);
      CoverStays(v.area, i, a, v.owner[k.0], k.1, k.1 + 1);
    }
    forall f | f in w.role ensures TableOk(w, f) {
      assert TableOk(v, f);
      var r := v.role[f];
      if !r.Root? { CoverStays(v.area, i, a, v.owner[r.root], RoleLo(r), RoleLo(r) + RoleSize(r)); }
    }
  }

  lemma CoverStays(area: seq<Slot>, i: nat, a: Area, p: nat, lo: nat, hi: nat)
    requires i < |area| && area[i].Empty?
    ensures InAreas(area, p, lo) ==> InAreas(area[i := Used(a)], p, lo)
    ensures AreaOver(area, p, lo, hi) ==> AreaOver(area[i := Used(a)], p, lo, hi)
  {
    var w := area[i := Used(a)];
    if InAreas(area, p, lo) {
      var j :| 0 <= j < |area| && Covers(area[j], p, lo);
      assert Covers(w[j], p, lo);
    }
    if AreaOver(area, p, lo, hi) {
      var j :| 0 <= j < |area| && Touches(area[j], p, lo, hi);
      assert Touches(w[j], p, lo, hi);
    }
  }

  /** The indices in a role are below 512. */
  ghost predicate RolesOk(role: map<nat, Role>) {
    forall f :: f in role && role[f].Low? ==> role[f].i1 < 512
  }

  lemma RolesAreOk(m: Mem)
    requires MemOk(m)
    ensures RolesOk(m.s.role)
  {
    Open(m);
    forall f | f in m.s.role && m.s.role[f].Low? ensures m.s.role[f].i1 < 512 { assert BackOk(m.s, f); }
  }

  /** A table with a valid entry is used. */
  lemma EntryUses(m: Mem, t: nat)
    requires MemOk(m) && t in m.s.role && !m.s.role[t].Root? && !EmptyTable(m.s.tab[t])
    ensures TableUsed(m.s.flat, m.s.role, m.s.role[t])
  {
    Open(m);
    var i :| 0 <= i < |m.s.tab[t]| && m.s.tab[t][i].v;
    assert EntryOk(m.s, t, i);
    if m.s.role[t].Low? {
      FlatAt(m.s, t, i);
      assert KeyOf(m.s, t, i) in m.s.flat;
    }
  }

  /** What unmapping an area and freeing the empty tables over it leaves. */
  ghost predicate AreaGone(v: View, flat: map<Key, Pte>, role: map<nat, Role>, root: nat, lo: nat, hi: nat) {
    && flat == Without(v.flat, root, lo, hi)
    && (forall t :: t in role ==> t in v.role && role[t] == v.role[t])
    && (forall t :: t in v.role && t !in role ==>
        !v.role[t].Root? && v.role[t].root == root && Overlaps(v.role[t], lo, hi))
    && (forall t :: t in role && !role[t].Root? && role[t].root == root && Overlaps(role[t], lo, hi) ==>
        TableUsed(flat, role, role[t]))
  }

  /** A table away from the range is used if it was. */
  lemma UsedAway(v: View, flat: map<Key, Pte>, role: map<nat, Role>, root: nat, lo: nat, hi: nat, r: Role)
    requires AreaGone(v, flat, role, root, lo, hi) && RolesOk(v.role) && !r.Root?
    requires r.root != root || !Overlaps(r, lo, hi)
    ensures TableUsed(v.flat, v.role, r) ==> TableUsed(flat, role, r)
  {
    if TableUsed(v.flat, v.role, r) {
      if r.Low? {
        var k :| k in v.flat && k.0 == r.root && RoleLo(r) <= k.1 < RoleLo(r) + 512;
        assert k in flat;
      } else {
        var f :| f in v.role && v.role[f].Low? && v.role[f].root == r.root && v.role[f].i2 == r.i2;
        assert RoleLo(r) <= RoleLo(v.role[f]) && RoleLo(v.role[f]) + 512 <= RoleLo(r) + 262144;
        assert f in role;
      }
    }
  }

  /** kmunmap: the area's slot is cleared, its pages are unmapped and the tables over it freed. */
  lemma RemoveView(v: View, flat: map<Key, Pte>, role: map<nat, Role>, i: nat)
    requires ViewOk(v) && RolesOk(v.role) && i < |v.area| && v.area[i].Used?
    requires var a := v.area[i].area;
             AreaOk(v.procs, a) && AreaGone(v, flat, role, v.procs[a.owner].root, a.start, a.start + a.npages)
    ensures ViewOk(v.(flat := flat, role := role, area := v.area[i := Empty]))
  {
    var w := v.(flat := flat, role := role, area := v.area[i := Empty]);
    var a := v.area[i].area;
    assert ProcOk(v, a.owner);
    assert ProcsOk(w) by {
      forall q | q in w.procs ensures ProcOk(w, q) { assert ProcOk(v, q); }
    }
    RemoveLeaves(v, w, i);
    RemoveTables(v, w, i);
  }

  lemma RemoveLeaves(v: View, w: View, i: nat)
    requires LeavesOk(v) && i < |v.area| && v.area[i].Used?
             && w == v.(flat := w.flat, role := w.role, area := v.area[i := Empty])
    requires var a := v.area[i].area;
             a.owner in v.procs && w.flat == Without(v.flat, v.procs[a.owner].root, a.start, a.start + a.npages)
    requires forall r :: r in v.owner ==> v.owner[r] in v.procs && v.procs[v.owner[r]].root == r
    ensures LeavesOk(w)
  {
    forall k | k in w.flat ensures LeafOk(w, k) {
      assert LeafOk(v, k);
      RemoveKeeps(v, i, v.owner[k.0], k.1, k.1 + 1);
    }
  }

  lemma RemoveTables(v: View, w: View, i: nat)
    requires TablesOk(v) && RolesOk(v.role) && i < |v.area| && v.area[i].Used?
    requires w == v.(flat := w.flat, role := w.role, area := v.area[i := Empty])
    requires var a := v.area[i].area;
             a.owner in v.procs && AreaGone(v, w.flat, w.role, v.procs[a.owner].root, a.start, a.start + a.npages)
    requires forall r :: r in v.owner ==> v.owner[r] in v.procs && v.procs[v.owner[r]].root == r
    ensures TablesOk(w)
  {
    var a := v.area[i].area;
    forall f | f in w.role ensures TableOk(w, f) {
      assert TableOk(v, f);
      var r := w.role[f];
      if !r.Root? && (r.root != v.procs[a.owner].root || !Overlaps(r, a.start, a.start + a.npages)) {
        UsedAway(v, w.flat, w.role, v.procs[a.owner].root, a.start, a.start + a.npages, r);
        RemoveKeeps(v, i, v.owner[r.root], RoleLo(r), RoleLo(r) + RoleSize(r));
      }
    }
  }

  /** Where the removed area is not, the others still are. */
  lemma RemoveKeeps(v: View, i: nat, p: nat, lo: nat, hi: nat)
    requires i < |v.area| && lo < hi && v.area[i].Used?
    ensures !Covers(v.area[i], p, lo) && InAreas(v.area, p, lo) ==> InAreas(v.area[i := Empty], p, lo)
    ensures !Touches(v.area[i], p, lo, hi) && AreaOver(v.area, p, lo, hi) ==> AreaOver(v.area[i := Empty], p, lo, hi)
  {
    var w := v.area[i := Empty];
    if !Covers(v.area[i], p, lo) && InAreas(v.area, p, lo) {
      var j :| 0 <= j < |v.area| && Covers(v.area[j], p, lo);
      assert Covers(w[j], p, lo);
    }
    if !Touches(v.area[i], p, lo, hi) && AreaOver(v.area, p, lo, hi) {
      var j :| 0 <= j < |v.area| && Touches(v.area[j], p, lo, hi);
      assert Touches(w[j], p, lo, hi);
    }
  }

  /** No area slot of the process is in use. */
  predicate NoAreas(area: seq<Slot>, p: nat) {
    forall i :: 0 <= i < |area| && area[i].Used? ==> area[i].area.owner != p
  }

  /**
   With no area left, the tables of a process over the mmap zone are the two that hold
   the trampoline and the trapframe, and its leaves are its heap and those two pages.
   */
  lemma NoAreaNoTables(v: View, p: nat)
    requires ViewOk(v) && RolesOk(v.role) && p in v.procs && NoAreas(v.area, p)
    ensures forall k :: k in v.flat && k.0 == v.procs[p].root ==>
            k.1 < PgUp(v.procs[p].sz) || k.1 == TRAPVPN || k.1 == TRAMPVPN
    ensures forall f :: f in v.role && !v.role[f].Root? && v.role[f].root == v.procs[p].root && v.role[f].i2 >= 1 ==>
              v.role[f].i2 == 255 && (v.role[f].Low? ==> v.role[f].i1 == 511)
  {
    var root := v.procs[p].root;
    assert ProcOk(v, p);
    forall k | k in v.flat && k.0 == root ensures k.1 < PgUp(v.procs[p].sz) || k.1 == TRAPVPN || k.1 == TRAMPVPN {
      assert LeafOk(v, k);
    }
    forall f | f in v.role && v.role[f].Low? && v.role[f].root == root && v.role[f].i2 >= 1
      ensures v.role[f].i2 == 255 && v.role[f].i1 == 511
    {
      assert TableOk(v, f);
      var r := v.role[f];
      var k :| k in v.flat && k.0 == r.root && RoleLo(r) <= k.1 < RoleLo(r) + 512;
      assert k.1 >= MMAPVPN;
      TopTable(r.i2, r.i1, k.1);
    }
    forall f | f in v.role && v.role[f].Mid? && v.role[f].root == root && v.role[f].i2 >= 1
        ensures v.role[f].i2 == 255 {
      assert TableOk(v, f);
    }
  }

  lemma TopTable(i2: nat, i1: nat, vpn: nat)
    requires i1 < 512 && VpnOf(i2, i1, 0) <= vpn < VpnOf(i2, i1, 0) + 512 && (vpn == TRAPVPN || vpn == TRAMPVPN)
    ensures i2 == 255 && i1 == 511
  {
    assert i2 * 512 + i1 == 131071;
  }

  // ---------- the invariant, folded ----------

  predicate LookView(v: View) {
    true
  }

  /** ViewOk, unfolded only by OpenView. */
  ghost predicate ViewIs(v: View) {
    forall w: View {:trigger LookView(w)} :: LookView(w) && w == v ==> ViewOk(w)
  }

  lemma OpenView(v: View)
    requires ViewIs(v)
    ensures ViewOk(v)
  {
    assert LookView(v);
  }

  lemma ProcAt(v: View, p: nat)
    requires ViewIs(v) && p in v.procs
    ensures ProcOk(v, p) && |v.area| == NMMAPAREA && DistinctRoots(v.procs)
  {
    OpenView(v);
    RootsDistinct(v);
  }

  lemma AreaAt(v: View, i: nat)
    requires ViewIs(v) && i < |v.area| && v.area[i].Used?
    ensures AreaOk(v.procs, v.area[i].area)
  {
    OpenView(v);
  }

  /** Nothing is mapped between the heap and the mmap zone. */
  lemma HeapTop(v: View, p: nat)
    requires ViewIs(v) && p in v.procs
    ensures NoLeaves(v.flat, v.procs[p].root, PgUp(v.procs[p].sz), MMAPVPN)
  {
    OpenView(v);
    assert ProcOk(v, p);
    forall k | k in v.flat && k.0 == v.procs[p].root ensures k.1 < PgUp(v.procs[p].sz) || k.1 >= MMAPVPN {
      assert LeafOk(v, k);
    }
  }

  /** In the heap zone there are no areas. */
  lemma HeapAbsent(v: View, p: nat, vpn: nat, files: Files)
    requires ViewIs(v) && vpn < MMAPVPN
    ensures FindArea(v.area, p, vpn, 0) == |v.area| && Absent(v.area, files, p, vpn) == Filled(0)
  {
    OpenView(v);
  }
}
