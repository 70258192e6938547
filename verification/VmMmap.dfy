/**
 mmap areas: kmmap, kmunmap and mmapfreeproc (kernel/vm.c).
 */
module VmMmap {
  import opened Common
  import opened Gates
  import opened Kalloc
  import opened PageTable
  import opened VmMem
  import opened Vm
  import opened VmUser
  import opened VmView
  import opened VmSys

  const PROT_READ: nat := 1
  const PROT_WRITE: nat := 2

  /** The fd argument of mmap: -1, no file that fits, or an inode file. */
  datatype FdArg = NoFd | BadFd | Fd(id: nat, readable: bool, writable: bool)

  /** The argument checks of kmmap. */
  predicate Acceptable(addr: nat, length: int, prot: nat, anonymous: bool, fd: FdArg, offset: int) {
    && addr % PGSIZE == 0 && length > 0 && length % PGSIZE == 0
    && (prot == PROT_READ || prot == PROT_READ + PROT_WRITE)
    && offset >= 0
    && if anonymous then fd == NoFd && offset == 0
       else fd.Fd? && fd.readable && (prot == PROT_READ + PROT_WRITE ==> fd.writable)
  }

  function NewArea(p: nat, addr: nat, length: int, prot: nat, anonymous: bool, fd: FdArg, offset: int): (a: Area)
    requires Acceptable(addr, length, prot, anonymous, fd, offset)
    ensures a.start * PGSIZE == MMAPBASE + addr && a.npages * PGSIZE == length
  {
    Area(p, (MMAPBASE + addr) / PGSIZE, length / PGSIZE, prot == PROT_READ + PROT_WRITE, if anonymous then Anon
        else File(fd.id, offset))
  }

  /** mmap_insert: the first free slot, or the number of slots. */
  method FreeSlot(area: seq<Slot>) returns (i: nat)
    ensures i <= |area| && (i < |area| ==> area[i].Empty?) && forall j :: 0 <= j < i ==> area[j].Used?
  {
    i := 0;
    while i < |area| && area[i].Used?
      invariant i <= |area| && forall j :: 0 <= j < i ==> area[j].Used?
    {
      i := i + 1;
    }
  }

  /** Pages [lo, hi) of the area are new, filled from its backing and private; everything else is as before. */
  ghost predicate Populated(flat0: map<Key, Pte>, flat: map<Key, Pte>, data: map<nat, Page>, root: nat, a: Area,
      hi: nat, files: Files) {
    && (forall k :: k in flat <==> k in flat0 || (k.0 == root && a.start <= k.1 < hi))
    && (forall k :: k in flat0 ==> flat[k] == flat0[k])
    && (forall v: nat :: a.start <= v < hi ==> FilledAt(flat0, flat, data, root, a, v, files))
  }

  ghost predicate FilledAt(flat0: map<Key, Pte>, flat: map<Key, Pte>, data: map<nat, Page>, root: nat, a: Area, v: nat,
      files: Files) {
    && a.start <= v && (root, v) !in flat0 && (root, v) in flat
    && flat[(root, v)] == AreaPerm(a.write).(frame := flat[(root, v)].frame)
    && ReadPage(a, v, files).Read? && Contents(flat, data, (root, v)) == Padded(ReadPage(a, v, files).bytes)
  }

  lemma PopulatedNext(flat0: map<Key, Pte>, flat1: map<Key, Pte>, data1: map<nat, Page>, flat: map<Key, Pte>,
      data: map<nat, Page>,
                      root: nat, a: Area, v: nat, files: Files)
    requires a.start <= v < TRAPVPN && Populated(flat0, flat1, data1, root, a, v, files) && (root, v) !in flat1
             && Keeps(flat1, data1, data)
    requires ReadPage(a, v, files).Read?
    requires NewPage(flat1, flat, data, (root, v), AreaPerm(a.write), Padded(ReadPage(a, v, files).bytes))
    ensures Populated(flat0, flat, data, root, a, v + 1, files)
  {
    forall u: nat | a.start <= u < v + 1 ensures FilledAt(flat0, flat, data, root, a, u, files) {
      if u < v {
        assert FilledAt(flat0, flat1, data1, root, a, u, files) && Counted((root, u));
        assert Contents(flat1, data, (root, u)) == Contents(flat1, data1, (root, u));
      }
    }
  }

  /** A page of the area can be brought in, memory permitting: nothing is mapped there, and its backing can be read. */
  ghost predicate Fillable(flat: map<Key, Pte>, root: nat, a: Area, v: nat, files: Files) {
    a.start <= v && (root, v) !in flat && ReadPage(a, v, files).Read?
  }

  /**
   Populating stops before page `hi`: those below can be brought in, with memory for them
   and their tables, and `hi` cannot or lacks it (unfolded only at a Gate).
   */
  ghost predicate StopsAt(flat: map<Key, Pte>, role: map<nat, Role>, free: nat, root: nat, a: Area, hi: nat,
      files: Files) {
    forall z: nat {:trigger Gate(z)} :: Gate(z) ==>
      && a.start <= hi <= a.start + a.npages
      && (forall v: nat :: a.start <= v < hi ==> Fillable(flat, root, a, v, files))
      && free >= Cost(role, root, Range(a.start, hi))
      && (hi < a.start + a.npages ==>
            !Fillable(flat, root, a, hi, files) || free < Cost(role, root, Range(a.start, hi + 1)))
  }

  /** `ok` says whether the whole area can be populated (unfolded only at a Gate). */
  ghost predicate CanPopulate(ok: bool, flat: map<Key, Pte>, role: map<nat, Role>, free: nat, root: nat, a: Area,
      files: Files) {
    forall z: nat {:trigger Gate(z)} :: Gate(z) ==>
      (ok <==> (forall v: nat :: a.start <= v < a.start + a.npages ==> Fillable(flat, root, a, v, files))
               && free >= Cost(role, root, Range(a.start, a.start + a.npages)))
  }

  lemma PopulatesAll(flat: map<Key, Pte>, role: map<nat, Role>, free: nat, root: nat, a: Area, hi: nat, files: Files,
      ok: bool)
    requires StopsAt(flat, role, free, root, a, hi, files) && ok == (hi == a.start + a.npages)
    ensures CanPopulate(ok, flat, role, free, root, a, files)
  {
    assert Gate(0);
    var end := a.start + a.npages;
    if hi < end {
      assert a.start <= hi < end;
      FewerTables(role, root, Range(a.start, hi + 1), Range(a.start, end));
      SubsetSize(Range(a.start, hi + 1), Range(a.start, end));
    }
  }

  lemma RangeNext(lo: nat, v: nat)
    requires lo <= v
    ensures v !in Range(lo, v) && Range(lo, v) + {v} == Range(lo, v + 1)
  {
  }

  lemma StopsHere(flat0: map<Key, Pte>, role0: map<nat, Role>, free0: nat, flat: map<Key, Pte>, data: map<nat, Page>,
      role: map<nat, Role>, free: nat, root: nat, a: Area, hi: nat, done: set<nat>, files: Files)
    requires a.start <= hi <= a.start + a.npages && Populated(flat0, flat, data, root, a, hi, files)
    requires Spent(role0, free0, role, free, root, done) && done == Range(a.start, hi)
    requires hi < a.start + a.npages ==>
               !Fillable(flat, root, a, hi, files) || Afford(false, free0, role0, root, done + {hi})
    ensures StopsAt(flat0, role0, free0, root, a, hi, files)
  {
    SpentIs(role0, free0, role, free, root, done);
    RangeNext(a.start, hi);
    forall v: nat | a.start <= v < hi ensures Fillable(flat0, root, a, v, files) {
      assert FilledAt(flat0, flat, data, root, a, v, files);
    }
    assert (root, hi) in flat ==> (root, hi) in flat0;
    assert Gate(0);
  }

  /**
   The MAP_POPULATE loop of kmmap: the pages are brought in one by one until one
   cannot be; those before it stay.
   */
  method Populate(k: Machine, i: nat, files: Files) returns (ok: bool, ghost hi: nat)
    requires k.Valid() && i < |k.area| && k.area[i].Used?
    modifies k.mem
    ensures k.Valid() && k.mem.held == old(k.mem.held) && Keeps(old(k.mem.flat), old(k.mem.data), k.mem.data)
    ensures var a := k.area[i].area;
            && a.owner in k.procs && a.start <= hi <= a.start + a.npages
            && Populated(old(k.mem.flat), k.mem.flat, k.mem.data, k.procs[a.owner].root, a, hi, files)
            && (ok <==> hi == a.start + a.npages)
            && StopsAt(old(k.mem.flat), old(k.mem.role), |old(k.mem.fr.free)|, k.procs[a.owner].root, a, hi, files)
            && CanPopulate(ok, old(k.mem.flat), old(k.mem.role), |old(k.mem.fr.free)|, k.procs[a.owner].root, a, files)
  {
    AreaAt(k.V(), i);
    var a := k.area[i].area;
    ghost var root := k.procs[a.owner].root;
    ghost var flat0, data0, role0, free0 := k.mem.flat, k.mem.data, k.mem.role, |k.mem.fr.free|;
    var va := a.start;
    ghost var done := Range(va, va);
    SpentNone(role0, free0, root, va);
    ok := true;
    while va < a.start + a.npages
      invariant a.start <= va <= a.start + a.npages && k.Valid() && k.mem.held == old(k.mem.held)
      invariant Populated(flat0, k.mem.flat, k.mem.data, root, a, va, files) && Keeps(flat0, data0, k.mem.data)
      invariant Spent(role0, free0, k.mem.role, |k.mem.fr.free|, root, done) && done == Range(a.start, va)
    {
      ok, done := PopulateNext(k, i, a, root, va, files, flat0, data0, role0, free0, done);
      if !ok {
        hi := va;
        PopulatesAll(flat0, role0, free0, root, a, hi, files, ok);
        return;
      }
      va := va + 1;
    }
    ok := true;
    hi := va;
    StopsHere(flat0, role0, free0, k.mem.flat, k.mem.data, k.mem.role, |k.mem.fr.free|, root, a, hi, done, files);
    PopulatesAll(flat0, role0, free0, root, a, hi, files, ok);
  }

  lemma SpentNone(role: map<nat, Role>, free: nat, root: nat, v: nat)
    ensures Spent(role, free, role, free, root, Range(v, v))
  {
    SpentStart(role, free, root);
    assert Range(v, v) == {};
  }

  /** One round of that loop. */
  method PopulateNext(k: Machine, i: nat, ghost a: Area, ghost root: nat, va: nat, files: Files, ghost flat0: map<Key,
      Pte>,
      ghost data0: map<nat, Page>, ghost role0: map<nat, Role>, ghost free0: nat, ghost done: set<nat>)
    returns (ok: bool, ghost next: set<nat>)
    requires k.Valid() && i < |k.area| && k.area[i] == Used(a) && a.start <= va < a.start + a.npages <= TRAPVPN
    requires a.owner in k.procs && root == k.procs[a.owner].root
    requires Populated(flat0, k.mem.flat, k.mem.data, root, a, va, files) && Keeps(flat0, data0, k.mem.data)
    requires Spent(role0, free0, k.mem.role, |k.mem.fr.free|, root, done) && done == Range(a.start, va)
    modifies k.mem
    ensures k.Valid() && k.mem.held == old(k.mem.held) && Keeps(flat0, data0, k.mem.data)
    ensures ok ==> Populated(flat0, k.mem.flat, k.mem.data, root, a, va + 1, files)
    ensures ok ==> Spent(role0, free0, k.mem.role, |k.mem.fr.free|, root, next) && next == Range(a.start, va + 1)
    ensures !ok ==> Populated(flat0, k.mem.flat, k.mem.data, root, a, va, files)
    ensures !ok ==> StopsAt(flat0, role0, free0, root, a, va, files)
  {
    ghost var flat1, data1, role1, free1 := k.mem.flat, k.mem.data, k.mem.role, |k.mem.fr.free|;
    RangeNext(a.start, va);
    next := done + {va};
    ok := k.MmapMapPage(i, va, files);
    KeepsBoth(flat0, flat1, data0, data1, k.mem.data);
    if Fillable(flat1, root, a, va, files) {
      SpentNext(role0, free0, role1, free1, k.mem.role, |k.mem.fr.free|, root, done, va, ok, next);
    }
    if ok {
      PopulatedNext(flat0, flat1, data1, k.mem.flat, k.mem.data, root, a, va, files);
    } else {
      PopulatedStays(flat0, flat1, data1, k.mem.data, root, a, va, files);
      StopsHere(flat0, role0, free0, flat1, data1, role1, free1, root, a, va, done, files);
    }
  }

  lemma PopulatedStays(flat0: map<Key, Pte>, flat: map<Key, Pte>, data1: map<nat, Page>, data: map<nat, Page>,
      root: nat, a: Area, v: nat, files: Files)
    requires v <= TRAPVPN && Populated(flat0, flat, data1, root, a, v, files) && Keeps(flat, data1, data)
    ensures Populated(flat0, flat, data, root, a, v, files)
  {
    forall u: nat | a.start <= u < v ensures FilledAt(flat0, flat, data, root, a, u, files) {
      assert FilledAt(flat0, flat, data1, root, a, u, files) && Counted((root, u));
      assert Contents(flat, data, (root, u)) == Contents(flat, data1, (root, u));
    }
  }

  /**
   kmmap.  Bad arguments and a full table change nothing; otherwise the area is
   installed, and stays installed even when populating it fails.  `hi` is how far it
   was populated; populating fails exactly when a page of the area is mapped already
   (areas may overlap), cannot be read, or there is no memory.
   */
  method Kmmap(k: Machine, p: nat, addr: nat, length: int, prot: nat, anonymous: bool, populate: bool, fd: FdArg,
      offset: int, files: Files)
    returns (r: nat, slot: nat, ghost hi: nat)
    requires k.Valid() && p in k.procs && MMAPBASE + addr + length <= TRAPVPN * PGSIZE
    modifies k`area, k.mem
    ensures k.Valid() && k.mem.held == old(k.mem.held) && Keeps(old(k.mem.flat), old(k.mem.data), k.mem.data)
    ensures slot < |old(k.area)| <==>
            && addr % PGSIZE == 0 && length > 0 && length % PGSIZE == 0 && offset >= 0
            && (prot == PROT_READ || prot == PROT_READ + PROT_WRITE)
            && (if anonymous then fd == NoFd && offset == 0
                else fd.Fd? && fd.readable && (prot == PROT_READ + PROT_WRITE ==> fd.writable))
            && exists i :: 0 <= i < |old(k.area)| && old(k.area)[i].Empty?
    ensures slot >= |old(k.area)| ==> r == 0 && k.area == old(k.area)
    ensures slot >= |old(k.area)| || !populate ==> k.mem.M() == old(k.mem.M()) && k.mem.data == old(k.mem.data)
    ensures slot < |old(k.area)| ==>
              var a := NewArea(p, addr, length, prot, anonymous, fd, offset);
              && old(k.area)[slot].Empty? && k.area == old(k.area)[slot := Used(a)]
              && (forall j :: 0 <= j < slot ==> old(k.area)[j].Used?)
              && a.owner == p && a.start * PGSIZE == MMAPBASE + addr && a.npages * PGSIZE == length
              && (a.write <==> prot == PROT_READ + PROT_WRITE)
              && a.backing == (if anonymous then Anon else File(fd.id, offset))
              && a.start <= hi <= a.start + a.npages
              && Populated(old(k.mem.flat), k.mem.flat, k.mem.data, k.procs[p].root, a, hi, files)
              && (!populate ==> hi == a.start)
              && r == (if !populate || hi == a.start + a.npages then MMAPBASE + addr else 0)
              && (populate ==>
                    && StopsAt(old(k.mem.flat), old(k.mem.role), |old(k.mem.fr.free)|, k.procs[p].root, a, hi, files)
                    && CanPopulate(r != 0, old(k.mem.flat), old(k.mem.role), |old(k.mem.fr.free)|, k.procs[p].root, a,
                        files))
  {
    slot := |k.area|;
    hi := 0;
    if !Acceptable(addr, length, prot, anonymous, fd, offset) {
      return 0, slot, hi;
    }
    var a := NewArea(p, addr, length, prot, anonymous, fd, offset);
    slot := FreeSlot(k.area);
    if slot == |k.area| {
      return 0, slot, hi;
    }
    InsertIs(k.V(), slot, a);
    k.area := k.area[slot := Used(a)];
    hi := a.start;
    var ok := true;
    if populate {
      ok, hi := Populate(k, slot, files);
    }
    r := if ok then MMAPBASE + addr else 0;
  }

  /** What readi gives for a page of a file with these contents. */
  function PageAtOffset(c: seq<bv8>, off: nat): seq<bv8> {
    if off >= |c| then [] else if off + PGSIZE <= |c| then c[off..off + PGSIZE] else c[off..]
  }

  ghost predicate FileHas(files: Files, id: nat, c: seq<bv8>) {
    forall off: nat :: off < 0x1_0000_0000 ==> files(id, off) == Read(PageAtOffset(c, off))
  }

  /**
   What a process sees at an address of an area whose page is not mapped: the byte of the
   file as far behind the mapping's offset as the address is behind its start, zero past the
   end of the file, and zero in an anonymous area.
   */
  lemma MappedByte(area: seq<Slot>, files: Files, p: nat, va: nat, i: nat, c: seq<bv8>)
    requires i < |area| && FindArea(area, p, va / PGSIZE, 0) == i
    requires area[i].area.backing.File? ==> FileHas(files, area[i].area.backing.id, c)
    requires area[i].area.backing.File? ==>
               area[i].area.backing.offset + (va - area[i].area.start * PGSIZE) < 0x1_0000_0000
    ensures var a := area[i].area;
            && a.start * PGSIZE <= va
            && Absent(area, files, p, va / PGSIZE)[va % PGSIZE] ==
                 if a.backing.Anon? then 0
                 else var at := a.backing.offset + (va - a.start * PGSIZE); if at < |c| then c[at] else 0
  {
    var a := area[i].area;
    if a.backing.File? {
      var off := a.backing.offset + (va / PGSIZE - a.start) * PGSIZE;
      assert off % 0x1_0000_0000 == off;
      assert off + va % PGSIZE == a.backing.offset + (va - a.start * PGSIZE);
      assert ReadPage(a, va / PGSIZE, files) == Read(PageAtOffset(c, off));
    }
  }

  /**
   A byte stored anywhere in a fresh anonymous mapping, populated or not: copyout succeeds
   exactly when the mapping is writable, and copyin then gives the byte back.
   */
  method StoreMapped(k: Machine, p: nat, addr: nat, length: int, prot: nat, populate: bool, va: nat, x: bv8,
      files: Files)
    returns (r: nat, ok: bool, b: seq<bv8>)
    requires k.Valid() && p in k.procs && MMAPBASE + addr + length <= TRAPVPN * PGSIZE
    requires MMAPBASE + addr <= va < MMAPBASE + addr + length && (k.procs[p].root, va / PGSIZE) !in k.mem.flat
    requires FindArea(k.area, p, va / PGSIZE, 0) == |k.area| && |k.mem.fr.free| >= 3
    modifies k`area, k.mem
    ensures k.Valid()
    ensures r != 0 ==> (ok <==> prot == PROT_READ + PROT_WRITE) && (ok ==> b == [x])
  {
    ok, b := false, [];
    var slot;
    ghost var hi;
    ghost var flat0, area0 := k.mem.flat, k.area;
    r, slot, hi := Kmmap(k, p, addr, length, prot, true, populate, NoFd, 0, files);
    if r == 0 {
      return;
    }
    ghost var a := NewArea(p, addr, length, prot, true, NoFd, 0);
    NewestArea(area0, k.area, p, va, slot, a);
    ghost var v1, free1 := k.V(), |k.mem.fr.free|;
    FreshReach(flat0, v1, k.mem.data, p, va, a, slot, hi, files);
    var n;
    ok, n := k.Copyout(p, va, [x], files);
    OneByte(v1, free1, p, va, false, files, ok);
    if ok {
      ghost var v2, free2 := k.V(), |k.mem.fr.free|;
      var got;
      got, b := k.Copyin(p, va, 1, files);
      OneByte(v2, free2, p, va, true, files, got);
      assert b[0] == ByteOf(k.Image(files), p, va);
    }
  }

  /** The new area is the one that counts for an address no other area covers. */
  lemma NewestArea(area0: seq<Slot>, area: seq<Slot>, p: nat, va: nat, slot: nat, a: Area)
    requires slot < |area0| && area == area0[slot := Used(a)] && a.owner == p
    requires a.start * PGSIZE <= va < (a.start + a.npages) * PGSIZE && FindArea(area0, p, va / PGSIZE, 0) == |area0|
    ensures Covers(area[slot], p, va / PGSIZE) && FindArea(area, p, va / PGSIZE, 0) == slot
  {
    forall j | 0 <= j < |area| && j != slot ensures !Covers(area[j], p, va / PGSIZE) {
      assert !Covers(area0[j], p, va / PGSIZE);
    }
  }

  lemma FreshReach(flat0: map<Key, Pte>, v: View, data: map<nat, Page>, p: nat, va: nat, a: Area, slot: nat, hi: nat,
      files: Files)
    requires p in v.procs && slot < |v.area| && v.area[slot] == Used(a) && FindArea(v.area, p, va / PGSIZE, 0) == slot
    requires (v.procs[p].root, va / PGSIZE) !in flat0 && va / PGSIZE < MAXVPN && a.backing.Anon?
    requires a.start <= va / PGSIZE && Populated(flat0, v.flat, data, v.procs[p].root, a, hi, files)
    ensures Reachable(v, p, va / PGSIZE, false, files) <==> a.write
    ensures Reachable(v, p, va / PGSIZE, true, files) && (va / PGSIZE < hi ==> UserMapped(v, p, va / PGSIZE))
  {
    var u := va / PGSIZE;
    if u < hi { assert FilledAt(flat0, v.flat, data, v.procs[p].root, a, u, files); }
  }

  /**
   One populated page mapped twice at the same address: the second call returns 0, with
   its area installed over the first.
   */
  method MmapTwice(k: Machine, p: nat, files: Files, ghost i: nat, ghost j: nat)
    returns (r0: nat, slot0: nat, r: nat, slot: nat)
    requires k.Valid() && p in k.procs && (k.procs[p].root, MMAPVPN) !in k.mem.flat && |k.mem.fr.free| >= 3
    requires i < j < |k.area| && k.area[i].Empty? && k.area[j].Empty?
    modifies k`area, k.mem
    ensures k.Valid() && k.mem.held == old(k.mem.held) && r0 == MMAPBASE && r == 0
    ensures slot0 < |k.area| && slot < |k.area| && slot0 != slot && (k.procs[p].root, MMAPVPN) in k.mem.flat
    ensures Covers(k.area[slot0], p, MMAPVPN) && Covers(k.area[slot], p, MMAPVPN)
  {
    ghost var flat0, role0, free0 := k.mem.flat, k.mem.role, |k.mem.fr.free|;
    ghost var hi;
    r0, slot0, hi := Kmmap(k, p, 0, PGSIZE, PROT_READ, true, true, NoFd, 0, files);
    ghost var a := NewArea(p, 0, PGSIZE, PROT_READ, true, NoFd, 0);
    OnePage(flat0, role0, free0, k.procs[p].root, a, files, r0 != 0);
    ghost var flat1, role1, free1 := k.mem.flat, k.mem.role, |k.mem.fr.free|;
    assert k.area[i].Empty? || k.area[j].Empty?;
    assert FilledAt(flat0, flat1, k.mem.data, k.procs[p].root, a, a.start, files);
    r, slot, hi := Kmmap(k, p, 0, PGSIZE, PROT_READ, true, true, NoFd, 0, files);
    MappedAlready(flat1, role1, free1, k.procs[p].root, a, files, r != 0);
  }

  lemma OnePage(flat: map<Key, Pte>, role: map<nat, Role>, free: nat, root: nat, a: Area, files: Files, ok: bool)
    requires CanPopulate(ok, flat, role, free, root, a, files)
    requires a.npages == 1 && a.backing.Anon? && (root, a.start) !in flat && free >= 3
    ensures ok
  {
    assert Range(a.start, a.start + a.npages) == {a.start};
    CostOne(role, root, a.start);
    assert Gate(0);
  }

  lemma MappedAlready(flat: map<Key, Pte>, role: map<nat, Role>, free: nat, root: nat, a: Area, files: Files, ok: bool)
    requires CanPopulate(ok, flat, role, free, root, a, files) && a.npages > 0 && (root, a.start) in flat
    ensures !ok
  {
    assert !Fillable(flat, root, a, a.start, files);
    assert Gate(0);
  }

  lemma InsertIs(v: View, i: nat, a: Area)
    requires ViewIs(v) && i < |v.area| && v.area[i].Empty? && AreaOk(v.procs, a)
    ensures ViewIs(v.(area := v.area[i := Used(a)]))
  {
    OpenView(v);
    InsertView(v, i, a);
  }

  /** mmap_take_start: the first slot of `p` that starts there, or the number of slots. */
  method TakeStart(area: seq<Slot>, p: nat, start: nat) returns (i: nat)
    ensures i <= |area| && (i < |area| ==> StartsAt(area[i], p, start)) && forall j :: 0 <= j < i ==>
            !StartsAt(area[j], p, start)
  {
    i := 0;
    while i < |area| && !StartsAt(area[i], p, start)
      invariant i <= |area| && forall j :: 0 <= j < i ==> !StartsAt(area[j], p, start)
    {
      i := i + 1;
    }
  }

  predicate StartsAt(s: Slot, p: nat, start: nat) {
    s.Used? && s.area.owner == p && s.area.start == start
  }

  /** mmap_take_any: the first slot of `p`, or the number of slots. */
  method TakeAny(area: seq<Slot>, p: nat) returns (i: nat)
    ensures NextOf(area, p, i)
  {
    i := 0;
    while i < |area| && !(area[i].Used? && area[i].area.owner == p)
      invariant i <= |area| && forall j :: 0 <= j < i ==> area[j].Used? ==> area[j].area.owner != p
    {
      i := i + 1;
    }
  }

  /**
   The common part of kmunmap and mmapfreeproc: the slot is cleared, the area's pages
   are unmapped, and the tables over it that became empty are freed.
   */
  method RemoveArea(k: Machine, i: nat, ghost files: Files)
    requires k.Valid() && i < |k.area| && k.area[i].Used?
    modifies k`area, k.mem
    ensures k.Valid() && k.mem.held == old(k.mem.held) && k.area == old(k.area)[i := Empty]
    ensures var a := old(k.area)[i].area;
            && a.owner in k.procs && k.mem.flat
                == Without(old(k.mem.flat), k.procs[a.owner].root, a.start, a.start + a.npages)
            && Cleared(old(k.Image(files)), k.Image(files), k.area, files, a.owner, a.start, a.start + a.npages)
  {
    ghost var v0 := k.V();
    AreaAt(v0, i);
    var a := k.area[i].area;
    ProcAt(v0, a.owner);
    k.area := k.area[i := Empty];
    var root := k.procs[a.owner].root;
    UnmapArea(k.mem, root, a.start, a.npages, v0);
    RemoveIs(v0, k.mem.flat, k.mem.role, i);
    AreaClears(v0, old(k.mem.data), k.mem.flat, k.mem.data, i, files);
  }

  lemma AreaClears(v: View, data0: map<nat, Page>, flat: map<Key, Pte>, data: map<nat, Page>, i: nat, files: Files)
    requires i < |v.area| && v.area[i].Used? && v.area[i].area.owner in v.procs && DistinctRoots(v.procs)
             && Keeps(flat, data0, data)
    requires var a := v.area[i].area; flat == Without(v.flat, v.procs[a.owner].root, a.start, a.start + a.npages)
    ensures var a := v.area[i].area;
            Cleared(ImageOf(v.flat, data0, v.procs, v.area, files),
                ImageOf(flat, data, v.procs, v.area[i := Empty], files), v.area[i := Empty], files,
                    a.owner, a.start, a.start + a.npages)
  {
    forall k: Key | k.0 in v.procs && k.1 < TRAPVPN
      ensures PageOf(flat, data, v.procs, v.area[i := Empty], files, k) ==
              if Covers(v.area[i], k.0, k.1) then Absent(v.area[i := Empty], files, k.0, k.1)
                  else PageOf(v.flat, data0, v.procs, v.area, files, k)
    {
      ClearedAt(v, data0, flat, data, i, k, files);
    }
  }

  lemma ClearedAt(v: View, data0: map<nat, Page>, flat: map<Key, Pte>, data: map<nat, Page>, i: nat, k: Key,
      files: Files)
    requires i < |v.area| && v.area[i].Used? && v.area[i].area.owner in v.procs && DistinctRoots(v.procs)
             && Keeps(flat, data0, data)
    requires var a := v.area[i].area; flat == Without(v.flat, v.procs[a.owner].root, a.start, a.start + a.npages)
    requires k.0 in v.procs && k.1 < TRAPVPN
    ensures PageOf(flat, data, v.procs, v.area[i := Empty], files, k) ==
            if Covers(v.area[i], k.0, k.1) then Absent(v.area[i := Empty], files, k.0, k.1)
                else PageOf(v.flat, data0, v.procs, v.area, files, k)
  {
    var key := (v.procs[k.0].root, k.1);
    if key in flat { assert Counted(key) && Contents(flat, data, key) == Contents(flat, data0, key); }
    if !Covers(v.area[i], k.0, k.1) { AbsentStays(v.area, i, k.0, k.1, files); }
  }

  /** uvmunmap and free_empty_mmap_pagetables over one area. */
  method UnmapArea(m: Memory, root: nat, start: nat, npages: nat, ghost v: View)
    requires m.Valid() && m.IsRoot(root) && npages > 0 && start + npages <= TRAPVPN && v.flat == m.flat
             && v.role == m.role
    modifies m
    ensures m.Valid() && m.held == old(m.held) && Keeps(m.flat, old(m.data), m.data)
    ensures m.flat == Without(v.flat, root, start, start + npages)
            && GoneIs(v, m.flat, m.role, root, start, start + npages)
  {
    ghost var m0 := m.M();
    m.Uvmunmap(root, start, npages, true);
    ShrinksKeeps(old(m.fr), old(m.data), m.M(), m.data);
    ghost var fr1, data1, s1 := m.fr, m.data, m.S();
    m.FreeEmptyPagetables(root, start, npages);
    ShrinksKeeps(fr1, data1, m.M(), m.data);
    KeepsBoth(m.flat, m.flat, old(m.data), data1, m.data);
    AreaGoneIs(v, s1, m.M(), root, start, start + npages);
    RolesAreOk(m0);
  }

  /** AreaGone, unfolded only at a Gate. */
  ghost predicate GoneIs(v: View, flat: map<Key, Pte>, role: map<nat, Role>, root: nat, lo: nat, hi: nat) {
    forall z: nat {:trigger Gate(z)} :: Gate(z) ==> AreaGone(v, flat, role, root, lo, hi) && RolesOk(v.role)
  }

  lemma AreaGoneIs(v: View, s1: Space, m: Mem, root: nat, lo: nat, hi: nat)
    requires lo < hi && MemOk(m) && LostTables(s1, m.s, root, lo, hi) && NoEmptyTable(m.s, root, lo, hi)
    requires s1.role == v.role && m.s.flat == Without(v.flat, root, lo, hi)
    ensures AreaGone(v, m.s.flat, m.s.role, root, lo, hi)
  {
    forall t | t in m.s.role && !m.s.role[t].Root? && m.s.role[t].root == root && Overlaps(m.s.role[t], lo, hi)
      ensures TableUsed(m.s.flat, m.s.role, m.s.role[t])
    {
      EntryUses(m, t);
    }
  }

  lemma RemoveIs(v: View, flat: map<Key, Pte>, role: map<nat, Role>, i: nat)
    requires ViewIs(v) && i < |v.area| && v.area[i].Used?
    requires var a := v.area[i].area;
             a.owner in v.procs && GoneIs(v, flat, role, v.procs[a.owner].root, a.start, a.start + a.npages)
    ensures ViewIs(v.(flat := flat, role := role, area := v.area[i := Empty]))
  {
    assert Gate(0);
    OpenView(v);
    RemoveView(v, flat, role, i);
  }

  /** Outside the removed area, absent pages count as what they counted as. */
  lemma AbsentStays(area: seq<Slot>, i: nat, p: nat, vpn: nat, files: Files)
    requires i < |area| && !Covers(area[i], p, vpn)
    ensures Absent(area[i := Empty], files, p, vpn) == Absent(area, files, p, vpn)
  {
    var w := area[i := Empty];
    assert forall j :: 0 <= j < |area| ==> Covers(w[j], p, vpn) == Covers(area[j], p, vpn);
  }

  /**
   kmunmap: 0 for an unaligned address, -1 when no area starts there, else 1 and the
   first area that starts there, in slot `i`, is gone with its pages.
   */
  method Kmunmap(k: Machine, p: nat, addr: nat, ghost files: Files) returns (r: int, i: nat)
    requires k.Valid() && p in k.procs
    modifies k`area, k.mem
    ensures k.Valid() && k.mem.held == old(k.mem.held)
    ensures i <= |old(k.area)| && forall j :: 0 <= j < i ==> !StartsAt(old(k.area)[j], p, addr / PGSIZE)
    ensures r == if addr % PGSIZE != 0 then 0 else if i < |old(k.area)| then 1 else -1
    ensures r != 1 ==> k.V() == old(k.V()) && k.Image(files) == old(k.Image(files))
    ensures r == 1 ==>
              && StartsAt(old(k.area)[i], p, addr / PGSIZE) && k.area == old(k.area)[i := Empty]
              && var end := addr / PGSIZE + old(k.area)[i].area.npages;
                 && k.mem.flat == Without(old(k.mem.flat), k.procs[p].root, addr / PGSIZE, end)
                 && Cleared(old(k.Image(files)), k.Image(files), k.area, files, p, addr / PGSIZE, end)
  {
    i := 0;
    if addr % PGSIZE != 0 {
      return 0, i;
    }
    i := TakeStart(k.area, p, addr / PGSIZE);
    if i == |k.area| {
      return -1, i;
    }
    RemoveArea(k, i, files);
    r := 1;
  }

  /** The slots of `p` below `n` are cleared, and their pages unmapped; memory elsewhere is as it was. */
  ghost predicate Dropped(area0: seq<Slot>, flat0: map<Key, Pte>, image0: imap<Key, Page>,
                          area: seq<Slot>, flat: map<Key, Pte>, image: imap<Key, Page>, p: nat, root: nat, n: nat) {
    SlotsDropped(area0, area, p, n) && LeavesDropped(area0, flat0, flat, p, root, n)
        && ImageDropped(area0, image0, image, p, n)
  }

  ghost predicate SlotsDropped(area0: seq<Slot>, area: seq<Slot>, p: nat, n: nat) {
    && n <= |area0| && |area| == |area0|
    && forall i :: 0 <= i < |area| ==>
        area[i] == if i < n && area0[i].Used? && area0[i].area.owner == p then Empty else area0[i]
  }

  ghost predicate LeavesDropped(area0: seq<Slot>, flat0: map<Key, Pte>, flat: map<Key, Pte>, p: nat, root: nat, n: nat)
    requires n <= |area0|
  {
    && (forall k :: k in flat <==> k in flat0 && !(k.0 == root && InAreas(area0[..n], p, k.1)))
    && (forall k :: k in flat ==> flat[k] == flat0[k])
  }

  ghost predicate ImageDropped(area0: seq<Slot>, image0: imap<Key, Page>, image: imap<Key, Page>, p: nat, n: nat)
    requires n <= |area0|
  {
    && image.Keys == image0.Keys
    && forall k: Key :: k in image && !(k.0 == p && InAreas(area0[..n], p, k.1)) ==> image[k] == image0[k]
  }

  /** Dropped, unfolded only at a Gate. */
  ghost predicate DroppedIs(area0: seq<Slot>, flat0: map<Key, Pte>, image0: imap<Key, Page>,
                            area: seq<Slot>, flat: map<Key, Pte>, image: imap<Key, Page>, p: nat, root: nat, n: nat) {
    forall z: nat {:trigger Gate(z)} :: Gate(z) ==> Dropped(area0, flat0, image0, area, flat, image, p, root, n)
  }

  /** Slots up to the next one of `p` add nothing. */
  lemma DroppedSkip(area0: seq<Slot>, flat0: map<Key, Pte>, image0: imap<Key, Page>,
                    area: seq<Slot>, flat: map<Key, Pte>, image: imap<Key, Page>, p: nat, root: nat, n: nat, i: nat)
    requires DroppedIs(area0, flat0, image0, area, flat, image, p, root, n) && n <= i <= |area|
    requires forall j :: n <= j < i ==> area[j].Used? ==> area[j].area.owner != p
    ensures DroppedIs(area0, flat0, image0, area, flat, image, p, root, i)
  {
    assert Gate(0);
    forall u: nat ensures InAreas(area0[..i], p, u) == InAreas(area0[..n], p, u) {
      SkipAreas(area0, p, u, n, i);
    }
  }

  lemma SkipAreas(area: seq<Slot>, p: nat, u: nat, n: nat, i: nat)
    requires n <= i <= |area| && forall j :: n <= j < i ==> area[j].Used? ==> area[j].area.owner != p
    ensures InAreas(area[..i], p, u) == InAreas(area[..n], p, u)
  {
    if InAreas(area[..i], p, u) {
      var j :| 0 <= j < i && Covers(area[..i][j], p, u);
      assert Covers(area[..n][j], p, u);
    }
    if InAreas(area[..n], p, u) {
      var j :| 0 <= j < n && Covers(area[..n][j], p, u);
      assert Covers(area[..i][j], p, u);
    }
  }

  /** Removing the slot's area extends what is dropped by that slot. */
  lemma DroppedNext(area0: seq<Slot>, flat0: map<Key, Pte>, image0: imap<Key, Page>, area1: seq<Slot>, flat1: map<Key,
      Pte>, image1: imap<Key, Page>,
                    area: seq<Slot>, flat: map<Key, Pte>, image: imap<Key, Page>, p: nat, root: nat, i: nat, next: nat,
                        files: Files)
    requires i < |area0| && area0[i].Used? && area0[i].area.owner == p && |area| == |area0| && next == i + 1
    requires DroppedIs(area0, flat0, image0, area1, flat1, image1, p, root, i) && area1 == area[i := area0[i]]
             && area[i] == Empty
    requires flat == Without(flat1, root, area0[i].area.start, area0[i].area.start + area0[i].area.npages)
    requires Cleared(image1, image, area, files, p, area0[i].area.start, area0[i].area.start + area0[i].area.npages)
    ensures DroppedIs(area0, flat0, image0, area, flat, image, p, root, next)
  {
    assert Gate(0);
    assert SlotsDropped(area0, area, p, i + 1) by {
      assert forall j :: 0 <= j < |area| && j != i ==> area[j] == area1[j];
    }
    LeavesNext(area0, flat0, flat1, flat, p, root, i);
    ImageNext(area0, image0, image1, image, area, p, i, files);
  }

  lemma LeavesNext(area0: seq<Slot>, flat0: map<Key, Pte>, flat1: map<Key, Pte>, flat: map<Key, Pte>, p: nat,
      root: nat, i: nat)
    requires i < |area0| && area0[i].Used? && area0[i].area.owner == p && LeavesDropped(area0, flat0, flat1, p, root, i)
    requires flat == Without(flat1, root, area0[i].area.start, area0[i].area.start + area0[i].area.npages)
    ensures LeavesDropped(area0, flat0, flat, p, root, i + 1)
  {
    forall u: nat ensures InAreas(area0[..i + 1], p, u) == (InAreas(area0[..i], p, u) || Covers(area0[i], p, u)) {
      NextArea(area0, p, u, i);
    }
  }

  lemma ImageNext(area0: seq<Slot>, image0: imap<Key, Page>, image1: imap<Key, Page>, image: imap<Key, Page>,
      area: seq<Slot>, p: nat, i: nat, files: Files)
    requires i < |area0| && area0[i].Used? && area0[i].area.owner == p && ImageDropped(area0, image0, image1, p, i)
    requires Cleared(image1, image, area, files, p, area0[i].area.start, area0[i].area.start + area0[i].area.npages)
    ensures ImageDropped(area0, image0, image, p, i + 1)
  {
    forall k: Key | k in image && !(k.0 == p && InAreas(area0[..i + 1], p, k.1)) ensures image[k] == image0[k] {
      NextArea(area0, p, k.1, i);
    }
  }

  lemma NextArea(area: seq<Slot>, p: nat, u: nat, i: nat)
    requires i < |area|
    ensures InAreas(area[..i + 1], p, u) == (InAreas(area[..i], p, u) || Covers(area[i], p, u))
  {
    if InAreas(area[..i + 1], p, u) {
      var j :| 0 <= j < i + 1 && Covers(area[..i + 1][j], p, u);
      if j < i { assert Covers(area[..i][j], p, u); }
    }
    if InAreas(area[..i], p, u) {
      var j :| 0 <= j < i && Covers(area[..i][j], p, u);
      assert Covers(area[..i + 1][j], p, u);
    }
    if Covers(area[i], p, u) { assert Covers(area[..i + 1][i], p, u); }
  }

  /**
   mmapfreeproc: every area of the process goes, with exactly the pages mapped in its
   areas; the slots and the memory of others, and its heap, are untouched.
   */
  method Mmapfreeproc(k: Machine, p: nat, ghost files: Files)
    requires k.Valid() && p in k.procs
    modifies k`area, k.mem
    ensures k.Valid() && k.mem.held == old(k.mem.held) && NoAreas(k.area, p)
    ensures Dropped(old(k.area), old(k.mem.flat), old(k.Image(files)), k.area, k.mem.flat, k.Image(files), p,
            k.procs[p].root, |k.area|)
  {
    ghost var area0, flat0, image0 := k.area, k.mem.flat, k.Image(files);
    var i: nat := TakeAny(k.area, p);
    DroppedStart(area0, flat0, image0, p, k.procs[p].root, i);
    while i < |k.area|
      invariant i <= |k.area| && k.Valid() && k.mem.held == old(k.mem.held) && NextOf(k.area, p, i)
      invariant DroppedIs(area0, flat0, image0, k.area, k.mem.flat, k.Image(files), p, k.procs[p].root, i)
      decreases |k.area| - i
    {
      i := DropNext(k, p, i, files, area0, flat0, image0);
    }
    assert Gate(0);
  }

  /** Slot `i` is the first one of `p`. */
  predicate NextOf(area: seq<Slot>, p: nat, i: nat) {
    && i <= |area| && (i < |area| ==> area[i].Used? && area[i].area.owner == p)
    && forall j :: 0 <= j < i ==> area[j].Used? ==> area[j].area.owner != p
  }

  /** One round of mmapfreeproc. */
  method DropNext(k: Machine, p: nat, i: nat, ghost files: Files, ghost area0: seq<Slot>, ghost flat0: map<Key, Pte>,
      ghost image0: imap<Key, Page>)
    returns (next: nat)
    requires k.Valid() && p in k.procs && i < |k.area| && NextOf(k.area, p, i)
    requires DroppedIs(area0, flat0, image0, k.area, k.mem.flat, k.Image(files), p, k.procs[p].root, i)
    modifies k`area, k.mem
    ensures k.Valid() && k.mem.held == old(k.mem.held) && |k.area| == old(|k.area|) && i < next
            && NextOf(k.area, p, next)
    ensures DroppedIs(area0, flat0, image0, k.area, k.mem.flat, k.Image(files), p, k.procs[p].root, next)
  {
    RemoveArea(k, i, files);
    next := TakeAny(k.area, p);
    DroppedRound(area0, flat0, image0, old(k.area), old(k.mem.flat), old(k.Image(files)), k.area, k.mem.flat,
        k.Image(files),
                 p, k.procs[p].root, i, next, files);
  }

  lemma SlotStays(area0: seq<Slot>, flat0: map<Key, Pte>, image0: imap<Key, Page>,
                  area: seq<Slot>, flat: map<Key, Pte>, image: imap<Key, Page>, p: nat, root: nat, i: nat)
    requires DroppedIs(area0, flat0, image0, area, flat, image, p, root, i) && i < |area|
    ensures |area0| == |area| && area0[i] == area[i]
  {
    assert Gate(0);
  }

  lemma DroppedRound(area0: seq<Slot>, flat0: map<Key, Pte>, image0: imap<Key, Page>, area1: seq<Slot>, flat1: map<Key,
      Pte>, image1: imap<Key, Page>,
                     area: seq<Slot>, flat: map<Key, Pte>, image: imap<Key, Page>, p: nat, root: nat, i: nat,
                         next: nat, files: Files)
    requires i < |area1| && NextOf(area1, p, i) && area == area1[i := Empty] && NextOf(area, p, next)
    requires DroppedIs(area0, flat0, image0, area1, flat1, image1, p, root, i)
    requires flat == Without(flat1, root, area1[i].area.start, area1[i].area.start + area1[i].area.npages)
    requires Cleared(image1, image, area, files, p, area1[i].area.start, area1[i].area.start + area1[i].area.npages)
    ensures i < next && DroppedIs(area0, flat0, image0, area, flat, image, p, root, next)
  {
    SlotStays(area0, flat0, image0, area1, flat1, image1, p, root, i);
    assert area[i := area0[i]] == area1;
    var after: nat := i + 1;
    DroppedNext(area0, flat0, image0, area1, flat1, image1, area, flat, image, p, root, i, after, files);
    DroppedSkip(area0, flat0, image0, area, flat, image, p, root, after, next);
  }

  lemma DroppedStart(area: seq<Slot>, flat: map<Key, Pte>, image: imap<Key, Page>, p: nat, root: nat, i: nat)
    requires NextOf(area, p, i)
    ensures DroppedIs(area, flat, image, area, flat, image, p, root, i)
  {
    DroppedSkip(area, flat, image, area, flat, image, p, root, 0, i);
  }
}
