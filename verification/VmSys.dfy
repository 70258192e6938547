/**
 The operations on process memory: page faults, copies between kernel and user,
 sbrk, mmap and munmap, fork and teardown (kernel/vm.c, kernel/proc.c,
 kernel/sysproc.c).
 */
module VmSys {
  import opened Common
  import opened Gates
  import opened Kalloc
  import opened PageTable
  import opened VmMem
  import opened Vm
  import opened VmUser
  import opened VmView

  /** mmap_pte_perm */
  function AreaPerm(write: bool): (e: Pte)
    ensures IsLeaf(e) && e.u
  {
    Pte(true, true, write, false, true, 0)
  }

  class Machine {
    const mem: Memory
    var area: seq<Slot>
    var procs: map<nat, Proc>
    ghost var owner: map<nat, nat>

    ghost function V(): View
      reads this, mem
    {
      View(mem.flat, mem.role, procs, area, owner)
    }

    ghost predicate Valid()
      reads this, mem
    {
      mem.Valid() && ViewIs(V())
    }

    constructor (m: Memory)
      requires m.Valid() && m.flat == map[] && m.role == map[]
      ensures Valid() && mem == m && procs == map[]
    {
      mem, procs, owner := m, map[], map[];
      area := seq(NMMAPAREA, _ => Empty);
    }

    /** The memory of every process. */
    ghost function Image(files: Files): imap<Key, Page>
      reads this, mem
    {
      ImageOf(mem.flat, mem.data, procs, area, files)
    }

    /** mmap_lookup */
    method MmapLookup(p: nat, vpn: nat) returns (i: nat)
      ensures i == FindArea(area, p, vpn, 0)
    {
      i := 0;
      while i < |area|
        invariant i <= |area| && FindArea(area, p, vpn, 0) == FindArea(area, p, vpn, i)
      {
        if Covers(area[i], p, vpn) {
          return;
        }
        i := i + 1;
      }
    }

    /**
     mmap_map_page: the page is filled from the area's backing and mapped; otherwise no
     translation changes.
     */
    method MmapMapPage(i: nat, vpn: nat, files: Files) returns (ok: bool)
      requires Valid() && i < |area| && area[i].Used?
      modifies mem
      ensures Valid() && mem.held == old(mem.held) && Keeps(old(mem.flat), old(mem.data), mem.data)
      ensures ok ==>
                var a := area[i].area;
                && a.owner in procs && Covers(area[i], a.owner, vpn) && ReadPage(a, vpn, files).Read?
                && (procs[a.owner].root, vpn) !in old(mem.flat)
                && NewPage(old(mem.flat), mem.flat, mem.data, (procs[a.owner].root, vpn), AreaPerm(a.write),
                    Padded(ReadPage(a, vpn, files).bytes))
                && var e := mem.flat[(procs[a.owner].root, vpn)]; e.v && e.u && e.r && !e.x && (e.w <==> a.write)
      ensures !ok ==> mem.flat == old(mem.flat)
      ensures var a := area[i].area;
              && a.owner in procs
              && (ok ==> Mappable(area[i], old(mem.flat), procs[a.owner].root, vpn, files))
              && (Mappable(area[i], old(mem.flat), procs[a.owner].root, vpn, files) ==>
                    Took(old(mem.role), |old(mem.fr.free)|, mem.role, |mem.fr.free|, procs[a.owner].root, vpn, ok))
    {
      var a := area[i].area;
      AreaAt(V(), i);
      ProcAt(V(), a.owner);
      if vpn < a.start || vpn >= a.start + a.npages {
        return false;
      }
      var root := procs[a.owner].root;
      var e := Lookup(mem, root, vpn);
      if e.v {
        return false;
      }
      var got := ReadPage(a, vpn, files);
      if got.ReadFailed? {
        return false;
      }
      ghost var v0 := V();
      ok := MapNew(mem, root, vpn, AreaPerm(a.write), Padded(got.bytes));
      NewPageView(v0, mem.flat, mem.data, mem.role, a.owner, vpn, AreaPerm(a.write), Padded(got.bytes), ok) by {
        assert Within(area[i], a.owner, vpn, vpn + 1);
      }
    }

    /** vmfault: when it succeeds the page is mapped, and no process's memory changes either way. */
    method Vmfault(p: nat, vpn: nat, read: bool, files: Files) returns (ok: bool)
      requires Valid() && p in procs
      modifies mem
      ensures Valid() && mem.held == old(mem.held) && Image(files) == old(Image(files))
      ensures ok ==> Faultable(old(V()), p, vpn, read, files)
      ensures ok ==>
                (procs[p].root, vpn) in mem.flat
                && mem.flat == old(mem.flat)[(procs[p].root, vpn) := mem.flat[(procs[p].root, vpn)]]
      ensures ok ==>
                var e, i := mem.flat[(procs[p].root, vpn)], FindArea(area, p, vpn, 0);
                e.v && e.u && e.r && !e.x && (e.w <==> (i < |area| ==> area[i].area.write)) && (!read ==> e.w)
      ensures !ok ==> mem.flat == old(mem.flat)
      ensures Faultable(old(V()), p, vpn, read, files) ==>
                Took(old(mem.role), |old(mem.fr.free)|, mem.role, |mem.fr.free|, procs[p].root, vpn, ok)
    {
      ProcAt(V(), p);
      var root := procs[p].root;
      var i := MmapLookup(p, vpn);
      if i < |area| {
        if !read && !area[i].area.write {
          return false;
        }
        ok := MmapMapPage(i, vpn, files);
        if ok {
          FaultKeepsImage(old(mem.flat), old(mem.data), mem.flat, mem.data, procs, area, p, files);
        } else {
          KeepsImage(mem.flat, old(mem.data), mem.data, procs, area, files);
        }
        return;
      }
      if vpn >= MMAPVPN || vpn * PGSIZE >= procs[p].sz {
        return false;
      }
      ok := HeapFault(p, vpn, files);
    }

    /** The heap branch of vmfault. */
    method HeapFault(p: nat, vpn: nat, files: Files) returns (ok: bool)
      requires Valid() && p in procs && vpn < PgUp(procs[p].sz) && vpn < MMAPVPN
      modifies mem
      ensures Valid() && mem.held == old(mem.held) && Image(files) == old(Image(files))
      ensures ok ==> (procs[p].root, vpn) !in old(mem.flat) && (procs[p].root, vpn) in mem.flat
      ensures ok ==> mem.flat == old(mem.flat)[(procs[p].root, vpn) := mem.flat[(procs[p].root, vpn)]]
      ensures ok ==>
                mem.flat[(procs[p].root, vpn)]
                    == Pte(true, true, true, false, true, mem.flat[(procs[p].root, vpn)].frame)
      ensures !ok ==> mem.flat == old(mem.flat)
      ensures (procs[p].root, vpn) !in old(mem.flat) ==>
                Took(old(mem.role), |old(mem.fr.free)|, mem.role, |mem.fr.free|, procs[p].root, vpn, ok)
    {
      ProcAt(V(), p);
      var root := procs[p].root;
      var e := Lookup(mem, root, vpn);
      if e.v {
        return false;
      }
      ghost var v0 := V();
      HeapAbsent(v0, p, vpn, files);
      ok := MapNew(mem, root, vpn, USER_RW, Filled(0));
      NewPageView(v0, mem.flat, mem.data, mem.role, p, vpn, USER_RW, Filled(0), ok);
      if ok {
        FaultKeepsImage(old(mem.flat), old(mem.data), mem.flat, mem.data, procs, area, p, files);
      } else {
        KeepsImage(mem.flat, old(mem.data), mem.data, procs, area, files);
      }
    }

    /**
     growproc.  Growing adds zero-filled pages, which is what they counted as; shrinking
     makes the pages above PGROUNDUP of the new size read as zeros.
     */
    method Growproc(p: nat, n: int, ghost files: Files) returns (ok: bool)
      requires Valid() && p in procs && -0x8000_0000 <= n < 0x8000_0000
      modifies this`procs, mem
      ensures Valid() && mem.held == old(mem.held)
      ensures procs == if ok then old(procs)[p := old(procs)[p].(sz := NewSize(old(procs)[p].sz, n))] else old(procs)
      ensures n >= 0 ==> Image(files) == old(Image(files))
      ensures n < 0 ==>
              ok && Cleared(old(Image(files)), Image(files), area, files, p, PgUp(procs[p].sz), PgUp(old(procs)[p].sz))
      ensures ok ==> NewSize(old(procs)[p].sz, n) <= MMAPBASE
      ensures if n <= 0 then ok else CanGrow(ok, old(mem.role), |old(mem.fr.free)|, old(procs)[p], n)
      ensures n < 0 ==>
              mem.flat == Without(old(mem.flat), procs[p].root, PgUp(procs[p].sz), PgUp(old(procs)[p].sz))
      ensures n >= 0 ==> MapGrew(old(mem.flat), mem.flat)
      ensures n > 0 ==>
              HeapAdded(ok, old(mem.flat), mem.flat, procs[p].root, PgUp(old(procs)[p].sz), PgUp(old(procs)[p].sz + n))
      ensures n == 0 ==> mem.M() == old(mem.M()) && mem.data == old(mem.data)
    {
      ok := true;
      if n > 0 {
        ok := GrowHeap(p, n, files);
      } else if n < 0 {
        ShrinkHeap(p, n, files);
      } else {
        assert procs[p := procs[p].(sz := procs[p].sz)] == procs;
        ProcAt(V(), p);
      }
    }

    /** growproc with n > 0 */
    method GrowHeap(p: nat, n: nat, ghost files: Files) returns (ok: bool)
      requires Valid() && p in procs && n > 0
      modifies this`procs, mem
      ensures Valid() && mem.held == old(mem.held) && Image(files) == old(Image(files))
      ensures procs == if ok then old(procs)[p := old(procs)[p].(sz := old(procs)[p].sz + n)] else old(procs)
      ensures ok ==> procs[p].sz <= MMAPBASE
      ensures CanGrow(ok, old(mem.role), |old(mem.fr.free)|, old(procs)[p], n) && MapGrew(old(mem.flat), mem.flat)
      ensures HeapAdded(ok, old(mem.flat), mem.flat, procs[p].root, PgUp(old(procs)[p].sz), PgUp(old(procs)[p].sz + n))
    {
      ProcAt(V(), p);
      ghost var v0 := V();
      var sz := procs[p].sz;
      if sz + n > MMAPBASE {
        HeapAddedIs(false, mem.flat, mem.flat, mem.data, procs[p].root, PgUp(sz), PgUp(sz + n));
        CanGrowIs(mem.role, |mem.fr.free|, procs[p], n, sz + n, false);
        return false;
      }
      ghost var v;
      ok, v := AddPages(p, sz + n, n, files);
      if ok {
        procs := procs[p := procs[p].(sz := sz + n)];
      }
      assert V() == v;
    }

    /** growproc's call of uvmalloc, and the address spaces once p->sz follows. */
    method AddPages(p: nat, sz: nat, ghost n: nat, ghost files: Files) returns (ok: bool, ghost w: View)
      requires Valid() && p in procs && procs[p].sz < sz <= MMAPBASE && sz == procs[p].sz + n
      modifies mem
      ensures mem.Valid() && mem.held == old(mem.held)
      ensures w == V().(procs := if ok then procs[p := procs[p].(sz := sz)] else procs)
      ensures ViewIs(w) && ImageOf(mem.flat, mem.data, w.procs, area, files) == old(Image(files))
      ensures CanGrow(ok, old(mem.role), |old(mem.fr.free)|, procs[p], n) && MapGrew(old(mem.flat), mem.flat)
      ensures HeapAdded(ok, old(mem.flat), mem.flat, procs[p].root, PgUp(procs[p].sz), PgUp(sz))
    {
      ProcAt(V(), p);
      ghost var v0 := V();
      HeapTop(v0, p);
      var r := Uvmalloc(mem, procs[p].root, procs[p].sz, sz, USER_RW);
      ok := r != 0;
      HeapAddedIs(ok, v0.flat, mem.flat, mem.data, procs[p].root, PgUp(procs[p].sz), PgUp(sz));
      CanGrowIs(old(mem.role), |old(mem.fr.free)|, procs[p], n, sz, ok);
      w := Eager(v0, old(mem.data), mem.flat, mem.data, mem.role, p, sz, ok, files);
    }

    /** growproc with n < 0; the new size is computed in uint64 arithmetic. */
    method ShrinkHeap(p: nat, n: int, ghost files: Files)
      requires Valid() && p in procs && -0x8000_0000 <= n < 0
      modifies this`procs, mem
      ensures Valid() && mem.held == old(mem.held)
      ensures procs == old(procs)[p := old(procs)[p].(sz := NewSize(old(procs)[p].sz, n))]
      ensures procs[p].sz <= MMAPBASE
      ensures Cleared(old(Image(files)), Image(files), area, files, p, PgUp(procs[p].sz), PgUp(old(procs)[p].sz))
      ensures mem.flat == Without(old(mem.flat), procs[p].root, PgUp(procs[p].sz), PgUp(old(procs)[p].sz))
    {
      ProcAt(V(), p);
      ghost var v0 := V();
      var sz := procs[p].sz;
      var newsz: nat := if sz + n >= 0 then sz + n else sz + n + 0x1_0000_0000_0000_0000;
      var r := Uvmdealloc(mem, procs[p].root, sz, newsz);
      assert r == NewSize(sz, n);
      ShrinkView(v0, mem.flat, p, r);
      UnmapClears(v0.flat, old(mem.data), mem.flat, mem.data, procs, area, p, PgUp(r), PgUp(sz), files);
      SizeKeepsImage(mem.flat, mem.data, procs, p, r, area, files);
      procs := procs[p := procs[p].(sz := r)];
    }

    /**
     sys_sbrk.  Lazy and eager growth have the same effect on what processes see; the
     old size is returned.
     */
    method SysSbrk(p: nat, n: int, eager: bool, ghost files: Files) returns (ok: bool, addr: nat)
      requires Valid() && p in procs && -0x8000_0000 <= n < 0x8000_0000
      modifies this`procs, mem
      ensures Valid() && mem.held == old(mem.held) && addr == old(procs)[p].sz
      ensures procs == if ok then old(procs)[p := old(procs)[p].(sz := NewSize(addr, n))] else old(procs)
      ensures n >= 0 ==> Image(files) == old(Image(files))
      ensures n < 0 ==>
              ok && Cleared(old(Image(files)), Image(files), area, files, p, PgUp(NewSize(addr, n)), PgUp(addr))
      ensures if n <= 0 then ok else if !eager then ok <==> addr + n <= MMAPBASE
              else CanGrow(ok, old(mem.role), |old(mem.fr.free)|, old(procs)[p], n)
      ensures n < 0 ==> mem.flat == Without(old(mem.flat), procs[p].root, PgUp(procs[p].sz), PgUp(addr))
      ensures n >= 0 ==> MapGrew(old(mem.flat), mem.flat)
      ensures n > 0 && eager ==> HeapAdded(ok, old(mem.flat), mem.flat, procs[p].root, PgUp(addr), PgUp(addr + n))
      ensures n == 0 || (n > 0 && !eager) ==> mem.M() == old(mem.M()) && mem.data == old(mem.data)
    {
      ProcAt(V(), p);
      addr := procs[p].sz;
      if eager || n < 0 {
        ok := Growproc(p, n, files);
      } else {
        ok := LazyGrow(p, n, files);
      }
    }

    /**
     The heap given back and grown again, lazily or at once: a byte of the old heap then
     reads as zero if and only if it is beyond the last page kept or was zero before.
     */
    method Regrow(p: nat, n: nat, eager: bool, ghost files: Files) returns (ok: bool)
      requires Valid() && p in procs && n < 0x8000_0000
      modifies this`procs, mem
      ensures Valid() && mem.held == old(mem.held)
      ensures p in procs && procs == old(procs)[p := old(procs)[p].(sz := procs[p].sz)]
      ensures ok ==> procs[p].sz == NewSize(old(procs)[p].sz, 0 - n) + n
      ensures ShrunkTo(old(Image(files)), Image(files), p, old(procs)[p].sz, NewSize(old(procs)[p].sz, 0 - n))
      ensures MapGrew(Without(old(mem.flat), procs[p].root, PgUp(NewSize(old(procs)[p].sz, 0 - n)),
                PgUp(old(procs)[p].sz)),
                mem.flat)
    {
      GiveBack(p, n, eager, files);
      var addr;
      ok, addr := SysSbrk(p, n, eager, files);
    }

    /** sbrk(-n) */
    method GiveBack(p: nat, n: nat, eager: bool, ghost files: Files)
      requires Valid() && p in procs && n < 0x8000_0000
      modifies this`procs, mem
      ensures Valid() && mem.held == old(mem.held)
      ensures procs == old(procs)[p := old(procs)[p].(sz := NewSize(old(procs)[p].sz, 0 - n))]
      ensures ShrunkTo(old(Image(files)), Image(files), p, old(procs)[p].sz, procs[p].sz)
      ensures mem.flat == Without(old(mem.flat), procs[p].root, PgUp(procs[p].sz), PgUp(old(procs)[p].sz))
    {
      ProcAt(V(), p);
      ghost var image0, sz, flat0 := Image(files), procs[p].sz, mem.flat;
      var ok, addr := SysSbrk(p, 0 - n, eager, files);
      if n > 0 {
        RegrownBytes(V(), image0, Image(files), p, sz, procs[p].sz, files);
      } else {
        SameBytes(image0, p, sz);
        NothingWithout(flat0, mem.flat, procs[p].root, PgUp(sz));
      }
    }

    /** Two bytes of heap, a 7 written to the second, which is given back and grown again: it still reads 7. */
    method RegrowShowsOld(p: nat, files: Files) returns (b: seq<bv8>)
      requires Valid() && p in procs && procs[p].sz == 0 && |mem.fr.free| >= 3
      modifies this`procs, mem
      ensures Valid() && b == [7]
    {
      WriteSeven(p, files);
      TakeBackSeven(p, files);
      b := ReadSeven(p, files);
    }

    method WriteSeven(p: nat, files: Files)
      requires Valid() && p in procs && procs[p].sz == 0 && |mem.fr.free| >= 3
      modifies this`procs, mem
      ensures Valid() && p in procs && procs[p].sz == 2 && UserMapped(V(), p, 0) && ByteOf(Image(files), p, 1) == 7
    {
      HeapTop(V(), p);
      var ok, addr := SysSbrk(p, 2, false, files);
      ghost var v0, free0 := V(), |mem.fr.free|;
      var n;
      ok, n := Copyout(p, 1, [7], files);
      HeapAbsent(v0, p, 0, files);
      OneByte(v0, free0, p, 1, false, files, ok);
    }

    method TakeBackSeven(p: nat, ghost files: Files)
      requires Valid() && p in procs && procs[p].sz == 2 && UserMapped(V(), p, 0)
      modifies this`procs, mem
      ensures Valid() && p in procs && UserMapped(V(), p, 0)
              && ByteOf(Image(files), p, 1) == old(ByteOf(Image(files), p, 1))
    {
      ghost var flat0 := mem.flat;
      var ok := Regrow(p, 1, false, files);
      ByteStays(old(Image(files)), Image(files), p, flat0, mem.flat, procs[p].root);
    }

    method ReadSeven(p: nat, files: Files) returns (b: seq<bv8>)
      requires Valid() && p in procs && UserMapped(V(), p, 0) && ByteOf(Image(files), p, 1) == 7
      modifies mem
      ensures Valid() && b == [7]
    {
      ghost var v0, free0 := V(), |mem.fr.free|;
      var ok;
      ok, b := Copyin(p, 1, 1, files);
      OneByte(v0, free0, p, 1, true, files, ok);
      assert b[0] == ByteOf(Image(files), p, 1);
    }

    /** The lazy branch of sys_sbrk: only the size changes. */
    method LazyGrow(p: nat, n: nat, ghost files: Files) returns (ok: bool)
      requires Valid() && p in procs
      modifies this`procs
      ensures Valid() && Image(files) == old(Image(files)) && (ok <==> old(procs)[p].sz + n <= MMAPBASE)
      ensures procs == if ok then old(procs)[p := old(procs)[p].(sz := old(procs)[p].sz + n)] else old(procs)
    {
      var addr := procs[p].sz;
      if addr + n > MMAPBASE {
        return false;
      }
      LazyView(V(), p, addr + n);
      SizeKeepsImage(mem.flat, mem.data, procs, p, addr + n, area, files);
      procs := procs[p := procs[p].(sz := addr + n)];
      ok := true;
    }

    /** walkaddr, with vmfault for an absent page: the physical page behind a user page. */
    method UserPage(p: nat, vpn: nat, read: bool, files: Files) returns (ok: bool, f: nat)
      requires Valid() && p in procs && vpn < MAXVPN
      modifies mem
      ensures Valid() && mem.held == old(mem.held) && Image(files) == old(Image(files))
      ensures ok ==> UserMapped(V(), p, vpn) && mem.flat[(procs[p].root, vpn)].frame == f
      ensures !ok ==> !UserMapped(V(), p, vpn) && mem.flat == old(mem.flat)
      ensures UserMapped(old(V()), p, vpn) ==> ok && mem.M() == old(mem.M())
      ensures !UserMapped(old(V()), p, vpn) && ok ==>
                && Faultable(old(V()), p, vpn, read, files) && (!read ==> mem.flat[(procs[p].root, vpn)].w)
                && mem.flat == old(mem.flat)[(procs[p].root, vpn) := mem.flat[(procs[p].root, vpn)]]
      ensures !UserMapped(old(V()), p, vpn) && Faultable(old(V()), p, vpn, read, files) ==>
                Took(old(mem.role), |old(mem.fr.free)|, mem.role, |mem.fr.free|, procs[p].root, vpn, ok)
    {
      ProcAt(V(), p);
      var e := Lookup(mem, procs[p].root, vpn);
      if !(e.v && e.u) {
        ok := Vmfault(p, vpn, read, files);
        if !ok {
          return false, 0;
        }
        ProcAt(V(), p);
        e := Lookup(mem, procs[p].root, vpn);
      }
      ok, f := true, e.frame;
    }

    /**
     The same in a loop over pages: `done` are the pages this copy has brought in, out of
     those that are not there, `all`.
     */
    method CopyPage(p: nat, vpn: nat, read: bool, files: Files, ghost v0: View, ghost free0: nat, ghost done: set<nat>,
        ghost all: set<nat>, ghost next: set<nat>)
      returns (ok: bool, f: nat)
      requires Valid() && p in procs && vpn < MAXVPN && Copying(v0, free0, V(), |mem.fr.free|, p, done)
      requires Visit(v0, p, vpn, done, all, next)
      modifies mem
      ensures Valid() && mem.held == old(mem.held) && Image(files) == old(Image(files))
      ensures MapGrew(old(mem.flat), mem.flat) && v0.procs == procs
      ensures ok ==> UserMapped(V(), p, vpn) && mem.flat[(procs[p].root, vpn)].frame == f
      ensures ok ==> Copying(v0, free0, V(), |mem.fr.free|, p, next)
      ensures ok ==> ReachIs(read || mem.flat[(procs[p].root, vpn)].w, v0, p, vpn, read, files)
      ensures !ok ==> Blocked(V(), p, vpn)
      ensures !ok ==> ReachIs(false, v0, p, vpn, read, files) || Afford(false, free0, v0.role, v0.procs[p].root, all)
    {
      ghost var v1, free1 := V(), |mem.fr.free|;
      SameReach(v0, free0, v1, free1, p, vpn, read, files, done, all, next);
      ok, f := UserPage(p, vpn, read, files);
      CopyingNext(v0, free0, v1, free1, V(), |mem.fr.free|, p, vpn, read, files, done, all, next, ok);
    }

    /**
     copyin: exactly the bytes the process sees, across pages, and nothing changes for
     anyone.  It succeeds exactly when every page of the range is mapped for the user or
     can be faulted in, and there is memory for those that have to be.
     */
    method Copyin(p: nat, srcva: nat, len: nat, files: Files) returns (ok: bool, dst: seq<bv8>)
      requires Valid() && p in procs
      modifies mem
      ensures Valid() && mem.held == old(mem.held) && Image(files) == old(Image(files))
      ensures dst == Bytes(old(Image(files)), p, srcva, |dst|)
      ensures ok ==> |dst| == len
      ensures !ok ==> |dst| < len && Blocked(V(), p, (srcva + |dst|) / PGSIZE)
      ensures CanCopy(ok, old(V()), |old(mem.fr.free)|, p, srcva, len, true, files)
    {
      ok, dst := CopyinPages(p, srcva, len, files, V(), |mem.fr.free|, Image(files));
    }

    /** The loop of copyin. */
    method CopyinPages(p: nat, srcva: nat, len: nat, files: Files, ghost v0: View, ghost free0: nat,
        ghost image0: imap<Key, Page>)
      returns (ok: bool, dst: seq<bv8>)
      requires Valid() && p in procs && v0 == V() && free0 == |mem.fr.free| && image0 == Image(files)
      modifies mem
      ensures Valid() && mem.held == old(mem.held) && Image(files) == image0
      ensures dst == Bytes(image0, p, srcva, |dst|)
      ensures ok ==> |dst| == len && CanCopy(true, v0, free0, p, srcva, len, true, files)
      ensures !ok ==> |dst| < len && Blocked(V(), p, (srcva + |dst|) / PGSIZE)
      ensures !ok ==> CanCopy(false, v0, free0, p, srcva, len, true, files)
    {
      dst := [];
      ghost var done: set<nat> := {};
      ProgressStart(v0, free0, p, srcva, len, true, files);
      while |dst| < len
        invariant |dst| <= len && Valid() && mem.held == old(mem.held) && Image(files) == image0
        invariant dst == Bytes(image0, p, srcva, |dst|)
        invariant Progress(v0, free0, V(), |mem.fr.free|, p, srcva, len, true, files, done, |dst|)
        decreases len - |dst|
      {
        ok, dst, done := CopyinNext(p, srcva, len, files, dst, v0, free0, done, image0);
        if !ok {
          return;
        }
      }
      ProgressEnd(v0, free0, V(), |mem.fr.free|, p, srcva, len, true, files, done);
      ok := true;
    }

    /** One round of that loop. */
    method CopyinNext(p: nat, srcva: nat, len: nat, files: Files, dst: seq<bv8>, ghost v0: View, ghost free0: nat,
        ghost done: set<nat>, ghost image0: imap<Key, Page>)
      returns (ok: bool, more: seq<bv8>, ghost next: set<nat>)
      requires Valid() && p in procs && |dst| < len && image0 == Image(files) && dst == Bytes(image0, p, srcva, |dst|)
      requires Progress(v0, free0, V(), |mem.fr.free|, p, srcva, len, true, files, done, |dst|)
      modifies mem
      ensures Valid() && mem.held == old(mem.held) && Image(files) == image0
      ensures ok ==> |dst| < |more| <= len && more == Bytes(image0, p, srcva, |more|)
      ensures ok ==> Progress(v0, free0, V(), |mem.fr.free|, p, srcva, len, true, files, next, |more|)
      ensures !ok ==> more == dst && Blocked(V(), p, (srcva + |dst|) / PGSIZE)
      ensures !ok ==> CanCopy(false, v0, free0, p, srcva, len, true, files)
    {
      var chunk;
      ok, chunk, next := CopyinRound(p, srcva, len, |dst|, files, v0, free0, done, image0);
      if !ok {
        return false, dst, next;
      }
      BytesJoin(image0, p, srcva, |dst|, |chunk|);
      more := dst + chunk;
      assert |more| == |dst| + |chunk|;
    }

    /** Its effect on pages. */
    method CopyinRound(p: nat, srcva: nat, len: nat, d: nat, files: Files, ghost v0: View, ghost free0: nat,
        ghost done: set<nat>, ghost image0: imap<Key, Page>)
      returns (ok: bool, chunk: seq<bv8>, ghost next: set<nat>)
      requires Valid() && p in procs && d < len && image0 == Image(files)
      requires Progress(v0, free0, V(), |mem.fr.free|, p, srcva, len, true, files, done, d)
      modifies mem
      ensures Valid() && mem.held == old(mem.held) && Image(files) == image0
      ensures ok ==> 0 < |chunk| <= len - d && chunk == Bytes(image0, p, srcva + d, |chunk|)
      ensures ok ==> Progress(v0, free0, V(), |mem.fr.free|, p, srcva, len, true, files, next, d + |chunk|)
      ensures !ok ==> Blocked(V(), p, (srcva + d) / PGSIZE) && CanCopy(false, v0, free0, p, srcva, len, true, files)
    {
      ghost var v1, free1 := V(), |mem.fr.free|;
      ghost var all;
      var vpn := (srcva + d) / PGSIZE;
      all, next := ProgressAt(v0, free0, v1, free1, p, srcva, len, true, files, done, d, vpn);
      ok, chunk := CopyinPage(p, srcva + d, vpn, len - d, files, v0, free0, done, all, next);
      if ok {
        ProgressNext(v0, free0, v1, free1, V(), |mem.fr.free|, p, srcva, len, true, files, done, all, next, d,
            d + |chunk|, vpn);
      } else {
        CannotReach(v0, free0, p, srcva, len, d, true, files, all, vpn);
      }
    }

    /** One round of copyin: up to the end of the page. */
    method CopyinPage(p: nat, va: nat, vpn: nat, len: nat, files: Files, ghost v0: View, ghost free0: nat,
        ghost done: set<nat>,
        ghost all: set<nat>, ghost next: set<nat>)
      returns (ok: bool, chunk: seq<bv8>)
      requires Valid() && p in procs && len > 0 && vpn == va / PGSIZE && Copying(v0, free0, V(), |mem.fr.free|, p, done)
      requires Visit(v0, p, vpn, done, all, next)
      modifies mem
      ensures Valid() && mem.held == old(mem.held) && Image(files) == old(Image(files))
      ensures ok ==>
                && |chunk| == Chunk(va, len) && chunk == Bytes(Image(files), p, va, |chunk|)
                && Copying(v0, free0, V(), |mem.fr.free|, p, next) && ReachIs(true, v0, p, vpn, true, files)
      ensures !ok ==> Blocked(V(), p, vpn)
      ensures !ok ==> ReachIs(false, v0, p, vpn, true, files) || Afford(false, free0, v0.role, v0.procs[p].root, all)
    {
      CopyingProcs(v0, free0, V(), |mem.fr.free|, p, done);
      var off := va % PGSIZE;
      if vpn >= MAXVPN {
        BeyondMax(v0, p, vpn, true, files);
        return false, [];
      }
      var f;
      ok, f := CopyPage(p, vpn, true, files, v0, free0, done, all, next);
      if !ok {
        return false, [];
      }
      UserSees(V(), mem.M(), mem.data, p, vpn, files);
      var n := if PGSIZE - off < len then PGSIZE - off else len;
      ReadBytes(Image(files), p, va, n, mem.data[f]);
      chunk := mem.data[f][off..off + n];
    }

    /**
     copyout: exactly the given bytes are written, up to the point where it stops; other
     processes see a change only through a page they share.  It succeeds exactly when
     every page of the range is mapped writable for the user or can be faulted in for
     writing, and there is memory for those that have to be.
     */
    method Copyout(p: nat, dstva: nat, src: seq<bv8>, files: Files) returns (ok: bool, n: nat)
      requires Valid() && p in procs
      modifies mem
      ensures Valid() && mem.held == old(mem.held)
      ensures n <= |src| && Wrote(old(Image(files)), Image(files), p, dstva, src[..n])
              && OthersSee(V(), old(Image(files)), Image(files), p)
      ensures ok ==> n == |src|
      ensures !ok ==> n < |src| && Refused(V(), p, (dstva + n) / PGSIZE)
      ensures CanCopy(ok, old(V()), |old(mem.fr.free)|, p, dstva, |src|, false, files)
      ensures ok ==> forall i: nat :: dstva / PGSIZE <= i < PageAt(dstva, |src|, |src|) ==> UserMapped(V(), p, i)
    {
      ok, n := CopyoutPages(p, dstva, src, files, V(), |mem.fr.free|, Image(files));
      OpenCopied(V(), old(Image(files)), Image(files), p, dstva, src, n);
    }

    /** The loop of copyout. */
    method CopyoutPages(p: nat, dstva: nat, src: seq<bv8>, files: Files, ghost v0: View, ghost free0: nat,
        ghost image0: imap<Key, Page>)
      returns (ok: bool, n: nat)
      requires Valid() && p in procs && v0 == V() && free0 == |mem.fr.free| && image0 == Image(files)
      modifies mem
      ensures Valid() && mem.held == old(mem.held)
      ensures n <= |src| && CopiedOut(V(), image0, Image(files), p, dstva, src, n)
      ensures ok ==> n == |src| && CanCopy(true, v0, free0, p, dstva, |src|, false, files)
      ensures ok ==> forall i: nat :: dstva / PGSIZE <= i < PageAt(dstva, |src|, |src|) ==> UserMapped(V(), p, i)
      ensures !ok ==> n < |src| && Refused(V(), p, (dstva + n) / PGSIZE)
      ensures !ok ==> CanCopy(false, v0, free0, p, dstva, |src|, false, files)
    {
      n := 0;
      ghost var done: set<nat> := {};
      WroteStart(V(), Image(files), p, dstva, src);
      ProgressStart(v0, free0, p, dstva, |src|, false, files);
      while n < |src|
        invariant n <= |src| && Valid() && mem.held == old(mem.held)
        invariant CopiedOut(V(), image0, Image(files), p, dstva, src, n)
        invariant Progress(v0, free0, V(), |mem.fr.free|, p, dstva, |src|, false, files, done, n)
      {
        ok, n, done := CopyoutNext(p, dstva, src, n, files, image0, v0, free0, done);
        if !ok {
          return;
        }
      }
      ProgressEnd(v0, free0, V(), |mem.fr.free|, p, dstva, |src|, false, files, done);
      ok := true;
    }

    /** One round of that loop. */
    method CopyoutNext(p: nat, dstva: nat, src: seq<bv8>, n: nat, files: Files, ghost image0: imap<Key, Page>,
        ghost v0: View, ghost free0: nat, ghost done: set<nat>)
      returns (ok: bool, end: nat, ghost next: set<nat>)
      requires Valid() && p in procs && n < |src| && CopiedOut(V(), image0, Image(files), p, dstva, src, n)
      requires Progress(v0, free0, V(), |mem.fr.free|, p, dstva, |src|, false, files, done, n)
      modifies mem
      ensures Valid() && mem.held == old(mem.held)
      ensures n <= end <= |src| && CopiedOut(V(), image0, Image(files), p, dstva, src, end)
      ensures ok ==> n < end && Progress(v0, free0, V(), |mem.fr.free|, p, dstva, |src|, false, files, next, end)
      ensures !ok ==> end == n && Refused(V(), p, (dstva + n) / PGSIZE)
      ensures !ok ==> CanCopy(false, v0, free0, p, dstva, |src|, false, files)
    {
      ghost var image1, v1 := Image(files), V();
      var m;
      ok, m, end, next := CopyoutRound(p, dstva, src, n, files, v0, free0, done);
      CopiedMore(image0, image1, Image(files), v1, V(), p, dstva, src, n, m, ok, end);
    }

    /** Its effect on memory and pages. */
    method CopyoutRound(p: nat, dstva: nat, src: seq<bv8>, n: nat, files: Files, ghost v0: View, ghost free0: nat,
        ghost done: set<nat>)
      returns (ok: bool, m: nat, end: nat, ghost next: set<nat>)
      requires Valid() && p in procs && n < |src|
      requires Progress(v0, free0, V(), |mem.fr.free|, p, dstva, |src|, false, files, done, n)
      modifies mem
      ensures Valid() && mem.held == old(mem.held) && MapGrew(old(mem.flat), mem.flat)
      ensures ok ==> 0 < m <= |src| - n && WroteOne(V(), old(Image(files)), Image(files), p, dstva + n, src[n..][..m])
      ensures end == (if ok then n + m else n)
      ensures ok ==> Progress(v0, free0, V(), |mem.fr.free|, p, dstva, |src|, false, files, next, end)
      ensures !ok ==> Image(files) == old(Image(files)) && Refused(V(), p, (dstva + n) / PGSIZE)
      ensures !ok ==> CanCopy(false, v0, free0, p, dstva, |src|, false, files)
    {
      ghost var v1, free1 := V(), |mem.fr.free|;
      ghost var all;
      var vpn := (dstva + n) / PGSIZE;
      all, next := ProgressAt(v0, free0, v1, free1, p, dstva, |src|, false, files, done, n, vpn);
      ok, m := CopyoutPage(p, dstva + n, vpn, src[n..], files, v0, free0, done, all, next);
      end := if ok then n + m else n;
      if ok {
        ProgressNext(v0, free0, v1, free1, V(), |mem.fr.free|, p, dstva, |src|, false, files, done, all, next, n, end,
            vpn);
      } else {
        CannotReach(v0, free0, p, dstva, |src|, n, false, files, all, vpn);
      }
    }

    /** One round of copyout: up to the end of the page. */
    method CopyoutPage(p: nat, va: nat, vpn: nat, src: seq<bv8>, files: Files, ghost v0: View, ghost free0: nat,
        ghost done: set<nat>, ghost all: set<nat>, ghost next: set<nat>)
      returns (ok: bool, n: nat)
      requires Valid() && p in procs && |src| > 0 && vpn == va / PGSIZE
               && Copying(v0, free0, V(), |mem.fr.free|, p, done)
      requires Visit(v0, p, vpn, done, all, next)
      modifies mem
      ensures Valid() && mem.held == old(mem.held)
      ensures MapGrew(old(mem.flat), mem.flat)
      ensures ok ==> n == Chunk(va, |src|) && WroteOne(V(), old(Image(files)), Image(files), p, va, src[..n])
      ensures ok ==> Copying(v0, free0, V(), |mem.fr.free|, p, next) && ReachIs(true, v0, p, vpn, false, files)
      ensures !ok ==> Image(files) == old(Image(files)) && Refused(V(), p, vpn)
      ensures !ok ==> ReachIs(false, v0, p, vpn, false, files) || Afford(false, free0, v0.role, v0.procs[p].root, all)
    {
      CopyingProcs(v0, free0, V(), |mem.fr.free|, p, done);
      n := 0;
      var off := va % PGSIZE;
      if vpn >= MAXVPN {
        BeyondMax(v0, p, vpn, false, files);
        ok := false;
        return;
      }
      var f;
      ok, f := CopyPage(p, vpn, false, files, v0, free0, done, all, next);
      if !ok {
        return;
      }
      ProcAt(V(), p);
      var e := Lookup(mem, procs[p].root, vpn);
      if !e.w {
        ok := false;
        return;
      }
      n := if PGSIZE - off < |src| then PGSIZE - off else |src|;
      PutBytes(p, va, vpn, f, src[..n], files);
    }

    /** The memmove of copyout. */
    method PutBytes(p: nat, va: nat, vpn: nat, f: nat, b: seq<bv8>, ghost files: Files)
      requires Valid() && p in procs && vpn == va / PGSIZE && va % PGSIZE + |b| <= PGSIZE
      requires UserMapped(V(), p, vpn) && mem.flat[(procs[p].root, vpn)].frame == f
      modifies mem`data
      ensures Valid() && WroteOne(V(), old(Image(files)), Image(files), p, va, b)
    {
      UserSees(V(), mem.M(), mem.data, p, vpn, files);
      ghost var data1 := mem.data;
      mem.data := mem.data[f := Splice(mem.data[f], va % PGSIZE, b)];
      SpliceImage(V(), data1, mem.data, p, va, b, files);
    }
  }

  /** When a page of an area can be brought in, memory permitting: it is absent, and its backing can be read. */
  ghost predicate Mappable(s: Slot, flat: map<Key, Pte>, root: nat, vpn: nat, files: Files) {
    s.Used? && Covers(s, s.area.owner, vpn) && ReadPage(s.area, vpn, files).Read? && (root, vpn) !in flat
  }

  /**
   `ok` says whether the heap can grow by `n` at once: below the limit, with memory for the
   pages and the missing tables (unfolded only at a Gate).
   */
  ghost predicate CanGrow(ok: bool, role: map<nat, Role>, free: nat, pr: Proc, n: nat) {
    forall z: nat {:trigger Gate(z)} :: Gate(z) ==>
      (ok <==> pr.sz + n <= MMAPBASE && free >= Cost(role, pr.root, Range(PgUp(pr.sz), PgUp(pr.sz + n))))
  }

  lemma CanGrowIs(role: map<nat, Role>, free: nat, pr: Proc, n: nat, sz: nat, ok: bool)
    requires sz == pr.sz + n && if sz <= MMAPBASE then Afford(ok, free, role, pr.root, Range(PgUp(pr.sz), PgUp(sz)))
               else !ok
    ensures CanGrow(ok, role, free, pr, n)
  {
    assert Gate(0);
  }

  /** When a page can be faulted in: it is absent, and in a live area that allows the access, or in the heap. */
  ghost predicate Faultable(v: View, p: nat, vpn: nat, read: bool, files: Files)
    requires p in v.procs
  {
    && (v.procs[p].root, vpn) !in v.flat
    && var i := FindArea(v.area, p, vpn, 0);
       if i < |v.area| then (read || v.area[i].area.write) && ReadPage(v.area[i].area, vpn, files).Read?
       else vpn < MMAPVPN && vpn * PGSIZE < v.procs[p].sz
  }

  /** walkaddr finds the page: mapped for user access. */
  ghost predicate UserMapped(v: View, p: nat, vpn: nat) {
    p in v.procs && (v.procs[p].root, vpn) in v.flat && v.flat[(v.procs[p].root, vpn)].u
  }

  ghost predicate Writable(v: View, p: nat, vpn: nat) {
    UserMapped(v, p, vpn) && v.flat[(v.procs[p].root, vpn)].w
  }

  /** A page that copyin or copyout gets at, memory permitting. */
  ghost predicate Reachable(v: View, p: nat, vpn: nat, read: bool, files: Files)
    requires p in v.procs
  {
    && vpn < MAXVPN
    && if UserMapped(v, p, vpn) then read || Writable(v, p, vpn) else Faultable(v, p, vpn, read, files)
  }

  ghost predicate AllReach(v: View, p: nat, lo: nat, hi: nat, read: bool, files: Files)
    requires p in v.procs
  {
    forall vpn: nat :: lo <= vpn < hi ==> Reachable(v, p, vpn, read, files)
  }

  /** How far one round of a copy gets: to the end of the page. */
  function Chunk(va: nat, len: nat): nat {
    if PGSIZE - va % PGSIZE < len then PGSIZE - va % PGSIZE else len
  }

  /** The page at byte `d` of a copy of `len` bytes, or the page after the last when it is done. */
  function PageAt(va: nat, len: nat, d: nat): nat {
    if d < len then (va + d) / PGSIZE else if len == 0 then va / PGSIZE else (va + len - 1) / PGSIZE + 1
  }

  /** The pages of the range that are not mapped for the user. */
  ghost function AbsentPages(v: View, p: nat, va: nat, len: nat): set<nat> {
    set u | u in Range(va / PGSIZE, PageAt(va, len, len)) && !UserMapped(v, p, u)
  }

  /**
   `ok` says whether a copy of `len` bytes at `va` succeeds: every page can be reached, and
   there is memory for those that are absent (unfolded only at a Gate).
   */
  ghost predicate CanCopy(ok: bool, v: View, free: nat, p: nat, va: nat, len: nat, read: bool, files: Files)
    requires p in v.procs
  {
    forall z: nat {:trigger Gate(z)} :: Gate(z) ==>
      (ok <==> && AllReach(v, p, va / PGSIZE, PageAt(va, len, len), read, files)
               && free >= Cost(v.role, v.procs[p].root, AbsentPages(v, p, va, len)))
  }

  /** `ok` says whether the page can be reached (unfolded only at a Gate). */
  ghost predicate ReachIs(ok: bool, v: View, p: nat, vpn: nat, read: bool, files: Files)
    requires p in v.procs
  {
    forall z: nat {:trigger Gate(z)} :: Gate(z) ==> (ok <==> Reachable(v, p, vpn, read, files))
  }

  /** Page `vpn` is next, and is one of those to bring in exactly when it is not there (unfolded only at a Gate). */
  ghost predicate Visit(v0: View, p: nat, vpn: nat, done: set<nat>, all: set<nat>, next: set<nat>) {
    forall z: nat {:trigger Gate(z)} :: Gate(z) ==>
      && vpn !in done && (vpn in all <==> !UserMapped(v0, p, vpn))
      && if vpn in all then done + {vpn} <= all && next == done + {vpn} else next == done
  }

  ghost predicate AllIs(all: set<nat>, v: View, p: nat, va: nat, len: nat) {
    forall z: nat {:trigger Gate(z)} :: Gate(z) ==> all == AbsentPages(v, p, va, len)
  }

  /** The state of a copy that has brought in the pages `done` of `p` (unfolded only at a Gate). */
  ghost predicate Copying(v0: View, free0: nat, v: View, free: nat, p: nat, done: set<nat>) {
    && p in v0.procs && v.procs == v0.procs && v.area == v0.area && v.owner == v0.owner
    && Spent(v0.role, free0, v.role, free, v0.procs[p].root, done)
    && forall z: nat {:trigger Gate(z)} :: Gate(z) ==>
         && (forall k: Key :: k in v.flat <==> k in v0.flat || (k.0 == v0.procs[p].root && k.1 in done))
         && (forall k: Key :: k in v0.flat ==> v.flat[k] == v0.flat[k])
         && (forall u: nat :: u in done ==> UserMapped(v, p, u))
  }

  lemma CopyingStart(v: View, free: nat, p: nat)
    requires p in v.procs
    ensures Copying(v, free, v, free, p, {})
  {
    SpentStart(v.role, free, v.procs[p].root);
  }

  lemma CopyingProcs(v0: View, free0: nat, v: View, free: nat, p: nat, done: set<nat>)
    requires Copying(v0, free0, v, free, p, done)
    ensures p in v0.procs && v.procs == v0.procs
  {
  }

  /** A page that has not been visited is as it was at the start. */
  lemma SameReach(v0: View, free0: nat, v: View, free: nat, p: nat, vpn: nat, read: bool, files: Files, done: set<nat>,
      all: set<nat>, next: set<nat>)
    requires Copying(v0, free0, v, free, p, done) && Visit(v0, p, vpn, done, all, next)
    ensures UserMapped(v, p, vpn) <==> UserMapped(v0, p, vpn)
    ensures UserMapped(v, p, vpn) ==> v.flat[(v.procs[p].root, vpn)] == v0.flat[(v0.procs[p].root, vpn)]
    ensures p in v.procs && (Faultable(v, p, vpn, read, files) <==> Faultable(v0, p, vpn, read, files))
  {
    assert Gate(0);
  }

  lemma CopyingNext(v0: View, free0: nat, v1: View, free1: nat, v: View, free: nat, p: nat, vpn: nat, read: bool,
      files: Files, done: set<nat>, all: set<nat>, next: set<nat>, ok: bool)
    requires Copying(v0, free0, v1, free1, p, done) && Visit(v0, p, vpn, done, all, next)
    requires UserMapped(v1, p, vpn) <==> UserMapped(v0, p, vpn)
    requires p in v1.procs && (Faultable(v1, p, vpn, read, files) <==> Faultable(v0, p, vpn, read, files))
    requires v == v1.(flat := v.flat, role := v.role) && (UserMapped(v1, p, vpn) ==> ok && v == v1 && free == free1)
    requires !ok ==> v.flat == v1.flat
    requires !UserMapped(v1, p, vpn) && ok ==>
               && Faultable(v1, p, vpn, read, files) && UserMapped(v, p, vpn)
               && (!read ==> v.flat[(v.procs[p].root, vpn)].w)
               && v.flat == v1.flat[(v.procs[p].root, vpn) := v.flat[(v.procs[p].root, vpn)]]
    requires !UserMapped(v1, p, vpn) && Faultable(v1, p, vpn, read, files) ==>
               Took(v1.role, free1, v.role, free, v1.procs[p].root, vpn, ok)
    ensures MapGrew(v1.flat, v.flat)
    ensures ok ==> Copying(v0, free0, v, free, p, next)
    ensures !ok ==> ReachIs(false, v0, p, vpn, read, files) || Afford(false, free0, v0.role, v0.procs[p].root, all)
    ensures ok && vpn < MAXVPN ==> ReachIs(read || v.flat[(v.procs[p].root, vpn)].w, v0, p, vpn, read, files)
  {
    assert Gate(0);
    if !UserMapped(v1, p, vpn) && Faultable(v1, p, vpn, read, files) {
      SpentNext(v0.role, free0, v1.role, free1, v.role, free, v0.procs[p].root, done, vpn, ok, all);
    }
  }

  /** How a copy has come to byte `d` (unfolded only at a Gate). */
  ghost predicate Progress(v0: View, free0: nat, v: View, free: nat, p: nat, va: nat, len: nat, read: bool,
      files: Files,
      done: set<nat>, d: nat) {
    && p in v0.procs && v.procs == v0.procs
    && forall z: nat {:trigger Gate(z)} :: Gate(z) ==>
         && Copying(v0, free0, v, free, p, done)
         && UpTo(done, AbsentPages(v0, p, va, len), PageAt(va, len, d))
         && AllReach(v0, p, va / PGSIZE, PageAt(va, len, d), read, files)
  }

  lemma ProgressStart(v: View, free: nat, p: nat, va: nat, len: nat, read: bool, files: Files)
    requires p in v.procs
    ensures Progress(v, free, v, free, p, va, len, read, files, {}, 0)
  {
    CopyingStart(v, free, p);
    PagesStart(v, p, va, len);
  }

  lemma ProgressAt(v0: View, free0: nat, v: View, free: nat, p: nat, va: nat, len: nat, read: bool, files: Files,
      done: set<nat>, d: nat, vpn: nat) returns (all: set<nat>, next: set<nat>)
    requires Progress(v0, free0, v, free, p, va, len, read, files, done, d) && d < len && vpn == (va + d) / PGSIZE
    ensures AllIs(all, v0, p, va, len) && Copying(v0, free0, v, free, p, done)
    ensures Visit(v0, p, vpn, done, all, next)
  {
    assert Gate(0);
    all := AbsentPages(v0, p, va, len);
    next := UpToNext(done, all, vpn);
    AbsentAt(v0, p, va, len, d);
  }

  lemma ProgressNext(v0: View, free0: nat, v1: View, free1: nat, v: View, free: nat, p: nat, va: nat, len: nat,
      read: bool, files: Files, done: set<nat>, all: set<nat>, next: set<nat>, d: nat, e: nat, vpn: nat)
    requires Progress(v0, free0, v1, free1, p, va, len, read, files, done, d) && d < len
             && e == d + Chunk(va + d, len - d)
    requires vpn == (va + d) / PGSIZE && Copying(v0, free0, v, free, p, next) && ReachIs(true, v0, p, vpn, read, files)
    requires AllIs(all, v0, p, va, len) && Visit(v0, p, vpn, done, all, next)
    ensures d < e <= len && Progress(v0, free0, v, free, p, va, len, read, files, next, e)
  {
    assert Gate(0);
    PageNext(va, len, d, e - d);
    var same := UpToNext(done, AbsentPages(v0, p, va, len), vpn);
    ReachNext(v0, p, va / PGSIZE, vpn, read, files);
  }

  lemma ProgressEnd(v0: View, free0: nat, v: View, free: nat, p: nat, va: nat, len: nat, read: bool, files: Files,
      done: set<nat>)
    requires Progress(v0, free0, v, free, p, va, len, read, files, done, len)
    ensures CanCopy(true, v0, free0, p, va, len, read, files)
    ensures forall u: nat :: va / PGSIZE <= u < PageAt(va, len, len) ==> UserMapped(v, p, u)
  {
    assert Gate(0);
    var all := AbsentPages(v0, p, va, len);
    SpentAll(v0.role, free0, v.role, free, v0.procs[p].root, done, all, PageAt(va, len, len));
  }

  lemma BeyondMax(v: View, p: nat, vpn: nat, read: bool, files: Files)
    requires p in v.procs && vpn >= MAXVPN
    ensures ReachIs(false, v, p, vpn, read, files)
  {
    assert Gate(0);
  }

  lemma CannotReach(v: View, free: nat, p: nat, va: nat, len: nat, d: nat, read: bool, files: Files, all: set<nat>,
      vpn: nat)
    requires p in v.procs && d < len && AllIs(all, v, p, va, len) && vpn == (va + d) / PGSIZE
    requires ReachIs(false, v, p, vpn, read, files) || Afford(false, free, v.role, v.procs[p].root, all)
    ensures CanCopy(false, v, free, p, va, len, read, files)
  {
    assert Gate(0);
    PageIn(va, len, d);
  }

  lemma PageIn(va: nat, len: nat, d: nat)
    requires d < len
    ensures va / PGSIZE <= (va + d) / PGSIZE < PageAt(va, len, len)
  {
  }

  /** A copy of one byte, with the page there or memory for it and two tables, succeeds when the page can be reached. */
  lemma OneByte(v: View, free: nat, p: nat, va: nat, read: bool, files: Files, ok: bool)
    requires p in v.procs && CanCopy(ok, v, free, p, va, 1, read, files) && (UserMapped(v, p, va / PGSIZE) || free >= 3)
    ensures ok <==> Reachable(v, p, va / PGSIZE, read, files)
  {
    var vpn := va / PGSIZE;
    assert PageAt(va, 1, 1) == vpn + 1;
    CostOne(v.role, v.procs[p].root, vpn);
    RolesStart(v.role, v.procs[p].root);
    assert AbsentPages(v, p, va, 1) == if UserMapped(v, p, vpn) then {} else {vpn};
    assert Gate(0);
  }

  lemma CostOne(role: map<nat, Role>, root: nat, v: nat)
    ensures Cost(role, root, {v}) <= 3
  {
    RolesStart(role, root);
    TablesAdd(role, role, root, {}, v);
    assert {} + {v} == {v};
  }

  lemma PagesStart(v: View, p: nat, va: nat, len: nat)
    ensures UpTo({}, AbsentPages(v, p, va, len), PageAt(va, len, 0))
  {
    UpToStart(AbsentPages(v, p, va, len), PageAt(va, len, 0));
  }

  lemma AbsentAt(v: View, p: nat, va: nat, len: nat, d: nat)
    requires d < len
    ensures (va + d) / PGSIZE in AbsentPages(v, p, va, len) <==> !UserMapped(v, p, (va + d) / PGSIZE)
  {
    PageIn(va, len, d);
  }

  lemma PageNext(va: nat, len: nat, d: nat, n: nat)
    requires d < len && n == Chunk(va + d, len - d)
    ensures 0 < n <= len - d && PageAt(va, len, d + n) == (va + d) / PGSIZE + 1
  {
  }

  lemma ReachNext(v: View, p: nat, lo: nat, vpn: nat, read: bool, files: Files)
    requires p in v.procs && AllReach(v, p, lo, vpn, read, files) && Reachable(v, p, vpn, read, files)
    ensures AllReach(v, p, lo, vpn + 1, read, files)
  {
  }

  lemma OpenCopied(v: View, image0: imap<Key, Page>, image: imap<Key, Page>, p: nat, a: nat, src: seq<bv8>, n: nat)
    requires n <= |src| && CopiedOut(v, image0, image, p, a, src, n)
    ensures Wrote(image0, image, p, a, src[..n]) && OthersSee(v, image0, image, p)
  {
    assert Gate(0);
  }

  /** Copying stops at a page that is not mapped for the user, or beyond MAXVA. */
  ghost predicate Blocked(v: View, p: nat, vpn: nat) {
    vpn >= MAXVPN || !UserMapped(v, p, vpn)
  }

  /** Byte `a` of a process's memory. */
  ghost function ByteOf(image: imap<Key, Page>, p: nat, a: nat): bv8 {
    var k := (p, a / PGSIZE);
    if k in image && a % PGSIZE < |image[k]| then image[k][a % PGSIZE] else 0
  }

  /** A page mapped for the user is below the trapframe, and is what the process sees there. */
  lemma UserSees(v: View, m: Mem, data: map<nat, Page>, p: nat, vpn: nat, files: Files)
    requires ViewIs(v) && MemOk(m) && m.s.flat == v.flat && UserMapped(v, p, vpn)
    requires forall f :: f in m.fr.refcnt ==> f in data && |data[f]| == PGSIZE
    ensures vpn < TRAPVPN && v.flat[(v.procs[p].root, vpn)].frame in data
    ensures |data[v.flat[(v.procs[p].root, vpn)].frame]| == PGSIZE
    ensures (p, vpn) in ImageOf(v.flat, data, v.procs, v.area, files)
    ensures ImageOf(v.flat, data, v.procs, v.area, files)[(p, vpn)] == data[v.flat[(v.procs[p].root, vpn)].frame]
  {
    OpenView(v);
    var k := (v.procs[p].root, vpn);
    assert LeafOk(v, k) && ProcOk(v, p);
    assert vpn < TRAPVPN;
    Live(m, k);
  }

  ghost function Bytes(image: imap<Key, Page>, p: nat, a: nat, n: nat): (s: seq<bv8>)
    ensures |s| == n
  {
    seq(n, j requires 0 <= j < n => ByteOf(image, p, a + j))
  }

  lemma BytesJoin(image: imap<Key, Page>, p: nat, a: nat, m: nat, n: nat)
    ensures Bytes(image, p, a, m) + Bytes(image, p, a + m, n) == Bytes(image, p, a, m + n)
  {
  }

  lemma ReadBytes(image: imap<Key, Page>, p: nat, a: nat, n: nat, page: Page)
    requires (p, a / PGSIZE) in image && image[(p, a / PGSIZE)] == page && |page| == PGSIZE && a % PGSIZE + n <= PGSIZE
    ensures page[a % PGSIZE..a % PGSIZE + n] == Bytes(image, p, a, n)
  {
    var s := page[a % PGSIZE..a % PGSIZE + n];
    forall j | 0 <= j < n ensures s[j] == ByteOf(image, p, a + j) {
      SamePage(a, j);
    }
  }

  lemma SamePage(a: nat, j: nat)
    requires a % PGSIZE + j < PGSIZE
    ensures (a + j) / PGSIZE == a / PGSIZE && (a + j) % PGSIZE == a % PGSIZE + j
  {
  }

  /** After a shrink, a byte reads as zero beyond the last page kept, and as what it was below. */
  lemma RegrownByte(v: View, image0: imap<Key, Page>, image1: imap<Key, Page>, p: nat, oldsz: nat, newsz: nat, a: nat,
      files: Files)
    requires ViewIs(v) && newsz <= oldsz <= MMAPBASE && a < oldsz && (p, a / PGSIZE) in image0
    requires Cleared(image0, image1, v.area, files, p, PgUp(newsz), PgUp(oldsz))
    ensures ByteOf(image1, p, a) == if a >= PgUp(newsz) * PGSIZE then 0 else ByteOf(image0, p, a)
  {
    HeapAbsent(v, p, a / PGSIZE, files);
  }

  /**
   A heap cut down to `newsz`: beyond the last page kept it reads as zeros, below as before
   (unfolded only at a Gate).
   */
  ghost predicate ShrunkTo(image0: imap<Key, Page>, image: imap<Key, Page>, p: nat, oldsz: nat, newsz: nat) {
    forall z: nat {:trigger Gate(z)} :: Gate(z) ==>
      forall a: nat :: a < oldsz ==>
        ByteOf(image, p, a) == if a >= PgUp(newsz) * PGSIZE then 0 else ByteOf(image0, p, a)
  }

  lemma RegrownBytes(v: View, image0: imap<Key, Page>, image1: imap<Key, Page>, p: nat, oldsz: nat, newsz: nat,
      files: Files)
    requires ViewIs(v) && p in v.procs && newsz <= oldsz <= MMAPBASE
    requires forall u: nat :: u < TRAPVPN ==> (p, u) in image0
    requires Cleared(image0, image1, v.area, files, p, PgUp(newsz), PgUp(oldsz))
    ensures ShrunkTo(image0, image1, p, oldsz, newsz)
  {
    forall a: nat | a < oldsz
      ensures ByteOf(image1, p, a) == if a >= PgUp(newsz) * PGSIZE then 0 else ByteOf(image0, p, a)
    {
      RegrownByte(v, image0, image1, p, oldsz, newsz, a, files);
    }
  }

  lemma SameBytes(image: imap<Key, Page>, p: nat, sz: nat)
    ensures ShrunkTo(image, image, p, sz, sz)
  {
  }

  lemma NothingWithout(flat0: map<Key, Pte>, flat: map<Key, Pte>, root: nat, n: nat)
    requires MapGrew(flat0, flat) && flat == flat0
    ensures flat == Without(flat0, root, n, n)
  {
  }

  lemma ByteStays(image0: imap<Key, Page>, image: imap<Key, Page>, p: nat, flat0: map<Key, Pte>, flat: map<Key, Pte>,
      root: nat)
    requires ShrunkTo(image0, image, p, 2, 1) && MapGrew(Without(flat0, root, PgUp(1), PgUp(2)), flat)
    ensures ByteOf(image, p, 1) == ByteOf(image0, p, 1)
            && ((root, 0) in flat0 ==> (root, 0) in flat && flat[(root, 0)] == flat0[(root, 0)])
  {
    assert Gate(0);
    assert (root, 0) in flat0 ==> (root, 0) in Without(flat0, root, 1, 1);
  }

  /** Process `q` has the page of `p` at `vpn`. */
  ghost predicate SameFrame(v: View, p: nat, q: nat, vpn: nat) {
    && p in v.procs && q in v.procs && (v.procs[p].root, vpn) in v.flat && (v.procs[q].root, vpn) in v.flat
    && v.flat[(v.procs[p].root, vpn)].frame == v.flat[(v.procs[q].root, vpn)].frame
  }

  /** Within one page, the bytes at `a` are written for `p` and for whoever shares the page; nothing else changes. */
  ghost predicate WrotePage(v: View, image0: imap<Key, Page>, image: imap<Key, Page>, p: nat, a: nat, b: seq<bv8>) {
    && image.Keys == image0.Keys && (p, a / PGSIZE) in image && a % PGSIZE + |b| <= PGSIZE
        && |image0[(p, a / PGSIZE)]| == PGSIZE
    && (forall k: Key :: k in image && k.1 != a / PGSIZE ==> image[k] == image0[k])
    && image[(p, a / PGSIZE)] == Splice(image0[(p, a / PGSIZE)], a % PGSIZE, b)
    && (forall k: Key :: k in image && k.1 == a / PGSIZE && k.0 != p ==>
          image[k] == if SameFrame(v, p, k.0, k.1) then image[(p, k.1)] else image0[k])
    && (forall q :: SameFrame(v, p, q, a / PGSIZE) && q != p ==> a / PGSIZE >= MMAPVPN)
  }

  /** Exactly the bytes `b` at `a` have changed for process `p`. */
  ghost predicate Wrote(image0: imap<Key, Page>, image: imap<Key, Page>, p: nat, a: nat, b: seq<bv8>) {
    && image.Keys == image0.Keys
    && forall x: nat :: ByteOf(image, p, x) == if a <= x < a + |b| then b[x - a] else ByteOf(image0, p, x)
  }

  /** Another process sees a change only in the mmap zone, through a page it shares with `p`, and sees what `p` sees. */
  ghost predicate OthersSee(v: View, image0: imap<Key, Page>, image: imap<Key, Page>, p: nat) {
    && image.Keys == image0.Keys
    && forall k: Key :: k in image && k.0 != p ==>
         image[k] == image0[k]
             || (k.1 >= MMAPVPN && SameFrame(v, p, k.0, k.1) && (p, k.1) in image && image[k] == image[(p, k.1)])
  }

  /** Copying out also stops at a page that is not writable. */
  ghost predicate Refused(v: View, p: nat, vpn: nat) {
    Blocked(v, p, vpn) || (p in v.procs && !v.flat[(v.procs[p].root, vpn)].w)
  }

  /** Exactly the heap pages from `lo` up to `hi` were added, readable and writable by the user. */
  ghost predicate HeapAdded(ok: bool, flat0: map<Key, Pte>, flat: map<Key, Pte>, root: nat, lo: nat, hi: nat) {
    forall z: nat {:trigger Gate(z)} :: Gate(z) ==>
      && (forall k: Key :: k in flat <==> k in flat0 || (ok && k.0 == root && lo <= k.1 < hi))
      && (forall k: Key :: k in flat0 ==> k in flat && flat[k] == flat0[k])
      && (forall v: nat :: ok && lo <= v < hi ==>
            (root, v) in flat && flat[(root, v)] == Pte(true, true, true, false, true, flat[(root, v)].frame))
  }

  lemma HeapAddedIs(ok: bool, flat0: map<Key, Pte>, flat: map<Key, Pte>, data: map<nat, Page>, root: nat, lo: nat,
      hi: nat)
    requires if ok then GrewZero(flat0, flat, data, root, lo, hi, USER_RW) else flat == flat0
    ensures HeapAdded(ok, flat0, flat, root, lo, hi)
  {
  }

  /** Translations are only added, unfolded only at a Gate. */
  ghost predicate MapGrew(flat0: map<Key, Pte>, flat: map<Key, Pte>) {
    forall z: nat {:trigger Gate(z)} :: Gate(z) ==> forall k :: k in flat0 ==> k in flat && flat[k] == flat0[k]
  }

  /** WrotePage, unfolded only at a Gate. */
  ghost predicate WroteOne(v: View, image0: imap<Key, Page>, image: imap<Key, Page>, p: nat, a: nat, b: seq<bv8>) {
    forall z: nat {:trigger Gate(z)} :: Gate(z) ==> WrotePage(v, image0, image, p, a, b)
  }

  /** The first `n` bytes have been written, unfolded only at a Gate. */
  ghost predicate CopiedOut(v: View, image0: imap<Key, Page>, image: imap<Key, Page>, p: nat, a: nat, src: seq<bv8>,
      n: nat)
    requires n <= |src|
  {
    forall z: nat {:trigger Gate(z)} :: Gate(z) ==>
        Wrote(image0, image, p, a, src[..n]) && OthersSee(v, image0, image, p)
  }

  lemma WroteStart(v: View, image: imap<Key, Page>, p: nat, a: nat, src: seq<bv8>)
    ensures CopiedOut(v, image, image, p, a, src, 0)
  {
  }

  lemma CopiedMore(image0: imap<Key, Page>, image1: imap<Key, Page>, image: imap<Key, Page>, v1: View, v: View, p: nat,
                   a: nat, src: seq<bv8>, n: nat, m: nat, ok: bool, next: nat)
    requires n <= |src| && CopiedOut(v1, image0, image1, p, a, src, n) && v.procs == v1.procs
             && MapGrew(v1.flat, v.flat)
    requires ok ==> m > 0 && n + m <= |src| && WroteOne(v, image1, image, p, a + n, src[n..][..m])
    requires (!ok ==> image == image1) && next == if ok then n + m else n
    ensures CopiedOut(v, image0, image, p, a, src, next)
  {
    assert Gate(0);
    if ok {
      WroteMore(image0, image1, image, v1, v, p, a, src, n, m);
    } else {
      WroteNothing(image0, image1, image, v1, v, p);
    }
  }

  lemma SpliceImage(v: View, data0: map<nat, Page>, data: map<nat, Page>, p: nat, a: nat, b: seq<bv8>, files: Files)
    requires ViewIs(v) && UserMapped(v, p, a / PGSIZE) && a / PGSIZE < TRAPVPN && a % PGSIZE + |b| <= PGSIZE
    requires var f := v.flat[(v.procs[p].root, a / PGSIZE)].frame;
             f in data0 && |data0[f]| == PGSIZE && data == data0[f := Splice(data0[f], a % PGSIZE, b)]
    ensures WroteOne(v, ImageOf(v.flat, data0, v.procs, v.area, files), ImageOf(v.flat, data, v.procs, v.area, files),
            p, a, b)
  {
    var image0, image := ImageOf(v.flat, data0, v.procs, v.area, files), ImageOf(v.flat, data, v.procs, v.area, files);
    SpliceAll(v, data0, data, p, a / PGSIZE, files);
    SharedHigh(v, p, a / PGSIZE);
    WroteIntro(v, image0, image, p, a, b);
  }

  lemma SpliceAll(v: View, data0: map<nat, Page>, data: map<nat, Page>, p: nat, vpn: nat, files: Files)
    requires ViewIs(v) && p in v.procs && vpn < TRAPVPN && (v.procs[p].root, vpn) in v.flat
    requires var f := v.flat[(v.procs[p].root, vpn)].frame; f in data0 && f in data && data == data0[f := data[f]]
    ensures var image0, image := ImageOf(v.flat, data0, v.procs, v.area, files),
            ImageOf(v.flat, data, v.procs, v.area, files);
            forall k: Key :: k in image ==>
              && (k.1 != vpn ==> image[k] == image0[k])
              && (k.1 == vpn && k.0 != p ==>
                  image[k] == if SameFrame(v, p, k.0, vpn) then image[(p, vpn)] else image0[k])
  {
    SharingAt(v);
    var image0, image := ImageOf(v.flat, data0, v.procs, v.area, files), ImageOf(v.flat, data, v.procs, v.area, files);
    forall k: Key | k in image
      ensures k.1 != vpn ==> image[k] == image0[k]
      ensures k.1 == vpn && k.0 != p ==> image[k] == if SameFrame(v, p, k.0, vpn) then image[(p, vpn)] else image0[k]
    {
      SpliceAt(v, data0, data, p, vpn, k, files);
    }
  }

  lemma SharedHigh(v: View, p: nat, vpn: nat)
    requires ViewIs(v) && p in v.procs && vpn < TRAPVPN && (v.procs[p].root, vpn) in v.flat
    ensures forall q :: SameFrame(v, p, q, vpn) && q != p ==> vpn >= MMAPVPN
  {
    SharingAt(v);
    forall q | SameFrame(v, p, q, vpn) && q != p ensures vpn >= MMAPVPN { OneFrame(v, p, vpn, (q, vpn)); }
  }

  lemma WroteIntro(v: View, image0: imap<Key, Page>, image: imap<Key, Page>, p: nat, a: nat, b: seq<bv8>)
    requires image.Keys == image0.Keys && (p, a / PGSIZE) in image && a % PGSIZE + |b| <= PGSIZE
             && |image0[(p, a / PGSIZE)]| == PGSIZE
    requires forall k: Key :: k in image ==>
               && (k.1 != a / PGSIZE ==> image[k] == image0[k])
               && (k.1 == a / PGSIZE && k.0 != p ==>
                   image[k] == if SameFrame(v, p, k.0, a / PGSIZE) then image[(p, a / PGSIZE)] else image0[k])
    requires image[(p, a / PGSIZE)] == Splice(image0[(p, a / PGSIZE)], a % PGSIZE, b)
    requires forall q :: SameFrame(v, p, q, a / PGSIZE) && q != p ==> a / PGSIZE >= MMAPVPN
    ensures WroteOne(v, image0, image, p, a, b)
  {
  }

  lemma SharingAt(v: View)
    requires ViewIs(v)
    ensures SharingOk(v.flat) && DistinctRoots(v.procs)
  {
    OpenView(v);
    RootsDistinct(v);
  }

  lemma SpliceAt(v: View, data0: map<nat, Page>, data: map<nat, Page>, p: nat, vpn: nat, k: Key, files: Files)
    requires SharingOk(v.flat) && DistinctRoots(v.procs) && p in v.procs && k.0 in v.procs && vpn < TRAPVPN
             && k.1 < TRAPVPN
    requires (v.procs[p].root, vpn) in v.flat
    requires var f := v.flat[(v.procs[p].root, vpn)].frame; f in data0 && f in data && data == data0[f := data[f]]
    ensures k.1 != vpn ==>
              PageOf(v.flat, data, v.procs, v.area, files, k) == PageOf(v.flat, data0, v.procs, v.area, files, k)
    ensures k.1 == vpn && k.0 != p ==>
              PageOf(v.flat, data, v.procs, v.area, files, k) ==
              if SameFrame(v, p, k.0, vpn) then PageOf(v.flat, data, v.procs, v.area, files, (p, vpn))
              else PageOf(v.flat, data0, v.procs, v.area, files, k)
  {
    OneFrame(v, p, vpn, k);
  }

  /** A mapping of the same page is at the same address. */
  lemma OneFrame(v: View, p: nat, vpn: nat, k: Key)
    requires SharingOk(v.flat) && DistinctRoots(v.procs) && p in v.procs && k.0 in v.procs && vpn < TRAPVPN
             && k.1 < TRAPVPN
    requires (v.procs[p].root, vpn) in v.flat
    ensures var l := (v.procs[k.0].root, k.1);
            l in v.flat && v.flat[l].frame == v.flat[(v.procs[p].root, vpn)].frame && k != (p, vpn) ==>
                k.1 == vpn && vpn >= MMAPVPN
  {
  }

  lemma WroteNothing(image0: imap<Key, Page>, image1: imap<Key, Page>, image: imap<Key, Page>, v1: View, v: View,
      p: nat)
    requires image == image1 && OthersSee(v1, image0, image1, p) && v.procs == v1.procs
    requires forall k :: k in v1.flat ==> k in v.flat && v.flat[k] == v1.flat[k]
    ensures OthersSee(v, image0, image, p)
  {
  }

  lemma WroteMore(image0: imap<Key, Page>, image1: imap<Key, Page>, image: imap<Key, Page>, v1: View, v: View, p: nat,
                  a: nat, src: seq<bv8>, n: nat, m: nat)
    requires n + m <= |src| && m > 0 && Wrote(image0, image1, p, a, src[..n]) && OthersSee(v1, image0, image1, p)
    requires WrotePage(v, image1, image, p, a + n, src[n..][..m]) && v.procs == v1.procs
    requires forall k :: k in v1.flat ==> k in v.flat && v.flat[k] == v1.flat[k]
    ensures Wrote(image0, image, p, a, src[..n + m]) && OthersSee(v, image0, image, p)
  {
    forall x: nat ensures ByteOf(image, p, x) == if a <= x < a + n + m then src[..n + m][x - a]
        else ByteOf(image0, p, x) {
      SpliceByte(v, image1, image, p, a + n, src[n..][..m], x);
    }
  }

  lemma SpliceByte(v: View, image0: imap<Key, Page>, image: imap<Key, Page>, p: nat, a: nat, b: seq<bv8>, x: nat)
    requires WrotePage(v, image0, image, p, a, b)
    ensures ByteOf(image, p, x) == if a <= x < a + |b| then b[x - a] else ByteOf(image0, p, x)
  {
    if x / PGSIZE == a / PGSIZE {
      assert x % PGSIZE - a % PGSIZE == x - a;
    } else {
      assert !(a <= x < a + |b|);
    }
  }

  lemma LazyView(v: View, p: nat, sz: nat)
    requires ViewIs(v) && p in v.procs && v.procs[p].sz <= sz <= MMAPBASE
    ensures ViewIs(v.(procs := v.procs[p := v.procs[p].(sz := sz)]))
  {
    OpenView(v);
    SizeView(v, v.flat, p, sz);
  }

  /** p->sz after growproc(n): a shrink below zero is ignored. */
  function NewSize(sz: nat, n: int): nat {
    if sz + n < 0 then sz else sz + n
  }

  lemma ShrinkView(v: View, flat: map<Key, Pte>, p: nat, sz: nat)
    requires ViewIs(v) && p in v.procs && sz <= MMAPBASE
    requires flat == if sz < v.procs[p].sz then Without(v.flat, v.procs[p].root, PgUp(sz), PgUp(v.procs[p].sz))
             else v.flat
    ensures ViewIs(v.(flat := flat, procs := v.procs[p := v.procs[p].(sz := sz)]))
  {
    OpenView(v);
    SizeView(v, flat, p, sz);
  }

  /** Eager growth keeps the invariant, whether it succeeds or runs out of memory. */
  lemma EagerView(v: View, flat: map<Key, Pte>, data: map<nat, Page>, role: map<nat, Role>, p: nat, sz: nat, ok: bool)
    requires ViewIs(v) && p in v.procs && v.procs[p].sz <= sz <= MMAPBASE
    requires TablesFor(v.role, role, v.procs[p].root, PgUp(v.procs[p].sz), PgUp(sz))
    requires ok ==> GrewZero(v.flat, flat, data, v.procs[p].root, PgUp(v.procs[p].sz), PgUp(sz), USER_RW)
    requires !ok ==> flat == v.flat
    ensures ViewIs(v.(flat := flat, role := role, procs := if ok then v.procs[p := v.procs[p].(sz := sz)] else v.procs))
  {
    OpenView(v);
    if ok {
      SizeView(v, v.flat, p, sz);
      PrivateSharing(v.flat, flat);
      GrowView(v.(procs := v.procs[p := v.procs[p].(sz := sz)]), flat, role, p, PgUp(v.procs[p].sz), PgUp(sz));
    } else {
      GrowView(v, flat, role, p, PgUp(v.procs[p].sz), PgUp(sz));
    }
  }

  lemma EagerImage(v: View, data0: map<nat, Page>, flat: map<Key, Pte>, data: map<nat, Page>, p: nat, sz: nat,
      ok: bool, files: Files)
    requires ViewIs(v) && p in v.procs && v.procs[p].sz <= sz <= MMAPBASE && Keeps(v.flat, data0, data)
    requires ok ==> GrewZero(v.flat, flat, data, v.procs[p].root, PgUp(v.procs[p].sz), PgUp(sz), USER_RW)
    requires !ok ==> flat == v.flat
    ensures ImageOf(flat, data, v.procs, v.area, files) == ImageOf(v.flat, data0, v.procs, v.area, files)
  {
    ProcAt(v, p);
    forall k | k in flat && k !in v.flat
        ensures k.0 == v.procs[p].root && Contents(flat, data, k) == Absent(v.area, files, p, k.1) {
      HeapAbsent(v, p, k.1, files);
    }
    FaultKeepsImage(v.flat, data0, flat, data, v.procs, v.area, p, files);
  }

  /** Eager growth, as a step on all address spaces. */
  lemma Eager(v: View, data0: map<nat, Page>, flat: map<Key, Pte>, data: map<nat, Page>, role: map<nat, Role>, p: nat,
      sz: nat,
              ok: bool, files: Files) returns (w: View)
    requires ViewIs(v) && p in v.procs && v.procs[p].sz <= sz <= MMAPBASE && Keeps(v.flat, data0, data)
    requires TablesFor(v.role, role, v.procs[p].root, PgUp(v.procs[p].sz), PgUp(sz))
    requires ok ==> GrewZero(v.flat, flat, data, v.procs[p].root, PgUp(v.procs[p].sz), PgUp(sz), USER_RW)
    requires !ok ==> flat == v.flat
    ensures w == v.(flat := flat, role := role, procs := if ok then v.procs[p := v.procs[p].(sz := sz)] else v.procs)
    ensures ViewIs(w) && ImageOf(flat, data, w.procs, w.area, files) == ImageOf(v.flat, data0, v.procs, v.area, files)
  {
    w := v.(flat := flat, role := role, procs := if ok then v.procs[p := v.procs[p].(sz := sz)] else v.procs);
    EagerView(v, flat, data, role, p, sz, ok);
    EagerImage(v, data0, flat, data, p, sz, ok, files);
    SizeKeepsImage(flat, data, v.procs, p, sz, v.area, files);
  }

  /** One page mapped in the heap zone or an area keeps the invariant. */
  lemma NewPageView(v: View, flat: map<Key, Pte>, data: map<nat, Page>, role: map<nat, Role>, p: nat, vpn: nat,
      perm: Pte, page: Page, ok: bool)
    requires ViewIs(v) && p in v.procs && vpn < MAXVPN && GrowsFor(v.role, role, v.procs[p].root, vpn)
    requires ok ==> NewPage(v.flat, flat, data, (v.procs[p].root, vpn), perm, page) && (v.procs[p].root, vpn) !in v.flat
    requires !ok ==> flat == v.flat
    requires vpn < PgUp(v.procs[p].sz) || exists i :: 0 <= i < |v.area| && Within(v.area[i], p, vpn, vpn + 1)
    ensures ViewIs(v.(flat := flat, role := role))
  {
    GrowsTables(v.role, v.role, role, v.procs[p].root, vpn, vpn, vpn + 1);
    assert SharingOk(flat) by {
      SharingAt(v);
      if ok { PrivateSharing(v.flat, flat); }
    }
    GrowIs(v, flat, role, p, vpn, vpn + 1) by { ProcAt(v, p); }
  }

  lemma GrowIs(v: View, flat: map<Key, Pte>, role: map<nat, Role>, p: nat, lo: nat, hi: nat)
    requires ViewIs(v) && p in v.procs
    requires forall k :: k in v.flat ==> k in flat && flat[k] == v.flat[k]
    requires forall k :: k in flat && k !in v.flat ==> k.0 == v.procs[p].root && lo <= k.1 < hi
    requires TablesFor(v.role, role, v.procs[p].root, lo, hi) && SharingOk(flat)
    requires hi <= PgUp(v.procs[p].sz) <= MMAPVPN || exists i :: 0 <= i < |v.area| && Within(v.area[i], p, lo, hi)
    ensures ViewIs(v.(flat := flat, role := role))
  {
    OpenView(v);
    GrowView(v, flat, role, p, lo, hi);
  }
}
