/** Physical pages and two-level page tables (mmu.h, vm.c, kalloc.c) on values: what
    kalloc, kfree and each store into a page directory or page table do, who owns which
    page, and the invariant they all keep. */
module PageTables {
  /** NPDENTRIES and NPTENTRIES */
  const ENTRIES: nat := 1024
  const PGSIZE: nat := 4096
  /** Virtual pages below KERNBASE, and all virtual pages. */
  const UPAGES: nat := 0x8_0000
  const VPAGES: nat := 0x10_0000
  /** What kfree fills a page with: memset(v, 1, PGSIZE). */
  const JUNK: nat := 0x0101_0101

  const PTE_P: nat := 1
  const PTE_W: nat := 2
  const PTE_U: nat := 4

  // ---- Page table entries -----------------------------------------------------

  predicate Present(w: int) {
    w % 2 == 1
  }

  /** PTE_ADDR(w) / PGSIZE */
  function FrameOf(w: int): int {
    w / PGSIZE
  }

  /** PTE_FLAGS(w) */
  function FlagsOf(w: int): int {
    w % PGSIZE
  }

  /** `pa | perm | PTE_P` for a page-aligned pa. */
  function MakePte(frame: int, perm: int): int {
    frame * PGSIZE + (if perm % 2 == 1 then perm else perm + 1)
  }

  lemma PteFields(frame: int, perm: int)
    requires 0 <= perm < PGSIZE
    ensures Present(MakePte(frame, perm)) && FrameOf(MakePte(frame, perm)) == frame
    ensures FlagsOf(MakePte(frame, perm)) == if perm % 2 == 1 then perm else perm + 1
  {
    var q := if perm % 2 == 1 then perm else perm + 1;
    Split(frame, q);
    Parity(2048 * frame, q);
  }

  lemma Split(x: int, q: int)
    requires 0 <= q < PGSIZE
    ensures (x * PGSIZE + q) / PGSIZE == x && (x * PGSIZE + q) % PGSIZE == q
  {
  }

  lemma Parity(x: int, q: int)
    ensures (2 * x + q) % 2 == q % 2
  {
  }

  // ---- State --------------------------------------------------------------------

  /** Why a page is not free: it is the page directory of an address space, its page
      table i, the user page mapped at its virtual page v, or in the hands of kernel code
      that has got it from kalloc. */
  datatype Role = Dir | Table(d: int, i: int) | User(d: int, v: int) | Held

  type Page = seq<int>

  /** Every page kalloc may hand out has a content; owner says who has it. */
  datatype Vm = Vm(mem: map<int, Page>, free: seq<int>, owner: map<int, Role>)

  function ZeroPage(): Page {
    seq(ENTRIES, _ => 0)
  }

  predicate IsDir(s: Vm, d: int) {
    d in s.owner && s.owner[d] == Dir
  }

  /** `pgdir[i]`; 0 where there is none. */
  function Pde(s: Vm, d: int, i: int): int {
    if d in s.mem && 0 <= i < |s.mem[d]| then s.mem[d][i] else 0
  }

  /** The entry for virtual page v: what walkpgdir leads to, 0 without a page table. */
  function Entry(s: Vm, d: int, v: int): int {
    var e := Pde(s, d, v / ENTRIES);
    if Present(e) then Pde(s, FrameOf(e), v % ENTRIES) else 0
  }

  // ---- Invariant ------------------------------------------------------------------

  /** Every page is free once or owned, and not both. */
  ghost predicate Partition(s: Vm) {
    && (forall f :: f in s.mem ==> f > 0 && |s.mem[f]| == ENTRIES)
    && (forall f :: f in s.owner ==> f in s.mem)
    && (forall k :: 0 <= k < |s.free| ==> s.free[k] in s.mem && s.free[k] !in s.owner)
    && (forall j, k :: 0 <= j < k < |s.free| ==> s.free[j] != s.free[k])
    && (forall f :: f in s.mem && f !in s.owner ==> f in s.free)
  }

  /** A page on the free list is full of junk, up to the link of the list in its first word. */
  ghost predicate Junked(s: Vm) {
    forall f, k :: f in s.mem && f !in s.owner && 0 < k < |s.mem[f]| ==> s.mem[f][k] == JUNK
  }

  /** A page table is the address space's, and its directory entry lets through whatever the
      page table entries allow. */
  ghost predicate DirOwns(s: Vm, d: int, i: int) {
    Present(Pde(s, d, i)) ==>
      var t := FrameOf(Pde(s, d, i));
      FlagsOf(Pde(s, d, i)) == PTE_P + PTE_W + PTE_U && t in s.owner && s.owner[t] == Table(d, i)
  }

  ghost predicate TableOwns(s: Vm, d: int, v: int) {
    Present(Entry(s, d, v)) ==>
      var u := FrameOf(Entry(s, d, v));
      u in s.owner && s.owner[u] == User(d, v)
  }

  /** The owner map is right about f. */
  ghost predicate Owned(s: Vm, f: int)
    requires f in s.owner
  {
    match s.owner[f]
    case Dir => true
    case Held => true
    case Table(d, i) => IsDir(s, d) && 0 <= i < ENTRIES && Present(Pde(s, d, i)) && FrameOf(Pde(s, d, i)) == f
    case User(d, v) => IsDir(s, d) && 0 <= v < UPAGES && Present(Entry(s, d, v)) && FrameOf(Entry(s, d, v)) == f
  }

  ghost predicate Inv(s: Vm) {
    && Partition(s) && Junked(s)
    && (forall d, i :: IsDir(s, d) && 0 <= i < ENTRIES ==> DirOwns(s, d, i))
    && (forall d, v :: IsDir(s, d) && 0 <= v < UPAGES ==> TableOwns(s, d, v))
    && (forall f :: f in s.owner ==> Owned(s, f))
  }

  // ---- Steps ----------------------------------------------------------------------

  /** kalloc with a page on the free list. */
  function Take(s: Vm): Vm
    requires s.free != []
  {
    s.(free := seq(|s.free| - 1, k requires 0 <= k < |s.free| - 1 => s.free[k + 1]),
       owner := s.owner[s.free[0] := Held])
  }

  /** kfree */
  function Give(s: Vm, f: int): Vm
    requires f in s.owner
  {
    s.(mem := s.mem[f := seq(ENTRIES, _ => JUNK)], free := [f] + s.free, owner := s.owner - {f})
  }

  /** memset or memmove into a page the kernel holds. */
  function Write(s: Vm, f: int, p: Page): Vm {
    s.(mem := s.mem[f := p])
  }

  /** walkpgdir hangs a new page table into the directory. */
  function Link(s: Vm, d: int, i: int, f: int): Vm
    requires d in s.mem && 0 <= i < |s.mem[d]|
  {
    s.(mem := s.mem[d := s.mem[d][i := MakePte(f, PTE_W + PTE_U)]], owner := s.owner[f := Table(d, i)])
  }

  /** `*pte = w` for virtual page v of d. */
  function Store(s: Vm, d: int, v: int, w: int): Vm
    requires FrameOf(Pde(s, d, v / ENTRIES)) in s.mem && v % ENTRIES < |s.mem[FrameOf(Pde(s, d, v / ENTRIES))]|
  {
    var t := FrameOf(Pde(s, d, v / ENTRIES));
    s.(mem := s.mem[t := s.mem[t][v % ENTRIES := w]])
  }

  function Reassign(s: Vm, f: int, r: Role): Vm {
    s.(owner := s.owner[f := r])
  }

  // ---- Every step keeps the invariant ------------------------------------------------

  /** The two directions of ownership, apart from the free list. */
  ghost predicate Ownership(s: Vm) {
    && (forall d, i :: IsDir(s, d) && 0 <= i < ENTRIES ==> DirOwns(s, d, i))
    && (forall d, v :: IsDir(s, d) && 0 <= v < UPAGES ==> TableOwns(s, d, v))
    && (forall f :: f in s.owner ==> Owned(s, f))
  }

  lemma TakeKeeps(s: Vm)
    requires Inv(s) && s.free != []
    ensures Inv(Take(s)) && s.free[0] !in s.owner && s.free[0] in s.mem
  {
    var s' := Take(s);
    assert Partition(s') by {
      forall f | f in s'.mem && f !in s'.owner
        ensures f in s'.free
      {
        var k :| 0 <= k < |s.free| && s.free[k] == f;
        assert s'.free[k - 1] == f;
      }
    }
    forall d, i | IsDir(s', d) && 0 <= i < ENTRIES
      ensures DirOwns(s', d, i)
    {
      assert DirOwns(s, d, i);
    }
    forall d, v | IsDir(s', d) && 0 <= v < UPAGES
      ensures TableOwns(s', d, v)
    {
      assert TableOwns(s, d, v);
    }
    forall f | f in s'.owner
      ensures Owned(s', f)
    {
      assert f in s.owner ==> Owned(s, f);
    }
  }

  /** A page the kernel holds, or a free one, is neither a directory nor a page table, so
      changing it changes no entry. */
  lemma UnusedPage(s: Vm, s': Vm, f: int)
    requires Inv(s) && (f in s.owner ==> s.owner[f] == Held)
    requires s'.mem.Keys == s.mem.Keys && forall g :: g in s.mem && g != f ==> s'.mem[g] == s.mem[g]
    ensures forall d, i :: IsDir(s, d) ==> Pde(s', d, i) == Pde(s, d, i)
    ensures forall d, v :: IsDir(s, d) && 0 <= v < VPAGES ==> Entry(s', d, v) == Entry(s, d, v)
  {
    forall d, v | IsDir(s, d) && 0 <= v < VPAGES
      ensures Entry(s', d, v) == Entry(s, d, v)
    {
      assert DirOwns(s, d, v / ENTRIES);
    }
  }

  lemma GiveKeeps(s: Vm, f: int)
    requires Inv(s) && f in s.owner && s.owner[f] == Held
    ensures Inv(Give(s, f))
  {
    var s' := Give(s, f);
    assert Partition(s') by {
      forall g | g in s'.mem && g !in s'.owner
        ensures g in s'.free
      {
        if g == f {
          assert s'.free[0] == f;
        } else {
          var k :| 0 <= k < |s.free| && s.free[k] == g;
          assert s'.free[k + 1] == g;
        }
      }
    }
    UnusedPage(s, s', f);
    SameRoles(s, s', f);
  }

  /** The entries and the owner map agree as before, up to page f which nobody maps. */
  lemma SameRoles(s: Vm, s': Vm, f: int)
    requires Inv(s) && (f in s.owner ==> s.owner[f] == Held)
    requires forall g :: g != f ==> (g in s'.owner <==> g in s.owner) && (g in s.owner ==> s'.owner[g] == s.owner[g])
    requires f in s'.owner ==> s'.owner[f] == Held
    requires forall d, i :: IsDir(s, d) ==> Pde(s', d, i) == Pde(s, d, i)
    requires forall d, v :: IsDir(s, d) && 0 <= v < VPAGES ==> Entry(s', d, v) == Entry(s, d, v)
    ensures Ownership(s')
  {
    forall d, i | IsDir(s', d) && 0 <= i < ENTRIES
      ensures DirOwns(s', d, i)
    {
      assert DirOwns(s, d, i);
    }
    forall d, v | IsDir(s', d) && 0 <= v < UPAGES
      ensures TableOwns(s', d, v)
    {
      assert TableOwns(s, d, v);
    }
    forall g | g in s'.owner
      ensures Owned(s', g)
    {
      assert g in s.owner ==> Owned(s, g);
    }
  }

  lemma WriteKeeps(s: Vm, f: int, p: Page)
    requires Inv(s) && f in s.owner && s.owner[f] == Held && |p| == ENTRIES
    ensures Inv(Write(s, f, p))
  {
    var s' := Write(s, f, p);
    assert Partition(s');
    UnusedPage(s, s', f);
    SameRoles(s, s', f);
  }

  // ---- Installing and removing mappings ------------------------------------------------

  /** f is held by the kernel and full of zeros. */
  predicate Blank(s: Vm, f: int) {
    f in s.owner && s.owner[f] == Held && f in s.mem && s.mem[f] == ZeroPage()
  }

  lemma LinkPde(s: Vm, d: int, i: int, f: int, s': Vm)
    requires Inv(s) && IsDir(s, d) && 0 <= i < ENTRIES && !Present(Pde(s, d, i)) && Blank(s, f)
    requires s' == Link(s, d, i, f)
    ensures forall e, k :: IsDir(s, e) ==>
              Pde(s', e, k) == if e == d && k == i then MakePte(f, PTE_W + PTE_U) else Pde(s, e, k)
    ensures Pde(s', f, i) == 0
    ensures forall e, v :: IsDir(s, e) && 0 <= v < VPAGES ==> Entry(s', e, v) == Entry(s, e, v)
  {
    PteFields(f, PTE_W + PTE_U);
    forall e, v | IsDir(s, e) && 0 <= v < VPAGES
      ensures Entry(s', e, v) == Entry(s, e, v)
    {
      assert DirOwns(s, e, v / ENTRIES);
      if e == d && v / ENTRIES == i {
        assert Pde(s', f, v % ENTRIES) == 0;
      }
    }
  }

  lemma LinkKeeps(s: Vm, d: int, i: int, f: int)
    requires Inv(s) && IsDir(s, d) && 0 <= i < ENTRIES && !Present(Pde(s, d, i)) && Blank(s, f)
    ensures Inv(Link(s, d, i, f))
  {
    var s' := Link(s, d, i, f);
    PteFields(f, PTE_W + PTE_U);
    LinkPde(s, d, i, f, s');
    assert Partition(s');
    forall e, k | IsDir(s', e) && 0 <= k < ENTRIES
      ensures DirOwns(s', e, k)
    {
      assert DirOwns(s, e, k);
    }
    forall e, v | IsDir(s', e) && 0 <= v < UPAGES
      ensures TableOwns(s', e, v)
    {
      assert TableOwns(s, e, v);
    }
    forall g | g in s'.owner
      ensures Owned(s', g)
    {
      assert Owned(s, g);
    }
  }

  /** Page v of d has a page table. */
  predicate HasTable(s: Vm, d: int, v: int) {
    Present(Pde(s, d, v / ENTRIES))
  }

  /** Storing one page table entry changes that entry and no other, in any address space. */
  lemma StoreEntry(s: Vm, d: int, v: int, w: int, s': Vm)
    requires Inv(s) && IsDir(s, d) && 0 <= v < VPAGES && HasTable(s, d, v)
    requires FrameOf(Pde(s, d, v / ENTRIES)) in s.mem
    requires s' == Store(s, d, v, w)
    ensures forall e, k :: IsDir(s, e) ==> Pde(s', e, k) == Pde(s, e, k)
    ensures forall e, x :: IsDir(s, e) && 0 <= x < VPAGES ==>
              Entry(s', e, x) == if e == d && x == v then w else Entry(s, e, x)
  {
    var t := FrameOf(Pde(s, d, v / ENTRIES));
    assert DirOwns(s, d, v / ENTRIES);
    forall e, x | IsDir(s, e) && 0 <= x < VPAGES
      ensures Entry(s', e, x) == if e == d && x == v then w else Entry(s, e, x)
    {
      assert DirOwns(s, e, x / ENTRIES);
    }
  }

  /** mappages on a user page: the frame the kernel holds becomes user page v of d. */
  function MapUser(s: Vm, d: int, v: int, f: int, perm: int): Vm
    requires FrameOf(Pde(s, d, v / ENTRIES)) in s.mem && v % ENTRIES < |s.mem[FrameOf(Pde(s, d, v / ENTRIES))]|
  {
    Reassign(Store(s, d, v, MakePte(f, perm)), f, User(d, v))
  }

  lemma MapUserKeeps(s: Vm, d: int, v: int, f: int, perm: int)
    requires Inv(s) && IsDir(s, d) && 0 <= v < UPAGES && HasTable(s, d, v) && !Present(Entry(s, d, v))
    requires FrameOf(Pde(s, d, v / ENTRIES)) in s.mem && 0 <= perm < PGSIZE
    requires f in s.owner && s.owner[f] == Held
    ensures Inv(MapUser(s, d, v, f, perm))
  {
    var s1 := Store(s, d, v, MakePte(f, perm));
    var s' := Reassign(s1, f, User(d, v));
    PteFields(f, perm);
    StoreEntry(s, d, v, MakePte(f, perm), s1);
    assert Partition(s');
    forall e, k | IsDir(s', e) && 0 <= k < ENTRIES
      ensures DirOwns(s', e, k)
    {
      assert DirOwns(s, e, k);
    }
    forall e, x | IsDir(s', e) && 0 <= x < UPAGES
      ensures TableOwns(s', e, x)
    {
      assert TableOwns(s, e, x);
    }
    forall g | g in s'.owner
      ensures Owned(s', g)
    {
      assert Owned(s, g);
    }
  }

  /** mappages on a kernel page: kernel mappings own nothing. */
  lemma MapKernelKeeps(s: Vm, d: int, v: int, w: int)
    requires Inv(s) && IsDir(s, d) && UPAGES <= v < VPAGES && HasTable(s, d, v)
    requires FrameOf(Pde(s, d, v / ENTRIES)) in s.mem
    ensures Inv(Store(s, d, v, w))
  {
    var s' := Store(s, d, v, w);
    StoreEntry(s, d, v, w, s');
    assert DirOwns(s, d, v / ENTRIES);
    assert Partition(s');
    forall e, k | IsDir(s', e) && 0 <= k < ENTRIES
      ensures DirOwns(s', e, k)
    {
      assert DirOwns(s, e, k);
    }
    forall e, x | IsDir(s', e) && 0 <= x < UPAGES
      ensures TableOwns(s', e, x)
    {
      assert TableOwns(s, e, x);
    }
    forall g | g in s'.owner
      ensures Owned(s', g)
    {
      assert Owned(s, g);
    }
  }

  /** deallocuvm on a present page: `*pte = 0`, and the page is back in the kernel's hands. */
  function Unmap(s: Vm, d: int, v: int): Vm
    requires FrameOf(Pde(s, d, v / ENTRIES)) in s.mem && v % ENTRIES < |s.mem[FrameOf(Pde(s, d, v / ENTRIES))]|
  {
    Reassign(Store(s, d, v, 0), FrameOf(Entry(s, d, v)), Held)
  }

  lemma UnmapKeeps(s: Vm, d: int, v: int)
    requires Inv(s) && IsDir(s, d) && 0 <= v < UPAGES && HasTable(s, d, v) && Present(Entry(s, d, v))
    requires FrameOf(Pde(s, d, v / ENTRIES)) in s.mem
    ensures Inv(Unmap(s, d, v))
  {
    var f := FrameOf(Entry(s, d, v));
    var s1 := Store(s, d, v, 0);
    var s' := Reassign(s1, f, Held);
    StoreEntry(s, d, v, 0, s1);
    assert TableOwns(s, d, v) && DirOwns(s, d, v / ENTRIES);
    assert Partition(s');
    forall e, k | IsDir(s', e) && 0 <= k < ENTRIES
      ensures DirOwns(s', e, k)
    {
      assert DirOwns(s, e, k);
    }
    forall e, x | IsDir(s', e) && 0 <= x < UPAGES
      ensures TableOwns(s', e, x)
    {
      assert TableOwns(s, e, x);
    }
    forall g | g in s'.owner
      ensures Owned(s', g)
    {
      assert Owned(s, g);
    }
  }

  /** setupkvm: a blank page becomes a page directory. */
  lemma NewDirKeeps(s: Vm, d: int)
    requires Inv(s) && Blank(s, d)
    ensures Inv(Reassign(s, d, Dir))
    ensures forall v :: 0 <= v < VPAGES ==> Entry(Reassign(s, d, Dir), d, v) == 0
  {
    var s' := Reassign(s, d, Dir);
    assert Partition(s');
    assert forall i :: Pde(s', d, i) == 0;
    forall e, k | IsDir(s', e) && 0 <= k < ENTRIES
      ensures DirOwns(s', e, k)
    {
      assert e != d ==> DirOwns(s, e, k);
    }
    forall e, x | IsDir(s', e) && 0 <= x < UPAGES
      ensures TableOwns(s', e, x)
    {
      assert e != d ==> TableOwns(s, e, x);
    }
    forall g | g in s'.owner
      ensures Owned(s', g)
    {
      assert Owned(s, g);
    }
  }

  /** freevm, once no user page is left: directory and page tables are to be freed. */
  function Retire(s: Vm, d: int): Vm {
    s.(owner := map f | f in s.owner ::
         if f == d || (s.owner[f].Table? && s.owner[f].d == d) then Held else s.owner[f])
  }

  lemma RetireKeeps(s: Vm, d: int)
    requires Inv(s) && IsDir(s, d)
    requires forall v :: 0 <= v < UPAGES ==> !Present(Entry(s, d, v))
    ensures Inv(Retire(s, d))
  {
    var s' := Retire(s, d);
    assert Partition(s');
    forall e, k | IsDir(s', e) && 0 <= k < ENTRIES
      ensures DirOwns(s', e, k)
    {
      assert DirOwns(s, e, k);
    }
    forall e, x | IsDir(s', e) && 0 <= x < UPAGES
      ensures TableOwns(s', e, x)
    {
      assert TableOwns(s, e, x);
    }
    forall g | g in s'.owner
      ensures Owned(s', g)
    {
      assert Owned(s, g);
    }
  }
}
