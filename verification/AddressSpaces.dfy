/** allocuvm, the page fault handler, freevm, setupkvm and copyuvm of vm.c, with every
    out-of-memory path. */
module AddressSpaces {
  import opened PageTables
  import opened VirtualMemory
  import opened Wrappers

  const KERNBASE: int := 0x8000_0000

  // ---- Growing: allocuvm and page_fault_handler -----------------------------------------

  /** Page x of d is mapped, writable by the user, to a zeroed page of its own. */
  ghost predicate FreshPage(s: Vm, d: int, x: int) {
    var e := Entry(s, d, x);
    && Present(e) && FlagsOf(e) == PTE_P + PTE_W + PTE_U
    && FrameOf(e) in s.owner && s.owner[FrameOf(e)] == User(d, x)
    && FrameOf(e) in s.mem && s.mem[FrameOf(e)] == ZeroPage()
  }

  /** From s0 to s, exactly the pages from lo to hi were added to d, all of them absent
      before and fresh now. */
  ghost predicate Grown(s0: Vm, s: Vm, d: int, lo: int, hi: int) {
    && Space(s, d) && Kept(s0, s, d) && UsersKept(s0, s)
    && (forall x :: 0 <= x < VPAGES && !(lo <= x < hi) ==> Entry(s, d, x) == Entry(s0, d, x))
    && (forall x :: lo <= x < hi ==> !Present(Entry(s0, d, x)))
    && (forall x :: lo <= x < hi ==> FreshPage(s, d, x))
  }

  lemma GrownStart(s: Vm, d: int, lo: int)
    requires Space(s, d)
    ensures Grown(s, s, d, lo, lo)
  {
  }

  /** A page from kalloc, filled by memset or memmove. */
  ghost function Filled(s: Vm, p: Page): Vm
    requires s.free != []
  {
    Write(Take(s), s.free[0], p)
  }

  lemma FilledKeeps(s: Vm, d: int, f: int, p: Page, s': Vm)
    requires Space(s, d) && s.free != [] && f == s.free[0] && |p| == ENTRIES && s' == Filled(s, p)
    ensures Space(s', d) && f !in s.owner && f in s'.owner && s'.owner == s.owner[f := Held] && f != 0
    ensures s'.mem.Keys == s.mem.Keys && f in s'.mem && s'.mem[f] == p
    ensures forall g :: g in s.mem && g != f ==> s'.mem[g] == s.mem[g]
    ensures SameEntries(s, s', d)
  {
    TakeKeeps(s);
    WriteKeeps(Take(s), f, p);
    UnusedPage(s, s', f);
  }

  /** The page and nothing else has been taken from the free list. */
  lemma FilledPaid(s: Vm, d: int, p: Page, s': Vm, i: int)
    requires Space(s, d) && s.free != [] && |p| == ENTRIES && s' == Filled(s, p)
    ensures Paid(s, s', d, 1, i, i) && |s'.free| == |s.free| - 1
  {
    FilledKeeps(s, d, s.free[0], p, s');
    assert forall k :: Pde(s', d, k) == Pde(s, d, k);
  }

  lemma FilledMayMap(s: Vm, d: int, f: int, p: Page, s': Vm, v: int, perm: int)
    requires Space(s, d) && s.free != [] && f == s.free[0] && |p| == ENTRIES && s' == Filled(s, p)
    requires 0 <= v < VPAGES && 0 <= perm < PGSIZE
    ensures MayMap(s', d, v, 1, f, perm, v < UPAGES)
  {
    FilledKeeps(s, d, f, p, s');
  }

  /** kalloc, memset, mappages on one user page. */
  lemma FreshMapped(s: Vm, d: int, f: int, s1: Vm, v: int, s2: Vm)
    requires Space(s, d) && s.free != [] && f == s.free[0] && s1 == Filled(s, ZeroPage()) && 0 <= v < UPAGES
    requires MapRun(s1, s2, d, v, 1, f, PTE_W + PTE_U, true) && !Present(Entry(s1, d, v))
    ensures Grown(s, s2, d, v, v + 1)
  {
    FilledKeeps(s, d, f, ZeroPage(), s1);
    PteFields(f, PTE_W + PTE_U);
    assert Entry(s2, d, v) == MakePte(f, PTE_W + PTE_U);
    assert FreshPage(s2, d, v);
    FreshKept(s, d, f, s1, s2, v);
  }

  lemma FreshKept(s: Vm, d: int, f: int, s1: Vm, s2: Vm, v: int)
    requires IsDir(s, d) && f !in s.owner && s1.owner == s.owner[f := Held] && s1.mem.Keys == s.mem.Keys
    requires (forall g :: g in s.owner ==> g in s.mem) && 0 !in s.owner && f != 0
    requires forall g :: g in s.mem && g != f ==> s1.mem[g] == s.mem[g]
    requires KeptBut(s1, s2, d, f) && UsersKept(s1, s2) && f in s2.owner && s2.owner[f] == User(d, v)
    ensures Kept(s, s2, d) && UsersKept(s, s2)
  {
    forall g | g in s.owner && !Belongs(s, g, d)
      ensures g in s2.owner && s2.owner[g] == s.owner[g] && SamePage(s, s2, g)
    {
      assert !Belongs(s1, g, d);
    }
    forall g | g in s2.owner && !Belongs(s2, g, d)
      ensures g in s.owner && !Belongs(s, g, d)
    {
      assert g in s1.owner && !Belongs(s1, g, d);
    }
  }

  lemma GrownMore(s0: Vm, s: Vm, s': Vm, d: int, lo: int, v: int)
    requires Inv(s0) && Inv(s) && Grown(s0, s, d, lo, v) && Grown(s, s', d, v, v + 1) && 0 <= lo <= v < UPAGES
    ensures Grown(s0, s', d, lo, v + 1)
  {
    KeptTransitive(s0, s, s', d, 0);
    forall x | lo <= x < v + 1
      ensures FreshPage(s', d, x)
    {
      if x < v {
        assert FreshPage(s, d, x);
        assert SamePage(s, s', FrameOf(Entry(s, d, x)));
      }
    }
  }

  /** A page table could not be allocated: page f, already taken, is still the kernel's. */
  ghost predicate Stuck(s: Vm, s': Vm, d: int, f: int) {
    && Space(s', d) && f !in s.owner && f != 0 && f in s'.owner && s'.owner[f] == Held
    && SameEntries(s, s', d) && KeptBut(s, s', d, f) && UsersKept(s, s')
  }

  lemma NotMapped(s: Vm, d: int, f: int, p: Page, s1: Vm, v: int, perm: int, s2: Vm)
    requires Space(s, d) && s.free != [] && f == s.free[0] && |p| == ENTRIES && s1 == Filled(s, p)
    requires 0 <= v < UPAGES
    requires MapRun(s1, s2, d, v, 0, f, perm, true)
    ensures Stuck(s, s2, d, f)
  {
    FilledKeeps(s, d, f, p, s1);
    forall g | g in s.owner && g != f && !Belongs(s, g, d)
      ensures g in s2.owner && s2.owner[g] == s.owner[g] && SamePage(s, s2, g)
    {
      assert !Belongs(s1, g, d);
    }
    forall g | g in s2.owner && g != f && !Belongs(s2, g, d)
      ensures g in s.owner && !Belongs(s, g, d)
    {
      assert g in s1.owner && !Belongs(s1, g, d);
    }
  }

  /** kfree of the page that could not be mapped: nothing has happened. */
  lemma StuckFreed(s: Vm, s': Vm, d: int, f: int, s2: Vm)
    requires Stuck(s, s', d, f) && s2 == Give(s', f)
    ensures Grown(s, s2, d, 0, 0)
  {
    GiveKeeps(s', f);
    UnusedPage(s', s2, f);
    forall g | g in s2.owner && !Belongs(s2, g, d)
      ensures g in s.owner && !Belongs(s, g, d)
    {
      assert g in s'.owner && !Belongs(s', g, d);
    }
  }

  lemma StuckHeld(s: Vm, s': Vm, d: int, f: int)
    requires Stuck(s, s', d, f)
    ensures Space(s', d) && Inv(s') && f in s'.owner && s'.owner[f] == Held
  {
  }

  /** Page f, from kalloc, is mapped for the user at page v, which is one of the kernel's. No
      address space owns it: only the kernel code that took it could free it. */
  ghost predicate Astray(s: Vm, s': Vm, d: int, v: int, f: int) {
    && Space(s', d) && f !in s.owner && f in s'.owner && s'.owner[f] == Held
    && KeptBut(s, s', d, f) && UsersKept(s, s') && Mapped(s, s', d, v, 1, f, PTE_W + PTE_U)
  }

  lemma KernelPageMapped(s: Vm, d: int, f: int, s1: Vm, v: int, s2: Vm)
    requires Space(s, d) && s.free != [] && f == s.free[0] && s1 == Filled(s, ZeroPage()) && UPAGES <= v < VPAGES
    requires MapRun(s1, s2, d, v, 1, f, PTE_W + PTE_U, false)
    ensures Astray(s, s2, d, v, f)
  {
    FilledKeeps(s, d, f, ZeroPage(), s1);
    HeldKept(s, d, f, s1, s2);
  }

  /** An operation on d that leaves the held page f alone, seen from before f was taken. */
  lemma HeldKept(s: Vm, d: int, f: int, s1: Vm, s2: Vm)
    requires Space(s, d) && f !in s.owner && s1.owner == s.owner[f := Held] && s1.mem.Keys == s.mem.Keys
    requires forall g :: g in s.mem && g != f ==> s1.mem[g] == s.mem[g]
    requires Space(s2, d) && Kept(s1, s2, d) && UsersKept(s1, s2) && f != 0
    ensures f in s2.owner && s2.owner[f] == Held && KeptBut(s, s2, d, f) && UsersKept(s, s2)
  {
    forall g | g in s.owner && g != f && !Belongs(s, g, d)
      ensures g in s2.owner && s2.owner[g] == s.owner[g] && SamePage(s, s2, g)
    {
      assert !Belongs(s1, g, d);
    }
    forall g | g in s2.owner && g != f && !Belongs(s2, g, d)
      ensures g in s.owner && !Belongs(s, g, d)
    {
      assert g in s1.owner && !Belongs(s1, g, d);
    }
    assert !Belongs(s1, f, d);
  }

  lemma KernelPageNotMapped(s: Vm, d: int, f: int, s1: Vm, v: int, s2: Vm)
    requires Space(s, d) && s.free != [] && f == s.free[0] && s1 == Filled(s, ZeroPage()) && UPAGES <= v < VPAGES
    requires MapRun(s1, s2, d, v, 0, f, PTE_W + PTE_U, false)
    ensures Stuck(s, s2, d, f)
  {
    FilledKeeps(s, d, f, ZeroPage(), s1);
    HeldKept(s, d, f, s1, s2);
  }

  datatype PageResult = Added(f: int) | NoPage | NoTable(f: int) | Remapped

  /** kalloc, memset, mappages: what allocuvm does for each page and page_fault_handler for
      one. NoTable(f) leaves the page f to be freed by the caller; Remapped is the panic. */
  method AddPage(m: Memory, d: int, v: int) returns (r: PageResult)
    requires Space(m.State(), d) && 0 <= v < VPAGES
    modifies m
    ensures r.Added? && v < UPAGES ==> Grown(old(m.State()), m.State(), d, v, v + 1)
    ensures r.Added? && v >= UPAGES ==> Astray(old(m.State()), m.State(), d, v, r.f)
    ensures r.Added? ==> Paid(old(m.State()), m.State(), d, 1, v / ENTRIES, v / ENTRIES + 1)
    ensures r.Added? ==> !Present(Entry(old(m.State()), d, v))
    ensures r.NoPage? ==> m.State() == old(m.State())
    ensures r.NoTable? ==> Stuck(old(m.State()), m.State(), d, r.f)
    ensures r.NoPage? || r.NoTable? <==> |old(m.State()).free| < Cost(old(m.State()), d, v, 1)
    ensures r.Remapped? ==> Present(Entry(old(m.State()), d, v))
  {
    hide *;
    ghost var s := m.State();
    SpaceInv(s, d);
    OnePageCost(s, d, v);
    var p := m.Kalloc();
    if p.None? {
      return NoPage;
    }
    var f := p.value;
    TakenIs(s, d, m.State());
    m.Fill(f, ZeroPage());
    ghost var s1 := m.State();
    FilledState(s, ZeroPage(), s1);
    FilledMayMap(s, d, f, ZeroPage(), s1, v, PTE_W + PTE_U);
    PageAddress(v);
    PageAddress(f);
    FilledKeeps(s, d, f, ZeroPage(), s1);
    FilledPaid(s, d, ZeroPage(), s1, v / ENTRIES);
    SameEntryAt(s, s1, d, v);
    var res;
    ghost var n;
    res, n := m.MapPages(d, v * PGSIZE, PGSIZE, f * PGSIZE, PTE_W + PTE_U, v < UPAGES);
    OnePageTable(s, s1, m.State(), d, v);
    if res == Done {
      if v < UPAGES {
        FreshMapped(s, d, f, s1, v, m.State());
      } else {
        KernelPageMapped(s, d, f, s1, v, m.State());
      }
      return Added(f);
    } else if res == NoMemory {
      if v < UPAGES {
        NotMapped(s, d, f, ZeroPage(), s1, v, PTE_W + PTE_U, m.State());
      } else {
        KernelPageNotMapped(s, d, f, s1, v, m.State());
      }
      return NoTable(f);
    } else {
      PresentTable(s, d, v);
      return Remapped;
    }
  }

  lemma OnePageCost(s: Vm, d: int, v: int)
    requires 0 <= v
    ensures Cost(s, d, v, 1) == if HasTable(s, d, v) then 1 else 2
    ensures TablesEnd(v, 1) == v / ENTRIES + 1 && ENTRIES > 0
  {
    assert Missing(s, d, v / ENTRIES, v / ENTRIES) == 0;
  }

  lemma OnePageTable(s: Vm, s1: Vm, s2: Vm, d: int, v: int)
    requires 0 <= v && Paid(s, s1, d, 1, v / ENTRIES, v / ENTRIES) && |s1.free| == |s.free| - 1
    ensures Paid(s1, s2, d, 0, v / ENTRIES, TablesEnd(v, 1)) ==> Paid(s, s2, d, 1, v / ENTRIES, v / ENTRIES + 1)
    ensures Missing(s1, d, v / ENTRIES, TablesEnd(v, 1)) == if HasTable(s, d, v) then 0 else 1
    ensures Paid(s1, s2, d, 0, v / ENTRIES, TablesEnd(v, 1)) ==> |s.free| >= Cost(s, d, v, 1)
  {
    OnePageCost(s, d, v);
    assert Missing(s1, d, v / ENTRIES, v / ENTRIES) == 0;
    if Paid(s1, s2, d, 0, v / ENTRIES, TablesEnd(v, 1)) {
      PaidTable(s, s1, s2, d, 1, 0, v / ENTRIES, v / ENTRIES, v / ENTRIES);
    }
  }

  lemma PresentTable(s: Vm, d: int, v: int)
    requires Present(Entry(s, d, v))
    ensures HasTable(s, d, v)
  {
  }

  lemma TakenIs(s: Vm, d: int, s1: Vm)
    requires Space(s, d) && s.free != [] && s1 == Take(s)
    ensures Inv(s1) && s.free[0] in s1.owner && s1.owner[s.free[0]] == Held && |ZeroPage()| == ENTRIES
    ensures 0 <= PTE_W + PTE_U < PGSIZE
  {
    TakeKeeps(s);
  }

  lemma FilledState(s: Vm, p: Page, s1: Vm)
    requires s.free != [] && s1 == Write(Take(s), s.free[0], p)
    ensures s1 == Filled(s, p)
  {
  }

  lemma SameEntryAt(s: Vm, s1: Vm, d: int, v: int)
    requires SameEntries(s, s1, d) && 0 <= v < VPAGES
    ensures Entry(s1, d, v) == Entry(s, d, v)
  {
  }

  lemma PageAddress(v: int)
    ensures PageOf(v * PGSIZE) == v && Pages(v * PGSIZE, PGSIZE) == 1
    ensures 0 <= v ==> 0 <= v * PGSIZE
    ensures 0 < PGSIZE && v * PGSIZE % PGSIZE == 0
  {
  }

  /** What a failed allocuvm leaves: nothing mapped in the range, everything else as it was. */
  ghost predicate Undone(s0: Vm, s: Vm, d: int, lo: int, hi: int) {
    && Space(s, d) && Kept(s0, s, d)
    && (forall x :: 0 <= x < VPAGES && !(lo <= x < hi) ==> Entry(s, d, x) == Entry(s0, d, x))
    && (forall x :: 0 <= x < VPAGES && lo <= x < hi ==> !Present(Entry(s, d, x)))
    && UsersKeptBut(s0, s, d, lo, hi)
  }

  /** No user page outside the range was lost, changed hands or changed content. */
  ghost predicate UsersKeptBut(s: Vm, s': Vm, d: int, lo: int, hi: int) {
    forall f :: f in s.owner && s.owner[f].User? && !UserBetween(s.owner[f], d, lo, hi) ==>
      f in s'.owner && s'.owner[f] == s.owner[f] && SamePage(s, s', f)
  }

  lemma UndoneCleared(s0: Vm, s: Vm, s': Vm, d: int, lo: int, a: int, hi: int)
    requires Inv(s0) && Grown(s0, s, d, lo, a) && Cleared(s, s', d, lo, hi) && lo <= a <= hi
    ensures Undone(s0, s', d, lo, hi)
  {
    KeptTransitive(s0, s, s', d, 0);
  }

  /** The page that could not be mapped is still the kernel's after deallocuvm. */
  lemma StuckCleared(s: Vm, s1: Vm, s2: Vm, d: int, f: int, lo: int, hi: int)
    requires Space(s, d) && Stuck(s, s1, d, f) && Cleared(s1, s2, d, lo, hi)
    ensures Inv(s2) && f in s2.owner && s2.owner[f] == Held
  {
  }

  lemma UndoneStuck(s0: Vm, s: Vm, s1: Vm, s2: Vm, s3: Vm, d: int, f: int, lo: int, a: int, hi: int)
    requires Inv(s0) && Space(s, d) && Grown(s0, s, d, lo, a) && lo <= a <= hi
    requires Stuck(s, s1, d, f) && Cleared(s1, s2, d, lo, hi)
    requires f in s2.owner && s3 == Give(s2, f)
    ensures Undone(s0, s3, d, lo, hi)
  {
    hide *;
    StuckCleared(s, s1, s2, d, f, lo, hi);
    StuckClearedFreed(s, s1, s2, s3, d, f, lo, hi);
    UndoneAfter(s0, s, s3, d, lo, a, hi);
  }

  lemma StuckClearedFreed(s: Vm, s1: Vm, s2: Vm, s3: Vm, d: int, f: int, lo: int, hi: int)
    requires Space(s, d) && Stuck(s, s1, d, f) && Cleared(s1, s2, d, lo, hi)
    requires f in s2.owner && s2.owner[f] == Held && s3 == Give(s2, f)
    ensures Undone(s, s3, d, lo, hi)
  {
    StuckClearedUsers(s, s1, s2, s3, d, f, lo, hi);
    StuckClearedKept(s, s1, s2, s3, d, f, lo, hi);
    hide UsersKeptBut;
    hide KeptBut;
    GiveKeeps(s2, f);
    UnusedPage(s2, s3, f);
  }

  lemma StuckClearedKept(s: Vm, s1: Vm, s2: Vm, s3: Vm, d: int, f: int, lo: int, hi: int)
    requires Space(s, d) && Stuck(s, s1, d, f) && Cleared(s1, s2, d, lo, hi)
    requires f in s2.owner && s2.owner[f] == Held && s3 == Give(s2, f)
    ensures Kept(s, s3, d)
  {
    hide Inv;
    forall g | g in s3.owner && !Belongs(s3, g, d)
      ensures g in s.owner && !Belongs(s, g, d)
    {
      assert g in s1.owner && !Belongs(s1, g, d);
    }
    forall g | g in s.owner && !Belongs(s, g, d)
      ensures g in s3.owner && s3.owner[g] == s.owner[g] && SamePage(s, s3, g)
    {
      assert g in s1.owner && SamePage(s, s1, g) && !Belongs(s1, g, d);
      assert SamePage(s1, s2, g);
    }
  }

  lemma StuckClearedUsers(s: Vm, s1: Vm, s2: Vm, s3: Vm, d: int, f: int, lo: int, hi: int)
    requires Stuck(s, s1, d, f) && Cleared(s1, s2, d, lo, hi)
    requires f in s2.owner && s2.owner[f] == Held && s3 == Give(s2, f)
    ensures UsersKeptBut(s, s3, d, lo, hi)
  {
    hide Inv;
    forall g | g in s.owner && s.owner[g].User? && !UserBetween(s.owner[g], d, lo, hi)
      ensures g in s3.owner && s3.owner[g] == s.owner[g] && SamePage(s, s3, g)
    {
      assert SamePage(s, s1, g) && SamePage(s1, s2, g);
    }
  }

  lemma UndoneAfter(s0: Vm, s: Vm, s': Vm, d: int, lo: int, a: int, hi: int)
    requires Inv(s0) && Grown(s0, s, d, lo, a) && Undone(s, s', d, lo, hi) && lo <= a <= hi
    ensures Undone(s0, s', d, lo, hi)
  {
    KeptTransitive(s0, s, s', d, 0);
  }

  lemma GrownSpace(s0: Vm, s: Vm, d: int, lo: int, hi: int)
    requires Grown(s0, s, d, lo, hi)
    ensures Space(s, d) && Inv(s)
  {
  }

  lemma GrownEntry(s0: Vm, s: Vm, d: int, lo: int, hi: int, x: int)
    requires Grown(s0, s, d, lo, hi) && 0 <= x < UPAGES && hi <= x
    ensures Entry(s, d, x) == Entry(s0, d, x)
  {
  }

  lemma GrowCost(s0: Vm, s: Vm, s': Vm, d: int, lo: int, a: int)
    requires Paid(s0, s, d, a - lo, lo / ENTRIES, TablesEnd(lo, a - lo)) && 0 <= lo <= a
    requires Paid(s, s', d, 1, a / ENTRIES, a / ENTRIES + 1)
    ensures Paid(s0, s', d, a + 1 - lo, lo / ENTRIES, TablesEnd(lo, a + 1 - lo))
  {
    TablesEndNext(lo, a - lo);
    PaidTable(s0, s, s', d, a - lo, 1, lo / ENTRIES, TablesEnd(lo, a - lo), a / ENTRIES);
  }

  /** Page a cannot be paid for: there were too few free pages for the whole range. */
  lemma CannotPay(s0: Vm, s: Vm, d: int, lo: int, a: int, hi: int)
    requires Paid(s0, s, d, a - lo, lo / ENTRIES, TablesEnd(lo, a - lo)) && 0 <= lo <= a < hi
    requires |s.free| < Cost(s, d, a, 1)
    ensures |s0.free| < Cost(s0, d, lo, hi - lo)
  {
    OnePageCost(s, d, a);
    TablesEndNext(lo, a - lo);
    TablesEndMonotone(lo, a + 1 - lo, hi - lo);
    assert Missing(s0, d, lo / ENTRIES, TablesEnd(lo, a + 1 - lo))
           >= Missing(s0, d, lo / ENTRIES, TablesEnd(lo, a - lo)) + if HasTable(s, d, a) then 0 else 1;
    MissingMonotone(s0, d, lo / ENTRIES, TablesEnd(lo, a + 1 - lo), TablesEnd(lo, hi - lo));
  }

  lemma AllPaid(s0: Vm, s: Vm, d: int, lo: int, hi: int)
    requires Paid(s0, s, d, hi - lo, lo / ENTRIES, TablesEnd(lo, hi - lo))
    ensures |s0.free| >= Cost(s0, d, lo, hi - lo)
  {
  }

  lemma NothingPaid(s: Vm, d: int, lo: int)
    ensures Paid(s, s, d, 0, lo / ENTRIES, TablesEnd(lo, 0)) && ENTRIES > 0
  {
  }

  /** A page from lo up to hi is mapped, and allocuvm gets as far as the first such page. */
  ghost predicate RemapsAt(s: Vm, d: int, lo: int, hi: int) {
    var p := FirstMapped(s, d, lo, hi);
    p < hi && |s.free| >= Cost(s, d, lo, p + 1 - lo)
  }

  lemma GrownAbsent(s0: Vm, s: Vm, d: int, lo: int, a: int)
    requires Grown(s0, s, d, lo, a)
    ensures forall x :: lo <= x < a ==> !Present(Entry(s0, d, x))
  {
  }

  lemma MeetsMapped(s0: Vm, s: Vm, d: int, lo: int, a: int, hi: int)
    requires Paid(s0, s, d, a - lo, lo / ENTRIES, TablesEnd(lo, a - lo)) && 0 <= lo <= a < hi
    requires (forall x :: lo <= x < a ==> !Present(Entry(s0, d, x))) && Present(Entry(s0, d, a))
    requires |s.free| >= Cost(s, d, a, 1)
    ensures RemapsAt(s0, d, lo, hi)
  {
    FirstMappedAfter(s0, d, lo, a, hi);
    OnePageCost(s, d, a);
    TablesEndNext(lo, a - lo);
    PresentTable(s0, d, a);
  }

  lemma NeverMeets(s0: Vm, s: Vm, d: int, lo: int, a: int, hi: int)
    requires Paid(s0, s, d, a - lo, lo / ENTRIES, TablesEnd(lo, a - lo)) && 0 <= lo <= a < hi
    requires forall x :: lo <= x < a ==> !Present(Entry(s0, d, x))
    requires |s.free| < Cost(s, d, a, 1)
    ensures !RemapsAt(s0, d, lo, hi)
  {
    FirstMappedAfter(s0, d, lo, a, hi);
    CannotPay(s0, s, d, lo, a, FirstMapped(s0, d, lo, hi) + 1);
  }

  lemma NoneMapped(s: Vm, d: int, lo: int, hi: int)
    requires lo <= hi && forall x :: lo <= x < hi ==> !Present(Entry(s, d, x))
    ensures !RemapsAt(s, d, lo, hi)
  {
    FirstMappedAfter(s, d, lo, hi, hi);
  }

  /** allocuvm. It grows d by exactly the missing pages if the free list has enough for them and
      for the page tables they lack; if not, it takes back every page of the range. It panics
      if and only if a page of the range is mapped already and the pages up to the first such page
      can be paid for, with one more for that page itself. */
  method AllocUvm(m: Memory, d: int, oldsz: int, newsz: int) returns (r: int, panicked: bool)
    requires Space(m.State(), d) && 0 <= oldsz && 0 <= newsz
    modifies m
    ensures newsz >= KERNBASE ==> r == 0 && !panicked && m.State() == old(m.State())
    ensures newsz < oldsz && newsz < KERNBASE ==> r == oldsz && !panicked && m.State() == old(m.State())
    ensures oldsz <= newsz < KERNBASE && !panicked ==>
      var lo, hi := RoundUp(oldsz), RoundUp(newsz);
      if |old(m.State()).free| >= Cost(old(m.State()), d, lo, hi - lo)
      then r == newsz && Grown(old(m.State()), m.State(), d, lo, hi)
      else r == 0 && Undone(old(m.State()), m.State(), d, lo, hi)
    ensures oldsz <= newsz < KERNBASE ==>
      (panicked <==> RemapsAt(old(m.State()), d, RoundUp(oldsz), RoundUp(newsz)))
    ensures panicked ==> exists x :: RoundUp(oldsz) <= x < RoundUp(newsz) && Present(Entry(old(m.State()), d, x))
  {
    hide *;
    KernbaseIs();
    if newsz >= KERNBASE {
      return 0, false;
    }
    if newsz < oldsz {
      return oldsz, false;
    }
    ghost var s0 := m.State();
    var a, end := RoundUp(oldsz), RoundUp(newsz);
    RoundUpLe(oldsz, newsz);
    SpaceInv(s0, d);
    GrownStart(s0, d, a);
    NothingPaid(s0, d, a);
    ghost var lo := a;
    while a < end
      invariant 0 <= lo <= a <= end
      invariant Grown(s0, m.State(), d, lo, a)
      invariant Paid(s0, m.State(), d, a - lo, lo / ENTRIES, TablesEnd(lo, a - lo))
      decreases end - a
    {
      ghost var s := m.State();
      GrownSpace(s0, s, d, lo, a);
      GrownEntry(s0, s, d, lo, a, a);
      GrownAbsent(s0, s, d, lo, a);
      var res := AddPage(m, d, a);
      if res.Added? {
        GrownMore(s0, s, m.State(), d, lo, a);
        GrowCost(s0, s, m.State(), d, lo, a);
        a := a + 1;
      } else if res.Remapped? {
        MeetsMapped(s0, s, d, lo, a, end);
        return 0, true;
      } else {
        CannotPay(s0, s, d, lo, a, end);
        NeverMeets(s0, s, d, lo, a, end);
        TakeBack(m, d, oldsz, newsz, res, s0, s, a);
        return 0, false;
      }
    }
    AllPaid(s0, m.State(), d, lo, end);
    GrownAbsent(s0, m.State(), d, lo, end);
    NoneMapped(s0, d, lo, end);
    return newsz, false;
  }

  /** The out-of-memory paths of allocuvm: deallocuvm, and kfree of a page that got no page table. */
  method TakeBack(m: Memory, d: int, oldsz: int, newsz: int, res: PageResult, ghost s0: Vm, ghost s: Vm, ghost a: int)
    requires Inv(s0) && 0 <= oldsz < newsz < KERNBASE && RoundUp(oldsz) <= a <= RoundUp(newsz)
    requires Space(s, d) && Grown(s0, s, d, RoundUp(oldsz), a)
    requires (res.NoPage? && m.State() == s) || (res.NoTable? && Stuck(s, m.State(), d, res.f))
    modifies m
    ensures Undone(s0, m.State(), d, RoundUp(oldsz), RoundUp(newsz))
  {
    hide *;
    KernbaseIs();
    ghost var lo, end := RoundUp(oldsz), RoundUp(newsz);
    if res.NoPage? {
      var x := m.DeallocUvm(d, newsz, oldsz);
      UndoneCleared(s0, s, m.State(), d, lo, a, end);
    } else {
      ghost var s1 := m.State();
      StuckHeld(s, s1, d, res.f);
      var x := m.DeallocUvm(d, newsz, oldsz);
      ghost var s2 := m.State();
      StuckCleared(s, s1, s2, d, res.f, lo, end);
      m.Kfree(res.f);
      UndoneStuck(s0, s, s1, s2, m.State(), d, res.f, lo, a, end);
    }
  }

  lemma KernbaseIs()
    ensures KERNBASE == UPAGES * PGSIZE && UPAGES <= VPAGES
  {
  }

  lemma RoundUpLe(oldsz: int, newsz: int)
    requires 0 <= oldsz <= newsz < UPAGES * PGSIZE
    ensures 0 <= RoundUp(oldsz) <= RoundUp(newsz) <= UPAGES
    ensures RoundUp(oldsz) < RoundUp(newsz) ==> oldsz < newsz
  {
  }

  /** page_fault_handler, on any address. Below the kernel it adds one page; in the kernel's half
      it maps one that belongs to nobody. Without enough free pages it changes nothing, and it
      panics on a page that is mapped already. */
  method PageFault(m: Memory, d: int, v: int) returns (r: int, panicked: bool, ghost f: int)
    requires Space(m.State(), d) && 0 <= v < VPAGES
    modifies m
    ensures panicked <==> Present(Entry(old(m.State()), d, v)) && old(m.State()).free != []
    ensures !panicked ==> r == if |old(m.State()).free| >= Cost(old(m.State()), d, v, 1) then 1 else 0
    ensures !panicked && r == 1 && v < UPAGES ==> Grown(old(m.State()), m.State(), d, v, v + 1)
    ensures !panicked && r == 1 && v >= UPAGES ==> Astray(old(m.State()), m.State(), d, v, f)
    ensures !panicked && r == 0 ==> Grown(old(m.State()), m.State(), d, 0, 0)
  {
    hide *;
    ghost var s := m.State();
    f := 0;
    GrownStart(s, d, 0);
    FaultCost(s, d, v);
    var res := AddPage(m, d, v);
    if res.Added? {
      f := res.f;
      return 1, false, f;
    } else if res.Remapped? {
      return 0, true, f;
    } else if res.NoPage? {
      return 0, false, f;
    } else {
      ghost var s1 := m.State();
      StuckHeld(s, s1, d, res.f);
      m.Kfree(res.f);
      StuckFreed(s, s1, d, res.f, m.State());
      return 0, false, f;
    }
  }

  /** A mapped page has its page table. */
  lemma FaultCost(s: Vm, d: int, v: int)
    requires 0 <= v
    ensures Present(Entry(s, d, v)) ==> Cost(s, d, v, 1) == 1
    ensures Cost(s, d, v, 1) >= 1
    ensures s.free == [] <==> |s.free| == 0
  {
    OnePageCost(s, d, v);
  }

  /** A page that a fault put into the kernel's half stays taken when the address space is freed:
      it is lost for good. */
  lemma AstrayIsLost(s: Vm, s1: Vm, s2: Vm, d: int, v: int, f: int)
    requires Inv(s) && Astray(s, s1, d, v, f) && Gone(s1, s2, d)
    ensures f in s2.owner && f !in s2.free && f !in s.owner
  {
    assert !Belongs(s1, f, d);
    assert Partition(s2);
  }

  // ---- freevm ---------------------------------------------------------------------------

  /** Address space d is gone and every page of it is free; the rest is untouched. */
  ghost predicate Gone(s0: Vm, s: Vm, d: int) {
    && Inv(s) && s.mem.Keys == s0.mem.Keys
    && (forall f :: f in s.owner <==> f in s0.owner && !Belongs(s0, f, d))
    && (forall f :: f in s.owner ==> s.owner[f] == s0.owner[f] && SamePage(s0, s, f))
  }

  /** No user pages are left and the page tables below i have been freed. */
  ghost predicate FreeRun(s1: Vm, s: Vm, d: int, i: int) {
    && Inv(s) && s.mem.Keys == s1.mem.Keys
    && (forall f :: f in s.owner <==> f in s1.owner && !(s1.owner[f].Table? && s1.owner[f].d == d && s1.owner[f].i < i))
    && (forall f :: f in s.owner ==>
          s.owner[f] == (if Belongs(s1, f, d) then Held else s1.owner[f]) && SamePage(s1, s, f))
  }

  ghost predicate NoUsers(s: Vm, d: int) {
    forall v :: 0 <= v < UPAGES ==> !Present(Entry(s, d, v))
  }

  lemma FreeRunStart(s1: Vm, d: int, s: Vm)
    requires Space(s1, d) && NoUsers(s1, d) && s == Retire(s1, d)
    ensures FreeRun(s1, s, d, 0)
  {
    RetireKeeps(s1, d);
    assert forall f :: f in s1.owner ==> Owned(s1, f);
  }

  /** Page table i is there and still to be freed, exactly when the directory lists it. */
  lemma FreeRunAt(s1: Vm, s: Vm, d: int, i: int)
    requires Space(s1, d) && FreeRun(s1, s, d, i) && 0 <= i < ENTRIES
    ensures d in s.mem && i < |s.mem[d]| && s.mem[d][i] == Pde(s1, d, i) && Inv(s)
    ensures Present(Pde(s1, d, i)) ==> FrameOf(Pde(s1, d, i)) in s.owner && s.owner[FrameOf(Pde(s1, d, i))] == Held
    ensures !Present(Pde(s1, d, i)) ==> FreeRun(s1, s, d, i + 1)
  {
    assert DirOwns(s1, d, i);
    assert forall f :: f in s1.owner ==> Owned(s1, f);
    assert SamePage(s1, s, d);
  }

  lemma FreeRunStep(s1: Vm, s: Vm, d: int, i: int, s': Vm)
    requires Space(s1, d) && FreeRun(s1, s, d, i) && 0 <= i < ENTRIES && Present(Pde(s1, d, i))
    requires FrameOf(Pde(s1, d, i)) in s.owner && s.owner[FrameOf(Pde(s1, d, i))] == Held
    requires s' == Give(s, FrameOf(Pde(s1, d, i)))
    ensures FreeRun(s1, s', d, i + 1)
  {
    var t := FrameOf(Pde(s1, d, i));
    GiveKeeps(s, t);
    assert DirOwns(s1, d, i);
    forall f | f in s1.owner && s1.owner[f] == Table(d, i)
      ensures f == t
    {
      assert Owned(s1, f);
    }
  }

  lemma FreeRunEnd(s0: Vm, s1: Vm, s: Vm, d: int, s': Vm)
    requires Space(s0, d) && Cleared(s0, s1, d, 0, UPAGES) && FreeRun(s1, s, d, ENTRIES)
    requires d in s.owner && s.owner[d] == Held && s' == Give(s, d)
    ensures Gone(s0, s', d)
  {
    GiveKeeps(s, d);
    assert forall f :: f in s0.owner ==> Owned(s0, f);
    assert forall f :: f in s1.owner ==> Owned(s1, f);
    forall f | f in s'.owner
      ensures f in s0.owner && !Belongs(s0, f, d) && s'.owner[f] == s0.owner[f] && SamePage(s0, s', f)
    {
      assert f in s1.owner && !Belongs(s1, f, d);
      assert SamePage(s1, s, f);
    }
  }

  lemma ClearedNoUsers(s0: Vm, s: Vm, d: int)
    requires Cleared(s0, s, d, 0, UPAGES)
    ensures Space(s, d) && NoUsers(s, d)
  {
  }

  lemma FreeRunDir(s1: Vm, s: Vm, d: int)
    requires Space(s1, d) && FreeRun(s1, s, d, ENTRIES)
    ensures Inv(s) && d in s.owner && s.owner[d] == Held
  {
  }

  lemma WholeUserHalf()
    ensures RoundUp(0) == 0 && RoundUp(KERNBASE) == UPAGES && 0 < KERNBASE <= UPAGES * PGSIZE
  {
  }

  /** freevm: every page of the address space goes back to the free list, once. */
  method FreeVm(m: Memory, d: int)
    requires Space(m.State(), d)
    modifies m
    ensures Gone(old(m.State()), m.State(), d)
  {
    hide *;
    ghost var s0 := m.State();
    WholeUserHalf();
    var x := m.DeallocUvm(d, KERNBASE, 0);
    ghost var s1 := m.State();
    ClearedNoUsers(s0, s1, d);
    m.RetireDir(d);
    FreeRunStart(s1, d, m.State());
    var i := 0;
    while i < ENTRIES
      invariant 0 <= i <= ENTRIES && FreeRun(s1, m.State(), d, i)
    {
      ghost var s := m.State();
      FreeRunAt(s1, s, d, i);
      var e := m.EntryOf(d, i);
      if Present(e) {
        m.Kfree(FrameOf(e));
        FreeRunStep(s1, s, d, i, m.State());
      }
      i := i + 1;
    }
    ghost var s := m.State();
    FreeRunDir(s1, s, d);
    m.Kfree(d);
    FreeRunEnd(s0, s1, s, d, m.State());
  }

  // ---- setupkvm -----------------------------------------------------------------------------

  const EXTMEM: int := 0x10_0000
  const PHYSTOP: int := 0xE00_0000
  const DEVSPACE: int := 0xFE00_0000
  const KERNLINK: int := KERNBASE + EXTMEM

  datatype KMap = KMap(virt: int, physStart: int, physEnd: int, perm: int) {
    /** The unsigned difference k->phys_end - k->phys_start. */
    function Size(): int { (physEnd - physStart) % 0x1_0000_0000 }
    function First(): int { PageOf(virt) }
    function Count(): int { Pages(virt, Size()) }
    /** The entry for page x of the range. */
    function PteAt(x: int): int { MakePte(PageOf(physStart) + x - First(), perm) }
  }

  /** kmap[], for the address `data` of the kernel's data segment. */
  function KmapTable(data: int): seq<KMap> {
    [KMap(KERNBASE, 0, EXTMEM, PTE_W),
     KMap(KERNLINK, KERNLINK - KERNBASE, data - KERNBASE, 0),
     KMap(data, data - KERNBASE, PHYSTOP, PTE_W),
     KMap(DEVSPACE, DEVSPACE, 0, PTE_W)]
  }

  function Bound(kmap: seq<KMap>, k: nat): int {
    if k < |kmap| then kmap[k].First() else VPAGES
  }

  /** Ascending, disjoint ranges of kernel pages. */
  predicate GoodKmap(kmap: seq<KMap>) {
    forall j :: 0 <= j < |kmap| ==>
      && UPAGES <= kmap[j].First() && 0 < kmap[j].Size() && 0 < kmap[j].Count()
      && kmap[j].First() + kmap[j].Count() <= Bound(kmap, j + 1) <= VPAGES
      && 0 <= kmap[j].perm < PGSIZE && kmap[j].physStart % PGSIZE == 0 && 0 <= kmap[j].virt
  }

  lemma KmapIsGood(data: int)
    requires data % PGSIZE == 0 && KERNLINK < data < KERNBASE + PHYSTOP
    ensures GoodKmap(KmapTable(data))
  {
    KmapRanges(data, data / PGSIZE);
  }

  lemma RangePages(page: int, n: int)
    requires n > 0
    ensures PageOf(page * PGSIZE) == page && Pages(page * PGSIZE, n * PGSIZE) == n
  {
  }

  /** The entry for page x after the first k ranges have been mapped. */
  function KernelPte(kmap: seq<KMap>, k: nat, x: int): int
    requires k <= |kmap|
  {
    if k == 0 then 0
    else if kmap[k - 1].First() <= x < kmap[k - 1].First() + kmap[k - 1].Count() then kmap[k - 1].PteAt(x)
    else KernelPte(kmap, k - 1, x)
  }

  lemma {:induction false} KernelPteAbove(kmap: seq<KMap>, k: nat, x: int)
    requires GoodKmap(kmap) && k <= |kmap| && Bound(kmap, k) <= x
    ensures KernelPte(kmap, k, x) == 0
  {
    hide PageOf;
    hide Pages;
    if k > 0 {
      assert kmap[k - 1].First() + kmap[k - 1].Count() <= Bound(kmap, k);
      KernelPteAbove(kmap, k - 1, x);
    }
  }

  lemma {:induction false} KernelPteBelow(kmap: seq<KMap>, k: nat, x: int)
    requires GoodKmap(kmap) && k <= |kmap| && x < UPAGES
    ensures KernelPte(kmap, k, x) == 0
  {
    hide PageOf;
    hide Pages;
    if k > 0 {
      KernelPteBelow(kmap, k - 1, x);
    }
  }

  /** The kernel's half of every address space: physical memory from KERNBASE on, writable but
      for the kernel's text, the devices at their own addresses, and nothing between. */
  lemma KernelHalf(data: int, x: int)
    requires data % PGSIZE == 0 && KERNLINK < data < KERNBASE + PHYSTOP && 0 <= x < VPAGES
    ensures KernelPte(KmapTable(data), 4, x)
            == if x < UPAGES || PageOf(KERNBASE + PHYSTOP) <= x < PageOf(DEVSPACE) then 0
               else if x >= PageOf(DEVSPACE) then MakePte(x, PTE_W)
               else MakePte(x - UPAGES, if PageOf(KERNLINK) <= x < PageOf(data) then 0 else PTE_W)
  {
    var q := data / PGSIZE;
    var k := KmapTable(data);
    KmapRanges(data, q);
    hide Pages;
    hide MakePte;
    assert KernelPte(k, 1, x) == if UPAGES <= x < 0x8_0100 then k[0].PteAt(x) else 0;
    assert KernelPte(k, 2, x) == if 0x8_0100 <= x < q then k[1].PteAt(x) else KernelPte(k, 1, x);
    assert KernelPte(k, 3, x) == if q <= x < 0x8_E000 then k[2].PteAt(x) else KernelPte(k, 2, x);
  }

  lemma KmapRanges(data: int, q: int)
    requires data == q * PGSIZE && KERNLINK < data < KERNBASE + PHYSTOP
    ensures var k := KmapTable(data);
      && k[0].First() == UPAGES && k[0].Count() == 0x100
      && k[1].First() == 0x8_0100 && k[1].Count() == q - 0x8_0100
      && k[2].First() == q && k[2].Count() == 0x8_E000 - q
      && k[3].First() == 0xF_E000 && k[3].Count() == 0x2000
  {
    RangePages(UPAGES, 0x100);
    RangePages(0x8_0100, q - 0x8_0100);
    RangePages(q, 0x8_E000 - q);
    RangePages(0xF_E000, 0x2000);
    var k := KmapTable(data);
    assert k[0].Size() == 0x100 * PGSIZE;
    assert k[1].Size() == (q - 0x8_0100) * PGSIZE;
    assert k[2].Size() == (0x8_E000 - q) * PGSIZE;
    assert k[3].Size() == 0x2000 * PGSIZE;
  }

  /** d is new, and has the mappings of the first k ranges and no others. */
  ghost predicate SetupRun(s0: Vm, s: Vm, d: int, kmap: seq<KMap>, k: nat) {
    && Space(s, d) && d !in s0.owner && Kept(s0, s, d) && UsersKept(s0, s) && k <= |kmap|
    && forall x :: 0 <= x < VPAGES ==> Entry(s, d, x) == KernelPte(kmap, k, x)
  }

  lemma SetupStart(s0: Vm, d: int, s1: Vm, s: Vm, kmap: seq<KMap>)
    requires Inv(s0) && s0.free != [] && d == s0.free[0]
    requires s1 == Filled(s0, ZeroPage()) && s == Reassign(s1, d, Dir)
    ensures SetupRun(s0, s, d, kmap, 0) && TablesMade(s0, s, d, 0, 0)
  {
    TakeKeeps(s0);
    WriteKeeps(Take(s0), d, ZeroPage());
    NewDirKeeps(s1, d);
    assert forall i :: Pde(s, d, i) == 0;
  }

  lemma SetupMayMap(s0: Vm, s: Vm, d: int, kmap: seq<KMap>, k: nat)
    requires SetupRun(s0, s, d, kmap, k) && GoodKmap(kmap) && k < |kmap|
    ensures 0 <= kmap[k].virt && 0 < kmap[k].Size() && kmap[k].physStart % PGSIZE == 0
    ensures MayMap(s, d, PageOf(kmap[k].virt), Pages(kmap[k].virt, kmap[k].Size()),
                   PageOf(kmap[k].physStart), kmap[k].perm, false)
  {
  }

  lemma SetupStep(s0: Vm, s: Vm, d: int, kmap: seq<KMap>, k: nat, s': Vm)
    requires Inv(s0) && SetupRun(s0, s, d, kmap, k) && k < |kmap|
    requires MapRun(s, s', d, PageOf(kmap[k].virt), Pages(kmap[k].virt, kmap[k].Size()),
                    PageOf(kmap[k].physStart), kmap[k].perm, false)
    ensures SetupRun(s0, s', d, kmap, k + 1)
  {
    hide PageOf;
    hide Pages;
    hide MakePte;
    hide Entry;
    KeptTransitive(s0, s, s', d, 0);
  }

  /** The panic "remap" cannot happen in setupkvm: the ranges are disjoint. */
  lemma SetupNeverRemaps(s0: Vm, s: Vm, d: int, kmap: seq<KMap>, k: nat, x: int)
    requires SetupRun(s0, s, d, kmap, k) && GoodKmap(kmap) && k < |kmap|
    requires PageOf(kmap[k].virt) <= x < PageOf(kmap[k].virt) + Pages(kmap[k].virt, kmap[k].Size())
    ensures !Present(Entry(s, d, x))
  {
    hide Pages;
    hide Entry;
    KernelPteAbove(kmap, k, x);
  }

  // ---- What setupkvm costs --------------------------------------------------------------------

  /** A directory, 56 page tables for physical memory and 8 for the devices. */
  const KERNEL_PAGES: int := 65

  /** The page tables of physical memory that the first k ranges need end here. */
  function TablesTop(q: int, k: nat): int {
    if k == 0 then 512 else if k == 1 then 513 else if k == 2 then (q - 1) / ENTRIES + 1 else 568
  }

  /** The directory and the page tables of the first k ranges have been taken, for a data segment
      that starts at page q of the kernel. */
  ghost predicate TablesMade(s0: Vm, s: Vm, d: int, q: int, k: nat) {
    && |s.free| == |s0.free| - 1 - (TablesTop(q, k) - 512) - (if k >= 4 then 8 else 0)
    && forall i :: Present(Pde(s, d, i)) <==> 512 <= i < TablesTop(q, k) || (k >= 4 && 1016 <= i < ENTRIES)
  }

  lemma {:induction false} MissingFrom(s: Vm, d: int, top: int, i: int, j: int)
    requires i <= j && forall k :: i <= k < j ==> (Present(Pde(s, d, k)) <==> k < top)
    ensures Missing(s, d, i, j) == if j <= top then 0 else if i <= top then j - top else j - i
    decreases j - i
  {
    if i < j {
      MissingFrom(s, d, top, i, j - 1);
    }
  }

  /** The page tables that range k adds. */
  lemma RangeTables(data: int, q: int, k: nat)
    requires data == q * PGSIZE && KERNLINK < data < KERNBASE + PHYSTOP && k < 4
    ensures var m := KmapTable(data)[k];
      var i, j := PageOf(m.virt) / ENTRIES, TablesEnd(PageOf(m.virt), Pages(m.virt, m.Size()));
      if k == 3 then i == 1016 && j == ENTRIES else 512 <= i <= TablesTop(q, k) <= j == TablesTop(q, k + 1)
    ensures 512 <= TablesTop(q, k) <= 568
  {
    KmapRanges(data, q);
    hide Pages;
  }

  lemma SetupTables(s0: Vm, s: Vm, d: int, q: int, k: nat, i: int, j: int)
    requires TablesMade(s0, s, d, q, k) && k < 4 && TablesTop(q, k) <= 568
    requires if k == 3 then i == 1016 && j == ENTRIES else 512 <= i <= TablesTop(q, k) <= j == TablesTop(q, k + 1)
    ensures Missing(s, d, i, j) == if k == 3 then 8 else j - TablesTop(q, k)
  {
    MissingFrom(s, d, TablesTop(q, k), i, j);
  }

  lemma SetupPays(s0: Vm, s: Vm, s': Vm, d: int, q: int, k: nat, i: int, j: int)
    requires TablesMade(s0, s, d, q, k) && k < 4 && TablesTop(q, k) <= 568 && Paid(s, s', d, 0, i, j)
    requires if k == 3 then i == 1016 && j == ENTRIES else 512 <= i <= TablesTop(q, k) <= j == TablesTop(q, k + 1)
    ensures TablesMade(s0, s', d, q, k + 1)
  {
    SetupTables(s0, s, d, q, k, i, j);
  }

  lemma SetupTooFew(s0: Vm, s: Vm, d: int, data: int, q: int, k: nat, i: int, j: int)
    requires data == q * PGSIZE && KERNLINK < data < KERNBASE + PHYSTOP
    requires TablesMade(s0, s, d, q, k) && k < 4 && |s.free| < Missing(s, d, i, j)
    requires if k == 3 then i == 1016 && j == ENTRIES else 512 <= i <= TablesTop(q, k) <= j == TablesTop(q, k + 1)
    ensures |s0.free| < KERNEL_PAGES
  {
    RangeTables(data, q, k);
    SetupTables(s0, s, d, q, k, i, j);
    assert k < 3 ==> TablesTop(q, k + 1) <= 568;
  }

  /** The mapping stopped half way: the new address space is still one that can be freed. */
  lemma SetupStopped(s0: Vm, s: Vm, d: int, kmap: seq<KMap>, k: nat, n: int, s': Vm)
    requires Inv(s0) && SetupRun(s0, s, d, kmap, k) && k < |kmap|
    requires MapRun(s, s', d, PageOf(kmap[k].virt), n, PageOf(kmap[k].physStart), kmap[k].perm, false)
    ensures Space(s', d) && Kept(s0, s', d) && d !in s0.owner
  {
    KeptTransitive(s0, s, s', d, 0);
  }

  /** The pages in use are the same pages, in the same roles, with the same content. */
  ghost predicate Restored(s0: Vm, s: Vm) {
    Inv(s) && s.mem.Keys == s0.mem.Keys && s.owner == s0.owner && forall f :: f in s0.owner ==> SamePage(s0, s, f)
  }

  lemma FreedNewSpace(s0: Vm, s: Vm, d: int, s': Vm)
    requires Inv(s0) && d !in s0.owner && Kept(s0, s, d) && Gone(s, s', d)
    ensures Restored(s0, s')
  {
    forall f | f in s0.owner
      ensures !Belongs(s0, f, d) && f != 0
    {
      assert Owned(s0, f);
    }
    assert forall f :: f in s'.owner <==> f in s0.owner;
    assert forall f :: f in s'.owner ==> s'.owner[f] == s0.owner[f];
    assert s'.owner == s0.owner;
  }

  /** setupkvm: a new page directory with the kernel mappings and no user pages, if 65 pages are
      free, and otherwise nothing. */
  method SetupKvm(m: Memory, data: int) returns (r: Option<int>)
    requires Inv(m.State()) && data % PGSIZE == 0 && KERNLINK < data < KERNBASE + PHYSTOP
    modifies m
    ensures r.Some? <==> |old(m.State()).free| >= KERNEL_PAGES
    ensures r.Some? ==> SetupRun(old(m.State()), m.State(), r.value, KmapTable(data), |KmapTable(data)|)
    ensures r.Some? ==> TablesMade(old(m.State()), m.State(), r.value, PageOf(data), 4)
    ensures r.None? ==> Restored(old(m.State()), m.State())
  {
    hide *;
    ghost var s0 := m.State();
    ghost var q := PageOf(data);
    RestoredRefl(s0);
    var kmap := KmapTable(data);
    KmapIsGood(data);
    KmapFacts(data, q);
    r := m.Kalloc();
    if r.None? {
      return;
    }
    var d := r.value;
    TakenFirst(s0, m.State());
    m.Fill(d, ZeroPage());
    ghost var s1 := m.State();
    FilledState(s0, ZeroPage(), s1);
    m.Assign(d, Dir);
    SetupStart(s0, d, s1, m.State(), kmap);
    NoneMade(s0, m.State(), d, q);
    var k := 0;
    while k < |kmap|
      invariant 0 <= k <= |kmap| && SetupRun(s0, m.State(), d, kmap, k) && TablesMade(s0, m.State(), d, q, k)
    {
      ghost var s := m.State();
      SetupMayMap(s0, s, d, kmap, k);
      RangeTables(data, q, k);
      ghost var i, j := PageOf(kmap[k].virt) / ENTRIES,
                        TablesEnd(PageOf(kmap[k].virt), Pages(kmap[k].virt, kmap[k].Size()));
      var res;
      ghost var n;
      res, n := m.MapPages(d, kmap[k].virt, kmap[k].Size(), kmap[k].physStart, kmap[k].perm, false);
      if res == Remap {
        SetupNeverRemaps(s0, s, d, kmap, k, PageOf(kmap[k].virt) + n);
        assert false;
      }
      if res == NoMemory {
        SetupTooFew(s0, s, d, data, q, k, i, j);
        ghost var s2 := m.State();
        SetupStopped(s0, s, d, kmap, k, n, s2);
        FreeVm(m, d);
        FreedNewSpace(s0, s2, d, m.State());
        return None;
      }
      SetupStep(s0, s, d, kmap, k, m.State());
      SetupPays(s0, s, m.State(), d, q, k, i, j);
      k := k + 1;
    }
    AllMade(s0, m.State(), d, q);
  }

  lemma KmapFacts(data: int, q: int)
    requires data % PGSIZE == 0 && q == PageOf(data)
    ensures |KmapTable(data)| == 4 && data == q * PGSIZE && ENTRIES > 0 && KERNEL_PAGES > 0
  {
  }

  /** Before the first range it does not matter where the data segment starts. */
  lemma NoneMade(s0: Vm, s: Vm, d: int, q: int)
    requires TablesMade(s0, s, d, 0, 0)
    ensures TablesMade(s0, s, d, q, 0)
  {
  }

  lemma AllMade(s0: Vm, s: Vm, d: int, q: int)
    requires TablesMade(s0, s, d, q, 4)
    ensures |s0.free| == |s.free| + KERNEL_PAGES
  {
  }

  lemma RestoredRefl(s: Vm)
    requires Inv(s)
    ensures Restored(s, s)
  {
  }

  lemma TakenFirst(s: Vm, s1: Vm)
    requires Inv(s) && s.free != [] && s1 == Take(s)
    ensures Inv(s1) && s.free[0] in s1.owner && s1.owner[s.free[0]] == Held && |ZeroPage()| == ENTRIES
  {
    TakeKeeps(s);
  }
}
