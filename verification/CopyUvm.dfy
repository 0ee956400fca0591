/** copyuvm of vm.c: fork's copy of the parent's address space. */
module CopySpace {
  import opened AddressSpaces
  import opened PageTables
  import opened VirtualMemory
  import opened Wrappers

  /** Page x of d is a page of its own with the content and the flags of page x of the
      parent (as the parent was in s0). */
  ghost predicate CopyOf(s0: Vm, s: Vm, parent: int, d: int, x: int) {
    var e, c := Entry(s0, parent, x), Entry(s, d, x);
    && Present(e) && Present(c) && FlagsOf(c) == FlagsOf(e)
    && FrameOf(c) in s.owner && s.owner[FrameOf(c)] == User(d, x)
    && FrameOf(e) in s0.mem && FrameOf(c) in s.mem && s.mem[FrameOf(c)] == s0.mem[FrameOf(e)]
  }

  /** The first i pages have been copied to the new address space d, which has the kernel's
      mappings beside them; nothing that existed before, the parent included, has changed. */
  ghost predicate CopyRun(s0: Vm, s: Vm, parent: int, d: int, i: int, data: int) {
    && Space(s, d) && d !in s0.owner && Kept(s0, s, d)
    && (forall x :: 0 <= x < i ==> CopyOf(s0, s, parent, d, x))
    && (forall x :: i <= x < UPAGES ==> !Present(Entry(s, d, x)))
    && (forall x :: UPAGES <= x < VPAGES ==> Entry(s, d, x) == KernelPte(KmapTable(data), 4, x))
  }

  lemma CopyStart(s0: Vm, s: Vm, parent: int, d: int, data: int)
    requires GoodKmap(KmapTable(data)) && SetupRun(s0, s, d, KmapTable(data), |KmapTable(data)|)
    ensures CopyRun(s0, s, parent, d, 0, data)
  {
    hide Entry;
    hide KmapTable;
    forall x | 0 <= x < UPAGES
      ensures !Present(Entry(s, d, x))
    {
      KernelPteBelow(KmapTable(data), |KmapTable(data)|, x);
    }
    assert |KmapTable(data)| == 4 by {
      FourRanges(data);
    }
  }

  lemma FourRanges(data: int)
    ensures |KmapTable(data)| == 4
  {
  }

  /** The parent, seen in the middle of the copy. */
  lemma ParentIntact(s0: Vm, s: Vm, parent: int, d: int, i: int, data: int)
    requires Space(s0, parent) && CopyRun(s0, s, parent, d, i, data) && 0 <= i < UPAGES
    ensures Space(s, parent) && Space(s, d) && Inv(s) && d != parent && Entry(s, parent, i) == Entry(s0, parent, i)
  {
    OthersUnchanged(s0, s, d, parent, i);
  }

  /** The page to be copied. */
  lemma ParentPage(s0: Vm, s: Vm, parent: int, d: int, i: int, u: int, data: int)
    requires Space(s0, parent) && CopyRun(s0, s, parent, d, i, data) && 0 <= i < UPAGES
    requires Present(Entry(s0, parent, i)) && u == FrameOf(Entry(s0, parent, i))
    ensures u in s0.mem && u in s.mem && s.mem[u] == s0.mem[u] && |s.mem[u]| == ENTRIES
  {
    assert TableOwns(s0, parent, i);
    assert Owned(s0, u);
    assert !Belongs(s0, u, d) && u != 0;
    assert SamePage(s0, s, u);
  }

  lemma FlagsInRange(e: int)
    requires Present(e)
    ensures 0 <= FlagsOf(e) < PGSIZE && MakePte(0, FlagsOf(e)) == FlagsOf(e) && FlagsOf(e) % 2 == 1
  {
    assert e == FrameOf(e) * PGSIZE + FlagsOf(e);
    Parity(2048 * FrameOf(e), FlagsOf(e));
  }

  lemma PageCopied(s0: Vm, s: Vm, parent: int, d: int, i: int, data: int, e: int, p: Page, f: int, s1: Vm, s2: Vm)
    requires Inv(s0) && CopyRun(s0, s, parent, d, i, data) && 0 <= i < UPAGES
    requires e == Entry(s0, parent, i) && Present(e) && FrameOf(e) in s0.mem && p == s0.mem[FrameOf(e)]
    requires s.free != [] && f == s.free[0] && |p| == ENTRIES && s1 == Filled(s, p)
    requires MapRun(s1, s2, d, i, 1, f, FlagsOf(e), true)
    ensures Kept(s, s2, d) && UsersKept(s, s2) && CopyOf(s0, s2, parent, d, i)
    ensures forall x :: 0 <= x < VPAGES && x != i ==> Entry(s2, d, x) == Entry(s, d, x)
  {
    FilledKeeps(s, d, f, p, s1);
    FlagsInRange(e);
    PteFields(f, FlagsOf(e));
    assert Entry(s2, d, i) == MakePte(f, FlagsOf(e));
    FreshKept(s, d, f, s1, s2, i);
  }

  /** kalloc, memmove, mappages on one page: one page more is copied. */
  lemma CopyStep(s0: Vm, s: Vm, parent: int, d: int, i: int, data: int, e: int, p: Page, f: int, s1: Vm, s2: Vm)
    requires Inv(s0) && CopyRun(s0, s, parent, d, i, data) && 0 <= i < UPAGES
    requires e == Entry(s0, parent, i) && Present(e) && FrameOf(e) in s0.mem && p == s0.mem[FrameOf(e)]
    requires s.free != [] && f == s.free[0] && |p| == ENTRIES && s1 == Filled(s, p)
    requires MapRun(s1, s2, d, i, 1, f, FlagsOf(e), true)
    ensures CopyRun(s0, s2, parent, d, i + 1, data)
  {
    hide CopyOf;
    hide Entry;
    PageCopied(s0, s, parent, d, i, data, e, p, f, s1, s2);
    KeptTransitive(s0, s, s2, d, 0);
    forall x | 0 <= x < i + 1
      ensures CopyOf(s0, s2, parent, d, x)
    {
      if x < i {
        CopyKept(s0, s, s2, parent, d, x);
      }
    }
  }

  lemma CopyKept(s0: Vm, s: Vm, s2: Vm, parent: int, d: int, x: int)
    requires CopyOf(s0, s, parent, d, x) && UsersKept(s, s2) && Entry(s2, d, x) == Entry(s, d, x)
    ensures CopyOf(s0, s2, parent, d, x)
  {
    assert SamePage(s, s2, FrameOf(Entry(s, d, x)));
  }

  /** The mapping failed; the page is freed and the new address space can be. */
  lemma CopyStopped(s0: Vm, s: Vm, parent: int, d: int, i: int, f: int, s1: Vm, s2: Vm, data: int)
    requires Inv(s0) && CopyRun(s0, s, parent, d, i, data) && Stuck(s, s1, d, f) && s2 == Give(s1, f)
    ensures Space(s2, d) && Kept(s0, s2, d) && d !in s0.owner
  {
    StuckFreed(s, s1, d, f, s2);
    KeptTransitive(s0, s, s2, d, 0);
  }

  lemma CopyRunParts(s0: Vm, s: Vm, parent: int, d: int, i: int, data: int)
    requires CopyRun(s0, s, parent, d, i, data)
    ensures Space(s, d) && Inv(s) && Kept(s0, s, d) && d !in s0.owner
    ensures 0 <= i < UPAGES ==> !Present(Entry(s, d, i))
  {
  }

  // ---- What a copy costs ---------------------------------------------------------------------

  /** A kernel half, the first n pages and their page tables. */
  function CopyCost(n: int): int {
    KERNEL_PAGES + n + TablesEnd(0, n)
  }

  /** That much has been taken, and the page tables for the first n pages are there. */
  ghost predicate CopyPaid(s0: Vm, s: Vm, d: int, n: int) {
    && |s.free| == |s0.free| - CopyCost(n)
    && forall i :: 0 <= i < 512 ==> (Present(Pde(s, d, i)) <==> i < TablesEnd(0, n))
  }

  lemma CopyPaidStart(s0: Vm, s: Vm, d: int, q: int)
    requires TablesMade(s0, s, d, q, 4)
    ensures CopyPaid(s0, s, d, 0) && CopyCost(0) == KERNEL_PAGES
  {
  }

  lemma NextCost(n: int)
    requires 0 <= n
    ensures CopyCost(n + 1) == CopyCost(n) + if n / ENTRIES < TablesEnd(0, n) then 1 else 2
    ensures n / ENTRIES == TablesEnd(0, n) || n / ENTRIES + 1 == TablesEnd(0, n)
    ensures TablesEnd(0, n + 1) == n / ENTRIES + 1
  {
  }

  lemma PageCost(s0: Vm, s: Vm, d: int, i: int)
    requires CopyPaid(s0, s, d, i) && 0 <= i < UPAGES
    ensures |s.free| < Cost(s, d, i, 1) <==> |s0.free| < CopyCost(i + 1)
  {
    OnePageCost(s, d, i);
    NextCost(i);
  }

  lemma CopyPaidNext(s0: Vm, s: Vm, s': Vm, d: int, i: int)
    requires CopyPaid(s0, s, d, i) && 0 <= i < UPAGES && Paid(s, s', d, 1, i / ENTRIES, i / ENTRIES + 1)
    ensures CopyPaid(s0, s', d, i + 1)
  {
    OnePageCost(s, d, i);
    NextCost(i);
  }

  lemma CopyCostMonotone(n: int, m: int)
    requires 0 <= n <= m
    ensures KERNEL_PAGES <= CopyCost(n) <= CopyCost(m)
  {
    TablesEndMonotone(0, n, m);
  }

  /** The first page from i on, below n, that is not mapped; n if there is none. */
  function FirstAbsent(s: Vm, d: int, i: int, n: int): (p: int)
    ensures i <= n ==> i <= p <= n
    decreases n - i
  {
    if i >= n || !Present(Entry(s, d, i)) then i else FirstAbsent(s, d, i + 1, n)
  }

  lemma FirstAbsentAt(s: Vm, d: int, i: int, n: int)
    requires i <= n
    ensures i <= FirstAbsent(s, d, i, n) <= n
    ensures i < n && Present(Entry(s, d, i)) ==> FirstAbsent(s, d, i, n) == FirstAbsent(s, d, i + 1, n) >= i + 1
    ensures i == n || !Present(Entry(s, d, i)) ==> FirstAbsent(s, d, i, n) == i
  {
  }

  datatype CopyResult = Copied(d: int) | OutOfMemory | Panic

  /** copyuvm. Whatever the memory situation, the parent and everything else stay as they
      are. It runs out of memory if the pages up to the first absent one cannot be paid for;
      otherwise it panics if there is an absent page below sz, as after an mmap that has not been
      touched, and makes the copy if there is none. */
  method CopyUvm(m: Memory, parent: int, sz: int, data: int) returns (r: CopyResult)
    requires Space(m.State(), parent) && 0 <= sz
    requires sz > KERNBASE ==> FirstAbsent(m.State(), parent, 0, UPAGES) < UPAGES
    requires data % PGSIZE == 0 && KERNLINK < data < KERNBASE + PHYSTOP
    modifies m
    ensures r.Copied? ==> CopyRun(old(m.State()), m.State(), parent, r.d, RoundUp(sz), data)
    ensures r.OutOfMemory? ==> Restored(old(m.State()), m.State())
    ensures var p := FirstAbsent(old(m.State()), parent, 0, RoundUp(sz));
      && (r.OutOfMemory? <==> |old(m.State()).free| < CopyCost(p))
      && (r.Panic? <==> |old(m.State()).free| >= CopyCost(p) && p < RoundUp(sz))
  {
    hide *;
    ghost var s0 := m.State();
    SpaceInv(s0, parent);
    SizeInPages(sz);
    EndOrAbsent(s0, parent, sz);
    KmapIsGood(data);
    var q := SetupKvm(m, data);
    var i, end := 0, RoundUp(sz);
    ghost var p := FirstAbsent(s0, parent, 0, end);
    CopyCostMonotone(0, p);
    if q.None? {
      return OutOfMemory;
    }
    var d := q.value;
    CopyStart(s0, m.State(), parent, d, data);
    CopyPaidStart(s0, m.State(), d, PageOf(data));
    while i < end
      invariant 0 <= i <= end && CopyRun(s0, m.State(), parent, d, i, data)
      invariant CopyPaid(s0, m.State(), d, i) && p == FirstAbsent(s0, parent, i, end)
    {
      ghost var s := m.State();
      FirstAbsentAt(s0, parent, i, end);
      ParentIntact(s0, s, parent, d, i, data);
      PaidEnough(s0, s, d, i);
      var ok := m.Walk(parent, i, false);
      if !ok {
        NoTableNoEntry(s, parent, i);
        return Panic;
      }
      var pte := m.ReadPte(parent, i);
      if !Present(pte) {
        return Panic;
      }
      ParentPage(s0, s, parent, d, i, FrameOf(pte), data);
      var content := m.Content(FrameOf(pte));
      PageCost(s0, s, d, i);
      ok := CopyPage(m, parent, d, i, pte, content, s0, data);
      if !ok {
        CopyCostMonotone(i + 1, p);
        ghost var s2 := m.State();
        FreeVm(m, d);
        FreedNewSpace(s0, s2, d, m.State());
        return OutOfMemory;
      }
      CopyPaidNext(s0, s, m.State(), d, i);
      i := i + 1;
    }
    FirstAbsentAt(s0, parent, i, end);
    PaidEnough(s0, m.State(), d, i);
    return Copied(d);
  }

  lemma PaidEnough(s0: Vm, s: Vm, d: int, n: int)
    requires CopyPaid(s0, s, d, n)
    ensures |s0.free| >= CopyCost(n)
  {
  }

  lemma SizeInPages(sz: int)
    requires 0 <= sz
    ensures 0 <= RoundUp(sz) && (RoundUp(sz) <= UPAGES <==> sz <= KERNBASE)
    ensures UPAGES <= VPAGES && ENTRIES > 0
  {
  }

  /** The copy stays below the kernel: it ends there, or comes to an absent page before. */
  lemma EndOrAbsent(s: Vm, d: int, sz: int)
    requires 0 <= sz && (sz > KERNBASE ==> FirstAbsent(s, d, 0, UPAGES) < UPAGES)
    ensures RoundUp(sz) <= UPAGES || FirstAbsent(s, d, 0, RoundUp(sz)) < UPAGES
  {
    SizeInPages(sz);
    if sz > KERNBASE {
      FirstAbsentLonger(s, d, 0, UPAGES, RoundUp(sz));
    }
  }

  lemma {:induction false} FirstAbsentLonger(s: Vm, d: int, i: int, n: int, m: int)
    requires i <= n <= m && FirstAbsent(s, d, i, n) < n
    ensures FirstAbsent(s, d, i, m) == FirstAbsent(s, d, i, n)
    decreases n - i
  {
    if i < n && Present(Entry(s, d, i)) {
      FirstAbsentLonger(s, d, i + 1, n, m);
    }
  }

  /** kalloc, memmove and mappages for one page; false is `goto bad`. */
  method CopyPage(m: Memory, parent: int, d: int, i: int, pte: int, p: Page, ghost s0: Vm, ghost data: int)
    returns (ok: bool)
    requires Space(s0, parent) && CopyRun(s0, m.State(), parent, d, i, data) && 0 <= i < UPAGES
    requires pte == Entry(s0, parent, i) && Present(pte) && FrameOf(pte) in s0.mem && p == s0.mem[FrameOf(pte)]
    requires |p| == ENTRIES
    modifies m
    ensures ok <==> |old(m.State()).free| >= Cost(old(m.State()), d, i, 1)
    ensures ok ==> CopyRun(s0, m.State(), parent, d, i + 1, data)
    ensures ok ==> Paid(old(m.State()), m.State(), d, 1, i / ENTRIES, i / ENTRIES + 1)
    ensures !ok ==> Space(m.State(), d) && Kept(s0, m.State(), d) && d !in s0.owner
  {
    hide *;
    ghost var s := m.State();
    SpaceInv(s0, parent);
    CopyRunParts(s0, s, parent, d, i, data);
    OnePageCost(s, d, i);
    var q := m.Kalloc();
    if q.None? {
      return false;
    }
    var f := q.value;
    TakenIs(s, d, m.State());
    m.Fill(f, p);
    ghost var s1 := m.State();
    FilledState(s, p, s1);
    FlagsInRange(pte);
    UserPage(i);
    FilledMayMap(s, d, f, p, s1, i, FlagsOf(pte));
    FilledKeeps(s, d, f, p, s1);
    FilledPaid(s, d, p, s1, i / ENTRIES);
    SameEntryAt(s, s1, d, i);
    PageAddress(i);
    PageAddress(f);
    var res;
    ghost var n;
    res, n := m.MapPages(d, i * PGSIZE, PGSIZE, f * PGSIZE, FlagsOf(pte), true);
    OnePageTable(s, s1, m.State(), d, i);
    if res == Done {
      CopyStep(s0, s, parent, d, i, data, pte, p, f, s1, m.State());
      return true;
    }
    ghost var s2 := m.State();
    NotMapped(s, d, f, p, s1, i, FlagsOf(pte), s2);
    StuckHeld(s, s2, d, f);
    m.Kfree(f);
    CopyStopped(s0, s, parent, d, i, f, s2, m.State(), data);
    return false;
  }

  lemma UserPage(i: int)
    requires 0 <= i < UPAGES
    ensures i < VPAGES
  {
  }

  lemma NoTableNoEntry(s: Vm, d: int, v: int)
    requires !HasTable(s, d, v)
    ensures !Present(Entry(s, d, v))
  {
  }

  /** A copy of a fully present address space is independent of the original: no frame is
      shared. */
  lemma CopiesShareNothing(s0: Vm, s: Vm, parent: int, d: int, n: int, data: int, x: int, y: int)
    requires Space(s0, parent) && CopyRun(s0, s, parent, d, n, data) && 0 <= x < n <= UPAGES && 0 <= y < UPAGES
    requires Present(Entry(s, parent, y))
    ensures FrameOf(Entry(s, d, x)) != FrameOf(Entry(s, parent, y))
  {
    OthersUnchanged(s0, s, d, parent, y);
    assert CopyOf(s0, s, parent, d, x);
    assert TableOwns(s, parent, y);
  }
}
