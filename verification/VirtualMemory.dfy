/** vm.c and kalloc.c as operations on one physical memory. */
module VirtualMemory {
  import opened PageTables
  import opened Wrappers

  // ---- What an operation on address space d leaves alone -----------------------------

  /** f is the directory, a page table or a user page of address space d. */
  ghost predicate Belongs(s: Vm, f: int, d: int) {
    f in s.owner && (f == d || (s.owner[f].Table? && s.owner[f].d == d) || (s.owner[f].User? && s.owner[f].d == d))
  }

  ghost predicate SamePage(s: Vm, s': Vm, f: int) {
    f in s.mem && f in s'.mem && s'.mem[f] == s.mem[f]
  }

  /** The pages that are neither free nor part of d, nor h, are the same pages in the same
      roles with the same content: nothing leaked and nothing else was touched. */
  ghost predicate KeptBut(s: Vm, s': Vm, d: int, h: int) {
    && s'.mem.Keys == s.mem.Keys
    && (forall f :: f in s.owner && f != h && !Belongs(s, f, d) ==>
          f in s'.owner && s'.owner[f] == s.owner[f] && SamePage(s, s', f))
    && (forall f :: f in s'.owner && f != h && !Belongs(s', f, d) ==> f in s.owner && !Belongs(s, f, d))
  }

  /** Page 0 belongs to nobody: no exception. */
  ghost predicate Kept(s: Vm, s': Vm, d: int) {
    KeptBut(s, s', d, 0)
  }

  lemma KeptTransitive(s: Vm, s1: Vm, s2: Vm, d: int, h: int)
    requires s.mem.Keys == s1.mem.Keys == s2.mem.Keys
    requires forall f :: f in s.owner ==> f in s.mem
    requires KeptBut(s, s1, d, h) && KeptBut(s1, s2, d, h)
    ensures KeptBut(s, s2, d, h)
  {
  }

  /** A valid state with address space d in it. */
  ghost predicate Space(s: Vm, d: int) {
    Inv(s) && IsDir(s, d)
  }

  /** Entries of d from page lo on, n of them, map consecutive frames; the others are kept. */
  ghost predicate Mapped(s: Vm, s': Vm, d: int, lo: int, n: int, frame: int, perm: int) {
    forall x :: 0 <= x < VPAGES ==>
      Entry(s', d, x) == if lo <= x < lo + n then MakePte(frame + x - lo, perm) else Entry(s, d, x)
  }

  ghost predicate SameEntries(s: Vm, s': Vm, d: int) {
    forall x :: 0 <= x < VPAGES ==> Entry(s', d, x) == Entry(s, d, x)
  }

  /** Other address spaces do not see an operation on d. */
  lemma OthersUnchanged(s: Vm, s': Vm, d: int, e: int, x: int)
    requires Inv(s) && Kept(s, s', d) && (d in s.owner ==> IsDir(s, d))
    requires IsDir(s, e) && e != d && 0 <= x < VPAGES
    ensures IsDir(s', e) && Entry(s', e, x) == Entry(s, e, x)
  {
    assert SamePage(s, s', e);
    assert DirOwns(s, e, x / ENTRIES);
    if HasTable(s, e, x) {
      var t := FrameOf(Pde(s, e, x / ENTRIES));
      assert t in s.owner && !Belongs(s, t, d);
      assert SamePage(s, s', t);
    }
  }

  /** No user page was lost, changed hands or changed content. */
  ghost predicate UsersKept(s: Vm, s': Vm) {
    forall f :: f in s.owner && s.owner[f].User? ==>
      f in s'.owner && s'.owner[f] == s.owner[f] && SamePage(s, s', f)
  }

  // ---- walkpgdir -------------------------------------------------------------------------

  /** A new, zeroed page table hung in for page v. */
  ghost function Linked(s: Vm, d: int, v: int): Vm
    requires s.free != [] && d in s.mem && 0 <= v / ENTRIES < |s.mem[d]|
  {
    var f := s.free[0];
    var s1 := Write(Take(s), f, ZeroPage());
    if d in s1.mem && v / ENTRIES < |s1.mem[d]| then Link(s1, d, v / ENTRIES, f) else s1
  }

  lemma LinkedKeeps(s: Vm, d: int, v: int, s': Vm, h: int)
    requires Space(s, d) && 0 <= v < VPAGES && !HasTable(s, d, v) && s.free != []
    requires d in s.mem && 0 <= v / ENTRIES < |s.mem[d]| && s' == Linked(s, d, v)
    ensures Space(s', d) && HasTable(s', d, v) && SameEntries(s, s', d) && KeptBut(s, s', d, h)
    ensures forall f :: f in s.owner ==> f in s'.owner && s'.owner[f] == s.owner[f]
    ensures UsersKept(s, s')
  {
    var f := s.free[0];
    var s1 := Take(s);
    var s2 := Write(s1, f, ZeroPage());
    TakeKeeps(s);
    WriteKeeps(s1, f, ZeroPage());
    assert Pde(s2, d, v / ENTRIES) == Pde(s, d, v / ENTRIES);
    LinkKeeps(s2, d, v / ENTRIES, f);
    LinkPde(s2, d, v / ENTRIES, f, s');
    PteFields(f, PTE_W + PTE_U);
    UnusedPage(s1, s2, f);
    forall x | 0 <= x < VPAGES
      ensures Entry(s', d, x) == Entry(s, d, x)
    {
      assert Entry(s2, d, x) == Entry(s1, d, x) == Entry(s, d, x);
    }
  }

  // ---- What an operation takes from the free list ------------------------------------------

  /** How many of the page tables from i up to j are absent. */
  ghost function Missing(s: Vm, d: int, i: int, j: int): nat
    decreases j - i
  {
    if i >= j then 0 else Missing(s, d, i, j - 1) + if Present(Pde(s, d, j - 1)) then 0 else 1
  }

  /** The index after that of the last page table for n pages from page first on. */
  function TablesEnd(first: int, n: int): int {
    if n <= 0 then first / ENTRIES else (first + n - 1) / ENTRIES + 1
  }

  /** What n new pages from page first on cost: themselves and the page tables they lack. */
  ghost function Cost(s: Vm, d: int, first: int, n: int): int {
    n + Missing(s, d, first / ENTRIES, TablesEnd(first, n))
  }

  /** From s0 to s, n pages and the absent page tables from i up to j were taken. */
  ghost predicate Paid(s0: Vm, s: Vm, d: int, n: int, i: int, j: int) {
    && |s.free| == |s0.free| - n - Missing(s0, d, i, j)
    && forall k :: Present(Pde(s, d, k)) <==> Present(Pde(s0, d, k)) || i <= k < j
  }

  /** One page table more, or one that was there already. */
  lemma PaidTable(s0: Vm, s: Vm, s': Vm, d: int, n: int, m: int, i: int, j: int, k: int)
    requires Paid(s0, s, d, n, i, j) && Paid(s, s', d, m, k, k + 1) && i <= k && (j == k || j == k + 1)
    ensures Paid(s0, s', d, n + m, i, k + 1)
  {
    assert Missing(s, d, k, k) == 0;
    assert Missing(s, d, k, k + 1) == if Present(Pde(s, d, k)) then 0 else 1;
  }

  lemma {:induction false} MissingMonotone(s: Vm, d: int, i: int, j: int, k: int)
    requires j <= k
    ensures Missing(s, d, i, j) <= Missing(s, d, i, k)
    decreases k - j
  {
    if j < k {
      MissingMonotone(s, d, i, j, k - 1);
    }
  }

  /** Page a needs a page table, and there is no free page: there were too few from the start. */
  lemma TooFew(s0: Vm, s: Vm, d: int, n: int, i: int, j: int, k: int, m: int)
    requires Paid(s0, s, d, n, i, j) && i <= k && (j == k || j == k + 1) && !Present(Pde(s, d, k)) && k < m
    requires |s.free| == 0
    ensures |s0.free| < n + Missing(s0, d, i, m)
  {
    MissingMonotone(s0, d, i, k + 1, m);
  }

  lemma TablesEndNext(first: int, n: int)
    requires 0 <= first && 0 <= n
    ensures first / ENTRIES <= (first + n) / ENTRIES
    ensures TablesEnd(first, n) == (first + n) / ENTRIES || TablesEnd(first, n) == (first + n) / ENTRIES + 1
    ensures TablesEnd(first, n + 1) == (first + n) / ENTRIES + 1
  {
  }

  lemma TablesEndMonotone(first: int, n: int, m: int)
    requires 0 <= first && 0 <= n <= m
    ensures TablesEnd(first, n) <= TablesEnd(first, m)
  {
  }

  /** The first page from i on, below n, that is mapped; n if there is none. */
  ghost function FirstMapped(s: Vm, d: int, i: int, n: int): (p: int)
    ensures i <= n ==> i <= p <= n
    ensures i <= p < n ==> Present(Entry(s, d, p))
    decreases n - i
  {
    if i >= n || Present(Entry(s, d, i)) then i else FirstMapped(s, d, i + 1, n)
  }

  /** The pages from i up to k are not mapped. */
  lemma {:induction false} FirstMappedAfter(s: Vm, d: int, i: int, k: int, n: int)
    requires i <= k <= n && forall x :: i <= x < k ==> !Present(Entry(s, d, x))
    ensures FirstMapped(s, d, i, n) == FirstMapped(s, d, k, n) >= k
    ensures k < n && Present(Entry(s, d, k)) ==> FirstMapped(s, d, i, n) == k
    ensures k < n && !Present(Entry(s, d, k)) ==> FirstMapped(s, d, i, n) > k
    decreases k - i
  {
    if i < k {
      FirstMappedAfter(s, d, i + 1, k, n);
    }
  }

  /** What mappages does when the free list is too short for the page tables up to the first page
      that is mapped already, when it is not and there is such a page, and otherwise. */
  ghost function MapOutcome(s: Vm, d: int, first: int, count: int): MapResult {
    var p := FirstMapped(s, d, first, first + count);
    if |s.free| < Missing(s, d, first / ENTRIES, TablesEnd(first, p - first)) then NoMemory
    else if p < first + count then Remap
    else Done
  }

  // ---- mappages ----------------------------------------------------------------------------

  /** mappages has got through the first n pages. On a user page the frame is the
      kernel's until it is mapped, and then the address space's. */
  ghost predicate MapRun(s0: Vm, s: Vm, d: int, first: int, n: int, frame: int, perm: int, user: bool) {
    && Space(s, d) && Mapped(s0, s, d, first, n, frame, perm)
    && KeptBut(s0, s, d, if user then frame else 0)
    && UsersKept(s0, s)
    && (user ==> SamePage(s0, s, frame) && frame in s.owner
                 && s.owner[frame] == if n == 0 then Held else User(d, first))
  }

  /** The pages a call to mappages may name: kernel pages, or one user page whose frame
      the kernel holds. */
  ghost predicate MayMap(s: Vm, d: int, first: int, count: int, frame: int, perm: int, user: bool) {
    && Space(s, d) && 0 <= perm < PGSIZE && 0 < count && first + count <= VPAGES
    && (if user then count == 1 && 0 <= first < UPAGES && frame in s.owner && s.owner[frame] == Held
        else UPAGES <= first)
  }

  lemma MapRunStart(s: Vm, d: int, first: int, count: int, frame: int, perm: int, user: bool)
    requires MayMap(s, d, first, count, frame, perm, user)
    ensures MapRun(s, s, d, first, 0, frame, perm, user)
  {
  }

  lemma MapRunWalk(s0: Vm, s: Vm, s': Vm, d: int, first: int, n: int, frame: int, perm: int, user: bool)
    requires MapRun(s0, s, d, first, n, frame, perm, user) && Inv(s0)
    requires Walked(s, s', d)
    ensures MapRun(s0, s', d, first, n, frame, perm, user)
  {
    KeptTransitive(s0, s, s', d, if user then frame else 0);
  }

  /** walkpgdir changed at most which page tables there are. */
  ghost predicate Walked(s: Vm, s': Vm, d: int) {
    && Space(s, d) && Space(s', d) && SameEntries(s, s', d) && Kept(s, s', d) && UsersKept(s, s')
    && forall f :: f in s.owner ==> f in s'.owner && s'.owner[f] == s.owner[f]
  }

  lemma WalkedRefl(s: Vm, d: int)
    requires Space(s, d)
    ensures Walked(s, s, d)
  {
  }

  lemma WalkedLinked(s: Vm, d: int, v: int, s': Vm)
    requires Space(s, d) && 0 <= v < VPAGES && !HasTable(s, d, v) && s.free != []
    requires d in s.mem && 0 <= v / ENTRIES < |s.mem[d]| && s' == Linked(s, d, v)
    ensures Walked(s, s', d) && HasTable(s', d, v)
  {
    LinkedKeeps(s, d, v, s', 0);
  }

  lemma LinkedPaid(s: Vm, d: int, v: int, s': Vm)
    requires Space(s, d) && 0 <= v < VPAGES && !HasTable(s, d, v) && s.free != []
    requires d in s.mem && 0 <= v / ENTRIES < |s.mem[d]| && s' == Linked(s, d, v)
    ensures Paid(s, s', d, 0, v / ENTRIES, v / ENTRIES + 1)
  {
    var f := s.free[0];
    TakeKeeps(s);
    PteFields(f, PTE_W + PTE_U);
    var s1 := Write(Take(s), f, ZeroPage());
    assert forall k :: Pde(s1, d, k) == Pde(s, d, k);
    assert Missing(s, d, v / ENTRIES, v / ENTRIES) == 0;
    assert forall k :: Pde(s', d, k) == if k == v / ENTRIES then MakePte(f, PTE_W + PTE_U) else Pde(s, d, k);
  }

  lemma TablePaid(s: Vm, d: int, v: int)
    requires HasTable(s, d, v)
    ensures Paid(s, s, d, 0, v / ENTRIES, v / ENTRIES + 1)
  {
    assert Missing(s, d, v / ENTRIES, v / ENTRIES) == 0;
  }

  /** Where a page table entry is stored. */
  lemma TableInMemory(s: Vm, d: int, v: int)
    requires Space(s, d) && 0 <= v < VPAGES && HasTable(s, d, v)
    ensures var t := FrameOf(Pde(s, d, v / ENTRIES));
      t in s.mem && v % ENTRIES < |s.mem[t]| && Entry(s, d, v) == s.mem[t][v % ENTRIES]
  {
    assert DirOwns(s, d, v / ENTRIES);
  }

  lemma KernelStore(s: Vm, d: int, v: int, frame: int, perm: int, s': Vm)
    requires Space(s, d) && UPAGES <= v < VPAGES && HasTable(s, d, v)
    requires FrameOf(Pde(s, d, v / ENTRIES)) in s.mem && s' == Store(s, d, v, MakePte(frame, perm))
    ensures Space(s', d) && Kept(s, s', d) && UsersKept(s, s')
    ensures Mapped(s, s', d, v, 1, frame, perm)
  {
    StoreEntry(s, d, v, MakePte(frame, perm), s');
    MapKernelKeeps(s, d, v, MakePte(frame, perm));
    assert DirOwns(s, d, v / ENTRIES);
  }

  lemma UserStore(s: Vm, d: int, v: int, f: int, perm: int, s': Vm)
    requires Space(s, d) && 0 <= v < UPAGES && HasTable(s, d, v) && !Present(Entry(s, d, v))
    requires FrameOf(Pde(s, d, v / ENTRIES)) in s.mem && 0 <= perm < PGSIZE
    requires f in s.owner && s.owner[f] == Held && s' == MapUser(s, d, v, f, perm)
    ensures Space(s', d) && KeptBut(s, s', d, f) && s'.owner == s.owner[f := User(d, v)]
    ensures UsersKept(s, s') && SamePage(s, s', f)
    ensures Mapped(s, s', d, v, 1, f, perm)
  {
    StoreEntry(s, d, v, MakePte(f, perm), Store(s, d, v, MakePte(f, perm)));
    MapUserKeeps(s, d, v, f, perm);
    assert DirOwns(s, d, v / ENTRIES);
  }

  lemma MappedMore(s0: Vm, s: Vm, s': Vm, d: int, first: int, n: int, frame: int, perm: int)
    requires Mapped(s0, s, d, first, n, frame, perm) && Mapped(s, s', d, first + n, 1, frame + n, perm) && n >= 0
    ensures Mapped(s0, s', d, first, n + 1, frame, perm)
  {
  }

  lemma KernelMapped(s0: Vm, s: Vm, d: int, first: int, n: int, frame: int, perm: int, s': Vm)
    requires Inv(s0) && MapRun(s0, s, d, first, n, frame, perm, false)
    requires UPAGES <= first + n < VPAGES && n >= 0 && HasTable(s, d, first + n)
    requires FrameOf(Pde(s, d, (first + n) / ENTRIES)) in s.mem
    requires s' == Store(s, d, first + n, MakePte(frame + n, perm))
    ensures MapRun(s0, s', d, first, n + 1, frame, perm, false)
  {
    KernelStore(s, d, first + n, frame + n, perm, s');
    KernelMappedJoin(s0, s, d, first, n, frame, perm, s');
  }

  lemma KernelMappedJoin(s0: Vm, s: Vm, d: int, first: int, n: int, frame: int, perm: int, s': Vm)
    requires Inv(s0) && MapRun(s0, s, d, first, n, frame, perm, false) && n >= 0
    requires Space(s', d) && Kept(s, s', d) && UsersKept(s, s')
    requires Mapped(s, s', d, first + n, 1, frame + n, perm)
    ensures MapRun(s0, s', d, first, n + 1, frame, perm, false)
  {
    KeptTransitive(s0, s, s', d, 0);
    MappedMore(s0, s, s', d, first, n, frame, perm);
  }

  lemma UserMapped(s0: Vm, s: Vm, d: int, v: int, f: int, perm: int, s': Vm)
    requires Inv(s0) && MapRun(s0, s, d, v, 0, f, perm, true)
    requires 0 <= v < UPAGES && HasTable(s, d, v) && !Present(Entry(s, d, v)) && 0 <= perm < PGSIZE
    requires FrameOf(Pde(s, d, v / ENTRIES)) in s.mem && s' == MapUser(s, d, v, f, perm)
    ensures MapRun(s0, s', d, v, 1, f, perm, true)
  {
    UserStore(s, d, v, f, perm, s');
    KeptTransitive(s0, s, s', d, f);
    MappedMore(s0, s, s', d, v, 0, f, perm);
  }

  // ---- deallocuvm --------------------------------------------------------------------------

  /** The pages of d from lo up to hi are unmapped and their frames freed. All other pages are
      as before; d's page tables differ only in the entries that are now 0. */
  ghost predicate Cleared(s: Vm, s': Vm, d: int, lo: int, hi: int) {
    && Space(s', d) && Kept(s, s', d)
    && (forall x :: 0 <= x < VPAGES ==>
          Entry(s', d, x) == if lo <= x < hi && Present(Entry(s, d, x)) then 0 else Entry(s, d, x))
    && (forall f :: f in s'.owner <==> f in s.owner && !UserBetween(s.owner[f], d, lo, hi))
    && (forall f :: f in s'.owner ==> s'.owner[f] == s.owner[f])
    && (forall i :: Pde(s', d, i) == Pde(s, d, i))
    && (forall f :: f in s'.owner && !(s'.owner[f].Table? && s'.owner[f].d == d) ==> SamePage(s, s', f))
  }

  predicate UserBetween(r: Role, d: int, lo: int, hi: int) {
    r.User? && r.d == d && lo <= r.v < hi
  }

  lemma ClearedStart(s: Vm, d: int, lo: int)
    requires Space(s, d)
    ensures Cleared(s, s, d, lo, lo)
  {
  }

  /** Nothing is mapped at v: the scan moves on. */
  lemma ClearedSkip(s0: Vm, s: Vm, d: int, lo: int, v: int)
    requires Inv(s0) && Cleared(s0, s, d, lo, v) && lo <= v < UPAGES && !Present(Entry(s, d, v))
    ensures Cleared(s0, s, d, lo, v + 1)
  {
    assert Entry(s, d, v) == Entry(s0, d, v);
    forall f | f in s0.owner
      ensures s0.owner[f] != User(d, v)
    {
      assert Owned(s0, f);
    }
  }

  /** The jump over an absent page table is the page-by-page scan of its 1024 pages. */
  lemma {:induction false} ClearedJump(s0: Vm, s: Vm, d: int, lo: int, v: int, n: nat, i: int)
    requires Inv(s0) && Cleared(s0, s, d, lo, v) && 0 <= lo <= v && v + n <= UPAGES
    requires !Present(Pde(s, d, i)) && i * ENTRIES <= v && v + n <= i * ENTRIES + ENTRIES
    ensures Cleared(s0, s, d, lo, v + n)
    decreases n
  {
    if n != 0 {
      assert v / ENTRIES == i;
      ClearedSkip(s0, s, d, lo, v);
      ClearedJump(s0, s, d, lo, v + 1, n - 1, i);
    }
  }

  lemma UnmapStep(s: Vm, d: int, v: int, s1: Vm, s2: Vm)
    requires Space(s, d) && 0 <= v < UPAGES && HasTable(s, d, v) && Present(Entry(s, d, v))
    requires FrameOf(Pde(s, d, v / ENTRIES)) in s.mem && s1 == Unmap(s, d, v)
    requires FrameOf(Entry(s, d, v)) in s1.owner && s2 == Give(s1, FrameOf(Entry(s, d, v)))
    ensures Space(s2, d) && Kept(s, s2, d) && s2.owner == s.owner - {FrameOf(Entry(s, d, v))}
    ensures FrameOf(Entry(s, d, v)) in s.owner && s.owner[FrameOf(Entry(s, d, v))] == User(d, v)
    ensures forall x :: 0 <= x < VPAGES ==> Entry(s2, d, x) == if x == v then 0 else Entry(s, d, x)
    ensures forall i :: Pde(s2, d, i) == Pde(s, d, i)
    ensures OnlyTables(s, s2, d)
  {
    var f := FrameOf(Entry(s, d, v));
    UnmapKeeps(s, d, v);
    StoreEntry(s, d, v, 0, Store(s, d, v, 0));
    assert TableOwns(s, d, v) && DirOwns(s, d, v / ENTRIES);
    GiveKeeps(s1, f);
    UnusedPage(s1, s2, f);
  }

  /** Pages that are still in use and are not page tables of d have the same content. */
  ghost predicate OnlyTables(s: Vm, s': Vm, d: int) {
    forall f :: f in s'.owner && !(s'.owner[f].Table? && s'.owner[f].d == d) ==> SamePage(s, s', f)
  }

  lemma ClearedStep(s0: Vm, s: Vm, d: int, lo: int, v: int, s': Vm, f: int)
    requires Inv(s0) && Cleared(s0, s, d, lo, v) && lo <= v < UPAGES
    requires Space(s', d) && Kept(s, s', d) && f in s.owner && s'.owner == s.owner - {f} && s.owner[f] == User(d, v)
    requires Present(Entry(s, d, v))
    requires forall x :: 0 <= x < VPAGES ==> Entry(s', d, x) == if x == v then 0 else Entry(s, d, x)
    requires (forall i :: Pde(s', d, i) == Pde(s, d, i)) && OnlyTables(s, s', d)
    ensures Cleared(s0, s', d, lo, v + 1)
  {
    KeptTransitive(s0, s, s', d, 0);
    forall g | g in s0.owner && s0.owner[g] == User(d, v)
      ensures g == f
    {
      OneFrame(s0, d, v, f, g);
    }
    hide Inv;
    hide KeptBut;
  }

  lemma OneFrame(s: Vm, d: int, v: int, f: int, g: int)
    requires Inv(s) && f in s.owner && g in s.owner && s.owner[f] == s.owner[g] == User(d, v)
    ensures g == f
  {
    assert Owned(s, g) && Owned(s, f);
  }

  /** Memory in which every page is free. */
  lemma FreshMemory(mem: map<int, Page>, free: seq<int>, first: int, last: int)
    requires 0 < first <= last && forall f :: f in mem <==> first <= f < last
    requires forall f :: f in mem ==> mem[f] == seq(ENTRIES, _ => JUNK)
    requires |free| == last - first && forall k :: 0 <= k < |free| ==> free[k] == last - 1 - k
    ensures Inv(Vm(mem, free, map[]))
  {
    var s := Vm(mem, free, map[]);
    assert Partition(s) by {
      assert forall f :: f in mem ==> free[last - 1 - f] == f;
    }
  }

  datatype MapResult = Done | NoMemory | Remap

  class Memory {
    /** The content of every page kalloc manages. */
    var mem: map<int, Page>
    /** kmem.freelist, head first. */
    var free: seq<int>
    ghost var owner: map<int, Role>

    ghost function State(): Vm
      reads this
    {
      Vm(mem, free, owner)
    }

    /** kinit1 and kinit2: freerange hands the pages from first to last to kfree. */
    constructor (first: int, last: int)
      requires 0 < first <= last
      ensures Inv(State()) && owner == map[]
      ensures forall f :: f in mem <==> first <= f < last
      ensures |free| == last - first && forall k :: 0 <= k < |free| ==> free[k] == last - 1 - k
    {
      var pages: map<int, Page>, list := map[], [];
      var p := first;
      while p + 1 <= last
        invariant first <= p <= last
        invariant forall f :: f in pages <==> first <= f < p
        invariant forall f :: f in pages ==> pages[f] == seq(ENTRIES, _ => JUNK)
        invariant |list| == p - first && forall k :: 0 <= k < |list| ==> list[k] == p - 1 - k
      {
        pages := pages[p := seq(ENTRIES, _ => JUNK)];
        list := [p] + list;
        p := p + 1;
      }
      FreshMemory(pages, list, first, last);
      mem, free, owner := pages, list, map[];
      hide Inv;
    }

    method Kalloc() returns (r: Option<int>)
      requires Inv(State())
      modifies this
      ensures r.None? <==> old(State()).free == []
      ensures r.None? ==> State() == old(State())
      ensures r.Some? ==> r.value == old(State()).free[0] && State() == Take(old(State()))
      ensures r.Some? ==> [r.value] + free == old(free) && r.value !in old(owner) && mem == old(mem)
      ensures r.Some? ==> owner == old(owner)[r.value := Held]
      ensures Inv(State())
    {
      if |free| == 0 {
        return None;
      }
      TakeKeeps(State());
      var f := free[0];
      owner := owner[f := Held];
      free := seq(|free| - 1, k requires 0 <= k < |free| - 1 reads this => free[k + 1]);
      return Some(f);
    }

    /** kfree. Its panics do not happen: a page that kalloc gave out is aligned and lies
        between end and PHYSTOP. */
    method Kfree(f: int)
      requires Inv(State()) && f in State().owner && State().owner[f] == Held
      modifies this
      ensures Inv(State()) && State() == Give(old(State()), f)
      ensures free == [f] + old(free) && owner == old(owner) - {f} && mem.Keys == old(mem).Keys
      ensures forall g :: g in mem && g != f ==> mem[g] == old(mem)[g]
    {
      GiveKeeps(State(), f);
      mem := mem[f := seq(ENTRIES, _ => JUNK)];
      owner := owner - {f};
      free := [f] + free;
    }

    /** memset or memmove on a page that kalloc gave out. */
    method Fill(f: int, p: Page)
      requires Inv(State()) && f in State().owner && State().owner[f] == Held && |p| == ENTRIES
      modifies this
      ensures Inv(State()) && State() == Write(old(State()), f, p)
    {
      WriteKeeps(State(), f, p);
      mem := mem[f := p];
    }

    /** walkpgdir; false is its return value 0. */
    method Walk(d: int, v: int, alloc: bool) returns (ok: bool)
      requires Space(State(), d) && 0 <= v < VPAGES
      modifies this
      ensures Walked(old(State()), State(), d)
      ensures ok <==> HasTable(State(), d, v)
      ensures ok <==> HasTable(old(State()), d, v) || (alloc && old(free) != [])
      ensures !ok || HasTable(old(State()), d, v) ==> State() == old(State())
      ensures !ok && alloc ==> State().free == []
      ensures ok && alloc ==> Paid(old(State()), State(), d, 0, v / ENTRIES, v / ENTRIES + 1)
    {
      WalkedRefl(State(), d);
      if mem[d][v / ENTRIES] % 2 == 1 {
        TablePaid(State(), d, v);
        return true;
      }
      if !alloc || |free| == 0 {
        return false;
      }
      ghost var s := State();
      WalkedLinked(s, d, v, Linked(s, d, v));
      LinkedPaid(s, d, v, Linked(s, d, v));
      var r := Kalloc();
      var f := r.value;
      Fill(f, ZeroPage());
      mem := mem[d := mem[d][v / ENTRIES := MakePte(f, PTE_W + PTE_U)]];
      owner := owner[f := Table(d, v / ENTRIES)];
      return true;
    }

    /** `*pte`, through the page table walkpgdir found. */
    method ReadPte(d: int, v: int) returns (w: int)
      requires Space(State(), d) && 0 <= v < VPAGES && HasTable(State(), d, v)
      ensures w == Entry(State(), d, v)
    {
      TableInMemory(State(), d, v);
      w := mem[mem[d][v / ENTRIES] / PGSIZE][v % ENTRIES];
    }

    /** `*pte = w` */
    method WritePte(d: int, v: int, w: int)
      requires Space(State(), d) && 0 <= v < VPAGES && HasTable(State(), d, v)
      modifies this`mem
      ensures FrameOf(Pde(old(State()), d, v / ENTRIES)) in old(State()).mem
      ensures 0 <= v % ENTRIES < |old(State()).mem[FrameOf(Pde(old(State()), d, v / ENTRIES))]|
      ensures State() == Store(old(State()), d, v, w)
    {
      TableInMemory(State(), d, v);
      var t := mem[d][v / ENTRIES] / PGSIZE;
      mem := mem[t := mem[t][v % ENTRIES := w]];
    }

    ghost method Assign(f: int, r: Role)
      modifies this`owner
      ensures State() == Reassign(old(State()), f, r)
    {
      owner := owner[f := r];
    }

    ghost method RetireDir(d: int)
      modifies this`owner
      ensures State() == Retire(old(State()), d)
    {
      owner := Retire(State(), d).owner;
    }

    /** The content of a page. */
    method Content(f: int) returns (p: Page)
      requires f in State().mem
      ensures p == State().mem[f]
    {
      p := mem[f];
    }

    /** pgdir[i] */
    method EntryOf(d: int, i: int) returns (w: int)
      requires d in State().mem && 0 <= i < |State().mem[d]|
      ensures w == State().mem[d][i]
    {
      w := mem[d][i];
    }

    /** mappages, on page numbers: a and last are the page-aligned addresses of the loop
        divided by PGSIZE. n is the number of pages mapped; the loop stops early when a
        page table cannot be allocated and panics on a page that is mapped already. */
    method MapPages(d: int, va: int, size: int, pa: int, perm: int, ghost user: bool)
      returns (r: MapResult, ghost n: int)
      requires 0 <= va && 0 < size && pa % PGSIZE == 0
      requires MayMap(State(), d, PageOf(va), Pages(va, size), PageOf(pa), perm, user)
      modifies this
      ensures MapRun(old(State()), State(), d, PageOf(va), n, PageOf(pa), perm, user)
      ensures 0 <= n <= Pages(va, size) && (r == Done <==> n == Pages(va, size))
      ensures forall x :: PageOf(va) <= x < PageOf(va) + n ==> !Present(Entry(old(State()), d, x))
      ensures r == Remap ==> Present(Entry(old(State()), d, PageOf(va) + n))
      ensures r == MapOutcome(old(State()), d, PageOf(va), Pages(va, size))
      ensures var i, j := PageOf(va) / ENTRIES, TablesEnd(PageOf(va), Pages(va, size));
        && (r == NoMemory ==> |old(State()).free| < Missing(old(State()), d, i, j))
        && (r == Done ==> Paid(old(State()), State(), d, 0, i, j))
    {
      hide *;
      var a, last := PageOf(va), PageOf(va + size - 1);
      var frame := PageOf(pa);
      ghost var s0, first, count := State(), a, Pages(va, size);
      PageRange(va, size);
      MayMapParts(s0, d, first, count, frame, perm, user);
      MapRunStart(s0, d, first, count, frame, perm, user);
      n := 0;
      NoTablesYet(s0, d, first);
      while true
        invariant 0 <= n < count && a == first + n && frame == PageOf(pa) + n
        invariant Paid(s0, State(), d, 0, first / ENTRIES, TablesEnd(first, n))
        invariant MapRun(s0, State(), d, first, n, PageOf(pa), perm, user)
        invariant forall x :: first <= x < first + n ==> !Present(Entry(s0, d, x))
        decreases count - n
      {
        ghost var s := State();
        var res := MapOne(d, a, frame, perm, user, s0, first, n);
        if res == NoMemory {
          NoTableLeft(s0, State(), d, first, n, count);
          StopsShort(s0, State(), d, first, n, count);
        }
        if res != Done {
          StopsAtMapped(s0, s, d, first, n, count);
          return res, n;
        }
        n := n + 1;
        if a == last {
          MapsAll(s0, State(), d, first, count);
          return Done, n;
        }
        a := a + 1;
        frame := frame + 1;
      }
    }

    /** One turn of the loop of mappages, after n of them. */
    method MapOne(d: int, a: int, frame: int, perm: int, ghost user: bool, ghost s0: Vm, ghost first: int, ghost n: int)
      returns (r: MapResult)
      requires Inv(s0) && 0 <= first && 0 <= n && a == first + n < VPAGES && 0 <= perm < PGSIZE
      requires if user then n == 0 && a < UPAGES else UPAGES <= first
      requires MapRun(s0, State(), d, first, n, frame - n, perm, user)
      requires Paid(s0, State(), d, 0, first / ENTRIES, TablesEnd(first, n))
      modifies this
      ensures r == Done ==> MapRun(s0, State(), d, first, n + 1, frame - n, perm, user)
      ensures r == Done ==> Paid(s0, State(), d, 0, first / ENTRIES, TablesEnd(first, n + 1))
      ensures r != Done ==> MapRun(s0, State(), d, first, n, frame - n, perm, user)
      ensures r == NoMemory ==> State().free == [] && !HasTable(State(), d, a)
      ensures r == NoMemory ==> Paid(s0, State(), d, 0, first / ENTRIES, TablesEnd(first, n))
      ensures r == Remap <==> Present(Entry(s0, d, a))
    {
      hide *;
      ghost var s := State();
      MapRunParts(s0, s, d, first, n, frame - n, perm, user, a);
      var ok := Walk(d, a, true);
      MapRunWalk(s0, s, State(), d, first, n, frame - n, perm, user);
      if !ok {
        AbsentEntry(s, d, a);
        return NoMemory;
      }
      PaidNext(s0, s, State(), d, first, n);
      s := State();
      MapRunParts(s0, s, d, first, n, frame - n, perm, user, a);
      var pte := ReadPte(d, a);
      if Present(pte) {
        return Remap;
      }
      WritePte(d, a, MakePte(frame, perm));
      ghost var s1 := State();
      EntryPaid(s0, s, d, first, n + 1, a, MakePte(frame, perm), s1);
      if user {
        Assign(frame, User(d, a));
        PaidAssigned(s0, s1, d, first, n + 1, frame, User(d, a));
        MapUserIs(s, d, a, frame, perm, State());
        UserMapped(s0, s, d, a, frame, perm, State());
      } else {
        KernelMapped(s0, s, d, first, n, frame - n, perm, State());
      }
      return Done;
    }

    /** deallocuvm, on page numbers. Pages from newsz (rounded up) to oldsz that are
        mapped are unmapped and freed; nothing else changes. */
    method DeallocUvm(d: int, oldsz: int, newsz: int) returns (r: int)
      requires Space(State(), d) && 0 <= newsz && oldsz <= UPAGES * PGSIZE
      modifies this
      ensures r == if newsz >= oldsz then oldsz else newsz
      ensures newsz >= oldsz ==> State() == old(State())
      ensures newsz < oldsz ==> Cleared(old(State()), State(), d, RoundUp(newsz), RoundUp(oldsz))
    {
      hide *;
      if newsz >= oldsz {
        return oldsz;
      }
      ghost var s0 := State();
      var a, end := RoundUp(newsz), RoundUp(oldsz);
      RoundUpOrder(newsz, oldsz);
      SpaceInv(s0, d);
      ClearedStart(s0, d, a);
      ghost var lo := a;
      while a < end
        invariant 0 <= lo <= a <= end
        invariant Cleared(s0, State(), d, lo, a)
        decreases end - a
      {
        ghost var s := State();
        ClearedSpace(s0, s, d, lo, a);
        var ok := Walk(d, a, false);
        if !ok {
          var to := NextTable(a);
          if to > end {
            to := end;
          }
          NextTableIs(s, d, a);
          ClearedJump(s0, s, d, lo, a, to - a, a / ENTRIES);
          a := to;
        } else {
          var pte := ReadPte(d, a);
          if Present(pte) {
            // kfree(v) and *pte = 0 touch different pages, so their order does not matter
            WritePte(d, a, 0);
            Assign(FrameOf(pte), Held);
            ghost var s1 := State();
            UnmapIs(s, d, a, s1);
            Kfree(FrameOf(pte));
            UnmapStep(s, d, a, s1, State());
            ClearedStep(s0, s, d, lo, a, State(), FrameOf(pte));
          } else {
            ClearedSkip(s0, s, d, lo, a);
          }
          a := a + 1;
        }
      }
      return newsz;
    }
  }

  /** PGROUNDUP(sz) / PGSIZE */
  function RoundUp(sz: int): int {
    (sz + PGSIZE - 1) / PGSIZE
  }

  lemma RoundUpOrder(newsz: int, oldsz: int)
    requires 0 <= newsz < oldsz <= UPAGES * PGSIZE
    ensures 0 <= RoundUp(newsz) <= RoundUp(oldsz) <= UPAGES <= VPAGES
  {
  }

  /** The first page of the next page table: PGADDR(PDX(a) + 1, 0, 0) / PGSIZE. */
  function NextTable(a: int): (r: int)
    ensures a < r
  {
    (a / ENTRIES + 1) * ENTRIES
  }

  lemma NextTableIs(s: Vm, d: int, a: int)
    ensures NextTable(a) == a / ENTRIES * ENTRIES + ENTRIES && a / ENTRIES * ENTRIES <= a
    ensures HasTable(s, d, a) == Present(Pde(s, d, a / ENTRIES))
  {
  }

  lemma SpaceInv(s: Vm, d: int)
    requires Space(s, d)
    ensures Inv(s)
  {
  }

  lemma ClearedSpace(s0: Vm, s: Vm, d: int, lo: int, a: int)
    requires Cleared(s0, s, d, lo, a)
    ensures Space(s, d)
  {
  }

  lemma UnmapIs(s: Vm, d: int, v: int, s1: Vm)
    requires Space(s, d) && 0 <= v < UPAGES && HasTable(s, d, v) && Present(Entry(s, d, v))
    requires FrameOf(Pde(s, d, v / ENTRIES)) in s.mem && 0 <= v % ENTRIES < |s.mem[FrameOf(Pde(s, d, v / ENTRIES))]|
    requires s1 == Reassign(Store(s, d, v, 0), FrameOf(Entry(s, d, v)), Held)
    ensures s1 == Unmap(s, d, v) && Inv(s1)
    ensures FrameOf(Entry(s, d, v)) in s1.owner && s1.owner[FrameOf(Entry(s, d, v))] == Held
  {
    UnmapKeeps(s, d, v);
  }

  /** The number of the page an address lies in. */
  function PageOf(a: int): int {
    a / PGSIZE
  }

  /** How many pages the range [va, va + size) touches. */
  function Pages(va: int, size: int): int {
    PageOf(va + size - 1) - PageOf(va) + 1
  }

  /** A range of at least one byte touches at least one page, the last one being that of its
      last byte. */
  lemma PageRange(va: int, size: int)
    requires size > 0
    ensures Pages(va, size) >= 1 && PageOf(va) + Pages(va, size) - 1 == PageOf(va + size - 1)
    ensures ENTRIES > 0
  {
  }

  lemma NoTablesYet(s: Vm, d: int, first: int)
    ensures Paid(s, s, d, 0, first / ENTRIES, TablesEnd(first, 0))
  {
  }

  lemma StopsShort(s0: Vm, s: Vm, d: int, first: int, n: int, count: int)
    requires Paid(s0, s, d, 0, first / ENTRIES, TablesEnd(first, n)) && 0 <= first && 0 <= n < count
    requires s.free == [] && !HasTable(s, d, first + n) && !Present(Entry(s0, d, first + n))
    requires forall x :: first <= x < first + n ==> !Present(Entry(s0, d, x))
    ensures MapOutcome(s0, d, first, count) == NoMemory
  {
    FirstMappedAfter(s0, d, first, first + n, first + count);
    NoTableLeft(s0, s, d, first, n, FirstMapped(s0, d, first, first + count) - first);
  }

  lemma StopsAtMapped(s0: Vm, s: Vm, d: int, first: int, n: int, count: int)
    requires Paid(s0, s, d, 0, first / ENTRIES, TablesEnd(first, n)) && 0 <= n < count
    requires forall x :: first <= x < first + n ==> !Present(Entry(s0, d, x))
    ensures Present(Entry(s0, d, first + n)) ==> MapOutcome(s0, d, first, count) == Remap
  {
    FirstMappedAfter(s0, d, first, first + n, first + count);
  }

  lemma MapsAll(s0: Vm, s: Vm, d: int, first: int, count: int)
    requires Paid(s0, s, d, 0, first / ENTRIES, TablesEnd(first, count)) && 0 <= count
    requires forall x :: first <= x < first + count ==> !Present(Entry(s0, d, x))
    ensures MapOutcome(s0, d, first, count) == Done
  {
    FirstMappedAfter(s0, d, first, first + count, first + count);
  }

  lemma NoTableLeft(s0: Vm, s: Vm, d: int, first: int, n: int, count: int)
    requires Paid(s0, s, d, 0, first / ENTRIES, TablesEnd(first, n)) && 0 <= n < count && 0 <= first
    requires !HasTable(s, d, first + n) && s.free == []
    ensures |s0.free| < Missing(s0, d, first / ENTRIES, TablesEnd(first, count))
  {
    TablesEndNext(first, n);
    TablesEndMonotone(first, n + 1, count);
    TooFew(s0, s, d, 0, first / ENTRIES, TablesEnd(first, n), (first + n) / ENTRIES, TablesEnd(first, count));
  }

  lemma PaidNext(s0: Vm, s: Vm, s': Vm, d: int, first: int, n: int)
    requires Paid(s0, s, d, 0, first / ENTRIES, TablesEnd(first, n)) && 0 <= n && 0 <= first
    requires Paid(s, s', d, 0, (first + n) / ENTRIES, (first + n) / ENTRIES + 1)
    ensures Paid(s0, s', d, 0, first / ENTRIES, TablesEnd(first, n + 1))
  {
    TablesEndNext(first, n);
    PaidTable(s0, s, s', d, 0, 0, first / ENTRIES, TablesEnd(first, n), (first + n) / ENTRIES);
  }

  /** Storing an entry changes no directory entry. */
  lemma EntryPaid(s0: Vm, s: Vm, d: int, first: int, n: int, v: int, w: int, s': Vm)
    requires Paid(s0, s, d, 0, first / ENTRIES, TablesEnd(first, n))
    requires Space(s, d) && 0 <= v < VPAGES && HasTable(s, d, v) && FrameOf(Pde(s, d, v / ENTRIES)) in s.mem
    requires 0 <= v % ENTRIES < |s.mem[FrameOf(Pde(s, d, v / ENTRIES))]|
    requires s' == Store(s, d, v, w)
    ensures Paid(s0, s', d, 0, first / ENTRIES, TablesEnd(first, n))
  {
    StoreEntry(s, d, v, w, s');
  }

  lemma PaidAssigned(s0: Vm, s: Vm, d: int, first: int, n: int, f: int, r: Role)
    requires Paid(s0, s, d, 0, first / ENTRIES, TablesEnd(first, n))
    ensures Paid(s0, Reassign(s, f, r), d, 0, first / ENTRIES, TablesEnd(first, n))
  {
    assert forall k :: Pde(Reassign(s, f, r), d, k) == Pde(s, d, k);
  }

  lemma AbsentEntry(s: Vm, d: int, v: int)
    requires !HasTable(s, d, v)
    ensures !Present(Entry(s, d, v))
  {
  }

  lemma MayMapParts(s: Vm, d: int, first: int, count: int, frame: int, perm: int, user: bool)
    requires MayMap(s, d, first, count, frame, perm, user)
    ensures Inv(s) && count > 0 && 0 <= first && first + count <= VPAGES && 0 <= perm < PGSIZE
    ensures user ==> count == 1 && first < UPAGES
    ensures !user ==> UPAGES <= first
  {
  }

  lemma MapRunParts(s0: Vm, s: Vm, d: int, first: int, n: int, frame: int, perm: int, user: bool, a: int)
    requires MapRun(s0, s, d, first, n, frame, perm, user) && 0 <= a < VPAGES
    ensures Space(s, d)
    ensures a == first + n ==> Entry(s, d, a) == Entry(s0, d, a)
  {
  }

  lemma MapUserIs(s: Vm, d: int, v: int, f: int, perm: int, s': Vm)
    requires FrameOf(Pde(s, d, v / ENTRIES)) in s.mem && 0 <= v % ENTRIES < |s.mem[FrameOf(Pde(s, d, v / ENTRIES))]|
    requires s' == Reassign(Store(s, d, v, MakePte(f, perm)), f, User(d, v))
    ensures s' == MapUser(s, d, v, f, perm)
  {
  }
}
