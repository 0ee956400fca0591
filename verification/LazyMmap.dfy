/** The repository's own system calls: mmap, which only raises the process size and leaves
    the pages to the page fault handler, numvp and numpp, which count virtual and physical
    pages, and growproc beside them (proc.c, sysproc.c). */
module LazyMmap {
  import opened AddressSpaces
  import C = CopySpace
  import opened PageTables
  import opened VirtualMemory

  const UINT_LIMIT: int := 0x1_0000_0000

  /** The accounting invariant: every mapped user page lies below the process size, rounded up
      to a page, and the kernel is mapped from KERNBASE on. */
  ghost predicate Accounted(s: Vm, d: int, sz: int) {
    && Space(s, d) && 0 <= sz < UINT_LIMIT && Present(Entry(s, d, UPAGES))
    && forall x :: 0 <= x < UPAGES && Present(Entry(s, d, x)) ==> x < RoundUp(sz)
  }

  /** A new address space is accounted for, with size 0, */
  lemma SetupAccounts(s0: Vm, s: Vm, d: int, data: int)
    requires data % PGSIZE == 0 && KERNLINK < data < KERNBASE + PHYSTOP
    requires SetupRun(s0, s, d, KmapTable(data), 4)
    ensures Accounted(s, d, 0)
  {
    hide Inv;
    KmapIsGood(data);
    KernelHalf(data, UPAGES);
    hide KmapTable;
    hide Entry;
    forall x | 0 <= x < UPAGES
      ensures !Present(Entry(s, d, x))
    {
      KernelPteBelow(KmapTable(data), 4, x);
    }
  }

  /** and so is a copy, with the size of its parent. */
  lemma CopyAccounts(s0: Vm, s: Vm, parent: int, d: int, sz: int, data: int)
    requires data % PGSIZE == 0 && KERNLINK < data < KERNBASE + PHYSTOP && 0 <= sz <= KERNBASE
    requires C.CopyRun(s0, s, parent, d, RoundUp(sz), data)
    ensures Accounted(s, d, sz)
  {
    hide Inv;
    KernelHalf(data, UPAGES);
    hide KmapTable;
    hide Entry;
  }

  /** The number of mapped pages among the first n. */
  ghost function Count(s: Vm, d: int, n: int): (c: nat)
    ensures 0 <= n ==> c <= n
  {
    if n <= 0 then 0 else Count(s, d, n - 1) + if Present(Entry(s, d, n - 1)) then 1 else 0
  }

  lemma {:induction false} CountNone(s: Vm, d: int, lo: nat, n: nat)
    requires lo <= n && forall x :: lo <= x < n ==> !Present(Entry(s, d, x))
    ensures Count(s, d, n) == Count(s, d, lo)
  {
    if lo < n {
      CountNone(s, d, lo, n - 1);
    }
  }

  lemma {:induction false} CountSame(s: Vm, s': Vm, d: int, n: nat)
    requires forall x :: 0 <= x < n ==> Present(Entry(s', d, x)) == Present(Entry(s, d, x))
    ensures Count(s', d, n) == Count(s, d, n)
  {
    if n != 0 {
      CountSame(s, s', d, n - 1);
    }
  }

  /** One more page mapped, at v, is one more page counted. */
  lemma {:induction false} CountOneMore(s: Vm, s': Vm, d: int, v: nat, n: nat)
    requires v < n && !Present(Entry(s, d, v)) && Present(Entry(s', d, v))
    requires forall x :: 0 <= x < n && x != v ==> Present(Entry(s', d, x)) == Present(Entry(s, d, x))
    ensures Count(s', d, n) == Count(s, d, n) + 1
  {
    if n - 1 == v {
      CountSame(s, s', d, v);
    } else {
      CountOneMore(s, s', d, v, n - 1);
    }
  }

  lemma {:induction false} CountMonotone(s: Vm, d: int, lo: nat, n: nat)
    requires lo <= n
    ensures Count(s, d, lo) <= Count(s, d, n)
  {
    if lo < n {
      CountMonotone(s, d, lo, n - 1);
    }
  }

  lemma RoundUpRange(sz: int)
    requires 0 <= sz < UINT_LIMIT
    ensures 0 <= RoundUp(sz) <= VPAGES
    ensures RoundUp(sz) <= UPAGES <==> sz <= KERNBASE
  {
  }

  /** numpp counts exactly the mapped user pages if and only if the process ends at the kernel
      or below it: beyond, the kernel's pages are counted too. */
  lemma PhysicalIsPresent(s: Vm, d: int, sz: int)
    requires Accounted(s, d, sz)
    ensures 0 <= RoundUp(sz) <= VPAGES
    ensures Count(s, d, RoundUp(sz)) == Count(s, d, UPAGES) <==> sz <= KERNBASE
    ensures Count(s, d, UPAGES) <= Count(s, d, RoundUp(sz)) <= RoundUp(sz)
  {
    RoundUpRange(sz);
    if sz <= KERNBASE {
      CountNone(s, d, RoundUp(sz), UPAGES);
    } else {
      assert Count(s, d, UPAGES + 1) == Count(s, d, UPAGES) + 1;
      CountMonotone(s, d, UPAGES + 1, RoundUp(sz));
    }
  }

  /** mmap of whole pages adds that many to numvp, and leaves numpp right if and only if the
      process still ends at the kernel or below it, which mmap itself does not check. */
  lemma MmapAccounts(s: Vm, d: int, sz: int, size: int)
    requires Accounted(s, d, sz) && 0 <= size && size % PGSIZE == 0 && sz + size < UINT_LIMIT
    ensures Accounted(s, d, sz + size)
    ensures 0 <= RoundUp(sz) && RoundUp(sz + size) == RoundUp(sz) + size / PGSIZE
    ensures Count(s, d, RoundUp(sz + size)) == Count(s, d, UPAGES) <==> sz + size <= KERNBASE
    ensures sz + size <= KERNBASE ==> Count(s, d, RoundUp(sz + size)) == Count(s, d, RoundUp(sz))
  {
    hide Inv;
    hide Entry;
    RoundUpRange(sz);
    RoundUpAdd(sz, size);
    PhysicalIsPresent(s, d, sz);
    PhysicalIsPresent(s, d, sz + size);
  }

  /** An address space fresh from setupkvm has no user page. Raised to one page past KERNBASE, as
      two calls of mmap do, numpp counts one. */
  lemma MmapMiscounts(s0: Vm, s: Vm, d: int, data: int)
    requires data % PGSIZE == 0 && KERNLINK < data < KERNBASE + PHYSTOP
    requires SetupRun(s0, s, d, KmapTable(data), 4)
    ensures Count(s, d, UPAGES) == 0
    ensures RoundUp(KERNBASE + PGSIZE) == UPAGES + 1 && Count(s, d, RoundUp(KERNBASE + PGSIZE)) == 1
  {
    SetupAccounts(s0, s, d, data);
    hide Inv;
    hide Entry;
    hide SetupRun;
    CountNone(s, d, 0, UPAGES);
    assert Count(s, d, UPAGES + 1) == Count(s, d, UPAGES) + 1;
  }

  lemma RoundUpAdd(sz: int, size: int)
    requires size % PGSIZE == 0
    ensures RoundUp(sz + size) == RoundUp(sz) + size / PGSIZE
  {
    Split(size / PGSIZE + (sz + PGSIZE - 1) / PGSIZE, (sz + PGSIZE - 1) % PGSIZE);
  }

  /** A handled fault adds one to numpp and nothing to numvp. The accounting survives exactly
      when the fault was below the process size, which the handler does not check. */
  lemma FaultAccounts(s: Vm, s': Vm, d: int, sz: int, v: int)
    requires Accounted(s, d, sz) && Grown(s, s', d, v, v + 1) && 0 <= v < UPAGES
    ensures Accounted(s', d, sz) <==> v < RoundUp(sz)
    ensures 0 <= RoundUp(sz)
    ensures v < RoundUp(sz) ==> Count(s', d, RoundUp(sz)) == Count(s, d, RoundUp(sz)) + 1
  {
    hide Inv;
    RoundUpRange(sz);
    assert FreshPage(s', d, v);
    if v < RoundUp(sz) {
      CountOneMore(s, s', d, v, RoundUp(sz));
    }
  }

  lemma NothingAccounts(s: Vm, s': Vm, d: int, sz: int)
    requires Accounted(s, d, sz) && Grown(s, s', d, 0, 0)
    ensures Accounted(s', d, sz) && 0 <= RoundUp(sz) && Count(s', d, RoundUp(sz)) == Count(s, d, RoundUp(sz))
  {
    hide Inv;
    RoundUpRange(sz);
    CountSame(s, s', d, RoundUp(sz));
  }

  /** A fault in the kernel's half changes nothing below it. */
  lemma AstrayAccounts(s: Vm, s': Vm, d: int, sz: int, v: int, f: int)
    requires Accounted(s, d, sz) && Astray(s, s', d, v, f) && UPAGES < v < VPAGES
    ensures Accounted(s', d, sz) && 0 <= RoundUp(sz)
    ensures sz <= KERNBASE ==> Count(s', d, RoundUp(sz)) == Count(s, d, RoundUp(sz))
  {
    hide Inv;
    RoundUpRange(sz);
    if sz <= KERNBASE {
      CountSame(s, s', d, RoundUp(sz));
    }
  }

  lemma GrowAccounts(s: Vm, s': Vm, d: int, sz: int, newsz: int)
    requires Accounted(s, d, sz) && sz <= newsz < KERNBASE && Grown(s, s', d, RoundUp(sz), RoundUp(newsz))
    ensures Accounted(s', d, newsz)
    ensures 0 <= RoundUp(sz) <= RoundUp(newsz)
    ensures Count(s', d, RoundUp(newsz)) == Count(s, d, RoundUp(sz)) + RoundUp(newsz) - RoundUp(sz)
  {
    hide Inv;
    RoundUpLe(sz, newsz);
    CountSame(s, s', d, RoundUp(sz));
    CountAll(s', d, RoundUp(sz), RoundUp(newsz));
  }

  lemma {:induction false} CountAll(s: Vm, d: int, lo: nat, n: nat)
    requires lo <= n && forall x :: lo <= x < n ==> FreshPage(s, d, x)
    ensures Count(s, d, n) == Count(s, d, lo) + n - lo
  {
    if lo < n {
      assert FreshPage(s, d, n - 1);
      CountAll(s, d, lo, n - 1);
    }
  }

  lemma UndoAccounts(s: Vm, s': Vm, d: int, sz: int, newsz: int)
    requires Accounted(s, d, sz) && sz <= newsz < KERNBASE && Undone(s, s', d, RoundUp(sz), RoundUp(newsz))
    ensures Accounted(s', d, sz) && 0 <= RoundUp(sz) && Count(s', d, RoundUp(sz)) == Count(s, d, RoundUp(sz))
  {
    hide Inv;
    RoundUpLe(sz, newsz);
    CountSame(s, s', d, RoundUp(sz));
  }

  lemma ShrinkAccounts(s: Vm, s': Vm, d: int, sz: int, newsz: int)
    requires Accounted(s, d, sz) && 0 <= newsz < sz <= KERNBASE && Cleared(s, s', d, RoundUp(newsz), RoundUp(sz))
    ensures Accounted(s', d, newsz) && Accounted(s', d, sz)
    ensures 0 <= RoundUp(newsz) && Count(s', d, RoundUp(newsz)) == Count(s, d, RoundUp(newsz))
  {
    RoundUpOrder(newsz, sz);
    CountSame(s, s', d, RoundUp(newsz));
    assert !Present(0);
  }

  /** With the accounting in place nothing is mapped where growproc will map. */
  lemma RoomToGrow(s: Vm, d: int, sz: int, newsz: int)
    requires Accounted(s, d, sz) && sz <= newsz < KERNBASE
    ensures forall x :: RoundUp(sz) <= x < RoundUp(newsz) ==> !Present(Entry(s, d, x))
  {
    RoundUpLe(sz, newsz);
  }

  /** The loop variable of numpp after n turns: an unsigned int that goes up by PGSIZE. */
  function Counter(n: nat): int {
    n * PGSIZE % UINT_LIMIT
  }

  /** On a process that reaches into the last page of the address space, and only there, numpp
      never gets to its end. */
  lemma NumPpLoops(sz: int)
    requires 0 <= sz < UINT_LIMIT
    ensures (forall n: nat :: Counter(n) < sz) <==> sz > UINT_LIMIT - PGSIZE
  {
    if sz > UINT_LIMIT - PGSIZE {
      forall n: nat
        ensures Counter(n) < sz
      {
        LastCounter(n);
      }
    } else {
      assert Counter(VPAGES - 1) == UINT_LIMIT - PGSIZE;
    }
  }

  lemma {:induction false} LastCounter(n: nat)
    ensures Counter(n) == n % VPAGES * PGSIZE <= UINT_LIMIT - PGSIZE
  {
    if n > 0 {
      LastCounter(n - 1);
      WrapAdd((n - 1) * PGSIZE);
    }
  }

  lemma WrapAdd(x: int)
    ensures (x + PGSIZE) % UINT_LIMIT
            == var y := x % UINT_LIMIT + PGSIZE; if y < UINT_LIMIT then y else y - UINT_LIMIT
  {
  }

  class Process {
    const m: Memory
    const pgdir: int
    /** p->sz */
    var sz: int

    constructor (m: Memory, pgdir: int, sz: int)
      requires Accounted(m.State(), pgdir, sz)
      ensures this.m == m && this.pgdir == pgdir && this.sz == sz && Valid()
    {
      this.m, this.pgdir, this.sz := m, pgdir, sz;
    }

    ghost predicate Valid()
      reads this, m
    {
      Accounted(m.State(), pgdir, sz)
    }

    /** numpp is what it is meant to be: the number of mapped user pages. */
    ghost predicate Accurate()
      reads this, m
    {
      Count(m.State(), pgdir, RoundUp(sz)) == Count(m.State(), pgdir, UPAGES)
    }

    /** sys_mmap and mmap; 0 is the refusal of a negative or unaligned size. Nothing else is
        refused: the size may pass the kernel's base, after which numpp is wrong, and 2^32. */
    method Mmap(size: int) returns (addr: int)
      requires Valid() && size < KERNBASE
      modifies this`sz
      ensures size < 0 || size % PGSIZE != 0 ==> addr == 0 && sz == old(sz)
      ensures size >= 0 && size % PGSIZE == 0 ==> addr == old(sz) && sz == (old(sz) + size) % UINT_LIMIT
      ensures old(sz) + size < UINT_LIMIT ==> Valid() && (Accurate() <==> sz <= KERNBASE)
    {
      hide Space;
      hide Entry;
      hide Count;
      hide RoundUp;
      PhysicalIsPresent(m.State(), pgdir, sz);
      if size < 0 || size % PGSIZE != 0 {
        return 0;
      }
      addr := sz;
      if sz + size < UINT_LIMIT {
        MmapAccounts(m.State(), pgdir, sz, size);
      }
      sz := (sz + size) % UINT_LIMIT;
    }

    /** The T_PGFLT case of trap, on any address. It panics on a page that is mapped already, as
        after an access that the page's flags do not allow. */
    method Fault(v: int) returns (r: int, panicked: bool)
      requires Valid() && 0 <= v < VPAGES
      modifies m
      ensures panicked <==> Present(Entry(old(m.State()), pgdir, v)) && old(m.State()).free != []
      ensures !panicked ==> r == if |old(m.State()).free| >= Cost(old(m.State()), pgdir, v, 1) then 1 else 0
      ensures !panicked && r == 1 && v < UPAGES ==> Grown(old(m.State()), m.State(), pgdir, v, v + 1)
      ensures !panicked && r == 0 ==> Grown(old(m.State()), m.State(), pgdir, 0, 0)
      ensures !panicked ==> (Valid() <==> r == 0 || v < RoundUp(sz) || v >= UPAGES)
      ensures !panicked && sz <= KERNBASE && Valid() ==>
        && 0 <= RoundUp(sz)
        && Count(m.State(), pgdir, RoundUp(sz))
           == old(Count(m.State(), pgdir, RoundUp(sz))) + (if v < RoundUp(sz) then r else 0)
    {
      hide Grown;
      hide Astray;
      hide Cost;
      ghost var s := m.State();
      RoundUpRange(sz);
      ghost var f;
      r, panicked, f := PageFault(m, pgdir, v);
      if !panicked && r == 1 {
        if v < UPAGES {
          FaultAccounts(s, m.State(), pgdir, sz, v);
        } else {
          FaultCost(s, pgdir, v);
          assert v != UPAGES;
          AstrayAccounts(s, m.State(), pgdir, sz, v, f);
        }
      } else if !panicked {
        NothingAccounts(s, m.State(), pgdir, sz);
      }
    }

    /** growproc(n) for n > 0. With the accounting in place the panic "remap" cannot happen. It
        succeeds if the new size is below the kernel and the free list has enough pages, and
        otherwise changes nothing that numvp or numpp count. A size that wraps around to less
        than before is reported as success, without growing. */
    method Grow(n: int) returns (r: int)
      requires Valid() && 0 < n < KERNBASE
      modifies this`sz, m
      ensures Valid()
      ensures var s, newsz := old(m.State()), (old(sz) + n) % UINT_LIMIT;
        if newsz >= KERNBASE then r == -1 && sz == old(sz) && m.State() == s
        else if newsz < old(sz) then r == 0 && sz == old(sz) && m.State() == s
        else
          var lo, hi := RoundUp(old(sz)), RoundUp(newsz);
          if |s.free| >= Cost(s, pgdir, lo, hi - lo)
          then && r == 0 && sz == newsz && Grown(s, m.State(), pgdir, lo, hi)
               && Count(m.State(), pgdir, hi) == Count(s, pgdir, lo) + hi - lo
          else && r == -1 && sz == old(sz) && Undone(s, m.State(), pgdir, lo, hi)
               && Count(m.State(), pgdir, lo) == Count(s, pgdir, lo)
    {
      hide Grown;
      hide Undone;
      hide Cost;
      ghost var s := m.State();
      var newsz := (sz + n) % UINT_LIMIT;
      var size, panicked := AllocUvm(m, pgdir, sz, newsz);
      if sz <= newsz < KERNBASE {
        RoomToGrow(s, pgdir, sz, newsz);
        assert !panicked;
        if size == 0 {
          UndoAccounts(s, m.State(), pgdir, sz, newsz);
        } else {
          GrowAccounts(s, m.State(), pgdir, sz, newsz);
        }
      }
      if size == 0 {
        return -1;
      }
      sz := size;
      return 0;
    }

    /** growproc(n) for n < 0, on a process that ends at the kernel or below it. Shrinking by more
        than the size changes nothing; shrinking to 0 frees every page and then reports failure
        with the size unchanged. */
    method Shrink(n: int) returns (r: int)
      requires Valid() && -KERNBASE <= n < 0 && sz <= KERNBASE
      modifies this`sz, m
      ensures Valid()
      ensures r == if old(sz) + n == 0 || old(sz) == 0 then -1 else 0
      ensures sz == if old(sz) + n <= 0 then old(sz) else old(sz) + n
      ensures old(sz) + n < 0 ==> m.State() == old(m.State())
      ensures old(sz) + n >= 0 ==> Cleared(old(m.State()), m.State(), pgdir, RoundUp(old(sz) + n), RoundUp(old(sz)))
    {
      ghost var s := m.State();
      var newsz := (sz + n) % UINT_LIMIT;
      if sz + n >= 0 {
        assert newsz == sz + n;
      }
      var size := m.DeallocUvm(pgdir, sz, newsz);
      if sz + n >= 0 {
        ShrinkAccounts(s, m.State(), pgdir, sz, newsz);
      }
      if size == 0 {
        return -1;
      }
      sz := size;
      return 0;
    }

    /** numvp */
    method NumVp() returns (n: int)
      requires Valid()
      ensures n == RoundUp(sz)
    {
      if sz % PGSIZE == 0 {
        n := sz / PGSIZE;
      } else {
        n := sz / PGSIZE + 1;
      }
    }

    /** numpp: the loop over the pages below sz, through proc.c's own walkpgdir. It counts
        every mapped user page, no more than numvp, and other pages if and only if the process
        reaches into the kernel's half. */
    method NumPp() returns (n: int)
      requires Valid() && sz <= UINT_LIMIT - PGSIZE
      ensures n == Count(m.State(), pgdir, RoundUp(sz)) <= RoundUp(sz)
      ensures Count(m.State(), pgdir, UPAGES) <= n
      ensures n == Count(m.State(), pgdir, UPAGES) <==> sz <= KERNBASE
    {
      ghost var s := m.State();
      PhysicalIsPresent(s, pgdir, sz);
      n := 0;
      var i := 0;
      while i * PGSIZE < sz
        invariant 0 <= i <= RoundUp(sz) && n == Count(s, pgdir, i)
        decreases RoundUp(sz) - i
      {
        var there := Mapped(i);
        if there {
          n := n + 1;
        }
        i := i + 1;
      }
    }

    /** proc.c's walkpgdir: non-zero when page v is mapped. */
    method Mapped(v: int) returns (there: bool)
      requires Space(m.State(), pgdir) && 0 <= v < VPAGES
      ensures there == Present(Entry(m.State(), pgdir, v))
    {
      var pde := m.EntryOf(pgdir, v / ENTRIES);
      if !Present(pde) {
        return false;
      }
      var pte := m.ReadPte(pgdir, v);
      there := Present(pte);
    }
  }
}
