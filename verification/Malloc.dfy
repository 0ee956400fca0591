/** malloc and free of umalloc.c on the heap model. */
module Malloc {
  import opened HeapModel
  import opened Wrappers

  // ---- free ------------------------------------------------------------------------------------

  /** free, with the place k where the block belongs. */
  function Freed(h: Heap, k: int, bp: int): Heap
    requires 0 < k <= |h.ring| && h.ring[k - 1] in h.mem && bp in h.mem && bp in h.alloc
  {
    var h1 := Insert(h, k, bp);
    var h2 := if k + 1 < |h1.ring| && h1.ring[k + 1] in h1.mem && End(h1, k) == h1.ring[k + 1]
              then Merge(h1, k) else h1;
    if k > 1 && h2.ring[k - 1] in h2.mem && h2.ring[k] in h2.mem && End(h2, k - 1) == h2.ring[k]
    then Merge(h2, k - 1) else h2
  }

  /** Every block has its place. */
  lemma {:induction false} FindPlace(h: Heap, bp: int, n: nat) returns (k: int)
    requires Inv(h, {}) && bp in h.alloc && 0 < n <= |h.ring| && (n < |h.ring| ==> bp < h.ring[n])
    ensures MayInsert(h, k, bp)
  {
    assert BlockOk(h, n - 1) && AllocOk(h, bp) && BlockOk(h, 0);
    NotInRing(h, bp, n - 1);
    if h.ring[n - 1] < bp {
      k := n;
    } else {
      k := FindPlace(h, bp, n - 1);
    }
  }

  /** The three parts of free: link the block in, join it with the next, join it with the one
      before. */
  lemma FreedSteps(h: Heap, k: int, bp: int, h': Heap) returns (h1: Heap, h2: Heap)
    requires Inv(h, {}) && MayInsert(h, k, bp) && h' == Freed(h, k, bp)
    ensures h1 == Insert(h, k, bp)
    ensures if MayMerge(h1, k) then h2 == Merge(h1, k) else h2 == h1
    ensures if MayMerge(h2, k - 1) then h' == Merge(h2, k - 1) else h' == h2
  {
    hide Inv;
    h1 := Insert(h, k, bp);
    h2 := if MayMerge(h1, k) then Merge(h1, k) else h1;
  }

  lemma FreedKeeps(h: Heap, k: int, bp: int, h': Heap)
    requires Inv(h, {}) && MayInsert(h, k, bp) && h' == Freed(h, k, bp)
    ensures Inv(h', {})
  {
    hide *;
    var h1, h2 := FreedSteps(h, k, bp, h');
    InsertKeeps(h, k, bp, h1);
    if MayMerge(h1, k) {
      MergeKeeps(h1, k, {k - 1, k}, h2);
      assert {k - 1, k} - {k} == {k - 1};
    } else {
      NoMergeKeeps(h1, k, {k - 1, k}, {k - 1});
    }
    if MayMerge(h2, k - 1) {
      MergeKeeps(h2, k - 1, {k - 1}, h');
      assert {k - 1} - {k - 1} == {};
    } else {
      NoMergeKeeps(h2, k - 1, {k - 1}, {});
    }
  }

  /** Where the search in free stops. */
  predicate Stops(bp: int, p: int, next: int) {
    (bp > p && bp < next) || (p >= next && (bp > p || bp < next))
  }

  lemma StopsAtPlace(h: Heap, k: int, bp: int, i: int)
    requires Inv(h, {}) && MayInsert(h, k, bp) && 0 <= i < |h.ring|
    ensures h.ring[i] in h.mem && 0 <= Succ(h, i) < |h.ring| && h.mem[h.ring[i]].ptr == h.ring[Succ(h, i)]
    ensures Stops(bp, h.ring[i], h.mem[h.ring[i]].ptr) <==> i == k - 1
  {
    assert BlockOk(h, i) && BlockOk(h, 0) && AllocOk(h, bp);
    if i + 1 < k - 1 {
      Distinct(h, i + 1, k - 1, {});
    }
    if k < i {
      Distinct(h, k, i, {});
    }
    if i + 1 < |h.ring| {
      Distinct(h, i, i + 1, {});
    }
    if i > 0 {
      Distinct(h, 0, i, {});
    }
  }

  /** The stores of free, as the code makes them. */
  function FreeStores(mem: map<int, Header>, p: int, bp: int): map<int, Header>
    requires p in mem && bp in mem && (bp + mem[bp].size == mem[p].ptr ==> mem[p].ptr in mem)
  {
    var next, n := mem[p].ptr, mem[bp].size;
    var m1 := if bp + n == next then mem[bp := Header(mem[next].ptr, n + mem[next].size)]
              else mem[bp := Header(next, n)];
    if p + m1[p].size == bp then m1[p := Header(m1[bp].ptr, m1[p].size + m1[bp].size)]
    else m1[p := Header(bp, m1[p].size)]
  }

  lemma FreedMem(h: Heap, k: int, bp: int, p: int, h': Heap)
    requires Inv(h, {}) && MayInsert(h, k, bp) && h' == Freed(h, k, bp) && p == h.ring[k - 1]
    ensures bp + h.mem[bp].size == h.mem[p].ptr ==> h.mem[p].ptr in h.mem
    ensures h'.mem == FreeStores(h.mem, p, bp)
    ensures h'.core == h.core && h'.top == h.top && h'.alloc == map a | a in h.alloc && a != bp :: h.alloc[a]
    ensures 0 <= k - 1 < |h'.ring| && h'.ring[k - 1] == p
  {
    assert BlockOk(h, k - 1) && BlockOk(h, 0) && AllocOk(h, bp) && BlockOk(h, k);
    NotInRing(h, bp, k - 1);
    InsertViews(h, k, bp, Insert(h, k, bp), k, k + 1);
    if k < |h.ring| {
      NotInRing(h, bp, k);
      Distinct(h, k - 1, k, {});
    }
    hide Inv;
  }

  predicate RoomAt(h: Heap, t: int, n: int) {
    0 < t < |h.ring| && h.ring[t] in h.mem && SizeAt(h, t) >= n
  }

  ghost predicate HasRoom(h: Heap, n: int) {
    exists t :: RoomAt(h, t, n)
  }

  /** The freed units are in one free block. */
  lemma FreedBlock(h: Heap, k: int, bp: int, h': Heap)
    requires Inv(h, {}) && MayInsert(h, k, bp) && h' == Freed(h, k, bp)
    ensures HasRoom(h', h.alloc[bp])
  {
    assert BlockOk(h, k - 1) && BlockOk(h, 0) && AllocOk(h, bp) && BlockOk(h, k);
    NotInRing(h, bp, k - 1);
    InsertViews(h, k, bp, Insert(h, k, bp), k, k + 1);
    if k < |h.ring| {
      NotInRing(h, bp, k);
      Distinct(h, k - 1, k, {});
    }
    hide Inv;
    assert RoomAt(h', if k < |h'.ring| && h'.ring[k] == bp then k else k - 1, h.alloc[bp]);
  }

  /** p is the last free block below bp. */
  ghost predicate LastBelow(ring: seq<int>, p: int, bp: int) {
    p in ring && p < bp && forall t :: 0 <= t < |ring| && ring[t] < bp ==> ring[t] <= p
  }

  /** free leaves freep at the block before the one freed, or at the block that took it in. */
  lemma FreedPlace(h: Heap, k: int, bp: int, p: int, h': Heap)
    requires Inv(h, {}) && MayInsert(h, k, bp) && h' == Freed(h, k, bp) && p == h.ring[k - 1]
    ensures LastBelow(h'.ring, p, bp)
  {
    FreedMem(h, k, bp, p, h');
    assert BlockOk(h, k - 1) && BlockOk(h, 0) && AllocOk(h, bp) && BlockOk(h, k);
    forall t | 0 <= t < |h.ring|
      ensures if t < k then h.ring[t] <= p else h.ring[t] > bp
    {
      assert BlockOk(h, t);
      if t < k - 1 {
        Distinct(h, t, k - 1, {});
      } else if t > k {
        Distinct(h, k, t, {});
      }
    }
    hide Inv;
    assert forall t :: 0 <= t < |h'.ring| ==> h'.ring[t] == bp || h'.ring[t] in h.ring;
  }

  // ---- What is handed out is not written -------------------------------------------------------

  ghost predicate Same(m: map<int, Header>, m': map<int, Header>, a: int, n: int) {
    forall u :: Units(a, n, u) && u in m ==> u in m' && m'[u] == m[u]
  }

  /** The memory of every block of h other than bp is as it was. */
  ghost predicate Untouched(h: Heap, m': map<int, Header>, bp: int) {
    forall a :: a in h.alloc && a != bp ==> Same(h.mem, m', a, h.alloc[a])
  }

  lemma NotHandedOut(h: Heap, a: int, i: int, x: int)
    requires Inv(h, {}) && a in h.alloc && 0 <= i < |h.ring| && h.ring[i] in h.mem
    requires x == h.ring[i] || h.ring[i] <= x < End(h, i)
    ensures !Units(a, h.alloc[a], x)
  {
    assert BlockOk(h, i) && AllocOk(h, a) && ApartFree(h, a, i);
  }

  lemma FreeUntouched(h: Heap, k: int, bp: int, p: int)
    requires Inv(h, {}) && MayInsert(h, k, bp) && p == h.ring[k - 1]
    requires bp + h.mem[bp].size == h.mem[p].ptr ==> h.mem[p].ptr in h.mem
    ensures Untouched(h, FreeStores(h.mem, p, bp), bp)
  {
    forall a | a in h.alloc && a != bp
      ensures Same(h.mem, FreeStores(h.mem, p, bp), a, h.alloc[a])
    {
      NotHandedOut(h, a, k - 1, p);
      assert Apart(h, a, bp) && AllocOk(h, bp);
    }
  }

  lemma TakeAllUntouched(h: Heap, j: int)
    requires Inv(h, {}) && 0 < j < |h.ring| && h.ring[j] in h.mem && h.ring[j - 1] in h.mem
    ensures Untouched(h, TakeAll(h, j).mem, BASE)
  {
    forall a | a in h.alloc && a != BASE
      ensures Same(h.mem, TakeAll(h, j).mem, a, h.alloc[a])
    {
      NotHandedOut(h, a, j - 1, h.ring[j - 1]);
    }
  }

  lemma TailUntouched(h: Heap, j: int, n: int)
    requires Inv(h, {}) && MayTakeTail(h, j, n)
    ensures Untouched(h, TakeTail(h, j, n).mem, BASE)
  {
    forall a | a in h.alloc && a != BASE
      ensures Same(h.mem, TakeTail(h, j, n).mem, a, h.alloc[a])
    {
      NotHandedOut(h, a, j, h.ring[j]);
      NotHandedOut(h, a, j, End(h, j) - n);
    }
  }

  // ---- Sizes -----------------------------------------------------------------------------------

  const UINT_LIMIT: int := 0x1_0000_0000
  const HEADER: int := 8

  /** nunits, in 32-bit arithmetic */
  function Nunits(nbytes: int): int {
    (((nbytes + HEADER - 1) % UINT_LIMIT) / HEADER + 1) % UINT_LIMIT
  }

  /** What morecore asks for, and the int that sbrk is given. */
  function CoreUnits(nunits: int): int {
    if nunits < 4096 then 4096 else nunits
  }

  function AsInt(w: int): int {
    if w % UINT_LIMIT < 0x8000_0000 then w % UINT_LIMIT else w % UINT_LIMIT - UINT_LIMIT
  }

  /** The largest request whose size survives: the units hold the bytes, and sbrk is asked for
      the units that morecore will put into the header. */
  const MAXREQUEST: int := 0x7FFF_FFF0

  lemma RequestIff(nbytes: int)
    requires 0 <= nbytes < UINT_LIMIT
    ensures nbytes <= MAXREQUEST <==>
      && (Nunits(nbytes) - 1) * HEADER >= nbytes
      && AsInt(CoreUnits(Nunits(nbytes)) * HEADER) == CoreUnits(Nunits(nbytes)) * HEADER
  {
  }

  /** Asking for 2^32 - 1 bytes yields a block of one unit, its header. */
  lemma HugeRequestWraps()
    ensures Nunits(UINT_LIMIT - 1) == 1
  {
  }

  // ---- The allocator ---------------------------------------------------------------------------

  /** Steps along the ring of n blocks from j to t. */
  function Dist(n: int, j: int, t: int): int {
    if j <= t then t - j else t - j + n
  }

  lemma StepCloser(h: Heap, j: int, t: int)
    requires 0 <= j < |h.ring| && 0 <= t < |h.ring| && j != t
    ensures 0 <= Succ(h, j) < |h.ring| && 0 <= Dist(|h.ring|, Succ(h, j), t) == Dist(|h.ring|, j, t) - 1
  {
  }

  class Allocator {
    var mem: map<int, Header>
    var freep: Option<int>
    ghost var ring: seq<int>
    ghost var alloc: map<int, int>
    ghost var core: set<int>
    /** The end of the process's memory. */
    var top: int
    /** The place of freep in the ring. */
    ghost var at: int
    /** How often sbrk has refused. */
    ghost var refusals: nat

    ghost function Model(): Heap
      reads this
    {
      Heap(mem, ring, alloc, core, top)
    }

    /** Before the first malloc there is no free list. */
    ghost predicate Valid()
      reads this
    {
      if freep.None? then
        BASE in mem && BASE < top && ring == [] && alloc == map[] && core == {}
      else
        Inv(Model(), {}) && 0 <= at < |ring| && ring[at] == freep.value
    }

    constructor (brk: int)
      requires BASE < brk
      ensures Valid() && freep.None? && alloc == map[] && core == {}
    {
      mem := map[BASE := Header(0, 0)];
      freep, ring, alloc, core, top, at, refusals := None, [], map[], {}, brk, 0, 0;
    }

    /** free of the block bp = ap - 1 */
    method Free(bp: int)
      requires Valid() && freep.Some? && bp in alloc
      modifies this`mem, this`freep, this`ring, this`alloc, this`at
      ensures Valid() && freep.Some?
      ensures alloc == map a | a in old(alloc) && a != bp :: old(alloc)[a]
      ensures Untouched(old(Model()), mem, bp)
      ensures HasRoom(Model(), old(alloc)[bp]) && LastBelow(ring, freep.value, bp)
    {
      hide *;
      ghost var h := Model();
      ValidParts();
      ghost var k := FindPlace(h, bp, |h.ring|);
      ghost var i := at;
      var p := freep.value;
      StopsAtPlace(h, k, bp, i);
      PlaceInRing(h, k, bp);
      while !Stops(bp, p, mem[p].ptr)
        invariant Model() == h && mem == h.mem && core == h.core && top == h.top
        invariant 0 <= i < |h.ring| && h.ring[i] == p && p in mem && bp in mem
        invariant Stops(bp, p, mem[p].ptr) <==> i == k - 1
        decreases Dist(|h.ring|, i, k - 1)
      {
        StepCloser(h, i, k - 1);
        StopsAtPlace(h, k, bp, i);
        i := Succ(h, i);
        StopsAtPlace(h, k, bp, i);
        p := mem[p].ptr;
      }
      ghost var h' := Freed(h, k, bp);
      FreedMem(h, k, bp, p, h');
      FreeUntouched(h, k, bp, p);
      FreedKeeps(h, k, bp, h');
      FreedBlock(h, k, bp, h');
      FreedPlace(h, k, bp, p, h');
      Join(p, bp);
      freep := Some(p);
      ring, alloc, at := h'.ring, h'.alloc, k - 1;
      ModelIs(h');
      MakeValid(h', p);
    }

    /** The stores of free: bp goes behind p, and is joined to its neighbours where they touch. */
    method Join(p: int, bp: int)
      requires p in mem && bp in mem && (bp + mem[bp].size == mem[p].ptr ==> mem[p].ptr in mem)
      modifies this`mem
      ensures mem == FreeStores(old(mem), p, bp)
    {
      var next := mem[p].ptr;
      if bp + mem[bp].size == next {
        mem := mem[bp := Header(mem[next].ptr, mem[bp].size + mem[next].size)];
      } else {
        mem := mem[bp := Header(next, mem[bp].size)];
      }
      if p + mem[p].size == bp {
        mem := mem[p := Header(mem[bp].ptr, mem[p].size + mem[bp].size)];
      } else {
        mem := mem[p := Header(bp, mem[p].size)];
      }
    }

    /** sbrk: zeroed memory above all that the process had before, or none. */
    method Sbrk(n: int) returns (r: Option<int>)
      requires 0 < n
      modifies this`mem, this`top, this`refusals
      ensures refusals == old(refusals) + if r.None? then 1 else 0
      ensures r.None? ==> mem == old(mem) && top == old(top)
      ensures r.Some? ==> old(top) <= r.value && top == r.value + n && mem == old(mem) + Zeroed(r.value, n)
    {
      if * {
        refusals := refusals + 1;
        return None;
      }
      var others :| 0 <= others;
      var a := top + others;
      mem, top := mem + Zeroed(a, n), a + n;
      return Some(a);
    }

    /** morecore: the new units become one free block, or part of one. */
    method Morecore(nunits: int) returns (r: Option<int>)
      requires Valid() && freep.Some? && 0 < nunits
      modifies this
      ensures Valid() && freep.Some? && alloc == old(alloc) && Untouched(old(Model()), mem, BASE)
      ensures refusals == old(refusals) + if r.None? then 1 else 0
      ensures r.None? ==> Model() == old(Model()) && core == old(core)
      ensures r.Some? ==> r == freep && HasRoom(Model(), nunits)
      ensures r.Some? ==> exists a :: old(top) <= a && core == old(core) + UnitsOf(a, CoreUnits(nunits))
    {
      hide *;
      ghost var h := Model();
      ValidParts();
      CoreUnitsAre(nunits);
      var nu := nunits;
      if nu < 4096 {
        nu := 4096;
      }
      var p := Sbrk(nu);
      if p.None? {
        ModelIs(h);
        MakeValid(h, freep.value);
        UntouchedSelf(h);
        return None;
      }
      var hp := p.value;
      GrownIs(h, hp, nu, mem, alloc);
      mem := mem[hp := Header(mem[hp].ptr, nu)];
      alloc, core := alloc[hp := nu], core + UnitsOf(hp, nu);
      ghost var h1 := Model();
      ModelFields();
      GrownKeeps(h, hp, nu, h1);
      MakeValid(h1, freep.value);
      Free(hp);
      GrownFreed(h, hp, nu, h1, mem, alloc);
      RoomMore(Model(), nu, nunits);
      return freep;
    }

    /** malloc. It hands out the end of the first block after freep that is big enough, if there is
        one. Otherwise it calls sbrk, once, and fails if and only if sbrk does. */
    method Alloc(nbytes: int) returns (r: Option<int>, ghost cores: int)
      requires Valid() && 0 <= nbytes <= MAXREQUEST
      modifies this
      ensures Valid() && freep.Some? && Untouched(old(Model()), mem, BASE) && 0 <= cores <= 1
      ensures refusals == old(refusals) + if r.None? then 1 else 0
      ensures HasRoom(old(Model()), Nunits(nbytes)) <==> r.Some? && cores == 0
      ensures r.Some? && cores == 0 ==> Fitted(old(Model()), old(at), Nunits(nbytes), r.value - 1, freep.value)
      ensures cores == 0 ==> core == old(core)
      ensures cores == 1 ==> exists a :: old(top) <= a && core == old(core) + UnitsOf(a, CoreUnits(Nunits(nbytes)))
      ensures r.None? ==> alloc == old(alloc) && cores == 0
      ensures r.Some? ==>
        && r.value - 1 !in old(alloc) && alloc == old(alloc)[r.value - 1 := Nunits(nbytes)]
        && (Nunits(nbytes) - 1) * HEADER >= nbytes
    {
      hide *;
      ghost var h0 := Model();
      ModelFields();
      UnitsEnough(nbytes);
      var nunits := (nbytes + HEADER - 1) / HEADER + 1;
      cores := 0;
      UntouchedSelf(h0);
      if freep.None? {
        NotStarted();
        mem := mem[BASE := Header(BASE, 0)];
        freep, ring, at := Some(BASE), [BASE], 0;
        FirstRing(h0, nunits);
        ModelFields();
        MakeValid(Model(), BASE);
      }
      ghost var hs := Model();
      ghost var pi, t := at, 0;
      var prevp := freep.value;
      ValidParts();
      RingAt(Model(), pi);
      var p := mem[prevp].ptr;
      ghost var j := Succ(Model(), pi);
      ScanStart(hs, at, nunits);
      while true
        invariant Valid() && freep.Some? && alloc == h0.alloc && Untouched(h0, mem, BASE)
        invariant Scanning(Model(), pi, j, prevp, p) && 0 <= cores <= 1 && refusals == old(refusals)
        invariant cores == 0 ==> Model() == hs && core == h0.core && top == h0.top
        invariant cores == 0 ==> at == old(at) || !HasRoom(h0, nunits)
        invariant cores == 0 ==> Scanned(hs, at, j, nunits)
        invariant cores == 1 ==> exists a :: h0.top <= a && core == h0.core + UnitsOf(a, CoreUnits(nunits))
        invariant cores == 1 ==> Ahead(Model(), j, t, at, nunits) && !HasRoom(h0, nunits)
        decreases 1 - cores, Dist(|ring|, j, if cores == 0 then at else t)
      {
        ghost var h := Model();
        ValidParts();
        ScanFacts(h, pi, j, prevp, p);
        if mem[p].size >= nunits {
          FoundRoom(h, at, pi, j, prevp, p, nunits);
          var a := TakeBlock(prevp, p, nunits, pi, j);
          UntouchedTwice(h0, h, mem);
          return Some(a + 1), cores;
        }
        if p == freep.value {
          MustGrow(h, j, t, at, nunits, cores);
          NoRoom(h, at, j, nunits);
          var q := Morecore(nunits);
          UntouchedTwice(h0, h, mem);
          if q.None? {
            return None, cores;
          }
          cores, p := 1, q.value;
          ghost var h1 := Model();
          ValidParts();
          t := SomeRoom(h1, nunits);
          RingAt(h1, at);
          ScanAgain(h1, at, t, nunits);
          pi, j, prevp, p := at, Succ(h1, at), p, mem[p].ptr;
        } else {
          NotFreep(h, j, at);
          ScanNext(h, j, t, at, nunits, cores);
          RingAt(h, j);
          pi, j, prevp, p := j, Succ(h, j), p, mem[p].ptr;
        }
      }
    }

    /** The unlinking or splitting of block p, and freep = prevp. */
    method TakeBlock(prevp: int, p: int, nunits: int, ghost pi: int, ghost j: int) returns (a: int)
      requires Valid() && freep.Some? && Scanning(Model(), pi, j, prevp, p) && p in mem && 0 < nunits <= mem[p].size
      modifies this`mem, this`freep, this`ring, this`alloc, this`at
      ensures Valid() && freep.Some? && Untouched(old(Model()), mem, BASE)
      ensures a !in old(alloc) && alloc == old(alloc)[a := nunits] && a == p + old(mem)[p].size - nunits
      ensures freep == Some(prevp)
    {
      hide *;
      ghost var h := Model();
      ValidParts();
      TakeFacts(h, pi, j, prevp, p, nunits);
      if mem[p].size == nunits {
        TakeAllKeeps(h, j, TakeAll(h, j));
        TakeAllUntouched(h, j);
        TakeAllIs(h, j, prevp, p);
        mem := mem[prevp := Header(mem[p].ptr, mem[prevp].size)];
        a := p;
        ring, alloc := TakeAll(h, j).ring, TakeAll(h, j).alloc;
      } else {
        TailKeeps(h, j, nunits, TakeTail(h, j, nunits));
        TailUntouched(h, j, nunits);
        TakeTailIs(h, j, p, nunits);
        mem := mem[p := Header(mem[p].ptr, mem[p].size - nunits)];
        a := p + mem[p].size;
        mem := mem[a := Header(mem[a].ptr, nunits)];
        alloc := TakeTail(h, j, nunits).alloc;
      }
      freep, at := Some(prevp), pi;
      ModelFields();
      MakeValid(Model(), prevp);
    }

    lemma NotStarted()
      requires Valid() && freep.None?
      ensures BASE in mem && BASE < top && ring == [] && alloc == map[] && core == {}
    {
    }

    lemma ModelFields()
      ensures Model() == Heap(mem, ring, alloc, core, top)
    {
    }

    lemma ValidParts()
      requires Valid() && freep.Some?
      ensures Inv(Model(), {}) && 0 <= at < |ring| && ring[at] == freep.value && BASE < top
      ensures Model() == Heap(mem, ring, alloc, core, top)
    {
    }

    lemma ModelIs(h: Heap)
      requires mem == h.mem && ring == h.ring && alloc == h.alloc && core == h.core && top == h.top
      ensures Model() == h
    {
    }

    lemma MakeValid(h: Heap, p: int)
      requires Model() == h && Inv(h, {}) && 0 <= at < |h.ring| && h.ring[at] == p && freep == Some(p)
      ensures Valid()
    {
    }
  }

  lemma PlaceInRing(h: Heap, k: int, bp: int)
    requires MayInsert(h, k, bp)
    ensures 0 <= k - 1 < |h.ring| && bp in h.mem && bp in h.alloc
  {
  }

  function Zeroed(a: int, n: int): map<int, Header> {
    map u | a <= u < a + n && Units(a, n, u) :: Header(0, 0)
  }

  function UnitsOf(a: int, n: int): set<int> {
    set u | a <= u < a + n && Units(a, n, u)
  }

  lemma CoreUnitsAre(nunits: int)
    ensures CoreUnits(nunits) == (if nunits < 4096 then 4096 else nunits) >= nunits
  {
  }

  lemma UntouchedSelf(h: Heap)
    ensures Untouched(h, h.mem, BASE)
  {
  }

  lemma GrownIs(h: Heap, a: int, n: int, mem: map<int, Header>, alloc: map<int, int>)
    requires Inv(h, {}) && h.top <= a && 0 < n && mem == h.mem + Zeroed(a, n) && alloc == h.alloc
    ensures a in mem
  {
    assert Units(a, n, a);
  }

  lemma GrownKeeps(h: Heap, a: int, n: int, h1: Heap)
    requires Inv(h, {}) && h.top <= a && BASE < a && 0 < n && a in h.mem + Zeroed(a, n)
    requires var mem := h.mem + Zeroed(a, n);
      h1 == Heap(mem[a := Header(mem[a].ptr, n)], h.ring, h.alloc[a := n], h.core + UnitsOf(a, n), a + n)
    ensures Inv(h1, {}) && forall u :: u in h.mem && u < a ==> u in h1.mem && h1.mem[u] == h.mem[u]
  {
    assert Units(a, n, a);
    var more := Zeroed(a, n);
    assert h.mem + more[a := more[a].(size := n)] == (h.mem + more)[a := Header(0, n)];
    GrowKeeps(h, a, n, more, h1);
  }

  lemma GrownFreed(h: Heap, a: int, n: int, h1: Heap, mem: map<int, Header>, alloc: map<int, int>)
    requires Inv(h, {}) && h.top <= a && 0 < n && h1.alloc == h.alloc[a := n]
    requires forall u :: u in h.mem && u < a ==> u in h1.mem && h1.mem[u] == h.mem[u]
    requires Untouched(h1, mem, a) && alloc == map b | b in h1.alloc && b != a :: h1.alloc[b]
    ensures alloc == h.alloc && Untouched(h, mem, BASE)
  {
    forall b | b in h.alloc
      ensures b != a && Same(h.mem, mem, b, h.alloc[b])
    {
      assert AllocOk(h, b);
      assert b != a;
      assert Same(h1.mem, mem, b, h1.alloc[b]);
    }
  }

  lemma RoomMore(h: Heap, n: int, m: int)
    requires HasRoom(h, n) && m <= n
    ensures HasRoom(h, m)
  {
    var t :| RoomAt(h, t, n);
    assert RoomAt(h, t, m);
  }

  // ---- The scan in malloc ----------------------------------------------------------------------

  /** prevp and p are neighbours in the ring. */
  predicate Scanning(h: Heap, pi: int, j: int, prevp: int, p: int) {
    0 <= pi < |h.ring| && j == Succ(h, pi) && 0 <= j < |h.ring| && h.ring[pi] == prevp && h.ring[j] == p
  }

  /** The scan, now at block j, meets the block t that has room before it is back at freep. */
  predicate Ahead(h: Heap, j: int, t: int, at: int, n: int) {
    RoomAt(h, t, n) && Dist(|h.ring|, j, t) <= Dist(|h.ring|, j, at)
  }

  /** The scan from freep has found every block before place j too small. */
  predicate Scanned(h: Heap, at: int, j: int, n: int) {
    forall t :: 0 <= t < |h.ring| && Dist(|h.ring|, Succ(h, at), t) < Dist(|h.ring|, Succ(h, at), j) ==>
      h.ring[t] in h.mem ==> SizeAt(h, t) < n
  }

  /** a is where the last n units start of the first block after freep that has n; p is the block
      before it. */
  ghost predicate Fitted(h: Heap, at: int, n: int, a: int, p: int) {
    exists j :: RoomAt(h, j, n) && Scanned(h, at, j, n) && a == End(h, j) - n && p == h.ring[j - 1]
  }

  lemma ScanStart(h: Heap, at: int, n: int)
    ensures Scanned(h, at, Succ(h, at), n)
  {
  }

  lemma FoundRoom(h: Heap, at: int, pi: int, j: int, prevp: int, p: int, n: int)
    requires Inv(h, {}) && Scanning(h, pi, j, prevp, p) && p in h.mem && 0 < n <= h.mem[p].size
    ensures HasRoom(h, n) && (Scanned(h, at, j, n) ==> Fitted(h, at, n, p + h.mem[p].size - n, prevp))
  {
    assert BlockOk(h, j);
    assert RoomAt(h, j, n);
  }

  lemma NoRoom(h: Heap, at: int, j: int, n: int)
    requires Inv(h, {}) && 0 <= j < |h.ring| && 0 <= at < |h.ring| && h.ring[j] == h.ring[at]
    requires Scanned(h, at, j, n) && h.ring[j] in h.mem && h.mem[h.ring[j]].size < n
    ensures !HasRoom(h, n)
  {
    if j != at {
      Distinct(h, j, at, {});
    }
  }

  lemma UnitsEnough(nbytes: int)
    requires 0 <= nbytes <= MAXREQUEST
    ensures HEADER != 0 && Nunits(nbytes) == (nbytes + HEADER - 1) / HEADER + 1
    ensures (Nunits(nbytes) - 1) * HEADER >= nbytes
    ensures 0 < Nunits(nbytes)
  {
  }

  lemma FirstRing(h: Heap, n: int)
    requires BASE in h.mem && BASE < h.top && h.ring == [] && h.alloc == map[] && h.core == {}
    ensures !HasRoom(h, n) && !HasRoom(Heap(h.mem[BASE := Header(BASE, 0)], [BASE], map[], {}, h.top), n)
    ensures Inv(Heap(h.mem[BASE := Header(BASE, 0)], [BASE], map[], {}, h.top), {})
    ensures Untouched(h, h.mem[BASE := Header(BASE, 0)], BASE)
  {
    var h1 := Heap(h.mem[BASE := Header(BASE, 0)], [BASE], map[], {}, h.top);
    assert forall u :: !IsFree(h1, u) && !IsAlloc(h1, u);
  }

  lemma RingAt(h: Heap, i: int)
    requires Inv(h, {}) && 0 <= i < |h.ring|
    ensures h.ring[i] in h.mem && 0 <= Succ(h, i) < |h.ring| && h.mem[h.ring[i]].ptr == h.ring[Succ(h, i)]
    ensures Scanning(h, i, Succ(h, i), h.ring[i], h.mem[h.ring[i]].ptr)
  {
    assert BlockOk(h, i);
  }

  lemma ScanFacts(h: Heap, pi: int, j: int, prevp: int, p: int)
    requires Inv(h, {}) && Scanning(h, pi, j, prevp, p)
    ensures 0 <= j < |h.ring| && h.ring[j] == p && p in h.mem
  {
    assert BlockOk(h, j);
  }

  lemma NotFreep(h: Heap, j: int, at: int)
    requires 0 <= j < |h.ring| && 0 <= at < |h.ring| && h.ring[j] != h.ring[at]
    ensures j != at
  {
  }

  /** Back at freep: nothing has been obtained yet. */
  lemma MustGrow(h: Heap, j: int, t: int, at: int, n: int, cores: int)
    requires Inv(h, {}) && 0 <= j < |h.ring| && 0 <= at < |h.ring| && h.ring[j] == h.ring[at] && 0 <= cores <= 1
    requires h.ring[j] in h.mem && h.mem[h.ring[j]].size < n && (cores == 1 ==> Ahead(h, j, t, at, n))
    ensures cores == 0
  {
    if j != at {
      Distinct(h, j, at, {});
    }
  }

  lemma SomeRoom(h: Heap, n: int) returns (t: int)
    requires HasRoom(h, n)
    ensures RoomAt(h, t, n)
  {
    t :| RoomAt(h, t, n);
  }

  lemma ScanAgain(h: Heap, at: int, t: int, n: int)
    requires 0 <= at < |h.ring| && RoomAt(h, t, n)
    ensures Ahead(h, Succ(h, at), t, at, n)
  {
  }

  lemma ScanNext(h: Heap, j: int, t: int, at: int, n: int, cores: int)
    requires 0 <= j < |h.ring| && 0 <= at < |h.ring| && j != at && 0 <= cores <= 1
    requires h.ring[j] in h.mem && h.mem[h.ring[j]].size < n && (cores == 1 ==> Ahead(h, j, t, at, n))
    ensures cores == 1 ==> Ahead(h, Succ(h, j), t, at, n)
    ensures Scanned(h, at, j, n) ==> Scanned(h, at, Succ(h, j), n)
    ensures var g := if cores == 0 then at else t; 0 <= Dist(|h.ring|, Succ(h, j), g) < Dist(|h.ring|, j, g)
  {
    StepCloser(h, j, at);
    if cores == 1 {
      StepCloser(h, j, t);
    }
  }

  lemma UntouchedTwice(h0: Heap, h: Heap, m: map<int, Header>)
    requires Untouched(h0, h.mem, BASE) && Untouched(h, m, BASE) && h.alloc == h0.alloc
    ensures Untouched(h0, m, BASE)
  {
    forall a | a in h0.alloc && a != BASE
      ensures Same(h0.mem, m, a, h0.alloc[a])
    {
      assert Same(h0.mem, h.mem, a, h0.alloc[a]) && Same(h.mem, m, a, h.alloc[a]);
    }
  }

  lemma TakeFacts(h: Heap, pi: int, j: int, prevp: int, p: int, n: int)
    requires Inv(h, {}) && Scanning(h, pi, j, prevp, p) && p in h.mem && 0 < n <= h.mem[p].size
    ensures 0 < j < |h.ring| && pi == j - 1 && h.ring[j] == p && h.ring[j - 1] == prevp && prevp in h.mem && p != prevp
    ensures p !in h.alloc && SizeAt(h, j) == h.mem[p].size
    ensures n < h.mem[p].size ==> MayTakeTail(h, j, n) && End(h, j) - n !in h.alloc
  {
    assert BlockOk(h, j) && BlockOk(h, pi);
    Distinct(h, j, pi, {});
    if p in h.alloc {
      NotInRing(h, p, j);
    }
    if n < h.mem[p].size {
      var q := End(h, j) - n;
      assert InBlock(h, j, q);
      assert q in h.core;
      assert ApartFree(h, q, j) && AllocOk(h, q);
    }
  }

  lemma TakeAllIs(h: Heap, j: int, prevp: int, p: int)
    requires 0 < j < |h.ring| && h.ring[j] == p && h.ring[j - 1] == prevp && p in h.mem && prevp in h.mem
    ensures var h' := TakeAll(h, j);
      && h' == Heap(h.mem[prevp := Header(h.mem[p].ptr, h.mem[prevp].size)], h'.ring,
                    h.alloc[p := h.mem[p].size], h.core, h.top)
      && 0 <= j - 1 < |h'.ring| && h'.ring[j - 1] == prevp
  {
  }

  lemma TakeTailIs(h: Heap, j: int, p: int, n: int)
    requires MayTakeTail(h, j, n) && h.ring[j] == p
    ensures var h', q := TakeTail(h, j, n), p + (h.mem[p].size - n);
      var m1 := h.mem[p := Header(h.mem[p].ptr, h.mem[p].size - n)];
      && q in m1 && q == End(h, j) - n
      && h' == Heap(m1[q := Header(m1[q].ptr, n)], h.ring, h.alloc[q := n], h.core, h.top)
  {
  }
}
