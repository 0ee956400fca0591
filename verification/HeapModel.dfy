/** The free list of umalloc.c. Addresses and sizes are in units of a header; a block is its
    header and the units after it. */
module HeapModel {

  datatype Header = Header(ptr: int, size: int)

  /** mem: the memory, one header per unit. ring: the addresses of the free list, lowest first.
      alloc: the blocks handed out, with their sizes. core: the units obtained from sbrk, all
      below top. */
  datatype Heap = Heap(mem: map<int, Header>, ring: seq<int>, alloc: map<int, int>, core: set<int>, top: int)

  /** The address of `base`, which lies below the heap. */
  const BASE: int := 0

  function Succ(h: Heap, i: int): int {
    if i + 1 < |h.ring| then i + 1 else 0
  }

  function SizeAt(h: Heap, i: int): int
    requires 0 <= i < |h.ring| && h.ring[i] in h.mem
  {
    h.mem[h.ring[i]].size
  }

  /** The first unit after free block i. */
  function End(h: Heap, i: int): int
    requires 0 <= i < |h.ring| && h.ring[i] in h.mem
  {
    h.ring[i] + SizeAt(h, i)
  }

  predicate Units(a: int, n: int, u: int) {
    a <= u < a + n
  }

  // ---- The invariant ---------------------------------------------------------------------------

  /** Entry i of the ring is linked to the next, has a size (only base has none), and ends below
      the top. */
  predicate BlockOk(h: Heap, i: int) {
    0 <= i < |h.ring| ==>
      && h.ring[i] in h.mem && 0 <= Succ(h, i) < |h.ring| && h.mem[h.ring[i]].ptr == h.ring[Succ(h, i)]
      && (if i == 0 then h.ring[0] == BASE && SizeAt(h, 0) == 0 else SizeAt(h, i) > 0)
      && End(h, i) <= h.top
  }

  /** Free block i lies below free block j, and they do not even touch (but blocks next to each
      other may, if the first is in w). */
  predicate Below(h: Heap, i: int, j: int, w: set<int>) {
    0 <= i < j < |h.ring| && h.ring[i] in h.mem ==>
      End(h, i) <= h.ring[j] && (End(h, i) == h.ring[j] ==> 0 < i == j - 1 && i in w)
  }

  predicate AllocOk(h: Heap, a: int) {
    a in h.alloc ==> a in h.mem && BASE < a && 0 < h.alloc[a] == h.mem[a].size && a + h.alloc[a] <= h.top
  }

  predicate Apart(h: Heap, a: int, b: int) {
    a in h.alloc && b in h.alloc && a != b ==> a + h.alloc[a] <= b || b + h.alloc[b] <= a
  }

  predicate ApartFree(h: Heap, a: int, i: int) {
    a in h.alloc && 0 <= i < |h.ring| && h.ring[i] in h.mem ==> a + h.alloc[a] <= h.ring[i] || End(h, i) <= a
  }

  predicate InBlock(h: Heap, i: int, u: int) {
    0 <= i < |h.ring| && h.ring[i] in h.mem && h.ring[i] <= u < End(h, i)
  }

  predicate InAlloc(h: Heap, a: int, u: int) {
    a in h.alloc && a <= u < a + h.alloc[a]
  }

  ghost predicate IsFree(h: Heap, u: int) {
    exists i :: InBlock(h, i, u)
  }

  ghost predicate IsAlloc(h: Heap, u: int) {
    exists a :: InAlloc(h, a, u)
  }

  ghost predicate RingOk(h: Heap, w: set<int>) {
    && |h.ring| > 0 && BASE < h.top
    && (forall i :: BlockOk(h, i))
    && (forall i, j :: Below(h, i, j, w))
  }

  ghost predicate AllocsOk(h: Heap) {
    && (forall a :: AllocOk(h, a))
    && (forall a, b :: Apart(h, a, b))
    && (forall a, i :: ApartFree(h, a, i))
  }

  /** Every unit obtained from sbrk, and no other, is in a free block or in one handed out. */
  ghost predicate CoreOk(h: Heap) {
    && (forall u :: u in h.core ==> u in h.mem)
    && (forall u :: u in h.core <==> IsFree(h, u) || IsAlloc(h, u))
  }

  ghost predicate Inv(h: Heap, w: set<int>) {
    RingOk(h, w) && AllocsOk(h) && CoreOk(h)
  }

  // ---- Operations ------------------------------------------------------------------------------

  function InsertAt(r: seq<int>, k: int, x: int): seq<int>
    requires 0 <= k <= |r|
  {
    seq(|r| + 1, j requires 0 <= j <= |r| => if j < k then r[j] else if j == k then x else r[j - 1])
  }

  function RemoveAt(r: seq<int>, k: int): seq<int>
    requires 0 <= k < |r|
  {
    seq(|r| - 1, j requires 0 <= j < |r| - 1 => if j < k then r[j] else r[j + 1])
  }

  /** Block bp, handed out before, goes into the ring at place k. */
  function Insert(h: Heap, k: int, bp: int): Heap
    requires 0 < k <= |h.ring| && h.ring[k - 1] in h.mem && bp in h.mem && bp in h.alloc
  {
    var p := h.ring[k - 1];
    h.(ring := InsertAt(h.ring, k, bp),
       mem := h.mem[bp := Header(h.mem[p].ptr, h.mem[bp].size)][p := Header(bp, h.mem[p].size)],
       alloc := map a | a in h.alloc && a != bp :: h.alloc[a])
  }

  /** Free blocks k and k + 1 become one. */
  function Merge(h: Heap, k: int): Heap
    requires 0 <= k && k + 1 < |h.ring| && h.ring[k] in h.mem && h.ring[k + 1] in h.mem
  {
    h.(ring := RemoveAt(h.ring, k + 1),
       mem := h.mem[h.ring[k] := Header(h.mem[h.ring[k + 1]].ptr, SizeAt(h, k) + SizeAt(h, k + 1))])
  }

  /** Free block j is handed out as a whole. */
  function TakeAll(h: Heap, j: int): Heap
    requires 0 < j < |h.ring| && h.ring[j] in h.mem && h.ring[j - 1] in h.mem
  {
    var prev := h.ring[j - 1];
    h.(ring := RemoveAt(h.ring, j),
       mem := h.mem[prev := h.mem[prev].(ptr := h.mem[h.ring[j]].ptr)],
       alloc := h.alloc[h.ring[j] := SizeAt(h, j)])
  }

  /** The last n units of free block j are handed out. */
  function TakeTail(h: Heap, j: int, n: int): Heap
    requires 0 < j < |h.ring| && h.ring[j] in h.mem && End(h, j) - n in h.mem
  {
    var q := End(h, j) - n;
    h.(mem := h.mem[h.ring[j] := h.mem[h.ring[j]].(size := SizeAt(h, j) - n)][q := h.mem[q].(size := n)],
       alloc := h.alloc[q := n])
  }

  /** sbrk gave n units from address a on; the new memory starts out as one block handed out. */
  function Grow(h: Heap, a: int, n: int, more: map<int, Header>): Heap
    requires a in more
  {
    h.(mem := h.mem + more[a := more[a].(size := n)], alloc := h.alloc[a := n],
       core := h.core + (set u | a <= u < a + n && Units(a, n, u)), top := a + n)
  }

  // ---- Insert ----------------------------------------------------------------------------------

  ghost predicate MayInsert(h: Heap, k: int, bp: int) {
    && 0 < k <= |h.ring| && h.ring[k - 1] in h.mem && bp in h.mem && bp in h.alloc
    && h.ring[k - 1] < bp && (k < |h.ring| ==> bp < h.ring[k])
  }

  /** The blocks of a heap by what they need to keep: no two share an address. */
  lemma Distinct(h: Heap, i: int, j: int, w: set<int>)
    requires RingOk(h, w) && 0 <= i < |h.ring| && 0 <= j < |h.ring| && i != j
    ensures h.ring[i] != h.ring[j] && (i < j ==> h.ring[i] < h.ring[j])
  {
    assert BlockOk(h, i) && BlockOk(h, j) && Below(h, i, j, w) && Below(h, j, i, w);
  }

  lemma NotInRing(h: Heap, a: int, i: int)
    requires Inv(h, {}) && a in h.alloc && 0 <= i < |h.ring|
    ensures h.ring[i] != a
  {
    assert BlockOk(h, i) && AllocOk(h, a) && ApartFree(h, a, i);
  }

  /** What Insert does to the blocks that were free. */
  ghost predicate InsertView(h: Heap, k: int, bp: int, h': Heap, m: int, m': int) {
    0 <= m < |h.ring| && m' == (if m < k then m else m + 1) ==>
      && 0 <= m' < |h'.ring| && h'.ring[m'] == h.ring[m] && h.ring[m] in h.mem && h.ring[m] in h'.mem
      && h'.mem[h.ring[m]] == if m == k - 1 then Header(bp, h.mem[h.ring[m]].size) else h.mem[h.ring[m]]
  }

  lemma InsertViews(h: Heap, k: int, bp: int, h': Heap, m: int, m': int)
    requires Inv(h, {}) && MayInsert(h, k, bp) && h' == Insert(h, k, bp)
    ensures |h'.ring| == |h.ring| + 1 && h'.ring[k] == bp && InsertView(h, k, bp, h', m, m')
    ensures h'.top == h.top && h'.core == h.core
    ensures bp in h'.mem && h'.mem[bp].size == h.alloc[bp] && h'.mem[bp].ptr == h.mem[h.ring[k - 1]].ptr
  {
    assert BlockOk(h, m) && AllocOk(h, bp);
    NotInRing(h, bp, k - 1);
    if 0 <= m < |h.ring| {
      NotInRing(h, bp, m);
      if m != k - 1 {
        Distinct(h, m, k - 1, {});
      }
    }
  }

  lemma InsertBlock(h: Heap, k: int, bp: int, h': Heap, i: int)
    requires Inv(h, {}) && MayInsert(h, k, bp) && h' == Insert(h, k, bp)
    ensures BlockOk(h', i)
  {
    hide Insert;
    InsertViews(h, k, bp, h', i, i);
    InsertViews(h, k, bp, h', i - 1, i);
    InsertViews(h, k, bp, h', k, k + 1);
    InsertViews(h, k, bp, h', 0, 0);
    InsertViews(h, k, bp, h', i + 1, i + 1);
    InsertViews(h, k, bp, h', i, i + 1);
    assert BlockOk(h, i) && BlockOk(h, i - 1) && BlockOk(h, k - 1) && AllocOk(h, bp);
  }

  lemma InsertBelow(h: Heap, k: int, bp: int, h': Heap, i: int, j: int)
    requires Inv(h, {}) && MayInsert(h, k, bp) && h' == Insert(h, k, bp)
    ensures Below(h', i, j, {k - 1, k})
  {
    hide Insert;
    if 0 <= i < j <= |h.ring| {
      var a, b := if i < k then i else i - 1, if j < k then j else j - 1;
      InsertViews(h, k, bp, h', a, i);
      InsertViews(h, k, bp, h', b, j);
      assert BlockOk(h, a) && BlockOk(h, b) && Below(h, a, b, {});
      if i == k {
        Ordered(h, k, bp, b);
      } else if j == k {
        Ordered(h, k, bp, a);
      }
    } else {
      InsertViews(h, k, bp, h', 0, 0);
    }
  }

  /** The place where bp belongs: above block k - 1, below block k, and apart from all. */
  lemma Ordered(h: Heap, k: int, bp: int, m: int)
    requires Inv(h, {}) && MayInsert(h, k, bp) && 0 <= m < |h.ring|
    ensures h.ring[m] in h.mem
    ensures m < k ==> End(h, m) <= bp && (m < k - 1 ==> End(h, m) < bp) && h.ring[m] < bp
    ensures m >= k ==> bp + h.alloc[bp] <= h.ring[m] && (m > k ==> bp + h.alloc[bp] < h.ring[m])
  {
    assert ApartFree(h, bp, m) && AllocOk(h, bp) && BlockOk(h, m) && BlockOk(h, k - 1);
    assert Below(h, m, k - 1, {});
    if k < |h.ring| {
      assert BlockOk(h, k) && Below(h, k, m, {}) && ApartFree(h, bp, k);
    }
  }

  lemma InsertAllocs(h: Heap, k: int, bp: int, h': Heap)
    requires Inv(h, {}) && MayInsert(h, k, bp) && h' == Insert(h, k, bp)
    ensures AllocsOk(h')
  {
    forall a | a in h'.alloc
      ensures AllocOk(h', a)
    {
      assert AllocOk(h, a);
      NotInRing(h, a, k - 1);
    }
    forall a, b | a in h'.alloc && b in h'.alloc
      ensures Apart(h', a, b)
    {
      assert Apart(h, a, b);
    }
    forall a, i | a in h'.alloc && 0 <= i < |h'.ring|
      ensures ApartFree(h', a, i)
    {
      var m := if i < k then i else i - 1;
      InsertViews(h, k, bp, h', m, i);
      assert ApartFree(h, a, m) && Apart(h, a, bp);
    }
  }

  lemma InsertCore(h: Heap, k: int, bp: int, h': Heap)
    requires Inv(h, {}) && MayInsert(h, k, bp) && h' == Insert(h, k, bp)
    ensures CoreOk(h')
  {
    forall u
      ensures u in h'.core <==> IsFree(h', u) || IsAlloc(h', u)
    {
      InsertViews(h, k, bp, h', 0, 0);
      if i :| InBlock(h, i, u) {
        var m := if i < k then i else i + 1;
        InsertViews(h, k, bp, h', i, m);
        assert InBlock(h', m, u);
      }
      if a :| InAlloc(h, a, u) {
        assert if a == bp then InBlock(h', k, u) else InAlloc(h', a, u);
      }
      if i :| InBlock(h', i, u) {
        var m := if i < k then i else i - 1;
        InsertViews(h, k, bp, h', m, i);
        assert if i == k then InAlloc(h, bp, u) else InBlock(h, m, u);
      }
      if a :| InAlloc(h', a, u) {
        assert InAlloc(h, a, u);
      }
    }
  }

  lemma InsertKeeps(h: Heap, k: int, bp: int, h': Heap)
    requires Inv(h, {}) && MayInsert(h, k, bp) && h' == Insert(h, k, bp)
    ensures Inv(h', {k - 1, k})
  {
    hide Insert;
    hide BlockOk;
    hide Below;
    hide AllocsOk;
    hide CoreOk;
    var w := {k - 1, k};
    InsertViews(h, k, bp, h', 0, 0);
    forall i
      ensures BlockOk(h', i)
    {
      InsertBlock(h, k, bp, h', i);
    }
    forall i, j
      ensures Below(h', i, j, w)
    {
      InsertBelow(h, k, bp, h', i, j);
    }
    InsertAllocs(h, k, bp, h');
    InsertCore(h, k, bp, h');
  }

  // ---- Merge -----------------------------------------------------------------------------------

  ghost predicate MayMerge(h: Heap, k: int) {
    && 0 < k && k + 1 < |h.ring| && h.ring[k] in h.mem && h.ring[k + 1] in h.mem && End(h, k) == h.ring[k + 1]
  }

  /** What Merge does to free block m other than k + 1. */
  ghost predicate MergeView(h: Heap, k: int, h': Heap, m: int, m': int)
    requires MayMerge(h, k)
  {
    0 <= m < |h.ring| && m != k + 1 && m' == (if m <= k then m else m - 1) ==>
      && 0 <= m' < |h'.ring| && h'.ring[m'] == h.ring[m] && h.ring[m] in h.mem && h.ring[m] in h'.mem
      && h'.mem[h.ring[m]] == if m == k then Header(h.mem[h.ring[k + 1]].ptr, SizeAt(h, k) + SizeAt(h, k + 1))
                              else h.mem[h.ring[m]]
  }

  lemma MergeViews(h: Heap, k: int, w: set<int>, h': Heap, m: int, m': int)
    requires RingOk(h, w) && MayMerge(h, k) && h' == Merge(h, k)
    ensures |h'.ring| == |h.ring| - 1 && MergeView(h, k, h', m, m')
    ensures h'.top == h.top && h'.core == h.core && h'.alloc == h.alloc
  {
    assert BlockOk(h, m);
    if 0 <= m < |h.ring| && m != k {
      Distinct(h, m, k, w);
    }
  }

  lemma MergeBlock(h: Heap, k: int, w: set<int>, h': Heap, i: int)
    requires RingOk(h, w) && MayMerge(h, k) && h' == Merge(h, k)
    ensures BlockOk(h', i)
  {
    hide Merge;
    var m := if i <= k then i else i + 1;
    MergeViews(h, k, w, h', m, i);
    MergeViews(h, k, w, h', 0, 0);
    MergeViews(h, k, w, h', m + 1, i + 1);
    MergeViews(h, k, w, h', k + 2, k + 1);
    assert BlockOk(h, m) && BlockOk(h, k + 1) && BlockOk(h, k);
  }

  lemma MergeBelow(h: Heap, k: int, w: set<int>, h': Heap, i: int, j: int)
    requires RingOk(h, w) && MayMerge(h, k) && h' == Merge(h, k) && k + 1 !in w && w <= {k - 1, k}
    ensures Below(h', i, j, w - {k})
  {
    hide Merge;
    var a, b := if i <= k then i else i + 1, if j <= k then j else j + 1;
    MergeViews(h, k, w, h', a, i);
    MergeViews(h, k, w, h', b, j);
    assert BlockOk(h, a) && BlockOk(h, b) && Below(h, a, b, w) && Below(h, k + 1, b, w) && BlockOk(h, k + 1);
  }

  lemma MergeAllocs(h: Heap, k: int, w: set<int>, h': Heap)
    requires Inv(h, w) && MayMerge(h, k) && h' == Merge(h, k)
    ensures AllocsOk(h')
  {
    forall a | a in h'.alloc
      ensures AllocOk(h', a)
    {
      assert AllocOk(h, a) && BlockOk(h, k) && ApartFree(h, a, k);
    }
    forall a, b | a in h'.alloc && b in h'.alloc
      ensures Apart(h', a, b)
    {
      assert Apart(h, a, b);
    }
    forall a, i | a in h'.alloc && 0 <= i < |h'.ring|
      ensures ApartFree(h', a, i)
    {
      var m := if i <= k then i else i + 1;
      MergeViews(h, k, w, h', m, i);
      assert ApartFree(h, a, m) && ApartFree(h, a, k + 1) && AllocOk(h, a) && BlockOk(h, k + 1);
    }
  }

  lemma MergeCore(h: Heap, k: int, w: set<int>, h': Heap)
    requires Inv(h, w) && MayMerge(h, k) && h' == Merge(h, k)
    ensures CoreOk(h')
  {
    MergeViews(h, k, w, h', k, k);
    assert BlockOk(h, k) && BlockOk(h, k + 1);
    forall u
      ensures u in h'.core <==> IsFree(h', u) || IsAlloc(h', u)
    {
      if i :| InBlock(h, i, u) {
        var m := if i <= k then i else i - 1;
        MergeViews(h, k, w, h', i, m);
        assert InBlock(h', m, u);
      }
      if a :| InAlloc(h, a, u) {
        assert InAlloc(h', a, u);
      }
      if i :| InBlock(h', i, u) {
        var m := if i <= k then i else i + 1;
        MergeViews(h, k, w, h', m, i);
        assert InBlock(h, m, u) || InBlock(h, k + 1, u);
      }
      if a :| InAlloc(h', a, u) {
        assert InAlloc(h, a, u);
      }
    }
  }

  lemma MergeKeeps(h: Heap, k: int, w: set<int>, h': Heap)
    requires Inv(h, w) && MayMerge(h, k) && h' == Merge(h, k) && k + 1 !in w && w <= {k - 1, k}
    ensures Inv(h', w - {k})
  {
    hide Merge;
    hide BlockOk;
    hide Below;
    hide AllocsOk;
    hide CoreOk;
    var w1 := w - {k};
    MergeViews(h, k, w, h', 0, 0);
    forall i
      ensures BlockOk(h', i)
    {
      MergeBlock(h, k, w, h', i);
    }
    forall i, j
      ensures Below(h', i, j, w1)
    {
      MergeBelow(h, k, w, h', i, j);
    }
    MergeAllocs(h, k, w, h');
    MergeCore(h, k, w, h');
  }

  /** Blocks k and k + 1 do not touch, so k need not be excepted. */
  lemma NoMergeKeeps(h: Heap, k: int, w: set<int>, w': set<int>)
    requires Inv(h, w) && !MayMerge(h, k) && w <= w' + {k}
    ensures Inv(h, w')
  {
    hide AllocsOk;
    hide CoreOk;
    forall i, j
      ensures Below(h, i, j, w')
    {
      assert Below(h, i, j, w) && BlockOk(h, i) && BlockOk(h, j);
    }
  }

  // ---- Take ------------------------------------------------------------------------------------

  ghost predicate TakeAllView(h: Heap, j: int, h': Heap, m: int, m': int)
    requires 0 < j < |h.ring| && h.ring[j] in h.mem
  {
    0 <= m < |h.ring| && m != j && m' == (if m < j then m else m - 1) ==>
      && 0 <= m' < |h'.ring| && h'.ring[m'] == h.ring[m] && h.ring[m] in h.mem && h.ring[m] in h'.mem
      && h'.mem[h.ring[m]] == if m == j - 1 then h.mem[h.ring[m]].(ptr := h.mem[h.ring[j]].ptr)
                              else h.mem[h.ring[m]]
  }

  lemma TakeAllViews(h: Heap, j: int, h': Heap, m: int, m': int)
    requires RingOk(h, {}) && 0 < j < |h.ring| && h.ring[j] in h.mem && h.ring[j - 1] in h.mem && h' == TakeAll(h, j)
    ensures |h'.ring| == |h.ring| - 1 && TakeAllView(h, j, h', m, m')
    ensures h'.top == h.top && h'.core == h.core && h'.alloc == h.alloc[h.ring[j] := SizeAt(h, j)]
  {
    assert BlockOk(h, m);
    if 0 <= m < |h.ring| && m != j - 1 {
      Distinct(h, m, j - 1, {});
    }
  }

  lemma TakeAllRing(h: Heap, j: int, h': Heap)
    requires RingOk(h, {}) && 0 < j < |h.ring| && h.ring[j] in h.mem && h.ring[j - 1] in h.mem && h' == TakeAll(h, j)
    ensures RingOk(h', {})
  {
    hide TakeAll;
    TakeAllViews(h, j, h', 0, 0);
    forall i
      ensures BlockOk(h', i)
    {
      var m := if i < j then i else i + 1;
      TakeAllViews(h, j, h', m, i);
      TakeAllViews(h, j, h', m + 1, i + 1);
      TakeAllViews(h, j, h', j + 1, j);
      assert BlockOk(h, m) && BlockOk(h, j);
    }
    var w: set<int> := {};
    forall a, b
      ensures Below(h', a, b, w)
    {
      var m, n := if a < j then a else a + 1, if b < j then b else b + 1;
      TakeAllViews(h, j, h', m, a);
      TakeAllViews(h, j, h', n, b);
      assert Below(h, m, n, {}) && BlockOk(h, m);
    }
  }

  lemma TakeAllAllocs(h: Heap, j: int, h': Heap)
    requires Inv(h, {}) && 0 < j < |h.ring| && h.ring[j] in h.mem && h.ring[j - 1] in h.mem && h' == TakeAll(h, j)
    ensures AllocsOk(h')
  {
    var x := h.ring[j];
    assert BlockOk(h, j) && BlockOk(h, j - 1) && BlockOk(h, 0);
    Distinct(h, j - 1, j, {});
    Distinct(h, 0, j, {});
    forall a | a in h'.alloc
      ensures AllocOk(h', a)
    {
      assert AllocOk(h, a);
      if a in h.alloc {
        NotInRing(h, a, j - 1);
      }
    }
    forall a, b | a in h'.alloc && b in h'.alloc
      ensures Apart(h', a, b)
    {
      assert Apart(h, a, b) && ApartFree(h, a, j) && ApartFree(h, b, j);
      if x in h.alloc {
        NotInRing(h, x, j);
      }
    }
    forall a, i | a in h'.alloc && 0 <= i < |h'.ring|
      ensures ApartFree(h', a, i)
    {
      var m := if i < j then i else i + 1;
      TakeAllViews(h, j, h', m, i);
      assert ApartFree(h, a, m) && Below(h, m, j, {}) && Below(h, j, m, {});
    }
  }

  lemma TakeAllCore(h: Heap, j: int, h': Heap)
    requires Inv(h, {}) && 0 < j < |h.ring| && h.ring[j] in h.mem && h.ring[j - 1] in h.mem && h' == TakeAll(h, j)
    ensures CoreOk(h')
  {
    var x := h.ring[j];
    if x in h.alloc {
      NotInRing(h, x, j);
    }
    forall u
      ensures u in h'.core <==> IsFree(h', u) || IsAlloc(h', u)
    {
      if i :| InBlock(h, i, u) {
        var m := if i < j then i else i - 1;
        TakeAllViews(h, j, h', i, m);
        assert if i == j then InAlloc(h', x, u) else InBlock(h', m, u);
      }
      if a :| InAlloc(h, a, u) {
        assert InAlloc(h', a, u);
      }
      if i :| InBlock(h', i, u) {
        var m := if i < j then i else i + 1;
        TakeAllViews(h, j, h', m, i);
        assert InBlock(h, m, u);
      }
      if a :| InAlloc(h', a, u) {
        assert if a == x then InBlock(h, j, u) else InAlloc(h, a, u);
      }
    }
  }

  lemma TakeAllKeeps(h: Heap, j: int, h': Heap)
    requires Inv(h, {}) && 0 < j < |h.ring| && h.ring[j] in h.mem && h.ring[j - 1] in h.mem && h' == TakeAll(h, j)
    ensures Inv(h', {})
  {
    hide TakeAll;
    hide RingOk;
    hide AllocsOk;
    hide CoreOk;
    TakeAllRing(h, j, h');
    TakeAllAllocs(h, j, h');
    TakeAllCore(h, j, h');
  }

  ghost predicate MayTakeTail(h: Heap, j: int, n: int) {
    0 < j < |h.ring| && h.ring[j] in h.mem && 0 < n < SizeAt(h, j) && End(h, j) - n in h.mem
  }

  /** The new header lies inside free block j, so it is no other block's. */
  lemma TailInside(h: Heap, j: int, n: int, m: int)
    requires RingOk(h, {}) && MayTakeTail(h, j, n) && 0 <= m < |h.ring|
    ensures h.ring[m] != End(h, j) - n
  {
    assert BlockOk(h, j) && BlockOk(h, m) && Below(h, m, j, {}) && Below(h, j, m, {});
  }

  lemma TailRing(h: Heap, j: int, n: int, h': Heap)
    requires RingOk(h, {}) && MayTakeTail(h, j, n) && h' == TakeTail(h, j, n)
    ensures RingOk(h', {})
  {
    forall i
      ensures BlockOk(h', i)
    {
      assert BlockOk(h, i);
      if 0 <= i < |h.ring| {
        TailInside(h, j, n, i);
        if i != j {
          Distinct(h, i, j, {});
        }
      }
    }
    var w: set<int> := {};
    forall a, b
      ensures Below(h', a, b, w)
    {
      assert Below(h, a, b, {}) && BlockOk(h, a);
      if 0 <= a < b < |h.ring| {
        TailInside(h, j, n, a);
        if a != j {
          Distinct(h, a, j, {});
        }
      }
    }
  }

  lemma TailAllocs(h: Heap, j: int, n: int, h': Heap)
    requires Inv(h, {}) && MayTakeTail(h, j, n) && h' == TakeTail(h, j, n)
    ensures AllocsOk(h')
  {
    var q := End(h, j) - n;
    assert BlockOk(h, j) && BlockOk(h, 0);
    Distinct(h, 0, j, {});
    forall a | a in h'.alloc
      ensures AllocOk(h', a)
    {
      assert AllocOk(h, a) && ApartFree(h, a, j);
    }
    forall a, b | a in h'.alloc && b in h'.alloc
      ensures Apart(h', a, b)
    {
      assert Apart(h, a, b) && ApartFree(h, a, j) && ApartFree(h, b, j) && AllocOk(h, a) && AllocOk(h, b);
    }
    forall a, i | a in h'.alloc && 0 <= i < |h'.ring|
      ensures ApartFree(h', a, i)
    {
      assert ApartFree(h, a, i) && Below(h, i, j, {}) && Below(h, j, i, {}) && BlockOk(h, i);
      TailInside(h, j, n, i);
      if i != j {
        Distinct(h, i, j, {});
      }
    }
  }

  lemma TailCore(h: Heap, j: int, n: int, h': Heap)
    requires Inv(h, {}) && MayTakeTail(h, j, n) && h' == TakeTail(h, j, n)
    ensures CoreOk(h')
  {
    var q := End(h, j) - n;
    assert ApartFree(h, q, j) && AllocOk(h, q);
    forall u
      ensures u in h'.core <==> IsFree(h', u) || IsAlloc(h', u)
    {
      if i :| InBlock(h, i, u) {
        TailInside(h, j, n, i);
        if i != j {
          Distinct(h, i, j, {});
        }
        assert InBlock(h', i, u) || InAlloc(h', q, u);
      }
      if a :| InAlloc(h, a, u) {
        assert InAlloc(h', a, u);
      }
      if i :| InBlock(h', i, u) {
        assert BlockOk(h, i);
        TailInside(h, j, n, i);
        if i != j {
          Distinct(h, i, j, {});
        }
        assert InBlock(h, i, u);
      }
      if a :| InAlloc(h', a, u) {
        assert if a == q then InBlock(h, j, u) else InAlloc(h, a, u);
      }
    }
  }

  lemma TailKeeps(h: Heap, j: int, n: int, h': Heap)
    requires Inv(h, {}) && MayTakeTail(h, j, n) && h' == TakeTail(h, j, n)
    ensures Inv(h', {})
  {
    hide TakeTail;
    hide RingOk;
    hide AllocsOk;
    hide CoreOk;
    TailRing(h, j, n, h');
    TailAllocs(h, j, n, h');
    TailCore(h, j, n, h');
  }

  // ---- Grow ------------------------------------------------------------------------------------

  /** sbrk's memory lies above everything. */
  ghost predicate MayGrow(h: Heap, a: int, n: int, more: map<int, Header>) {
    && h.top <= a && BASE < a && 0 < n && (forall u :: u in more <==> Units(a, n, u))
  }

  lemma GrowKeeps(h: Heap, a: int, n: int, more: map<int, Header>, h': Heap)
    requires Inv(h, {}) && MayGrow(h, a, n, more) && a in more && h' == Grow(h, a, n, more)
    ensures Inv(h', {})
  {
    GrowMem(h, a, n, more, h');
    forall i
      ensures BlockOk(h', i)
    {
      assert BlockOk(h, i);
    }
    var w: set<int> := {};
    forall i, j
      ensures Below(h', i, j, w)
    {
      assert Below(h, i, j, {}) && BlockOk(h, i);
    }
    GrowAllocs(h, a, n, more, h');
    GrowCore(h, a, n, more, h');
  }

  lemma GrowMem(h: Heap, a: int, n: int, more: map<int, Header>, h': Heap)
    requires Inv(h, {}) && MayGrow(h, a, n, more) && a in more && h' == Grow(h, a, n, more)
    ensures forall u :: u in h.mem && u < a ==> u in h'.mem && h'.mem[u] == h.mem[u]
    ensures forall i :: 0 <= i < |h.ring| ==> h.ring[i] < a && h.ring[i] in h.mem
    ensures forall b :: b in h.alloc ==> b < a && b in h.mem
  {
    forall i | 0 <= i < |h.ring|
      ensures h.ring[i] < a && h.ring[i] in h.mem
    {
      assert BlockOk(h, i) && BlockOk(h, 0);
    }
    forall b | b in h.alloc
      ensures b < a && b in h.mem
    {
      assert AllocOk(h, b);
    }
  }

  lemma GrowAllocs(h: Heap, a: int, n: int, more: map<int, Header>, h': Heap)
    requires Inv(h, {}) && MayGrow(h, a, n, more) && a in more && h' == Grow(h, a, n, more)
    ensures AllocsOk(h')
  {
    GrowMem(h, a, n, more, h');
    assert a !in h.alloc;
    forall b | b in h'.alloc
      ensures AllocOk(h', b)
    {
      assert AllocOk(h, b);
    }
    forall b, c | b in h'.alloc && c in h'.alloc
      ensures Apart(h', b, c)
    {
      assert Apart(h, b, c) && AllocOk(h, b) && AllocOk(h, c);
    }
    forall b, i | b in h'.alloc && 0 <= i < |h'.ring|
      ensures ApartFree(h', b, i)
    {
      assert ApartFree(h, b, i) && BlockOk(h, i);
    }
  }

  lemma GrowCore(h: Heap, a: int, n: int, more: map<int, Header>, h': Heap)
    requires Inv(h, {}) && MayGrow(h, a, n, more) && a in more && h' == Grow(h, a, n, more)
    ensures CoreOk(h')
  {
    GrowMem(h, a, n, more, h');
    assert a !in h.alloc;
    forall u
      ensures u in h'.core <==> IsFree(h', u) || IsAlloc(h', u)
    {
      if i :| InBlock(h, i, u) {
        assert InBlock(h', i, u);
      }
      if b :| InAlloc(h, b, u) {
        assert InAlloc(h', b, u);
      }
      if i :| InBlock(h', i, u) {
        assert InBlock(h, i, u);
      }
      if b :| InAlloc(h', b, u) {
        assert b != a ==> InAlloc(h, b, u);
      }
      if Units(a, n, u) {
        assert InAlloc(h', a, u);
      }
    }
  }

  // ---- Conservation ----------------------------------------------------------------------------

  ghost function FreeUnits(h: Heap): set<int> {
    set u | u in h.core && IsFree(h, u)
  }

  ghost function AllocUnits(h: Heap): set<int> {
    set u | u in h.core && IsAlloc(h, u)
  }

  /** The units obtained from sbrk are the free ones and, apart from them, those handed out. */
  lemma UnitsConserved(h: Heap)
    requires Inv(h, {})
    ensures FreeUnits(h) !! AllocUnits(h) && h.core == FreeUnits(h) + AllocUnits(h)
    ensures |h.core| == |FreeUnits(h)| + |AllocUnits(h)|
    ensures forall i, u :: InBlock(h, i, u) ==> u in FreeUnits(h)
    ensures forall a, u :: InAlloc(h, a, u) ==> u in AllocUnits(h)
  {
    forall i, u | InBlock(h, i, u)
      ensures u in FreeUnits(h)
    {
      assert IsFree(h, u);
    }
    forall a, u | InAlloc(h, a, u)
      ensures u in AllocUnits(h)
    {
      assert IsAlloc(h, u);
    }
    forall u | u in FreeUnits(h)
      ensures u !in AllocUnits(h)
    {
      var i :| InBlock(h, i, u);
      forall a
        ensures !InAlloc(h, a, u)
      {
        assert ApartFree(h, a, i);
      }
    }
  }
}
