/** log.c as an object: admission of operations, log_write, commit and recovery. */
module Logs {
  import opened Blocks
  import opened BufferCaches
  import opened CacheModel
  import opened RedoLog
  import T = LogTransfer
  import opened Wrappers

  const MAXOPBLOCKS: nat := 10

  // ---- Admission --------------------------------------------------------------------

  /** The sum of the reservations. */
  ghost function Total(m: map<nat, nat>): nat {
    if m == map[] then 0
    else
      var k :| k in m;
      m[k] + Total(m - {k})
  }

  lemma {:induction false} TotalWithout(m: map<nat, nat>, x: nat)
    requires x in m
    ensures Total(m) == m[x] + Total(m - {x})
    decreases |m|
  {
    var k :| k in m && Total(m) == m[k] + Total(m - {k});
    if k != x {
      TotalWithout(m - {k}, x);
      assert m - {k} - {x} == m - {x} - {k};
      TotalWithout(m - {x}, k);
    }
  }

  lemma TotalWith(m: map<nat, nat>, x: nat, v: nat)
    requires x !in m
    ensures Total(m[x := v]) == v + Total(m)
  {
    TotalWithout(m[x := v], x);
    assert m[x := v] - {x} == m;
  }

  lemma TotalSpend(m: map<nat, nat>, x: nat)
    requires x in m && m[x] > 0
    ensures Total(m[x := m[x] - 1]) == Total(m) - 1
  {
    var m' := m[x := m[x] - 1];
    TotalWithout(m, x);
    TotalWithout(m', x);
    assert m' - {x} == m - {x};
  }

  lemma {:induction false} TotalBound(m: map<nat, nat>, max: nat)
    requires forall k :: k in m ==> m[k] <= max
    ensures Total(m) <= |m| * max
    decreases |m|
  {
    if m != map[] {
      var k :| k in m;
      TotalWithout(m, k);
      TotalBound(m - {k}, max);
      assert |m - {k}| == |m| - 1;
      OneMoreOf(|m|, max);
    }
  }

  lemma OneMoreOf(n: nat, max: nat)
    requires n > 0
    ensures n * max == (n - 1) * max + max
  {
  }

  /** lh.n plus what outstanding operations may still log never exceeds LOGSIZE, and
      nothing is outstanding while a commit runs. */
  ghost predicate Admitted(n: nat, outstanding: nat, committing: bool, unspent: map<nat, nat>) {
    && outstanding == |unspent|
    && (forall o :: o in unspent ==> unspent[o] <= MAXOPBLOCKS)
    && n + Total(unspent) <= LOGSIZE
    && (committing ==> unspent == map[])
  }

  lemma Admit(n: nat, outstanding: nat, unspent: map<nat, nat>, op: nat)
    requires Admitted(n, outstanding, false, unspent) && op !in unspent
    requires n + (outstanding + 1) * MAXOPBLOCKS <= LOGSIZE
    ensures Admitted(n, outstanding + 1, false, unspent[op := MAXOPBLOCKS])
  {
    TotalBound(unspent, MAXOPBLOCKS);
    TotalWith(unspent, op, MAXOPBLOCKS);
  }

  lemma Finish(n: nat, outstanding: nat, unspent: map<nat, nat>, op: nat)
    requires Admitted(n, outstanding, false, unspent) && op in unspent
    ensures outstanding > 0 && Admitted(n, outstanding - 1, outstanding == 1, unspent - {op})
  {
    TotalWithout(unspent, op);
    assert |unspent - {op}| == |unspent| - 1;
  }

  /** An operation that logs a new block spends one unit of its reservation, and the
      check against LOGSIZE passes. */
  lemma Spend(n: nat, outstanding: nat, unspent: map<nat, nat>, op: nat)
    requires Admitted(n, outstanding, false, unspent) && op in unspent && unspent[op] > 0
    ensures n < LOGSIZE
    ensures Admitted(n + 1, outstanding, false, unspent[op := unspent[op] - 1])
  {
    TotalWithout(unspent, op);
    TotalSpend(unspent, op);
    assert unspent[op := unspent[op] - 1].Keys == unspent.Keys;
    assert |unspent[op := unspent[op] - 1]| == |unspent|;
  }

  // ---- The list of logged blocks -------------------------------------------------------

  /** The header lists exactly the pinned blocks; a block whose disk copy is out of date
      is listed or is still being changed by the process that has it locked. */
  ghost predicate Listed(c: Cache, L: Layout, h: seq<nat>) {
    && Legal(L, h, |c.disk|) && Clean(c.disk, L) && |c.content| == |c.disk|
    && (forall t :: 0 <= t < |h| ==> h[t] in c.slot && c.slot[h[t]] < |c.bufs| && c.bufs[c.slot[h[t]]].dirty)
    && (forall b :: b in c.slot ==> !L.Holds(b) && (Find(h, b) < |h| || c.slot[b] in c.touched))
  }

  /** log_write's scan and store. */
  function Absorb(h: seq<nat>, b: nat): seq<nat> {
    if Find(h, b) < |h| then h else h + [b]
  }

  lemma AbsorbIs(h: seq<nat>, b: nat)
    ensures Find(h, b) <= |h|
    ensures Absorb(h, b) == if Find(h, b) == |h| then h + [b] else h
  {
  }

  /** Block b is in the log, behind the blocks that were there, unless it was one of them. */
  predicate ListedOnce(h: seq<nat>, h': seq<nat>, b: nat) {
    if b in h then h' == h else |h'| == |h| + 1 && h'[..|h|] == h && h'[|h|] == b
  }

  lemma AbsorbLists(h: seq<nat>, b: nat)
    ensures ListedOnce(h, Absorb(h, b), b)
  {
  }

  lemma AbsorbDistinct(h: seq<nat>, b: nat)
    requires Distinct(h)
    ensures Distinct(Absorb(h, b))
  {
  }

  lemma AbsorbFind(h: seq<nat>, b: nat, x: nat)
    ensures Find(Absorb(h, b), x) < |Absorb(h, b)| <==> Find(h, x) < |h| || x == b
  {
    var h' := Absorb(h, b);
    assert forall t :: 0 <= t < |h| ==> h'[t] == h[t];
    assert h' != h ==> h'[|h|] == b;
  }

  lemma ListedStep(c: Cache, L: Layout, h: seq<nat>, i: nat, b: nat)
    requires Inv(c) && Listed(c, L, h) && i < |c.bufs| && c.bufs[i].valid && b == c.bufs[i].blockno
    requires !L.Holds(b)
    ensures Listed(Pin(c, i), L, Absorb(h, b)) <==> Absorb(h, b) == h || (|h| < LOGSIZE && |h| < L.size - 1)
  {
    hide Counted;
    hide Unique;
    hide Clean;
    AbsorbDistinct(h, b);
    PinnedDirty(c, L, h, i, b);
    PinnedAbsorbed(c, L, h, i, b);
    hide Inv;
    hide Find;
  }

  lemma PinnedDirty(c: Cache, L: Layout, h: seq<nat>, i: nat, b: nat)
    requires Inv(c) && Listed(c, L, h) && i < |c.bufs| && c.bufs[i].valid && b == c.bufs[i].blockno
    ensures var c', h' := Pin(c, i), Absorb(h, b);
      forall t :: 0 <= t < |h'| ==> h'[t] in c'.slot && c'.slot[h'[t]] < |c'.bufs| && c'.bufs[c'.slot[h'[t]]].dirty
  {
    hide Inv;
    hide Legal;
    hide Clean;
  }

  lemma PinnedAbsorbed(c: Cache, L: Layout, h: seq<nat>, i: nat, b: nat)
    requires Inv(c) && Listed(c, L, h) && i < |c.bufs| && c.bufs[i].valid && b == c.bufs[i].blockno && !L.Holds(b)
    ensures var c', h' := Pin(c, i), Absorb(h, b);
      forall x :: x in c'.slot ==> !L.Holds(x) && (Find(h', x) < |h'| || c'.slot[x] in c'.touched)
  {
    hide Counted;
    hide Unique;
    hide Current;
    hide Legal;
    hide Clean;
    var c', h' := Pin(c, i), Absorb(h, b);
    forall x | x in c'.slot
      ensures !L.Holds(x) && (Find(h', x) < |h'| || c'.slot[x] in c'.touched)
    {
      AbsorbFind(h, b, x);
      assert x in c.slot && x != b ==> Keeps(c, x, c.slot[x]);
    }
  }

  /** The newest values of the listed blocks. */
  ghost function Newest(content: Image, h: seq<nat>): seq<Block>
    requires forall t :: 0 <= t < |h| ==> h[t] < |content|
  {
    seq(|h|, t requires 0 <= t < |h| => content[h[t]])
  }

  lemma ListedReady(c: Cache, L: Layout, h: seq<nat>)
    requires Listed(c, L, h)
    ensures forall t :: 0 <= t < |h| ==> h[t] < |c.content|
    ensures T.Ready(c, L, h, Newest(c.content, h))
    ensures L.start < |c.content| && |c.disk| == |c.content| && |h| <= LOGSIZE
    ensures |h| == |Newest(c.content, h)| && Legal(L, h, |c.disk|)
  {
  }

  lemma StartOnDisk(c: Cache, L: Layout, h: seq<nat>)
    requires Inv(c) && Listed(c, L, h)
    ensures L.start < |c.disk| && c.content[L.start] == c.disk[L.start]
  {
    assert L.Holds(L.start);
  }

  /** From c0 to c, the disk writes were the first k of a commit of h. */
  ghost predicate CommitRun(c0: Cache, j0: seq<Write>, c: Cache, j: seq<Write>, L: Layout, h: seq<nat>, k: nat) {
    && Legal(L, h, |c0.disk|) && |c0.content| == |c0.disk|
    && T.Wrote(c0.disk, j0, c.disk, j, CommitWrites(c0.disk, L, h, Newest(c0.content, h)), k)
  }

  /** With no buffer half changed, the disk plus the transaction is the newest content. */
  lemma TransactionIsContent(c: Cache, L: Layout, h: seq<nat>, data: seq<Block>)
    requires Inv(c) && Listed(c, L, h) && c.touched == {}
    requires (forall t :: 0 <= t < |h| ==> h[t] < |c.content|) && data == Newest(c.content, h)
    ensures Legal(L, h, |c.disk|) && |h| == |data|
    ensures SameHome(Updated(c.disk, h, data), c.content, L)
  {
    forall b | 0 <= b < |c.disk| && !L.Holds(b)
      ensures Updated(c.disk, h, data)[b] == c.content[b]
    {
      CopyPrefix(c.disk, h, data, |h|, b);
    }
  }

  /** The first half of a commit is the beginning of the whole. */
  lemma FirstHalf(c0: Cache, j0: seq<Write>, c1: Cache, j1: seq<Write>, L: Layout, h: seq<nat>, data: seq<Block>,
                  k: nat)
    requires Inv(c0) && Listed(c0, L, h) && |h| == |data| <= LOGSIZE && h != [] && L.start < |c0.content|
    requires (forall t :: 0 <= t < |h| ==> h[t] < |c0.content|) && data == Newest(c0.content, h)
    requires T.Wrote(c0.disk, j0, c1.disk, j1, LogAndHead(L, h, data, c0.content[L.start]), k)
    ensures CommitRun(c0, j0, c1, j1, L, h, k)
  {
    StartOnDisk(c0, L, h);
    var head := c0.disk[L.start];
    T.WrotePart(c0.disk, j0, c1.disk, j1, LogAndHead(L, h, data, head), k,
                InstallAndClear(L, h, data, EncodeHead(head, h)));
  }

  /** The second half goes on from there. */
  lemma SecondHalf(c0: Cache, j0: seq<Write>, c1: Cache, j1: seq<Write>, c2: Cache, j2: seq<Write>,
                   L: Layout, h: seq<nat>, data: seq<Block>, k: nat)
    requires Inv(c0) && Listed(c0, L, h) && |h| == |data| <= LOGSIZE && h != []
    requires L.start < |c0.content| && L.start < |c1.content|
    requires (forall t :: 0 <= t < |h| ==> h[t] < |c0.content|) && data == Newest(c0.content, h)
    requires T.Wrote(c0.disk, j0, c1.disk, j1, LogAndHead(L, h, data, c0.content[L.start]), |h| + 1)
    requires T.Decided(c0, c1, L, h, data)
    requires T.Wrote(c1.disk, j1, c2.disk, j2, InstallAndClear(L, h, data, c1.content[L.start]), k)
    ensures CommitRun(c0, j0, c2, j2, L, h, |h| + 1 + k)
  {
    hide T.Wrote;
    hide Inv;
    StartOnDisk(c0, L, h);
    BothHalves(c0.disk, j0, c1.disk, j1, c2.disk, j2, L, h, data, k);
  }

  lemma BothHalves(d0: Image, j0: seq<Write>, d1: Image, j1: seq<Write>, d2: Image, j2: seq<Write>,
                   L: Layout, h: seq<nat>, data: seq<Block>, k: nat)
    requires |h| == |data| && Legal(L, h, |d0|) && h != []
    requires T.Wrote(d0, j0, d1, j1, LogAndHead(L, h, data, d0[L.start]), |h| + 1)
    requires T.Wrote(d1, j1, d2, j2, InstallAndClear(L, h, data, EncodeHead(d0[L.start], h)), k)
    ensures T.Wrote(d0, j0, d2, j2, CommitWrites(d0, L, h, data), |h| + 1 + k)
  {
    hide T.Wrote;
    T.WroteThen(d0, j0, d1, j1, LogAndHead(L, h, data, d0[L.start]), d2, j2,
                InstallAndClear(L, h, data, EncodeHead(d0[L.start], h)), k);
  }

  /** After a whole commit nothing is pinned, the home blocks are as before, and the log
      on disk is empty. */
  lemma CommitSettles(c0: Cache, j0: seq<Write>, c1: Cache, c2: Cache, j2: seq<Write>,
                      L: Layout, h: seq<nat>, data: seq<Block>)
    requires c0.touched == {} && Listed(c0, L, h) && h != [] && |c2.content| == |c2.disk|
    requires T.Decided(c0, c1, L, h, data) && T.Settled(c1, c2, L, h, data)
    requires CommitRun(c0, j0, c2, j2, L, h, 2 * |h| + 2)
    ensures Listed(c2, L, []) && c2.slot == map[] && SameHome(c0.content, c2.content, L)
  {
    hide *;
    NothingPinned(c0, c1, c2, L, h, data);
    LogEmptied(c0, j0, c2, j2, L, h);
    EmptyListed(c2, L);
  }

  lemma NothingPinned(c0: Cache, c1: Cache, c2: Cache, L: Layout, h: seq<nat>, data: seq<Block>)
    requires Listed(c0, L, h) && c0.touched == {}
    requires T.Decided(c0, c1, L, h, data) && T.Settled(c1, c2, L, h, data)
    ensures c2.slot == map[] && SameHome(c0.content, c2.content, L)
  {
    assert forall b :: b in c2.slot ==> b in c0.slot;
    assert c2.slot == map[];
  }

  lemma LogEmptied(c0: Cache, j0: seq<Write>, c2: Cache, j2: seq<Write>, L: Layout, h: seq<nat>)
    requires Listed(c0, L, h) && h != [] && CommitRun(c0, j0, c2, j2, L, h, 2 * |h| + 2)
    ensures Clean(c2.disk, L)
  {
    CrashedCommit(c0.disk, L, h, Newest(c0.content, h), 2 * |h| + 2);
  }

  lemma EmptyListed(c: Cache, L: Layout)
    requires c.slot == map[] && Clean(c.disk, L) && |c.content| == |c.disk|
    ensures Listed(c, L, [])
  {
  }

  lemma NothingLogged(c: Cache, j: seq<Write>, L: Layout)
    requires c.touched == {} && Listed(c, L, [])
    ensures c.slot == map[] && CommitRun(c, j, c, j, L, [], 0)
  {
  }

  lemma DecidedInstallable(c0: Cache, c1: Cache, L: Layout, h: seq<nat>, data: seq<Block>)
    requires T.Decided(c0, c1, L, h, data)
    ensures T.Installable(c1, L, h, data) && L.start < |c1.content|
  {
  }

  /** What a reboot starts from: an empty cache over a disk with a well-formed log. */
  lemma BootInstallable(c: Cache, L: Layout, h: seq<nat>, data: seq<Block>)
    requires Inv(c) && c.slot == map[] && Recoverable(c.disk, L)
    requires h == DecodeHead(c.disk[L.start]) && data == Logged(c.disk, L, |h|)
    ensures T.Installable(c, L, h, data) && L.start < |c.content|
    ensures InstallAndClear(L, h, data, c.content[L.start]) == RecoverWrites(c.disk, L)
  {
    assert c.content == c.disk;
  }

  /** The disk after a completed recovery, and the cache with it. */
  lemma BootSettles(c: Cache, j: seq<Write>, c': Cache, j': seq<Write>, L: Layout, h: seq<nat>, data: seq<Block>)
    requires c.slot == map[] && Recoverable(c.disk, L) && |c'.content| == |c'.disk|
    requires h == DecodeHead(c.disk[L.start]) && data == Logged(c.disk, L, |h|)
    requires T.Wrote(c.disk, j, c'.disk, j', RecoverWrites(c.disk, L), |h| + 1)
    requires T.Settled(c, c', L, h, data)
    ensures Listed(c', L, []) && c'.disk == Recovered(c.disk, L) && c'.slot == map[]
  {
    hide *;
    NothingLeft(c, c', L, h, data);
    RecoveredDisk(c.disk, j, c'.disk, j', L, h);
    EmptyListed(c', L);
  }

  lemma NothingLeft(c: Cache, c': Cache, L: Layout, h: seq<nat>, data: seq<Block>)
    requires c.slot == map[] && T.Settled(c, c', L, h, data)
    ensures c'.slot == map[]
  {
    assert forall b :: b !in c'.slot;
  }

  lemma RecoveredDisk(d: Image, j: seq<Write>, d': Image, j': seq<Write>, L: Layout, h: seq<nat>)
    requires Recoverable(d, L) && h == DecodeHead(d[L.start])
    requires T.Wrote(d, j, d', j', RecoverWrites(d, L), |h| + 1)
    ensures d' == Recovered(d, L) && Clean(d', L)
  {
  }

  /** Only outstanding operations have buffers that are half changed. */
  ghost predicate Edited(c: Cache, unspent: map<nat, nat>, editor: map<nat, nat>) {
    forall i :: i in c.touched ==> i in editor && editor[i] in unspent
  }

  lemma EditedPin(c: Cache, i: nat, m: map<nat, nat>, m': map<nat, nat>, editor: map<nat, nat>)
    requires i < |c.bufs| && Edited(c, m, editor) && forall o :: o in m ==> o in m'
    ensures Edited(Pin(c, i), m', editor)
  {
  }

  lemma EditedMore(c: Cache, i: nat, data: Block, m: map<nat, nat>, editor: map<nat, nat>, op: nat)
    requires Edited(c, m, editor) && op in m && i < |c.bufs| && c.bufs[i].blockno < |c.content|
    ensures Edited(Modify(c, i, data), m, editor[i := op])
  {
  }

  /** A block that is being changed is listed, or out of date on disk because of that. */
  lemma ListedEdit(c: Cache, L: Layout, h: seq<nat>, i: nat, data: Block)
    requires Inv(c) && Listed(c, L, h) && i < |c.bufs| && c.bufs[i].valid && !L.Holds(c.bufs[i].blockno)
    ensures c.bufs[i].blockno < |c.content| && Listed(Modify(c, i, data), L, h)
  {
    var c' := Modify(c, i, data);
    forall t | 0 <= t < |h|
      ensures h[t] in c'.slot && c'.slot[h[t]] < |c'.bufs| && c'.bufs[c'.slot[h[t]]].dirty
    {
      assert h[t] in c.slot && Keeps(c, h[t], c.slot[h[t]]);
    }
    forall b | b in c'.slot
      ensures !L.Holds(b) && (Find(h, b) < |h| || c'.slot[b] in c'.touched)
    {
      assert b in c.slot ==> !L.Holds(b);
    }
  }

  lemma ListedTidy(c: Cache, L: Layout, h: seq<nat>)
    requires Listed(c, L, h) && c.touched == {} && T.LogUnused(c, L)
    ensures T.Tidy(c, L, h, 0)
    ensures T.SomeIdle(c.bufs) ==> T.Roomy(c, L, h, 0, false)
  {
  }

  lemma RoomyUntouched(c: Cache, L: Layout, h: seq<nat>, k: int)
    requires T.Roomy(c, L, h, k, false)
    ensures c.touched == {}
  {
  }

  // ---- Room for a commit ------------------------------------------------------------------

  /** The buffers of the listed blocks. */
  ghost function Slots(c: Cache, h: seq<nat>): seq<nat>
    requires forall t :: 0 <= t < |h| ==> h[t] in c.slot
  {
    seq(|h|, t requires 0 <= t < |h| => c.slot[h[t]])
  }

  lemma SlotsDistinct(c: Cache, h: seq<nat>)
    requires Inv(c) && Distinct(h) && forall t :: 0 <= t < |h| ==> h[t] in c.slot
    ensures Distinct(Slots(c, h)) && forall t :: 0 <= t < |h| ==> Slots(c, h)[t] < |c.bufs|
  {
    assert forall t :: 0 <= t < |h| ==> Keeps(c, h[t], c.slot[h[t]]);
  }

  lemma {:induction false} ElementsCounted(s: seq<nat>, k: nat, r: set<nat>)
    requires Distinct(s) && k <= |s| && r == set t | 0 <= t < k :: s[t]
    ensures |r| == k
  {
    if k > 0 {
      var r' := set t | 0 <= t < k - 1 :: s[t];
      ElementsCounted(s, k - 1, r');
      assert r == r' + {s[k - 1]};
    }
  }

  /** Distinct numbers below n: at most n of them, and n of them only if they are all. */
  lemma DistinctBelow(s: seq<nat>, n: nat)
    requires Distinct(s) && forall t :: 0 <= t < |s| ==> s[t] < n
    ensures |s| <= n
    ensures |s| < n <==> exists i :: 0 <= i < n && i !in s
  {
    var r, all := set t | 0 <= t < |s| :: s[t], Below(n);
    ElementsCounted(s, |s|, r);
    Cardinality(r, all);
    assert forall i :: i in r <==> i in s;
    if forall i :: 0 <= i < n ==> i in s {
      assert r == all;
    }
  }

  ghost function Below(n: nat): (r: set<nat>)
    ensures |r| == n && forall i :: i in r <==> 0 <= i < n
  {
    if n == 0 then {} else Below(n - 1) + {n - 1}
  }

  /** With nothing half changed, the pinned buffers are those of the listed blocks. */
  lemma PinnedListed(c: Cache, L: Layout, h: seq<nat>, i: nat)
    requires Inv(c) && Listed(c, L, h) && c.touched == {} && i < |c.bufs| && c.refs[i] == {}
    ensures c.bufs[i].Recyclable() <==> i !in Slots(c, h)
  {
    if c.bufs[i].dirty {
      var b := c.bufs[i].blockno;
      assert b in c.slot && Keeps(c, b, c.slot[b]);
      assert Slots(c, h)[Find(h, b)] == i;
    }
  }

  /** While nobody uses a buffer, a commit finds none idle exactly when every buffer is pinned by a
      listed block. NBUF is LOGSIZE, so a full list does that, and Commit then panics. */
  lemma FullCacheStuck(c: Cache, L: Layout, h: seq<nat>)
    requires Inv(c) && Listed(c, L, h) && c.touched == {} && |c.refs| == |c.bufs|
    requires forall i :: 0 <= i < |c.bufs| ==> c.refs[i] == {}
    ensures |h| <= |c.bufs|
    ensures T.SomeIdle(c.bufs) <==> |h| < |c.bufs|
  {
    hide Inv;
    SlotsDistinct(c, h);
    DistinctBelow(Slots(c, h), |c.bufs|);
    forall i: nat | i < |c.bufs|
      ensures c.bufs[i].Recyclable() <==> i !in Slots(c, h)
    {
      PinnedListed(c, L, h, i);
    }
  }

  lemma {:induction false} Cardinality(a: set<nat>, b: set<nat>)
    requires a <= b
    ensures |a| <= |b| && (|a| == |b| ==> a == b)
    decreases a
  {
    if a != {} {
      var x :| x in a;
      Cardinality(a - {x}, b - {x});
    } else {
      assert |b| == 0 ==> b == {};
    }
  }

  /** On the disk that mkfs makes, the log has no more blocks than there are buffers, one of them
      for its header: a commit that nobody disturbs completes, unless two log_writes at once have
      made the list as long as the log. */
  lemma SmallLogLeavesRoom(c: Cache, L: Layout, h: seq<nat>)
    requires Inv(c) && Listed(c, L, h) && c.touched == {} && L.size <= |c.bufs|
    requires |c.refs| == |c.bufs| && forall i :: 0 <= i < |c.bufs| ==> c.refs[i] == {}
    ensures T.SomeIdle(c.bufs)
  {
    FullCacheStuck(c, L, h);
  }

  // ---- Booting ------------------------------------------------------------------------

  lemma BootContent(c: Cache)
    requires Inv(c) && c.slot == map[]
    ensures c.content == c.disk
  {
  }

  lemma IdleFree(c: Cache, pid: nat)
    requires Inv(c) && T.AllIdle(c.bufs)
    ensures forall i :: 0 <= i < |c.bufs| ==> Free(c, pid, i) && c.refs[i] == {}
  {
    forall i | 0 <= i < |c.bufs|
      ensures Free(c, pid, i) && c.refs[i] == {}
    {
      assert c.bufs[i].Recyclable();
    }
  }

  lemma ReadOnly(c: Cache, c': Cache, pid: nat, i: nat, b: nat)
    requires Inv(c) && Inv(c') && T.AllIdle(c.bufs) && Taken(c, c', pid, i, b) && pid != 0
    ensures i !in c'.touched
  {
    IdleFree(c, pid);
    T.NotTouched(c, c', pid, i, b);
  }

  lemma IdleAgain(c: Cache, c1: Cache, c': Cache, pid: nat, i: nat, b: nat)
    requires Inv(c) && Inv(c') && T.AllIdle(c.bufs) && Taken(c, c1, pid, i, b) && Left(c1, c', pid, i)
    ensures T.AllIdle(c'.bufs) && T.SameView(c, c') && |c'.bufs| == |c.bufs|
  {
    IdleFree(c, pid);
    assert c'.refs[i] == {};
    forall k | 0 <= k < |c'.bufs|
      ensures c'.bufs[k].Recyclable()
    {
      assert c.bufs[k].Recyclable();
    }
  }

  lemma TakenAt(c: Cache, c': Cache, pid: nat, i: nat, b: nat)
    requires Taken(c, c', pid, i, b)
    ensures i < |c'.bufs| && c'.bufs[i].holder == pid && c'.content == c.content
  {
  }

  lemma SameViewRefl(c: Cache)
    ensures T.SameView(c, c)
  {
  }

  /** Where all buffers are idle, none is only if there are none. */
  lemma SomeBuffer(bufs: seq<Buf>)
    requires T.AllIdle(bufs)
    ensures NoneIdle(bufs) <==> |bufs| == 0
    ensures |bufs| == 0 ==> forall b :: Absent(bufs, DISK_DEV, b)
  {
    assert |bufs| > 0 ==> bufs[0].Recyclable();
  }

  lemma IdleCalm(c: Cache, pid: nat, L: Layout, h: seq<nat>)
    requires Inv(c) && T.AllIdle(c.bufs)
    ensures T.Calm(c, pid, L, h)
  {
    IdleFree(c, pid);
  }

  lemma BootRoom(c: Cache, L: Layout, h: seq<nat>)
    requires T.AllIdle(c.bufs)
    ensures T.Roomy(c, L, h, 0, true) <==> |c.bufs| >= 2
    ensures T.SomeIdle(c.bufs) <==> |c.bufs| >= 1
  {
    assert |c.bufs| > 0 ==> c.bufs[0].Recyclable();
  }

  lemma ViewIs(c: Cache, c': Cache)
    requires T.SameView(c, c')
    ensures c'.disk == c.disk && c'.content == c.content && c'.slot == c.slot
  {
  }

  lemma EmptyIs(h: seq<nat>)
    ensures h == [] <==> |h| == 0
  {
  }

  lemma BootUntouched(c: Cache, c': Cache, L: Layout, h: seq<nat>, data: seq<Block>)
    requires Inv(c) && T.AllIdle(c.bufs) && T.Settled(c, c', L, h, data)
    ensures c'.touched == {}
  {
    assert forall i :: i in c.touched ==> c.bufs[i].Recyclable();
    assert forall i :: i !in c.touched;
  }

  lemma NothingYet(c: Cache, c': Cache, j: seq<Write>, L: Layout)
    requires Recoverable(c.disk, L) && T.SameView(c, c')
    ensures T.Wrote(c.disk, j, c'.disk, j, RecoverWrites(c.disk, L), 0)
  {
  }

  class Log {
    const cache: BufferCache
    /** log.start, log.size */
    const layout: Layout
    /** lh.block[0..lh.n] */
    var hdr: seq<nat>
    var outstanding: nat
    var committing: bool
    /** What each outstanding operation may still log. */
    ghost var unspent: map<nat, nat>
    /** The operation that last changed each buffer. */
    ghost var editor: map<nat, nat>

    ghost predicate Valid()
      reads this, cache, cache.ring
    {
      && cache.Valid()
      && Listed(cache.model, layout, hdr)
      && Admitted(|hdr|, outstanding, committing, unspent)
      && Edited(cache.model, unspent, editor)
    }

    /** initlog, up to recover_from_log. */
    constructor (cache: BufferCache, layout: Layout)
      ensures this.cache == cache && this.layout == layout && hdr == [] && outstanding == 0
      ensures !committing && unspent == map[]
    {
      this.cache, this.layout := cache, layout;
      hdr, outstanding, committing, unspent, editor := [], 0, false, map[], map[];
    }

    lemma Parts()
      requires Valid()
      ensures cache.Valid() && Inv(cache.model) && Listed(cache.model, layout, hdr)
      ensures Admitted(|hdr|, outstanding, committing, unspent) && Edited(cache.model, unspent, editor)
    {
    }

    lemma Whole()
      requires cache.Valid() && Listed(cache.model, layout, hdr) && hdr == []
      requires outstanding == 0 && unspent == map[] && cache.model.touched == {}
      ensures Valid()
    {
    }

    lemma Sizes()
      requires cache.Valid()
      ensures |cache.model.content| == |cache.model.disk| && cache.model.disk == cache.disk
      ensures cache.model.bufs == cache.bufs
    {
    }

    /** One turn of begin_op's loop; false is sleep(&log, &log.lock). */
    method BeginOp(ghost op: nat) returns (admitted: bool)
      requires Valid() && op !in unspent
      modifies this`outstanding, this`unspent
      ensures Valid()
      ensures admitted <==> !committing && |hdr| + (old(outstanding) + 1) * MAXOPBLOCKS <= LOGSIZE
      ensures unspent == if admitted then old(unspent)[op := MAXOPBLOCKS] else old(unspent)
    {
      if committing {
        return false;
      }
      if |hdr| + (outstanding + 1) * MAXOPBLOCKS > LOGSIZE {
        return false;
      }
      Admit(|hdr|, outstanding, unspent, op);
      outstanding := outstanding + 1;
      unspent := unspent[op := MAXOPBLOCKS];
      return true;
    }

    /** The locked part of end_op, by an operation that has logged what it changed. The panic
        "log.committing" cannot happen, and the last operation out is the one that commits. */
    method EndOp(ghost op: nat) returns (doCommit: bool)
      requires Valid() && op in unspent
      requires forall i :: i in cache.model.touched && i in editor ==> editor[i] != op
      modifies this`outstanding, this`unspent, this`committing
      ensures Valid() && !old(committing)
      ensures unspent == old(unspent) - {op}
      ensures doCommit == committing && (committing <==> unspent == map[])
    {
      assert !committing;
      Finish(|hdr|, outstanding, unspent, op);
      outstanding := outstanding - 1;
      unspent := unspent - {op};
      doCommit := false;
      if outstanding == 0 {
        doCommit := true;
        committing := true;
      }
    }

    /** The end of end_op, after commit. */
    method FinishCommit()
      requires Valid() && committing
      modifies this`committing
      ensures Valid() && !committing
    {
      committing := false;
    }

    /** An operation changes the data of a buffer that it holds. */
    method Edit(pid: nat, i: nat, data: Block, ghost op: nat)
      requires Valid() && op in unspent
      requires i < |cache.bufs| && cache.bufs[i].holder == pid != 0 && cache.bufs[i].valid
      requires !layout.Holds(cache.bufs[i].blockno)
      modifies this`editor, cache`bufs, cache`model
      ensures Valid() && cache.model.bufs == cache.bufs
      ensures old(cache.bufs)[i].blockno < |old(cache.model).content|
      ensures cache.model == Modify(old(cache.model), i, data)
      ensures editor == old(editor)[i := op]
    {
      hide *;
      Parts();
      Sizes();
      ListedEdit(cache.model, layout, hdr, i, data);
      EditedMore(cache.model, i, data, unspent, editor, op);
      cache.Store(pid, i, data);
      editor := editor[i := op];
      Sizes();
      Assemble();
    }

    /** The tests at the top of log_write, made without log.lock; true is one of its panics. An
        operation with part of its reservation left does not fail them as long as the log has more
        than LOGSIZE blocks. */
    method LogTest(ghost op: nat) returns (panicked: bool)
      requires Valid() && op in unspent
      ensures panicked <==> |hdr| >= LOGSIZE || |hdr| >= layout.size - 1
      ensures panicked && unspent[op] > 0 ==> layout.size <= LOGSIZE
    {
      if unspent[op] > 0 {
        NotCommitting(op);
        Spend(|hdr|, outstanding, unspent, op);
      }
      panicked := |hdr| >= LOGSIZE || |hdr| >= layout.size - 1 || outstanding < 1;
    }

    /** The part of log_write under log.lock. Other processes may have logged blocks since the test:
        the list stays one that a commit can write if and only if the block was listed or there is
        still room. An operation within its reservation always has it on a log of more than LOGSIZE
        blocks. */
    method LogAppend(pid: nat, i: nat, ghost op: nat)
      requires Valid() && op in unspent
      requires i < |cache.bufs| && cache.bufs[i].holder == pid != 0 && cache.bufs[i].valid
      requires !layout.Holds(cache.bufs[i].blockno)
      modifies this`hdr, this`unspent, cache`bufs, cache`model
      ensures cache.Valid() && cache.model == Pin(old(cache.model), i)
      ensures hdr == Absorb(old(hdr), old(cache.bufs[i].blockno))
      ensures ListedOnce(old(hdr), hdr, old(cache.bufs[i].blockno))
      ensures OnlyBuf(old(cache.bufs), cache.bufs, i)
      ensures i < |cache.bufs| && cache.bufs[i] == old(cache.bufs)[i].(dirty := true)
      ensures cache.model.content == old(cache.model).content && i !in cache.model.touched
      ensures unspent == if hdr == old(hdr) || old(unspent)[op] == 0 then old(unspent)
                         else old(unspent)[op := old(unspent)[op] - 1]
      ensures Listed(cache.model, layout, hdr) <==>
                hdr == old(hdr) || (|old(hdr)| < LOGSIZE && |old(hdr)| < layout.size - 1)
      ensures old(unspent)[op] > 0 || hdr == old(hdr) ==>
                (Valid() <==> hdr == old(hdr) || |old(hdr)| < layout.size - 1)
    {
      hide *;
      Parts();
      NotCommitting(op);
      if unspent[op] > 0 {
        Spend(|hdr|, outstanding, unspent, op);
      }
      var b := cache.bufs[i].blockno;
      Sizes();
      ListedStep(cache.model, layout, hdr, i, b);
      AbsorbIs(hdr, b);
      AbsorbLists(hdr, b);
      var k := Scan(b);
      if k == |hdr| {
        hdr := hdr + [b];
        if unspent[op] > 0 {
          unspent := unspent[op := unspent[op] - 1];
        }
      }
      EditedPin(cache.model, i, old(unspent), unspent, editor);
      cache.SetDirty(pid, i);
      if Listed(cache.model, layout, hdr) {
        if old(unspent)[op] > 0 || hdr == old(hdr) {
          Assemble();
        }
      } else {
        NotAssembled();
      }
    }

    /** log_write with nobody in between; true is one of its panics. */
    method LogWrite(pid: nat, i: nat, ghost op: nat) returns (panicked: bool)
      requires Valid() && op in unspent
      requires i < |cache.bufs| && cache.bufs[i].holder == pid != 0 && cache.bufs[i].valid
      requires !layout.Holds(cache.bufs[i].blockno)
      modifies this`hdr, this`unspent, cache`bufs, cache`model
      ensures !panicked ==> cache.Valid() && Listed(cache.model, layout, hdr)
      ensures !panicked && (old(unspent)[op] > 0 || hdr == old(hdr)) ==> Valid()
      ensures panicked <==> |old(hdr)| >= LOGSIZE || |old(hdr)| >= layout.size - 1
      ensures panicked && old(unspent)[op] > 0 ==> layout.size <= LOGSIZE
      ensures !panicked ==> cache.model == Pin(old(cache.model), i)
      ensures !panicked ==> hdr == Absorb(old(hdr), old(cache.bufs[i].blockno))
      ensures !panicked ==> ListedOnce(old(hdr), hdr, old(cache.bufs[i].blockno))
      ensures !panicked ==> OnlyBuf(old(cache.bufs), cache.bufs, i)
      ensures !panicked ==> i < |cache.bufs| && cache.bufs[i] == old(cache.bufs)[i].(dirty := true)
      ensures !panicked ==> cache.model.content == old(cache.model).content && i !in cache.model.touched
      ensures !panicked ==> unspent == if hdr == old(hdr) || old(unspent)[op] == 0 then old(unspent)
                                      else old(unspent)[op := old(unspent)[op] - 1]
    {
      hide *;
      panicked := LogTest(op);
      if !panicked {
        LogAppend(pid, i, op);
      }
    }

    /** log_write's loop over lh.block. */
    method Scan(b: nat) returns (k: nat)
      ensures k == Find(hdr, b)
    {
      k := 0;
      while k < |hdr| && hdr[k] != b
        invariant k <= |hdr| && FindFrom(hdr, b, 0) == FindFrom(hdr, b, k)
      {
        k := k + 1;
      }
    }

    lemma NotCommitting(op: nat)
      requires Valid() && op in unspent
      ensures !committing && outstanding >= 1
    {
    }

    lemma Assemble()
      requires cache.Valid() && Listed(cache.model, layout, hdr) && Edited(cache.model, unspent, editor)
      requires Admitted(|hdr|, outstanding, committing, unspent)
      ensures Valid()
    {
    }

    lemma NotAssembled()
      requires !Listed(cache.model, layout, hdr)
      ensures !Valid()
    {
    }

    /** commit, while readers may use other buffers. Its disk writes are those of CommitWrites for
        the newest values of the listed blocks. It completes if and only if a buffer is idle;
        otherwise bget panics before the first write. */
    method Commit(pid: nat) returns (ok: bool, ghost done: nat)
      requires Valid() && committing && pid != 0
      requires T.Calm(cache.model, pid, layout, hdr) && T.LogUnused(cache.model, layout)
      modifies this`hdr, cache, cache.ring
      ensures ok ==> Valid() && hdr == [] && cache.model.slot == map[] && T.Calm(cache.model, pid, layout, old(hdr))
      ensures ok ==> SameHome(old(cache.model).content, cache.model.content, layout)
      ensures CommitRun(old(cache.model), old(cache.journal), cache.model, cache.journal, layout, old(hdr), done)
      ensures ok <==> old(hdr) == [] || T.SomeIdle(old(cache.model).bufs)
      ensures done == if ok && old(hdr) != [] then 2 * |old(hdr)| + 2 else 0
    {
      hide *;
      ghost var c0, j0 := cache.model, cache.journal;
      Parts();
      NoneOutstanding();
      if |hdr| == 0 {
        NothingLogged(c0, j0, layout);
        SameHomeRefl(c0.content, layout);
        return true, 0;
      }
      ListedReady(c0, layout, hdr);
      ListedTidy(c0, layout, hdr);
      T.IdleOrNot(c0.bufs);
      ghost var data := Newest(c0.content, hdr);
      ok, done := T.LogAndDecide(cache, pid, layout, hdr, data);
      ghost var c1, j1 := cache.model, cache.journal;
      FirstHalf(c0, j0, c1, j1, layout, hdr, data, done);
      if !ok {
        return;
      }
      DecidedInstallable(c0, c1, layout, hdr, data);
      ghost var more;
      ok, more := T.InstallAndErase(cache, pid, layout, hdr, data, false);
      SecondHalf(c0, j0, c1, j1, cache.model, cache.journal, layout, hdr, data, more);
      done := |hdr| + 1 + more;
      Sizes();
      T.DiskIs(cache);
      RoomyUntouched(cache.model, layout, hdr, |hdr|);
      CommitSettles(c0, j0, c1, cache.model, cache.journal, layout, hdr, data);
      hdr := [];
      Whole();
    }

    /** While a commit runs no operation is outstanding, so no buffer is half changed. */
    lemma NoneOutstanding()
      requires Valid() && committing
      ensures outstanding == 0 && unspent == map[] && cache.model.touched == {}
    {
      assert forall i :: i !in cache.model.touched;
    }

    /** read_head: the loop over lh->block. */
    method ReadHead(head: Block) returns (h: seq<nat>)
      requires HeadFits(head)
      ensures h == DecodeHead(head)
    {
      var n := WordAt(head, 0);
      h := [];
      for i := 0 to n
        invariant |h| == i && forall k :: 0 <= k < i ==> h[k] == WordAt(head, 1 + k)
      {
        h := h + [WordAt(head, 1 + i)];
      }
    }

    /** read_head: the header block through the cache, and the loop. None is bget's panic. */
    method LoadHead(pid: nat) returns (h: Option<seq<nat>>)
      requires cache.Valid() && pid != 0 && T.AllIdle(cache.model.bufs) && layout.start < |cache.model.disk|
      requires HeadFits(cache.model.content[layout.start])
      modifies cache, cache.ring
      ensures cache.Valid() && T.SameView(old(cache.model), cache.model) && cache.journal == old(cache.journal)
      ensures T.AllIdle(cache.model.bufs) && |cache.model.bufs| == |old(cache.model).bufs|
      ensures h.Some? <==> |cache.model.bufs| > 0
      ensures h.Some? ==> h.value == DecodeHead(old(cache.model).content[layout.start])
    {
      hide *;
      ghost var c0 := cache.model;
      Sizes();
      BootValid();
      IdleFree(c0, pid);
      SomeBuffer(c0.bufs);
      var r := cache.Bread(pid, layout.start);
      Sizes();
      BootValid();
      if r.None? {
        SameViewRefl(c0);
        return None;
      }
      ghost var c1 := cache.model;
      ReadOnly(c0, c1, pid, r.value, layout.start);
      TakenAt(c0, c1, pid, r.value, layout.start);
      var list := ReadHead(cache.bufs[r.value].data);
      cache.Brelse(pid, r.value);
      BootValid();
      IdleAgain(c0, c1, cache.model, pid, r.value, layout.start);
      return Some(list);
    }

    /** recover_from_log on a freshly booted machine: its disk writes are those of RecoverWrites,
        and the log is ready for use. It completes if and only if there are buffers for it, one,
        or two if there is something to install; otherwise it stops before the first write. */
    method RecoverFromLog(pid: nat) returns (ok: bool, ghost done: nat)
      requires cache.Valid() && pid != 0 && T.AllIdle(cache.model.bufs) && cache.model.slot == map[]
      requires Recoverable(cache.model.disk, layout)
      requires hdr == [] && outstanding == 0 && unspent == map[] && !committing
      modifies this`hdr, cache, cache.ring
      ensures ok ==> Valid() && hdr == [] && cache.model.slot == map[]
      ensures ok ==> cache.model.disk == Recovered(old(cache.model).disk, layout)
      ensures T.Wrote(old(cache.model).disk, old(cache.journal), cache.model.disk, cache.journal,
                      RecoverWrites(old(cache.model).disk, layout), done)
      ensures layout.start < |old(cache.model).disk|
      ensures ok <==> |old(cache.model).bufs| >=
                      if DecodeHead(old(cache.model).disk[layout.start]) == [] then 1 else 2
      ensures !ok ==> done == 0
    {
      hide *;
      ghost var c0, j0 := cache.model, cache.journal;
      Sizes();
      BootValid();
      StartReadable(c0, layout);
      BootContent(c0);
      var h := LoadHead(pid);
      ghost var c1 := cache.model;
      BootValid();
      if h.None? {
        NothingYet(c0, c1, j0, layout);
        return false, 0;
      }
      ViewIs(c0, c1);
      hdr := h.value;
      ghost var data := Logged(c0.disk, layout, |hdr|);
      BootInstallable(c1, layout, hdr, data);
      IdleCalm(c1, pid, layout, hdr);
      BootRoom(c1, layout, hdr);
      ok, done := T.InstallAndErase(cache, pid, layout, hdr, data, true);
      EmptyIs(hdr);
      if ok {
        Sizes();
        BootValid();
        BootSettles(c1, j0, cache.model, cache.journal, layout, hdr, data);
        BootUntouched(c1, cache.model, layout, hdr, data);
        hdr := [];
        Whole();
      }
    }

    lemma BootValid()
      requires cache.Valid()
      ensures Inv(cache.model)
    {
    }
  }

  lemma SameHomeRefl(d: Image, L: Layout)
    ensures SameHome(d, d, L)
  {
  }

  lemma StartReadable(c: Cache, L: Layout)
    requires Recoverable(c.disk, L)
    ensures L.start < |c.disk| && HeadFits(c.disk[L.start])
    ensures L.start + 1 + |DecodeHead(c.disk[L.start])| <= |c.disk|
  {
  }

  /** Crash safety of the running system: cut a commit's writes anywhere, crash recovery
      as often as you like, and let it complete. The home blocks are the ones the commit
      found on disk, or, from the header write on, the newest content of the cache. */
  lemma CommitCrashSafe(c: Cache, L: Layout, h: seq<nat>, data: seq<Block>, k: nat, ks: seq<nat>)
    requires Inv(c) && c.touched == {} && Listed(c, L, h)
    requires (forall t :: 0 <= t < |h| ==> h[t] < |c.content|) && data == Newest(c.content, h)
    requires |h| == |data| && Legal(L, h, |c.disk|) && k <= |CommitWrites(c.disk, L, h, data)|
    ensures var crashed := Apply(c.disk, CommitWrites(c.disk, L, h, data), k);
      && Recoverable(crashed, L)
      && SameHome(Recovered(CrashedRecoveries(crashed, L, ks), L),
                  if k > |h| then c.content else c.disk, L)
  {
    hide Inv;
    TransactionIsContent(c, L, h, data);
    CrashAtomicity(c.disk, L, h, data, k, ks);
  }
}
