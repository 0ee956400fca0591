/** write_log, write_head and install_trans of log.c, run through the buffer cache, and
    the disk writes each of them makes. A panic in bget stops them half way, which the
    disk cannot tell from a crash. */
module LogTransfer {
  import opened Blocks
  import opened BufferCaches
  import opened CacheModel
  import opened RedoLog
  import opened Wrappers

  // ---- Copying one block through the cache ------------------------------------

  /** The buffer holds a block of the log or one that h lists. */
  predicate Needed(b: Buf, L: Layout, h: seq<nat>) {
    b.dev == DISK_DEV && (L.Holds(b.blockno) || Find(h, b.blockno) < |h|)
  }

  /** Of the buffers that a commit of h needs, apart from x and y, nobody has the lock and pid
      has no reference. Other buffers may be in use. */
  ghost predicate CalmBut(c: Cache, pid: nat, L: Layout, h: seq<nat>, x: int, y: int) {
    && |c.refs| == |c.bufs|
    && forall i :: 0 <= i < |c.bufs| && i != x && i != y && Needed(c.bufs[i], L, h) ==> Free(c, pid, i)
  }

  ghost predicate Calm(c: Cache, pid: nat, L: Layout, h: seq<nat>) {
    CalmBut(c, pid, L, h, -1, -1)
  }

  /** pid has buffer i, holding block b, and has not changed it. */
  ghost predicate Holds(c: Cache, pid: nat, i: nat, b: nat) {
    && i < |c.bufs| && c.bufs[i].Is(DISK_DEV, b) && c.bufs[i].valid && c.bufs[i].holder == pid
    && i !in c.touched && c.bufs[i].refcnt > 0
  }

  /** The same block map, disk and pins. */
  ghost predicate SameView(c: Cache, c': Cache) {
    c'.disk == c.disk && c'.content == c.content && c'.slot == c.slot && c'.touched == c.touched
  }

  /** A buffer that bread gives to somebody who found it free has not been changed. */
  lemma NotTouched(c: Cache, c': Cache, pid: nat, i: nat, b: nat)
    requires Inv(c) && Inv(c') && Taken(c, c', pid, i, b) && pid != 0
    requires c.bufs[i].Is(DISK_DEV, b) ==> Free(c, pid, i)
    ensures i !in c.touched && Holds(c', pid, i, b)
  {
    assert c.refs[i] == {} || c.bufs[i].Is(DISK_DEV, b);
    assert c'.refs[i] != {};
  }

  lemma FirstTaken(c: Cache, c': Cache, pid: nat, L: Layout, h: seq<nat>, i: nat, a: nat)
    requires Inv(c) && Inv(c') && Calm(c, pid, L, h) && Taken(c, c', pid, i, a) && pid != 0
    requires L.Holds(a) || Find(h, a) < |h|
    ensures CalmBut(c', pid, L, h, i, i) && Holds(c', pid, i, a) && SameView(c, c')
  {
    NotTouched(c, c', pid, i, a);
    hide Inv;
    forall k | 0 <= k < |c.bufs| && k != i && Needed(c'.bufs[k], L, h)
      ensures Free(c', pid, k)
    {
      assert Free(c, pid, k);
    }
  }

  lemma SecondTaken(c: Cache, c': Cache, pid: nat, L: Layout, h: seq<nat>, i: nat, a: nat, j: nat, b: nat)
    requires Inv(c) && Inv(c') && CalmBut(c, pid, L, h, i, i) && Holds(c, pid, i, a) && a != b && pid != 0
    requires Taken(c, c', pid, j, b) && (L.Holds(b) || Find(h, b) < |h|)
    ensures i != j && CalmBut(c', pid, L, h, i, j) && Holds(c', pid, i, a) && Holds(c', pid, j, b)
    ensures SameView(c, c')
  {
    NotTouched(c, c', pid, j, b);
    hide Inv;
    forall k | 0 <= k < |c.bufs| && k != i && k != j && Needed(c'.bufs[k], L, h)
      ensures Free(c', pid, k)
    {
      assert Free(c, pid, k);
    }
  }

  /** What bread and brelse of block b leave of buffer i: it holds b; if it did before it has the
      same references and is pinned only if it was, if not it was idle and is so again. */
  ghost predicate Used(c: Cache, c': Cache, i: nat, b: nat) {
    && |c'.bufs| == |c.bufs| == |c.refs| == |c'.refs| && i < |c.bufs| && c'.bufs[i].Is(DISK_DEV, b)
    && (if c.bufs[i].Is(DISK_DEV, b) then c'.refs[i] == c.refs[i] && (c'.bufs[i].dirty ==> c.bufs[i].dirty)
        else c.bufs[i].Recyclable() && c'.refs[i] == {} && !c'.bufs[i].dirty)
  }

  /** Only buffers i and j were used. */
  ghost predicate UsedOnly(c: Cache, c': Cache, i: nat, a: nat, j: nat, b: nat) {
    && Used(c, c', i, a) && Used(c, c', j, b)
    && forall k :: 0 <= k < |c.bufs| && k != i && k != j ==> c'.bufs[k] == c.bufs[k] && c'.refs[k] == c.refs[k]
  }

  /** Both breads of a copy; false is bget's panic: nothing cached, and no buffer idle. */
  method TakeBoth(cache: BufferCache, pid: nat, L: Layout, h: seq<nat>, a: nat, b: nat)
    returns (ok: bool, i: nat, j: nat, ghost c1: Cache)
    requires cache.Valid() && pid != 0 && Calm(cache.model, pid, L, h) && a != b
    requires a < |cache.disk| && b < |cache.disk| && L.Holds(a) && Find(h, b) < |h|
    modifies cache`bufs, cache`model
    ensures cache.Valid() && SameView(old(cache.model), cache.model)
    ensures ok ==> i != j && Holds(cache.model, pid, i, a) && Holds(cache.model, pid, j, b)
                   && CalmBut(cache.model, pid, L, h, i, j)
    ensures ok ==> Taken(old(cache.model), c1, pid, i, a) && Taken(c1, cache.model, pid, j, b)
    ensures !ok ==> NoBuffer(old(cache.model), cache.model, a, b)
  {
    i, j := 0, 0;
    ghost var c0 := cache.model;
    c1 := c0;
    var r := cache.Bread(pid, a);
    if r.None? {
      return false, i, j, c1;
    }
    i := r.value;
    c1 := cache.model;
    FirstTaken(c0, c1, pid, L, h, i, a);
    r := cache.Bread(pid, b);
    if r.None? {
      return false, i, j, c1;
    }
    j := r.value;
    SecondTaken(c1, cache.model, pid, L, h, i, a, j, b);
    ok := true;
  }

  /** bget panicked for one of the two: there was no idle buffer, or only the one that block a
      now has and block b was not cached. */
  ghost predicate NoBuffer(c: Cache, c': Cache, a: nat, b: nat) {
    && NoneIdle(c'.bufs)
    && ((c' == c && Absent(c.bufs, DISK_DEV, a))
        || (Absent(c'.bufs, DISK_DEV, b) && exists i, pid :: Taken(c, c', pid, i, a)))
  }

  /** Block src was copied over block dst, in the cache and on disk. */
  ghost predicate Copied(c: Cache, c': Cache, src: nat, dst: nat) {
    && src < |c.content| && dst < |c.content| && |c.disk| == |c.content|
    && c'.content == c.content[dst := c.content[src]]
    && c'.disk == c.disk[dst := c.content[src]]
    && c'.slot == c.slot - {dst} && c'.touched == c.touched
  }

  /** Buffer j, changed and written through, is as free to release as before. */
  lemma Written(c: Cache, c': Cache, pid: nat, L: Layout, h: seq<nat>, i: nat, src: nat, j: nat, dst: nat)
    requires CalmBut(c, pid, L, h, i, j) && i != j && |c.content| == |c.disk| && Current(c)
    requires Holds(c, pid, i, src) && Holds(c, pid, j, dst)
    requires c' == WriteThrough(Modify(c, j, c.bufs[i].data), j)
    ensures Holds(c', pid, i, src) && Holds(c', pid, j, dst) && CalmBut(c', pid, L, h, i, j)
    ensures Copied(c, c', src, dst)
  {
    forall k | 0 <= k < |c.bufs| && k != i && k != j && Needed(c'.bufs[k], L, h)
      ensures Free(c', pid, k)
    {
      assert Free(c, pid, k);
    }
  }

  lemma BothLeft(c: Cache, c1: Cache, c2: Cache, pid: nat, L: Layout, h: seq<nat>, i: nat, j: nat)
    requires CalmBut(c, pid, L, h, i, j) && i != j
    requires Left(c, c1, pid, i) && Left(c1, c2, pid, j)
    ensures Calm(c2, pid, L, h) && SameView(c, c2)
  {
    forall k | 0 <= k < |c.bufs| && Needed(c2.bufs[k], L, h)
      ensures Free(c2, pid, k)
    {
      assert k != i && k != j ==> Free(c, pid, k);
    }
  }

  /** The five steps of a copy, for the two buffers it uses. */
  lemma NetUse(c0: Cache, c1: Cache, c2: Cache, c3: Cache, c4: Cache, c5: Cache, pid: nat, i: nat, a: nat, j: nat,
               b: nat,
               src: nat, dst: nat)
    requires Taken(c0, c1, pid, i, a) && Taken(c1, c2, pid, j, b) && i != j && a != b
    requires c0.bufs[i].Is(DISK_DEV, a) ==> pid !in c0.refs[i]
    requires c0.bufs[j].Is(DISK_DEV, b) ==> pid !in c0.refs[j]
    requires (src == i && dst == j) || (src == j && dst == i)
    requires c2.bufs[dst].blockno < |c2.content| && |c2.disk| == |c2.content|
    requires c3 == WriteThrough(Modify(c2, dst, c2.bufs[src].data), dst)
    requires Left(c3, c4, pid, src) && Left(c4, c5, pid, dst)
    ensures UsedOnly(c0, c5, i, a, j, b)
  {
    assert c0.bufs[i].Is(DISK_DEV, a) ==> c5.refs[i] == c0.refs[i];
    assert c0.bufs[j].Is(DISK_DEV, b) ==> c5.refs[j] == c0.refs[j];
    assert !c0.bufs[i].Is(DISK_DEV, a) ==> c5.refs[i] == {};
    assert !c0.bufs[j].Is(DISK_DEV, b) ==> c5.refs[j] == {};
  }

  /** memmove, bwrite and both brelses, with the states in between. */
  method Overwrite(cache: BufferCache, pid: nat, L: Layout, h: seq<nat>, i: nat, src: nat, j: nat, dst: nat)
    returns (ghost c3: Cache, ghost c4: Cache)
    requires cache.Valid() && pid != 0 && i != j
    requires Holds(cache.model, pid, i, src) && Holds(cache.model, pid, j, dst)
    requires CalmBut(cache.model, pid, L, h, i, j)
    modifies cache, cache.ring
    ensures cache.Valid() && Calm(cache.model, pid, L, h)
    ensures CopyDone(old(cache.model), cache.model, old(cache.journal), cache.journal, src, dst)
    ensures j < |old(cache.model).bufs| && i < |old(cache.model).bufs|
    ensures old(cache.model).bufs[j].blockno < |old(cache.model).content| == |old(cache.model).disk|
    ensures c3 == WriteThrough(Modify(old(cache.model), j, old(cache.model).bufs[i].data), j)
    ensures Left(c3, c4, pid, i) && Left(c4, cache.model, pid, j)
  {
    hide *;
    ghost var c2, j2 := cache.model, cache.journal;
    Replace(cache, pid, L, h, i, src, j, dst);
    c3 := cache.model;
    DiskIs(cache);
    HoldsIn(c3, pid, i, src);
    HoldsIn(c3, pid, j, dst);
    cache.Brelse(pid, i);
    c4 := cache.model;
    DiskIs(cache);
    LeftOther(c3, c4, pid, i, j);
    cache.Brelse(pid, j);
    BothLeft(c3, c4, cache.model, pid, L, h, i, j);
    CopyLeft(c2, c3, cache.model, j2, cache.journal, src, dst);
  }

  /** memmove and bwrite. */
  method Replace(cache: BufferCache, pid: nat, L: Layout, h: seq<nat>, i: nat, src: nat, j: nat, dst: nat)
    requires cache.Valid() && pid != 0 && i != j
    requires Holds(cache.model, pid, i, src) && Holds(cache.model, pid, j, dst)
    requires CalmBut(cache.model, pid, L, h, i, j)
    modifies cache`bufs, cache`model, cache`disk, cache`journal
    ensures cache.Valid() && CalmBut(cache.model, pid, L, h, i, j)
    ensures Holds(cache.model, pid, i, src) && Holds(cache.model, pid, j, dst)
    ensures CopyDone(old(cache.model), cache.model, old(cache.journal), cache.journal, src, dst)
    ensures j < |old(cache.model).bufs| && i < |old(cache.model).bufs|
    ensures old(cache.model).bufs[j].blockno < |old(cache.model).content| == |old(cache.model).disk|
    ensures cache.model == WriteThrough(Modify(old(cache.model), j, old(cache.model).bufs[i].data), j)
  {
    cache.Store(pid, j, cache.bufs[i].data);
    cache.Bwrite(pid, j);
    Written(old(cache.model), cache.model, pid, L, h, i, src, j, dst);
  }

  lemma LeftOther(c: Cache, c': Cache, pid: nat, i: nat, j: nat)
    requires Left(c, c', pid, i) && j != i && j < |c.bufs|
    ensures |c'.bufs| == |c.bufs| && c'.bufs[j] == c.bufs[j] && c'.touched == c.touched
  {
  }

  lemma CopyLeft(c: Cache, c': Cache, c'': Cache, ws: seq<Write>, ws': seq<Write>, src: nat, dst: nat)
    requires CopyDone(c, c', ws, ws', src, dst) && SameView(c', c'')
    ensures CopyDone(c, c'', ws, ws', src, dst)
  {
  }

  lemma CopyTaken(c: Cache, c': Cache, c'': Cache, ws: seq<Write>, ws': seq<Write>, src: nat, dst: nat)
    requires SameView(c, c') && CopyDone(c', c'', ws, ws', src, dst)
    ensures CopyDone(c, c'', ws, ws', src, dst)
  {
  }

  lemma TakenFree(c0: Cache, c1: Cache, pid: nat, L: Layout, h: seq<nat>, i: nat, a: nat, j: nat, b: nat)
    requires Calm(c0, pid, L, h) && L.Holds(a) && Find(h, b) < |h| && Taken(c0, c1, pid, i, a) && j < |c0.bufs|
    ensures c0.bufs[i].Is(DISK_DEV, a) ==> pid !in c0.refs[i]
    ensures c0.bufs[j].Is(DISK_DEV, b) ==> pid !in c0.refs[j]
  {
    assert Needed(c0.bufs[i], L, h) ==> Free(c0, pid, i);
    assert Needed(c0.bufs[j], L, h) ==> Free(c0, pid, j);
  }

  /** The body of the loops of write_log (toLog) and install_trans. */
  method CopyBlock(cache: BufferCache, pid: nat, L: Layout, h: seq<nat>, logBlock: nat, home: nat, toLog: bool)
    returns (ok: bool, ghost i: nat, ghost j: nat)
    requires cache.Valid() && pid != 0 && Calm(cache.model, pid, L, h) && logBlock != home
    requires logBlock < |cache.model.disk| && home < |cache.model.disk| && L.Holds(logBlock) && Find(h, home) < |h|
    modifies cache, cache.ring
    ensures cache.Valid()
    ensures ok ==> Calm(cache.model, pid, L, h) && i != j
    ensures ok ==> UsedOnly(old(cache.model), cache.model, i, logBlock, j, home)
    ensures ok && toLog ==> CopyDone(old(cache.model), cache.model, old(cache.journal), cache.journal, home, logBlock)
    ensures ok && !toLog ==> CopyDone(old(cache.model), cache.model, old(cache.journal), cache.journal, logBlock, home)
    ensures !ok ==> SameView(old(cache.model), cache.model) && cache.journal == old(cache.journal)
    ensures !ok ==> NoBuffer(old(cache.model), cache.model, logBlock, home)
  {
    hide *;
    var i1, j1;
    ghost var c0, c1, c3, c4;
    c0 := cache.model;
    DiskIs(cache);
    ok, i1, j1, c1 := TakeBoth(cache, pid, L, h, logBlock, home);
    i, j := i1, j1;
    if ok {
      ghost var c2 := cache.model;
      HoldsIn(c2, pid, i, logBlock);
      HoldsIn(c2, pid, j, home);
      TakenLength(c0, c1, pid, i, logBlock);
      TakenLength(c1, c2, pid, j, home);
      TakenFree(c0, c1, pid, L, h, i, logBlock, j, home);
      if toLog {
        CalmSwap(c2, pid, L, h, i, j);
        c3, c4 := Overwrite(cache, pid, L, h, j1, home, i1, logBlock);
        NetUse(c0, c1, c2, c3, c4, cache.model, pid, i, logBlock, j, home, j, i);
        CopyTaken(c0, c2, cache.model, old(cache.journal), cache.journal, home, logBlock);
      } else {
        c3, c4 := Overwrite(cache, pid, L, h, i1, logBlock, j1, home);
        NetUse(c0, c1, c2, c3, c4, cache.model, pid, i, logBlock, j, home, i, j);
        CopyTaken(c0, c2, cache.model, old(cache.journal), cache.journal, logBlock, home);
      }
    }
  }

  lemma CalmSwap(c: Cache, pid: nat, L: Layout, h: seq<nat>, i: int, j: int)
    requires CalmBut(c, pid, L, h, i, j)
    ensures CalmBut(c, pid, L, h, j, i)
  {
  }

  lemma DiskIs(cache: BufferCache)
    requires cache.Valid()
    ensures cache.model.disk == cache.disk && cache.model.bufs == cache.bufs && Inv(cache.model)
  {
  }

  lemma HoldsIn(c: Cache, pid: nat, i: nat, b: nat)
    requires Holds(c, pid, i, b)
    ensures i < |c.bufs| && c.bufs[i].holder == pid && i !in c.touched
  {
  }

  lemma TakenLength(c: Cache, c': Cache, pid: nat, i: nat, b: nat)
    requires Taken(c, c', pid, i, b)
    ensures |c'.bufs| == |c.bufs| && i < |c.bufs| && |c.refs| == |c.bufs| == |c'.refs|
  {
  }

  ghost predicate CopyDone(c: Cache, c': Cache, ws: seq<Write>, ws': seq<Write>, src: nat, dst: nat) {
    Copied(c, c', src, dst) && ws' == ws + [Write(dst, c.content[src])]
  }

  // ---- Room in the cache ----------------------------------------------------------

  ghost predicate SomeIdle(bufs: seq<Buf>) {
    exists i :: 0 <= i < |bufs| && bufs[i].Recyclable()
  }

  ghost predicate AllIdle(bufs: seq<Buf>) {
    forall i :: 0 <= i < |bufs| ==> bufs[i].Recyclable()
  }

  /** Nobody refers to a buffer with a block of the log: only a commit uses them. */
  ghost predicate LogUnused(c: Cache, L: Layout) {
    && |c.refs| == |c.bufs|
    && forall i :: 0 <= i < |c.bufs| && c.bufs[i].dev == DISK_DEV && L.Holds(c.bufs[i].blockno) ==> c.refs[i] == {}
  }

  /** A commit of h that still has the blocks from k on to write home. */
  ghost predicate Tidy(c: Cache, L: Layout, h: seq<nat>, k: int) {
    && LogUnused(c, L) && c.touched == {}
    && (forall t :: 0 <= t < |h| && k <= t ==> h[t] in c.slot)
    && (forall b :: b in c.slot ==> !L.Holds(b))
  }

  /** bget cannot fail: in a commit the listed blocks are in the cache and one buffer is idle;
      after a boot all buffers are, and there are two. */
  ghost predicate Roomy(c: Cache, L: Layout, h: seq<nat>, k: int, boot: bool) {
    if boot then AllIdle(c.bufs) && |c.bufs| >= 2 else Tidy(c, L, h, k) && SomeIdle(c.bufs)
  }

  lemma IdleOrNot(bufs: seq<Buf>)
    ensures SomeIdle(bufs) <==> !NoneIdle(bufs)
  {
  }

  lemma RoomForBoth(c: Cache, c': Cache, L: Layout, h: seq<nat>, k: nat, boot: bool, a: nat, b: nat)
    requires Inv(c) && Roomy(c, L, h, k, boot) && k < |h| && b == h[k] && a != b
    ensures !NoBuffer(c, c', a, b)
  {
    if !boot {
      assert Keeps(c, b, c.slot[b]);
    }
    hide Inv;
    if boot {
      assert c.bufs[0].Recyclable() && c.bufs[1].Recyclable();
    }
    forall i, pid | Taken(c, c', pid, i, a)
      ensures !NoneIdle(c'.bufs) || !Absent(c'.bufs, DISK_DEV, b)
    {
      var m := if boot then if i == 0 then 1 else 0 else c.slot[b];
      assert c'.bufs[m] == c.bufs[m];
    }
  }

  /** After a copy there is as much room. */
  lemma RoomKept(c: Cache, c': Cache, L: Layout, h: seq<nat>, k: nat, k': nat, boot: bool,
                 i: nat, a: nat, j: nat, b: nat, src: nat, dst: nat)
    requires Inv(c) && Inv(c') && Roomy(c, L, h, k, boot) && UsedOnly(c, c', i, a, j, b) && L.Holds(a)
    requires (i == j && a == b) || (i != j && !L.Holds(b))
    requires c'.slot == c.slot - {dst} && c'.touched == c.touched && k <= k'
    requires forall t :: 0 <= t < |h| && k' <= t ==> h[t] != dst
    ensures Roomy(c', L, h, k', boot)
  {
    if boot {
      assert forall m :: 0 <= m < |c.bufs| ==> c'.bufs[m].Recyclable();
    } else {
      assert c'.refs[i] == {} && c'.bufs[i].Recyclable();
    }
  }

  /** Without an idle buffer no block of the log can be brought in. */
  lemma NoRoomNoUse(c: Cache, c': Cache, L: Layout, h: seq<nat>, k: int, i: nat, a: nat, j: nat, b: nat)
    requires Inv(c) && Tidy(c, L, h, k) && NoneIdle(c.bufs) && L.Holds(a)
    ensures !UsedOnly(c, c', i, a, j, b)
  {
    assert forall m :: 0 <= m < |c.bufs| && c.bufs[m].Is(DISK_DEV, a) ==> c.refs[m] == {} && !c.bufs[m].dirty;
  }

  // ---- Streams of disk writes ---------------------------------------------------

  /** Disk d and journal j are d0 and j0 after the first k writes of ws, and no others. */
  ghost predicate Wrote(d0: Image, j0: seq<Write>, d: Image, j: seq<Write>, ws: seq<Write>, k: nat) {
    && InRange(d0, ws) && k <= |ws| && d == Apply(d0, ws, k)
    && |j| == |j0| + k
    && (forall i :: 0 <= i < |j0| ==> j[i] == j0[i])
    && (forall i :: |j0| <= i < |j| ==> j[i] == ws[i - |j0|])
  }

  lemma WroteOne(d0: Image, j0: seq<Write>, d: Image, j: seq<Write>, ws: seq<Write>, k: nat, d': Image, j': seq<Write>)
    requires Wrote(d0, j0, d, j, ws, k) && k < |ws|
    requires d' == d[ws[k].bno := ws[k].data] && j' == j + [ws[k]]
    ensures Wrote(d0, j0, d', j', ws, k + 1)
  {
  }

  lemma WroteThen(d0: Image, j0: seq<Write>, d: Image, j: seq<Write>, a: seq<Write>,
                  d': Image, j': seq<Write>, b: seq<Write>, k: nat)
    requires Wrote(d0, j0, d, j, a, |a|) && Wrote(d, j, d', j', b, k)
    ensures Wrote(d0, j0, d', j', a + b, |a| + k)
  {
    ApplyTail(d0, a, b, k);
    forall i | |j0| <= i < |j'|
      ensures j'[i] == (a + b)[i - |j0|]
    {
      if i < |j| {
        assert j[i] == a[i - |j0|];
      } else {
        assert j'[i] == b[i - |j|];
      }
    }
  }

  lemma WrotePart(d0: Image, j0: seq<Write>, d: Image, j: seq<Write>, a: seq<Write>, k: nat, b: seq<Write>)
    requires Wrote(d0, j0, d, j, a, k) && InRange(d0, b)
    ensures Wrote(d0, j0, d, j, a + b, k)
  {
    ApplyHead(d0, a, b, k);
  }

  // ---- write_log, write_head, install_trans ---------------------------------------

  /** What a commit starts from: the listed blocks, their newest values, and no log block
      among the pinned ones. */
  ghost predicate Ready(c: Cache, L: Layout, h: seq<nat>, data: seq<Block>) {
    && |h| == |data| && |c.content| == |c.disk| && Legal(L, h, |c.disk|)
    && (forall t :: 0 <= t < |h| ==> data[t] == c.content[h[t]])
    && (forall b :: b in c.slot ==> !L.Holds(b))
  }

  /** write_log has copied the first k listed blocks into the log. */
  ghost predicate Logging(c0: Cache, j0: seq<Write>, c: Cache, j: seq<Write>,
                          L: Layout, h: seq<nat>, data: seq<Block>, k: nat) {
    && Ready(c0, L, h, data)
    && k <= |h| && |c.content| == |c.disk|
    && Wrote(c0.disk, j0, c.disk, j, CopyWrites(LogBlocks(L, |h|), data), k)
    && c.slot == c0.slot
    && (forall b :: 0 <= b < |c.disk| && (!L.Holds(b) || b == L.start) ==> c.content[b] == c0.content[b])
    && (forall b :: L.start < b <= L.start + k ==> c.content[b] == data[b - L.start - 1])
  }

  lemma LoggingStart(c: Cache, j: seq<Write>, L: Layout, h: seq<nat>, data: seq<Block>)
    requires Ready(c, L, h, data)
    ensures Logging(c, j, c, j, L, h, data, 0)
  {
  }

  lemma LoggingNext(c0: Cache, j0: seq<Write>, c: Cache, j: seq<Write>, L: Layout, h: seq<nat>, data: seq<Block>,
                    k: nat)
    requires Logging(c0, j0, c, j, L, h, data, k) && k < |h|
    ensures L.start + k + 1 < |c.disk| && h[k] < |c.disk| && h[k] != L.start + k + 1
  {
  }

  lemma LoggingStep(c0: Cache, j0: seq<Write>, c: Cache, j: seq<Write>, c': Cache, j': seq<Write>,
                    L: Layout, h: seq<nat>, data: seq<Block>, k: nat)
    requires Logging(c0, j0, c, j, L, h, data, k) && k < |h|
    requires CopyDone(c, c', j, j', h[k], L.start + k + 1)
    ensures Logging(c0, j0, c', j', L, h, data, k + 1)
  {
    var ws := CopyWrites(LogBlocks(L, |h|), data);
    assert ws[k] == Write(L.start + k + 1, data[k]);
    WroteOne(c0.disk, j0, c.disk, j, ws, k, c'.disk, j');
    assert L.Holds(L.start + k + 1);
    assert c'.slot == c.slot;
  }

  lemma LoggingRoom(c0: Cache, j0: seq<Write>, c: Cache, j: seq<Write>, c': Cache, j': seq<Write>,
                    L: Layout, h: seq<nat>, data: seq<Block>, k: nat, m: nat, n: nat)
    requires Logging(c0, j0, c, j, L, h, data, k) && k < |h| && Inv(c) && Inv(c') && Roomy(c, L, h, 0, false)
    requires CopyDone(c, c', j, j', h[k], L.start + k + 1) && m != n && UsedOnly(c, c', m, L.start + k + 1, n, h[k])
    ensures Roomy(c', L, h, 0, false)
  {
    hide Inv;
    RoomKept(c, c', L, h, 0, 0, false, m, L.start + k + 1, n, h[k], h[k], L.start + k + 1);
  }

  lemma LoggingHomes(c0: Cache, j0: seq<Write>, c: Cache, j: seq<Write>, L: Layout, h: seq<nat>, data: seq<Block>,
                     k: nat)
    requires Logging(c0, j0, c, j, L, h, data, k) && k < |h|
    ensures L.Holds(L.start + k + 1) && Find(h, h[k]) < |h|
  {
    FindAt(h, k);
  }

  /** write_log: every listed block is copied into the log. It runs to its end if one buffer is
      idle, and stops at once if none is. */
  method WriteLog(cache: BufferCache, pid: nat, L: Layout, h: seq<nat>, ghost data: seq<Block>)
    returns (ok: bool, ghost done: nat)
    requires cache.Valid() && pid != 0 && Calm(cache.model, pid, L, h)
    requires Ready(cache.model, L, h, data)
    modifies cache, cache.ring
    ensures cache.Valid() && (ok ==> Calm(cache.model, pid, L, h) && done == |h|)
    ensures Logging(old(cache.model), old(cache.journal), cache.model, cache.journal, L, h, data, done)
    ensures Roomy(old(cache.model), L, h, 0, false) ==> ok && Roomy(cache.model, L, h, 0, false)
    ensures !ok ==> NoneIdle(cache.model.bufs)
    ensures Tidy(old(cache.model), L, h, 0) && NoneIdle(old(cache.model).bufs) && |h| > 0 ==> !ok && done == 0
  {
    hide *;
    ghost var c0, j0 := cache.model, cache.journal;
    LoggingStart(c0, j0, L, h, data);
    var tail := 0;
    while tail < |h|
      invariant tail <= |h| && cache.Valid() && Calm(cache.model, pid, L, h)
      invariant Logging(c0, j0, cache.model, cache.journal, L, h, data, tail)
      invariant Roomy(c0, L, h, 0, false) ==> Roomy(cache.model, L, h, 0, false)
      invariant Tidy(c0, L, h, 0) && NoneIdle(c0.bufs) ==> tail == 0
      invariant tail == 0 ==> cache.model == c0
    {
      ghost var c, j := cache.model, cache.journal;
      DiskIs(cache);
      LoggingNext(c0, j0, c, j, L, h, data, tail);
      LoggingHomes(c0, j0, c, j, L, h, data, tail);
      ghost var m, n;
      ok, m, n := CopyBlock(cache, pid, L, h, L.start + tail + 1, h[tail], true);
      DiskIs(cache);
      if !ok {
        if Roomy(c0, L, h, 0, false) {
          LoggingRoomy(c, cache.model, L, h, tail, false, L.start + tail + 1);
        }
        NoBufferIdle(c, cache.model, L.start + tail + 1, h[tail]);
        LoggingStopped(c0, j0, c, j, cache.model, cache.journal, L, h, data, tail);
        return false, tail;
      }
      if Roomy(c0, L, h, 0, false) {
        LoggingRoom(c0, j0, c, j, cache.model, cache.journal, L, h, data, tail, m, n);
      }
      if Tidy(c0, L, h, 0) && NoneIdle(c0.bufs) {
        NoRoomNoUse(c, cache.model, L, h, 0, m, L.start + tail + 1, n, h[tail]);
      }
      LoggingStep(c0, j0, c, j, cache.model, cache.journal, L, h, data, tail);
      tail := tail + 1;
    }
    return true, tail;
  }

  lemma LoggingRoomy(c: Cache, c': Cache, L: Layout, h: seq<nat>, k: nat, boot: bool, a: nat)
    requires Inv(c) && Roomy(c, L, h, if boot then k else 0, boot) && k < |h| && a != h[k]
    ensures !NoBuffer(c, c', a, h[k])
  {
    hide Inv;
    hide SomeIdle;
    assert Roomy(c, L, h, k, boot);
    RoomForBoth(c, c', L, h, k, boot, a, h[k]);
  }

  lemma NoBufferIdle(c: Cache, c': Cache, a: nat, b: nat)
    requires NoBuffer(c, c', a, b)
    ensures NoneIdle(c'.bufs)
  {
  }

  lemma LoggingStopped(c0: Cache, j0: seq<Write>, c: Cache, j: seq<Write>, c': Cache, j': seq<Write>,
                       L: Layout, h: seq<nat>, data: seq<Block>, k: nat)
    requires Logging(c0, j0, c, j, L, h, data, k) && SameView(c, c') && j' == j
    ensures Logging(c0, j0, c', j', L, h, data, k)
  {
  }

  /** write_head has stored h in the header block, in the cache and on disk. */
  ghost predicate HeadStored(c: Cache, c': Cache, j: seq<Write>, j': seq<Write>, L: Layout, h: seq<nat>) {
    && L.start < |c.content| && |c.disk| == |c.content| && |h| <= LOGSIZE
    && var head := EncodeHead(c.content[L.start], h);
    && c'.content == c.content[L.start := head] && c'.disk == c.disk[L.start := head]
    && c'.slot == c.slot - {L.start} && j' == j + [Write(L.start, head)] && c'.touched == c.touched
  }

  /** Buffer i, taken, changed, written through and released. */
  lemma HeadReleased(c0: Cache, c: Cache, c1: Cache, c2: Cache, c3: Cache, j: seq<Write>, j': seq<Write>,
                     pid: nat, i: nat, L: Layout, h: seq<nat>, hs: seq<nat>, data: Block)
    requires Current(c) && |h| <= LOGSIZE && L.start < |c.content| && Taken(c0, c, pid, i, L.start)
    requires Calm(c0, pid, L, hs)
    requires CalmBut(c, pid, L, hs, i, i) && Holds(c, pid, i, L.start) && L.Holds(L.start)
    requires data == EncodeHead(c.content[L.start], h)
    requires c1 == Modify(c, i, data) && c2 == WriteThrough(c1, i) && Left(c2, c3, pid, i)
    requires j' == j + [Write(L.start, data)]
    ensures HeadStored(c0, c3, j, j', L, h) && Calm(c3, pid, L, hs) && UsedOnly(c0, c3, i, L.start, i, L.start)
  {
    hide EncodeHead;
    forall k | 0 <= k < |c.bufs| && Needed(c3.bufs[k], L, hs)
      ensures Free(c3, pid, k)
    {
      assert k != i ==> Free(c, pid, k);
    }
    assert Needed(c0.bufs[i], L, hs) ==> Free(c0, pid, i);
    assert c0.bufs[i].Is(DISK_DEV, L.start) ==> c3.refs[i] == c0.refs[i];
    assert !c0.bufs[i].Is(DISK_DEV, L.start) ==> c3.refs[i] == {};
  }

  /** write_head of h, while the blocks of hs are being committed. It fails only without an idle
      buffer. */
  method WriteHead(cache: BufferCache, pid: nat, L: Layout, h: seq<nat>, ghost hs: seq<nat>)
    returns (ok: bool, ghost i: nat)
    requires cache.Valid() && pid != 0 && Calm(cache.model, pid, L, hs)
    requires |h| <= LOGSIZE && L.start < |cache.model.disk| && L.Holds(L.start)
    modifies cache, cache.ring
    ensures cache.Valid() && (ok ==> Calm(cache.model, pid, L, hs))
    ensures ok ==> HeadStored(old(cache.model), cache.model, old(cache.journal), cache.journal, L, h)
    ensures ok ==> UsedOnly(old(cache.model), cache.model, i, L.start, i, L.start)
    ensures !ok ==> cache.model == old(cache.model) && cache.journal == old(cache.journal)
    ensures !ok ==> NoneIdle(cache.model.bufs) && Absent(cache.model.bufs, DISK_DEV, L.start)
  {
    i := 0;
    ghost var c0 := cache.model;
    var r := cache.Bread(pid, L.start);
    if r.None? {
      return false, i;
    }
    i := r.value;
    FirstTaken(c0, cache.model, pid, L, hs, r.value, L.start);
    StoreHead(cache, pid, L, h, hs, r.value, c0);
    return true, i;
  }

  /** The rest of write_head, once the header block is locked. */
  method StoreHead(cache: BufferCache, pid: nat, L: Layout, h: seq<nat>, ghost hs: seq<nat>, i: nat, ghost c0: Cache)
    requires cache.Valid() && pid != 0 && CalmBut(cache.model, pid, L, hs, i, i) && L.Holds(L.start)
    requires |h| <= LOGSIZE && L.start < |cache.model.disk| && Holds(cache.model, pid, i, L.start)
    requires Taken(c0, cache.model, pid, i, L.start) && Calm(c0, pid, L, hs)
    modifies cache, cache.ring
    ensures cache.Valid() && Calm(cache.model, pid, L, hs) && UsedOnly(c0, cache.model, i, L.start, i, L.start)
    ensures HeadStored(c0, cache.model, old(cache.journal), cache.journal, L, h)
  {
    ghost var c, j0 := cache.model, cache.journal;
    var data := SetWord(cache.bufs[i].data, 0, |h|);
    for t := 0 to |h|
      invariant data == StoreEntries(SetWord(c.content[L.start], 0, |h|), h, t)
    {
      data := SetWord(data, 1 + t, h[t]);
    }
    hide SetWord;
    cache.Store(pid, i, data);
    ghost var c1 := cache.model;
    cache.Bwrite(pid, i);
    ghost var c2 := cache.model;
    cache.Brelse(pid, i);
    HeadReleased(c0, c, c1, c2, cache.model, j0, cache.journal, pid, i, L, h, hs, data);
  }

  /** After write_head there is as much room. */
  lemma HeadRoom(c: Cache, c': Cache, j: seq<Write>, j': seq<Write>, L: Layout, h: seq<nat>, hs: seq<nat>, k: nat,
                 boot: bool, i: nat)
    requires Inv(c) && Inv(c') && Roomy(c, L, hs, k, boot) && UsedOnly(c, c', i, L.start, i, L.start)
    requires L.Holds(L.start)
    requires HeadStored(c, c', j, j', L, h)
    requires !boot ==> forall t :: 0 <= t < |hs| ==> !L.Holds(hs[t])
    requires boot ==> k >= |hs|
    ensures Roomy(c', L, hs, k, boot)
  {
    hide Inv;
    hide EncodeHead;
    RoomKept(c, c', L, hs, k, k, boot, i, L.start, i, L.start, L.start, L.start);
  }

  lemma SomeIdleReads(c: Cache)
    requires SomeIdle(c.bufs)
    ensures !NoneIdle(c.bufs)
  {
  }

  /** What install_trans starts from: the log holds the copies. */
  ghost predicate Installable(c: Cache, L: Layout, h: seq<nat>, data: seq<Block>) {
    && |h| == |data| && |c.content| == |c.disk| && Legal(L, h, |c.disk|)
    && Logged(c.content, L, |h|) == data
  }

  /** install_trans has put the first k blocks in place. */
  ghost predicate Installing(c0: Cache, j0: seq<Write>, c: Cache, j: seq<Write>,
                             L: Layout, h: seq<nat>, data: seq<Block>, k: nat) {
    && Installable(c0, L, h, data)
    && k <= |h| && |c.content| == |c.disk|
    && Wrote(c0.disk, j0, c.disk, j, CopyWrites(h, data), k)
    && (forall b :: 0 <= b < |c.disk| ==>
          c.content[b] == if Find(h, b) < k then data[Find(h, b)] else c0.content[b])
    && (forall b :: b in c.slot ==> b in c0.slot && Find(h, b) >= k) && c.touched == c0.touched
  }

  lemma InstallingHomes(c0: Cache, j0: seq<Write>, c: Cache, j: seq<Write>, L: Layout, h: seq<nat>,
                        data: seq<Block>, k: nat)
    requires Installing(c0, j0, c, j, L, h, data, k) && k < |h|
    ensures L.Holds(L.start + k + 1) && Find(h, h[k]) < |h|
  {
    FindAt(h, k);
  }

  lemma InstallingRoom(c0: Cache, j0: seq<Write>, c: Cache, j: seq<Write>, c': Cache, j': seq<Write>,
                       L: Layout, h: seq<nat>, data: seq<Block>, k: nat, boot: bool, m: nat, n: nat)
    requires Installing(c0, j0, c, j, L, h, data, k) && k < |h| && Inv(c) && Inv(c') && Roomy(c, L, h, k, boot)
    requires CopyDone(c, c', j, j', L.start + k + 1, h[k]) && m != n && UsedOnly(c, c', m, L.start + k + 1, n, h[k])
    ensures Roomy(c', L, h, k + 1, boot)
  {
    hide Inv;
    RoomKept(c, c', L, h, k, k + 1, boot, m, L.start + k + 1, n, h[k], L.start + k + 1, h[k]);
  }

  lemma InstallingStart(c: Cache, j: seq<Write>, L: Layout, h: seq<nat>, data: seq<Block>)
    requires Installable(c, L, h, data)
    ensures Installing(c, j, c, j, L, h, data, 0)
  {
  }

  lemma InstallingNext(c0: Cache, j0: seq<Write>, c: Cache, j: seq<Write>, L: Layout, h: seq<nat>,
                       data: seq<Block>, k: nat)
    requires Installing(c0, j0, c, j, L, h, data, k) && k < |h|
    ensures L.start + k + 1 < |c.disk| && h[k] < |c.disk| && h[k] != L.start + k + 1
    ensures c.content[L.start + k + 1] == data[k]
  {
    assert L.Holds(L.start + k + 1);
    assert Logged(c0.content, L, |h|)[k] == c0.content[L.start + 1 + k];
  }

  /** The newest values, once block h[k] has been copied home. */
  lemma InstalledContent(old0: Image, now: Image, h: seq<nat>, data: seq<Block>, k: nat)
    requires Distinct(h) && |h| == |data| && k < |h| && h[k] < |now| == |old0|
    requires forall b :: 0 <= b < |now| ==> now[b] == if Find(h, b) < k then data[Find(h, b)] else old0[b]
    ensures forall b :: 0 <= b < |now| ==>
              now[h[k] := data[k]][b] == if Find(h, b) < k + 1 then data[Find(h, b)] else old0[b]
  {
    FindAt(h, k);
    forall b | 0 <= b < |now| && b != h[k]
      ensures Find(h, b) != k
    {
    }
  }

  lemma InstallingStep(c0: Cache, j0: seq<Write>, c: Cache, j: seq<Write>, c': Cache, j': seq<Write>,
                       L: Layout, h: seq<nat>, data: seq<Block>, k: nat)
    requires Installing(c0, j0, c, j, L, h, data, k) && k < |h|
    requires CopyDone(c, c', j, j', L.start + k + 1, h[k])
    ensures Installing(c0, j0, c', j', L, h, data, k + 1)
  {
    InstallingNext(c0, j0, c, j, L, h, data, k);
    var ws := CopyWrites(h, data);
    assert ws[k] == Write(h[k], data[k]);
    WroteOne(c0.disk, j0, c.disk, j, ws, k, c'.disk, j');
    FindAt(h, k);
    hide Wrote;
    hide CopyWrites;
    InstalledContent(c0.content, c.content, h, data, k);
  }

  lemma InstallingStopped(c0: Cache, j0: seq<Write>, c: Cache, j: seq<Write>, c': Cache, j': seq<Write>,
                          L: Layout, h: seq<nat>, data: seq<Block>, k: nat)
    requires Installing(c0, j0, c, j, L, h, data, k) && SameView(c, c') && j' == j
    ensures Installing(c0, j0, c', j', L, h, data, k)
  {
  }

  /** install_trans: every logged block is copied to its home location. It runs to its end if
      there is room; after a boot it stops at once if there are fewer than two buffers. */
  method InstallTrans(cache: BufferCache, pid: nat, L: Layout, h: seq<nat>, ghost data: seq<Block>, ghost boot: bool)
    returns (ok: bool, ghost done: nat)
    requires cache.Valid() && pid != 0 && Calm(cache.model, pid, L, h)
    requires Installable(cache.model, L, h, data)
    modifies cache, cache.ring
    ensures cache.Valid() && (ok ==> Calm(cache.model, pid, L, h) && done == |h|)
    ensures Installing(old(cache.model), old(cache.journal), cache.model, cache.journal, L, h, data, done)
    ensures Roomy(old(cache.model), L, h, 0, boot) ==> ok && Roomy(cache.model, L, h, |h|, boot)
    ensures !ok ==> NoneIdle(cache.model.bufs)
    ensures |old(cache.model).bufs| < 2 && |h| > 0 ==> !ok && done == 0
    ensures |h| == 0 ==> ok && cache.model == old(cache.model)
  {
    hide *;
    ghost var c0, j0 := cache.model, cache.journal;
    InstallingStart(c0, j0, L, h, data);
    var tail := 0;
    while tail < |h|
      invariant tail <= |h| && cache.Valid() && Calm(cache.model, pid, L, h)
      invariant Installing(c0, j0, cache.model, cache.journal, L, h, data, tail)
      invariant Roomy(c0, L, h, 0, boot) ==> Roomy(cache.model, L, h, tail, boot)
      invariant |c0.bufs| < 2 ==> tail == 0
      invariant tail == 0 ==> cache.model == c0
    {
      ghost var c, j := cache.model, cache.journal;
      DiskIs(cache);
      InstallingNext(c0, j0, c, j, L, h, data, tail);
      InstallingHomes(c0, j0, c, j, L, h, data, tail);
      ghost var m, n;
      ok, m, n := CopyBlock(cache, pid, L, h, L.start + tail + 1, h[tail], false);
      DiskIs(cache);
      if !ok {
        if Roomy(c0, L, h, 0, boot) {
          RoomForBoth(c, cache.model, L, h, tail, boot, L.start + tail + 1, h[tail]);
        }
        NoBufferIdle(c, cache.model, L.start + tail + 1, h[tail]);
        InstallingStopped(c0, j0, c, j, cache.model, cache.journal, L, h, data, tail);
        return false, tail;
      }
      UsedIndices(c, cache.model, m, L.start + tail + 1, n, h[tail]);
      if Roomy(c0, L, h, 0, boot) {
        InstallingRoom(c0, j0, c, j, cache.model, cache.journal, L, h, data, tail, boot, m, n);
      }
      InstallingStep(c0, j0, c, j, cache.model, cache.journal, L, h, data, tail);
      tail := tail + 1;
    }
    return true, tail;
  }

  lemma UsedIndices(c: Cache, c': Cache, i: nat, a: nat, j: nat, b: nat)
    requires UsedOnly(c, c', i, a, j, b)
    ensures i < |c.bufs| && j < |c.bufs|
  {
  }

  // ---- The two halves of a commit ---------------------------------------------------

  /** The cache after write_log and write_head: the transaction is decided. */
  ghost predicate Decided(c0: Cache, c: Cache, L: Layout, h: seq<nat>, data: seq<Block>) {
    && Ready(c0, L, h, data) && Installable(c, L, h, data)
    && SameHome(c0.content, c.content, L) && c.slot == c0.slot
    && c.content[L.start] == EncodeHead(c0.content[L.start], h)
  }

  lemma HeadAfterLogging(c0: Cache, j0: seq<Write>, c1: Cache, j1: seq<Write>, c2: Cache, j2: seq<Write>,
                         L: Layout, h: seq<nat>, data: seq<Block>)
    requires Logging(c0, j0, c1, j1, L, h, data, |h|) && HeadStored(c1, c2, j1, j2, L, h)
    ensures Decided(c0, c2, L, h, data)
    ensures Wrote(c0.disk, j0, c2.disk, j2, LogAndHead(L, h, data, c0.content[L.start]), |h| + 1)
  {
    hide EncodeHead;
    hide Find;
    hide Distinct;
    assert L.Holds(L.start);
    assert c2.slot == c0.slot;
    var head := [Write(L.start, EncodeHead(c0.content[L.start], h))];
    assert Apply(c1.disk, head, 1) == Apply(c1.disk, head, 0)[L.start := head[0].data];
    WroteThen(c0.disk, j0, c1.disk, j1, CopyWrites(LogBlocks(L, |h|), data), c2.disk, j2, head, 1);
  }

  lemma LoggingIsPartial(c0: Cache, j0: seq<Write>, c: Cache, j: seq<Write>, L: Layout, h: seq<nat>,
                         data: seq<Block>, k: nat)
    requires Logging(c0, j0, c, j, L, h, data, k)
    ensures k <= |h|
    ensures Wrote(c0.disk, j0, c.disk, j, LogAndHead(L, h, data, c0.content[L.start]), k)
  {
    WrotePart(c0.disk, j0, c.disk, j, CopyWrites(LogBlocks(L, |h|), data), k,
              [Write(L.start, EncodeHead(c0.content[L.start], h))]);
  }

  lemma LoggingLayout(c0: Cache, j0: seq<Write>, c: Cache, j: seq<Write>, L: Layout, h: seq<nat>, data: seq<Block>,
                      k: nat)
    requires Logging(c0, j0, c, j, L, h, data, k)
    ensures |h| <= LOGSIZE && L.start < |c.disk|
  {
  }

  lemma LoggingTidy(c0: Cache, j0: seq<Write>, c: Cache, j: seq<Write>, L: Layout, h: seq<nat>, data: seq<Block>,
                    k: nat)
    requires Logging(c0, j0, c, j, L, h, data, k)
    ensures L.Holds(L.start) && forall t :: 0 <= t < |h| ==> !L.Holds(h[t])
  {
  }

  /** write_log, then write_head: both or, without an idle buffer, neither. */
  method LogAndDecide(cache: BufferCache, pid: nat, L: Layout, h: seq<nat>, ghost data: seq<Block>)
    returns (ok: bool, ghost done: nat)
    requires cache.Valid() && pid != 0 && Calm(cache.model, pid, L, h)
    requires Ready(cache.model, L, h, data) && L.start < |cache.model.content| && |data| == |h| <= LOGSIZE
    modifies cache, cache.ring
    ensures cache.Valid()
    ensures ok ==> Calm(cache.model, pid, L, h) && done == |h| + 1 && Decided(old(cache.model), cache.model, L, h, data)
    ensures !ok ==> done <= |h| && NoneIdle(cache.model.bufs)
    ensures Wrote(old(cache.model).disk, old(cache.journal), cache.model.disk, cache.journal,
                  LogAndHead(L, h, data, old(cache.model).content[L.start]), done)
    ensures Roomy(old(cache.model), L, h, 0, false) ==> ok && Roomy(cache.model, L, h, 0, false)
    ensures Tidy(old(cache.model), L, h, 0) && NoneIdle(old(cache.model).bufs) && |h| > 0 ==> !ok && done == 0
  {
    hide *;
    ghost var c0, j0 := cache.model, cache.journal;
    ok, done := WriteLog(cache, pid, L, h, data);
    ghost var c1, j1 := cache.model, cache.journal;
    LoggingIsPartial(c0, j0, c1, j1, L, h, data, done);
    LoggingLayout(c0, j0, c1, j1, L, h, data, done);
    LoggingTidy(c0, j0, c1, j1, L, h, data, done);
    if ok {
      DiskIs(cache);
      ghost var i;
      ok, i := WriteHead(cache, pid, L, h, h);
      DiskIs(cache);
      if Roomy(c0, L, h, 0, false) {
        RoomyIdle(c1, L, h, 0);
        if ok {
          HeadRoom(c1, cache.model, j1, cache.journal, L, h, h, 0, false, i);
        }
      }
      if ok {
        HeadAfterLogging(c0, j0, c1, j1, cache.model, cache.journal, L, h, data);
        done := |h| + 1;
      }
    }
  }

  lemma RoomyIdle(c: Cache, L: Layout, h: seq<nat>, k: int)
    requires Roomy(c, L, h, k, false)
    ensures !NoneIdle(c.bufs)
  {
  }

  lemma BootIdle(c: Cache, L: Layout, h: seq<nat>, k: int)
    requires Roomy(c, L, h, k, true)
    ensures !NoneIdle(c.bufs)
  {
    assert c.bufs[0].Recyclable();
  }

  /** Everything is home, and the log on disk is empty. */
  ghost predicate Settled(c0: Cache, c: Cache, L: Layout, h: seq<nat>, data: seq<Block>) {
    && Installable(c0, L, h, data) && |c.content| == |c0.content|
    && (forall b :: 0 <= b < |c.content| && !L.Holds(b) ==>
          c.content[b] == if Find(h, b) < |h| then data[Find(h, b)] else c0.content[b])
    && (forall b :: b in c.slot ==> b in c0.slot && Find(h, b) == |h| && b != L.start)
    && c.touched == c0.touched
  }

  lemma ClearAfterInstall(c0: Cache, j0: seq<Write>, c1: Cache, j1: seq<Write>, c2: Cache, j2: seq<Write>,
                          L: Layout, h: seq<nat>, data: seq<Block>)
    requires Installing(c0, j0, c1, j1, L, h, data, |h|) && HeadStored(c1, c2, j1, j2, L, [])
    ensures Settled(c0, c2, L, h, data)
    ensures Wrote(c0.disk, j0, c2.disk, j2, InstallAndClear(L, h, data, c0.content[L.start]), |h| + 1)
  {
    assert L.Holds(L.start);
    var head := [Write(L.start, EncodeHead(c0.content[L.start], []))];
    assert Apply(c1.disk, head, 1) == Apply(c1.disk, head, 0)[L.start := head[0].data];
    WroteThen(c0.disk, j0, c1.disk, j1, CopyWrites(h, data), c2.disk, j2, head, 1);
  }

  lemma InstallingIsPartial(c0: Cache, j0: seq<Write>, c: Cache, j: seq<Write>, L: Layout, h: seq<nat>,
                            data: seq<Block>, k: nat)
    requires Installing(c0, j0, c, j, L, h, data, k)
    ensures Wrote(c0.disk, j0, c.disk, j, InstallAndClear(L, h, data, c0.content[L.start]), k)
    ensures L.start < |c.disk| && k <= |h|
  {
    WrotePart(c0.disk, j0, c.disk, j, CopyWrites(h, data), k,
              [Write(L.start, EncodeHead(c0.content[L.start], []))]);
  }

  lemma InstallingTidy(c0: Cache, j0: seq<Write>, c: Cache, j: seq<Write>, L: Layout, h: seq<nat>,
                       data: seq<Block>, k: nat)
    requires Installing(c0, j0, c, j, L, h, data, k)
    ensures L.Holds(L.start) && forall t :: 0 <= t < |h| ==> !L.Holds(h[t])
  {
  }

  /** install_trans, then write_head with n = 0: both if there is room. */
  method InstallAndErase(cache: BufferCache, pid: nat, L: Layout, h: seq<nat>, ghost data: seq<Block>, ghost boot: bool)
    returns (ok: bool, ghost done: nat)
    requires cache.Valid() && pid != 0 && Calm(cache.model, pid, L, h)
    requires Installable(cache.model, L, h, data) && L.start < |cache.model.content| && |data| == |h|
    modifies cache, cache.ring
    ensures cache.Valid()
    ensures ok ==> Calm(cache.model, pid, L, h) && done == |h| + 1 && Settled(old(cache.model), cache.model, L, h, data)
    ensures !ok ==> done <= |h| && NoneIdle(cache.model.bufs)
    ensures Wrote(old(cache.model).disk, old(cache.journal), cache.model.disk, cache.journal,
                  InstallAndClear(L, h, data, old(cache.model).content[L.start]), done)
    ensures Roomy(old(cache.model), L, h, 0, boot) ==> ok && Roomy(cache.model, L, h, |h|, boot)
    ensures |old(cache.model).bufs| < 2 && |h| > 0 ==> !ok && done == 0
    ensures |h| == 0 ==> (SomeIdle(old(cache.model).bufs) ==> ok) && (!ok ==> done == 0)
  {
    hide *;
    ghost var c0, j0 := cache.model, cache.journal;
    ok, done := InstallTrans(cache, pid, L, h, data, boot);
    ghost var c1, j1 := cache.model, cache.journal;
    InstallingIsPartial(c0, j0, c1, j1, L, h, data, done);
    InstallingTidy(c0, j0, c1, j1, L, h, data, done);
    if ok {
      DiskIs(cache);
      ghost var i;
      ok, i := WriteHead(cache, pid, L, [], h);
      DiskIs(cache);
      if |h| == 0 && SomeIdle(c0.bufs) {
        SomeIdleReads(c0);
      }
      if Roomy(c0, L, h, 0, boot) {
        if boot {
          BootIdle(c1, L, h, |h|);
        } else {
          RoomyIdle(c1, L, h, |h|);
        }
        if ok {
          HeadRoom(c1, cache.model, j1, cache.journal, L, [], h, |h|, boot, i);
        }
      }
      if ok {
        ClearAfterInstall(c0, j0, c1, j1, cache.model, cache.journal, L, h, data);
        done := |h| + 1;
      }
    }
  }
}
