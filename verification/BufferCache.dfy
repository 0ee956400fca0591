/** bio.c: the buffer cache as an object. Each method is one atomic step (or, for Bread
    and Brelse, the steps one after the other), and is proved to do what CacheModel says. */
module BufferCaches {
  import opened Blocks
  import opened CacheModel
  import opened LruRing
  import opened RedoLog
  import opened Wrappers

  /** The list is sorted by the time of the last release to refcnt 0, latest first. */
  ghost predicate Recency(order: seq<nat>, stamp: seq<int>, clock: int) {
    && |stamp| == |order|
    && (forall i :: 0 <= i < |stamp| ==> stamp[i] < clock)
    && (forall j :: 0 <= j < |order| ==> order[j] < |stamp|)
    && (forall j, k :: 0 <= j < k < |order| ==> stamp[order[j]] > stamp[order[k]])
  }

  lemma ReleasedLast(order: seq<nat>, pos: seq<int>, h: nat, stamp: seq<int>, clock: int, b: nat)
    requires Lists(order, pos, h) && Recency(order, stamp, clock) && b < h
    ensures Recency(ToFront(order, pos[b]), stamp[b := clock], clock + 1)
  {
    var order', stamp' := ToFront(order, pos[b]), stamp[b := clock];
    forall j, k | 0 <= j < k < |order'|
      ensures stamp'[order'[j]] > stamp'[order'[k]]
    {
      var k0 := if k <= pos[b] then k - 1 else k;
      assert order'[k] == order[k0] && order[k0] != b;
      if j != 0 {
        var j0 := if j <= pos[b] then j - 1 else j;
        assert order'[j] == order[j0] && order[j0] != b;
      }
    }
  }

  class BufferCache {
    const ring: Ring
    var bufs: seq<Buf>
    /** memdisk */
    var disk: Image
    ghost var model: Cache
    /** When each buffer was last released to refcnt 0. */
    ghost var stamp: seq<int>
    ghost var clock: int
    /** Every block write so far, oldest first. */
    ghost var journal: seq<Write>

    ghost predicate Valid()
      reads this, ring
    {
      && ring.Valid() && ring.size == |bufs|
      && model.bufs == bufs && model.disk == disk && Inv(model)
      && Recency(ring.order, stamp, clock)
    }

    /** binit over an existing disk: nothing is cached yet. */
    constructor (nbuf: nat, image: Image)
      ensures Valid() && fresh(ring) && disk == image && model.content == image && |bufs| == nbuf
      ensures model.touched == {} && model.slot == map[] && journal == []
      ensures forall i :: 0 <= i < nbuf ==> bufs[i].refcnt == 0 && !bufs[i].dirty && bufs[i].holder == 0
    {
      ring := new Ring(nbuf);
      bufs := seq(nbuf, _ => Buf(0, 0, false, false, 0, 0, ZeroBlock()));
      disk := image;
      model := Cache(seq(nbuf, _ => Buf(0, 0, false, false, 0, 0, ZeroBlock())), image, image,
                     seq(nbuf, _ => {}), {}, map[]);
      stamp := seq(nbuf, i => i);
      clock := nbuf;
      journal := [];
    }

    /** bget up to acquiresleep: a reference to the cached buffer, or else to the clean
        idle buffer that has been idle longest; None is the panic "no buffers". */
    method Get(pid: nat, dev: nat, blockno: nat) returns (r: Option<nat>)
      requires Valid() && pid != 0
      requires forall i :: 0 <= i < |bufs| && bufs[i].Is(dev, blockno) ==> pid !in model.refs[i]
      modifies this`bufs, this`model
      ensures Valid()
      ensures r.Some? ==> r.value < |old(bufs)| && model == GetResult(old(model), pid, r.value, dev, blockno)
      ensures r.Some? && !old(bufs)[r.value].Is(dev, blockno) ==>
                && Absent(old(bufs), dev, blockno)
                && old(bufs)[r.value].Recyclable()
                && forall i :: 0 <= i < |bufs| && old(bufs)[i].Recyclable() ==> stamp[r.value] <= stamp[i]
      ensures r.Some? ==>
        && model.content == old(model).content && OnlyBuf(old(bufs), bufs, r.value)
        && bufs[r.value].Is(dev, blockno) && pid in model.refs[r.value]
        && bufs[r.value].refcnt == old(bufs)[r.value].refcnt + 1
        && (bufs[r.value].valid <==> old(bufs)[r.value].valid && old(bufs)[r.value].Is(dev, blockno))
      ensures r.None? ==> model == old(model) && Absent(bufs, dev, blockno)
                          && NoneIdle(bufs)
    {
      r := FindCached(dev, blockno);
      if r.Some? {
        var i := r.value;
        HitKeeps(model, pid, i);
        model := Hit(model, pid, i);
        bufs := bufs[i := bufs[i].(refcnt := bufs[i].refcnt + 1)];
        return;
      }
      r := FindIdle();
      if r.Some? {
        var i := r.value;
        RecycleKeeps(model, pid, i, dev, blockno);
        model := Recycle(model, pid, i, dev, blockno);
        bufs := bufs[i := bufs[i].(dev := dev, blockno := blockno, valid := false, dirty := false, refcnt := 1)];
      }
    }

    /** The first loop of bget. */
    method FindCached(dev: nat, blockno: nat) returns (r: Option<nat>)
      requires Valid()
      ensures r.Some? ==> r.value < |bufs| && bufs[r.value].Is(dev, blockno)
      ensures r.None? ==> Absent(bufs, dev, blockno)
    {
      var b := ring.next[ring.size];
      ghost var k := 0;
      while b != ring.size
        invariant 0 <= k <= |bufs| && b == Node(ring.order, ring.size, k)
        invariant forall j :: 0 <= j < k ==> !bufs[ring.order[j]].Is(dev, blockno)
        decreases |bufs| - k
      {
        if bufs[b].Is(dev, blockno) {
          return Some(b);
        }
        assert LinkedAt(ring.order, ring.pos, ring.next, ring.prev, ring.size, b);
        b := ring.next[b];
        k := k + 1;
      }
      forall i | 0 <= i < |bufs|
        ensures !bufs[i].Is(dev, blockno)
      {
        assert ring.order[ring.pos[i]] == i;
      }
      return None;
    }

    /** The second loop of bget, from the least recently released buffer on. */
    method FindIdle() returns (r: Option<nat>)
      requires Valid()
      ensures r.Some? ==> r.value < |bufs| && bufs[r.value].Recyclable()
                          && forall i :: 0 <= i < |bufs| && bufs[i].Recyclable() ==> stamp[r.value] <= stamp[i]
      ensures r.None? ==> NoneIdle(bufs)
    {
      var b := ring.prev[ring.size];
      ghost var k := |bufs| - 1;
      while b != ring.size
        invariant -1 <= k < |bufs| && b == Node(ring.order, ring.size, k)
        invariant forall j :: k < j < |bufs| ==> !bufs[ring.order[j]].Recyclable()
        decreases k
      {
        if bufs[b].Recyclable() {
          forall i | 0 <= i < |bufs| && bufs[i].Recyclable()
            ensures stamp[b] <= stamp[i]
          {
            assert ring.order[ring.pos[i]] == i;
            assert ring.pos[i] <= k;
          }
          return Some(b);
        }
        assert LinkedAt(ring.order, ring.pos, ring.next, ring.prev, ring.size, b);
        b := ring.prev[b];
        k := k - 1;
      }
      forall i | 0 <= i < |bufs|
        ensures !bufs[i].Recyclable()
      {
        assert ring.order[ring.pos[i]] == i;
      }
      return None;
    }

    /** acquiresleep(&b->lock) by a process that finds it free. */
    method Lock(pid: nat, i: nat)
      requires Valid() && pid != 0 && i < |bufs| && pid in model.refs[i] && bufs[i].holder == 0
      modifies this`bufs, this`model
      ensures Valid() && model == SetHolder(old(model), i, pid)
      ensures OnlyBuf(old(bufs), bufs, i) && bufs[i] == old(bufs)[i].(holder := pid)
    {
      LockKeeps(model, i, pid);
      model := SetHolder(model, i, pid);
      bufs := bufs[i := bufs[i].(holder := pid)];
    }

    /** The rest of bread; false is one of iderw's panics (wrong device, block out of
        range). What the caller then sees is the newest value of the block. */
    method Load(pid: nat, i: nat) returns (ok: bool)
      requires Valid() && i < |bufs| && bufs[i].holder == pid != 0
      modifies this`bufs, this`model
      ensures Valid()
      ensures ok <==> old(bufs[i].valid) || (old(bufs[i].dev) == DISK_DEV && old(bufs[i].blockno) < |disk|)
      ensures model == if ok && !old(bufs[i].valid) then Fill(old(model), i) else old(model)
      ensures ok ==> bufs[i].valid && bufs[i].blockno < |disk|
                     && bufs[i].data == model.content[bufs[i].blockno]
    {
      if bufs[i].valid {
        return true;
      }
      if bufs[i].dev != DISK_DEV || bufs[i].blockno >= |disk| {
        return false;
      }
      FillKeeps(model, i);
      model := Fill(model, i);
      bufs := bufs[i := bufs[i].(valid := true, data := disk[bufs[i].blockno])];
      return true;
    }

    /** The caller's changes to b->data. */
    method Store(pid: nat, i: nat, data: Block)
      requires Valid() && i < |bufs| && bufs[i].holder == pid != 0 && bufs[i].valid
      modifies this`bufs, this`model
      ensures Valid() && model == Modify(old(model), i, data)
      ensures OnlyBuf(old(bufs), bufs, i) && bufs[i] == old(bufs)[i].(data := data)
      ensures model.content[bufs[i].blockno] == data
      ensures forall b :: 0 <= b < |disk| && b != bufs[i].blockno ==> model.content[b] == old(model).content[b]
    {
      ModifyKeeps(model, i, data);
      model := Modify(model, i, data);
      bufs := bufs[i := bufs[i].(data := data)];
    }

    /** bwrite: the only operation that writes the disk. */
    method Bwrite(pid: nat, i: nat)
      requires Valid() && i < |bufs| && bufs[i].holder == pid != 0 && bufs[i].valid
      modifies this`bufs, this`model, this`disk, this`journal
      ensures Valid() && model == WriteThrough(old(model), i)
      ensures journal == old(journal) + [Write(old(bufs[i].blockno), old(bufs[i].data))]
      ensures OnlyBuf(old(bufs), bufs, i) && bufs[i] == old(bufs)[i].(dirty := false)
      ensures disk == old(disk)[bufs[i].blockno := bufs[i].data] && model.content == old(model).content
    {
      WriteThroughKeeps(model, i);
      model := WriteThrough(model, i);
      journal := journal + [Write(bufs[i].blockno, bufs[i].data)];
      disk := disk[bufs[i].blockno := bufs[i].data];
      bufs := bufs[i := bufs[i].(valid := true, dirty := false)];
    }

    /** b->flags |= B_DIRTY in log_write. */
    method SetDirty(pid: nat, i: nat)
      requires Valid() && i < |bufs| && bufs[i].holder == pid != 0 && bufs[i].valid
      modifies this`bufs, this`model
      ensures Valid() && model == Pin(old(model), i)
      ensures OnlyBuf(old(bufs), bufs, i) && bufs[i] == old(bufs)[i].(dirty := true)
      ensures model.content == old(model).content && model.touched == old(model).touched - {i}
    {
      PinKeeps(model, i);
      model := Pin(model, i);
      bufs := bufs[i := bufs[i].(dirty := true)];
    }

    /** The first half of brelse: releasesleep. The caller has logged or written what it
        changed. */
    method Unlock(pid: nat, i: nat)
      requires Valid() && i < |bufs| && bufs[i].holder == pid != 0 && i !in model.touched
      modifies this`bufs, this`model
      ensures Valid() && model == SetHolder(old(model), i, 0)
      ensures OnlyBuf(old(bufs), bufs, i) && bufs[i] == old(bufs)[i].(holder := 0)
    {
      UnlockKeeps(model, i);
      model := SetHolder(model, i, 0);
      bufs := bufs[i := bufs[i].(holder := 0)];
    }

    /** The second half of brelse: the last reference moves the buffer to the front. */
    method Release(pid: nat, i: nat)
      requires Valid() && i < |bufs| && pid in model.refs[i] && bufs[i].holder != pid
      modifies this`bufs, this`model, this`stamp, this`clock, ring
      ensures Valid() && old(bufs[i].refcnt) > 0 && model == Drop(old(model), pid, i)
      ensures OnlyBuf(old(bufs), bufs, i) && bufs[i] == old(bufs)[i].(refcnt := old(bufs)[i].refcnt - 1)
      ensures if bufs[i].refcnt == 0 then stamp == old(stamp)[i := old(clock)] else stamp == old(stamp)
    {
      DropKeeps(model, pid, i);
      model := Drop(model, pid, i);
      bufs := bufs[i := bufs[i].(refcnt := bufs[i].refcnt - 1)];
      if bufs[i].refcnt == 0 {
        ReleasedLast(ring.order, ring.pos, ring.size, stamp, clock, i);
        ring.MoveToFront(i);
        stamp, clock := stamp[i := clock], clock + 1;
      }
    }

    /** bread by a process that need not wait: bget, acquiresleep, and the disk read. */
    method Bread(pid: nat, blockno: nat) returns (r: Option<nat>)
      requires Valid() && pid != 0 && blockno < |disk|
      requires forall i :: 0 <= i < |bufs| && bufs[i].Is(DISK_DEV, blockno) ==> Free(model, pid, i)
      modifies this`bufs, this`model
      ensures Valid()
      ensures r.Some? ==> Taken(old(model), model, pid, r.value, blockno)
      ensures r.Some? ==> bufs[r.value].data == model.content[blockno]
      ensures r.None? <==> Absent(old(bufs), DISK_DEV, blockno) && NoneIdle(old(bufs))
      ensures r.None? ==> model == old(model)
    {
      ghost var c := model;
      r := Get(pid, DISK_DEV, blockno);
      if r.Some? {
        var i := r.value;
        ghost var c1 := model;
        GotFree(c, pid, i, blockno);
        Lock(pid, i);
        ghost var c2 := model;
        var ok := Load(pid, i);
        GotTaken(c, c1, c2, model, pid, i, blockno);
      }
    }

    /** brelse, its two halves one after the other. */
    method Brelse(pid: nat, i: nat)
      requires Valid() && i < |bufs| && bufs[i].holder == pid != 0 && i !in model.touched
      modifies this`bufs, this`model, this`stamp, this`clock, ring
      ensures Valid() && Left(old(model), model, pid, i)
    {
      Unlock(pid, i);
      Release(pid, i);
    }
  }

  /** pid neither holds nor waits for buffer i, and nobody has its sleep lock. */
  ghost predicate Free(c: Cache, pid: nat, i: nat) {
    i < |c.bufs| && |c.refs| == |c.bufs| && c.bufs[i].holder == 0 && pid !in c.refs[i]
  }

  /** No buffer but i changed. */
  ghost predicate OnlyBuf(bufs: seq<Buf>, bufs': seq<Buf>, i: nat) {
    i < |bufs| == |bufs'| && forall j :: 0 <= j < |bufs| && j != i ==> bufs'[j] == bufs[j]
  }

  ghost predicate NoneIdle(bufs: seq<Buf>) {
    forall i :: 0 <= i < |bufs| ==> !bufs[i].Recyclable()
  }

  /** Only buffer i may differ; what the cache stands for is the same. */
  ghost predicate SameBut(c: Cache, c': Cache, i: nat) {
    && |c'.bufs| == |c.bufs| && |c.refs| == |c.bufs| && |c'.refs| == |c.bufs| && i < |c.bufs|
    && c'.disk == c.disk && c'.content == c.content && c'.touched == c.touched && c'.slot == c.slot
    && forall j :: 0 <= j < |c.bufs| && j != i ==> c'.bufs[j] == c.bufs[j] && c'.refs[j] == c.refs[j]
  }

  /** bread gave pid buffer i, which had the block already or was idle and clean. */
  ghost predicate Taken(c: Cache, c': Cache, pid: nat, i: nat, blockno: nat) {
    && SameBut(c, c', i)
    && c'.bufs[i].Is(DISK_DEV, blockno) && c'.bufs[i].valid && c'.bufs[i].holder == pid
    && (if c.bufs[i].Is(DISK_DEV, blockno)
        then c'.refs[i] == c.refs[i] + {pid} && c'.bufs[i].dirty == c.bufs[i].dirty
        else c.bufs[i].Recyclable() && c'.refs[i] == {pid} && !c'.bufs[i].dirty)
  }

  /** brelse took the lock and one reference away from buffer i. */
  ghost predicate Left(c: Cache, c': Cache, pid: nat, i: nat) {
    && SameBut(c, c', i) && c.bufs[i].refcnt > 0
    && c'.bufs[i] == c.bufs[i].(holder := 0, refcnt := c.bufs[i].refcnt - 1)
    && c'.refs[i] == c.refs[i] - {pid}
  }

  lemma GotFree(c: Cache, pid: nat, i: nat, blockno: nat)
    requires i < |c.bufs| && |c.refs| == |c.bufs|
    requires c.bufs[i].Is(DISK_DEV, blockno) ==> Free(c, pid, i)
    requires !c.bufs[i].Is(DISK_DEV, blockno) ==> Inv(c) && c.bufs[i].Recyclable()
    ensures var c' := GetResult(c, pid, i, DISK_DEV, blockno);
      pid in c'.refs[i] && c'.bufs[i].holder == 0 && c'.bufs[i].Is(DISK_DEV, blockno)
  {
    assert !c.bufs[i].Is(DISK_DEV, blockno) ==> c.refs[i] == {};
  }

  lemma GotTaken(c: Cache, c1: Cache, c2: Cache, c3: Cache, pid: nat, i: nat, blockno: nat)
    requires i < |c.bufs| && |c.refs| == |c.bufs| && c1 == GetResult(c, pid, i, DISK_DEV, blockno)
    requires c2 == SetHolder(c1, i, pid) && blockno < |c2.disk|
    requires c3 == if c2.bufs[i].valid then c2 else Fill(c2, i)
    requires !c.bufs[i].Is(DISK_DEV, blockno) ==> c.bufs[i].Recyclable()
    ensures Taken(c, c3, pid, i, blockno)
  {
  }

  ghost predicate Absent(bufs: seq<Buf>, dev: nat, blockno: nat) {
    forall i :: 0 <= i < |bufs| ==> !bufs[i].Is(dev, blockno)
  }

  ghost function GetResult(c: Cache, pid: nat, i: nat, dev: nat, blockno: nat): Cache
    requires i < |c.bufs| && |c.refs| == |c.bufs|
  {
    if c.bufs[i].Is(dev, blockno) then Hit(c, pid, i) else Recycle(c, pid, i, dev, blockno)
  }
}
