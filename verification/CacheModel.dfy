/** The buffer cache of bio.c on values: what each atomic step of bget, bread, bwrite,
    log_write and brelse does, and the invariants every interleaving of them keeps.
    A step is what runs under one hold of `bcache.lock` or of a buffer's sleep lock. */
module CacheModel {
  import opened Blocks
  import opened RedoLog

  /** ROOTDEV: iderw serves this device only. */
  const DISK_DEV: nat := 1

  /** `struct buf`; holder is the pid in the buffer's sleep lock, 0 when unlocked. */
  datatype Buf = Buf(dev: nat, blockno: nat, valid: bool, dirty: bool,
                     refcnt: nat, holder: nat, data: Block) {
    predicate Is(d: nat, b: nat) { dev == d && blockno == b }

    /** What bget's second loop may recycle. */
    predicate Recyclable() { refcnt == 0 && !dirty }
  }

  /** The buffers and the disk, and beside them what the cache stands for:
      content  the block map the file system believes it has,
      refs     the processes counted by each refcnt,
      touched  buffers changed since they were last logged or written,
      slot     for each block whose disk copy is out of date, the buffer that has it. */
  datatype Cache = Cache(bufs: seq<Buf>, disk: Image, content: Image,
                         refs: seq<set<nat>>, touched: set<nat>, slot: map<nat, nat>)

  // ---- Invariant --------------------------------------------------------------

  /** refcnt counts the processes that hold or wait for the buffer; the one that has
      the sleep lock is among them. */
  predicate Counted(c: Cache) {
    && |c.refs| == |c.bufs|
    && forall i :: 0 <= i < |c.bufs| ==>
        && c.bufs[i].refcnt == |c.refs[i]|
        && (c.bufs[i].holder != 0 ==> c.bufs[i].holder in c.refs[i])
  }

  /** No two buffers hold the same block of a device other than 0. */
  predicate Unique(c: Cache) {
    forall i, j :: 0 <= i < |c.bufs| && 0 <= j < |c.bufs| && c.bufs[i].dev != 0
                   && c.bufs[i].Is(c.bufs[j].dev, c.bufs[j].blockno)
                   ==> i == j
  }

  /** A valid buffer holds the newest value of its block. */
  predicate Current(c: Cache) {
    && |c.content| == |c.disk|
    && forall i :: 0 <= i < |c.bufs| && c.bufs[i].valid ==>
        && c.bufs[i].dev == DISK_DEV && c.bufs[i].blockno < |c.disk|
        && c.bufs[i].data == c.content[c.bufs[i].blockno]
  }

  /** Buffer i is the only up-to-date copy of block b and cannot be recycled. */
  predicate Keeps(c: Cache, b: nat, i: nat) {
    && i < |c.bufs| && c.bufs[i].Is(DISK_DEV, b) && c.bufs[i].valid
    && (c.bufs[i].dirty || i in c.touched)
  }

  predicate Pinned(c: Cache)
    requires |c.content| == |c.disk|
  {
    && (forall i :: i in c.touched ==> i < |c.bufs| && c.bufs[i].holder != 0 && c.bufs[i].valid)
    && (forall i :: 0 <= i < |c.bufs| && c.bufs[i].dirty ==> c.bufs[i].valid && c.bufs[i].blockno in c.slot)
    && (forall b :: b in c.slot ==> Keeps(c, b, c.slot[b]))
    && (forall b :: 0 <= b < |c.disk| && b !in c.slot ==> c.content[b] == c.disk[b])
  }

  predicate Inv(c: Cache) {
    Counted(c) && Unique(c) && Current(c) && Pinned(c)
  }

  /** What a reader that looks in the cache first and then on disk would find. */
  function Lookup(c: Cache, b: nat, i: nat): Block
    requires i <= |c.bufs| && b < |c.disk|
    decreases |c.bufs| - i
  {
    if i == |c.bufs| then c.disk[b]
    else if c.bufs[i].Is(DISK_DEV, b) && c.bufs[i].valid then c.bufs[i].data
    else Lookup(c, b, i + 1)
  }

  /** Cache and disk together are one block map: `content`. */
  lemma {:induction false} CacheRefinesMap(c: Cache, b: nat, i: nat)
    requires Inv(c) && b < |c.disk| && i <= |c.bufs|
    requires forall j :: 0 <= j < i ==> !(c.bufs[j].Is(DISK_DEV, b) && c.bufs[j].valid)
    ensures Lookup(c, b, i) == c.content[b]
    decreases |c.bufs| - i
  {
    if i < |c.bufs| && !(c.bufs[i].Is(DISK_DEV, b) && c.bufs[i].valid) {
      CacheRefinesMap(c, b, i + 1);
    } else if i == |c.bufs| {
      assert b in c.slot ==> Keeps(c, b, c.slot[b]);
    }
  }

  // ---- Steps ------------------------------------------------------------------

  /** bget found the block: one more reference. */
  function Hit(c: Cache, pid: nat, i: nat): Cache
    requires i < |c.bufs| && |c.refs| == |c.bufs|
  {
    var b := c.bufs[i];
    c.(bufs := c.bufs[i := b.(refcnt := b.refcnt + 1)], refs := c.refs[i := c.refs[i] + {pid}])
  }

  /** bget recycles buffer i for another block; its data is stale, hence not valid. */
  function Recycle(c: Cache, pid: nat, i: nat, dev: nat, blockno: nat): Cache
    requires i < |c.bufs| && |c.refs| == |c.bufs|
  {
    var b := c.bufs[i];
    c.(bufs := c.bufs[i := b.(dev := dev, blockno := blockno, valid := false, dirty := false, refcnt := 1)],
       refs := c.refs[i := {pid}])
  }

  /** acquiresleep (pid != 0) and releasesleep (pid == 0) on the buffer. */
  function SetHolder(c: Cache, i: nat, pid: nat): Cache
    requires i < |c.bufs|
  {
    c.(bufs := c.bufs[i := c.bufs[i].(holder := pid)])
  }

  /** iderw on a clean buffer: read it from disk. */
  function Fill(c: Cache, i: nat): Cache
    requires i < |c.bufs| && c.bufs[i].blockno < |c.disk|
  {
    c.(bufs := c.bufs[i := c.bufs[i].(valid := true, data := c.disk[c.bufs[i].blockno])])
  }

  /** The client changes b->data. */
  function Modify(c: Cache, i: nat, data: Block): Cache
    requires i < |c.bufs| && c.bufs[i].blockno < |c.content|
  {
    var bno := c.bufs[i].blockno;
    c.(bufs := c.bufs[i := c.bufs[i].(data := data)], content := c.content[bno := data],
       touched := c.touched + {i}, slot := c.slot[bno := i])
  }

  /** bwrite: B_DIRTY is set, iderw writes the block out and clears it again. */
  function WriteThrough(c: Cache, i: nat): Cache
    requires i < |c.bufs| && c.bufs[i].blockno < |c.disk|
  {
    var b := c.bufs[i];
    c.(bufs := c.bufs[i := b.(valid := true, dirty := false)], disk := c.disk[b.blockno := b.data],
       touched := c.touched - {i}, slot := c.slot - {b.blockno})
  }

  /** log_write: B_DIRTY keeps the buffer until commit has written it home. */
  function Pin(c: Cache, i: nat): Cache
    requires i < |c.bufs|
  {
    c.(bufs := c.bufs[i := c.bufs[i].(dirty := true)], touched := c.touched - {i},
       slot := c.slot[c.bufs[i].blockno := i])
  }

  /** The second half of brelse: one reference less. */
  function Drop(c: Cache, pid: nat, i: nat): Cache
    requires i < |c.bufs| && |c.refs| == |c.bufs| && c.bufs[i].refcnt > 0
  {
    var b := c.bufs[i];
    c.(bufs := c.bufs[i := b.(refcnt := b.refcnt - 1)], refs := c.refs[i := c.refs[i] - {pid}])
  }

  // ---- Every step keeps the invariant -----------------------------------------

  lemma HitKeeps(c: Cache, pid: nat, i: nat)
    requires Inv(c) && i < |c.bufs| && pid !in c.refs[i]
    ensures Inv(Hit(c, pid, i))
  {
    var c' := Hit(c, pid, i);
    assert Counted(c') && Unique(c') && Current(c');
    assert forall b :: b in c.slot ==> Keeps(c, b, c.slot[b]) ==> Keeps(c', b, c.slot[b]);
  }

  lemma RecycleKeeps(c: Cache, pid: nat, i: nat, dev: nat, blockno: nat)
    requires Inv(c) && i < |c.bufs| && c.bufs[i].Recyclable()
    requires forall j :: 0 <= j < |c.bufs| ==> !c.bufs[j].Is(dev, blockno)
    ensures Inv(Recycle(c, pid, i, dev, blockno))
  {
    var c' := Recycle(c, pid, i, dev, blockno);
    assert c.refs[i] == {};
    assert Counted(c') && Unique(c') && Current(c');
    assert forall b :: b in c.slot ==> Keeps(c, b, c.slot[b]) ==> Keeps(c', b, c.slot[b]);
  }

  lemma LockKeeps(c: Cache, i: nat, pid: nat)
    requires Inv(c) && i < |c.bufs| && pid in c.refs[i] && c.bufs[i].holder == 0 && pid != 0
    ensures Inv(SetHolder(c, i, pid))
  {
    var c' := SetHolder(c, i, pid);
    assert Counted(c') && Unique(c') && Current(c');
    assert forall b :: b in c.slot ==> Keeps(c, b, c.slot[b]) ==> Keeps(c', b, c.slot[b]);
  }

  lemma UnlockKeeps(c: Cache, i: nat)
    requires Inv(c) && i < |c.bufs| && i !in c.touched
    ensures Inv(SetHolder(c, i, 0))
  {
    var c' := SetHolder(c, i, 0);
    assert Counted(c') && Unique(c') && Current(c');
    assert forall b :: b in c.slot ==> Keeps(c, b, c.slot[b]) ==> Keeps(c', b, c.slot[b]);
  }

  /** bread: a block that is not cached is up to date on disk, so what is read is the
      newest value. */
  lemma FillKeeps(c: Cache, i: nat)
    requires Inv(c) && i < |c.bufs| && !c.bufs[i].valid
    requires c.bufs[i].dev == DISK_DEV && c.bufs[i].blockno < |c.disk|
    ensures Inv(Fill(c, i))
    ensures Fill(c, i).bufs[i].data == c.content[c.bufs[i].blockno]
  {
    var c' := Fill(c, i);
    var bno := c.bufs[i].blockno;
    assert bno in c.slot ==> Keeps(c, bno, c.slot[bno]);
    assert Counted(c') && Unique(c') && Current(c');
    assert forall b :: b in c.slot ==> Keeps(c, b, c.slot[b]) ==> Keeps(c', b, c.slot[b]);
  }

  lemma ModifyKeeps(c: Cache, i: nat, data: Block)
    requires Inv(c) && i < |c.bufs| && c.bufs[i].valid && c.bufs[i].holder != 0
    ensures Inv(Modify(c, i, data))
  {
    var c' := Modify(c, i, data);
    assert Counted(c') && Unique(c') && Current(c');
    forall b | b in c'.slot
      ensures Keeps(c', b, c'.slot[b])
    {
      assert b in c.slot ==> Keeps(c, b, c.slot[b]);
    }
  }

  lemma WriteThroughFields(c: Cache, i: nat)
    requires Inv(c) && i < |c.bufs| && c.bufs[i].valid
    ensures Counted(WriteThrough(c, i)) && Unique(WriteThrough(c, i)) && Current(WriteThrough(c, i))
  {
    hide Pinned;
  }

  lemma WriteThroughKeeps(c: Cache, i: nat)
    requires Inv(c) && i < |c.bufs| && c.bufs[i].valid
    ensures Inv(WriteThrough(c, i))
  {
    var c' := WriteThrough(c, i);
    WriteThroughFields(c, i);
    hide Counted;
    forall b | b in c'.slot
      ensures Keeps(c', b, c'.slot[b])
    {
      assert Keeps(c, b, c.slot[b]);
    }
  }

  lemma PinFields(c: Cache, i: nat)
    requires Inv(c) && i < |c.bufs| && c.bufs[i].valid
    ensures Counted(Pin(c, i)) && Unique(Pin(c, i)) && Current(Pin(c, i))
  {
    hide Pinned;
  }

  lemma PinSlot(c: Cache, i: nat, b: nat)
    requires Inv(c) && i < |c.bufs| && c.bufs[i].valid && b in Pin(c, i).slot
    ensures Keeps(Pin(c, i), b, Pin(c, i).slot[b])
  {
    assert b in c.slot ==> Keeps(c, b, c.slot[b]);
  }

  lemma PinKeeps(c: Cache, i: nat)
    requires Inv(c) && i < |c.bufs| && c.bufs[i].valid
    ensures Inv(Pin(c, i))
  {
    var c' := Pin(c, i);
    PinFields(c, i);
    forall b | b in c'.slot
      ensures Keeps(c', b, c'.slot[b])
    {
      PinSlot(c, i, b);
    }
    hide Keeps;
    hide Counted;
    hide Unique;
  }

  lemma DropKeeps(c: Cache, pid: nat, i: nat)
    requires Inv(c) && i < |c.bufs| && pid in c.refs[i] && c.bufs[i].holder != pid
    ensures c.bufs[i].refcnt > 0 && Inv(Drop(c, pid, i))
  {
    var c' := Drop(c, pid, i);
    assert Counted(c') && Unique(c') && Current(c');
    assert forall b :: b in c.slot ==> Keeps(c, b, c.slot[b]) ==> Keeps(c', b, c.slot[b]);
  }
}
