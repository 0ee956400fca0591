/** Inodes, their block maps and the free map (fs.h, fs.c) on values: where the blocks of a
    file are, who owns each block, and what each store does to that. */
module FsModel {
  import opened Blocks

  const NDIRECT: int := 12
  const NINDIRECT: int := WORDS
  const MAXFILE: int := NDIRECT + NINDIRECT
  /** Bitmap bits per block. */
  const BPB: int := BSIZE * 8

  // ---- The free map -------------------------------------------------------------

  /** `x & (1 << k)` */
  function BitOf(x: int, k: nat): bool
    decreases k
  {
    if k == 0 then x % 2 == 1 else BitOf(x / 2, k - 1)
  }

  /** `x | (1 << k)` when v, `x & ~(1 << k)` when not. */
  function WithBit(x: int, k: nat, v: bool): int
    decreases k
  {
    if k == 0 then x / 2 * 2 + (if v then 1 else 0) else WithBit(x / 2, k - 1, v) * 2 + x % 2
  }

  lemma {:induction false} BitStore(x: int, k: nat, v: bool, j: nat)
    ensures BitOf(WithBit(x, k, v), j) == if j == k then v else BitOf(x, j)
    decreases k
  {
    if k == 0 {
      assert WithBit(x, k, v) / 2 == x / 2 && WithBit(x, k, v) % 2 == if v then 1 else 0;
    } else {
      var w := WithBit(x / 2, k - 1, v);
      assert WithBit(x, k, v) / 2 == w && WithBit(x, k, v) % 2 == x % 2;
      if j != 0 {
        BitStore(x / 2, k - 1, v, j - 1);
      }
    }
  }

  function Pow2(n: nat): int {
    if n == 0 then 1 else 2 * Pow2(n - 1)
  }

  lemma {:induction false} BitInByte(x: int, k: nat, v: bool, n: nat)
    requires k < n && 0 <= x < Pow2(n)
    ensures 0 <= WithBit(x, k, v) < Pow2(n)
    decreases k
  {
    var p := Pow2(n - 1);
    assert Pow2(n) == 2 * p && x / 2 < p;
    if k != 0 {
      BitInByte(x / 2, k - 1, v, n - 1);
      var w := WithBit(x / 2, k - 1, v);
      assert WithBit(x, k, v) == w * 2 + x % 2;
    }
  }

  lemma ByteRange(x: Byte, k: nat, v: bool)
    requires k < 8
    ensures 0 <= WithBit(x as int, k, v) < 256
  {
    assert Pow2(8) == 256;
    BitInByte(x as int, k, v, 8);
  }

  /** The bit of block b in the bitmap blocks. */
  function Used(bmap: seq<Block>, b: int): bool {
    0 <= b < |bmap| * BPB && BitOf(bmap[b / BPB][b % BPB / 8] as int, b % BPB % 8)
  }

  function WithUsed(bmap: seq<Block>, b: int, v: bool): seq<Block>
    requires 0 <= b < |bmap| * BPB
  {
    var blk := bmap[b / BPB];
    ByteRange(blk[b % BPB / 8], b % BPB % 8, v);
    bmap[b / BPB := blk[b % BPB / 8 := WithBit(blk[b % BPB / 8] as int, b % BPB % 8, v) as Byte]]
  }

  /** Setting or clearing a bit of the free map changes no other. */
  lemma UsedStore(bmap: seq<Block>, b: int, v: bool, c: int)
    requires 0 <= b < |bmap| * BPB
    ensures |WithUsed(bmap, b, v)| == |bmap|
    ensures Used(WithUsed(bmap, b, v), c) == if c == b then v else Used(bmap, c)
  {
    ByteRange(bmap[b / BPB][b % BPB / 8], b % BPB % 8, v);
    if 0 <= c < |bmap| * BPB && c / BPB == b / BPB && c % BPB / 8 == b % BPB / 8 {
      BitStore(bmap[b / BPB][b % BPB / 8] as int, b % BPB % 8, v, c % BPB % 8);
    }
  }

  // ---- State ----------------------------------------------------------------------

  /** The part of an inode that says where its content is. */
  datatype Inode = Inode(size: int, addrs: seq<int>)

  /** Who has a block that the free map calls used: slot s of inode i, or the code that has
      just got it from balloc. Slots 0 to NDIRECT are `addrs`; slot NDIRECT + 1 + j is entry
      j of the indirect block. */
  datatype Owner = Slot(i: int, s: int) | Held

  const NSLOTS: int := NDIRECT + 1 + NINDIRECT

  /** Data and bitmap blocks as the cache and the log present them, the inodes in memory, and
      who owns what. Blocks below nmeta hold the log, the inodes and the free map. */
  datatype Fs = Fs(blocks: seq<Block>, bmap: seq<Block>, nmeta: int, inodes: seq<Inode>, owner: map<int, Owner>)

  function IndirectAt(f: Fs, a: int, j: int): int {
    if 0 < a < |f.blocks| && 0 <= j < NINDIRECT then WordAt(f.blocks[a], j) else 0
  }

  /** The block number in slot s of inode i, 0 for none. */
  function Addr(f: Fs, i: int, s: int): int {
    if !(0 <= i < |f.inodes|) then 0
    else if 0 <= s <= NDIRECT && s < |f.inodes[i].addrs| then f.inodes[i].addrs[s]
    else if NDIRECT < s < NSLOTS && NDIRECT < |f.inodes[i].addrs|
    then IndirectAt(f, f.inodes[i].addrs[NDIRECT], s - NDIRECT - 1)
    else 0
  }

  /** The slot of the bn-th block of a file. */
  function SlotOf(bn: int): int {
    if bn < NDIRECT then bn else bn + 1
  }

  // ---- Ownership --------------------------------------------------------------------

  ghost predicate SlotOwns(f: Fs, i: int, s: int) {
    Addr(f, i, s) != 0 ==> Addr(f, i, s) in f.owner && f.owner[Addr(f, i, s)] == Slot(i, s)
  }

  ghost predicate OwnerRight(f: Fs, b: int)
    requires b in f.owner
  {
    && f.nmeta <= b < |f.blocks|
    && (f.owner[b].Slot? ==>
          && 0 <= f.owner[b].i < |f.inodes| && 0 <= f.owner[b].s < NSLOTS
          && Addr(f, f.owner[b].i, f.owner[b].s) == b)
  }

  /** The metadata blocks and the blocks of all inodes are pairwise disjoint, and are exactly
      the set bits of the free map. */
  ghost predicate Inv(f: Fs) {
    && 0 < f.nmeta <= |f.blocks| <= |f.bmap| * BPB && |f.blocks| <= WORD_LIMIT
    && (forall i :: 0 <= i < |f.inodes| ==> |f.inodes[i].addrs| == NDIRECT + 1)
    && (forall i, s :: 0 <= i < |f.inodes| && 0 <= s < NSLOTS ==> SlotOwns(f, i, s))
    && (forall b :: b in f.owner ==> OwnerRight(f, b))
    && (forall b :: 0 <= b < |f.blocks| ==> (Used(f.bmap, b) <==> b < f.nmeta || b in f.owner))
  }

  /** Inode i has exactly its first nb blocks, and the indirect block exactly if it needs it. */
  ghost predicate HasBlocks(f: Fs, i: int, nb: int) {
    && 0 <= nb <= MAXFILE
    && (forall bn :: 0 <= bn < MAXFILE ==> (Addr(f, i, SlotOf(bn)) != 0 <==> bn < nb))
    && (Addr(f, i, NDIRECT) != 0 <==> nb > NDIRECT)
  }

  /** Byte k of inode i. */
  function ByteAt(f: Fs, i: int, k: int): Byte {
    var a := Addr(f, i, SlotOf(k / BSIZE));
    if 0 < a < |f.blocks| then f.blocks[a][k % BSIZE] else 0
  }

  /** Inode j is untouched: same size, same blocks, same content. */
  ghost predicate SameInode(f: Fs, f': Fs, j: int) {
    && 0 <= j < |f.inodes| && |f'.inodes| == |f.inodes| && f'.inodes[j] == f.inodes[j]
    && (forall s :: 0 <= s < NSLOTS ==> Addr(f', j, s) == Addr(f, j, s))
    && (forall k :: 0 <= k < MAXFILE * BSIZE ==> ByteAt(f', j, k) == ByteAt(f, j, k))
  }

  // ---- Steps ----------------------------------------------------------------------------

  /** balloc found b: its bit is set and the block zeroed. */
  function Alloc(f: Fs, b: int): Fs
    requires 0 <= b < |f.blocks| && b < |f.bmap| * BPB
  {
    f.(bmap := WithUsed(f.bmap, b, true), blocks := f.blocks[b := ZeroBlock()], owner := f.owner[b := Held])
  }

  /** bfree */
  function Free(f: Fs, b: int): Fs
    requires 0 <= b < |f.bmap| * BPB
  {
    f.(bmap := WithUsed(f.bmap, b, false), owner := f.owner - {b})
  }

  /** `ip->addrs[s] = b` */
  function SetAddr(f: Fs, i: int, s: int, b: int): Fs
    requires 0 <= i < |f.inodes| && 0 <= s < |f.inodes[i].addrs|
  {
    f.(inodes := f.inodes[i := f.inodes[i].(addrs := f.inodes[i].addrs[s := b])])
  }

  /** bmap puts b into slot s of inode i: into addrs, or into the indirect block. */
  function Attach(f: Fs, i: int, s: int, b: int): Fs
    requires 0 <= i < |f.inodes| && |f.inodes[i].addrs| == NDIRECT + 1 && 0 <= s < NSLOTS && b >= 0
    requires s > NDIRECT ==> 0 <= f.inodes[i].addrs[NDIRECT] < |f.blocks|
  {
    var f' := f.(owner := f.owner[b := Slot(i, s)]);
    if s <= NDIRECT then SetAddr(f', i, s, b)
    else
      var a := f.inodes[i].addrs[NDIRECT];
      f'.(blocks := f.blocks[a := SetWord(f.blocks[a], s - NDIRECT - 1, b)])
  }

  /** The content of a data block changes. */
  function Put(f: Fs, a: int, data: Block): Fs
    requires 0 <= a < |f.blocks|
  {
    f.(blocks := f.blocks[a := data])
  }

  // ---- Every step keeps ownership -----------------------------------------------------------

  ghost predicate SameAddrs(f: Fs, f': Fs) {
    && |f'.inodes| == |f.inodes|
    && forall i, s :: 0 <= i < |f.inodes| && 0 <= s < NSLOTS ==> Addr(f', i, s) == Addr(f, i, s)
  }

  /** A block that no slot points to can change without any slot changing. */
  lemma LooseBlock(f: Fs, f': Fs, b: int)
    requires Inv(f) && f'.inodes == f.inodes && |f'.blocks| == |f.blocks|
    requires b in f.owner ==> f.owner[b] == Held
    requires forall a :: 0 <= a < |f.blocks| && a != b ==> f'.blocks[a] == f.blocks[a]
    ensures SameAddrs(f, f')
    ensures forall i, k :: 0 <= i < |f.inodes| && 0 <= k < MAXFILE * BSIZE ==> ByteAt(f', i, k) == ByteAt(f, i, k)
  {
    hide WordAt;
    forall i, s | 0 <= i < |f.inodes| && 0 <= s < NSLOTS
      ensures Addr(f', i, s) == Addr(f, i, s)
    {
      assert SlotOwns(f, i, NDIRECT);
    }
    forall i, k | 0 <= i < |f.inodes| && 0 <= k < MAXFILE * BSIZE
      ensures ByteAt(f', i, k) == ByteAt(f, i, k)
    {
      assert SlotOwns(f, i, SlotOf(k / BSIZE));
    }
  }

  lemma AllocKeeps(f: Fs, b: int)
    requires Inv(f) && 0 <= b < |f.blocks| && !Used(f.bmap, b)
    ensures Inv(Alloc(f, b)) && b !in f.owner && f.nmeta <= b && SameAddrs(f, Alloc(f, b))
    ensures forall i :: 0 <= i < |f.inodes| ==> SameInode(f, Alloc(f, b), i)
  {
    hide Used;
    hide WithUsed;
    hide WordAt;
    var f' := Alloc(f, b);
    LooseBlock(f, f', b);
    forall c | 0 <= c < |f.blocks|
      ensures Used(f'.bmap, c) <==> c < f'.nmeta || c in f'.owner
    {
      UsedStore(f.bmap, b, true, c);
    }
    UsedStore(f.bmap, b, true, b);
    forall i, s | 0 <= i < |f.inodes| && 0 <= s < NSLOTS
      ensures SlotOwns(f', i, s)
    {
      assert SlotOwns(f, i, s);
    }
    forall c | c in f'.owner
      ensures OwnerRight(f', c)
    {
      assert c in f.owner ==> OwnerRight(f, c);
    }
  }

  lemma FreeKeeps(f: Fs, b: int)
    requires Inv(f) && b in f.owner && f.owner[b] == Held
    ensures 0 <= b < |f.bmap| * BPB && Used(f.bmap, b)
    ensures Inv(Free(f, b)) && SameAddrs(f, Free(f, b))
    ensures forall i :: 0 <= i < |f.inodes| ==> SameInode(f, Free(f, b), i)
  {
    hide Used;
    hide WithUsed;
    hide WordAt;
    assert OwnerRight(f, b);
    var f' := Free(f, b);
    LooseBlock(f, f', b);
    forall c | 0 <= c < |f.blocks|
      ensures Used(f'.bmap, c) <==> c < f'.nmeta || c in f'.owner
    {
      UsedStore(f.bmap, b, false, c);
    }
    UsedStore(f.bmap, b, false, b);
    forall i, s | 0 <= i < |f.inodes| && 0 <= s < NSLOTS
      ensures SlotOwns(f', i, s)
    {
      assert SlotOwns(f, i, s);
    }
    forall c | c in f'.owner
      ensures OwnerRight(f', c)
    {
      assert OwnerRight(f, c);
    }
  }

  /** b may be put into slot s of inode i. */
  ghost predicate MayAttach(f: Fs, i: int, s: int, b: int) {
    && Inv(f) && 0 <= i < |f.inodes| && 0 <= s < NSLOTS && b in f.owner && f.owner[b] == Held
    && Addr(f, i, s) == 0
    && (s > NDIRECT ==> Addr(f, i, NDIRECT) != 0)
    && (s == NDIRECT ==> 0 <= b < |f.blocks| && f.blocks[b] == ZeroBlock())
  }

  /** Only slot s of inode i changes. */
  lemma AttachAddr(f: Fs, i: int, s: int, b: int, f': Fs, j: int, t: int)
    requires MayAttach(f, i, s, b) && 0 <= b < |f.blocks|
    requires s > NDIRECT ==> 0 <= f.inodes[i].addrs[NDIRECT] < |f.blocks|
    requires f' == Attach(f, i, s, b) && 0 <= j < |f.inodes| && 0 <= t < NSLOTS
    ensures Addr(f', j, t) == if j == i && t == s then b else Addr(f, j, t)
  {
    hide WordAt;
    hide SetWord;
    assert SlotOwns(f, i, NDIRECT) && SlotOwns(f, j, NDIRECT);
    if s == NDIRECT && t > NDIRECT {
      ZeroWord(t - NDIRECT - 1);
    }
    if s > NDIRECT && t > NDIRECT {
      WordStore(f.blocks[f.inodes[i].addrs[NDIRECT]], s - NDIRECT - 1, b, t - NDIRECT - 1);
    }
  }

  lemma AttachInRange(f: Fs, i: int, s: int, b: int)
    requires MayAttach(f, i, s, b)
    ensures f.nmeta <= b < |f.blocks| && |f.inodes[i].addrs| == NDIRECT + 1
    ensures s > NDIRECT ==> 0 <= f.inodes[i].addrs[NDIRECT] < |f.blocks|
  {
    assert OwnerRight(f, b);
    assert SlotOwns(f, i, NDIRECT);
    if s > NDIRECT {
      assert OwnerRight(f, f.inodes[i].addrs[NDIRECT]);
    }
  }

  lemma AttachKeeps(f: Fs, i: int, s: int, b: int, f': Fs)
    requires MayAttach(f, i, s, b) && f.nmeta <= b < |f.blocks|
    requires s > NDIRECT ==> 0 <= f.inodes[i].addrs[NDIRECT] < |f.blocks|
    requires f' == Attach(f, i, s, b)
    ensures Inv(f')
  {
    hide Used;
    hide Addr;
    forall j, t | 0 <= j < |f.inodes| && 0 <= t < NSLOTS
      ensures SlotOwns(f', j, t)
    {
      AttachAddr(f, i, s, b, f', j, t);
      assert SlotOwns(f, j, t);
    }
    forall c | c in f'.owner
      ensures OwnerRight(f', c)
    {
      assert OwnerRight(f, c);
      if c != b && f.owner[c].Slot? {
        AttachAddr(f, i, s, b, f', f.owner[c].i, f.owner[c].s);
      } else {
        AttachAddr(f, i, s, b, f', i, s);
      }
    }
  }

  /** The bytes that were there stay. */
  lemma AttachBytes(f: Fs, i: int, s: int, b: int, f': Fs, j: int, k: int)
    requires MayAttach(f, i, s, b) && f.nmeta <= b < |f.blocks|
    requires s > NDIRECT ==> 0 <= f.inodes[i].addrs[NDIRECT] < |f.blocks|
    requires f' == Attach(f, i, s, b) && 0 <= j < |f.inodes| && 0 <= k < MAXFILE * BSIZE
    requires j != i || SlotOf(k / BSIZE) != s
    ensures ByteAt(f', j, k) == ByteAt(f, j, k)
  {
    hide Addr;
    hide SetWord;
    var t := SlotOf(k / BSIZE);
    AttachAddr(f, i, s, b, f', j, t);
    assert SlotOwns(f, j, t) && SlotOwns(f, i, NDIRECT);
    if s > NDIRECT {
      AddrIs(f, i, NDIRECT);
    }
    assert f.nmeta > 0;
  }

  lemma AddrIs(f: Fs, i: int, s: int)
    requires 0 <= i < |f.inodes| && |f.inodes[i].addrs| == NDIRECT + 1 && 0 <= s <= NDIRECT
    ensures Addr(f, i, s) == f.inodes[i].addrs[s]
  {
  }

  /** A write to a data block changes that block's bytes and nothing else. */
  lemma PutKeeps(f: Fs, a: int, data: Block, i: int, s: int, f': Fs)
    requires Inv(f) && 0 <= i < |f.inodes| && 0 <= s < NSLOTS && s != NDIRECT && a != 0 && Addr(f, i, s) == a
    requires 0 <= a < |f.blocks| && f' == Put(f, a, data)
    ensures Inv(f') && SameAddrs(f, f')
    ensures forall j, k :: 0 <= j < |f.inodes| && 0 <= k < MAXFILE * BSIZE ==>
              ByteAt(f', j, k) == if j == i && SlotOf(k / BSIZE) == s then data[k % BSIZE] else ByteAt(f, j, k)
  {
    hide WordAt;
    hide Used;
    assert SlotOwns(f, i, s);
    forall j, t | 0 <= j < |f.inodes| && 0 <= t < NSLOTS
      ensures Addr(f', j, t) == Addr(f, j, t)
    {
      assert SlotOwns(f, j, NDIRECT);
    }
    forall j, t | 0 <= j < |f.inodes| && 0 <= t < NSLOTS
      ensures SlotOwns(f', j, t)
    {
      assert SlotOwns(f, j, t);
    }
    forall c | c in f'.owner
      ensures OwnerRight(f', c)
    {
      assert OwnerRight(f, c);
    }
    forall j, k | 0 <= j < |f.inodes| && 0 <= k < MAXFILE * BSIZE
      ensures ByteAt(f', j, k) == if j == i && SlotOf(k / BSIZE) == s then data[k % BSIZE] else ByteAt(f, j, k)
    {
      assert SlotOwns(f, j, SlotOf(k / BSIZE));
    }
  }

  // ---- Files -------------------------------------------------------------------------------------

  function BlocksOf(size: int): int {
    (size + BSIZE - 1) / BSIZE
  }

  /** A file grown from empty: no block below its size is missing and there is none above. */
  ghost predicate FileOk(f: Fs, i: int) {
    && 0 <= i < |f.inodes| && 0 <= f.inodes[i].size <= MAXFILE * BSIZE
    && HasBlocks(f, i, BlocksOf(f.inodes[i].size))
  }

  ghost predicate OthersSame(f: Fs, f': Fs, i: int) {
    && |f'.inodes| == |f.inodes|
    && forall j :: 0 <= j < |f.inodes| && j != i ==> SameInode(f, f', j)
  }

  lemma OthersSameTransitive(f: Fs, f1: Fs, f2: Fs, i: int)
    requires OthersSame(f, f1, i) && OthersSame(f1, f2, i)
    ensures OthersSame(f, f2, i)
  {
    hide Addr;
    hide ByteAt;
    forall j | 0 <= j < |f.inodes| && j != i
      ensures SameInode(f, f2, j)
    {
      assert SameInode(f, f1, j) && SameInode(f1, f2, j);
    }
  }

  /** bmap on the block just past the end: block bn now exists, nothing else has changed. */
  ghost predicate Extended(f: Fs, f': Fs, i: int, bn: int) {
    && Inv(f') && OthersSame(f, f', i) && 0 <= i < |f.inodes| && f'.inodes[i].size == f.inodes[i].size
    && HasBlocks(f', i, bn + 1)
    && forall k :: 0 <= k < bn * BSIZE ==> ByteAt(f', i, k) == ByteAt(f, i, k)
  }

  lemma SlotFacts(bn: int)
    requires 0 <= bn < MAXFILE
    ensures 0 <= SlotOf(bn) < NSLOTS && SlotOf(bn) != NDIRECT
    ensures bn >= NDIRECT ==> SlotOf(bn) > NDIRECT
    ensures bn < NDIRECT ==> SlotOf(bn) == bn
  {
  }

  lemma AttachOther(f: Fs, i: int, s: int, b: int, f': Fs, j: int)
    requires MayAttach(f, i, s, b) && f.nmeta <= b < |f.blocks|
    requires s > NDIRECT ==> 0 <= f.inodes[i].addrs[NDIRECT] < |f.blocks|
    requires f' == Attach(f, i, s, b) && 0 <= j < |f.inodes| && j != i
    ensures SameInode(f, f', j)
  {
    hide Addr;
    hide ByteAt;
    forall t | 0 <= t < NSLOTS
      ensures Addr(f', j, t) == Addr(f, j, t)
    {
      AttachAddr(f, i, s, b, f', j, t);
    }
    forall k | 0 <= k < MAXFILE * BSIZE
      ensures ByteAt(f', j, k) == ByteAt(f, j, k)
    {
      AttachBytes(f, i, s, b, f', j, k);
    }
  }

  /** What balloc has just allocated may go into an empty slot. */
  lemma FreshMayAttach(f: Fs, i: int, s: int, b: int, f1: Fs)
    requires Inv(f) && 0 <= i < |f.inodes| && 0 <= s < NSLOTS && Addr(f, i, s) == 0
    requires s > NDIRECT ==> Addr(f, i, NDIRECT) != 0
    requires 0 <= b < |f.blocks| && !Used(f.bmap, b) && f1 == Alloc(f, b)
    ensures MayAttach(f1, i, s, b) && f1.nmeta <= b < |f1.blocks| && |f1.inodes[i].addrs| == NDIRECT + 1
    ensures s > NDIRECT ==> 0 <= f1.inodes[i].addrs[NDIRECT] < |f1.blocks|
  {
    hide Used;
    hide Addr;
    hide WithUsed;
    AllocKeeps(f, b);
    AttachInRange(f1, i, s, b);
  }

  /** Slot s of inode i, empty before, has the zero block b; no byte of any file has changed. */
  ghost predicate Fills(f: Fs, f': Fs, i: int, s: int, b: int) {
    && Inv(f') && OthersSame(f, f', i) && 0 <= i < |f.inodes| && f'.inodes[i].size == f.inodes[i].size && b != 0
    && (forall t :: 0 <= t < NSLOTS ==> Addr(f', i, t) == if t == s then b else Addr(f, i, t))
    && (forall k :: 0 <= k < MAXFILE * BSIZE ==> ByteAt(f', i, k) == ByteAt(f, i, k))
  }

  /** balloc and the store that follows it. */
  lemma AttachFills(f: Fs, i: int, s: int, b: int, f1: Fs, f2: Fs)
    requires Inv(f) && 0 <= i < |f.inodes| && 0 <= s < NSLOTS
    requires 0 <= b < |f.blocks| && !Used(f.bmap, b) && f1 == Alloc(f, b)
    requires MayAttach(f1, i, s, b) && f1.nmeta <= b < |f1.blocks|
    requires s > NDIRECT ==> 0 <= f1.inodes[i].addrs[NDIRECT] < |f1.blocks|
    requires f2 == Attach(f1, i, s, b)
    ensures Fills(f, f2, i, s, b)
  {
    hide Used;
    hide Addr;
    hide ByteAt;
    hide WithUsed;
    AllocKeeps(f, b);
    AttachKeeps(f1, i, s, b, f2);
    assert SameInode(f, f1, i);
    forall t | 0 <= t < NSLOTS
      ensures Addr(f2, i, t) == if t == s then b else Addr(f, i, t)
    {
      AttachAddr(f1, i, s, b, f2, i, t);
    }
    forall k | 0 <= k < MAXFILE * BSIZE
      ensures ByteAt(f2, i, k) == ByteAt(f, i, k)
    {
      SlotFacts(k / BSIZE);
      if SlotOf(k / BSIZE) == s {
        FreshByte(f, i, s, b, f1, f2, k);
      } else {
        AttachBytes(f1, i, s, b, f2, i, k);
      }
    }
    forall j | 0 <= j < |f.inodes| && j != i
      ensures SameInode(f, f2, j)
    {
      AttachOther(f1, i, s, b, f2, j);
      assert SameInode(f, f1, j);
    }
  }

  /** A block that is missing reads as zeros, and so does a new one. */
  lemma FreshByte(f: Fs, i: int, s: int, b: int, f1: Fs, f2: Fs, k: int)
    requires Inv(f) && 0 <= i < |f.inodes| && 0 <= s < NSLOTS && 0 <= k < MAXFILE * BSIZE && SlotOf(k / BSIZE) == s
    requires 0 <= b < |f.blocks| && b < |f.bmap| * BPB && f1 == Alloc(f, b) && MayAttach(f1, i, s, b)
    requires s > NDIRECT ==> 0 <= f1.inodes[i].addrs[NDIRECT] < |f1.blocks|
    requires |f1.inodes[i].addrs| == NDIRECT + 1 && f2 == Attach(f1, i, s, b) && SameInode(f, f1, i)
    ensures ByteAt(f2, i, k) == ByteAt(f, i, k)
  {
    hide Used;
    hide WithUsed;
    hide WordAt;
    AttachAddr(f1, i, s, b, f2, i, s);
    hide Addr;
    assert Addr(f, i, s) == 0;
    assert SlotOwns(f1, i, NDIRECT);
    if s > NDIRECT {
      AddrIs(f1, i, NDIRECT);
    }
  }

  /** bmap: block bn of inode i is a. If it was there nothing has changed; if not it is new, and
      so is the indirect block if there was none; no byte of any file has changed. */
  ghost predicate Mapped(f: Fs, f': Fs, i: int, bn: int, a: int) {
    && Inv(f') && OthersSame(f, f', i) && 0 <= i < |f.inodes| && f'.inodes[i].size == f.inodes[i].size
    && 0 <= bn < MAXFILE && a != 0 && Addr(f', i, SlotOf(bn)) == a
    && (Addr(f, i, SlotOf(bn)) != 0 ==> f' == f)
    && (forall t :: 0 <= t < NSLOTS && t != SlotOf(bn) && t != NDIRECT ==> Addr(f', i, t) == Addr(f, i, t))
    && (bn < NDIRECT || Addr(f, i, NDIRECT) != 0 ==> Addr(f', i, NDIRECT) == Addr(f, i, NDIRECT))
    && (bn >= NDIRECT ==> Addr(f', i, NDIRECT) != 0)
    && (forall k :: 0 <= k < MAXFILE * BSIZE ==> ByteAt(f', i, k) == ByteAt(f, i, k))
  }

  lemma MappedFound(f: Fs, i: int, bn: int)
    requires Inv(f) && 0 <= i < |f.inodes| && 0 <= bn < MAXFILE && Addr(f, i, SlotOf(bn)) != 0
    ensures Mapped(f, f, i, bn, Addr(f, i, SlotOf(bn)))
  {
    hide Inv;
    hide ByteAt;
    hide WordAt;
    SlotFacts(bn);
  }

  lemma MappedFilled(f: Fs, f': Fs, i: int, bn: int, b: int)
    requires 0 <= bn < MAXFILE && Fills(f, f', i, SlotOf(bn), b) && Addr(f, i, SlotOf(bn)) == 0
    requires bn >= NDIRECT ==> Addr(f, i, NDIRECT) != 0
    ensures Mapped(f, f', i, bn, b)
  {
    hide Inv;
    hide ByteAt;
    hide Addr;
    hide OthersSame;
    SlotFacts(bn);
  }

  lemma MappedTwice(f: Fs, f1: Fs, f': Fs, i: int, bn: int, c: int, b: int)
    requires NDIRECT <= bn < MAXFILE && Addr(f, i, NDIRECT) == 0 && Addr(f, i, SlotOf(bn)) == 0
    requires Fills(f, f1, i, NDIRECT, c) && Fills(f1, f', i, SlotOf(bn), b)
    ensures Mapped(f, f', i, bn, b)
  {
    hide Inv;
    hide ByteAt;
    hide Addr;
    SlotFacts(bn);
    OthersSameTransitive(f, f1, f', i);
    hide OthersSame;
  }

  /** Without an indirect block none of the blocks it would list is there. */
  lemma NoIndirectBlock(f: Fs, i: int, bn: int)
    requires NDIRECT <= bn < MAXFILE && 0 <= i < |f.inodes| && |f.inodes[i].addrs| == NDIRECT + 1
    requires Addr(f, i, NDIRECT) == 0
    ensures Addr(f, i, SlotOf(bn)) == 0
  {
    hide WordAt;
  }

  /** On a file without holes bmap finds the block or adds the next one. */
  lemma MappedExtends(f: Fs, f': Fs, i: int, nb: int, bn: int, a: int)
    requires Inv(f) && HasBlocks(f, i, nb) && 0 <= bn <= nb && Mapped(f, f', i, bn, a)
    ensures bn < nb ==> f' == f
    ensures bn == nb ==> Extended(f, f', i, bn)
  {
    hide Inv;
    hide ByteAt;
    hide Addr;
    hide OthersSame;
    SlotFacts(bn);
    forall c | 0 <= c < MAXFILE
      ensures bn == nb ==> (Addr(f', i, SlotOf(c)) != 0 <==> c < bn + 1)
    {
      SlotFacts(c);
    }
  }
}
