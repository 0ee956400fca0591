/** readi and writei of fs.c against a plain byte sequence. */
module FileIO {
  import opened Blocks
  import opened FileSystems
  import opened FreeBlocks
  import opened FsModel
  import opened Wrappers

  const UINT_LIMIT: int := 0x1_0000_0000

  /** The content of a file: `size` bytes. */
  ghost function Contents(f: Fs, i: int): seq<Byte>
    requires 0 <= i < |f.inodes| && f.inodes[i].size >= 0
  {
    seq(f.inodes[i].size, k requires 0 <= k < f.inodes[i].size => ByteAt(f, i, k))
  }

  /** c with the bytes from off on replaced by src, and made longer where src reaches past
      its end. */
  ghost function Overwrite(c: seq<Byte>, off: int, src: seq<Byte>): seq<Byte>
    requires 0 <= off <= |c|
  {
    seq(if off + |src| > |c| then off + |src| else |c|,
        k requires 0 <= k && (k < |c| || k < off + |src|) =>
          if off <= k < off + |src| then src[k - off] else c[k])
  }

  // ---- Positions ------------------------------------------------------------------------

  /** Where byte `pos` lies, and how much of the request fits into its block. */
  lemma Position(pos: int, left: int, m: int)
    requires 0 <= pos && 0 < left
    requires m == if left < BSIZE - pos % BSIZE then left else BSIZE - pos % BSIZE
    ensures 0 < m <= left && pos % BSIZE + m <= BSIZE && BlocksOf(pos + m) == pos / BSIZE + 1
    ensures BlocksOf(pos) <= pos / BSIZE + 1
    ensures forall k :: pos <= k < pos + m ==> k / BSIZE == pos / BSIZE && k % BSIZE == pos % BSIZE + k - pos
  {
    forall k | pos <= k < pos + m
      ensures k / BSIZE == pos / BSIZE && k % BSIZE == pos % BSIZE + k - pos
    {
      SameBlock(pos / BSIZE, pos % BSIZE + k - pos);
    }
    SameBlock(pos / BSIZE, pos % BSIZE + m - 1);
  }

  lemma SameBlock(bn: int, q: int)
    requires 0 <= q < BSIZE
    ensures (bn * BSIZE + q) / BSIZE == bn && (bn * BSIZE + q) % BSIZE == q
  {
  }

  lemma BlocksCover(size: int)
    requires 0 <= size
    ensures 0 <= BlocksOf(size) && size <= BlocksOf(size) * BSIZE < size + BSIZE
    ensures size <= MAXFILE * BSIZE ==> BlocksOf(size) <= MAXFILE
  {
  }

  lemma BlocksMonotone(a: int, b: int)
    requires a <= b
    ensures BlocksOf(a) <= BlocksOf(b)
  {
  }

  // ---- The blocks a request lacks -------------------------------------------------------------

  /** Where the loops of readi and writei are after tot of n bytes. */
  lemma TurnBlock(off: int, tot: int, n: int)
    requires 0 <= off && 0 <= tot < n && (tot > 0 ==> (off + tot) % BSIZE == 0)
    ensures 0 <= off / BSIZE <= EndBlock(off, off + tot) == (off + tot) / BSIZE < EndBlock(off, off + n)
  {
  }

  lemma TurnEnd(off: int, tot: int, m: int)
    requires 0 <= off && 0 <= tot && 0 < m && (off + tot) % BSIZE + m <= BSIZE
    ensures EndBlock(off, off + (tot + m)) == (off + tot) / BSIZE + 1
  {
    SameBlock((off + tot) / BSIZE, (off + tot) % BSIZE + m - 1);
  }

  /** bmap for the next block, and what is then done with the block. */
  lemma TurnSpent(f0: Fs, f: Fs, f1: Fs, f2: Fs, i: int, off: int, tot: int, m: int, a: int)
    requires Inv(f0) && 0 <= i < |f0.inodes| && 0 <= off && 0 <= tot && 0 < m && (off + tot) % BSIZE + m <= BSIZE
    requires tot > 0 ==> (off + tot) % BSIZE == 0
    requires Spent(f0, f, i, off / BSIZE, EndBlock(off, off + tot)) && Mapped(f, f1, i, (off + tot) / BSIZE, a)
    requires FreeCount(f1) == FreeCount(f) - Lacks(f, i, (off + tot) / BSIZE)
    requires SameAddrs(f1, f2) && f2.bmap == f1.bmap && |f2.blocks| == |f1.blocks|
    ensures Spent(f0, f2, i, off / BSIZE, EndBlock(off, off + (tot + m)))
  {
    var lo, bn := off / BSIZE, (off + tot) / BSIZE;
    TurnBlock(off, tot, tot + m);
    TurnEnd(off, tot, m);
    MappedAt(f, f1, i, bn, a);
    MappedInodes(f, f1, i, bn, a);
    NoIndirect(f0, i, bn);
    hide *;
    SpentMore(f0, f, f1, i, lo, bn, a);
    SpentKept(f0, f1, f2, i, lo, bn + 1);
  }

  /** bmap fails for the next block. */
  lemma TurnOut(f0: Fs, f: Fs, i: int, off: int, tot: int, n: int)
    requires Inv(f0) && 0 <= i < |f0.inodes| && 0 <= off && 0 <= tot < n && (tot > 0 ==> (off + tot) % BSIZE == 0)
    requires Spent(f0, f, i, off / BSIZE, EndBlock(off, off + tot)) && (off + tot) / BSIZE < MAXFILE
    requires FreeCount(f) < Lacks(f, i, (off + tot) / BSIZE)
    ensures FreeCount(f0) < Needed(f0, i, off, off + n)
  {
    var lo, bn := off / BSIZE, (off + tot) / BSIZE;
    TurnBlock(off, tot, n);
    NoIndirect(f0, i, bn);
    hide Addr;
    hide Spent;
    hide FreeCount;
    hide EndBlock;
    SpentOut(f0, f, i, lo, bn, EndBlock(off, off + n));
  }

  lemma SpentStart(f: Fs, i: int, off: int)
    ensures BSIZE > 0 && Spent(f, f, i, off / BSIZE, EndBlock(off, off + 0))
  {
    hide Spent;
    SpentNone(f, i, off / BSIZE);
  }

  lemma SpentEnough(f0: Fs, f: Fs, i: int, off: int, end: int)
    requires Spent(f0, f, i, off / BSIZE, EndBlock(off, end))
    ensures FreeCount(f0) >= Needed(f0, i, off, end)
  {
    hide FreeCount;
    hide Addr;
  }

  lemma SpentSized(f0: Fs, f: Fs, i: int, off: int, end: int, n: int)
    requires Spent(f0, f, i, off / BSIZE, EndBlock(off, end)) && 0 <= i < |f.inodes|
    requires 0 <= off < end <= MAXFILE * BSIZE
    ensures Spent(f0, WithSize(f, i, n), i, off / BSIZE, EndBlock(off, end))
  {
    forall j, s | 0 <= j < |f.inodes| && 0 <= s < NSLOTS
      ensures Addr(WithSize(f, i, n), j, s) == Addr(f, j, s)
    {
    }
    hide Spent;
    SpentKept(f0, f, WithSize(f, i, n), i, off / BSIZE, EndBlock(off, end));
  }

  lemma NoIndirect(f: Fs, i: int, bn: int)
    requires Inv(f) && 0 <= i < |f.inodes| && 0 <= bn < MAXFILE
    ensures Addr(f, i, NDIRECT) == 0 && bn >= NDIRECT ==> Addr(f, i, SlotOf(bn)) == 0
  {
    AddrsLength(f, i);
    hide Addr;
    hide Inv;
    if Addr(f, i, NDIRECT) == 0 && bn >= NDIRECT {
      NoIndirectBlock(f, i, bn);
    }
  }

  lemma MappedInodes(f: Fs, f1: Fs, i: int, bn: int, a: int)
    requires Mapped(f, f1, i, bn, a)
    ensures 0 <= i < |f1.inodes|
  {
  }

  // ---- readi --------------------------------------------------------------------------------

  /** An inode that readi and writei can work on, with or without holes. */
  predicate SizeOk(f: Fs, i: int) {
    0 <= i < |f.inodes| && 0 <= f.inodes[i].size <= MAXFILE * BSIZE
  }

  /** At most blocks of zeros have been put where inode i had none: no byte has changed. */
  ghost predicate Filling(f: Fs, f': Fs, i: int) {
    && Inv(f') && OthersSame(f, f', i) && 0 <= i < |f.inodes| && f'.inodes[i].size == f.inodes[i].size
    && forall k :: 0 <= k < MAXFILE * BSIZE ==> ByteAt(f', i, k) == ByteAt(f, i, k)
  }

  lemma FillingNone(f: Fs, i: int)
    requires Inv(f) && 0 <= i < |f.inodes|
    ensures Filling(f, f, i)
  {
    hide Inv;
    hide Addr;
    hide ByteAt;
  }

  lemma FillingMore(f0: Fs, f: Fs, f': Fs, i: int, bn: int, a: int)
    requires Filling(f0, f, i) && Mapped(f, f', i, bn, a)
    ensures Filling(f0, f', i)
  {
    hide Inv;
    hide Addr;
    hide ByteAt;
    OthersSameTransitive(f0, f, f', i);
    hide OthersSame;
  }

  lemma FillingFacts(f: Fs, f': Fs, i: int)
    requires Filling(f, f', i)
    ensures Inv(f') && 0 <= i < |f.inodes| && |f'.inodes| == |f.inodes| && f'.inodes[i].size == f.inodes[i].size
  {
  }

  lemma FilledByte(f: Fs, f': Fs, i: int, k: int)
    requires Filling(f, f', i) && 0 <= k < MAXFILE * BSIZE
    ensures ByteAt(f', i, k) == ByteAt(f, i, k)
  {
  }

  /** A block of a file grown from empty is there. */
  lemma ReadableBlock(f: Fs, i: int, pos: int)
    requires FileOk(f, i) && 0 <= pos < f.inodes[i].size
    ensures Addr(f, i, SlotOf(pos / BSIZE)) != 0
  {
    BlocksCover(f.inodes[i].size);
  }

  lemma BlockByte(f: Fs, i: int, a: int, k: int)
    requires Inv(f) && 0 <= i < |f.inodes| && 0 <= k < MAXFILE * BSIZE && a == Addr(f, i, SlotOf(k / BSIZE)) && a != 0
    ensures 0 < a < |f.blocks| && f.blocks[a][k % BSIZE] == ByteAt(f, i, k)
  {
    hide Addr;
    SlotFacts(k / BSIZE);
    assert SlotOwns(f, i, SlotOf(k / BSIZE));
    assert OwnerRight(f, a);
  }

  /** What readi returns for n bytes from off on: the bytes of the range, cut off at the end of the
      file; nothing if the range starts past the end or overflows. */
  ghost predicate ReadResult(f: Fs, i: int, off: int, n: int, r: Option<seq<Byte>>)
    requires 0 <= i < |f.inodes|
  {
    && (r.None? <==> off > f.inodes[i].size || off + n >= UINT_LIMIT)
    && (r.Some? ==> |r.value| == (if off + n > f.inodes[i].size then f.inodes[i].size - off else n)
                    && forall t :: 0 <= t < |r.value| ==> r.value[t] == ByteAt(f, i, off + t))
  }

  /** The end of the range, cut off at the end of the file; off if there is nothing to read. */
  function ReadEnd(f: Fs, i: int, off: int, n: int): int
    requires 0 <= i < |f.inodes|
  {
    var size := f.inodes[i].size;
    if off > size || off + n >= UINT_LIMIT then off else if off + n > size then size else off + n
  }

  /** Block bn, in the range, is a hole. */
  predicate Missing(f: Fs, i: int, off: int, end: int, bn: int) {
    off < end && off / BSIZE <= bn <= (end - 1) / BSIZE && Addr(f, i, SlotOf(bn)) == 0
  }

  /** Some hole is met while no operation is outstanding. */
  ghost predicate MissingOutside(f: Fs, i: int, off: int, end: int, inTrans: int -> bool) {
    exists bn :: Missing(f, i, off, end, bn) && !inTrans(bn)
  }

  ghost predicate SomeMissing(f: Fs, i: int, off: int, end: int) {
    exists bn :: Missing(f, i, off, end, bn)
  }

  /** readi: the bytes of the range; None is its return value -1. No byte of any file changes. On a
      file grown from empty nothing changes at all. In a hole bmap allocates. It panics there if
      fewer blocks are free than the range lacks ("out of blocks"), or if no operation is
      outstanding ("log_write outside of trans"): fileread starts none, so inTrans says of each
      block whether another process has one under way when readi gets to it. */
  method Readi(fs: FileSystem, i: int, off: int, n: int, inTrans: int -> bool)
    returns (r: Option<seq<Byte>>, panicked: bool)
    requires Inv(fs.State()) && SizeOk(fs.State(), i) && 0 <= off < UINT_LIMIT && 0 <= n < UINT_LIMIT
    modifies fs`blocks, fs`bmap, fs`inodes, fs`owner, fs`logged
    ensures var end := ReadEnd(old(fs.State()), i, off, n);
      && (panicked <==> MissingOutside(old(fs.State()), i, off, end, inTrans)
                        || FreeCount(old(fs.State())) < Needed(old(fs.State()), i, off, end))
      && (panicked ==> MissingOutside(old(fs.State()), i, off, end, inTrans)
                       || (NoneFree(fs.State()) && SomeMissing(old(fs.State()), i, off, end)))
    ensures !panicked ==> Filling(old(fs.State()), fs.State(), i) && ReadResult(old(fs.State()), i, off, n, r)
    ensures !panicked ==> old(fs.logged) <= fs.logged
    ensures !panicked ==> ChangesLogged(old(fs.State()), fs.State(), fs.bmapstart, fs.logged)
    ensures FileOk(old(fs.State()), i) ==> !panicked && fs.State() == old(fs.State()) && fs.logged == old(fs.logged)
  {
    hide *;
    ghost var f := fs.State();
    NothingChanged(f, fs.bmapstart, fs.logged);
    SizeIs(f, i);
    var size := fs.SizeOf(i);
    ReadStart(f, i, off, n, inTrans);
    SpentStart(f, i, off);
    SpentEnough(f, f, i, off, off);
    if off > size || off + n >= UINT_LIMIT {
      ReadRefused(f, i, off, n);
      return None, false;
    }
    var want := if off + n > size then size - off else n;
    var dst := [];
    while |dst| < want
      invariant |dst| <= want && Reading(f, fs.State(), i, off, |dst|, want, inTrans)
      invariant Spent(f, fs.State(), i, off / BSIZE, EndBlock(off, off + |dst|))
      invariant old(fs.logged) <= fs.logged && ChangesLogged(f, fs.State(), fs.bmapstart, fs.logged)
      invariant FileOk(f, i) ==> fs.State() == f && fs.logged == old(fs.logged)
      invariant forall t :: 0 <= t < |dst| ==> dst[t] == ByteAt(f, i, off + t)
      decreases want - |dst|
    {
      var part;
      ghost var f1, log1 := fs.State(), fs.logged;
      panicked, part := ReadTurn(fs, i, off, |dst|, want, inTrans, f);
      if panicked {
        return None, true;
      }
      ChangesFurther(f, f1, fs.State(), fs.bmapstart, log1, fs.logged);
      dst := dst + part;
    }
    ReadAll(f, fs.State(), i, off, want, inTrans);
    SpentEnough(f, fs.State(), i, off, off + want);
    ReadDone(f, i, off, n, dst);
    return Some(dst), false;
  }

  /** The blocks that start at pos or above are as they were. */
  ghost predicate SameAbove(f0: Fs, f: Fs, i: int, pos: int) {
    forall bn :: pos <= bn * BSIZE && 0 <= bn < MAXFILE ==> Addr(f, i, SlotOf(bn)) == Addr(f0, i, SlotOf(bn))
  }

  /** No hole below pos has been met outside an operation. */
  ghost predicate NoneOutside(f: Fs, i: int, off: int, pos: int, inTrans: int -> bool) {
    forall bn :: Missing(f, i, off, pos, bn) ==> inTrans(bn)
  }

  /** readi has read got of the want bytes from off on. */
  ghost predicate Reading(f0: Fs, f: Fs, i: int, off: int, got: int, want: int, inTrans: int -> bool) {
    && Filling(f0, f, i) && SameAbove(f0, f, i, off + got) && NoneOutside(f0, i, off, off + got, inTrans)
    && (got == 0 ==> f == f0) && (0 < got < want ==> (off + got) % BSIZE == 0)
  }

  lemma ReadStart(f: Fs, i: int, off: int, n: int, inTrans: int -> bool)
    requires Inv(f) && 0 <= i < |f.inodes|
    ensures var size := f.inodes[i].size;
      ReadEnd(f, i, off, n)
      == if off > size || off + n >= UINT_LIMIT then off else off + if off + n > size then size - off else n
    ensures Filling(f, f, i) && !MissingOutside(f, i, off, off, inTrans)
    ensures forall want :: Reading(f, f, i, off, 0, want, inTrans)
  {
    FillingNone(f, i);
    hide Filling;
    hide Addr;
  }

  lemma ReadNext(f0: Fs, f: Fs, i: int, off: int, got: int, want: int, inTrans: int -> bool)
    requires Reading(f0, f, i, off, got, want, inTrans) && 0 <= off && 0 <= got < want && off + want <= MAXFILE * BSIZE
    ensures Filling(f0, f, i)
    ensures Addr(f, i, SlotOf((off + got) / BSIZE)) == Addr(f0, i, SlotOf((off + got) / BSIZE))
    ensures Addr(f0, i, SlotOf((off + got) / BSIZE)) == 0 ==> Missing(f0, i, off, off + want, (off + got) / BSIZE)
  {
    hide Addr;
    hide Filling;
  }

  lemma ReadOn(f0: Fs, f: Fs, f': Fs, i: int, off: int, got: int, want: int, m: int, inTrans: int -> bool)
    requires Reading(f0, f, i, off, got, want, inTrans) && Filling(f0, f', i) && 0 <= off && 0 <= got < want
    requires var pos := off + got;
      && m == (if want - got < BSIZE - pos % BSIZE then want - got else BSIZE - pos % BSIZE)
      && (Addr(f0, i, SlotOf(pos / BSIZE)) == 0 ==> inTrans(pos / BSIZE))
      && forall bn :: 0 <= bn < MAXFILE && bn != pos / BSIZE ==> Addr(f', i, SlotOf(bn)) == Addr(f, i, SlotOf(bn))
    ensures Reading(f0, f', i, off, got + m, want, inTrans)
  {
    hide Addr;
    hide Filling;
    SameFurther(f0, f, f', i, off + got, m);
    OutsideFurther(f0, i, off, off + got, m, inTrans);
  }

  lemma ReadAll(f0: Fs, f: Fs, i: int, off: int, want: int, inTrans: int -> bool)
    requires Reading(f0, f, i, off, want, want, inTrans)
    ensures Filling(f0, f, i) && !MissingOutside(f0, i, off, off + want, inTrans)
  {
    hide Addr;
    hide Filling;
  }

  lemma ReadStopped(f: Fs, i: int, off: int, pos: int, end: int, inTrans: int -> bool, full: bool)
    requires Missing(f, i, off, end, pos / BSIZE) && (inTrans(pos / BSIZE) ==> full)
    ensures MissingOutside(f, i, off, end, inTrans) || (full && SomeMissing(f, i, off, end))
  {
  }

  lemma SameFurther(f0: Fs, f: Fs, f': Fs, i: int, pos: int, m: int)
    requires SameAbove(f0, f, i, pos) && 0 <= pos && 0 < m
    requires forall bn :: 0 <= bn < MAXFILE && bn != pos / BSIZE ==> Addr(f', i, SlotOf(bn)) == Addr(f, i, SlotOf(bn))
    ensures SameAbove(f0, f', i, pos + m)
  {
    hide Addr;
  }

  lemma OutsideFurther(f: Fs, i: int, off: int, pos: int, m: int, inTrans: int -> bool)
    requires NoneOutside(f, i, off, pos, inTrans) && 0 <= off <= pos && 0 < m && m <= BSIZE - pos % BSIZE
    requires Addr(f, i, SlotOf(pos / BSIZE)) == 0 ==> inTrans(pos / BSIZE)
    ensures NoneOutside(f, i, off, pos + m, inTrans)
  {
    hide Addr;
    assert (pos + m - 1) / BSIZE == pos / BSIZE;
    forall bn | Missing(f, i, off, pos + m, bn)
      ensures inTrans(bn)
    {
      assert bn == pos / BSIZE || Missing(f, i, off, pos, bn);
    }
  }

  lemma ReadRefused(f: Fs, i: int, off: int, n: int)
    requires 0 <= i < |f.inodes| && (off > f.inodes[i].size || off + n >= UINT_LIMIT)
    ensures ReadResult(f, i, off, n, None)
  {
  }

  lemma ReadDone(f: Fs, i: int, off: int, n: int, dst: seq<Byte>)
    requires 0 <= i < |f.inodes| && off <= f.inodes[i].size && off + n < UINT_LIMIT
    requires |dst| == if off + n > f.inodes[i].size then f.inodes[i].size - off else n
    requires forall t :: 0 <= t < |dst| ==> dst[t] == ByteAt(f, i, off + t)
    ensures ReadResult(f, i, off, n, Some(dst))
  {
  }

  lemma SizeIs(f: Fs, i: int)
    requires SizeOk(f, i)
    ensures 0 <= i < |f.inodes| && 0 <= f.inodes[i].size <= MAXFILE * BSIZE
  {
  }

  /** One turn of readi's loop. */
  method ReadTurn(fs: FileSystem, i: int, off: int, got: int, want: int, inTrans: int -> bool, ghost f0: Fs)
    returns (panicked: bool, part: seq<Byte>)
    requires Reading(f0, fs.State(), i, off, got, want, inTrans) && SizeOk(f0, i)
    requires 0 <= off && 0 <= got < want && off + want <= f0.inodes[i].size && Inv(f0)
    requires Spent(f0, fs.State(), i, off / BSIZE, EndBlock(off, off + got))
    modifies fs`blocks, fs`bmap, fs`inodes, fs`owner, fs`logged
    ensures panicked ==> MissingOutside(f0, i, off, off + want, inTrans)
                         || FreeCount(f0) < Needed(f0, i, off, off + want)
    ensures !panicked ==> Spent(f0, fs.State(), i, off / BSIZE, EndBlock(off, off + (got + |part|)))
    ensures panicked ==> MissingOutside(f0, i, off, off + want, inTrans)
                         || (NoneFree(fs.State()) && SomeMissing(f0, i, off, off + want))
    ensures FileOk(f0, i) && old(fs.State()) == f0 ==>
              !panicked && fs.State() == f0 && fs.logged == old(fs.logged)
    ensures !panicked ==> old(fs.logged) <= fs.logged
    ensures !panicked ==> ChangesLogged(old(fs.State()), fs.State(), fs.bmapstart, fs.logged)
    ensures !panicked ==> 0 < |part| <= want - got && Reading(f0, fs.State(), i, off, got + |part|, want, inTrans)
    ensures !panicked ==> forall t :: 0 <= t < |part| ==> part[t] == ByteAt(f0, i, off + got + t)
  {
    hide *;
    SizeIs(f0, i);
    var pos := off + got;
    ghost var f := fs.State();
    ReadNext(f0, f, i, off, got, want, inTrans);
    panicked, part := ReadPart(fs, i, pos, want - got, inTrans(pos / BSIZE), f0);
    ReadAligned(f0, f, i, off, got, want, inTrans);
    if panicked {
      ReadStopped(f0, i, off, pos, off + want, inTrans, NoneFree(fs.State()));
      if FreeCount(f) < Lacks(f, i, pos / BSIZE) {
        TurnOut(f0, f, i, off, got, want);
      } else {
        ReadStopped(f0, i, off, pos, off + want, inTrans, false);
      }
    } else {
      PartSize(pos, want - got, |part|);
      SameAddrsSelf(fs.State());
      TurnSpent(f0, f, fs.State(), fs.State(), i, off, got, |part|, Addr(fs.State(), i, SlotOf(pos / BSIZE)));
      ReadOn(f0, f, fs.State(), i, off, got, want, |part|, inTrans);
    }
  }

  lemma ReadAligned(f0: Fs, f: Fs, i: int, off: int, got: int, want: int, inTrans: int -> bool)
    requires Reading(f0, f, i, off, got, want, inTrans) && 0 <= got < want && 0 <= off && off + want <= MAXFILE * BSIZE
    ensures BSIZE > 0 && (got > 0 ==> (off + got) % BSIZE == 0) && (off + got) / BSIZE < MAXFILE
  {
    hide Filling;
    hide SameAbove;
    hide NoneOutside;
  }

  lemma PartSize(pos: int, left: int, m: int)
    requires 0 <= pos && BSIZE > 0 && m == if left < BSIZE - pos % BSIZE then left else BSIZE - pos % BSIZE
    ensures pos % BSIZE + m <= BSIZE
  {
  }

  lemma SameAddrsSelf(f: Fs)
    ensures SameAddrs(f, f)
  {
  }

  method ReadPart(fs: FileSystem, i: int, pos: int, left: int, inTrans: bool, ghost f0: Fs)
    returns (panicked: bool, part: seq<Byte>)
    requires Filling(f0, fs.State(), i) && SizeOk(f0, i) && 0 <= pos && 0 < left && pos + left <= f0.inodes[i].size
    modifies fs`blocks, fs`bmap, fs`inodes, fs`owner, fs`logged
    ensures panicked ==> Addr(old(fs.State()), i, SlotOf(pos / BSIZE)) == 0 && (inTrans ==> NoneFree(fs.State()))
    ensures panicked <==> (!inTrans && Addr(old(fs.State()), i, SlotOf(pos / BSIZE)) == 0)
                          || FreeCount(old(fs.State())) < Lacks(old(fs.State()), i, pos / BSIZE)
    ensures !panicked ==>
      && FreeCount(fs.State()) == FreeCount(old(fs.State())) - Lacks(old(fs.State()), i, pos / BSIZE)
      && Mapped(old(fs.State()), fs.State(), i, pos / BSIZE, Addr(fs.State(), i, SlotOf(pos / BSIZE)))
    ensures !panicked ==> Filling(f0, fs.State(), i)
    ensures !panicked ==> forall bn :: 0 <= bn < MAXFILE && bn != pos / BSIZE ==>
              Addr(fs.State(), i, SlotOf(bn)) == Addr(old(fs.State()), i, SlotOf(bn))
    ensures !panicked ==> old(fs.logged) <= fs.logged
    ensures !panicked ==> ChangesLogged(old(fs.State()), fs.State(), fs.bmapstart, fs.logged)
    ensures !panicked ==> |part| == if left < BSIZE - pos % BSIZE then left else BSIZE - pos % BSIZE
    ensures FileOk(f0, i) && old(fs.State()) == f0 ==>
              !panicked && fs.State() == f0 && fs.logged == old(fs.logged)
    ensures !panicked ==> 0 < |part| <= left && forall t :: 0 <= t < |part| ==> part[t] == ByteAt(f0, i, pos + t)
  {
    hide Addr;
    hide ByteAt;
    hide Inv;
    hide FileOk;
    hide Filling;
    hide Mapped;
    hide NoneFree;
    hide FileSystem.State;
    hide ChangesLogged;
    hide FreeCount;
    hide Lacks;
    ghost var f := fs.State();
    LacksCases(f, i, pos / BSIZE);
    FillingFacts(f0, f, i);
    part := [];
    var bn := pos / BSIZE;
    if FileOk(f0, i) {
      ReadableBlock(f0, i, pos);
    }
    if !inTrans {
      var there := fs.HasBlock(i, bn);
      if !there {
        return true, part;
      }
    }
    var q, _ := fs.Bmap(i, bn);
    if q.None? {
      return true, part;
    }
    var a := q.value;
    ghost var f1 := fs.State();
    MappedAt(f, f1, i, bn, a);
    MappedOthers(f, f1, i, bn, a);
    FillingMore(f0, f, f1, i, bn, a);
    FillingFacts(f0, f1, i);
    var m := if left < BSIZE - pos % BSIZE then left else BSIZE - pos % BSIZE;
    Position(pos, left, m);
    BlockByte(f1, i, a, pos);
    var data := fs.ReadBlock(a);
    part := seq(m, t requires 0 <= t < m => data[pos % BSIZE + t]);
    forall t | 0 <= t < m
      ensures part[t] == ByteAt(f0, i, pos + t)
    {
      BlockByte(f1, i, a, pos + t);
      FilledByte(f0, f1, i, pos + t);
    }
    return false, part;
  }

  lemma MappedOthers(f: Fs, f1: Fs, i: int, bn: int, a: int)
    requires Mapped(f, f1, i, bn, a)
    ensures forall c :: 0 <= c < MAXFILE && c != bn ==> Addr(f1, i, SlotOf(c)) == Addr(f, i, SlotOf(c))
  {
    hide Inv;
    hide Addr;
    hide ByteAt;
  }

  lemma MappedAt(f: Fs, f1: Fs, i: int, bn: int, a: int)
    requires Mapped(f, f1, i, bn, a)
    ensures a != 0 && 0 <= bn < MAXFILE && Addr(f1, i, SlotOf(bn)) == a
  {
  }

  // ---- writei ---------------------------------------------------------------------------------

  function Max(a: int, b: int): int {
    if a < b then b else a
  }

  /** The blocks a file of the given size has once the bytes up to `end` are written. */
  function Reach(size: int, end: int): int {
    Max(BlocksOf(size), BlocksOf(end))
  }

  /** memmove(data + p, src + from, m) */
  function Overlay(data: Block, p: int, src: seq<Byte>, from: int, m: int): Block
    requires 0 <= p && p + m <= BSIZE && 0 <= from && from + m <= |src|
  {
    seq(BSIZE, q requires 0 <= q < BSIZE => if p <= q < p + m then src[from + q - p] else data[q])
  }

  /** The bytes from off to end need slot t of the inode: a direct block, or the indirect one. */
  predicate NeedsSlot(off: int, end: int, t: int) {
    && off < end
    && if t == NDIRECT then NDIRECT <= (end - 1) / BSIZE else off / BSIZE <= t <= (end - 1) / BSIZE
  }

  /** The block numbers in the inode itself are as before, but for those that were missing and
      that the bytes from off to end need. */
  ghost predicate SlotsFilled(f0: Fs, f: Fs, i: int, off: int, end: int) {
    forall t :: 0 <= t <= NDIRECT ==>
      if Addr(f0, i, t) == 0 && NeedsSlot(off, end, t) then Addr(f, i, t) != 0 else Addr(f, i, t) == Addr(f0, i, t)
  }

  /** The content of inode i is as in f0, with the first tot bytes of src at off. */
  ghost predicate BytesWritten(f0: Fs, f: Fs, i: int, src: seq<Byte>, off: int, tot: int) {
    && 0 <= tot <= |src|
    && forall k :: 0 <= k < MAXFILE * BSIZE ==>
         ByteAt(f, i, k) == if off <= k < off + tot then src[k - off] else ByteAt(f0, i, k)
  }

  /** writei has written the first tot bytes. In a file grown from empty the blocks it added are
      not yet covered by the size. */
  ghost predicate WriteRun(f0: Fs, f: Fs, i: int, src: seq<Byte>, off: int, tot: int) {
    && Inv(f) && SizeOk(f0, i) && OthersSame(f0, f, i) && f.inodes[i].size == f0.inodes[i].size
    && 0 <= off <= f0.inodes[i].size && 0 <= tot <= |src| && off + |src| <= MAXFILE * BSIZE
    && BytesWritten(f0, f, i, src, off, tot) && SlotsFilled(f0, f, i, off, off + tot)
    && (FileOk(f0, i) ==> HasBlocks(f, i, Reach(f0.inodes[i].size, off + tot)))
  }

  lemma WriteStart(f: Fs, i: int, src: seq<Byte>, off: int)
    requires Inv(f) && SizeOk(f, i) && 0 <= off <= f.inodes[i].size && off + |src| <= MAXFILE * BSIZE
    ensures WriteRun(f, f, i, src, off, 0)
  {
    hide Addr;
    hide ByteAt;
    hide Inv;
    BlocksMonotone(off, f.inodes[i].size);
  }

  lemma WriteNext(f0: Fs, f: Fs, i: int, src: seq<Byte>, off: int, tot: int)
    requires WriteRun(f0, f, i, src, off, tot) && tot < |src|
    ensures 0 <= i < |f.inodes| && |f0.inodes| == |f.inodes| && 0 <= f0.inodes[i].size && Inv(f) && 0 <= off
    ensures 0 <= (off + tot) / BSIZE < MAXFILE
  {
    hide Addr;
    hide ByteAt;
  }

  /** In a file grown from empty, the block to write exists or is the next one. */
  lemma WriteNextBlock(f0: Fs, f: Fs, i: int, src: seq<Byte>, off: int, tot: int)
    requires WriteRun(f0, f, i, src, off, tot) && tot < |src| && FileOk(f0, i)
    ensures HasBlocks(f, i, Reach(f0.inodes[i].size, off + tot))
    ensures 0 <= (off + tot) / BSIZE <= Reach(f0.inodes[i].size, off + tot)
  {
    hide Addr;
    hide ByteAt;
    BlocksCover(off + tot);
  }

  lemma HasBlock(f: Fs, i: int, nb: int, bn: int)
    requires HasBlocks(f, i, nb) && 0 <= bn < MAXFILE
    ensures Addr(f, i, SlotOf(bn)) != 0 <==> bn < nb
    ensures Addr(f, i, NDIRECT) != 0 <==> nb > NDIRECT
  {
  }

  /** bmap on a file grown from empty. */
  lemma NextBlocks(f: Fs, f1: Fs, i: int, nb: int, bn: int, a: int)
    requires Inv(f) && HasBlocks(f, i, nb) && 0 <= bn <= nb && Mapped(f, f1, i, bn, a)
    ensures HasBlocks(f1, i, Max(nb, bn + 1))
  {
    hide Inv;
    hide HasBlocks;
    hide Addr;
    hide ByteAt;
    MappedExtends(f, f1, i, nb, bn, a);
  }

  /** What bmap for block bn does to the slots in the inode. */
  lemma MappedSlots(f0: Fs, f: Fs, f1: Fs, i: int, off: int, pos: int, m: int, bn: int, a: int)
    requires SlotsFilled(f0, f, i, off, pos) && Mapped(f, f1, i, bn, a) && 0 <= off <= pos && 0 < m
    requires bn == pos / BSIZE == (pos + m - 1) / BSIZE
    ensures SlotsFilled(f0, f1, i, off, pos + m)
  {
    hide Inv;
    hide Addr;
    hide ByteAt;
    hide OthersSame;
    SlotFacts(bn);
    forall t | 0 <= t <= NDIRECT
      ensures if Addr(f0, i, t) == 0 && NeedsSlot(off, pos + m, t) then Addr(f1, i, t) != 0
              else Addr(f1, i, t) == Addr(f0, i, t)
    {
      SlotNeeded(off, pos, m, bn, t);
    }
  }

  lemma SlotNeeded(off: int, pos: int, m: int, bn: int, t: int)
    requires 0 <= off <= pos && 0 < m && bn == pos / BSIZE == (pos + m - 1) / BSIZE && 0 <= t <= NDIRECT
    ensures NeedsSlot(off, pos + m, t) <==>
            NeedsSlot(off, pos, t) || (if t == NDIRECT then bn >= NDIRECT else t == bn)
  {
    if off < pos {
      BlockOrder(off, pos);
    }
  }

  lemma BlockOrder(off: int, pos: int)
    requires 0 <= off < pos
    ensures off / BSIZE <= (pos - 1) / BSIZE <= pos / BSIZE <= (pos - 1) / BSIZE + 1
  {
  }

  lemma SlotsKept(f0: Fs, f1: Fs, f2: Fs, i: int, off: int, end: int)
    requires SlotsFilled(f0, f1, i, off, end) && SameAddrs(f1, f2) && 0 <= i < |f1.inodes|
    ensures SlotsFilled(f0, f2, i, off, end)
  {
    hide Addr;
  }

  /** What bmap and the copy into block a do to the bytes. */
  lemma WriteBytes(f0: Fs, f: Fs, f1: Fs, f2: Fs, i: int, src: seq<Byte>, off: int, tot: int, m: int, bn: int, a: int,
                   data: Block)
    requires BytesWritten(f0, f, i, src, off, tot) && 0 <= off && 0 < m && tot + m <= |src|
    requires Inv(f1) && 0 <= i < |f1.inodes| && Mapped(f, f1, i, bn, a) && 0 < a < |f1.blocks| && data == f1.blocks[a]
    requires bn == (off + tot) / BSIZE && (off + tot) % BSIZE + m <= BSIZE
    requires forall k :: 0 <= k < MAXFILE * BSIZE ==>
               ByteAt(f2, i, k) == if SlotOf(k / BSIZE) == SlotOf(bn)
                                   then Overlay(data, (off + tot) % BSIZE, src, tot, m)[k % BSIZE] else ByteAt(f1, i, k)
    ensures BytesWritten(f0, f2, i, src, off, tot + m)
  {
    hide Inv;
    hide Addr;
    hide ByteAt;
    hide OthersSame;
    MappedAt(f, f1, i, bn, a);
    var pos := off + tot;
    forall k | 0 <= k < MAXFILE * BSIZE
      ensures ByteAt(f2, i, k) == if off <= k < off + (tot + m) then src[k - off] else ByteAt(f0, i, k)
    {
      if k / BSIZE == bn {
        BlockByte(f1, i, a, k);
        InBlock(pos, m, k);
      } else {
        NotInBlock(pos, m, k);
      }
    }
  }

  lemma InBlock(pos: int, m: int, k: int)
    requires 0 <= pos && 0 < m && pos % BSIZE + m <= BSIZE && k / BSIZE == pos / BSIZE
    ensures pos <= k < pos + m <==> pos % BSIZE <= k % BSIZE < pos % BSIZE + m
    ensures k - pos == k % BSIZE - pos % BSIZE
  {
  }

  lemma NotInBlock(pos: int, m: int, k: int)
    requires 0 <= pos && 0 < m && pos % BSIZE + m <= BSIZE && k / BSIZE != pos / BSIZE
    ensures !(pos <= k < pos + m)
  {
  }

  /** One turn of the loop: bmap, and m bytes copied into block a. */
  lemma WriteStep(f0: Fs, f: Fs, f1: Fs, f2: Fs, i: int, src: seq<Byte>, off: int, tot: int, m: int, a: int,
                  data: Block)
    requires WriteRun(f0, f, i, src, off, tot) && tot < |src|
    requires var pos := off + tot;
      m == if |src| - tot < BSIZE - pos % BSIZE then |src| - tot else BSIZE - pos % BSIZE
    requires 0 <= off + tot && Mapped(f, f1, i, (off + tot) / BSIZE, a)
    requires 0 < a < |f1.blocks| && data == f1.blocks[a] && 0 < m && (off + tot) % BSIZE + m <= BSIZE
    requires tot + m <= |src|
    requires f2 == Put(f1, a, Overlay(data, (off + tot) % BSIZE, src, tot, m))
    ensures WriteRun(f0, f2, i, src, off, tot + m) && SameAddrs(f1, f2)
  {
    hide Addr;
    hide ByteAt;
    hide Inv;
    hide HasBlocks;
    hide BlocksOf;
    hide FileOk;
    hide OthersSame;
    hide SlotsFilled;
    hide BytesWritten;
    var pos, bn := off + tot, (off + tot) / BSIZE;
    var after := Overlay(data, pos % BSIZE, src, tot, m);
    OthersInodes(f0, f, i);
    OthersInodes(f, f1, i);
    Position(pos, |src| - tot, m);
    SlotFacts(bn);
    PutKeeps(f1, a, after, i, SlotOf(bn), f2);
    PutOthers(f1, f2, i, SlotOf(bn), after);
    OthersSameTransitive(f0, f, f1, i);
    OthersSameTransitive(f0, f1, f2, i);
    WriteBytes(f0, f, f1, f2, i, src, off, tot, m, bn, a, data);
    MappedSlots(f0, f, f1, i, off, pos, m, bn, a);
    SlotsKept(f0, f1, f2, i, off, pos + m);
    if FileOk(f0, i) {
      WriteNextBlock(f0, f, i, src, off, tot);
      NextBlocks(f, f1, i, Reach(f0.inodes[i].size, pos), bn, a);
      ReachNext(f0.inodes[i].size, pos, m);
      PutHasBlocks(f1, f2, i, Reach(f0.inodes[i].size, pos + m));
    }
  }

  lemma OthersInodes(f: Fs, f': Fs, i: int)
    requires OthersSame(f, f', i)
    ensures |f'.inodes| == |f.inodes|
  {
  }

  lemma ReachNext(size: int, pos: int, m: int)
    requires 0 <= pos && 0 < m && BlocksOf(pos + m) == pos / BSIZE + 1 && BlocksOf(pos) <= pos / BSIZE + 1
    ensures Reach(size, pos + m) == Max(Reach(size, pos), pos / BSIZE + 1)
  {
  }

  lemma PutHasBlocks(f: Fs, f': Fs, i: int, nb: int)
    requires SameAddrs(f, f') && 0 <= i < |f.inodes| && HasBlocks(f, i, nb)
    ensures HasBlocks(f', i, nb)
  {
    hide Addr;
    forall bn | 0 <= bn < MAXFILE
      ensures Addr(f', i, SlotOf(bn)) == Addr(f, i, SlotOf(bn))
    {
      SlotFacts(bn);
    }
  }

  lemma PutOthers(f: Fs, f': Fs, i: int, s: int, data: Block)
    requires SameAddrs(f, f') && f'.inodes == f.inodes && 0 <= i < |f.inodes|
    requires forall j, k :: 0 <= j < |f.inodes| && 0 <= k < MAXFILE * BSIZE ==>
               ByteAt(f', j, k) == if j == i && SlotOf(k / BSIZE) == s then data[k % BSIZE] else ByteAt(f, j, k)
    ensures OthersSame(f, f', i)
  {
    hide Addr;
    hide ByteAt;
  }

  /** writei has done all it was asked for: the content of the file is the old content with src
      written over it, no other file has changed, and a file grown from empty is still one. */
  ghost predicate Written(f0: Fs, f: Fs, i: int, src: seq<Byte>, off: int) {
    && Inv(f) && SizeOk(f0, i) && SizeOk(f, i) && OthersSame(f0, f, i)
    && 0 <= off <= f0.inodes[i].size
    && Contents(f, i) == Overwrite(Contents(f0, i), off, src)
    && (FileOk(f0, i) ==> FileOk(f, i))
  }

  /** A call of writei: by one process or many, on one file or many. */
  datatype WriteOp = WriteOp(i: int, off: int, src: seq<Byte>)

  /** writei does not refuse it: it starts within the file, and neither overflows nor makes the
      file longer than MAXFILE blocks. */
  predicate Taken(f: Fs, op: WriteOp) {
    && 0 <= op.i < |f.inodes| && op.off <= f.inodes[op.i].size
    && op.off + |op.src| < UINT_LIMIT && op.off + |op.src| <= MAXFILE * BSIZE
  }

  /** What writei does, short of running out of blocks. */
  ghost predicate Step(f: Fs, op: WriteOp, f': Fs) {
    SizeOk(f, op.i) && 0 <= op.off && if Taken(f, op) then Written(f, f', op.i, op.src, op.off) else f' == f
  }

  lemma WriteEnd(f0: Fs, f: Fs, i: int, src: seq<Byte>, off: int, f': Fs)
    requires WriteRun(f0, f, i, src, off, |src|) && 0 <= i < |f.inodes|
    requires f' == if off + |src| > f0.inodes[i].size then WithSize(f, i, off + |src|) else f
    ensures Written(f0, f', i, src, off)
  {
    hide Addr;
    hide ByteAt;
    hide Inv;
    hide HasBlocks;
    hide BlocksOf;
    hide OthersSame;
    hide SlotsFilled;
    var size := f0.inodes[i].size;
    OthersInodes(f0, f, i);
    if off + |src| > size {
      SizeOnly(f, i, off + |src|, f');
      OthersSameTransitive(f0, f, f', i);
    }
    WriteEndBlocks(f0, f, i, src, off, f');
    assert f'.inodes[i].size == Max(size, off + |src|);
    var c, d := Contents(f', i), Overwrite(Contents(f0, i), off, src);
    assert |c| == |d|;
    forall k | 0 <= k < |c|
      ensures c[k] == d[k]
    {
      assert c[k] == ByteAt(f', i, k) == ByteAt(f, i, k);
    }
  }

  lemma WriteEndBlocks(f0: Fs, f: Fs, i: int, src: seq<Byte>, off: int, f': Fs)
    requires WriteRun(f0, f, i, src, off, |src|) && 0 <= i < |f.inodes|
    requires f' == if off + |src| > f0.inodes[i].size then WithSize(f, i, off + |src|) else f
    ensures FileOk(f0, i) ==> FileOk(f', i)
  {
    hide ByteAt;
    hide Inv;
    var size := f0.inodes[i].size;
    if off + |src| > size {
      BlocksMonotone(size, off + |src|);
      SizeSameSlots(f, i, off + |src|, f');
    } else {
      BlocksMonotone(off + |src|, size);
    }
    hide BlocksOf;
    hide Addr;
    OthersInodes(f0, f, i);
  }

  lemma SizeSameSlots(f: Fs, i: int, n: int, f': Fs)
    requires 0 <= i < |f.inodes| && f' == WithSize(f, i, n)
    ensures forall s :: Addr(f', i, s) == Addr(f, i, s)
  {
    hide WordAt;
  }

  lemma SizeOnly(f: Fs, i: int, n: int, f': Fs)
    requires Inv(f) && 0 <= i < |f.inodes| && f' == WithSize(f, i, n)
    ensures Inv(f') && OthersSame(f, f', i)
    ensures forall k :: 0 <= k < MAXFILE * BSIZE ==> ByteAt(f', i, k) == ByteAt(f, i, k)
  {
    hide WordAt;
    hide Used;
    assert forall j, s :: 0 <= j < |f.inodes| && 0 <= s < NSLOTS ==> Addr(f', j, s) == Addr(f, j, s);
    forall j, s | 0 <= j < |f.inodes| && 0 <= s < NSLOTS
      ensures SlotOwns(f', j, s)
    {
      assert SlotOwns(f, j, s);
    }
    forall b | b in f'.owner
      ensures OwnerRight(f', b)
    {
      assert OwnerRight(f, b);
    }
    forall j, k | 0 <= j < |f.inodes| && 0 <= k < MAXFILE * BSIZE
      ensures ByteAt(f', j, k) == ByteAt(f, j, k)
    {
      SlotFacts(k / BSIZE);
    }
  }

  /** The number of blocks that the bytes from off to end touch. */
  function Touched(off: int, end: int): int {
    if end <= off then 0 else (end - 1) / BSIZE - off / BSIZE + 1
  }

  lemma TouchedMore(off: int, tot: int, m: int)
    requires 0 <= off && 0 <= tot && 0 < m && (tot > 0 ==> (off + tot) % BSIZE == 0)
    ensures Touched(off, off + tot) + 1 <= Touched(off, off + tot + m)
  {
    if tot > 0 {
      var q := (off + tot) / BSIZE;
      assert (off + tot - 1) / BSIZE == q - 1;
      assert (off + tot + m - 1) / BSIZE >= q;
    }
  }

  lemma WriteInodes(f0: Fs, f: Fs, i: int, src: seq<Byte>, off: int, tot: int)
    requires WriteRun(f0, f, i, src, off, tot)
    ensures 0 <= i < |f.inodes| && |f.inodes| == |f0.inodes| && f.inodes == f0.inodes[i := f.inodes[i]]
    ensures f.inodes[i].size == f0.inodes[i].size
  {
    hide Addr;
    hide ByteAt;
    hide Inv;
    forall j | 0 <= j < |f0.inodes| && j != i
      ensures f.inodes[j] == f0.inodes[j]
    {
      assert SameInode(f0, f, j);
    }
  }

  /** The inode itself has every slot that the bytes from off to end need. */
  ghost predicate NoSlotMissing(f: Fs, i: int, off: int, end: int) {
    forall t :: 0 <= t <= NDIRECT && NeedsSlot(off, end, t) ==> Addr(f, i, t) != 0
  }

  /** The loop of writei leaves the inode alone exactly if no slot of it was missing. */
  lemma InodeAlone(f0: Fs, f: Fs, i: int, src: seq<Byte>, off: int, tot: int)
    requires Inv(f0) && WriteRun(f0, f, i, src, off, tot)
    ensures f.inodes == f0.inodes <==> NoSlotMissing(f0, i, off, off + tot)
  {
    hide ByteAt;
    WriteInodes(f0, f, i, src, off, tot);
    InodeSlots(f0, i);
    InodeSlots(f, i);
    hide Inv;
    hide Addr;
    hide OthersSame;
    hide NeedsSlot;
    if NoSlotMissing(f0, i, off, off + tot) {
      assert f.inodes[i].addrs == f0.inodes[i].addrs;
    }
  }

  lemma InodeSlots(f: Fs, i: int)
    requires Inv(f) && 0 <= i < |f.inodes|
    ensures |f.inodes[i].addrs| == NDIRECT + 1
    ensures forall t :: 0 <= t <= NDIRECT ==> Addr(f, i, t) == f.inodes[i].addrs[t]
  {
  }

  /** In a file grown from empty none is missing below the size. */
  lemma NoneMissing(f: Fs, i: int, off: int, end: int)
    requires FileOk(f, i) && 0 <= off && end <= f.inodes[i].size
    ensures NoSlotMissing(f, i, off, end)
  {
    hide Addr;
    var nb := BlocksOf(f.inodes[i].size);
    forall t | 0 <= t <= NDIRECT && NeedsSlot(off, end, t)
      ensures Addr(f, i, t) != 0
    {
      LastBlock(end, f.inodes[i].size);
      if t < NDIRECT {
        SlotFacts(t);
        assert Addr(f, i, SlotOf(t)) != 0;
      }
    }
  }

  lemma LastBlock(end: int, size: int)
    requires end <= size
    ensures (end - 1) / BSIZE < BlocksOf(size)
  {
  }

  lemma SizeKeepsIndirect(f: Fs, i: int, n: int)
    requires 0 <= i < |f.inodes|
    ensures IndirectSet(WithSize(f, i, n), i) == IndirectSet(f, i)
  {
  }

  lemma MappedBlock(f: Fs, f1: Fs, i: int, bn: int, a: int)
    requires Mapped(f, f1, i, bn, a)
    ensures Inv(f1) && 0 <= i < |f1.inodes| && |f1.inodes| == |f.inodes| && 0 < a < |f1.blocks|
  {
    hide Addr;
    SlotFacts(bn);
    assert SlotOwns(f1, i, SlotOf(bn));
    assert OwnerRight(f1, a);
  }

  /** The number of times bmap calls balloc while the bytes from off to end are written. */
  function FreshBits(size: int, off: int, end: int): int {
    var a, b := Reach(size, off), Reach(size, end);
    b - a + if a <= NDIRECT < b then 1 else 0
  }

  lemma NewBits(size: int, pos: int, m: int)
    requires 0 <= size && 0 <= pos && 0 < m && BlocksOf(pos + m) == pos / BSIZE + 1 && BlocksOf(pos) <= pos / BSIZE + 1
    requires pos / BSIZE <= Reach(size, pos)
    ensures FreshBits(size, pos, pos + m) ==
            if pos / BSIZE < Reach(size, pos) then 0 else if pos / BSIZE == NDIRECT then 2 else 1
  {
    hide BlocksOf;
  }

  lemma MoreBits(size: int, off: int, mid: int, end: int)
    requires off <= mid <= end
    ensures FreshBits(size, off, mid) + FreshBits(size, mid, end) == FreshBits(size, off, end)
    ensures FreshBits(size, mid, end) >= 0
  {
    BlocksMonotone(off, mid);
    BlocksMonotone(mid, end);
    hide BlocksOf;
  }

  lemma {:induction false} HolesAbove(f: Fs, i: int, nb: int, lo: int, hi: int)
    requires HasBlocks(f, i, nb) && 0 <= lo <= nb && lo <= hi <= MAXFILE
    ensures Holes(f, i, lo, hi) == if hi <= nb then 0 else hi - nb
    decreases hi - lo
  {
    hide Addr;
    if lo < hi {
      HolesAbove(f, i, nb, lo, hi - 1);
    }
  }

  /** In a file grown from empty what a request lacks follows from the sizes alone. */
  lemma NeededIsFresh(f: Fs, i: int, off: int, end: int)
    requires FileOk(f, i) && 0 <= off <= f.inodes[i].size && off <= end <= MAXFILE * BSIZE
    ensures Needed(f, i, off, end) == FreshBits(f.inodes[i].size, off, end)
  {
    hide Addr;
    var size := f.inodes[i].size;
    BlocksCover(size);
    BlocksMonotone(off, size);
    BlocksMonotone(off, end);
    HolesAbove(f, i, BlocksOf(size), off / BSIZE, EndBlock(off, end));
  }

  /** What is logged is in base, or one of the blocks written from off to end, or one of the
      blocks of the free map written for those that had to be allocated. */
  ghost predicate LogsOnly(log: set<int>, base: set<int>, data: set<int>, bits: set<int>, size: int, off: int,
                           end: int) {
    && log <= base + data + bits && |data| <= Touched(off, end) && |bits| <= FreshBits(size, off, end)
  }

  lemma LogsNone(log: set<int>, base: set<int>, size: int, off: int, end: int)
    requires log <= base && 0 <= off <= end
    ensures LogsOnly(log, base, {}, {}, size, off, end)
  {
    BlocksMonotone(off, end);
    hide BlocksOf;
  }

  lemma LogsMore(log: set<int>, log': set<int>, log0: set<int>, ind: set<int>, ind': set<int>, data: set<int>,
                 bits: set<int>, a: int, more: set<int>, size: int, off: int, tot: int, m: int)
    requires LogsOnly(log, log0 + ind, data, bits, size, off, off + tot) && ind <= ind'
    requires log' <= log + more + {a} + ind' && |more| <= FreshBits(size, off + tot, off + tot + m)
    requires 0 <= off && 0 <= tot && 0 < m && (tot > 0 ==> (off + tot) % BSIZE == 0)
    ensures LogsOnly(log', log0 + ind', data + {a}, bits + more, size, off, off + (tot + m))
  {
    OneMore(data, a);
    UnionSize(bits, more);
    MoreBits(size, off, off + tot, off + tot + m);
    TouchedMore(off, tot, m);
    hide FreshBits;
    hide Touched;
    assert off + tot + m == off + (tot + m);
  }

  lemma LogsRest(log: set<int>, log': set<int>, base: set<int>, b: int, data: set<int>, bits: set<int>,
                 size: int, off: int, end: int, base': set<int>)
    requires LogsOnly(log, base, data, bits, size, off, end) && log' <= log + {b} && base + {b} <= base'
    ensures LogsOnly(log', base', data, bits, size, off, end)
  {
  }

  lemma UnionSize(a: set<int>, b: set<int>)
    ensures |a + b| <= |a| + |b|
  {
    assert a + b == a + (b - a) && a !! (b - a);
    assert |a + b| == |a| + |b - a|;
    assert b == (b - a) + (b * a) && (b - a) !! (b * a);
  }

  /** One turn of writei's loop: m bytes, into block a. */
  method WritePart(fs: FileSystem, i: int, src: seq<Byte>, off: int, tot: int, ghost f0: Fs)
    returns (panicked: bool, m: int, a: int, ghost bits: set<int>)
    requires WriteRun(f0, fs.State(), i, src, off, tot) && 0 <= off && 0 <= tot < |src| && Inv(f0)
    requires Spent(f0, fs.State(), i, off / BSIZE, EndBlock(off, off + tot)) && (tot > 0 ==> (off + tot) % BSIZE == 0)
    modifies fs`blocks, fs`bmap, fs`inodes, fs`owner, fs`logged
    ensures panicked ==> NoneFree(fs.State()) && FreeCount(f0) < Needed(f0, i, off, off + |src|)
    ensures !panicked ==> Spent(f0, fs.State(), i, off / BSIZE, EndBlock(off, off + (tot + m)))
    ensures !panicked ==> 0 < m && tot + m <= |src| && (tot + m < |src| ==> (off + tot + m) % BSIZE == 0)
    ensures !panicked ==> WriteRun(f0, fs.State(), i, src, off, tot + m)
    ensures !panicked ==> IndirectSet(old(fs.State()), i) <= IndirectSet(fs.State(), i)
    ensures !panicked ==> fs.logged <= old(fs.logged) + bits + {a} + IndirectSet(fs.State(), i)
    ensures !panicked ==> old(fs.logged) <= fs.logged
    ensures !panicked ==> ChangesLogged(old(fs.State()), fs.State(), fs.bmapstart, fs.logged)
    ensures !panicked && FileOk(f0, i) ==> |bits| <= FreshBits(f0.inodes[i].size, off + tot, off + tot + m)
  {
    hide Addr;
    hide ByteAt;
    hide Inv;
    hide FileOk;
    hide HasBlocks;
    hide BlocksOf;
    hide WriteRun;
    hide FileSystem.State;
    hide IndirectSet;
    hide Reach;
    hide Mapped;
    hide NoneFree;
    hide ChangesLogged;
    hide Spent;
    hide FreeCount;
    hide Needed;
    hide EndBlock;
    hide Lacks;
    m, a, bits := 0, 0, {};
    ghost var f := fs.State();
    WriteNext(f0, f, i, src, off, tot);
    var pos := off + tot;
    var bn := pos / BSIZE;
    ghost var nb := Reach(f0.inodes[i].size, pos);
    if FileOk(f0, i) {
      WriteNextBlock(f0, f, i, src, off, tot);
      HasBlock(f, i, nb, bn);
    }
    var q;
    q, bits := fs.Bmap(i, bn);
    if q.None? {
      TurnOut(f0, f, i, off, tot, |src|);
      return true, m, a, bits;
    }
    a := q.value;
    ghost var f1 := fs.State();
    MappedBlock(f, f1, i, bn, a);
    m := if |src| - tot < BSIZE - pos % BSIZE then |src| - tot else BSIZE - pos % BSIZE;
    Position(pos, |src| - tot, m);
    var data := fs.ReadBlock(a);
    ghost var log1 := fs.logged;
    fs.WriteBlock(a, Overlay(data, pos % BSIZE, src, tot, m));
    ChangesFurther(f, f1, fs.State(), fs.bmapstart, log1, fs.logged);
    WriteStep(f0, f, f1, fs.State(), i, src, off, tot, m, a, data);
    TurnSpent(f0, f, f1, fs.State(), i, off, tot, m, a);
    PutIndirect(f1, i, a, bn, fs.State(), Overlay(data, pos % BSIZE, src, tot, m));
    if FileOk(f0, i) {
      NewBits(f0.inodes[i].size, pos, m);
    }
    return false, m, a, bits;
  }

  lemma PutIndirect(f: Fs, i: int, a: int, bn: int, f': Fs, data: Block)
    requires 0 < a < |f.blocks| && f' == Put(f, a, data)
    ensures IndirectSet(f', i) == IndirectSet(f, i)
  {
  }

  /** writei. A request that starts past the end of the file, overflows, or would make the file
      longer than MAXFILE blocks is refused; otherwise the content is overwritten in place.
      panicked is balloc's "out of blocks": fewer blocks are free than the range lacks. Afterwards
      the inode is on disk as in memory if and only if the file has grown or had every slot it
      needed: what fills a hole is not recorded. A file grown from empty has no holes; there a write logs the inode, the
      indirect block, at most one block for each block of the range, and at most one block of the
      free map for each block it allocates. */
  method Writei(fs: FileSystem, i: int, src: seq<Byte>, off: int)
    returns (r: int, panicked: bool, ghost data: set<int>, ghost bits: set<int>)
    requires Inv(fs.State()) && SizeOk(fs.State(), i) && 0 <= off < UINT_LIMIT && |src| < UINT_LIMIT
    requires |fs.dinodes| == |fs.State().inodes|
    modifies fs
    ensures panicked <==> Taken(old(fs.State()), WriteOp(i, off, src))
                          && FreeCount(old(fs.State())) < Needed(old(fs.State()), i, off, off + |src|)
    ensures panicked ==> NoneFree(fs.State())
    ensures !panicked && Taken(old(fs.State()), WriteOp(i, off, src)) ==>
      Spent(old(fs.State()), fs.State(), i, off / BSIZE, EndBlock(off, off + |src|))
    ensures !panicked ==> Step(old(fs.State()), WriteOp(i, off, src), fs.State())
    ensures !panicked ==> r == if Taken(old(fs.State()), WriteOp(i, off, src)) then |src| else -1
    ensures !Taken(old(fs.State()), WriteOp(i, off, src)) ==> !panicked && fs.logged == old(fs.logged)
    ensures !panicked ==>
      fs.dinodes == if Taken(old(fs.State()), WriteOp(i, off, src)) && off + |src| > old(fs.State()).inodes[i].size
                    then old(fs.dinodes)[i := fs.State().inodes[i]] else old(fs.dinodes)
    ensures !panicked && old(fs.dinodes) == old(fs.State()).inodes ==>
      (fs.dinodes == fs.State().inodes <==>
        || !Taken(old(fs.State()), WriteOp(i, off, src))
        || off + |src| > old(fs.State()).inodes[i].size
        || NoSlotMissing(old(fs.State()), i, off, off + |src|))
    ensures !panicked ==> old(fs.logged) <= fs.logged
    ensures !panicked ==> ChangesLogged(old(fs.State()), fs.State(), fs.bmapstart, fs.logged)
    ensures !panicked ==> InodesLogged(old(fs.dinodes), fs.dinodes, fs.inodestart, fs.logged)
    ensures !panicked && FileOk(old(fs.State()), i) ==>
        && (old(fs.dinodes) == old(fs.State()).inodes ==> fs.dinodes == fs.State().inodes)
        && LogsOnly(fs.logged, old(fs.logged) + {fs.InodeBlock(i)} + IndirectSet(fs.State(), i), data, bits,
                    old(fs.State()).inodes[i].size, off, off + |src|)
  {
    hide Addr;
    hide ByteAt;
    hide Inv;
    hide FileOk;
    hide HasBlocks;
    hide BlocksOf;
    hide OthersSame;
    hide WriteRun;
    hide FileSystem.State;
    hide FileSystem.InodeBlock;
    hide IndirectSet;
    hide LogsOnly;
    hide NoneFree;
    hide Written;
    hide NoSlotMissing;
    hide ChangesLogged;
    hide InodesLogged;
    hide Spent;
    hide FreeCount;
    hide Needed;
    hide EndBlock;
    data, bits := {}, {};
    ghost var f0, log0 := fs.State(), fs.logged;
    NothingChanged(f0, fs.bmapstart, log0);
    var size := fs.SizeOf(i);
    if off > size || off + |src| >= UINT_LIMIT || off + |src| > MAXFILE * BSIZE {
      LogsNone(fs.logged, fs.logged + {fs.InodeBlock(i)} + IndirectSet(fs.State(), i), size, off, off + |src|);
      NoInodeChanged(fs.dinodes, fs.inodestart, fs.logged);
      return -1, false, data, bits;
    }
    WriteStart(f0, i, src, off);
    SpentStart(f0, i, off);
    LogsNone(log0, log0 + IndirectSet(f0, i), size, off, off);
    var tot := 0;
    while tot < |src|
      invariant 0 <= tot <= |src| && WriteRun(f0, fs.State(), i, src, off, tot)
      invariant fs.dinodes == old(fs.dinodes)
      invariant log0 <= fs.logged && ChangesLogged(f0, fs.State(), fs.bmapstart, fs.logged)
      invariant FileOk(f0, i) ==>
                  LogsOnly(fs.logged, log0 + IndirectSet(fs.State(), i), data, bits, size, off, off + tot)
      invariant 0 < tot < |src| ==> (off + tot) % BSIZE == 0
      invariant Spent(f0, fs.State(), i, off / BSIZE, EndBlock(off, off + tot))
    {
      var m, a;
      ghost var more, f1, log1, ind1 := {}, fs.State(), fs.logged, IndirectSet(fs.State(), i);
      panicked, m, a, more := WritePart(fs, i, src, off, tot, f0);
      if panicked {
        return -1, true, data, bits;
      }
      ChangesFurther(f0, f1, fs.State(), fs.bmapstart, log1, fs.logged);
      if FileOk(f0, i) {
        LogsMore(log1, fs.logged, log0, ind1, IndirectSet(fs.State(), i), data, bits, a, more, size, off, tot, m);
      }
      data, bits := data + {a}, bits + more;
      tot := tot + m;
    }
    ghost var f, log1 := fs.State(), fs.logged;
    SpentEnough(f0, f, i, off, off + |src|);
    WriteInodes(f0, f, i, src, off, |src|);
    InodeAlone(f0, f, i, src, off, |src|);
    WriteEnd(f0, f, i, src, off, if off + |src| > f0.inodes[i].size then WithSize(f, i, off + |src|) else f);
    if |src| > 0 && off + |src| > size {
      fs.SetSize(i, off + |src|);
      SpentSized(f0, f, i, off, off + |src|, off + |src|);
      SizeKeepsIndirect(f, i, off + |src|);
      ChangesFurther(f0, f, fs.State(), fs.bmapstart, log1, fs.logged);
    } else {
      NoInodeChanged(fs.dinodes, fs.inodestart, fs.logged);
      if FileOk(f0, i) {
        NoneMissing(f0, i, off, off + |src|);
      }
    }
    if FileOk(f0, i) {
      LogsRest(log1, fs.logged, log0 + IndirectSet(f, i), fs.InodeBlock(i), data, bits, size, off, off + |src|,
               log0 + {fs.InodeBlock(i)} + IndirectSet(fs.State(), i));
    }
    return |src|, false, data, bits;
  }
}
