/** filewrite of file.c: one write as a run of transactions that each fit into the log; and what
    a series of writes leaves in a file. */
module FileWrites {
  import opened Blocks
  import opened FileIO
  import opened FileSystems
  import opened FreeBlocks
  import opened FsModel
  import Logs
  import opened Wrappers

  /** What one transaction may write: three blocks. */
  const CHUNK: int := ((Logs.MAXOPBLOCKS - 1 - 1 - 2) / 2) * 512

  /** A chunk may start and end inside a block, may need the indirect block, and each block it
      allocates may lie in a different block of the free map: the transaction still fits. */
  lemma ChunkFits(log: set<int>, base: set<int>, data: set<int>, bits: set<int>, size: int, off: int, end: int)
    requires 0 <= off <= size && off <= end <= off + CHUNK
    requires LogsOnly(log, base, data, bits, size, off, end) && |base| <= 2
    ensures |log| <= Logs.MAXOPBLOCKS
  {
    ChunkBlocks(size, off, end);
    UnionSize(base, data);
    UnionSize(base + data, bits);
    SubsetSize(log, base + data + bits);
  }

  lemma ChunkBlocks(size: int, off: int, end: int)
    requires 0 <= off <= size && off <= end <= off + CHUNK
    ensures Touched(off, end) <= 4 && FreshBits(size, off, end) <= 4
  {
    BlocksMonotone(off, size);
  }

  lemma SubsetSize(a: set<int>, b: set<int>)
    requires a <= b
    ensures |a| <= |b|
  {
    assert b == a + (b - a) && a !! (b - a);
  }

  /** One turn of filewrite's loop: one transaction. All that it changes on disk is logged. */
  method WriteChunk(fs: FileSystem, i: int, src: seq<Byte>, off: int) returns (r: int, panicked: bool)
    requires Inv(fs.State()) && SizeOk(fs.State(), i) && 0 <= off < UINT_LIMIT && |src| <= CHUNK
    requires |fs.dinodes| == |fs.State().inodes|
    modifies fs
    ensures panicked <==>
      && off <= old(fs.State()).inodes[i].size && off + |src| <= MAXFILE * BSIZE
      && FreeCount(old(fs.State())) < Needed(old(fs.State()), i, off, off + |src|)
    ensures panicked ==> NoneFree(fs.State())
    ensures !panicked && r >= 0 ==>
      Spent(old(fs.State()), fs.State(), i, off / BSIZE, EndBlock(off, off + |src|))
    ensures !panicked ==> |fs.dinodes| == |old(fs.dinodes)|
    ensures !panicked && FileOk(old(fs.State()), i) ==> |fs.logged| <= Logs.MAXOPBLOCKS
    ensures !panicked ==> ChangesLogged(old(fs.State()), fs.State(), fs.bmapstart, fs.logged)
    ensures !panicked ==> InodesLogged(old(fs.dinodes), fs.dinodes, fs.inodestart, fs.logged)
    ensures !panicked && FileOk(old(fs.State()), i) && old(fs.dinodes) == old(fs.State()).inodes ==>
              fs.dinodes == fs.State().inodes
    ensures !panicked ==>
      if off <= old(fs.State()).inodes[i].size && off + |src| <= MAXFILE * BSIZE
      then r == |src| && Written(old(fs.State()), fs.State(), i, src, off)
      else r == -1 && fs.State() == old(fs.State())
  {
    hide Inv;
    hide FileOk;
    hide Written;
    hide LogsOnly;
    hide FileSystem.State;
    hide FileSystem.InodeBlock;
    hide IndirectSet;
    hide NoSlotMissing;
    hide ChangesLogged;
    hide InodesLogged;
    hide Spent;
    hide FreeCount;
    hide Needed;
    hide EndBlock;
    fs.BeginTransaction();
    FileSize(fs.State(), i);
    ghost var data, bits;
    r, panicked, data, bits := Writei(fs, i, src, off);
    if r >= 0 && !panicked && FileOk(old(fs.State()), i) {
      IndirectSetIs(fs.State(), i);
      OneMore(IndirectSet(fs.State(), i), fs.InodeBlock(i));
      assert {} + {fs.InodeBlock(i)} + IndirectSet(fs.State(), i) == IndirectSet(fs.State(), i) + {fs.InodeBlock(i)};
      ChunkFits(fs.logged, {} + {fs.InodeBlock(i)} + IndirectSet(fs.State(), i), data, bits,
                old(fs.State()).inodes[i].size, off, off + |src|);
    }
  }

  lemma FileSize(f: Fs, i: int)
    requires SizeOk(f, i)
    ensures 0 <= i < |f.inodes| && 0 <= f.inodes[i].size <= MAXFILE * BSIZE < UINT_LIMIT
  {
  }

  /** The first k bytes of src are in the file. */
  ghost predicate Progress(f0: Fs, f: Fs, i: int, src: seq<Byte>, off: int, k: int) {
    && 0 <= k <= |src| && Inv(f) && SizeOk(f0, i) && SizeOk(f, i) && |f.inodes| == |f0.inodes|
    && (k == 0 ==> f == f0)
    && (k > 0 ==> off + k <= MAXFILE * BSIZE && Written(f0, f, i, src[..k], off))
  }

  lemma ProgressFile(f0: Fs, f: Fs, i: int, src: seq<Byte>, off: int, k: int)
    requires Progress(f0, f, i, src, off, k)
    ensures Inv(f) && SizeOk(f, i) && SizeOk(f0, i) && (k == 0 ==> f == f0) && |f.inodes| == |f0.inodes|
    ensures k > 0 ==> 0 <= off <= f0.inodes[i].size && off + k <= f.inodes[i].size
    ensures FileOk(f0, i) ==> FileOk(f, i)
  {
    hide Addr;
    hide ByteAt;
    hide Inv;
    hide HasBlocks;
    if k > 0 {
      assert |Contents(f, i)| == |Overwrite(Contents(f0, i), off, src[..k])|;
    }
  }

  lemma Appended(c: seq<Byte>, off: int, a: seq<Byte>, b: seq<Byte>)
    requires 0 <= off <= |c|
    ensures Overwrite(Overwrite(c, off, a), off + |a|, b) == Overwrite(c, off, a + b)
  {
  }

  lemma ProgressStep(f0: Fs, f: Fs, f': Fs, i: int, src: seq<Byte>, off: int, k: int, m: int)
    requires Progress(f0, f, i, src, off, k) && 0 < m && k + m <= |src| && 0 <= off && off + k + m <= MAXFILE * BSIZE
    requires Written(f, f', i, src[k..k + m], off + k)
    ensures Progress(f0, f', i, src, off, k + m)
  {
    hide Addr;
    hide ByteAt;
    hide Inv;
    hide HasBlocks;
    hide Contents;
    hide Overwrite;
    hide SameInode;
    OthersInodes(f, f', i);
    hide OthersSame;
    if k == 0 {
      assert src[0..m] == src[..m];
    } else {
      OthersSameTransitive(f0, f, f', i);
      ContentsSize(f0, i);
      Appended(Contents(f0, i), off, src[..k], src[k..k + m]);
      assert src[..k] + src[k..k + m] == src[..k + m];
    }
  }

  lemma ContentsSize(f: Fs, i: int)
    requires 0 <= i < |f.inodes| && f.inodes[i].size >= 0
    ensures |Contents(f, i)| == f.inodes[i].size
  {
  }

  // ---- filewrite ---------------------------------------------------------------------------------

  /** How many of n bytes at off filewrite writes to a file of the given size: all of them if they
      fit, and otherwise the chunks that do. */
  function Accepted(size: int, off: int, n: int): int {
    if off > size then 0 else if off + n <= MAXFILE * BSIZE then n else (MAXFILE * BSIZE - off) / CHUNK * CHUNK
  }

  /** A chunk is refused exactly when no more are accepted. */
  lemma ChunkAccepted(size: int, off: int, n: int, done: int, n1: int)
    requires 0 <= off && 0 <= done < n && done % CHUNK == 0 && (done > 0 ==> off <= size) && size <= MAXFILE * BSIZE
    requires n1 == if n - done > CHUNK then CHUNK else n - done
    requires done <= Accepted(size, off, n)
    ensures off <= size && off + done + n1 <= MAXFILE * BSIZE <==> done + n1 <= Accepted(size, off, n)
    ensures done + n1 > Accepted(size, off, n) ==> done == Accepted(size, off, n)
  {
    if off <= size && off + n > MAXFILE * BSIZE {
      WholeChunks(MAXFILE * BSIZE - off, done);
    }
  }

  lemma WholeChunks(room: int, done: int)
    requires 0 <= room && 0 <= done && done % CHUNK == 0 && done <= room / CHUNK * CHUNK
    ensures done + CHUNK <= room / CHUNK * CHUNK <==> done + CHUNK <= room
    ensures done + CHUNK > room / CHUNK * CHUNK ==> done == room / CHUNK * CHUNK
  {
    assert done / 1536 <= room / 1536;
  }

  lemma ChunkRange(off: int, done: int, n1: int)
    requires 0 <= off && 0 <= done && 0 < n1 && off + done + n1 <= MAXFILE * BSIZE
    ensures 0 <= off / BSIZE <= (off + done) / BSIZE <= EndBlock(off, off + done)
    ensures EndBlock(off, off + done) <= EndBlock(off + done, off + done + n1) == EndBlock(off, off + (done + n1))
    ensures EndBlock(off, off + (done + n1)) <= MAXFILE
  {
  }

  /** What the chunks up to now have taken, and the next one. */
  lemma ChunkSpent(f0: Fs, f: Fs, f': Fs, i: int, off: int, done: int, n1: int)
    requires 0 <= off && 0 <= done && 0 < n1 && off + done + n1 <= MAXFILE * BSIZE
    requires Spent(f0, f, i, off / BSIZE, EndBlock(off, off + done))
    requires Spent(f, f', i, (off + done) / BSIZE, EndBlock(off + done, off + done + n1))
    ensures Spent(f0, f', i, off / BSIZE, EndBlock(off, off + (done + n1)))
  {
    ChunkRange(off, done, n1);
    hide Spent;
    hide EndBlock;
    SpentThen(f0, f, f', i, off / BSIZE, EndBlock(off, off + done), (off + done) / BSIZE,
              EndBlock(off, off + (done + n1)));
  }

  /** The next chunk runs out of blocks: there were too few for all that is accepted. */
  lemma ChunkOut(f0: Fs, f: Fs, i: int, off: int, done: int, n1: int, n: int)
    requires 0 <= off && 0 <= done && 0 < n1 && off + done + n1 <= MAXFILE * BSIZE && done + n1 <= n
    requires Spent(f0, f, i, off / BSIZE, EndBlock(off, off + done))
    requires FreeCount(f) < Needed(f, i, off + done, off + done + n1)
    ensures FreeCount(f0) < Needed(f0, i, off, off + n)
  {
    var lo, mid, hi := off / BSIZE, EndBlock(off, off + done), EndBlock(off, off + (done + n1));
    ChunkRange(off, done, n1);
    NeedsThen(f0, f, i, lo, mid, (off + done) / BSIZE, hi);
    NeedsMonotone(f0, i, lo, hi, EndBlock(off, off + n));
    hide Addr;
    hide FreeCount;
    hide Needs;
  }

  /** filewrite (written without another process in between the chunks). It succeeds exactly when
      the whole range fits, and then has replaced exactly that range; otherwise it stops after k
      bytes, a whole number of chunks. It panics if and only if fewer blocks are free than what is
      accepted lacks. "short filewrite" cannot happen. */
  method FileWrite(fs: FileSystem, i: int, src: seq<Byte>, off0: int)
    returns (r: int, off: int, panicked: bool, ghost k: int)
    requires Inv(fs.State()) && SizeOk(fs.State(), i) && 0 <= off0 < UINT_LIMIT && |src| < UINT_LIMIT
    requires |fs.dinodes| == |fs.State().inodes|
    modifies fs
    ensures 0 <= k <= |src| && (k < |src| ==> k % CHUNK == 0)
    ensures var size := old(fs.State()).inodes[i].size;
      && (panicked <==> FreeCount(old(fs.State()))
                        < Needed(old(fs.State()), i, off0, off0 + Accepted(size, off0, |src|)))
      && (!panicked ==> k == Accepted(size, off0, |src|))
    ensures panicked ==> NoneFree(fs.State())
    ensures !panicked && FileOk(old(fs.State()), i) && old(fs.dinodes) == old(fs.State()).inodes ==>
              fs.dinodes == fs.State().inodes
    ensures !panicked ==> off == off0 + k && Progress(old(fs.State()), fs.State(), i, src, off0, k)
    ensures !panicked ==> r == if k == |src| then |src| else -1
    ensures !panicked ==> (k == |src| <==>
              |src| == 0 || (off0 <= old(fs.State()).inodes[i].size && off0 + |src| <= MAXFILE * BSIZE))
  {
    hide Inv;
    hide FileOk;
    hide SizeOk;
    hide Written;
    hide Progress;
    hide NoneFree;
    hide FileSystem.State;
    hide Spent;
    hide FreeCount;
    hide Needed;
    hide EndBlock;
    hide Accepted;
    ghost var f0 := fs.State();
    FileSize(f0, i);
    ProgressStart(f0, i, src, off0);
    SpentStart(f0, i, off0);
    ghost var size, all := f0.inodes[i].size, Accepted(f0.inodes[i].size, off0, |src|);
    AcceptedRange(size, off0, |src|);
    var done := 0;
    off, panicked := off0, false;
    while done < |src|
      invariant 0 <= done <= |src| && (done < |src| ==> done % CHUNK == 0)
      invariant off == off0 + done && |fs.dinodes| == |f0.inodes| && (done > 0 ==> off <= MAXFILE * BSIZE)
      invariant FileOk(f0, i) && old(fs.dinodes) == f0.inodes ==> fs.dinodes == fs.State().inodes
      invariant Progress(f0, fs.State(), i, src, off0, done)
      invariant Spent(f0, fs.State(), i, off0 / BSIZE, EndBlock(off0, off0 + done)) && done <= all
    {
      var n1 := |src| - done;
      if n1 > CHUNK {
        n1 := CHUNK;
      }
      ghost var f := fs.State();
      ProgressFile(f0, f, i, src, off0, done);
      FileSize(f, i);
      ChunkAccepted(size, off0, |src|, done, n1);
      r, panicked := WriteChunk(fs, i, src[done..done + n1], off);
      if panicked {
        ChunkOut(f0, f, i, off0, done, n1, all);
        return r, off, true, done;
      }
      if r > 0 {
        off := off + r;
      }
      if r < 0 {
        break;
      }
      ProgressStep(f0, f, fs.State(), i, src, off0, done, n1);
      ChunkSpent(f0, f, fs.State(), i, off0, done, n1);
      done := done + r;
    }
    k := done;
    SpentEnough(f0, fs.State(), i, off0, off0 + done);
    if done == |src| {
      r := |src|;
      ProgressFile(f0, fs.State(), i, src, off0, done);
      if done > 0 {
        ProgressFits(f0, fs.State(), i, src, off0, done);
      }
    } else {
      r := -1;
    }
  }

  lemma AcceptedRange(size: int, off: int, n: int)
    requires 0 <= size <= MAXFILE * BSIZE && 0 <= off && 0 <= n
    ensures 0 <= Accepted(size, off, n) <= n
    ensures Accepted(size, off, n) == n <==> n == 0 || (off <= size && off + n <= MAXFILE * BSIZE)
  {
    if off <= size {
      WholeChunks(MAXFILE * BSIZE - off, 0);
    }
  }

  lemma ProgressStart(f: Fs, i: int, src: seq<Byte>, off: int)
    requires Inv(f) && SizeOk(f, i)
    ensures Progress(f, f, i, src, off, 0)
  {
  }

  lemma ProgressFits(f0: Fs, f: Fs, i: int, src: seq<Byte>, off: int, k: int)
    requires Progress(f0, f, i, src, off, k) && k > 0
    ensures off + k <= MAXFILE * BSIZE
  {
  }

  // ---- Any series of writes --------------------------------------------------------------------

  /** The states between the writes. */
  ghost predicate Run(run: seq<Fs>, ops: seq<WriteOp>) {
    |run| == |ops| + 1 && forall n :: 0 <= n < |ops| ==> Step(run[n], ops[n], run[n + 1])
  }

  /** Write n of the run puts a byte at position k of file i. */
  ghost predicate Hits(run: seq<Fs>, ops: seq<WriteOp>, n: nat, i: int, k: int)
    requires n < |ops| && Run(run, ops)
  {
    ops[n].i == i && Taken(run[n], ops[n]) && ops[n].off <= k < ops[n].off + |ops[n].src|
  }

  /** Position k of file i and the content of the file, across one write. */
  lemma StepByte(f: Fs, op: WriteOp, f': Fs, i: int, k: int)
    requires Step(f, op, f') && SizeOk(f, i) && 0 <= k < MAXFILE * BSIZE
    ensures 0 <= op.i < |f.inodes| && SizeOk(f', i) && |f'.inodes| == |f.inodes|
    ensures var hit := op.i == i && Taken(f, op) && op.off <= k < op.off + |op.src|;
      && (k < f'.inodes[i].size <==> k < f.inodes[i].size || hit)
      && (k < f'.inodes[i].size ==> ByteAt(f', i, k) == if hit then op.src[k - op.off] else ByteAt(f, i, k))
  {
    hide Addr;
    hide ByteAt;
    hide Inv;
    if Taken(f, op) {
      OthersInodes(f, f', op.i);
      if op.i == i {
        hide HasBlocks;
        ContentsSize(f, i);
        ContentsSize(f', i);
        OverwriteAt(Contents(f, i), op.off, op.src, k);
        assert k < f'.inodes[i].size ==> ByteAt(f', i, k) == Contents(f', i)[k];
      } else {
        SameFile(f, f', i);
      }
    }
  }

  lemma SameFile(f: Fs, f': Fs, i: int)
    requires SameInode(f, f', i) && SizeOk(f, i)
    ensures SizeOk(f', i) && f'.inodes[i] == f.inodes[i]
    ensures forall k :: 0 <= k < MAXFILE * BSIZE ==> ByteAt(f', i, k) == ByteAt(f, i, k)
  {
  }

  /** The latest write among the first n that puts a byte at position k of file i, counted from 1;
      0 if there is none. */
  ghost function Latest(run: seq<Fs>, ops: seq<WriteOp>, n: nat, i: int, k: int): (j: nat)
    requires Run(run, ops) && n <= |ops|
    ensures j <= n && (j > 0 ==> Hits(run, ops, j - 1, i, k))
  {
    if n == 0 then 0 else if Hits(run, ops, n - 1, i, k) then n else Latest(run, ops, n - 1, i, k)
  }

  /** What write j put at position k of file i; for j == 0, what was there from the start. */
  ghost function Value(run: seq<Fs>, ops: seq<WriteOp>, i: int, k: int, j: nat): Byte
    requires Run(run, ops) && j <= |ops| && (j > 0 ==> Hits(run, ops, j - 1, i, k))
  {
    if j > 0 then ops[j - 1].src[k - ops[j - 1].off] else ByteAt(run[0], i, k)
  }

  /** After n writes, position k of file i has what write j put there (j == 0: what was there from
      the start); and the file has that position exactly if it had it before or j > 0. */
  ghost predicate LeftBy(run: seq<Fs>, ops: seq<WriteOp>, n: nat, i: int, k: int, j: nat)
    requires Run(run, ops) && j <= n <= |ops| && (j > 0 ==> Hits(run, ops, j - 1, i, k))
  {
    && 0 <= i < |run[n].inodes| && 0 <= i < |run[0].inodes|
    && (k < run[n].inodes[i].size <==> k < run[0].inodes[i].size || j > 0)
    && (k < run[n].inodes[i].size ==> ByteAt(run[n], i, k) == Value(run, ops, i, k, j))
  }

  /** Each byte of each file is what the latest write that reaches it put there, or what was there
      before if none does. */
  lemma {:induction false} LastWriteWins(run: seq<Fs>, ops: seq<WriteOp>, n: nat, i: int, k: int)
    requires Run(run, ops) && n <= |ops| && SizeOk(run[0], i) && 0 <= k < MAXFILE * BSIZE
    ensures SizeOk(run[n], i) && LeftBy(run, ops, n, i, k, Latest(run, ops, n, i, k))
  {
    if n > 0 {
      hide *;
      RunStep(run, ops, n - 1);
      LastWriteWins(run, ops, n - 1, i, k);
      LeftByNext(run, ops, n, i, k, Latest(run, ops, n - 1, i, k));
      LatestNext(run, ops, n, i, k);
    }
  }

  lemma LatestNext(run: seq<Fs>, ops: seq<WriteOp>, n: nat, i: int, k: int)
    requires Run(run, ops) && 0 < n <= |ops|
    ensures Latest(run, ops, n, i, k) == if Hits(run, ops, n - 1, i, k) then n else Latest(run, ops, n - 1, i, k)
  {
  }

  lemma LeftByNext(run: seq<Fs>, ops: seq<WriteOp>, n: nat, i: int, k: int, j: nat)
    requires Run(run, ops) && j < n <= |ops| && (j > 0 ==> Hits(run, ops, j - 1, i, k))
    requires SizeOk(run[n - 1], i) && LeftBy(run, ops, n - 1, i, k, j) && 0 <= k < MAXFILE * BSIZE
    ensures SizeOk(run[n], i)
    ensures LeftBy(run, ops, n, i, k, if Hits(run, ops, n - 1, i, k) then n else j)
  {
    hide SizeOk;
    hide ByteAt;
    StepByte(run[n - 1], ops[n - 1], run[n], i, k);
    hide Step;
  }

  lemma RunStep(run: seq<Fs>, ops: seq<WriteOp>, n: nat)
    requires Run(run, ops) && n < |ops|
    ensures |run| == |ops| + 1 && Step(run[n], ops[n], run[n + 1])
  {
  }

  /** So a later readi returns the bytes of the latest write, however the writes of other processes
      and to other files lie between. */
  lemma ReadsLatest(run: seq<Fs>, ops: seq<WriteOp>, i: int, off: int, n: int, r: Option<seq<Byte>>, t: int)
    requires Run(run, ops) && SizeOk(run[0], i) && 0 <= off && 0 <= i < |run[|ops|].inodes|
    requires ReadResult(run[|ops|], i, off, n, r) && r.Some? && 0 <= t < |r.value|
    ensures r.value[t] == Value(run, ops, i, off + t, Latest(run, ops, |ops|, i, off + t))
  {
    hide *;
    RunLength(run, ops);
    ReadByte(run[|ops|], i, off, n, r, t);
    LastWriteWins(run, ops, |ops|, i, 0);
    FileSize(run[|ops|], i);
    LastWriteWins(run, ops, |ops|, i, off + t);
    LeftByIs(run, ops, i, off + t, Latest(run, ops, |ops|, i, off + t));
  }

  lemma RunLength(run: seq<Fs>, ops: seq<WriteOp>)
    requires Run(run, ops)
    ensures |run| == |ops| + 1 && 0 < MAXFILE * BSIZE
  {
  }

  lemma ReadByte(f: Fs, i: int, off: int, n: int, r: Option<seq<Byte>>, t: int)
    requires 0 <= i < |f.inodes| && ReadResult(f, i, off, n, r) && r.Some? && 0 <= t < |r.value|
    ensures r.value[t] == ByteAt(f, i, off + t) && off + t < f.inodes[i].size
  {
  }

  lemma LeftByIs(run: seq<Fs>, ops: seq<WriteOp>, i: int, k: int, j: nat)
    requires Run(run, ops) && j <= |ops| && (j > 0 ==> Hits(run, ops, j - 1, i, k))
    requires LeftBy(run, ops, |ops|, i, k, j) && 0 <= i < |run[|ops|].inodes| && k < run[|ops|].inodes[i].size
    ensures ByteAt(run[|ops|], i, k) == Value(run, ops, i, k, j)
  {
  }

  lemma OverwriteAt(c: seq<Byte>, off: int, src: seq<Byte>, k: nat)
    requires 0 <= off <= |c|
    ensures |c| <= |Overwrite(c, off, src)| && (k < |Overwrite(c, off, src)| <==> k < |c| || k < off + |src|)
    ensures k < |Overwrite(c, off, src)| ==>
            Overwrite(c, off, src)[k] == if off <= k < off + |src| then src[k - off] else c[k]
  {
  }
}
