/** How many blocks are free, how many blocks a range of a file lacks, and what bmap over the range
    takes: the arithmetic behind balloc's "out of blocks" (fs.c). */
module FreeBlocks {
  import opened Blocks
  import opened FsModel

  // ---- Free blocks ----------------------------------------------------------------------------

  ghost function FreeBelow(bmap: seq<Block>, n: nat): nat {
    if n == 0 then 0 else FreeBelow(bmap, n - 1) + if Used(bmap, n - 1) then 0 else 1
  }

  /** The number of blocks that balloc could still give. */
  ghost function FreeCount(f: Fs): nat {
    FreeBelow(f.bmap, |f.blocks|)
  }

  lemma {:induction false} FreeNone(bmap: seq<Block>, n: nat)
    ensures FreeBelow(bmap, n) == 0 <==> forall c :: 0 <= c < n ==> Used(bmap, c)
  {
    hide Used;
    if n > 0 {
      FreeNone(bmap, n - 1);
    }
  }

  lemma {:induction false} FreeOneLess(bmap: seq<Block>, bmap': seq<Block>, b: nat, n: nat)
    requires !Used(bmap, b) && forall c :: Used(bmap', c) == (c == b || Used(bmap, c))
    ensures FreeBelow(bmap', n) == FreeBelow(bmap, n) - if b < n then 1 else 0
  {
    hide Used;
    if n > 0 {
      FreeOneLess(bmap, bmap', b, n - 1);
    }
  }

  /** balloc takes one of them. */
  lemma AllocCount(f: Fs, b: int)
    requires 0 <= b < |f.blocks| && b < |f.bmap| * BPB && !Used(f.bmap, b)
    ensures FreeCount(Alloc(f, b)) == FreeCount(f) - 1
  {
    forall c
      ensures Used(WithUsed(f.bmap, b, true), c) == (c == b || Used(f.bmap, c))
    {
      UsedStore(f.bmap, b, true, c);
    }
    FreeOneLess(f.bmap, WithUsed(f.bmap, b, true), b, |f.blocks|);
  }

  // ---- Blocks a file lacks ----------------------------------------------------------------------

  /** How many blocks bmap has to take for block bn: one, and one for the indirect block. */
  function Lacks(f: Fs, i: int, bn: int): nat {
    if Addr(f, i, SlotOf(bn)) != 0 then 0 else if bn >= NDIRECT && Addr(f, i, NDIRECT) == 0 then 2 else 1
  }

  lemma LacksCases(f: Fs, i: int, bn: int)
    ensures Addr(f, i, SlotOf(bn)) != 0 ==> Lacks(f, i, bn) == 0
    ensures Addr(f, i, SlotOf(bn)) == 0 && bn >= NDIRECT && Addr(f, i, NDIRECT) == 0 ==> Lacks(f, i, bn) == 2
    ensures Addr(f, i, SlotOf(bn)) == 0 && (bn < NDIRECT || Addr(f, i, NDIRECT) != 0) ==> Lacks(f, i, bn) == 1
  {
  }

  /** The holes among the blocks from lo up to hi. */
  function Holes(f: Fs, i: int, lo: int, hi: int): nat
    decreases hi - lo
  {
    if hi <= lo then 0 else Holes(f, i, lo, hi - 1) + if Addr(f, i, SlotOf(hi - 1)) == 0 then 1 else 0
  }

  /** The blocks that those from lo up to hi lack, with the indirect block. */
  function Needs(f: Fs, i: int, lo: int, hi: int): nat {
    Holes(f, i, lo, hi) + if lo < hi && NDIRECT < hi && Addr(f, i, NDIRECT) == 0 then 1 else 0
  }

  /** The block after the last one that the bytes from off to end touch. */
  function EndBlock(off: int, end: int): int {
    if end <= off then off / BSIZE else (end - 1) / BSIZE + 1
  }

  /** The blocks that the bytes from off to end lack. */
  function Needed(f: Fs, i: int, off: int, end: int): nat {
    Needs(f, i, off / BSIZE, EndBlock(off, end))
  }

  lemma {:induction false} HolesMonotone(f: Fs, i: int, lo: int, mid: int, hi: int)
    requires mid <= hi
    ensures Holes(f, i, lo, mid) <= Holes(f, i, lo, hi)
    decreases hi - mid
  {
    if mid < hi {
      HolesMonotone(f, i, lo, mid, hi - 1);
    }
  }

  lemma NeedsMonotone(f: Fs, i: int, lo: int, mid: int, hi: int)
    requires mid <= hi
    ensures Needs(f, i, lo, mid) <= Needs(f, i, lo, hi)
  {
    hide Addr;
    HolesMonotone(f, i, lo, mid, hi);
  }

  // ---- What bmap takes over a range ---------------------------------------------------------------

  /** From f0 to f, bmap has been called for the blocks of inode i from lo up to hi: they are there,
      those that were there, or that come after them, are as they were, and as many blocks are gone
      as were lacking. */
  ghost predicate Spent(f0: Fs, f: Fs, i: int, lo: int, hi: int) {
    && FreeCount(f) == FreeCount(f0) - Needs(f0, i, lo, hi)
    && (forall bn :: lo <= bn < hi ==> Addr(f, i, SlotOf(bn)) != 0)
    && (forall bn :: 0 <= bn < MAXFILE && (hi <= bn || Addr(f0, i, SlotOf(bn)) != 0) ==>
          Addr(f, i, SlotOf(bn)) == Addr(f0, i, SlotOf(bn)))
    && (Addr(f, i, NDIRECT) != 0 <==> Addr(f0, i, NDIRECT) != 0 || (lo < hi && NDIRECT < hi))
  }

  lemma SpentNone(f: Fs, i: int, lo: int)
    ensures Spent(f, f, i, lo, lo)
  {
    hide Addr;
    hide FreeCount;
  }

  /** Block bn lacks now what the range up to and with bn lacked, less what has been taken. */
  lemma LacksNext(f0: Fs, f: Fs, i: int, lo: int, bn: int)
    requires Spent(f0, f, i, lo, bn) && 0 <= lo <= bn < MAXFILE
    requires Addr(f0, i, NDIRECT) == 0 && bn >= NDIRECT ==> Addr(f0, i, SlotOf(bn)) == 0
    ensures Needs(f0, i, lo, bn + 1) == Needs(f0, i, lo, bn) + Lacks(f, i, bn)
  {
    hide Addr;
    hide FreeCount;
  }

  lemma SpentMore(f0: Fs, f: Fs, f1: Fs, i: int, lo: int, bn: int, a: int)
    requires Spent(f0, f, i, lo, bn) && 0 <= lo <= bn && Mapped(f, f1, i, bn, a)
    requires Addr(f0, i, NDIRECT) == 0 && bn >= NDIRECT ==> Addr(f0, i, SlotOf(bn)) == 0
    requires FreeCount(f1) == FreeCount(f) - Lacks(f, i, bn)
    ensures Spent(f0, f1, i, lo, bn + 1)
  {
    hide Addr;
    hide FreeCount;
    hide Inv;
    hide OthersSame;
    hide ByteAt;
    LacksNext(f0, f, i, lo, bn);
    hide Needs;
    hide Lacks;
    forall c | 0 <= c < MAXFILE
      ensures c != bn ==> Addr(f1, i, SlotOf(c)) == Addr(f, i, SlotOf(c))
    {
      SlotFacts(c);
      SlotFacts(bn);
    }
    SlotFacts(bn);
  }

  /** Bmap has failed at block bn: the whole range lacks more than there was. */
  lemma SpentOut(f0: Fs, f: Fs, i: int, lo: int, bn: int, hi: int)
    requires Spent(f0, f, i, lo, bn) && 0 <= lo <= bn < MAXFILE && bn < hi
    requires Addr(f0, i, NDIRECT) == 0 && bn >= NDIRECT ==> Addr(f0, i, SlotOf(bn)) == 0
    requires FreeCount(f) < Lacks(f, i, bn)
    ensures FreeCount(f0) < Needs(f0, i, lo, hi)
  {
    LacksNext(f0, f, i, lo, bn);
    hide Needs;
    hide Lacks;
    hide FreeCount;
    NeedsMonotone(f0, i, lo, bn + 1, hi);
  }

  /** The slots and the free map are as they were. */
  lemma SpentKept(f0: Fs, f: Fs, f': Fs, i: int, lo: int, hi: int)
    requires Spent(f0, f, i, lo, hi) && 0 <= i < |f.inodes| && 0 <= lo && hi <= MAXFILE
    requires SameAddrs(f, f') && f'.bmap == f.bmap && |f'.blocks| == |f.blocks|
    ensures Spent(f0, f', i, lo, hi)
  {
    hide Addr;
    hide Needs;
    hide Used;
    forall bn | 0 <= bn < MAXFILE
      ensures Addr(f', i, SlotOf(bn)) == Addr(f, i, SlotOf(bn))
    {
      SlotFacts(bn);
    }
  }

  // ---- One range after another --------------------------------------------------------------------

  lemma {:induction false} HolesThen(f0: Fs, f: Fs, i: int, lo: int, mid: int, lo2: int, hi: int)
    requires lo <= lo2 <= mid <= hi <= MAXFILE && 0 <= lo
    requires forall bn :: lo <= bn < mid ==> Addr(f, i, SlotOf(bn)) != 0
    requires forall bn :: mid <= bn < MAXFILE ==> Addr(f, i, SlotOf(bn)) == Addr(f0, i, SlotOf(bn))
    ensures Holes(f0, i, lo, hi) == Holes(f0, i, lo, mid) + Holes(f, i, lo2, hi)
    decreases hi - lo2
  {
    hide Addr;
    if mid < hi {
      HolesThen(f0, f, i, lo, mid, lo2, hi - 1);
    } else {
      NoHoles(f, i, lo2, mid);
    }
  }

  lemma {:induction false} NoHoles(f: Fs, i: int, lo: int, hi: int)
    requires forall bn :: lo <= bn < hi ==> Addr(f, i, SlotOf(bn)) != 0
    ensures Holes(f, i, lo, hi) == 0
    decreases hi - lo
  {
    hide Addr;
    if lo < hi {
      NoHoles(f, i, lo, hi - 1);
    }
  }

  /** A range, and then one that goes on from it, are one range. */
  lemma SpentThen(f0: Fs, f: Fs, f': Fs, i: int, lo: int, mid: int, lo2: int, hi: int)
    requires Spent(f0, f, i, lo, mid) && Spent(f, f', i, lo2, hi)
    requires 0 <= lo <= lo2 <= mid <= hi <= MAXFILE
    ensures Spent(f0, f', i, lo, hi)
  {
    NeedsThen(f0, f, i, lo, mid, lo2, hi);
    hide Addr;
    hide Needs;
    hide FreeCount;
  }

  lemma NeedsThen(f0: Fs, f: Fs, i: int, lo: int, mid: int, lo2: int, hi: int)
    requires Spent(f0, f, i, lo, mid) && 0 <= lo <= lo2 <= mid <= hi <= MAXFILE
    ensures Needs(f0, i, lo, hi) == Needs(f0, i, lo, mid) + Needs(f, i, lo2, hi)
  {
    hide Addr;
    hide FreeCount;
    HolesThen(f0, f, i, lo, mid, lo2, hi);
    hide Holes;
  }
}
