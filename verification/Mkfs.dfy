/** mkfs.c: the file system image that the kernel starts from. */
module Mkfs {
  import opened Blocks
  import opened FileIO
  import opened FileSystems
  import opened FreeBlocks
  import opened FsModel
  import opened Wrappers

  // ---- The free map ----------------------------------------------------------------------------

  /** n bitmap blocks in which the first `used` bits are set. */
  function PrefixMap(n: nat, used: nat): (m: seq<Block>)
    ensures |m| == n
  {
    if used == 0 then seq(n, _ => ZeroBlock())
    else
      var m := PrefixMap(n, used - 1);
      if used - 1 < n * BPB then WithUsed(m, used - 1, true) else m
  }

  lemma {:induction false} PrefixUsed(n: nat, used: nat, b: int)
    requires used <= n * BPB
    ensures Used(PrefixMap(n, used), b) <==> 0 <= b < used
  {
    hide WithUsed;
    if used > 0 {
      hide Used;
      PrefixUsed(n, used - 1, b);
      UsedStore(PrefixMap(n, used - 1), used - 1, true, b);
    } else if 0 <= b < n * BPB {
      NoBits(b % BPB % 8);
    }
  }

  lemma {:induction false} NoBits(k: nat)
    ensures !BitOf(0, k)
  {
    if k > 0 {
      NoBits(k - 1);
    }
  }

  // ---- The image -------------------------------------------------------------------------------

  /** Nothing has been put into the blocks from fb on, and exactly the blocks below it count as
      used. */
  ghost predicate Unused(f: Fs, fb: int) {
    && 0 <= f.nmeta <= fb <= |f.blocks| <= |f.bmap| * BPB && f.bmap == PrefixMap(|f.bmap|, fb)
    && forall b :: fb <= b < |f.blocks| ==> f.blocks[b] == ZeroBlock()
  }

  lemma BelowFree(f: Fs, fb: int, b: int)
    requires Inv(f) && Unused(f, fb) && b in f.owner
    ensures 0 <= b < fb
  {
    hide Used;
    hide PrefixMap;
    assert OwnerRight(f, b);
    PrefixUsed(|f.bmap|, fb, b);
  }

  /** The owned blocks are those from the metadata to fb. */
  lemma OwnedBlocks(f: Fs, fb: int)
    requires Inv(f) && Unused(f, fb)
    ensures forall b :: b in f.owner <==> f.nmeta <= b < fb
  {
    hide Used;
    hide PrefixMap;
    forall b
      ensures b in f.owner <==> f.nmeta <= b < fb
    {
      PrefixUsed(|f.bmap|, fb, b);
      if b in f.owner {
        assert OwnerRight(f, b);
      }
    }
  }

  /** freeblock++ is balloc's choice on such an image. */
  lemma NextIsFree(f: Fs, fb: int)
    requires Inv(f) && Unused(f, fb) && fb < |f.blocks|
    ensures !Used(f.bmap, fb) && fb !in f.owner && fb < |f.bmap| * BPB && 0 <= fb
    ensures Alloc(f, fb) == f.(bmap := PrefixMap(|f.bmap|, fb + 1), owner := f.owner[fb := Held])
  {
    hide Used;
    PrefixUsed(|f.bmap|, fb, fb);
    assert f.blocks[fb := ZeroBlock()] == f.blocks;
  }

  class Image {
    const nmeta: nat
    const nbitmap: nat
    var blocks: seq<Block>
    var inodes: seq<Inode>
    var freeblock: nat
    ghost var owner: map<int, Owner>

    /** What the kernel will see, once the free map is written. */
    ghost function State(): Fs
      reads this
    {
      Fs(blocks, PrefixMap(nbitmap, freeblock), nmeta, inodes, owner)
    }

    /** All blocks and inodes zero, the metadata used. */
    constructor (size: nat, nmeta: nat, nbitmap: nat, ninodes: nat)
      requires 0 < nmeta <= size <= nbitmap * BPB && size <= WORD_LIMIT
      ensures Inv(State()) && Unused(State(), freeblock) && freeblock == nmeta && |State().inodes| == ninodes
      ensures |State().blocks| == size && this.nmeta == nmeta && this.nbitmap == nbitmap
      ensures forall i :: 0 <= i < |State().inodes| ==> FileOk(State(), i) && State().inodes[i].size == 0
    {
      this.nmeta, this.nbitmap := nmeta, nbitmap;
      blocks := seq(size, _ => ZeroBlock());
      inodes := seq(ninodes, _ => EmptyInode());
      freeblock, owner := nmeta, map[];
      new;
      StartOk(State(), nmeta);
    }

    /** A block number from freeblock, put into slot s of inode i. None: the read of a block past
        the end of the image fails and mkfs gives up. */
    method NewBlock(i: int, s: int) returns (r: Option<int>)
      requires Inv(State()) && Unused(State(), freeblock) && 0 <= i < |State().inodes| && 0 <= s < NSLOTS
      requires Addr(State(), i, s) == 0 && (s > NDIRECT ==> Addr(State(), i, NDIRECT) != 0)
      modifies this
      ensures r.Some? ==> Added(old(State()), State(), i, s, r.value) && Unused(State(), freeblock)
      ensures r.None? <==> old(freeblock) == |old(State()).blocks|
      ensures freeblock == if r.Some? then old(freeblock) + 1 else old(freeblock)
      ensures |State().blocks| == |old(State()).blocks|
    {
      hide Used;
      hide PrefixMap;
      hide Addr;
      ghost var f := State();
      if freeblock >= |blocks| {
        return None;
      }
      var b: int := freeblock;
      NextIsFree(f, b);
      FreshMayAttach(f, i, s, b, Alloc(f, b));
      freeblock := freeblock + 1;
      if s <= NDIRECT {
        inodes := inodes[i := inodes[i].(addrs := inodes[i].addrs[s := b])];
      } else {
        var a := inodes[i].addrs[NDIRECT];
        IndirectBelow(f, i, b);
        blocks := blocks[a := SetWord(blocks[a], s - NDIRECT - 1, b)];
      }
      owner := owner[b := Slot(i, s)];
      return Some(b);
    }

    method ReadAddr(i: int, s: int) returns (a: int)
      requires Inv(State()) && 0 <= i < |State().inodes| && 0 <= s < NSLOTS
      requires s > NDIRECT ==> Addr(State(), i, NDIRECT) != 0
      ensures a == Addr(State(), i, s)
    {
      if s <= NDIRECT {
        a := inodes[i].addrs[s];
      } else {
        assert SlotOwns(State(), i, NDIRECT);
        a := WordAt(blocks[inodes[i].addrs[NDIRECT]], s - NDIRECT - 1);
      }
    }

    /** Block fbn of the inode, as in the loop of iappend. None: the image is full. */
    method BlockFor(i: int, fbn: int) returns (r: Option<int>)
      requires Inv(State()) && Unused(State(), freeblock) && 0 <= i < |State().inodes| && 0 <= fbn < MAXFILE
      modifies this
      ensures r.Some? ==> Mapped(old(State()), State(), i, fbn, r.value) && Unused(State(), freeblock)
      ensures |State().blocks| == |old(State()).blocks|
      ensures r.Some? <==> old(freeblock) + Lacks(old(State()), i, fbn) <= |State().blocks|
      ensures r.Some? ==> freeblock == old(freeblock) + Lacks(old(State()), i, fbn)
    {
      hide *;
      ghost var f := State();
      ghost var c := 0;
      MaxFile();
      SlotFacts(fbn);
      AddrsLength(f, i);
      LacksCases(f, i, fbn);
      UnusedRange(f, freeblock);
      if fbn >= NDIRECT {
        var ind := ReadAddr(i, NDIRECT);
        if ind == 0 {
          NoIndirectBlock(f, i, fbn);
          r := NewBlock(i, NDIRECT);
          if r.None? {
            return;
          }
          c := r.value;
          AddedFills(f, State(), i, NDIRECT, c);
        }
      }
      ghost var f1 := State();
      UnusedRange(f1, freeblock);
      FilledSlots(f, f1, i, fbn, c);
      var x := ReadAddr(i, SlotOf(fbn));
      if x != 0 {
        MappedFound(f, i, fbn);
        return Some(x);
      }
      r := NewBlock(i, SlotOf(fbn));
      if r.Some? {
        UnusedRange(State(), freeblock);
        AddedFills(f1, State(), i, SlotOf(fbn), r.value);
        if f1 == f {
          MappedFilled(f, State(), i, fbn, r.value);
        } else {
          MappedTwice(f, f1, State(), i, fbn, c, r.value);
        }
      }
    }

    method WriteSector(a: int, data: Block)
      requires Unused(State(), freeblock) && 0 < a < freeblock && freeblock <= |State().blocks|
      modifies this`blocks
      ensures State() == Put(old(State()), a, data) && Unused(State(), freeblock)
    {
      hide PrefixMap;
      blocks := blocks[a := data];
    }

    /** iappend: the bytes are at the end of the file, in blocks of its own. It succeeds if and
        only if the file does not get too long for an inode and the image has room for it. */
    method Append(i: int, src: seq<Byte>) returns (ok: bool)
      requires Inv(State()) && Unused(State(), freeblock) && FileOk(State(), i)
      modifies this
      ensures ok ==> Written(old(State()), State(), i, src, old(State()).inodes[i].size) && Unused(State(), freeblock)
      ensures var size := old(State()).inodes[i].size;
        && (ok <==> size + |src| <= MAXFILE * BSIZE
                    && old(freeblock) + FreshBits(size, size, size + |src|) <= |old(State()).blocks|)
        && (ok ==> freeblock == old(freeblock) + FreshBits(size, size, size + |src|))
        && (ok ==> |State().blocks| == |old(State()).blocks|)
    {
      hide *;
      ghost var f0, fb0 := State(), freeblock;
      FileSizeOk(f0, i);
      UnusedRange(f0, freeblock);
      var off := SizeOf(i);
      MaxBytes();
      if off + |src| > MAXFILE * BSIZE {
        return false;
      }
      WriteStart(f0, i, src, off);
      NoBitsYet(off, off);
      var tot := 0;
      while tot < |src|
        invariant 0 <= tot <= |src| && WriteRun(f0, State(), i, src, off, tot) && Unused(State(), freeblock)
        invariant |State().blocks| == |f0.blocks| && freeblock == fb0 + FreshBits(off, off, off + tot)
      {
        ghost var f := State();
        WriteNext(f0, f, i, src, off, tot);
        WriteNextBlock(f0, f, i, src, off, tot);
        var fbn, at := Place(off + tot);
        ghost var nb := Reach(off, off + tot);
        LacksAppend(f, i, nb, fbn);
        var n1 := if |src| - tot < BSIZE - at then |src| - tot else BSIZE - at;
        Position(off + tot, |src| - tot, n1);
        NewBits(off, off + tot, n1);
        MoreBits(off, off, off + tot, off + tot + n1);
        MoreBits(off, off, off + tot + n1, off + |src|);
        var x := BlockFor(i, fbn);
        if x.None? {
          return false;
        }
        ghost var f1 := State();
        MappedBlock(f, f1, i, fbn, x.value);
        MappedIn(f, f1, i, fbn, x.value, freeblock);
        var data := ReadSector(x.value);
        WriteSector(x.value, Overlay(data, at, src, tot, n1));
        PutSize(f1, x.value, Overlay(data, at, src, tot, n1));
        WriteStep(f0, f, f1, State(), i, src, off, tot, n1, x.value, data);
        tot := tot + n1;
      }
      ghost var f := State();
      UnusedRange(f, freeblock);
      WriteInodes(f0, f, i, src, off, |src|);
      SetSize(i, off + |src|);
      AppendEnd(f0, f, i, src, off, State());
      return true;
    }

    method SizeOf(i: int) returns (n: int)
      requires 0 <= i < |State().inodes|
      ensures n == State().inodes[i].size
    {
      n := inodes[i].size;
    }

    method ReadSector(a: int) returns (data: Block)
      requires 0 <= a < |State().blocks|
      ensures data == State().blocks[a]
    {
      data := blocks[a];
    }

    method SetSize(i: int, n: int)
      requires 0 <= i < |State().inodes| && Unused(State(), freeblock)
      modifies this`inodes
      ensures State() == WithSize(old(State()), i, n) && Unused(State(), freeblock)
    {
      inodes := inodes[i := inodes[i].(size := n)];
    }

    /** balloc: the free map is written, one bit at a time. */
    method WriteMap() returns (bmap: seq<Block>, ok: bool)
      requires freeblock <= nbitmap * BPB
      ensures ok <==> freeblock < BPB
      ensures ok ==> bmap == State().bmap
    {
      bmap := seq(nbitmap, _ => ZeroBlock());
      if freeblock >= BPB {
        return bmap, false;
      }
      var i := 0;
      while i < freeblock
        invariant 0 <= i <= freeblock && bmap == PrefixMap(nbitmap, i)
      {
        bmap := WithUsed(bmap, i, true);
        i := i + 1;
      }
      return bmap, true;
    }
  }

  function EmptyInode(): Inode {
    Inode(0, seq(NDIRECT + 1, _ => 0))
  }

  lemma StartOk(f: Fs, fb: int)
    requires 0 < f.nmeta == fb <= |f.blocks| <= |f.bmap| * BPB && |f.blocks| <= WORD_LIMIT
    requires f.bmap == PrefixMap(|f.bmap|, fb) && f.owner == map[]
    requires forall b :: 0 <= b < |f.blocks| ==> f.blocks[b] == ZeroBlock()
    requires forall i :: 0 <= i < |f.inodes| ==> f.inodes[i] == EmptyInode()
    ensures Inv(f) && Unused(f, fb)
    ensures forall i :: 0 <= i < |f.inodes| ==> FileOk(f, i) && f.inodes[i].size == 0
  {
    hide Used;
    hide PrefixMap;
    hide WordAt;
    forall b | 0 <= b < |f.blocks|
      ensures Used(f.bmap, b) <==> b < f.nmeta
    {
      PrefixUsed(|f.bmap|, fb, b);
    }
  }

  lemma IndirectBelow(f: Fs, i: int, fb: int)
    requires Inv(f) && Unused(f, fb) && 0 <= i < |f.inodes| && Addr(f, i, NDIRECT) != 0
    ensures |f.inodes[i].addrs| == NDIRECT + 1 && 0 <= f.inodes[i].addrs[NDIRECT] < fb
  {
    hide Used;
    hide PrefixMap;
    assert SlotOwns(f, i, NDIRECT);
    BelowFree(f, fb, Addr(f, i, NDIRECT));
  }

  lemma MaxBytes()
    ensures 0 < BSIZE
  {
  }

  method Place(pos: int) returns (fbn: int, at: int)
    requires 0 <= pos
    ensures 0 < BSIZE && fbn == pos / BSIZE && at == pos % BSIZE && 0 <= at < BSIZE
  {
    fbn, at := pos / BSIZE, pos % BSIZE;
  }

  lemma MappedIn(f: Fs, f1: Fs, i: int, fbn: int, x: int, fb: int)
    requires Mapped(f, f1, i, fbn, x) && Unused(f1, fb)
    ensures 0 < x < fb <= |f1.blocks|
  {
    hide Addr;
    hide Used;
    hide PrefixMap;
    SlotFacts(fbn);
    assert SlotOwns(f1, i, SlotOf(fbn));
    assert OwnerRight(f1, x);
    BelowFree(f1, fb, x);
  }

  lemma LacksAppend(f: Fs, i: int, nb: int, fbn: int)
    requires HasBlocks(f, i, nb) && 0 <= fbn <= nb && fbn < MAXFILE
    ensures Lacks(f, i, fbn) == if fbn < nb then 0 else if fbn == NDIRECT then 2 else 1
  {
    HasBlock(f, i, nb, fbn);
  }

  lemma UnusedRange(f: Fs, fb: int)
    requires Unused(f, fb)
    ensures 0 <= fb <= |f.blocks|
  {
  }

  lemma FileSizeOk(f: Fs, i: int)
    requires FileOk(f, i)
    ensures SizeOk(f, i) && 0 <= i < |f.inodes| && 0 <= f.inodes[i].size
  {
  }

  lemma NoBitsYet(size: int, off: int)
    ensures FreshBits(size, off, off) == 0
  {
  }

  lemma PutSize(f: Fs, a: int, data: Block)
    requires 0 <= a < |f.blocks|
    ensures |Put(f, a, data).blocks| == |f.blocks|
  {
  }

  lemma AppendEnd(f0: Fs, f: Fs, i: int, src: seq<Byte>, off: int, f': Fs)
    requires WriteRun(f0, f, i, src, off, |src|) && 0 <= i < |f.inodes| && |f0.inodes| == |f.inodes|
    requires off == f0.inodes[i].size == f.inodes[i].size && f' == WithSize(f, i, off + |src|)
    ensures Written(f0, f', i, src, off)
    ensures |f'.blocks| == |f.blocks|
  {
    assert |f'.blocks| == |f.blocks|;
    hide *;
    if |src| == 0 {
      SameSize(f, i, off);
    }
    WriteEnd(f0, f, i, src, off, f');
  }

  lemma SameSize(f: Fs, i: int, n: int)
    requires 0 <= i < |f.inodes| && f.inodes[i].size == n
    ensures WithSize(f, i, n) == f
  {
  }

  // ---- The size of the root directory ----------------------------------------------------------

  function Rounded(off: int): int {
    (off / BSIZE + 1) * BSIZE
  }

  /** main rounds the size of the root up. Then every block below the size is there if and only
      if the directory did not end at a block boundary. */
  lemma RootSizeIff(f: Fs, i: int)
    requires FileOk(f, i)
    ensures FileOk(WithSize(f, i, Rounded(f.inodes[i].size)), i) <==> f.inodes[i].size % BSIZE != 0
  {
    hide Addr;
    var size := f.inodes[i].size;
    var f' := WithSize(f, i, Rounded(size));
    SizeNoAddr(f, i, Rounded(size));
    RoundedBlocks(size);
    if size % BSIZE == 0 && FileOk(f', i) {
      OneCount(f, f', i, BlocksOf(size), BlocksOf(Rounded(size)));
    }
  }

  lemma SizeNoAddr(f: Fs, i: int, n: int)
    requires 0 <= i < |f.inodes|
    ensures forall s :: Addr(WithSize(f, i, n), i, s) == Addr(f, i, s)
  {
  }

  lemma RoundedBlocks(size: int)
    requires 0 <= size <= MAXFILE * BSIZE
    ensures BlocksOf(Rounded(size)) == if size % BSIZE == 0 then BlocksOf(size) + 1 else BlocksOf(size)
    ensures size % BSIZE != 0 ==> Rounded(size) <= MAXFILE * BSIZE
  {
  }

  lemma OneCount(f: Fs, f': Fs, i: int, n: int, m: int)
    requires HasBlocks(f, i, n) && HasBlocks(f', i, m) && forall s :: Addr(f', i, s) == Addr(f, i, s)
    ensures n == m
  {
    hide Addr;
    assert n < MAXFILE ==> (Addr(f', i, SlotOf(n)) != 0 <==> n < m) && (Addr(f, i, SlotOf(n)) != 0 <==> n < n);
    assert m < MAXFILE ==> (Addr(f, i, SlotOf(m)) != 0 <==> m < n) && (Addr(f', i, SlotOf(m)) != 0 <==> m < m);
  }

  // ---- The whole image ----------------------------------------------------------------------------

  const FSSIZE: nat := 1000
  const NINODES: nat := 200
  /** Boot block, superblock, log, inodes and free map. */
  const NMETA: nat := 2 + 30 + (NINODES / 8 + 1) + 1
  const ROOTINO: int := 1
  const DIRENT: int := 16

  lemma Geometry()
    ensures 0 < NMETA <= FSSIZE <= 1 * BPB && FSSIZE <= WORD_LIMIT && ROOTINO == 1 && NINODES == 200
  {
  }

  function Join(ents: seq<seq<Byte>>, n: nat): seq<Byte>
    requires n <= |ents|
  {
    if n == 0 then [] else Join(ents, n - 1) + ents[n - 1]
  }

  lemma {:induction false} JoinLength(ents: seq<seq<Byte>>, n: nat)
    requires n <= |ents| && forall j :: 0 <= j < |ents| ==> |ents[j]| == DIRENT
    ensures |Join(ents, n)| == n * DIRENT
  {
    if n > 0 {
      JoinLength(ents, n - 1);
    }
  }

  /** The blocks of the first n files, those with block numbers included. */
  function Need(files: seq<seq<Byte>>, n: nat): int
    requires n <= |files|
  {
    if n == 0 then 0 else Need(files, n - 1) + FreshBits(0, 0, |files[n - 1]|)
  }

  lemma {:induction false} NeedMore(files: seq<seq<Byte>>, n: nat, m: nat)
    requires n <= m <= |files|
    ensures Need(files, n) <= Need(files, m)
  {
    if n < m {
      NeedMore(files, n, m - 1);
      MoreBits(0, 0, 0, |files[m - 1]|);
      NoBitsYet(0, 0);
    }
  }

  /** What the parts take up is what the whole does. */
  lemma BitsAdd(a: int, b: int)
    requires 0 <= a <= b
    ensures FreshBits(0, 0, a) + FreshBits(a, a, b) == FreshBits(0, 0, b) && FreshBits(a, a, b) >= 0
  {
    MoreBits(0, 0, a, b);
    BlocksMonotone(0, a);
    BlocksMonotone(a, b);
  }

  lemma OverwriteEnd(c: seq<Byte>, src: seq<Byte>)
    ensures Overwrite(c, |c|, src) == c + src
  {
  }

  /** Inode i has the content, in blocks without holes. */
  ghost predicate Has(f: Fs, i: int, c: seq<Byte>) {
    FileOk(f, i) && Contents(f, i) == c
  }

  lemma HasSame(f: Fs, f': Fs, i: int, j: int, c: seq<Byte>)
    requires Has(f, j, c) && OthersSame(f, f', i) && i != j
    ensures Has(f', j, c)
  {
    hide Addr;
    hide ByteAt;
    assert SameInode(f, f', j);
    assert Contents(f', j) == Contents(f, j);
  }

  lemma HasMore(f: Fs, f': Fs, i: int, c: seq<Byte>, src: seq<Byte>)
    requires Has(f, i, c) && Written(f, f', i, src, |c|)
    ensures Has(f', i, c + src) && Inv(f') && OthersSame(f, f', i)
  {
    hide Inv;
    hide FileOk;
    hide OthersSame;
    OverwriteEnd(c, src);
  }

  lemma OneBlock()
    ensures BSIZE == 512
  {
  }

  lemma NoOthers(f: Fs, i: int)
    ensures OthersSame(f, f, i)
  {
  }

  lemma HasSize(f: Fs, i: int, c: seq<Byte>)
    requires Has(f, i, c)
    ensures FileOk(f, i) && 0 <= i < |f.inodes| && f.inodes[i].size == |c| <= MAXFILE * BSIZE
  {
  }

  /** The read and iappend loop of main for one file. */
  method AppendFile(img: Image, i: int, file: seq<Byte>) returns (ok: bool)
    requires Inv(img.State()) && Unused(img.State(), img.freeblock) && Has(img.State(), i, [])
    modifies img
    ensures ok ==> Inv(img.State()) && Unused(img.State(), img.freeblock) && Has(img.State(), i, file)
    ensures ok ==> OthersSame(old(img.State()), img.State(), i) && |img.State().blocks| == |old(img.State()).blocks|
    ensures ok <==> |file| <= MAXFILE * BSIZE
                    && old(img.freeblock) + FreshBits(0, 0, |file|) <= |old(img.State()).blocks|
    ensures ok ==> img.freeblock == old(img.freeblock) + FreshBits(0, 0, |file|)
  {
    hide *;
    ghost var f0, fb0 := img.State(), img.freeblock;
    var tot := 0;
    OneBlock();
    NoBitsYet(0, 0);
    NoOthers(f0, i);
    UnusedRange(f0, fb0);
    assert file[..0] == [];
    while tot < |file|
      invariant 0 <= tot <= |file| && Inv(img.State()) && Unused(img.State(), img.freeblock)
      invariant Has(img.State(), i, file[..tot]) && OthersSame(f0, img.State(), i)
      invariant |img.State().blocks| == |f0.blocks| && img.freeblock == fb0 + FreshBits(0, 0, tot) <= |f0.blocks|
      decreases |file| - tot
    {
      ghost var f := img.State();
      var cc := if |file| - tot < BSIZE then |file| - tot else BSIZE;
      HasSize(f, i, file[..tot]);
      BitsAdd(tot, tot + cc);
      BitsAdd(tot + cc, |file|);
      ok := img.Append(i, file[tot..tot + cc]);
      if !ok {
        return;
      }
      HasMore(f, img.State(), i, file[..tot], file[tot..tot + cc]);
      assert file[..tot] + file[tot..tot + cc] == file[..tot + cc];
      OthersSameTransitive(f0, f, img.State(), i);
      tot := tot + cc;
    }
    HasSize(img.State(), i, file[..tot]);
    assert file[..tot] == file;
    return true;
  }

  /** Each inode has its content. */
  ghost predicate Made(f: Fs, cs: seq<seq<Byte>>) {
    && Inv(f) && |f.inodes| == |cs| && |f.blocks| == FSSIZE
    && forall i :: 0 <= i < |cs| ==> Has(f, i, cs[i])
  }

  lemma MadeMore(f: Fs, f': Fs, cs: seq<seq<Byte>>, i: int, c: seq<Byte>)
    requires Made(f, cs) && 0 <= i < |cs| && Inv(f') && OthersSame(f, f', i) && |f'.blocks| == FSSIZE && Has(f', i, c)
    ensures Made(f', cs[i := c])
  {
    hide Inv;
    hide Has;
    forall j | 0 <= j < |cs| && j != i
      ensures Has(f', j, cs[j])
    {
      HasSame(f, f', i, j, cs[j]);
    }
  }

  /** The root with its first e entries, and the first j files. */
  ghost function Placed(ents: seq<seq<Byte>>, files: seq<seq<Byte>>, e: nat, j: nat): seq<seq<Byte>>
    requires e <= |ents| && j <= |files|
  {
    seq(NINODES, i requires 0 <= i =>
      if i == ROOTINO then Join(ents, e) else if 2 <= i < j + 2 then files[i - 2] else [])
  }

  lemma PlacedMore(ents: seq<seq<Byte>>, files: seq<seq<Byte>>, e: nat, j: nat)
    requires e <= |ents| && j <= |files| && |files| + 2 <= NINODES
    ensures |Placed(ents, files, e, j)| == NINODES > ROOTINO && Placed(ents, files, e, j)[ROOTINO] == Join(ents, e)
    ensures e < |ents| ==> Join(ents, e + 1) == Join(ents, e) + ents[e]
    ensures e < |ents| ==> Placed(ents, files, e, j)[ROOTINO := Join(ents, e + 1)] == Placed(ents, files, e + 1, j)
    ensures j < |files| ==> j + 2 < NINODES && Placed(ents, files, e, j)[j + 2] == []
    ensures j < |files| ==> Placed(ents, files, e, j)[j + 2 := files[j]] == Placed(ents, files, e, j + 1)
    ensures forall t :: 0 <= t < j ==> Placed(ents, files, e, j)[t + 2] == files[t]
  {
  }

  lemma MadeStart(f: Fs, ents: seq<seq<Byte>>, files: seq<seq<Byte>>)
    requires Inv(f) && |f.inodes| == NINODES && |f.blocks| == FSSIZE
    requires forall i :: 0 <= i < |f.inodes| ==> FileOk(f, i) && f.inodes[i].size == 0
    ensures Made(f, Placed(ents, files, 0, 0))
  {
    hide Inv;
    hide FileOk;
    hide ByteAt;
    var cs := Placed(ents, files, 0, 0);
    forall i | 0 <= i < |cs|
      ensures Has(f, i, cs[i])
    {
      assert Contents(f, i) == [];
    }
  }

  /** What the image takes up so far. */
  function Taking(files: seq<seq<Byte>>, e: nat, j: nat): int
    requires j <= |files|
  {
    NMETA + FreshBits(0, 0, DIRENT * e) + Need(files, j)
  }

  /** The files are not too long, and there is room for everything. */
  predicate ImageFits(files: seq<seq<Byte>>) {
    (forall t :: 0 <= t < |files| ==> |files[t]| <= MAXFILE * BSIZE) && Taking(files, |files| + 2, |files|) <= FSSIZE
  }

  lemma TakingMore(files: seq<seq<Byte>>, e: nat, j: nat, e': nat, j': nat)
    requires e <= e' && j <= j' <= |files|
    ensures Taking(files, e, j) <= Taking(files, e', j')
  {
    NeedMore(files, j, j');
    BitsAdd(DIRENT * e, DIRENT * e');
  }

  lemma MadeParts(f: Fs, cs: seq<seq<Byte>>, i: int)
    requires Made(f, cs) && 0 <= i < |cs|
    ensures Inv(f) && |f.blocks| == FSSIZE && |f.inodes| == |cs| && Has(f, i, cs[i]) && FileOk(f, i)
    ensures f.inodes[i].size == |cs[i]| <= MAXFILE * BSIZE
  {
    hide Inv;
  }

  /** iappend of entry e to the root. */
  method AppendEntry(img: Image, ents: seq<seq<Byte>>, ghost files: seq<seq<Byte>>, e: nat, ghost j: nat)
    returns (ok: bool)
    requires e < |ents| == |files| + 2 <= NINODES && j <= |files| && forall t :: 0 <= t < |ents| ==> |ents[t]| == DIRENT
    requires Made(img.State(), Placed(ents, files, e, j)) && Unused(img.State(), img.freeblock)
    requires img.freeblock == Taking(files, e, j)
    modifies img
    ensures ok <==> Taking(files, e + 1, j) <= FSSIZE
    ensures ok ==> Made(img.State(), Placed(ents, files, e + 1, j)) && Unused(img.State(), img.freeblock)
    ensures ok ==> img.freeblock == Taking(files, e + 1, j)
  {
    hide *;
    ghost var f, cs := img.State(), Placed(ents, files, e, j);
    Geometry();
    PlacedMore(ents, files, e, j);
    MadeParts(f, cs, ROOTINO);
    JoinLength(ents, e);
    TakingMoreBy(files, e, j);
    EntriesFit(e);
    ok := img.Append(ROOTINO, ents[e]);
    if ok {
      HasMore(f, img.State(), ROOTINO, cs[ROOTINO], ents[e]);
      MadeMore(f, img.State(), cs, ROOTINO, Join(ents, e + 1));
    }
  }

  lemma TakingMoreBy(files: seq<seq<Byte>>, e: nat, j: nat)
    requires j <= |files|
    ensures var size := e * DIRENT;
      Taking(files, e + 1, j) == Taking(files, e, j) + FreshBits(size, size, size + DIRENT)
  {
    BitsAdd(DIRENT * e, DIRENT * (e + 1));
  }

  lemma TakingIs(files: seq<seq<Byte>>, e: nat, j: nat)
    requires j <= |files|
    ensures Taking(files, e, j) == NMETA + FreshBits(0, 0, DIRENT * e) + Need(files, j)
    ensures j > 0 ==> Need(files, j) == Need(files, j - 1) + FreshBits(0, 0, |files[j - 1]|)
  {
  }

  lemma EntriesFit(e: nat)
    requires e < NINODES
    ensures e * DIRENT + DIRENT <= MAXFILE * BSIZE
  {
  }

  lemma StartTaking(files: seq<seq<Byte>>)
    ensures Taking(files, 0, 0) == NMETA
    ensures ImageFits(files) <==>
      (forall t :: 0 <= t < |files| ==> |files[t]| <= MAXFILE * BSIZE) && Taking(files, |files| + 2, |files|) <= FSSIZE
  {
    NoBitsYet(0, 0);
  }

  lemma HoleIff(n: nat)
    ensures n * DIRENT % BSIZE == 0 <==> n % 32 == 0
    ensures n <= NINODES ==> Rounded(n * DIRENT) == Rounded(DIRENT * n) <= MAXFILE * BSIZE
  {
  }

  lemma MadeRounded(f: Fs, f': Fs, ents: seq<seq<Byte>>, files: seq<seq<Byte>>)
    requires |ents| == |files| + 2 <= NINODES && forall t :: 0 <= t < |ents| ==> |ents[t]| == DIRENT
    requires Made(f, Placed(ents, files, |ents|, |files|))
    requires f' == WithSize(f, ROOTINO, Rounded(|Join(ents, |ents|)|))
    ensures Inv(f') && |f'.inodes| == NINODES && f'.inodes[ROOTINO].size == Rounded(DIRENT * |ents|) <= MAXFILE * BSIZE
    ensures forall t :: 0 <= t < |files| ==> Has(f', t + 2, files[t])
    ensures forall k :: 0 <= k < |Join(ents, |ents|)| ==> ByteAt(f', ROOTINO, k) == Join(ents, |ents|)[k]
    ensures FileOk(f', ROOTINO) <==> |ents| % 32 != 0
    ensures HasBlocks(f', ROOTINO, BlocksOf(DIRENT * |ents|))
  {
    var cs, root := Placed(ents, files, |ents|, |files|), Join(ents, |ents|);
    hide *;
    PlacedMore(ents, files, |ents|, |files|);
    MadeParts(f, cs, ROOTINO);
    JoinLength(ents, |ents|);
    RootSizeIff(f, ROOTINO);
    HoleIff(|ents|);
    SizeOnly(f, ROOTINO, Rounded(|root|), f');
    WithSizeIs(f, ROOTINO, Rounded(|root|));
    SizeHasBlocks(f, ROOTINO, Rounded(|root|));
    HasBytes(f, ROOTINO, root);
    forall t | 0 <= t < |files|
      ensures Has(f', t + 2, files[t])
    {
      MadeParts(f, cs, t + 2);
      HasSame(f, f', ROOTINO, t + 2, files[t]);
    }
  }

  lemma WithSizeIs(f: Fs, i: int, n: int)
    requires 0 <= i < |f.inodes|
    ensures |WithSize(f, i, n).inodes| == |f.inodes| && WithSize(f, i, n).inodes[i].size == n
  {
  }

  lemma SizeHasBlocks(f: Fs, i: int, n: int)
    requires FileOk(f, i)
    ensures HasBlocks(WithSize(f, i, n), i, BlocksOf(f.inodes[i].size))
  {
    SizeNoAddr(f, i, n);
  }

  lemma HasBytes(f: Fs, i: int, c: seq<Byte>)
    requires Has(f, i, c)
    ensures forall k :: 0 <= k < |c| ==> ByteAt(f, i, k) == c[k]
  {
    hide ByteAt;
    assert forall k :: 0 <= k < |c| ==> Contents(f, i)[k] == c[k];
  }

  /** main: the root with an entry for itself (ents[0] and ents[1]) and for every file, the files in
      inodes 2, 3, ..., and the size of the root rounded up. It succeeds if and only if everything
      fits. Then every file has its content and no holes; the root has the entries, and has a hole
      if and only if they fill its last block. */
  method MakeImage(ents: seq<seq<Byte>>, files: seq<seq<Byte>>) returns (img: Image, ok: bool)
    requires |ents| == |files| + 2 <= NINODES && forall j :: 0 <= j < |ents| ==> |ents[j]| == DIRENT
    ensures fresh(img) && (ok <==> ImageFits(files))
    ensures ok ==> Inv(img.State()) && Unused(img.State(), img.freeblock) && |img.State().inodes| == NINODES
    ensures ok ==> forall t :: 0 <= t < |files| ==> Has(img.State(), t + 2, files[t])
    ensures ok ==> img.State().inodes[ROOTINO].size == Rounded(DIRENT * |ents|) <= MAXFILE * BSIZE
    ensures ok ==> forall k :: 0 <= k < |Join(ents, |ents|)| ==>
                     ByteAt(img.State(), ROOTINO, k) == Join(ents, |ents|)[k]
    ensures ok ==> (FileOk(img.State(), ROOTINO) <==> |ents| % 32 != 0)
    ensures ok ==> HasBlocks(img.State(), ROOTINO, BlocksOf(DIRENT * |ents|)) && img.freeblock <= FSSIZE
    ensures img.nmeta == NMETA && img.nbitmap == 1
  {
    hide *;
    Geometry();
    img := new Image(FSSIZE, NMETA, 1, NINODES);
    MadeStart(img.State(), ents, files);
    StartTaking(files);
    ok := AppendEntry(img, ents, files, 0, 0);
    TakingMore(files, 1, 0, |ents|, |files|);
    if !ok {
      return;
    }
    ok := AppendEntry(img, ents, files, 1, 0);
    TakingMore(files, 2, 0, |ents|, |files|);
    if !ok {
      return;
    }
    var j := 0;
    while j < |files|
      invariant 0 <= j <= |files| && Made(img.State(), Placed(ents, files, j + 2, j)) && fresh(img)
      invariant Unused(img.State(), img.freeblock) && img.freeblock == Taking(files, j + 2, j) <= FSSIZE
      invariant forall t :: 0 <= t < j ==> |files[t]| <= MAXFILE * BSIZE
    {
      ok := AppendEntry(img, ents, files, j + 2, j);
      TakingMore(files, j + 3, j, |ents|, |files|);
      if !ok {
        return;
      }
      ghost var f := img.State();
      PlacedMore(ents, files, j + 3, j);
      MadeParts(f, Placed(ents, files, j + 3, j), j + 2);
      TakingIs(files, j + 3, j);
      TakingIs(files, j + 3, j + 1);
      TakingMore(files, j + 3, j + 1, |ents|, |files|);
      ok := AppendFile(img, j + 2, files[j]);
      if !ok {
        return;
      }
      MadeMore(f, img.State(), Placed(ents, files, j + 3, j), j + 2, files[j]);
      HasSize(img.State(), j + 2, files[j]);
      j := j + 1;
    }
    ghost var f := img.State();
    PlacedMore(ents, files, |ents|, |files|);
    MadeParts(f, Placed(ents, files, |ents|, |files|), ROOTINO);
    var off := img.SizeOf(ROOTINO);
    img.SetSize(ROOTINO, Rounded(off));
    MadeRounded(f, img.State(), ents, files);
    return img, true;
  }

  // ---- A root with a hole -------------------------------------------------------------------------

  lemma {:induction false} NoNeed(files: seq<seq<Byte>>, n: nat)
    requires n <= |files| && forall t :: 0 <= t < |files| ==> files[t] == []
    ensures Need(files, n) == 0
  {
    if n > 0 {
      NoNeed(files, n - 1);
      NoBitsYet(0, 0);
    }
  }

  /** The root is two blocks long and has only the first of them. */
  ghost predicate RootHole(f: Fs) {
    Inv(f) && SizeOk(f, ROOTINO) && f.inodes[ROOTINO].size == 2 * BSIZE && HasBlocks(f, ROOTINO, 1)
  }

  /** The kernel on an image with 30 empty files, whose root has 32 entries. */
  method BootThirty(ents: seq<seq<Byte>>) returns (fs: FileSystem)
    requires |ents| == 32 && forall j :: 0 <= j < |ents| ==> |ents[j]| == DIRENT
    ensures fresh(fs) && RootHole(fs.State()) && fs.dinodes == fs.State().inodes
    ensures forall k :: 0 <= k < |Join(ents, |ents|)| ==>
              ByteAt(fs.State(), ROOTINO, k) == Join(ents, |ents|)[k]
  {
    var files := seq(30, _ => []);
    NoNeed(files, 30);
    assert ImageFits(files);
    var img, ok := MakeImage(ents, files);
    var bmap, written := img.WriteMap();
    fs := new FileSystem(img.nmeta, 2 + 30 + NINODES / 8 + 1, 2 + 30, img.blocks, bmap, img.inodes, img.owner);
  }

  /** ls reads the root, outside any operation, up to its size: with no other process at work the
      first read past the 32 entries meets the hole, and FileIO.Readi then panics. */
  lemma RootReadPanics(f: Fs)
    requires RootHole(f)
    ensures MissingOutside(f, ROOTINO, BSIZE, ReadEnd(f, ROOTINO, BSIZE, DIRENT), (bn: int) => false)
  {
    hide Addr;
    assert Missing(f, ROOTINO, BSIZE, ReadEnd(f, ROOTINO, BSIZE, DIRENT), 1);
  }

  /** dirlink writes entry 33 at the end of the others, which is in the hole: unless no block is
      free, the entry is there, but the inode on disk lacks the block that the inode in memory has
      got. */
  method RootEntryLost(fs: FileSystem, ent: seq<Byte>) returns (r: int, panicked: bool)
    requires RootHole(fs.State()) && fs.dinodes == fs.State().inodes && |ent| == DIRENT
    modifies fs
    ensures panicked <==> FreeCount(old(fs.State())) == 0
    ensures !panicked ==> r == |ent| && Written(old(fs.State()), fs.State(), ROOTINO, ent, BSIZE)
    ensures !panicked ==> fs.dinodes == old(fs.dinodes) != fs.State().inodes
  {
    hide *;
    HoleMissing(fs.State(), ent);
    DiskInodes(fs);
    ghost var data, bits;
    r, panicked, data, bits := Writei(fs, ROOTINO, ent, BSIZE);
    StepIs(old(fs.State()), ROOTINO, ent, BSIZE, fs.State());
  }

  lemma DiskInodes(fs: FileSystem)
    requires fs.dinodes == fs.State().inodes
    ensures |fs.dinodes| == |fs.State().inodes|
  {
  }

  lemma StepIs(f: Fs, i: int, src: seq<Byte>, off: int, f': Fs)
    requires Taken(f, WriteOp(i, off, src))
    ensures Step(f, WriteOp(i, off, src), f') ==> Written(f, f', i, src, off)
  {
  }

  lemma HoleMissing(f: Fs, ent: seq<Byte>)
    requires RootHole(f) && |ent| == DIRENT
    ensures Inv(f) && SizeOk(f, ROOTINO) && 0 <= ROOTINO < |f.inodes| && 0 <= BSIZE < UINT_LIMIT && |ent| < UINT_LIMIT
    ensures Taken(f, WriteOp(ROOTINO, BSIZE, ent)) && BSIZE + |ent| <= f.inodes[ROOTINO].size
    ensures !NoSlotMissing(f, ROOTINO, BSIZE, BSIZE + |ent|) && Needed(f, ROOTINO, BSIZE, BSIZE + |ent|) == 1
  {
    hide Addr;
    assert NeedsSlot(BSIZE, BSIZE + DIRENT, 1) && SlotOf(1) == 1;
    assert EndBlock(BSIZE, BSIZE + DIRENT) == 2;
    assert Holes(f, ROOTINO, 1, 1) == 0;
  }
}
