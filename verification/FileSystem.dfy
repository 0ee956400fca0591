/** fs.c: the block allocator, bmap, itrunc, readi and writei, working in place on the blocks
    and inodes. */
module FileSystems {
  import opened Blocks
  import opened FreeBlocks
  import opened FsModel
  import opened Wrappers

  /** Inodes per block. */
  const IPB: int := 8

  class FileSystem {
    const nmeta: int
    const bmapstart: int
    const inodestart: int
    var blocks: seq<Block>
    var bmap: seq<Block>
    /** The inodes in memory, and their copies on disk. */
    var inodes: seq<Inode>
    var dinodes: seq<Inode>
    ghost var owner: map<int, Owner>
    /** Every block number passed to log_write. */
    ghost var logged: set<int>

    constructor (nmeta: int, bmapstart: int, inodestart: int, blocks: seq<Block>, bmap: seq<Block>,
                 inodes: seq<Inode>, ghost owner: map<int, Owner>)
      requires Inv(Fs(blocks, bmap, nmeta, inodes, owner))
      ensures State() == Fs(blocks, bmap, nmeta, inodes, owner) && dinodes == inodes && logged == {}
    {
      this.nmeta, this.bmapstart, this.inodestart := nmeta, bmapstart, inodestart;
      this.blocks, this.bmap, this.inodes, this.dinodes := blocks, bmap, inodes, inodes;
      this.owner, this.logged := owner, {};
    }

    ghost function State(): Fs
      reads this
    {
      Fs(blocks, bmap, nmeta, inodes, owner)
    }

    ghost function BitmapBlock(b: int): int {
      bmapstart + b / BPB
    }

    ghost function InodeBlock(i: int): int {
      inodestart + i / IPB
    }

    /** balloc: the first free block, marked used and zeroed; None is the panic "out of blocks". */
    method Balloc() returns (r: Option<int>)
      requires Inv(State())
      modifies this`blocks, this`bmap, this`owner, this`logged
      ensures r.None? ==> State() == old(State()) && forall c :: 0 <= c < |old(blocks)| ==> Used(old(bmap), c)
      ensures r.Some? ==> 0 <= r.value < |old(State()).blocks| && !Used(old(State()).bmap, r.value)
      ensures r.Some? ==> r.value < |old(State()).bmap| * BPB && State() == Alloc(old(State()), r.value)
      ensures r.Some? ==> forall c :: 0 <= c < r.value ==> Used(old(bmap), c)
      ensures Inv(State())
      ensures logged == if r.None? then old(logged) else old(logged) + {BitmapBlock(r.value), r.value}
      ensures old(logged) <= logged && ChangesLogged(old(State()), State(), bmapstart, logged)
    {
      var b := 0;
      while b < |blocks|
        invariant 0 <= b && b % BPB == 0
        invariant forall c :: 0 <= c < b && c < |blocks| ==> Used(bmap, c)
      {
        var bi := 0;
        while bi < BPB && b + bi < |blocks|
          invariant 0 <= bi <= BPB && forall c :: 0 <= c < b + bi && c < |blocks| ==> Used(bmap, c)
        {
          if !Used(bmap, b + bi) {
            ghost var c := b + bi;
            AllocKeeps(State(), c);
            AllocLogged(State(), c, bmapstart, logged + {BitmapBlock(c), c});
            bmap := WithUsed(bmap, b + bi, true);
            blocks := blocks[b + bi := ZeroBlock()];
            owner := owner[c := Held];
            logged := logged + {BitmapBlock(c), c};
            return Some(b + bi);
          }
          bi := bi + 1;
        }
        b := b + BPB;
      }
      return None;
    }

    /** bfree; panicked is "freeing free block". */
    method Bfree(b: int) returns (panicked: bool)
      requires 0 <= b < |State().bmap| * BPB
      modifies this`bmap, this`owner, this`logged
      ensures panicked <==> !Used(old(State()).bmap, b)
      ensures !panicked ==> State() == Free(old(State()), b) && logged == old(logged) + {BitmapBlock(b)}
      ensures panicked ==> State() == old(State()) && logged == old(logged)
      ensures old(logged) <= logged && ChangesLogged(old(State()), State(), bmapstart, logged)
    {
      if !Used(bmap, b) {
        return true;
      }
      panicked := false;
      FreeLogged(State(), b, bmapstart, logged + {BitmapBlock(b)});
      bmap := WithUsed(bmap, b, false);
      owner := owner - {b};
      logged := logged + {BitmapBlock(b)};
    }

    /** balloc, and the store of its result: into ip->addrs[s], or into entry
        s - NDIRECT - 1 of the indirect block (which is then logged). */
    method AddBlock(i: int, s: int) returns (r: Option<int>)
      requires Inv(State()) && 0 <= i < |State().inodes| && 0 <= s < NSLOTS && Addr(State(), i, s) == 0
      requires s > NDIRECT ==> Addr(State(), i, NDIRECT) != 0
      modifies this`blocks, this`bmap, this`inodes, this`owner, this`logged
      ensures r.Some? ==> Added(old(State()), State(), i, s, r.value)
      ensures r.None? ==> State() == old(State()) && NoneFree(State())
      ensures r.None? <==> FreeCount(old(State())) == 0
      ensures r.Some? ==> FreeCount(State()) == FreeCount(old(State())) - 1
      ensures r.Some? ==> logged <= old(logged) + {BitmapBlock(r.value), r.value}
                                    + if s > NDIRECT then {Addr(old(State()), i, NDIRECT)} else {}
      ensures old(logged) <= logged && ChangesLogged(old(State()), State(), bmapstart, logged)
    {
      ghost var f := State();
      r := Balloc();
      FreeNone(f.bmap, |f.blocks|);
      if r.None? {
        return;
      }
      var b := r.value;
      AllocCount(f, b);
      FreshMayAttach(f, i, s, b, State());
      if s <= NDIRECT {
        inodes := inodes[i := inodes[i].(addrs := inodes[i].addrs[s := b])];
      } else {
        var a := inodes[i].addrs[NDIRECT];
        blocks := blocks[a := SetWord(blocks[a], s - NDIRECT - 1, b)];
        logged := logged + {a};
      }
      owner := owner[b := Slot(i, s)];
    }

    /** bmap, for any block of any inode; None is a panic: "bmap: out of range", or balloc's "out
        of blocks". bits are the blocks of the free map that it logs. */
    method Bmap(i: int, bn: int) returns (r: Option<int>, ghost bits: set<int>)
      requires Inv(State()) && 0 <= i < |State().inodes| && 0 <= bn
      modifies this`blocks, this`bmap, this`inodes, this`owner, this`logged
      ensures r.Some? ==> bn < MAXFILE && Mapped(old(State()), State(), i, bn, r.value)
      ensures r.None? ==> if bn < MAXFILE then NoneFree(State()) else State() == old(State())
      ensures r.None? <==> bn >= MAXFILE || FreeCount(old(State())) < Lacks(old(State()), i, bn)
      ensures r.Some? ==> FreeCount(State()) == FreeCount(old(State())) - Lacks(old(State()), i, bn)
      ensures bn < MAXFILE && Addr(old(State()), i, SlotOf(bn)) != 0 ==>
                r.Some? && State() == old(State()) && logged == old(logged)
      ensures r.Some? ==> logged <= old(logged) + bits + {r.value} + IndirectSet(State(), i)
      ensures bn < MAXFILE ==>
        |bits| <= if Addr(old(State()), i, SlotOf(bn)) != 0 then 0
                  else if bn >= NDIRECT && Addr(old(State()), i, NDIRECT) == 0 then 2 else 1
      ensures r.Some? ==> IndirectSet(old(State()), i) <= IndirectSet(State(), i)
      ensures old(logged) <= logged && ChangesLogged(old(State()), State(), bmapstart, logged)
    {
      hide *;
      bits := {};
      ghost var f := State();
      NothingChanged(f, bmapstart, logged);
      ghost var c := 0;
      MaxFile();
      if bn >= MAXFILE {
        return None, bits;
      }
      IndirectSetIs(f, i);
      SlotFacts(bn);
      LacksCases(f, i, bn);
      AddrsLength(f, i);
      if bn >= NDIRECT {
        var ind := ReadAddr(i, NDIRECT);
        if ind == 0 {
          NoIndirectBlock(f, i, bn);
          r := AddBlock(i, NDIRECT);
          if r.None? {
            return;
          }
          bits := {BitmapBlock(r.value)};
          c := r.value;
          AddedFills(f, State(), i, NDIRECT, c);
        }
      }
      ghost var f1 := State();
      FilledSlots(f, f1, i, bn, c);
      var addr := ReadAddr(i, SlotOf(bn));
      if addr != 0 {
        MappedFound(f, i, bn);
        return Some(addr), bits;
      }
      ghost var log1 := logged;
      r := AddBlock(i, SlotOf(bn));
      ChangesFurther(f, f1, State(), bmapstart, log1, logged);
      if r.Some? {
        OneMore(bits, BitmapBlock(r.value));
        bits := bits + {BitmapBlock(r.value)};
        AddedFills(f1, State(), i, SlotOf(bn), r.value);
        if f1 == f {
          MappedFilled(f, State(), i, bn, r.value);
        } else {
          MappedTwice(f, f1, State(), i, bn, c, r.value);
        }
        MappedIndirect(f1, State(), i, SlotOf(bn), r.value);
        IndirectSetIs(State(), i);
      }
    }

    /** bmap would find block bn and not have to allocate it. */
    method HasBlock(i: int, bn: int) returns (b: bool)
      requires Inv(State()) && 0 <= i < |State().inodes| && 0 <= bn < MAXFILE
      ensures b <==> Addr(State(), i, SlotOf(bn)) != 0
    {
      hide *;
      MaxFile();
      SlotFacts(bn);
      AddrsLength(State(), i);
      if bn >= NDIRECT {
        var ind := ReadAddr(i, NDIRECT);
        if ind == 0 {
          NoIndirectBlock(State(), i, bn);
          return false;
        }
      }
      var a := ReadAddr(i, SlotOf(bn));
      return a != 0;
    }

    /** memmove into a block and log_write of it. */
    method WriteBlock(a: int, data: Block)
      requires 0 <= a < |State().blocks|
      modifies this`blocks, this`logged
      ensures State() == Put(old(State()), a, data) && logged == old(logged) + {a}
      ensures ChangesLogged(old(State()), State(), bmapstart, logged)
    {
      blocks := blocks[a := data];
      logged := logged + {a};
    }

    /** The content of a block. */
    method ReadBlock(a: int) returns (data: Block)
      requires 0 <= a < |State().blocks|
      ensures data == State().blocks[a]
    {
      data := blocks[a];
    }

    /** `ip->size = n; iupdate(ip)` */
    method SetSize(i: int, n: int)
      requires 0 <= i < |State().inodes| && |dinodes| == |State().inodes|
      modifies this`inodes, this`dinodes, this`logged
      ensures State() == WithSize(old(State()), i, n) && logged == old(logged) + {InodeBlock(i)}
      ensures dinodes == old(dinodes)[i := State().inodes[i]]
      ensures ChangesLogged(old(State()), State(), bmapstart, logged)
      ensures InodesLogged(old(dinodes), dinodes, inodestart, logged)
    {
      inodes := inodes[i := inodes[i].(size := n)];
      dinodes := dinodes[i := inodes[i]];
      logged := logged + {InodeBlock(i)};
    }

    /** `ip->addrs[s] = 0` */
    method ClearAddr(i: int, s: int)
      requires 0 <= i < |State().inodes| && 0 <= s < |State().inodes[i].addrs|
      modifies this`inodes
      ensures State() == SetAddr(old(State()), i, s, 0) && ChangesLogged(old(State()), State(), bmapstart, logged)
    {
      inodes := inodes[i := inodes[i].(addrs := inodes[i].addrs[s := 0])];
    }

    /** begin_op: nothing is logged yet. */
    ghost method BeginTransaction()
      modifies this`logged
      ensures logged == {} && State() == old(State())
    {
      logged := {};
    }

    ghost method SetOwners(o: map<int, Owner>)
      modifies this`owner
      ensures State() == old(State()).(owner := o)
    {
      owner := o;
    }

    /** `((uint*)bp->data)[j]` */
    method ReadWord(a: int, j: int) returns (w: int)
      requires 0 <= a < |State().blocks| && 0 <= j < NINDIRECT
      ensures w == WordAt(State().blocks[a], j)
    {
      w := WordAt(blocks[a], j);
    }

    /** ip->size */
    method SizeOf(i: int) returns (n: int)
      requires 0 <= i < |State().inodes|
      ensures n == State().inodes[i].size
    {
      n := inodes[i].size;
    }

    /** `ip->addrs[s]`, or the entry of the indirect block. */
    method ReadAddr(i: int, s: int) returns (a: int)
      requires Inv(State()) && 0 <= i < |State().inodes| && 0 <= s < NSLOTS
      requires s > NDIRECT ==> Addr(State(), i, NDIRECT) != 0
      ensures a == Addr(State(), i, s)
    {
      if s <= NDIRECT {
        a := inodes[i].addrs[s];
      } else {
        assert SlotOwns(State(), i, NDIRECT);
        a := WordAt(blocks[inodes[i].addrs[NDIRECT]], s - NDIRECT - 1);
      }
    }
  }

  // ---- What is changed is logged ------------------------------------------------------------------

  /** Every block and every block of the free map that differs between f and f' is in log. */
  ghost predicate ChangesLogged(f: Fs, f': Fs, bmapstart: int, log: set<int>) {
    && |f'.blocks| == |f.blocks| && |f'.bmap| == |f.bmap|
    && (forall b :: 0 <= b < |f.blocks| && f'.blocks[b] != f.blocks[b] ==> b in log)
    && (forall k :: 0 <= k < |f.bmap| && f'.bmap[k] != f.bmap[k] ==> bmapstart + k in log)
  }

  /** So is the block of every inode that differs on disk. */
  ghost predicate InodesLogged(d: seq<Inode>, d': seq<Inode>, inodestart: int, log: set<int>) {
    && |d'| == |d|
    && forall i :: 0 <= i < |d| && d'[i] != d[i] ==> inodestart + i / IPB in log
  }

  lemma NothingChanged(f: Fs, bmapstart: int, log: set<int>)
    ensures ChangesLogged(f, f, bmapstart, log)
  {
  }

  lemma NoInodeChanged(d: seq<Inode>, inodestart: int, log: set<int>)
    ensures InodesLogged(d, d, inodestart, log)
  {
  }

  lemma ChangesFurther(f: Fs, f1: Fs, f2: Fs, bmapstart: int, log1: set<int>, log2: set<int>)
    requires ChangesLogged(f, f1, bmapstart, log1) && ChangesLogged(f1, f2, bmapstart, log2) && log1 <= log2
    ensures ChangesLogged(f, f2, bmapstart, log2)
  {
  }

  lemma AllocLogged(f: Fs, b: int, bmapstart: int, log: set<int>)
    requires 0 <= b < |f.blocks| && b < |f.bmap| * BPB && b in log && bmapstart + b / BPB in log
    ensures ChangesLogged(f, Alloc(f, b), bmapstart, log)
  {
  }

  lemma FreeLogged(f: Fs, b: int, bmapstart: int, log: set<int>)
    requires 0 <= b < |f.bmap| * BPB && bmapstart + b / BPB in log
    ensures ChangesLogged(f, Free(f, b), bmapstart, log)
  {
  }

  /** balloc gave b, which now is in slot s of inode i. */
  ghost predicate Added(f: Fs, f': Fs, i: int, s: int, b: int) {
    && 0 <= b < |f.blocks| && !Used(f.bmap, b) && b < |f.bmap| * BPB
    && var f1 := Alloc(f, b);
    && MayAttach(f1, i, s, b) && f1.nmeta <= b < |f1.blocks| && |f1.inodes[i].addrs| == NDIRECT + 1
    && (s > NDIRECT ==> 0 <= f1.inodes[i].addrs[NDIRECT] < |f1.blocks|)
    && f' == Attach(f1, i, s, b)
  }

  function WithSize(f: Fs, i: int, n: int): (f': Fs)
    requires 0 <= i < |f.inodes|
    ensures |f'.inodes| == |f.inodes|
  {
    f.(inodes := f.inodes[i := f.inodes[i].(size := n)])
  }

  /** The indirect block of an inode, if it has one. */
  function IndirectSet(f: Fs, i: int): set<int> {
    if Addr(f, i, NDIRECT) != 0 then {Addr(f, i, NDIRECT)} else {}
  }

  lemma OneMore(data: set<int>, a: int)
    ensures |data + {a}| <= |data| + 1
  {
    if a in data {
      assert data + {a} == data;
    } else {
      assert |data + {a}| == |data| + 1;
    }
  }

  lemma IndirectSetIs(f: Fs, i: int)
    ensures Addr(f, i, NDIRECT) != 0 ==> IndirectSet(f, i) == {Addr(f, i, NDIRECT)}
    ensures Addr(f, i, NDIRECT) == 0 ==> IndirectSet(f, i) == {}
  {
  }

  /** balloc has no block to give. */
  ghost predicate NoneFree(f: Fs) {
    forall c :: 0 <= c < |f.blocks| ==> Used(f.bmap, c)
  }

  lemma MaxFile()
    ensures 0 <= NDIRECT < MAXFILE && NDIRECT < NSLOTS
  {
  }

  lemma AddrsLength(f: Fs, i: int)
    requires Inv(f) && 0 <= i < |f.inodes|
    ensures |f.inodes[i].addrs| == NDIRECT + 1
  {
  }

  lemma AddedFills(f: Fs, f': Fs, i: int, s: int, b: int)
    requires Inv(f) && 0 <= i < |f.inodes| && 0 <= s < NSLOTS && Added(f, f', i, s, b)
    ensures Fills(f, f', i, s, b) && Inv(f') && |f'.inodes| == |f.inodes| && f' != f
  {
    hide Addr;
    hide Inv;
    hide Used;
    hide ByteAt;
    AllocKeeps(f, b);
    AttachFills(f, i, s, b, Alloc(f, b), f');
    assert b in f'.owner && b !in f.owner;
  }

  /** The slots when bmap comes to look at slot SlotOf(bn): as they were, or with a new indirect
      block c. */
  lemma FilledSlots(f: Fs, f1: Fs, i: int, bn: int, c: int)
    requires 0 <= bn < MAXFILE && (f1 != f ==> bn >= NDIRECT && Fills(f, f1, i, NDIRECT, c))
    ensures Addr(f1, i, SlotOf(bn)) == Addr(f, i, SlotOf(bn))
    ensures f1 != f ==> Addr(f1, i, NDIRECT) == c != 0
  {
    hide Addr;
    SlotFacts(bn);
  }

  lemma MappedIndirect(f: Fs, f': Fs, i: int, s: int, b: int)
    requires Fills(f, f', i, s, b) && s != NDIRECT
    ensures Addr(f', i, NDIRECT) == Addr(f, i, NDIRECT)
  {
    hide Addr;
  }
}
