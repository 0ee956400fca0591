/** itrunc of fs.c: the inode gives back every block it owns, and exactly those. */
module Truncate {
  import opened Blocks
  import opened FileIO
  import opened FileSystems
  import opened FsModel

  predicate SlotBelow(o: Owner, i: int, s: int) {
    o.Slot? && o.i == i && o.s < s
  }

  predicate SlotFrom(o: Owner, i: int, s: int) {
    o.Slot? && o.i == i && o.s >= s
  }

  /** The blocks in slots below s of inode i have been freed and the slots cleared. */
  ghost predicate TruncRun(f0: Fs, f: Fs, i: int, s: int) {
    && Inv(f) && f.blocks == f0.blocks && f.nmeta == f0.nmeta && |f.bmap| == |f0.bmap|
    && 0 <= i < |f0.inodes| && |f0.inodes[i].addrs| == NDIRECT + 1 && 0 <= s <= NDIRECT
    && |f.inodes| == |f0.inodes| && f.inodes == f0.inodes[i := f.inodes[i]] && f.inodes[i].size == f0.inodes[i].size
    && |f.inodes[i].addrs| == NDIRECT + 1
    && (forall t :: 0 <= t <= NDIRECT ==> f.inodes[i].addrs[t] == if t < s then 0 else f0.inodes[i].addrs[t])
    && (forall b :: b in f.owner <==> b in f0.owner && !SlotBelow(f0.owner[b], i, s))
    && (forall b :: b in f.owner ==> f.owner[b] == f0.owner[b])
  }

  lemma TruncStart(f: Fs, i: int)
    requires Inv(f) && 0 <= i < |f.inodes|
    ensures TruncRun(f, f, i, 0) && 0 <= NDIRECT
  {
    hide Addr;
    hide Used;
    forall b | b in f.owner
      ensures !SlotBelow(f.owner[b], i, 0)
    {
      assert OwnerRight(f, b);
    }
  }

  /** `ip->addrs[s] = 0` on a direct slot: its block is the kernel's to free. */
  ghost function Detached(f: Fs, i: int, s: int): Fs
    requires 0 <= i < |f.inodes| && 0 <= s < |f.inodes[i].addrs|
  {
    SetAddr(f, i, s, 0).(owner := f.owner[f.inodes[i].addrs[s] := Held])
  }

  lemma DetachedKeeps(f: Fs, i: int, s: int, f1: Fs)
    requires Inv(f) && 0 <= i < |f.inodes| && 0 <= s < NDIRECT && |f.inodes[i].addrs| == NDIRECT + 1
    requires f.inodes[i].addrs[s] != 0 && f1 == Detached(f, i, s)
    ensures Inv(f1) && f.inodes[i].addrs[s] in f1.owner && f1.owner[f.inodes[i].addrs[s]] == Held
    ensures f.inodes[i].addrs[s] in f.owner && f.owner[f.inodes[i].addrs[s]] == Slot(i, s)
  {
    hide WordAt;
    hide Used;
    var b := f.inodes[i].addrs[s];
    assert SlotOwns(f, i, s);
    forall j, t | 0 <= j < |f.inodes| && 0 <= t < NSLOTS
      ensures Addr(f1, j, t) == if j == i && t == s then 0 else Addr(f, j, t)
      ensures SlotOwns(f1, j, t)
    {
      assert SlotOwns(f, j, t);
    }
    forall c | c in f1.owner
      ensures OwnerRight(f1, c)
    {
      assert OwnerRight(f, c);
    }
  }

  lemma TruncStep(f0: Fs, f: Fs, i: int, s: int, f1: Fs, f2: Fs)
    requires Inv(f0) && TruncRun(f0, f, i, s) && s < NDIRECT && f.inodes[i].addrs[s] != 0
    requires f1 == Detached(f, i, s) && Inv(f1)
    requires f.inodes[i].addrs[s] in f1.owner && f1.owner[f.inodes[i].addrs[s]] == Held
    requires f.inodes[i].addrs[s] in f.owner && f.owner[f.inodes[i].addrs[s]] == Slot(i, s)
    requires 0 <= f.inodes[i].addrs[s] < |f1.bmap| * BPB && f2 == Free(f1, f.inodes[i].addrs[s]) && Inv(f2)
    ensures TruncRun(f0, f2, i, s + 1)
  {
    hide Addr;
    hide Used;
    hide Inv;
    var b := f.inodes[i].addrs[s];
    UsedStore(f1.bmap, b, false, b);
    forall c | c in f0.owner && SlotBelow(f0.owner[c], i, s + 1) && !SlotBelow(f0.owner[c], i, s)
      ensures c == b
    {
      OneBlockPerSlot(f0, c, b);
    }
  }

  /** Two blocks in the same slot are one block. */
  lemma OneBlockPerSlot(f: Fs, b: int, c: int)
    requires Inv(f) && b in f.owner && c in f.owner && f.owner[b].Slot? && f.owner[b] == f.owner[c]
    ensures b == c
  {
    hide Addr;
    hide Used;
    assert OwnerRight(f, b) && OwnerRight(f, c);
  }

  lemma TruncSkip(f0: Fs, f: Fs, i: int, s: int)
    requires Inv(f0) && TruncRun(f0, f, i, s) && s < NDIRECT && f.inodes[i].addrs[s] == 0
    ensures TruncRun(f0, f, i, s + 1)
  {
    hide WordAt;
    hide Used;
    forall b | b in f0.owner
      ensures f0.owner[b] != Slot(i, s)
    {
      assert OwnerRight(f0, b);
    }
  }

  // ---- The indirect block ------------------------------------------------------------------

  /** `ip->addrs[NDIRECT] = 0`: the indirect block and every block it lists are to be freed. */
  ghost function Uprooted(f: Fs, i: int): Fs
    requires 0 <= i < |f.inodes| && |f.inodes[i].addrs| == NDIRECT + 1
  {
    SetAddr(f, i, NDIRECT, 0).(owner := map b | b in f.owner ::
      if SlotFrom(f.owner[b], i, NDIRECT) then Held else f.owner[b])
  }

  lemma UprootedKeeps(f: Fs, i: int, f1: Fs)
    requires Inv(f) && 0 <= i < |f.inodes| && |f.inodes[i].addrs| == NDIRECT + 1 && f1 == Uprooted(f, i)
    ensures Inv(f1)
  {
    hide WordAt;
    hide Used;
    forall j, t | 0 <= j < |f.inodes| && 0 <= t < NSLOTS
      ensures Addr(f1, j, t) == if j == i && t >= NDIRECT then 0 else Addr(f, j, t)
      ensures SlotOwns(f1, j, t)
    {
      assert SlotOwns(f, j, t);
    }
    forall c | c in f1.owner
      ensures OwnerRight(f1, c)
    {
      assert OwnerRight(f, c);
    }
  }

  /** The first j entries of the indirect block have been freed. */
  ghost predicate IndirectRun(f: Fs, g: Fs, i: int, j: int) {
    && Inv(g) && 0 <= i < |f.inodes| && |f.inodes[i].addrs| == NDIRECT + 1 && 0 <= j <= NINDIRECT
    && g.blocks == f.blocks && g.nmeta == f.nmeta && |g.bmap| == |f.bmap|
    && g.inodes == SetAddr(f, i, NDIRECT, 0).inodes
    && (forall b :: b in g.owner <==>
          b in f.owner && !(SlotFrom(f.owner[b], i, NDIRECT + 1) && f.owner[b].s < NDIRECT + 1 + j))
    && (forall b :: b in g.owner ==> g.owner[b] == if SlotFrom(f.owner[b], i, NDIRECT) then Held else f.owner[b])
  }

  lemma IndirectStart(f: Fs, i: int, g: Fs)
    requires Inv(f) && 0 <= i < |f.inodes| && |f.inodes[i].addrs| == NDIRECT + 1 && g == Uprooted(f, i)
    ensures IndirectRun(f, g, i, 0) && 0 <= NINDIRECT
  {
    hide Addr;
    hide Used;
    hide Inv;
    UprootedKeeps(f, i, g);
  }

  /** Entry j, as it still stands in the indirect block. */
  lemma IndirectEntry(f: Fs, g: Fs, i: int, ind: int, j: int)
    requires Inv(f) && IndirectRun(f, g, i, j) && j < NINDIRECT && ind == f.inodes[i].addrs[NDIRECT] && ind != 0
    ensures 0 < ind < |g.blocks| && Inv(g)
    ensures WordAt(g.blocks[ind], j) == Addr(f, i, NDIRECT + 1 + j)
    ensures Addr(f, i, NDIRECT + 1 + j) != 0 ==>
              var b := Addr(f, i, NDIRECT + 1 + j);
              b in g.owner && g.owner[b] == Held && b in f.owner && f.owner[b] == Slot(i, NDIRECT + 1 + j)
    ensures Addr(f, i, NDIRECT + 1 + j) == 0 ==> IndirectRun(f, g, i, j + 1)
  {
    hide WordAt;
    hide Used;
    assert SlotOwns(f, i, NDIRECT);
    assert OwnerRight(f, ind);
    assert SlotOwns(f, i, NDIRECT + 1 + j);
    forall b | b in f.owner && f.owner[b] == Slot(i, NDIRECT + 1 + j)
      ensures b == Addr(f, i, NDIRECT + 1 + j)
    {
      assert OwnerRight(f, b);
    }
    if Addr(f, i, NDIRECT + 1 + j) == 0 {
      forall b | b in f.owner
        ensures f.owner[b] != Slot(i, NDIRECT + 1 + j)
      {
        assert OwnerRight(f, b);
      }
    }
  }

  lemma IndirectStep(f: Fs, g: Fs, i: int, j: int, b: int, g': Fs)
    requires Inv(f) && IndirectRun(f, g, i, j) && j < NINDIRECT && b in f.owner
    requires f.owner[b] == Slot(i, NDIRECT + 1 + j)
    requires b in g.owner && 0 <= b < |g.bmap| * BPB && g' == Free(g, b) && Inv(g')
    ensures IndirectRun(f, g', i, j + 1)
  {
    hide Addr;
    hide Used;
    hide Inv;
    UsedStore(g.bmap, b, false, b);
    forall c | c in f.owner && f.owner[c] == Slot(i, NDIRECT + 1 + j)
      ensures c == b
    {
      OneBlockPerSlot(f, b, c);
    }
  }

  /** Inode i owns nothing any more; every other block and file is as it was. */
  ghost predicate Truncated(f0: Fs, f: Fs, i: int) {
    && Inv(f) && 0 <= i < |f0.inodes| && OthersSame(f0, f, i)
    && f.inodes[i].size == 0 && HasBlocks(f, i, 0)
    && (forall b :: b in f.owner <==> b in f0.owner && !(f0.owner[b].Slot? && f0.owner[b].i == i))
    && (forall b :: b in f.owner ==> f.owner[b] == f0.owner[b])
  }

  /** All slots of inode i are empty and its blocks free; no block has been written. */
  ghost predicate AllCleared(f0: Fs, f: Fs, i: int) {
    && Inv(f) && 0 <= i < |f0.inodes| && |f.inodes| == |f0.inodes|
    && f.blocks == f0.blocks && f.inodes == f0.inodes[i := f.inodes[i]]
    && |f.inodes[i].addrs| == NDIRECT + 1 && (forall t :: 0 <= t <= NDIRECT ==> f.inodes[i].addrs[t] == 0)
    && (forall b :: b in f.owner <==> b in f0.owner && !(f0.owner[b].Slot? && f0.owner[b].i == i))
    && (forall b :: b in f.owner ==> f.owner[b] == f0.owner[b])
  }

  lemma ClearedTruncated(f0: Fs, f: Fs, i: int, h: Fs)
    requires AllCleared(f0, f, i) && h == WithSize(f, i, 0)
    ensures Truncated(f0, h, i)
  {
    hide WordAt;
    hide Used;
    assert HasBlocks(f, i, 0);
    SizeOnly(f, i, 0, h);
    SizeSameSlots(f, i, 0, h);
    assert OthersSame(f0, f, i);
    OthersSameTransitive(f0, f, h, i);
  }

  lemma NoIndirect(f0: Fs, f: Fs, i: int)
    requires Inv(f0) && TruncRun(f0, f, i, NDIRECT) && f.inodes[i].addrs[NDIRECT] == 0
    ensures AllCleared(f0, f, i)
  {
    hide WordAt;
    hide Used;
    forall b | b in f0.owner
      ensures !SlotFrom(f0.owner[b], i, NDIRECT)
    {
      assert OwnerRight(f0, b);
    }
  }

  lemma IndirectGone(f0: Fs, f: Fs, i: int, g: Fs, ind: int, h: Fs)
    requires Inv(f0) && TruncRun(f0, f, i, NDIRECT) && IndirectRun(f, g, i, NINDIRECT)
    requires ind == f.inodes[i].addrs[NDIRECT] && ind in f.owner && f.owner[ind] == Slot(i, NDIRECT)
    requires ind in g.owner && 0 <= ind < |g.bmap| * BPB && h == Free(g, ind) && Inv(h)
    ensures AllCleared(f0, h, i)
  {
    hide Addr;
    hide Used;
    forall b | b in f.owner && f.owner[b] == Slot(i, NDIRECT)
      ensures b == ind
    {
      OneBlockPerSlot(f, b, ind);
    }
    forall b | b in f0.owner
      ensures f0.owner[b].Slot? ==> f0.owner[b].s < NSLOTS
    {
      assert OwnerRight(f0, b);
    }
  }

  lemma IndirectOwned(f: Fs, g: Fs, i: int, ind: int)
    requires Inv(f) && IndirectRun(f, g, i, NINDIRECT) && ind == f.inodes[i].addrs[NDIRECT] && ind != 0
    ensures Inv(g) && ind in f.owner && f.owner[ind] == Slot(i, NDIRECT) && ind in g.owner && g.owner[ind] == Held
  {
    hide Used;
    assert SlotOwns(f, i, NDIRECT);
  }

  /** The loop over the direct blocks. */
  method FreeDirect(fs: FileSystem, i: int) returns (panicked: bool)
    requires Inv(fs.State()) && 0 <= i < |fs.State().inodes|
    modifies fs`bmap, fs`owner, fs`inodes, fs`logged
    ensures !panicked && TruncRun(old(fs.State()), fs.State(), i, NDIRECT)
    ensures old(fs.logged) <= fs.logged && ChangesLogged(old(fs.State()), fs.State(), fs.bmapstart, fs.logged)
  {
    hide *;
    ghost var f0 := fs.State();
    NothingChanged(f0, fs.bmapstart, fs.logged);
    TruncStart(f0, i);
    panicked := false;
    var s := 0;
    while s < NDIRECT
      invariant 0 <= s <= NDIRECT && TruncRun(f0, fs.State(), i, s) && !panicked
      invariant old(fs.logged) <= fs.logged && ChangesLogged(f0, fs.State(), fs.bmapstart, fs.logged)
    {
      ghost var f := fs.State();
      TruncParts(f0, f, i, s);
      var a := fs.ReadAddr(i, s);
      AddrIs(f, i, s);
      if a != 0 {
        ghost var f1 := Detached(f, i, s);
        DetachedKeeps(f, i, s, f1);
        FreeKeeps(f1, a);
        FreedThenCleared(f, i, s, a);
        ghost var log1 := fs.logged;
        panicked := fs.Bfree(a);
        ChangesFurther(f0, f, fs.State(), fs.bmapstart, log1, fs.logged);
        ghost var f2 := fs.State();
        fs.ClearAddr(i, s);
        ChangesFurther(f0, f2, fs.State(), fs.bmapstart, fs.logged, fs.logged);
        TruncStep(f0, f, i, s, f1, fs.State());
      } else {
        TruncSkip(f0, f, i, s);
      }
      s := s + 1;
    }
  }

  /** The loop over the entries of the indirect block, which is freed last. */
  method FreeIndirect(fs: FileSystem, i: int, ind: int) returns (panicked: bool, ghost g: Fs)
    requires Inv(fs.State()) && 0 <= i < |fs.State().inodes| && |fs.State().inodes[i].addrs| == NDIRECT + 1
    requires 0 <= NDIRECT && ind == fs.State().inodes[i].addrs[NDIRECT] && ind != 0
    modifies fs`bmap, fs`owner, fs`inodes, fs`logged
    ensures !panicked && IndirectRun(old(fs.State()), g, i, NINDIRECT) && 0 <= ind < |g.bmap| * BPB
    ensures fs.State() == Free(g, ind)
    ensures old(fs.logged) <= fs.logged && ChangesLogged(old(fs.State()), fs.State(), fs.bmapstart, fs.logged)
  {
    hide *;
    ghost var f := fs.State();
    fs.SetOwners(Uprooted(f, i).owner);
    OwnersUnlogged(f, Uprooted(f, i).owner, fs.bmapstart, fs.logged);
    UprootedIs(f, i, fs.State());
    g := Uprooted(f, i);
    IndirectStart(f, i, g);
    panicked := false;
    var j := 0;
    while j < NINDIRECT
      invariant 0 <= j <= NINDIRECT && IndirectRun(f, g, i, j) && Rooted(f, g, i, fs.State()) && !panicked
      invariant old(fs.logged) <= fs.logged && ChangesLogged(f, fs.State(), fs.bmapstart, fs.logged)
    {
      IndirectEntry(f, g, i, ind, j);
      RootedIs(f, g, i, fs.State());
      var b := fs.ReadWord(ind, j);
      if b != 0 {
        FreeKeeps(g, b);
        RootedFree(f, g, i, b, fs.State());
        ghost var f1, log1 := fs.State(), fs.logged;
        panicked := fs.Bfree(b);
        ChangesFurther(f, f1, fs.State(), fs.bmapstart, log1, fs.logged);
        IndirectStep(f, g, i, j, b, Free(g, b));
        g := Free(g, b);
      }
      j := j + 1;
    }
    IndirectOwned(f, g, i, ind);
    FreeKeeps(g, ind);
    RootedIs(f, g, i, fs.State());
    RootedFree(f, g, i, ind, fs.State());
    ghost var f1, log1 := fs.State(), fs.logged;
    panicked := fs.Bfree(ind);
    ChangesFurther(f, f1, fs.State(), fs.bmapstart, log1, fs.logged);
    RootedCleared(f, Free(g, ind), i, fs.State());
    f1 := fs.State();
    fs.ClearAddr(i, NDIRECT);
    ChangesFurther(f, f1, fs.State(), fs.bmapstart, fs.logged, fs.logged);
  }

  /** itrunc. Each block is freed once, so the panic "freeing free block" cannot happen. */
  method Itrunc(fs: FileSystem, i: int) returns (panicked: bool)
    requires Inv(fs.State()) && 0 <= i < |fs.State().inodes| && fs.dinodes == fs.State().inodes
    modifies fs
    ensures !panicked && Truncated(old(fs.State()), fs.State(), i) && fs.dinodes == fs.State().inodes
    ensures old(fs.logged) <= fs.logged && ChangesLogged(old(fs.State()), fs.State(), fs.bmapstart, fs.logged)
    ensures InodesLogged(old(fs.dinodes), fs.dinodes, fs.inodestart, fs.logged)
  {
    hide *;
    ghost var f0 := fs.State();
    panicked := FreeDirect(fs, i);
    ghost var f := fs.State();
    TruncParts(f0, f, i, NDIRECT);
    AddrIs(f, i, NDIRECT);
    var ind := fs.ReadAddr(i, NDIRECT);
    if ind != 0 {
      ghost var g;
      ghost var log1 := fs.logged;
      panicked, g := FreeIndirect(fs, i, ind);
      ChangesFurther(f0, f, fs.State(), fs.bmapstart, log1, fs.logged);
      IndirectOwned(f, g, i, ind);
      FreeKeeps(g, ind);
      IndirectGone(f0, f, i, g, ind, fs.State());
    } else {
      NoIndirect(f0, f, i);
    }
    ghost var h := fs.State();
    ClearedSizes(f0, h, i);
    ghost var log2 := fs.logged;
    fs.SetSize(i, 0);
    ChangesFurther(f0, h, fs.State(), fs.bmapstart, log2, fs.logged);
    ClearedTruncated(f0, h, i, fs.State());
  }

  lemma OwnersUnlogged(f: Fs, o: map<int, Owner>, bmapstart: int, log: set<int>)
    ensures ChangesLogged(f, f.(owner := o), bmapstart, log)
  {
  }

  /** bfree and then `ip->addrs[s] = 0` is the same as the other way round. */
  lemma FreedThenCleared(f: Fs, i: int, s: int, b: int)
    requires 0 <= i < |f.inodes| && 0 <= s < |f.inodes[i].addrs| && b == f.inodes[i].addrs[s]
    requires 0 <= b < |Detached(f, i, s).bmap| * BPB
    ensures f.bmap == Detached(f, i, s).bmap && Free(f, b).inodes == f.inodes
    ensures SetAddr(Free(f, b), i, s, 0) == Free(Detached(f, i, s), b)
  {
    assert f.owner - {b} == f.owner[b := Held] - {b};
  }

  /** h is g with the indirect block of i still in its place. */
  ghost predicate Rooted(f: Fs, g: Fs, i: int, h: Fs) {
    && 0 <= i < |f.inodes| && |f.inodes[i].addrs| == NDIRECT + 1
    && g.inodes == SetAddr(f, i, NDIRECT, 0).inodes && h == g.(inodes := f.inodes)
  }

  lemma RootedIs(f: Fs, g: Fs, i: int, h: Fs)
    requires Rooted(f, g, i, h)
    ensures h.bmap == g.bmap && h.blocks == g.blocks && h.inodes == f.inodes
    ensures 0 <= i < |h.inodes| && |h.inodes[i].addrs| == NDIRECT + 1
  {
  }

  lemma RootedFree(f: Fs, g: Fs, i: int, b: int, h: Fs)
    requires Rooted(f, g, i, h) && 0 <= b < |h.bmap| * BPB
    ensures 0 <= b < |g.bmap| * BPB && Rooted(f, Free(g, b), i, Free(h, b))
  {
  }

  lemma RootedCleared(f: Fs, g: Fs, i: int, h: Fs)
    requires Rooted(f, g, i, h)
    ensures 0 <= i < |h.inodes| && 0 <= NDIRECT < |h.inodes[i].addrs| && SetAddr(h, i, NDIRECT, 0) == g
  {
  }

  lemma TruncParts(f0: Fs, f: Fs, i: int, s: int)
    requires TruncRun(f0, f, i, s)
    ensures Inv(f) && 0 <= i < |f.inodes| && |f.inodes[i].addrs| == NDIRECT + 1 && 0 <= NDIRECT < NSLOTS
  {
  }

  lemma UprootedIs(f: Fs, i: int, f1: Fs)
    requires 0 <= i < |f.inodes| && |f.inodes[i].addrs| == NDIRECT + 1 && f1 == f.(owner := Uprooted(f, i).owner)
    ensures Rooted(f, Uprooted(f, i), i, f1)
  {
  }

  lemma ClearedSizes(f0: Fs, f: Fs, i: int)
    requires AllCleared(f0, f, i)
    ensures |f.inodes| == |f0.inodes| && 0 <= i < |f.inodes| && f.inodes == f0.inodes[i := f.inodes[i]]
    ensures f0.inodes[i := WithSize(f, i, 0).inodes[i]] == WithSize(f, i, 0).inodes
  {
  }
}
