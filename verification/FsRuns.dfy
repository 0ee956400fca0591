/** Several processes at work on the blocks of one file system: every interleaving of what balloc,
    bmap, writei, itrunc and bfree do, one buffer or one inode at a time. */
module FsRuns {
  import opened Blocks
  import opened FileIO
  import opened FileSystems
  import opened FsModel
  import opened Truncate

  /** locks: who has the lock of an inode. held: who has a block that balloc gave, or that was taken
      out of an inode and is to be freed. zeroed: those that balloc gave. */
  datatype State = State(f: Fs, locks: map<int, int>, held: map<int, int>, zeroed: set<int>)

  /** One step of process pid. A block leaves its slot (Detach, and Uproot for the indirect block with
      all it lists) when itrunc gets to it; the number in the inode is cleared under its lock. */
  datatype Act =
    | Lock(pid: int, i: int)
    | Unlock(pid: int, i: int)
    | Balloc(pid: int, b: int)
    | Enter(pid: int, i: int, s: int, b: int)
    | Write(pid: int, i: int, s: int, data: Block)
    | Resize(pid: int, i: int, n: int)
    | Detach(pid: int, i: int, s: int)
    | Uproot(pid: int, i: int)
    | Bfree(pid: int, b: int)

  /** Only the holder of its lock changes an inode. */
  predicate Locked(st: State, pid: int, i: int) {
    i in st.locks && st.locks[i] == pid && 0 <= i < |st.f.inodes| && |st.f.inodes[i].addrs| == NDIRECT + 1
  }

  ghost predicate Enabled(st: State, a: Act) {
    var f := st.f;
    match a
    case Lock(pid, i) => i !in st.locks
    case Unlock(pid, i) => Locked(st, pid, i)
    case Balloc(pid, b) => 0 <= b < |f.blocks| <= |f.bmap| * BPB && !Used(f.bmap, b)
    case Enter(pid, i, s, b) =>
      && Locked(st, pid, i) && b in st.held && st.held[b] == pid && b in st.zeroed
      && 0 <= s < NSLOTS && Addr(f, i, s) == 0 && (s > NDIRECT ==> Addr(f, i, NDIRECT) != 0)
    case Write(pid, i, s, data) =>
      Locked(st, pid, i) && 0 <= s < NSLOTS && s != NDIRECT && Addr(f, i, s) != 0
    case Resize(pid, i, n) => Locked(st, pid, i)
    case Detach(pid, i, s) => Locked(st, pid, i) && 0 <= s < NDIRECT && f.inodes[i].addrs[s] != 0
    case Uproot(pid, i) => Locked(st, pid, i)
    case Bfree(pid, b) => b in st.held && st.held[b] == pid
  }

  /** The blocks that itrunc frees with the indirect block. */
  ghost function Roots(f: Fs, i: int): set<int> {
    set b | b in f.owner && SlotFrom(f.owner[b], i, NDIRECT)
  }

  ghost predicate Good(st: State) {
    && Inv(st.f)
    && (forall b :: b in st.held <==> b in st.f.owner && st.f.owner[b] == Held)
    && (forall b :: b in st.zeroed ==> b in st.held && 0 <= b < |st.f.blocks| && st.f.blocks[b] == ZeroBlock())
  }

  ghost function Do(st: State, a: Act): State
    requires Good(st) && Enabled(st, a)
  {
    var f := st.f;
    match a
    case Lock(pid, i) => st.(locks := st.locks[i := pid])
    case Unlock(pid, i) => st.(locks := st.locks - {i})
    case Balloc(pid, b) => st.(f := Alloc(f, b), held := st.held[b := pid], zeroed := st.zeroed + {b})
    case Enter(pid, i, s, b) =>
      AttachInRange(f, i, s, b);
      st.(f := Attach(f, i, s, b), held := st.held - {b}, zeroed := st.zeroed - {b})
    case Write(pid, i, s, data) =>
      assert SlotOwns(f, i, s) && OwnerRight(f, Addr(f, i, s));
      st.(f := Put(f, Addr(f, i, s), data))
    case Resize(pid, i, n) => st.(f := WithSize(f, i, n))
    case Detach(pid, i, s) => st.(f := Detached(f, i, s), held := st.held[f.inodes[i].addrs[s] := pid])
    case Uproot(pid, i) => st.(f := Uprooted(f, i), held := st.held + map b | b in Roots(f, i) :: pid)
    case Bfree(pid, b) =>
      FreeKeeps(f, b);
      st.(f := Free(f, b), held := st.held - {b}, zeroed := st.zeroed - {b})
  }

  /** A file system at boot, where no process has any block. */
  lemma BootGood(f: Fs)
    requires Inv(f) && forall b :: b in f.owner ==> f.owner[b].Slot?
    ensures Good(State(f, map[], map[], {}))
  {
  }

  /** The step is one on inode i. */
  predicate On(a: Act, i: int) {
    !a.Balloc? && !a.Bfree? && a.i == i
  }

  // ---- Every step keeps the invariant -----------------------------------------------------------

  lemma BallocGood(st: State, pid: int, b: int)
    requires Good(st) && Enabled(st, Balloc(pid, b))
    ensures Good(Do(st, Balloc(pid, b))) && b !in st.f.owner && b !in st.held
    ensures forall i :: 0 <= i < |st.f.inodes| ==> SameInode(st.f, Do(st, Balloc(pid, b)).f, i)
  {
    AllocKeeps(st.f, b);
    hide Inv;
    hide Used;
    hide WithUsed;
  }

  lemma BfreeGood(st: State, pid: int, b: int)
    requires Good(st) && Enabled(st, Bfree(pid, b))
    ensures Good(Do(st, Bfree(pid, b)))
    ensures forall i :: 0 <= i < |st.f.inodes| ==> SameInode(st.f, Do(st, Bfree(pid, b)).f, i)
  {
    FreeKeeps(st.f, b);
    hide Inv;
    hide Used;
    hide WithUsed;
  }

  lemma EnterGood(st: State, pid: int, i: int, s: int, b: int)
    requires Good(st) && Enabled(st, Enter(pid, i, s, b))
    ensures Good(Do(st, Enter(pid, i, s, b)))
    ensures forall j :: 0 <= j < |st.f.inodes| && j != i ==> SameInode(st.f, Do(st, Enter(pid, i, s, b)).f, j)
  {
    var f, f' := st.f, Do(st, Enter(pid, i, s, b)).f;
    AttachInRange(f, i, s, b);
    AttachKeeps(f, i, s, b, f');
    IndirectNotHeld(f, i);
    hide Inv;
    hide Addr;
    hide ByteAt;
    forall j | 0 <= j < |f.inodes| && j != i
      ensures SameInode(f, f', j)
    {
      EnterOther(f, i, s, b, f', j);
    }
  }

  lemma IndirectNotHeld(f: Fs, i: int)
    requires Inv(f) && 0 <= i < |f.inodes|
    ensures |f.inodes[i].addrs| == NDIRECT + 1 && Addr(f, i, NDIRECT) == f.inodes[i].addrs[NDIRECT]
    ensures Addr(f, i, NDIRECT) != 0 ==>
      Addr(f, i, NDIRECT) in f.owner && f.owner[Addr(f, i, NDIRECT)] == Slot(i, NDIRECT)
  {
    assert SlotOwns(f, i, NDIRECT);
  }

  lemma EnterOther(f: Fs, i: int, s: int, b: int, f': Fs, j: int)
    requires MayAttach(f, i, s, b) && f.nmeta <= b < |f.blocks| && 0 <= j < |f.inodes| && j != i
    requires |f.inodes[i].addrs| == NDIRECT + 1 && (s > NDIRECT ==> 0 <= f.inodes[i].addrs[NDIRECT] < |f.blocks|)
    requires f' == Attach(f, i, s, b)
    ensures SameInode(f, f', j)
  {
    hide Addr;
    hide ByteAt;
    forall t | 0 <= t < NSLOTS
      ensures Addr(f', j, t) == Addr(f, j, t)
    {
      AttachAddr(f, i, s, b, f', j, t);
    }
    forall k | 0 <= k < MAXFILE * BSIZE
      ensures ByteAt(f', j, k) == ByteAt(f, j, k)
    {
      AttachBytes(f, i, s, b, f', j, k);
    }
  }

  lemma WriteGood(st: State, pid: int, i: int, s: int, data: Block)
    requires Good(st) && Enabled(st, Write(pid, i, s, data))
    ensures Good(Do(st, Write(pid, i, s, data)))
    ensures forall j :: 0 <= j < |st.f.inodes| && j != i ==> SameInode(st.f, Do(st, Write(pid, i, s, data)).f, j)
  {
    var f := st.f;
    assert SlotOwns(f, i, s) && OwnerRight(f, Addr(f, i, s));
    PutKeeps(f, Addr(f, i, s), data, i, s, Put(f, Addr(f, i, s), data));
    hide Inv;
    hide Addr;
    hide ByteAt;
  }

  lemma ResizeGood(st: State, pid: int, i: int, n: int)
    requires Good(st) && Enabled(st, Resize(pid, i, n))
    ensures Good(Do(st, Resize(pid, i, n)))
    ensures forall j :: 0 <= j < |st.f.inodes| && j != i ==> SameInode(st.f, Do(st, Resize(pid, i, n)).f, j)
  {
    var f, f' := st.f, WithSize(st.f, i, n);
    SizeOnly(f, i, n, f');
    hide Inv;
  }

  lemma DetachGood(st: State, pid: int, i: int, s: int)
    requires Good(st) && Enabled(st, Detach(pid, i, s))
    ensures Good(Do(st, Detach(pid, i, s)))
    ensures forall j :: 0 <= j < |st.f.inodes| && j != i ==> SameInode(st.f, Do(st, Detach(pid, i, s)).f, j)
  {
    var f, f' := st.f, Detached(st.f, i, s);
    DetachedKeeps(f, i, s, f');
    hide Inv;
    hide Used;
  }

  lemma UprootGood(st: State, pid: int, i: int)
    requires Good(st) && Enabled(st, Uproot(pid, i))
    ensures Good(Do(st, Uproot(pid, i)))
    ensures forall j :: 0 <= j < |st.f.inodes| && j != i ==> SameInode(st.f, Do(st, Uproot(pid, i)).f, j)
  {
    var f, f' := st.f, Uprooted(st.f, i);
    UprootedKeeps(f, i, f');
    hide Inv;
    hide Used;
  }

  /** A step keeps the invariant, and every inode but the one it is on. */
  lemma StepGood(st: State, a: Act)
    requires Good(st) && Enabled(st, a)
    ensures Good(Do(st, a)) && |Do(st, a).f.inodes| == |st.f.inodes|
    ensures forall i :: 0 <= i < |st.f.inodes| && !On(a, i) ==> SameInode(st.f, Do(st, a).f, i)
  {
    match a {
      case Balloc(pid, b) => BallocGood(st, pid, b);
      case Bfree(pid, b) => BfreeGood(st, pid, b);
      case Enter(pid, i, s, b) => EnterGood(st, pid, i, s, b);
      case Write(pid, i, s, data) => WriteGood(st, pid, i, s, data);
      case Resize(pid, i, n) => ResizeGood(st, pid, i, n);
      case Detach(pid, i, s) => DetachGood(st, pid, i, s);
      case Uproot(pid, i) => UprootGood(st, pid, i);
      case _ =>
    }
    hide Good;
    hide Enabled;
    hide SameInode;
  }

  // ---- Runs ---------------------------------------------------------------------------------------

  /** From st the steps lead to st'. */
  ghost predicate Run(st: State, steps: seq<Act>, st': State)
    requires Good(st)
    decreases |steps|
  {
    if steps == [] then st' == st
    else Enabled(st, steps[0]) && (StepGood(st, steps[0]); Run(Do(st, steps[0]), steps[1..], st'))
  }

  lemma {:induction false} RunGood(st: State, steps: seq<Act>, st': State)
    requires Good(st) && Run(st, steps, st')
    ensures Good(st') && |st'.f.inodes| == |st.f.inodes|
    decreases |steps|
  {
    hide Good;
    if steps != [] {
      StepGood(st, steps[0]);
      RunGood(Do(st, steps[0]), steps[1..], st');
    }
  }

  predicate InSlot(f: Fs, b: int, i: int, s: int) {
    0 <= i < |f.inodes| && 0 <= s < NSLOTS && Addr(f, i, s) == b
  }

  /** Block b is in a slot of an inode. */
  ghost predicate Placed(f: Fs, b: int) {
    exists i, s :: InSlot(f, b, i, s)
  }

  /** In every run, a data block is marked used if and only if it is in a slot or with a process,
      never both; and no block is in two slots. */
  lemma RunBlocks(st: State, steps: seq<Act>, st': State, b: int)
    requires Good(st) && Run(st, steps, st') && st'.f.nmeta <= b < |st'.f.blocks|
    ensures Used(st'.f.bmap, b) <==> Placed(st'.f, b) || b in st'.held
    ensures !(Placed(st'.f, b) && b in st'.held)
    ensures forall i, s, j, t :: InSlot(st'.f, b, i, s) && InSlot(st'.f, b, j, t) ==> i == j && s == t
  {
    RunGood(st, steps, st');
    hide Run;
    hide Used;
    var f := st'.f;
    forall i, s | InSlot(f, b, i, s)
      ensures b in f.owner && f.owner[b] == Slot(i, s)
    {
      assert SlotOwns(f, i, s);
    }
    if b in f.owner {
      assert OwnerRight(f, b);
      assert f.owner[b].Slot? ==> InSlot(f, b, f.owner[b].i, f.owner[b].s);
    }
  }

  /** What process p has: the inodes it has locked, and the blocks it holds. */
  ghost predicate Kept(st: State, st': State, p: int) {
    && |st'.f.inodes| == |st.f.inodes| && |st'.f.blocks| == |st.f.blocks|
    && (forall i :: i in st.locks && st.locks[i] == p ==> i in st'.locks && st'.locks[i] == p)
    && (forall i :: i in st.locks && st.locks[i] == p && 0 <= i < |st.f.inodes| ==> SameInode(st.f, st'.f, i))
    && (forall b :: b in st.held && st.held[b] == p ==> b in st'.held && st'.held[b] == p)
    && (forall b :: b in st.held && st.held[b] == p && 0 <= b < |st.f.blocks| ==> st'.f.blocks[b] == st.f.blocks[b])
  }

  lemma StepLocks(st: State, a: Act, p: int)
    requires Good(st) && Enabled(st, a) && a.pid != p
    ensures forall i :: i in st.locks && st.locks[i] == p ==>
              i in Do(st, a).locks && Do(st, a).locks[i] == p && !On(a, i)
  {
    hide Good;
    hide Used;
  }

  lemma StepHeld(st: State, a: Act, p: int, b: int)
    requires Good(st) && Enabled(st, a) && a.pid != p && b in st.held && st.held[b] == p
    ensures b in Do(st, a).held && Do(st, a).held[b] == p && |Do(st, a).f.blocks| == |st.f.blocks|
    ensures 0 <= b < |st.f.blocks| ==> Do(st, a).f.blocks[b] == st.f.blocks[b]
  {
    var f := st.f;
    if a.Balloc? {
      BallocGood(st, a.pid, a.b);
    } else if a.Enter? {
      IndirectNotHeld(f, a.i);
    } else if a.Write? {
      assert SlotOwns(f, a.i, a.s);
    } else if a.Detach? {
      assert SlotOwns(f, a.i, a.s);
    }
    hide Used;
  }

  lemma StepKept(st: State, a: Act, p: int)
    requires Good(st) && Enabled(st, a) && a.pid != p
    ensures Kept(st, Do(st, a), p)
  {
    StepGood(st, a);
    StepLocks(st, a, p);
    forall b | b in st.held && st.held[b] == p
      ensures b in Do(st, a).held && Do(st, a).held[b] == p
      ensures |Do(st, a).f.blocks| == |st.f.blocks|
      ensures 0 <= b < |st.f.blocks| ==> Do(st, a).f.blocks[b] == st.f.blocks[b]
    {
      StepHeld(st, a, p, b);
    }
    BlocksStay(st, a);
    hide Good;
    hide Enabled;
    hide SameInode;
    hide Do;
  }

  lemma BlocksStay(st: State, a: Act)
    requires Good(st) && Enabled(st, a)
    ensures |Do(st, a).f.blocks| == |st.f.blocks|
  {
    if a.Write? {
      assert SlotOwns(st.f, a.i, a.s) && OwnerRight(st.f, Addr(st.f, a.i, a.s));
    } else if a.Enter? {
      AttachInRange(st.f, a.i, a.s, a.b);
    }
    hide Used;
  }

  lemma KeptOn(st: State, m: State, st': State, p: int)
    requires Kept(st, m, p) && Kept(m, st', p)
    ensures Kept(st, st', p)
  {
    hide Addr;
    hide ByteAt;
  }

  /** In every run in which process p takes no step, the inodes it has locked keep their size, blocks
      and content, and the blocks it holds stay its own, with what is in them. */
  lemma {:induction false} OthersKeep(st: State, steps: seq<Act>, st': State, p: int)
    requires Good(st) && Run(st, steps, st') && forall k :: 0 <= k < |steps| ==> steps[k].pid != p
    ensures Kept(st, st', p)
    decreases |steps|
  {
    hide Good;
    hide Kept;
    hide Do;
    hide Enabled;
    if steps == [] {
      KeptSelf(st, p);
    } else {
      StepGood(st, steps[0]);
      StepKept(st, steps[0], p);
      OthersKeep(Do(st, steps[0]), steps[1..], st', p);
      KeptOn(st, Do(st, steps[0]), st', p);
    }
  }

  lemma KeptSelf(st: State, p: int)
    ensures Kept(st, st, p)
  {
    hide Addr;
    hide ByteAt;
  }
}
