/** The inode cache (iget, idup, ilock, iput of fs.c) on top of the directory tree: when an inode
    is freed. */
module InodeRefs {
  import opened LinkModel

  /** An entry of icache; valid: ilock has read the inode. */
  datatype Slot = Slot(inum: int, ref: int, valid: bool)

  /** refs: the references that processes hold, counted for each inode;
      going: those of them whose iput has made its test and has not lowered the count yet;
      doomed: inodes whose last reference an iput has seen and that it has not freed yet;
      freed: inodes that an iput has freed and not dropped yet, unless they were allocated again. */
  datatype State = State(tree: Tree, slots: seq<Slot>, refs: multiset<int>,
                         going: multiset<int>, doomed: set<int>, freed: set<int>)

  predicate Caches(s: State, k: int, i: int) {
    0 <= k < |s.slots| && s.slots[k].ref > 0 && s.slots[k].inum == i
  }

  // ---- The invariant ---------------------------------------------------------------------------

  /** The count of a slot is the number of references; an inode without links has been read. */
  predicate SlotOk(s: State, k: int) {
    0 <= k < |s.slots| ==>
      && s.slots[k].ref >= 0
      && (s.slots[k].ref > 0 ==>
            var i := s.slots[k].inum;
            && 0 < i < |s.tree.inodes| && s.refs[i] == s.slots[k].ref
            && (s.tree.inodes[i].nlink == 0 && s.tree.inodes[i].kind != FREE ==> s.slots[k].valid))
  }

  predicate OneSlot(s: State, j: int, k: int) {
    0 <= j < k < |s.slots| && s.slots[j].ref > 0 && s.slots[k].ref > 0 ==> s.slots[j].inum != s.slots[k].inum
  }

  ghost predicate HasSlot(s: State, i: int) {
    s.refs[i] > 0 ==> exists k :: Caches(s, k, i)
  }

  /** An inode that has a link, or that somebody refers to who is not dropping the reference, is
      allocated; a doomed or freed one is referred to by its iput alone. */
  predicate RefOk(s: State, i: int) {
    && s.going[i] <= s.refs[i]
    && (i in s.doomed || i in s.freed ==> 0 < i < |s.tree.inodes| && s.refs[i] == s.going[i] == 1)
    && (0 < i < |s.tree.inodes| ==>
          && (s.tree.inodes[i].nlink > 0 || s.refs[i] > s.going[i] ==> s.tree.inodes[i].kind != FREE)
          && (i in s.freed <==> s.tree.inodes[i].kind == FREE && s.refs[i] > 0)
          && (i in s.doomed ==> s.tree.inodes[i].nlink == 0 && s.tree.inodes[i].kind != FREE))
  }

  ghost predicate CacheOk(s: State) {
    && (forall k :: SlotOk(s, k))
    && (forall j, k :: OneSlot(s, j, k))
    && (forall i :: HasSlot(s, i))
    && (forall i :: RefOk(s, i))
  }

  /** What every interleaving keeps. */
  ghost predicate Sound(s: State) {
    Inv(s.tree) && CacheOk(s)
  }

  /** Inode i is not allocated for nobody. */
  predicate Kept(s: State, i: int) {
    0 < i < |s.tree.inodes| && s.tree.inodes[i].kind != FREE ==> s.tree.inodes[i].nlink > 0 || s.refs[i] > 0
  }

  ghost predicate NoneLost(s: State) {
    forall i :: Kept(s, i)
  }

  /** No iput is under way. */
  predicate Settled(s: State) {
    s.going == multiset{} && s.doomed == {} && s.freed == {}
  }

  ghost predicate Good(s: State) {
    Sound(s) && NoneLost(s) && Settled(s)
  }

  // ---- Steps -----------------------------------------------------------------------------------

  /** iget: into the slot k that has i, or a free one when none has. */
  predicate MayGet(s: State, i: int, k: int) {
    && 0 < i < |s.tree.inodes| && 0 <= k < |s.slots|
    && (Caches(s, k, i) || (s.slots[k].ref == 0 && forall j :: 0 <= j < |s.slots| ==> !Caches(s, j, i)))
  }

  function Got(s: State, i: int, k: int): State
    requires MayGet(s, i, k)
  {
    s.(slots := s.slots[k := if Caches(s, k, i) then s.slots[k].(ref := s.slots[k].ref + 1) else Slot(i, 1, false)],
       refs := s.refs + multiset{i})
  }

  function Locked(s: State, k: int): State
    requires 0 <= k < |s.slots|
  {
    s.(slots := s.slots[k := s.slots[k].(valid := true)])
  }

  predicate InRange(s: State, k: int) {
    0 <= k < |s.slots| && s.slots[k].ref > 0 && 0 <= s.slots[k].inum < |s.tree.inodes|
  }

  /** Somebody refers to the inode of slot k who is not dropping the reference. */
  predicate Usable(s: State, k: int) {
    InRange(s, k) && s.refs[s.slots[k].inum] > s.going[s.slots[k].inum]
  }

  /** What the test of iput finds: no link, and no other reference. */
  predicate LastRef(s: State, k: int)
    requires InRange(s, k)
  {
    s.slots[k].valid && s.tree.inodes[s.slots[k].inum].nlink == 0 && s.slots[k].ref == 1
  }

  /** iput up to the release of icache.lock after `r = ip->ref`. */
  function Tested(s: State, k: int): State
    requires InRange(s, k)
  {
    var i := s.slots[k].inum;
    s.(going := s.going + multiset{i}, doomed := if LastRef(s, k) then s.doomed + {i} else s.doomed)
  }

  /** `r == 1`: itrunc, `ip->type = 0`, iupdate, `ip->valid = 0`. */
  function Freed(s: State, k: int): State
    requires InRange(s, k)
  {
    var i := s.slots[k].inum;
    s.(tree := Drop(s.tree, i), slots := s.slots[k := s.slots[k].(valid := false)],
       doomed := s.doomed - {i}, freed := s.freed + {i})
  }

  /** `ip->ref--`, in another hold of icache.lock. */
  function Lowered(s: State, k: int): State
    requires InRange(s, k)
  {
    var i := s.slots[k].inum;
    s.(slots := s.slots[k := s.slots[k].(ref := s.slots[k].ref - 1)], refs := s.refs - multiset{i},
       going := s.going - multiset{i}, freed := s.freed - {i})
  }

  /** iput with nobody in between. */
  function PutBack(s: State, k: int): State
    requires InRange(s, k)
  {
    var v := s.slots[k];
    s.(tree := if LastRef(s, k) then Drop(s.tree, v.inum) else s.tree,
       slots := s.slots[k := Slot(v.inum, v.ref - 1, v.valid && !LastRef(s, k))], refs := s.refs - multiset{v.inum})
  }

  lemma GetSound(s: State, i: int, k: int, s': State)
    requires Sound(s) && MayGet(s, i, k) && s' == Got(s, i, k)
    requires s.tree.inodes[i].nlink > 0 || s.refs[i] > s.going[i]
    ensures Sound(s') && (NoneLost(s) ==> NoneLost(s'))
  {
    hide Inv;
    assert SlotOk(s, k) && HasSlot(s, i) && RefOk(s, i);
    forall j
      ensures SlotOk(s', j)
    {
      assert SlotOk(s, j) && OneSlot(s, j, k) && OneSlot(s, k, j);
    }
    forall j, m
      ensures OneSlot(s', j, m)
    {
      assert OneSlot(s, j, m) && (Caches(s, k, i) || !(Caches(s, j, i) || Caches(s, m, i)));
    }
    forall b
      ensures HasSlot(s', b) && RefOk(s', b) && (Kept(s, b) ==> Kept(s', b))
    {
      assert HasSlot(s, b) && RefOk(s, b);
      if b == i {
        assert Caches(s', k, i);
      } else if s.refs[b] > 0 {
        var m :| Caches(s, m, b);
        assert Caches(s', m, b);
      }
    }
  }

  /** A reference to an inode that has a link (or that somebody already refers to). */
  lemma GetKeeps(s: State, i: int, k: int, s': State)
    requires Good(s) && MayGet(s, i, k) && s' == Got(s, i, k)
    requires s.tree.inodes[i].nlink > 0 || s.refs[i] > 0
    ensures Good(s')
  {
    hide Sound;
    GetSound(s, i, k, s');
  }

  /** For any other inode it does not: iget then refers to a free one. */
  lemma GetIff(s: State, i: int, k: int)
    requires Good(s) && MayGet(s, i, k)
    ensures Good(Got(s, i, k)) <==> s.tree.inodes[i].nlink > 0 || s.refs[i] > 0
  {
    var s' := Got(s, i, k);
    assert RefOk(s, i) && Kept(s, i);
    if s.tree.inodes[i].nlink > 0 || s.refs[i] > 0 {
      GetKeeps(s, i, k, s');
    } else {
      assert !RefOk(s', i);
    }
  }

  lemma LockSound(s: State, k: int, s': State)
    requires Sound(s) && Usable(s, k) && s' == Locked(s, k)
    ensures Sound(s') && (NoneLost(s) ==> NoneLost(s'))
    ensures 0 < s.slots[k].inum < |s.tree.inodes| && s.tree.inodes[s.slots[k].inum].kind != FREE
  {
    hide Inv;
    assert SlotOk(s, k) && RefOk(s, s.slots[k].inum);
    forall j
      ensures SlotOk(s', j)
    {
      assert SlotOk(s, j);
    }
    forall j, m
      ensures OneSlot(s', j, m)
    {
      assert OneSlot(s, j, m);
    }
    forall b
      ensures HasSlot(s', b) && RefOk(s', b) && (Kept(s, b) ==> Kept(s', b))
    {
      assert HasSlot(s, b) && RefOk(s, b);
      if s.refs[b] > 0 {
        var m :| Caches(s, m, b);
        assert Caches(s', m, b);
      }
    }
  }

  lemma LockKeeps(s: State, k: int, s': State)
    requires Good(s) && 0 <= k < |s.slots| && s.slots[k].ref > 0 && s' == Locked(s, k)
    ensures Good(s') && 0 < s.slots[k].inum < |s.tree.inodes| && s.tree.inodes[s.slots[k].inum].kind != FREE
  {
    assert SlotOk(s, k);
    hide Sound;
    LockSound(s, k, s');
  }

  // ---- iput, in the three steps that others may come between --------------------------------------

  lemma TestSound(s: State, k: int, s': State)
    requires Sound(s) && Usable(s, k) && s' == Tested(s, k)
    ensures Sound(s') && (NoneLost(s) ==> NoneLost(s'))
  {
    hide Inv;
    assert SlotOk(s, k) && RefOk(s, s.slots[k].inum);
    forall j
      ensures SlotOk(s', j)
    {
      assert SlotOk(s, j);
    }
    forall j, m
      ensures OneSlot(s', j, m)
    {
      assert OneSlot(s, j, m);
    }
    forall b
      ensures HasSlot(s', b) && RefOk(s', b) && (Kept(s, b) ==> Kept(s', b))
    {
      assert HasSlot(s, b) && RefOk(s, b);
      if s.refs[b] > 0 {
        var m :| Caches(s, m, b);
        assert Caches(s', m, b);
      }
    }
  }

  /** Nobody uses what iput frees: it has no link, and the one reference is that of this iput. */
  lemma FreeSound(s: State, k: int, s': State)
    requires Sound(s) && InRange(s, k) && s.slots[k].inum in s.doomed && s' == Freed(s, k)
    ensures Sound(s') && (NoneLost(s) ==> NoneLost(s'))
    ensures var i := s.slots[k].inum; s.tree.inodes[i].nlink == 0 && s.refs[i] == s.going[i] == 1
  {
    var i := s.slots[k].inum;
    assert SlotOk(s, k) && RefOk(s, i);
    DropKeeps(s.tree, i, s'.tree);
    hide Inv;
    forall j
      ensures SlotOk(s', j)
    {
      assert SlotOk(s, j) && OneSlot(s, j, k) && OneSlot(s, k, j);
    }
    forall j, m
      ensures OneSlot(s', j, m)
    {
      assert OneSlot(s, j, m);
    }
    forall b
      ensures HasSlot(s', b) && RefOk(s', b) && (Kept(s, b) ==> Kept(s', b))
    {
      assert HasSlot(s, b) && RefOk(s, b);
      if s.refs[b] > 0 {
        var m :| Caches(s, m, b);
        assert Caches(s', m, b);
      }
    }
  }

  predicate MayLower(s: State, k: int) {
    InRange(s, k) && s.going[s.slots[k].inum] > 0 && s.slots[k].inum !in s.doomed
  }

  lemma LowerSound(s: State, k: int, s': State)
    requires Sound(s) && MayLower(s, k) && s' == Lowered(s, k)
    ensures Sound(s')
  {
    hide Inv;
    var i := s.slots[k].inum;
    assert SlotOk(s, k) && RefOk(s, i);
    forall j
      ensures SlotOk(s', j)
    {
      assert SlotOk(s, j) && OneSlot(s, j, k) && OneSlot(s, k, j);
    }
    forall j, m
      ensures OneSlot(s', j, m)
    {
      assert OneSlot(s, j, m);
    }
    forall b
      ensures HasSlot(s', b) && RefOk(s', b)
    {
      assert HasSlot(s, b) && RefOk(s, b);
      if s'.refs[b] > 0 {
        if b == i {
          assert Caches(s', k, i);
        } else {
          var m :| Caches(s, m, b);
          assert Caches(s', m, b);
        }
      }
    }
  }

  /** The reference that iput drops is the last one to an inode without links, and this iput has not
      freed the inode: its test came too early, or the inode has been allocated again since. */
  predicate Leaks(s: State, k: int)
    requires InRange(s, k)
  {
    var i := s.slots[k].inum;
    s.slots[k].ref == 1 && s.tree.inodes[i].nlink == 0 && i !in s.freed
  }

  /** The decrement leaves an inode allocated for nobody if and only if it leaks. */
  lemma LowerIff(s: State, k: int, s': State)
    requires Sound(s) && NoneLost(s) && MayLower(s, k) && s' == Lowered(s, k)
    ensures NoneLost(s') <==> !Leaks(s, k)
  {
    var i := s.slots[k].inum;
    assert SlotOk(s, k) && RefOk(s, i) && CountOk(s.tree, i);
    hide Inv;
    forall b
      ensures b != i || !Leaks(s, k) ==> Kept(s', b)
    {
      assert Kept(s, b);
    }
    if Leaks(s, k) {
      assert !Kept(s', i);
    }
  }

  /** With nobody in between the test is never too early. */
  lemma PutKeeps(s: State, k: int, s': State)
    requires Good(s) && InRange(s, k) && s' == PutBack(s, k)
    ensures Good(s')
  {
    var i := s.slots[k].inum;
    assert SlotOk(s, k) && CountOk(s.tree, i) && RefOk(s, i) && Kept(s, i);
    PutInSteps(s, k);
    var s1 := Tested(s, k);
    hide Inv;
    TestSound(s, k, s1);
    var s2 := if LastRef(s, k) then Freed(s1, k) else s1;
    if LastRef(s, k) {
      FreeSound(s1, k, s2);
    }
    hide Sound;
    LowerSound(s2, k, s');
    LowerIff(s2, k, s');
  }

  lemma PutInSteps(s: State, k: int)
    requires InRange(s, k) && Settled(s)
    ensures var s1 := Tested(s, k); var s2 := if LastRef(s, k) then Freed(s1, k) else s1;
      InRange(s2, k) && MayLower(s2, k) && Lowered(s2, k) == PutBack(s, k)
  {
    var s1 := Tested(s, k);
    var s2 := if LastRef(s, k) then Freed(s1, k) else s1;
    assert Lowered(s2, k).slots == PutBack(s, k).slots;
  }

  // ---- Changes of the tree ---------------------------------------------------------------------

  /** A call that changes the tree holds the inode, read and locked, and the directory. */
  ghost predicate Holds(s: State, i: int) {
    s.refs[i] > s.going[i] && forall k :: Caches(s, k, i) ==> s.slots[k].valid
  }

  ghost predicate MayChange(s: State, e: Event) {
    && Enabled(s.tree, e)
    && match e
       case BeginLink(i) => Holds(s, i)
       case EndLink(d, k, name, i) => Holds(s, d) && s.refs[i] > s.going[i]
       case UndoLink(i) => Holds(s, i)
       case Remove(d, k, i) => Holds(s, d) && Holds(s, i)
       case Make(d, k, name, i, kind) => Holds(s, d)
       case LastPut(i) => false
  }

  /** ialloc may take an inode that its iput has freed and not dropped yet. */
  ghost function Changed(s: State, e: Event): State
    requires Enabled(s.tree, e)
  {
    s.(tree := Next(s.tree, e), freed := if e.Make? then s.freed - {e.i} else s.freed)
  }

  /** No inode but a new one comes, none goes, and only inode e.i may lose its last link. */
  lemma ChangeCounts(s: Tree, e: Event, s': Tree, j: int)
    requires Inv(s) && Enabled(s, e) && s' == Next(s, e) && !e.LastPut? && 0 < j < |s.inodes|
    ensures |s'.inodes| == |s.inodes| && s'.inodes[j].nlink >= 0
    ensures if e.Make? && j == e.i then s'.inodes[j].kind != FREE && s'.inodes[j].nlink > 0
            else s'.inodes[j].kind == s.inodes[j].kind
    ensures j != e.i ==> (s'.inodes[j].nlink > 0 <==> s.inodes[j].nlink > 0)
  {
    NextKeeps(s, e, s');
    assert CountOk(s, j) && CountOk(s', j);
    match e {
      case Remove(d, k, i) =>
        EntryLinks(s, d, k, i);
        if s.inodes[i].kind == DIR {
          ParentTwoLinks(s, d, k, i);
        }
        hide Inv;
      case _ =>
        hide Inv;
    }
  }

  lemma ChangeSound(s: State, e: Event, s': State)
    requires Sound(s) && MayChange(s, e) && s' == Changed(s, e)
    ensures Sound(s') && (NoneLost(s) ==> NoneLost(s'))
  {
    NextKeeps(s.tree, e, s'.tree);
    hide Next;
    hide Inv;
    SameCount(s.tree, e, s'.tree);
    forall k
      ensures SlotOk(s', k)
    {
      assert SlotOk(s, k);
      if 0 <= k < |s.slots| && s.slots[k].ref > 0 {
        ChangeCounts(s.tree, e, s'.tree, s.slots[k].inum);
        assert Caches(s, k, s.slots[k].inum);
      }
    }
    forall j, m
      ensures OneSlot(s', j, m)
    {
      assert OneSlot(s, j, m);
    }
    forall b
      ensures HasSlot(s', b) && RefOk(s', b) && (Kept(s, b) ==> Kept(s', b))
    {
      assert HasSlot(s, b) && RefOk(s, b);
      if 0 < b < |s.tree.inodes| {
        ChangeCounts(s.tree, e, s'.tree, b);
      }
      if s.refs[b] > 0 {
        var m :| Caches(s, m, b);
        assert Caches(s', m, b);
      }
    }
  }

  lemma SameCount(s: Tree, e: Event, s': Tree)
    requires Enabled(s, e) && s' == Next(s, e)
    ensures |s'.inodes| == |s.inodes|
  {
  }

  // ---- Every run -------------------------------------------------------------------------------

  datatype Act =
    | Look(d: int, m: int, k: int)  // dirlookup: iget of what entry m of directory d names
    | Root(k: int)                  // iget of the root
    | Dup(k: int)
    | Lock(k: int)
    | Test(k: int)                  // the three steps of iput
    | Free(k: int)
    | Lower(k: int)
    | Change(e: Event)

  /** Directories are used only while they are part of the tree, and a reference is not used once
      its iput has made its test. */
  ghost predicate May(s: State, a: Act) {
    match a
    case Look(d, m, k) => Live(s.tree, d) && Holds(s, d) && HasEnt(s.tree, d, m)
                          && s.tree.inodes[d].ents[m].inum != 0 && MayGet(s, s.tree.inodes[d].ents[m].inum, k)
    case Root(k) => MayGet(s, ROOT, k)
    case Dup(k) => Usable(s, k) && MayGet(s, s.slots[k].inum, k)
    case Lock(k) => Usable(s, k)
    case Test(k) => Usable(s, k)
    case Free(k) => InRange(s, k) && s.slots[k].inum in s.doomed
    case Lower(k) => MayLower(s, k)
    case Change(e) => MayChange(s, e)
  }

  ghost function Do(s: State, a: Act): State
    requires May(s, a)
  {
    match a
    case Look(d, m, k) => Got(s, s.tree.inodes[d].ents[m].inum, k)
    case Root(k) => Got(s, ROOT, k)
    case Dup(k) => Got(s, s.slots[k].inum, k)
    case Lock(k) => Locked(s, k)
    case Test(k) => Tested(s, k)
    case Free(k) => Freed(s, k)
    case Lower(k) => Lowered(s, k)
    case Change(e) => Changed(s, e)
  }

  /** What an entry of a live directory names has a link. */
  lemma NamedHasLink(s: Tree, d: int, m: int)
    requires Inv(s) && Live(s, d) && HasEnt(s, d, m) && s.inodes[d].ents[m].inum != 0
    ensures 0 < s.inodes[d].ents[m].inum < |s.inodes| && s.inodes[s.inodes[d].ents[m].inum].nlink > 0
  {
    var i := s.inodes[d].ents[m].inum;
    assert DotsOk(s, d) && EntOk(s, d, m);
    if m != 0 {
      assert IsLink(s, d, m, i);
      SomeLink(s, d, m, i);
      assert CountOk(s, i);
    }
  }

  ghost predicate LeakStep(s: State, a: Act)
    requires May(s, a)
  {
    a.Lower? && Leaks(s, a.k)
  }

  lemma DoSound(s: State, a: Act, s': State)
    requires Sound(s) && May(s, a) && s' == Do(s, a)
    ensures Sound(s') && (NoneLost(s) ==> (NoneLost(s') <==> !LeakStep(s, a)))
  {
    hide CacheOk;
    hide NoneLost;
    match a {
      case Look(d, m, k) =>
        NamedHasLink(s.tree, d, m);
        GetSound(s, s.tree.inodes[d].ents[m].inum, k, s');
      case Root(k) =>
        assert Live(s.tree, ROOT);
        GetSound(s, ROOT, k, s');
      case Dup(k) => GetSound(s, s.slots[k].inum, k, s');
      case Lock(k) => LockSound(s, k, s');
      case Test(k) => TestSound(s, k, s');
      case Free(k) => FreeSound(s, k, s');
      case Lower(k) =>
        LowerSound(s, k, s');
        if NoneLost(s) {
          LowerIff(s, k, s');
        }
      case Change(e) => ChangeSound(s, e, s');
    }
  }

  ghost predicate Step(s: State, a: Act, s': State) {
    May(s, a) && s' == Do(s, a)
  }

  ghost predicate RefRun(states: seq<State>, acts: seq<Act>) {
    && |states| == |acts| + 1 && Good(states[0])
    && forall n :: 0 <= n < |acts| ==> Step(states[n], acts[n], states[n + 1])
  }

  lemma RunStep(states: seq<State>, acts: seq<Act>, n: nat)
    requires RefRun(states, acts) && n < |acts|
    ensures |states| == |acts| + 1 && Step(states[n], acts[n], states[n + 1]) && May(states[n], acts[n])
  {
    hide Good;
  }

  lemma {:induction false} RefRunKeeps(states: seq<State>, acts: seq<Act>, n: nat)
    requires RefRun(states, acts) && n < |states|
    ensures Sound(states[n])
  {
    hide Sound;
    hide Do;
    hide May;
    if n > 0 {
      RefRunKeeps(states, acts, n - 1);
      RunStep(states, acts, n - 1);
      DoSound(states[n - 1], acts[n - 1], states[n]);
    }
  }

  /** In every interleaving no inode is freed while it has a link, or while somebody refers to it
      who is not dropping the reference. */
  lemma UsedIsAllocated(states: seq<State>, acts: seq<Act>, n: nat, i: int)
    requires RefRun(states, acts) && n < |states| && 0 < i < |states[n].tree.inodes|
    requires states[n].tree.inodes[i].nlink > 0 || states[n].refs[i] > states[n].going[i]
    ensures states[n].tree.inodes[i].kind != FREE
  {
    hide Step;
    hide Inv;
    RefRunKeeps(states, acts, n);
    assert RefOk(states[n], i);
  }

  /** Step m of the run leaks inode i. */
  ghost predicate LeaksAt(states: seq<State>, acts: seq<Act>, m: int, i: int)
    requires RefRun(states, acts)
  {
    && 0 <= m < |acts| && acts[m].Lower? && InRange(states[m], acts[m].k)
    && Leaks(states[m], acts[m].k) && states[m].slots[acts[m].k].inum == i
  }

  /** Allocated, without a link, and nobody refers to it. */
  predicate Lost(s: State, i: int) {
    0 < i < |s.tree.inodes| && s.tree.inodes[i].kind != FREE && s.tree.inodes[i].nlink == 0 && s.refs[i] == 0
  }

  /** A lost inode stays lost: nobody can refer to it again, and ialloc passes it over. Any other
      becomes lost only by a step that leaks it. */
  lemma LostStep(s: State, a: Act, s': State, i: int)
    requires Sound(s) && Step(s, a, s')
    ensures Lost(s', i) <==> Lost(s, i) || (a.Lower? && Leaks(s, a.k) && s.slots[a.k].inum == i)
  {
    assert RefOk(s, i) && |s'.tree.inodes| == |s.tree.inodes| by {
      if a.Change? {
        SameCount(s.tree, a.e, s'.tree);
      }
    }
    match a {
      case Look(d, m, k) =>
        NamedHasLink(s.tree, d, m);
      case Root(k) =>
        assert Live(s.tree, ROOT);
      case Dup(k) =>
      case Lock(k) =>
      case Test(k) =>
      case Free(k) =>
        assert RefOk(s, s.slots[k].inum);
      case Lower(k) =>
        LostLower(s, k, s', i);
      case Change(e) =>
        LostChange(s, e, s', i);
    }
  }

  lemma LostLower(s: State, k: int, s': State, i: int)
    requires Sound(s) && Step(s, Lower(k), s')
    ensures Lost(s', i) <==> Lost(s, i) || (Leaks(s, k) && s.slots[k].inum == i)
  {
    assert SlotOk(s, k) && RefOk(s, s.slots[k].inum);
    hide Inv;
  }

  lemma LostChange(s: State, e: Event, s': State, i: int)
    requires Sound(s) && MayChange(s, e) && s' == Changed(s, e) && |s'.tree.inodes| == |s.tree.inodes|
    ensures Lost(s', i) <==> Lost(s, i)
  {
    assert RefOk(s, i);
    if 0 < i < |s.tree.inodes| {
      ChangeCounts(s.tree, e, s'.tree, i);
      assert CountOk(s.tree, i);
      hide Inv;
      hide Next;
    }
  }

  /** In every run an inode is allocated for nobody if and only if an iput has leaked it before: it
      dropped the last reference to the inode, which had no link, without having freed it. */
  lemma {:induction false} LostIffLeaked(states: seq<State>, acts: seq<Act>, n: nat, i: int)
    requires RefRun(states, acts) && n < |states|
    ensures Lost(states[n], i) <==> exists m :: 0 <= m < n && LeaksAt(states, acts, m, i)
  {
    hide Inv;
    hide CacheOk;
    hide Step;
    if n == 0 {
      assert Kept(states[0], i);
    } else {
      LostIffLeaked(states, acts, n - 1, i);
      RefRunKeeps(states, acts, n - 1);
      RunStep(states, acts, n - 1);
      LostNow(states, acts, n - 1, i);
    }
  }

  lemma LostNow(states: seq<State>, acts: seq<Act>, n: nat, i: int)
    requires RefRun(states, acts) && n < |acts| && Sound(states[n]) && Step(states[n], acts[n], states[n + 1])
    ensures Lost(states[n + 1], i) <==> Lost(states[n], i) || LeaksAt(states, acts, n, i)
  {
    hide Sound;
    LostStep(states[n], acts[n], states[n + 1], i);
  }

  /** In every state of every run an inode is allocated if and only if it has a link, or somebody
      refers to it (but for the iput that has just freed it), or an iput has leaked it. */
  lemma AllocatedIffUsed(states: seq<State>, acts: seq<Act>, n: nat, i: int)
    requires RefRun(states, acts) && n < |states| && 0 < i < |states[n].tree.inodes|
    ensures states[n].tree.inodes[i].kind != FREE <==>
              || states[n].tree.inodes[i].nlink > 0
              || (states[n].refs[i] > 0 && i !in states[n].freed)
              || exists m :: 0 <= m < n && LeaksAt(states, acts, m, i)
    ensures i in states[n].freed ==> states[n].refs[i] == states[n].going[i] == 1
  {
    hide Step;
    RefRunKeeps(states, acts, n);
    LostIffLeaked(states, acts, n, i);
    assert RefOk(states[n], i) && CountOk(states[n].tree, i);
    hide Inv;
  }

  /** And it is in one slot of the cache at most. */
  lemma OneCopy(states: seq<State>, acts: seq<Act>, n: nat, j: int, k: int, i: int)
    requires RefRun(states, acts) && n < |states| && Caches(states[n], j, i) && Caches(states[n], k, i)
    ensures j == k && states[n].slots[k].ref == states[n].refs[i]
  {
    hide Step;
    hide Inv;
    RefRunKeeps(states, acts, n);
    assert OneSlot(states[n], j, k) && OneSlot(states[n], k, j) && SlotOk(states[n], k);
  }

  /** A cache in which no iput is under way. */
  function Calm(tree: Tree, slots: seq<Slot>, refs: multiset<int>): State {
    State(tree, slots, refs, multiset{}, {}, {})
  }

  /** The tree that mkfs makes, with nothing in the cache. */
  lemma FreshCache(names: seq<string>, free: nat, slots: seq<Slot>)
    requires forall j :: 0 <= j < |names| ==> names[j] != "." && names[j] != ".."
    requires forall j, k :: 0 <= j < k < |names| ==> names[j] != names[k]
    requires forall k :: 0 <= k < |slots| ==> slots[k].ref == 0
    ensures Good(Calm(Made(names, free), slots, multiset{}))
  {
    var s := Calm(Made(names, free), slots, multiset{});
    MadeInv(names, free);
    forall i
      ensures RefOk(s, i) && Kept(s, i)
    {
      assert InodeOk(s.tree, i);
    }
    hide Inv;
  }

  // ---- Why directories must be part of the tree ------------------------------------------------

  /** Inodes 1 to 3 of the run below. */
  function Three(root: Inode, a: Inode, b: Inode): Tree {
    Tree([Inode(FREE, 0, []), root, a, b], multiset{})
  }

  /** The root has 32 entries from the start. */
  function RootWith(nlink: int, third: Dirent): Inode {
    Inode(DIR, nlink, [Dirent(1, "."), Dirent(1, ".."), third] + seq(29, _ => Dirent(0, "")))
  }

  function DirWith(i: int, parent: int, nlink: int, third: seq<Dirent>): Inode {
    Inode(DIR, nlink, [Dirent(i, "."), Dirent(parent, "..")] + third)
  }

  const NOTHING: Inode := Inode(FREE, 0, [])

  /** The tree as mkfs makes it, then with /a, with /a/b, with b removed, with a removed too, and
      with the inode of a freed. */
  function TreeAt(n: nat): Tree {
    if n == 0 then Three(RootWith(1, Dirent(0, "")), NOTHING, NOTHING)
    else if n == 1 then Three(RootWith(2, Dirent(2, "a")), DirWith(2, 1, 1, []), NOTHING)
    else if n == 2 then Three(RootWith(2, Dirent(2, "a")), DirWith(2, 1, 2, [Dirent(3, "b")]), DirWith(3, 2, 1, []))
    else if n == 3 then Three(RootWith(2, Dirent(2, "a")), DirWith(2, 1, 1, [Dirent(0, "")]), DirWith(3, 2, 0, []))
    else if n == 4 then Three(RootWith(1, Dirent(0, "")), DirWith(2, 1, 0, [Dirent(0, "")]), DirWith(3, 2, 0, []))
    else Three(RootWith(1, Dirent(0, "")), NOTHING, DirWith(3, 2, 0, []))
  }

  function SlotsFor(root: Slot, a: Slot, b: Slot): seq<Slot> {
    [root, a, b]
  }

  const IDLE: Slot := Slot(0, 0, false)

  /** A process makes /a and /a/b, holds b, as its current directory, and removes b and a. */
  function Acts(): seq<Act> {
    [Root(0), Lock(0), Change(Make(1, 2, "a", 2, DIR)), Look(1, 2, 1), Lock(1), Change(Make(2, 2, "b", 3, DIR)),
     Look(2, 2, 2), Lock(2), Change(Remove(2, 2, 3)), Change(Remove(1, 2, 2)), Test(1), Free(1), Lower(1)]
  }

  function States(): seq<State> {
    var one, two, three := Slot(1, 1, true), Slot(2, 1, true), Slot(3, 1, true);
    [Calm(TreeAt(0), SlotsFor(IDLE, IDLE, IDLE), multiset{}),
     Calm(TreeAt(0), SlotsFor(Slot(1, 1, false), IDLE, IDLE), multiset{1}),
     Calm(TreeAt(0), SlotsFor(one, IDLE, IDLE), multiset{1}),
     Calm(TreeAt(1), SlotsFor(one, IDLE, IDLE), multiset{1}),
     Calm(TreeAt(1), SlotsFor(one, Slot(2, 1, false), IDLE), multiset{1, 2}),
     Calm(TreeAt(1), SlotsFor(one, two, IDLE), multiset{1, 2}),
     Calm(TreeAt(2), SlotsFor(one, two, IDLE), multiset{1, 2}),
     Calm(TreeAt(2), SlotsFor(one, two, Slot(3, 1, false)), multiset{1, 2, 3}),
     Calm(TreeAt(2), SlotsFor(one, two, three), multiset{1, 2, 3}),
     Calm(TreeAt(3), SlotsFor(one, two, three), multiset{1, 2, 3}),
     Calm(TreeAt(4), SlotsFor(one, two, three), multiset{1, 2, 3}),
     State(TreeAt(4), SlotsFor(one, two, three), multiset{1, 2, 3}, multiset{2}, {2}, {}),
     State(TreeAt(5), SlotsFor(one, Slot(2, 1, false), three), multiset{1, 2, 3}, multiset{2}, {}, {2}),
     Calm(TreeAt(5), SlotsFor(one, Slot(2, 0, false), three), multiset{1, 3})]
  }

  lemma SameTree(t: Tree, u: Tree)
    requires |t.inodes| == |u.inodes| == 4 && t.pending == u.pending && t.inodes[0] == u.inodes[0]
    requires forall i :: 1 <= i < 4 ==> t.inodes[i].kind == u.inodes[i].kind && t.inodes[i].nlink == u.inodes[i].nlink
    requires t.inodes[1].ents == u.inodes[1].ents && t.inodes[2].ents == u.inodes[2].ents
    requires t.inodes[3].ents == u.inodes[3].ents
    ensures t == u
  {
    assert t.inodes[1] == u.inodes[1] && t.inodes[2] == u.inodes[2] && t.inodes[3] == u.inodes[3];
    assert t.inodes == u.inodes;
  }

  lemma FirstTree()
    ensures Made([], 2) == TreeAt(0)
  {
    SameTree(Made([], 2), TreeAt(0));
  }

  lemma GettingSteps()
    ensures Step(States()[0], Acts()[0], States()[1])
  {
  }

  lemma GettingStepsRead()
    ensures Step(States()[1], Acts()[1], States()[2])
  {
  }

  lemma TreeWithA()
    ensures Enabled(TreeAt(0), Make(1, 2, "a", 2, DIR)) && Next(TreeAt(0), Make(1, 2, "a", 2, DIR)) == TreeAt(1)
  {
    SameTree(Next(TreeAt(0), Make(1, 2, "a", 2, DIR)), TreeAt(1));
  }

  lemma MakingA()
    ensures Step(States()[2], Acts()[2], States()[3])
  {
    TreeWithA();
    hide TreeAt;
    hide Next;
    hide Enabled;
  }

  lemma HoldingA()
    ensures Step(States()[3], Acts()[3], States()[4])
  {
  }

  lemma HoldingARead()
    ensures Step(States()[4], Acts()[4], States()[5])
  {
  }

  lemma TreeWithB()
    ensures Enabled(TreeAt(1), Make(2, 2, "b", 3, DIR)) && Next(TreeAt(1), Make(2, 2, "b", 3, DIR)) == TreeAt(2)
  {
    SameTree(Next(TreeAt(1), Make(2, 2, "b", 3, DIR)), TreeAt(2));
  }

  lemma MakingB()
    ensures Step(States()[5], Acts()[5], States()[6])
  {
    TreeWithB();
    hide TreeAt;
    hide Next;
    hide Enabled;
  }

  lemma HoldingB()
    ensures Step(States()[6], Acts()[6], States()[7])
  {
  }

  lemma HoldingBRead()
    ensures Step(States()[7], Acts()[7], States()[8])
  {
  }

  lemma TreeWithoutB()
    ensures Enabled(TreeAt(2), Remove(2, 2, 3)) && Next(TreeAt(2), Remove(2, 2, 3)) == TreeAt(3)
  {
    SameTree(Next(TreeAt(2), Remove(2, 2, 3)), TreeAt(3));
  }

  lemma RemovingB()
    ensures Step(States()[8], Acts()[8], States()[9])
  {
    TreeWithoutB();
    hide TreeAt;
    hide Next;
    hide Enabled;
  }

  lemma TreeWithoutA()
    ensures Enabled(TreeAt(3), Remove(1, 2, 2)) && Next(TreeAt(3), Remove(1, 2, 2)) == TreeAt(4)
  {
    SameTree(Next(TreeAt(3), Remove(1, 2, 2)), TreeAt(4));
  }

  lemma RemovingA()
    ensures Step(States()[9], Acts()[9], States()[10])
  {
    TreeWithoutA();
    hide TreeAt;
    hide Next;
    hide Enabled;
  }

  lemma PuttingA()
    ensures Step(States()[10], Acts()[10], States()[11])
    ensures Step(States()[12], Acts()[12], States()[13])
  {
    assert States()[12].slots[1 := Slot(2, 0, false)] == States()[13].slots;
    hide Drop;
  }

  lemma FreeingA()
    ensures Step(States()[11], Acts()[11], States()[12])
  {
    SameTree(Drop(TreeAt(4), 2), TreeAt(5));
    assert States()[11].slots[1 := Slot(2, 1, false)] == States()[12].slots;
    hide TreeAt;
    hide Drop;
  }

  /** A run from the tree that mkfs makes: at its end directory 3, removed but still referred to,
      keeps its "..", and the parent that it names has been freed. */
  lemma RemovedParentFreed()
    ensures RefRun(States(), Acts()) && States()[0].tree == Made([], 2)
    ensures States()[13].refs[3] > 0 && |States()[13].tree.inodes| == 4
    ensures var t := States()[13].tree.inodes;
      && t[3].kind == DIR && t[3].nlink == 0 && t[3].ents == [Dirent(3, "."), Dirent(2, "..")]
      && t[2].kind == FREE
  {
    GettingSteps();
    GettingStepsRead();
    MakingA();
    HoldingA();
    HoldingARead();
    MakingB();
    HoldingB();
    HoldingBRead();
    RemovingB();
    RemovingA();
    PuttingA();
    FreeingA();
    hide Step;
    FreshCache([], 2, SlotsFor(IDLE, IDLE, IDLE));
    FirstTree();
  }

  // ---- Two processes drop the last two references ---------------------------------------------

  /** The tree as mkfs makes it, then with the file /a, then with a removed. */
  function FileTreeAt(n: nat): Tree {
    if n == 0 then TreeAt(0)
    else if n == 1 then Three(RootWith(1, Dirent(2, "a")), Inode(FILE, 1, []), NOTHING)
    else Three(RootWith(1, Dirent(0, "")), Inode(FILE, 0, []), NOTHING)
  }

  /** Two processes open /a, one of them removes it, and both close it: each reads the count before
      the other has lowered it. */
  function RaceActs(): seq<Act> {
    [Root(0), Lock(0), Change(Make(1, 2, "a", 2, FILE)), Look(1, 2, 1), Look(1, 2, 1), Lock(1),
     Change(Remove(1, 2, 2)), Test(1), Test(1), Lower(1), Lower(1)]
  }

  function RaceStates(): seq<State> {
    var one := Slot(1, 1, true);
    [Calm(FileTreeAt(0), SlotsFor(IDLE, IDLE, IDLE), multiset{}),
     Calm(FileTreeAt(0), SlotsFor(Slot(1, 1, false), IDLE, IDLE), multiset{1}),
     Calm(FileTreeAt(0), SlotsFor(one, IDLE, IDLE), multiset{1}),
     Calm(FileTreeAt(1), SlotsFor(one, IDLE, IDLE), multiset{1}),
     Calm(FileTreeAt(1), SlotsFor(one, Slot(2, 1, false), IDLE), multiset{1, 2}),
     Calm(FileTreeAt(1), SlotsFor(one, Slot(2, 2, false), IDLE), multiset{1, 2, 2}),
     Calm(FileTreeAt(1), SlotsFor(one, Slot(2, 2, true), IDLE), multiset{1, 2, 2}),
     Calm(FileTreeAt(2), SlotsFor(one, Slot(2, 2, true), IDLE), multiset{1, 2, 2}),
     State(FileTreeAt(2), SlotsFor(one, Slot(2, 2, true), IDLE), multiset{1, 2, 2}, multiset{2}, {}, {}),
     State(FileTreeAt(2), SlotsFor(one, Slot(2, 2, true), IDLE), multiset{1, 2, 2}, multiset{2, 2}, {}, {}),
     State(FileTreeAt(2), SlotsFor(one, Slot(2, 1, true), IDLE), multiset{1, 2}, multiset{2}, {}, {}),
     Calm(FileTreeAt(2), SlotsFor(one, Slot(2, 0, true), IDLE), multiset{1})]
  }

  lemma RaceTrees()
    ensures Enabled(FileTreeAt(0), Make(1, 2, "a", 2, FILE)) && Enabled(FileTreeAt(1), Remove(1, 2, 2))
    ensures Next(FileTreeAt(0), Make(1, 2, "a", 2, FILE)) == FileTreeAt(1)
    ensures Next(FileTreeAt(1), Remove(1, 2, 2)) == FileTreeAt(2)
  {
    SameTree(Next(FileTreeAt(0), Make(1, 2, "a", 2, FILE)), FileTreeAt(1));
    SameTree(Next(FileTreeAt(1), Remove(1, 2, 2)), FileTreeAt(2));
  }

  lemma RaceRoot()
    ensures Step(RaceStates()[0], RaceActs()[0], RaceStates()[1])
    ensures Step(RaceStates()[1], RaceActs()[1], RaceStates()[2])
  {
  }

  lemma RaceMade()
    ensures Step(RaceStates()[2], RaceActs()[2], RaceStates()[3])
    ensures Step(RaceStates()[6], RaceActs()[6], RaceStates()[7])
  {
    RaceTrees();
    hide FileTreeAt;
    hide Next;
    hide Enabled;
  }

  lemma RaceOpened()
    ensures Step(RaceStates()[3], RaceActs()[3], RaceStates()[4])
  {
  }

  lemma RaceOpenedAgain()
    ensures Step(RaceStates()[4], RaceActs()[4], RaceStates()[5])
  {
  }

  lemma RaceLocked()
    ensures Step(RaceStates()[5], RaceActs()[5], RaceStates()[6])
  {
  }

  lemma RaceTested()
    ensures Step(RaceStates()[7], RaceActs()[7], RaceStates()[8])
    ensures Step(RaceStates()[8], RaceActs()[8], RaceStates()[9])
  {
  }

  lemma RaceLowered()
    ensures Step(RaceStates()[9], RaceActs()[9], RaceStates()[10])
  {
  }

  lemma RaceLoweredLast()
    ensures Step(RaceStates()[10], RaceActs()[10], RaceStates()[11])
  {
  }

  /** A run from the tree that mkfs makes at whose end inode 2 is allocated, with no link and no
      reference: neither iput has freed it. */
  lemma UnlinkedFileLost()
    ensures RefRun(RaceStates(), RaceActs()) && RaceStates()[0].tree == Made([], 2)
    ensures Settled(RaceStates()[11]) && Lost(RaceStates()[11], 2)
  {
    RaceRoot();
    RaceMade();
    RaceOpened();
    RaceOpenedAgain();
    RaceLocked();
    RaceTested();
    RaceLowered();
    RaceLoweredLast();
    hide Step;
    FreshCache([], 2, SlotsFor(IDLE, IDLE, IDLE));
    FirstTree();
  }
}
