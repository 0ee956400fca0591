/** iget, idup, ilock, iput and namex of fs.c. */
module InodeCache {
  import Directories
  import opened InodeRefs
  import opened LinkModel
  import opened Wrappers

  // ---- Paths -----------------------------------------------------------------------------------

  /** Directory d has an entry with the name, for inode i. */
  predicate Names(s: Tree, d: int, name: string, i: int) {
    0 <= d < |s.inodes| && exists k :: 0 <= k < |s.inodes[d].ents| && i != 0 && s.inodes[d].ents[k] == Dirent(i, name)
  }

  /** The names from j up to n lead from inode i to inode t. */
  ghost predicate Leads(s: Tree, i: int, names: seq<string>, j: nat, n: nat, t: int)
    requires j <= n <= |names|
    decreases n - j
  {
    if j == n then t == i
    else
      && 0 <= i < |s.inodes| && s.inodes[i].kind == DIR
      && exists m :: Names(s, i, names[j], m) && Leads(s, m, names, j + 1, n, t)
  }

  /** In a live directory a name names one inode. */
  lemma OneNamed(s: Tree, d: int, name: string, a: int, b: int)
    requires Inv(s) && Live(s, d) && Names(s, d, name, a) && Names(s, d, name, b)
    ensures a == b
  {
    var j :| 0 <= j < |s.inodes[d].ents| && a != 0 && s.inodes[d].ents[j] == Dirent(a, name);
    var k :| 0 <= k < |s.inodes[d].ents| && b != 0 && s.inodes[d].ents[k] == Dirent(b, name);
    assert DotsOk(s, d) && EntOk(s, d, j) && EntOk(s, d, k) && EntsDiffer(s, d, j, k) && EntsDiffer(s, d, k, j);
  }

  lemma LeadsNext(s: Tree, i: int, names: seq<string>, j: nat, n: nat, m: int, t: int)
    requires Inv(s) && Live(s, i) && j < n <= |names| && Names(s, i, names[j], m)
    ensures Leads(s, i, names, j, n, t) <==> Leads(s, m, names, j + 1, n, t)
  {
    if Leads(s, i, names, j, n, t) {
      var x :| Names(s, i, names[j], x) && Leads(s, x, names, j + 1, n, t);
      OneNamed(s, i, names[j], m, x);
    }
  }

  /** The first j names lead from start to i, and that is the only way to go on. */
  ghost predicate Walking(s: Tree, start: int, names: seq<string>, j: nat, n: nat, i: int)
    requires j <= n <= |names|
  {
    forall t :: Leads(s, start, names, 0, n, t) <==> Leads(s, i, names, j, n, t)
  }

  lemma WalkingNext(s: Tree, start: int, names: seq<string>, j: nat, n: nat, i: int, m: int)
    requires Inv(s) && Live(s, i) && j < n <= |names| && Names(s, i, names[j], m) && Walking(s, start, names, j, n, i)
    ensures Walking(s, start, names, j + 1, n, m)
  {
    forall t
      ensures Leads(s, start, names, 0, n, t) <==> Leads(s, m, names, j + 1, n, t)
    {
      LeadsNext(s, i, names, j, n, m, t);
    }
  }

  lemma NamedLinked(s: Tree, d: int, name: string, i: int)
    requires Inv(s) && Live(s, d) && Names(s, d, name, i)
    ensures 0 < i < |s.inodes| && s.inodes[i].nlink > 0
  {
    var k :| 0 <= k < |s.inodes[d].ents| && i != 0 && s.inodes[d].ents[k] == Dirent(i, name);
    NamedHasLink(s, d, k);
  }

  class Icache {
    var slots: seq<Slot>
    var inodes: seq<Inode>
    ghost var pending: multiset<int>
    ghost var refs: multiset<int>
    ghost var going: multiset<int>
    ghost var doomed: set<int>
    ghost var freed: set<int>

    ghost function Now(): State
      reads this
    {
      State(Tree(inodes, pending), slots, refs, going, doomed, freed)
    }

    constructor (inodes: seq<Inode>, n: nat)
      ensures Now() == Calm(Tree(inodes, multiset{}), Now().slots, multiset{}) && |Now().slots| == n
      ensures forall k :: 0 <= k < n ==> Now().slots[k].ref == 0
    {
      this.inodes, pending, refs := inodes, multiset{}, multiset{};
      going, doomed, freed := multiset{}, {}, {};
      slots := seq(n, _ => Slot(0, 0, false));
    }

    /** iget; None is the panic "iget: no inodes". It keeps the cache sound if and only if the
        inode has a link or somebody refers to it already, which iget does not check. */
    method Iget(i: int) returns (r: Option<int>)
      requires Good(Now()) && 0 < i < |Now().tree.inodes|
      modifies this`slots, this`refs
      ensures r.Some? ==> (Good(Now()) <==> old(Now()).tree.inodes[i].nlink > 0 || old(Now()).refs[i] > 0)
      ensures r.Some? ==> MayGet(old(Now()), i, r.value) && Now() == Got(old(Now()), i, r.value)
      ensures r.None? <==> forall k :: 0 <= k < |old(Now()).slots| ==>
                             old(Now()).slots[k].ref != 0 && !Caches(old(Now()), k, i)
      ensures r.None? ==> Now() == old(Now())
      ensures r.Some? ==> && 0 <= r.value < |slots| == |old(slots)| && inodes == old(inodes)
                          && (forall k :: 0 <= k < |slots| && k != r.value ==> slots[k] == old(slots)[k])
                          && slots[r.value] == if Caches(old(Now()), r.value, i)
                                               then old(slots)[r.value].(ref := old(slots)[r.value].ref + 1)
                                               else Slot(i, 1, false)
    {
      hide Good;
      ghost var s := Now();
      var empty := -1;
      var k := 0;
      while k < |slots|
        invariant 0 <= k <= |slots| && Now() == s && -1 <= empty < k
        invariant forall j :: 0 <= j < k ==> !Caches(s, j, i)
        invariant empty == -1 ==> forall j :: 0 <= j < k ==> slots[j].ref != 0
        invariant empty != -1 ==> slots[empty].ref == 0
      {
        if slots[k].ref > 0 && slots[k].inum == i {
          slots := slots[k := slots[k].(ref := slots[k].ref + 1)];
          refs := refs + multiset{i};
          GetIff(s, i, k);
          return Some(k);
        }
        if empty == -1 && slots[k].ref == 0 {
          empty := k;
        }
        k := k + 1;
      }
      if empty == -1 {
        return None;
      }
      slots := slots[empty := Slot(i, 1, false)];
      refs := refs + multiset{i};
      GetIff(s, i, empty);
      return Some(empty);
    }

    method Idup(k: int)
      requires Good(Now()) && 0 <= k < |Now().slots| && Now().slots[k].ref > 0
      modifies this`slots, this`refs
      ensures Good(Now()) && MayGet(old(Now()), old(Now()).slots[k].inum, k)
      ensures Now() == Got(old(Now()), old(Now()).slots[k].inum, k)
      ensures slots == old(slots)[k := old(slots)[k].(ref := old(slots)[k].ref + 1)] && inodes == old(inodes)
    {
      hide Inv;
      ghost var s := Now();
      assert SlotOk(s, k);
      slots := slots[k := slots[k].(ref := slots[k].ref + 1)];
      refs := refs + multiset{slots[k].inum};
      GetKeeps(s, s.slots[k].inum, k, Now());
    }

    /** ilock; the panic "ilock: no type" cannot happen. */
    method Ilock(k: int) returns (panicked: bool)
      requires Good(Now()) && 0 <= k < |Now().slots| && Now().slots[k].ref > 0
      modifies this`slots
      ensures !panicked && Good(Now()) && Now() == Locked(old(Now()), k)
      ensures slots == old(slots)[k := old(slots)[k].(valid := true)] && inodes == old(inodes)
    {
      hide Good;
      ghost var s := Now();
      LockKeeps(s, k, Locked(s, k));
      if !slots[k].valid {
        slots := slots[k := slots[k].(valid := true)];
        if inodes[slots[k].inum].kind == FREE {
          return true;
        }
      }
      assert s.slots[k].valid ==> s.slots[k := s.slots[k].(valid := true)] == s.slots;
      return false;
    }

    /** iput up to releasesleep; last: it has read 1. Others may come between the read and the
        freeing, and after it. */
    method IputTest(k: int) returns (last: bool)
      requires Sound(Now()) && Usable(Now(), k)
      modifies this`going, this`doomed
      ensures Sound(Now()) && (NoneLost(old(Now())) ==> NoneLost(Now()))
      ensures Now() == Tested(old(Now()), k) && last == LastRef(old(Now()), k)
    {
      hide Sound;
      ghost var s := Now();
      TestSound(s, k, Tested(s, k));
      last := false;
      if slots[k].valid && inodes[slots[k].inum].nlink == 0 {
        var r := slots[k].ref;
        last := r == 1;
      }
      going := going + multiset{slots[k].inum};
      if last {
        doomed := doomed + {slots[k].inum};
      }
    }

    /** What it does then. */
    method IputFree(k: int)
      requires Sound(Now()) && InRange(Now(), k) && Now().slots[k].inum in Now().doomed
      modifies this`slots, this`inodes, this`doomed, this`freed
      ensures Sound(Now()) && (NoneLost(old(Now())) ==> NoneLost(Now())) && Now() == Freed(old(Now()), k)
    {
      hide Sound;
      ghost var s := Now();
      FreeSound(s, k, Freed(s, k));
      inodes := inodes[slots[k].inum := Inode(FREE, 0, [])];
      slots := slots[k := slots[k].(valid := false)];
      doomed, freed := doomed - {slots[k].inum}, freed + {slots[k].inum};
    }

    /** `ip->ref--`. It leaves an inode that is allocated for nobody if and only if it leaks it. */
    method IputDrop(k: int)
      requires Sound(Now()) && MayLower(Now(), k)
      modifies this`slots, this`refs, this`going, this`freed
      ensures Sound(Now()) && Now() == Lowered(old(Now()), k)
      ensures NoneLost(old(Now())) ==> (NoneLost(Now()) <==> !Leaks(old(Now()), k))
    {
      hide Sound;
      ghost var s := Now();
      LowerSound(s, k, Lowered(s, k));
      if NoneLost(s) {
        LowerIff(s, k, Lowered(s, k));
      }
      refs, going, freed := refs - multiset{slots[k].inum}, going - multiset{slots[k].inum}, freed - {slots[k].inum};
      slots := slots[k := slots[k].(ref := slots[k].ref - 1)];
    }

    /** iput with nobody in between. */
    method Iput(k: int)
      requires Good(Now()) && 0 <= k < |Now().slots| && Now().slots[k].ref > 0
      modifies this`slots, this`refs, this`inodes, this`going, this`doomed, this`freed
      ensures Good(Now()) && InRange(old(Now()), k) && Now() == PutBack(old(Now()), k)
      ensures var v, last := old(Now()).slots[k], LastRef(old(Now()), k);
        && Now().slots == old(Now()).slots[k := Slot(v.inum, v.ref - 1, v.valid && !last)]
        && Now().tree.inodes == (if last then old(Now()).tree.inodes[v.inum := Inode(FREE, 0, [])]
                                 else old(Now()).tree.inodes)
        && Now().refs == old(Now()).refs - multiset{v.inum}
    {
      hide *;
      ghost var s := Now();
      SlotRange(s, k);
      PutKeeps(s, k, PutBack(s, k));
      PutReady(s, k);
      PutEntries(s, k);
      var last := IputTest(k);
      if last {
        IputFree(k);
      }
      IputDrop(k);
    }

    /** The inode that a directory entry names, by dirlookup; the name may not be there. */
    method Lookup(d: int, name: string) returns (r: Option<int>)
      requires 0 <= d < |Now().tree.inodes|
      ensures r.Some? ==> Names(Now().tree, d, name, r.value)
      ensures r.None? ==> forall i :: !Names(Now().tree, d, name, i)
    {
      var k := Directories.DirLookup(inodes, d, name);
      if k.None? {
        return None;
      }
      assert inodes[d].ents[k.value] == Dirent(inodes[d].ents[k.value].inum, name);
      return Some(inodes[d].ents[k.value].inum);
    }

    /** The body of namex's loop after the type check: on to the named inode, whose reference
        replaces that to the directory. */
    method Descend(k: int, name: string, ghost s: State) returns (r: Option<int>, found: bool)
      requires Good(s) && At(s, Now(), k) && Live(s.tree, Now().slots[k].inum)
      modifies this`slots, this`refs, this`inodes, this`going, this`doomed, this`freed
      ensures Good(Now())
      ensures found ==> exists m :: Names(s.tree, old(Now()).slots[k].inum, name, m)
      ensures found ==> forall m :: Names(s.tree, old(Now()).slots[k].inum, name, m) ==>
                (r.None? <==> NoSlotFor(s, old(Now()).slots[k].inum, m))
      ensures found && r.Some? ==> At(s, Now(), r.value) && 0 <= r.value < |Now().slots|
                                   && Names(s.tree, old(Now()).slots[k].inum, name, Now().slots[r.value].inum)
      ensures !found ==> Released(s, Now()) && forall m :: !Names(s.tree, old(Now()).slots[k].inum, name, m)
    {
      hide *;
      ghost var s1 := Now();
      AtParts(s, s1, k);
      SlotRange(s1, k);
      PutLinked(s1, k);
      var i := InumOf(k);
      var next := Lookup(i, name);
      if next.None? {
        GiveUp(k, s);
        return None, false;
      }
      TreeOk(s1);
      NamedLinked(s.tree, i, name, next.value);
      OnlyNamed(s.tree, i, name, next.value);
      SlotNeeded(s, s1, k, next.value);
      r := Iget(next.value);
      found := true;
      if r.Some? {
        ghost var s2 := Now();
        GotSlots(s1, next.value, r.value, k);
        PutSlots(s2, k, r.value);
        PutLinked(s2, k);
        Iput(k);
        MovedTo(s, s1, s2, Now(), k, r.value);
      }
    }

    method InumOf(k: int) returns (i: int)
      requires 0 <= k < |Now().slots|
      ensures i == Now().slots[k].inum
    {
      i := slots[k].inum;
    }

    method IsDir(i: int) returns (b: bool)
      requires 0 <= i < |Now().tree.inodes|
      ensures b <==> Now().tree.inodes[i].kind == DIR
    {
      b := inodes[i].kind == DIR;
    }

    /** ilock, and the type check. */
    method Enter(k: int, ghost s: State) returns (i: int, dir: bool)
      requires At(s, Now(), k) && 0 <= k < |Now().slots|
      modifies this`slots
      ensures At(s, Now(), k) && 0 <= k < |Now().slots| && i == Now().slots[k].inum == old(Now()).slots[k].inum
      ensures 0 < i < |s.tree.inodes| && (dir <==> s.tree.inodes[i].kind == DIR) && (dir ==> Live(s.tree, i))
    {
      hide *;
      AtParts(s, Now(), k);
      LockedAt(s, Now(), k);
      var _ := Ilock(k);
      AtParts(s, Now(), k);
      i := InumOf(k);
      dir := IsDir(i);
      if dir {
        LiveDir(s.tree, i);
      }
    }

    /** iunlockput on the way out. */
    method GiveUp(k: int, ghost s: State)
      requires At(s, Now(), k)
      modifies this`slots, this`refs, this`inodes, this`going, this`doomed, this`freed
      ensures Released(s, Now()) && Good(Now())
    {
      hide *;
      ghost var s1 := Now();
      AtParts(s, s1, k);
      PutLinked(s1, k);
      Iput(k);
      ReleasedIs(s, s1, Now(), s1.slots[k].inum);
    }

    /** The reference that namex starts with. */
    method StartAt(cwd: Option<int>) returns (k: Option<int>)
      requires Good(Now()) && StartOk(Now(), cwd)
      modifies this`slots, this`refs, this`inodes, this`going, this`doomed, this`freed
      ensures Good(Now())
      ensures k.Some? ==> At(old(Now()), Now(), k.value) && Now().slots[k.value].inum == Start(old(Now()), cwd)
      ensures k.None? <==> NoSlotAtStart(old(Now()), cwd)
    {
      hide *;
      ghost var s := Now();
      TreeOk(s);
      StartFacts(s, cwd);
      RootNeeded(s, cwd);
      if cwd.Some? {
        SlotRange(s, cwd.value);
        Idup(cwd.value);
        GotSlots(s, Start(s, cwd), cwd.value, cwd.value);
        GotAt(s, Start(s, cwd), cwd.value, Now());
        return cwd;
      }
      k := Iget(ROOT);
      if k.Some? {
        GotSlots(s, ROOT, k.value, k.value);
        GotAt(s, ROOT, k.value, Now());
      }
    }

    /** namex, given the elements of the path; cwd is the slot to start from (None: the root).
        The caller gets exactly one reference, to the inode that the names lead to (all of them,
        or for nameiparent all but the last, which must be a directory); or none if they lead
        nowhere. panicked is "iget: no inodes": it happens if and only if at the start, or at some
        prefix of the path, the next inode is in no slot and no slot is free. */
    method Namex(cwd: Option<int>, names: seq<string>, parent: bool) returns (r: Option<int>, panicked: bool)
      requires Good(Now()) && StartOk(Now(), cwd)
      modifies this`slots, this`refs, this`inodes, this`going, this`doomed, this`freed
      ensures Good(Now())
      ensures panicked <==>
        NoSlotAtStart(old(Now()), cwd) || RunsShort(old(Now()), Start(old(Now()), cwd), names, parent)
      ensures Idle(old(Now())) >= 2 ==> !panicked
      ensures !panicked && r.Some? ==> At(old(Now()), Now(), r.value)
      ensures !panicked && r.Some? ==>
        Reached(old(Now()).tree, Start(old(Now()), cwd), names, parent, Now().slots[r.value].inum)
      ensures !panicked && r.None? ==> Released(old(Now()), Now())
      ensures !panicked && r.None? ==> forall t :: !Reached(old(Now()).tree, Start(old(Now()), cwd), names, parent, t)
    {
      hide *;
      ghost var s := Now();
      ghost var start := Start(s, cwd);
      TreeOk(s);
      StartFacts(s, cwd);
      TwoAreEnough(s, cwd, names, parent);
      var at := StartAt(cwd);
      if at.None? {
        return None, true;
      }
      var k := at.value;
      AtParts(s, Now(), k);
      var n := if parent && |names| > 0 then |names| - 1 else |names|;
      WalkingStart(s.tree, start, names, n);
      ShortStart(s, start, names);
      var j := 0;
      while j < |names|
        invariant At(s, Now(), k) && 0 <= j <= n && 0 <= k < |Now().slots|
        invariant Walking(s.tree, start, names, j, n, Now().slots[k].inum)
        invariant Leads(s.tree, start, names, 0, j, Now().slots[k].inum) && EnoughUpTo(s, start, names, j)
      {
        var i, dir := Enter(k, s);
        if !dir {
          NowhereFrom(s.tree, start, names, j, n, i, parent);
          ShortNowhere(s, start, names, j, i, parent);
          GiveUp(k, s);
          return None, false;
        }
        if parent && j == |names| - 1 {
          ReachedParent(s.tree, start, names, j, i);
          AtParts(s, Now(), k);
          ShortNever(s, start, names, j, parent);
          return Some(k), false;
        }
        var next, found := Descend(k, names[j], s);
        if !found {
          NoSuchName(s.tree, start, names, j, n, i, parent);
          ShortNoName(s, start, names, j, i, parent);
          return None, false;
        }
        if next.None? {
          ShortHere(s, start, names, j, i, parent);
          return None, true;
        }
        AtParts(s, Now(), next.value);
        WalkingNext(s.tree, start, names, j, n, i, Now().slots[next.value].inum);
        EnoughNext(s, start, names, j, i, Now().slots[next.value].inum);
        k := next.value;
        j := j + 1;
      }
      ShortNever(s, start, names, j, parent);
      if parent {
        NoParent(s.tree, start, names);
        GiveUp(k, s);
        return None, false;
      }
      AtParts(s, Now(), k);
      ReachedAll(s.tree, start, names, Now().slots[k].inum);
      return Some(k), false;
    }
  }

  // ---- What namex has ----------------------------------------------------------------------------

  /** Besides what s had there is one more reference, in slot k, to an inode with a link. */
  ghost predicate At(s: State, now: State, k: int) {
    && Good(now) && now.tree == s.tree && 0 <= k < |now.slots| == |s.slots| && now.slots[k].ref > 0
    && now.refs == s.refs + multiset{now.slots[k].inum}
    && 0 < now.slots[k].inum < |s.tree.inodes| && s.tree.inodes[now.slots[k].inum].nlink > 0
  }

  /** No reference is left over. */
  ghost predicate Released(s: State, now: State) {
    Good(now) && now.tree == s.tree && now.refs == s.refs
  }

  ghost predicate StartOk(s: State, cwd: Option<int>) {
    cwd.Some? ==> 0 <= cwd.value < |s.slots| && s.slots[cwd.value].ref > 0 && Live(s.tree, s.slots[cwd.value].inum)
  }

  ghost function Start(s: State, cwd: Option<int>): int
    requires StartOk(s, cwd)
  {
    if cwd.Some? then s.slots[cwd.value].inum else ROOT
  }

  /** namei and nameiparent: t is what the path names. */
  ghost predicate Reached(s: Tree, start: int, names: seq<string>, parent: bool, t: int) {
    if !parent then Leads(s, start, names, 0, |names|, t)
    else |names| > 0 && Leads(s, start, names, 0, |names| - 1, t) && 0 <= t < |s.inodes| && s.inodes[t].kind == DIR
  }

  lemma AtParts(s: State, now: State, k: int)
    requires At(s, now, k)
    ensures Good(now) && now.tree == s.tree && 0 <= k < |now.slots| == |s.slots| && now.slots[k].ref > 0
    ensures 0 < now.slots[k].inum < |s.tree.inodes| && s.tree.inodes[now.slots[k].inum].nlink > 0
    ensures now.refs == s.refs + multiset{now.slots[k].inum}
  {
  }

  lemma StartFacts(s: State, cwd: Option<int>)
    requires Inv(s.tree) && Live(s.tree, ROOT) && StartOk(s, cwd)
    ensures cwd.Some? ==> 0 <= cwd.value < |s.slots| && s.slots[cwd.value].ref > 0
                          && Start(s, cwd) == s.slots[cwd.value].inum
    ensures cwd.None? ==> Start(s, cwd) == ROOT
    ensures 0 < Start(s, cwd) < |s.tree.inodes| && s.tree.inodes[Start(s, cwd)].nlink > 0
  {
  }

  lemma GotAt(s: State, i: int, k: int, now: State)
    requires MayGet(s, i, k) && now == Got(s, i, k) && Good(now) && 0 < i < |s.tree.inodes|
    requires s.tree.inodes[i].nlink > 0
    requires 0 <= k < |now.slots| && now.slots[k].ref > 0 && now.slots[k].inum == i
    ensures At(s, now, k)
  {
  }

  lemma LockedAt(s: State, now: State, k: int)
    requires At(s, now, k) && 0 <= k < |now.slots|
    ensures Good(Locked(now, k)) ==> At(s, Locked(now, k), k)
    ensures Locked(now, k).slots[k].inum == now.slots[k].inum
  {
  }

  lemma ReleasedIs(s: State, s1: State, now: State, i: int)
    requires s1.tree == s.tree && s1.refs == s.refs + multiset{i} && Good(now) && now.tree == s1.tree
    requires now.refs == s1.refs - multiset{i}
    ensures Released(s, now)
  {
  }

  lemma LiveDir(s: Tree, i: int)
    requires 0 < i < |s.inodes| && s.inodes[i].nlink > 0 && s.inodes[i].kind == DIR
    ensures Live(s, i)
  {
  }

  lemma MovedTo(s: State, s1: State, s2: State, now: State, k: int, n: int)
    requires At(s, s1, k) && 0 <= k < |s2.slots| && 0 <= n < |s2.slots| && s2.slots[k].inum == s1.slots[k].inum
    requires s2.tree == s1.tree && s2.refs == s1.refs + multiset{s2.slots[n].inum}
    requires 0 < s2.slots[n].inum < |s.tree.inodes| && s.tree.inodes[s2.slots[n].inum].nlink > 0
    requires Good(now) && now.tree == s2.tree && now.refs == s2.refs - multiset{s2.slots[k].inum}
    requires n < |now.slots| == |s1.slots| && now.slots[n].inum == s2.slots[n].inum && now.slots[n].ref > 0
    ensures At(s, now, n)
  {
  }

  lemma SlotRange(s: State, k: int)
    requires Good(s) && 0 <= k < |s.slots| && s.slots[k].ref > 0
    ensures 0 < s.slots[k].inum < |s.tree.inodes| && s.refs[s.slots[k].inum] == s.slots[k].ref && InRange(s, k)
  {
    assert SlotOk(s, k);
  }

  lemma PutEntries(s: State, k: int)
    requires InRange(s, k)
    ensures var v, last, s' := s.slots[k], LastRef(s, k), PutBack(s, k);
      && s'.slots == s.slots[k := Slot(v.inum, v.ref - 1, v.valid && !last)]
      && s'.tree.inodes == (if last then s.tree.inodes[v.inum := Inode(FREE, 0, [])] else s.tree.inodes)
      && s'.refs == s.refs - multiset{v.inum}
  {
  }

  /** The steps of an iput with nobody in between. */
  lemma PutReady(s: State, k: int)
    requires Good(s) && InRange(s, k)
    ensures Sound(s) && Usable(s, k) && InRange(Tested(s, k), k)
    ensures LastRef(s, k) ==> Tested(s, k).slots[k].inum in Tested(s, k).doomed
    ensures var s1 := Tested(s, k); var s2 := if LastRef(s, k) then Freed(s1, k) else s1;
      InRange(s2, k) && MayLower(s2, k) && Lowered(s2, k) == PutBack(s, k)
  {
    assert SlotOk(s, k);
    PutInSteps(s, k);
  }

  lemma TreeOk(s: State)
    requires Good(s)
    ensures Inv(s.tree) && Live(s.tree, ROOT)
  {
  }

  /** iget leaves the other slots alone. */
  lemma GotSlots(s: State, i: int, n: int, k: int)
    requires MayGet(s, i, n)
    ensures 0 <= n < |Got(s, i, n).slots| == |s.slots| && Got(s, i, n).slots[n].ref > 0
    ensures Got(s, i, n).slots[n].inum == i
    ensures 0 <= k < |s.slots| && s.slots[k].ref > 0 ==>
              Got(s, i, n).slots[k].ref > 0 && Got(s, i, n).slots[k].inum == s.slots[k].inum
    ensures 0 <= k < |s.slots| && s.slots[k].ref > 0 && n == k ==> Got(s, i, n).slots[k].ref > 1
    ensures Got(s, i, n).tree == s.tree && Got(s, i, n).refs == s.refs + multiset{i}
  {
  }

  lemma PutSlots(s: State, k: int, n: int)
    requires InRange(s, k) && 0 <= n < |s.slots|
    requires s.slots[n].ref > 0 && (n == k ==> s.slots[n].ref > 1)
    ensures n < |PutBack(s, k).slots| == |s.slots| && PutBack(s, k).slots[n].ref > 0
    ensures PutBack(s, k).slots[n].inum == s.slots[n].inum
  {
  }

  /** iput of an inode with a link only drops the reference. */
  lemma PutLinked(s: State, k: int)
    requires InRange(s, k) && s.tree.inodes[s.slots[k].inum].nlink > 0
    ensures PutBack(s, k).tree == s.tree && PutBack(s, k).refs == s.refs - multiset{s.slots[k].inum}
  {
  }

  // ---- Where the names lead ----------------------------------------------------------------------

  lemma WalkingStart(s: Tree, start: int, names: seq<string>, n: nat)
    requires n <= |names|
    ensures Walking(s, start, names, 0, n, start)
  {
  }

  lemma ReachedAll(s: Tree, start: int, names: seq<string>, i: int)
    requires Walking(s, start, names, |names|, |names|, i)
    ensures Reached(s, start, names, false, i)
  {
    assert Leads(s, i, names, |names|, |names|, i);
  }

  lemma ReachedParent(s: Tree, start: int, names: seq<string>, j: nat, i: int)
    requires |names| > 0 && j == |names| - 1 && Walking(s, start, names, j, j, i) && 0 <= i < |s.inodes|
    requires s.inodes[i].kind == DIR
    ensures Reached(s, start, names, true, i)
  {
    assert Leads(s, i, names, j, j, i);
  }

  lemma NoParent(s: Tree, start: int, names: seq<string>)
    requires names == []
    ensures forall t :: !Reached(s, start, names, true, t)
  {
  }

  /** A name on the way is not a directory. */
  lemma NowhereFrom(s: Tree, start: int, names: seq<string>, j: nat, n: nat, i: int, parent: bool)
    requires j <= n <= |names| && j < |names| && n == (if parent then |names| - 1 else |names|)
    requires Walking(s, start, names, j, n, i) && 0 <= i < |s.inodes| && s.inodes[i].kind != DIR
    ensures forall t :: !Reached(s, start, names, parent, t)
  {
    forall t
      ensures !Reached(s, start, names, parent, t)
    {
      assert Leads(s, start, names, 0, n, t) <==> Leads(s, i, names, j, n, t);
    }
  }

  /** A name on the way is not there. */
  lemma NoSuchName(s: Tree, start: int, names: seq<string>, j: nat, n: nat, i: int, parent: bool)
    requires j < n <= |names| && n == (if parent then |names| - 1 else |names|)
    requires Walking(s, start, names, j, n, i) && forall m :: !Names(s, i, names[j], m)
    ensures forall t :: !Reached(s, start, names, parent, t)
  {
    forall t
      ensures !Reached(s, start, names, parent, t)
    {
      assert Leads(s, start, names, 0, n, t) <==> Leads(s, i, names, j, n, t);
    }
  }

  // ---- Free slots --------------------------------------------------------------------------------

  /** The free ones among the first n slots. */
  function FreeBelow(slots: seq<Slot>, n: nat): nat
    requires n <= |slots|
  {
    if n == 0 then 0 else FreeBelow(slots, n - 1) + if slots[n - 1].ref == 0 then 1 else 0
  }

  function Idle(s: State): nat {
    FreeBelow(s.slots, |s.slots|)
  }

  ghost predicate InCache(s: State, i: int) {
    exists k :: Caches(s, k, i)
  }

  /** With the reference to cur that namex holds besides those of s, iget has no slot for next. */
  ghost predicate NoSlotFor(s: State, cur: int, next: int) {
    next != cur && !InCache(s, next) && Idle(s) <= if InCache(s, cur) then 0 else 1
  }

  ghost predicate NoSlotAtStart(s: State, cwd: Option<int>) {
    cwd.None? && !InCache(s, ROOT) && Idle(s) == 0
  }

  /** The first j names lead from start to the directory cur, where the next one names next, and there
      is no slot for that. */
  ghost predicate ShortAt(s: State, start: int, names: seq<string>, j: nat, cur: int, next: int) {
    && j < |names| && Leads(s.tree, start, names, 0, j, cur)
    && 0 <= cur < |s.tree.inodes| && s.tree.inodes[cur].kind == DIR && Names(s.tree, cur, names[j], next)
    && NoSlotFor(s, cur, next)
  }

  /** nameiparent does not look up the last name. */
  ghost predicate RunsShort(s: State, start: int, names: seq<string>, parent: bool) {
    exists j: nat, cur, next :: ShortAt(s, start, names, j, cur, next) && (parent ==> j + 1 < |names|)
  }

  ghost predicate EnoughUpTo(s: State, start: int, names: seq<string>, j: nat) {
    forall m: nat, cur, next :: m < j ==> !ShortAt(s, start, names, m, cur, next)
  }

  lemma TwoAreEnough(s: State, cwd: Option<int>, names: seq<string>, parent: bool)
    requires StartOk(s, cwd)
    ensures Idle(s) >= 2 ==> !NoSlotAtStart(s, cwd) && !RunsShort(s, Start(s, cwd), names, parent)
  {
  }

  lemma ShortStart(s: State, start: int, names: seq<string>)
    ensures Leads(s.tree, start, names, 0, 0, start) && EnoughUpTo(s, start, names, 0)
  {
  }

  lemma ShortNever(s: State, start: int, names: seq<string>, j: nat, parent: bool)
    requires EnoughUpTo(s, start, names, j) && j <= |names| && (if parent then j + 1 >= |names| else j >= |names|)
    ensures !RunsShort(s, start, names, parent)
  {
  }

  lemma ShortHere(s: State, start: int, names: seq<string>, j: nat, cur: int, parent: bool)
    requires j < |names| && (parent ==> j + 1 < |names|) && Leads(s.tree, start, names, 0, j, cur)
    requires 0 <= cur < |s.tree.inodes| && s.tree.inodes[cur].kind == DIR
    requires exists m :: Names(s.tree, cur, names[j], m)
    requires forall m :: Names(s.tree, cur, names[j], m) ==> NoSlotFor(s, cur, m)
    ensures RunsShort(s, start, names, parent)
  {
    var m :| Names(s.tree, cur, names[j], m);
    assert ShortAt(s, start, names, j, cur, m);
  }

  /** Names lead to one inode only. */
  lemma {:induction false} LeadsOne(s: Tree, i: int, names: seq<string>, j: nat, n: nat, a: int, b: int)
    requires Inv(s) && j <= n <= |names| && 0 < i < |s.inodes| && s.inodes[i].nlink > 0
    requires Leads(s, i, names, j, n, a) && Leads(s, i, names, j, n, b)
    ensures a == b
    decreases n - j
  {
    hide Inv;
    if j < n {
      var x :| Names(s, i, names[j], x) && Leads(s, x, names, j + 1, n, a);
      var y :| Names(s, i, names[j], y) && Leads(s, y, names, j + 1, n, b);
      OneNamed(s, i, names[j], x, y);
      NamedLinked(s, i, names[j], x);
      LeadsOne(s, x, names, j + 1, n, a, b);
    }
  }

  lemma {:induction false} LeadsOn(s: Tree, i: int, names: seq<string>, j: nat, n: nat, t: int, m: int)
    requires j <= n < |names| && Leads(s, i, names, j, n, t)
    requires 0 <= t < |s.inodes| && s.inodes[t].kind == DIR && Names(s, t, names[n], m)
    ensures Leads(s, i, names, j, n + 1, m)
    decreases n - j
  {
    if j < n {
      var x :| Names(s, i, names[j], x) && Leads(s, x, names, j + 1, n, t);
      LeadsOn(s, x, names, j + 1, n, t, m);
    } else {
      assert Leads(s, m, names, n + 1, n + 1, m);
    }
  }

  /** The way to a place further on leads through the places before it. */
  lemma {:induction false} LeadsThrough(s: Tree, i: int, names: seq<string>, j: nat, k: nat, n: nat, t: int)
    returns (m: int)
    requires j <= k < n <= |names| && Leads(s, i, names, j, n, t)
    ensures Leads(s, i, names, j, k, m) && 0 <= m < |s.inodes| && s.inodes[m].kind == DIR
    ensures exists x :: Names(s, m, names[k], x)
    decreases k - j
  {
    if j < k {
      var x :| Names(s, i, names[j], x) && Leads(s, x, names, j + 1, n, t);
      m := LeadsThrough(s, x, names, j + 1, k, n, t);
    } else {
      m := i;
    }
  }

  lemma EnoughNext(s: State, start: int, names: seq<string>, j: nat, cur: int, next: int)
    requires Inv(s.tree) && 0 < start < |s.tree.inodes| && s.tree.inodes[start].nlink > 0 && j < |names|
    requires EnoughUpTo(s, start, names, j) && Leads(s.tree, start, names, 0, j, cur)
    requires 0 <= cur < |s.tree.inodes| && s.tree.inodes[cur].kind == DIR && Names(s.tree, cur, names[j], next)
    requires forall m :: Names(s.tree, cur, names[j], m) ==> !NoSlotFor(s, cur, m)
    ensures EnoughUpTo(s, start, names, j + 1) && Leads(s.tree, start, names, 0, j + 1, next)
  {
    LeadsOn(s.tree, start, names, 0, j, cur, next);
    forall m: nat, c, x | m < j + 1
      ensures !ShortAt(s, start, names, m, c, x)
    {
      if m == j && ShortAt(s, start, names, m, c, x) {
        LeadsOne(s.tree, start, names, 0, j, c, cur);
      }
    }
  }

  /** Where the way ends nothing further on runs short. */
  lemma ShortEnds(s: State, start: int, names: seq<string>, j: nat, cur: int, parent: bool)
    requires Inv(s.tree) && 0 < start < |s.tree.inodes| && s.tree.inodes[start].nlink > 0 && j < |names|
    requires EnoughUpTo(s, start, names, j) && Leads(s.tree, start, names, 0, j, cur)
    requires (0 <= cur < |s.tree.inodes| && s.tree.inodes[cur].kind == DIR) ==>
               forall m :: !Names(s.tree, cur, names[j], m)
    ensures !RunsShort(s, start, names, parent)
  {
    forall m: nat, c, x
      ensures !ShortAt(s, start, names, m, c, x)
    {
      if m >= j && ShortAt(s, start, names, m, c, x) {
        if m == j {
          LeadsOne(s.tree, start, names, 0, j, c, cur);
        } else {
          var y := LeadsThrough(s.tree, start, names, 0, j, m, c);
          LeadsOne(s.tree, start, names, 0, j, y, cur);
        }
        assert false;
      }
    }
  }

  lemma ShortNowhere(s: State, start: int, names: seq<string>, j: nat, cur: int, parent: bool)
    requires Inv(s.tree) && 0 < start < |s.tree.inodes| && s.tree.inodes[start].nlink > 0 && j < |names|
    requires EnoughUpTo(s, start, names, j) && Leads(s.tree, start, names, 0, j, cur)
    requires 0 <= cur < |s.tree.inodes| && s.tree.inodes[cur].kind != DIR
    ensures !RunsShort(s, start, names, parent)
  {
    hide *;
    ShortEnds(s, start, names, j, cur, parent);
  }

  lemma ShortNoName(s: State, start: int, names: seq<string>, j: nat, cur: int, parent: bool)
    requires Inv(s.tree) && 0 < start < |s.tree.inodes| && s.tree.inodes[start].nlink > 0 && j < |names|
    requires EnoughUpTo(s, start, names, j) && Leads(s.tree, start, names, 0, j, cur)
    requires forall m :: !Names(s.tree, cur, names[j], m)
    ensures !RunsShort(s, start, names, parent)
  {
    hide *;
    ShortEnds(s, start, names, j, cur, parent);
  }

  lemma OnlyNamed(s: Tree, d: int, name: string, i: int)
    requires Inv(s) && Live(s, d) && Names(s, d, name, i)
    ensures forall m :: Names(s, d, name, m) ==> m == i
  {
    hide *;
    forall m | Names(s, d, name, m)
      ensures m == i
    {
      OneNamed(s, d, name, m, i);
    }
  }

  // ---- Slots and references ----------------------------------------------------------------------

  ghost function Referred(refs: multiset<int>): set<int> {
    set i | i in refs
  }

  lemma InCacheIff(s: State, i: int)
    requires Good(s)
    ensures InCache(s, i) <==> s.refs[i] > 0
  {
    hide Inv;
    assert HasSlot(s, i);
    if k :| Caches(s, k, i) {
      assert SlotOk(s, k);
    }
  }

  ghost function InumsBelow(slots: seq<Slot>, n: nat): set<int>
    requires n <= |slots|
  {
    if n == 0 then {} else InumsBelow(slots, n - 1) + if slots[n - 1].ref == 0 then {} else {slots[n - 1].inum}
  }

  predicate HasBelow(slots: seq<Slot>, n: nat, i: int)
    requires n <= |slots|
  {
    exists k :: 0 <= k < n && slots[k].ref != 0 && slots[k].inum == i
  }

  lemma {:induction false} InumsIff(slots: seq<Slot>, n: nat, i: int)
    requires n <= |slots|
    ensures i in InumsBelow(slots, n) <==> HasBelow(slots, n, i)
  {
    if n > 0 {
      InumsIff(slots, n - 1, i);
    }
  }

  lemma {:induction false} SlotsCounted(s: State, n: nat)
    requires CacheOk(s) && n <= |s.slots|
    ensures FreeBelow(s.slots, n) + |InumsBelow(s.slots, n)| == n
  {
    if n > 0 {
      SlotsCounted(s, n - 1);
      if s.slots[n - 1].ref != 0 {
        NotBelow(s, n - 1);
        InumsIff(s.slots, n - 1, s.slots[n - 1].inum);
      }
    }
  }

  lemma NotBelow(s: State, n: nat)
    requires CacheOk(s) && n < |s.slots| && s.slots[n].ref != 0
    ensures !HasBelow(s.slots, n, s.slots[n].inum)
  {
    forall k | 0 <= k < n && s.slots[k].ref != 0
      ensures s.slots[k].inum != s.slots[n].inum
    {
      assert SlotOk(s, k) && SlotOk(s, n) && OneSlot(s, k, n);
    }
  }

  /** Every slot is free or has one of the inodes that are referred to. */
  lemma IdleCount(s: State)
    requires Good(s)
    ensures Idle(s) + |Referred(s.refs)| == |s.slots|
  {
    hide Inv;
    var n := |s.slots|;
    SlotsCounted(s, n);
    forall i
      ensures i in InumsBelow(s.slots, n) <==> i in Referred(s.refs)
    {
      InCacheIff(s, i);
      InumsIff(s.slots, n, i);
      if i in Referred(s.refs) {
        var k :| Caches(s, k, i);
      }
      if k :| 0 <= k < n && s.slots[k].ref != 0 && s.slots[k].inum == i {
        assert SlotOk(s, k);
        assert Caches(s, k, i);
      }
    }
    assert InumsBelow(s.slots, n) == Referred(s.refs);
  }

  lemma OneMoreReferred(refs: multiset<int>, i: int)
    ensures |Referred(refs + multiset{i})| == |Referred(refs)| + if refs[i] > 0 then 0 else 1
  {
    if refs[i] > 0 {
      assert Referred(refs + multiset{i}) == Referred(refs);
    } else {
      assert Referred(refs + multiset{i}) == Referred(refs) + {i};
    }
  }

  lemma {:induction false} NoIdle(slots: seq<Slot>, n: nat)
    requires n <= |slots|
    ensures FreeBelow(slots, n) == 0 <==> forall k :: 0 <= k < n ==> slots[k].ref != 0
  {
    if n > 0 {
      NoIdle(slots, n - 1);
    }
  }

  lemma GetFails(s: State, i: int)
    ensures (forall k :: 0 <= k < |s.slots| ==> s.slots[k].ref != 0 && !Caches(s, k, i))
            <==> Idle(s) == 0 && !InCache(s, i)
  {
    NoIdle(s.slots, |s.slots|);
    if !InCache(s, i) {
      assert forall k :: !Caches(s, k, i);
    } else {
      var k :| Caches(s, k, i);
    }
  }

  lemma RootNeeded(s: State, cwd: Option<int>)
    ensures cwd.Some? ==> !NoSlotAtStart(s, cwd)
    ensures cwd.None? ==>
      ((forall k :: 0 <= k < |s.slots| ==> s.slots[k].ref != 0 && !Caches(s, k, ROOT)) <==> NoSlotAtStart(s, cwd))
  {
    GetFails(s, ROOT);
  }

  /** iget fails in now, where namex is at cur, if and only if s says so. */
  lemma SlotNeeded(s: State, now: State, k: int, next: int)
    requires Good(s) && At(s, now, k)
    ensures 0 <= k < |now.slots|
    ensures (forall j :: 0 <= j < |now.slots| ==> now.slots[j].ref != 0 && !Caches(now, j, next))
            <==> NoSlotFor(s, now.slots[k].inum, next)
  {
    hide Inv;
    hide CacheOk;
    var cur := now.slots[k].inum;
    GetFails(now, next);
    IdleCount(s);
    IdleCount(now);
    OneMoreReferred(s.refs, cur);
    InCacheIff(s, cur);
    InCacheIff(s, next);
    InCacheIff(now, next);
  }
}
