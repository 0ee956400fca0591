/** The loops and calls over directories in fs.c and sysfile.c. */
module Directories {
  import opened LinkModel
  import opened Wrappers

  /** dirlookup: the first entry in use with the name. */
  method DirLookup(inodes: seq<Inode>, d: int, name: string) returns (r: Option<int>)
    requires 0 <= d < |inodes|
    ensures r.Some? ==> 0 <= r.value < |inodes[d].ents| && inodes[d].ents[r.value].inum != 0
                        && inodes[d].ents[r.value].name == name
    ensures r.Some? ==> forall m :: 0 <= m < r.value ==> inodes[d].ents[m].inum == 0 || inodes[d].ents[m].name != name
    ensures r.None? <==> forall m :: 0 <= m < |inodes[d].ents| ==>
                           inodes[d].ents[m].inum == 0 || inodes[d].ents[m].name != name
  {
    var k := 0;
    while k < |inodes[d].ents|
      invariant 0 <= k <= |inodes[d].ents|
      invariant forall m :: 0 <= m < k ==> inodes[d].ents[m].inum == 0 || inodes[d].ents[m].name != name
    {
      if inodes[d].ents[k].inum != 0 && inodes[d].ents[k].name == name {
        return Some(k);
      }
      k := k + 1;
    }
    return None;
  }

  /** The entries of 16 bytes that MAXFILE blocks of BSIZE bytes hold. */
  const MAXENTS: int := 140 * 512 / 16

  predicate NoneFree(inodes: seq<Inode>) {
    forall j :: 0 < j < |inodes| ==> inodes[j].kind != FREE
  }

  /** A directory that cannot take another entry. */
  predicate Full(s: Tree, d: int) {
    && 0 <= d < |s.inodes| && |s.inodes[d].ents| >= MAXENTS
    && forall m :: 0 <= m < |s.inodes[d].ents| ==> s.inodes[d].ents[m].inum != 0
  }

  class FileTree {
    var inodes: seq<Inode>
    ghost var pending: multiset<int>

    ghost function State(): Tree
      reads this
    {
      Tree(inodes, pending)
    }

    constructor (inodes: seq<Inode>)
      ensures State() == Tree(inodes, multiset{})
    {
      this.inodes, this.pending := inodes, multiset{};
    }

    /** dirlink: refused if the name is there, else into the first unused entry or at the end. Panics
        when writei refuses to make the directory longer. */
    method DirLink(d: int, name: string, i: int) returns (r: Option<int>, panicked: bool)
      requires 0 <= d < |inodes|
      modifies this`inodes
      ensures panicked <==> !HasName(old(State()), d, name) && Full(old(State()), d)
      ensures r.None? <==> HasName(old(State()), d, name) || panicked
      ensures r.None? ==> inodes == old(inodes)
      ensures r.Some? ==>
        && !HasName(old(State()), d, name) && FreeSlot(old(State()), d, r.value)
        && inodes == old(inodes)[d := SetEnt(old(inodes)[d], r.value, Dirent(i, name))]
        && (forall m :: 0 <= m < r.value ==> old(inodes)[d].ents[m].inum != 0)
    {
      var there := DirLookup(inodes, d, name);
      if there.Some? {
        return None, false;
      }
      var k := 0;
      while k < |inodes[d].ents|
        invariant 0 <= k <= |inodes[d].ents| && inodes == old(inodes)
        invariant forall m :: 0 <= m < k ==> inodes[d].ents[m].inum != 0
      {
        if inodes[d].ents[k].inum == 0 {
          break;
        }
        k := k + 1;
      }
      if k == |inodes[d].ents| && k >= MAXENTS {
        return None, true;
      }
      inodes := inodes[d := SetEnt(inodes[d], k, Dirent(i, name))];
      return Some(k), false;
    }

    method IsDirEmpty(i: int) returns (b: bool)
      requires 0 <= i < |inodes|
      ensures b <==> IsEmpty(State(), i)
    {
      var k := 2;
      while k < |inodes[i].ents|
        invariant 2 <= k && forall m :: 2 <= m < k && m < |inodes[i].ents| ==> inodes[i].ents[m].inum == 0
      {
        if inodes[i].ents[k].inum != 0 {
          return false;
        }
        k := k + 1;
      }
      return true;
    }

    /** sys_link of i under the name in d (None: nameiparent found no directory). When it fails,
        the count is as before; when it succeeds, the counts are right if and only if nobody has
        removed the directory, which sys_link does not check. Panics when the directory is full. */
    method Link(i: int, dir: Option<int>, name: string) returns (r: int, panicked: bool)
      requires Inv(State()) && 0 < i < |State().inodes| && State().inodes[i].kind != FREE
      requires dir.Some? ==> IsDirectory(State(), dir.value)
      modifies this
      ensures panicked <==> old(inodes)[i].kind != DIR && dir.Some? && !HasName(old(State()), dir.value, name)
                            && Full(old(State()), dir.value)
      ensures !panicked ==> pending == old(pending)
      ensures !panicked ==>
        (r == 0 <==> old(inodes)[i].kind != DIR && dir.Some? && !HasName(old(State()), dir.value, name))
      ensures panicked ==> r == -1 && State() == LinkBegin(old(State()), i)
      ensures r == 0 ==> (Inv(State()) <==> Live(old(State()), dir.value))
      ensures r == 0 ==> exists k :: FreeSlot(LinkBegin(old(State()), i), dir.value, k)
                                     && State() == LinkDone(LinkBegin(old(State()), i), dir.value, k, name, i)
      ensures r == 0 ==> inodes[i].nlink == old(inodes)[i].nlink + 1
                         && exists k :: OneEntry(old(State()), State(), dir.value, k, Dirent(i, name))
      ensures r != 0 ==> r == -1 && (!panicked ==> inodes == old(inodes))
    {
      hide *;
      ghost var s := State();
      Fields();
      if inodes[i].kind == DIR {
        return -1, false;
      }
      FileNow(s, i);
      RaiseCount(i);
      Fields();
      ghost var s1 := State();
      BegunHere(s, i);
      if dir.Some? {
        LinkSameDirs(s, i, dir.value, name);
        var k, stop := EnterLink(dir.value, name, i);
        Fields();
        if stop {
          return -1, true;
        }
        if k.Some? {
          BackAgain(old(pending), i);
          SlotBefore(s, i, dir.value, k.value);
          LinkIffLive(s, i, dir.value, k.value, name);
          LinkEntered(s, i, dir.value, k.value, name);
          return 0, false;
        }
      }
      LowerCount(i);
      Fields();
      UndoneIs(s, i);
      return -1, false;
    }

    lemma Fields()
      ensures State() == Tree(inodes, pending)
    {
    }

    method RaiseCount(i: int)
      requires 0 <= i < |State().inodes|
      modifies this
      ensures State() == LinkBegin(old(State()), i)
    {
      inodes := inodes[i := AddLink(inodes[i], 1)];
      pending := pending + multiset{i};
    }

    method LowerCount(i: int)
      requires 0 <= i < |State().inodes|
      modifies this
      ensures State() == LinkUndo(old(State()), i)
    {
      inodes := inodes[i := AddLink(inodes[i], -1)];
      pending := pending - multiset{i};
    }

    /** The dirlink in sys_link. */
    method EnterLink(d: int, name: string, i: int) returns (k: Option<int>, panicked: bool)
      requires 0 <= d < |State().inodes|
      modifies this
      ensures panicked <==> !HasName(old(State()), d, name) && Full(old(State()), d)
      ensures k.Some? <==> !HasName(old(State()), d, name) && !panicked
      ensures k.Some? ==> FreeSlot(old(State()), d, k.value) && State() == LinkDone(old(State()), d, k.value, name, i)
      ensures k.Some? ==> pending == old(pending) - multiset{i}
      ensures k.None? ==> State() == old(State())
    {
      k, panicked := DirLink(d, name, i);
      if k.Some? {
        pending := pending - multiset{i};
      }
    }

    /** sys_unlink of the name in d. panicked is "unlink: nlink < 1": the inode has no link, which
        happens only in a directory that has been removed. What is left has the right counts if
        and only if d had not been removed, or nothing was done. */
    method UnlinkName(d: int, name: string) returns (r: int, panicked: bool)
      requires Inv(State()) && IsDirectory(State(), d)
      modifies this`inodes
      ensures panicked ==> !Live(old(State()), d) && inodes == old(inodes)
      ensures !panicked ==> (Inv(State()) <==> r != 0 || Live(old(State()), d))
      ensures !panicked && r == 0 ==>
        exists k, i :: Removes(old(State()), d, name, k, i) && State() == Unlink(old(State()), d, k, i)
      ensures !panicked && r != 0 ==> r == -1 && inodes == old(inodes)
      ensures name == "." || name == ".." || !HasName(old(State()), d, name) ==> !panicked && r == -1
      ensures name != "." && name != ".." && HasName(old(State()), d, name) ==>
        exists k, i :: FirstNamed(old(State()), d, name, k) && Entry(old(State()), d, name, k, i)
          && (panicked <==> old(inodes)[i].nlink < 1)
          && (!panicked ==> (r != 0 <==> old(inodes)[i].kind == DIR && !IsEmpty(old(State()), i)))
          && (!panicked && r == 0 ==> EntryGone(old(State()), State(), d, k, i))
    {
      hide Inv;
      hide Unlink;
      hide EntryGone;
      hide IsEmpty;
      hide Live;
      ghost var s := State();
      if name == "." || name == ".." {
        return -1, false;
      }
      var found := DirLookup(inodes, d, name);
      if found.None? {
        return -1, false;
      }
      var k := found.value;
      var i := inodes[d].ents[k].inum;
      TargetInRange(s, d, k);
      assert Entry(s, d, name, k, i) && FirstNamed(s, d, name, k);
      if inodes[i].nlink < 1 {
        LiveTarget(s, d, name, k, i);
        return 0, true;
      }
      if inodes[i].kind == DIR {
        var empty := IsDirEmpty(i);
        if !empty {
          return -1, false;
        }
      }
      TakeOut(d, k, i);
      assert Removes(s, d, name, k, i);
      RemovedKeeps(s, d, name, k, i, State());
      UnlinkGone(s, d, k, i);
      return 0, false;
    }

    /** The stores of sys_unlink: the entry, the count of a parent, the count of the inode. */
    method TakeOut(d: int, k: int, i: int)
      requires HasEnt(State(), d, k) && 0 <= i < |State().inodes|
      modifies this`inodes
      ensures State() == Unlink(old(State()), d, k, i)
    {
      inodes := inodes[d := SetEnt(inodes[d], k, Dirent(0, ""))];
      if inodes[i].kind == DIR {
        inodes := inodes[d := AddLink(inodes[d], -1)];
      }
      inodes := inodes[i := AddLink(inodes[i], -1)];
    }

    /** ialloc: the first free inode. */
    method Ialloc() returns (r: Option<int>)
      ensures r.Some? ==> 0 < r.value < |inodes| && inodes[r.value].kind == FREE
                          && forall j :: 0 < j < r.value ==> inodes[j].kind != FREE
      ensures r.None? <==> NoneFree(inodes)
    {
      var i := 1;
      while i < |inodes|
        invariant 1 <= i && forall j :: 0 < j < i && j < |inodes| ==> inodes[j].kind != FREE
      {
        if inodes[i].kind == FREE {
          return Some(i);
        }
        i := i + 1;
      }
      return None;
    }

    /** create of the name in d: the existing file, the first free inode, or 0. Panics when there is
        no free inode, or no place in d. The counts are right afterwards if and only if nobody has
        removed d. */
    method CreateName(d: int, name: string, kind: Kind) returns (r: int, panicked: bool)
      requires Inv(State()) && IsDirectory(State(), d) && kind != FREE
      modifies this`inodes
      ensures HasName(old(State()), d, name) ==> inodes == old(inodes)
      ensures HasName(old(State()), d, name) ==>
                exists k :: FirstNamed(State(), d, name, k) && var i := inodes[d].ents[k].inum;
                  && 0 < i < |inodes| && r == if kind == FILE && inodes[i].kind == FILE then i else 0
      ensures !HasName(old(State()), d, name) && !panicked ==>
                && 0 < r < |old(inodes)| && old(inodes)[r].kind == FREE
                && (forall j :: 0 < j < r ==> old(inodes)[j].kind != FREE)
                && exists k :: FreeSlot(old(State()), d, k) && State() == Create(old(State()), d, k, name, r, kind)
      ensures !HasName(old(State()), d, name) && !panicked ==> (Inv(State()) <==> Live(old(State()), d))
      ensures !HasName(old(State()), d, name) && !panicked ==>
                && inodes[r] == Inode(kind, 1, if kind == DIR then [Dirent(r, "."), Dirent(d, "..")] else [])
                && inodes[d].nlink == old(inodes)[d].nlink + (if kind == DIR then 1 else 0)
                && exists k :: OneEntry(old(State()), State(), d, k, Dirent(r, name))
      ensures panicked <==> !HasName(old(State()), d, name) && (NoneFree(old(inodes)) || Full(old(State()), d))
    {
      hide Inv;
      hide IsDirectory;
      ghost var s := State();
      DirectoryIn(s, d);
      var found := DirLookup(inodes, d, name);
      if found.Some? {
        var i := inodes[d].ents[found.value].inum;
        TargetInRange(s, d, found.value);
        assert FirstNamed(s, d, name, found.value);
        if kind == FILE && inodes[i].kind == FILE {
          return i, false;
        }
        return 0, false;
      }
      var fresh1 := Ialloc();
      if fresh1.None? {
        return 0, true;
      }
      var i := fresh1.value;
      var k := MakeIn(d, name, i, kind);
      if k.None? {
        return 0, true;
      }
      MadeIn(s, d, k.value, name, i, kind, State());
      CreateEntered(s, d, k.value, name, i, kind, State());
      return i, false;
    }

    /** The rest of create: ialloc has found i. */
    method MakeIn(d: int, name: string, i: int, kind: Kind) returns (slot: Option<int>)
      requires 0 <= d < |State().inodes| && 0 < i < |State().inodes| && i != d && !HasName(State(), d, name)
      modifies this`inodes
      ensures slot.None? <==> Full(old(State()), d)
      ensures slot.Some? ==>
                FreeSlot(old(State()), d, slot.value) && State() == Create(old(State()), d, slot.value, name, i, kind)
    {
      ghost var s := State();
      inodes := inodes[i := Inode(kind, 1, [])];
      if kind == DIR {
        inodes := inodes[d := AddLink(inodes[d], 1)];
        inodes := inodes[i := Inode(kind, 1, [Dirent(i, "."), Dirent(d, "..")])];
      }
      CreateSameDir(s, State(), d, i, name);
      var k, stop := DirLink(d, name, i);
      assert k.Some? ==> State() == Create(s, d, k.value, name, i, kind);
      return k;
    }
  }

  /** d is a directory: part of the tree, or removed and still referred to. */
  predicate IsDirectory(s: Tree, d: int) {
    0 < d < |s.inodes| && s.inodes[d].kind == DIR
  }

  /** Entry k is the first of d in use with the name. */
  predicate FirstNamed(s: Tree, d: int, name: string, k: int) {
    && HasEnt(s, d, k) && s.inodes[d].ents[k].inum != 0 && s.inodes[d].ents[k].name == name
    && forall m :: 0 <= m < k ==> s.inodes[d].ents[m].inum == 0 || s.inodes[d].ents[m].name != name
  }

  /** Directory d has got the entry e, in a slot that was not in use or at its end; no other entry of it
      and no other directory has changed. */
  predicate OneEntry(s: Tree, s': Tree, d: int, k: int, e: Dirent) {
    && |s'.inodes| == |s.inodes| && FreeSlot(s, d, k) && HasEnt(s', d, k) && s'.inodes[d].ents[k] == e
    && |s'.inodes[d].ents| == (if k == |s.inodes[d].ents| then k + 1 else |s.inodes[d].ents|)
    && (forall m :: 0 <= m < |s.inodes[d].ents| && m != k ==> s'.inodes[d].ents[m] == s.inodes[d].ents[m])
    && forall j :: 0 <= j < |s.inodes| && j != d && j != e.inum ==> s'.inodes[j] == s.inodes[j]
  }

  /** Entry k of d, for inode i, is no longer in use; i has a link less, and so has d if i is a
      directory. Nothing else has changed. */
  predicate EntryGone(s: Tree, s': Tree, d: int, k: int, i: int) {
    && |s'.inodes| == |s.inodes| && HasEnt(s, d, k) && HasEnt(s', d, k) && 0 <= i < |s.inodes|
    && s'.inodes[d].ents[k].inum == 0 && |s'.inodes[d].ents| == |s.inodes[d].ents|
    && (forall m :: 0 <= m < |s.inodes[d].ents| && m != k ==> s'.inodes[d].ents[m] == s.inodes[d].ents[m])
    && (forall j :: 0 <= j < |s.inodes| ==>
          s'.inodes[j].nlink == s.inodes[j].nlink - (if j == i then 1 else 0)
                                - (if j == d && s.inodes[i].kind == DIR then 1 else 0))
    && forall j :: 0 <= j < |s.inodes| && j != d && j != i ==> s'.inodes[j] == s.inodes[j]
  }

  lemma UnlinkGone(s: Tree, d: int, k: int, i: int)
    requires HasEnt(s, d, k) && 0 <= i < |s.inodes|
    ensures EntryGone(s, Unlink(s, d, k, i), d, k, i)
  {
  }

  lemma LinkEntered(s: Tree, i: int, d: int, k: int, name: string)
    requires 0 < i < |s.inodes| && FreeSlot(LinkBegin(s, i), d, k) && IsFile(s, i) && IsDirectory(s, d)
    ensures var s' := LinkDone(LinkBegin(s, i), d, k, name, i);
      |s'.inodes| == |s.inodes| && s'.inodes[i].nlink == s.inodes[i].nlink + 1 && OneEntry(s, s', d, k, Dirent(i, name))
  {
  }

  lemma CreateEntered(s: Tree, d: int, k: int, name: string, i: int, kind: Kind, s': Tree)
    requires 0 < i < |s.inodes| && i != d && FreeSlot(s, d, k) && s' == Create(s, d, k, name, i, kind)
    ensures |s'.inodes| == |s.inodes| && OneEntry(s, s', d, k, Dirent(i, name))
    ensures s'.inodes[i] == Inode(kind, 1, if kind == DIR then [Dirent(i, "."), Dirent(d, "..")] else [])
    ensures s'.inodes[d].nlink == s.inodes[d].nlink + if kind == DIR then 1 else 0
  {
  }

  /** Entry k of d has the name and inode i. */
  predicate Entry(s: Tree, d: int, name: string, k: int, i: int) {
    HasEnt(s, d, k) && s.inodes[d].ents[k] == Dirent(i, name) && 0 < i < |s.inodes|
  }

  /** The entry that unlink may remove. */
  predicate Removes(s: Tree, d: int, name: string, k: int, i: int) {
    && Entry(s, d, name, k, i) && name != "." && name != ".." && s.inodes[i].nlink >= 1
    && (s.inodes[i].kind == DIR ==> IsEmpty(s, i))
  }

  lemma DirectoryIn(s: Tree, d: int)
    requires IsDirectory(s, d)
    ensures 0 < d < |s.inodes| && s.inodes[d].kind == DIR
  {
  }

  lemma TargetInRange(s: Tree, d: int, k: int)
    requires Inv(s) && HasEnt(s, d, k) && s.inodes[d].ents[k].inum != 0
    ensures 0 < s.inodes[d].ents[k].inum < |s.inodes|
  {
    assert EntRange(s, d, k);
  }

  lemma LiveTarget(s: Tree, d: int, name: string, k: int, i: int)
    requires Inv(s) && Entry(s, d, name, k, i) && name != "." && name != ".." && s.inodes[i].nlink < 1
    ensures !Live(s, d)
  {
    if Live(s, d) {
      NamedEntry(s, d, k);
      EntryLinks(s, d, k, i);
    }
  }

  lemma RemovedKeeps(s: Tree, d: int, name: string, k: int, i: int, s': Tree)
    requires Inv(s) && IsDirectory(s, d) && Removes(s, d, name, k, i) && s' == Unlink(s, d, k, i)
    ensures Inv(s') <==> Live(s, d)
  {
    hide Inv;
    if Live(s, d) {
      NamedEntry(s, d, k);
      NextKeeps(s, Remove(d, k, i), s');
    } else {
      UnlinkBreaks(s, d, k, i, s');
    }
  }

  lemma MadeIn(s: Tree, d: int, k: int, name: string, i: int, kind: Kind, s': Tree)
    requires Inv(s) && IsDirectory(s, d) && kind != FREE && FreeSlot(s, d, k) && !HasName(s, d, name)
    requires 0 < i < |s.inodes| && s.inodes[i].kind == FREE && s' == Create(s, d, k, name, i, kind)
    ensures Inv(s') <==> Live(s, d)
  {
    hide Inv;
    if Live(s, d) {
      NextKeeps(s, Make(d, k, name, i, kind), s');
    } else if kind != DIR {
      CreateBreaks(s, d, k, name, i, kind, s');
    } else {
      MkdirBreaks(s, d, k, name, i, s');
    }
  }

  lemma CreateBreaks(s: Tree, d: int, k: int, name: string, i: int, kind: Kind, s': Tree)
    requires Inv(s) && IsDirectory(s, d) && !Live(s, d) && FreeSlot(s, d, k) && kind != DIR
    requires 0 < i < |s.inodes| && s.inodes[i].kind == FREE && s' == Create(s, d, k, name, i, kind)
    ensures !Inv(s')
  {
    assert CountOk(s, i) && InodeOk(s, i);
    hide Shape;
    SameLinks(s, s', i);
    assert !CountOk(s', i);
  }

  /** mkdir in a removed directory makes it live again, though nothing names it. */
  lemma MkdirBreaks(s: Tree, d: int, k: int, name: string, i: int, s': Tree)
    requires Inv(s) && IsDirectory(s, d) && !Live(s, d) && FreeSlot(s, d, k)
    requires 0 < i < |s.inodes| && s.inodes[i].kind == FREE && s' == Create(s, d, k, name, i, DIR)
    ensures !Inv(s')
  {
    assert CountOk(s, d) && InodeOk(s, i);
    if Inv(s') {
      assert DotsOk(s', d) && ParentOk(s', d);
      var p := s'.inodes[d].ents[1].inum;
      var m :| IsEntry(s', p, m, d);
      assert EntOk(s', p, m);
      SomeLink(s, p, m, d);
      assert false;
    }
  }

  lemma SlotBefore(s: Tree, i: int, d: int, k: int)
    requires 0 < i < |s.inodes| && FreeSlot(LinkBegin(s, i), d, k)
    ensures FreeSlot(s, d, k)
  {
  }

  /** Raising the count of a file changes no directory. */
  lemma LinkSameDirs(s: Tree, i: int, d: int, name: string)
    requires IsFile(s, i) && IsDirectory(s, d)
    ensures 0 < d < |s.inodes| && s.inodes[d].kind == DIR
    ensures HasName(LinkBegin(s, i), d, name) <==> HasName(s, d, name)
    ensures Full(LinkBegin(s, i), d) <==> Full(s, d)
  {
  }

  lemma FileNow(s: Tree, i: int)
    requires 0 < i < |s.inodes| && s.inodes[i].kind != FREE && s.inodes[i].kind != DIR
    ensures IsFile(s, i)
  {
  }

  lemma BegunHere(s: Tree, i: int)
    requires 0 < i < |s.inodes|
    ensures |LinkBegin(s, i).inodes| == |s.inodes| && LinkBegin(s, i).pending == s.pending + multiset{i}
    ensures LinkBegin(s, i).pending[i] > 0
  {
  }

  lemma BackAgain(m: multiset<int>, i: int)
    ensures m + multiset{i} - multiset{i} == m
  {
  }

  lemma UndoneIs(s: Tree, i: int)
    requires 0 < i < |s.inodes|
    ensures |LinkBegin(s, i).inodes| == |s.inodes| && LinkUndo(LinkBegin(s, i), i) == s
  {
    assert LinkUndo(LinkBegin(s, i), i).inodes == s.inodes;
  }

  lemma NamedEntry(s: Tree, d: int, k: int)
    requires Inv(s) && Live(s, d) && HasEnt(s, d, k) && s.inodes[d].ents[k].inum != 0
    requires s.inodes[d].ents[k].name != "." && s.inodes[d].ents[k].name != ".."
    ensures IsEntry(s, d, k, s.inodes[d].ents[k].inum)
  {
    assert DotsOk(s, d);
  }

  lemma CreateSameDir(s: Tree, s1: Tree, d: int, i: int, name: string)
    requires 0 <= d < |s.inodes| && |s1.inodes| == |s.inodes| && s1.inodes[d].ents == s.inodes[d].ents
    ensures HasName(s1, d, name) <==> HasName(s, d, name)
    ensures (forall k :: FreeSlot(s1, d, k) <==> FreeSlot(s, d, k)) && (Full(s1, d) <==> Full(s, d))
  {
  }
}
