/** Directories and link counts (sysfile.c, fs.c): the inodes of a file system with the entries
    of each directory. */
module LinkModel {

  datatype Kind = FREE | DIR | FILE | DEV

  /** An entry with inum 0 is unused. */
  datatype Dirent = Dirent(inum: int, name: string)

  datatype Inode = Inode(kind: Kind, nlink: int, ents: seq<Dirent>)

  /** pending: the inodes whose count sys_link has raised without having made the entry yet. */
  datatype Tree = Tree(inodes: seq<Inode>, pending: multiset<int>)

  const ROOT: int := 1

  predicate Live(s: Tree, d: int) {
    0 < d < |s.inodes| && s.inodes[d].kind == DIR && s.inodes[d].nlink > 0
  }

  predicate HasEnt(s: Tree, d: int, k: int) {
    0 <= d < |s.inodes| && 0 <= k < |s.inodes[d].ents|
  }

  /** Entry k of live directory d counts as a link to i: every entry does but ".". */
  predicate IsLink(s: Tree, d: int, k: int, i: int) {
    Live(s, d) && HasEnt(s, d, k) && i != 0 && s.inodes[d].ents[k].inum == i && s.inodes[d].ents[k].name != "."
  }

  ghost function Links(s: Tree, i: int): set<(int, int)> {
    set d, k | 0 <= d < |s.inodes| && 0 <= k < |s.inodes[d].ents| && IsLink(s, d, k, i) :: (d, k)
  }

  lemma InLinks(s: Tree, i: int, d: int, k: int)
    ensures (d, k) in Links(s, i) <==> IsLink(s, d, k, i)
  {
  }

  // ---- The invariant ---------------------------------------------------------------------------

  /** The count of an inode is the number of its links, and of links about to be made. */
  ghost predicate CountOk(s: Tree, i: int) {
    0 < i < |s.inodes| ==> s.inodes[i].nlink == |Links(s, i)| + s.pending[i]
  }

  predicate InodeOk(s: Tree, i: int) {
    0 <= i < |s.inodes| ==>
      && (s.inodes[i].kind == FREE ==> s.inodes[i].nlink == 0)
      && (s.inodes[i].kind != DIR ==> s.inodes[i].ents == [])
      && (s.inodes[i].kind == DIR || s.inodes[i].kind == FREE ==> s.pending[i] == 0)
  }

  /** A live directory starts with "." and "..", which names a live directory. */
  predicate DotsOk(s: Tree, d: int) {
    Live(s, d) ==>
      && |s.inodes[d].ents| >= 2
      && s.inodes[d].ents[0] == Dirent(d, ".") && s.inodes[d].ents[1].name == ".." && Live(s, s.inodes[d].ents[1].inum)
  }

  /** A named entry of a live directory; if it names a directory, it is that one's parent entry. */
  predicate EntOk(s: Tree, d: int, k: int) {
    Live(s, d) && HasEnt(s, d, k) && k >= 2 && s.inodes[d].ents[k].inum != 0 ==>
      var e := s.inodes[d].ents[k];
      && e.name != "." && e.name != ".." && 0 < e.inum < |s.inodes| && e.inum != ROOT && e.inum != d
      && (s.inodes[e.inum].kind == DIR ==> |s.inodes[e.inum].ents| >= 2 && s.inodes[e.inum].ents[1].inum == d)
  }

  /** No directory has two entries with one name, or for one directory. */
  predicate EntsDiffer(s: Tree, d: int, j: int, k: int) {
    Live(s, d) && HasEnt(s, d, j) && HasEnt(s, d, k) && 2 <= j < k
    && s.inodes[d].ents[j].inum != 0 && s.inodes[d].ents[k].inum != 0 ==>
      && s.inodes[d].ents[j].name != s.inodes[d].ents[k].name
      && (s.inodes[d].ents[j].inum == s.inodes[d].ents[k].inum && 0 <= s.inodes[d].ents[j].inum < |s.inodes| ==>
            s.inodes[s.inodes[d].ents[j].inum].kind != DIR)
  }

  predicate IsEntry(s: Tree, d: int, k: int, i: int) {
    Live(s, d) && HasEnt(s, d, k) && k >= 2 && i != 0 && s.inodes[d].ents[k].inum == i
  }

  /** Every live directory but the root has an entry in the directory its ".." names. */
  ghost predicate ParentOk(s: Tree, d: int) {
    Live(s, d) && |s.inodes[d].ents| >= 2 ==>
      if d == ROOT then s.inodes[d].ents[1].inum == ROOT
      else exists k :: IsEntry(s, s.inodes[d].ents[1].inum, k, d)
  }

  /** Every entry of every directory, removed or not, names an inode that there is. */
  predicate EntRange(s: Tree, d: int, k: int) {
    HasEnt(s, d, k) ==> 0 <= s.inodes[d].ents[k].inum < |s.inodes|
  }

  ghost predicate Shape(s: Tree) {
    && Live(s, ROOT)
    && (forall d, k :: EntRange(s, d, k))
    && (forall i :: InodeOk(s, i))
    && (forall d :: DotsOk(s, d))
    && (forall d, k :: EntOk(s, d, k))
    && (forall d, j, k :: EntsDiffer(s, d, j, k))
    && (forall d :: ParentOk(s, d))
  }

  ghost predicate Counts(s: Tree) {
    forall i :: CountOk(s, i)
  }

  ghost predicate Inv(s: Tree) {
    Shape(s) && Counts(s)
  }

  // ---- Operations ------------------------------------------------------------------------------

  function SetInode(s: Tree, i: int, v: Inode): Tree
    requires 0 <= i < |s.inodes|
  {
    s.(inodes := s.inodes[i := v])
  }

  function SetEnt(v: Inode, k: int, e: Dirent): Inode
    requires 0 <= k <= |v.ents|
  {
    v.(ents := if k < |v.ents| then v.ents[k := e] else v.ents + [e])
  }

  function AddLink(v: Inode, n: int): Inode {
    v.(nlink := v.nlink + n)
  }

  /** A slot that dirlink can use: an unused entry, or the end. */
  predicate FreeSlot(s: Tree, d: int, k: int) {
    0 <= d < |s.inodes| && 0 <= k <= |s.inodes[d].ents| && (k < |s.inodes[d].ents| ==> s.inodes[d].ents[k].inum == 0)
  }

  predicate HasName(s: Tree, d: int, name: string) {
    0 <= d < |s.inodes| &&
    exists k :: 0 <= k < |s.inodes[d].ents| && s.inodes[d].ents[k].inum != 0 && s.inodes[d].ents[k].name == name
  }

  /** sys_link up to the unlock of ip: the count goes up first. */
  function LinkBegin(s: Tree, i: int): Tree
    requires 0 <= i < |s.inodes|
  {
    SetInode(s, i, AddLink(s.inodes[i], 1)).(pending := s.pending + multiset{i})
  }

  /** dirlink made the entry. */
  function LinkDone(s: Tree, d: int, k: int, name: string, i: int): Tree
    requires FreeSlot(s, d, k)
  {
    SetInode(s, d, SetEnt(s.inodes[d], k, Dirent(i, name))).(pending := s.pending - multiset{i})
  }

  /** `bad`: the count goes down again. */
  function LinkUndo(s: Tree, i: int): Tree
    requires 0 <= i < |s.inodes|
  {
    SetInode(s, i, AddLink(s.inodes[i], -1)).(pending := s.pending - multiset{i})
  }

  /** sys_unlink of entry k of d, which names i. */
  function Unlink(s: Tree, d: int, k: int, i: int): Tree
    requires HasEnt(s, d, k) && 0 <= i < |s.inodes|
  {
    var dir := SetEnt(s.inodes[d], k, Dirent(0, ""));
    var s1 := SetInode(s, d, if s.inodes[i].kind == DIR then AddLink(dir, -1) else dir);
    SetInode(s1, i, AddLink(s1.inodes[i], -1))
  }

  /** create of inode i, entered at slot k of d. */
  function Create(s: Tree, d: int, k: int, name: string, i: int, kind: Kind): Tree
    requires FreeSlot(s, d, k) && 0 <= i < |s.inodes|
  {
    var dir := SetEnt(s.inodes[d], k, Dirent(i, name));
    var s1 := SetInode(s, d, if kind == DIR then AddLink(dir, 1) else dir);
    SetInode(s1, i, Inode(kind, 1, if kind == DIR then [Dirent(i, "."), Dirent(d, "..")] else []))
  }

  /** iput of the last reference to an inode without links. */
  function Drop(s: Tree, i: int): Tree
    requires 0 <= i < |s.inodes|
  {
    SetInode(s, i, Inode(FREE, 0, []))
  }

  // ---- Counting --------------------------------------------------------------------------------

  lemma SameLinks(s: Tree, s': Tree, j: int)
    requires forall d, k :: IsLink(s', d, k, j) <==> IsLink(s, d, k, j)
    ensures |Links(s', j)| == |Links(s, j)|
  {
    forall d, k
      ensures (d, k) in Links(s, j) <==> (d, k) in Links(s', j)
    {
      InLinks(s, j, d, k);
      InLinks(s', j, d, k);
    }
    assert Links(s, j) == Links(s', j);
  }

  /** s' has the link from entry k of d besides those of s. */
  ghost predicate OneMore(s: Tree, s': Tree, j: int, d: int, k: int) {
    && !IsLink(s, d, k, j) && IsLink(s', d, k, j)
    && forall e, m :: e != d || m != k ==> (IsLink(s', e, m, j) <==> IsLink(s, e, m, j))
  }

  lemma MoreLinks(s: Tree, s': Tree, j: int, d: int, k: int)
    requires OneMore(s, s', j, d, k)
    ensures |Links(s', j)| == |Links(s, j)| + 1
  {
    forall e, m
      ensures (e, m) in Links(s', j) <==> (e, m) in Links(s, j) + {(d, k)}
    {
      InLinks(s, j, e, m);
      InLinks(s', j, e, m);
    }
    assert Links(s', j) == Links(s, j) + {(d, k)};
  }

  lemma SomeLink(s: Tree, d: int, k: int, i: int)
    requires IsLink(s, d, k, i)
    ensures |Links(s, i)| > 0
  {
    InLinks(s, i, d, k);
  }

  /** A free inode is linked from nowhere. */
  lemma FreeUnlinked(s: Tree, d: int, k: int, i: int)
    requires Inv(s) && 0 < i < |s.inodes| && s.inodes[i].kind == FREE
    ensures !IsLink(s, d, k, i)
  {
    assert InodeOk(s, i) && CountOk(s, i);
    if IsLink(s, d, k, i) {
      SomeLink(s, d, k, i);
    }
  }

  // ---- link ------------------------------------------------------------------------------------

  predicate IsFile(s: Tree, i: int) {
    0 < i < |s.inodes| && (s.inodes[i].kind == FILE || s.inodes[i].kind == DEV)
  }

  /** Changing the count of a file changes no directory. */
  lemma FileCountShape(s: Tree, s': Tree, i: int)
    requires Shape(s) && IsFile(s, i) && |s'.inodes| == |s.inodes| && s'.inodes == s.inodes[i := s'.inodes[i]]
    requires s'.inodes[i].kind == s.inodes[i].kind && s'.inodes[i].ents == s.inodes[i].ents
    requires forall j :: j != i ==> s'.pending[j] == s.pending[j]
    ensures Shape(s')
    ensures forall d, k, j :: IsLink(s', d, k, j) <==> IsLink(s, d, k, j)
  {
    assert InodeOk(s, i);
    forall j
      ensures InodeOk(s', j)
    {
      assert InodeOk(s, j);
    }
    forall d
      ensures DotsOk(s', d) && ParentOk(s', d)
    {
      assert DotsOk(s, d) && ParentOk(s, d);
      if Live(s, d) && d != ROOT {
        var k :| IsEntry(s, s.inodes[d].ents[1].inum, k, d);
        assert IsEntry(s', s.inodes[d].ents[1].inum, k, d);
      }
    }
    forall d, k
      ensures EntOk(s', d, k) && EntRange(s', d, k)
    {
      assert EntOk(s, d, k) && EntRange(s, d, k);
    }
    forall d, j, k
      ensures EntsDiffer(s', d, j, k)
    {
      assert EntsDiffer(s, d, j, k);
    }
  }

  lemma LinkBeginKeeps(s: Tree, i: int, s': Tree)
    requires Inv(s) && IsFile(s, i) && s' == LinkBegin(s, i)
    ensures Inv(s')
  {
    FileCountShape(s, s', i);
    forall j
      ensures CountOk(s', j)
    {
      assert CountOk(s, j);
      SameLinks(s, s', j);
    }
  }

  lemma LinkUndoKeeps(s: Tree, i: int, s': Tree)
    requires Inv(s) && 0 < i < |s.inodes| && s.pending[i] > 0 && s' == LinkUndo(s, i)
    ensures Inv(s')
  {
    assert InodeOk(s, i);
    FileCountShape(s, s', i);
    forall j
      ensures CountOk(s', j)
    {
      assert CountOk(s, j);
      SameLinks(s, s', j);
    }
  }

  /** dirlink may write the entry: the directory is live and does not have the name. */
  predicate MayEnter(s: Tree, d: int, k: int, name: string) {
    Live(s, d) && FreeSlot(s, d, k) && !HasName(s, d, name)
  }

  lemma SlotFacts(s: Tree, d: int, k: int, name: string)
    requires Shape(s) && MayEnter(s, d, k, name)
    ensures k >= 2 && name != "." && name != ".." && |s.inodes[d].ents| >= 2
    ensures forall m :: 0 <= m < |s.inodes[d].ents| && s.inodes[d].ents[m].inum != 0 ==>
              s.inodes[d].ents[m].name != name
  {
    assert DotsOk(s, d);
    assert s.inodes[d].ents[0].inum != 0 && s.inodes[d].ents[1].inum != 0;
  }

  /** The entry (i, name) is in slot k of d, and nothing else has changed but what is in inode i,
      a file that was one before or a free inode. */
  ghost predicate Entered(s: Tree, s': Tree, d: int, k: int, name: string, i: int) {
    && MayEnter(s, d, k, name) && 0 < i < |s.inodes| && i != d && i != ROOT && |s'.inodes| == |s.inodes|
    && s.inodes[i].kind != DIR && (s'.inodes[i].kind == FILE || s'.inodes[i].kind == DEV) && s'.inodes[i].ents == []
    && s'.inodes == s.inodes[d := SetEnt(s.inodes[d], k, Dirent(i, name))][i := s'.inodes[i]]
    && (forall j :: j != i ==> s'.pending[j] == s.pending[j])
    && (s.inodes[i].kind == FREE ==> forall e, m :: !IsLink(s, e, m, i))
  }

  lemma EnteredLinks(s: Tree, s': Tree, d: int, k: int, name: string, i: int, j: int)
    requires Shape(s) && Entered(s, s', d, k, name, i)
    ensures forall e :: Live(s', e) <==> Live(s, e)
    ensures if j == i then OneMore(s, s', i, d, k)
            else forall e, m :: IsLink(s', e, m, j) <==> IsLink(s, e, m, j)
  {
    SlotFacts(s, d, k, name);
  }

  lemma EnteredShape(s: Tree, s': Tree, d: int, k: int, name: string, i: int)
    requires Shape(s) && Entered(s, s', d, k, name, i)
    ensures Shape(s')
  {
    EnteredLinks(s, s', d, k, name, i, i);
    forall j
      ensures InodeOk(s', j)
    {
      assert InodeOk(s, j);
    }
    forall e
      ensures DotsOk(s', e) && ParentOk(s', e)
    {
      EnteredDir(s, s', d, k, name, i, e);
    }
    forall e, m
      ensures EntOk(s', e, m) && EntRange(s', e, m)
    {
      assert EntRange(s, e, m);
      EnteredEnt(s, s', d, k, name, i, e, m);
    }
    forall e, m, n
      ensures EntsDiffer(s', e, m, n)
    {
      EnteredDiffer(s, s', d, k, name, i, e, m, n);
    }
  }

  lemma EnteredDir(s: Tree, s': Tree, d: int, k: int, name: string, i: int, e: int)
    requires Shape(s) && Entered(s, s', d, k, name, i)
    ensures DotsOk(s', e) && ParentOk(s', e)
  {
    EnteredLinks(s, s', d, k, name, i, i);
    SlotFacts(s, d, k, name);
    assert DotsOk(s, e) && ParentOk(s, e);
    if Live(s, e) && e != ROOT {
      var up := s.inodes[e].ents[1].inum;
      var m :| IsEntry(s, up, m, e);
      assert IsEntry(s', up, m, e);
    }
  }

  lemma EnteredEnt(s: Tree, s': Tree, d: int, k: int, name: string, i: int, e: int, m: int)
    requires Shape(s) && Entered(s, s', d, k, name, i)
    ensures EntOk(s', e, m)
  {
    EnteredLinks(s, s', d, k, name, i, i);
    SlotFacts(s, d, k, name);
    assert EntOk(s, e, m) && DotsOk(s, d);
    if Live(s', e) && HasEnt(s', e, m) {
      var j := s'.inodes[e].ents[m].inum;
      if 0 <= j < |s.inodes| {
        assert s'.inodes[j].kind == DIR ==> s.inodes[j].kind == DIR;
      }
    }
  }

  lemma EnteredDiffer(s: Tree, s': Tree, d: int, k: int, name: string, i: int, e: int, m: int, n: int)
    requires Shape(s) && Entered(s, s', d, k, name, i)
    ensures EntsDiffer(s', e, m, n)
  {
    EnteredLinks(s, s', d, k, name, i, i);
    SlotFacts(s, d, k, name);
    assert EntsDiffer(s, e, m, n);
  }

  lemma LinkDoneKeeps(s: Tree, d: int, k: int, name: string, i: int, s': Tree)
    requires Inv(s) && MayEnter(s, d, k, name) && 0 < i < |s.inodes| && s.pending[i] > 0
    requires s' == LinkDone(s, d, k, name, i)
    ensures Inv(s')
  {
    assert InodeOk(s, i);
    assert Entered(s, s', d, k, name, i);
    EnteredShape(s, s', d, k, name, i);
    forall j
      ensures CountOk(s', j)
    {
      assert CountOk(s, j);
      EnteredLinks(s, s', d, k, name, i, j);
      if j == i {
        MoreLinks(s, s', i, d, k);
      } else {
        SameLinks(s, s', j);
      }
    }
  }

  lemma CreateFileKeeps(s: Tree, d: int, k: int, name: string, i: int, kind: Kind, s': Tree)
    requires Inv(s) && MayEnter(s, d, k, name) && 0 < i < |s.inodes| && s.inodes[i].kind == FREE
    requires (kind == FILE || kind == DEV) && s' == Create(s, d, k, name, i, kind)
    ensures Inv(s')
  {
    assert InodeOk(s, i) && CountOk(s, i);
    forall e, m
      ensures !IsLink(s, e, m, i)
    {
      FreeUnlinked(s, e, m, i);
    }
    assert Entered(s, s', d, k, name, i);
    EnteredShape(s, s', d, k, name, i);
    forall j
      ensures CountOk(s', j)
    {
      assert CountOk(s, j);
      EnteredLinks(s, s', d, k, name, i, j);
      if j == i {
        MoreLinks(s, s', i, d, k);
      } else {
        SameLinks(s, s', j);
      }
    }
  }

  // ---- unlink ----------------------------------------------------------------------------------

  /** An entry is a link, so what it names has a count; "unlink: nlink < 1" cannot happen. */
  lemma EntryLinks(s: Tree, d: int, k: int, i: int)
    requires Inv(s) && IsEntry(s, d, k, i)
    ensures IsLink(s, d, k, i) && 0 < i < |s.inodes| && i != d && i != ROOT
    ensures s.inodes[i].nlink >= 1 && s.inodes[i].kind != FREE
    ensures s.inodes[i].kind == DIR ==> |s.inodes[i].ents| >= 2 && s.inodes[i].ents[1].inum == d && Live(s, i)
  {
    assert EntOk(s, d, k) && CountOk(s, i) && InodeOk(s, i);
    SomeLink(s, d, k, i);
  }

  lemma UnlinkFileLinks(s: Tree, d: int, k: int, i: int, s': Tree, j: int)
    requires Inv(s) && IsEntry(s, d, k, i) && 0 <= i < |s.inodes| && s.inodes[i].kind != DIR && s' == Unlink(s, d, k, i)
    ensures i != d && |s'.inodes| == |s.inodes| && forall e :: Live(s', e) <==> Live(s, e)
    ensures if j == i then OneMore(s', s, i, d, k)
            else forall e, m :: IsLink(s', e, m, j) <==> IsLink(s, e, m, j)
  {
    EntryLinks(s, d, k, i);
    hide Inv;
  }

  lemma UnlinkFileEnts(s: Tree, d: int, k: int, i: int, s': Tree, e: int, m: int, n: int)
    requires Inv(s) && IsEntry(s, d, k, i) && 0 <= i < |s.inodes| && s.inodes[i].kind != DIR && s' == Unlink(s, d, k, i)
    ensures EntOk(s', e, m) && EntRange(s', e, m) && EntsDiffer(s', e, m, n)
  {
    EntryLinks(s, d, k, i);
    UnlinkFileLinks(s, d, k, i, s', i);
    assert EntOk(s, e, m) && EntRange(s, e, m) && EntsDiffer(s, e, m, n);
    hide Inv;
  }

  lemma UnlinkFileDirs(s: Tree, d: int, k: int, i: int, s': Tree, e: int)
    requires Inv(s) && IsEntry(s, d, k, i) && 0 <= i < |s.inodes| && s.inodes[i].kind != DIR && s' == Unlink(s, d, k, i)
    ensures InodeOk(s', e) && DotsOk(s', e) && ParentOk(s', e)
  {
    EntryLinks(s, d, k, i);
    UnlinkFileLinks(s, d, k, i, s', i);
    assert InodeOk(s, e) && DotsOk(s, e) && ParentOk(s, e);
    hide Inv;
    if Live(s, e) && e != ROOT {
      var m :| IsEntry(s, s.inodes[e].ents[1].inum, m, e);
      assert IsEntry(s', s.inodes[e].ents[1].inum, m, e);
    }
  }

  lemma UnlinkFileShape(s: Tree, d: int, k: int, i: int, s': Tree)
    requires Inv(s) && IsEntry(s, d, k, i) && 0 <= i < |s.inodes| && s.inodes[i].kind != DIR && s' == Unlink(s, d, k, i)
    ensures Shape(s')
  {
    UnlinkFileLinks(s, d, k, i, s', i);
    assert Live(s, ROOT);
    hide Inv;
    hide Unlink;
    hide EntOk;
    hide EntRange;
    hide EntsDiffer;
    hide InodeOk;
    hide DotsOk;
    hide ParentOk;
    forall e
      ensures InodeOk(s', e) && DotsOk(s', e) && ParentOk(s', e)
    {
      UnlinkFileDirs(s, d, k, i, s', e);
    }
    forall e, m
      ensures EntOk(s', e, m) && EntRange(s', e, m)
    {
      UnlinkFileEnts(s, d, k, i, s', e, m, m);
    }
    forall e, m, n
      ensures EntsDiffer(s', e, m, n)
    {
      UnlinkFileEnts(s, d, k, i, s', e, m, n);
    }
  }

  lemma UnlinkFileKeeps(s: Tree, d: int, k: int, i: int, s': Tree)
    requires Inv(s) && IsEntry(s, d, k, i) && 0 <= i < |s.inodes| && s.inodes[i].kind != DIR && s' == Unlink(s, d, k, i)
    ensures Inv(s')
  {
    hide Shape;
    UnlinkFileShape(s, d, k, i, s');
    forall j
      ensures CountOk(s', j)
    {
      assert CountOk(s, j);
      UnlinkFileLinks(s, d, k, i, s', j);
      if j == i {
        MoreLinks(s', s, i, d, k);
      } else {
        SameLinks(s, s', j);
      }
    }
  }

  /** isdirempty */
  predicate IsEmpty(s: Tree, i: int) {
    0 <= i < |s.inodes| && forall m :: 2 <= m < |s.inodes[i].ents| ==> s.inodes[i].ents[m].inum == 0
  }

  /** An empty directory is the parent of none, and is named by its parent entry alone. */
  lemma EmptyNoChild(s: Tree, i: int, e: int)
    requires Shape(s) && IsEmpty(s, i) && i != ROOT && Live(s, e)
    ensures |s.inodes[e].ents| >= 2 && s.inodes[e].ents[1].inum != i
  {
    assert DotsOk(s, e) && ParentOk(s, e);
  }

  lemma EmptyOneLink(s: Tree, d: int, k: int, i: int)
    requires Inv(s) && IsEntry(s, d, k, i) && 0 <= i < |s.inodes| && s.inodes[i].kind == DIR && IsEmpty(s, i)
    ensures forall e, m :: IsLink(s, e, m, i) <==> e == d && m == k
    ensures s.inodes[i].nlink == 1
  {
    EntryLinks(s, d, k, i);
    forall e, m | IsLink(s, e, m, i)
      ensures e == d && m == k
    {
      EmptyNoChild(s, i, e);
      assert DotsOk(s, e) && EntOk(s, e, m) && EntsDiffer(s, d, m, k) && EntsDiffer(s, d, k, m);
    }
    assert CountOk(s, i) && InodeOk(s, i);
    InLinks(s, i, d, k);
    forall x | x in Links(s, i)
      ensures x == (d, k)
    {
      InLinks(s, i, x.0, x.1);
    }
    assert Links(s, i) == {(d, k)};
  }

  /** The directory d of another directory i has two links: the ".." of i and its own. */
  lemma ParentTwoLinks(s: Tree, d: int, k: int, i: int)
    requires Inv(s) && IsEntry(s, d, k, i) && 0 <= i < |s.inodes| && s.inodes[i].kind == DIR
    ensures s.inodes[d].nlink >= 2 && IsLink(s, i, 1, d)
  {
    EntryLinks(s, d, k, i);
    assert DotsOk(s, d) && ParentOk(s, d) && DotsOk(s, i) && CountOk(s, d);
    var up, m := d, 1;
    if d != ROOT {
      up := s.inodes[d].ents[1].inum;
      m :| IsEntry(s, up, m, d);
      EntryLinks(s, up, m, d);
    }
    assert IsLink(s, up, m, d) && IsLink(s, i, 1, d);
    InLinks(s, d, up, m);
    InLinks(s, d, i, 1);
    TwoIn(Links(s, d), (up, m), (i, 1));
  }

  lemma TwoIn(a: set<(int, int)>, x: (int, int), y: (int, int))
    requires x in a && y in a && x != y
    ensures |a| >= 2
  {
    assert {x, y} <= a;
    assert a == {x, y} + (a - {x, y});
  }

  lemma UnlinkDirLinks(s: Tree, d: int, k: int, i: int, s': Tree, j: int)
    requires Inv(s) && IsEntry(s, d, k, i) && 0 <= i < |s.inodes| && s.inodes[i].kind == DIR && IsEmpty(s, i)
    requires s' == Unlink(s, d, k, i)
    ensures i != d && |s'.inodes| == |s.inodes| && forall e :: Live(s', e) <==> Live(s, e) && e != i
    ensures if j == i then OneMore(s', s, i, d, k) else if j == d then OneMore(s', s, d, i, 1)
            else forall e, m :: IsLink(s', e, m, j) <==> IsLink(s, e, m, j)
  {
    EntryLinks(s, d, k, i);
    EmptyOneLink(s, d, k, i);
    ParentTwoLinks(s, d, k, i);
    assert DotsOk(s, i);
    hide Inv;
  }

  lemma UnlinkDirShape(s: Tree, d: int, k: int, i: int, s': Tree)
    requires Inv(s) && IsEntry(s, d, k, i) && 0 <= i < |s.inodes| && s.inodes[i].kind == DIR && IsEmpty(s, i)
    requires s' == Unlink(s, d, k, i)
    ensures Shape(s')
  {
    EntryLinks(s, d, k, i);
    UnlinkDirLinks(s, d, k, i, s', i);
    forall j
      ensures InodeOk(s', j)
    {
      assert InodeOk(s, j);
    }
    forall e
      ensures DotsOk(s', e) && ParentOk(s', e)
    {
      assert DotsOk(s, e) && ParentOk(s, e);
      if Live(s, e) {
        EmptyNoChild(s, i, e);
        if e != ROOT && e != i {
          var m :| IsEntry(s, s.inodes[e].ents[1].inum, m, e);
          assert IsEntry(s', s.inodes[e].ents[1].inum, m, e);
        }
      }
    }
    forall e, m
      ensures EntOk(s', e, m) && EntRange(s', e, m)
    {
      assert EntOk(s, e, m) && EntRange(s, e, m);
    }
    forall e, m, n
      ensures EntsDiffer(s', e, m, n)
    {
      assert EntsDiffer(s, e, m, n);
    }
  }

  lemma UnlinkDirKeeps(s: Tree, d: int, k: int, i: int, s': Tree)
    requires Inv(s) && IsEntry(s, d, k, i) && 0 <= i < |s.inodes| && s.inodes[i].kind == DIR && IsEmpty(s, i)
    requires s' == Unlink(s, d, k, i)
    ensures Inv(s')
  {
    hide Shape;
    UnlinkDirShape(s, d, k, i, s');
    forall j
      ensures CountOk(s', j)
    {
      assert CountOk(s, j);
      UnlinkDirLinks(s, d, k, i, s', j);
      if j == i {
        MoreLinks(s', s, i, d, k);
      } else if j == d {
        MoreLinks(s', s, d, i, 1);
      } else {
        SameLinks(s, s', j);
      }
    }
  }

  // ---- create of a directory -------------------------------------------------------------------

  ghost predicate MayCreate(s: Tree, d: int, k: int, name: string, i: int) {
    MayEnter(s, d, k, name) && 0 < i < |s.inodes| && s.inodes[i].kind == FREE
  }

  lemma CreateDirLinks(s: Tree, d: int, k: int, name: string, i: int, s': Tree, j: int)
    requires Inv(s) && MayCreate(s, d, k, name, i) && s' == Create(s, d, k, name, i, DIR)
    ensures i != d && i != ROOT && |s'.inodes| == |s.inodes| && forall e :: Live(s', e) <==> Live(s, e) || e == i
    ensures if j == i then OneMore(s, s', i, d, k) else if j == d then OneMore(s, s', d, i, 1)
            else forall e, m :: IsLink(s', e, m, j) <==> IsLink(s, e, m, j)
  {
    assert InodeOk(s, i) && InodeOk(s, d) && CountOk(s, d);
    SlotFacts(s, d, k, name);
    forall e, m
      ensures !IsLink(s, e, m, i)
    {
      FreeUnlinked(s, e, m, i);
    }
    hide Inv;
  }

  lemma CreateDirShape(s: Tree, d: int, k: int, name: string, i: int, s': Tree)
    requires Inv(s) && MayCreate(s, d, k, name, i) && s' == Create(s, d, k, name, i, DIR)
    ensures Shape(s')
  {
    CreateDirLinks(s, d, k, name, i, s', i);
    forall j
      ensures InodeOk(s', j)
    {
      assert InodeOk(s, j);
    }
    forall e
      ensures DotsOk(s', e) && ParentOk(s', e)
    {
      CreateDirDir(s, d, k, name, i, s', e);
    }
    forall e, m
      ensures EntOk(s', e, m) && EntRange(s', e, m)
    {
      assert EntRange(s, e, m);
      CreateDirEnt(s, d, k, name, i, s', e, m);
    }
    forall e, m, n
      ensures EntsDiffer(s', e, m, n)
    {
      CreateDirDiffer(s, d, k, name, i, s', e, m, n);
    }
  }

  lemma CreateDirDir(s: Tree, d: int, k: int, name: string, i: int, s': Tree, e: int)
    requires Inv(s) && MayCreate(s, d, k, name, i) && s' == Create(s, d, k, name, i, DIR)
    ensures DotsOk(s', e) && ParentOk(s', e)
  {
    CreateDirLinks(s, d, k, name, i, s', i);
    SlotFacts(s, d, k, name);
    assert DotsOk(s, e) && ParentOk(s, e);
    if e == i {
      assert IsEntry(s', d, k, i);
    } else if Live(s, e) && e != ROOT {
      var m :| IsEntry(s, s.inodes[e].ents[1].inum, m, e);
      assert IsEntry(s', s.inodes[e].ents[1].inum, m, e);
    }
  }

  lemma CreateDirEnt(s: Tree, d: int, k: int, name: string, i: int, s': Tree, e: int, m: int)
    requires Inv(s) && MayCreate(s, d, k, name, i) && s' == Create(s, d, k, name, i, DIR)
    ensures EntOk(s', e, m)
  {
    CreateDirLinks(s, d, k, name, i, s', i);
    SlotFacts(s, d, k, name);
    assert EntOk(s, e, m);
    if IsEntry(s, e, m, i) {
      FreeUnlinked(s, e, m, i);
    }
    hide Inv;
  }

  lemma CreateDirDiffer(s: Tree, d: int, k: int, name: string, i: int, s': Tree, e: int, m: int, n: int)
    requires Inv(s) && MayCreate(s, d, k, name, i) && s' == Create(s, d, k, name, i, DIR)
    ensures EntsDiffer(s', e, m, n)
  {
    CreateDirLinks(s, d, k, name, i, s', i);
    SlotFacts(s, d, k, name);
    assert EntsDiffer(s, e, m, n) && EntOk(s, e, m) && EntOk(s, e, n);
    FreeUnlinked(s, e, m, i);
    FreeUnlinked(s, e, n, i);
    hide Inv;
  }

  lemma CreateDirKeeps(s: Tree, d: int, k: int, name: string, i: int, s': Tree)
    requires Inv(s) && MayCreate(s, d, k, name, i) && s' == Create(s, d, k, name, i, DIR)
    ensures Inv(s')
  {
    CreateDirShape(s, d, k, name, i, s');
    assert CountOk(s, i) && InodeOk(s, i) && InodeOk(s, d);
    hide Shape;
    forall j
      ensures CountOk(s', j)
    {
      assert CountOk(s, j);
      CreateDirLinks(s, d, k, name, i, s', j);
      if j == i {
        MoreLinks(s, s', i, d, k);
      } else if j == d {
        MoreLinks(s, s', d, i, 1);
      } else {
        SameLinks(s, s', j);
      }
    }
  }

  // ---- iput ------------------------------------------------------------------------------------

  lemma DropKeeps(s: Tree, i: int, s': Tree)
    requires Inv(s) && 0 < i < |s.inodes| && s.inodes[i].nlink == 0 && s' == Drop(s, i)
    ensures Inv(s')
  {
    assert CountOk(s, i) && InodeOk(s, i);
    forall j
      ensures InodeOk(s', j) && CountOk(s', j)
    {
      assert InodeOk(s, j) && CountOk(s, j);
      SameLinks(s, s', j);
    }
    forall e
      ensures DotsOk(s', e) && ParentOk(s', e)
    {
      assert DotsOk(s, e) && ParentOk(s, e);
      if Live(s, e) && e != ROOT {
        var m :| IsEntry(s, s.inodes[e].ents[1].inum, m, e);
        assert IsEntry(s', s.inodes[e].ents[1].inum, m, e);
      }
    }
    forall e, m
      ensures EntOk(s', e, m) && EntRange(s', e, m)
    {
      assert EntOk(s, e, m) && EntRange(s, e, m);
    }
    forall e, m, n
      ensures EntsDiffer(s', e, m, n)
    {
      assert EntsDiffer(s, e, m, n);
    }
  }

  // ---- The tree that mkfs makes ----------------------------------------------------------------

  /** Directory entries per block. */
  const PER_BLOCK: nat := 32

  /** main rounds the root up to whole blocks, and by one more when it ends at one. */
  function Padding(n: nat): nat {
    PER_BLOCK - (n + 2) % PER_BLOCK
  }

  /** The entries of the root: ".", "..", one for each name, and unused ones. */
  function RootEnts(names: seq<string>): (r: seq<Dirent>)
    ensures |r| == 2 + |names| + Padding(|names|)
  {
    [Dirent(ROOT, "."), Dirent(ROOT, "..")]
    + seq(|names|, j requires 0 <= j < |names| => Dirent(2 + j, names[j]))
    + seq(Padding(|names|), _ => Dirent(0, ""))
  }

  /** The root, one file for each name, and free inodes. */
  function Made(names: seq<string>, free: nat): Tree {
    Tree([Inode(FREE, 0, []), Inode(DIR, 1, RootEnts(names))]
         + seq(|names|, _ => Inode(FILE, 1, [])) + seq(free, _ => Inode(FREE, 0, [])), multiset{})
  }

  lemma MadeLinks(names: seq<string>, free: nat, d: int, k: int, i: int)
    requires forall j :: 0 <= j < |names| ==> names[j] != "."
    ensures IsLink(Made(names, free), d, k, i) <==>
            d == ROOT && 1 <= k < |names| + 2 && i == k
  {
  }

  lemma MadeCount(names: seq<string>, free: nat, i: int)
    requires forall j :: 0 <= j < |names| ==> names[j] != "."
    ensures CountOk(Made(names, free), i)
  {
    var s := Made(names, free);
    var one := if 1 <= i < |names| + 2 then {(ROOT, i)} else {};
    forall x | x in Links(s, i)
      ensures x in one
    {
      InLinks(s, i, x.0, x.1);
      MadeLinks(names, free, x.0, x.1, i);
    }
    InLinks(s, i, ROOT, i);
    MadeLinks(names, free, ROOT, i, i);
    assert Links(s, i) == one;
  }

  lemma MadeEnts(names: seq<string>, free: nat, d: int, k: int)
    requires forall j :: 0 <= j < |names| ==> names[j] != "." && names[j] != ".."
    ensures EntOk(Made(names, free), d, k) && EntRange(Made(names, free), d, k)
  {
  }

  lemma MadeDiffer(names: seq<string>, free: nat, d: int, j: int, k: int)
    requires forall j, k :: 0 <= j < k < |names| ==> names[j] != names[k]
    ensures EntsDiffer(Made(names, free), d, j, k)
  {
  }

  lemma MadeInodes(names: seq<string>, free: nat, i: int)
    ensures Live(Made(names, free), ROOT)
    ensures InodeOk(Made(names, free), i) && DotsOk(Made(names, free), i) && ParentOk(Made(names, free), i)
  {
  }

  lemma MadeInv(names: seq<string>, free: nat)
    requires forall j :: 0 <= j < |names| ==> names[j] != "." && names[j] != ".."
    requires forall j, k :: 0 <= j < k < |names| ==> names[j] != names[k]
    ensures Inv(Made(names, free))
  {
    var s := Made(names, free);
    hide Made;
    hide CountOk;
    hide InodeOk;
    hide DotsOk;
    hide ParentOk;
    hide EntOk;
    hide EntRange;
    hide EntsDiffer;
    MadeInodes(names, free, 0);
    forall i
      ensures CountOk(s, i) && InodeOk(s, i) && DotsOk(s, i) && ParentOk(s, i)
    {
      MadeCount(names, free, i);
      MadeInodes(names, free, i);
    }
    forall d, k
      ensures EntOk(s, d, k) && EntRange(s, d, k)
    {
      MadeEnts(names, free, d, k);
    }
    forall d, j, k
      ensures EntsDiffer(s, d, j, k)
    {
      MadeDiffer(names, free, d, j, k);
    }
  }

  // ---- Every run -------------------------------------------------------------------------------

  datatype Event =
    | BeginLink(i: int)
    | EndLink(d: int, k: int, name: string, i: int)
    | UndoLink(i: int)
    | Remove(d: int, k: int, i: int)
    | Make(d: int, k: int, name: string, i: int, kind: Kind)
    | LastPut(i: int)

  /** What the calls of any number of processes do, one locked stretch after the other; each
      works in a live directory. */
  ghost predicate Enabled(s: Tree, e: Event) {
    match e
    case BeginLink(i) => IsFile(s, i)
    case EndLink(d, k, name, i) => MayEnter(s, d, k, name) && 0 < i < |s.inodes| && s.pending[i] > 0
    case UndoLink(i) => 0 < i < |s.inodes| && s.pending[i] > 0
    case Remove(d, k, i) => IsEntry(s, d, k, i) && 0 <= i < |s.inodes| && (s.inodes[i].kind == DIR ==> IsEmpty(s, i))
    case Make(d, k, name, i, kind) => MayCreate(s, d, k, name, i) && kind != FREE
    case LastPut(i) => 0 < i < |s.inodes| && s.inodes[i].nlink == 0
  }

  ghost function Next(s: Tree, e: Event): Tree
    requires Enabled(s, e)
  {
    match e
    case BeginLink(i) => LinkBegin(s, i)
    case EndLink(d, k, name, i) => LinkDone(s, d, k, name, i)
    case UndoLink(i) => LinkUndo(s, i)
    case Remove(d, k, i) => Unlink(s, d, k, i)
    case Make(d, k, name, i, kind) => Create(s, d, k, name, i, kind)
    case LastPut(i) => Drop(s, i)
  }

  lemma NextKeeps(s: Tree, e: Event, s': Tree)
    requires Inv(s) && Enabled(s, e) && s' == Next(s, e)
    ensures Inv(s')
  {
    hide Inv;
    match e {
      case BeginLink(i) => LinkBeginKeeps(s, i, s');
      case EndLink(d, k, name, i) => LinkDoneKeeps(s, d, k, name, i, s');
      case UndoLink(i) => LinkUndoKeeps(s, i, s');
      case Remove(d, k, i) =>
        if s.inodes[i].kind == DIR {
          UnlinkDirKeeps(s, d, k, i, s');
        } else {
          UnlinkFileKeeps(s, d, k, i, s');
        }
      case Make(d, k, name, i, kind) =>
        if kind == DIR {
          CreateDirKeeps(s, d, k, name, i, s');
        } else {
          CreateFileKeeps(s, d, k, name, i, kind, s');
        }
      case LastPut(i) => DropKeeps(s, i, s');
    }
  }

  ghost predicate Step(s: Tree, e: Event, s': Tree) {
    Enabled(s, e) && s' == Next(s, e)
  }

  ghost predicate Run(states: seq<Tree>, events: seq<Event>) {
    && |states| == |events| + 1 && Inv(states[0])
    && forall k :: 0 <= k < |events| ==> Step(states[k], events[k], states[k + 1])
  }

  lemma {:induction false} RunKeeps(states: seq<Tree>, events: seq<Event>, k: nat)
    requires Run(states, events) && k < |states|
    ensures Inv(states[k])
  {
    hide Inv;
    hide Next;
    hide Enabled;
    if k > 0 {
      RunKeeps(states, events, k - 1);
      assert Step(states[k - 1], events[k - 1], states[k]);
      NextKeeps(states[k - 1], events[k - 1], states[k]);
    }
  }

  /** In every run, once no link is under way, every count is the number of entries other than
      "." in live directories. */
  lemma CountsAreLinks(states: seq<Tree>, events: seq<Event>, k: nat, i: int)
    requires Run(states, events) && k < |states| && 0 < i < |states[k].inodes| && states[k].pending == multiset{}
    ensures states[k].inodes[i].nlink == |Links(states[k], i)|
  {
    hide Step;
    RunKeeps(states, events, k);
    assert CountOk(states[k], i);
  }

  /** And every live directory but the root has exactly one parent entry, in the directory that
      its ".." names. */
  lemma OneParent(states: seq<Tree>, events: seq<Event>, n: nat, d: int)
    requires Run(states, events) && n < |states| && Live(states[n], d) && d != ROOT
    ensures exists p, k :: IsEntry(states[n], p, k, d)
    ensures forall p, k, q, m :: IsEntry(states[n], p, k, d) && IsEntry(states[n], q, m, d) ==> p == q && k == m
    ensures |states[n].inodes[d].ents| >= 2
    ensures forall p, k :: IsEntry(states[n], p, k, d) ==> states[n].inodes[d].ents[1] == Dirent(p, "..")
  {
    hide Step;
    RunKeeps(states, events, n);
    var s := states[n];
    assert DotsOk(s, d) && ParentOk(s, d);
    forall p, k, q, m | IsEntry(s, p, k, d) && IsEntry(s, q, m, d)
      ensures p == q && k == m
    {
      assert EntOk(s, p, k) && EntOk(s, q, m) && EntsDiffer(s, p, k, m) && EntsDiffer(s, p, m, k);
    }
    forall p, k | IsEntry(s, p, k, d)
      ensures s.inodes[d].ents[1] == Dirent(p, "..")
    {
      assert EntOk(s, p, k);
    }
  }

  /** Why the directory must be live: the count of a file made in a directory is right if and
      only if nobody has removed that directory before. */
  lemma CreateIffLive(s: Tree, d: int, k: int, name: string, i: int)
    requires Inv(s) && 0 < d < |s.inodes| && s.inodes[d].kind == DIR && FreeSlot(s, d, k) && name != "."
    requires 0 < i < |s.inodes| && s.inodes[i].kind == FREE
    ensures CountOk(Create(s, d, k, name, i, FILE), i) <==> Live(s, d)
  {
    var s' := Create(s, d, k, name, i, FILE);
    assert InodeOk(s, i) && CountOk(s, i);
    forall e, m
      ensures !IsLink(s, e, m, i)
    {
      FreeUnlinked(s, e, m, i);
    }
    hide Inv;
    if Live(s, d) {
      assert OneMore(s, s', i, d, k);
      MoreLinks(s, s', i, d, k);
    } else {
      SameLinks(s, s', i);
    }
  }

  /** The same for a link: its count is right if and only if the directory is still part of the tree. */
  lemma LinkIffLive(s: Tree, i: int, d: int, k: int, name: string)
    requires Inv(s) && IsFile(s, i) && 0 < d < |s.inodes| && s.inodes[d].kind == DIR
    requires FreeSlot(s, d, k) && !HasName(s, d, name) && FreeSlot(LinkBegin(s, i), d, k)
    ensures Inv(LinkDone(LinkBegin(s, i), d, k, name, i)) <==> Live(s, d)
  {
    var s1 := LinkBegin(s, i);
    var s' := LinkDone(s1, d, k, name, i);
    LinkBeginKeeps(s, i, s1);
    assert CountOk(s, i);
    if Live(s, d) {
      assert s1.inodes[d] == s.inodes[d];
      LinkDoneKeeps(s1, d, k, name, i, s');
    } else {
      hide Shape;
      SameLinks(s, s', i);
      assert !CountOk(s', i);
    }
  }

  /** And for unlink, of a name in a removed directory. */
  lemma UnlinkBreaks(s: Tree, d: int, k: int, i: int, s': Tree)
    requires Inv(s) && 0 < d < |s.inodes| && s.inodes[d].kind == DIR && !Live(s, d)
    requires HasEnt(s, d, k) && 0 < i < |s.inodes| && s.inodes[i].nlink >= 1 && s' == Unlink(s, d, k, i)
    requires s.inodes[i].kind == DIR ==> IsEmpty(s, i)
    ensures !Inv(s')
  {
    hide Shape;
    assert CountOk(s, i);
    if s.inodes[i].kind != DIR {
      SameLinks(s, s', i);
      assert !CountOk(s', i);
    } else {
      assert s'.inodes[d].nlink < 0;
      assert !CountOk(s', d);
    }
  }
}
