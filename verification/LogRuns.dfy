/** The buffer cache and the log as one system: every interleaving of readers, of operations
    and of the block writes of a commit, with a crash and a reboot at any point. */
module LogRuns {
  import opened Blocks
  import opened CacheModel
  import opened Logs
  import opened RedoLog

  /** What the log is doing. A commit that has made k of its writes started from the disk image
      base and copies data. */
  datatype Phase = Open | Committing(base: Image, data: seq<Block>, k: nat)

  /** hdr, unspent and editor are as in class Log. checked: the buffers whose log_write has made its
      tests and not taken log.lock yet, each with its operation. durable has the home blocks as of
      the last header write: what a crash must not lose. */
  datatype System = System(cache: Cache, hdr: seq<nat>, unspent: map<nat, nat>, editor: map<nat, nat>,
                           checked: map<nat, nat>, phase: Phase, durable: Image)

  /** One atomic step of a process, or a crash followed by a reboot whose first recoveries crash
      after ks[0], ks[1], ... writes. */
  datatype Event =
    | Refer(pid: nat, i: nat)
    | Reuse(pid: nat, i: nat, dev: nat, blockno: nat)
    | Lock(pid: nat, i: nat)
    | Read(pid: nat, i: nat)
    | Unlock(pid: nat, i: nat)
    | Unrefer(pid: nat, i: nat)
    | BeginOp(op: nat)
    | Edit(op: nat, pid: nat, i: nat, data: Block)
    | Check(op: nat, pid: nat, i: nat)     // the tests of log_write
    | LogWrite(op: nat, pid: nat, i: nat)  // the rest of it, under log.lock
    | EndOp(op: nat)
    | Advance(pid: nat, i: nat, j: nat)
    | Finish
    | Reboot(ks: seq<nat>)

  // ---- The writes of a commit, one by one ----------------------------------------------

  /** The block that write k of a commit reads. */
  function Source(L: Layout, h: seq<nat>, k: nat): nat {
    if k < |h| then h[k] else if |h| < k <= 2 * |h| then L.start + k - |h| else L.start
  }

  /** The block that it writes. */
  function Target(L: Layout, h: seq<nat>, k: nat): nat {
    if k < |h| then L.start + 1 + k else if |h| < k <= 2 * |h| then h[k - |h| - 1] else L.start
  }

  /** What it writes, having read d: a copy, or the header with its new length and list. */
  function Copied(h: seq<nat>, k: nat, d: Block): Block
    requires |h| <= LOGSIZE
  {
    if k == |h| then EncodeHead(d, h) else if k == 2 * |h| + 1 then EncodeHead(d, []) else d
  }

  function Length(h: seq<nat>): nat {
    if h == [] then 0 else 2 * |h| + 2
  }

  // ---- Steps ----------------------------------------------------------------------------

  /** Process pid has buffer i locked, and the buffer has block b. */
  predicate Holding(c: Cache, pid: nat, i: nat, b: nat) {
    i < |c.bufs| && c.bufs[i].holder == pid != 0 && c.bufs[i].valid && c.bufs[i].Is(DISK_DEV, b)
  }

  /** Operation op, run by pid, may change buffer i. */
  predicate Editable(s: System, L: Layout, op: nat, pid: nat, i: nat) {
    && op in s.unspent && i < |s.cache.bufs| && s.cache.bufs[i].holder == pid != 0
    && s.cache.bufs[i].valid && !L.Holds(s.cache.bufs[i].blockno)
  }

  /** A step of bget, bread or brelse. */
  predicate OnBuffer(e: Event) {
    e.Refer? || e.Reuse? || e.Lock? || e.Read? || e.Unlock? || e.Unrefer?
  }

  predicate BufferEnabled(c: Cache, e: Event)
    requires OnBuffer(e)
  {
    match e
    case Refer(pid, i) => i < |c.bufs| && i < |c.refs| && pid !in c.refs[i]
    case Reuse(pid, i, dev, b) =>
      i < |c.bufs| && c.bufs[i].Recyclable() && forall j :: 0 <= j < |c.bufs| ==> !c.bufs[j].Is(dev, b)
    case Lock(pid, i) => i < |c.bufs| && i < |c.refs| && pid in c.refs[i] && c.bufs[i].holder == 0 && pid != 0
    case Read(pid, i) =>
      && i < |c.bufs| && c.bufs[i].holder == pid != 0 && !c.bufs[i].valid
      && c.bufs[i].dev == DISK_DEV && c.bufs[i].blockno < |c.disk|
    case Unlock(pid, i) => i < |c.bufs| && c.bufs[i].holder == pid != 0 && i !in c.touched
    case Unrefer(pid, i) => i < |c.bufs| && i < |c.refs| && pid in c.refs[i] && c.bufs[i].holder != pid
  }

  ghost predicate Enabled(s: System, L: Layout, e: Event) {
    var c := s.cache;
    if OnBuffer(e) then BufferEnabled(c, e) && (e.Unlock? ==> e.i !in s.checked)
    else match e
    case BeginOp(op) =>
      s.phase.Open? && op !in s.unspent && |s.hdr| + (|s.unspent| + 1) * MAXOPBLOCKS <= LOGSIZE
    case Edit(op, pid, i, data) => Editable(s, L, op, pid, i)
    case Check(op, pid, i) => Editable(s, L, op, pid, i) && |s.hdr| < LOGSIZE && |s.hdr| < L.size - 1
    case LogWrite(op, pid, i) => Editable(s, L, op, pid, i) && i in s.checked && s.checked[i] == op
    case EndOp(op) =>
      && op in s.unspent && (forall i :: i in s.checked ==> s.checked[i] != op)
      && (forall i :: i in c.touched && i in s.editor ==> s.editor[i] != op)
    case Advance(pid, i, j) =>
      && s.phase.Committing? && s.phase.k < Length(s.hdr)
      && Holding(c, pid, i, Source(L, s.hdr, s.phase.k)) && Holding(c, pid, j, Target(L, s.hdr, s.phase.k))
    case Finish => s.phase.Committing? && s.phase.k == Length(s.hdr)
    case Reboot(ks) => true
  }

  /** memmove and bwrite on a locked buffer. */
  function WriteOver(c: Cache, j: nat, d: Block): Cache
    requires j < |c.bufs| && c.bufs[j].blockno < |c.content| == |c.disk|
  {
    WriteThrough(Modify(c, j, d), j)
  }

  /** binit: n buffers with nothing in them. */
  function Fresh(n: nat, d: Image): Cache {
    Cache(seq(n, _ => Buf(0, 0, false, false, 0, 0, ZeroBlock())), d, d, seq(n, _ => {}), {}, map[])
  }

  function Rebuffer(c: Cache, e: Event): Cache
    requires Inv(c) && OnBuffer(e) && BufferEnabled(c, e)
  {
    match e
    case Refer(pid, i) => Hit(c, pid, i)
    case Reuse(pid, i, dev, b) => Recycle(c, pid, i, dev, b)
    case Lock(pid, i) => SetHolder(c, i, pid)
    case Read(pid, i) => Fill(c, i)
    case Unlock(pid, i) => SetHolder(c, i, 0)
    case Unrefer(pid, i) => Drop(c, pid, i)
  }

  /** What the steps need of a state. */
  ghost predicate Shaped(s: System, L: Layout) {
    && Inv(s.cache) && Recoverable(s.cache.disk, L)
    && |s.hdr| <= LOGSIZE && forall t :: 0 <= t < |s.hdr| ==> s.hdr[t] < |s.cache.content|
  }

  ghost function Do(s: System, L: Layout, e: Event): System
    requires Shaped(s, L) && Enabled(s, L, e)
  {
    var c := s.cache;
    if OnBuffer(e) then s.(cache := Rebuffer(c, e))
    else match e
    case BeginOp(op) => s.(unspent := s.unspent[op := MAXOPBLOCKS])
    case Edit(op, pid, i, data) => s.(cache := Modify(c, i, data), editor := s.editor[i := op])
    case Check(op, pid, i) => s.(checked := s.checked[i := op])
    case LogWrite(op, pid, i) =>
      var hdr := Absorb(s.hdr, c.bufs[i].blockno);
      s.(cache := Pin(c, i), hdr := hdr, checked := s.checked - {i},
         unspent := if hdr == s.hdr || s.unspent[op] == 0 then s.unspent
                    else s.unspent[op := s.unspent[op] - 1])
    case EndOp(op) =>
      var unspent := s.unspent - {op};
      s.(unspent := unspent,
         phase := if unspent == map[] then Committing(c.disk, Newest(c.content, s.hdr), 0) else Open)
    case Advance(pid, i, j) =>
      var k := s.phase.k;
      s.(cache := WriteOver(c, j, Copied(s.hdr, k, c.bufs[i].data)), phase := s.phase.(k := k + 1),
         durable := if k == |s.hdr| then c.content else s.durable)
    case Finish => s.(hdr := [], phase := Open)
    case Reboot(ks) =>
      var d := Recovered(CrashedRecoveries(c.disk, L, ks), L);
      System(Fresh(|c.bufs|, d), [], map[], map[], map[], Open, s.durable)
  }

  // ---- The invariant ----------------------------------------------------------------------

  /** k writes of the commit of h are done: they are on disk, the copies read so far are in the
      log, and the blocks that are not home yet are in the cache. */
  ghost predicate Midway(c: Cache, L: Layout, h: seq<nat>, base: Image, data: seq<Block>, k: nat) {
    && |h| == |data| && Legal(L, h, |base|) && Clean(base, L) && |c.content| == |c.disk|
    && k <= Length(h) && c.disk == Apply(base, CommitWrites(base, L, h, data), k)
    && CopiesMade(c.content, L, h, base, data, k)
    && (forall b :: b in c.slot ==> !L.Holds(b) && Find(h, b) < |h| && k <= |h| + 1 + Find(h, b))
  }

  /** The newest home blocks are those of the transaction; the log has its first k copies, and
      from write |h| on its header. */
  ghost predicate CopiesMade(content: Image, L: Layout, h: seq<nat>, base: Image, data: seq<Block>, k: nat)
    requires |h| == |data| && Legal(L, h, |base|)
  {
    && |content| == |base|
    && (forall t :: 0 <= t < |h| ==> content[h[t]] == data[t])
    && (forall b :: 0 <= b < |base| && !L.Holds(b) && Find(h, b) == |h| ==> content[b] == base[b])
    && (k <= 2 * |h| + 1 ==> content[L.start] == if k <= |h| then base[L.start] else EncodeHead(base[L.start], h))
    && (forall t :: 0 <= t < |h| && t < k ==> content[L.start + 1 + t] == data[t])
  }

  /** The home blocks that a crash now would leave. */
  ghost predicate Lasting(L: Layout, h: seq<nat>, base: Image, data: seq<Block>, k: nat, durable: Image)
    requires |h| == |data| && Legal(L, h, |base|)
  {
    SameHome(if k > |h| then Updated(base, h, data) else base, durable, L)
  }

  ghost predicate Sound(s: System, L: Layout) {
    && Shaped(s, L) && Edited(s.cache, s.unspent, s.editor)
    && match s.phase
       case Open => Listed(s.cache, L, s.hdr) && SameHome(s.cache.disk, s.durable, L)
       case Committing(base, data, k) =>
         && s.unspent == map[] && Midway(s.cache, L, s.hdr, base, data, k)
         && Lasting(L, s.hdr, base, data, k, s.durable)
  }

  lemma MidwayRecoverable(c: Cache, L: Layout, h: seq<nat>, base: Image, data: seq<Block>, k: nat, durable: Image)
    requires Midway(c, L, h, base, data, k) && Lasting(L, h, base, data, k, durable)
    ensures Recoverable(c.disk, L) && |c.disk| == |durable|
    ensures forall b :: 0 <= b < |c.disk| && !L.Holds(b) ==> RedoLog.Settled(c.disk, L, b) == durable[b]
    ensures k == Length(h) ==> Clean(c.disk, L)
  {
    CrashedCommit(base, L, h, data, k);
  }

  /** Whatever the system is doing, replaying the log gives the durable home blocks. */
  lemma SoundRecoverable(s: System, L: Layout)
    requires Sound(s, L)
    ensures Recoverable(s.cache.disk, L) && |s.cache.disk| == |s.durable|
    ensures forall b :: 0 <= b < |s.cache.disk| && !L.Holds(b) ==>
              RedoLog.Settled(s.cache.disk, L, b) == s.durable[b]
  {
    if s.phase.Committing? {
      MidwayRecoverable(s.cache, L, s.hdr, s.phase.base, s.phase.data, s.phase.k, s.durable);
    }
  }

  // ---- Steps that change neither the blocks nor the log --------------------------------------

  ghost predicate Unseen(c: Cache, c': Cache) {
    && c'.disk == c.disk && c'.content == c.content && c'.slot == c.slot && c'.touched == c.touched
    && |c'.bufs| == |c.bufs|
    && forall i :: 0 <= i < |c.bufs| && c.bufs[i].dirty ==>
         c'.bufs[i].dirty && c'.bufs[i].blockno == c.bufs[i].blockno
  }

  lemma UnseenSound(s: System, L: Layout, c': Cache)
    requires Sound(s, L) && Unseen(s.cache, c') && Inv(c')
    ensures Sound(s.(cache := c'), L)
  {
    hide Inv;
    hide Lasting;
    hide Legal;
    hide Clean;
    hide SameHome;
  }

  lemma RebufferInv(c: Cache, e: Event)
    requires Inv(c) && OnBuffer(e) && BufferEnabled(c, e)
    ensures Inv(Rebuffer(c, e))
  {
    match e {
      case Refer(pid, i) => HitKeeps(c, pid, i);
      case Reuse(pid, i, dev, b) => RecycleKeeps(c, pid, i, dev, b);
      case Lock(pid, i) => LockKeeps(c, i, pid);
      case Read(pid, i) => FillKeeps(c, i);
      case Unlock(pid, i) => UnlockKeeps(c, i);
      case Unrefer(pid, i) => DropKeeps(c, pid, i);
    }
    hide Inv;
  }

  lemma RebufferUnseen(c: Cache, e: Event)
    requires Inv(c) && OnBuffer(e) && BufferEnabled(c, e)
    ensures Inv(Rebuffer(c, e)) && Unseen(c, Rebuffer(c, e))
  {
    RebufferInv(c, e);
    hide Unique;
    hide Current;
    hide Pinned;
  }

  lemma BufferStep(s: System, L: Layout, e: Event)
    requires Sound(s, L) && OnBuffer(e) && Enabled(s, L, e)
    ensures Sound(Do(s, L, e), L)
  {
    hide Inv;
    RebufferUnseen(s.cache, e);
    UnseenSound(s, L, Rebuffer(s.cache, e));
  }

  lemma SoundInv(s: System, L: Layout)
    requires Sound(s, L)
    ensures Inv(s.cache) && Edited(s.cache, s.unspent, s.editor)
    ensures s.unspent != map[] ==> s.phase.Open?
    ensures s.phase.Open? ==> Listed(s.cache, L, s.hdr) && SameHome(s.cache.disk, s.durable, L)
    ensures s.phase.Committing? ==> s.cache.touched == {}
  {
    assert s.phase.Committing? ==> forall i :: i !in s.cache.touched;
  }

  // ---- Steps of operations ------------------------------------------------------------------

  lemma OpenSound(s: System, L: Layout)
    requires s.phase.Open? && Inv(s.cache) && Edited(s.cache, s.unspent, s.editor)
    requires Listed(s.cache, L, s.hdr) && SameHome(s.cache.disk, s.durable, L)
    ensures Sound(s, L)
  {
  }

  lemma BeginStep(s: System, L: Layout, op: nat)
    requires Sound(s, L) && Enabled(s, L, BeginOp(op))
    ensures Sound(Do(s, L, BeginOp(op)), L)
  {
    hide Inv;
    SoundInv(s, L);
    OpenSound(Do(s, L, BeginOp(op)), L);
  }

  lemma EditStep(s: System, L: Layout, op: nat, pid: nat, i: nat, data: Block)
    requires Sound(s, L) && Enabled(s, L, Edit(op, pid, i, data))
    ensures Sound(Do(s, L, Edit(op, pid, i, data)), L)
  {
    hide Inv;
    hide Listed;
    hide Edited;
    SoundInv(s, L);
    ListedEdit(s.cache, L, s.hdr, i, data);
    EditedMore(s.cache, i, data, s.unspent, s.editor, op);
    ModifyKeeps(s.cache, i, data);
    OpenSound(Do(s, L, Edit(op, pid, i, data)), L);
  }

  /** The block is listed already, or the header and the log have room for one more. */
  predicate Room(s: System, L: Layout, i: nat) {
    i < |s.cache.bufs| ==>
      || Absorb(s.hdr, s.cache.bufs[i].blockno) == s.hdr
      || (|s.hdr| < LOGSIZE && |s.hdr| < L.size - 1)
  }

  lemma CheckStep(s: System, L: Layout, op: nat, pid: nat, i: nat)
    requires Sound(s, L) && Enabled(s, L, Check(op, pid, i))
    ensures Sound(Do(s, L, Check(op, pid, i)), L)
  {
    hide Inv;
    SoundInv(s, L);
    OpenSound(Do(s, L, Check(op, pid, i)), L);
  }

  lemma LogWriteIs(s: System, L: Layout, op: nat, pid: nat, i: nat, s': System)
    requires Shaped(s, L) && Enabled(s, L, LogWrite(op, pid, i)) && s' == Do(s, L, LogWrite(op, pid, i))
    ensures op in s.unspent && i < |s.cache.bufs| && s.cache.bufs[i].valid && !L.Holds(s.cache.bufs[i].blockno)
    ensures s'.cache == Pin(s.cache, i) && s'.hdr == Absorb(s.hdr, s.cache.bufs[i].blockno)
    ensures s'.editor == s.editor && s'.phase == s.phase && s'.durable == s.durable
    ensures forall o :: o in s.unspent ==> o in s'.unspent
    ensures Room(s, L, i) <==> s'.hdr == s.hdr || (|s.hdr| < LOGSIZE && |s.hdr| < L.size - 1)
  {
    hide Inv;
    hide Recoverable;
    hide Absorb;
  }

  lemma PinView(c: Cache, i: nat)
    requires i < |c.bufs|
    ensures Pin(c, i).disk == c.disk
  {
  }

  lemma LogWriteStep(s: System, L: Layout, op: nat, pid: nat, i: nat)
    requires Sound(s, L) && Shaped(s, L) && Enabled(s, L, LogWrite(op, pid, i))
    ensures Sound(Do(s, L, LogWrite(op, pid, i)), L) <==> Room(s, L, i)
  {
    hide *;
    SoundInv(s, L);
    var s' := Do(s, L, LogWrite(op, pid, i));
    LogWriteIs(s, L, op, pid, i, s');
    ListedStep(s.cache, L, s.hdr, i, s.cache.bufs[i].blockno);
    EditedPin(s.cache, i, s.unspent, s'.unspent, s.editor);
    PinKeeps(s.cache, i);
    PinView(s.cache, i);
    if Room(s, L, i) {
      OpenSound(s', L);
    } else if Sound(s', L) {
      SoundInv(s', L);
    }
  }

  /** The last operation out has changed nothing that is not listed: the commit may start. */
  lemma CommitStarts(c: Cache, L: Layout, h: seq<nat>)
    requires Inv(c) && Listed(c, L, h) && c.touched == {}
    ensures forall t :: 0 <= t < |h| ==> h[t] < |c.content|
    ensures Midway(c, L, h, c.disk, Newest(c.content, h), 0)
  {
    assert L.Holds(L.start);
  }

  lemma EndOpIs(s: System, L: Layout, op: nat, s': System)
    requires Shaped(s, L) && Enabled(s, L, EndOp(op)) && s' == Do(s, L, EndOp(op))
    requires Edited(s.cache, s.unspent, s.editor) && s.phase.Open?
    ensures Edited(s'.cache, s'.unspent, s'.editor)
    ensures forall t :: 0 <= t < |s.hdr| ==> s.hdr[t] < |s.cache.content|
    ensures s' == s.(unspent := s'.unspent, phase := s'.phase)
    ensures s'.unspent != map[] ==> s'.phase == Open
    ensures s'.unspent == map[] ==> s'.phase == Committing(s.cache.disk, Newest(s.cache.content, s.hdr), 0)
    ensures s'.unspent == map[] ==> s.cache.touched == {}
  {
    hide Inv;
    hide Recoverable;
    assert forall i :: i in s.cache.touched ==> s.editor[i] in s.unspent && s.editor[i] != op;
    assert s'.unspent == map[] ==> forall i :: i in s.cache.touched ==> s.editor[i] !in s'.unspent;
  }

  lemma EndStep(s: System, L: Layout, op: nat)
    requires Sound(s, L) && Shaped(s, L) && Enabled(s, L, EndOp(op)) && op in s.unspent
    ensures Sound(Do(s, L, EndOp(op)), L)
  {
    hide *;
    SoundInv(s, L);
    var s' := Do(s, L, EndOp(op));
    EndOpIs(s, L, op, s');
    if s'.unspent == map[] {
      CommitStarts(s.cache, L, s.hdr);
      StartLasting(s.cache, L, s.hdr, s.durable);
      CommittingSound(s', L);
    } else {
      OpenSound(s', L);
    }
  }

  lemma StartLasting(c: Cache, L: Layout, h: seq<nat>, durable: Image)
    requires Listed(c, L, h) && SameHome(c.disk, durable, L)
    ensures Legal(L, h, |c.disk|) && forall t :: 0 <= t < |h| ==> h[t] < |c.content|
    ensures |Newest(c.content, h)| == |h| && Lasting(L, h, c.disk, Newest(c.content, h), 0, durable)
  {
  }

  // ---- Steps of a commit --------------------------------------------------------------------

  lemma WriteOverIs(c: Cache, j: nat, b: nat, d: Block)
    requires Inv(c) && j < |c.bufs| && c.bufs[j].holder != 0 && c.bufs[j].valid && c.bufs[j].blockno == b
    ensures b < |c.content| == |c.disk| && Inv(WriteOver(c, j, d))
    ensures var c' := WriteOver(c, j, d);
      && c'.content == c.content[b := d] && c'.disk == c.disk[b := d]
      && c'.slot == c.slot - {b} && c'.touched == c.touched - {j}
  {
    hide Inv;
    InDisk(c, j);
    ModifyKeeps(c, j, d);
    WriteThroughKeeps(Modify(c, j, d), j);
  }

  lemma InDisk(c: Cache, j: nat)
    requires Inv(c) && j < |c.bufs| && c.bufs[j].valid
    ensures c.bufs[j].blockno < |c.content| == |c.disk| && c.bufs[j].data == c.content[c.bufs[j].blockno]
  {
  }

  /** What the commit is about to write, from what it reads. */
  lemma NextWrite(c: Cache, L: Layout, h: seq<nat>, base: Image, data: seq<Block>, k: nat)
    requires Midway(c, L, h, base, data, k) && k < Length(h)
    ensures Source(L, h, k) < |c.content| && Target(L, h, k) < |c.content|
    ensures CommitWrites(base, L, h, data)[k]
            == Write(Target(L, h, k), Copied(h, k, c.content[Source(L, h, k)]))
  {
    hide EncodeHead;
    hide Apply;
    hide Clean;
    CommitWriteAt(base, L, h, data, k);
    hide CommitWrites;
  }

  lemma CommitWriteAt(d: Image, L: Layout, h: seq<nat>, data: seq<Block>, k: nat)
    requires |h| == |data| && Legal(L, h, |d|) && k < Length(h)
    ensures CommitWrites(d, L, h, data)[k]
            == if k < |h| then Write(L.start + 1 + k, data[k])
               else if k == |h| then Write(L.start, EncodeHead(d[L.start], h))
               else if k <= 2 * |h| then Write(h[k - |h| - 1], data[k - |h| - 1])
               else Write(L.start, EncodeHead(EncodeHead(d[L.start], h), []))
  {
    hide EncodeHead;
    hide Distinct;
    if k <= |h| {
      LogAndHeadAt(L, h, data, d[L.start], k);
    } else {
      InstallAndClearAt(L, h, data, EncodeHead(d[L.start], h), k - |h| - 1);
    }
    LogAndHeadAt(L, h, data, d[L.start], 0);
    hide LogAndHead;
    hide InstallAndClear;
  }

  lemma LogAndHeadAt(L: Layout, h: seq<nat>, data: seq<Block>, head: Block, k: nat)
    requires |h| == |data| <= LOGSIZE && k <= |h|
    ensures |LogAndHead(L, h, data, head)| == |h| + 1
    ensures LogAndHead(L, h, data, head)[k]
            == if k < |h| then Write(L.start + 1 + k, data[k]) else Write(L.start, EncodeHead(head, h))
  {
    hide EncodeHead;
  }

  lemma InstallAndClearAt(L: Layout, h: seq<nat>, data: seq<Block>, head: Block, k: nat)
    requires |h| == |data| && k <= |h|
    ensures |InstallAndClear(L, h, data, head)| == |h| + 1
    ensures InstallAndClear(L, h, data, head)[k]
            == if k < |h| then Write(h[k], data[k]) else Write(L.start, EncodeHead(head, []))
  {
    hide EncodeHead;
  }

  lemma AdvanceCopies(content: Image, L: Layout, h: seq<nat>, base: Image, data: seq<Block>, k: nat)
    requires |h| == |data| && Legal(L, h, |base|) && CopiesMade(content, L, h, base, data, k) && k < Length(h)
    ensures Source(L, h, k) < |content| && Target(L, h, k) < |content|
    ensures CopiesMade(content[Target(L, h, k) := Copied(h, k, content[Source(L, h, k)])], L, h, base, data, k + 1)
  {
    hide EncodeHead;
  }

  lemma AdvanceSlots(slot: map<nat, nat>, L: Layout, h: seq<nat>, k: nat)
    requires |h| < L.size && Distinct(h) && k < Length(h) && forall t :: 0 <= t < |h| ==> !L.Holds(h[t])
    requires forall b :: b in slot ==> !L.Holds(b) && Find(h, b) < |h| && k <= |h| + 1 + Find(h, b)
    ensures forall b :: b in slot - {Target(L, h, k)} ==>
              !L.Holds(b) && Find(h, b) < |h| && k + 1 <= |h| + 1 + Find(h, b)
  {
  }

  lemma AdvanceMidway(c: Cache, c': Cache, L: Layout, h: seq<nat>, base: Image, data: seq<Block>, k: nat)
    requires Midway(c, L, h, base, data, k) && k < Length(h)
    requires Source(L, h, k) < |c.content| && Target(L, h, k) < |c.content|
    requires var d := Copied(h, k, c.content[Source(L, h, k)]);
      && c'.content == c.content[Target(L, h, k) := d] && c'.disk == c.disk[Target(L, h, k) := d]
    requires c'.slot == c.slot - {Target(L, h, k)}
    ensures Midway(c', L, h, base, data, k + 1)
  {
    NextWrite(c, L, h, base, data, k);
    hide CommitWrites;
    hide CopiesMade;
    hide Copied;
    hide Clean;
    AdvanceCopies(c.content, L, h, base, data, k);
    AdvanceSlots(c.slot, L, h, k);
  }

  /** The transaction is what the cache holds. */
  lemma MidwayContent(c: Cache, L: Layout, h: seq<nat>, base: Image, data: seq<Block>, k: nat)
    requires Midway(c, L, h, base, data, k)
    ensures SameHome(Updated(base, h, data), c.content, L)
  {
    forall b | 0 <= b < |base| && !L.Holds(b)
      ensures Updated(base, h, data)[b] == c.content[b]
    {
      CopyPrefix(base, h, data, |h|, b);
    }
  }

  /** What an Advance reads and writes. */
  lemma AdvanceIs(s: System, L: Layout, pid: nat, i: nat, j: nat, s': System)
    requires Shaped(s, L) && Enabled(s, L, Advance(pid, i, j)) && s' == Do(s, L, Advance(pid, i, j))
    ensures |s.hdr| <= LOGSIZE && s.phase.Committing? && s.phase.k < Length(s.hdr) && Inv(s.cache)
    ensures Holding(s.cache, pid, i, Source(L, s.hdr, s.phase.k)) && i < |s.cache.bufs| && s.cache.bufs[i].valid
    ensures s.cache.bufs[i].blockno == Source(L, s.hdr, s.phase.k)
    ensures j < |s.cache.bufs| && s.cache.bufs[j].holder != 0 && s.cache.bufs[j].valid
    ensures s.cache.bufs[j].blockno == Target(L, s.hdr, s.phase.k) < |s.cache.content| == |s.cache.disk|
    ensures s'.cache == WriteOver(s.cache, j, Copied(s.hdr, s.phase.k, s.cache.bufs[i].data))
    ensures s'.hdr == s.hdr && s'.unspent == s.unspent && s'.editor == s.editor && s'.checked == s.checked
    ensures s'.phase == s.phase.(k := s.phase.k + 1)
    ensures s'.durable == if s.phase.k == |s.hdr| then s.cache.content else s.durable
  {
    InDisk(s.cache, j);
    hide Inv;
  }

  lemma CommittingParts(s: System, L: Layout)
    requires Sound(s, L) && s.phase.Committing?
    ensures Shaped(s, L) && Inv(s.cache) && Edited(s.cache, s.unspent, s.editor) && s.unspent == map[]
    ensures Midway(s.cache, L, s.hdr, s.phase.base, s.phase.data, s.phase.k)
    ensures |s.hdr| == |s.phase.data| && Legal(L, s.hdr, |s.phase.base|)
    ensures forall t :: 0 <= t < |s.hdr| ==> s.hdr[t] < |s.phase.base|
    ensures Lasting(L, s.hdr, s.phase.base, s.phase.data, s.phase.k, s.durable)
  {
    hide Inv;
  }

  lemma EditedLess(c: Cache, c': Cache, m: map<nat, nat>, editor: map<nat, nat>)
    requires Edited(c, m, editor) && c'.touched <= c.touched
    ensures Edited(c', m, editor)
  {
  }

  lemma AdvanceStep(s: System, L: Layout, pid: nat, i: nat, j: nat)
    requires Sound(s, L) && Enabled(s, L, Advance(pid, i, j))
    ensures Sound(Do(s, L, Advance(pid, i, j)), L)
  {
    hide *;
    SoundShaped(s, L);
    var s' := Do(s, L, Advance(pid, i, j));
    AdvanceIs(s, L, pid, i, j, s');
    var c, h, k := s.cache, s.hdr, s.phase.k;
    CommittingParts(s, L);
    MidwayContent(c, L, h, s.phase.base, s.phase.data, k);
    InDisk(c, i);
    WriteOverIs(c, j, Target(L, h, k), Copied(h, k, c.bufs[i].data));
    AdvanceMidway(c, s'.cache, L, h, s.phase.base, s.phase.data, k);
    NowLasting(L, h, s.phase.base, s.phase.data, k, s.durable, c.content);
    EditedLess(c, s'.cache, s.unspent, s.editor);
    CommittingSound(s', L);
  }

  lemma SoundShaped(s: System, L: Layout)
    requires Sound(s, L)
    ensures Shaped(s, L)
  {
  }

  lemma NowLasting(L: Layout, h: seq<nat>, base: Image, data: seq<Block>, k: nat, durable: Image, content: Image)
    requires |h| == |data| && Legal(L, h, |base|) && Lasting(L, h, base, data, k, durable)
    requires SameHome(Updated(base, h, data), content, L)
    ensures Lasting(L, h, base, data, k + 1, if k == |h| then content else durable)
  {
  }

  lemma CommittingSound(s: System, L: Layout)
    requires s.phase.Committing? && Inv(s.cache) && Edited(s.cache, s.unspent, s.editor) && s.unspent == map[]
    requires Midway(s.cache, L, s.hdr, s.phase.base, s.phase.data, s.phase.k)
    requires Lasting(L, s.hdr, s.phase.base, s.phase.data, s.phase.k, s.durable)
    ensures Sound(s, L)
  {
    hide Inv;
    MidwayRecoverable(s.cache, L, s.hdr, s.phase.base, s.phase.data, s.phase.k, s.durable);
  }

  lemma FinishStep(s: System, L: Layout)
    requires Sound(s, L) && Enabled(s, L, Finish)
    ensures Sound(Do(s, L, Finish), L)
  {
    hide Inv;
    var c, d := s.cache, s.cache.disk;
    CommittingParts(s, L);
    MidwayRecoverable(c, L, s.hdr, s.phase.base, s.phase.data, s.phase.k, s.durable);
    forall b | 0 <= b < |d| && !L.Holds(b)
      ensures d[b] == s.durable[b]
    {
      CleanSettled(d, L, b);
    }
    AllHome(c, L, s.hdr, s.phase.base, s.phase.data, s.phase.k);
    EmptyListed(c, L);
    OpenSound(Do(s, L, Finish), L);
  }

  lemma AllHome(c: Cache, L: Layout, h: seq<nat>, base: Image, data: seq<Block>, k: nat)
    requires Midway(c, L, h, base, data, k) && k == Length(h)
    ensures c.slot == map[] && |c.content| == |c.disk|
  {
    assert forall b :: b !in c.slot;
  }

  // ---- Crashes --------------------------------------------------------------------------------

  lemma FreshInv(n: nat, d: Image)
    ensures Inv(Fresh(n, d))
  {
  }

  lemma RebootIs(s: System, L: Layout, ks: seq<nat>)
    requires Shaped(s, L) && Enabled(s, L, Reboot(ks))
    ensures Recoverable(s.cache.disk, L)
    ensures Do(s, L, Reboot(ks))
            == System(Fresh(|s.cache.bufs|, Recovered(CrashedRecoveries(s.cache.disk, L, ks), L)),
                      [], map[], map[], map[], Open, s.durable)
  {
    hide Inv;
    hide Recovered;
    hide CrashedRecoveries;
  }

  lemma FreshSound(n: nat, d: Image, L: Layout, durable: Image)
    requires Clean(d, L) && SameHome(d, durable, L)
    ensures Sound(System(Fresh(n, d), [], map[], map[], map[], Open, durable), L)
  {
    hide Inv;
    var c := Fresh(n, d);
    FreshInv(n, d);
    EmptyListed(c, L);
  }

  lemma RecoveredHome(d: Image, L: Layout, ks: seq<nat>, durable: Image)
    requires Recoverable(d, L) && |d| == |durable|
    requires forall b :: 0 <= b < |d| && !L.Holds(b) ==> RedoLog.Settled(d, L, b) == durable[b]
    ensures Recoverable(CrashedRecoveries(d, L, ks), L)
    ensures var e := Recovered(CrashedRecoveries(d, L, ks), L); Clean(e, L) && SameHome(e, durable, L)
  {
    var f := CrashedRecoveries(d, L, ks);
    hide RedoLog.Settled;
  }

  lemma RebootStep(s: System, L: Layout, ks: seq<nat>)
    requires Shaped(s, L) && Enabled(s, L, Reboot(ks))
    requires Recoverable(s.cache.disk, L) && |s.cache.disk| == |s.durable|
    requires forall b :: 0 <= b < |s.cache.disk| && !L.Holds(b) ==>
               RedoLog.Settled(s.cache.disk, L, b) == s.durable[b]
    ensures Sound(Do(s, L, Reboot(ks)), L)
  {
    hide *;
    RebootIs(s, L, ks);
    RecoveredHome(s.cache.disk, L, ks, s.durable);
    FreshSound(|s.cache.bufs|, Recovered(CrashedRecoveries(s.cache.disk, L, ks), L), L, s.durable);
  }

  // ---- Admission ------------------------------------------------------------------------------

  ghost predicate Thrifty(s: System) {
    Admitted(|s.hdr|, |s.unspent|, s.phase.Committing?, s.unspent)
  }

  /** log_write of a block that is not listed yet by an operation that has spent its reservation. */
  predicate Overspends(s: System, e: Event) {
    && e.LogWrite? && e.op in s.unspent && s.unspent[e.op] == 0 && e.i < |s.cache.bufs|
    && Absorb(s.hdr, s.cache.bufs[e.i].blockno) != s.hdr
  }

  lemma BeginThrifty(s: System, L: Layout, op: nat)
    requires Shaped(s, L) && Enabled(s, L, BeginOp(op)) && Thrifty(s)
    ensures Thrifty(Do(s, L, BeginOp(op)))
  {
    hide Shaped;
    Admit(|s.hdr|, |s.unspent|, s.unspent, op);
    assert |s.unspent[op := MAXOPBLOCKS]| == |s.unspent| + 1;
  }

  lemma LogWriteThrifty(s: System, L: Layout, op: nat, pid: nat, i: nat)
    requires Shaped(s, L) && Enabled(s, L, LogWrite(op, pid, i)) && Thrifty(s) && !Overspends(s, LogWrite(op, pid, i))
    ensures Thrifty(Do(s, L, LogWrite(op, pid, i)))
  {
    hide Shaped;
    AbsorbIs(s.hdr, s.cache.bufs[i].blockno);
    if s.unspent[op] > 0 {
      Spend(|s.hdr|, |s.unspent|, s.unspent, op);
    }
  }

  lemma EndThrifty(s: System, L: Layout, op: nat)
    requires Shaped(s, L) && Enabled(s, L, EndOp(op)) && Thrifty(s)
    ensures Thrifty(Do(s, L, EndOp(op)))
  {
    hide Inv;
    Logs.Finish(|s.hdr|, |s.unspent|, s.unspent, op);
  }

  /** Steps that stay within the reservations keep the bound on the log. */
  lemma StepThrifty(s: System, L: Layout, e: Event)
    requires Shaped(s, L) && Enabled(s, L, e) && Thrifty(s) && !Overspends(s, e)
    ensures Thrifty(Do(s, L, e))
  {
    match e {
      case BeginOp(op) => BeginThrifty(s, L, op);
      case LogWrite(op, pid, i) => LogWriteThrifty(s, L, op, pid, i);
      case EndOp(op) => EndThrifty(s, L, op);
      case _ =>
        hide Inv;
        hide Recoverable;
        hide Rebuffer;
        hide WriteOver;
        hide Fresh;
        hide Recovered;
    }
  }

  /** With that bound and a log of more than LOGSIZE blocks, the tests of log_write fail if and only
      if the header is full, and then no operation has any reservation left: one that logs a listed
      block again panics all the same. */
  lemma ChecksIff(s: System, L: Layout, op: nat, pid: nat, i: nat)
    requires Thrifty(s) && Editable(s, L, op, pid, i) && L.size > LOGSIZE
    ensures |s.hdr| <= LOGSIZE
    ensures Enabled(s, L, Check(op, pid, i)) <==> |s.hdr| < LOGSIZE
    ensures |s.hdr| == LOGSIZE ==> forall o :: o in s.unspent ==> s.unspent[o] == 0
  {
    forall o | o in s.unspent
      ensures |s.hdr| == LOGSIZE ==> s.unspent[o] == 0
    {
      TotalWithout(s.unspent, o);
    }
  }

  // ---- Runs -----------------------------------------------------------------------------------

  /** Every step keeps the invariant, save log_write if it has no room left. */
  lemma StepSound(s: System, L: Layout, e: Event)
    requires Sound(s, L) && Enabled(s, L, e)
    ensures Sound(Do(s, L, e), L) <==> (e.LogWrite? ==> Room(s, L, e.i))
  {
    hide Sound;
    hide Do;
    SoundShaped(s, L);
    match e {
      case BeginOp(op) => BeginStep(s, L, op);
      case Edit(op, pid, i, data) => EditStep(s, L, op, pid, i, data);
      case Check(op, pid, i) => CheckStep(s, L, op, pid, i);
      case LogWrite(op, pid, i) => LogWriteStep(s, L, op, pid, i);
      case EndOp(op) => EndStep(s, L, op);
      case Advance(pid, i, j) => AdvanceStep(s, L, pid, i, j);
      case Finish => FinishStep(s, L);
      case Reboot(ks) =>
        SoundRecoverable(s, L);
        RebootStep(s, L, ks);
      case _ => BufferStep(s, L, e);
    }
  }

  // ---- A log_write that others have overtaken since its tests ------------------------------------

  /** Every buffer is pinned by a listed block. */
  ghost predicate Crammed(c: Cache, L: Layout, h: seq<nat>) {
    && h != []
    && forall i :: 0 <= i < |c.bufs| ==>
         c.bufs[i].dirty && !L.Holds(c.bufs[i].blockno) && Find(h, c.bufs[i].blockno) < |h|
  }

  /** There is no log block for the last listed block, and no buffer for the first log block: the
      commit that starts with this list panics in bget before its first write. */
  ghost predicate Stuck(s: System, L: Layout) {
    && Shaped(s, L) && Edited(s.cache, s.unspent, s.editor) && 2 <= L.size
    && Crammed(s.cache, L, s.hdr) && Clean(s.cache.disk, L) && SameHome(s.cache.disk, s.durable, L)
    && (s.phase.Committing? ==> s.unspent == map[] && s.phase.k == 0)
  }

  lemma StuckBuffer(s: System, L: Layout, e: Event)
    requires Stuck(s, L) && Enabled(s, L, e) && OnBuffer(e)
    ensures Stuck(Do(s, L, e), L)
  {
    RebufferUnseen(s.cache, e);
    hide Inv;
    hide Clean;
    hide SameHome;
    hide Recoverable;
    hide Rebuffer;
  }

  lemma StuckEdit(s: System, L: Layout, op: nat, pid: nat, i: nat, data: Block)
    requires Stuck(s, L) && Enabled(s, L, Edit(op, pid, i, data))
    ensures Stuck(Do(s, L, Edit(op, pid, i, data)), L)
  {
    hide Inv;
    hide Clean;
    hide SameHome;
    hide Recoverable;
    ModifyKeeps(s.cache, i, data);
    EditedMore(s.cache, i, data, s.unspent, s.editor, op);
  }

  lemma StuckLogWrite(s: System, L: Layout, op: nat, pid: nat, i: nat)
    requires Stuck(s, L) && Enabled(s, L, LogWrite(op, pid, i))
    ensures Stuck(Do(s, L, LogWrite(op, pid, i)), L)
  {
    hide Inv;
    hide Clean;
    hide SameHome;
    hide Recoverable;
    PinKeeps(s.cache, i);
  }

  lemma StuckEnd(s: System, L: Layout, op: nat)
    requires Stuck(s, L) && Enabled(s, L, EndOp(op))
    ensures Stuck(Do(s, L, EndOp(op)), L)
  {
    hide Inv;
    hide Clean;
    hide SameHome;
    hide Recoverable;
    EndOpIs(s, L, op, Do(s, L, EndOp(op)));
    hide Do;
    hide Enabled;
  }

  lemma StuckStays(s: System, L: Layout, e: Event)
    requires Stuck(s, L) && Enabled(s, L, e)
    ensures !e.Advance? && !e.Finish?
    ensures !e.Reboot? ==> Stuck(Do(s, L, e), L)
  {
    match e {
      case Edit(op, pid, i, data) => StuckEdit(s, L, op, pid, i, data);
      case LogWrite(op, pid, i) => StuckLogWrite(s, L, op, pid, i);
      case EndOp(op) => StuckEnd(s, L, op);
      case BeginOp(op) => hide Inv; hide Clean; hide SameHome; hide Recoverable;
      case Check(op, pid, i) => hide Inv; hide Clean; hide SameHome; hide Recoverable;
      case Advance(pid, i, j) => assert L.Holds(Target(L, s.hdr, 0));
      case Finish =>
      case Reboot(ks) =>
      case _ => StuckBuffer(s, L, e);
    }
  }

  lemma SlotsOther(c: Cache, L: Layout, h: seq<nat>, i: nat)
    requires Inv(c) && Listed(c, L, h) && i < |c.bufs| && Absorb(h, c.bufs[i].blockno) != h
    ensures |Slots(c, h)| == |h| && forall t :: 0 <= t < |h| ==> Slots(c, h)[t] < |c.bufs| && Slots(c, h)[t] != i
  {
    hide Counted;
    hide Unique;
    hide Legal;
    hide Clean;
    forall t | 0 <= t < |h|
      ensures Slots(c, h)[t] < |c.bufs| && Slots(c, h)[t] != i
    {
      assert Keeps(c, h[t], c.slot[h[t]]);
    }
  }

  /** A block that is not listed is in a buffer of its own. */
  lemma ListedBelow(c: Cache, L: Layout, h: seq<nat>, i: nat)
    requires Inv(c) && Listed(c, L, h) && i < |c.bufs| && Absorb(h, c.bufs[i].blockno) != h
    ensures |h| < |c.bufs|
    ensures |h| + 1 == |c.bufs| ==> forall j: nat :: j < |c.bufs| ==> j == i || j in Slots(c, h)
  {
    SlotsDistinct(c, h);
    SlotsOther(c, L, h, i);
    hide *;
    OneMoreBelow(Slots(c, h), i, |c.bufs|);
  }

  lemma OneMoreBelow(s: seq<nat>, i: nat, n: nat)
    requires Distinct(s) && i < n && forall t :: 0 <= t < |s| ==> s[t] < n && s[t] != i
    ensures |s| < n && (|s| + 1 == n ==> forall j: nat :: j < n ==> j == i || j in s)
  {
    var r := s + [i];
    DistinctBelow(r, n);
    forall j: nat | |s| + 1 == n && j < n
      ensures j == i || j in s
    {
      assert j in r;
    }
  }

  lemma SlotIsListed(c: Cache, L: Layout, h: seq<nat>, j: nat)
    requires Inv(c) && Listed(c, L, h) && j in Slots(c, h)
    ensures j < |c.bufs| && c.bufs[j].dirty && !L.Holds(c.bufs[j].blockno) && Find(h, c.bufs[j].blockno) < |h|
  {
    var t :| 0 <= t < |h| && Slots(c, h)[t] == j;
    assert Keeps(c, h[t], c.slot[h[t]]);
  }

  lemma PinCrams(c: Cache, L: Layout, h: seq<nat>, i: nat)
    requires Inv(c) && Listed(c, L, h) && i < |c.bufs| && !L.Holds(c.bufs[i].blockno)
    requires Absorb(h, c.bufs[i].blockno) != h && |h| + 1 == |c.bufs|
    ensures Crammed(Pin(c, i), L, Absorb(h, c.bufs[i].blockno))
  {
    hide Inv;
    var b, c' := c.bufs[i].blockno, Pin(c, i);
    ListedBelow(c, L, h, i);
    forall j | 0 <= j < |c.bufs|
      ensures c'.bufs[j].dirty && !L.Holds(c'.bufs[j].blockno)
      ensures Find(Absorb(h, b), c'.bufs[j].blockno) < |Absorb(h, b)|
    {
      AbsorbFind(h, b, c'.bufs[j].blockno);
      if j != i {
        SlotIsListed(c, L, h, j);
      }
    }
  }

  // ---- The steps of a machine ---------------------------------------------------------------------

  /** A log that is larger than its list, or that the buffers cannot overrun, or that takes nothing. */
  predicate Sized(n: nat, L: Layout) {
    L.size > LOGSIZE || n <= L.size || L.size <= 1
  }

  /** The state of a system whose log is Sized. With more than LOGSIZE buffers its operations stay
      within their reservations. */
  ghost predicate Safe(s: System, L: Layout) {
    && (Sound(s, L) || Stuck(s, L)) && Sized(|s.cache.bufs|, L)
    && (|s.cache.bufs| <= LOGSIZE || Thrifty(s)) && (L.size <= 1 ==> s.checked == map[])
  }

  ghost predicate Works(s: System, L: Layout, e: Event) {
    Enabled(s, L, e) && (|s.cache.bufs| <= LOGSIZE || !Overspends(s, e))
  }

  lemma SafeParts(s: System, L: Layout, e: Event)
    requires Safe(s, L) && Works(s, L, e)
    ensures (Sound(s, L) || Stuck(s, L)) && Shaped(s, L) && Enabled(s, L, e)
  {
    hide Enabled;
  }

  /** Admission control, or the number of buffers, leaves log_write room whatever has been logged
      since its tests, but for one case: the last buffer of a cache that is as large as the log. */
  lemma RoomUnlessLast(s: System, L: Layout, e: Event)
    requires Safe(s, L) && Sound(s, L) && Works(s, L, e) && e.LogWrite? && !Room(s, L, e.i)
    ensures |s.hdr| + 1 == |s.cache.bufs| == L.size <= LOGSIZE && 2 <= L.size && s.phase.Open?
    ensures Absorb(s.hdr, s.cache.bufs[e.i].blockno) != s.hdr && Listed(s.cache, L, s.hdr)
  {
    hide Inv;
    SoundInv(s, L);
    ListedBelow(s.cache, L, s.hdr, e.i);
    if |s.cache.bufs| > LOGSIZE && s.unspent[e.op] > 0 {
      Spend(|s.hdr|, |s.unspent|, s.unspent, e.op);
    }
  }

  lemma LastFills(s: System, L: Layout, op: nat, pid: nat, i: nat)
    requires Sound(s, L) && Enabled(s, L, LogWrite(op, pid, i)) && s.phase.Open? && Listed(s.cache, L, s.hdr)
    requires |s.hdr| + 1 == |s.cache.bufs| == L.size <= LOGSIZE && 2 <= L.size
    requires Absorb(s.hdr, s.cache.bufs[i].blockno) != s.hdr
    ensures Stuck(Do(s, L, LogWrite(op, pid, i)), L)
  {
    hide Inv;
    hide Clean;
    hide SameHome;
    hide Recoverable;
    var s' := Do(s, L, LogWrite(op, pid, i));
    InDisk(s.cache, i);
    PinCrams(s.cache, L, s.hdr, i);
    PinKeeps(s.cache, i);
    EditedPin(s.cache, i, s.unspent, s'.unspent, s.editor);
    hide Crammed;
  }

  lemma BuffersStay(s: System, L: Layout, e: Event)
    requires Shaped(s, L) && Enabled(s, L, e)
    ensures |Do(s, L, e).cache.bufs| == |s.cache.bufs|
    ensures L.size <= 1 && s.checked == map[] ==> Do(s, L, e).checked == map[]
  {
    if OnBuffer(e) {
      RebufferUnseen(s.cache, e);
    }
    hide Inv;
    hide Recoverable;
    hide Rebuffer;
    hide Recovered;
  }

  /** Whatever the system is doing, replaying the log gives the durable home blocks. */
  lemma SafeRecoverable(s: System, L: Layout)
    requires Safe(s, L)
    ensures Recoverable(s.cache.disk, L) && |s.cache.disk| == |s.durable|
    ensures forall b :: 0 <= b < |s.cache.disk| && !L.Holds(b) ==>
              RedoLog.Settled(s.cache.disk, L, b) == s.durable[b]
  {
    if Sound(s, L) {
      SoundRecoverable(s, L);
    } else {
      hide Inv;
      forall b | 0 <= b < |s.cache.disk| && !L.Holds(b)
        ensures RedoLog.Settled(s.cache.disk, L, b) == s.durable[b]
      {
        CleanSettled(s.cache.disk, L, b);
      }
    }
  }

  lemma StepKept(s: System, L: Layout, e: Event)
    requires Safe(s, L) && Works(s, L, e)
    ensures Shaped(s, L) && (Sound(Do(s, L, e), L) || Stuck(Do(s, L, e), L))
  {
    hide *;
    SafeParts(s, L, e);
    if e.Reboot? {
      SafeRecoverable(s, L);
      RebootStep(s, L, e.ks);
    } else if !Sound(s, L) {
      StuckStays(s, L, e);
    } else if e.LogWrite? && !Room(s, L, e.i) {
      RoomUnlessLast(s, L, e);
      LastFills(s, L, e.op, e.pid, e.i);
    } else {
      StepSound(s, L, e);
    }
  }

  lemma StepSafe(s: System, L: Layout, e: Event)
    requires Safe(s, L) && Works(s, L, e)
    ensures Shaped(s, L) && Safe(Do(s, L, e), L)
  {
    StepKept(s, L, e);
    hide Sound;
    hide Stuck;
    hide Do;
    hide Thrifty;
    hide Enabled;
    BuffersStay(s, L, e);
    if |s.cache.bufs| > LOGSIZE {
      StepThrifty(s, L, e);
    }
  }

  /** From s the events es lead to s'. */
  ghost predicate Path(s: System, L: Layout, es: seq<Event>, s': System)
    requires Safe(s, L)
    decreases |es|
  {
    if es == [] then s' == s
    else Works(s, L, es[0]) && (StepSafe(s, L, es[0]); Path(Do(s, L, es[0]), L, es[1..], s'))
  }

  /** A machine that has just booted from a disk with an empty log. */
  ghost function Booted(n: nat, d: Image, L: Layout): (s: System)
    requires Clean(d, L) && Sized(n, L)
    ensures Safe(s, L)
  {
    FreshSound(n, d, L, d);
    System(Fresh(n, d), [], map[], map[], map[], Open, d)
  }

  lemma {:induction false} PathSafe(s: System, L: Layout, es: seq<Event>, s': System)
    requires Safe(s, L) && Path(s, L, es, s')
    ensures Safe(s', L)
    decreases |es|
  {
    if es != [] {
      StepSafe(s, L, es[0]);
      PathSafe(Do(s, L, es[0]), L, es[1..], s');
    }
  }

  /** No operation is under way. */
  predicate Quiet(s: System) {
    s.unspent == map[] && s.cache.touched == {}
  }

  /** Only a header write changes what a crash would leave, and it does so when no operation is
      under way, to what the cache holds. */
  lemma StepDurable(s: System, L: Layout, e: Event)
    requires Safe(s, L) && Works(s, L, e)
    ensures Do(s, L, e).durable == s.durable
         || (Quiet(s) && Do(s, L, e).durable == s.cache.content && e.Advance? && s.phase.k == |s.hdr|)
  {
    hide *;
    SafeParts(s, L, e);
    if e.Advance? {
      if Stuck(s, L) {
        StuckStays(s, L, e);
      }
      AdvanceIs(s, L, e.pid, e.i, e.j, Do(s, L, e));
      CommittingParts(s, L);
      SoundInv(s, L);
      QuietIs(s);
    } else {
      DurableIs(s, L, e);
    }
  }

  lemma QuietIs(s: System)
    requires s.unspent == map[] && s.cache.touched == {}
    ensures Quiet(s)
  {
  }

  lemma DurableIs(s: System, L: Layout, e: Event)
    requires Shaped(s, L) && Enabled(s, L, e) && !e.Advance?
    ensures Do(s, L, e).durable == s.durable
  {
    hide Inv;
    hide Recoverable;
    hide Recovered;
    hide Rebuffer;
  }

  /** The disk write of an Advance goes to the log until the header has been written. */
  lemma TargetIsLog(L: Layout, h: seq<nat>, k: nat)
    requires k <= |h| < L.size
    ensures L.Holds(Target(L, h, k))
  {
  }

  /** A home block on disk changes only when a commit whose header has been written installs it,
      or when a reboot does. */
  lemma HomeChanges(s: System, L: Layout, e: Event, b: nat)
    requires Safe(s, L) && Works(s, L, e) && b < |s.cache.disk| && !L.Holds(b)
    ensures b < |Do(s, L, e).cache.disk|
    ensures Do(s, L, e).cache.disk[b] == s.cache.disk[b] || e.Reboot?
         || (e.Advance? && s.phase.k > |s.hdr| && b == Target(L, s.hdr, s.phase.k))
  {
    hide *;
    SafeParts(s, L, e);
    if e.Advance? {
      if Stuck(s, L) {
        StuckStays(s, L, e);
      }
      AdvanceIs(s, L, e.pid, e.i, e.j, Do(s, L, e));
      CommittingParts(s, L);
      WriteOverIs(s.cache, e.j, Target(L, s.hdr, s.phase.k), Copied(s.hdr, s.phase.k, s.cache.bufs[e.i].data));
      LegalSize(L, s.hdr, |s.phase.base|);
      if s.phase.k <= |s.hdr| {
        TargetIsLog(L, s.hdr, s.phase.k);
      }
    } else if e.Reboot? {
      RebootSize(s, L, e.ks);
    } else {
      OtherDisk(s, L, e);
    }
  }

  lemma LegalSize(L: Layout, h: seq<nat>, n: nat)
    requires Legal(L, h, n)
    ensures |h| < L.size
  {
  }

  lemma RebootSize(s: System, L: Layout, ks: seq<nat>)
    requires Shaped(s, L) && Enabled(s, L, Reboot(ks))
    ensures |Do(s, L, Reboot(ks)).cache.disk| == |s.cache.disk|
  {
    RebootIs(s, L, ks);
    hide Inv;
    hide Do;
  }

  lemma OtherDisk(s: System, L: Layout, e: Event)
    requires Shaped(s, L) && Enabled(s, L, e) && !e.Advance? && !e.Reboot?
    ensures Do(s, L, e).cache.disk == s.cache.disk
  {
    if OnBuffer(e) {
      RebufferUnseen(s.cache, e);
      hide Inv;
    }
  }

  /** The durable home blocks of s' are those the cache held at a moment with no operation under
      way: after the events a, before b. */
  ghost predicate Snapshot(s: System, L: Layout, a: seq<Event>, m: System, b: seq<Event>, s': System)
    requires Safe(s, L)
  {
    && Path(s, L, a, m) && Safe(m, L) && Path(m, L, b, s')
    && Quiet(m) && SameHome(m.cache.content, s'.durable, L)
  }

  ghost predicate HasSnapshot(s: System, L: Layout, es: seq<Event>, s': System)
    requires Safe(s, L)
  {
    exists a, m, b :: a + b == es && Snapshot(s, L, a, m, b, s')
  }

  lemma {:induction false} DurableHistory(s: System, L: Layout, es: seq<Event>, s': System)
    requires Safe(s, L) && Path(s, L, es, s')
    ensures s'.durable == s.durable || HasSnapshot(s, L, es, s')
    decreases |es|
  {
    hide *;
    if es == [] {
      PathEmpty(s, L, s');
    } else {
      PathFirst(s, L, es, s');
      SafeParts(s, L, es[0]);
      var s1 := Do(s, L, es[0]);
      DurableHistory(s1, L, es[1..], s');
      StepDurable(s, L, es[0]);
      if HasSnapshot(s1, L, es[1..], s') {
        SnapshotLater(s, L, es, s');
      } else if s1.durable != s.durable {
        SnapshotHere(s, L, es, s');
      }
    }
  }

  lemma PathEmpty(s: System, L: Layout, s': System)
    requires Safe(s, L) && Path(s, L, [], s')
    ensures s' == s
  {
  }

  lemma PathFirst(s: System, L: Layout, es: seq<Event>, s': System)
    requires Safe(s, L) && Path(s, L, es, s') && es != []
    ensures Shaped(s, L) && Works(s, L, es[0]) && Safe(Do(s, L, es[0]), L)
    ensures Path(Do(s, L, es[0]), L, es[1..], s')
  {
    hide Safe;
    hide Do;
    StepSafe(s, L, es[0]);
  }

  lemma SnapshotHere(s: System, L: Layout, es: seq<Event>, s': System)
    requires Safe(s, L) && Path(s, L, es, s') && Quiet(s) && s'.durable == s.cache.content
    ensures HasSnapshot(s, L, es, s')
  {
    hide Safe;
    assert [] + es == es;
    assert Snapshot(s, L, [], s, es, s');
  }

  lemma SnapshotLater(s: System, L: Layout, es: seq<Event>, s': System)
    requires Safe(s, L) && Shaped(s, L) && es != [] && Works(s, L, es[0])
    requires Safe(Do(s, L, es[0]), L) && HasSnapshot(Do(s, L, es[0]), L, es[1..], s')
    ensures HasSnapshot(s, L, es, s')
  {
    hide Safe;
    hide Do;
    var a, m, b :| a + b == es[1..] && Snapshot(Do(s, L, es[0]), L, a, m, b, s');
    StepSafe(s, L, es[0]);
    var a' := [es[0]] + a;
    assert a'[1..] == a && a' + b == es;
    assert Snapshot(s, L, a', m, b, s');
  }

  /** Crash safety of the running system, on a log that is Sized. Boot, let processes read, run
      operations and commit in any interleaving, with crashes in between: whenever the machine
      crashes, and however often its recovery does, the home blocks that come back are those the
      cache held at some moment when no operation was under way. Every operation is there as a
      whole, or not at all. */
  lemma EveryRunCrashSafe(n: nat, d: Image, L: Layout, es: seq<Event>, s: System, ks: seq<nat>)
    requires Clean(d, L) && Sized(n, L) && Path(Booted(n, d, L), L, es, s)
    ensures Recoverable(s.cache.disk, L)
    ensures SameHome(Recovered(CrashedRecoveries(s.cache.disk, L, ks), L), s.durable, L)
    ensures HasSnapshot(Booted(n, d, L), L, es, s)
  {
    hide *;
    var s0 := Booted(n, d, L);
    PathSafe(s0, L, es, s);
    SafeRecoverable(s, L);
    RecoveredHome(s.cache.disk, L, ks, s.durable);
    DurableHistory(s0, L, es, s);
    BootedQuiet(n, d, L);
    if s.durable == s0.durable {
      SnapshotHere(s0, L, es, s);
    }
  }

  /** What a commit has put in its header stays: after the header write a crash leaves what the cache
      held then, or what it held at a later such moment. */
  lemma CommittedStays(s: System, L: Layout, e: Event, es: seq<Event>, s': System)
    requires Safe(s, L) && Shaped(s, L) && Works(s, L, e) && e.Advance? && s.phase.k == |s.hdr|
    requires Safe(Do(s, L, e), L) && Path(Do(s, L, e), L, es, s')
    ensures s'.durable == s.cache.content || HasSnapshot(Do(s, L, e), L, es, s')
  {
    hide *;
    SafeParts(s, L, e);
    AdvanceIs(s, L, e.pid, e.i, e.j, Do(s, L, e));
    DurableHistory(Do(s, L, e), L, es, s');
  }

  lemma BootedQuiet(n: nat, d: Image, L: Layout)
    requires Clean(d, L) && Sized(n, L)
    ensures Quiet(Booted(n, d, L)) && Booted(n, d, L).durable == d == Booted(n, d, L).cache.content
  {
  }
}
