/** How far a small log and a small cache go: runs of the system of LogRuns from a fresh boot, by
    operations that stay within their reservations, that end where the log or the cache is full. */
module LogLimits {
  import opened Blocks
  import opened CacheModel
  import opened LogRuns
  import opened Logs
  import opened RedoLog
  import T = LogTransfer

  // ---- Runs on a log of any size --------------------------------------------------------------

  /** From s the events es lead to s', and no operation overspends. */
  ghost predicate Trace(s: System, L: Layout, es: seq<Event>, s': System)
    decreases |es|
  {
    && Shaped(s, L)
    && if es == [] then s' == s
       else Enabled(s, L, es[0]) && !Overspends(s, es[0]) && Trace(Do(s, L, es[0]), L, es[1..], s')
  }

  ghost predicate Reaches(s: System, L: Layout, s': System) {
    exists es :: Trace(s, L, es, s')
  }

  /** Where the log is Sized, these are the runs that LogRuns is about. */
  lemma {:induction false} TraceIsPath(s: System, L: Layout, es: seq<Event>, s': System)
    requires Safe(s, L) && Trace(s, L, es, s')
    ensures Path(s, L, es, s')
    decreases |es|
  {
    hide Safe;
    hide Do;
    if es != [] {
      StepSafe(s, L, es[0]);
      TraceIsPath(Do(s, L, es[0]), L, es[1..], s');
    }
  }

  /** Whatever order operations begin and log in, what they may still log fits. */
  lemma {:induction false} TraceThrifty(s: System, L: Layout, es: seq<Event>, s': System)
    requires Trace(s, L, es, s') && Thrifty(s)
    ensures Thrifty(s') && |s'.hdr| <= LOGSIZE
    decreases |es|
  {
    hide Do;
    if es != [] {
      StepThrifty(s, L, es[0]);
      TraceThrifty(Do(s, L, es[0]), L, es[1..], s');
    }
  }

  lemma {:induction false} TraceOn(s: System, L: Layout, es: seq<Event>, m: System, fs: seq<Event>, s': System)
    requires Trace(s, L, es, m) && Trace(m, L, fs, s')
    ensures Trace(s, L, es + fs, s')
    decreases |es|
  {
    hide Do;
    hide Enabled;
    hide Overspends;
    hide Shaped;
    if es == [] {
      assert es + fs == fs;
    } else {
      TraceOn(Do(s, L, es[0]), L, es[1..], m, fs, s');
      assert (es + fs)[1..] == es[1..] + fs && (es + fs)[0] == es[0];
    }
  }

  lemma {:induction false} TraceEnd(s: System, L: Layout, es: seq<Event>, s': System)
    requires Trace(s, L, es, s')
    ensures Shaped(s', L)
    decreases |es|
  {
    if es != [] {
      TraceEnd(Do(s, L, es[0]), L, es[1..], s');
    }
  }

  lemma ReachesOn(s: System, L: Layout, m: System, s': System)
    requires Reaches(s, L, m) && Reaches(m, L, s')
    ensures Reaches(s, L, s') && Shaped(s', L)
  {
    hide Trace;
    var es :| Trace(s, L, es, m);
    var fs :| Trace(m, L, fs, s');
    TraceOn(s, L, es, m, fs, s');
    TraceEnd(m, L, fs, s');
  }

  lemma StepReaches(s: System, L: Layout, e: Event)
    requires Shaped(s, L) && Enabled(s, L, e) && !Overspends(s, e) && Shaped(Do(s, L, e), L)
    ensures Reaches(s, L, Do(s, L, e))
  {
    hide Do;
    hide Enabled;
    hide Overspends;
    hide Shaped;
    assert Trace(Do(s, L, e), L, [], Do(s, L, e));
    assert [e][1..] == [];
    assert Trace(s, L, [e], Do(s, L, e));
  }

  // ---- Steps on buffers -------------------------------------------------------------------------

  lemma BufferReaches(s: System, L: Layout, e: Event)
    requires Shaped(s, L) && OnBuffer(e) && Enabled(s, L, e)
    ensures Shaped(s.(cache := Rebuffer(s.cache, e)), L)
    ensures Reaches(s, L, s.(cache := Rebuffer(s.cache, e)))
  {
    hide Inv;
    hide Recoverable;
    hide Rebuffer;
    hide Reaches;
    RebufferUnseen(s.cache, e);
    StepReaches(s, L, e);
  }

  /** bread by pid of a block that no buffer has, into buffer i. */
  function Loaded(c: Cache, pid: nat, i: nat, b: nat): Cache
    requires i < |c.bufs| == |c.refs| && b < |c.disk|
  {
    c.(bufs := c.bufs[i := Buf(DISK_DEV, b, true, false, 1, pid, c.disk[b])], refs := c.refs[i := {pid}])
  }

  lemma LoadSteps(c: Cache, pid: nat, i: nat, b: nat)
    requires Inv(c) && i < |c.bufs| && c.bufs[i].Recyclable() && b < |c.disk| && pid != 0
    requires forall j :: 0 <= j < |c.bufs| ==> !c.bufs[j].Is(DISK_DEV, b)
    ensures |c.refs| == |c.bufs|
    ensures var c1 := Recycle(c, pid, i, DISK_DEV, b);
      && c1.bufs[i].holder == 0 && pid in c1.refs[i] && i < |c1.refs|
      && Fill(SetHolder(c1, i, pid), i) == Loaded(c, pid, i, b)
  {
    assert c.refs[i] == {};
  }

  lemma LoadReaches(s: System, L: Layout, pid: nat, i: nat, b: nat)
    requires Shaped(s, L) && i < |s.cache.bufs| && s.cache.bufs[i].Recyclable() && b < |s.cache.disk| && pid != 0
    requires forall j :: 0 <= j < |s.cache.bufs| ==> !s.cache.bufs[j].Is(DISK_DEV, b)
    ensures |s.cache.refs| == |s.cache.bufs| && Shaped(s.(cache := Loaded(s.cache, pid, i, b)), L)
    ensures Reaches(s, L, s.(cache := Loaded(s.cache, pid, i, b)))
  {
    hide Inv;
    hide Recoverable;
    hide Reaches;
    var c := s.cache;
    LoadSteps(c, pid, i, b);
    BufferReaches(s, L, Reuse(pid, i, DISK_DEV, b));
    var s1 := s.(cache := Recycle(c, pid, i, DISK_DEV, b));
    BufferReaches(s1, L, Lock(pid, i));
    var s2 := s.(cache := SetHolder(s1.cache, i, pid));
    BufferReaches(s2, L, Read(pid, i));
    var s3 := s.(cache := Fill(s2.cache, i));
    ReachesOn(s, L, s1, s2);
    ReachesOn(s, L, s2, s3);
  }

  /** bread by pid of the block that buffer i has. */
  function Held(c: Cache, pid: nat, i: nat): Cache
    requires i < |c.bufs| == |c.refs|
  {
    c.(bufs := c.bufs[i := c.bufs[i].(refcnt := 1, holder := pid)], refs := c.refs[i := {pid}])
  }

  lemma HoldSteps(c: Cache, pid: nat, i: nat)
    requires Inv(c) && i < |c.bufs| && |c.refs| == |c.bufs| && c.refs[i] == {}
    ensures c.bufs[i].holder == 0 && SetHolder(Hit(c, pid, i), i, pid) == Held(c, pid, i)
  {
    assert {pid} == {} + {pid};
  }

  lemma HoldReaches(s: System, L: Layout, pid: nat, i: nat)
    requires Shaped(s, L) && i < |s.cache.bufs| && pid != 0
    requires |s.cache.refs| == |s.cache.bufs| && s.cache.refs[i] == {}
    ensures Shaped(s.(cache := Held(s.cache, pid, i)), L) && Reaches(s, L, s.(cache := Held(s.cache, pid, i)))
  {
    hide Inv;
    hide Recoverable;
    hide Reaches;
    HoldSteps(s.cache, pid, i);
    BufferReaches(s, L, Refer(pid, i));
    var s1 := s.(cache := Hit(s.cache, pid, i));
    BufferReaches(s1, L, Lock(pid, i));
    ReachesOn(s, L, s1, s.(cache := Held(s.cache, pid, i)));
  }

  /** brelse of buffer i by the only process that refers to it. */
  function Freed(c: Cache, i: nat): Cache
    requires i < |c.bufs| == |c.refs|
  {
    c.(bufs := c.bufs[i := c.bufs[i].(refcnt := 0, holder := 0)], refs := c.refs[i := {}])
  }

  lemma FreeSteps(c: Cache, pid: nat, i: nat)
    requires Inv(c) && i < |c.bufs| && |c.refs| == |c.bufs| && c.refs[i] == {pid}
    ensures SetHolder(c, i, 0).bufs[i].refcnt == 1 && Drop(SetHolder(c, i, 0), pid, i) == Freed(c, i)
  {
    assert {pid} - {pid} == {};
  }

  lemma FreeReaches(s: System, L: Layout, pid: nat, i: nat)
    requires Shaped(s, L) && i < |s.cache.bufs| && s.cache.bufs[i].holder == pid != 0
    requires |s.cache.refs| == |s.cache.bufs| && s.cache.refs[i] == {pid}
    requires i !in s.cache.touched && i !in s.checked
    ensures Shaped(s.(cache := Freed(s.cache, i)), L) && Reaches(s, L, s.(cache := Freed(s.cache, i)))
  {
    hide Inv;
    hide Recoverable;
    hide Reaches;
    FreeSteps(s.cache, pid, i);
    BufferReaches(s, L, Unlock(pid, i));
    var s1 := s.(cache := SetHolder(s.cache, i, 0));
    BufferReaches(s1, L, Unrefer(pid, i));
    ReachesOn(s, L, s1, s.(cache := Freed(s.cache, i)));
  }

  // ---- Steps of log_write -------------------------------------------------------------------------

  lemma CheckReaches(s: System, L: Layout, op: nat, pid: nat, i: nat)
    requires Shaped(s, L) && Enabled(s, L, Check(op, pid, i))
    ensures Shaped(s.(checked := s.checked[i := op]), L) && Reaches(s, L, s.(checked := s.checked[i := op]))
  {
    hide Inv;
    hide Recoverable;
    hide Reaches;
    StepReaches(s, L, Check(op, pid, i));
  }

  /** log_write of a block that is not listed. */
  function Appended(s: System, op: nat, i: nat): System
    requires i < |s.cache.bufs| && op in s.unspent && s.unspent[op] > 0
  {
    s.(cache := Pin(s.cache, i), hdr := s.hdr + [s.cache.bufs[i].blockno], checked := s.checked - {i},
       unspent := s.unspent[op := s.unspent[op] - 1])
  }

  lemma AppendReaches(s: System, L: Layout, op: nat, pid: nat, i: nat)
    requires Shaped(s, L) && Enabled(s, L, LogWrite(op, pid, i)) && s.unspent[op] > 0
    requires s.cache.bufs[i].blockno !in s.hdr && |s.hdr| < LOGSIZE
    ensures Shaped(Appended(s, op, i), L) && Reaches(s, L, Appended(s, op, i))
  {
    hide Inv;
    hide Recoverable;
    hide Reaches;
    InDisk(s.cache, i);
    PinKeeps(s.cache, i);
    AbsorbIs(s.hdr, s.cache.bufs[i].blockno);
    StepReaches(s, L, LogWrite(op, pid, i));
  }

  /** log_write leaves every buffer with its process. */
  lemma AppendedHeld(s: System, op: nat, i: nat)
    requires i < |s.cache.bufs| && op in s.unspent && s.unspent[op] > 0
    ensures var s' := Appended(s, op, i);
      && |s'.cache.bufs| == |s.cache.bufs| && s'.cache.refs == s.cache.refs && i !in s'.cache.touched
      && s'.cache.touched <= s.cache.touched && s'.cache.bufs[i].holder == s.cache.bufs[i].holder
      && i !in s'.checked
  {
  }

  lemma AppendedChecked(s: System, op: nat, i: nat)
    requires i < |s.cache.bufs| && op in s.unspent && s.unspent[op] > 0
    ensures Appended(s.(checked := s.checked[i := op]), op, i) == Appended(s, op, i)
  {
    assert s.checked[i := op] - {i} == s.checked - {i};
  }

  /** Process pid has read an unlisted block into buffer i, and log_write will take it. */
  ghost predicate Ready(s: System, L: Layout, op: nat, pid: nat, i: nat) {
    && Enabled(s, L, Check(op, pid, i)) && s.unspent[op] > 0 && s.cache.bufs[i].blockno !in s.hdr
    && |s.cache.refs| == |s.cache.bufs| && s.cache.refs[i] == {pid} && i !in s.checked
  }

  ghost function LoggedBy(s: System, op: nat, i: nat): System
    requires i < |s.cache.bufs| == |s.cache.refs| && op in s.unspent && s.unspent[op] > 0
  {
    var s' := Appended(s, op, i);
    s'.(cache := Freed(s'.cache, i))
  }

  /** log_write and brelse. */
  lemma LogReaches(s: System, L: Layout, op: nat, pid: nat, i: nat)
    requires Shaped(s, L) && Ready(s, L, op, pid, i)
    ensures i < |s.cache.bufs| == |s.cache.refs| && op in s.unspent && s.unspent[op] > 0
    ensures Shaped(LoggedBy(s, op, i), L) && Reaches(s, L, LoggedBy(s, op, i))
  {
    hide Inv;
    hide Recoverable;
    hide Reaches;
    hide Freed;
    hide Appended;
    CheckReaches(s, L, op, pid, i);
    var s1 := s.(checked := s.checked[i := op]);
    AppendReaches(s1, L, op, pid, i);
    AppendedHeld(s1, op, i);
    AppendedChecked(s, op, i);
    FreeReaches(Appended(s1, op, i), L, pid, i);
    ReachesOn(s, L, s1, Appended(s1, op, i));
    ReachesOn(s, L, Appended(s1, op, i), LoggedBy(s, op, i));
  }

  // ---- Three operations that fill the log -----------------------------------------------------------

  /** The blocks that they log, one after the other: those behind the first block after the log. */
  function Home(L: Layout, j: nat): nat {
    L.start + L.size + 1 + j
  }

  /** A clean disk with m such blocks, and buffers for them. */
  predicate Supplied(n: nat, d: Image, L: Layout, m: nat) {
    Clean(d, L) && m <= n && m <= LOGSIZE && Home(L, m) <= |d|
  }

  /** Block j is logged by operation j % 3, which process j % 3 + 1 runs. */
  function Owner(j: nat): nat { j % 3 }

  /** What is left of the reservation of op after k blocks. */
  function Left(op: nat, k: nat): nat
    requires op < 3 && k <= LOGSIZE
  {
    MAXOPBLOCKS - (k + 2 - op) / 3
  }

  function LoggedBuf(d: Image, L: Layout, k: nat, j: nat): Buf
    requires Home(L, k) <= |d|
  {
    if j < k then Buf(DISK_DEV, Home(L, j), true, true, 0, 0, d[Home(L, j)])
    else Buf(0, 0, false, false, 0, 0, ZeroBlock())
  }

  function SlotOf(L: Layout, k: nat): map<nat, nat> {
    if k == 0 then map[] else SlotOf(L, k - 1)[Home(L, k - 1) := k - 1]
  }

  /** Buffers 0 to k - 1 are pinned, and their blocks are listed. */
  function Logged(n: nat, d: Image, L: Layout, k: nat): System
    requires Supplied(n, d, L, k)
  {
    System(Cache(seq(n, j requires 0 <= j => LoggedBuf(d, L, k, j)), d, d, seq(n, _ => {}), {}, SlotOf(L, k)),
           seq(k, j requires 0 <= j => Home(L, j)),
           map[0 := Left(0, k), 1 := Left(1, k), 2 := Left(2, k)], map[], map[], Open, d)
  }

  ghost function Start(n: nat, d: Image): System {
    System(Fresh(n, d), [], map[], map[], map[], Open, d)
  }

  lemma BeginReaches(s: System, L: Layout, op: nat)
    requires Shaped(s, L) && Enabled(s, L, BeginOp(op))
    ensures var s' := s.(unspent := s.unspent[op := MAXOPBLOCKS]); Shaped(s', L) && Reaches(s, L, s')
  {
    hide Inv;
    hide Recoverable;
    hide Reaches;
    StepReaches(s, L, BeginOp(op));
  }

  lemma BeginAll(n: nat, d: Image, L: Layout)
    requires Supplied(n, d, L, 0)
    ensures Reaches(Start(n, d), L, Logged(n, d, L, 0)) && Shaped(Logged(n, d, L, 0), L)
  {
    hide Reaches;
    var s := Start(n, d);
    FreshSound(n, d, L, d);
    hide Inv;
    hide Recoverable;
    BeginReaches(s, L, 0);
    var s1 := s.(unspent := map[0 := MAXOPBLOCKS]);
    BeginReaches(s1, L, 1);
    var s2 := s.(unspent := map[0 := MAXOPBLOCKS, 1 := MAXOPBLOCKS]);
    BeginReaches(s2, L, 2);
    var s3 := s.(unspent := map[0 := MAXOPBLOCKS, 1 := MAXOPBLOCKS, 2 := MAXOPBLOCKS]);
    ReachesOn(s, L, s1, s2);
    ReachesOn(s, L, s2, s3);
    assert s3.cache.bufs == Logged(n, d, L, 0).cache.bufs;
    assert s3 == Logged(n, d, L, 0);
  }

  /** A process has read the next block. */
  ghost function Read1(n: nat, d: Image, L: Layout, k: nat): System
    requires Supplied(n, d, L, k + 1)
  {
    var s := Logged(n, d, L, k);
    s.(cache := Loaded(s.cache, Owner(k) + 1, k, Home(L, k)))
  }

  lemma ReadNext(n: nat, d: Image, L: Layout, k: nat)
    requires Supplied(n, d, L, k + 1) && Shaped(Logged(n, d, L, k), L)
    ensures Reaches(Logged(n, d, L, k), L, Read1(n, d, L, k)) && Shaped(Read1(n, d, L, k), L)
    ensures Editable(Read1(n, d, L, k), L, Owner(k), Owner(k) + 1, k)
  {
    hide Inv;
    hide Recoverable;
    hide Reaches;
    LoadReaches(Logged(n, d, L, k), L, Owner(k) + 1, k, Home(L, k));
  }

  lemma LogNext(n: nat, d: Image, L: Layout, k: nat)
    requires Supplied(n, d, L, k + 1) && Shaped(Logged(n, d, L, k), L) && k < L.size - 1
    ensures Reaches(Logged(n, d, L, k), L, Logged(n, d, L, k + 1)) && Shaped(Logged(n, d, L, k + 1), L)
  {
    hide Logged;
    hide Read1;
    hide Reaches;
    hide Shaped;
    hide Ready;
    hide LoggedBy;
    hide Clean;
    ReadNext(n, d, L, k);
    ReadyNext(n, d, L, k);
    LogReaches(Read1(n, d, L, k), L, Owner(k), Owner(k) + 1, k);
    LoggedNext(n, d, L, k);
    ReachesOn(Logged(n, d, L, k), L, Read1(n, d, L, k), Logged(n, d, L, k + 1));
  }

  lemma ReadyNext(n: nat, d: Image, L: Layout, k: nat)
    requires Supplied(n, d, L, k + 1) && k < L.size - 1
    ensures Owner(k) + 1 != 0 && Ready(Read1(n, d, L, k), L, Owner(k), Owner(k) + 1, k)
  {
    LeftNext(k);
    hide Clean;
  }

  lemma LeftNext(k: nat)
    requires k < LOGSIZE
    ensures Left(Owner(k), k) == Left(Owner(k), k + 1) + 1
    ensures forall o :: 0 <= o < 3 && o != Owner(k) ==> Left(o, k) == Left(o, k + 1)
  {
  }

  lemma BufsNext(n: nat, d: Image, L: Layout, k: nat)
    requires Supplied(n, d, L, k + 1)
    ensures var c := Loaded(Logged(n, d, L, k).cache, Owner(k) + 1, k, Home(L, k));
      Freed(Pin(c, k), k) == Logged(n, d, L, k + 1).cache
  {
    var c := Freed(Pin(Loaded(Logged(n, d, L, k).cache, Owner(k) + 1, k, Home(L, k)), k), k);
    assert c.bufs == Logged(n, d, L, k + 1).cache.bufs;
    assert c.refs == Logged(n, d, L, k + 1).cache.refs;
  }

  lemma LoggedNext(n: nat, d: Image, L: Layout, k: nat)
    requires Supplied(n, d, L, k + 1)
    ensures Left(Owner(k), k) > 0 && |Logged(n, d, L, k).cache.refs| == |Logged(n, d, L, k).cache.bufs|
    ensures LoggedBy(Read1(n, d, L, k), Owner(k), k) == Logged(n, d, L, k + 1)
  {
    var s := Appended(Read1(n, d, L, k), Owner(k), k);
    BufsNext(n, d, L, k);
    LeftNext(k);
    hide Clean;
    hide Freed;
    hide Pin;
    hide Left;
    assert s.hdr == Logged(n, d, L, k + 1).hdr;
    assert s.unspent == Logged(n, d, L, k + 1).unspent;
  }

  lemma {:induction false} LogAll(n: nat, d: Image, L: Layout, k: nat)
    requires Supplied(n, d, L, k) && k < L.size
    ensures Reaches(Start(n, d), L, Logged(n, d, L, k)) && Shaped(Logged(n, d, L, k), L)
  {
    hide Reaches;
    hide Shaped;
    hide Logged;
    if k == 0 {
      BeginAll(n, d, L);
    } else {
      LogAll(n, d, L, k - 1);
      LogNext(n, d, L, k - 1);
      ReachesOn(Start(n, d), L, Logged(n, d, L, k - 1), Logged(n, d, L, k));
    }
  }

  // ---- Two log_writes at once ---------------------------------------------------------------------

  /** The process after the next has read its block, and its log_write has made its tests. */
  ghost function Ahead(n: nat, d: Image, L: Layout, k: nat): System
    requires Supplied(n, d, L, k + 2)
  {
    var s := Logged(n, d, L, k);
    s.(cache := Loaded(s.cache, Owner(k + 1) + 1, k + 1, Home(L, k + 1)), checked := map[k + 1 := Owner(k + 1)])
  }

  lemma ReadAhead(n: nat, d: Image, L: Layout, k: nat)
    requires Supplied(n, d, L, k + 2) && Shaped(Logged(n, d, L, k), L) && k < L.size - 1
    ensures Reaches(Logged(n, d, L, k), L, Ahead(n, d, L, k)) && Shaped(Ahead(n, d, L, k), L)
  {
    hide Inv;
    hide Recoverable;
    hide Reaches;
    var s, op := Logged(n, d, L, k), Owner(k + 1);
    LoadReaches(s, L, op + 1, k + 1, Home(L, k + 1));
    var s1 := s.(cache := Loaded(s.cache, op + 1, k + 1, Home(L, k + 1)));
    CheckReaches(s1, L, op, op + 1, k + 1);
    ReachesOn(s, L, s1, Ahead(n, d, L, k));
  }

  ghost function Both(n: nat, d: Image, L: Layout, k: nat): System
    requires Supplied(n, d, L, k + 2)
  {
    var s := Ahead(n, d, L, k);
    s.(cache := Loaded(s.cache, Owner(k) + 1, k, Home(L, k)))
  }

  lemma ReadBoth(n: nat, d: Image, L: Layout, k: nat)
    requires Supplied(n, d, L, k + 2) && Shaped(Ahead(n, d, L, k), L) && k < L.size - 1
    ensures Reaches(Ahead(n, d, L, k), L, Both(n, d, L, k)) && Shaped(Both(n, d, L, k), L)
    ensures Ready(Both(n, d, L, k), L, Owner(k), Owner(k) + 1, k)
  {
    hide Inv;
    hide Recoverable;
    hide Reaches;
    LeftNext(k);
    LoadReaches(Ahead(n, d, L, k), L, Owner(k) + 1, k, Home(L, k));
  }

  /** The next process has logged its block; the other one is past its tests. */
  ghost function Overtaken(n: nat, d: Image, L: Layout, k: nat): System
    requires Supplied(n, d, L, k + 2)
  {
    Read1(n, d, L, k + 1).(checked := map[k + 1 := Owner(k + 1)])
  }

  lemma OvertakenCache(n: nat, d: Image, L: Layout, k: nat)
    requires Supplied(n, d, L, k + 2)
    ensures Freed(Pin(Both(n, d, L, k).cache, k), k) == Overtaken(n, d, L, k).cache
  {
    hide Clean;
    var c, c' := Freed(Pin(Both(n, d, L, k).cache, k), k), Overtaken(n, d, L, k).cache;
    assert c.bufs == c'.bufs;
    assert c.refs == c'.refs;
  }

  lemma OvertakenIs(n: nat, d: Image, L: Layout, k: nat)
    requires Supplied(n, d, L, k + 2)
    ensures Left(Owner(k), k) > 0 && |Both(n, d, L, k).cache.refs| == |Both(n, d, L, k).cache.bufs|
    ensures LoggedBy(Both(n, d, L, k), Owner(k), k) == Overtaken(n, d, L, k)
  {
    hide Clean;
    OvertakenCache(n, d, L, k);
    LeftNext(k);
    hide Freed;
    hide Pin;
    hide Left;
    hide Loaded;
    var s, s' := Appended(Both(n, d, L, k), Owner(k), k), Overtaken(n, d, L, k);
    assert s.hdr == s'.hdr;
    assert s.unspent == s'.unspent;
    assert s.checked == s'.checked;
  }

  /** The other one appends its block all the same. */
  lemma AppendLate(n: nat, d: Image, L: Layout, k: nat)
    requires Supplied(n, d, L, k + 2) && Shaped(Overtaken(n, d, L, k), L)
    ensures Reaches(Overtaken(n, d, L, k), L, Logged(n, d, L, k + 2)) && Shaped(Logged(n, d, L, k + 2), L)
  {
    hide Inv;
    hide Recoverable;
    hide Reaches;
    var s, op, i := Overtaken(n, d, L, k), Owner(k + 1), k + 1;
    LoggedNext(n, d, L, i);
    AppendedChecked(Read1(n, d, L, i), op, i);
    hide Freed;
    hide Appended;
    hide Left;
    AppendReaches(s, L, op, op + 1, i);
    AppendedHeld(s, op, i);
    FreeReaches(Appended(s, op, i), L, op + 1, i);
    ReachesOn(s, L, Appended(s, op, i), Logged(n, d, L, k + 2));
  }

  lemma LogTwo(n: nat, d: Image, L: Layout, k: nat)
    requires Supplied(n, d, L, k + 2) && Shaped(Logged(n, d, L, k), L) && k < L.size - 1
    ensures Reaches(Logged(n, d, L, k), L, Logged(n, d, L, k + 2)) && Shaped(Logged(n, d, L, k + 2), L)
  {
    hide Logged;
    hide Ahead;
    hide Both;
    hide Overtaken;
    hide Reaches;
    hide Shaped;
    hide Ready;
    hide LoggedBy;
    hide Clean;
    ReadAhead(n, d, L, k);
    ReadBoth(n, d, L, k);
    LogReaches(Both(n, d, L, k), L, Owner(k), Owner(k) + 1, k);
    OvertakenIs(n, d, L, k);
    AppendLate(n, d, L, k);
    ReachesOn(Logged(n, d, L, k), L, Ahead(n, d, L, k), Both(n, d, L, k));
    ReachesOn(Logged(n, d, L, k), L, Both(n, d, L, k), Overtaken(n, d, L, k));
    ReachesOn(Logged(n, d, L, k), L, Overtaken(n, d, L, k), Logged(n, d, L, k + 2));
  }

  /** Two log_writes at once fill the log, the place of its header included. */
  lemma RaceFills(n: nat, d: Image, L: Layout)
    requires Supplied(n, d, L, L.size) && 2 <= L.size
    ensures Reaches(Start(n, d), L, Logged(n, d, L, L.size)) && Shaped(Logged(n, d, L, L.size), L)
  {
    hide Logged;
    hide Reaches;
    hide Shaped;
    LogAll(n, d, L, L.size - 2);
    LogTwo(n, d, L, L.size - 2);
    ReachesOn(Start(n, d), L, Logged(n, d, L, L.size - 2), Logged(n, d, L, L.size));
  }

  // ---- The end of the operations ------------------------------------------------------------------

  /** The commit of the listed blocks is about to make its first write. */
  ghost function Ended(n: nat, d: Image, L: Layout, k: nat): System
    requires Supplied(n, d, L, k)
  {
    var s := Logged(n, d, L, k);
    s.(unspent := map[], phase := Committing(d, seq(k, j requires 0 <= j < k => d[Home(L, j)]), 0))
  }

  lemma EndReaches(s: System, L: Layout, op: nat)
    requires Shaped(s, L) && op in s.unspent && s.cache.touched == {} && s.checked == map[] && s.phase.Open?
    ensures forall t :: 0 <= t < |s.hdr| ==> s.hdr[t] < |s.cache.content|
    ensures var s' := s.(unspent := s.unspent - {op},
                         phase := if s.unspent - {op} == map[]
                                  then Committing(s.cache.disk, Newest(s.cache.content, s.hdr), 0) else Open);
            Shaped(s', L) && Reaches(s, L, s')
  {
    hide Inv;
    hide Recoverable;
    hide Reaches;
    StepReaches(s, L, EndOp(op));
  }

  lemma EndAll(n: nat, d: Image, L: Layout, k: nat)
    requires Supplied(n, d, L, k) && Shaped(Logged(n, d, L, k), L)
    ensures Reaches(Logged(n, d, L, k), L, Ended(n, d, L, k)) && Shaped(Ended(n, d, L, k), L)
  {
    hide Inv;
    hide Recoverable;
    hide Reaches;
    hide Left;
    var s := Logged(n, d, L, k);
    EndReaches(s, L, 0);
    var s1 := s.(unspent := map[1 := Left(1, k), 2 := Left(2, k)]);
    assert s.unspent - {0} == s1.unspent;
    EndReaches(s1, L, 1);
    var s2 := s.(unspent := map[2 := Left(2, k)]);
    assert s1.unspent - {1} == s2.unspent;
    EndReaches(s2, L, 2);
    assert s2.unspent - {2} == map[];
    assert Newest(d, s.hdr) == Ended(n, d, L, k).phase.data;
    ReachesOn(s, L, s1, s2);
    ReachesOn(s, L, s2, Ended(n, d, L, k));
  }

  /** NBUF is LOGSIZE, and mkfs makes a log of LOGSIZE blocks. With at most LOGSIZE buffers, and a log
      of at least as many blocks, operations within their reservations can pin every buffer, so that
      the commit finds none to copy the first block to. */
  lemma FullCacheReached(n: nat, d: Image, L: Layout) returns (s: System)
    requires Supplied(n, d, L, n) && 1 <= n <= L.size && 2 <= L.size
    ensures Reaches(Start(n, d), L, s) && s.phase.Committing? && s.phase.k == 0 && |s.hdr| == |s.cache.bufs| == n
    ensures !T.SomeIdle(s.cache.bufs) && forall i :: 0 <= i < n ==> s.cache.bufs[i].refcnt == 0
  {
    hide Reaches;
    hide Inv;
    hide Recoverable;
    s := Ended(n, d, L, n);
    if n < L.size {
      LogAll(n, d, L, n);
    } else {
      RaceFills(n, d, L);
    }
    EndAll(n, d, L, n);
    ReachesOn(Start(n, d), L, Logged(n, d, L, n), s);
  }

  // ---- log_write panics ---------------------------------------------------------------------------

  lemma CleanSize(d: Image, L: Layout)
    requires Clean(d, L)
    ensures L.size >= 1
  {
  }

  /** A log of at most LOGSIZE blocks can be filled by operations that stay within their
      reservations: one of them, with part of its reservation left, then fails the tests. */
  lemma SmallLogPanics(n: nat, d: Image, L: Layout) returns (s: System, op: nat, pid: nat, i: nat)
    requires Supplied(n, d, L, L.size)
    ensures Reaches(Start(n, d), L, s) && Editable(s, L, op, pid, i) && s.unspent[op] > 0
    ensures !Enabled(s, L, Check(op, pid, i)) && |s.hdr| < LOGSIZE
  {
    hide Reaches;
    hide Inv;
    hide Recoverable;
    CleanSize(d, L);
    var k := L.size - 1;
    LogAll(n, d, L, k);
    ReadNext(n, d, L, k);
    LeftNext(k);
    s, op, pid, i := Read1(n, d, L, k), Owner(k), Owner(k) + 1, k;
    ReachesOn(Start(n, d), L, Logged(n, d, L, k), s);
  }

  /** With a larger log the list can become full. Then an operation panics that logs a block again
      which is listed already, and which would take no further place. */
  lemma FullListPanics(n: nat, d: Image, L: Layout) returns (s: System, op: nat, pid: nat, i: nat)
    requires Supplied(n, d, L, LOGSIZE) && L.size > LOGSIZE
    ensures Reaches(Start(n, d), L, s) && Editable(s, L, op, pid, i) && s.cache.bufs[i].blockno in s.hdr
    ensures !Enabled(s, L, Check(op, pid, i)) && |s.hdr| == LOGSIZE
  {
    hide Reaches;
    hide Inv;
    hide Recoverable;
    var m := Logged(n, d, L, LOGSIZE);
    LogAll(n, d, L, LOGSIZE);
    HoldReaches(m, L, 1, 0);
    s, op, pid, i := m.(cache := Held(m.cache, 1, 0)), 0, 1, 0;
    ReachesOn(Start(n, d), L, m, s);
    assert s.hdr[0] == s.cache.bufs[0].blockno;
  }

  // ---- A commit that overruns the log ---------------------------------------------------------------

  /** Advance, where it copies block h[k] and not the header. */
  lemma CopyReaches(s: System, L: Layout, pid: nat, i: nat, j: nat)
    requires Shaped(s, L) && Enabled(s, L, Advance(pid, i, j)) && s.phase.k < |s.hdr|
    ensures i < |s.cache.bufs| && j < |s.cache.bufs| && s.cache.bufs[j].blockno < |s.cache.content| == |s.cache.disk|
    ensures var s' := s.(cache := WriteOver(s.cache, j, s.cache.bufs[i].data),
                         phase := s.phase.(k := s.phase.k + 1));
            Shaped(s', L) && Reaches(s, L, s')
  {
    hide Inv;
    hide Reaches;
    InDisk(s.cache, j);
    WriteOverIs(s.cache, j, s.cache.bufs[j].blockno, s.cache.bufs[i].data);
    StepReaches(s, L, Advance(pid, i, j));
  }

  /** The disk after m copies. */
  function Copies(d: Image, L: Layout, m: nat): (r: Image)
    requires Home(L, m) <= |d| && m <= L.size
    ensures |r| == |d| && forall b :: 0 <= b < |d| && !(L.start < b <= L.start + m) ==> r[b] == d[b]
  {
    if m == 0 then d else Copies(d, L, m - 1)[L.start + m := d[Home(L, m - 1)]]
  }

  /** Buffer L.size has taken the log blocks so far. */
  ghost function Copying(n: nat, d: Image, L: Layout, m: nat): System
    requires Supplied(n, d, L, L.size) && n > L.size && m <= L.size
  {
    var s, e := Ended(n, d, L, L.size), Copies(d, L, m);
    s.(cache := s.cache.(bufs := s.cache.bufs[L.size := CopyBuf(d, L, m)], disk := e, content := e),
       phase := s.phase.(k := m))
  }

  function CopyBuf(d: Image, L: Layout, m: nat): Buf
    requires m == 0 || Home(L, m - 1) < |d|
  {
    if m == 0 then Buf(0, 0, false, false, 0, 0, ZeroBlock())
    else Buf(DISK_DEV, L.start + m, true, false, 0, 0, d[Home(L, m - 1)])
  }

  /** The process has both buffers: the log block to write, and the listed block. */
  ghost function CopyHeld(n: nat, d: Image, L: Layout, m: nat): System
    requires Supplied(n, d, L, L.size) && n > L.size && m < L.size
  {
    var s := Copying(n, d, L, m);
    s.(cache := Held(Loaded(s.cache, 1, L.size, L.start + m + 1), 1, m))
  }

  lemma HoldCopy(n: nat, d: Image, L: Layout, m: nat)
    requires Supplied(n, d, L, L.size) && n > L.size && m < L.size && Shaped(Copying(n, d, L, m), L)
    ensures Reaches(Copying(n, d, L, m), L, CopyHeld(n, d, L, m)) && Shaped(CopyHeld(n, d, L, m), L)
    ensures Enabled(CopyHeld(n, d, L, m), L, Advance(1, m, L.size))
  {
    hide Inv;
    hide Recoverable;
    hide Reaches;
    hide Copies;
    var s := Copying(n, d, L, m);
    LoadReaches(s, L, 1, L.size, L.start + m + 1);
    var s1 := s.(cache := Loaded(s.cache, 1, L.size, L.start + m + 1));
    HoldReaches(s1, L, 1, m);
    ReachesOn(s, L, s1, CopyHeld(n, d, L, m));
  }

  ghost function CopyWritten(n: nat, d: Image, L: Layout, m: nat): System
    requires Supplied(n, d, L, L.size) && n > L.size && m < L.size
  {
    var s := CopyHeld(n, d, L, m);
    s.(cache := WriteOver(s.cache, L.size, d[Home(L, m)]), phase := s.phase.(k := m + 1))
  }

  lemma {:induction false} SlotOfHome(L: Layout, k: nat, b: nat)
    requires b < Home(L, 0)
    ensures b !in SlotOf(L, k)
  {
    if k > 0 {
      SlotOfHome(L, k - 1, b);
    }
  }

  lemma CopiedCache(n: nat, d: Image, L: Layout, m: nat)
    requires Supplied(n, d, L, L.size) && n > L.size && m < L.size
    ensures |CopyWritten(n, d, L, m).cache.bufs| == |CopyWritten(n, d, L, m).cache.refs| == n
    ensures Freed(Freed(CopyWritten(n, d, L, m).cache, L.size), m) == Copying(n, d, L, m + 1).cache
  {
    var c, c' := CopyWritten(n, d, L, m).cache, Copying(n, d, L, m + 1).cache;
    var c1 := Freed(Freed(c, L.size), m);
    SlotOfHome(L, L.size, L.start + m + 1);
    assert c1.slot == c'.slot;
    assert c1.disk == c'.disk && c1.content == c'.content;
    assert c1.refs == c'.refs;
    assert c1.bufs == c'.bufs;
  }

  lemma CopyNext(n: nat, d: Image, L: Layout, m: nat)
    requires Supplied(n, d, L, L.size) && n > L.size && m < L.size && Shaped(Copying(n, d, L, m), L)
    ensures Reaches(Copying(n, d, L, m), L, Copying(n, d, L, m + 1)) && Shaped(Copying(n, d, L, m + 1), L)
  {
    hide Inv;
    hide Recoverable;
    hide Reaches;
    hide Copies;
    HoldCopy(n, d, L, m);
    var s, s1 := Copying(n, d, L, m), CopyHeld(n, d, L, m);
    CopyReaches(s1, L, 1, m, L.size);
    var s2 := CopyWritten(n, d, L, m);
    FreeReaches(s2, L, 1, L.size);
    var s3 := s2.(cache := Freed(s2.cache, L.size));
    FreeReaches(s3, L, 1, m);
    CopiedCache(n, d, L, m);
    var s4 := Copying(n, d, L, m + 1);
    ReachesOn(s, L, s1, s2);
    ReachesOn(s, L, s2, s3);
    ReachesOn(s, L, s3, s4);
  }

  lemma {:induction false} CopyAll(n: nat, d: Image, L: Layout, m: nat)
    requires Supplied(n, d, L, L.size) && n > L.size && m <= L.size && 2 <= L.size
    ensures Reaches(Start(n, d), L, Copying(n, d, L, m)) && Shaped(Copying(n, d, L, m), L)
  {
    hide Reaches;
    hide Shaped;
    if m == 0 {
      RaceFills(n, d, L);
      EndAll(n, d, L, L.size);
      var c := Ended(n, d, L, L.size).cache;
      assert c.bufs[L.size := CopyBuf(d, L, 0)] == c.bufs;
      ReachesOn(Start(n, d), L, Logged(n, d, L, L.size), Copying(n, d, L, 0));
    } else {
      hide Copying;
      CopyAll(n, d, L, m - 1);
      CopyNext(n, d, L, m - 1);
      ReachesOn(Start(n, d), L, Copying(n, d, L, m - 1), Copying(n, d, L, m));
    }
  }

  /** A crash in s leaves the durable home blocks. */
  ghost predicate Replays(s: System, L: Layout) {
    Recoverable(s.cache.disk, L) && SameHome(Recovered(s.cache.disk, L), s.durable, L)
  }

  lemma CleanReplays(e: Image, L: Layout)
    requires Clean(e, L)
    ensures SameHome(Recovered(e, L), e, L)
  {
    forall b | 0 <= b < |e| && !L.Holds(b)
      ensures RedoLog.Settled(e, L, b) == e[b]
    {
      CleanSettled(e, L, b);
    }
    RecoveredHome(e, L, [], e);
  }

  /** On a log of 2 to LOGSIZE blocks, and with more buffers than that, two log_writes at once by
      operations that stay within their reservations make the commit write the block behind the log
      before its header. A crash then leaves a home block that no operation has changed. */
  lemma SmallLogOverrun(n: nat, d: Image, L: Layout) returns (s: System)
    requires !Sized(n, L) && Supplied(n, d, L, L.size) && d[L.start + L.size] != d[Home(L, L.size - 1)]
    ensures Reaches(Start(n, d), L, s) && s.durable == d && Clean(s.cache.disk, L) && !L.Holds(L.start + L.size)
    ensures |s.cache.disk| == |d| && s.cache.disk[L.start + L.size] == d[Home(L, L.size - 1)]
    ensures !Replays(s, L)
  {
    hide Reaches;
    hide Inv;
    s := Copying(n, d, L, L.size);
    CopyAll(n, d, L, L.size);
    CleanReplays(s.cache.disk, L);
    assert Recovered(s.cache.disk, L)[L.start + L.size] == s.cache.disk[L.start + L.size];
  }

  lemma SizedReplays(n: nat, d: Image, L: Layout, s: System)
    requires Clean(d, L) && Sized(n, L) && Reaches(Start(n, d), L, s)
    ensures Replays(s, L)
  {
    var es :| Trace(Start(n, d), L, es, s);
    hide *;
    StartBooted(n, d, L);
    TraceIsPath(Start(n, d), L, es, s);
    EveryRunCrashSafe(n, d, L, es, s, []);
    NoRecovery(s, L);
  }

  lemma StartBooted(n: nat, d: Image, L: Layout)
    requires Clean(d, L) && Sized(n, L)
    ensures Start(n, d) == Booted(n, d, L) && Safe(Start(n, d), L)
  {
  }

  lemma NoRecovery(s: System, L: Layout)
    requires Recoverable(s.cache.disk, L)
    requires SameHome(Recovered(CrashedRecoveries(s.cache.disk, L, []), L), s.durable, L)
    ensures Replays(s, L)
  {
  }

  /** A cache of n buffers with a log is crash safe under all runs of operations that stay within their
      reservations if and only if the log is Sized. xv6 has 30 buffers and a log of 30 blocks. */
  lemma CrashSafeIff(n: nat, d: Image, L: Layout)
    requires Clean(d, L)
    requires L.size <= LOGSIZE ==> Home(L, L.size) <= |d| && d[L.start + L.size] != d[Home(L, L.size - 1)]
    ensures (forall s :: Reaches(Start(n, d), L, s) ==> Replays(s, L)) <==> Sized(n, L)
  {
    hide Reaches;
    hide Replays;
    if Sized(n, L) {
      forall s | Reaches(Start(n, d), L, s)
        ensures Replays(s, L)
      {
        SizedReplays(n, d, L, s);
      }
    } else {
      var s := SmallLogOverrun(n, d, L);
    }
  }
}
