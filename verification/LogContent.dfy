/** What the running system of LogRuns keeps: every home block has the value that was last put into
    it, and has it durably once the commit is through. */
module LogContent {
  import opened Blocks
  import opened CacheModel
  import opened Logs
  import opened LogRuns
  import opened RedoLog

  /** The newest value of block b after the step. */
  ghost function Expected(s: System, e: Event, b: nat): Block
    requires b < |s.cache.content| && b < |s.durable|
  {
    if e.Edit? && e.i < |s.cache.bufs| && s.cache.bufs[e.i].blockno == b then e.data
    else if e.Reboot? then s.durable[b]
    else s.cache.content[b]
  }

  lemma Sizes(s: System, L: Layout)
    requires Safe(s, L)
    ensures |s.cache.content| == |s.cache.disk| == |s.durable|
  {
    SafeRecoverable(s, L);
  }

  /** The newest value of a home block changes only when an operation changes the block, to what the
      operation has put there, and in a crash, to the durable one. */
  lemma ContentChanges(s: System, L: Layout, e: Event, b: nat)
    requires Safe(s, L) && Works(s, L, e) && b < |s.cache.content| && !L.Holds(b)
    ensures Shaped(s, L) && b < |s.durable| && b < |Do(s, L, e).cache.content|
    ensures Do(s, L, e).cache.content[b] == Expected(s, e, b)
  {
    hide *;
    SafeParts(s, L, e);
    Sizes(s, L);
    if e.Advance? {
      AdvanceContent(s, L, e.pid, e.i, e.j, b);
    } else if e.Reboot? {
      RebootContent(s, L, e.ks, b);
    } else {
      OtherContent(s, L, e, b);
    }
  }

  lemma OtherContent(s: System, L: Layout, e: Event, b: nat)
    requires Shaped(s, L) && Enabled(s, L, e) && !e.Advance? && !e.Reboot?
    requires b < |s.cache.content| && b < |s.durable|
    ensures b < |Do(s, L, e).cache.content| && Do(s, L, e).cache.content[b] == Expected(s, e, b)
  {
    if OnBuffer(e) {
      RebufferUnseen(s.cache, e);
    }
    hide Inv;
    hide Recoverable;
    hide Rebuffer;
  }

  lemma RebootContent(s: System, L: Layout, ks: seq<nat>, b: nat)
    requires Safe(s, L) && Shaped(s, L) && Enabled(s, L, Reboot(ks))
    requires b < |s.cache.content| && b < |s.durable| && !L.Holds(b)
    ensures var c := Do(s, L, Reboot(ks)).cache.content; b < |c| && c[b] == Expected(s, Reboot(ks), b)
  {
    hide Safe;
    hide Shaped;
    SafeRecoverable(s, L);
    RebootIs(s, L, ks);
    hide Do;
    RecoveredHome(s.cache.disk, L, ks, s.durable);
    hide Recovered;
    hide CrashedRecoveries;
    hide RedoLog.Settled;
    hide Clean;
  }

  /** A commit copies blocks that have the newest value already. */
  lemma AdvanceContent(s: System, L: Layout, pid: nat, i: nat, j: nat, b: nat)
    requires Safe(s, L) && Shaped(s, L) && Enabled(s, L, Advance(pid, i, j))
    requires b < |s.cache.content| && b < |s.durable| && !L.Holds(b)
    ensures var c := Do(s, L, Advance(pid, i, j)).cache.content; b < |c| && c[b] == Expected(s, Advance(pid, i, j), b)
  {
    hide *;
    var s' := Do(s, L, Advance(pid, i, j));
    NotStuck(s, L, pid, i, j);
    AdvanceIs(s, L, pid, i, j, s');
    AdvanceStep(s, L, pid, i, j);
    SameTransaction(s, s', L, b);
    ExpectedSame(s, Advance(pid, i, j), b);
  }

  lemma NotStuck(s: System, L: Layout, pid: nat, i: nat, j: nat)
    requires Safe(s, L) && Enabled(s, L, Advance(pid, i, j))
    ensures Sound(s, L)
  {
    hide Sound;
    hide Enabled;
    if Stuck(s, L) {
      StuckStays(s, L, Advance(pid, i, j));
    }
  }

  lemma ExpectedSame(s: System, e: Event, b: nat)
    requires b < |s.cache.content| && b < |s.durable| && !e.Edit? && !e.Reboot?
    ensures Expected(s, e, b) == s.cache.content[b]
  {
  }

  /** While a commit is under way the newest home blocks are those of its transaction. */
  lemma SameTransaction(s: System, s': System, L: Layout, b: nat)
    requires Sound(s, L) && Sound(s', L) && s.phase.Committing? && s'.phase.Committing? && s'.hdr == s.hdr
    requires s'.phase.base == s.phase.base && s'.phase.data == s.phase.data
    requires b < |s.cache.content| && !L.Holds(b)
    ensures b < |s'.cache.content| && s'.cache.content[b] == s.cache.content[b]
  {
    CommittingParts(s, L);
    CommittingParts(s', L);
    MidwayContent(s.cache, L, s.hdr, s.phase.base, s.phase.data, s.phase.k);
    MidwayContent(s'.cache, L, s.hdr, s.phase.base, s.phase.data, s'.phase.k);
    hide Sound;
    hide Midway;
    hide Shaped;
    hide Inv;
  }

  /** When a commit is through, every home block is durable and on disk with its newest value, and
      the log is empty. */
  lemma FinishDurable(s: System, L: Layout)
    requires Safe(s, L) && Works(s, L, Finish)
    ensures SameHome(s.cache.content, s.durable, L) && SameHome(s.cache.disk, s.durable, L)
    ensures Shaped(s, L) && Do(s, L, Finish).hdr == [] && Do(s, L, Finish).phase.Open? && Quiet(Do(s, L, Finish))
  {
    hide *;
    SafeParts(s, L, Finish);
    FinishSound(s, L);
    CommittingParts(s, L);
    SoundInv(s, L);
    MidwayContent(s.cache, L, s.hdr, s.phase.base, s.phase.data, s.phase.k);
    LastingDone(L, s.hdr, s.phase.base, s.phase.data, s.phase.k, s.durable, s.cache.content);
    FinishIs(s, L);
    FinishStep(s, L);
    SoundInv(Do(s, L, Finish), L);
    QuietIs(Do(s, L, Finish));
  }

  lemma FinishSound(s: System, L: Layout)
    requires Safe(s, L) && Enabled(s, L, Finish)
    ensures Sound(s, L) && s.phase.Committing? && s.phase.k == Length(s.hdr)
  {
    hide Sound;
    if Stuck(s, L) {
      StuckStays(s, L, Finish);
    }
  }

  lemma FinishIs(s: System, L: Layout)
    requires Shaped(s, L) && Enabled(s, L, Finish)
    ensures Do(s, L, Finish) == s.(hdr := [], phase := Open)
  {
    hide Inv;
    hide Recoverable;
  }

  lemma LastingDone(L: Layout, h: seq<nat>, base: Image, data: seq<Block>, k: nat, durable: Image, content: Image)
    requires |h| == |data| && Legal(L, h, |base|) && Lasting(L, h, base, data, k, durable) && k == Length(h)
    requires SameHome(Updated(base, h, data), content, L)
    ensures SameHome(content, durable, L)
  {
    if h == [] {
      assert Updated(base, h, data) == base;
    }
  }

  lemma EndParts(s: System, L: Layout, op: nat)
    requires Shaped(s, L) && Enabled(s, L, EndOp(op))
    ensures op in s.unspent && Do(s, L, EndOp(op)).unspent == s.unspent - {op}
  {
    hide Inv;
    hide Recoverable;
  }

  /** The last operation out, and only that one, starts the commit; its transaction is what the cache
      holds, of every home block. */
  lemma EndCommits(s: System, L: Layout, op: nat)
    requires Safe(s, L) && Sound(s, L) && Works(s, L, EndOp(op))
    ensures Shaped(s, L)
    ensures var s' := Do(s, L, EndOp(op));
      && s'.cache == s.cache && s'.unspent == s.unspent - {op}
      && (s'.phase.Committing? <==> s'.unspent == map[])
      && (s'.phase.Committing? ==>
            && s'.phase.k == 0 && |s'.phase.data| == |s.hdr| && Legal(L, s.hdr, |s'.phase.base|)
            && SameHome(Updated(s'.phase.base, s.hdr, s'.phase.data), s.cache.content, L))
  {
    hide *;
    SafeParts(s, L, EndOp(op));
    var s' := Do(s, L, EndOp(op));
    EndParts(s, L, op);
    SoundInv(s, L);
    StepSound(s, L, EndOp(op));
    EndOpIs(s, L, op, s');
    if s'.phase.Committing? {
      CommittingParts(s', L);
      MidwayContent(s'.cache, L, s'.hdr, s'.phase.base, s'.phase.data, s'.phase.k);
    }
  }

  // ---- Over runs ----------------------------------------------------------------------------------

  predicate Changes(s: System, e: Event, b: nat) {
    e.Edit? && e.i < |s.cache.bufs| && s.cache.bufs[e.i].blockno == b
  }

  /** None of the events is a crash or changes block b. */
  ghost predicate LeavesAlone(s: System, L: Layout, es: seq<Event>, b: nat)
    requires Safe(s, L)
    decreases |es|
  {
    es == [] ||
    (&& Works(s, L, es[0]) && !es[0].Reboot? && !Changes(s, es[0], b)
     && (StepSafe(s, L, es[0]); LeavesAlone(Do(s, L, es[0]), L, es[1..], b)))
  }

  lemma LeavesAloneFirst(s: System, L: Layout, es: seq<Event>, b: nat)
    requires Safe(s, L) && es != [] && LeavesAlone(s, L, es, b) && Shaped(s, L) && Works(s, L, es[0])
    requires Safe(Do(s, L, es[0]), L) && b < |s.cache.content| && b < |s.durable|
    ensures LeavesAlone(Do(s, L, es[0]), L, es[1..], b) && Expected(s, es[0], b) == s.cache.content[b]
  {
    hide Safe;
    hide Works;
    hide Do;
    hide Shaped;
  }

  lemma {:induction false} StaysNewest(s: System, L: Layout, es: seq<Event>, s': System, b: nat)
    requires Safe(s, L) && Path(s, L, es, s') && LeavesAlone(s, L, es, b)
    requires b < |s.cache.content| && !L.Holds(b)
    ensures b < |s'.cache.content| && s'.cache.content[b] == s.cache.content[b]
    decreases |es|
  {
    hide *;
    if es == [] {
      PathEmpty(s, L, s');
    } else {
      PathFirst(s, L, es, s');
      SafeParts(s, L, es[0]);
      ContentChanges(s, L, es[0], b);
      LeavesAloneFirst(s, L, es, b);
      StaysNewest(Do(s, L, es[0]), L, es[1..], s', b);
    }
  }

  /** In every run what an operation has put into a block, and no later one has changed, is what the
      disk has, and what a crash leaves, when the next commit is through. */
  lemma EditLasts(s: System, L: Layout, e: Event, es: seq<Event>, s': System, b: nat)
    requires Safe(s, L) && Works(s, L, e) && Changes(s, e, b) && Shaped(s, L)
    requires b < |s.cache.content| && !L.Holds(b)
    requires Safe(Do(s, L, e), L) && Path(Do(s, L, e), L, es, s') && LeavesAlone(Do(s, L, e), L, es, b)
    requires Safe(s', L) && Works(s', L, Finish)
    ensures b < |s'.durable| == |s'.cache.disk| && s'.durable[b] == s'.cache.disk[b] == e.data
  {
    hide *;
    SafeParts(s, L, e);
    ContentChanges(s, L, e, b);
    ExpectedChange(s, e, b);
    StaysNewest(Do(s, L, e), L, es, s', b);
    FinishDurable(s', L);
    HomeAt(s'.cache.content, s'.durable, L, b);
    HomeAt(s'.cache.disk, s'.durable, L, b);
  }

  lemma ExpectedChange(s: System, e: Event, b: nat)
    requires Changes(s, e, b) && b < |s.cache.content| && b < |s.durable|
    ensures e.Edit? && Expected(s, e, b) == e.data
  {
  }

  lemma HomeAt(d: Image, e: Image, L: Layout, b: nat)
    requires SameHome(d, e, L) && !L.Holds(b)
    ensures |d| == |e| && (b < |d| ==> d[b] == e[b])
  {
  }
}
