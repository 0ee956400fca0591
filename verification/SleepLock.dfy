/** Sleep locks (sleeplock.c) over sleep and wakeup (proc.c), for any number of processes and
    locks. Each step of a process is one access to shared state; steps of different processes
    interleave freely. */
module SleepLocks {
  import opened Wrappers

  /** Where a process is, in a call that works on lock l. The first six are in acquiresleep,
      then come sleep and releasesleep. */
  datatype Pc =
    | Outside
    | Acquire(l: int)      // about to take lk->lk
    | Test(l: int)         // at the while
    | Take(l: int)         // found it unlocked
    | Leave(l: int)        // about to drop lk->lk
    | SleepTable(l: int)   // about to take ptable.lock
    | SleepDrop(l: int)    // about to drop lk->lk
    | SleepMark(l: int)    // about to become SLEEPING
    | SleepSwitch(l: int)  // in sched; the scheduler will drop ptable.lock
    | Slept(l: int)        // switched out
    | Wake(l: int)         // switched in, with ptable.lock
    | WakeDrop(l: int)     // about to drop ptable.lock
    | Release(l: int)      // about to take lk->lk
    | Clear(l: int)        // about to unlock
    | WakeupTable(l: int)  // about to take ptable.lock
    | Wakeup(l: int)       // about to run wakeup1
    | WakeupDrop(l: int)   // about to drop ptable.lock
    | ReleaseLeave(l: int) // about to drop lk->lk

  /** held: the locks the process took with acquiresleep and has not released. */
  datatype Proc = Proc(pc: Pc, sleeping: bool, chan: Option<int>, held: set<int>)

  /** spin: who holds the inner spinlock. pid: the holder that acquiresleep recorded. */
  datatype Lock = Lock(locked: bool, pid: Option<int>, spin: Option<int>)

  datatype State = State(procs: seq<Proc>, locks: seq<Lock>, ptable: Option<int>)

  predicate HasLock(s: State, p: int) {
    0 <= p < |s.procs| && s.procs[p].pc != Outside && 0 <= s.procs[p].pc.l < |s.locks|
  }

  predicate SpinPc(pc: Pc) {
    pc.Test? || pc.Take? || pc.Leave? || pc.SleepTable? || pc.SleepDrop? || pc.Clear? || pc.WakeupTable? ||
    pc.Wakeup? || pc.WakeupDrop? || pc.ReleaseLeave?
  }

  predicate TablePc(pc: Pc) {
    pc.SleepDrop? || pc.SleepMark? || pc.SleepSwitch? || pc.Wake? || pc.WakeDrop? || pc.Wakeup? || pc.WakeupDrop?
  }

  // ---- Steps --------------------------------------------------------------------------------

  /** A spinlock is waited for; a process that is switched out waits for the scheduler, which
      takes ptable.lock and picks processes that are not SLEEPING. */
  predicate Enabled(s: State, p: int) {
    HasLock(s, p) &&
    match s.procs[p].pc
    case Acquire(l) => s.locks[l].spin.None?
    case Release(l) => s.locks[l].spin.None?
    case SleepTable(l) => s.ptable.None?
    case WakeupTable(l) => s.ptable.None?
    case Slept(l) => s.ptable.None? && !s.procs[p].sleeping
    case _ => true
  }

  function At(s: State, p: int, pc: Pc): State
    requires 0 <= p < |s.procs|
  {
    s.(procs := s.procs[p := s.procs[p].(pc := pc)])
  }

  function Spin(s: State, l: int, v: Option<int>): State
    requires 0 <= l < |s.locks|
  {
    s.(locks := s.locks[l := s.locks[l].(spin := v)])
  }

  /** wakeup1 */
  function Woken(ps: seq<Proc>, l: int): seq<Proc> {
    seq(|ps|, q requires 0 <= q < |ps| =>
      if ps[q].sleeping && ps[q].chan == Some(l) then ps[q].(sleeping := false) else ps[q])
  }

  function Next(s: State, p: int): State
    requires Enabled(s, p)
  {
    var l, v := s.procs[p].pc.l, s.procs[p];
    match v.pc
    case Acquire(_) => At(Spin(s, l, Some(p)), p, Test(l))
    case Test(_) => At(s, p, if s.locks[l].locked then SleepTable(l) else Take(l))
    case Take(_) => s.(locks := s.locks[l := s.locks[l].(locked := true, pid := Some(p))],
                       procs := s.procs[p := v.(pc := Leave(l), held := v.held + {l})])
    case Leave(_) => At(Spin(s, l, None), p, Outside)
    case SleepTable(_) => At(s.(ptable := Some(p)), p, SleepDrop(l))
    case SleepDrop(_) => At(Spin(s, l, None), p, SleepMark(l))
    case SleepMark(_) => s.(procs := s.procs[p := v.(pc := SleepSwitch(l), chan := Some(l), sleeping := true)])
    case SleepSwitch(_) => At(s.(ptable := None), p, Slept(l))
    case Slept(_) => At(s.(ptable := Some(p)), p, Wake(l))
    case Wake(_) => s.(procs := s.procs[p := v.(pc := WakeDrop(l), chan := None)])
    case WakeDrop(_) => At(s.(ptable := None), p, Acquire(l))
    case Release(_) => At(Spin(s, l, Some(p)), p, Clear(l))
    case Clear(_) => s.(locks := s.locks[l := s.locks[l].(locked := false, pid := None)],
                        procs := s.procs[p := v.(pc := WakeupTable(l), held := v.held - {l})])
    case WakeupTable(_) => At(s.(ptable := Some(p)), p, Wakeup(l))
    case Wakeup(_) => At(s.(procs := Woken(s.procs, l)), p, WakeupDrop(l))
    case WakeupDrop(_) => At(s.(ptable := None), p, ReleaseLeave(l))
    case ReleaseLeave(_) => At(Spin(s, l, None), p, Outside)
  }

  /** A process outside may call acquiresleep on any lock, and releasesleep on one it holds. */
  ghost predicate Called(s: State, s': State, p: int, l: int) {
    && 0 <= p < |s.procs| && 0 <= l < |s.locks| && s.procs[p].pc == Outside
    && (s' == At(s, p, Acquire(l)) || (l in s.procs[p].held && s' == At(s, p, Release(l))))
  }

  /** kill makes a sleeping process runnable. */
  ghost predicate Killed(s: State, s': State, p: int) {
    && 0 <= p < |s.procs| && s.ptable.None? && s.procs[p].sleeping
    && s' == s.(procs := s.procs[p := s.procs[p].(sleeping := false)])
  }

  ghost predicate Step(s: State, s': State) {
    || (exists p :: Enabled(s, p) && s' == Next(s, p))
    || (exists p, l :: Called(s, s', p, l))
    || (exists p :: Killed(s, s', p))
  }

  // ---- The invariant ------------------------------------------------------------------------

  /** Lock l is locked, or its release is on the way to wakeup1. */
  predicate Covered(s: State, l: int)
    requires 0 <= l < |s.locks|
  {
    || s.locks[l].locked
    || (s.locks[l].spin.Some? && var q := s.locks[l].spin.value;
        0 <= q < |s.procs| && (s.procs[q].pc == WakeupTable(l) || s.procs[q].pc == Wakeup(l)))
  }

  /** A process holds what its place in the code says. */
  predicate Placed(s: State, p: int)
    requires 0 <= p < |s.procs|
  {
    var v := s.procs[p];
    && (v.pc != Outside ==> 0 <= v.pc.l < |s.locks|)
    && (SpinPc(v.pc) ==> s.locks[v.pc.l].spin == Some(p))
    && (TablePc(v.pc) ==> s.ptable == Some(p))
    && (v.pc.Release? || v.pc.Clear? ==> v.pc.l in v.held)
    && (forall l :: l in v.held ==> 0 <= l < |s.locks| && s.locks[l].pid == Some(p))
  }

  /** releasesleep, from the store to lk->locked on. */
  predicate Unlocking(pc: Pc) {
    pc.WakeupTable? || pc.Wakeup? || pc.WakeupDrop? || pc.ReleaseLeave?
  }

  /** A process goes to sleep only on a locked lock, and sleeps only while it is covered. */
  predicate Waits(s: State, p: int)
    requires 0 <= p < |s.procs|
  {
    var v := s.procs[p];
    && (v.pc != Outside ==> 0 <= v.pc.l < |s.locks|)
    && (v.sleeping ==> (v.pc.SleepSwitch? || v.pc.Slept?) && v.chan == Some(v.pc.l))
    && (v.pc.SleepTable? || v.pc.SleepDrop? ==> s.locks[v.pc.l].locked)
    && (v.pc.SleepMark? || v.sleeping ==> Covered(s, v.pc.l))
    && (v.pc.Take? || Unlocking(v.pc) ==> !s.locks[v.pc.l].locked)
  }

  predicate ProcOk(s: State, p: int)
    requires 0 <= p < |s.procs|
  {
    Placed(s, p) && Waits(s, p)
  }

  predicate LockOk(s: State, l: int)
    requires 0 <= l < |s.locks|
  {
    && (s.locks[l].locked <==> s.locks[l].pid.Some?)
    && (s.locks[l].spin.Some? ==> var q := s.locks[l].spin.value;
          0 <= q < |s.procs| && SpinPc(s.procs[q].pc) && s.procs[q].pc.l == l)
    && (s.locks[l].pid.Some? ==> var q := s.locks[l].pid.value; 0 <= q < |s.procs| && l in s.procs[q].held)
  }

  ghost predicate Inv(s: State) {
    && (forall p :: 0 <= p < |s.procs| ==> ProcOk(s, p))
    && (forall l :: 0 <= l < |s.locks| ==> LockOk(s, l))
    && TableOk(s)
  }

  predicate TableOk(s: State) {
    s.ptable.Some? ==> 0 <= s.ptable.value < |s.procs| && TablePc(s.procs[s.ptable.value].pc)
  }

  ghost predicate Init(s: State) {
    && s.ptable.None?
    && (forall p :: 0 <= p < |s.procs| ==> s.procs[p] == Proc(Outside, false, None, {}))
    && (forall l :: 0 <= l < |s.locks| ==> s.locks[l] == Lock(false, None, None))
  }

  lemma CalledKeeps(s: State, s': State, p: int, l: int)
    requires Inv(s) && Called(s, s', p, l)
    ensures Inv(s')
  {
    forall q | 0 <= q < |s.procs|
      ensures ProcOk(s', q)
    {
      assert ProcOk(s, q);
    }
    forall m | 0 <= m < |s.locks|
      ensures LockOk(s', m)
    {
      assert LockOk(s, m);
    }
  }

  lemma KilledKeeps(s: State, s': State, p: int)
    requires Inv(s) && Killed(s, s', p)
    ensures Inv(s')
  {
    forall q | 0 <= q < |s.procs|
      ensures ProcOk(s', q)
    {
      assert ProcOk(s, q);
    }
    forall m | 0 <= m < |s.locks|
      ensures LockOk(s', m)
    {
      assert LockOk(s, m);
    }
  }

  lemma NextSelfPlaced(s: State, p: int, s': State)
    requires Enabled(s, p) && Placed(s, p) && s' == Next(s, p)
    ensures |s'.procs| == |s.procs| && |s'.locks| == |s.locks| && Placed(s', p)
  {
    var v, v', l := s.procs[p], s'.procs[p], s.procs[p].pc.l;
    if v.pc.Take? || v.pc.Clear? {
      assert v'.held - {l} == v.held - {l};
    } else {
      assert v'.held == v.held;
    }
    assert forall m :: 0 <= m < |s.locks| && m != l ==> s'.locks[m] == s.locks[m];
  }

  lemma NextSelfWaits(s: State, p: int, s': State)
    requires Enabled(s, p) && Placed(s, p) && Waits(s, p) && s' == Next(s, p)
    ensures |s'.procs| == |s.procs| && |s'.locks| == |s.locks| && Waits(s', p)
  {
  }

  lemma NextItsLock(s: State, p: int, s': State)
    requires Enabled(s, p) && ProcOk(s, p) && LockOk(s, s.procs[p].pc.l) && s' == Next(s, p)
    ensures |s'.procs| == |s.procs| && |s'.locks| == |s.locks| && LockOk(s', s.procs[p].pc.l)
  {
  }

  lemma NextTable(s: State, p: int, s': State)
    requires Enabled(s, p) && ProcOk(s, p) && TableOk(s) && s' == Next(s, p)
    ensures TableOk(s')
  {
  }

  lemma NextOtherPlaced(s: State, p: int, s': State, q: int)
    requires Enabled(s, p) && Placed(s, p) && Waits(s, p) && LockOk(s, s.procs[p].pc.l) && s' == Next(s, p)
    requires 0 <= q < |s.procs| && q != p && Placed(s, q)
    ensures |s'.procs| == |s.procs| && Placed(s', q)
  {
  }

  lemma NextOtherWaits(s: State, p: int, s': State, q: int)
    requires Enabled(s, p) && Placed(s, p) && s' == Next(s, p)
    requires 0 <= q < |s.procs| && q != p && Placed(s, q) && Waits(s, q)
    ensures |s'.procs| == |s.procs| && Waits(s', q)
  {
  }

  lemma NextLock(s: State, p: int, s': State, m: int)
    requires Inv(s) && Enabled(s, p) && s' == Next(s, p) && 0 <= m < |s.locks| && m != s.procs[p].pc.l
    ensures |s'.locks| == |s.locks| && LockOk(s', m)
  {
    assert ProcOk(s, p) && LockOk(s, m);
    hide Inv;
  }

  lemma NextKeeps(s: State, p: int, s': State)
    requires Inv(s) && Enabled(s, p) && s' == Next(s, p)
    ensures Inv(s')
  {
    hide Placed;
    hide Waits;
    hide LockOk;
    hide TableOk;
    assert ProcOk(s, p);
    NextSelfPlaced(s, p, s');
    NextSelfWaits(s, p, s');
    NextItsLock(s, p, s');
    NextTable(s, p, s');
    forall q | 0 <= q < |s.procs| && q != p
      ensures ProcOk(s', q)
    {
      assert ProcOk(s, q);
      NextOtherPlaced(s, p, s', q);
      NextOtherWaits(s, p, s', q);
    }
    forall m | 0 <= m < |s.locks| && m != s.procs[p].pc.l
      ensures LockOk(s', m)
    {
      NextLock(s, p, s', m);
    }
  }

  // ---- Every run ----------------------------------------------------------------------------

  lemma StepKeeps(s: State, s': State)
    requires Inv(s) && Step(s, s')
    ensures Inv(s')
  {
    hide *;
    StepCases(s, s');
    if p :| Enabled(s, p) && s' == Next(s, p) {
      NextKeeps(s, p, s');
    } else if p, l :| Called(s, s', p, l) {
      CalledKeeps(s, s', p, l);
    } else {
      var p :| Killed(s, s', p);
      KilledKeeps(s, s', p);
    }
  }

  lemma StepCases(s: State, s': State)
    requires Step(s, s')
    ensures (exists p :: Enabled(s, p) && s' == Next(s, p)) || (exists p, l :: Called(s, s', p, l))
            || (exists p :: Killed(s, s', p))
  {
  }

  ghost predicate Run(states: seq<State>) {
    && |states| > 0 && Init(states[0])
    && forall k :: 0 <= k < |states| - 1 ==> Step(states[k], states[k + 1])
  }

  lemma {:induction false} RunKeeps(states: seq<State>, k: nat)
    requires Run(states) && k < |states|
    ensures Inv(states[k])
  {
    hide Step;
    if k > 0 {
      RunKeeps(states, k - 1);
      StepKeeps(states[k - 1], states[k]);
    } else {
      InitKeeps(states[0]);
    }
  }

  lemma InitKeeps(s: State)
    requires Init(s)
    ensures Inv(s)
  {
  }

  /** In every interleaving a sleep lock has at most one holder: the one it records. */
  lemma MutualExclusion(states: seq<State>, k: nat, p: int, q: int, l: int)
    requires Run(states) && k < |states| && 0 <= p < |states[k].procs| && 0 <= q < |states[k].procs|
    requires l in states[k].procs[p].held && l in states[k].procs[q].held
    ensures p == q && 0 <= l < |states[k].locks| && states[k].locks[l].locked && states[k].locks[l].pid == Some(p)
  {
    hide Step;
    RunKeeps(states, k);
    assert ProcOk(states[k], p) && ProcOk(states[k], q) && LockOk(states[k], l);
  }

  /** No wakeup is lost: whenever the inner spinlock is free, a lock that somebody sleeps on is
      locked, and the holder has not yet reached the wakeup of its release. */
  lemma NoLostWakeup(states: seq<State>, k: nat, p: int, l: int)
    requires Run(states) && k < |states| && 0 <= l < |states[k].locks| && 0 <= p < |states[k].procs|
    requires states[k].locks[l].spin.None?
    requires states[k].procs[p].sleeping && states[k].procs[p].chan == Some(l)
    ensures states[k].locks[l].locked
    ensures exists q :: 0 <= q < |states[k].procs| && l in states[k].procs[q].held
  {
    hide Step;
    RunKeeps(states, k);
    assert ProcOk(states[k], p) && LockOk(states[k], l);
  }

  // ---- What the calls do -----------------------------------------------------------------------

  predicate InAcquire(pc: Pc) {
    pc.Acquire? || pc.Test? || pc.Take? || pc.Leave? || pc.SleepTable? || pc.SleepDrop? || pc.SleepMark? ||
    pc.SleepSwitch? || pc.Slept? || pc.Wake? || pc.WakeDrop?
  }

  predicate InRelease(pc: Pc) {
    pc.Release? || pc.Clear? || pc.WakeupTable? || pc.Wakeup? || pc.WakeupDrop? || pc.ReleaseLeave?
  }

  /** v is in a call of acquiresleep(l) that it began with the locks h. */
  predicate Acquiring(v: Proc, l: int, h: set<int>) {
    InAcquire(v.pc) && v.pc.l == l && v.held == if v.pc.Leave? then h + {l} else h
  }

  predicate Releasing(v: Proc, l: int, h: set<int>) {
    InRelease(v.pc) && v.pc.l == l && v.held == if v.pc.Release? || v.pc.Clear? then h else h - {l}
  }

  /** A step of its own leaves the call under way, or ends it as it should end. */
  lemma OwnStep(s: State, p: int, l: int, h: set<int>)
    requires Enabled(s, p)
    ensures var v, v' := s.procs[p], Next(s, p).procs[p];
      && (Acquiring(v, l, h) ==> Acquiring(v', l, h) || (v'.pc == Outside && v'.held == h + {l}))
      && (Releasing(v, l, h) ==> Releasing(v', l, h) || (v'.pc == Outside && v'.held == h - {l}))
  {
  }

  /** Steps of others do not move it, and leave it its locks. */
  lemma OthersStep(s: State, s': State, p: int)
    requires Step(s, s') && 0 <= p < |s.procs| && s.procs[p].pc != Outside
    requires Enabled(s, p) ==> s' != Next(s, p)
    ensures |s'.procs| == |s.procs| && s'.procs[p].pc == s.procs[p].pc && s'.procs[p].held == s.procs[p].held
  {
  }

  lemma StepCall(s: State, s': State, p: int, l: int, h: set<int>)
    requires Step(s, s') && 0 <= p < |s.procs| && |s'.procs| == |s.procs|
    ensures var v, v' := s.procs[p], s'.procs[p];
      && (Acquiring(v, l, h) ==> Acquiring(v', l, h) || (v'.pc == Outside && v'.held == h + {l}))
      && (Releasing(v, l, h) ==> Releasing(v', l, h) || (v'.pc == Outside && v'.held == h - {l}))
  {
    hide Step;
    hide Next;
    if Enabled(s, p) && s' == Next(s, p) {
      OwnStep(s, p, l, h);
    } else if s.procs[p].pc != Outside {
      OthersStep(s, s', p);
    }
  }

  lemma StepSizes(s: State, s': State)
    requires Step(s, s')
    ensures |s'.procs| == |s.procs| && |s'.locks| == |s.locks|
  {
  }

  lemma {:induction false} RunSizes(states: seq<State>, k: nat)
    requires Run(states) && k < |states|
    ensures |states[k].procs| == |states[0].procs| && |states[k].locks| == |states[0].locks|
  {
    if k > 0 {
      RunSizes(states, k - 1);
      StepSizes(states[k - 1], states[k]);
    }
  }

  lemma AllSizes(states: seq<State>)
    requires Run(states)
    ensures forall k :: 0 <= k < |states| ==> |states[k].procs| == |states[0].procs|
  {
    hide Run;
    forall k | 0 <= k < |states|
      ensures |states[k].procs| == |states[0].procs|
    {
      RunSizes(states, k);
    }
  }

  /** Process p is in a call from state a on, and state b is the first in which it is not. */
  ghost predicate CallSpan(states: seq<State>, a: nat, b: nat, p: int): (r: bool)
    ensures r ==> forall k :: 0 <= k < |states| ==> 0 <= p < |states[k].procs| == |states[0].procs|
  {
    && Run(states) && a + 1 < b < |states| && 0 <= p < |states[0].procs|
    && (AllSizes(states);
        && states[a].procs[p].pc == Outside == states[b].procs[p].pc
        && forall k :: a < k < b ==> states[k].procs[p].pc != Outside)
  }

  lemma {:induction false} SpanAcquiring(states: seq<State>, a: nat, b: nat, p: int, l: int, k: nat)
    requires CallSpan(states, a, b, p) && a < k < b && states[a + 1].procs[p].pc == Acquire(l)
    ensures Acquiring(states[k].procs[p], l, states[a].procs[p].held)
  {
    hide Step;
    if k == a + 1 {
      FirstStep(states[a], states[a + 1], p);
    } else {
      SpanAcquiring(states, a, b, p, l, k - 1);
      StepCall(states[k - 1], states[k], p, l, states[a].procs[p].held);
    }
  }

  lemma {:induction false} SpanReleasing(states: seq<State>, a: nat, b: nat, p: int, l: int, k: nat)
    requires CallSpan(states, a, b, p) && a < k < b && states[a + 1].procs[p].pc == Release(l)
    ensures Releasing(states[k].procs[p], l, states[a].procs[p].held)
  {
    hide Step;
    if k == a + 1 {
      FirstStep(states[a], states[a + 1], p);
    } else {
      SpanReleasing(states, a, b, p, l, k - 1);
      StepCall(states[k - 1], states[k], p, l, states[a].procs[p].held);
    }
  }

  /** Calling takes no lock and gives none up. */
  lemma FirstStep(s: State, s': State, p: int)
    requires Step(s, s') && 0 <= p < |s.procs| && |s'.procs| == |s.procs| && s.procs[p].pc == Outside
    ensures s'.procs[p].held == s.procs[p].held
  {
  }

  /** In every interleaving, however often it has slept, a process returns from acquiresleep(l) with
      the lock: it has l besides what it had, and the lock records it as the holder. */
  lemma AcquireReturns(states: seq<State>, a: nat, b: nat, p: int, l: int)
    requires CallSpan(states, a, b, p) && states[a + 1].procs[p].pc == Acquire(l)
    ensures states[b].procs[p].held == states[a].procs[p].held + {l}
    ensures 0 <= l < |states[b].locks| && states[b].locks[l].locked && states[b].locks[l].pid == Some(p)
  {
    hide Step;
    SpanAcquiring(states, a, b, p, l, b - 1);
    StepCall(states[b - 1], states[b], p, l, states[a].procs[p].held);
    MutualExclusion(states, b, p, p, l);
  }

  lemma LastStep(s: State, s': State, p: int, l: int)
    requires Step(s, s') && 0 <= p < |s.procs| && |s'.procs| == |s.procs| && ProcOk(s, p)
    requires InRelease(s.procs[p].pc) && s.procs[p].pc.l == l && s'.procs[p].pc == Outside
    ensures 0 <= l < |s'.locks| && s'.locks[l].spin.None? && !s'.locks[l].locked
  {
    if !(Enabled(s, p) && s' == Next(s, p)) {
      OthersStep(s, s', p);
    }
  }

  /** It returns from releasesleep(l) without it, and keeps its other locks. The lock is free then,
      and nobody sleeps on it. */
  lemma ReleaseReturns(states: seq<State>, a: nat, b: nat, p: int, l: int)
    requires CallSpan(states, a, b, p) && states[a + 1].procs[p].pc == Release(l)
    ensures states[b].procs[p].held == states[a].procs[p].held - {l}
    ensures 0 <= l < |states[b].locks| && states[b].locks[l] == Lock(false, None, None)
    ensures forall q :: 0 <= q < |states[b].procs| ==>
              !(states[b].procs[q].sleeping && states[b].procs[q].chan == Some(l))
  {
    hide Step;
    SpanReleasing(states, a, b, p, l, b - 1);
    StepCall(states[b - 1], states[b], p, l, states[a].procs[p].held);
    RunKeeps(states, b - 1);
    RunKeeps(states, b);
    LastStep(states[b - 1], states[b], p, l);
    assert LockOk(states[b], l);
    forall q | 0 <= q < |states[b].procs|
      ensures !(states[b].procs[q].sleeping && states[b].procs[q].chan == Some(l))
    {
      assert ProcOk(states[b], q);
    }
  }

  /** The steps of its own that a process needs to return, if it does not find the lock taken. */
  function Rank(pc: Pc): nat {
    match pc
    case Outside => 0
    case Leave(_) => 1
    case Take(_) => 2
    case Test(_) => 3
    case Acquire(_) => 4
    case WakeDrop(_) => 5
    case Wake(_) => 6
    case Slept(_) => 7
    case SleepSwitch(_) => 8
    case SleepMark(_) => 9
    case SleepDrop(_) => 10
    case SleepTable(_) => 11
    case ReleaseLeave(_) => 1
    case WakeupDrop(_) => 2
    case Wakeup(_) => 3
    case WakeupTable(_) => 4
    case Clear(_) => 5
    case Release(_) => 6
  }

  /** Only a process in acquiresleep that finds the lock taken has further to go after its step. */
  lemma StepAdvances(s: State, p: int, s': State)
    requires Enabled(s, p) && s' == Next(s, p)
    ensures var pc, pc' := s.procs[p].pc, s'.procs[p].pc;
      Rank(pc') == if pc.Test? && s.locks[pc.l].locked then 11 else Rank(pc) - 1
  {
  }
}
