/** The process table of proc.c as a state machine: fork, exit, wait, kill, sleep, yield and the
    scheduler of any number of CPUs. Each event is one stretch of code under ptable.lock, or one
    of the accesses that fork makes to the new entry without it. */
module Processes {
  import opened Wrappers

  datatype PState = UNUSED | EMBRYO | SLEEPING | RUNNABLE | RUNNING | ZOMBIE

  /** What a process sleeps on: a table entry (only wait does that) or something else. */
  datatype Chan = NoChan | ProcChan(p: int) | OtherChan(x: int)

  /** What a process is in the middle of; linked: fork has set the parent of entry np. */
  datatype Call = NoCall | Forking(np: int, linked: bool) | InWait

  /** call and cpu say where the process is in its code and which CPU runs it. */
  datatype Proc = Proc(state: PState, chan: Chan, parent: Option<int>, pid: int, killed: bool, call: Call, cpu: int)

  /** cpus[c] is c->proc. returned: every (parent, pid) that wait has returned. */
  datatype Table = Table(procs: seq<Proc>, cpus: seq<Option<int>>, nextpid: int, init: int, returned: seq<(int, int)>)

  // ---- Events ---------------------------------------------------------------------------------

  datatype Event =
    | ForkAlloc(p: int, n: int)   // allocproc found entry n
    | ForkFail(p: int)            // no memory: the entry is given back
    | ForkLink(p: int)            // np->parent = curproc
    | ForkDone(p: int)            // np->state = RUNNABLE
    | Exit(p: int)
    | WaitReap(p: int, c: int)    // wait found the exited child c
    | WaitNone(p: int)            // wait returns -1
    | WaitSleep(p: int)
    | Sleep(p: int, x: int)       // on some other channel
    | Wakeup(x: int)
    | Yield(p: int)
    | Schedule(c: int, p: int)
    | Kill(p: int)

  predicate Running(s: Table, p: int) {
    0 <= p < |s.procs| && s.procs[p].state == RUNNING && 0 <= s.procs[p].cpu < |s.cpus|
  }

  predicate IsChild(s: Table, q: int, p: int) {
    0 <= q < |s.procs| && s.procs[q].parent == Some(p)
  }

  predicate HasZombie(s: Table, p: int) {
    exists q :: 0 <= q < |s.procs| && s.procs[q].parent == Some(p) && s.procs[q].state == ZOMBIE
  }

  predicate HasKids(s: Table, p: int) {
    exists q :: 0 <= q < |s.procs| && s.procs[q].parent == Some(p)
  }

  predicate MayFork(s: Table, p: int) {
    && Running(s, p) && s.procs[p].call.Forking?
    && 0 <= s.procs[p].call.np < |s.procs| && s.procs[p].call.np != p
  }

  predicate MayWait(s: Table, p: int) {
    Running(s, p) && !s.procs[p].call.Forking?
  }

  predicate Enabled(s: Table, e: Event) {
    match e
    case ForkAlloc(p, n) =>
      Running(s, p) && s.procs[p].call == NoCall && 0 <= n < |s.procs| && s.procs[n].state == UNUSED
    case ForkFail(p) => MayFork(s, p) && !s.procs[p].call.linked
    case ForkLink(p) => MayFork(s, p) && !s.procs[p].call.linked
    case ForkDone(p) => MayFork(s, p) && s.procs[p].call.linked
    case Exit(p) => Running(s, p) && s.procs[p].call == NoCall && p != s.init
    case WaitReap(p, c) => MayWait(s, p) && c != p && IsChild(s, c, p) && s.procs[c].state == ZOMBIE
    case WaitNone(p) => MayWait(s, p) && !HasZombie(s, p) && (!HasKids(s, p) || s.procs[p].killed)
    case WaitSleep(p) => MayWait(s, p) && !HasZombie(s, p) && HasKids(s, p) && !s.procs[p].killed
    case Sleep(p, x) => Running(s, p) && s.procs[p].call == NoCall
    case Wakeup(x) => true
    case Yield(p) => Running(s, p)
    case Schedule(c, p) => 0 <= c < |s.cpus| && s.cpus[c].None? && 0 <= p < |s.procs| && s.procs[p].state == RUNNABLE
    case Kill(p) => 0 <= p < |s.procs|
  }

  /** wakeup1 */
  function Woken(ps: seq<Proc>, ch: Chan): (r: seq<Proc>)
    ensures |r| == |ps|
  {
    seq(|ps|, q requires 0 <= q < |ps| =>
      if ps[q].state == SLEEPING && ps[q].chan == ch then ps[q].(state := RUNNABLE) else ps[q])
  }

  function ParentChan(v: Proc): Chan {
    if v.parent.Some? then ProcChan(v.parent.value) else NoChan
  }

  /** Entry q after p has exited: children go to init; p's parent is woken, and init if it has
      been given an exited child. */
  function AfterExit(s: Table, p: int, q: int): Proc
    requires 0 <= p < |s.procs| && 0 <= q < |s.procs|
  {
    var v := s.procs[q];
    if q == p then v.(state := ZOMBIE)
    else
      v.(parent := if v.parent == Some(p) then Some(s.init) else v.parent,
         state := if v.state == SLEEPING && (v.chan == ParentChan(s.procs[p]) ||
                                             (v.chan == ProcChan(s.init) && HasZombie(s, p)))
                  then RUNNABLE else v.state)
  }

  function GiveUp(s: Table, p: int, v: Proc): Table
    requires Running(s, p)
  {
    s.(procs := s.procs[p := v], cpus := s.cpus[s.procs[p].cpu := None])
  }

  function Next(s: Table, e: Event): Table
    requires Enabled(s, e)
  {
    match e
    case ForkAlloc(p, n) =>
      s.(procs := s.procs[p := s.procs[p].(call := Forking(n, false))]
                         [n := s.procs[n].(state := EMBRYO, pid := s.nextpid)],
         nextpid := s.nextpid + 1)
    case ForkFail(p) =>
      var n := s.procs[p].call.np;
      s.(procs := s.procs[p := s.procs[p].(call := NoCall)][n := s.procs[n].(state := UNUSED)])
    case ForkLink(p) =>
      var n := s.procs[p].call.np;
      s.(procs := s.procs[p := s.procs[p].(call := Forking(n, true))][n := s.procs[n].(parent := Some(p))])
    case ForkDone(p) =>
      var n := s.procs[p].call.np;
      s.(procs := s.procs[p := s.procs[p].(call := NoCall)][n := s.procs[n].(state := RUNNABLE)])
    case Exit(p) =>
      s.(procs := seq(|s.procs|, q requires 0 <= q < |s.procs| => AfterExit(s, p, q)),
         cpus := s.cpus[s.procs[p].cpu := None])
    case WaitReap(p, c) =>
      s.(procs := s.procs[p := s.procs[p].(call := NoCall)]
                         [c := s.procs[c].(state := UNUSED, pid := 0, parent := None, killed := false)],
         returned := s.returned + [(p, s.procs[c].pid)])
    case WaitNone(p) => s.(procs := s.procs[p := s.procs[p].(call := NoCall)])
    case WaitSleep(p) => GiveUp(s, p, s.procs[p].(state := SLEEPING, chan := ProcChan(p), call := InWait))
    case Sleep(p, x) => GiveUp(s, p, s.procs[p].(state := SLEEPING, chan := OtherChan(x)))
    case Wakeup(x) => s.(procs := Woken(s.procs, OtherChan(x)))
    case Yield(p) => GiveUp(s, p, s.procs[p].(state := RUNNABLE))
    case Schedule(c, p) =>
      s.(procs := s.procs[p := s.procs[p].(state := RUNNING, cpu := c)], cpus := s.cpus[c := Some(p)])
    case Kill(p) =>
      var v := s.procs[p];
      s.(procs := s.procs[p := v.(killed := true, state := if v.state == SLEEPING then RUNNABLE else v.state)])
  }

  // ---- The invariant --------------------------------------------------------------------------

  predicate Alive(v: Proc) {
    v.state == SLEEPING || v.state == RUNNABLE || v.state == RUNNING
  }

  /** A parent is alive, and does not sleep in wait when its child has exited. */
  predicate ParentOk(s: Table, q: int)
    requires 0 <= q < |s.procs|
  {
    var v := s.procs[q];
    && (v.state == UNUSED ==> v.parent.None?)
    && (v.parent.Some? ==>
          var r := v.parent.value;
          && 0 <= r < |s.procs| && r != q && Alive(s.procs[r])
          && (v.state == ZOMBIE ==> !(s.procs[r].state == SLEEPING && s.procs[r].chan == ProcChan(r))))
    && ((Alive(v) || v.state == ZOMBIE) && q != s.init ==> v.parent.Some?)
  }

  predicate CallOk(s: Table, q: int)
    requires 0 <= q < |s.procs|
  {
    var v := s.procs[q];
    && (v.state == SLEEPING && v.chan.ProcChan? ==> v.chan.p == q)
    && (v.state == SLEEPING && v.call == InWait ==> v.chan == ProcChan(q))
    && (v.call != NoCall ==> Alive(v))
    && (v.call.Forking? ==>
          && v.state != SLEEPING && 0 <= v.call.np < |s.procs| && v.call.np != q
          && s.procs[v.call.np].state == EMBRYO
          && s.procs[v.call.np].parent == if v.call.linked then Some(q) else None)
    && (v.state == EMBRYO && v.parent.Some? ==>
          var r := v.parent.value; 0 <= r < |s.procs| && s.procs[r].call == Forking(q, true))
  }

  predicate ForkPair(s: Table, q: int, r: int)
    requires 0 <= q < |s.procs| && 0 <= r < |s.procs|
  {
    q != r && s.procs[q].call.Forking? && s.procs[r].call.Forking? ==> s.procs[q].call.np != s.procs[r].call.np
  }

  predicate CpuOk(s: Table, c: int)
    requires 0 <= c < |s.cpus|
  {
    s.cpus[c].Some? ==>
      var p := s.cpus[c].value; 0 <= p < |s.procs| && s.procs[p].state == RUNNING && s.procs[p].cpu == c
  }

  predicate RunOk(s: Table, q: int)
    requires 0 <= q < |s.procs|
  {
    s.procs[q].state == RUNNING ==> 0 <= s.procs[q].cpu < |s.cpus| && s.cpus[s.procs[q].cpu] == Some(q)
  }

  predicate PidOk(s: Table, q: int)
    requires 0 <= q < |s.procs|
  {
    s.procs[q].state != UNUSED ==> 0 < s.procs[q].pid < s.nextpid
  }

  predicate PidPair(s: Table, q: int, r: int)
    requires 0 <= q < |s.procs| && 0 <= r < |s.procs|
  {
    q != r && s.procs[q].state != UNUSED && s.procs[r].state != UNUSED ==> s.procs[q].pid != s.procs[r].pid
  }

  /** Once returned, a pid belongs to no entry in use. */
  predicate GoneOk(s: Table, k: int, q: int)
    requires 0 <= k < |s.returned| && 0 <= q < |s.procs|
  {
    s.procs[q].state != UNUSED ==> s.procs[q].pid != s.returned[k].1
  }

  predicate OncePair(s: Table, j: int, k: int)
    requires 0 <= j < |s.returned| && 0 <= k < |s.returned|
  {
    j != k ==> s.returned[j].1 != s.returned[k].1
  }

  ghost predicate FamilyInv(s: Table) {
    && 0 <= s.init < |s.procs| && Alive(s.procs[s.init]) && s.procs[s.init].parent.None?
    && (forall q :: 0 <= q < |s.procs| ==> ParentOk(s, q))
    && (forall q :: 0 <= q < |s.procs| ==> CallOk(s, q))
    && (forall q, r :: 0 <= q < |s.procs| && 0 <= r < |s.procs| ==> ForkPair(s, q, r))
  }

  ghost predicate CpuInv(s: Table) {
    && (forall c :: 0 <= c < |s.cpus| ==> CpuOk(s, c))
    && (forall q :: 0 <= q < |s.procs| ==> RunOk(s, q))
  }

  ghost predicate PidInv(s: Table) {
    && 0 < s.nextpid
    && (forall q :: 0 <= q < |s.procs| ==> PidOk(s, q))
    && (forall q, r :: 0 <= q < |s.procs| && 0 <= r < |s.procs| ==> PidPair(s, q, r))
    && (forall k :: 0 <= k < |s.returned| ==> 0 < s.returned[k].1 < s.nextpid)
    && (forall k, q :: 0 <= k < |s.returned| && 0 <= q < |s.procs| ==> GoneOk(s, k, q))
    && (forall j, k :: 0 <= j < |s.returned| && 0 <= k < |s.returned| ==> OncePair(s, j, k))
  }

  // ---- Every event keeps it -------------------------------------------------------------------

  ghost predicate Facts(s: Table, q: int) {
    0 <= q < |s.procs| ==> ParentOk(s, q) && CallOk(s, q)
  }

  lemma FactsOf(s: Table, q: int)
    requires FamilyInv(s)
    ensures Facts(s, q)
  {
  }

  lemma ForkAllocKeeps(s: Table, e: Event, s': Table, q: int)
    requires e.ForkAlloc? && Enabled(s, e) && s' == Next(s, e) && 0 <= q < |s.procs|
    requires Facts(s, q) && Facts(s, e.p) && Facts(s, e.n)
    requires s.procs[q].parent != Some(e.n)
    requires s.procs[q].call.Forking? ==> s.procs[q].call.np != e.n
    ensures |s'.procs| == |s.procs| && ParentOk(s', q) && CallOk(s', q)
  {
  }

  lemma ForkFailKeeps(s: Table, e: Event, s': Table, q: int, n: int)
    requires e.ForkFail? && Enabled(s, e) && s' == Next(s, e) && 0 <= q < |s.procs| && n == s.procs[e.p].call.np
    requires Facts(s, q) && Facts(s, e.p) && Facts(s, n)
    requires s.procs[q].parent != Some(n)
    requires q != e.p && s.procs[q].call.Forking? ==> s.procs[q].call.np != n
    ensures |s'.procs| == |s.procs| && ParentOk(s', q) && CallOk(s', q)
  {
  }

  lemma ForkLinkKeeps(s: Table, e: Event, s': Table, q: int, n: int)
    requires (e.ForkLink? || e.ForkDone?) && Enabled(s, e) && s' == Next(s, e) && 0 <= q < |s.procs|
    requires n == s.procs[e.p].call.np && Facts(s, q) && Facts(s, e.p) && Facts(s, n)
    requires s.procs[q].parent != Some(n)
    requires q != e.p && s.procs[q].call.Forking? ==> s.procs[q].call.np != n
    ensures |s'.procs| == |s.procs| && ParentOk(s', q) && CallOk(s', q)
  {
  }

  lemma ExitKeeps(s: Table, e: Event, s': Table, q: int)
    requires e.Exit? && Enabled(s, e) && s' == Next(s, e) && 0 <= q < |s.procs|
    requires FamilyInv(s)
    ensures |s'.procs| == |s.procs| && ParentOk(s', q) && CallOk(s', q)
  {
    FactsOf(s, q);
    FactsOf(s, e.p);
  }

  lemma WaitKeeps(s: Table, e: Event, s': Table, q: int)
    requires (e.WaitReap? || e.WaitNone? || e.WaitSleep?) && Enabled(s, e) && s' == Next(s, e) && 0 <= q < |s.procs|
    requires FamilyInv(s)
    ensures |s'.procs| == |s.procs| && ParentOk(s', q) && CallOk(s', q)
  {
    FactsOf(s, q);
    FactsOf(s, e.p);
    if s.procs[q].parent.Some? {
      FactsOf(s, s.procs[q].parent.value);
    }
    hide FamilyInv;
  }

  lemma OtherKeeps(s: Table, e: Event, s': Table, q: int)
    requires e.Sleep? || e.Wakeup? || e.Yield? || e.Schedule? || e.Kill?
    requires Enabled(s, e) && s' == Next(s, e) && 0 <= q < |s.procs| && FamilyInv(s)
    ensures |s'.procs| == |s.procs| && ParentOk(s', q) && CallOk(s', q)
  {
    FactsOf(s, q);
    hide FamilyInv;
  }

  lemma NextCpus(s: Table, e: Event, s': Table)
    requires Enabled(s, e) && s' == Next(s, e) && FamilyInv(s) && CpuInv(s)
    ensures CpuInv(s')
  {
    forall c | 0 <= c < |s'.cpus|
      ensures CpuOk(s', c)
    {
      NextCpu(s, e, s', c);
    }
    forall q | 0 <= q < |s'.procs|
      ensures RunOk(s', q)
    {
      NextRun(s, e, s', q);
    }
  }

  /** The process whose place on a CPU an event can change, besides those it wakes. */
  function Actor(e: Event): int {
    if e.Wakeup? then -1 else e.p
  }

  lemma NextCpu(s: Table, e: Event, s': Table, c: int)
    requires Enabled(s, e) && s' == Next(s, e) && FamilyInv(s) && CpuInv(s) && 0 <= c < |s'.cpus|
    ensures |s'.cpus| == |s.cpus| && CpuOk(s', c)
  {
    FactsOf(s, Actor(e));
    assert CpuOk(s, c);
    if Running(s, Actor(e)) {
      assert RunOk(s, Actor(e));
    }
  }

  lemma NextRun(s: Table, e: Event, s': Table, q: int)
    requires Enabled(s, e) && s' == Next(s, e) && FamilyInv(s) && CpuInv(s) && 0 <= q < |s'.procs|
    ensures |s'.procs| == |s.procs| && RunOk(s', q)
  {
    FactsOf(s, Actor(e));
    assert RunOk(s, q);
    if Running(s, Actor(e)) {
      assert RunOk(s, Actor(e));
    }
  }

  /** Entries in use keep their pids, and none comes into use. */
  ghost predicate PidsKept(s: Table, s': Table) {
    && |s'.procs| == |s.procs| && s'.nextpid == s.nextpid && s'.returned == s.returned
    && forall q :: 0 <= q < |s.procs| && s'.procs[q].state != UNUSED ==>
         s.procs[q].state != UNUSED && s'.procs[q].pid == s.procs[q].pid
  }

  lemma PidsKeptKeeps(s: Table, s': Table)
    requires PidInv(s) && PidsKept(s, s')
    ensures PidInv(s')
  {
    forall q, r | 0 <= q < |s.procs| && 0 <= r < |s.procs|
      ensures PidPair(s', q, r)
    {
      assert PidPair(s, q, r);
    }
    forall k, q | 0 <= k < |s.returned| && 0 <= q < |s.procs|
      ensures GoneOk(s', k, q)
    {
      assert GoneOk(s, k, q);
    }
    forall j, k | 0 <= j < |s.returned| && 0 <= k < |s.returned|
      ensures OncePair(s', j, k)
    {
      assert OncePair(s, j, k);
    }
    forall q | 0 <= q < |s.procs|
      ensures PidOk(s', q)
    {
      assert PidOk(s, q);
    }
  }

  lemma NextPids(s: Table, e: Event, s': Table)
    requires Enabled(s, e) && s' == Next(s, e) && FamilyInv(s) && PidInv(s)
    ensures PidInv(s')
  {
    hide PidInv;
    if e.ForkAlloc? {
      ForkPids(s, e, s');
    } else if e.WaitReap? {
      WaitPids(s, e, s');
    } else {
      FactsOf(s, Actor(e));
      assert PidsKept(s, s');
      PidsKeptKeeps(s, s');
    }
  }

  lemma ForkPids(s: Table, e: Event, s': Table)
    requires e.ForkAlloc? && Enabled(s, e) && s' == Next(s, e) && PidInv(s)
    ensures PidInv(s')
  {
    forall q | 0 <= q < |s.procs|
      ensures PidOk(s', q)
    {
      assert PidOk(s, q);
    }
    forall q, r | 0 <= q < |s.procs| && 0 <= r < |s.procs|
      ensures PidPair(s', q, r)
    {
      assert PidPair(s, q, r) && PidOk(s, q) && PidOk(s, r);
    }
    forall k, q | 0 <= k < |s.returned| && 0 <= q < |s.procs|
      ensures GoneOk(s', k, q)
    {
      assert GoneOk(s, k, q);
    }
    forall j, k | 0 <= j < |s.returned| && 0 <= k < |s.returned|
      ensures OncePair(s', j, k)
    {
      assert OncePair(s, j, k);
    }
  }

  lemma WaitPids(s: Table, e: Event, s': Table)
    requires e.WaitReap? && Enabled(s, e) && s' == Next(s, e) && PidInv(s)
    ensures PidInv(s')
  {
    assert PidOk(s, e.c);
    forall q | 0 <= q < |s.procs|
      ensures PidOk(s', q)
    {
      assert PidOk(s, q);
    }
    forall q, r | 0 <= q < |s.procs| && 0 <= r < |s.procs|
      ensures PidPair(s', q, r)
    {
      assert PidPair(s, q, r);
    }
    forall k, q | 0 <= k < |s'.returned| && 0 <= q < |s.procs|
      ensures GoneOk(s', k, q)
    {
      assert PidPair(s, q, e.c);
      if k < |s.returned| {
        assert GoneOk(s, k, q);
      }
    }
    forall j, k | 0 <= j < |s'.returned| && 0 <= k < |s'.returned|
      ensures OncePair(s', j, k)
    {
      if j < |s.returned| {
        assert GoneOk(s, j, e.c);
      }
      if k < |s.returned| {
        assert GoneOk(s, k, e.c);
      }
      if j < |s.returned| && k < |s.returned| {
        assert OncePair(s, j, k);
      }
    }
  }

  lemma NextFamily(s: Table, e: Event, s': Table)
    requires Enabled(s, e) && s' == Next(s, e) && FamilyInv(s)
    ensures FamilyInv(s')
  {
    forall q | 0 <= q < |s'.procs|
      ensures ParentOk(s', q) && CallOk(s', q)
    {
      NextMember(s, e, s', q);
    }
    NextInit(s, e, s');
    forall q, r | 0 <= q < |s'.procs| && 0 <= r < |s'.procs|
      ensures ForkPair(s', q, r)
    {
      NextForkPair(s, e, s', q, r);
    }
  }

  lemma NextInit(s: Table, e: Event, s': Table)
    requires Enabled(s, e) && s' == Next(s, e) && FamilyInv(s)
    ensures |s'.procs| == |s.procs| && s'.init == s.init && Alive(s'.procs[s.init]) && s'.procs[s.init].parent.None?
  {
    FactsOf(s, Actor(e));
  }

  lemma NextForkPair(s: Table, e: Event, s': Table, q: int, r: int)
    requires Enabled(s, e) && s' == Next(s, e) && FamilyInv(s) && 0 <= q < |s'.procs| && 0 <= r < |s'.procs|
    ensures |s'.procs| == |s.procs| && ForkPair(s', q, r)
  {
    assert ForkPair(s, q, r);
    FactsOf(s, q);
    FactsOf(s, r);
  }

  lemma NextMember(s: Table, e: Event, s': Table, q: int)
    requires Enabled(s, e) && s' == Next(s, e) && FamilyInv(s) && 0 <= q < |s'.procs|
    ensures |s'.procs| == |s.procs| && ParentOk(s', q) && CallOk(s', q)
  {
    hide Facts;
    hide Next;
    SameLength(s, e, s');
    FactsOf(s, q);
    FactsOf(s, Actor(e));
    match e {
      case ForkAlloc(p, n) =>
        FactsOf(s, n);
        NotUsed(s, q, n);
        ForkAllocKeeps(s, e, s', q);
      case ForkFail(p) =>
        ForkApart(s, p, q);
        FactsOf(s, s.procs[p].call.np);
        ForkFailKeeps(s, e, s', q, s.procs[p].call.np);
      case ForkLink(p) =>
        ForkApart(s, p, q);
        FactsOf(s, s.procs[p].call.np);
        ForkLinkKeeps(s, e, s', q, s.procs[p].call.np);
      case ForkDone(p) =>
        ForkApart(s, p, q);
        FactsOf(s, s.procs[p].call.np);
        ForkLinkKeeps(s, e, s', q, s.procs[p].call.np);
      case Exit(p) => ExitKeeps(s, e, s', q);
      case WaitReap(p, c) => WaitKeeps(s, e, s', q);
      case WaitNone(p) => WaitKeeps(s, e, s', q);
      case WaitSleep(p) => WaitKeeps(s, e, s', q);
      case _ => OtherKeeps(s, e, s', q);
    }
  }

  lemma SameLength(s: Table, e: Event, s': Table)
    requires Enabled(s, e) && s' == Next(s, e)
    ensures |s'.procs| == |s.procs|
  {
  }

  lemma NotUsed(s: Table, q: int, n: int)
    requires FamilyInv(s) && 0 <= q < |s.procs| && 0 <= n < |s.procs| && s.procs[n].state == UNUSED
    ensures s.procs[q].parent != Some(n) && (s.procs[q].call.Forking? ==> s.procs[q].call.np != n)
  {
    assert ParentOk(s, q) && CallOk(s, q);
  }

  lemma ForkApart(s: Table, p: int, q: int)
    requires FamilyInv(s) && 0 <= q < |s.procs| && MayFork(s, p)
    ensures s.procs[q].parent != Some(s.procs[p].call.np)
    ensures q != p && s.procs[q].call.Forking? ==> s.procs[q].call.np != s.procs[p].call.np
  {
    assert ParentOk(s, q) && CallOk(s, p) && ForkPair(s, q, p);
  }

  // ---- Every run ------------------------------------------------------------------------------

  /** After userinit: one process, not yet running. */
  ghost predicate Start(s: Table) {
    && 0 <= s.init < |s.procs| && s.nextpid == 2 && s.returned == []
    && s.procs[s.init] == Proc(RUNNABLE, NoChan, None, 1, false, NoCall, 0)
    && (forall q :: 0 <= q < |s.procs| && q != s.init ==> s.procs[q] == Proc(UNUSED, NoChan, None, 0, false, NoCall, 0))
    && (forall c :: 0 <= c < |s.cpus| ==> s.cpus[c].None?)
  }

  ghost predicate Step(s: Table, e: Event, s': Table) {
    Enabled(s, e) && s' == Next(s, e)
  }

  ghost predicate Run(states: seq<Table>, events: seq<Event>) {
    && |states| == |events| + 1 && Start(states[0])
    && forall k :: 0 <= k < |events| ==> Step(states[k], events[k], states[k + 1])
  }

  ghost predicate Inv(s: Table) {
    FamilyInv(s) && CpuInv(s) && PidInv(s)
  }

  lemma StartInv(s: Table)
    requires Start(s)
    ensures Inv(s)
  {
  }

  lemma StepKeeps(s: Table, e: Event, s': Table)
    requires Inv(s) && Step(s, e, s')
    ensures Inv(s')
  {
    hide FamilyInv;
    hide CpuInv;
    hide PidInv;
    hide Next;
    hide Enabled;
    NextFamily(s, e, s');
    NextCpus(s, e, s');
    NextPids(s, e, s');
  }

  lemma {:induction false} RunKeeps(states: seq<Table>, events: seq<Event>, k: nat)
    requires Run(states, events) && k < |states|
    ensures Inv(states[k])
  {
    hide Inv;
    hide Step;
    hide Start;
    if k == 0 {
      StartInv(states[0]);
    } else {
      RunKeeps(states, events, k - 1);
      StepKeeps(states[k - 1], events[k - 1], states[k]);
    }
  }

  /** No process sleeps in wait while one of its children has exited, and every parent is alive. */
  lemma WaitersWoken(states: seq<Table>, events: seq<Event>, k: nat, q: int)
    requires Run(states, events) && k < |states| && 0 <= q < |states[k].procs| && states[k].procs[q].parent.Some?
    ensures var s, r := states[k], states[k].procs[q].parent.value;
      && 0 <= r < |s.procs| && Alive(s.procs[r])
      && (s.procs[q].state == ZOMBIE ==> !(s.procs[r].state == SLEEPING && s.procs[r].call == InWait))
  {
    hide Step;
    hide Start;
    RunKeeps(states, events, k);
    assert ParentOk(states[k], q) && CallOk(states[k], states[k].procs[q].parent.value);
  }

  /** Every process but init that has been forked has a parent. */
  lemma NobodyOrphaned(states: seq<Table>, events: seq<Event>, k: nat, q: int)
    requires Run(states, events) && k < |states| && 0 <= q < |states[k].procs| && q != states[k].init
    requires Alive(states[k].procs[q]) || states[k].procs[q].state == ZOMBIE
    ensures states[k].procs[q].parent.Some?
  {
    hide Step;
    hide Start;
    RunKeeps(states, events, k);
    assert ParentOk(states[k], q);
  }

  /** A process is RUNNING if and only if exactly one CPU runs it. */
  lemma RunningIffOneCpu(states: seq<Table>, events: seq<Event>, k: nat, q: int)
    requires Run(states, events) && k < |states| && 0 <= q < |states[k].procs|
    ensures var s := states[k];
      s.procs[q].state == RUNNING <==>
        exists c :: 0 <= c < |s.cpus| && s.cpus[c] == Some(q) &&
          forall d :: 0 <= d < |s.cpus| && s.cpus[d] == Some(q) ==> d == c
  {
    hide Step;
    hide Start;
    RunKeeps(states, events, k);
    var s := states[k];
    assert RunOk(s, q);
    forall d | 0 <= d < |s.cpus| && s.cpus[d] == Some(q)
      ensures s.procs[q].state == RUNNING && s.procs[q].cpu == d
    {
      assert CpuOk(s, d);
    }
  }

  lemma {:induction false} ReturnedGrows(states: seq<Table>, events: seq<Event>, j: nat, k: nat)
    requires Run(states, events) && j <= k < |states|
    ensures |states[j].returned| <= |states[k].returned|
    ensures forall i :: 0 <= i < |states[j].returned| ==> states[j].returned[i] == states[k].returned[i]
  {
    if j < k {
      ReturnedGrows(states, events, j, k - 1);
      assert Step(states[k - 1], events[k - 1], states[k]);
    }
  }

  /** Event j of the run is a wait by p that finds the exited child in entry c, with the given pid. */
  ghost predicate Reaps(states: seq<Table>, events: seq<Event>, j: int, p: int, c: int, pid: int)
    requires Run(states, events)
  {
    && 0 <= j < |events| && events[j] == WaitReap(p, c)
    && IsChild(states[j], c, p) && states[j].procs[c].state == ZOMBIE && states[j].procs[c].pid == pid
  }

  /** Event j of the run is the exit of the process with the given pid, in entry c. */
  ghost predicate Exits(states: seq<Table>, events: seq<Event>, j: int, c: int, pid: int)
    requires Run(states, events)
  {
    && 0 <= j < |events| && events[j] == Exit(c)
    && 0 <= c < |states[j].procs| && states[j].procs[c].pid == pid
  }

  lemma StepReturns(s: Table, e: Event, s': Table)
    requires Step(s, e, s')
    ensures s'.returned == s.returned
         || (e.WaitReap? && IsChild(s, e.c, e.p) && s.procs[e.c].state == ZOMBIE
             && s'.returned == s.returned + [(e.p, s.procs[e.c].pid)])
  {
  }

  /** Whatever wait has returned by state k, it found at some event before. */
  lemma {:induction false} ReturnedWasReaped(states: seq<Table>, events: seq<Event>, k: nat, i: nat)
    returns (j: int, c: int)
    requires Run(states, events) && k < |states| && i < |states[k].returned|
    ensures 0 <= j < k && Reaps(states, events, j, states[k].returned[i].0, c, states[k].returned[i].1)
  {
    hide Step;
    j, c := 0, 0;
    if k > 0 {
      StepReturns(states[k - 1], events[k - 1], states[k]);
      if i < |states[k - 1].returned| {
        j, c := ReturnedWasReaped(states, events, k - 1, i);
      } else {
        j, c := k - 1, events[k - 1].c;
      }
    }
  }

  lemma ZombieBefore(s: Table, e: Event, s': Table, c: int)
    requires Inv(s) && Step(s, e, s') && 0 <= c < |s'.procs| && s'.procs[c].state == ZOMBIE
    ensures 0 <= c < |s.procs| && s'.procs[c].pid == s.procs[c].pid
    ensures s.procs[c].state == ZOMBIE || e == Exit(c)
  {
    hide CpuInv;
    hide PidInv;
    FactsOf(s, Actor(e));
  }

  /** An exited process has called exit. */
  lemma {:induction false} ZombieExited(states: seq<Table>, events: seq<Event>, k: nat, c: int) returns (j: int)
    requires Run(states, events) && k < |states| && 0 <= c < |states[k].procs| && states[k].procs[c].state == ZOMBIE
    ensures 0 <= j < k && Exits(states, events, j, c, states[k].procs[c].pid)
  {
    hide Step;
    hide Inv;
    j := 0;
    if k > 0 {
      RunKeeps(states, events, k - 1);
      ZombieBefore(states[k - 1], events[k - 1], states[k], c);
      if events[k - 1] == Exit(c) {
        j := k - 1;
      } else {
        j := ZombieExited(states, events, k - 1, c);
      }
    }
  }

  /** In every run, each pid that wait has returned is that of a process that had called exit
      before, and it went to the process that at that moment was its parent ... */
  lemma ReturnedToParent(states: seq<Table>, events: seq<Event>, k: nat, i: nat)
    requires Run(states, events) && k < |states| && i < |states[k].returned|
    ensures exists x, j, c :: 0 <= x < j < k && Exits(states, events, x, c, states[k].returned[i].1)
              && Reaps(states, events, j, states[k].returned[i].0, c, states[k].returned[i].1)
  {
    hide Step;
    hide Start;
    var j, c := ReturnedWasReaped(states, events, k, i);
    var x := ZombieExited(states, events, j, c);
  }

  /** ... and never again: no entry in use has a pid that was returned, now or later, and no two
      returns gave the same pid. */
  lemma ReturnedOnce(states: seq<Table>, events: seq<Event>, j: nat, k: nat, i: nat)
    requires Run(states, events) && j <= k < |states| && i < |states[j].returned|
    ensures forall q :: 0 <= q < |states[k].procs| && states[k].procs[q].state != UNUSED ==>
              states[k].procs[q].pid != states[j].returned[i].1
    ensures forall m :: 0 <= m < |states[k].returned| && m != i ==> states[k].returned[m].1 != states[j].returned[i].1
  {
    hide Step;
    hide Start;
    ReturnedGrows(states, events, j, k);
    RunKeeps(states, events, k);
    forall q | 0 <= q < |states[k].procs| && states[k].procs[q].state != UNUSED
      ensures states[k].procs[q].pid != states[j].returned[i].1
    {
      assert GoneOk(states[k], i, q);
    }
    forall m | 0 <= m < |states[k].returned| && m != i
      ensures states[k].returned[m].1 != states[j].returned[i].1
    {
      assert OncePair(states[k], m, i);
    }
  }

  lemma ZombieStep(s: Table, e: Event, s': Table, c: int)
    requires Inv(s) && Step(s, e, s') && 0 <= c < |s.procs| && s.procs[c].state == ZOMBIE
    ensures |s'.procs| == |s.procs|
    ensures if e.WaitReap? && e.c == c
            then IsChild(s, c, e.p) && s'.returned == s.returned + [(e.p, s.procs[c].pid)]
            else s'.procs[c].state == ZOMBIE && s'.procs[c].pid == s.procs[c].pid
  {
    hide CpuInv;
    hide PidInv;
    FactsOf(s, Actor(e));
    FactsOf(s, c);
  }

  /** An exited process stays, with its pid, until its parent's wait has found it: at any later
      moment it is still there, or its pid has been returned. */
  lemma {:induction false} ZombieStays(states: seq<Table>, events: seq<Event>, j: nat, k: nat, c: int)
    requires Run(states, events) && j <= k < |states| && 0 <= c < |states[j].procs|
    requires states[j].procs[c].state == ZOMBIE
    ensures var pid := states[j].procs[c].pid;
      || (0 <= c < |states[k].procs| && states[k].procs[c].state == ZOMBIE && states[k].procs[c].pid == pid)
      || exists m, p :: j <= m < k && Reaps(states, events, m, p, c, pid) && (p, pid) in states[k].returned
  {
    hide Step;
    hide Inv;
    hide Start;
    if j < k {
      var pid := states[j].procs[c].pid;
      ZombieStays(states, events, j, k - 1, c);
      ReturnedGrows(states, events, k - 1, k);
      if 0 <= c < |states[k - 1].procs| && states[k - 1].procs[c].state == ZOMBIE && states[k - 1].procs[c].pid == pid {
        RunKeeps(states, events, k - 1);
        ZombieStep(states[k - 1], events[k - 1], states[k], c);
        var e := events[k - 1];
        if e.WaitReap? && e.c == c {
          assert Reaps(states, events, k - 1, e.p, c, pid);
          assert states[k].returned[|states[k].returned| - 1] == (e.p, pid);
        }
      } else {
        var m, p :| j <= m < k - 1 && Reaps(states, events, m, p, c, pid) && (p, pid) in states[k - 1].returned;
        var i :| 0 <= i < |states[k - 1].returned| && states[k - 1].returned[i] == (p, pid);
        assert states[k].returned[i] == (p, pid);
      }
    }
  }

  // ---- What each event does --------------------------------------------------------------------

  /** The states a process goes through, and by what. */
  lemma StateDiagram(s: Table, e: Event, s': Table, q: int)
    requires Inv(s) && Step(s, e, s') && 0 <= q < |s.procs|
    ensures |s'.procs| == |s.procs|
    ensures var a, b := s.procs[q].state, s'.procs[q].state;
      || b == a
      || (a == UNUSED && b == EMBRYO && e.ForkAlloc? && e.n == q)
      || (a == EMBRYO && b == UNUSED && e.ForkFail? && s.procs[e.p].call == Forking(q, false))
      || (a == EMBRYO && b == RUNNABLE && e.ForkDone? && s.procs[e.p].call == Forking(q, true))
      || (a == RUNNABLE && b == RUNNING && e.Schedule? && e.p == q)
      || (a == RUNNING && b == RUNNABLE && e == Yield(q))
      || (a == RUNNING && b == SLEEPING && (e == WaitSleep(q) || (e.Sleep? && e.p == q)))
      || (a == SLEEPING && b == RUNNABLE && Wakes(s, e, q))
      || (a == RUNNING && b == ZOMBIE && e == Exit(q))
      || (a == ZOMBIE && b == UNUSED && e.WaitReap? && e.c == q && s.procs[q].parent == Some(e.p))
    ensures s.procs[q].state == SLEEPING && Wakes(s, e, q) ==> s'.procs[q].state == RUNNABLE
  {
    hide CpuInv;
    hide PidInv;
    FactsOf(s, Actor(e));
    FactsOf(s, q);
  }

  /** And each event takes the process it is about to its new state. */
  lemma StateReached(s: Table, e: Event, s': Table, q: int)
    requires Inv(s) && Step(s, e, s') && 0 <= q < |s.procs|
    ensures |s'.procs| == |s.procs| && |s'.cpus| == |s.cpus|
    ensures e.ForkAlloc? && e.n == q ==> s'.procs[q].state == EMBRYO && s'.procs[q].pid == s.nextpid < s'.nextpid
    ensures e.ForkFail? && s.procs[e.p].call.np == q ==> s'.procs[q].state == UNUSED
    ensures e.ForkDone? && s.procs[e.p].call.np == q ==> s'.procs[q].state == RUNNABLE
    ensures e.Schedule? && e.p == q ==> s'.procs[q].state == RUNNING && s'.cpus[e.c] == Some(q)
    ensures e == Yield(q) ==> s'.procs[q].state == RUNNABLE && s'.cpus[s.procs[q].cpu].None?
    ensures e == WaitSleep(q) ==> s'.procs[q].state == SLEEPING && s'.procs[q].chan == ProcChan(q)
    ensures e == Exit(q) ==> s'.procs[q].state == ZOMBIE && s'.cpus[s.procs[q].cpu].None?
    ensures e.WaitReap? && e.c == q ==> s'.procs[q].state == UNUSED && s'.procs[q].parent.None?
    ensures e.Exit? && s.procs[q].parent == Some(e.p) ==> s'.procs[q].parent == Some(s.init)
  {
    hide PidInv;
    FactsOf(s, Actor(e));
    FactsOf(s, q);
    if Running(s, Actor(e)) {
      assert RunOk(s, Actor(e));
    }
    hide CpuInv;
    hide FamilyInv;
  }

  /** The event wakes a sleeper q: the wakeup of what it sleeps on, a kill, the exit of a child, or for
      init the exit of a process that leaves it an exited child. */
  predicate Wakes(s: Table, e: Event, q: int)
    requires Enabled(s, e) && 0 <= q < |s.procs|
  {
    match e
    case Wakeup(x) => s.procs[q].chan == OtherChan(x)
    case Kill(p) => p == q
    case Exit(p) =>
      && s.procs[q].chan == ProcChan(q)
      && (s.procs[p].parent == Some(q) || (q == s.init && HasZombie(s, p)))
    case _ => false
  }

  /** After wakeup(x) nobody sleeps on x: those who did can run, and nothing else has changed. */
  lemma WakeupWakes(s: Table, x: int, s': Table)
    requires Step(s, Wakeup(x), s')
    ensures |s'.procs| == |s.procs| && s' == s.(procs := s'.procs)
    ensures forall q :: 0 <= q < |s.procs| ==>
      s'.procs[q] == if s.procs[q].state == SLEEPING && s.procs[q].chan == OtherChan(x)
                     then s.procs[q].(state := RUNNABLE) else s.procs[q]
    ensures forall q :: 0 <= q < |s.procs| ==> !(s'.procs[q].state == SLEEPING && s'.procs[q].chan == OtherChan(x))
  {
  }

  /** sleep puts the process to sleep on x and frees its CPU; nothing else changes. */
  lemma SleepSleeps(s: Table, p: int, x: int, s': Table)
    requires Inv(s) && Step(s, Sleep(p, x), s')
    ensures |s'.procs| == |s.procs| && s'.procs[p].state == SLEEPING && s'.procs[p].chan == OtherChan(x)
    ensures s'.procs[p] == s.procs[p].(state := SLEEPING, chan := OtherChan(x))
    ensures forall q :: 0 <= q < |s.procs| && q != p ==> s'.procs[q] == s.procs[q]
    ensures |s'.cpus| == |s.cpus|
    ensures forall c :: 0 <= c < |s.cpus| ==> s'.cpus[c] == if s.cpus[c] == Some(p) then None else s.cpus[c]
  {
    hide FamilyInv;
    hide PidInv;
    assert RunOk(s, p);
    forall c | 0 <= c < |s.cpus|
      ensures s'.cpus[c] == if s.cpus[c] == Some(p) then None else s.cpus[c]
    {
      assert CpuOk(s, c);
    }
  }

  lemma SleepStep(s: Table, e: Event, s': Table, q: int)
    requires Inv(s) && Step(s, e, s') && 0 <= q < |s.procs| && s.procs[q].state == SLEEPING && !Wakes(s, e, q)
    ensures |s'.procs| == |s.procs| && s'.procs[q].state == SLEEPING && s'.procs[q].chan == s.procs[q].chan
  {
    hide CpuInv;
    hide PidInv;
    FactsOf(s, Actor(e));
    FactsOf(s, q);
  }

  /** In every run a process that has gone to sleep on x stays asleep until the next wakeup(x), or
      until it is killed; ... */
  lemma {:induction false} SleepsUntil(states: seq<Table>, events: seq<Event>, j: nat, k: nat, q: int, x: int)
    requires Run(states, events) && j < k < |states| && events[j] == Sleep(q, x)
    requires forall m :: j < m < k ==> events[m] != Wakeup(x) && events[m] != Kill(q)
    ensures 0 <= q < |states[k].procs| && states[k].procs[q].state == SLEEPING
    ensures states[k].procs[q].chan == OtherChan(x)
  {
    hide Step;
    hide Start;
    RunKeeps(states, events, k - 1);
    if j + 1 == k {
      SleepNow(states[j], q, x, states[k]);
    } else {
      SleepsUntil(states, events, j, k - 1, q, x);
      OnlyThese(states[k - 1], events[k - 1], states[k], q, x);
      SleepStep(states[k - 1], events[k - 1], states[k], q);
    }
  }

  lemma SleepNow(s: Table, q: int, x: int, s': Table)
    requires Step(s, Sleep(q, x), s')
    ensures 0 <= q < |s'.procs| && s'.procs[q].state == SLEEPING && s'.procs[q].chan == OtherChan(x)
  {
  }

  lemma OnlyThese(s: Table, e: Event, s': Table, q: int, x: int)
    requires Step(s, e, s') && 0 <= q < |s.procs| && s.procs[q].chan == OtherChan(x)
    requires e != Wakeup(x) && e != Kill(q)
    ensures Enabled(s, e) && !Wakes(s, e, q)
  {
  }

  /** ... and that event lets it run. */
  lemma WokenThen(states: seq<Table>, events: seq<Event>, j: nat, k: nat, q: int, x: int)
    requires Run(states, events) && j < k < |events| && events[j] == Sleep(q, x)
    requires forall m :: j < m < k ==> events[m] != Wakeup(x) && events[m] != Kill(q)
    requires events[k] == Wakeup(x) || events[k] == Kill(q)
    ensures 0 <= q < |states[k + 1].procs| && states[k + 1].procs[q].state == RUNNABLE
    ensures events[k] == Kill(q) ==> states[k + 1].procs[q].killed
  {
    hide Start;
    SleepsUntil(states, events, j, k, q, x);
    assert Step(states[k], events[k], states[k + 1]);
  }

  /** kill marks the process and does not leave it asleep; nothing else changes. */
  lemma KillMarks(s: Table, p: int, s': Table)
    requires Step(s, Kill(p), s')
    ensures |s'.procs| == |s.procs| && s' == s.(procs := s'.procs)
    ensures s'.procs[p].killed && s'.procs[p].state != SLEEPING
    ensures s.procs[p].state != SLEEPING ==> s'.procs[p].state == s.procs[p].state
    ensures s'.procs[p] == s.procs[p].(killed := true, state := s'.procs[p].state)
    ensures forall q :: 0 <= q < |s.procs| && q != p ==> s'.procs[q] == s.procs[q]
  {
  }

  lemma KilledStep(s: Table, e: Event, s': Table, q: int)
    requires Inv(s) && Step(s, e, s') && 0 <= q < |s.procs| && s.procs[q].killed && !(e.WaitReap? && e.c == q)
    ensures |s'.procs| == |s.procs| && s'.procs[q].killed
  {
    hide CpuInv;
    hide PidInv;
    FactsOf(s, Actor(e));
  }

  /** A killed process stays marked until its entry is reaped. */
  lemma {:induction false} KilledStays(states: seq<Table>, events: seq<Event>, j: nat, k: nat, q: int)
    requires Run(states, events) && j < k < |states| && events[j] == Kill(q)
    requires forall m :: j < m < k ==> !(events[m].WaitReap? && events[m].c == q)
    ensures 0 <= q < |states[k].procs| && states[k].procs[q].killed
  {
    hide Step;
    hide Start;
    RunKeeps(states, events, k - 1);
    if j + 1 == k {
      KillNow(states[j], q, states[k]);
    } else {
      KilledStays(states, events, j, k - 1, q);
      KilledStep(states[k - 1], events[k - 1], states[k], q);
    }
  }

  /** Event j killed the process in entry q, and the entry has not been reaped since. */
  predicate MarkedAt(events: seq<Event>, j: int, k: int, q: int) {
    && 0 <= j < k <= |events| && events[j] == Kill(q)
    && forall m :: j < m < k ==> !(events[m].WaitReap? && events[m].c == q)
  }

  lemma MarkedFrom(s: Table, e: Event, s': Table, q: int)
    requires Inv(s) && Step(s, e, s') && 0 <= q < |s.procs|
    ensures |s'.procs| == |s.procs|
    ensures s'.procs[q].killed ==> e == Kill(q) || (s.procs[q].killed && !(e.WaitReap? && e.c == q))
  {
    hide CpuInv;
    hide PidInv;
    FactsOf(s, Actor(e));
  }

  /** In every run an entry is marked as killed if and only if a kill has found it since it was last
      reaped. kill does not look at the state: found while unused, it marks the next process. */
  lemma {:induction false} KilledIff(states: seq<Table>, events: seq<Event>, k: nat, q: int)
    requires Run(states, events) && k < |states| && 0 <= q < |states[0].procs|
    ensures q < |states[k].procs| && (states[k].procs[q].killed <==> exists j :: MarkedAt(events, j, k, q))
  {
    hide Step;
    if j :| MarkedAt(events, j, k, q) {
      KilledStays(states, events, j, k, q);
    }
    if k > 0 {
      RunKeeps(states, events, k - 1);
      KilledIff(states, events, k - 1, q);
      MarkedFrom(states[k - 1], events[k - 1], states[k], q);
      if events[k - 1] == Kill(q) {
        assert MarkedAt(events, k - 1, k, q);
      } else if states[k].procs[q].killed {
        var j :| MarkedAt(events, j, k - 1, q);
        assert MarkedAt(events, j, k, q);
      }
    }
  }

  lemma KillNow(s: Table, q: int, s': Table)
    requires Step(s, Kill(q), s')
    ensures 0 <= q < |s'.procs| && s'.procs[q].killed
  {
  }

  // ---- fork ---------------------------------------------------------------------------------------

  /** Process p is forking entry n, to which allocproc has given the pid. */
  predicate IsForking(s: Table, p: int, n: int, pid: int) {
    && 0 <= p < |s.procs| && 0 <= n < |s.procs| && n != p
    && s.procs[p].call.Forking? && s.procs[p].call.np == n && s.procs[n].state == EMBRYO && s.procs[n].pid == pid
    && (s.procs[p].call.linked ==> s.procs[n].parent == Some(p))
  }

  lemma ForkStep(s: Table, e: Event, s': Table, p: int, n: int, pid: int)
    requires Inv(s) && Step(s, e, s') && IsForking(s, p, n, pid) && e != ForkDone(p) && e != ForkFail(p)
    ensures IsForking(s', p, n, pid)
  {
    hide CpuInv;
    hide PidInv;
    FactsOf(s, Actor(e));
    FactsOf(s, p);
    FactsOf(s, n);
    if 0 <= Actor(e) < |s.procs| {
      assert ForkPair(s, p, Actor(e));
    }
    hide FamilyInv;
  }

  lemma {:induction false} StillForking(states: seq<Table>, events: seq<Event>, j: nat, k: nat, p: int, n: int)
    requires Run(states, events) && j < k < |states| && events[j] == ForkAlloc(p, n)
    requires forall m :: j < m < k ==> events[m] != ForkDone(p) && events[m] != ForkFail(p)
    ensures IsForking(states[k], p, n, states[j].nextpid)
  {
    hide Step;
    hide Start;
    RunKeeps(states, events, k - 1);
    if j + 1 == k {
      ForkBegun(states[j], p, n, states[k]);
    } else {
      StillForking(states, events, j, k - 1, p, n);
      ForkStep(states[k - 1], events[k - 1], states[k], p, n, states[j].nextpid);
    }
  }

  lemma ForkBegun(s: Table, p: int, n: int, s': Table)
    requires Inv(s) && Step(s, ForkAlloc(p, n), s')
    ensures IsForking(s', p, n, s.nextpid)
  {
  }

  /** In every run the process that a fork has made can run, is a child of the one that called fork,
      and has a pid that no process had when it was made. */
  lemma ForkedChild(states: seq<Table>, events: seq<Event>, j: nat, k: nat, p: int, n: int)
    requires Run(states, events) && j < k < |events| && events[j] == ForkAlloc(p, n) && events[k] == ForkDone(p)
    requires forall m :: j < m < k ==> events[m] != ForkDone(p) && events[m] != ForkFail(p)
    ensures 0 <= p < |states[k + 1].procs| && 0 <= n < |states[k + 1].procs|
    ensures states[k + 1].procs[n].state == RUNNABLE && states[k + 1].procs[n].parent == Some(p)
    ensures states[k + 1].procs[n].pid == states[j].nextpid && states[k + 1].procs[p].call == NoCall
    ensures forall q :: 0 <= q < |states[j].procs| && states[j].procs[q].state != UNUSED ==>
              states[j].procs[q].pid != states[j].nextpid
    ensures forall m :: 0 <= m < |states[j].returned| ==> states[j].returned[m].1 != states[j].nextpid
  {
    hide Start;
    StillForking(states, events, j, k, p, n);
    RunKeeps(states, events, j);
    assert Step(states[k], events[k], states[k + 1]);
    forall q | 0 <= q < |states[j].procs| && states[j].procs[q].state != UNUSED
      ensures states[j].procs[q].pid != states[j].nextpid
    {
      assert PidOk(states[j], q);
    }
  }
}
