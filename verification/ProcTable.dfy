/** The loops over ptable in proc.c: wakeup1, allocproc, exit, wait and kill. */
module ProcTables {
  import opened Wrappers
  import opened Processes

  datatype WaitResult = Reaped(pid: int) | NoChild | Slept

  /** Entry q when the loop in exit has passed the entries below i. */
  function PartExit(s: Table, p: int, q: int, i: int): Proc
    requires 0 <= q < |s.procs| && 0 <= p < |s.procs| && i <= |s.procs|
  {
    var v := s.procs[q];
    v.(parent := if q < i && v.parent == Some(p) then Some(s.init) else v.parent,
       state := if v.state == SLEEPING && (v.chan == ParentChan(s.procs[p]) ||
                                           (v.chan == ProcChan(s.init) && ZombieBelow(s, p, i)))
                then RUNNABLE else v.state)
  }

  predicate ZombieBelow(s: Table, p: int, i: int)
    requires i <= |s.procs|
  {
    exists q :: 0 <= q < i && s.procs[q].parent == Some(p) && s.procs[q].state == ZOMBIE
  }

  predicate FirstWith(procs: seq<Proc>, pid: int, q: int) {
    0 <= q < |procs| && procs[q].pid == pid && forall r :: 0 <= r < q ==> procs[r].pid != pid
  }

  /** c is the first child of p that has exited. */
  predicate FirstZombie(s: Table, p: int, c: int) {
    && IsChild(s, c, p) && s.procs[c].state == ZOMBIE
    && forall q :: 0 <= q < c && s.procs[q].parent == Some(p) ==> s.procs[q].state != ZOMBIE
  }

  /** Entry c, which had the pid, is free; no other entry has changed but that of the caller p. */
  predicate TakenOut(procs: seq<Proc>, procs': seq<Proc>, p: int, c: int, pid: int) {
    && 0 <= c < |procs| == |procs'| && 0 <= p < |procs| && procs[c].pid == pid
    && procs'[c] == procs[c].(state := UNUSED, pid := 0, parent := None, killed := false)
    && procs'[p] == procs[p].(call := NoCall)
    && forall q :: 0 <= q < |procs| && q != c && q != p ==> procs'[q] == procs[q]
  }

  class ProcTable {
    var procs: seq<Proc>
    var cpus: seq<Option<int>>
    var nextpid: int
    const init: int
    ghost var returned: seq<(int, int)>

    constructor (nproc: nat, ncpu: nat)
      requires nproc > 0
      ensures Start(State()) && |procs| == nproc && |cpus| == ncpu
    {
      init, nextpid, returned := 0, 2, [];
      procs := [Proc(RUNNABLE, NoChan, None, 1, false, NoCall, 0)]
               + seq(nproc - 1, _ => Proc(UNUSED, NoChan, None, 0, false, NoCall, 0));
      cpus := seq(ncpu, _ => None);
    }

    ghost function State(): Table
      reads this
    {
      Table(procs, cpus, nextpid, init, returned)
    }

    /** wakeup1: whoever sleeps on ch can run; no other entry changes. */
    method Wakeup1(ch: Chan)
      modifies this`procs
      ensures |procs| == |old(procs)| && procs == Woken(old(procs), ch)
      ensures forall q :: 0 <= q < |procs| && old(procs)[q].state == SLEEPING && old(procs)[q].chan == ch ==>
                procs[q] == old(procs)[q].(state := RUNNABLE)
      ensures forall q :: 0 <= q < |procs| && !(old(procs)[q].state == SLEEPING && old(procs)[q].chan == ch) ==>
                procs[q] == old(procs)[q]
    {
      var i := 0;
      while i < |procs|
        invariant 0 <= i <= |procs| == |old(procs)|
        invariant forall q :: 0 <= q < i ==> procs[q] == Woken(old(procs), ch)[q]
        invariant forall q :: i <= q < |procs| ==> procs[q] == old(procs)[q]
      {
        if procs[i].state == SLEEPING && procs[i].chan == ch {
          procs := procs[i := procs[i].(state := RUNNABLE)];
        }
        i := i + 1;
      }
    }

    /** The first part of allocproc, for a fork by p: the first free entry. */
    method AllocProc(p: int) returns (r: Option<int>)
      requires Running(State(), p) && procs[p].call == NoCall
      modifies this`procs, this`nextpid
      ensures r.None? ==> State() == old(State()) && forall q :: 0 <= q < |procs| ==> procs[q].state != UNUSED
      ensures r.Some? ==>
        && Enabled(old(State()), ForkAlloc(p, r.value)) && State() == Next(old(State()), ForkAlloc(p, r.value))
        && forall q :: 0 <= q < r.value ==> old(procs)[q].state != UNUSED
      ensures r.Some? ==>
        && 0 <= r.value < |procs| == |old(procs)| && old(procs)[r.value].state == UNUSED
        && procs[r.value] == old(procs)[r.value].(state := EMBRYO, pid := old(nextpid)) && nextpid == old(nextpid) + 1
        && procs[p] == old(procs)[p].(call := Forking(r.value, false))
        && forall q :: 0 <= q < |procs| && q != r.value && q != p ==> procs[q] == old(procs)[q]
    {
      var i := 0;
      while i < |procs|
        invariant 0 <= i <= |procs| && procs == old(procs) && nextpid == old(nextpid)
        invariant forall q :: 0 <= q < i ==> procs[q].state != UNUSED
      {
        if procs[i].state == UNUSED {
          procs := procs[p := procs[p].(call := Forking(i, false))][i := procs[i].(state := EMBRYO, pid := nextpid)];
          nextpid := nextpid + 1;
          return Some(i);
        }
        i := i + 1;
      }
      return None;
    }

    /** exit, from its acquire of ptable.lock to the switch to the scheduler. */
    method ExitProc(p: int)
      requires Enabled(State(), Exit(p)) && Inv(State())
      modifies this`procs, this`cpus
      ensures State() == Next(old(State()), Exit(p)) && Inv(State())
      ensures |procs| == |old(procs)| && procs[p] == old(procs)[p].(state := ZOMBIE)
      ensures forall q :: 0 <= q < |procs| && old(procs)[q].parent == Some(p) ==> procs[q].parent == Some(init)
      ensures forall q :: 0 <= q < |procs| && old(procs)[q].parent != Some(p) ==>
                procs[q].parent == old(procs)[q].parent
      ensures forall q :: 0 <= q < |procs| && q != p && old(procs)[q].state == SLEEPING ==>
                (procs[q].state == RUNNABLE <==>
                   && old(procs)[q].chan == ProcChan(q)
                   && (old(procs)[p].parent == Some(q) || (q == init && HasZombie(old(State()), p))))
      ensures forall q :: 0 <= q < |procs| && q != p ==>
                procs[q] == old(procs)[q].(parent := procs[q].parent, state := procs[q].state)
                && (procs[q].state != old(procs)[q].state ==> old(procs)[q].state == SLEEPING)
    {
      hide Inv;
      ghost var s := State();
      NotOwnParent(s, p);
      Wakeup1(ParentChan(procs[p]));
      var i := 0;
      while i < |procs|
        invariant 0 <= i <= |procs| == |s.procs| && cpus == s.cpus && nextpid == s.nextpid && returned == s.returned
        invariant forall q :: 0 <= q < |procs| ==> procs[q] == PartExit(s, p, q, i)
      {
        ghost var before := procs;
        if procs[i].parent == Some(p) {
          procs := procs[i := procs[i].(parent := Some(init))];
          if procs[i].state == ZOMBIE {
            Wakeup1(ProcChan(init));
          }
        }
        PartStep(s, p, i, before, procs);
        i := i + 1;
      }
      procs := procs[p := procs[p].(state := ZOMBIE)];
      cpus := cpus[procs[p].cpu := None];
      PartEnd(s, p);
      StepKeeps(s, Exit(p), State());
      ExitEntries(s, p, State());
    }

    /** wait, from its acquire of ptable.lock to its return, or to the switch in sleep. */
    method WaitProc(p: int) returns (r: WaitResult)
      requires MayWait(State(), p) && Inv(State())
      modifies this`procs, this`cpus, this`returned
      ensures Inv(State())
      ensures match r
        case Reaped(pid) => exists c :: Enabled(old(State()), WaitReap(p, c)) && pid == old(procs)[c].pid &&
                                        State() == Next(old(State()), WaitReap(p, c))
        case NoChild => Enabled(old(State()), WaitNone(p)) && State() == Next(old(State()), WaitNone(p))
        case Slept => Enabled(old(State()), WaitSleep(p)) && State() == Next(old(State()), WaitSleep(p))
      ensures |procs| == |old(procs)| && (r.Reaped? <==> HasZombie(old(State()), p))
      ensures !r.Reaped? ==> (r.NoChild? <==> !HasKids(old(State()), p) || old(procs)[p].killed)
      ensures r.Reaped? ==> exists c :: FirstZombie(old(State()), p, c) && TakenOut(old(procs), procs, p, c, r.pid)
      ensures r.Slept? ==> procs[p].state == SLEEPING && procs[p].chan == ProcChan(p)
      ensures !r.Reaped? ==> forall q :: 0 <= q < |procs| && q != p ==> procs[q] == old(procs)[q]
    {
      hide Inv;
      ghost var s := State();
      NotOwnParent(s, p);
      var havekids := false;
      var i := 0;
      while i < |procs|
        invariant 0 <= i <= |procs| && State() == s
        invariant havekids <==> exists q :: 0 <= q < i && procs[q].parent == Some(p)
        invariant forall q :: 0 <= q < i && procs[q].parent == Some(p) ==> procs[q].state != ZOMBIE
      {
        if procs[i].parent == Some(p) {
          havekids := true;
          if procs[i].state == ZOMBIE {
            var pid := procs[i].pid;
            procs := procs[p := procs[p].(call := NoCall)]
                          [i := procs[i].(state := UNUSED, pid := 0, parent := None, killed := false)];
            returned := returned + [(p, pid)];
            StepKeeps(s, WaitReap(p, i), State());
            assert FirstZombie(s, p, i) && TakenOut(s.procs, procs, p, i, pid);
            return Reaped(pid);
          }
        }
        i := i + 1;
      }
      if !havekids || procs[p].killed {
        procs := procs[p := procs[p].(call := NoCall)];
        StepKeeps(s, WaitNone(p), State());
        return NoChild;
      }
      cpus := cpus[procs[p].cpu := None];
      procs := procs[p := procs[p].(state := SLEEPING, chan := ProcChan(p), call := InWait)];
      StepKeeps(s, WaitSleep(p), State());
      return Slept;
    }

    /** kill: the first entry with the pid is marked and does not stay asleep. */
    method KillProc(pid: int) returns (r: int)
      modifies this`procs
      ensures r == -1 ==> State() == old(State()) && forall q :: 0 <= q < |procs| ==> procs[q].pid != pid
      ensures r != -1 ==> r == 0 && exists q :: Enabled(old(State()), Kill(q)) && old(procs)[q].pid == pid &&
                                                State() == Next(old(State()), Kill(q))
      ensures |procs| == |old(procs)| && (r == 0 <==> exists q :: 0 <= q < |procs| && old(procs)[q].pid == pid)
      ensures forall q :: 0 <= q < |procs| ==>
        if FirstWith(old(procs), pid, q)
        then procs[q].killed && procs[q].state != SLEEPING
             && (old(procs)[q].state != SLEEPING ==> procs[q].state == old(procs)[q].state)
             && procs[q] == old(procs)[q].(killed := true, state := procs[q].state)
        else procs[q] == old(procs)[q]
    {
      var i := 0;
      while i < |procs|
        invariant 0 <= i <= |procs| && procs == old(procs)
        invariant forall q :: 0 <= q < i ==> procs[q].pid != pid
      {
        if procs[i].pid == pid {
          assert Enabled(old(State()), Kill(i));
          assert FirstWith(old(procs), pid, i);
          procs := procs[i := procs[i].(killed := true)];
          if procs[i].state == SLEEPING {
            procs := procs[i := procs[i].(state := RUNNABLE)];
          }
          return 0;
        }
        i := i + 1;
      }
      return -1;
    }
  }

  lemma NotOwnParent(s: Table, p: int)
    requires Inv(s) && 0 <= p < |s.procs|
    ensures s.procs[p].parent != Some(p)
  {
    assert ParentOk(s, p);
  }

  lemma ExitEntries(s: Table, p: int, s': Table)
    requires Inv(s) && Step(s, Exit(p), s')
    ensures |s'.procs| == |s.procs| && s'.procs[p] == s.procs[p].(state := ZOMBIE)
    ensures forall q :: 0 <= q < |s.procs| ==>
      && s'.procs[q].parent == (if s.procs[q].parent == Some(p) then Some(s.init) else s.procs[q].parent)
      && (q != p && s.procs[q].state == SLEEPING ==>
            (s'.procs[q].state == RUNNABLE <==>
               && s.procs[q].chan == ProcChan(q)
               && (s.procs[p].parent == Some(q) || (q == s.init && HasZombie(s, p)))))
      && (q != p ==> s'.procs[q] == s.procs[q].(parent := s'.procs[q].parent, state := s'.procs[q].state))
      && (q != p && s'.procs[q].state != s.procs[q].state ==> s.procs[q].state == SLEEPING)
  {
    hide CpuInv;
    hide PidInv;
    forall q | 0 <= q < |s.procs|
      ensures s'.procs[q].parent == (if s.procs[q].parent == Some(p) then Some(s.init) else s.procs[q].parent)
      ensures q != p && s.procs[q].state == SLEEPING ==>
            (s'.procs[q].state == RUNNABLE <==>
               && s.procs[q].chan == ProcChan(q)
               && (s.procs[p].parent == Some(q) || (q == s.init && HasZombie(s, p))))
    {
      FactsOf(s, q);
      FactsOf(s, p);
    }
  }

  lemma PartStep(s: Table, p: int, i: int, before: seq<Proc>, after: seq<Proc>)
    requires 0 <= p < |s.procs| && 0 <= i < |s.procs| == |before| == |after| && p != s.init
    requires forall q :: 0 <= q < |before| ==> before[q] == PartExit(s, p, q, i)
    requires if before[i].parent == Some(p) then
               var linked := before[i := before[i].(parent := Some(s.init))];
               after == if before[i].state == ZOMBIE then Woken(linked, ProcChan(s.init)) else linked
             else after == before
    ensures forall q :: 0 <= q < |after| ==> after[q] == PartExit(s, p, q, i + 1)
  {
    var v := s.procs[i];
    if v.parent == Some(p) && v.state == ZOMBIE {
      assert ZombieBelow(s, p, i + 1);
    } else {
      assert ZombieBelow(s, p, i + 1) <==> ZombieBelow(s, p, i);
    }
  }

  lemma PartEnd(s: Table, p: int)
    requires Enabled(s, Exit(p)) && s.procs[p].parent != Some(p)
    ensures forall q :: 0 <= q < |s.procs| && q != p ==> PartExit(s, p, q, |s.procs|) == AfterExit(s, p, q)
    ensures PartExit(s, p, p, |s.procs|) == s.procs[p]
  {
    assert ZombieBelow(s, p, |s.procs|) <==> HasZombie(s, p);
  }
}
