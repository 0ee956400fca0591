/** Pipes (pipe.c): a bounded buffer between any number of readers and writers. A turn is what a
    process does from taking the pipe's lock to releasing it, by returning or in sleep. */
module Pipes {
  const PIPESIZE: int := 512

  /** What a process is doing with the pipe. A writer has stored the first i bytes of buf. */
  datatype Call =
    | Idle
    | Write(buf: seq<int>, i: nat)
    | WriteSleep(buf: seq<int>, i: nat)
    | Read(n: nat)
    | ReadSleep(n: nat)

  /** ret: what its last call returned. */
  datatype Proc = Proc(call: Call, killed: bool, ret: int)

  /** accepted and delivered: all bytes ever stored by pipewrite and copied out by piperead. */
  datatype Sys = Sys(accepted: seq<int>, delivered: seq<int>, readopen: bool, writeopen: bool, procs: seq<Proc>)

  function InFlight(s: Sys): int {
    |s.accepted| - |s.delivered|
  }

  function Least(a: int, b: int): int {
    if a < b then a else b
  }

  // ---- Turns ---------------------------------------------------------------------------------

  function WakeReaders(ps: seq<Proc>): seq<Proc> {
    seq(|ps|, q requires 0 <= q < |ps| =>
      if ps[q].call.ReadSleep? then ps[q].(call := Read(ps[q].call.n)) else ps[q])
  }

  function WakeWriters(ps: seq<Proc>): seq<Proc> {
    seq(|ps|, q requires 0 <= q < |ps| =>
      if ps[q].call.WriteSleep? then ps[q].(call := Write(ps[q].call.buf, ps[q].call.i)) else ps[q])
  }

  function Doing(ps: seq<Proc>, p: int, call: Call): seq<Proc>
    requires 0 <= p < |ps|
  {
    ps[p := ps[p].(call := call)]
  }

  function Back(ps: seq<Proc>, p: int, ret: int): seq<Proc>
    requires 0 <= p < |ps|
  {
    ps[p := ps[p].(call := Idle, ret := ret)]
  }

  predicate Writing(s: Sys, p: int) {
    0 <= p < |s.procs| && s.procs[p].call.Write? && s.procs[p].call.i <= |s.procs[p].call.buf|
  }

  predicate Reading(s: Sys, p: int) {
    0 <= p < |s.procs| && s.procs[p].call.Read?
  }

  /** The bytes a writer's turn stores: as many as fit. */
  function Fit(s: Sys, p: int): int
    requires Writing(s, p)
  {
    Least(|s.procs[p].call.buf| - s.procs[p].call.i, PIPESIZE - InFlight(s))
  }

  /** The buffer is full before the writer is done. */
  predicate Blocks(s: Sys, p: int)
    requires Writing(s, p)
  {
    s.procs[p].call.i + Fit(s, p) < |s.procs[p].call.buf|
  }

  predicate Fails(s: Sys, p: int)
    requires Writing(s, p)
  {
    Blocks(s, p) && (!s.readopen || s.procs[p].killed)
  }

  function WriteTurn(s: Sys, p: int): Sys
    requires Writing(s, p) && 0 <= InFlight(s) <= PIPESIZE
  {
    var buf, i, k := s.procs[p].call.buf, s.procs[p].call.i, Fit(s, p);
    var s1 := s.(accepted := s.accepted + buf[i..i + k]);
    if Fails(s, p) then s1.(procs := Back(s.procs, p, -1))
    else if Blocks(s, p) then s1.(procs := Doing(WakeReaders(s.procs), p, WriteSleep(buf, i + k)))
    else s1.(procs := Back(WakeReaders(s.procs), p, |buf|))
  }

  function ReadTurn(s: Sys, p: int): Sys
    requires Reading(s, p) && 0 <= InFlight(s)
  {
    var n, r := s.procs[p].call.n, |s.delivered|;
    if InFlight(s) == 0 && s.writeopen then
      s.(procs := if s.procs[p].killed then Back(s.procs, p, -1) else Doing(s.procs, p, ReadSleep(n)))
    else
      s.(delivered := s.delivered + s.accepted[r..r + Least(n, InFlight(s))],
         procs := Back(WakeWriters(s.procs), p, Least(n, InFlight(s))))
  }

  lemma ReadTurnIs(s: Sys, p: int)
    requires Reading(s, p) && 0 <= InFlight(s)
    ensures var s', n, there := ReadTurn(s, p), s.procs[p].call.n, InFlight(s);
      && s'.accepted == s.accepted && s'.readopen == s.readopen && s'.writeopen == s.writeopen
      && |s'.procs| == |s.procs|
      && if there == 0 && s.writeopen
         then s'.delivered == s.delivered
              && s'.procs[p] == if s.procs[p].killed then s.procs[p].(call := Idle, ret := -1)
                                else s.procs[p].(call := ReadSleep(n))
         else s'.delivered == s.delivered + s.accepted[|s.delivered|..|s.delivered| + Least(n, there)]
              && s'.procs[p] == s.procs[p].(call := Idle, ret := Least(n, there))
  {
  }

  /** pipeclose; an end is closed when no descriptor for it is left, so no process is in a call
      on it. */
  function CloseWrite(s: Sys): Sys {
    s.(writeopen := false, procs := WakeReaders(s.procs))
  }

  function CloseRead(s: Sys): Sys {
    s.(readopen := false, procs := WakeWriters(s.procs))
  }

  predicate InRead(v: Proc) {
    v.call.Read? || v.call.ReadSleep?
  }

  predicate InWrite(v: Proc) {
    v.call.Write? || v.call.WriteSleep?
  }

  /** kill: a sleeper runs again and finds itself killed. */
  function Kill(s: Sys, p: int): Sys
    requires 0 <= p < |s.procs|
  {
    var v := s.procs[p];
    s.(procs := s.procs[p := v.(call := match v.call
                                        case WriteSleep(buf, i) => Write(buf, i)
                                        case ReadSleep(n) => Read(n)
                                        case other => other,
                                killed := true)])
  }

  // ---- Runs ----------------------------------------------------------------------------------

  datatype Event = StartWrite(p: int, buf: seq<int>) | StartRead(p: int, n: nat) | WriterTurn(p: int)
                 | ReaderTurn(p: int) | WriteClosed | ReadClosed | Killed(p: int)

  predicate Enabled(s: Sys, e: Event) {
    match e
    case StartWrite(p, buf) => 0 <= p < |s.procs| && s.procs[p].call == Idle && s.writeopen
    case StartRead(p, n) => 0 <= p < |s.procs| && s.procs[p].call == Idle && s.readopen
    case WriterTurn(p) => Writing(s, p)
    case ReaderTurn(p) => Reading(s, p)
    case WriteClosed => s.writeopen && forall q :: 0 <= q < |s.procs| ==> !InWrite(s.procs[q])
    case ReadClosed => s.readopen && forall q :: 0 <= q < |s.procs| ==> !InRead(s.procs[q])
    case Killed(p) => 0 <= p < |s.procs|
  }

  function Next(s: Sys, e: Event): Sys
    requires Enabled(s, e) && 0 <= InFlight(s) <= PIPESIZE
  {
    match e
    case StartWrite(p, buf) => s.(procs := Doing(s.procs, p, Write(buf, 0)))
    case StartRead(p, n) => s.(procs := Doing(s.procs, p, Read(n)))
    case WriterTurn(p) => WriteTurn(s, p)
    case ReaderTurn(p) => ReadTurn(s, p)
    case WriteClosed => CloseWrite(s)
    case ReadClosed => CloseRead(s)
    case Killed(p) => Kill(s, p)
  }

  /** What was delivered is a prefix of what was accepted, and the rest fits into the buffer. */
  ghost predicate Ordered(s: Sys) {
    && 0 <= InFlight(s) <= PIPESIZE
    && (forall k :: 0 <= k < |s.delivered| ==> s.delivered[k] == s.accepted[k])
    && (forall q :: 0 <= q < |s.procs| ==>
          var c := s.procs[q].call;
          (c.Write? || c.WriteSleep? ==> c.i <= |c.buf|)
          && (InRead(s.procs[q]) ==> s.readopen) && (InWrite(s.procs[q]) ==> s.writeopen))
  }

  /** No reader sleeps with data there or the write end closed; no writer sleeps with space
      there or the read end closed. */
  ghost predicate NoneStuck(s: Sys) {
    forall q :: 0 <= q < |s.procs| ==>
      && (s.procs[q].call.ReadSleep? ==> InFlight(s) == 0 && s.writeopen)
      && (s.procs[q].call.WriteSleep? ==> InFlight(s) == PIPESIZE && s.readopen)
  }

  /** The turn in which a killed writer fills an empty buffer and gives up without the wakeup,
      while a reader sleeps. */
  ghost predicate Loses(s: Sys, e: Event) {
    && e.WriterTurn? && Writing(s, e.p) && Fails(s, e.p) && s.procs[e.p].killed
    && exists q :: 0 <= q < |s.procs| && s.procs[q].call.ReadSleep?
  }

  lemma WriterOrdered(s: Sys, p: int)
    requires Ordered(s) && Writing(s, p)
    ensures Ordered(WriteTurn(s, p))
  {
    assert |WriteTurn(s, p).procs| == |s.procs|;
  }

  lemma ReaderOrdered(s: Sys, p: int)
    requires Ordered(s) && Reading(s, p)
    ensures Ordered(ReadTurn(s, p))
  {
    var s' := ReadTurn(s, p);
    assert |s'.procs| == |s.procs|;
    if !(InFlight(s) == 0 && s.writeopen) {
      var r := |s.delivered|;
      var part := s.accepted[r..r + Least(s.procs[p].call.n, InFlight(s))];
      assert forall k :: r <= k < |s'.delivered| ==> s'.delivered[k] == part[k - r];
    }
  }

  lemma NextOrdered(s: Sys, e: Event)
    requires Ordered(s) && Enabled(s, e)
    ensures Ordered(Next(s, e))
  {
    match e
    case WriterTurn(p) => WriterOrdered(s, p);
    case ReaderTurn(p) => ReaderOrdered(s, p);
    case _ => assert |Next(s, e).procs| == |s.procs|;
  }

  /** Exactly the losing turn leaves somebody stuck. */
  lemma NextStuckIff(s: Sys, e: Event)
    requires Ordered(s) && Enabled(s, e) && NoneStuck(s)
    ensures NoneStuck(Next(s, e)) <==> !Loses(s, e)
  {
    var s' := Next(s, e);
    assert |s'.procs| == |s.procs|;
    if Loses(s, e) {
      var q :| 0 <= q < |s.procs| && s.procs[q].call.ReadSleep?;
      assert s'.procs[q].call.ReadSleep?;
      assert InFlight(s') == PIPESIZE;
    }
  }

  ghost predicate Init(s: Sys) {
    && s.accepted == [] && s.delivered == [] && s.readopen && s.writeopen
    && forall q :: 0 <= q < |s.procs| ==> s.procs[q] == Proc(Idle, false, 0)
  }

  ghost predicate Step(s: Sys, e: Event, s': Sys) {
    Enabled(s, e) && 0 <= InFlight(s) <= PIPESIZE && s' == Next(s, e)
  }

  /** Any interleaving of the processes. */
  ghost predicate Run(states: seq<Sys>, events: seq<Event>) {
    && |states| == |events| + 1 && Init(states[0])
    && forall k :: 0 <= k < |events| ==> Step(states[k], events[k], states[k + 1])
  }

  /** In every run, the bytes delivered are a prefix of the bytes accepted and at most PIPESIZE
      are in flight. */
  lemma {:induction false} RunOrdered(states: seq<Sys>, events: seq<Event>, k: nat)
    requires Run(states, events) && k < |states|
    ensures Ordered(states[k])
  {
    hide Next;
    hide Enabled;
    if k > 0 {
      RunOrdered(states, events, k - 1);
      assert Step(states[k - 1], events[k - 1], states[k]);
      NextOrdered(states[k - 1], events[k - 1]);
    }
  }

  /** In every run without a losing turn no process sleeps when it could go on. */
  lemma {:induction false} RunNoneStuck(states: seq<Sys>, events: seq<Event>, k: nat)
    requires Run(states, events) && k < |states|
    requires forall j :: 0 <= j < k ==> !Loses(states[j], events[j])
    ensures NoneStuck(states[k])
  {
    hide Next;
    hide Enabled;
    hide Loses;
    if k > 0 {
      RunNoneStuck(states, events, k - 1);
      RunOrdered(states, events, k - 1);
      assert Step(states[k - 1], events[k - 1], states[k]);
      NextStuckIff(states[k - 1], events[k - 1]);
    }
  }

  ghost predicate NobodyKilled(s: Sys) {
    forall q :: 0 <= q < |s.procs| ==> !s.procs[q].killed
  }

  lemma {:induction false} RunNobodyKilled(states: seq<Sys>, events: seq<Event>, k: nat)
    requires Run(states, events) && k < |states|
    requires forall j :: 0 <= j < k ==> !events[j].Killed?
    ensures NobodyKilled(states[k])
  {
    if k > 0 {
      RunNobodyKilled(states, events, k - 1);
      assert Step(states[k - 1], events[k - 1], states[k]);
    }
  }

  /** So none is stuck as long as no process is killed. */
  lemma NoKillNoneStuck(states: seq<Sys>, events: seq<Event>, k: nat)
    requires Run(states, events) && k < |states|
    requires forall j :: 0 <= j < k ==> !events[j].Killed?
    ensures NoneStuck(states[k])
  {
    hide Next;
    hide Enabled;
    hide Step;
    hide NoneStuck;
    forall j | 0 <= j < k
      ensures !Loses(states[j], events[j])
    {
      RunNobodyKilled(states, events, j);
    }
    RunNoneStuck(states, events, k);
  }

  /** With a kill it can happen: reader 0 sleeps, writer 1 is killed and then fills the buffer. */
  lemma KilledWriterLoses(buf: seq<int>) returns (states: seq<Sys>, events: seq<Event>)
    requires |buf| > PIPESIZE
    ensures Run(states, events) && |states| == 6
    ensures |states[5].procs| == 2 && states[5].procs[0].call == ReadSleep(1) && InFlight(states[5]) == PIPESIZE
  {
    var s0 := Sys([], [], true, true, [Proc(Idle, false, 0), Proc(Idle, false, 0)]);
    var s1 := s0.(procs := [Proc(Read(1), false, 0), Proc(Idle, false, 0)]);
    var s2 := s0.(procs := [Proc(ReadSleep(1), false, 0), Proc(Idle, false, 0)]);
    var s3 := s0.(procs := [Proc(ReadSleep(1), false, 0), Proc(Write(buf, 0), false, 0)]);
    var s4 := s0.(procs := [Proc(ReadSleep(1), false, 0), Proc(Write(buf, 0), true, 0)]);
    var s5 := WriteTurn(s4, 1);
    states := [s0, s1, s2, s3, s4, s5];
    events := [StartRead(0, 1), ReaderTurn(0), StartWrite(1, buf), Killed(1), WriterTurn(1)];
    assert Step(s0, events[0], s1);
    assert Step(s1, events[1], s2);
    assert Step(s2, events[2], s3);
    assert Step(s3, events[3], s4);
    assert Step(s4, events[4], s5);
  }

  // ---- What a call puts in, and what it gets -----------------------------------------------------

  /** The bytes that the step from s to s' has stored. */
  function Stored(s: Sys, s': Sys): seq<int> {
    if |s.accepted| <= |s'.accepted| then s'.accepted[|s.accepted|..] else []
  }

  function Copied(s: Sys, s': Sys): seq<int> {
    if |s.delivered| <= |s'.delivered| then s'.delivered[|s.delivered|..] else []
  }

  /** All that process p has stored between states a and k, in order. */
  ghost function PutBy(states: seq<Sys>, events: seq<Event>, p: int, a: nat, k: nat): seq<int>
    requires |states| == |events| + 1 && a <= k < |states|
  {
    if k == a then []
    else
      PutBy(states, events, p, a, k - 1)
      + if events[k - 1] == WriterTurn(p) then Stored(states[k - 1], states[k]) else []
  }

  ghost function GotBy(states: seq<Sys>, events: seq<Event>, p: int, a: nat, k: nat): seq<int>
    requires |states| == |events| + 1 && a <= k < |states|
  {
    if k == a then []
    else
      GotBy(states, events, p, a, k - 1)
      + if events[k - 1] == ReaderTurn(p) then Copied(states[k - 1], states[k]) else []
  }

  /** Only a turn of a writer stores bytes, behind those that are there; only one of a reader copies
      bytes out, the next ones. */
  lemma StoredBehind(s: Sys, e: Event, s': Sys)
    requires Ordered(s) && Step(s, e, s')
    ensures s'.accepted == s.accepted + Stored(s, s') && (Stored(s, s') != [] ==> e.WriterTurn?)
    ensures s'.delivered == s.delivered + Copied(s, s') && (Copied(s, s') != [] ==> e.ReaderTurn?)
    ensures |s.delivered| + |Copied(s, s')| <= |s.accepted|
    ensures Copied(s, s') == s.accepted[|s.delivered|..|s.delivered| + |Copied(s, s')|]
  {
  }

  /** v is in a write of buf, of which the first i bytes are in the pipe. */
  predicate Has(v: Proc, buf: seq<int>, i: int) {
    InWrite(v) && v.call.buf == buf && v.call.i == i <= |buf|
  }

  lemma WriteStep(s: Sys, e: Event, s': Sys, p: int, buf: seq<int>, i: int)
    requires Ordered(s) && Step(s, e, s') && 0 <= p < |s.procs| && Has(s.procs[p], buf, i)
    ensures |s'.procs| == |s.procs|
    ensures var more, v := if e == WriterTurn(p) then Stored(s, s') else [], s'.procs[p];
      && i + |more| <= |buf| && more == buf[i..i + |more|]
      && (v.call != Idle ==> Has(v, buf, i + |more|))
      && (v.call == Idle ==> if i + |more| == |buf| then v.ret == |buf| else v.ret == -1)
  {
  }

  lemma ReadStep(s: Sys, e: Event, s': Sys, p: int, n: nat)
    requires Ordered(s) && Step(s, e, s') && 0 <= p < |s.procs| && InRead(s.procs[p]) && s.procs[p].call.n == n
    ensures |s'.procs| == |s.procs|
    ensures var more, v := if e == ReaderTurn(p) then Copied(s, s') else [], s'.procs[p];
      && (v.call != Idle ==> InRead(v) && v.call.n == n && more == [])
      && (v.call == Idle ==> e == ReaderTurn(p) && (v.ret == -1 || v.ret == |more|) && |more| <= n)
      && (v.call == Idle && v.ret == -1 ==> more == [] && s.procs[p].killed)
      && (v.call == Idle && v.ret == 0 < n ==> !s.writeopen && s.delivered == s.accepted)
  {
    if e == ReaderTurn(p) && s.accepted != s.delivered {
      assert InFlight(s) == 0 ==> s.delivered == s.accepted;
    }
  }

  lemma {:induction false} RunProcs(states: seq<Sys>, events: seq<Event>, k: nat)
    requires Run(states, events) && k < |states|
    ensures |states[k].procs| == |states[0].procs|
  {
    if k > 0 {
      RunProcs(states, events, k - 1);
      assert Step(states[k - 1], events[k - 1], states[k]);
    }
  }

  lemma AllProcs(states: seq<Sys>, events: seq<Event>)
    requires Run(states, events)
    ensures forall k :: 0 <= k < |states| ==> |states[k].procs| == |states[0].procs|
  {
    hide Run;
    forall k | 0 <= k < |states|
      ensures |states[k].procs| == |states[0].procs|
    {
      RunProcs(states, events, k);
    }
  }

  lemma RunStep(states: seq<Sys>, events: seq<Event>, k: nat)
    requires Run(states, events) && k < |events|
    ensures Ordered(states[k]) && Step(states[k], events[k], states[k + 1]) && |states| == |events| + 1
  {
    RunOrdered(states, events, k);
  }

  /** Event a starts a call of p that is under way up to state k. */
  ghost predicate UnderWay(states: seq<Sys>, events: seq<Event>, p: int, a: nat, k: nat): (r: bool)
    ensures r ==> forall m :: 0 <= m < |states| ==> 0 <= p < |states[m].procs|
  {
    && Run(states, events) && a < k < |states| && 0 <= p < |states[0].procs|
    && (AllProcs(states, events);
        && states[a].procs[p].call == Idle
        && forall m :: a < m <= k ==> states[m].procs[p].call != Idle)
  }

  lemma UnderWayParts(states: seq<Sys>, events: seq<Event>, p: int, a: nat, k: nat)
    requires UnderWay(states, events, p, a, k)
    ensures Run(states, events) && |states| == |events| + 1 && a < k < |states|
    ensures states[a].procs[p].call == Idle != states[k].procs[p].call
    ensures k > a + 1 ==> UnderWay(states, events, p, a, k - 1)
  {
  }

  lemma PutByNext(states: seq<Sys>, events: seq<Event>, p: int, a: nat, k: nat)
    requires |states| == |events| + 1 && a < k < |states|
    ensures PutBy(states, events, p, a, k)
            == PutBy(states, events, p, a, k - 1)
               + if events[k - 1] == WriterTurn(p) then Stored(states[k - 1], states[k]) else []
    ensures PutBy(states, events, p, a, a) == []
  {
  }

  lemma GotByNext(states: seq<Sys>, events: seq<Event>, p: int, a: nat, k: nat)
    requires |states| == |events| + 1 && a < k < |states|
    ensures GotBy(states, events, p, a, k)
            == GotBy(states, events, p, a, k - 1)
               + if events[k - 1] == ReaderTurn(p) then Copied(states[k - 1], states[k]) else []
    ensures GotBy(states, events, p, a, a) == []
  {
  }

  /** In every run, whatever others do, the bytes that a write has stored so far are the first i of its
      buffer, in order. */
  lemma {:induction false} WriteUnderWay(states: seq<Sys>, events: seq<Event>, p: int, buf: seq<int>, a: nat, k: nat)
    requires UnderWay(states, events, p, a, k) && events[a] == StartWrite(p, buf)
    ensures Has(states[k].procs[p], buf, |PutBy(states, events, p, a, k)|)
    ensures PutBy(states, events, p, a, k) == buf[..|PutBy(states, events, p, a, k)|]
  {
    hide *;
    UnderWayParts(states, events, p, a, k);
    RunStep(states, events, k - 1);
    PutByNext(states, events, p, a, k);
    if k == a + 1 {
      WriteBegun(states[a], p, buf, states[k]);
    } else {
      WriteUnderWay(states, events, p, buf, a, k - 1);
      WriteStep(states[k - 1], events[k - 1], states[k], p, buf, |PutBy(states, events, p, a, k - 1)|);
    }
  }

  lemma WriteBegun(s: Sys, p: int, buf: seq<int>, s': Sys)
    requires Step(s, StartWrite(p, buf), s')
    ensures 0 <= p < |s'.procs| && Has(s'.procs[p], buf, 0)
  {
  }

  /** When it returns |buf| they are exactly its buffer; when it returns -1 they are less. */
  lemma WriteReturns(states: seq<Sys>, events: seq<Event>, p: int, buf: seq<int>, a: nat, b: nat)
    requires b > 0 && UnderWay(states, events, p, a, b - 1) && events[a] == StartWrite(p, buf)
    requires b < |states| && states[b].procs[p].call == Idle
    ensures var put, ret := PutBy(states, events, p, a, b), states[b].procs[p].ret;
      && |put| <= |buf| && put == buf[..|put|]
      && (ret == |buf| || ret == -1) && (ret == |buf| <==> put == buf)
  {
    hide *;
    UnderWayParts(states, events, p, a, b - 1);
    RunStep(states, events, b - 1);
    PutByNext(states, events, p, a, b);
    WriteUnderWay(states, events, p, buf, a, b - 1);
    WriteStep(states[b - 1], events[b - 1], states[b], p, buf, |PutBy(states, events, p, a, b - 1)|);
  }

  lemma {:induction false} ReadUnderWay(states: seq<Sys>, events: seq<Event>, p: int, n: nat, a: nat, k: nat)
    requires UnderWay(states, events, p, a, k) && events[a] == StartRead(p, n)
    ensures InRead(states[k].procs[p]) && states[k].procs[p].call.n == n && GotBy(states, events, p, a, k) == []
  {
    hide *;
    UnderWayParts(states, events, p, a, k);
    RunStep(states, events, k - 1);
    GotByNext(states, events, p, a, k);
    if k == a + 1 {
      ReadBegun(states[a], p, n, states[k]);
    } else {
      ReadUnderWay(states, events, p, n, a, k - 1);
      ReadStep(states[k - 1], events[k - 1], states[k], p, n);
    }
  }

  lemma ReadBegun(s: Sys, p: int, n: nat, s': Sys)
    requires Step(s, StartRead(p, n), s')
    ensures 0 <= p < |s'.procs| && InRead(s'.procs[p]) && s'.procs[p].call.n == n
  {
  }

  /** A read returns the number of bytes that it has copied, at most n of them and the next ones of
      all that writers have stored; 0 says that the write end is closed and everything has been read;
      -1, that the reader was killed, and got nothing. */
  lemma ReadReturns(states: seq<Sys>, events: seq<Event>, p: int, n: nat, a: nat, b: nat)
    requires b > 0 && UnderWay(states, events, p, a, b - 1) && events[a] == StartRead(p, n)
    requires b < |states| && states[b].procs[p].call == Idle
    ensures var got, ret := GotBy(states, events, p, a, b), states[b].procs[p].ret;
      && |got| <= n && (ret == |got| || (ret == -1 && got == [] && states[b - 1].procs[p].killed))
      && (ret == 0 < n ==> !states[b - 1].writeopen && states[b - 1].delivered == states[b - 1].accepted)
      && var d, all := |states[b - 1].delivered|, states[b - 1].accepted;
         d + |got| <= |all| && got == all[d..d + |got|] && states[b].delivered == states[b - 1].delivered + got
  {
    hide *;
    UnderWayParts(states, events, p, a, b - 1);
    RunStep(states, events, b - 1);
    GotByNext(states, events, p, a, b);
    ReadUnderWay(states, events, p, n, a, b - 1);
    ReadStep(states[b - 1], events[b - 1], states[b], p, n);
    StoredBehind(states[b - 1], events[b - 1], states[b]);
  }

  // ---- The ring ------------------------------------------------------------------------------

  const UINT_LIMIT: int := 0x1_0000_0000

  function Word(n: int): int {
    n % UINT_LIMIT
  }

  function Cell(n: int): int {
    n % PIPESIZE
  }

  /** The counters wrap at 2^32, which PIPESIZE divides: comparing the wrapped counters and
      indexing by them is the same as for the true counts. */
  lemma WrappedCounters(nread: int, nwrite: int)
    requires 0 <= nread <= nwrite <= nread + PIPESIZE
    ensures Word(nwrite) == Word(Word(nread) + PIPESIZE) <==> nwrite == nread + PIPESIZE
    ensures Word(nread) == Word(nwrite) <==> nread == nwrite
    ensures Cell(Word(nread)) == Cell(nread) && Cell(Word(nwrite)) == Cell(nwrite)
    ensures Word(Word(nread) + 1) == Word(nread + 1) && Word(Word(nwrite) + 1) == Word(nwrite + 1)
  {
    Wraps(nread);
    Wraps(nwrite);
    hide Cell;
    Apart(nread, nwrite);
    NextWord(nread);
    NextWord(nwrite);
    hide Word;
  }

  lemma Apart(a: int, b: int)
    requires 0 <= a <= b <= a + PIPESIZE
    ensures Word(b) == Word(Word(a) + PIPESIZE) <==> b == a + PIPESIZE
    ensures Word(a) == Word(b) <==> a == b
  {
  }

  lemma NextWord(n: int)
    ensures Word(Word(n) + 1) == Word(n + 1)
  {
  }

  lemma Wraps(n: int)
    requires 0 <= n
    ensures Cell(Word(n)) == Cell(n)
  {
    var q := n / UINT_LIMIT;
    assert n == Word(n) + (q * (UINT_LIMIT / PIPESIZE)) * PIPESIZE;
    AddMultiple(Word(n), q * (UINT_LIMIT / PIPESIZE));
  }

  lemma AddMultiple(a: int, m: int)
    ensures (a + m * PIPESIZE) % PIPESIZE == a % PIPESIZE
  {
  }

  lemma DistinctCells(a: int, b: int)
    requires a < b < a + PIPESIZE
    ensures Cell(a) != Cell(b)
  {
  }

  /** What a turn of pipewrite or piperead comes to: the value returned, or going to sleep with
      i bytes done. */
  datatype Outcome = Returned(r: int) | Asleep(i: int)

  class Pipe {
    var data: array<int>
    var nread: int
    var nwrite: int
    var readopen: bool
    var writeopen: bool
    ghost var accepted: seq<int>
    ghost var delivered: seq<int>

    constructor ()
      ensures Valid() && fresh(data) && accepted == [] && delivered == [] && readopen && writeopen
    {
      data := new int[PIPESIZE];
      nread, nwrite, readopen, writeopen, accepted, delivered := 0, 0, true, true, [], [];
    }

    ghost predicate Valid()
      reads this, data
    {
      && data.Length == PIPESIZE && 0 <= |accepted| - |delivered| <= PIPESIZE
      && nread == Word(|delivered|) && nwrite == Word(|accepted|)
      && (forall k :: |delivered| <= k < |accepted| ==> data[Cell(k)] == accepted[k])
      && (forall k :: 0 <= k < |delivered| ==> delivered[k] == accepted[k])
    }

    /** `data[nwrite++ % PIPESIZE] = c` on a buffer that is not full */
    method Put(c: int)
      requires Valid() && |accepted| - |delivered| < PIPESIZE
      modifies this`nwrite, this`accepted, data
      ensures Valid() && accepted == old(accepted) + [c]
    {
      WrappedCounters(|delivered|, |accepted|);
      forall k | |delivered| <= k < |accepted|
        ensures Cell(k) != Cell(|accepted|)
      {
        DistinctCells(k, |accepted|);
      }
      data[Cell(nwrite)] := c;
      nwrite := Word(nwrite + 1);
      accepted := accepted + [c];
    }

    /** `data[nread++ % PIPESIZE]` on a buffer that is not empty */
    method Get() returns (c: int)
      requires Valid() && |delivered| < |accepted|
      modifies this`nread, this`delivered
      ensures Valid() && c == accepted[|old(delivered)|] && delivered == old(delivered) + [c]
    {
      WrappedCounters(|delivered|, |accepted|);
      c := data[Cell(nread)];
      nread := Word(nread + 1);
      delivered := delivered + [c];
    }

    method Full() returns (b: bool)
      requires Valid()
      ensures b <==> |accepted| - |delivered| == PIPESIZE
    {
      WrappedCounters(|delivered|, |accepted|);
      b := nwrite == Word(nread + PIPESIZE);
    }

    method Empty() returns (b: bool)
      requires Valid()
      ensures b <==> |accepted| == |delivered|
    {
      WrappedCounters(|delivered|, |accepted|);
      b := nread == nwrite;
    }

    /** One turn of pipewrite, from byte i on. */
    method WriteFrom(addr: seq<int>, from: nat, killed: bool, ghost s: Sys, ghost p: int) returns (o: Outcome)
      requires Valid() && from <= |addr|
      requires Writing(s, p) && s.procs[p].call == Write(addr, from) && s.procs[p].killed == killed && Shows(s)
      modifies this`nwrite, this`accepted, data
      ensures Valid() && Shows(WriteTurn(s, p).(procs := s.procs))
      ensures var v := WriteTurn(s, p).procs[p];
        o == if v.call.WriteSleep? then Asleep(v.call.i) else Returned(v.ret)
      ensures |old(accepted)| <= |accepted| && from + |accepted| - |old(accepted)| <= |addr|
      ensures var k, full := |accepted| - |old(accepted)|, |accepted| - |delivered| == PIPESIZE;
        && accepted == old(accepted) + addr[from..from + k]
        && (o == Returned(|addr|) || o == Returned(-1) || o == Asleep(from + k))
        && (o == Returned(|addr|) <==> from + k == |addr|)
        && (o == Returned(-1) <==> from + k < |addr| && (!readopen || killed)) && (from + k < |addr| ==> full)
    {
      var i := from;
      while i < |addr|
        invariant from <= i <= from + Fit(s, p)
        invariant Valid() && accepted == s.accepted + addr[from..i]
      {
        var full := Full();
        if full {
          if !readopen || killed {
            return Returned(-1);
          }
          return Asleep(i);
        }
        Put(addr[i]);
        i := i + 1;
      }
      return Returned(|addr|);
    }

    /** One turn of piperead; the bytes are what it copied. */
    method ReadUpTo(n: nat, killed: bool, ghost s: Sys, ghost p: int) returns (o: Outcome, addr: seq<int>)
      requires Valid() && Reading(s, p) && s.procs[p].call == Read(n) && s.procs[p].killed == killed && Shows(s)
      modifies this`nread, this`delivered
      ensures Valid() && Shows(ReadTurn(s, p).(procs := s.procs)) && delivered == old(delivered) + addr
      ensures var v := ReadTurn(s, p).procs[p]; o == if v.call.ReadSleep? then Asleep(0) else Returned(v.ret)
      ensures |old(delivered)| + |addr| <= |accepted|
      ensures var r, there := |old(delivered)|, |accepted| - |old(delivered)|;
        && addr == accepted[r..r + |addr|]
        && (if there == 0 && writeopen then o == if killed then Returned(-1) else Asleep(0)
            else o == Returned(|addr|) && |addr| == if n < there then n else there)
    {
      ReadTurnIs(s, p);
      hide ReadTurn;
      hide Word;
      hide Cell;
      addr := [];
      var empty := Empty();
      if empty && writeopen {
        if killed {
          return Returned(-1), addr;
        }
        return Asleep(0), addr;
      }
      var i := 0;
      while i < n
        invariant 0 <= i <= n && i <= |accepted| - |s.delivered| && |addr| == i
        invariant Valid() && delivered == s.delivered + addr
      {
        empty := Empty();
        if empty {
          break;
        }
        var c := Get();
        addr := addr + [c];
        i := i + 1;
      }
      return Returned(i), addr;
    }

    /** The pipe is the buffer of s. */
    ghost predicate Shows(s: Sys)
      reads this
    {
      accepted == s.accepted && delivered == s.delivered && readopen == s.readopen && writeopen == s.writeopen
    }
  }
}
