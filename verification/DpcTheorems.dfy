/**
 No deferred call is lost or doubled, the queue never overflows, and every completed IRP is finished
 once, in order.
 */
module DpcTheorems {
  import opened Common
  import opened Dpc

  // ---------- Pending occurrences of a DPC ----------

  /** About to be pushed by an agent, in the queue, or in the batch an agent has taken. */
  datatype Spot = AtPush(agent: Agent) | InQueue | InBatch(agent: Agent)

  /** What is left of the batch an agent is working through. */
  function Rest(pc: Pc): seq<DpcId> {
    match pc
    case Batch(rest) => rest
    case About(_, rest) => rest
    case Handling(_, rest) => rest
    case Finishing(_, _, rest) => rest
    case _ => []
  }

  ghost predicate At(s: State, d: DpcId, p: Spot) {
    match p
    case AtPush(a) => a in s.agents && s.agents[a] == Pushing(d)
    case InQueue => d in s.queue
    case InBatch(a) => a in s.agents && d in Rest(s.agents[a])
  }

  /** `home` gives the one pending occurrence of each DPC whose flag is set. */
  ghost predicate Housed(s: State, home: map<DpcId, Spot>) {
    home.Keys == s.queued && forall d, p :: At(s, d, p) <==> d in home && home[d] == p
  }

  ghost predicate HomeInv(s: State) {
    exists home :: Housed(s, home)
  }

  ghost predicate OrderInv(s: State) {
    && NoDup(s.queue)
    && (forall a <- s.agents :: NoDup(Rest(s.agents[a])))
    && s.queued <= s.dpcs && |s.dpcs| <= DPC_CAPACITY
    && FINISH in s.dpcs && s.asks.Keys == s.served.Keys == s.dpcs
    && (forall a <- s.agents :: s.agents[a].Enqueue? || s.agents[a].About? || s.agents[a].Handling? ==>
        s.agents[a].d in s.dpcs)
  }

  lemma StayKeepsHome(s: State, s': State)
    requires HomeInv(s) && s'.queued == s.queued && forall d, p :: At(s', d, p) <==> At(s, d, p)
    ensures HomeInv(s')
  {
    var home: map<DpcId, Spot> :| Housed(s, home);
    assert Housed(s', home);
  }

  lemma MoveKeepsHome(s: State, s': State, d: DpcId, p: Spot)
    requires HomeInv(s) && s'.queued == s.queued + {d}
    requires forall q :: At(s', d, q) <==> q == p
    requires forall e, q :: e != d ==> (At(s', e, q) <==> At(s, e, q))
    ensures HomeInv(s')
  {
    var home: map<DpcId, Spot> :| Housed(s, home);
    assert Housed(s', home[d := p]);
  }

  lemma NotElsewhere(s: State, d: DpcId, p: Spot)
    requires HomeInv(s) && At(s, d, p)
    ensures d in s.queued && forall q :: q != p ==> !At(s, d, q)
  {
    var home: map<DpcId, Spot> :| Housed(s, home);
    assert home[d] == p;
  }

  lemma AskKeepsHome(s: State, s': State, a: Agent, step: AskStep)
    requires HomeInv(s) && AskNext(s, s', a, step)
    ensures HomeInv(s')
  {
    match step
    case SwapQueued =>
      if s.agents[a].d in s.queued {
        StayKeepsHome(s, s');
      } else {
        SwapKeepsHome(s, s', a);
      }
    case Push =>
      PushKeepsHome(s, s', a);
    case _ =>
      StayKeepsHome(s, s');
  }

  lemma SwapKeepsHome(s: State, s': State, a: Agent)
    requires HomeInv(s) && AskNext(s, s', a, SwapQueued) && s.agents[a].d !in s.queued
    ensures HomeInv(s')
  {
    var d := s.agents[a].d;
    var home: map<DpcId, Spot> :| Housed(s, home);
    forall q
      ensures At(s', d, q) <==> q == AtPush(a)
    {
      assert !At(s, d, q);
    }
    MoveKeepsHome(s, s', d, AtPush(a));
  }

  lemma PushKeepsHome(s: State, s': State, a: Agent)
    requires HomeInv(s) && AskNext(s, s', a, Push)
    ensures HomeInv(s')
  {
    var d := s.agents[a].d;
    assert At(s, d, AtPush(a));
    NotElsewhere(s, d, AtPush(a));
    forall q
      ensures At(s', d, q) <==> q == InQueue
    {
      assert At(s, d, q) <==> q == AtPush(a);
    }
    MoveKeepsHome(s, s', d, InQueue);
  }

  lemma DrainKeepsHome(s: State, s': State, a: Agent, step: DrainStep)
    requires HomeInv(s) && OrderInv(s) && DrainNext(s, s', a, step)
    ensures HomeInv(s')
  {
    match step
    case TakeQueue =>
      TakeKeepsHome(s, s', a);
    case Clear =>
      if s.agents[a].rest == [] {
        StayKeepsHome(s, s');
      } else {
        ClearKeepsHome(s, s', a);
      }
    case _ =>
      StayKeepsHome(s, s');
  }

  lemma TakeKeepsHome(s: State, s': State, a: Agent)
    requires HomeInv(s) && DrainNext(s, s', a, TakeQueue)
    ensures HomeInv(s')
  {
    var home: map<DpcId, Spot> :| Housed(s, home);
    var home' := map d <- home :: if home[d].InQueue? then InBatch(a) else home[d];
    forall d, p
      ensures At(s', d, p) <==> d in home' && home'[d] == p
    {
      assert At(s, d, p) <==> d in home && home[d] == p;
      assert At(s, d, InQueue) <==> d in home && home[d] == InQueue;
    }
    assert Housed(s', home');
  }

  lemma ClearKeepsHome(s: State, s': State, a: Agent)
    requires HomeInv(s) && OrderInv(s) && DrainNext(s, s', a, Clear) && s.agents[a].rest != []
    ensures HomeInv(s')
  {
    var home: map<DpcId, Spot> :| Housed(s, home);
    var rest := s.agents[a].rest;
    PopFacts(rest);
    var d := rest[0];
    assert At(s, d, InBatch(a));
    assert home[d] == InBatch(a);
    forall e, p
      ensures At(s', e, p) <==> e in home - {d} && (home - {d})[e] == p
    {
      assert At(s, e, p) <==> e in home && home[e] == p;
    }
    assert Housed(s', home - {d});
  }

  lemma AskKeepsOrder(s: State, s': State, a: Agent, step: AskStep)
    requires HomeInv(s) && OrderInv(s) && AskNext(s, s', a, step)
    ensures OrderInv(s')
  {
    if step.Push? {
      assert At(s, s.agents[a].d, AtPush(a));
      NotElsewhere(s, s.agents[a].d, AtPush(a));
      assert !At(s, s.agents[a].d, InQueue);
    }
  }

  lemma DrainKeepsOrder(s: State, s': State, a: Agent, step: DrainStep)
    requires HomeInv(s) && OrderInv(s) && DrainNext(s, s', a, step)
    ensures OrderInv(s')
  {
    if step.Clear? && s.agents[a].rest != [] {
      PopFacts(s.agents[a].rest);
      assert At(s, s.agents[a].rest[0], InBatch(a));
      NotElsewhere(s, s.agents[a].rest[0], InBatch(a));
    }
  }

  // ---------- No ask is lost ----------

  /** A call not yet served is pending, or its handler is about to start. */
  ghost predicate Pending(s: State, d: DpcId) {
    d in s.queued || exists a <- s.agents :: s.agents[a].About? && s.agents[a].d == d
  }

  ghost predicate ServedInv(s: State) {
    && (forall d <- s.asks :: d in s.served ==> s.served[d] <= s.asks[d])
    && (forall d <- s.asks :: d in s.served && s.served[d] < s.asks[d] ==> Pending(s, d))
  }

  lemma AskKeepsServed(s: State, s': State, a: Agent, step: AskStep)
    requires OrderInv(s) && ServedInv(s) && AskNext(s, s', a, step)
    ensures ServedInv(s')
  {
    forall d | d in s'.asks && d in s'.served && s'.served[d] < s'.asks[d]
      ensures Pending(s', d)
    {
      if d !in s'.queued {
        var b :| b in s.agents && s.agents[b].About? && s.agents[b].d == d;
        assert s'.agents[b] == s.agents[b];
      }
    }
  }

  lemma DrainKeepsServed(s: State, s': State, a: Agent, step: DrainStep)
    requires OrderInv(s) && ServedInv(s) && DrainNext(s, s', a, step)
    ensures ServedInv(s')
  {
    forall d | d in s'.asks && d in s'.served && s'.served[d] < s'.asks[d]
      ensures Pending(s', d)
    {
      assert Pending(s, d);
      if d !in s'.queued {
        if d in s.queued {
          assert s'.agents[a].About? && s'.agents[a].d == d;
        } else {
          var b :| b in s.agents && s.agents[b].About? && s.agents[b].d == d;
          assert s'.agents[b] == s.agents[b];
        }
      }
    }
  }

  // ---------- Completed IRPs ----------

  /** The agent is on its way to start `FINISH`, or about to take the list. */
  predicate WillFinish(pc: Pc) {
    (pc.Enqueue? || pc.About? || pc.Handling?) && pc.d == FINISH
  }

  /** An IRP on the `DONE` list always has a `FINISH` coming. */
  ghost predicate ListInv(s: State) {
    && s.taken <= |s.completed|
    && (s.taken < |s.completed| ==> FINISH in s.queued || exists a <- s.agents :: WillFinish(s.agents[a]))
  }

  lemma AskKeepsList(s: State, s': State, a: Agent, step: AskStep)
    requires ListInv(s) && AskNext(s, s', a, step)
    ensures ListInv(s')
  {
    if s'.taken < |s'.completed| && FINISH !in s'.queued {
      if step.Append? {
        assert WillFinish(s'.agents[a]);
      } else {
        var b :| b in s.agents && WillFinish(s.agents[b]);
        assert WillFinish(s'.agents[b]);
      }
    }
  }

  lemma DrainKeepsList(s: State, s': State, a: Agent, step: DrainStep)
    requires ListInv(s) && DrainNext(s, s', a, step)
    ensures ListInv(s')
  {
    if s'.taken < |s'.completed| && FINISH !in s'.queued {
      if FINISH in s.queued {
        assert WillFinish(s'.agents[a]);
      } else {
        var b :| b in s.agents && WillFinish(s.agents[b]);
        assert WillFinish(s'.agents[b]);
      }
    }
  }

  /** An agent finishes a stretch of the completion order: what it has left is what comes next there. */
  ghost predicate WalkOk(s: State, pc: Pc) {
    pc.Finishing? ==>
      pc.from + |pc.irps| <= s.taken <= |s.completed| && pc.irps == s.completed[pc.from..pc.from + |pc.irps|]
  }

  /** Who will call `on_complete` for a position taken off the list, or that it has been called. */
  datatype Owner = Fin | Mine(agent: Agent)

  predicate Owns(pc: Pc, k: nat) {
    pc.Finishing? && pc.from <= k < pc.from + |pc.irps|
  }

  ghost predicate OwnsExactly(pc: Pc, a: Agent, owners: seq<Owner>) {
    forall k: nat :: Owns(pc, k) <==> k < |owners| && owners[k] == Mine(a)
  }

  ghost predicate Assigned(s: State, owners: seq<Owner>) {
    && |owners| == s.taken
    && (forall k: nat :: k in s.finished <==> k < |owners| && owners[k] == Fin)
    && (forall a <- s.agents :: OwnsExactly(s.agents[a], a, owners))
    && (forall k :: 0 <= k < |owners| && owners[k].Mine? ==> owners[k].agent in s.agents)
  }

  ghost predicate WalkInv(s: State) {
    && (forall a <- s.agents :: WalkOk(s, s.agents[a]))
    && (exists owners :: Assigned(s, owners))
    && NoDup(s.finished)
    && s.taken <= |s.completed|
  }

  lemma AskKeepsWalk(s: State, s': State, a: Agent, step: AskStep)
    requires WalkInv(s) && AskNext(s, s', a, step)
    ensures WalkInv(s')
  {
    var owners: seq<Owner> :| Assigned(s, owners);
    assert Assigned(s', owners);
    forall b | b in s'.agents
      ensures WalkOk(s', s'.agents[b])
    {
      assert WalkOk(s, s.agents[b]);
    }
  }

  lemma DrainKeepsWalk(s: State, s': State, a: Agent, step: DrainStep)
    requires WalkInv(s) && DrainNext(s, s', a, step)
    ensures WalkInv(s')
  {
    match step
    case TakeDone => TakeKeepsWalk(s, s', a);
    case FinishOne => FinishKeepsWalk(s, s', a);
    case _ =>
      var owners: seq<Owner> :| Assigned(s, owners);
      assert OwnsExactly(s.agents[a], a, owners);
      assert OwnsExactly(s'.agents[a], a, owners);
      assert Assigned(s', owners);
  }

  lemma TakeKeepsWalk(s: State, s': State, a: Agent)
    requires WalkInv(s) && DrainNext(s, s', a, TakeDone)
    ensures WalkInv(s')
  {
    var owners: seq<Owner> :| Assigned(s, owners);
    var owners' := owners + seq(|s.completed| - s.taken, _ => Mine(a));
    forall b | b in s'.agents
      ensures OwnsExactly(s'.agents[b], b, owners')
    {
      assert OwnsExactly(s.agents[b], b, owners);
    }
    assert Assigned(s', owners');
  }

  lemma FinishKeepsWalk(s: State, s': State, a: Agent)
    requires WalkInv(s) && DrainNext(s, s', a, FinishOne)
    ensures WalkInv(s')
  {
    var owners: seq<Owner> :| Assigned(s, owners);
    var k := s.agents[a].from;
    assert WalkOk(s, s.agents[a]) && WalkOk(s', s'.agents[a]);
    assert OwnsExactly(s.agents[a], a, owners) && Owns(s.agents[a], k);
    assert k !in s.finished;
    var owners' := owners[k := Fin];
    forall b | b in s'.agents
      ensures OwnsExactly(s'.agents[b], b, owners')
    {
      assert OwnsExactly(s.agents[b], b, owners);
    }
    assert Assigned(s', owners');
  }

  // ---------- Runs ----------

  ghost predicate Inv(s: State) {
    HomeInv(s) && OrderInv(s) && ServedInv(s) && ListInv(s) && WalkInv(s)
  }

  lemma InitInv(s: State)
    requires Init(s)
    ensures Inv(s)
  {
    var home: map<DpcId, Spot> := map[];
    assert Housed(s, home);
    assert Assigned(s, []);
  }

  lemma NextKeepsInv(s: State, s': State, step: Step)
    requires Inv(s) && Next(s, s', step)
    ensures Inv(s')
  {
    match step
    case Asking(a, st) =>
      AskKeepsHome(s, s', a, st);
      AskKeepsOrder(s, s', a, st);
      AskKeepsServed(s, s', a, st);
      AskKeepsList(s, s', a, st);
      AskKeepsWalk(s, s', a, st);
    case Draining(a, st) =>
      DrainKeepsHome(s, s', a, st);
      DrainKeepsOrder(s, s', a, st);
      DrainKeepsServed(s, s', a, st);
      DrainKeepsList(s, s', a, st);
      DrainKeepsWalk(s, s', a, st);
  }

  lemma {:induction false} RunKeepsInv(run: seq<State>, steps: seq<Step>, i: nat)
    requires IsRun(run, steps) && i < |run|
    ensures Inv(run[i])
  {
    if i == 0 {
      InitInv(run[0]);
    } else {
      RunKeepsInv(run, steps, i - 1);
      assert Next(run[i - 1], run[i - 1 + 1], steps[i - 1]);
      NextKeepsInv(run[i - 1], run[i], steps[i - 1]);
    }
  }

  // ---------- What deferral promises ----------

  /** A DPC's flag is set exactly while one pending occurrence of it exists. */
  lemma FlagMeansOnePending(run: seq<State>, steps: seq<Step>, i: nat, d: DpcId)
    requires IsRun(run, steps) && i < |run|
    ensures d in run[i].queued <==> exists p :: At(run[i], d, p)
    ensures forall p, q :: At(run[i], d, p) && At(run[i], d, q) ==> p == q
  {
    RunKeepsInv(run, steps, i);
    var home: map<DpcId, Spot> :| Housed(run[i], home);
    if d in run[i].queued {
      assert At(run[i], d, home[d]);
    }
  }

  lemma {:induction false} DistinctFit(q: seq<nat>, all: set<nat>)
    requires NoDup(q) && forall x <- q :: x in all
    ensures |q| <= |all|
  {
    if q != [] {
      PopFacts(q);
      DistinctFit(q[1..], all - {q[0]});
    }
  }

  /** With at most 64 distinct DPCs, a push always finds room. */
  lemma QueueNeverOverflows(run: seq<State>, steps: seq<Step>, i: nat, a: Agent)
    requires IsRun(run, steps) && i < |run| && a in run[i].agents && run[i].agents[a].Pushing?
    ensures |run[i].queue| < DPC_CAPACITY
  {
    RunKeepsInv(run, steps, i);
    var s := run[i];
    var d := s.agents[a].d;
    assert At(s, d, AtPush(a));
    NotElsewhere(s, d, AtPush(a));
    forall x | x in s.queue
      ensures x in s.dpcs - {d}
    {
      assert At(s, x, InQueue);
      NotElsewhere(s, x, InQueue);
    }
    DistinctFit(s.queue, s.dpcs - {d});
  }

  /**
   An enqueue whose handler has not started since is pending; with every agent idle and the queue empty there is
   none.
   */
  lemma EveryEnqueueIsServed(run: seq<State>, steps: seq<Step>, i: nat, d: DpcId)
    requires IsRun(run, steps) && i < |run| && d in run[i].dpcs
    ensures d in run[i].asks && d in run[i].served
    ensures run[i].served[d] < run[i].asks[d] ==> Pending(run[i], d)
    ensures Quiet(run[i]) ==> run[i].served[d] == run[i].asks[d]
  {
    RunKeepsInv(run, steps, i);
    if Quiet(run[i]) {
      QuietIsUnqueued(run[i], d);
    }
  }

  ghost predicate Quiet(s: State) {
    s.queue == [] && forall a <- s.agents :: s.agents[a].Idle?
  }

  lemma QueuedIsSomewhere(s: State, d: DpcId)
    requires HomeInv(s) && d in s.queued
    ensures exists p :: At(s, d, p)
  {
    var home: map<DpcId, Spot> :| Housed(s, home);
    assert At(s, d, home[d]);
  }

  lemma QuietIsUnqueued(s: State, d: DpcId)
    requires HomeInv(s) && Quiet(s)
    ensures !Pending(s, d)
  {
    if d in s.queued {
      QueuedIsSomewhere(s, d);
    }
  }

  /** No completed IRP is finished twice, and once all is quiet every one has been. */
  lemma EveryIrpIsFinishedOnce(run: seq<State>, steps: seq<Step>, i: nat)
    requires IsRun(run, steps) && i < |run|
    ensures NoDup(run[i].finished) && forall k <- run[i].finished :: k < |run[i].completed|
    ensures Quiet(run[i]) ==> forall k: nat :: k < |run[i].completed| ==> k in run[i].finished
  {
    RunKeepsInv(run, steps, i);
    var owners: seq<Owner> :| Assigned(run[i], owners);
    if Quiet(run[i]) {
      QuietIsUnqueued(run[i], FINISH);
      forall k: nat | k < |run[i].completed|
        ensures k in run[i].finished
      {
        QuietIsFinished(run[i], owners, k);
      }
    }
  }

  lemma QuietIsFinished(s: State, owners: seq<Owner>, k: nat)
    requires Assigned(s, owners) && Quiet(s) && k < s.taken
    ensures k in s.finished
  {
    assert forall a <- s.agents :: !Owns(s.agents[a], k);
    assert forall a <- s.agents :: OwnsExactly(s.agents[a], a, owners);
  }

  /** Each `on_complete` a list's walk makes is for the next IRP in completion order. */
  lemma FinishedInOrder(run: seq<State>, steps: seq<Step>, i: nat, a: Agent)
    requires IsRun(run, steps) && i < |steps| && steps[i] == Draining(a, FinishOne)
    ensures a in run[i].agents && run[i].agents[a].Finishing? && a in run[i + 1].agents
              && run[i + 1].agents[a].Finishing?
    ensures var pc := run[i].agents[a];
            && pc.from < |run[i].completed| && pc.irps != [] && pc.irps[0] == run[i].completed[pc.from]
            && run[i + 1].finished == run[i].finished + [pc.from]
            && run[i + 1].agents[a].from == pc.from + 1
  {
    RunKeepsInv(run, steps, i);
    assert DrainNext(run[i], run[i + 1], a, FinishOne);
    assert WalkOk(run[i], run[i].agents[a]);
  }

  /**
   An IRP on the list is never stranded: some agent or the queued flag still leads to a `FINISH` that will take it.
   */
  lemma NoIrpIsStranded(run: seq<State>, steps: seq<Step>, i: nat)
    requires IsRun(run, steps) && i < |run| && run[i].taken < |run[i].completed|
    ensures FINISH in run[i].queued || exists a <- run[i].agents :: WillFinish(run[i].agents[a])
  {
    RunKeepsInv(run, steps, i);
  }
}
