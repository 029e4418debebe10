/**
 Where every IRP is, when it may be completed, and why a queued one is never forgotten.
 */
module AhciTheorems {
  import opened Common
  import opened Ahci

  // ---------- Where an IRP is ----------

  /** In the software queue, in the hardware slot, in the hands of one CPU, or completed. */
  datatype Place = Queued | InSlot | With(agent: Agent) | Done

  /** The CPU has `x` to complete, or is still submitting it. */
  predicate Has(pc: Pc, x: Irp) {
    match pc
    case Submitting(irp) => irp == x
    case Hold(irp, _) => irp == x
    case Refunding(queue) => x in queue
    case _ => false
  }

  ghost predicate At(s: State, x: Irp, p: Place) {
    match p
    case Queued => x in s.queue
    case InSlot => s.slot == Some(x)
    case With(a) => a in s.agents && Has(s.agents[a], x)
    case Done => x in s.done
  }

  ghost predicate Housed(s: State, home: map<Irp, Place>) {
    && home.Keys == s.submitted
    && (forall x, p :: At(s, x, p) <==> x in home && home[x] == p)
  }

  ghost predicate HomeInv(s: State) {
    exists home :: Housed(s, home)
  }

  ghost predicate OrderInv(s: State) {
    && NoDup(s.queue) && NoDup(s.done)
    && (forall a <- s.agents :: s.agents[a].Refunding? ==> NoDup(s.agents[a].queue))
  }

  // ---------- Recovery and the controller ----------

  predicate Recovers(pc: Pc) {
    pc.Stopping? || pc.Restarting? || pc.GivingUp?
  }

  /** One CPU at most recovers the port; it knows what is in the slot, and once the port has stopped nothing runs. */
  ghost predicate RecoverInv(s: State) {
    && (forall a <- s.agents :: Recovers(s.agents[a]) ==> s.fault.Recovering? && !s.dead && s.agents[a].slot == s.slot)
    && (forall a <- s.agents :: s.agents[a].Restarting? ==> s.running.None?)
    && (forall a <- s.agents, b <- s.agents :: Recovers(s.agents[a]) && Recovers(s.agents[b]) ==> a == b)
    && (s.dead ==> s.fault.Recovering? && s.queue == [])
    && (s.running.Some? ==> s.slot == s.running)
  }

  // ---------- A drain is owed ----------

  /** The CPU will look at the queue, or ask for it to be looked at, before it is idle again. */
  predicate Owes(pc: Pc) {
    pc.Draining? || pc.Asking? || (pc.Hold? && !pc.after.Return?)
  }

  ghost predicate DrainOwed(s: State) {
    s.dpc || exists a <- s.agents :: Owes(s.agents[a])
  }

  ghost predicate OwedInv(s: State) {
    s.queue != [] && s.slot.None? && s.fault.Clear? && !s.dead ==> DrainOwed(s)
  }

  // ---------- A recovery is owed ----------

  /** The CPU will wake the watch thread, have it woken, or claim the port itself. */
  predicate OwesRecovery(pc: Pc) {
    pc.Reporting? || pc.Signalling? || pc.Woken? || pc.Claiming?
  }

  ghost predicate RecoveryOwed(s: State) {
    s.faultDpc || s.wake > 0 || exists a <- s.agents :: OwesRecovery(s.agents[a])
  }

  /** A fault has a recovery coming; one under way, and not given up, has a CPU that is at it. */
  ghost predicate FaultInv(s: State) {
    && (s.fault.Faulted? ==> RecoveryOwed(s))
    && (s.fault.Recovering? && !s.dead ==> exists a <- s.agents :: Recovers(s.agents[a]))
  }

  ghost predicate Inv(s: State) {
    HomeInv(s) && OrderInv(s) && RecoverInv(s) && OwedInv(s) && FaultInv(s)
  }

  // ---------- Steps and homes ----------

  /** `x` goes to `p`; every other IRP stays where it is. */
  ghost predicate Moved(s: State, s': State, x: Irp, p: Place) {
    && (forall q :: At(s', x, q) <==> q == p)
    && (forall y, q :: y != x ==> (At(s', y, q) <==> At(s, y, q)))
  }

  lemma MoveKeepsHome(s: State, s': State, x: Irp, p: Place)
    requires HomeInv(s) && Moved(s, s', x, p) && s'.submitted == s.submitted + {x}
    ensures HomeInv(s')
  {
    var home: map<Irp, Place> :| Housed(s, home);
    assert Housed(s', home[x := p]);
  }

  lemma StayKeepsHome(s: State, s': State)
    requires HomeInv(s) && s'.submitted == s.submitted
    requires forall y, q :: At(s', y, q) <==> At(s, y, q)
    ensures HomeInv(s')
  {
    var home: map<Irp, Place> :| Housed(s, home);
    assert Housed(s', home);
  }

  /** An IRP is in one place only. */
  lemma OnePlace(s: State, x: Irp, p: Place, q: Place)
    requires HomeInv(s) && At(s, x, p) && At(s, x, q)
    ensures p == q && x in s.submitted
  {
    var home: map<Irp, Place> :| Housed(s, home);
    assert home[x] == p && home[x] == q;
  }

  /** `x`, so far at `from`, is at `to` in `s'`; the agents but `a` are as they were. */
  lemma MovesFrom(s: State, s': State, a: Agent, x: Irp, from: Place, to: Place)
    requires HomeInv(s) && At(s, x, from) && At(s', x, to)
    requires a in s.agents && a in s'.agents && s'.agents == s.agents[a := s'.agents[a]]
    requires forall y :: y != x ==> (y in s'.queue <==> y in s.queue)
    requires forall y :: y != x ==> (y in s'.done <==> y in s.done)
    requires forall y :: y != x ==> (s'.slot == Some(y) <==> s.slot == Some(y))
    requires forall y :: y != x ==> (Has(s'.agents[a], y) <==> Has(s.agents[a], y))
    requires (x in s'.queue <==> to.Queued?) && (x in s'.done <==> to.Done?) && (s'.slot == Some(x) <==> to.InSlot?)
    requires Has(s'.agents[a], x) <==> to == With(a)
    requires (from.With? ==> from.agent == a) && (to.With? ==> to.agent == a)
    requires s'.submitted == s.submitted
    ensures HomeInv(s')
  {
    var home: map<Irp, Place> :| Housed(s, home);
    assert home[x] == from;
    forall q
      ensures At(s', x, q) <==> q == to
    {
      if q.With? && q.agent in s.agents && q.agent != a {
        assert At(s, x, q) <==> home[x] == q;
      }
    }
    assert forall y, q :: y != x ==> (At(s', y, q) <==> At(s, y, q));
    MoveKeepsHome(s, s', x, to);
  }

  lemma IoKeepsHome(s: State, s': State, a: Agent, step: IoStep)
    requires HomeInv(s) && IoNext(s, s', a, step)
    ensures HomeInv(s')
  {
    match step
    case Submit(irp) =>
      SubmitKeepsHome(s, s', a, irp);
    case Refuse =>
      StayKeepsHome(s, s');
    case Enter(hasCommand) =>
      EnterKeepsHome(s, s', a, hasCommand);
    case Complete =>
      var x := s.agents[a].irp;
      assert At(s, x, With(a));
      NotElsewhere(s, x, With(a));
      assert !At(s, x, Queued) && !At(s, x, InSlot);
      MovesFrom(s, s', a, x, With(a), Done);
    case Interrupt(fatal) =>
      if s'.fault == s.fault {
        RetireKeepsHome(s, s', a);
      } else {
        StayKeepsHome(s, s');
      }
    case Poll =>
      RetireKeepsHome(s, s', a);
  }

  lemma NotElsewhere(s: State, x: Irp, p: Place)
    requires HomeInv(s) && At(s, x, p)
    ensures forall q :: q != p ==> !At(s, x, q)
  {
    forall q | q != p
      ensures !At(s, x, q)
    {
      var home: map<Irp, Place> :| Housed(s, home);
      assert home[x] == p;
    }
  }

  lemma SubmitKeepsHome(s: State, s': State, a: Agent, irp: Irp)
    requires HomeInv(s) && IoNext(s, s', a, Submit(irp))
    ensures HomeInv(s')
  {
    var home: map<Irp, Place> :| Housed(s, home);
    assert forall q :: !At(s, irp, q);
    forall q
      ensures At(s', irp, q) <==> q == With(a)
    {
      assert !At(s, irp, q);
    }
    MoveKeepsHome(s, s', irp, With(a));
  }

  lemma EnterKeepsHome(s: State, s': State, a: Agent, hasCommand: bool)
    requires HomeInv(s) && IoNext(s, s', a, Enter(hasCommand))
    ensures HomeInv(s')
  {
    var x := s.agents[a].irp;
    assert At(s, x, With(a));
    NotElsewhere(s, x, With(a));
    assert !At(s, x, Done) && !At(s, x, Queued) && !At(s, x, InSlot);
    if s'.slot != s.slot {
      MovesFrom(s, s', a, x, With(a), InSlot);
    } else if s'.queue != s.queue {
      MovesFrom(s, s', a, x, With(a), Queued);
    } else {
      MovesFrom(s, s', a, x, With(a), With(a));
    }
  }

  lemma RetireKeepsHome(s: State, s': State, a: Agent)
    requires HomeInv(s) && a in s.agents && s.agents[a].Idle?
    requires s'.queue == s.queue && s'.done == s.done && s'.submitted == s.submitted
    requires
      || (s'.slot == s.slot && s'.agents == s.agents)
      || (s.slot.Some? && s'.slot.None? && exists after :: s'.agents == s.agents[a := Hold(s.slot.value, after)])
    ensures HomeInv(s')
  {
    if s'.slot == s.slot {
      StayKeepsHome(s, s');
    } else {
      var x := s.slot.value;
      assert At(s, x, InSlot);
      NotElsewhere(s, x, InSlot);
      assert !At(s, x, Done) && !At(s, x, Queued);
      MovesFrom(s, s', a, x, InSlot, With(a));
    }
  }

  lemma DrainKeepsHome(s: State, s': State, a: Agent, step: DrainStep)
    requires HomeInv(s) && OrderInv(s) && DrainNext(s, s', a, step)
    ensures HomeInv(s')
  {
    if s'.queue == s.queue {
      StayKeepsHome(s, s');
    } else {
      var x := s.queue[0];
      PopFacts(s.queue);
      assert At(s, x, Queued);
      NotElsewhere(s, x, Queued);
      assert !At(s, x, Done) && !At(s, x, InSlot);
      MovesFrom(s, s', a, x, Queued, if s'.slot == s.slot then With(a) else InSlot);
    }
  }

  lemma RecoverKeepsHome(s: State, s': State, a: Agent, step: RecoverStep)
    requires HomeInv(s) && OrderInv(s) && RecoverInv(s) && RecoverNext(s, s', a, step)
    ensures HomeInv(s')
  {
    match step
    case Restart =>
      if s.slot.Some? {
        var x := s.slot.value;
        assert At(s, x, InSlot);
        NotElsewhere(s, x, InSlot);
        assert !At(s, x, Done) && !At(s, x, Queued);
        MovesFrom(s, s', a, x, InSlot, With(a));
      } else {
        StayKeepsHome(s, s');
      }
    case GiveUp => GiveUpKeepsHome(s, s', a);
    case Refund => RefundKeepsHome(s, s', a);
    case _ => StayKeepsHome(s, s');
  }

  lemma GiveUpKeepsHome(s: State, s': State, a: Agent)
    requires HomeInv(s) && RecoverNext(s, s', a, GiveUp)
    ensures HomeInv(s')
  {
    var home: map<Irp, Place> :| Housed(s, home);
    var home' := map x <- home :: if home[x].Queued? then With(a) else home[x];
    forall x, p
      ensures At(s', x, p) <==> x in home' && home'[x] == p
    {
      assert At(s, x, p) <==> x in home && home[x] == p;
      assert At(s, x, Queued) <==> x in home && home[x] == Queued;
    }
    assert Housed(s', home');
  }

  lemma RefundKeepsHome(s: State, s': State, a: Agent)
    requires HomeInv(s) && OrderInv(s) && RecoverNext(s, s', a, Refund)
    ensures HomeInv(s')
  {
    var q := s.agents[a].queue;
    if q == [] {
      StayKeepsHome(s, s');
    } else {
      PopFacts(q);
      assert At(s, q[0], With(a));
      NotElsewhere(s, q[0], With(a));
      assert !At(s, q[0], Done) && !At(s, q[0], Queued) && !At(s, q[0], InSlot);
      MovesFrom(s, s', a, q[0], With(a), Done);
    }
  }

  lemma WatchKeepsHome(s: State, s': State, a: Agent, step: WatchStep)
    requires HomeInv(s) && WatchNext(s, s', a, step)
    ensures HomeInv(s')
  {
    StayKeepsHome(s, s');
  }

  // ---------- Order ----------

  /** The IRP a CPU submits or completes is neither queued nor completed yet. */
  lemma HeldIsNew(s: State, a: Agent)
    requires HomeInv(s) && a in s.agents && (s.agents[a].Submitting? || s.agents[a].Hold?)
    ensures s.agents[a].irp !in s.queue && s.agents[a].irp !in s.done
  {
    var x := s.agents[a].irp;
    assert At(s, x, With(a));
    NotElsewhere(s, x, With(a));
    assert !At(s, x, Done) && !At(s, x, Queued);
  }

  lemma IoKeepsOrder(s: State, s': State, a: Agent, step: IoStep)
    requires HomeInv(s) && OrderInv(s) && IoNext(s, s', a, step)
    ensures OrderInv(s')
  {
    if step.Enter? || step.Complete? {
      HeldIsNew(s, a);
    }
  }

  lemma DrainKeepsOrder(s: State, s': State, a: Agent, step: DrainStep)
    requires OrderInv(s) && DrainNext(s, s', a, step)
    ensures OrderInv(s')
  {}

  lemma RecoverKeepsOrder(s: State, s': State, a: Agent, step: RecoverStep)
    requires HomeInv(s) && OrderInv(s) && RecoverNext(s, s', a, step)
    ensures OrderInv(s')
  {
    if step.Refund? && s.agents[a].queue != [] {
      var x := s.agents[a].queue[0];
      assert At(s, x, With(a));
      NotElsewhere(s, x, With(a));
      assert !At(s, x, Done);
      PopFacts(s.agents[a].queue);
    }
  }

  // ---------- Recovery ----------

  lemma IoKeepsRecover(s: State, s': State, a: Agent, step: IoStep)
    requires RecoverInv(s) && IoNext(s, s', a, step)
    ensures RecoverInv(s')
  {}

  lemma DrainKeepsRecover(s: State, s': State, a: Agent, step: DrainStep)
    requires RecoverInv(s) && DrainNext(s, s', a, step)
    ensures RecoverInv(s')
  {}

  lemma RecoverKeepsRecover(s: State, s': State, a: Agent, step: RecoverStep)
    requires RecoverInv(s) && RecoverNext(s, s', a, step)
    ensures RecoverInv(s')
  {}

  lemma WatchKeepsRecover(s: State, s': State, a: Agent, step: WatchStep)
    requires OrderInv(s) && RecoverInv(s) && WatchNext(s, s', a, step)
    ensures OrderInv(s') && RecoverInv(s')
  {}

  // ---------- The drain ----------

  /** A drain owed by another CPU, or by the DPC, is still owed; only a CPU that has looked stops owing. */
  lemma KeepsOwing(s: State, s': State, a: Agent)
    requires DrainOwed(s) && a in s.agents && a in s'.agents && s'.agents == s.agents[a := s'.agents[a]]
    requires s.dpc ==> s'.dpc || Owes(s'.agents[a])
    requires Owes(s.agents[a]) ==> s'.dpc || Owes(s'.agents[a])
    ensures DrainOwed(s')
  {
    if !s.dpc {
      var b :| b in s.agents && Owes(s.agents[b]);
      if b != a {
        assert Owes(s'.agents[b]);
      }
    }
  }

  lemma IoKeepsOwed(s: State, s': State, a: Agent, step: IoStep)
    requires OwedInv(s) && IoNext(s, s', a, step)
    ensures OwedInv(s')
  {
    if s'.queue != [] && s'.slot.None? && s'.fault.Clear? && !s'.dead {
      if s.slot.None? && s.fault.Clear? && s.queue != [] {
        KeepsOwing(s, s', a);
      } else {
        assert Owes(s'.agents[a]);
      }
    }
  }

  lemma DrainKeepsOwed(s: State, s': State, a: Agent, step: DrainStep)
    requires OwedInv(s) && DrainNext(s, s', a, step)
    ensures OwedInv(s')
  {
    if s'.queue != [] && s'.slot.None? && s'.fault.Clear? && !s'.dead {
      KeepsOwing(s, s', a);
    }
  }

  lemma RecoverKeepsOwed(s: State, s': State, a: Agent, step: RecoverStep)
    requires OwedInv(s) && RecoverNext(s, s', a, step)
    ensures OwedInv(s')
  {
    if s'.queue != [] && s'.slot.None? && s'.fault.Clear? && !s'.dead {
      if step.Restart? {
        assert Owes(s'.agents[a]);
      } else {
        KeepsOwing(s, s', a);
      }
    }
  }

  lemma WatchKeepsOwed(s: State, s': State, a: Agent, step: WatchStep)
    requires OwedInv(s) && WatchNext(s, s', a, step)
    ensures OwedInv(s')
  {
    if s'.queue != [] && s'.slot.None? && s'.fault.Clear? && !s'.dead {
      KeepsOwing(s, s', a);
    }
  }

  // ---------- The recovery ----------

  /** Nobody forgets the fault, or stops recovering before the fault is cleared or the port given up. */
  lemma KeepsFault(s: State, s': State, a: Agent)
    requires FaultInv(s) && a in s.agents && a in s'.agents && s'.agents == s.agents[a := s'.agents[a]]
    requires s'.fault == s.fault && (s'.dead == s.dead || s'.dead)
    requires s.faultDpc ==> s'.faultDpc || OwesRecovery(s'.agents[a])
    requires s.wake > 0 ==> s'.wake > 0 || OwesRecovery(s'.agents[a])
    requires OwesRecovery(s.agents[a]) && s.fault.Faulted? ==>
               s'.faultDpc || s'.wake > 0 || OwesRecovery(s'.agents[a])
    requires Recovers(s.agents[a]) ==> s'.dead || Recovers(s'.agents[a])
    ensures FaultInv(s')
  {
    if s.fault.Faulted? && !s.faultDpc && s.wake == 0 {
      var b :| b in s.agents && OwesRecovery(s.agents[b]);
      assert b != a ==> OwesRecovery(s'.agents[b]);
    }
    if s.fault.Recovering? && !s'.dead {
      var b :| b in s.agents && Recovers(s.agents[b]);
      assert b != a ==> Recovers(s'.agents[b]);
    }
  }

  lemma IoKeepsFault(s: State, s': State, a: Agent, step: IoStep)
    requires FaultInv(s) && IoNext(s, s', a, step)
    ensures FaultInv(s')
  {
    if s'.fault == s.fault {
      KeepsFault(s, s', a);
    } else {
      assert OwesRecovery(s'.agents[a]);
    }
  }

  lemma DrainKeepsFault(s: State, s': State, a: Agent, step: DrainStep)
    requires FaultInv(s) && DrainNext(s, s', a, step)
    ensures FaultInv(s')
  {
    KeepsFault(s, s', a);
  }

  lemma RecoverKeepsFault(s: State, s': State, a: Agent, step: RecoverStep)
    requires FaultInv(s) && RecoverNext(s, s', a, step)
    ensures FaultInv(s')
  {
    if step.Claim? {
      assert Recovers(s'.agents[a]);
    } else if !step.Restart? {
      KeepsFault(s, s', a);
    }
  }

  lemma WatchKeepsFault(s: State, s': State, a: Agent, step: WatchStep)
    requires FaultInv(s) && WatchNext(s, s', a, step)
    ensures FaultInv(s')
  {
    if s'.fault == s.fault {
      KeepsFault(s, s', a);
    } else {
      assert Recovers(s'.agents[a]);
    }
  }

  // ---------- Runs ----------

  lemma InitInv(s: State)
    requires Init(s)
    ensures Inv(s)
  {
    var home: map<Irp, Place> := map[];
    assert Housed(s, home);
  }

  lemma NextKeepsInv(s: State, s': State, step: Step)
    requires Inv(s) && Next(s, s', step)
    ensures Inv(s')
  {
    match step
    case Io(a, st) =>
      IoKeepsHome(s, s', a, st);
      IoKeepsOrder(s, s', a, st);
      IoKeepsRecover(s, s', a, st);
      IoKeepsOwed(s, s', a, st);
      IoKeepsFault(s, s', a, st);
    case Queue(a, st) =>
      DrainKeepsHome(s, s', a, st);
      DrainKeepsOrder(s, s', a, st);
      DrainKeepsRecover(s, s', a, st);
      DrainKeepsOwed(s, s', a, st);
      DrainKeepsFault(s, s', a, st);
    case Recover(a, st) =>
      RecoverKeepsHome(s, s', a, st);
      RecoverKeepsOrder(s, s', a, st);
      RecoverKeepsRecover(s, s', a, st);
      RecoverKeepsOwed(s, s', a, st);
      RecoverKeepsFault(s, s', a, st);
    case Watch(a, st) =>
      WatchKeepsHome(s, s', a, st);
      WatchKeepsRecover(s, s', a, st);
      WatchKeepsOwed(s, s', a, st);
      WatchKeepsFault(s, s', a, st);
    case Finish =>
      StayKeepsHome(s, s');
  }

  lemma {:induction false} RunKeepsInv(run: seq<State>, steps: seq<Step>, i: nat)
    requires IsRun(run, steps) && i < |run|
    ensures Inv(run[i])
  {
    if i == 0 {
      InitInv(run[0]);
    } else {
      RunKeepsInv(run, steps, i - 1);
      assert Next(run[i - 1], run[i - 1 + 1], steps[i - 1]);
      NextKeepsInv(run[i - 1], run[i], steps[i - 1]);
    }
  }

  // ---------- What the port promises ----------

  /** In every run, every IRP submitted is in exactly one place. */
  lemma EveryIrpIsInOnePlace(run: seq<State>, steps: seq<Step>, i: nat, x: Irp)
    requires IsRun(run, steps) && i < |run| && x in run[i].submitted
    ensures exists p :: At(run[i], x, p) && forall q :: At(run[i], x, q) ==> q == p
  {
    RunKeepsInv(run, steps, i);
    var home: map<Irp, Place> :| Housed(run[i], home);
    assert At(run[i], x, home[x]);
  }

  /** No IRP is completed twice, and none that was never submitted. */
  lemma CompletedOnce(run: seq<State>, steps: seq<Step>, i: nat)
    requires IsRun(run, steps) && i < |run|
    ensures NoDup(run[i].done) && forall x <- run[i].done :: x in run[i].submitted
  {
    RunKeepsInv(run, steps, i);
    forall x | x in run[i].done
      ensures x in run[i].submitted
    {
      assert At(run[i], x, Done);
      OnePlace(run[i], x, Done, Done);
    }
  }

  /** While the controller may still run a command, its IRP is in the slot: neither completed nor about to be. */
  lemma RunningIsNotCompleted(run: seq<State>, steps: seq<Step>, i: nat, x: Irp)
    requires IsRun(run, steps) && i < |run| && run[i].running == Some(x)
    ensures run[i].slot == Some(x) && x !in run[i].done
    ensures forall a <- run[i].agents :: !Has(run[i].agents[a], x)
  {
    RunKeepsInv(run, steps, i);
    var s := run[i];
    assert At(s, x, InSlot);
    NotElsewhere(s, x, InSlot);
    assert !At(s, x, Done);
    forall a | a in s.agents
      ensures !Has(s.agents[a], x)
    {
      assert !At(s, x, With(a));
    }
  }

  /**
   A queued IRP is never forgotten: with the slot idle and the port clear and alive, some CPU or the DPC owes a
   drain.
   */
  lemma QueuedIsNeverStranded(run: seq<State>, steps: seq<Step>, i: nat)
    requires IsRun(run, steps) && i < |run|
    requires run[i].queue != [] && run[i].slot.None? && run[i].fault.Clear? && !run[i].dead
    ensures DrainOwed(run[i])
  {
    RunKeepsInv(run, steps, i);
  }

  /**
   A fault is never forgotten: until the port is claimed, the fault DPC is queued, a wake of the watch thread is
   pending, or some CPU is on its way from the one to the other or to the claim.
   */
  lemma FaultIsNeverForgotten(run: seq<State>, steps: seq<Step>, i: nat)
    requires IsRun(run, steps) && i < |run|
    ensures run[i].fault.Faulted? ==> RecoveryOwed(run[i])
    ensures run[i].fault.Recovering? && !run[i].dead ==>
              exists a <- run[i].agents :: Recovers(run[i].agents[a])
  {
    RunKeepsInv(run, steps, i);
  }

  /** A port that has been given up keeps its command for good and completes it never. */
  lemma {:induction false} DeadPortKeepsItsCommand(run: seq<State>, steps: seq<Step>, i: nat, j: nat)
    requires IsRun(run, steps) && i <= j < |run| && run[i].dead
    ensures run[j].dead && run[j].slot == run[i].slot && run[j].queue == []
    ensures run[i].slot.Some? ==> run[i].slot.value !in run[j].done
    decreases j - i
  {
    RunKeepsInv(run, steps, j);
    if i < j {
      DeadPortKeepsItsCommand(run, steps, i, j - 1);
      RunKeepsInv(run, steps, j - 1);
      assert Next(run[j - 1], run[j - 1 + 1], steps[j - 1]);
      DeadStays(run[j - 1], run[j], steps[j - 1]);
    }
    if run[j].slot.Some? {
      NotElsewhere(run[j], run[j].slot.value, InSlot);
      assert !At(run[j], run[j].slot.value, Done);
    }
  }

  lemma DeadStays(s: State, s': State, step: Step)
    requires RecoverInv(s) && s.dead && Next(s, s', step)
    ensures s'.dead && s'.slot == s.slot
  {
    match step
    case Io(a, st) => assert !Retires(s);
    case Queue(a, st) =>
    case Recover(a, st) => assert !Recovers(s.agents[a]);
    case Watch(a, st) =>
    case Finish =>
  }
}
