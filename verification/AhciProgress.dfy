/**
 How long a queued IRP waits. Every step but the start of a new activity brings all that is under way nearer to its
 end, a queue that is not empty has someone who can take such a step or something coming that will start one, and the
 IRPs in it come up in the order they were queued.
 */
module AhciProgress {
  import opened Common
  import opened Ahci
  import opened AhciTheorems

  // ---------- What is left to do ----------

  /** The most steps a CPU has left, what it queues included. */
  function Rank(pc: Pc): nat {
    match pc
    case Idle => 0
    case Submitting(_) => 3
    case Hold(_, after) => if after.Return? then 1 else 2
    case Asking => 1
    case Draining => 1
    case Stopping(_) => 4
    case Restarting(_) => 3
    case GivingUp(_) => 2
    case Refunding(queue) => |queue| + 1
    case Reporting => 1
    case Signalling => 1
    case Woken => 6
    case Claiming => 5
  }

  /** All there is left to do, by the CPUs and for what is queued. */
  function Work(s: State, n: nat): nat {
    Total(s.agents, Rank, n) + 2 * |s.queue|
  }

  ghost predicate AgentsBelow(s: State, n: nat) {
    forall a <- s.agents :: a < n
  }

  /** The step begins an activity, or is the controller's. */
  predicate Starts(step: Step) {
    match step
    case Io(_, st) => st.Submit? || st.Interrupt? || st.Poll?
    case Queue(_, st) => st.RunDpc? || st.StartDrain?
    case Recover(_, st) => st.Claim?
    case Watch(_, st) => st.RunFaultDpc? || st.WakeUp? || st.TimeOut?
    case Finish => true
  }

  lemma IoWorks(s: State, s': State, a: Agent, step: IoStep, n: nat)
    requires IoNext(s, s', a, step) && AgentsBelow(s, n)
    ensures AgentsBelow(s', n)
    ensures if Starts(Io(a, step)) then Work(s', n) <= Work(s, n) + 6 else Work(s', n) < Work(s, n)
  {
    TotalUpdate(s.agents, Rank, a, s'.agents[a], n);
  }

  lemma DrainWorks(s: State, s': State, a: Agent, step: DrainStep, n: nat)
    requires DrainNext(s, s', a, step) && AgentsBelow(s, n)
    ensures AgentsBelow(s', n)
    ensures if Starts(Queue(a, step)) then Work(s', n) <= Work(s, n) + 6 else Work(s', n) < Work(s, n)
  {
    TotalUpdate(s.agents, Rank, a, s'.agents[a], n);
  }

  lemma RecoverWorks(s: State, s': State, a: Agent, step: RecoverStep, n: nat)
    requires RecoverNext(s, s', a, step) && AgentsBelow(s, n)
    ensures AgentsBelow(s', n)
    ensures if Starts(Recover(a, step)) then Work(s', n) <= Work(s, n) + 6 else Work(s', n) < Work(s, n)
  {
    TotalUpdate(s.agents, Rank, a, s'.agents[a], n);
  }

  lemma WatchWorks(s: State, s': State, a: Agent, step: WatchStep, n: nat)
    requires WatchNext(s, s', a, step) && AgentsBelow(s, n)
    ensures AgentsBelow(s', n)
    ensures if Starts(Watch(a, step)) then Work(s', n) <= Work(s, n) + 6 else Work(s', n) < Work(s, n)
  {
    TotalUpdate(s.agents, Rank, a, s'.agents[a], n);
  }

  lemma StepWorks(s: State, s': State, step: Step, n: nat)
    requires Next(s, s', step) && AgentsBelow(s, n)
    ensures AgentsBelow(s', n)
    ensures if Starts(step) then Work(s', n) <= Work(s, n) + 6 else Work(s', n) < Work(s, n)
  {
    match step
    case Io(a, st) => IoWorks(s, s', a, st, n);
    case Queue(a, st) => DrainWorks(s, s', a, st, n);
    case Recover(a, st) => RecoverWorks(s, s', a, st, n);
    case Watch(a, st) => WatchWorks(s, s', a, st, n);
    case Finish =>
  }

  // ---------- Steps are bounded ----------

  /** How many of the steps from `i` up to `j` begin an activity. */
  function StartsIn(steps: seq<Step>, i: nat, j: nat): nat
    requires i <= j <= |steps|
    decreases j - i
  {
    if i == j then 0 else StartsIn(steps, i, j - 1) + if Starts(steps[j - 1]) then 1 else 0
  }

  lemma {:induction false} StepsAreBounded(run: seq<State>, steps: seq<Step>, i: nat, j: nat, n: nat)
    requires IsRun(run, steps) && i <= j < |run| && AgentsBelow(run[i], n)
    ensures AgentsBelow(run[j], n)
    ensures Work(run[j], n) + (j - i) <= Work(run[i], n) + 7 * StartsIn(steps, i, j)
    decreases j - i
  {
    if i < j {
      StepsAreBounded(run, steps, i, j - 1, n);
      assert Next(run[j - 1], run[j - 1 + 1], steps[j - 1]);
      StepWorks(run[j - 1], run[j], steps[j - 1], n);
    }
  }

  // ---------- Someone can take them ----------

  /** The CPU can take a step that begins nothing. */
  ghost predicate CanGoOn(s: State, a: Agent) {
    exists s', step :: Next(s, s', step) && !Starts(step) && IsBy(step, a)
  }

  ghost predicate SomeoneCanGoOn(s: State) {
    exists a <- s.agents :: CanGoOn(s, a)
  }

  predicate IsBy(step: Step, a: Agent) {
    !step.Finish? && step.a == a
  }

  lemma HolderCanGoOn(s: State, a: Agent)
    requires a in s.agents && (s.agents[a].Submitting? || s.agents[a].Hold? || s.agents[a].Asking?)
    ensures CanGoOn(s, a)
  {
    var pc := s.agents[a];
    match pc
    case Submitting(irp) =>
      assert Next(s, To(s, a, Hold(irp, Return)), Io(a, Refuse));
    case Hold(irp, after) =>
      assert Next(s, To(s, a, Resume(after)).(done := s.done + [irp]), Io(a, Complete));
    case Asking =>
      assert Next(s, To(s, a, Idle).(dpc := true), Queue(a, Ask));
  }

  lemma DrainerCanGoOn(s: State, a: Agent)
    requires a in s.agents && s.agents[a].Draining?
    ensures CanGoOn(s, a)
  {
    var s' := if s.slot.Some? || !s.fault.Clear? || s.queue == [] then To(s, a, Idle)
              else To(s, a, Hold(s.queue[0], Drain)).(queue := s.queue[1..]);
    assert Next(s, s', Queue(a, DrainOne(false)));
  }

  lemma RecovererCanGoOn(s: State, a: Agent)
    requires a in s.agents && (Recovers(s.agents[a]) || s.agents[a].Refunding?)
    ensures CanGoOn(s, a)
  {
    var pc := s.agents[a];
    match pc
    case Stopping(slot) =>
      assert Next(s, To(s, a, GivingUp(slot)), Recover(a, StopFails));
    case Restarting(slot) =>
      var pc' := if slot.Some? then Hold(slot.value, Drain) else Draining;
      assert Next(s, To(s, a, pc').(slot := None, fault := Clear), Recover(a, Restart));
    case GivingUp(_) =>
      assert Next(s, To(s, a, Refunding(s.queue)).(queue := [], dead := true), Recover(a, GiveUp));
    case Refunding(queue) =>
      var s' := if queue == [] then To(s, a, Idle)
                else To(s, a, Refunding(queue[1..])).(done := s.done + [queue[0]]);
      assert Next(s, s', Recover(a, Refund));
  }

  lemma WatcherCanGoOn(s: State, a: Agent)
    requires a in s.agents && OwesRecovery(s.agents[a])
    ensures CanGoOn(s, a)
  {
    var pc := s.agents[a];
    match pc
    case Reporting =>
      assert Next(s, To(s, a, Idle).(faultDpc := true), Watch(a, Report));
    case Signalling =>
      assert Next(s, To(s, a, Idle).(wake := s.wake + 1), Watch(a, Signal));
    case Woken =>
      assert Next(s, To(s, a, Claiming).(wake := if s.wake > 0 then s.wake - 1 else 0), Watch(a, Consume));
    case Claiming =>
      var s' := if s.fault.Faulted? then To(s, a, Stopping(s.slot)).(fault := Recovering) else To(s, a, Idle);
      assert Next(s, s', Watch(a, TryClaim(false)));
  }

  /** Whoever is in the middle of something can go on. */
  lemma BusyCanGoOn(s: State, a: Agent)
    requires a in s.agents && !s.agents[a].Idle?
    ensures CanGoOn(s, a)
  {
    var pc := s.agents[a];
    if pc.Submitting? || pc.Hold? || pc.Asking? {
      HolderCanGoOn(s, a);
    } else if pc.Draining? {
      DrainerCanGoOn(s, a);
    } else if OwesRecovery(pc) {
      WatcherCanGoOn(s, a);
    } else {
      RecovererCanGoOn(s, a);
    }
  }

  /**
   Something is coming: a drain or a fault DPC, a wake of the watch thread, or the end of the command in the slot,
   which an interrupt or its deadline brings.
   */
  predicate Coming(s: State) {
    s.dpc || s.faultDpc || s.wake > 0 || (s.fault.Clear? && s.slot.Some?)
  }

  /** With an IRP in the queue, a CPU can go on or something is coming. */
  lemma QueuedCanGoOn(run: seq<State>, steps: seq<Step>, i: nat)
    requires IsRun(run, steps) && i < |run| && run[i].queue != []
    ensures Coming(run[i]) || SomeoneCanGoOn(run[i])
  {
    RunKeepsInv(run, steps, i);
    var s := run[i];
    if a :| a in s.agents && !s.agents[a].Idle? {
      BusyCanGoOn(s, a);
    }
  }

  /**
   A stretch of a run has no more steps than there is work at its beginning, and seven for each activity begun in it;
   and as long as an IRP is queued, a CPU can go on or something is coming.
   */
  lemma QueueWaitIsBounded(run: seq<State>, steps: seq<Step>, i: nat, j: nat, n: nat, x: Irp)
    requires IsRun(run, steps) && i <= j < |run| && AgentsBelow(run[i], n)
    requires forall k :: i <= k <= j ==> x in run[k].queue
    ensures j - i <= Work(run[i], n) + 7 * StartsIn(steps, i, j)
    ensures forall k :: i <= k <= j ==> Coming(run[k]) || SomeoneCanGoOn(run[k])
  {
    StepsAreBounded(run, steps, i, j, n);
    forall k | i <= k <= j
      ensures Coming(run[k]) || SomeoneCanGoOn(run[k])
    {
      QueuedCanGoOn(run, steps, k);
    }
  }

  // ---------- First in, first out ----------

  /** How many of the steps from `i` up to `j` take something off the queue. */
  function TakesIn(run: seq<State>, i: nat, j: nat): nat
    requires i <= j < |run|
    decreases j - i
  {
    if i == j then 0 else TakesIn(run, i, j - 1) + if |run[j].queue| < |run[j - 1].queue| then 1 else 0
  }

  /** The queue is as it was, or has one more at its end, or has lost its first. */
  ghost predicate QueueMove(q: seq<Irp>, q': seq<Irp>) {
    q' == q || (exists y :: q' == q + [y]) || (q != [] && q' == q[1..])
  }

  lemma IoQueueMoves(s: State, s': State, a: Agent, step: IoStep)
    requires IoNext(s, s', a, step)
    ensures QueueMove(s.queue, s'.queue)
  {}

  lemma DrainQueueMoves(s: State, s': State, a: Agent, step: DrainStep)
    requires DrainNext(s, s', a, step)
    ensures QueueMove(s.queue, s'.queue)
  {}

  lemma RecoverQueueMoves(s: State, s': State, a: Agent, step: RecoverStep)
    requires RecoverNext(s, s', a, step)
    ensures s'.dead || QueueMove(s.queue, s'.queue)
  {}

  lemma QueueMoves(s: State, s': State, step: Step)
    requires Next(s, s', step)
    ensures s'.dead || QueueMove(s.queue, s'.queue)
  {
    match step
    case Io(a, st) => IoQueueMoves(s, s', a, st);
    case Queue(a, st) => DrainQueueMoves(s, s', a, st);
    case Recover(a, st) => RecoverQueueMoves(s, s', a, st);
    case Watch(a, st) =>
    case Finish =>
  }

  /** The IRP at place `k` is taken by the `k + 1`st that takes one; before that it is as many places further on. */
  lemma {:induction false} QueueIsFifo(run: seq<State>, steps: seq<Step>, i: nat, j: nat, k: nat)
    requires IsRun(run, steps) && i <= j < |run| && k < |run[i].queue|
    ensures var m := TakesIn(run, i, j);
            run[j].dead || m > k || (k - m < |run[j].queue| && run[j].queue[k - m] == run[i].queue[k])
    decreases j - i
  {
    if i < j {
      QueueIsFifo(run, steps, i, j - 1, k);
      RunKeepsInv(run, steps, j - 1);
      assert Next(run[j - 1], run[j - 1 + 1], steps[j - 1]);
      if run[j - 1].dead {
        DeadStays(run[j - 1], run[j], steps[j - 1]);
      } else {
        QueueMoves(run[j - 1], run[j], steps[j - 1]);
      }
    }
  }
}
