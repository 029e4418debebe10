/**
 How long an enqueue waits for its handler. Every step but the start of a new activity brings all that is
 under way nearer to its end, and a DPC that waits has someone who can take such a step, unless it is in the
 queue of a machine where nobody drains.
 */
module DpcProgress {
  import opened Common
  import opened Dpc
  import opened DpcTheorems

  // ---------- What is left to do ----------

  /** The most steps an agent has left, what it pushes included. */
  function Rank(pc: Pc): nat {
    match pc
    case Idle => 0
    case Completing(_) => 10
    case Enqueue(_) => 8
    case Pushing(_) => 7
    case Looking => 1
    case Batch(rest) => 4 * |rest| + 2
    case About(_, rest) => 4 * |rest| + 5
    case Handling(_, rest) => 4 * |rest| + 4
    case Finishing(irps, _, rest) => 4 * |rest| + 3 + |irps|
  }

  /** All there is left to do: by the agents, for what is in the queue, and for the IRPs on the list. */
  function Work(s: State, n: nat): int {
    Total(s.agents, Rank, n) + 6 * |s.queue| + (|s.completed| - s.taken)
  }

  /** The step begins an activity. */
  predicate Starts(step: Step) {
    match step
    case Asking(_, st) => st.StartComplete? || st.StartEnqueue?
    case Draining(_, st) => st.StartDrain?
  }

  lemma AskWorks(s: State, s': State, a: Agent, step: AskStep, n: nat)
    requires AskNext(s, s', a, step) && a < n
    ensures step.StartComplete? || step.StartEnqueue? ==> Work(s', n) <= Work(s, n) + 10
    ensures !step.StartComplete? && !step.StartEnqueue? ==> Work(s', n) < Work(s, n)
  {
    TotalUpdate(s.agents, Rank, a, s'.agents[a], n);
  }

  lemma DrainWorks(s: State, s': State, a: Agent, step: DrainStep, n: nat)
    requires DrainNext(s, s', a, step) && a < n
    ensures step.StartDrain? ==> Work(s', n) <= Work(s, n) + 10
    ensures !step.StartDrain? ==> Work(s', n) < Work(s, n)
  {
    TotalUpdate(s.agents, Rank, a, s'.agents[a], n);
  }

  ghost predicate AgentsBelow(s: State, n: nat) {
    forall a <- s.agents :: a < n
  }

  lemma StepWorks(s: State, s': State, step: Step, n: nat)
    requires Next(s, s', step) && AgentsBelow(s, n)
    ensures AgentsBelow(s', n)
    ensures if Starts(step) then Work(s', n) <= Work(s, n) + 10 else Work(s', n) < Work(s, n)
  {
    match step
    case Asking(a, st) => AskWorks(s, s', a, st, n);
    case Draining(a, st) => DrainWorks(s, s', a, st, n);
  }

  // ---------- Steps are bounded ----------

  /** How many of the steps from `i` up to `j` begin an activity. */
  function StartsIn(steps: seq<Step>, i: nat, j: nat): nat
    requires i <= j <= |steps|
    decreases j - i
  {
    if i == j then 0 else StartsIn(steps, i, j - 1) + if Starts(steps[j - 1]) then 1 else 0
  }

  lemma {:induction false} StepsAreBounded(run: seq<State>, steps: seq<Step>, i: nat, j: nat, n: nat)
    requires IsRun(run, steps) && i <= j < |run| && AgentsBelow(run[i], n)
    ensures AgentsBelow(run[j], n)
    ensures Work(run[j], n) + (j - i) <= Work(run[i], n) + 11 * StartsIn(steps, i, j)
    decreases j - i
  {
    if i < j {
      StepsAreBounded(run, steps, i, j - 1, n);
      assert Next(run[j - 1], run[j - 1 + 1], steps[j - 1]);
      StepWorks(run[j - 1], run[j], steps[j - 1], n);
    }
  }

  // ---------- Someone can take them ----------

  /** The agent can take a step that begins nothing. */
  ghost predicate CanGoOn(s: State, a: Agent) {
    exists s', step :: Next(s, s', step) && !Starts(step) && StepAgent(step) == a
  }

  function StepAgent(step: Step): Agent {
    step.a
  }

  lemma AskerCanGoOn(s: State, a: Agent)
    requires OrderInv(s) && a in s.agents
    requires s.agents[a].Completing? || s.agents[a].Enqueue? || s.agents[a].Pushing?
    requires s.agents[a].Pushing? ==> |s.queue| < DPC_CAPACITY
    ensures CanGoOn(s, a)
  {
    var pc := s.agents[a];
    match pc
    case Completing(irp) =>
      assert Next(s, To(s, a, Enqueue(FINISH)).(completed := s.completed + [irp]), Asking(a, Append));
    case Enqueue(d) =>
      var s' := To(s, a, if d in s.queued then Idle else Pushing(d))
                .(queued := s.queued + {d}, asks := s.asks[d := s.asks[d] + 1]);
      assert Next(s, s', Asking(a, SwapQueued));
    case Pushing(d) =>
      assert Next(s, To(s, a, Idle).(queue := s.queue + [d]), Asking(a, Push));
  }

  lemma DrainerCanGoOn(s: State, a: Agent)
    requires OrderInv(s) && s.taken <= |s.completed| && a in s.agents
    requires s.agents[a].Looking? || s.agents[a].Batch? || s.agents[a].About? || s.agents[a].Handling?
    ensures CanGoOn(s, a)
  {
    var pc := s.agents[a];
    match pc
    case Looking =>
      var s' := if s.queue == [] then To(s, a, Idle) else To(s, a, Batch(s.queue)).(queue := []);
      assert Next(s, s', Draining(a, TakeQueue));
    case Batch(rest) =>
      var s' := if rest == [] then To(s, a, Looking)
                else To(s, a, About(rest[0], rest[1..])).(queued := s.queued - {rest[0]});
      assert Next(s, s', Draining(a, Clear));
    case About(d, rest) =>
      assert Next(s, To(s, a, Handling(d, rest)).(served := s.served[d := s.asks[d]]), Draining(a, StartHandler));
    case Handling(d, rest) =>
      if d == FINISH {
        var s' := To(s, a, Finishing(s.completed[s.taken..], s.taken, rest)).(taken := |s.completed|);
        assert Next(s, s', Draining(a, TakeDone));
      } else {
        assert Next(s, To(s, a, Batch(rest)), Draining(a, EndHandler));
      }
  }

  lemma FinisherCanGoOn(s: State, a: Agent)
    requires a in s.agents && s.agents[a].Finishing?
    ensures CanGoOn(s, a)
  {
    var pc := s.agents[a];
    if pc.irps == [] {
      assert Next(s, To(s, a, Batch(pc.rest)), Draining(a, EndFinish));
    } else {
      var s' := To(s, a, Finishing(pc.irps[1..], pc.from + 1, pc.rest)).(finished := s.finished + [pc.from]);
      assert Next(s, s', Draining(a, FinishOne));
    }
  }

  /** In every run, whoever is in the middle of something can go on. */
  lemma BusyCanGoOn(run: seq<State>, steps: seq<Step>, i: nat, a: Agent)
    requires IsRun(run, steps) && i < |run| && a in run[i].agents && !run[i].agents[a].Idle?
    ensures CanGoOn(run[i], a)
  {
    RunKeepsInv(run, steps, i);
    var (s, pc) := (run[i], run[i].agents[a]);
    if pc.Pushing? {
      QueueNeverOverflows(run, steps, i, a);
    }
    if pc.Completing? || pc.Enqueue? || pc.Pushing? {
      AskerCanGoOn(s, a);
    } else if pc.Finishing? {
      FinisherCanGoOn(s, a);
    } else {
      DrainerCanGoOn(s, a);
    }
  }

  /**
   An enqueue whose handler has not started since has an agent that can go on, or waits in the queue while
   every agent is idle: then the next drain to start takes it.
   */
  lemma UnservedCanGoOn(run: seq<State>, steps: seq<Step>, i: nat, d: DpcId)
    requires IsRun(run, steps) && i < |run| && d in run[i].dpcs && d in run[i].asks && d in run[i].served
    requires run[i].served[d] < run[i].asks[d]
    ensures (exists a <- run[i].agents :: CanGoOn(run[i], a))
            || (d in run[i].queue && forall a <- run[i].agents :: run[i].agents[a].Idle?)
  {
    if a :| a in run[i].agents && !run[i].agents[a].Idle? {
      BusyCanGoOn(run, steps, i, a);
    } else {
      EveryEnqueueIsServed(run, steps, i, d);
      RunKeepsInv(run, steps, i);
      QueuedIsSomewhere(run[i], d);
    }
  }

  /**
   And it does not wait long: a stretch of a run in which the handler does not start has no more steps than
   there is work at its beginning, and eleven for each activity begun in it.
   */
  lemma WaitIsBounded(run: seq<State>, steps: seq<Step>, i: nat, j: nat, n: nat, d: DpcId)
    requires IsRun(run, steps) && i <= j < |run| && AgentsBelow(run[i], n) && d in run[i].asks
    requires forall k :: i <= k <= j ==> d in run[k].served && run[k].served[d] < run[i].asks[d]
    ensures j - i <= Work(run[i], n) + 11 * StartsIn(steps, i, j)
    ensures forall k {:trigger run[k]} :: i <= k <= j ==>
              || (exists a <- run[k].agents :: CanGoOn(run[k], a))
              || (d in run[k].queue && forall a <- run[k].agents :: run[k].agents[a].Idle?)
  {
    StepsAreBounded(run, steps, i, j, n);
    WorkIsLeft(run, steps, j, n);
    forall k | i <= k <= j
      ensures (exists a <- run[k].agents :: CanGoOn(run[k], a))
              || (d in run[k].queue && forall a <- run[k].agents :: run[k].agents[a].Idle?)
    {
      AsksOnlyGrow(run, steps, i, k, d);
      UnservedCanGoOn(run, steps, k, d);
    }
  }

  lemma WorkIsLeft(run: seq<State>, steps: seq<Step>, i: nat, n: nat)
    requires IsRun(run, steps) && i < |run|
    ensures Work(run[i], n) >= 0
  {
    RunKeepsInv(run, steps, i);
  }

  lemma {:induction false} AsksOnlyGrow(run: seq<State>, steps: seq<Step>, i: nat, j: nat, d: DpcId)
    requires IsRun(run, steps) && i <= j < |run| && d in run[i].asks
    ensures d in run[j].asks && run[i].asks[d] <= run[j].asks[d] && d in run[j].dpcs
    decreases j - i
  {
    if i < j {
      AsksOnlyGrow(run, steps, i, j - 1, d);
      assert Next(run[j - 1], run[j - 1 + 1], steps[j - 1]);
    } else {
      RunKeepsInv(run, steps, i);
    }
  }
}
