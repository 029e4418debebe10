/**
 How long a read of `/dev/registry/changes` waits once the table is past what it asked for. Every step but the start of
 a new change or read brings all that is under way nearer to its end, and such a read always has someone who can take
 one.
 */
module DeviceProgress {
  import opened Common
  import opened DeviceChanges

  // ---------- What is left to do ----------

  /** The most steps an agent has left, what it parks included. */
  function Rank(pc: Pc): nat {
    match pc
    case Idle => 0
    case Changed => 4
    case Loaded(_) => 3
    case Stored(_) => 2
    case Answering(due) => |due| + 1
    case Submitted(_) => 2
    case Holding(_, _) => 1
  }

  /** How many reads are parked. */
  function Waiting(slots: seq<Option<Parked>>): nat {
    if slots == [] then 0 else (if slots[0].Some? then 1 else 0) + Waiting(slots[1..])
  }

  /** Every read that leaves its slot is in the hands of whoever took it. */
  lemma {:induction false} TakenAreDue(slots: seq<Option<Parked>>, generation: nat)
    ensures |Passed(slots, generation)| + Waiting(Left(slots, generation)) == Waiting(slots)
  {
    if slots != [] {
      assert Left(slots, generation)[1..] == Left(slots[1..], generation);
      TakenAreDue(slots[1..], generation);
    }
  }

  lemma {:induction false} OneMoreWaits(slots: seq<Option<Parked>>, k: nat, p: Parked)
    requires k < |slots| && slots[k].None?
    ensures Waiting(slots[k := Some(p)]) == Waiting(slots) + 1
  {
    if k == 0 {
      assert slots[k := Some(p)][1..] == slots[1..];
    } else {
      assert slots[k := Some(p)][1..] == slots[1..][k - 1 := Some(p)];
      OneMoreWaits(slots[1..], k - 1, p);
    }
  }

  /** All there is left to do, by the agents and for the reads parked. */
  function Work(s: State, n: nat): nat {
    Total(s.agents, Rank, n) + Waiting(s.slots)
  }

  ghost predicate AgentsBelow(s: State, n: nat) {
    forall a <- s.agents :: a < n
  }

  /** The step begins a change or a read. */
  predicate Starts(step: Step) {
    match step
    case Changing(_, st) => st.Change?
    case Reading(_, st) => st.Submit?
  }

  lemma ChangeWorks(s: State, s': State, a: Agent, step: ChangeStep, n: nat)
    requires ChangeNext(s, s', a, step) && AgentsBelow(s, n)
    ensures AgentsBelow(s', n)
    ensures if step.Change? then Work(s', n) <= Work(s, n) + 4 else Work(s', n) < Work(s, n)
  {
    TotalUpdate(s.agents, Rank, a, s'.agents[a], n);
    TakenAreDue(s.slots, s.published);
  }

  lemma ReadWorks(s: State, s': State, a: Agent, step: ReadStep, n: nat)
    requires ReadNext(s, s', a, step) && AgentsBelow(s, n)
    ensures AgentsBelow(s', n)
    ensures if step.Submit? then Work(s', n) <= Work(s, n) + 4 else Work(s', n) < Work(s, n)
  {
    TotalUpdate(s.agents, Rank, a, s'.agents[a], n);
    if s'.slots != s.slots {
      var r := s.agents[a].read;
      OneMoreWaits(s.slots, FreeSlot(s.slots).value, Parked(s.offsets[r], r));
    }
  }

  // ---------- Steps are bounded ----------

  /** How many of the steps from `i` up to `j` begin a change or a read. */
  function StartsIn(steps: seq<Step>, i: nat, j: nat): nat
    requires i <= j <= |steps|
    decreases j - i
  {
    if i == j then 0 else StartsIn(steps, i, j - 1) + if Starts(steps[j - 1]) then 1 else 0
  }

  lemma {:induction false} StepsAreBounded(run: seq<State>, steps: seq<Step>, i: nat, j: nat, n: nat)
    requires IsRun(run, steps) && i <= j < |run| && AgentsBelow(run[i], n)
    ensures AgentsBelow(run[j], n)
    ensures Work(run[j], n) + (j - i) <= Work(run[i], n) + 5 * StartsIn(steps, i, j)
    decreases j - i
  {
    if i < j {
      StepsAreBounded(run, steps, i, j - 1, n);
      assert Next(run[j - 1], run[j - 1 + 1], steps[j - 1]);
      match steps[j - 1]
      case Changing(a, st) => ChangeWorks(run[j - 1], run[j], a, st, n);
      case Reading(a, st) => ReadWorks(run[j - 1], run[j], a, st, n);
    }
  }

  // ---------- Someone can take them ----------

  /** The agent can take a step that begins nothing. */
  ghost predicate CanGoOn(s: State, a: Agent) {
    exists s', step :: Next(s, s', step) && !Starts(step) && IsBy(step, a)
  }

  ghost predicate SomeoneCanGoOn(s: State) {
    exists a <- s.agents :: CanGoOn(s, a)
  }

  predicate IsBy(step: Step, a: Agent) {
    step.a == a
  }

  lemma AnnouncerCanGoOn(s: State, a: Agent)
    requires a in s.agents && (s.agents[a].Changed? || s.agents[a].Loaded? || s.agents[a].Stored?)
    ensures CanGoOn(s, a)
  {
    var pc := s.agents[a];
    match pc
    case Changed =>
      assert Next(s, To(s, a, Loaded(s.table)), Changing(a, LoadTable));
    case Loaded(g) =>
      assert Next(s, To(s, a, Stored(g)).(published := Max(s.published, g)), Changing(a, Publish));
    case Stored(g) =>
      var s' := To(s, a, Answering(Passed(s.slots, s.published)))
                .(slots := Left(s.slots, s.published), finished := Max(s.finished, g));
      assert Next(s, s', Changing(a, TakePassed));
  }

  lemma HolderCanGoOn(s: State, a: Agent, r: Read)
    requires a in s.agents && Has(s.agents[a], r) && r in s.offsets
    ensures CanGoOn(s, a)
  {
    var pc := s.agents[a];
    match pc
    case Answering(due) =>
      var s' := To(s, a, Answering(due[1..])).(answered := s.answered + [Answer(due[0], s.published)]);
      assert Next(s, s', Changing(a, AnswerNext));
    case Submitted(_) =>
      var free := FreeSlot(s.slots);
      var s' := if s.published > s.offsets[r] then To(s, a, Holding(r, s.published))
                else if free.Some? then To(s, a, Idle).(slots := s.slots[free.value := Some(Parked(s.offsets[r], r))])
                else To(s, a, Idle).(refused := s.refused + {r});
      assert Next(s, s', Reading(a, Look));
    case Holding(_, generation) =>
      assert Next(s, To(s, a, Idle).(answered := s.answered + [Answer(r, generation)]), Reading(a, AnswerOne));
  }

  /** The table is past what the read asked for, and the read is neither answered nor refused. */
  ghost predicate IsDue(s: State, r: Read) {
    r in s.offsets && s.offsets[r] < s.table && !At(s, r, Done) && !At(s, r, Refused)
  }

  /** Then the agent that has it, or one that is still to look at the parked reads, can go on. */
  lemma DueCanGoOn(run: seq<State>, steps: seq<Step>, i: nat, r: Read)
    requires IsRun(run, steps) && i < |run| && IsDue(run[i], r)
    ensures SomeoneCanGoOn(run[i])
  {
    RunKeepsInv(run, steps, i);
    var s := run[i];
    var home: map<Read, Place> :| Housed(s, home);
    assert At(s, r, home[r]);
    match home[r]
    case InSlot(k) =>
      assert ParkedOk(s, s.slots[k].value);
      var a :| a in s.agents && Announces(s.agents[a], s.table);
      AnnouncerCanGoOn(s, a);
    case With(a) =>
      HolderCanGoOn(s, a, r);
  }

  /**
   A stretch of a run in which a read stays due has no more steps than there is work at its beginning, and five for
   each change or read begun in it; and all through it someone can go on.
   */
  lemma ReadWaitIsBounded(run: seq<State>, steps: seq<Step>, i: nat, j: nat, n: nat, r: Read)
    requires IsRun(run, steps) && i <= j < |run| && AgentsBelow(run[i], n)
    requires forall k :: i <= k <= j ==> IsDue(run[k], r)
    ensures j - i <= Work(run[i], n) + 5 * StartsIn(steps, i, j)
    ensures forall k :: i <= k <= j ==> SomeoneCanGoOn(run[k])
  {
    StepsAreBounded(run, steps, i, j, n);
    forall k | i <= k <= j
      ensures SomeoneCanGoOn(run[k])
    {
      DueCanGoOn(run, steps, k, r);
    }
  }
}
