/**
 An exit sweep from its start to its end, over any run: it leaves its process nothing, whatever else went
 on, and takes nothing of anyone else's.
 */
module HandleTableSweeps {
  import opened HandleTable
  import opened HandleTableSafety
  import opened HandleTableHistory
  import opened HandleTableTheorems
  import opened HandleTableRights

  /** The agent is sweeping for `pid`, since `start` installs had happened. */
  predicate Sweeping(pc: Pc, pid: Pid, start: nat) {
    SweepView(pc).View? && SweepView(pc).pid == pid && SweepView(pc).start == start
  }

  lemma StepMoves(s: State, s': State, step: Step)
    requires LockInv(s) && Next(s, s', step)
    ensures Moves(s, s', step.a)
  {
    match step.family
    case Refs(st) => RefFrame(s, s', step.a, st);
    case Start(st) => StartFrame(s, s', step.a, st);
    case Sectioning(st) => SectionFrame(s, s', step.a, st);
    case Snap(st) => SnapFrame(s, s', step.a, st);
    case Draining(st) => DrainFrame(s, s', step.a, st);
    case Room(st) => RoomFrame(s, s', step.a, st);
    case Pick(st) => PickFrame(s, s', step.a, st);
    case Store(st) => StoreFrame(s, s', step.a, st);
    case Grace(st) => GraceFrame(s, s', step.a, st);
  }

  lemma PickGoesOn(s: State, s': State, a: Agent, step: PickStep, pid: Pid, start: nat)
    requires a in s.agents && Sweeping(s.agents[a], pid, start) && PickNext(s, s', a, step)
    ensures a in s'.agents && Sweeping(s'.agents[a], pid, start)
  {}

  lemma StoreGoesOn(s: State, s': State, a: Agent, step: StoreStep, pid: Pid, start: nat)
    requires a in s.agents && Sweeping(s.agents[a], pid, start) && StoreNext(s, s', a, step)
    ensures a in s'.agents && Sweeping(s'.agents[a], pid, start)
  {}

  lemma RefGoesOn(s: State, s': State, a: Agent, step: RefStep, pid: Pid, start: nat)
    requires a in s.agents && Sweeping(s.agents[a], pid, start) && RefNext(s, s', a, step)
    ensures a in s'.agents && Sweeping(s'.agents[a], pid, start)
  {}

  /** A sweeper is not where a call begins, where a lookup is, or where an install makes room. */
  lemma SweeperIsElsewhere(s: State, s': State, step: Step, pid: Pid, start: nat)
    requires step.a in s.agents && Sweeping(s.agents[step.a], pid, start) && Next(s, s', step)
    ensures !step.family.Start? && !step.family.Sectioning? && !step.family.Snap? && !step.family.Room?
  {}

  lemma OwnGoesOn(s: State, s': State, step: Step, pid: Pid, start: nat)
    requires step.a in s.agents && Sweeping(s.agents[step.a], pid, start) && Next(s, s', step)
    ensures step.a in s'.agents && Sweeping(s'.agents[step.a], pid, start)
  {
    SweeperIsElsewhere(s, s', step, pid, start);
    match step.family
    case Refs(st) => RefGoesOn(s, s', step.a, st, pid, start);
    case Draining(st) => DrainKeepsView(s, s', step.a, st);
    case Pick(st) => PickGoesOn(s, s', step.a, st, pid, start);
    case Store(st) => StoreGoesOn(s, s', step.a, st, pid, start);
    case Grace(st) => GraceKeepsView(s, s', step.a, st);
    case _ =>
  }

  lemma StepGoesOn(s: State, s': State, step: Step, a: Agent, pid: Pid, start: nat)
    requires Moves(s, s', step.a) && Next(s, s', step) && a in s.agents && Sweeping(s.agents[a], pid, start)
    ensures a in s'.agents && Sweeping(s'.agents[a], pid, start)
  {
    if step.a == a {
      OwnGoesOn(s, s', step, pid, start);
    }
  }

  lemma RunGoesOn(run: seq<State>, steps: seq<Step>, i: nat, a: Agent, pid: Pid, start: nat)
    requires IsRun(run, steps) && i < |steps| && a in run[i].agents && Sweeping(run[i].agents[a], pid, start)
    ensures a in run[i + 1].agents && Sweeping(run[i + 1].agents[a], pid, start)
  {
    RunKeepsInv(run, steps, i);
    RunStep(run, steps, i);
    StepMoves(run[i], run[i + 1], steps[i]);
    StepGoesOn(run[i], run[i + 1], steps[i], a, pid, start);
  }

  ghost predicate BeginsSweep(steps: seq<Step>, i: nat, a: Agent, pid: Pid) {
    i < |steps| && steps[i] == Step(a, Start(StartSweep(pid)))
  }

  lemma SweepBegins(run: seq<State>, steps: seq<Step>, i: nat, a: Agent, pid: Pid)
    requires IsRun(run, steps) && BeginsSweep(steps, i, a, pid)
    ensures a in run[i + 1].agents && Sweeping(run[i + 1].agents[a], pid, |run[i].installs|)
  {
    RunStep(run, steps, i);
    assert StartNext(run[i], run[i + 1], a, StartSweep(pid));
  }

  lemma {:induction false} StaysSweeping(
    run: seq<State>, steps: seq<Step>, i: nat, j: nat, a: Agent, pid: Pid, start: nat)
    requires IsRun(run, steps) && i <= j < |run| && a in run[i].agents && Sweeping(run[i].agents[a], pid, start)
    ensures a in run[j].agents && Sweeping(run[j].agents[a], pid, start)
    decreases j - i
  {
    if i < j {
      StaysSweeping(run, steps, i, j - 1, a, pid, start);
      RunGoesOn(run, steps, j - 1, a, pid, start);
    }
  }

  lemma SweepGoesOn(run: seq<State>, steps: seq<Step>, i: nat, j: nat, a: Agent, pid: Pid)
    requires IsRun(run, steps) && BeginsSweep(steps, i, a, pid) && i < j < |run|
    ensures a in run[j].agents && Sweeping(run[j].agents[a], pid, |run[i].installs|)
  {
    SweepBegins(run, steps, i, a, pid);
    StaysSweeping(run, steps, i + 1, j, a, pid, |run[i].installs|);
  }

  // ---------- Each entry once ----------

  /** Step `k` takes issue `n` of `slot` out of the table. */
  ghost predicate TakesOut(run: seq<State>, k: nat, slot: Slot, n: nat) {
    k + 1 < |run| && (slot, n) !in run[k].out && (slot, n) in run[k + 1].out
  }

  lemma {:induction false} OutBetween(run: seq<State>, i: nat, j: nat, slot: Slot, n: nat) returns (k: nat)
    requires i <= j < |run| && (slot, n) !in run[i].out && (slot, n) in run[j].out
    ensures i <= k < j && TakesOut(run, k, slot, n)
    decreases j
  {
    if (slot, n) in run[j - 1].out {
      k := OutBetween(run, i, j - 1, slot, n);
    } else {
      k := j - 1;
    }
  }

  lemma OnlyOnce(run: seq<State>, steps: seq<Step>, k: nat, l: nat, slot: Slot, n: nat)
    requires IsRun(run, steps) && TakesOut(run, k, slot, n) && TakesOut(run, l, slot, n)
    ensures k == l
  {
    if k < l {
      OutOnlyGrows(run, steps, k + 1, l);
    } else if l < k {
      OutOnlyGrows(run, steps, l + 1, k);
    }
  }

  lemma LiveIsIssued(run: seq<State>, steps: seq<Step>, i: nat, slot: Slot)
    requires IsRun(run, steps) && i < |run| && slot < |run[i].entries| && run[i].entries[slot].ptr.At?
    ensures 1 <= run[i].entries[slot].issues
  {
    RunKeepsInv(run, steps, i);
  }

  /** At a sweep's end its process has nothing. */
  lemma EmptyAtTheEnd(run: seq<State>, steps: seq<Step>, i: nat, j: nat, a: Agent, pid: Pid, slot: Slot)
    requires IsRun(run, steps) && BeginsSweep(steps, i, a, pid) && i < j < |steps|
    requires steps[j] == Step(a, Pick(SweepEnd)) && NoneInstalled(run[j], pid, |run[i].installs|)
    requires slot < |run[j + 1].entries|
    ensures !Swept(run[j + 1].entries[slot], pid)
  {
    SweepGoesOn(run, steps, i, j, a, pid);
    SweepEmptiesTheProcess(run, steps, j, slot);
  }

  /** At a sweep's end, what was live for its process at the start is out. */
  lemma GoneAtTheEnd(run: seq<State>, steps: seq<Step>, i: nat, j: nat, a: Agent, pid: Pid, slot: Slot)
    requires IsRun(run, steps) && BeginsSweep(steps, i, a, pid) && i < j < |steps|
    requires steps[j] == Step(a, Pick(SweepEnd)) && NoneInstalled(run[j], pid, |run[i].installs|)
    requires slot < |run[i].entries| && Swept(run[i].entries[slot], pid)
    ensures var n := run[i].entries[slot].issues; (slot, n) !in run[i].out && (slot, n) in run[j + 1].out
  {
    var n := run[i].entries[slot].issues;
    LiveIsIssued(run, steps, i, slot);
    IssuesOnlyGrow(run, steps, i, j + 1, slot);
    EmptyAtTheEnd(run, steps, i, j, a, pid, slot);
    IssuedIsLiveOrOut(run, steps, i, slot, n);
    IssuedIsLiveOrOut(run, steps, j + 1, slot, n);
    if SameIssue(run[i].entries[slot], run[j + 1].entries[slot]) {
      RightsOnlyShrink(run, steps, i, j + 1, slot);
    }
  }

  lemma NeverAgain(run: seq<State>, steps: seq<Step>, k: nat, slot: Slot, n: nat)
    requires IsRun(run, steps) && TakesOut(run, k, slot, n)
    ensures forall l: nat :: TakesOut(run, l, slot, n) ==> l == k
  {
    forall l: nat | TakesOut(run, l, slot, n)
      ensures l == k
    {
      OnlyOnce(run, steps, k, l, slot, n);
    }
  }

  /**
   Between the start and the end of a sweep, every entry its process had at the start is taken out by
   exactly one step of the run, if nothing was installed for the process meanwhile.
   */
  lemma SweepTakesEachOnce(run: seq<State>, steps: seq<Step>, i: nat, j: nat, a: Agent, pid: Pid, slot: Slot)
    returns (k: nat)
    requires IsRun(run, steps) && BeginsSweep(steps, i, a, pid) && i < j < |steps|
    requires steps[j] == Step(a, Pick(SweepEnd)) && NoneInstalled(run[j], pid, |run[i].installs|)
    requires slot < |run[i].entries| && Swept(run[i].entries[slot], pid)
    ensures var n := run[i].entries[slot].issues;
            && i <= k <= j && TakesOut(run, k, slot, n)
            && forall l: nat :: TakesOut(run, l, slot, n) ==> l == k
  {
    var n := run[i].entries[slot].issues;
    GoneAtTheEnd(run, steps, i, j, a, pid, slot);
    k := OutBetween(run, i, j + 1, slot, n);
    NeverAgain(run, steps, k, slot, n);
  }

  /** And whatever the sweeper itself takes out, at any time, is a live entry of the process it sweeps. */
  lemma SweepTakesNoOther(run: seq<State>, steps: seq<Step>, i: nat, k: nat, a: Agent, pid: Pid)
    requires IsRun(run, steps) && BeginsSweep(steps, i, a, pid) && i < k < |steps|
    requires steps[k] == Step(a, Store(StorePtr))
    ensures a in run[k].agents && run[k].agents[a].Under? && run[k].agents[a].work.Window?
    ensures var w := run[k].agents[a].work.w;
            && w.slot < |run[k].entries| && Swept(run[k].entries[w.slot], pid)
            && run[k + 1].out == run[k].out + {(w.slot, run[k].entries[w.slot].issues)}
  {
    SweepGoesOn(run, steps, i, k, a, pid);
    SweepTakesOnlyItsOwn(run, steps, k);
    RunStep(run, steps, k);
    assert StoreNext(run[k], run[k + 1], a, StorePtr);
  }
}
