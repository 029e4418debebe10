/**
 One AHCI port (`kernel/src/drivers/ahci.rs`): a single hardware command slot, the software queue in
 front of it, and the fault, recover and give-up paths, run by any number of CPUs.

 Every hold of the port lock is one step; so is each thing a CPU does between two holds. The
 controller is a slot that is running a command or not: it may finish at any moment, may report a
 fatal error at any interrupt, and may or may not stop when told to. `running` is `PxCI`'s bit 0.
 A forced claim may come at any time, and so may the watch thread's timeout, since a deadline may pass at any time.
 */
module Ahci {
  import opened Common

  type Irp = nat
  type Agent = nat

  const PENDING_DEPTH := 32

  datatype Fault = Clear | Faulted | Recovering

  /** What a CPU does once it has completed the IRP it holds. */
  datatype After = Return | Drain | AskForDrain

  datatype Pc =
    | Idle
    | Submitting(irp: Irp)
    | Hold(irp: Irp, after: After)
    | Asking
    | Draining
    | Stopping(slot: Option<Irp>)
    | Restarting(slot: Option<Irp>)
    | GivingUp(slot: Option<Irp>)
    | Refunding(queue: seq<Irp>)
    | Reporting
    | Signalling
    | Woken
    | Claiming

  /**
   `PortState`, the controller's slot, the flags of the drain and the fault DPC, how many wakes of the watch thread are
   pending, every CPU, and what has been submitted and completed.
   */
  datatype State = State(
    queue: seq<Irp>,
    slot: Option<Irp>,
    fault: Fault,
    dead: bool,
    running: Option<Irp>,
    dpc: bool,
    faultDpc: bool,
    wake: nat,
    agents: map<Agent, Pc>,
    submitted: set<Irp>,
    done: seq<Irp>)

  ghost predicate Init(s: State) {
    && s.queue == [] && s.slot.None? && s.fault.Clear? && !s.dead && s.running.None?
    && !s.dpc && !s.faultDpc && s.wake == 0
    && (forall a <- s.agents :: s.agents[a].Idle?)
    && s.submitted == {} && s.done == []
  }

  function To(s: State, a: Agent, pc: Pc): State {
    s.(agents := s.agents[a := pc])
  }

  function Resume(after: After): Pc {
    match after
    case Return => Idle
    case Drain => Draining
    case AskForDrain => Asking
  }

  /** `issue_locked`: the command goes to the controller, if the operation has one. */
  function Issue(s: State, irp: Irp): State {
    s.(slot := Some(irp), running := Some(irp))
  }

  /** `take_retired`, under the lock: the slot's IRP if the port is clear and the controller is done with it. */
  predicate Retires(s: State) {
    s.fault.Clear? && s.running.None? && s.slot.Some?
  }

  function Retire(s: State, a: Agent, after: After): State
    requires s.slot.Some?
  {
    To(s, a, Hold(s.slot.value, after)).(slot := None)
  }

  // ---------- Submitting and completing ----------

  datatype IoStep =
    | Submit(irp: Irp)
    | Refuse
    | Enter(hasCommand: bool)
    | Complete
    | Interrupt(fatal: bool)
    | Poll

  ghost predicate IoNext(s: State, s': State, a: Agent, step: IoStep) {
    && a in s.agents
    && var pc := s.agents[a];
       match step
       case Submit(irp) =>
         pc.Idle? && irp !in s.submitted && s' == To(s, a, Submitting(irp)).(submitted := s.submitted + {irp})
       case Refuse =>
         pc.Submitting? && s' == To(s, a, Hold(pc.irp, Return))
       case Enter(hasCommand) =>
         && pc.Submitting?
         && s' == if !s.dead && s.slot.None? && s.fault.Clear? && hasCommand then Issue(To(s, a, Idle), pc.irp)
                  else if !s.dead && !(s.slot.None? && s.fault.Clear?) && |s.queue| < PENDING_DEPTH
                    then To(s, a, Idle).(queue := s.queue + [pc.irp])
                  else To(s, a, Hold(pc.irp, Return))
       case Complete =>
         pc.Hold? && s' == To(s, a, Resume(pc.after)).(done := s.done + [pc.irp])
       case Interrupt(fatal) =>
         && pc.Idle?
         && s' == if fatal && s.fault.Clear? then To(s, a, Reporting).(fault := Faulted)
                  else if Retires(s) then Retire(s, a, AskForDrain)
                  else s
       case Poll =>
         pc.Idle? && s' == if Retires(s) then Retire(s, a, Drain) else s
  }

  // ---------- The drain ----------

  datatype DrainStep = Ask | RunDpc | StartDrain | DrainOne(hasCommand: bool)

  ghost predicate DrainNext(s: State, s': State, a: Agent, step: DrainStep) {
    && a in s.agents
    && var pc := s.agents[a];
       match step
       case Ask => pc.Asking? && s' == To(s, a, Idle).(dpc := true)
       case RunDpc => pc.Idle? && s.dpc && s' == To(s, a, Draining).(dpc := false)
       case StartDrain => pc.Idle? && s' == To(s, a, Draining)
       case DrainOne(hasCommand) =>
         && pc.Draining?
         && s' == if s.slot.Some? || !s.fault.Clear? || s.queue == [] then To(s, a, Idle)
                  else if hasCommand then Issue(To(s, a, Idle).(queue := s.queue[1..]), s.queue[0])
                  else To(s, a, Hold(s.queue[0], Drain)).(queue := s.queue[1..])
  }

  // ---------- Recovery ----------

  datatype RecoverStep = Claim | Stop | StopFails | Restart | GiveUp | Refund

  ghost predicate RecoverNext(s: State, s': State, a: Agent, step: RecoverStep) {
    && a in s.agents
    && var pc := s.agents[a];
       match step
       case Claim =>
         pc.Idle? && !s.fault.Recovering? && s' == To(s, a, Stopping(s.slot)).(fault := Recovering)
       case Stop =>
         pc.Stopping? && s' == To(s, a, Restarting(pc.slot)).(running := None)
       case StopFails =>
         pc.Stopping? && s' == To(s, a, GivingUp(pc.slot))
       case Restart =>
         && pc.Restarting?
         && s' == To(s, a, if pc.slot.Some? then Hold(pc.slot.value, Drain) else Draining)
                  .(slot := None, fault := Clear)
       case GiveUp =>
         pc.GivingUp? && s' == To(s, a, Refunding(s.queue)).(queue := [], dead := true)
       case Refund =>
         && pc.Refunding?
         && s' == if pc.queue == [] then To(s, a, Idle)
                  else To(s, a, Refunding(pc.queue[1..])).(done := s.done + [pc.queue[0]])
  }

  // ---------- The watch thread ----------

  datatype WatchStep = Report | RunFaultDpc | Signal | WakeUp | TimeOut | Consume | TryClaim(overdue: bool)

  /** From the report of a fault to the wake of the watch thread, and from its wake or its timeout to its claim. */
  ghost predicate WatchNext(s: State, s': State, a: Agent, step: WatchStep) {
    && a in s.agents
    && var pc := s.agents[a];
       match step
       case Report => pc.Reporting? && s' == To(s, a, Idle).(faultDpc := true)
       case RunFaultDpc => pc.Idle? && s.faultDpc && s' == To(s, a, Signalling).(faultDpc := false)
       case Signal => pc.Signalling? && s' == To(s, a, Idle).(wake := s.wake + 1)
       case WakeUp => pc.Idle? && s.wake > 0 && s' == To(s, a, Woken)
       case TimeOut => pc.Idle? && s' == To(s, a, Claiming)
       case Consume => pc.Woken? && s' == To(s, a, Claiming).(wake := if s.wake > 0 then s.wake - 1 else 0)
       case TryClaim(overdue) =>
         && pc.Claiming?
         && s' == if s.fault.Faulted? || (s.fault.Clear? && s.slot.Some? && overdue)
                    then To(s, a, Stopping(s.slot)).(fault := Recovering)
                  else To(s, a, Idle)
  }

  // ---------- Runs ----------

  /** A step of a CPU, or the controller finishing its command. */
  datatype Step =
    | Io(a: Agent, io: IoStep)
    | Queue(a: Agent, drain: DrainStep)
    | Recover(a: Agent, recover: RecoverStep)
    | Watch(a: Agent, watch: WatchStep)
    | Finish

  ghost predicate Next(s: State, s': State, step: Step) {
    match step
    case Io(a, st) => IoNext(s, s', a, st)
    case Queue(a, st) => DrainNext(s, s', a, st)
    case Recover(a, st) => RecoverNext(s, s', a, st)
    case Watch(a, st) => WatchNext(s, s', a, st)
    case Finish => s' == s.(running := None)
  }

  ghost predicate IsRun(run: seq<State>, steps: seq<Step>) {
    && |run| == |steps| + 1
    && Init(run[0])
    && forall i {:trigger steps[i]} :: 0 <= i < |steps| ==> Next(run[i], run[i + 1], steps[i])
  }

  // ---------- The queue in memory ----------

  /** `PendingRing`: a queue kept in an array of `PENDING_DEPTH` places. */
  class PendingRing {
    const ring: array<Irp>
    var head: nat
    var len: nat

    ghost predicate Valid()
      reads this
    {
      ring.Length == PENDING_DEPTH && head < PENDING_DEPTH && len <= PENDING_DEPTH
    }

    /** The IRPs queued, first in first. */
    ghost function Contents(): seq<Irp>
      requires Valid()
      reads this, ring
    {
      seq(len, i requires 0 <= i < len reads this, ring requires Valid() => ring[(head + i) % PENDING_DEPTH])
    }

    constructor ()
      ensures Valid() && Contents() == [] && fresh(ring)
    {
      ring := new Irp[PENDING_DEPTH](_ => 0);
      head, len := 0, 0;
    }

    method Push(irp: Irp) returns (ok: bool)
      requires Valid()
      modifies this, ring
      ensures Valid() && ok == (|old(Contents())| < PENDING_DEPTH)
      ensures Contents() == if ok then old(Contents()) + [irp] else old(Contents())
    {
      if len == PENDING_DEPTH {
        return false;
      }
      var tail := (head + len) % PENDING_DEPTH;
      ring[tail] := irp;
      len := len + 1;
      ok := true;
    }

    method Pop() returns (irp: Option<Irp>)
      requires Valid()
      modifies this
      ensures Valid()
      ensures old(Contents()) == [] ==> irp.None? && Contents() == []
      ensures old(Contents()) != [] ==> irp == Some(old(Contents())[0]) && Contents() == old(Contents())[1..]
    {
      if len == 0 {
        return None;
      }
      irp := Some(ring[head]);
      head := (head + 1) % PENDING_DEPTH;
      len := len - 1;
    }
  }
}
