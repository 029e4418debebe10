/**
 Deferred procedure calls (`kernel/src/dpc.rs`) and the IRP completion list that one of them drains
 (`kernel/src/io/irp.rs`), run by any number of CPUs.

 Each access to a DPC's `queued` flag and each hold of the queue lock or of the `DONE` lock is a
 step. An agent is one activity of a CPU; a handler that enqueues is two agents interleaved.

 `asks` and `served` count, for each DPC, the enqueues made and how many of them had been made when
 its handler last started. `completed` lists the IRPs in the order `complete` appended them, `taken`
 is how many of those have left the `DONE` list, and `finished` the positions of those whose
 `on_complete` has been called.
 */
module Dpc {

  type Agent = nat
  type DpcId = nat
  type Irp = nat

  const DPC_CAPACITY := 64

  /** The one DPC that finishes completed IRPs. */
  const FINISH: DpcId := 0

  datatype Pc =
    | Idle
    | Completing(irp: Irp)
    | Enqueue(d: DpcId)
    | Pushing(d: DpcId)
    | Looking
    | Batch(rest: seq<DpcId>)
    | About(d: DpcId, rest: seq<DpcId>)
    | Handling(d: DpcId, rest: seq<DpcId>)
    | Finishing(irps: seq<Irp>, from: nat, rest: seq<DpcId>)

  datatype State = State(
    dpcs: set<DpcId>,
    queued: set<DpcId>,
    queue: seq<DpcId>,
    agents: map<Agent, Pc>,
    asks: map<DpcId, nat>,
    served: map<DpcId, nat>,
    completed: seq<Irp>,
    taken: nat,
    finished: seq<nat>,
    known: set<Irp>)

  ghost predicate Init(s: State) {
    && FINISH in s.dpcs && |s.dpcs| <= DPC_CAPACITY
    && s.queued == {} && s.queue == []
    && (forall a <- s.agents :: s.agents[a].Idle?)
    && s.asks == s.served == (map d <- s.dpcs :: 0)
    && s.completed == [] && s.taken == 0 && s.finished == [] && s.known == {}
  }

  function To(s: State, a: Agent, pc: Pc): State {
    s.(agents := s.agents[a := pc])
  }

  // ---------- Asking ----------

  datatype AskStep = StartComplete(irp: Irp) | Append | StartEnqueue(d: DpcId) | SwapQueued | Push

  ghost predicate AskNext(s: State, s': State, a: Agent, step: AskStep) {
    && a in s.agents
    && var pc := s.agents[a];
       match step
       case StartComplete(irp) =>
         pc.Idle? && irp !in s.known && s' == To(s, a, Completing(irp)).(known := s.known + {irp})
       case Append =>
         pc.Completing? && s' == To(s, a, Enqueue(FINISH)).(completed := s.completed + [pc.irp])
       case StartEnqueue(d) =>
         pc.Idle? && d in s.dpcs && s' == To(s, a, Enqueue(d))
       case SwapQueued =>
         && pc.Enqueue? && pc.d in s.asks
         && s' == To(s, a, if pc.d in s.queued then Idle else Pushing(pc.d))
                  .(queued := s.queued + {pc.d}, asks := s.asks[pc.d := s.asks[pc.d] + 1])
       case Push =>
         pc.Pushing? && |s.queue| < DPC_CAPACITY && s' == To(s, a, Idle).(queue := s.queue + [pc.d])
  }

  // ---------- Draining ----------

  datatype DrainStep = StartDrain | TakeQueue | Clear | StartHandler | EndHandler | TakeDone | FinishOne | EndFinish

  ghost predicate DrainNext(s: State, s': State, a: Agent, step: DrainStep) {
    && a in s.agents
    && var pc := s.agents[a];
       match step
       case StartDrain =>
         pc.Idle? && s' == To(s, a, Looking)
       case TakeQueue =>
         pc.Looking? && s' == if s.queue == [] then To(s, a, Idle) else To(s, a, Batch(s.queue)).(queue := [])
       case Clear =>
         && pc.Batch?
         && s' == if pc.rest == [] then To(s, a, Looking)
                  else To(s, a, About(pc.rest[0], pc.rest[1..])).(queued := s.queued - {pc.rest[0]})
       case StartHandler =>
         && pc.About? && pc.d in s.asks
         && s' == To(s, a, Handling(pc.d, pc.rest)).(served := s.served[pc.d := s.asks[pc.d]])
       case EndHandler =>
         pc.Handling? && pc.d != FINISH && s' == To(s, a, Batch(pc.rest))
       case TakeDone =>
         && pc.Handling? && pc.d == FINISH && s.taken <= |s.completed|
         && s' == To(s, a, Finishing(s.completed[s.taken..], s.taken, pc.rest)).(taken := |s.completed|)
       case FinishOne =>
         && pc.Finishing? && pc.irps != []
         && s' == To(s, a, Finishing(pc.irps[1..], pc.from + 1, pc.rest)).(finished := s.finished + [pc.from])
       case EndFinish =>
         pc.Finishing? && pc.irps == [] && s' == To(s, a, Batch(pc.rest))
  }

  datatype Step = Asking(a: Agent, ask: AskStep) | Draining(a: Agent, drain: DrainStep)

  ghost predicate Next(s: State, s': State, step: Step) {
    match step
    case Asking(a, st) => AskNext(s, s', a, st)
    case Draining(a, st) => DrainNext(s, s', a, st)
  }

  ghost predicate IsRun(run: seq<State>, steps: seq<Step>) {
    && |run| == |steps| + 1
    && Init(run[0])
    && forall i {:trigger steps[i]} :: 0 <= i < |steps| ==> Next(run[i], run[i + 1], steps[i])
  }
}
