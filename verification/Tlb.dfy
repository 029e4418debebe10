/**
 Cross-CPU TLB shootdown (`kernel/src/tlb.rs`) with any number of initiators and CPUs, down to the
 translations each CPU caches.

 Each load and store of the request block, of `ACKED` and of the online mask is a step, and so is
 each CPU's walk of the page tables. A translation is named by a stamp: editing a page-table entry
 gives it a stamp newer than any before, so "stale" is "older than". A CPU enters the online set with
 nothing cached and never re-enters it after it has left; a CPU that has left may still take an
 interrupt that was on its way.

 `invalidated` records the CPUs that have invalidated for the current request since it was published.
 */
module Tlb {

  type Cpu = nat
  type Agent = nat
  type Va = nat
  type Stamp = nat

  /** One page, or everything. */
  datatype What = All | Page(va: Va)

  /** How far an initiator that holds the lock has come. */
  datatype Phase = StoreAll | StoreVa | Reset | Sending(todo: set<Cpu>) | Waiting | Deciding(seen: set<Cpu>)

  /** `floor` is the page tables' stamps when the call was made. */
  datatype Pc =
    | Idle
    | Called(what: What, floor: map<Va, Stamp>, me: Cpu)
    | Sampled(what: What, floor: map<Va, Stamp>, me: Cpu, targets: set<Cpu>)
    | Holding(what: What, floor: map<Va, Stamp>, me: Cpu, targets: set<Cpu>, phase: Phase)
    | Returned(what: What, floor: map<Va, Stamp>, me: Cpu, targets: set<Cpu>)

  /** Where a CPU is in its interrupt handler. */
  datatype Handler = Off | Entered | GotAll | GotRequest(what: What) | Invalidated(what: What)

  datatype Lock = Open | Held(agent: Agent)

  datatype State = State(
    pt: map<Va, Stamp>,
    present: set<Va>,
    clock: Stamp,
    tlb: map<Cpu, map<Va, Stamp>>,
    online: set<Cpu>,
    departed: set<Cpu>,
    pending: set<Cpu>,
    handlers: map<Cpu, Handler>,
    lock: Lock,
    reqAll: bool,
    reqVa: Va,
    acked: set<Cpu>,
    agents: map<Agent, Pc>,
    invalidated: set<Cpu>)

  predicate Covers(what: What, va: Va) {
    what.All? || what.va == va
  }

  /** What is left of a TLB once `what` has been invalidated. */
  function Invalidate(tlb: map<Va, Stamp>, what: What): map<Va, Stamp> {
    map va <- tlb | !Covers(what, va) :: tlb[va]
  }

  function Cache(tlb: map<Va, Stamp>, va: Va, stamp: Stamp): map<Va, Stamp> {
    tlb[va := stamp]
  }

  /** `wait_satisfied`: every target has acknowledged or left. */
  predicate WaitSatisfied(targets: set<Cpu>, acked: set<Cpu>, stillOnline: set<Cpu>) {
    (targets - acked) * stillOnline == {}
  }

  ghost predicate Init(s: State) {
    && (forall va <- s.pt :: s.pt[va] < s.clock)
    && s.tlb.Keys == s.handlers.Keys && s.online == {} && s.departed == {} && s.pending == {}
    && (forall c <- s.handlers :: s.handlers[c].Off?)
    && s.lock.Open? && s.acked == {}
    && (forall a <- s.agents :: s.agents[a].Idle?)
  }

  // ---------- Memory and CPUs ----------

  datatype MemStep =
    | Edit(va: Va, present: bool)
    | Fill(c: Cpu, va: Va)
    | Join(c: Cpu)
    | Leave(c: Cpu)

  ghost predicate MemNext(s: State, s': State, step: MemStep) {
    match step
    case Edit(va, present) =>
      && va in s.pt
      && s' == s.(pt := s.pt[va := s.clock], clock := s.clock + 1,
                  present := if present then s.present + {va} else s.present - {va})
    case Fill(c, va) =>
      c in s.tlb && va in s.pt && va in s.present && s' == s.(tlb := s.tlb[c := Cache(s.tlb[c], va, s.pt[va])])
    case Join(c) =>
      && c in s.tlb && c !in s.online && c !in s.departed && c !in s.pending && c in s.handlers && s.handlers[c].Off?
      && s' == s.(online := s.online + {c}, tlb := s.tlb[c := map[]])
    case Leave(c) =>
      c in s.online && s' == s.(online := s.online - {c}, departed := s.departed + {c})
  }

  /** `on_ipi` on one CPU. */
  datatype IpiStep = Enter | LoadAll | LoadVa | Flush | Ack

  ghost predicate IpiNext(s: State, s': State, c: Cpu, step: IpiStep) {
    && c in s.handlers && c in s.tlb
    && var h := s.handlers[c];
       match step
       case Enter =>
         h.Off? && c in s.pending && s' == s.(pending := s.pending - {c}, handlers := s.handlers[c := Entered])
       case LoadAll =>
         h.Entered? && s' == s.(handlers := s.handlers[c := if s.reqAll then GotRequest(All) else GotAll])
       case LoadVa =>
         h.GotAll? && s' == s.(handlers := s.handlers[c := GotRequest(Page(s.reqVa))])
       case Flush =>
         && h.GotRequest?
         && s' == s.(tlb := s.tlb[c := Invalidate(s.tlb[c], h.what)], handlers := s.handlers[c := Invalidated(h.what)],
                     invalidated := s.invalidated + {c})
       case Ack =>
         h.Invalidated? && s' == s.(acked := s.acked + {c}, handlers := s.handlers[c := Off])
  }

  // ---------- An initiator ----------

  datatype CallStep =
    | Call(what: What, me: Cpu)
    | Sample
    | FlushAlone
    | Acquire
    | PutAll
    | PutVa
    | ResetAcked
    | Send(c: Cpu)
    | SentAll
    | LoadAcked
    | LoadOnline
    | Return

  function To(s: State, a: Agent, pc: Pc): State {
    s.(agents := s.agents[a := pc])
  }

  ghost predicate CallNext(s: State, s': State, a: Agent, step: CallStep) {
    && a in s.agents
    && var pc := s.agents[a];
       match step
       case Call(what, me) =>
         pc.Idle? && me in s.tlb && s' == To(s, a, Called(what, s.pt, me))
       case Sample =>
         pc.Called? && s' == To(s, a, Sampled(pc.what, pc.floor, pc.me, s.online))
       case FlushAlone =>
         && pc.Sampled? && pc.targets - {pc.me} == {} && pc.me in s.tlb
         && s' == To(s, a, Returned(pc.what, pc.floor, pc.me, pc.targets))
                  .(tlb := s.tlb[pc.me := Invalidate(s.tlb[pc.me], pc.what)])
       case Acquire =>
         && pc.Sampled? && pc.targets - {pc.me} != {} && s.lock.Open?
         && s' == To(s, a, Holding(pc.what, pc.floor, pc.me, pc.targets, StoreAll)).(lock := Held(a))
       case PutAll =>
         && pc.Holding? && pc.phase.StoreAll?
         && s' == To(s, a, pc.(phase := StoreVa)).(reqAll := pc.what.All?)
       case PutVa =>
         && pc.Holding? && pc.phase.StoreVa?
         && s' == To(s, a, pc.(phase := Reset)).(reqVa := if pc.what.All? then 0 else pc.what.va)
       case ResetAcked =>
         && pc.Holding? && pc.phase.Reset?
         && s' == To(s, a, pc.(phase := Sending(pc.targets))).(acked := {}, invalidated := {})
       case Send(c) =>
         && pc.Holding? && pc.phase.Sending? && c in pc.phase.todo
         && s' == To(s, a, pc.(phase := Sending(pc.phase.todo - {c}))).(pending := s.pending + {c})
       case SentAll =>
         pc.Holding? && pc.phase.Sending? && pc.phase.todo == {} && s' == To(s, a, pc.(phase := Waiting))
       case LoadAcked =>
         pc.Holding? && pc.phase.Waiting? && s' == To(s, a, pc.(phase := Deciding(s.acked)))
       case LoadOnline =>
         && pc.Holding? && pc.phase.Deciding?
         && s' == if WaitSatisfied(pc.targets, pc.phase.seen, s.online)
                  then To(s, a, Returned(pc.what, pc.floor, pc.me, pc.targets)).(lock := Open)
                  else To(s, a, pc.(phase := Waiting))
       case Return =>
         pc.Returned? && s' == To(s, a, Idle)
  }

  // ---------- Runs ----------

  datatype Step = Mem(mem: MemStep) | Ipi(c: Cpu, ipi: IpiStep) | Initiate(a: Agent, call: CallStep)

  ghost predicate Next(s: State, s': State, step: Step) {
    match step
    case Mem(st) => MemNext(s, s', st)
    case Ipi(c, st) => IpiNext(s, s', c, st)
    case Initiate(a, st) => CallNext(s, s', a, st)
  }

  ghost predicate IsRun(run: seq<State>, steps: seq<Step>) {
    && |run| == |steps| + 1
    && Init(run[0])
    && forall i {:trigger steps[i]} :: 0 <= i < |steps| ==> Next(run[i], run[i + 1], steps[i])
  }
}
