/**
 The context switch of `kernel/src/sched.rs` as a state machine over any number of CPUs.

 The scheduler's lists change only under the `SCHED` lock. A thread's parked context (its saved
 stack pointer and its floating-point image) and its `on_cpu` guard do not: the CPU switching a
 thread out writes them after it has released the lock, one store at a time. Those stores, and
 every read of them, are steps of their own here.

 `last` records, for each thread, the register contents it stopped with; it steers nothing.
 */
module Sched {

  type Cpu = nat
  type Thread = nat

  /** What a thread resumes with: its kernel stack pointer and its floating-point registers. */
  datatype Context = Context(sp: nat, fp: nat)

  /** The lists and slots of the scheduler that can hold a thread. */
  datatype List =
    | Ready(cpu: Cpu)
    | Blocked
    | Suspended
    | Reaper
    | Reap(cpu: Cpu)
    | IdleSlot(cpu: Cpu)
    | Current(cpu: Cpu)

  /** How far a switch has come. Up to `Guarded` the CPU still holds `SCHED`. */
  datatype Phase = Waiting | Loaded | Guarded | Released | Saved | Restored | Committed | Cleared

  datatype Pc =
    | Running(t: Thread)
    | Locked(t: Thread)
    | Switch(out: Thread, next: Thread, sp: nat, phase: Phase)

  datatype Lock = Open | Held(cpu: Cpu)

  /** `guard` is the set of threads whose `on_cpu` is set; `freed` those whose stack is gone. */
  datatype State = State(
    lists: map<List, set<Thread>>,
    lock: Lock,
    guard: set<Thread>,
    sp: map<Thread, nat>,
    fp: map<Thread, nat>,
    regs: map<Cpu, Context>,
    cpus: map<Cpu, Pc>,
    idle: map<Cpu, Thread>,
    freed: set<Thread>,
    last: map<Thread, Context>)

  // ---------- Lists ----------

  function On(lists: map<List, set<Thread>>, l: List): set<Thread> {
    if l in lists then lists[l] else {}
  }

  function Add(lists: map<List, set<Thread>>, l: List, t: Thread): map<List, set<Thread>> {
    lists[l := On(lists, l) + {t}]
  }

  function Remove(lists: map<List, set<Thread>>, l: List, t: Thread): map<List, set<Thread>> {
    lists[l := On(lists, l) - {t}]
  }

  function Move(lists: map<List, set<Thread>>, t: Thread, from: List, to: List): map<List, set<Thread>> {
    Add(Remove(lists, from, t), to, t)
  }

  // ---------- Steps ----------

  /** Code outside the switch, each a critical section of its own where it takes the lock. */
  datatype OutsideStep =
    | Work(ctx: Context)
    | Wake(t: Thread, from: List, to: Cpu)
    | Spawn(t: Thread, to: Cpu, ctx: Context)
    | Free(t: Thread)
    | Acquire

  /** `switch_away` and `switch_into` up to the release of the lock. */
  datatype LockedStep = GiveUp | Pick(next: Thread, from: List, park: List) | Load | Guard | Release

  /** `switch_into` from there on. */
  datatype ReleasedStep = Save | Restore | Commit(sp: nat) | Clear | Jump

  datatype Step = Outside(outside: OutsideStep) | Locking(locking: LockedStep) | Releasing(releasing: ReleasedStep)

  /** Where CPU `c` may take its next thread: its queue, a peer's if the guard is clear, its idle slot. */
  predicate MayPick(s: State, c: Cpu, next: Thread, from: List) {
    && next in On(s.lists, from)
    && (from == Ready(c) || from == IdleSlot(c) || (from.Ready? && next !in s.guard))
  }

  /** Where CPU `c` may park `prev`; the idle thread only ever goes back to its slot. */
  predicate MayPark(s: State, c: Cpu, prev: Thread, to: List) {
    if c in s.idle && prev == s.idle[c] then to == IdleSlot(c)
    else to in {Ready(c), Blocked, Suspended, Reap(c), Reaper}
  }

  ghost predicate OutsideNext(s: State, s': State, c: Cpu, step: OutsideStep) {
    && c in s.cpus && s.cpus[c].Running?
    && var t := s.cpus[c].t;
       match step
       case Work(ctx) =>
         s' == s.(regs := s.regs[c := ctx], last := s.last[t := ctx])
       case Wake(u, from, to) =>
         && s.lock.Open? && from in {Blocked, Suspended, Reaper} && u in On(s.lists, from)
         && s' == s.(lists := Move(s.lists, u, from, Ready(to)))
       case Spawn(u, to, ctx) =>
         && s.lock.Open? && u !in s.last
         && s' == s.(lists := Add(s.lists, Ready(to), u),
                     sp := s.sp[u := ctx.sp], fp := s.fp[u := ctx.fp], last := s.last[u := ctx])
       case Free(u) =>
         && s.lock.Open? && u in On(s.lists, Reap(c))
         && s' == s.(lists := Remove(s.lists, Reap(c), u), freed := s.freed + {u})
       case Acquire =>
         s.lock.Open? && s' == s.(lock := Held(c), cpus := s.cpus[c := Locked(t)])
  }

  ghost predicate LockedNext(s: State, s': State, c: Cpu, step: LockedStep) {
    && c in s.cpus
    && var pc := s.cpus[c];
       match step
       case GiveUp =>
         pc.Locked? && s' == s.(lock := Open, cpus := s.cpus[c := Running(pc.t)])
       case Pick(next, from, to) =>
         && pc.Locked? && MayPick(s, c, next, from) && MayPark(s, c, pc.t, to)
         && s' == s.(lists := Move(Move(s.lists, pc.t, Current(c), to), next, from, Current(c)),
                     cpus := s.cpus[c := Switch(pc.t, next, 0, Waiting)])
       case Load =>
         && pc.Switch? && pc.phase.Waiting? && pc.next !in s.guard && pc.next in s.sp
         && s' == s.(cpus := s.cpus[c := pc.(sp := s.sp[pc.next], phase := Loaded)])
       case Guard =>
         && pc.Switch? && pc.phase.Loaded?
         && s' == s.(guard := s.guard + {pc.out}, cpus := s.cpus[c := pc.(phase := Guarded)])
       case Release =>
         && pc.Switch? && pc.phase.Guarded?
         && s' == s.(lock := Open, cpus := s.cpus[c := pc.(phase := Released)])
  }

  /** After the lock is released: no step here looks at it. */
  ghost predicate ReleasedNext(s: State, s': State, c: Cpu, step: ReleasedStep) {
    && c in s.cpus && c in s.regs && s.cpus[c].Switch?
    && var pc := s.cpus[c];
       match step
       case Save =>
         && pc.phase.Released?
         && s' == s.(fp := s.fp[pc.out := s.regs[c].fp], cpus := s.cpus[c := pc.(phase := Saved)])
       case Restore =>
         && pc.phase.Saved? && pc.next in s.fp
         && s' == s.(regs := s.regs[c := s.regs[c].(fp := s.fp[pc.next])], cpus := s.cpus[c := pc.(phase := Restored)])
       case Commit(sp) =>
         && pc.phase.Restored? && pc.out in s.last
         && s' == s.(regs := s.regs[c := s.regs[c].(sp := sp)],
                     sp := s.sp[pc.out := sp], last := s.last[pc.out := s.last[pc.out].(sp := sp)],
                     cpus := s.cpus[c := pc.(phase := Committed)])
       case Clear =>
         && pc.phase.Committed?
         && s' == s.(guard := s.guard - {pc.out}, cpus := s.cpus[c := pc.(phase := Cleared)])
       case Jump =>
         && pc.phase.Cleared?
         && s' == s.(regs := s.regs[c := s.regs[c].(sp := pc.sp)], cpus := s.cpus[c := Running(pc.next)])
  }

  ghost predicate Next(s: State, s': State, c: Cpu, step: Step) {
    match step
    case Outside(st) => OutsideNext(s, s', c, st)
    case Locking(st) => LockedNext(s, s', c, st)
    case Releasing(st) => ReleasedNext(s, s', c, st)
  }

  /** CPU `c` runs its boot thread, which is named `c` here, and nothing else exists yet. */
  ghost predicate Init(s: State) {
    && s.lock.Open? && s.guard == {} && s.freed == {}
    && s.cpus == (map c <- s.regs :: Running(c))
    && s.lists == (map c <- s.regs :: Current(c) := {c})
    && s.last == s.regs
    && s.sp.Keys == s.fp.Keys == s.regs.Keys
  }

  ghost predicate IsRun(run: seq<State>, cpus: seq<Cpu>, steps: seq<Step>) {
    && |run| == |steps| + 1 == |cpus| + 1
    && Init(run[0])
    && forall i {:trigger steps[i]} :: 0 <= i < |steps| ==> Next(run[i], run[i + 1], cpus[i], steps[i])
  }
}
