/**
 No thread runs on two CPUs, and none is resumed before its context is committed.
 */
module SchedTheorems {
  import opened Common
  import opened Sched

  // ---------- What a CPU is doing ----------

  /** Whose stack the CPU is on: the thread it runs, or the one it switches out until it has cleared its guard. */
  function Stack(pc: Pc): Option<Thread> {
    match pc
    case Running(t) => Some(t)
    case Locked(t) => Some(t)
    case Switch(out, _, _, phase) => if phase.Cleared? then None else Some(out)
  }

  predicate HoldsLock(pc: Pc) {
    pc.Locked? || (pc.Switch? && (pc.phase.Waiting? || pc.phase.Loaded? || pc.phase.Guarded?))
  }

  /** The thread whose guard the CPU has raised and not yet cleared. */
  function GuardOf(pc: Pc): Option<Thread> {
    if pc.Switch? && !pc.phase.Waiting? && !pc.phase.Loaded? && !pc.phase.Cleared? then Some(pc.out) else None
  }

  /** The thread in the CPU's `current` slot. */
  function Target(pc: Pc): Thread {
    if pc.Switch? then pc.next else pc.t
  }

  // ---------- The invariant ----------

  /** `home` says where every thread is: on exactly one list, once. */
  ghost predicate Homes(lists: map<List, set<Thread>>, home: map<Thread, List>) {
    forall l, t :: t in On(lists, l) <==> t in home && home[t] == l
  }

  ghost predicate Housed(s: State, home: map<Thread, List>) {
    && Homes(s.lists, home)
    && home.Keys == s.last.Keys - s.freed && s.freed <= s.last.Keys
    && (forall c <- s.cpus :: Target(s.cpus[c]) in home && home[Target(s.cpus[c])] == Current(c))
  }

  /** No thread is on two lists, or twice on one; each CPU's thread is in its `current` slot. */
  ghost predicate ListInv(s: State) {
    exists home :: Housed(s, home)
  }

  /** What holds of each CPU by itself. */
  ghost predicate CpuOk(s: State, c: Cpu, pc: Pc) {
    && c in s.regs
    && (HoldsLock(pc) ==> s.lock == Held(c))
    && (pc.Switch? ==> pc.out != pc.next)
    && (Stack(pc).Some? ==> Stack(pc).value in s.last && Stack(pc).value !in s.freed && DiesHere(s, c, Stack(pc).value))
  }

  /** If `t` is waiting to be freed, it is CPU `c` that will free it. */
  ghost predicate DiesHere(s: State, c: Cpu, t: Thread) {
    forall d :: t in On(s.lists, Reap(d)) ==> d == c
  }

  ghost predicate CpuInv(s: State) {
    forall c <- s.cpus :: CpuOk(s, c, s.cpus[c])
  }

  /** No two CPUs are on one stack. */
  ghost predicate ApartInv(s: State) {
    forall c <- s.cpus, d <- s.cpus :: Stack(s.cpus[c]).Some? && Stack(s.cpus[c]) == Stack(s.cpus[d]) ==> c == d
  }

  /** A thread's guard is up exactly while some CPU is between raising and clearing it. */
  ghost predicate GuardInv(s: State) {
    && (forall c <- s.cpus :: GuardOf(s.cpus[c]).Some? ==> GuardOf(s.cpus[c]).value in s.guard)
    && (forall t <- s.guard :: exists c <- s.cpus :: GuardOf(s.cpus[c]) == Some(t))
  }

  ghost predicate Parked(s: State, t: Thread) {
    forall c <- s.cpus :: Stack(s.cpus[c]) != Some(t)
  }

  /** A thread no CPU is on has its whole context saved. */
  ghost predicate SavedInv(s: State) {
    && s.sp.Keys == s.last.Keys == s.fp.Keys
    && (forall t <- s.last :: Parked(s, t) ==> s.sp[t] == s.last[t].sp && s.fp[t] == s.last[t].fp)
  }

  /** What CPU `c` has in its registers, and how much of its outgoing thread is saved. */
  ghost predicate RegsOk(s: State, c: Cpu, pc: Pc) {
    && c in s.regs
    && match pc
       case Running(t) => t in s.last && s.regs[c] == s.last[t]
       case Locked(t) => t in s.last && s.regs[c] == s.last[t]
       case Switch(out, next, sp, phase) =>
         && out in s.last && next in s.last && out in s.fp && out in s.sp
         && (phase.Waiting? || phase.Loaded? || phase.Guarded? || phase.Released? ==> s.regs[c] == s.last[out])
         && (phase.Saved? || phase.Restored? || phase.Committed? ==> s.fp[out] == s.last[out].fp)
         && (phase.Committed? ==> s.sp[out] == s.last[out].sp)
         && (phase.Restored? || phase.Committed? || phase.Cleared? ==> s.regs[c].fp == s.last[next].fp)
         && (!phase.Waiting? ==> Parked(s, next) && sp == s.last[next].sp)
  }

  ghost predicate RegsInv(s: State) {
    forall c <- s.cpus :: RegsOk(s, c, s.cpus[c])
  }

  ghost predicate Inv(s: State) {
    ListInv(s) && CpuInv(s) && ApartInv(s) && GuardInv(s) && SavedInv(s) && RegsInv(s)
  }

  // ---------- Lists ----------

  lemma MoveHome(lists: map<List, set<Thread>>, home: map<Thread, List>, t: Thread, from: List, to: List)
    requires Homes(lists, home) && t in On(lists, from)
    ensures t in home && home[t] == from
    ensures Homes(Move(lists, t, from, to), home[t := to])
  {
    forall l, u
      ensures u in On(Move(lists, t, from, to), l) <==> u in home[t := to] && home[t := to][u] == l
    {
      assert u in On(lists, l) <==> u in home && home[u] == l;
    }
  }

  lemma AddHome(lists: map<List, set<Thread>>, home: map<Thread, List>, t: Thread, to: List)
    requires Homes(lists, home) && t !in home
    ensures Homes(Add(lists, to, t), home[t := to])
  {
    forall l, u
      ensures u in On(Add(lists, to, t), l) <==> u in home[t := to] && home[t := to][u] == l
    {
      assert u in On(lists, l) <==> u in home && home[u] == l;
    }
  }

  lemma RemoveHome(lists: map<List, set<Thread>>, home: map<Thread, List>, t: Thread, from: List)
    requires Homes(lists, home) && t in On(lists, from)
    ensures t in home && home[t] == from
    ensures Homes(Remove(lists, from, t), home - {t})
  {
    forall l, u
      ensures u in On(Remove(lists, from, t), l) <==> u in home - {t} && (home - {t})[u] == l
    {
      assert u in On(lists, l) <==> u in home && home[u] == l;
    }
  }

  lemma OutsideKeepsLists(s: State, s': State, c: Cpu, step: OutsideStep)
    requires ListInv(s) && OutsideNext(s, s', c, step)
    ensures ListInv(s')
  {
    var home: map<Thread, List> :| Housed(s, home);
    match step
    case Wake(u, from, to) =>
      MoveHome(s.lists, home, u, from, Ready(to));
      assert Housed(s', home[u := Ready(to)]);
    case Spawn(u, to, ctx) =>
      AddHome(s.lists, home, u, Ready(to));
      assert Housed(s', home[u := Ready(to)]);
    case Free(u) =>
      RemoveHome(s.lists, home, u, Reap(c));
      assert Housed(s', home - {u});
    case _ =>
      assert Housed(s', home);
  }

  /** The lists after a pick: `prev` parked, `next` current. */
  lemma PickHome(
    lists: map<List, set<Thread>>, home: map<Thread, List>,
    prev: Thread, cur: List, park: List, next: Thread, from: List)
    requires Homes(lists, home) && prev in On(lists, cur) && next in On(lists, from) && cur != from
    ensures prev in home && home[prev] == cur && next in home && home[next] == from && next != prev
    ensures Homes(Move(Move(lists, prev, cur, park), next, from, cur), home[prev := park][next := cur])
  {
    MoveHome(lists, home, prev, cur, park);
    MoveHome(Move(lists, prev, cur, park), home[prev := park], next, from, cur);
  }

  lemma PickHoused(s: State, s': State, c: Cpu, next: Thread, from: List, park: List, home: map<Thread, List>)
    requires Housed(s, home) && LockedNext(s, s', c, Pick(next, from, park))
    ensures Housed(s', home[s.cpus[c].t := park][next := Current(c)])
    ensures next != s.cpus[c].t && next in home
  {
    var prev := s.cpus[c].t;
    PickHome(s.lists, home, prev, Current(c), park, next, from);
    var home' := home[prev := park][next := Current(c)];
    assert home'.Keys == home.Keys;
    forall d | d in s'.cpus
      ensures Target(s'.cpus[d]) in home' && home'[Target(s'.cpus[d])] == Current(d)
    {
      if d != c {
        assert home[Target(s.cpus[d])] == Current(d);
      }
    }
  }

  lemma PickKeepsLists(s: State, s': State, c: Cpu, next: Thread, from: List, park: List)
    requires ListInv(s) && LockedNext(s, s', c, Pick(next, from, park))
    ensures ListInv(s') && next != s.cpus[c].t
    ensures next in On(s.lists, from) && next in s.last && next !in s.freed
  {
    var home: map<Thread, List> :| Housed(s, home);
    PickHoused(s, s', c, next, from, park, home);
  }

  lemma LockedKeepsLists(s: State, s': State, c: Cpu, step: LockedStep)
    requires ListInv(s) && LockedNext(s, s', c, step)
    ensures ListInv(s')
  {
    if step.Pick? {
      PickKeepsLists(s, s', c, step.next, step.from, step.park);
    } else {
      var home: map<Thread, List> :| Housed(s, home);
      assert Housed(s', home);
    }
  }

  lemma ReleasedKeepsLists(s: State, s': State, c: Cpu, step: ReleasedStep)
    requires ListInv(s) && ReleasedNext(s, s', c, step)
    ensures ListInv(s')
  {
    var home: map<Thread, List> :| Housed(s, home);
    assert s'.last.Keys == s.last.Keys;
    assert Housed(s', home);
  }

  /** What the lists say of the threads two CPUs are bound for, and of any thread on a list. */
  lemma TargetsDiffer(s: State, c: Cpu, d: Cpu)
    requires ListInv(s) && c in s.cpus && d in s.cpus && Target(s.cpus[c]) == Target(s.cpus[d])
    ensures c == d
  {}

  lemma TargetIsCurrent(s: State, c: Cpu)
    requires ListInv(s) && c in s.cpus
    ensures Target(s.cpus[c]) in On(s.lists, Current(c))
  {}

  lemma NotElsewhere(s: State, t: Thread, l: List, m: List)
    requires ListInv(s) && t in On(s.lists, l) && l != m
    ensures t !in On(s.lists, m)
  {
    var home: map<Thread, List> :| Housed(s, home);
    assert t in home && home[t] == l;
  }

  lemma CurrentIsNotReaped(s: State, c: Cpu, t: Thread)
    requires ListInv(s) && c in s.cpus && t in On(s.lists, Reap(c))
    ensures Target(s.cpus[c]) != t
  {
    var home: map<Thread, List> :| Housed(s, home);
    assert home[t] == Reap(c);
  }

  // ---------- Each CPU by itself ----------

  lemma OutsideKeepsCpu(s: State, s': State, c: Cpu, step: OutsideStep)
    requires ListInv(s) && CpuInv(s) && OutsideNext(s, s', c, step)
    ensures CpuInv(s')
  {
    forall d | d in s'.cpus
      ensures CpuOk(s', d, s'.cpus[d])
    {
      assert CpuOk(s, d, s.cpus[d]);
      OutsideKeepsOne(s, s', c, step, d);
    }
  }

  lemma OutsideKeepsOne(s: State, s': State, c: Cpu, step: OutsideStep, d: Cpu)
    requires ListInv(s) && d in s.cpus && CpuOk(s, d, s.cpus[d]) && OutsideNext(s, s', c, step)
    ensures d in s'.cpus && CpuOk(s', d, s'.cpus[d])
  {
    if Stack(s.cpus[d]).Some? {
      var t := Stack(s.cpus[d]).value;
      if step.Free? {
        CurrentIsNotReaped(s, c, step.t);
      }
      forall e | t in On(s'.lists, Reap(e))
        ensures e == d
      {
        assert t in On(s.lists, Reap(e));
      }
    }
  }

  lemma LockedKeepsCpu(s: State, s': State, c: Cpu, step: LockedStep)
    requires ListInv(s) && CpuInv(s) && ApartInv(s) && LockedNext(s, s', c, step)
    ensures CpuInv(s')
  {
    assert CpuOk(s, c, s.cpus[c]);
    forall d | d in s'.cpus
      ensures CpuOk(s', d, s'.cpus[d])
    {
      assert CpuOk(s, d, s.cpus[d]);
      LockedKeepsOne(s, s', c, step, d);
    }
  }

  lemma LockedKeepsOne(s: State, s': State, c: Cpu, step: LockedStep, d: Cpu)
    requires ListInv(s) && ApartInv(s) && LockedNext(s, s', c, step) && CpuOk(s, c, s.cpus[c])
    requires d in s.cpus && CpuOk(s, d, s.cpus[d])
    ensures d in s'.cpus && CpuOk(s', d, s'.cpus[d])
  {
    if step.Pick? {
      PickKeepsLists(s, s', c, step.next, step.from, step.park);
      PickKeepsDeaths(s, s', c, step.next, step.from, step.park, d);
    } else {
      assert s'.lists == s.lists;
    }
  }

  lemma PickKeepsDeaths(s: State, s': State, c: Cpu, next: Thread, from: List, park: List, d: Cpu)
    requires ListInv(s) && d in s.cpus && CpuOk(s, d, s.cpus[d]) && LockedNext(s, s', c, Pick(next, from, park))
    requires ApartInv(s)
    ensures Stack(s.cpus[d]).Some? ==> DiesHere(s', d, Stack(s.cpus[d]).value)
  {
    var t := if Stack(s.cpus[d]).Some? then Stack(s.cpus[d]).value else s.cpus[c].t;
    forall e | Stack(s.cpus[d]) == Some(t) && t in On(s'.lists, Reap(e))
      ensures e == d
    {
      assert t in On(s.lists, Reap(e)) || (t == s.cpus[c].t && park == Reap(e));
    }
  }

  lemma ReleasedKeepsCpu(s: State, s': State, c: Cpu, step: ReleasedStep)
    requires ListInv(s) && CpuInv(s) && RegsInv(s) && ReleasedNext(s, s', c, step)
    ensures CpuInv(s')
  {
    assert CpuOk(s, c, s.cpus[c]) && RegsOk(s, c, s.cpus[c]);
    forall d | d in s'.cpus
      ensures CpuOk(s', d, s'.cpus[d])
    {
      assert CpuOk(s, d, s.cpus[d]);
      if step.Jump? && d == c {
        JumpLandsAlive(s, c);
      }
      ReleasedKeepsOne(s, s', c, step, d);
    }
  }

  lemma ReleasedKeepsOne(s: State, s': State, c: Cpu, step: ReleasedStep, d: Cpu)
    requires c in s.cpus && CpuOk(s, c, s.cpus[c]) && RegsOk(s, c, s.cpus[c]) && ReleasedNext(s, s', c, step)
    requires d in s.cpus && CpuOk(s, d, s.cpus[d])
    requires step.Jump? && d == c ==>
               var t := Target(s.cpus[c]); t in s.last && t !in s.freed && forall e :: t !in On(s.lists, Reap(e))
    ensures d in s'.cpus && CpuOk(s', d, s'.cpus[d])
  {}

  /** The thread a CPU jumps to is in its `current` slot, so it is on no reap list and not freed. */
  lemma JumpLandsAlive(s: State, c: Cpu)
    requires ListInv(s) && c in s.cpus
    ensures var t := Target(s.cpus[c]); t in s.last && t !in s.freed && forall d :: t !in On(s.lists, Reap(d))
  {
    var home: map<Thread, List> :| Housed(s, home);
    assert home[Target(s.cpus[c])] == Current(c);
  }

  // ---------- Stacks and guards ----------

  ghost predicate Moves(s: State, s': State, c: Cpu) {
    && c in s.cpus && s'.cpus.Keys == s.cpus.Keys
    && (forall d <- s.cpus :: d != c ==> s'.cpus[d] == s.cpus[d])
  }

  lemma KeepsApart(s: State, s': State, c: Cpu)
    requires Moves(s, s', c) && ApartInv(s)
    requires StackStep(s, s', c)
    ensures ApartInv(s')
  {}

  /** No guard changes, or the CPU raises its own, or it clears its own. */
  lemma KeepsGuard(s: State, s': State, c: Cpu)
    requires Moves(s, s', c) && ApartInv(s) && GuardInv(s)
    requires GuardStep(s, s', c)
    ensures GuardInv(s')
  {
    forall t | t in s'.guard
      ensures exists d <- s'.cpus :: GuardOf(s'.cpus[d]) == Some(t)
    {
      if t in s.guard {
        var d :| d in s.cpus && GuardOf(s.cpus[d]) == Some(t);
        assert GuardOf(s'.cpus[d]) == Some(t);
      } else {
        assert GuardOf(s'.cpus[c]) == Some(t);
      }
    }
    forall d | d in s'.cpus && GuardOf(s'.cpus[d]).Some?
      ensures GuardOf(s'.cpus[d]).value in s'.guard
    {
      if d != c && GuardOf(s.cpus[c]).Some? {
        assert Stack(s.cpus[d]) != Stack(s.cpus[c]);
      }
    }
  }

  // ---------- Contexts ----------

  /** Saved and last contexts change at most for the thread whose stack the CPU is on. */
  ghost predicate Elsewhere(s: State, s': State, c: Cpu)
    requires c in s.cpus
  {
    && s.last.Keys <= s'.last.Keys && s'.sp.Keys == s'.last.Keys == s'.fp.Keys && s.sp.Keys == s.last.Keys == s.fp.Keys
    && (forall t <- s.last :: Stack(s.cpus[c]) != Some(t) ==>
          s'.sp[t] == s.sp[t] && s'.fp[t] == s.fp[t] && s'.last[t] == s.last[t])
    && s'.regs.Keys == s.regs.Keys
    && (forall d <- s.regs :: d != c ==> s'.regs[d] == s.regs[d])
  }

  lemma KeepsOtherRegs(s: State, s': State, c: Cpu, d: Cpu)
    requires Moves(s, s', c) && Elsewhere(s, s', c) && ApartInv(s) && d in s.cpus && d != c
    requires RegsOk(s, d, s.cpus[d])
    requires s.cpus[d].Switch? && !s.cpus[d].phase.Waiting? ==> Parked(s', s.cpus[d].next)
    ensures RegsOk(s', d, s'.cpus[d])
  {}

  /** A new stack is only ever the target a CPU has loaded, and no other CPU is bound for that one. */
  lemma KeepsParked(s: State, s': State, c: Cpu, d: Cpu)
    requires Moves(s, s', c) && ListInv(s) && d in s.cpus && d != c
    requires StackStep(s, s', c)
    requires Parked(s, Target(s.cpus[d]))
    ensures Parked(s', Target(s.cpus[d]))
  {
    if Target(s.cpus[c]) == Target(s.cpus[d]) {
      TargetsDiffer(s, c, d);
    }
  }

  lemma KeepsRegs(s: State, s': State, c: Cpu)
    requires ListInv(s) && ApartInv(s) && RegsInv(s) && Moves(s, s', c) && Elsewhere(s, s', c)
    requires StackStep(s, s', c)
    requires RegsOk(s', c, s'.cpus[c])
    ensures RegsInv(s')
  {
    forall d | d in s'.cpus && d != c
      ensures RegsOk(s', d, s'.cpus[d])
    {
      assert RegsOk(s, d, s.cpus[d]);
      KeepsRegsOf(s, s', c, d);
    }
  }

  lemma KeepsRegsOf(s: State, s': State, c: Cpu, d: Cpu)
    requires ListInv(s) && ApartInv(s) && Moves(s, s', c) && Elsewhere(s, s', c) && StackStep(s, s', c)
    requires d in s.cpus && d != c && RegsOk(s, d, s.cpus[d])
    ensures RegsOk(s', d, s'.cpus[d])
  {
    if s.cpus[d].Switch? && !s.cpus[d].phase.Waiting? {
      KeepsParked(s, s', c, d);
    }
    KeepsOtherRegs(s, s', c, d);
  }

  /** A thread parked after the step was parked before it, or the CPU has just finished saving it. */
  lemma KeepsSaved(s: State, s': State, c: Cpu)
    requires SavedInv(s) && Moves(s, s', c) && Elsewhere(s, s', c)
    requires SaveStep(s, s', c)
    ensures SavedInv(s')
  {
    forall t | t in s'.last && Parked(s', t)
      ensures s'.sp[t] == s'.last[t].sp && s'.fp[t] == s'.last[t].fp
    {
      if t in s.last && Stack(s.cpus[c]) != Some(t) {
        assert Parked(s, t);
      }
    }
  }

  ghost predicate GuardStep(s: State, s': State, c: Cpu)
    requires c in s.cpus && c in s'.cpus
  {
    || (s'.guard == s.guard && GuardOf(s'.cpus[c]) == GuardOf(s.cpus[c]))
    || (GuardOf(s'.cpus[c]).Some? && GuardOf(s.cpus[c]).None? && s'.guard == s.guard + {GuardOf(s'.cpus[c]).value})
    || (GuardOf(s.cpus[c]).Some? && GuardOf(s'.cpus[c]).None? && s'.guard == s.guard - {GuardOf(s.cpus[c]).value})
  }

  /** The CPU stays on its stack, leaves it, or lands on the thread it was bound for. */
  ghost predicate StackStep(s: State, s': State, c: Cpu)
    requires c in s.cpus && c in s'.cpus
  {
    || Stack(s'.cpus[c]).None?
    || Stack(s'.cpus[c]) == Stack(s.cpus[c])
    || (Stack(s'.cpus[c]) == Some(Target(s.cpus[c])) && Parked(s, Target(s.cpus[c])))
  }

  /** A thread the CPU is no longer on, or that is new, has its context saved. */
  ghost predicate SaveStep(s: State, s': State, c: Cpu)
    requires c in s.cpus && c in s'.cpus && s'.sp.Keys == s'.last.Keys == s'.fp.Keys
  {
    forall t <- s'.last ::
      || (t in s.last && Stack(s.cpus[c]) != Some(t))
      || Stack(s'.cpus[c]) == Some(t)
      || (s'.sp[t] == s'.last[t].sp && s'.fp[t] == s'.last[t].fp)
  }

  lemma KeepsContexts(s: State, s': State, c: Cpu)
    requires ListInv(s) && ApartInv(s) && GuardInv(s) && SavedInv(s) && RegsInv(s)
    requires Moves(s, s', c) && Elsewhere(s, s', c) && GuardStep(s, s', c) && StackStep(s, s', c) && SaveStep(s, s', c)
    requires RegsOk(s', c, s'.cpus[c])
    ensures ApartInv(s') && GuardInv(s') && SavedInv(s') && RegsInv(s')
  {
    KeepsApart(s, s', c);
    KeepsGuard(s, s', c);
    KeepsSaved(s, s', c);
    KeepsRegs(s, s', c);
  }

  /** Once the guard of a waiting CPU's next thread is clear, no CPU is on that thread's stack. */
  lemma LoadFindsParked(s: State, c: Cpu)
    requires Inv(s) && c in s.cpus && s.cpus[c].Switch? && s.cpus[c].phase.Waiting?
    requires s.cpus[c].next !in s.guard
    ensures Parked(s, s.cpus[c].next)
  {
    var next := s.cpus[c].next;
    assert CpuOk(s, c, s.cpus[c]);
    forall d | d in s.cpus
      ensures Stack(s.cpus[d]) != Some(next)
    {
      assert CpuOk(s, d, s.cpus[d]);
      if d != c && Target(s.cpus[d]) == next {
        TargetsDiffer(s, c, d);
      }
    }
  }

  lemma OutsideLocal(s: State, s': State, c: Cpu, step: OutsideStep)
    requires c in s.cpus && RegsOk(s, c, s.cpus[c]) && OutsideNext(s, s', c, step)
    ensures RegsOk(s', c, s'.cpus[c])
  {}

  lemma PickLocal(s: State, s': State, c: Cpu, next: Thread, from: List, park: List)
    requires c in s.cpus && RegsOk(s, c, s.cpus[c]) && s.sp.Keys == s.last.Keys == s.fp.Keys && next in s.last
    requires LockedNext(s, s', c, Pick(next, from, park))
    ensures RegsOk(s', c, s'.cpus[c])
  {}

  lemma LoadLocal(s: State, s': State, c: Cpu)
    requires c in s.cpus && RegsOk(s, c, s.cpus[c]) && SavedInv(s) && LockedNext(s, s', c, Load)
    requires Parked(s, s.cpus[c].next)
    ensures RegsOk(s', c, s'.cpus[c])
  {}

  lemma HoldLocal(s: State, s': State, c: Cpu, step: LockedStep)
    requires c in s.cpus && RegsOk(s, c, s.cpus[c]) && LockedNext(s, s', c, step) && !step.Pick? && !step.Load?
    ensures RegsOk(s', c, s'.cpus[c])
  {}

  lemma LockedLocal(s: State, s': State, c: Cpu, step: LockedStep)
    requires Inv(s) && c in s.cpus && RegsOk(s, c, s.cpus[c]) && LockedNext(s, s', c, step)
    ensures RegsOk(s', c, s'.cpus[c])
  {
    match step
    case Load =>
      LoadFindsParked(s, c);
      LoadLocal(s, s', c);
    case Pick(next, from, park) =>
      PickKeepsLists(s, s', c, next, from, park);
      PickLocal(s, s', c, next, from, park);
    case _ => HoldLocal(s, s', c, step);
  }

  lemma ReleasedLocal(s: State, s': State, c: Cpu, step: ReleasedStep)
    requires SavedInv(s) && ApartInv(s) && CpuInv(s)
    requires c in s.cpus && RegsOk(s, c, s.cpus[c]) && ReleasedNext(s, s', c, step)
    ensures RegsOk(s', c, s'.cpus[c])
  {
    assert CpuOk(s, c, s.cpus[c]);
  }

  lemma OutsideFrame(s: State, s': State, c: Cpu, step: OutsideStep)
    requires c in s.cpus && RegsOk(s, c, s.cpus[c]) && s.sp.Keys == s.last.Keys == s.fp.Keys
    requires OutsideNext(s, s', c, step)
    ensures Moves(s, s', c) && Elsewhere(s, s', c)
    ensures GuardStep(s, s', c) && StackStep(s, s', c) && SaveStep(s, s', c)
  {}

  lemma OutsideKeepsContexts(s: State, s': State, c: Cpu, step: OutsideStep)
    requires Inv(s) && OutsideNext(s, s', c, step)
    ensures ApartInv(s') && GuardInv(s') && SavedInv(s') && RegsInv(s')
  {
    assert RegsOk(s, c, s.cpus[c]);
    OutsideFrame(s, s', c, step);
    OutsideLocal(s, s', c, step);
    KeepsContexts(s, s', c);
  }

  lemma LockedFrame(s: State, s': State, c: Cpu, step: LockedStep)
    requires c in s.cpus && RegsOk(s, c, s.cpus[c]) && s.sp.Keys == s.last.Keys == s.fp.Keys
    requires LockedNext(s, s', c, step)
    ensures Moves(s, s', c) && Elsewhere(s, s', c)
  {}

  lemma LockedSteps(s: State, s': State, c: Cpu, step: LockedStep)
    requires c in s.cpus && RegsOk(s, c, s.cpus[c]) && s.sp.Keys == s.last.Keys == s.fp.Keys
    requires LockedNext(s, s', c, step)
    ensures c in s'.cpus && s'.sp.Keys == s'.last.Keys == s'.fp.Keys
    ensures GuardStep(s, s', c) && StackStep(s, s', c) && SaveStep(s, s', c)
  {}

  lemma LockedKeepsContexts(s: State, s': State, c: Cpu, step: LockedStep)
    requires Inv(s) && LockedNext(s, s', c, step)
    ensures ApartInv(s') && GuardInv(s') && SavedInv(s') && RegsInv(s')
  {
    assert RegsOk(s, c, s.cpus[c]);
    LockedFrame(s, s', c, step);
    LockedSteps(s, s', c, step);
    LockedLocal(s, s', c, step);
    KeepsContexts(s, s', c);
  }

  lemma ReleasedFrame(s: State, s': State, c: Cpu, step: ReleasedStep)
    requires c in s.cpus && RegsOk(s, c, s.cpus[c]) && s.sp.Keys == s.last.Keys == s.fp.Keys
    requires ReleasedNext(s, s', c, step)
    ensures Moves(s, s', c) && Elsewhere(s, s', c)
  {}

  lemma ReleasedSteps(s: State, s': State, c: Cpu, step: ReleasedStep)
    requires c in s.cpus && RegsOk(s, c, s.cpus[c]) && s.sp.Keys == s.last.Keys == s.fp.Keys
    requires ReleasedNext(s, s', c, step) && Elsewhere(s, s', c)
    ensures GuardStep(s, s', c) && StackStep(s, s', c) && SaveStep(s, s', c)
  {}

  lemma ReleasedKeepsContexts(s: State, s': State, c: Cpu, step: ReleasedStep)
    requires Inv(s) && ReleasedNext(s, s', c, step)
    ensures ApartInv(s') && GuardInv(s') && SavedInv(s') && RegsInv(s')
  {
    assert RegsOk(s, c, s.cpus[c]);
    ReleasedFrame(s, s', c, step);
    ReleasedSteps(s, s', c, step);
    ReleasedLocal(s, s', c, step);
    KeepsContexts(s, s', c);
  }

  // ---------- Runs ----------

  lemma InitLists(s: State)
    requires Init(s)
    ensures ListInv(s)
  {
    var home: map<Thread, List> := map c <- s.regs :: Current(c);
    forall l, t
      ensures t in On(s.lists, l) <==> t in home && home[t] == l
    {}
    assert Housed(s, home);
  }

  lemma InitCpus(s: State)
    requires Init(s)
    ensures CpuInv(s) && ApartInv(s)
  {}

  lemma InitContexts(s: State)
    requires Init(s)
    ensures GuardInv(s) && SavedInv(s) && RegsInv(s)
  {
    assert forall t <- s.last :: Stack(s.cpus[t]) == Some(t);
  }

  lemma InitInv(s: State)
    requires Init(s)
    ensures Inv(s)
  {
    InitLists(s);
    InitCpus(s);
    InitContexts(s);
  }

  lemma NextKeepsInv(s: State, s': State, c: Cpu, step: Step)
    requires Inv(s) && Next(s, s', c, step)
    ensures Inv(s')
  {
    match step
    case Outside(st) =>
      OutsideKeepsLists(s, s', c, st);
      OutsideKeepsCpu(s, s', c, st);
      OutsideKeepsContexts(s, s', c, st);
    case Locking(st) =>
      LockedKeepsLists(s, s', c, st);
      LockedKeepsCpu(s, s', c, st);
      LockedKeepsContexts(s, s', c, st);
    case Releasing(st) =>
      ReleasedKeepsLists(s, s', c, st);
      ReleasedKeepsCpu(s, s', c, st);
      ReleasedKeepsContexts(s, s', c, st);
  }

  lemma StepKeepsInv(run: seq<State>, cpus: seq<Cpu>, steps: seq<Step>, i: nat)
    requires IsRun(run, cpus, steps) && 0 < i < |run| && Inv(run[i - 1])
    ensures Inv(run[i])
  {
    assert Next(run[i - 1], run[i - 1 + 1], cpus[i - 1], steps[i - 1]);
    NextKeepsInv(run[i - 1], run[i], cpus[i - 1], steps[i - 1]);
  }

  lemma {:induction false} RunKeepsInv(run: seq<State>, cpus: seq<Cpu>, steps: seq<Step>, i: nat)
    requires IsRun(run, cpus, steps) && i < |run|
    ensures Inv(run[i])
  {
    if i == 0 {
      InitInv(run[0]);
    } else {
      RunKeepsInv(run, cpus, steps, i - 1);
      StepKeepsInv(run, cpus, steps, i);
    }
  }

  // ---------- What the switch promises ----------

  /** In every run, no thread executes on two CPUs, and none executes after its stack is freed. */
  lemma NoThreadOnTwoCpus(run: seq<State>, cpus: seq<Cpu>, steps: seq<Step>, i: nat, c: Cpu, d: Cpu)
    requires IsRun(run, cpus, steps) && i < |run| && c in run[i].cpus && d in run[i].cpus
    requires Stack(run[i].cpus[c]).Some?
    ensures Stack(run[i].cpus[c]) == Stack(run[i].cpus[d]) ==> c == d
    ensures Stack(run[i].cpus[c]).value !in run[i].freed
  {
    RunKeepsInv(run, cpus, steps, i);
    assert CpuOk(run[i], c, run[i].cpus[c]);
  }

  /**
   When a CPU loads a thread's saved context, no CPU is on that thread's stack any more, its guard
   is down, and what is saved is what the thread stopped with.
   */
  lemma LoadsOnlyCommitted(run: seq<State>, cpus: seq<Cpu>, steps: seq<Step>, i: nat)
    requires IsRun(run, cpus, steps) && i < |steps| && steps[i] == Locking(Load)
    ensures var (s, c) := (run[i], cpus[i]);
            && c in s.cpus && s.cpus[c].Switch?
            && var t := s.cpus[c].next;
               && t !in s.guard && Parked(s, t)
               && t in s.last && t in s.sp && t in s.fp
               && Context(s.sp[t], s.fp[t]) == s.last[t]
  {
    RunKeepsInv(run, cpus, steps, i);
    assert LockedNext(run[i], run[i + 1], cpus[i], Load);
    LoadFindsParked(run[i], cpus[i]);
    assert RegsOk(run[i], cpus[i], run[i].cpus[cpus[i]]);
  }

  /** A thread resumes with exactly the registers it stopped with. */
  lemma ResumesWhereItStopped(run: seq<State>, cpus: seq<Cpu>, steps: seq<Step>, i: nat)
    requires IsRun(run, cpus, steps) && i < |steps| && steps[i] == Releasing(Jump)
    ensures var (s, s', c) := (run[i], run[i + 1], cpus[i]);
            && c in s'.cpus && c in s'.regs && s'.cpus[c].Running?
            && s'.cpus[c].t in s.last && s'.regs[c] == s.last[s'.cpus[c].t]
  {
    RunKeepsInv(run, cpus, steps, i);
    assert ReleasedNext(run[i], run[i + 1], cpus[i], Jump);
    assert RegsOk(run[i], cpus[i], run[i].cpus[cpus[i]]);
  }

  /** In every run, every thread made and not freed is on exactly one list. */
  lemma ThreadsAreConserved(run: seq<State>, cpus: seq<Cpu>, steps: seq<Step>, i: nat, t: Thread)
    requires IsRun(run, cpus, steps) && i < |run| && t in run[i].last && t !in run[i].freed
    ensures exists l :: t in On(run[i].lists, l) && forall m :: t in On(run[i].lists, m) ==> m == l
  {
    RunKeepsInv(run, cpus, steps, i);
    var home: map<Thread, List> :| Housed(run[i], home);
    assert t in On(run[i].lists, home[t]);
  }

  /** No list ever receives a thread it already holds: what a pick parks, and what a wake queues. */
  lemma ParksAreFresh(run: seq<State>, cpus: seq<Cpu>, steps: seq<Step>, i: nat, next: Thread, from: List, park: List)
    requires IsRun(run, cpus, steps) && i < |steps| && steps[i] == Locking(Pick(next, from, park))
    ensures cpus[i] in run[i].cpus && run[i].cpus[cpus[i]].Locked? && run[i].cpus[cpus[i]].t !in On(run[i].lists, park)
  {
    RunKeepsInv(run, cpus, steps, i);
    assert Next(run[i], run[i + 1], cpus[i], steps[i]);
    ParkIsFresh(run[i], run[i + 1], cpus[i], next, from, park);
  }

  lemma ParkIsFresh(s: State, s': State, c: Cpu, next: Thread, from: List, park: List)
    requires ListInv(s) && LockedNext(s, s', c, Pick(next, from, park))
    ensures s.cpus[c].t !in On(s.lists, park)
  {
    TargetIsCurrent(s, c);
    NotElsewhere(s, s.cpus[c].t, Current(c), park);
  }

  lemma WakesAreFresh(run: seq<State>, cpus: seq<Cpu>, steps: seq<Step>, i: nat, t: Thread, from: List, to: Cpu)
    requires IsRun(run, cpus, steps) && i < |steps| && steps[i] == Outside(Wake(t, from, to))
    ensures t !in On(run[i].lists, Ready(to))
  {
    RunKeepsInv(run, cpus, steps, i);
    assert OutsideNext(run[i], run[i + 1], cpus[i], Wake(t, from, to));
    NotElsewhere(run[i], t, from, Ready(to));
  }

  // ---------- Spinning under the lock ----------

  predicate SpinsOn(pc: Pc, t: Thread) {
    pc.Switch? && pc.phase.Waiting? && pc.next == t
  }

  /** The steps left before a CPU past its release clears the guard it raised. */
  function Left(pc: Pc): nat {
    if !pc.Switch? then 0
    else match pc.phase
      case Released => 4
      case Saved => 3
      case Restored => 2
      case Committed => 1
      case _ => 0
  }

  /**
   A CPU that spins on a guard while it holds `SCHED` waits for another CPU that is past its own
   release: that CPU waits for nothing, and can take its next step whoever holds the lock.
   */
  lemma SpinWaitsForLockFree(run: seq<State>, cpus: seq<Cpu>, steps: seq<Step>, i: nat, d: Cpu, t: Thread)
    requires IsRun(run, cpus, steps) && i < |run| && d in run[i].cpus && SpinsOn(run[i].cpus[d], t) && t in run[i].guard
    ensures exists c <- run[i].cpus :: c != d && GuardOf(run[i].cpus[c]) == Some(t) && IsPastRelease(run[i], c)
  {
    RunKeepsInv(run, cpus, steps, i);
    var c := GuardOwner(run[i], d, t);
  }

  /** The CPU has steps left that take no lock, and can take the next. */
  ghost predicate IsPastRelease(s: State, c: Cpu) {
    c in s.cpus && 0 < Left(s.cpus[c]) && CanStep(s, c)
  }

  lemma GuardOwner(s: State, d: Cpu, t: Thread) returns (c: Cpu)
    requires CpuInv(s) && GuardInv(s) && RegsInv(s) && SavedInv(s)
    requires d in s.cpus && SpinsOn(s.cpus[d], t) && t in s.guard
    ensures c in s.cpus && c != d && GuardOf(s.cpus[c]) == Some(t) && IsPastRelease(s, c)
  {
    c :| c in s.cpus && GuardOf(s.cpus[c]) == Some(t);
    assert CpuOk(s, d, s.cpus[d]) && CpuOk(s, c, s.cpus[c]);
    assert 0 < Left(s.cpus[c]);
    assert RegsOk(s, c, s.cpus[c]);
    ReleasedCanStep(s, c);
  }

  ghost predicate CanStep(s: State, c: Cpu) {
    exists s', step :: ReleasedNext(s, s', c, step)
  }

  lemma ReleasedCanStep(s: State, c: Cpu)
    requires c in s.cpus && 0 < Left(s.cpus[c]) && RegsOk(s, c, s.cpus[c]) && SavedInv(s)
    ensures CanStep(s, c)
  {
    var pc := s.cpus[c];
    match pc.phase
    case Released =>
      assert ReleasedNext(s, s.(fp := s.fp[pc.out := s.regs[c].fp], cpus := s.cpus[c := pc.(phase := Saved)]), c, Save);
    case Saved =>
      assert ReleasedNext(s, s.(regs := s.regs[c := s.regs[c].(fp := s.fp[pc.next])],
                                cpus := s.cpus[c := pc.(phase := Restored)]), c, Restore);
    case Restored =>
      assert ReleasedNext(s, s.(regs := s.regs[c := s.regs[c].(sp := 0)],
                                sp := s.sp[pc.out := 0], last := s.last[pc.out := s.last[pc.out].(sp := 0)],
                                cpus := s.cpus[c := pc.(phase := Committed)]), c, Commit(0));
    case Committed =>
      assert ReleasedNext(s, s.(guard := s.guard - {pc.out}, cpus := s.cpus[c := pc.(phase := Cleared)]), c, Clear);
  }

  /** While a CPU spins, the guard it spins on keeps its one owner, which only ever comes closer to clearing it. */
  ghost predicate Nears(s: State, s': State, e: Cpu, c: Cpu, t: Thread) {
    && c in s.cpus && c in s'.cpus && GuardOf(s.cpus[c]) == Some(t)
    && Left(s'.cpus[c]) == (if e == c then Left(s.cpus[c]) - 1 else Left(s.cpus[c]))
  }

  lemma SpinStep(s: State, s': State, e: Cpu, step: Step, d: Cpu, t: Thread, c: Cpu)
    requires CpuInv(s) && Next(s, s', e, step) && d in s.cpus && d in s'.cpus
    requires SpinsOn(s.cpus[d], t) && SpinsOn(s'.cpus[d], t)
    requires c in s'.cpus && GuardOf(s'.cpus[c]) == Some(t)
    ensures Nears(s, s', e, c, t)
  {
    assert CpuOk(s, d, s.cpus[d]) && CpuOk(s, e, s.cpus[e]);
    match step
    case Outside(st) =>
      assert Nears(s, s', e, c, t);
    case Locking(st) =>
    case Releasing(st) =>
      assert Nears(s, s', e, c, t);
  }

  lemma SpinBack(run: seq<State>, cpus: seq<Cpu>, steps: seq<Step>, j: nat, d: Cpu, t: Thread, c: Cpu)
    requires IsRun(run, cpus, steps) && 0 < j < |run|
    requires d in run[j - 1].cpus && SpinsOn(run[j - 1].cpus[d], t) && d in run[j].cpus && SpinsOn(run[j].cpus[d], t)
    requires c in run[j].cpus && GuardOf(run[j].cpus[c]) == Some(t)
    ensures Nears(run[j - 1], run[j], cpus[j - 1], c, t)
  {
    RunKeepsInv(run, cpus, steps, j - 1);
    assert Next(run[j - 1], run[j - 1 + 1], cpus[j - 1], steps[j - 1]);
    SpinStep(run[j - 1], run[j], cpus[j - 1], steps[j - 1], d, t, c);
  }

  /** How many of the steps from `i` to `j` are `c`'s. */
  function StepsOf(cpus: seq<Cpu>, c: Cpu, i: nat, j: nat): nat
    requires i <= j <= |cpus|
    decreases j - i
  {
    if i == j then 0 else StepsOf(cpus, c, i, j - 1) + if cpus[j - 1] == c then 1 else 0
  }

  /** A spin is bounded: as long as the guard stays up, its owner has taken at most three steps. */
  lemma {:induction false} SpinIsBounded(
    run: seq<State>, cpus: seq<Cpu>, steps: seq<Step>, i: nat, j: nat, d: Cpu, t: Thread, c: Cpu)
    requires IsRun(run, cpus, steps) && i <= j < |run|
    requires forall k :: i <= k <= j ==> d in run[k].cpus && SpinsOn(run[k].cpus[d], t)
    requires c in run[j].cpus && GuardOf(run[j].cpus[c]) == Some(t)
    ensures c in run[i].cpus && GuardOf(run[i].cpus[c]) == Some(t)
    ensures Left(run[j].cpus[c]) + StepsOf(cpus, c, i, j) == Left(run[i].cpus[c])
    ensures StepsOf(cpus, c, i, j) <= 3
    decreases j - i
  {
    OwnerIsPast(run, cpus, steps, j, d, t, c);
    if i < j {
      SpinBack(run, cpus, steps, j, d, t, c);
      SpinIsBounded(run, cpus, steps, i, j - 1, d, t, c);
    }
  }

  lemma OwnerIsPast(run: seq<State>, cpus: seq<Cpu>, steps: seq<Step>, j: nat, d: Cpu, t: Thread, c: Cpu)
    requires IsRun(run, cpus, steps) && j < |run|
    requires d in run[j].cpus && SpinsOn(run[j].cpus[d], t) && c in run[j].cpus && GuardOf(run[j].cpus[c]) == Some(t)
    ensures 0 < Left(run[j].cpus[c]) <= 4
  {
    RunKeepsInv(run, cpus, steps, j);
    PastTheLock(run[j], d, t, c);
  }

  lemma PastTheLock(s: State, d: Cpu, t: Thread, c: Cpu)
    requires CpuInv(s) && d in s.cpus && SpinsOn(s.cpus[d], t) && c in s.cpus && GuardOf(s.cpus[c]) == Some(t)
    ensures 0 < Left(s.cpus[c]) <= 4
  {
    assert CpuOk(s, d, s.cpus[d]) && CpuOk(s, c, s.cpus[c]);
  }
}
