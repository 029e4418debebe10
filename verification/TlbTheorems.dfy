/**
 When a shootdown returns, no online CPU holds a translation that was stale when it was called.
 */
module TlbTheorems {
  import opened Tlb

  // ---------- The invariant ----------

  /** Nothing `what` covers is cached from before `floor`. */
  predicate Fresh(tlb: map<Va, Stamp>, what: What, floor: map<Va, Stamp>) {
    forall va <- tlb :: Covers(what, va) ==> va in floor && floor[va] <= tlb[va]
  }

  ghost predicate FreshOn(s: State, c: Cpu, what: What, floor: map<Va, Stamp>) {
    c in s.tlb && Fresh(s.tlb[c], what, floor)
  }

  /** Stamps only grow. */
  ghost predicate Below(floor: map<Va, Stamp>, pt: map<Va, Stamp>) {
    floor.Keys == pt.Keys && forall va <- pt :: floor[va] <= pt[va]
  }

  /** A CPU that came online after the sample has cached nothing from before the call. */
  ghost predicate LateAreFresh(s: State, floor: map<Va, Stamp>, targets: set<Cpu>) {
    forall c <- s.online :: c !in targets ==> FreshOn(s, c, All, floor)
  }

  predicate Live(pc: Pc) {
    pc.Holding? && (pc.phase.Sending? || pc.phase.Waiting? || pc.phase.Deciding?)
  }

  ghost predicate CallOk(s: State, a: Agent, pc: Pc) {
    match pc
    case Idle => true
    case Called(what, floor, me) => Below(floor, s.pt)
    case Sampled(what, floor, me, targets) => Below(floor, s.pt) && LateAreFresh(s, floor, targets)
    case Holding(what, floor, me, targets, phase) =>
      && Below(floor, s.pt) && LateAreFresh(s, floor, targets)
      && s.lock == Held(a)
      && (!phase.StoreAll? ==> s.reqAll == what.All?)
      && (!phase.StoreAll? && !phase.StoreVa? && what.Page? ==> s.reqVa == what.va)
      && (Live(pc) ==> forall c <- s.online :: c in targets && c in s.acked ==>
          FreshOn(s, c, what, floor) && c in s.invalidated)
      && (phase.Deciding? ==> phase.seen <= s.acked)
      && (phase.Sending? ==> phase.todo <= targets)
    case Returned(what, floor, me, targets) =>
      Below(floor, s.pt) && forall c <- s.online :: FreshOn(s, c, what, floor)
  }

  ghost predicate CallInv(s: State) {
    forall a <- s.agents :: CallOk(s, a, s.agents[a])
  }

  /** An interrupt is on its way to the CPU, or the CPU is handling one. */
  ghost predicate Busy(s: State, c: Cpu) {
    c in s.pending || (c in s.handlers && !s.handlers[c].Off?)
  }

  ghost predicate HasRequest(s: State) {
    s.lock.Held? && s.lock.agent in s.agents && Live(s.agents[s.lock.agent])
  }

  function Request(s: State): Pc
    requires HasRequest(s)
  {
    s.agents[s.lock.agent]
  }

  /** The CPU still has to answer this request, and has been told to. */
  predicate Outstanding(pc: Pc, acked: set<Cpu>, c: Cpu)
    requires Live(pc)
  {
    c in pc.targets && c !in acked && (pc.phase.Sending? ==> c !in pc.phase.todo)
  }

  /** An online CPU is busy exactly while it has the current request to answer, and answers that one. */
  ghost predicate HandlerOk(s: State, c: Cpu) {
    && c in s.handlers && c in s.tlb
    && (c in s.pending ==> s.handlers[c].Off?)
    && if HasRequest(s) then
         && (Busy(s, c) <==> Outstanding(Request(s), s.acked, c))
         && (Request(s).phase.Sending? && c in Request(s).phase.todo ==> c !in s.acked)
         && (s.handlers[c].GotAll? ==> Request(s).what.Page?)
         && (s.handlers[c].GotRequest? ==> s.handlers[c].what == Request(s).what)
         && (s.handlers[c].Invalidated? ==> FreshOn(s, c, Request(s).what, Request(s).floor) && c in s.invalidated)
       else !Busy(s, c)
  }

  ghost predicate HandlerInv(s: State) {
    && (forall c <- s.online :: HandlerOk(s, c))
    && s.online !! s.departed
    && s.tlb.Keys == s.handlers.Keys
    && (forall va <- s.pt :: s.pt[va] < s.clock)
  }

  /** Where a request's targets come from. */
  ghost predicate TargetInv(s: State) {
    forall a <- s.agents :: s.agents[a].Sampled? || s.agents[a].Holding? ==>
        s.agents[a].targets <= s.online + s.departed
  }

  ghost predicate Inv(s: State) {
    CallInv(s) && HandlerInv(s) && TargetInv(s)
  }

  // ---------- Caches ----------

  lemma FillStaysFresh(tlb: map<Va, Stamp>, va: Va, pt: map<Va, Stamp>, what: What, floor: map<Va, Stamp>)
    requires Fresh(tlb, what, floor) && Below(floor, pt) && va in pt
    ensures Fresh(Cache(tlb, va, pt[va]), what, floor)
  {}

  lemma InvalidateIsFresh(tlb: map<Va, Stamp>, what: What, other: What, floor: map<Va, Stamp>)
    ensures Fresh(Invalidate(tlb, what), what, floor)
    ensures Fresh(tlb, other, floor) ==> Fresh(Invalidate(tlb, what), other, floor)
  {}

  // ---------- Memory and CPUs coming and going ----------

  lemma MemKeepsBelow(s: State, s': State, step: MemStep, floor: map<Va, Stamp>)
    requires MemNext(s, s', step) && Below(floor, s.pt) && forall va <- s.pt :: s.pt[va] < s.clock
    ensures Below(floor, s'.pt)
  {}

  lemma MemKeepsFresh(s: State, s': State, step: MemStep, c: Cpu, what: What, floor: map<Va, Stamp>)
    requires MemNext(s, s', step) && Below(floor, s.pt) && c in s'.online
    requires c in s.online ==> FreshOn(s, c, what, floor)
    ensures FreshOn(s', c, what, floor)
  {
    if step.Fill? && step.c == c && c in s.online {
      FillStaysFresh(s.tlb[c], step.va, s.pt, what, floor);
    }
  }

  lemma MemKeepsCall(s: State, s': State, step: MemStep, a: Agent, pc: Pc)
    requires CallOk(s, a, pc) && HandlerInv(s) && MemNext(s, s', step)
    requires pc.Sampled? || pc.Holding? ==> pc.targets <= s.online + s.departed
    ensures CallOk(s', a, pc)
  {
    if !pc.Idle? {
      MemKeepsBelow(s, s', step, pc.floor);
      forall c, what | c in s'.online && (c in s.online ==> FreshOn(s, c, what, pc.floor))
        ensures FreshOn(s', c, what, pc.floor)
      {
        MemKeepsFresh(s, s', step, c, what, pc.floor);
      }
    }
  }

  lemma MemKeepsHandlers(s: State, s': State, step: MemStep)
    requires Inv(s) && MemNext(s, s', step)
    ensures HandlerInv(s') && TargetInv(s')
  {
    forall c | c in s'.online
      ensures HandlerOk(s', c)
    {
      if HasRequest(s) {
        assert CallOk(s, s.lock.agent, Request(s));
        if c in s.online {
          assert HandlerOk(s, c);
          if s.handlers[c].Invalidated? {
            MemKeepsFresh(s, s', step, c, Request(s).what, Request(s).floor);
          }
        }
      }
    }
  }

  lemma MemKeepsInv(s: State, s': State, step: MemStep)
    requires Inv(s) && MemNext(s, s', step)
    ensures Inv(s')
  {
    forall a | a in s'.agents
      ensures CallOk(s', a, s'.agents[a])
    {
      MemKeepsCall(s, s', step, a, s.agents[a]);
    }
    MemKeepsHandlers(s, s', step);
  }

  // ---------- Interrupt handlers ----------

  lemma IpiKeepsFresh(s: State, s': State, c: Cpu, step: IpiStep, d: Cpu, what: What, floor: map<Va, Stamp>)
    requires IpiNext(s, s', c, step) && FreshOn(s, d, what, floor)
    ensures FreshOn(s', d, what, floor)
  {
    if step.Flush? && d == c {
      InvalidateIsFresh(s.tlb[c], s.handlers[c].what, what, floor);
    }
  }

  /** The one clause a handler can disturb: what holds of a CPU that has acknowledged. */
  lemma IpiKeepsCall(s: State, s': State, c: Cpu, step: IpiStep, a: Agent, pc: Pc)
    requires CallOk(s, a, pc) && IpiNext(s, s', c, step)
    requires Live(pc) && c in s.online && s.handlers[c].Invalidated? ==>
               FreshOn(s, c, pc.what, pc.floor) && c in s.invalidated
    ensures CallOk(s', a, pc)
  {
    if !pc.Idle? {
      forall d, what | FreshOn(s, d, what, pc.floor)
        ensures FreshOn(s', d, what, pc.floor)
      {
        IpiKeepsFresh(s, s', c, step, d, what, pc.floor);
      }
    }
  }

  lemma IpiKeepsHandlers(s: State, s': State, c: Cpu, step: IpiStep)
    requires Inv(s) && IpiNext(s, s', c, step)
    ensures HandlerInv(s') && TargetInv(s')
  {
    forall d | d in s'.online
      ensures HandlerOk(s', d)
    {
      assert HandlerOk(s, d);
      if HasRequest(s) {
        assert CallOk(s, s.lock.agent, Request(s));
        if d == c && step.Flush? {
          InvalidateIsFresh(s.tlb[c], s.handlers[c].what, All, Request(s).floor);
        }
      }
    }
  }

  lemma IpiKeepsInv(s: State, s': State, c: Cpu, step: IpiStep)
    requires Inv(s) && IpiNext(s, s', c, step)
    ensures Inv(s')
  {
    forall a | a in s'.agents
      ensures CallOk(s', a, s'.agents[a])
    {
      assert CallOk(s, a, s.agents[a]);
      if c in s.online {
        assert HandlerOk(s, c);
      }
      IpiKeepsCall(s, s', c, step, a, s.agents[a]);
    }
    IpiKeepsHandlers(s, s', c, step);
  }

  // ---------- Initiators ----------

  /** What another agent's step may do to this one: nothing but invalidate more, or reset a request that is not live. */
  lemma CallKeepsOther(s: State, s': State, a: Agent, step: CallStep, b: Agent, pc: Pc)
    requires a in s.agents && CallOk(s, a, s.agents[a]) && CallOk(s, b, pc) && CallNext(s, s', a, step) && b != a
    ensures CallOk(s', b, pc)
  {
    if step.FlushAlone? && !pc.Idle? {
      forall d, what | FreshOn(s, d, what, pc.floor)
        ensures FreshOn(s', d, what, pc.floor)
      {
        InvalidateIsFresh(s.tlb[s.agents[a].me], s.agents[a].what, what, pc.floor);
      }
    }
  }

  lemma CallKeepsOwn(s: State, s': State, a: Agent, step: CallStep)
    requires a in s.agents && CallOk(s, a, s.agents[a]) && s.online <= s.tlb.Keys && CallNext(s, s', a, step)
    ensures CallOk(s', a, s'.agents[a])
  {
    match step
    case FlushAlone =>
      forall d | d in s.online
        ensures FreshOn(s', d, s.agents[a].what, s.agents[a].floor)
      {
        AloneIsFresh(s, s', a, d);
      }
    case LoadOnline =>
      AnsweredIsFresh(s, s', a);
    case _ =>
  }

  lemma NoneOutstanding(targets: set<Cpu>, acked: set<Cpu>, online: set<Cpu>, d: Cpu)
    requires WaitSatisfied(targets, acked, online) && d in online
    ensures d in targets ==> d in acked
  {
    assert d in (targets - acked) * online <==> d in targets && d !in acked;
  }

  lemma AnsweredIsFresh(s: State, s': State, a: Agent)
    requires a in s.agents && CallOk(s, a, s.agents[a]) && CallNext(s, s', a, LoadOnline)
    ensures CallOk(s', a, s'.agents[a])
  {
    var pc := s.agents[a];
    if WaitSatisfied(pc.targets, pc.phase.seen, s.online) {
      forall d | d in s.online
        ensures FreshOn(s', d, pc.what, pc.floor)
      {
        NoneOutstanding(pc.targets, pc.phase.seen, s.online, d);
        assert FreshOn(s, d, pc.what, pc.floor);
      }
    }
  }

  lemma AloneIsFresh(s: State, s': State, a: Agent, d: Cpu)
    requires CallNext(s, s', a, FlushAlone) && CallOk(s, a, s.agents[a]) && d in s.online && d in s.tlb
    ensures FreshOn(s', d, s.agents[a].what, s.agents[a].floor)
  {
    var pc := s.agents[a];
    InvalidateIsFresh(s.tlb[pc.me], pc.what, pc.what, pc.floor);
    if d != pc.me {
      assert d !in pc.targets - {pc.me};
    }
  }

  /** A step of an agent that has not published, or of one that is not the holder, leaves every handler alone. */
  lemma CallKeepsHandlers(s: State, s': State, a: Agent, step: CallStep)
    requires Inv(s) && CallNext(s, s', a, step)
    ensures HandlerInv(s') && TargetInv(s')
  {
    assert CallOk(s, a, s.agents[a]);
    CallKeepsSets(s, s', a, step);
    CallKeepsTargets(s, s', a, step);
    forall d | d in s'.online
      ensures HandlerOk(s', d)
    {
      assert HandlerOk(s, d);
      CallKeepsHandler(s, s', a, step, d);
    }
  }

  lemma CallKeepsSets(s: State, s': State, a: Agent, step: CallStep)
    requires CallNext(s, s', a, step)
    ensures s'.online == s.online && s'.departed == s.departed && s'.handlers == s.handlers
    ensures s'.pt == s.pt && s'.clock == s.clock && s'.tlb.Keys == s.tlb.Keys
  {}

  lemma CallKeepsTargets(s: State, s': State, a: Agent, step: CallStep)
    requires TargetInv(s) && CallNext(s, s', a, step)
    ensures TargetInv(s')
  {}

  lemma CallKeepsHandler(s: State, s': State, a: Agent, step: CallStep, d: Cpu)
    requires a in s.agents && CallOk(s, a, s.agents[a]) && d in s.online && HandlerOk(s, d) && CallNext(s, s', a, step)
    requires HasRequest(s) ==> CallOk(s, s.lock.agent, Request(s))
    ensures HandlerOk(s', d)
  {
    match step
    case FlushAlone => FlushKeepsHandler(s, s', a, d);
    case LoadOnline => LoadKeepsHandler(s, s', a, d);
    case _ =>
  }

  lemma FlushKeepsHandler(s: State, s': State, a: Agent, d: Cpu)
    requires a in s.agents && CallOk(s, a, s.agents[a]) && d in s.online && HandlerOk(s, d)
    requires CallNext(s, s', a, FlushAlone)
    requires HasRequest(s) ==> CallOk(s, s.lock.agent, Request(s))
    ensures HandlerOk(s', d)
  {
    var pc := s.agents[a];
    if HasRequest(s) {
      InvalidateIsFresh(s.tlb[pc.me], pc.what, Request(s).what, Request(s).floor);
    }
  }

  lemma LoadKeepsHandler(s: State, s': State, a: Agent, d: Cpu)
    requires a in s.agents && CallOk(s, a, s.agents[a]) && d in s.online && HandlerOk(s, d)
    requires CallNext(s, s', a, LoadOnline)
    ensures HandlerOk(s', d)
  {
    var pc := s.agents[a];
    if WaitSatisfied(pc.targets, pc.phase.seen, s.online) {
      NoneOutstanding(pc.targets, pc.phase.seen, s.online, d);
    }
  }

  lemma CallKeepsInv(s: State, s': State, a: Agent, step: CallStep)
    requires Inv(s) && CallNext(s, s', a, step)
    ensures Inv(s')
  {
    forall b | b in s'.agents
      ensures CallOk(s', b, s'.agents[b])
    {
      if b == a {
        CallKeepsOwn(s, s', a, step);
      } else {
        CallKeepsOther(s, s', a, step, b, s.agents[b]);
      }
    }
    CallKeepsHandlers(s, s', a, step);
  }

  // ---------- Runs ----------

  lemma NextKeepsInv(s: State, s': State, step: Step)
    requires Inv(s) && Next(s, s', step)
    ensures Inv(s')
  {
    match step
    case Mem(st) => MemKeepsInv(s, s', st);
    case Ipi(c, st) => IpiKeepsInv(s, s', c, st);
    case Initiate(a, st) => CallKeepsInv(s, s', a, st);
  }

  lemma {:induction false} RunKeepsInv(run: seq<State>, steps: seq<Step>, i: nat)
    requires IsRun(run, steps) && i < |run|
    ensures Inv(run[i])
  {
    if i > 0 {
      RunKeepsInv(run, steps, i - 1);
      assert Next(run[i - 1], run[i - 1 + 1], steps[i - 1]);
      NextKeepsInv(run[i - 1], run[i], steps[i - 1]);
    }
  }

  // ---------- What a shootdown promises ----------

  /**
   When a shootdown has returned, no online CPU caches a covered translation older than the page tables were at the
   call.
   */
  lemma NothingStaleIsCached(run: seq<State>, steps: seq<Step>, i: nat, a: Agent, c: Cpu, va: Va)
    requires IsRun(run, steps) && i < |run| && a in run[i].agents && run[i].agents[a].Returned?
    requires c in run[i].online && c in run[i].tlb && va in run[i].tlb[c] && Covers(run[i].agents[a].what, va)
    ensures va in run[i].agents[a].floor && run[i].agents[a].floor[va] <= run[i].tlb[c][va]
  {
    RunKeepsInv(run, steps, i);
    assert CallOk(run[i], a, run[i].agents[a]);
    assert FreshOn(run[i], c, run[i].agents[a].what, run[i].agents[a].floor);
  }

  /**
   When a wait ends, every target has invalidated for this request since it was published, or has left the online
   set.
   */
  lemma TargetsAnsweredOrLeft(run: seq<State>, steps: seq<Step>, i: nat, a: Agent, c: Cpu)
    requires IsRun(run, steps) && i < |steps| && steps[i] == Initiate(a, LoadOnline)
    ensures a in run[i].agents && run[i].agents[a].Holding? && a in run[i + 1].agents
    ensures run[i + 1].agents[a].Returned? && c in run[i].agents[a].targets ==>
              c in run[i].invalidated || c !in run[i].online
  {
    RunKeepsInv(run, steps, i);
    assert CallNext(run[i], run[i + 1], a, LoadOnline);
    var pc := run[i].agents[a];
    assert CallOk(run[i], a, pc);
    if run[i + 1].agents[a].Returned? && c in run[i].online {
      NoneOutstanding(pc.targets, pc.phase.seen, run[i].online, c);
    }
  }

  /** Whoever is waited for is answering: its interrupt is on the way or in its handler. */
  lemma OutstandingIsComing(run: seq<State>, steps: seq<Step>, i: nat, a: Agent, c: Cpu)
    requires IsRun(run, steps) && i < |run| && a in run[i].agents && run[i].agents[a].Holding?
    requires run[i].agents[a].phase.Waiting? || run[i].agents[a].phase.Deciding?
    requires c in run[i].agents[a].targets && c in run[i].online && c !in run[i].acked
    ensures Busy(run[i], c)
  {
    RunKeepsInv(run, steps, i);
    assert CallOk(run[i], a, run[i].agents[a]);
    assert HandlerOk(run[i], c);
  }

  /** One request at a time: two agents never hold the request block together. */
  lemma OneRequestAtATime(run: seq<State>, steps: seq<Step>, i: nat, a: Agent, b: Agent)
    requires IsRun(run, steps) && i < |run| && a in run[i].agents && b in run[i].agents
    requires run[i].agents[a].Holding? && run[i].agents[b].Holding?
    ensures a == b
  {
    RunKeepsInv(run, steps, i);
    assert CallOk(run[i], a, run[i].agents[a]) && CallOk(run[i], b, run[i].agents[b]);
  }
}
