/**
 What every step of the handle table keeps.

 Each invariant is about one concern (the lock, the write windows, a lookup's snapshot, the grace
 protocol). A step changes one agent and little else, so each proof has two halves: the agent that
 stepped, one family of steps at a time, and every other agent.
 */
module HandleTableSafety {
  import opened HandleTable

  // ---------- The lock ----------

  /** Whoever is doing locked work holds the lock; a read section has a context to announce in. */
  ghost predicate LockInv(s: State) {
    && s.bags.Keys == s.agents.Keys
    && (forall a <- s.agents :: s.agents[a].Under? ==> s.lock == Held(a))
    && (forall a <- s.agents :: s.agents[a].Section? ==> s.agents[a].ctx in s.observed)
  }

  // ---------- What each family of steps leaves alone ----------

  ghost predicate Moves(s: State, s': State, a: Agent) {
    && a in s.agents
    && a in s'.agents
    && s'.agents == s.agents[a := s'.agents[a]]
    && s'.observed.Keys == s.observed.Keys
    && s.epoch <= s'.epoch
  }

  lemma LiftLock(s: State, s': State, a: Agent)
    requires LockInv(s) && Moves(s, s', a) && s'.bags.Keys == s.bags.Keys
    requires s'.agents[a].Under? ==> s'.lock == Held(a)
    requires s'.lock == s.lock || s.lock == Held(a) || s.lock == Free
    requires s'.agents[a].Section? ==> s'.agents[a].ctx in s.observed
    ensures LockInv(s')
  {}

  lemma RefFrame(s: State, s': State, a: Agent, step: RefStep)
    requires LockInv(s) && RefNext(s, s', a, step)
    ensures LockInv(s') && Moves(s, s', a)
    ensures s' == s.(agents := s'.agents, refs := s'.refs, bags := s'.bags)
    ensures s'.agents[a] == s.agents[a] || s'.agents[a].Idle?
    ensures !s.agents[a].Under?
  {
    LiftLock(s, s', a);
  }

  lemma StartFrame(s: State, s': State, a: Agent, step: StartStep)
    requires LockInv(s) && StartNext(s, s', a, step)
    ensures LockInv(s') && Moves(s, s', a)
    ensures s' == s.(agents := s'.agents)
    ensures s'.agents[a].LookupEpoch? || s'.agents[a].Want?
    ensures !s.agents[a].Under?
  {
    LiftLock(s, s', a);
  }

  lemma SectionFrame(s: State, s': State, a: Agent, step: SectionStep)
    requires LockInv(s) && SectionNext(s, s', a, step)
    ensures LockInv(s') && Moves(s, s', a)
    ensures s' == s.(agents := s'.agents, refs := s'.refs, observed := s'.observed, bags := s'.bags)
    ensures !s.agents[a].Under?
  {
    LiftLock(s, s', a);
  }

  lemma SnapFrame(s: State, s': State, a: Agent, step: SnapStep)
    requires LockInv(s) && SnapNext(s, s', a, step)
    ensures LockInv(s') && Moves(s, s', a)
    ensures s' == s.(agents := s'.agents)
    ensures !s.agents[a].Under?
  {
    LiftLock(s, s', a);
  }

  lemma DrainFrame(s: State, s': State, a: Agent, step: DrainStep)
    requires LockInv(s) && DrainNext(s, s', a, step)
    ensures LockInv(s') && Moves(s, s', a)
    ensures s' == s.(agents := s'.agents, free := s'.free, ring := s'.ring, lock := s'.lock, epoch := s'.epoch)
    ensures s'.agents[a].Under?
    ensures s.agents[a].Under? ==> !s.agents[a].work.Window?
    ensures !s.agents[a].Section? && !s.agents[a].Taken? && !s'.agents[a].Section? && !s'.agents[a].Taken?
  {
    LiftLock(s, s', a);
  }

  lemma RoomFrame(s: State, s': State, a: Agent, step: RoomStep)
    requires LockInv(s) && RoomNext(s, s', a, step)
    ensures LockInv(s') && Moves(s, s', a)
    ensures s' == s.(agents := s'.agents, entries := s'.entries, free := s'.free, ring := s'.ring, lock := s'.lock)
    ensures |s.entries| <= |s'.entries|
    ensures forall i {:trigger s'.entries[i]} :: 0 <= i < |s'.entries| ==>
        s'.entries[i] == if i < |s.entries| then s.entries[i] else FRESH
    ensures s'.lock.Free?
    ensures s.agents[a].Under? ==> !s.agents[a].work.Window?
    ensures !s.agents[a].Section? && !s.agents[a].Taken? && !s'.agents[a].Section? && !s'.agents[a].Taken?
  {
    LiftLock(s, s', a);
  }

  lemma PickFrame(s: State, s': State, a: Agent, step: PickStep)
    requires LockInv(s) && PickNext(s, s', a, step)
    ensures LockInv(s') && Moves(s, s', a)
    ensures s' == s.(agents := s'.agents, free := s'.free, ring := s'.ring, lock := s'.lock)
    ensures s.agents[a].Under? ==> !s.agents[a].work.Window?
    ensures !s.agents[a].Section? && !s.agents[a].Taken? && !s'.agents[a].Section? && !s'.agents[a].Taken?
  {
    LiftLock(s, s', a);
  }

  lemma StoreFrame(s: State, s': State, a: Agent, step: StoreStep)
    requires LockInv(s) && StoreNext(s, s', a, step)
    ensures LockInv(s') && Moves(s, s', a)
    ensures s' == s.(agents := s'.agents, entries := s'.entries, lock := s'.lock, bags := s'.bags,
              installs := s'.installs, out := s'.out)
    ensures s.lock == Held(a) && s.agents[a].Under? && s.agents[a].work.Window?
    ensures s.agents[a].work.w.slot < |s.entries| == |s'.entries|
    ensures s'.entries == s.entries[s.agents[a].work.w.slot := s'.entries[s.agents[a].work.w.slot]]
    ensures !s'.agents[a].Section? && !s'.agents[a].Taken?
  {
    LiftLock(s, s', a);
  }

  lemma GraceFrame(s: State, s': State, a: Agent, step: GraceStep)
    requires LockInv(s) && GraceNext(s, s', a, step)
    ensures LockInv(s') && Moves(s, s', a)
    ensures s' == s.(agents := s'.agents, epoch := s'.epoch)
    ensures !s'.agents[a].Under? && !s'.agents[a].Section? && !s'.agents[a].Taken?
    ensures !s.agents[a].Under?
  {
    LiftLock(s, s', a);
  }

  // ---------- Write windows ----------

  /** What an agent's place in its call says about its entry and about the references it holds. */
  ghost predicate PcOk(s: State, bag: seq<Ref>, pc: Pc) {
    match pc
    case LookupEpoch(call) => bag == [] && call.slot < |s.entries|
    case Section(call, _, stage) =>
      call.slot < |s.entries| && bag == if stage.Leave? then [Ref(stage.obj, Elsewhere)] else []
    case Taken(call, obj, _) => call.slot < |s.entries| && bag == [Ref(obj, Elsewhere)]
    case Want(job) => JobOk(s, bag, job)
    case GrowCheck(_) => |bag| == 1
    case Growing(_, _) => |bag| == 1
    case Under(work) => WorkOk(s, bag, work)
    case Unpublished(after) => AfterOk(s, bag, after)
    case Synchronize(after, _, _) => AfterOk(s, bag, after)
    case Between(_, cursor, _, _) => cursor <= |s.entries|
    case Idle => true
  }

  ghost predicate AfterOk(s: State, bag: seq<Ref>, after: After) {
    match after
    case ToCaller => |bag| == 1
    case ToSweep(_, cursor, _, _) => cursor <= |s.entries|
  }

  ghost predicate JobOk(s: State, bag: seq<Ref>, job: Job) {
    match job
    case Install(_) => |bag| == 1
    case Close(call) => bag == [] && call.slot < |s.entries|
    case Restrict(call) => call.slot < |s.entries|
    case Defer(slot, _) => |bag| == 1 && slot < |s.entries|
    case Sweep(_, cursor, _) => cursor <= |s.entries|
  }

  ghost predicate WorkOk(s: State, bag: seq<Ref>, work: Work) {
    match work
    case Drain(job, _) => JobOk(s, bag, job) && !job.Close? && !job.Restrict?
    case Bump(job) => JobOk(s, bag, job) && !job.Close? && !job.Restrict?
    case Ready(job) => JobOk(s, bag, job)
    case Window(w, phase) => w.slot < |s.entries| && WindowOk(s.entries[w.slot], bag, w, phase)
    case Tag(slot) => |bag| == 1 && slot < |s.entries|
  }

  ghost predicate WindowOk(e: Entry, bag: seq<Ref>, w: Write, phase: Phase) {
    && (!phase.Open? ==> e.version % 2 == 1)
    && (phase.Fill? ==> phase.todo <= Touched(w))
    && match w
       case Publish(_, _) => if phase.Shut? then e.ptr.At? && bag == [] else e.ptr.Null? && |bag| == 1
       case Attenuate(_, src, asked) =>
         && e.ptr.At?
         && src.rights <= asked
         && src.rights == if HasStored(phase, Rights) then e.meta.rights else e.meta.rights * asked
       case Unpublish(_) => if phase.Shut? then e.ptr.Null? && |bag| == 1 else e.ptr.At? && bag == []
       case Reap(_, pid, _) => e.meta.owner == pid && if phase.Shut? then e.ptr.Null? else e.ptr.At?
  }

  /** The window's field `f` has been stored. */
  predicate HasStored(phase: Phase, f: Field) {
    phase.Shut? || (phase.Fill? && f !in phase.todo)
  }

  ghost predicate PcInv(s: State) {
    && s.bags.Keys == s.agents.Keys
    && forall a <- s.agents :: PcOk(s, s.bags[a], s.agents[a])
  }

  /** An odd version is a window someone has open. */
  ghost predicate OddInv(s: State) {
    forall i: Slot :: i < |s.entries| && s.entries[i].version % 2 == 1 ==> WindowOpen(s, i)
  }

  ghost predicate WindowOpen(s: State, i: Slot) {
    && s.lock.Held? && s.lock.holder in s.agents
    && var pc := s.agents[s.lock.holder];
       pc.Under? && pc.work.Window? && !pc.work.phase.Open? && pc.work.w.slot == i
  }

  lemma PcOkFrame(s: State, s': State, bag: seq<Ref>, pc: Pc)
    requires PcOk(s, bag, pc) && |s.entries| <= |s'.entries|
    requires pc.Under? && pc.work.Window? ==> s'.entries[pc.work.w.slot] == s.entries[pc.work.w.slot]
    ensures PcOk(s', bag, pc)
  {}

  /** An agent other than the one that stepped keeps what it knows. */
  lemma OthersKeepPc(s: State, s': State, a: Agent)
    requires LockInv(s) && PcInv(s) && Moves(s, s', a) && |s.entries| <= |s'.entries|
    requires s'.bags.Keys == s.bags.Keys && forall b <- s.bags :: b != a ==> s'.bags[b] == s.bags[b]
    requires (forall i :: 0 <= i < |s.entries| ==> s'.entries[i] == s.entries[i]) || s.lock == Held(a)
    requires PcOk(s', s'.bags[a], s'.agents[a])
    ensures PcInv(s')
  {
    forall b | b in s'.agents
      ensures PcOk(s', s'.bags[b], s'.agents[b])
    {
      if b != a {
        PcOkFrame(s, s', s.bags[b], s.agents[b]);
      }
    }
  }

  lemma RefKeepsPc(s: State, s': State, a: Agent, step: RefStep)
    requires LockInv(s) && PcInv(s) && RefNext(s, s', a, step)
    ensures PcInv(s')
  {
    RefFrame(s, s', a, step);
    OthersKeepPc(s, s', a);
  }

  lemma StartKeepsPc(s: State, s': State, a: Agent, step: StartStep)
    requires LockInv(s) && PcInv(s) && StartNext(s, s', a, step)
    ensures PcInv(s')
  {
    StartFrame(s, s', a, step);
    OthersKeepPc(s, s', a);
  }

  lemma SectionKeepsPc(s: State, s': State, a: Agent, step: SectionStep)
    requires LockInv(s) && PcInv(s) && SectionNext(s, s', a, step)
    ensures PcInv(s')
  {
    SectionFrame(s, s', a, step);
    OthersKeepPc(s, s', a);
  }

  lemma SnapKeepsPc(s: State, s': State, a: Agent, step: SnapStep)
    requires LockInv(s) && PcInv(s) && SnapNext(s, s', a, step)
    ensures PcInv(s')
  {
    SnapFrame(s, s', a, step);
    OthersKeepPc(s, s', a);
  }

  lemma DrainKeepsPc(s: State, s': State, a: Agent, step: DrainStep)
    requires LockInv(s) && PcInv(s) && DrainNext(s, s', a, step)
    ensures PcInv(s')
  {
    DrainFrame(s, s', a, step);
    OthersKeepPc(s, s', a);
  }

  lemma RoomKeepsPc(s: State, s': State, a: Agent, step: RoomStep)
    requires LockInv(s) && PcInv(s) && RoomNext(s, s', a, step)
    ensures PcInv(s')
  {
    RoomFrame(s, s', a, step);
    OthersKeepPc(s, s', a);
  }

  lemma PickKeepsPc(s: State, s': State, a: Agent, step: PickStep)
    requires LockInv(s) && PcInv(s) && PickNext(s, s', a, step)
    requires step.PickFree? ==> s.entries[step.slot].ptr.Null?
    ensures PcInv(s')
  {
    PickFrame(s, s', a, step);
    OthersKeepPc(s, s', a);
  }

  lemma StoreKeepsPc(s: State, s': State, a: Agent, step: StoreStep)
    requires LockInv(s) && PcInv(s) && OddInv(s) && StoreNext(s, s', a, step)
    ensures PcInv(s')
  {
    StoreFrame(s, s', a, step);
    StoreKeepsOwnPc(s, s', a, step);
    OthersKeepPc(s, s', a);
  }

  lemma StoreKeepsOwnPc(s: State, s': State, a: Agent, step: StoreStep)
    requires a in s.agents && a in s.bags && PcOk(s, s.bags[a], s.agents[a]) && StoreNext(s, s', a, step)
    requires forall i: Slot :: i < |s.entries| && s.entries[i].version % 2 == 1 ==> WindowOpen(s, i)
    requires s.lock == Held(a)
    ensures a in s'.agents && a in s'.bags && PcOk(s', s'.bags[a], s'.agents[a])
  {}

  lemma GraceKeepsPc(s: State, s': State, a: Agent, step: GraceStep)
    requires LockInv(s) && PcInv(s) && GraceNext(s, s', a, step)
    ensures PcInv(s')
  {
    GraceFrame(s, s', a, step);
    OthersKeepPc(s, s', a);
  }

  /** Steps that open and shut no window. */
  lemma QuietKeepsOdd(s: State, s': State, a: Agent)
    requires LockInv(s) && OddInv(s) && Moves(s, s', a) && |s.entries| <= |s'.entries|
    requires s.agents[a].Under? ==> !s.agents[a].work.Window?
    requires forall i {:trigger s'.entries[i]} :: 0 <= i < |s'.entries| ==>
        s'.entries[i] == if i < |s.entries| then s.entries[i] else FRESH
    requires s'.lock == s.lock || s.lock == Held(a) || s.lock == Free
    ensures OddInv(s')
  {
    forall i: Slot | i < |s'.entries| && s'.entries[i].version % 2 == 1
      ensures WindowOpen(s', i)
    {
      assert WindowOpen(s, i);
    }
  }

  lemma StoreKeepsOdd(s: State, s': State, a: Agent, step: StoreStep)
    requires LockInv(s) && PcInv(s) && OddInv(s) && StoreNext(s, s', a, step)
    ensures OddInv(s')
  {
    StoreFrame(s, s', a, step);
    assert PcOk(s, s.bags[a], s.agents[a]);
    forall i: Slot | i < |s'.entries| && s'.entries[i].version % 2 == 1
      ensures WindowOpen(s', i)
    {
      if s'.entries[i] == s.entries[i] {
        assert WindowOpen(s, i);
      }
    }
  }

  // ---------- A lookup's snapshot ----------

  /** While the version is still the one first seen, everything loaded since is what the entry holds. */
  ghost predicate SnapOk(s: State, pc: Pc) {
    match pc
    case Section(call, _, stage) =>
      (stage.Fields? || stage.Pointer? || stage.Acquire? || stage.Leave?) ==>
        && call.slot < |s.entries|
        && var e := s.entries[call.slot];
           stage.seen % 2 == 0 && stage.seen <= e.version && (e.version == stage.seen ==> StageOk(e, stage))
    case Taken(call, obj, outcome) =>
      outcome.Recheck? ==>
        && call.slot < |s.entries|
        && var e := s.entries[call.slot];
           && outcome.seen % 2 == 0 && outcome.seen <= e.version
           && (e.version == outcome.seen ==> outcome.got == e.meta && e.ptr == At(obj))
    case _ => true
  }

  ghost predicate StageOk(e: Entry, stage: Stage) {
    match stage
    case Fields(_, got, have) => forall f <- have :: Agree(f, got, e.meta)
    case Pointer(_, got) => got == e.meta
    case Acquire(_, got, obj, _) => got == e.meta && e.ptr == At(obj)
    case Leave(_, got, obj) => got == e.meta && e.ptr == At(obj)
    case _ => true
  }

  ghost predicate SnapInv(s: State) {
    forall a <- s.agents :: SnapOk(s, s.agents[a])
  }

  lemma AllFieldsAgree(a: Meta, b: Meta)
    requires forall f <- ALL_FIELDS :: Agree(f, a, b)
    ensures a == b
  {
    assert Agree(Generation, a, b) && Agree(Owner, a, b) && Agree(Rights, a, b) && Agree(Kind, a, b);
  }

  lemma PutAgrees(got: Meta, have: set<Field>, f: Field, m: Meta)
    requires forall g <- have :: Agree(g, got, m)
    ensures forall g <- have + {f} :: Agree(g, Put(got, f, m), m)
  {}

  lemma SnapLocal(s: State, s': State, a: Agent, step: SnapStep)
    requires a in s.agents && SnapOk(s, s.agents[a]) && SnapNext(s, s', a, step)
    ensures a in s'.agents && SnapOk(s', s'.agents[a])
  {
    var pc := s.agents[a];
    var e := s.entries[pc.call.slot];
    match step
    case LoadField(f) =>
      if e.version == pc.stage.seen {
        PutAgrees(pc.stage.got, pc.stage.have, f, e.meta);
      }
    case LoadSeqAgain =>
      if e.version == pc.stage.seen {
        AllFieldsAgree(pc.stage.got, e.meta);
      }
    case _ =>
  }

  lemma SectionLocal(s: State, s': State, a: Agent, step: SectionStep)
    requires a in s.agents && SnapOk(s, s.agents[a]) && SectionNext(s, s', a, step)
    ensures a in s'.agents && SnapOk(s', s'.agents[a])
  {}

  /** A step that leaves every entry alone, or adds some. */
  lemma OthersKeepSnap(s: State, s': State, a: Agent)
    requires SnapInv(s) && Moves(s, s', a) && |s.entries| <= |s'.entries|
    requires forall i {:trigger s'.entries[i]} :: 0 <= i < |s.entries| ==> s'.entries[i] == s.entries[i]
    requires SnapOk(s', s'.agents[a])
    ensures SnapInv(s')
  {}

  /** A window moves the version before it touches anything else, so no snapshot outlives one. */
  lemma StoreKeepsSnap(s: State, s': State, a: Agent, step: StoreStep)
    requires LockInv(s) && PcInv(s) && OddInv(s) && SnapInv(s) && StoreNext(s, s', a, step)
    ensures SnapInv(s')
  {
    StoreFrame(s, s', a, step);
    assert PcOk(s, s.bags[a], s.agents[a]);
    var slot := s.agents[a].work.w.slot;
    StoreMovesVersion(s, s', a, step);
    forall b | b in s'.agents
      ensures SnapOk(s', s'.agents[b])
    {
      if b != a {
        assert SnapOk(s, s.agents[b]);
      }
    }
  }

  lemma StoreMovesVersion(s: State, s': State, a: Agent, step: StoreStep)
    requires a in s.agents && a in s.bags && PcOk(s, s.bags[a], s.agents[a]) && StoreNext(s, s', a, step)
    ensures var slot := s.agents[a].work.w.slot;
            && |s'.entries| == |s.entries|
            && s.entries[slot].version <= s'.entries[slot].version
            && (s.entries[slot].version == s'.entries[slot].version ==> s.entries[slot].version % 2 == 1)
  {}
}
