/**
 Object lifetime in the handle table: why a pointer loaded in a read section stays valid.

 A reader announces an epoch before it loads anything. A close or a sweep first takes the pointer
 out of the entry, then advances the epoch, then looks at every announcement until none is at or
 before the epoch it left. So as long as a section that loaded the pointer is open, either the
 entry still holds the object, or whoever took it out is still waiting and has not passed the
 reader's context.
 */
module HandleTableGrace {
  import opened HandleTable
  import opened HandleTableSafety

  // ---------- Epochs and contexts ----------

  ghost predicate EpochInv(s: State) {
    && (forall c <- s.observed :: s.observed[c].InSection? ==> s.observed[c].epoch <= s.epoch)
    && (forall a <- s.agents :: s.agents[a].Section? ==> Announced(s, s.agents[a]))
    && (forall a, b | a in s.agents && b in s.agents && a != b ::
          s.agents[a].Section? && s.agents[b].Section? ==> s.agents[a].ctx != s.agents[b].ctx)
  }

  ghost predicate Announced(s: State, pc: Pc)
    requires pc.Section?
  {
    && pc.ctx in s.observed
    && if pc.stage.Enter? then pc.stage.epoch <= s.epoch else s.observed[pc.ctx].InSection?
  }

  lemma SectionKeepsEpoch(s: State, s': State, a: Agent, step: SectionStep)
    requires LockInv(s) && EpochInv(s) && SectionNext(s, s', a, step)
    ensures EpochInv(s')
  {}

  /** Steps that change no announcement and enter no section. */
  lemma QuietKeepsEpoch(s: State, s': State, a: Agent)
    requires EpochInv(s) && Moves(s, s', a) && s'.observed == s.observed
    requires s'.agents[a].Section? ==>
               && s.agents[a].Section? && s'.agents[a].ctx == s.agents[a].ctx
               && !s.agents[a].stage.Enter? && !s'.agents[a].stage.Enter?
    ensures EpochInv(s')
  {}

  lemma SnapKeepsEpoch(s: State, s': State, a: Agent, step: SnapStep)
    requires LockInv(s) && EpochInv(s) && SnapNext(s, s', a, step)
    ensures EpochInv(s')
  {
    SnapFrame(s, s', a, step);
    QuietKeepsEpoch(s, s', a);
  }

  // ---------- Who keeps a loaded object alive ----------

  /** The entry still holds the object, at the issue it was loaded from. */
  ghost predicate Live(s: State, slot: Slot, issue: nat, obj: Obj) {
    slot < |s.entries| && s.entries[slot].issues == issue && s.entries[slot].ptr == At(obj)
  }

  /** Whether the agent is between taking references out of the table and the end of its grace wait. */
  predicate Waits(pc: Pc) {
    match pc
    case Want(job) => job.Defer? || job.Sweep?
    case Under(work) => WorkWaits(work)
    case Unpublished(_) => true
    case Synchronize(_, _, _) => true
    case _ => false
  }

  predicate WorkWaits(work: Work) {
    match work
    case Drain(job, _) => job.Defer? || job.Sweep?
    case Bump(job) => job.Defer? || job.Sweep?
    case Ready(job) => job.Defer? || job.Sweep?
    case Window(w, _) => w.Unpublish? || w.Reap?
    case Tag(_) => true
  }

  /** A scan under way is for an epoch the context's section is not past, and has not passed it. */
  ghost predicate Covers(s: State, ctx: Ctx, pc: Pc) {
    && ctx in s.observed
    && s.observed[ctx].InSection?
    && (pc.Synchronize? ==> s.observed[ctx].epoch <= pc.epoch && ctx !in pc.past)
  }

  ghost predicate Pending(s: State, w: Agent, ref: Ref, ctx: Ctx) {
    && w in s.agents && w in s.bags
    && ref in s.bags[w]
    && Waits(s.agents[w])
    && Covers(s, ctx, s.agents[w])
  }

  ghost predicate Anchored(s: State, slot: Slot, issue: nat, obj: Obj, ctx: Ctx) {
    Live(s, slot, issue, obj) || exists w :: Pending(s, w, Ref(obj, Issue(slot, issue)), ctx)
  }

  ghost predicate LifeOk(s: State, pc: Pc) {
    pc.Section? && pc.stage.Acquire? ==> Anchored(s, pc.call.slot, pc.stage.issue, pc.stage.obj, pc.ctx)
  }

  ghost predicate LifeInv(s: State) {
    forall a <- s.agents :: LifeOk(s, s.agents[a])
  }

  // ---------- A waiting agent goes on waiting for the reader ----------

  ghost predicate StillPending(s: State, s': State, a: Agent, ref: Ref, ctx: Ctx) {
    Pending(s, a, ref, ctx) ==> Pending(s', a, ref, ctx)
  }

  lemma DrainKeepsWaiter(s: State, s': State, a: Agent, step: DrainStep, ref: Ref, ctx: Ctx)
    requires DrainNext(s, s', a, step)
    ensures StillPending(s, s', a, ref, ctx)
  {}

  lemma RoomKeepsWaiter(s: State, s': State, a: Agent, step: RoomStep, ref: Ref, ctx: Ctx)
    requires RoomNext(s, s', a, step)
    ensures StillPending(s, s', a, ref, ctx)
  {}

  lemma PickKeepsWaiter(s: State, s': State, a: Agent, step: PickStep, ref: Ref, ctx: Ctx)
    requires PickNext(s, s', a, step)
    ensures StillPending(s, s', a, ref, ctx)
  {}

  lemma StoreKeepsWaiter(s: State, s': State, a: Agent, step: StoreStep, ref: Ref, ctx: Ctx)
    requires StoreNext(s, s', a, step)
    ensures StillPending(s, s', a, ref, ctx)
  {}

  /** The heart of the protocol: a scan cannot end while a section it must wait out is open. */
  lemma GraceKeepsWaiter(s: State, s': State, a: Agent, step: GraceStep, ref: Ref, ctx: Ctx)
    requires EpochInv(s) && GraceNext(s, s', a, step)
    ensures StillPending(s, s', a, ref, ctx)
  {}

  /** A pointer store that takes the object out leaves it pending with whoever stored. */
  lemma StoreKeepsLive(s: State, s': State, a: Agent, step: StoreStep, slot: Slot, issue: nat, obj: Obj, ctx: Ctx)
    requires a in s.bags && a in s.agents && PcOk(s, s.bags[a], s.agents[a]) && StoreNext(s, s', a, step)
    requires Live(s, slot, issue, obj) && ctx in s.observed && s.observed[ctx].InSection?
    ensures Live(s', slot, issue, obj) || Pending(s', a, Ref(obj, Issue(slot, issue)), ctx)
  {}

  // ---------- Lifetime is kept ----------

  /** What the reader `pc` needs of a step of another agent `a`. */
  ghost predicate Leaves(s: State, s': State, a: Agent, pc: Pc) {
    pc.Section? && pc.stage.Acquire? ==>
      && pc.ctx in s.observed && pc.ctx in s'.observed
      && s'.observed[pc.ctx] == s.observed[pc.ctx]
      && StillPending(s, s', a, Ref(pc.stage.obj, Issue(pc.call.slot, pc.stage.issue)), pc.ctx)
      && (Live(s, pc.call.slot, pc.stage.issue, pc.stage.obj) ==>
            Anchored(s', pc.call.slot, pc.stage.issue, pc.stage.obj, pc.ctx))
  }

  lemma OthersKeepLife(s: State, s': State, a: Agent, pc: Pc)
    requires LifeOk(s, pc) && Moves(s, s', a) && s.bags.Keys == s.agents.Keys
    requires forall b <- s.bags :: b != a ==> b in s'.bags && s'.bags[b] == s.bags[b]
    requires Leaves(s, s', a, pc)
    ensures LifeOk(s', pc)
  {
    if pc.Section? && pc.stage.Acquire? {
      var ref := Ref(pc.stage.obj, Issue(pc.call.slot, pc.stage.issue));
      if !Live(s, pc.call.slot, pc.stage.issue, pc.stage.obj) {
        var w :| Pending(s, w, ref, pc.ctx);
        assert Pending(s', w, ref, pc.ctx);
      }
    }
  }

  lemma KeepsLife(s: State, s': State, a: Agent)
    requires LockInv(s) && LifeInv(s) && Moves(s, s', a)
    requires forall b <- s.bags :: b != a ==> b in s'.bags && s'.bags[b] == s.bags[b]
    requires LifeOk(s', s'.agents[a])
    requires forall b <- s.agents :: b != a ==> Leaves(s, s', a, s.agents[b])
    ensures LifeInv(s')
  {
    forall b | b in s'.agents && b != a
      ensures LifeOk(s', s'.agents[b])
    {
      OthersKeepLife(s, s', a, s.agents[b]);
    }
  }

  /** Callers and readers hold nothing a grace wait is for, and touch no announcement but their own. */
  lemma ReadersLeave(s: State, s': State, a: Agent, pc: Pc)
    requires a in s.agents && !Waits(s.agents[a]) && s'.entries == s.entries
    requires pc.Section? ==> pc.ctx in s.observed && pc.ctx in s'.observed && s'.observed[pc.ctx] == s.observed[pc.ctx]
    ensures Leaves(s, s', a, pc)
  {}

  lemma RefKeepsLife(s: State, s': State, a: Agent, step: RefStep)
    requires LockInv(s) && LifeInv(s) && RefNext(s, s', a, step)
    ensures LifeInv(s')
  {
    RefFrame(s, s', a, step);
    forall b | b in s.agents && b != a
      ensures Leaves(s, s', a, s.agents[b])
    {
      ReadersLeave(s, s', a, s.agents[b]);
    }
    KeepsLife(s, s', a);
  }

  lemma StartKeepsLife(s: State, s': State, a: Agent, step: StartStep)
    requires LockInv(s) && LifeInv(s) && StartNext(s, s', a, step)
    ensures LifeInv(s')
  {
    StartFrame(s, s', a, step);
    forall b | b in s.agents && b != a
      ensures Leaves(s, s', a, s.agents[b])
    {
      ReadersLeave(s, s', a, s.agents[b]);
    }
    KeepsLife(s, s', a);
  }

  lemma SectionKeepsLife(s: State, s': State, a: Agent, step: SectionStep)
    requires LockInv(s) && EpochInv(s) && LifeInv(s) && SectionNext(s, s', a, step)
    ensures LifeInv(s')
  {
    SectionFrame(s, s', a, step);
    forall b | b in s.agents && b != a
      ensures Leaves(s, s', a, s.agents[b])
    {
      ReadersLeave(s, s', a, s.agents[b]);
    }
    KeepsLife(s, s', a);
  }

  /** A pointer just loaded is the entry's. */
  lemma SnapKeepsLife(s: State, s': State, a: Agent, step: SnapStep)
    requires LockInv(s) && LifeInv(s) && SnapNext(s, s', a, step)
    ensures LifeInv(s')
  {
    SnapFrame(s, s', a, step);
    forall b | b in s.agents && b != a
      ensures Leaves(s, s', a, s.agents[b])
    {
      ReadersLeave(s, s', a, s.agents[b]);
    }
    assert LifeOk(s', s'.agents[a]);
    KeepsLife(s, s', a);
  }

  lemma DrainKeepsLife(s: State, s': State, a: Agent, step: DrainStep)
    requires LockInv(s) && LifeInv(s) && DrainNext(s, s', a, step)
    ensures LifeInv(s')
  {
    DrainFrame(s, s', a, step);
    forall b | b in s.agents && b != a
      ensures Leaves(s, s', a, s.agents[b])
    {
      var pc := s.agents[b];
      if pc.Section? && pc.stage.Acquire? {
        DrainKeepsWaiter(s, s', a, step, Ref(pc.stage.obj, Issue(pc.call.slot, pc.stage.issue)), pc.ctx);
      }
    }
    KeepsLife(s, s', a);
  }

  lemma RoomKeepsLife(s: State, s': State, a: Agent, step: RoomStep)
    requires LockInv(s) && LifeInv(s) && RoomNext(s, s', a, step)
    ensures LifeInv(s')
  {
    RoomFrame(s, s', a, step);
    forall b | b in s.agents && b != a
      ensures Leaves(s, s', a, s.agents[b])
    {
      var pc := s.agents[b];
      if pc.Section? && pc.stage.Acquire? {
        RoomKeepsWaiter(s, s', a, step, Ref(pc.stage.obj, Issue(pc.call.slot, pc.stage.issue)), pc.ctx);
      }
    }
    KeepsLife(s, s', a);
  }

  lemma PickKeepsLife(s: State, s': State, a: Agent, step: PickStep)
    requires LockInv(s) && LifeInv(s) && PickNext(s, s', a, step)
    ensures LifeInv(s')
  {
    PickFrame(s, s', a, step);
    forall b | b in s.agents && b != a
      ensures Leaves(s, s', a, s.agents[b])
    {
      var pc := s.agents[b];
      if pc.Section? && pc.stage.Acquire? {
        PickKeepsWaiter(s, s', a, step, Ref(pc.stage.obj, Issue(pc.call.slot, pc.stage.issue)), pc.ctx);
      }
    }
    KeepsLife(s, s', a);
  }

  lemma StoreKeepsLife(s: State, s': State, a: Agent, step: StoreStep)
    requires LockInv(s) && EpochInv(s) && LifeInv(s) && StoreNext(s, s', a, step)
    requires PcOk(s, s.bags[a], s.agents[a])
    ensures LifeInv(s')
  {
    StoreFrame(s, s', a, step);
    StoreBags(s, s', a, step);
    forall b | b in s.agents && b != a
      ensures Leaves(s, s', a, s.agents[b])
    {
      var pc := s.agents[b];
      if pc.Section? && pc.stage.Acquire? {
        assert Announced(s, pc);
        StoreKeepsWaiter(s, s', a, step, Ref(pc.stage.obj, Issue(pc.call.slot, pc.stage.issue)), pc.ctx);
        if Live(s, pc.call.slot, pc.stage.issue, pc.stage.obj) {
          StoreKeepsLive(s, s', a, step, pc.call.slot, pc.stage.issue, pc.stage.obj, pc.ctx);
        }
      }
    }
    KeepsLife(s, s', a);
  }

  lemma StoreBags(s: State, s': State, a: Agent, step: StoreStep)
    requires StoreNext(s, s', a, step)
    ensures forall b <- s.bags :: b != a ==> b in s'.bags && s'.bags[b] == s.bags[b]
  {}

  lemma GraceKeepsLife(s: State, s': State, a: Agent, step: GraceStep)
    requires LockInv(s) && EpochInv(s) && LifeInv(s) && GraceNext(s, s', a, step)
    ensures LifeInv(s')
  {
    GraceFrame(s, s', a, step);
    forall b | b in s.agents && b != a
      ensures Leaves(s, s', a, s.agents[b])
    {
      var pc := s.agents[b];
      if pc.Section? && pc.stage.Acquire? {
        GraceKeepsWaiter(s, s', a, step, Ref(pc.stage.obj, Issue(pc.call.slot, pc.stage.issue)), pc.ctx);
      }
    }
    KeepsLife(s, s', a);
  }
}
