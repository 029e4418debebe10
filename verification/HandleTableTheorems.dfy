/**
 What the handle table promises, over every run of any number of agents.
 */
module HandleTableTheorems {
  import opened Common
  import opened HandleTable
  import opened HandleTableSafety
  import opened HandleTableGrace
  import opened HandleTableRefs
  import opened HandleTableSlots
  import opened HandleTableHistory
  import opened HandleTableReuse

  // ---------- The invariant ----------

  /** Who is where: the lock, each agent's program point, the write windows and the snapshots. */
  ghost predicate Control(s: State) {
    LockInv(s) && PcInv(s) && OddInv(s) && SnapInv(s)
  }

  /** Who holds what: grace periods, reference counts and slots. */
  ghost predicate Custody(s: State) {
    EpochInv(s) && LifeInv(s) && RefInv(s) && SlotInv(s)
  }

  /** What has happened: issues, closes, sweeps and deferred reuse. */
  ghost predicate Record(s: State) {
    GenInv(s) && OutInv(s) && SweepInv(s) && ReuseInv(s)
  }

  ghost predicate Inv(s: State) {
    Control(s) && Custody(s) && Record(s)
  }

  lemma InitControl(s: State)
    requires Init(s)
    ensures Control(s)
  {}

  lemma InitRefs(s: State)
    requires Init(s)
    ensures RefInv(s)
  {
    forall o: Obj
      ensures Count(s.refs, o) == |Holders(s.entries, s.bags, o)|
    {
      assert Holders(s.entries, s.bags, o) == {};
    }
  }

  lemma InitSlots(s: State)
    requires Init(s)
    ensures SlotInv(s)
  {
    var places := seq(|s.entries|, _ => IsFree);
    forall i: Slot | i < |places|
      ensures Located(s, i, places[i])
    {
      assert s.entries[i].ptr.Null?;
    }
    assert Placed(s, places);
  }

  lemma InitCustody(s: State)
    requires Init(s)
    ensures Custody(s)
  {
    InitRefs(s);
    InitSlots(s);
  }

  lemma InitRecord(s: State)
    requires Init(s)
    ensures Record(s)
  {}

  // ---------- Every step keeps it ----------

  /** Entries stay as they are, except that fresh ones may be appended. */
  ghost predicate EntriesStay(s: State, s': State) {
    && |s.entries| <= |s'.entries|
    && forall i {:trigger s'.entries[i]} :: 0 <= i < |s'.entries| ==>
         s'.entries[i] == if i < |s.entries| then s.entries[i] else FRESH
  }

  lemma QuietKeepsRecord(s: State, s': State, a: Agent)
    requires LockInv(s) && GenInv(s) && OutInv(s) && SweepInv(s) && Moves(s, s', a) && EntriesStay(s, s')
    requires s'.out == s.out && s'.installs == s.installs
    requires !Installing(s.agents[a]) && !Installing(s'.agents[a])
    requires s'.lock == s.lock || s.lock == Held(a) || s.lock == Free
    requires SweepView(s'.agents[a]) == SweepView(s.agents[a]) || SweepView(s'.agents[a]) == NoSweep
    ensures GenInv(s') && OutInv(s') && SweepInv(s')
  {
    QuietKeepsGen(s, s', a);
    QuietKeepsOut(s, s');
    assert Behind(s, SweepView(s.agents[a]));
    BehindSame(s, s', SweepView(s'.agents[a]));
    QuietKeepsSweep(s, s', a);
  }

  lemma RefKeepsControl(s: State, s': State, a: Agent, step: RefStep)
    requires Control(s) && RefNext(s, s', a, step)
    ensures Control(s')
  {
    RefFrame(s, s', a, step);
    RefKeepsPc(s, s', a, step);
    QuietKeepsOdd(s, s', a);
    OthersKeepSnap(s, s', a);
  }

  lemma RefKeepsCustody(s: State, s': State, a: Agent, step: RefStep)
    requires Control(s) && Custody(s) && RefNext(s, s', a, step)
    ensures Custody(s')
  {
    RefFrame(s, s', a, step);
    QuietKeepsEpoch(s, s', a);
    RefKeepsLife(s, s', a, step);
    RefKeepsRefs(s, s', a, step);
    QuietKeepsSlots(s, s', a);
  }

  lemma RefKeepsInv(s: State, s': State, a: Agent, step: RefStep)
    requires Inv(s) && RefNext(s, s', a, step)
    ensures Inv(s')
  {
    RefKeepsControl(s, s', a, step);
    RefKeepsCustody(s, s', a, step);
    RefFrame(s, s', a, step);
    QuietKeepsRecord(s, s', a);
    AsideKeepsReuse(s, s', a);
  }

  lemma StartKeepsControl(s: State, s': State, a: Agent, step: StartStep)
    requires Control(s) && StartNext(s, s', a, step)
    ensures Control(s')
  {
    StartFrame(s, s', a, step);
    StartKeepsPc(s, s', a, step);
    QuietKeepsOdd(s, s', a);
    OthersKeepSnap(s, s', a);
  }

  lemma StartKeepsCustody(s: State, s': State, a: Agent, step: StartStep)
    requires Control(s) && Custody(s) && StartNext(s, s', a, step)
    ensures Custody(s')
  {
    StartFrame(s, s', a, step);
    QuietKeepsEpoch(s, s', a);
    StartKeepsLife(s, s', a, step);
    QuietKeepsRefs(s, s');
    QuietKeepsSlots(s, s', a);
  }

  lemma StartKeepsInv(s: State, s': State, a: Agent, step: StartStep)
    requires Inv(s) && StartNext(s, s', a, step)
    ensures Inv(s')
  {
    StartKeepsControl(s, s', a, step);
    StartKeepsCustody(s, s', a, step);
    StartFrame(s, s', a, step);
    StartKeepsRecord(s, s', a, step);
    AsideKeepsReuse(s, s', a);
  }

  /** A sweep starts with nothing behind it. */
  lemma StartKeepsRecord(s: State, s': State, a: Agent, step: StartStep)
    requires LockInv(s) && Record(s) && StartNext(s, s', a, step)
    ensures GenInv(s') && OutInv(s') && SweepInv(s')
  {
    StartFrame(s, s', a, step);
    QuietKeepsGen(s, s', a);
    QuietKeepsOut(s, s');
    assert Behind(s', SweepView(s'.agents[a]));
    QuietKeepsSweep(s, s', a);
  }

  lemma SectionKeepsControl(s: State, s': State, a: Agent, step: SectionStep)
    requires Control(s) && SectionNext(s, s', a, step)
    ensures Control(s')
  {
    SectionFrame(s, s', a, step);
    SectionKeepsPc(s, s', a, step);
    QuietKeepsOdd(s, s', a);
    SectionLocal(s, s', a, step);
    OthersKeepSnap(s, s', a);
  }

  lemma SectionKeepsCustody(s: State, s': State, a: Agent, step: SectionStep)
    requires Control(s) && Custody(s) && SectionNext(s, s', a, step)
    ensures Custody(s')
  {
    SectionFrame(s, s', a, step);
    SectionKeepsEpoch(s, s', a, step);
    SectionKeepsLife(s, s', a, step);
    SectionKeepsRefs(s, s', a, step);
    QuietKeepsSlots(s, s', a);
  }

  lemma SectionKeepsInv(s: State, s': State, a: Agent, step: SectionStep)
    requires Inv(s) && SectionNext(s, s', a, step)
    ensures Inv(s')
  {
    SectionKeepsControl(s, s', a, step);
    SectionKeepsCustody(s, s', a, step);
    SectionFrame(s, s', a, step);
    QuietKeepsRecord(s, s', a);
    SectionKeepsReuse(s, s', a, step);
  }

  lemma SnapKeepsControl(s: State, s': State, a: Agent, step: SnapStep)
    requires Control(s) && SnapNext(s, s', a, step)
    ensures Control(s')
  {
    SnapFrame(s, s', a, step);
    SnapKeepsPc(s, s', a, step);
    QuietKeepsOdd(s, s', a);
    SnapLocal(s, s', a, step);
    OthersKeepSnap(s, s', a);
  }

  lemma SnapKeepsCustody(s: State, s': State, a: Agent, step: SnapStep)
    requires Control(s) && Custody(s) && SnapNext(s, s', a, step)
    ensures Custody(s')
  {
    SnapFrame(s, s', a, step);
    SnapKeepsEpoch(s, s', a, step);
    SnapKeepsLife(s, s', a, step);
    QuietKeepsRefs(s, s');
    QuietKeepsSlots(s, s', a);
  }

  lemma SnapKeepsInv(s: State, s': State, a: Agent, step: SnapStep)
    requires Inv(s) && SnapNext(s, s', a, step)
    ensures Inv(s')
  {
    SnapKeepsControl(s, s', a, step);
    SnapKeepsCustody(s, s', a, step);
    SnapFrame(s, s', a, step);
    QuietKeepsRecord(s, s', a);
    SnapKeepsReuse(s, s', a, step);
  }

  lemma DrainKeepsControl(s: State, s': State, a: Agent, step: DrainStep)
    requires Control(s) && DrainNext(s, s', a, step)
    ensures Control(s')
  {
    DrainFrame(s, s', a, step);
    DrainKeepsPc(s, s', a, step);
    QuietKeepsOdd(s, s', a);
    OthersKeepSnap(s, s', a);
  }

  lemma DrainKeepsCustody(s: State, s': State, a: Agent, step: DrainStep)
    requires Control(s) && Custody(s) && DrainNext(s, s', a, step)
    ensures Custody(s')
  {
    DrainFrame(s, s', a, step);
    QuietKeepsEpoch(s, s', a);
    DrainKeepsLife(s, s', a, step);
    QuietKeepsRefs(s, s');
    DrainKeepsSlots(s, s', a, step);
  }

  lemma DrainKeepsRecord(s: State, s': State, a: Agent, step: DrainStep)
    requires Control(s) && Custody(s) && Record(s) && DrainNext(s, s', a, step)
    ensures Record(s')
  {
    DrainFrame(s, s', a, step);
    DrainKeepsView(s, s', a, step);
    QuietKeepsRecord(s, s', a);
    DrainKeepsReuse(s, s', a, step);
  }

  lemma DrainKeepsInv(s: State, s': State, a: Agent, step: DrainStep)
    requires Inv(s) && DrainNext(s, s', a, step)
    ensures Inv(s')
  {
    DrainKeepsControl(s, s', a, step);
    DrainKeepsCustody(s, s', a, step);
    DrainKeepsRecord(s, s', a, step);
  }

  lemma RoomKeepsControl(s: State, s': State, a: Agent, step: RoomStep)
    requires Control(s) && RoomNext(s, s', a, step)
    ensures Control(s')
  {
    RoomFrame(s, s', a, step);
    RoomKeepsPc(s, s', a, step);
    QuietKeepsOdd(s, s', a);
    OthersKeepSnap(s, s', a);
  }

  lemma RoomKeepsCustody(s: State, s': State, a: Agent, step: RoomStep)
    requires Control(s) && Custody(s) && RoomNext(s, s', a, step)
    ensures Custody(s')
  {
    RoomFrame(s, s', a, step);
    QuietKeepsEpoch(s, s', a);
    RoomKeepsLife(s, s', a, step);
    QuietKeepsRefs(s, s');
    RoomKeepsSlots(s, s', a, step);
  }

  lemma RoomKeepsInv(s: State, s': State, a: Agent, step: RoomStep)
    requires Inv(s) && RoomNext(s, s', a, step)
    ensures Inv(s')
  {
    RoomKeepsControl(s, s', a, step);
    RoomKeepsCustody(s, s', a, step);
    RoomFrame(s, s', a, step);
    RoomKeepsView(s, s', a, step);
    QuietKeepsRecord(s, s', a);
    RoomKeepsReuse(s, s', a, step);
  }

  /** A free slot's pointer is null. */
  lemma FreeIsNull(s: State, slot: Slot)
    requires SlotInv(s) && slot in s.free
    ensures slot < |s.entries| && s.entries[slot].ptr.Null?
  {
    var places: seq<Place> :| Placed(s, places);
    assert Located(s, slot, places[slot]);
  }

  lemma PickKeepsInv(s: State, s': State, a: Agent, step: PickStep)
    requires Inv(s) && PickNext(s, s', a, step)
    ensures Inv(s')
  {
    PickFrame(s, s', a, step);
    assert Control(s') by {
      if step.PickFree? {
        FreeIsNull(s, step.slot);
      }
      PickKeepsPc(s, s', a, step);
      QuietKeepsOdd(s, s', a);
      OthersKeepSnap(s, s', a);
    }
    assert Custody(s') by {
      QuietKeepsEpoch(s, s', a);
      PickKeepsLife(s, s', a, step);
      QuietKeepsRefs(s, s');
      PickKeepsSlots(s, s', a, step);
    }
    assert Record(s') by {
      PickKeepsGen(s, s', a, step);
      QuietKeepsOut(s, s');
      PickKeepsBehind(s, s', a, step);
      QuietKeepsSweep(s, s', a);
      PickKeepsReuse(s, s', a, step);
    }
  }

  lemma StoreKeepsInv(s: State, s': State, a: Agent, step: StoreStep)
    requires Inv(s) && StoreNext(s, s', a, step)
    ensures Inv(s')
  {
    StoreFrame(s, s', a, step);
    assert Control(s') by {
      StoreKeepsPc(s, s', a, step);
      StoreKeepsOdd(s, s', a, step);
      StoreKeepsSnap(s, s', a, step);
    }
    assert Custody(s') by {
      QuietKeepsEpoch(s, s', a);
      StoreKeepsLife(s, s', a, step);
      StoreKeepsRefs(s, s', a, step);
      StoreKeepsSlots(s, s', a, step);
    }
    assert Record(s') by {
      StoreKeepsGen(s, s', a, step);
      StoreKeepsOut(s, s', a, step);
      StoreKeepsSweep(s, s', a, step);
      StoreKeepsReuse(s, s', a, step);
    }
  }

  lemma GraceKeepsInv(s: State, s': State, a: Agent, step: GraceStep)
    requires Inv(s) && GraceNext(s, s', a, step)
    ensures Inv(s')
  {
    GraceFrame(s, s', a, step);
    assert Control(s') by {
      GraceKeepsPc(s, s', a, step);
      QuietKeepsOdd(s, s', a);
      OthersKeepSnap(s, s', a);
    }
    assert Custody(s') by {
      QuietKeepsEpoch(s, s', a);
      GraceKeepsLife(s, s', a, step);
      QuietKeepsRefs(s, s');
      QuietKeepsSlots(s, s', a);
    }
    GraceKeepsView(s, s', a, step);
    QuietKeepsRecord(s, s', a);
    AsideKeepsReuse(s, s', a);
  }

  lemma NextKeepsInv(s: State, s': State, step: Step)
    requires Inv(s) && Next(s, s', step)
    ensures Inv(s')
  {
    match step.family
    case Refs(st) => RefKeepsInv(s, s', step.a, st);
    case Start(st) => StartKeepsInv(s, s', step.a, st);
    case Sectioning(st) => SectionKeepsInv(s, s', step.a, st);
    case Snap(st) => SnapKeepsInv(s, s', step.a, st);
    case Draining(st) => DrainKeepsInv(s, s', step.a, st);
    case Room(st) => RoomKeepsInv(s, s', step.a, st);
    case Pick(st) => PickKeepsInv(s, s', step.a, st);
    case Store(st) => StoreKeepsInv(s, s', step.a, st);
    case Grace(st) => GraceKeepsInv(s, s', step.a, st);
  }

  lemma InitInv(s: State)
    requires Init(s)
    ensures Inv(s)
  {
    InitControl(s);
    InitCustody(s);
    InitRecord(s);
  }

  lemma RunStep(run: seq<State>, steps: seq<Step>, i: nat)
    requires IsRun(run, steps) && i < |steps|
    ensures Next(run[i], run[i + 1], steps[i])
  {}

  lemma StepKeepsInv(run: seq<State>, steps: seq<Step>, i: nat)
    requires IsRun(run, steps) && 0 < i < |run| && Inv(run[i - 1])
    ensures Inv(run[i])
  {
    RunStep(run, steps, i - 1);
    NextKeepsInv(run[i - 1], run[i], steps[i - 1]);
  }

  /** Every state of every run satisfies the invariant. */
  lemma {:induction false} RunKeepsInv(run: seq<State>, steps: seq<Step>, i: nat)
    requires IsRun(run, steps) && i < |run|
    ensures Inv(run[i])
  {
    if i == 0 {
      InitInv(run[0]);
    } else {
      RunKeepsInv(run, steps, i - 1);
      StepKeepsInv(run, steps, i);
    }
  }

  // ---------- A lookup never sees a freed object ----------

  /** The agent `a` is inside its read section with a pointer it loaded there. */
  predicate HasPointer(pc: Pc) {
    pc.Section? && (pc.stage.Acquire? || pc.stage.Leave?)
  }

  lemma LoadedIsAlive(s: State, a: Agent)
    requires Inv(s) && a in s.agents && HasPointer(s.agents[a])
    ensures var o := s.agents[a].stage.obj; o in s.refs && s.refs[o] >= 1
  {
    var pc := s.agents[a];
    var o := pc.stage.obj;
    if pc.stage.Leave? {
      assert PcOk(s, s.bags[a], pc);
      HeldIsAlive(s, InBag(a, 0), o);
    } else {
      assert LifeOk(s, pc);
      if Live(s, pc.call.slot, pc.stage.issue, o) {
        HeldIsAlive(s, InSlot(pc.call.slot), o);
      } else {
        var ref := Ref(o, Issue(pc.call.slot, pc.stage.issue));
        var w :| Pending(s, w, ref, pc.ctx);
        var k :| 0 <= k < |s.bags[w]| && s.bags[w][k] == ref;
        HeldIsAlive(s, InBag(w, k), o);
      }
    }
  }

  /**
   In every run, an object whose pointer a lookup has loaded has a reference until that lookup
   leaves its read section, so the lookup's attempt to take one of its own never finds it gone.
   */
  lemma NoUseAfterFree(run: seq<State>, steps: seq<Step>, i: nat, a: Agent)
    requires IsRun(run, steps) && i < |run|
    requires a in run[i].agents && HasPointer(run[i].agents[a])
    ensures var o := run[i].agents[a].stage.obj; o in run[i].refs && run[i].refs[o] >= 1
  {
    RunKeepsInv(run, steps, i);
    LoadedIsAlive(run[i], a);
  }

  lemma AcquireNeverFails(run: seq<State>, steps: seq<Step>, i: nat)
    requires IsRun(run, steps) && i < |steps|
    requires steps[i].family == Sectioning(TryAcquire)
    ensures var a := steps[i].a;
            && a in run[i].agents && a in run[i + 1].agents
            && run[i].agents[a].Section? && run[i].agents[a].stage.Acquire?
            && run[i + 1].agents[a].Section?
            && run[i + 1].agents[a].stage.Leave?
            && run[i + 1].agents[a].stage.obj == run[i].agents[a].stage.obj
  {
    RunStep(run, steps, i);
    assert SectionNext(run[i], run[i + 1], steps[i].a, TryAcquire);
    NoUseAfterFree(run, steps, i, steps[i].a);
  }

  // ---------- A lookup answers for one moment ----------

  /** Entry `e` is live and stable with exactly `got` and `obj`, and admits `call`. */
  ghost predicate Answers(e: Entry, call: Call, got: Meta, obj: Obj) {
    && e.version % 2 == 0
    && e.meta == got
    && e.ptr == At(obj)
    && Admits(call, got)
    && call.generation == e.issues % GENERATIONS
  }

  /** Between writes, an entry's generation is its issue number modulo 2^31. */
  lemma StableIsNumbered(s: State, slot: Slot)
    requires LockInv(s) && PcInv(s) && GenInv(s) && slot < |s.entries| && s.entries[slot].version % 2 == 0
    ensures s.entries[slot].meta.generation == s.entries[slot].issues % GENERATIONS
  {
    if s.lock.Held? && s.lock.holder in s.agents {
      assert PcOk(s, s.bags[s.lock.holder], s.agents[s.lock.holder]);
    }
    assert !Renumbering(s, slot);
  }

  lemma FoundAnswers(s: State, s': State, a: Agent)
    requires Inv(s) && SnapNext(s, s', a, LookAgain)
    requires s'.agents[a].outcome.Found?
    ensures var pc := s'.agents[a];
            pc.call.slot < |s.entries| && Answers(s.entries[pc.call.slot], pc.call, pc.outcome.got, pc.obj)
  {
    var pc := s.agents[a];
    assert SnapOk(s, pc);
    var slot := pc.call.slot;
    StableIsNumbered(s, slot);
  }

  /**
   A lookup that succeeds returns what the entry held, all at once, at one moment of the call: the
   step where it looks at the version for the last time. There the entry was between writes, held
   exactly the generation, owner, rights, type and object the call returns, and was the issue the
   handle names.
   */
  lemma LookupIsLinearizable(run: seq<State>, steps: seq<Step>, i: nat)
    requires IsRun(run, steps) && i < |steps|
    requires steps[i].family == Snap(LookAgain)
    ensures var a := steps[i].a;
            && a in run[i + 1].agents && run[i + 1].agents[a].Taken?
            && var pc := run[i + 1].agents[a];
               pc.outcome.Found? ==>
                 && pc.call.slot < |run[i].entries|
                 && Answers(run[i].entries[pc.call.slot], pc.call, pc.outcome.got, pc.obj)
  {
    var a := steps[i].a;
    RunStep(run, steps, i);
    assert SnapNext(run[i], run[i + 1], a, LookAgain);
    if run[i + 1].agents[a].outcome.Found? {
      RunKeepsInv(run, steps, i);
      FoundAnswers(run[i], run[i + 1], a);
    }
  }

  /**
   A lookup that looked at the version again and found it moved, or found the handle refused, gives
   back exactly the one reference it took: the object's count drops by one, no other count changes,
   and the agent is left holding nothing.
   */
  lemma FailedLookupKeepsNothing(run: seq<State>, steps: seq<Step>, i: nat)
    requires IsRun(run, steps) && i < |steps|
    requires steps[i].family == Sectioning(GiveBack)
    ensures var a := steps[i].a;
            && a in run[i].agents && run[i].agents[a].Taken?
            && a in run[i + 1].bags && run[i + 1].bags[a] == []
            && var o := run[i].agents[a].obj;
               && Count(run[i + 1].refs, o) == Count(run[i].refs, o) - 1
               && forall p: Obj :: p != o ==> Count(run[i + 1].refs, p) == Count(run[i].refs, p)
  {
    var a := steps[i].a;
    RunStep(run, steps, i);
    RunKeepsInv(run, steps, i);
    assert PcOk(run[i], run[i].bags[a], run[i].agents[a]);
  }

  // ---------- References are conserved ----------

  /** In every run, an object's count is the number of live entries and calls holding it. */
  lemma CountsAreExact(run: seq<State>, steps: seq<Step>, i: nat, o: Obj)
    requires IsRun(run, steps) && i < |run|
    ensures Count(run[i].refs, o) == |Holders(run[i].entries, run[i].bags, o)|
  {
    RunKeepsInv(run, steps, i);
  }

  // ---------- Slots are conserved ----------

  lemma LocatedOnce(s: State, slot: Slot, p: Place, q: Place)
    requires Located(s, slot, p) && Located(s, slot, q)
    ensures p == q
  {}

  /**
   In every run, every slot is in exactly one place: the freelist, the deferred ring, live, or in the
   hands of one call. No slot is in the ring twice.
   */
  lemma SlotsAreConserved(run: seq<State>, steps: seq<Step>, i: nat, slot: Slot)
    requires IsRun(run, steps) && i < |run| && slot < |run[i].entries|
    ensures exists p :: Located(run[i], slot, p) && forall q :: Located(run[i], slot, q) ==> q == p
    ensures forall k, l :: 0 <= k < l < |run[i].ring| ==> run[i].ring[k].slot != run[i].ring[l].slot
  {
    RunKeepsInv(run, steps, i);
    var places: seq<Place> :| Placed(run[i], places);
    var p := places[slot];
    assert Located(run[i], slot, p);
    forall q | Located(run[i], slot, q)
      ensures q == p
    {
      LocatedOnce(run[i], slot, p, q);
    }
  }

  /** No step of any run pushes a slot that is on the freelist or in the ring already. */
  lemma PushesAreFresh(run: seq<State>, steps: seq<Step>, i: nat)
    requires IsRun(run, steps) && i < |steps|
    requires |run[i + 1].ring| > |run[i].ring|
    ensures var slot := run[i + 1].ring[|run[i].ring|].slot;
            run[i + 1].ring[..|run[i].ring|] == run[i].ring && slot !in run[i].free && !InRing(run[i].ring, slot)
  {
    RunStep(run, steps, i);
    RunKeepsInv(run, steps, i);
    PushIsFresh(run[i], run[i + 1], steps[i]);
  }

  ghost predicate FreshPush(s: State, s': State)
    requires |s'.ring| > |s.ring|
  {
    var slot := s'.ring[|s.ring|].slot;
    s'.ring[..|s.ring|] == s.ring && slot !in s.free && !InRing(s.ring, slot)
  }

  lemma PushIsFresh(s: State, s': State, step: Step)
    requires Inv(s) && Next(s, s', step) && |s'.ring| > |s.ring|
    ensures FreshPush(s, s')
  {
    match step.family
    case Refs(st) => RefFrame(s, s', step.a, st);
    case Start(st) => StartFrame(s, s', step.a, st);
    case Sectioning(st) => SectionFrame(s, s', step.a, st);
    case Snap(st) => SnapFrame(s, s', step.a, st);
    case Draining(st) => DrainPushesNothing(s, s', step.a, st);
    case Room(st) => DeferIsFresh(s, s', step.a, st);
    case Pick(st) => ReapIsFresh(s, s', step.a, st);
    case Store(st) => StoreFrame(s, s', step.a, st);
    case Grace(st) => GraceFrame(s, s', step.a, st);
  }

  lemma DrainPushesNothing(s: State, s': State, a: Agent, step: DrainStep)
    requires DrainNext(s, s', a, step)
    ensures |s'.ring| <= |s.ring|
  {}

  lemma DeferIsFresh(s: State, s': State, a: Agent, step: RoomStep)
    requires PcInv(s) && LockInv(s) && SlotInv(s) && RoomNext(s, s', a, step) && |s'.ring| > |s.ring|
    ensures FreshPush(s, s')
  {
    var places: seq<Place> :| Placed(s, places);
    var slot := s.agents[a].work.job.slot;
    assert PcOk(s, s.bags[a], s.agents[a]);
    assert Located(s, slot, places[slot]);
    assert Holds(s.agents[a], slot);
  }

  lemma ReapIsFresh(s: State, s': State, a: Agent, step: PickStep)
    requires LockInv(s) && SlotInv(s) && PickNext(s, s', a, step) && |s'.ring| > |s.ring|
    ensures FreshPush(s, s')
  {
    var places: seq<Place> :| Placed(s, places);
    var slot := s.agents[a].work.job.cursor;
    var p := places[slot];
    assert Located(s, slot, p);
    assert p.IsReaped? <==> InRing(s.ring, slot);
    assert forall b <- s.agents :: !Reaping(s.agents[b], slot);
  }

  // ---------- Sweeping a process ----------

  /**
   A sweep that reaches the end of the table leaves its process no live entry, provided nothing was
   installed for that process since the sweep began.
   */
  lemma SweepEmptiesTheProcess(run: seq<State>, steps: seq<Step>, i: nat, slot: Slot)
    requires IsRun(run, steps) && i < |steps|
    requires steps[i].family == Pick(SweepEnd)
    requires slot < |run[i + 1].entries|
    ensures steps[i].a in run[i].agents
    ensures var pc := run[i].agents[steps[i].a];
            && pc.Under? && pc.work.Ready? && pc.work.job.Sweep?
            && (NoneInstalled(run[i], pc.work.job.pid, pc.work.job.start) ==>
                  !Swept(run[i + 1].entries[slot], pc.work.job.pid))
  {
    RunStep(run, steps, i);
    assert PickNext(run[i], run[i + 1], steps[i].a, SweepEnd);
    RunKeepsInv(run, steps, i);
    EndIsEmpty(run[i], run[i + 1], steps[i].a, slot);
  }

  lemma EndIsEmpty(s: State, s': State, a: Agent, slot: Slot)
    requires SweepInv(s) && PickNext(s, s', a, SweepEnd) && slot < |s'.entries|
    ensures var job := s.agents[a].work.job;
            NoneInstalled(s, job.pid, job.start) ==> !Swept(s'.entries[slot], job.pid)
  {
    assert Behind(s, SweepView(s.agents[a]));
  }

  /** The pointer a sweep nulls belongs to the process it sweeps. */
  lemma SweepTakesOnlyItsOwn(run: seq<State>, steps: seq<Step>, i: nat)
    requires IsRun(run, steps) && i < |steps|
    requires steps[i].family == Store(StorePtr)
    ensures steps[i].a in run[i].agents
    ensures var pc := run[i].agents[steps[i].a];
            && pc.Under? && pc.work.Window? && pc.work.w.slot < |run[i].entries|
            && (pc.work.w.Reap? ==> Swept(run[i].entries[pc.work.w.slot], pc.work.w.pid))
  {
    RunStep(run, steps, i);
    RunKeepsInv(run, steps, i);
    NullIsItsOwn(run[i], run[i + 1], steps[i].a);
  }

  lemma NullIsItsOwn(s: State, s': State, a: Agent)
    requires PcInv(s) && StoreNext(s, s', a, StorePtr)
    ensures var w := s.agents[a].work.w; w.Reap? ==> Swept(s.entries[w.slot], w.pid)
  {
    assert PcOk(s, s.bags[a], s.agents[a]);
  }

  /** What a step takes out of the table was not out before, and nothing ever comes back. */
  lemma TakenOutOnce(run: seq<State>, steps: seq<Step>, i: nat)
    requires IsRun(run, steps) && i < |steps|
    ensures run[i].out <= run[i + 1].out
    ensures run[i + 1].out != run[i].out ==>
              exists slot: Slot, n: nat :: (slot, n) !in run[i].out && run[i + 1].out == run[i].out + {(slot, n)}
  {
    RunKeepsInv(run, steps, i);
    RunStep(run, steps, i);
    StepTakesOut(run[i], run[i + 1], steps[i]);
  }

  lemma StepTakesOut(s: State, s': State, step: Step)
    requires Inv(s) && Next(s, s', step)
    ensures s.out <= s'.out
    ensures s'.out != s.out ==> exists i: Slot, n: nat :: (i, n) !in s.out && s'.out == s.out + {(i, n)}
  {
    match step.family
    case Refs(st) => RefFrame(s, s', step.a, st);
    case Start(st) => StartFrame(s, s', step.a, st);
    case Sectioning(st) => SectionFrame(s, s', step.a, st);
    case Snap(st) => SnapFrame(s, s', step.a, st);
    case Draining(st) => DrainFrame(s, s', step.a, st);
    case Room(st) => RoomFrame(s, s', step.a, st);
    case Pick(st) => PickFrame(s, s', step.a, st);
    case Store(st) => StoreKeepsOut(s, s', step.a, st);
    case Grace(st) => GraceFrame(s, s', step.a, st);
  }

  lemma {:induction false} OutOnlyGrows(run: seq<State>, steps: seq<Step>, i: nat, j: nat)
    requires IsRun(run, steps) && i <= j < |run|
    ensures run[i].out <= run[j].out
    decreases j - i
  {
    if i < j {
      OutOnlyGrows(run, steps, i, j - 1);
      TakenOutOnce(run, steps, j - 1);
    }
  }

  /** Every handle ever issued is, at every moment, either the live one of its slot or taken out: never both. */
  lemma IssuedIsLiveOrOut(run: seq<State>, steps: seq<Step>, i: nat, slot: Slot, n: nat)
    requires IsRun(run, steps) && i < |run| && slot < |run[i].entries|
    requires 1 <= n <= run[i].entries[slot].issues
    ensures (slot, n) in run[i].out <==> !(n == run[i].entries[slot].issues && run[i].entries[slot].ptr.At?)
  {
    RunKeepsInv(run, steps, i);
    assert (slot, n) in run[i].out <==> Gone(run[i], slot, n);
  }

  // ---------- A closed handle stays closed ----------

  /**
   Once issue `n` of a slot has been closed or swept, a later lookup or close can validate its
   handle again only when the slot has been issued a positive multiple of 2^31 times since.
   */
  lemma ClosedStaysClosed(run: seq<State>, steps: seq<Step>, i: nat, j: nat, slot: Slot, n: nat, e: Entry)
    requires IsRun(run, steps) && i <= j < |run|
    requires (slot, n) in run[i].out
    requires slot < |run[j].entries| && e == run[j].entries[slot]
    requires e.ptr.At? && e.version % 2 == 0 && e.meta.generation == n % GENERATIONS
    ensures e.issues > n && (e.issues - n) % GENERATIONS == 0
  {
    OutOnlyGrows(run, steps, i, j);
    RunKeepsInv(run, steps, j);
    StaleMatch(run[j], slot, n);
  }

  lemma StaleMatch(s: State, slot: Slot, n: nat)
    requires Inv(s) && (slot, n) in s.out && slot < |s.entries|
    requires s.entries[slot].ptr.At? && s.entries[slot].version % 2 == 0
    requires s.entries[slot].meta.generation == n % GENERATIONS
    ensures s.entries[slot].issues > n && (s.entries[slot].issues - n) % GENERATIONS == 0
  {
    assert Gone(s, slot, n);
    StableIsNumbered(s, slot);
    SameResidue(s.entries[slot].issues, n);
  }

  lemma SameResidue(m: nat, n: nat)
    requires m >= n && m % GENERATIONS == n % GENERATIONS
    ensures (m - n) % GENERATIONS == 0
  {}

  // ---------- A closed slot is not reused under a reader ----------

  /** A deferral is tagged in time if its slot's pointer went out no later than the epoch of its tag. */
  ghost predicate TaggedInTime(s: State, d: Deferred) {
    d.slot < |s.entries| && s.entries[d.slot].nulledAt <= d.epoch
  }

  /** A close always tags in time, and so does a sweep unless the epoch moves between its tag and its store. */
  lemma ClosesTagInTime(run: seq<State>, steps: seq<Step>, i: nat, k: nat)
    requires IsRun(run, steps) && i < |run| && k < |run[i].ring| && run[i].ring[k].byClose
    ensures TaggedInTime(run[i], run[i].ring[k])
  {
    RunKeepsInv(run, steps, i);
    assert Covered(run[i], run[i].ring[k]);
  }

  /**
   When any deferred slot goes back to the freelist, an open section that has its old pointer announced an
   epoch later than the deferral's tag, and no later than when the pointer went out.
   */
  lemma ReusedUnderLateReadersOnly(run: seq<State>, steps: seq<Step>, i: nat, r: Agent)
    requires IsRun(run, steps) && i < |steps| && steps[i].family == Draining(DrainPop)
    requires run[i].ring != [] && r in run[i].agents && Loaded(run[i].agents[r], run[i].ring[0].slot)
    ensures var (s, d) := (run[i], run[i].ring[0]);
            && d.slot < |s.entries| && s.agents[r].ctx in s.observed && s.observed[s.agents[r].ctx].InSection?
            && d.epoch < s.observed[s.agents[r].ctx].epoch <= s.entries[d.slot].nulledAt
  {
    RunStep(run, steps, i);
    RunKeepsInv(run, steps, i);
    PopLeavesLateReaders(run[i], run[i + 1], steps[i].a, r);
  }

  /**
   So when a slot deferred in time, by a close or a sweep, goes back to the freelist, no open section has its
   old pointer.
   */
  lemma ReuseWaitsForReaders(run: seq<State>, steps: seq<Step>, i: nat, r: Agent)
    requires IsRun(run, steps) && i < |steps| && steps[i].family == Draining(DrainPop)
    requires run[i].ring != [] && TaggedInTime(run[i], run[i].ring[0]) && r in run[i].agents
    ensures !Loaded(run[i].agents[r], run[i].ring[0].slot)
  {
    if Loaded(run[i].agents[r], run[i].ring[0].slot) {
      ReusedUnderLateReadersOnly(run, steps, i, r);
    }
  }
}
