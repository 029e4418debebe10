/**
 The handle table as a state machine.

 Any number of agents (calls in progress) interleave at the granularity of the single atomic
 accesses of `kernel/src/handle`: every load and store a lock-free lookup can observe, and every
 load of a reader's announced epoch, is a step of its own. Data that only the holder of the table
 lock touches (the freelist, the deferred ring) changes together with the neighbouring step.

 Atomics are sequentially consistent here, and a seqlock counter is an unbounded number.

 These components record history and steer nothing: `Entry.issues` counts the installs of a slot and
 `Entry.nulledAt` is the epoch when its pointer last went out, `Deferred.byClose` tells a close's deferral
 from a sweep's, `installs` lists the owners installed for, and `out` collects every (slot, issue) a close
 or a sweep has taken out of the table.
 */
module HandleTable {
  import opened Common

  type Agent = nat
  type Ctx = nat
  type Obj = nat
  type Pid = nat
  type Slot = nat
  type Right = nat

  const SEGMENT_LEN := 4096
  const DIRECTORY_LEN := 256
  const OBJECT_TYPES := 16

  // ---------- Entries ----------

  /** The fields a seqlock snapshot covers. */
  datatype Meta = Meta(generation: nat, owner: Pid, rights: set<Right>, kind: nat)

  datatype Field = Generation | Owner | Rights | Kind

  const ALL_FIELDS: set<Field> := {Generation, Owner, Rights, Kind}

  /** `m` with field `f` copied from `src`: one relaxed store, or one relaxed load. */
  function Put(m: Meta, f: Field, src: Meta): Meta {
    match f
    case Generation => m.(generation := src.generation)
    case Owner => m.(owner := src.owner)
    case Rights => m.(rights := src.rights)
    case Kind => m.(kind := src.kind)
  }

  predicate Agree(f: Field, a: Meta, b: Meta) {
    match f
    case Generation => a.generation == b.generation
    case Owner => a.owner == b.owner
    case Rights => a.rights == b.rights
    case Kind => a.kind == b.kind
  }

  datatype Ptr = Null | At(obj: Obj)

  datatype Entry = Entry(version: nat, meta: Meta, ptr: Ptr, issues: nat, nulledAt: nat)

  const FRESH := Entry(0, Meta(0, 0, {}, 0), Null, 0, 0)

  // ---------- References ----------

  /** Where a reference came from: a table entry at one of its issues, or anywhere else. */
  datatype Origin = Elsewhere | Issue(slot: Slot, issue: nat)

  datatype Ref = Ref(obj: Obj, origin: Origin)

  /** Who holds a reference: a live entry, or position `i` of what an agent holds. */
  datatype Holder = InSlot(slot: Slot) | InBag(agent: Agent, i: nat)

  // ---------- What an agent is doing ----------

  datatype Call = Call(slot: Slot, generation: nat, pid: Pid, rights: set<Right>)

  /** A lookup from loading the epoch to leaving its read section. */
  datatype Stage =
    | Enter(epoch: nat)
    | Seq
    | Fields(seen: nat, got: Meta, have: set<Field>)
    | Pointer(seen: nat, got: Meta)
    | Acquire(seen: nat, got: Meta, obj: Obj, issue: nat)
    | Leave(seen: nat, got: Meta, obj: Obj)
    | Fail

  /** A lookup after its section, with the reference it took. */
  datatype Outcome =
    | Recheck(seen: nat, got: Meta)
    | Release(again: bool)
    | Found(got: Meta)

  datatype Job =
    | Install(meta: Meta)
    | Close(call: Call)
    | Restrict(call: Call)
    | Defer(slot: Slot, epoch: nat)
    | Sweep(pid: Pid, cursor: nat, start: nat)

  /** A seqlock write window over one slot. */
  datatype Write =
    | Publish(slot: Slot, src: Meta)
    | Unpublish(slot: Slot)
    | Attenuate(slot: Slot, src: Meta, asked: set<Right>)
    | Reap(slot: Slot, pid: Pid, start: nat)

  datatype Phase = Open | Fill(todo: set<Field>) | Shut

  /** Work done holding the table lock. */
  datatype Work =
    | Drain(job: Job, past: set<Ctx>)
    | Bump(job: Job)
    | Ready(job: Job)
    | Window(w: Write, phase: Phase)
    | Tag(slot: Slot)

  /** Where a grace wait returns to. */
  datatype After = ToCaller | ToSweep(pid: Pid, cursor: nat, more: bool, start: nat)

  datatype Pc =
    | Idle
    | LookupEpoch(call: Call)
    | Section(call: Call, ctx: Ctx, stage: Stage)
    | Taken(call: Call, obj: Obj, outcome: Outcome)
    | Want(job: Job)
    | GrowCheck(meta: Meta)
    | Growing(meta: Meta, len: nat)
    | Under(work: Work)
    | Unpublished(after: After)
    | Synchronize(after: After, epoch: nat, past: set<Ctx>)
    | Between(pid: Pid, cursor: nat, more: bool, start: nat)

  datatype Lock = Free | Held(holder: Agent)

  datatype Deferred = Deferred(slot: Slot, epoch: nat, byClose: bool)

  /** One context's announcement: quiescent, or in a section entered at `epoch`. */
  datatype Observed = Quiescent | InSection(epoch: nat)

  /** `bags[a]` lists the references agent `a` holds, in any order it took them. */
  datatype State = State(
    entries: seq<Entry>,
    free: set<Slot>,
    ring: seq<Deferred>,
    lock: Lock,
    epoch: nat,
    observed: map<Ctx, Observed>,
    refs: map<Obj, nat>,
    bags: map<Agent, seq<Ref>>,
    agents: map<Agent, Pc>,
    installs: seq<Pid>,
    out: set<(Slot, nat)>)

  /** The slots from `lo` up to `hi`. */
  function Range(lo: nat, hi: nat): (r: set<Slot>)
    requires lo <= hi
    ensures forall i :: i in r <==> lo <= i < hi
    decreases hi - lo
  {
    if lo == hi then {} else {lo} + Range(lo + 1, hi)
  }

  // ---------- The start ----------

  ghost predicate Init(s: State) {
    && s.entries == seq(SEGMENT_LEN, _ => FRESH)
    && s.free == Range(0, |s.entries|)
    && s.ring == []
    && s.lock == Free
    && s.epoch == 0
    && (forall c <- s.observed :: s.observed[c] == Quiescent)
    && s.refs == map[]
    && s.bags.Keys == s.agents.Keys
    && (forall a <- s.agents :: s.agents[a] == Idle && s.bags[a] == [])
    && s.installs == []
    && s.out == {}
  }

  function To(s: State, a: Agent, pc: Pc): State {
    s.(agents := s.agents[a := pc])
  }

  // ---------- References ----------

  /** One more reference to `o`, in `a`'s hands. */
  function Take(s: State, a: Agent, o: Obj): State
    requires a in s.bags && o in s.refs
  {
    s.(refs := s.refs[o := s.refs[o] + 1], bags := s.bags[a := s.bags[a] + [Ref(o, Elsewhere)]])
  }

  /** The last reference `a` took, released. */
  function Drop(s: State, a: Agent): State
    requires a in s.bags && |s.bags[a]| > 0
    requires Last(s.bags[a]).obj in s.refs && s.refs[Last(s.bags[a]).obj] > 0
  {
    var o := Last(s.bags[a]).obj;
    s.(refs := s.refs[o := s.refs[o] - 1], bags := s.bags[a := s.bags[a][..|s.bags[a]| - 1]])
  }

  function Last(bag: seq<Ref>): Ref
    requires |bag| > 0
  {
    bag[|bag| - 1]
  }

  /** What code outside the table does with references it holds. */
  datatype RefStep = Create(o: Obj) | Clone(from: Agent) | DropLast | Keep

  ghost predicate RefNext(s: State, s': State, a: Agent, step: RefStep) {
    && a in s.agents && a in s.bags
    && var pc := s.agents[a];
       match step
       case Create(o) =>
         pc.Idle? && o !in s.refs && s' == Take(s.(refs := s.refs[o := 0]), a, o)
       case Clone(from) =>
         && pc.Idle? && from in s.agents && s.agents[from].Idle? && from in s.bags && |s.bags[from]| > 0
         && Last(s.bags[from]).obj in s.refs
         && s' == Take(s, a, Last(s.bags[from]).obj)
       case DropLast =>
         && (pc.Idle? || pc.Between?) && |s.bags[a]| > 0
         && Last(s.bags[a]).obj in s.refs && s.refs[Last(s.bags[a]).obj] > 0
         && s' == Drop(s, a)
       case Keep =>
         pc.Taken? && pc.outcome.Found? && s' == To(s, a, Idle)
  }

  // ---------- Calls begin ----------

  datatype StartStep =
    | StartLookup(call: Call)
    | StartInstall(meta: Meta)
    | StartClose(call: Call)
    | StartRestrict(call: Call)
    | StartSweep(pid: Pid)

  ghost predicate StartNext(s: State, s': State, a: Agent, step: StartStep) {
    && a in s.agents && a in s.bags && s.agents[a].Idle?
    && match step
       case StartLookup(call) =>
         s.bags[a] == [] && call.slot < |s.entries| && s' == To(s, a, LookupEpoch(call))
       case StartInstall(meta) =>
         |s.bags[a]| == 1 && s' == To(s, a, Want(Install(meta)))
       case StartClose(call) =>
         s.bags[a] == [] && call.slot < |s.entries| && s' == To(s, a, Want(Close(call)))
       case StartRestrict(call) =>
         call.slot < |s.entries| && s' == To(s, a, Want(Restrict(call)))
       case StartSweep(pid) =>
         s.bags[a] == [] && s' == To(s, a, Want(Sweep(pid, 0, |s.installs|)))
  }

  // ---------- Lookup ----------

  /** No agent is between loading the epoch and leaving its section on `ctx`. */
  ghost predicate CtxFree(s: State, ctx: Ctx) {
    forall b <- s.agents :: s.agents[b].Section? ==> s.agents[b].ctx != ctx
  }

  /** Entering and leaving the read section, and the reference taken in it. */
  datatype SectionStep = LoadEpoch(ctx: Ctx) | Announce | TryAcquire | LeaveSection | GiveBack

  ghost predicate SectionNext(s: State, s': State, a: Agent, step: SectionStep) {
    && a in s.agents && a in s.bags
    && var pc := s.agents[a];
       match step
       case LoadEpoch(ctx) =>
         && pc.LookupEpoch? && ctx in s.observed && CtxFree(s, ctx)
         && s' == To(s, a, Section(pc.call, ctx, Enter(s.epoch)))
       case Announce =>
         && pc.Section? && pc.stage.Enter?
         && s' == To(s, a, pc.(stage := Seq)).(observed := s.observed[pc.ctx := InSection(pc.stage.epoch)])
       case TryAcquire =>
         && pc.Section? && pc.stage.Acquire?
         && var o := pc.stage.obj;
            s' == if o in s.refs && s.refs[o] > 0
                  then Take(To(s, a, pc.(stage := Leave(pc.stage.seen, pc.stage.got, o))), a, o)
                  else To(s, a, pc.(stage := Fail))
       case LeaveSection =>
         && pc.Section? && (pc.stage.Leave? || pc.stage.Fail?)
         && s' == To(s, a, if pc.stage.Fail? then Idle
                           else Taken(pc.call, pc.stage.obj, Recheck(pc.stage.seen, pc.stage.got)))
                  .(observed := s.observed[pc.ctx := Quiescent])
       case GiveBack =>
         && pc.Taken? && pc.outcome.Release? && |s.bags[a]| > 0
         && Last(s.bags[a]).obj in s.refs && s.refs[Last(s.bags[a]).obj] > 0
         && s' == Drop(To(s, a, if pc.outcome.again then LookupEpoch(pc.call) else Idle), a)
  }

  /** Steps 9 to 11 of a lookup: generation, owner, rights. */
  predicate Admits(call: Call, got: Meta) {
    got.generation == call.generation && got.owner == call.pid && call.rights <= got.rights
  }

  /** Loading the entry: the bracketed fields, the pointer, and the last look at the version. */
  datatype SnapStep = LoadSeq | LoadField(f: Field) | LoadSeqAgain | LoadPtr | LookAgain

  ghost predicate SnapNext(s: State, s': State, a: Agent, step: SnapStep) {
    && a in s.agents
    && (s.agents[a].Section? || s.agents[a].Taken?)
    && s.agents[a].call.slot < |s.entries|
    && var pc := s.agents[a];
       var e := s.entries[pc.call.slot];
       match step
       case LoadSeq =>
         && pc.Section? && pc.stage.Seq?
         && s' == To(s, a, pc.(stage := if e.version % 2 == 0 then Fields(e.version, FRESH.meta, {}) else Seq))
       case LoadField(f) =>
         && pc.Section? && pc.stage.Fields? && f !in pc.stage.have
         && s' == To(s, a, pc.(stage := Fields(pc.stage.seen, Put(pc.stage.got, f, e.meta), pc.stage.have + {f})))
       case LoadSeqAgain =>
         && pc.Section? && pc.stage.Fields? && pc.stage.have == ALL_FIELDS
         && s' == To(s, a, pc.(stage := if e.version != pc.stage.seen then Seq
                                        else Pointer(pc.stage.seen, pc.stage.got)))
       case LoadPtr =>
         && pc.Section? && pc.stage.Pointer?
         && s' == To(s, a, pc.(stage := if e.ptr.Null? || pc.stage.got.kind >= OBJECT_TYPES then Fail
                                        else Acquire(pc.stage.seen, pc.stage.got, e.ptr.obj, e.issues)))
       case LookAgain =>
         && pc.Taken? && pc.outcome.Recheck?
         && s' == To(s, a, pc.(outcome := if e.version != pc.outcome.seen then Release(true)
                                          else if Admits(pc.call, pc.outcome.got) then Found(pc.outcome.got)
                                          else Release(false)))
  }

  // ---------- The table lock, draining and growing ----------

  /** Whether a grace period tagged `epoch` is past as far as this announcement goes. */
  predicate Past(o: Observed, epoch: nat) {
    o.Quiescent? || o.epoch > epoch
  }

  /** The first work of a job once it has the lock: an install, a retried push and a sweep drain first. */
  function Begin(job: Job): Work {
    if job.Close? || job.Restrict? then Ready(job) else Drain(job, {})
  }

  datatype DrainStep = GetLock | DrainScan(ctx: Ctx) | DrainPop | DrainEmpty | BumpEpoch | TagEpoch

  ghost predicate DrainNext(s: State, s': State, a: Agent, step: DrainStep) {
    && a in s.agents
    && var pc := s.agents[a];
       match step
       case GetLock =>
         pc.Want? && s.lock.Free? && s' == To(s, a, Under(Begin(pc.job))).(lock := Held(a))
       case DrainScan(ctx) =>
         && pc.Under? && pc.work.Drain? && |s.ring| > 0 && ctx in s.observed && ctx !in pc.work.past
         && s' == To(s, a, Under(if Past(s.observed[ctx], s.ring[0].epoch)
                                 then Drain(pc.work.job, pc.work.past + {ctx}) else Bump(pc.work.job)))
       case DrainPop =>
         && pc.Under? && pc.work.Drain? && |s.ring| > 0 && pc.work.past == s.observed.Keys
         && s' == To(s, a, Under(Drain(pc.work.job, {}))).(free := s.free + {s.ring[0].slot}, ring := s.ring[1..])
       case DrainEmpty =>
         pc.Under? && pc.work.Drain? && s.ring == [] && s' == To(s, a, Under(Bump(pc.work.job)))
       case BumpEpoch =>
         pc.Under? && pc.work.Bump? && s' == To(s, a, Under(Ready(pc.work.job))).(epoch := s.epoch + 1)
       case TagEpoch =>
         pc.Under? && pc.work.Tag? && s' == To(s, a, Under(Drain(Defer(pc.work.slot, s.epoch), {})))
  }

  /** Room for an install, and room in the deferred ring. */
  datatype RoomStep = GiveUpSlot | CheckRoom | PublishSegment | PushRing

  ghost predicate RoomNext(s: State, s': State, a: Agent, step: RoomStep) {
    && a in s.agents
    && var pc := s.agents[a];
       match step
       case GiveUpSlot =>
         && pc.Under? && pc.work.Ready? && pc.work.job.Install? && s.free == {}
         && s' == To(s, a, GrowCheck(pc.work.job.meta)).(lock := Free)
       case CheckRoom =>
         && pc.GrowCheck? && s.lock.Free?
         && s' == To(s, a, if |s.entries| >= DIRECTORY_LEN * SEGMENT_LEN then Idle
                           else Growing(pc.meta, |s.entries|))
       case PublishSegment =>
         && pc.Growing? && s.lock.Free?
         && s' == if |s.entries| > pc.len then To(s, a, Want(Install(pc.meta)))
                  else To(s, a, Want(Install(pc.meta)))
                       .(entries := s.entries + seq(SEGMENT_LEN, _ => FRESH),
                         free := s.free + Range(|s.entries|, |s.entries| + SEGMENT_LEN))
       case PushRing =>
         && pc.Under? && pc.work.Ready? && pc.work.job.Defer?
         && s' == if |s.ring| < DEFER_RING_CAPACITY
                  then To(s, a, Unpublished(ToCaller))
                       .(lock := Free, ring := s.ring + [Deferred(pc.work.job.slot, pc.work.job.epoch, true)])
                  else To(s, a, Want(pc.work.job)).(lock := Free)
  }

  // ---------- Choosing an entry to write ----------

  /** The checks of `close` and `restrict`. */
  predicate Valid(e: Entry, call: Call) {
    e.meta.generation == call.generation && e.meta.owner == call.pid && e.ptr.At?
  }

  predicate Swept(e: Entry, pid: Pid) {
    e.meta.owner == pid && e.ptr.At?
  }

  /** A batch ends: wait out readers if it took anything, else straight back to the caller. */
  function EndBatch(job: Job, more: bool, took: bool): Pc
    requires job.Sweep?
  {
    if took then Unpublished(ToSweep(job.pid, job.cursor, more, job.start))
    else Between(job.pid, job.cursor, more, job.start)
  }

  datatype PickStep =
    | PickFree(slot: Slot)
    | PickClose
    | PickRestrict
    | SweepSkip
    | SweepReap
    | SweepPause
    | SweepEnd

  ghost predicate PickNext(s: State, s': State, a: Agent, step: PickStep) {
    && a in s.agents && a in s.bags
    && s.agents[a].Under? && s.agents[a].work.Ready?
    && var job := s.agents[a].work.job;
       match step
       case PickFree(slot) =>
         && job.Install? && slot in s.free && slot < |s.entries|
         && var gen := (s.entries[slot].meta.generation + 1) % GENERATIONS;
            s' == To(s, a, Under(Window(Publish(slot, job.meta.(generation := gen)), Open))).(free := s.free - {slot})
       case PickClose =>
         && job.Close? && job.call.slot < |s.entries|
         && s' == if Valid(s.entries[job.call.slot], job.call)
                  then To(s, a, Under(Window(Unpublish(job.call.slot), Open)))
                  else To(s, a, Idle).(lock := Free)
       case PickRestrict =>
         && job.Restrict? && job.call.slot < |s.entries|
         && var e := s.entries[job.call.slot];
            s' == if Valid(e, job.call)
                  then To(s, a, Under(Window(Attenuate(job.call.slot,
                                                       e.meta.(rights := e.meta.rights * job.call.rights),
                                                       job.call.rights), Open)))
                  else To(s, a, Idle).(lock := Free)
       case SweepSkip =>
         && job.Sweep? && job.cursor < |s.entries| && !Swept(s.entries[job.cursor], job.pid)
         && s' == To(s, a, Under(Ready(job.(cursor := job.cursor + 1))))
       case SweepReap =>
         && job.Sweep? && job.cursor < |s.entries| && |s.ring| < DEFER_RING_CAPACITY
         && Swept(s.entries[job.cursor], job.pid)
         && s' == To(s, a, Under(Window(Reap(job.cursor, job.pid, job.start), Open)))
                  .(ring := s.ring + [Deferred(job.cursor, s.epoch, false)])
       case SweepPause =>
         && job.Sweep? && job.cursor < |s.entries| && Swept(s.entries[job.cursor], job.pid)
         && s' == To(s, a, EndBatch(job, true, s.bags[a] != [])).(lock := Free)
       case SweepEnd =>
         && job.Sweep? && job.cursor == |s.entries|
         && s' == To(s, a, EndBatch(job, false, s.bags[a] != [])).(lock := Free)
  }

  // ---------- Writing an entry ----------

  function Touched(w: Write): set<Field> {
    match w
    case Publish(_, _) => ALL_FIELDS
    case Attenuate(_, _, _) => {Rights}
    case _ => {}
  }

  function AfterShut(w: Write): Pc {
    match w
    case Publish(_, _) => Idle
    case Attenuate(_, _, _) => Idle
    case Unpublish(slot) => Under(Tag(slot))
    case Reap(slot, pid, start) => Under(Ready(Sweep(pid, slot + 1, start)))
  }

  /** The steps of a write window: version to odd, the fields, the pointer last, version to even. */
  datatype StoreStep = OpenWindow | StoreField(f: Field) | StorePtr | ShutWindow

  ghost predicate StoreNext(s: State, s': State, a: Agent, step: StoreStep) {
    && a in s.agents && a in s.bags
    && s.agents[a].Under? && s.agents[a].work.Window? && s.agents[a].work.w.slot < |s.entries|
    && var (w, phase) := (s.agents[a].work.w, s.agents[a].work.phase);
       var e := s.entries[w.slot];
       match step
       case OpenWindow =>
         && phase.Open?
         && s' == To(s, a, Under(Window(w, Fill(Touched(w)))))
                  .(entries := s.entries[w.slot := e.(version := e.version + 1)])
       case StoreField(f) =>
         && phase.Fill? && f in phase.todo && (w.Publish? || w.Attenuate?)
         && s' == To(s, a, Under(Window(w, Fill(phase.todo - {f}))))
                  .(entries := s.entries[w.slot := e.(meta := Put(e.meta, f, w.src))])
       case StorePtr =>
         && phase.Fill? && phase.todo == {} && Storable(s, a, w)
         && s' == Stored(To(s, a, Under(Window(w, Shut))), a, w)
       case ShutWindow =>
         && phase.Shut?
         && s' == To(s, a, AfterShut(w))
                  .(entries := s.entries[w.slot := e.(version := e.version + 1)],
                    lock := if w.Publish? || w.Attenuate? then Free else s.lock)
  }

  /** An install has a reference to give, a close or a sweep a pointer to take. */
  predicate Storable(s: State, a: Agent, w: Write) {
    && w.slot < |s.entries| && a in s.bags
    && (w.Publish? ==> |s.bags[a]| > 0)
    && (w.Unpublish? || w.Reap? ==> s.entries[w.slot].ptr.At?)
  }

  /** The pointer store: an install gives the entry its reference, a close or a sweep takes it out. */
  function Stored(s: State, a: Agent, w: Write): State
    requires Storable(s, a, w)
  {
    var e := s.entries[w.slot];
    match w
    case Publish(slot, src) =>
      s.(entries := s.entries[slot := e.(ptr := At(Last(s.bags[a]).obj), issues := e.issues + 1)],
         bags := s.bags[a := s.bags[a][..|s.bags[a]| - 1]],
         installs := s.installs + [src.owner])
    case Attenuate(_, _, _) => s
    case _ =>
      s.(entries := s.entries[w.slot := e.(ptr := Null, nulledAt := s.epoch)],
         bags := s.bags[a := s.bags[a] + [Ref(e.ptr.obj, Issue(w.slot, e.issues))]],
         out := s.out + {(w.slot, e.issues)})
  }

  // ---------- Waiting out readers ----------

  datatype GraceStep = AdvanceEpoch | Scan(ctx: Ctx) | GraceOver | NextBatch

  ghost predicate GraceNext(s: State, s': State, a: Agent, step: GraceStep) {
    && a in s.agents && a in s.bags
    && var pc := s.agents[a];
       match step
       case AdvanceEpoch =>
         && pc.Unpublished?
         && s' == To(s, a, Synchronize(pc.after, s.epoch, {})).(epoch := s.epoch + 1)
       case Scan(ctx) =>
         && pc.Synchronize? && ctx in s.observed && ctx !in pc.past
         && s' == To(s, a, pc.(past := if Past(s.observed[ctx], pc.epoch) then pc.past + {ctx} else {}))
       case GraceOver =>
         && pc.Synchronize? && pc.past == s.observed.Keys
         && s' == To(s, a, match pc.after
                           case ToCaller => Idle
                           case ToSweep(pid, cursor, more, start) => Between(pid, cursor, more, start))
       case NextBatch =>
         && pc.Between? && pc.more && s.bags[a] == []
         && s' == To(s, a, Want(Sweep(pc.pid, pc.cursor, pc.start)))
  }

  // ---------- Runs ----------

  datatype Family =
    | Refs(ref: RefStep)
    | Start(start: StartStep)
    | Sectioning(section: SectionStep)
    | Snap(snap: SnapStep)
    | Draining(drain: DrainStep)
    | Room(room: RoomStep)
    | Pick(pick: PickStep)
    | Store(store: StoreStep)
    | Grace(grace: GraceStep)

  /** A step of agent `a`. */
  datatype Step = Step(a: Agent, family: Family)

  ghost predicate Next(s: State, s': State, step: Step) {
    match step.family
    case Refs(st) => RefNext(s, s', step.a, st)
    case Start(st) => StartNext(s, s', step.a, st)
    case Sectioning(st) => SectionNext(s, s', step.a, st)
    case Snap(st) => SnapNext(s, s', step.a, st)
    case Draining(st) => DrainNext(s, s', step.a, st)
    case Room(st) => RoomNext(s, s', step.a, st)
    case Pick(st) => PickNext(s, s', step.a, st)
    case Store(st) => StoreNext(s, s', step.a, st)
    case Grace(st) => GraceNext(s, s', step.a, st)
  }

  /** States `run[0], run[1], …` joined by `steps[0], steps[1], …`. */
  ghost predicate IsRun(run: seq<State>, steps: seq<Step>) {
    && |run| == |steps| + 1
    && Init(run[0])
    && forall i {:trigger steps[i]} :: 0 <= i < |steps| ==> Next(run[i], run[i + 1], steps[i])
  }
}
