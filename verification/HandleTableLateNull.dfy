/**
 A run in which a slot an exit sweep deferred is reused under a reader. The sweep tags the deferral, the
 epoch moves, a reader announces the new epoch and loads the pointer, and only then does the sweep take
 the pointer out: the tag is older than the reader's announcement, so a drain does not wait for it.
 */
module HandleTableLateNull {
  import opened Common
  import opened HandleTable
  import opened HandleTableReuse

  /** A set of states. */
  type Reach = State -> bool

  /** It holds whatever a step leads to from what it holds. */
  ghost predicate Closed(reach: Reach) {
    forall s, s', step :: reach(s) && Next(s, s', step) ==> reach(s')
  }

  lemma Go(reach: Reach, s: State, s': State, step: Step)
    requires Closed(reach) && reach(s) && Next(s, s', step)
    ensures reach(s')
  {}

  // ---------- Installing ----------

  /** `e` once `o` has been installed in it for `pid`. */
  function Filled(e: Entry, pid: Pid, o: Obj): Entry {
    e.(version := e.version + 2, meta := NewMeta(e, pid), ptr := At(o), issues := e.issues + 1)
  }

  function NewMeta(e: Entry, pid: Pid): Meta {
    Meta((e.meta.generation + 1) % GENERATIONS, pid, {}, 0)
  }

  /** An agent with nothing to do, and a table nobody is in. */
  ghost predicate Rests(s: State, a: Agent) {
    a in s.agents && a in s.bags && s.agents[a] == Idle && s.bags[a] == [] && s.lock.Free? && s.ring == []
  }

  /** The window of an install, from its opening to its end. */
  lemma Publishes(reach: Reach, s: State, a: Agent, slot: Slot, src: Meta, o: Obj)
    requires Closed(reach) && reach(s) && a in s.agents && a in s.bags && slot < |s.entries|
    requires s.bags[a] == [Ref(o, Elsewhere)]
    requires s.agents[a] == Under(Window(Publish(slot, src), Open))
    ensures var e := s.entries[slot];
            var e' := e.(version := e.version + 2, meta := src, ptr := At(o), issues := e.issues + 1);
            reach(To(s, a, Idle).(entries := s.entries[slot := e'], bags := s.bags[a := []],
                                      installs := s.installs + [src.owner], lock := Free))
  {
    var (w, e) := (Publish(slot, src), s.entries[slot]);
    var e1 := e.(version := e.version + 1);
    var s1 := Filling(s, a, w, ALL_FIELDS, e1);
    Go(reach, s, s1, Step(a, Store(OpenWindow)));
    var e2 := StoresField(reach, s, s1, a, w, ALL_FIELDS, e1, Generation);
    var todo := ALL_FIELDS - {Generation};
    var e3 := StoresField(reach, s, Filling(s, a, w, todo, e2), a, w, todo, e2, Owner);
    todo := todo - {Owner};
    var e4 := StoresField(reach, s, Filling(s, a, w, todo, e3), a, w, todo, e3, Rights);
    todo := todo - {Rights};
    var e5 := StoresField(reach, s, Filling(s, a, w, todo, e4), a, w, todo, e4, Kind);
    assert todo - {Kind} == {};
    assert e5.meta == src;
    PublishEnds(reach, s, a, slot, src, o, e5);
  }

  /** `s` with the agent in a window over `e`, these fields still to store. */
  function Filling(s: State, a: Agent, w: Write, todo: set<Field>, e: Entry): State
    requires w.slot < |s.entries|
  {
    To(s, a, Under(Window(w, Fill(todo)))).(entries := s.entries[w.slot := e])
  }

  lemma StoresField(reach: Reach, s: State, t: State, a: Agent, w: Write, todo: set<Field>, e: Entry, f: Field)
    returns (e': Entry)
    requires w.Publish? && w.slot < |s.entries| && a in s.agents && a in s.bags && f in todo
    requires t == Filling(s, a, w, todo, e) && Closed(reach) && reach(t)
    ensures e' == e.(meta := Put(e.meta, f, w.src)) && reach(Filling(s, a, w, todo - {f}, e'))
  {
    e' := e.(meta := Put(e.meta, f, w.src));
    var t' := Filling(s, a, w, todo - {f}, e');
    assert t'.agents == t.agents[a := Under(Window(w, Fill(todo - {f})))];
    assert t'.entries == t.entries[w.slot := e'];
    Go(reach, t, t', Step(a, Store(StoreField(f))));
  }

  lemma PublishStores(reach: Reach, s: State, a: Agent, w: Write, o: Obj, e: Entry)
    requires w.Publish? && w.slot < |s.entries| && a in s.agents && a in s.bags && s.bags[a] == [Ref(o, Elsewhere)]
    requires Closed(reach) && reach(Filling(s, a, w, {}, e))
    ensures reach(Stored(To(Filling(s, a, w, {}, e), a, Under(Window(w, Shut))), a, w))
  {
    var t := Filling(s, a, w, {}, e);
    Go(reach, t, Stored(To(t, a, Under(Window(w, Shut))), a, w), Step(a, Store(StorePtr)));
  }

  lemma PublishEnds(reach: Reach, s: State, a: Agent, slot: Slot, src: Meta, o: Obj, e: Entry)
    requires slot < |s.entries| && a in s.agents && a in s.bags && s.bags[a] == [Ref(o, Elsewhere)]
    requires Closed(reach) && reach(Filling(s, a, Publish(slot, src), {}, e))
    ensures var e' := e.(version := e.version + 1, ptr := At(o), issues := e.issues + 1);
            reach(To(s, a, Idle).(entries := s.entries[slot := e'], bags := s.bags[a := []],
                                      installs := s.installs + [src.owner], lock := Free))
  {
    var w := Publish(slot, src);
    var t := Filling(s, a, w, {}, e);
    var t1 := Stored(To(t, a, Under(Window(w, Shut))), a, w);
    PublishStores(reach, s, a, w, o, e);
    var e' := e.(version := e.version + 1, ptr := At(o), issues := e.issues + 1);
    var t2 := To(t1, a, Idle).(entries := t1.entries[slot := e'], lock := Free);
    Go(reach, t1, t2, Step(a, Store(ShutWindow)));
    assert t2.agents == s.agents[a := Idle];
    assert t2.entries == s.entries[slot := e'];
    assert t2.bags == s.bags[a := []];
  }

  /** A whole install of a new object. */
  lemma Installs(reach: Reach, s: State, a: Agent, o: Obj, slot: Slot, pid: Pid) returns (s': State)
    requires Closed(reach) && reach(s) && Rests(s, a) && slot in s.free && slot < |s.entries| && o !in s.refs
    ensures reach(s')
    ensures s' == s.(entries := s.entries[slot := Filled(s.entries[slot], pid, o)], free := s.free - {slot},
                     epoch := s.epoch + 1, refs := s.refs[o := 1], installs := s.installs + [pid])
  {
    var v := Picks(reach, s, a, o, slot, pid);
    Publishes(reach, v, a, slot, NewMeta(s.entries[slot], pid), o);
    s' := s.(entries := s.entries[slot := Filled(s.entries[slot], pid, o)], free := s.free - {slot},
             epoch := s.epoch + 1, refs := s.refs[o := 1], installs := s.installs + [pid]);
    assert s'.agents == v.agents[a := Idle];
    assert s'.bags == v.bags[a := []];
  }

  /** Its beginning, up to the slot it has picked. */
  lemma Picks(reach: Reach, s: State, a: Agent, o: Obj, slot: Slot, pid: Pid) returns (s': State)
    requires Closed(reach) && reach(s) && Rests(s, a) && slot in s.free && slot < |s.entries| && o !in s.refs
    ensures reach(s')
    ensures s' == To(s, a, Under(Window(Publish(slot, NewMeta(s.entries[slot], pid)), Open))).(
              free := s.free - {slot}, lock := Held(a), epoch := s.epoch + 1,
              refs := s.refs[o := 1], bags := s.bags[a := [Ref(o, Elsewhere)]])
  {
    var (meta, src) := (Meta(0, pid, {}, 0), NewMeta(s.entries[slot], pid));
    var t := Take(s.(refs := s.refs[o := 0]), a, o);
    Go(reach, s, t, Step(a, Refs(Create(o))));
    assert [] + [Ref(o, Elsewhere)] == [Ref(o, Elsewhere)];
    var u := ReadyToPick(reach, t, a, meta);
    s' := To(u, a, Under(Window(Publish(slot, src), Open))).(free := u.free - {slot});
    Go(reach, u, s', Step(a, Pick(PickFree(slot))));
    assert s'.agents == s.agents[a := Under(Window(Publish(slot, src), Open))];
    assert s'.refs == s.refs[o := 1];
  }

  /** An install that has the lock and has drained an empty ring. */
  lemma ReadyToPick(reach: Reach, s: State, a: Agent, meta: Meta) returns (s': State)
    requires Closed(reach) && reach(s) && a in s.agents && a in s.bags && s.agents[a] == Idle && |s.bags[a]| == 1
    requires s.lock.Free? && s.ring == []
    ensures reach(s') && s' == To(s, a, Under(Ready(Install(meta)))).(lock := Held(a), epoch := s.epoch + 1)
  {
    var s1 := To(s, a, Want(Install(meta)));
    Go(reach, s, s1, Step(a, Start(StartInstall(meta))));
    s' := DrainsEmpty(reach, s1, a, Install(meta));
    assert s'.agents == s.agents[a := Under(Ready(Install(meta)))];
  }

  /** The lock taken, an empty ring drained and the epoch bumped. */
  lemma DrainsEmpty(reach: Reach, s: State, a: Agent, job: Job) returns (s': State)
    requires Closed(reach) && reach(s) && a in s.agents && s.agents[a] == Want(job) && s.lock.Free? && s.ring == []
    requires !job.Close? && !job.Restrict?
    ensures reach(s') && s' == To(s, a, Under(Ready(job))).(lock := Held(a), epoch := s.epoch + 1)
  {
    var s1 := To(s, a, Under(Drain(job, {}))).(lock := Held(a));
    Go(reach, s, s1, Step(a, Draining(GetLock)));
    s' := Bumps(reach, s1, a, job);
    assert s'.agents == s.agents[a := Under(Ready(job))];
  }

  lemma Bumps(reach: Reach, s: State, a: Agent, job: Job) returns (s': State)
    requires Closed(reach) && reach(s) && a in s.agents && s.agents[a] == Under(Drain(job, {})) && s.ring == []
    ensures reach(s') && s' == To(s, a, Under(Ready(job))).(epoch := s.epoch + 1)
  {
    var s1 := To(s, a, Under(Bump(job)));
    Go(reach, s, s1, Step(a, Draining(DrainEmpty)));
    s' := To(s1, a, Under(Ready(job))).(epoch := s1.epoch + 1);
    Go(reach, s1, s', Step(a, Draining(BumpEpoch)));
    assert s'.agents == s.agents[a := Under(Ready(job))];
  }

  // ---------- Closing ----------

  /** `e` once its pointer has been taken out at this epoch. */
  function Emptied(e: Entry, epoch: nat): Entry {
    e.(version := e.version + 2, ptr := Null, nulledAt := epoch)
  }

  lemma NullsInside(reach: Reach, s: State, a: Agent, w: Write) returns (s': State)
    requires Closed(reach) && reach(s) && a in s.agents && a in s.bags && (w.Unpublish? || w.Reap?)
    requires w.slot < |s.entries| && s.entries[w.slot].ptr.At? && s.agents[a] == Under(Window(w, Open))
    ensures var e := s.entries[w.slot];
            && reach(s')
            && s' == Stored(To(Filling(s, a, w, {}, e.(version := e.version + 1)), a, Under(Window(w, Shut))), a, w)
  {
    var e := s.entries[w.slot];
    var s1 := Filling(s, a, w, {}, e.(version := e.version + 1));
    Go(reach, s, s1, Step(a, Store(OpenWindow)));
    s' := Stored(To(s1, a, Under(Window(w, Shut))), a, w);
    Go(reach, s1, s', Step(a, Store(StorePtr)));
  }

  /** The window of a close or a sweep, from its opening to the store of the null pointer. */
  lemma Nulls(reach: Reach, s: State, a: Agent, w: Write) returns (s': State)
    requires Closed(reach) && reach(s) && a in s.agents && a in s.bags && (w.Unpublish? || w.Reap?)
    requires w.slot < |s.entries| && s.entries[w.slot].ptr.At? && s.agents[a] == Under(Window(w, Open))
    ensures var e := s.entries[w.slot];
            && reach(s')
            && s' == To(s, a, AfterShut(w)).(
                 entries := s.entries[w.slot := Emptied(e, s.epoch)],
                 bags := s.bags[a := s.bags[a] + [Ref(e.ptr.obj, Issue(w.slot, e.issues))]],
                 out := s.out + {(w.slot, e.issues)})
  {
    var e := s.entries[w.slot];
    var s2 := NullsInside(reach, s, a, w);
    s' := To(s2, a, AfterShut(w)).(entries := s2.entries[w.slot := Emptied(e, s.epoch)]);
    Go(reach, s2, s', Step(a, Store(ShutWindow)));
    assert s'.agents == s.agents[a := AfterShut(w)];
    assert s'.entries == s.entries[w.slot := Emptied(e, s.epoch)];
  }

  /** A close up to its wait for readers: its slot is in the ring, and the lock is free again. */
  lemma Closes(reach: Reach, s: State, a: Agent, slot: Slot) returns (s': State)
    requires Closed(reach) && reach(s) && Rests(s, a) && slot < |s.entries| && s.entries[slot].ptr.At?
    ensures var e := s.entries[slot];
            && reach(s')
            && s' == To(s, a, Unpublished(ToCaller)).(
                 entries := s.entries[slot := Emptied(e, s.epoch)],
                 bags := s.bags[a := [Ref(e.ptr.obj, Issue(slot, e.issues))]],
                 out := s.out + {(slot, e.issues)},
                 epoch := s.epoch + 1, ring := [Deferred(slot, s.epoch, true)])
  {
    var e := s.entries[slot];
    var call := Call(slot, e.meta.generation, e.meta.owner, {});
    var s1 := To(s, a, Want(Close(call)));
    Go(reach, s, s1, Step(a, Start(StartClose(call))));
    var s2 := To(s1, a, Under(Ready(Close(call)))).(lock := Held(a));
    Go(reach, s1, s2, Step(a, Draining(GetLock)));
    var s3 := To(s2, a, Under(Window(Unpublish(slot), Open)));
    Go(reach, s2, s3, Step(a, Pick(PickClose)));
    var s4 := Nulls(reach, s3, a, Unpublish(slot));
    s' := Defers(reach, s4, a, slot);
    assert s'.agents == s.agents[a := Unpublished(ToCaller)];
    var taken := [Ref(e.ptr.obj, Issue(slot, e.issues))];
    assert [] + taken == taken;
    assert s'.bags == s.bags[a := taken];
  }

  /** The end of a close: its tag, an empty ring drained, and its push. */
  lemma Defers(reach: Reach, s: State, a: Agent, slot: Slot) returns (s': State)
    requires Closed(reach) && reach(s) && a in s.agents && s.agents[a] == Under(Tag(slot)) && s.ring == []
    ensures reach(s')
    ensures s' == To(s, a, Unpublished(ToCaller)).(
              lock := Free, epoch := s.epoch + 1, ring := [Deferred(slot, s.epoch, true)])
  {
    var job := Defer(slot, s.epoch);
    var s1 := To(s, a, Under(Drain(job, {})));
    Go(reach, s, s1, Step(a, Draining(TagEpoch)));
    var s2 := Bumps(reach, s1, a, job);
    s' := To(s2, a, Unpublished(ToCaller)).(lock := Free, ring := s2.ring + [Deferred(slot, s.epoch, true)]);
    Go(reach, s2, s', Step(a, Room(PushRing)));
    assert s'.agents == s.agents[a := Unpublished(ToCaller)];
  }

  // ---------- Sweeping ----------

  /** A sweep that has the lock, drains the one deferral there is, and defers the first entry of its process. */
  lemma SweepDefers(reach: Reach, s: State, a: Agent, pid: Pid) returns (s': State)
    requires Closed(reach) && reach(s) && a in s.agents && a in s.bags && s.agents[a] == Idle && s.bags[a] == []
    requires s.lock.Free? && |s.ring| == 1 && s.observed == map[0 := Quiescent]
    requires |s.entries| > 2 && !Swept(s.entries[0], pid) && Swept(s.entries[1], pid)
    ensures reach(s')
    ensures s' == To(s, a, Under(Window(Reap(1, pid, |s.installs|), Open))).(
              lock := Held(a), free := s.free + {s.ring[0].slot}, epoch := s.epoch + 1,
              ring := [Deferred(1, s.epoch + 1, false)])
  {
    var job := Sweep(pid, 0, |s.installs|);
    var s1 := To(s, a, Want(job));
    Go(reach, s, s1, Step(a, Start(StartSweep(pid))));
    var s2 := DrainsOne(reach, s1, a, job);
    var s3 := To(s2, a, Under(Ready(job.(cursor := 1))));
    Go(reach, s2, s3, Step(a, Pick(SweepSkip)));
    s' := To(s3, a, Under(Window(Reap(1, pid, |s.installs|), Open))).(ring := s3.ring + [Deferred(1, s3.epoch, false)]);
    Go(reach, s3, s', Step(a, Pick(SweepReap)));
    assert s'.agents == s.agents[a := Under(Window(Reap(1, pid, |s.installs|), Open))];
  }

  /** The lock taken, the one deferral of a quiet table drained and the epoch bumped. */
  lemma DrainsOne(reach: Reach, s: State, a: Agent, job: Job) returns (s': State)
    requires Closed(reach) && reach(s) && a in s.agents && s.agents[a] == Want(job) && job.Sweep?
    requires s.lock.Free? && |s.ring| == 1 && s.observed == map[0 := Quiescent]
    ensures reach(s')
    ensures s' == To(s, a, Under(Ready(job))).(
              lock := Held(a), free := s.free + {s.ring[0].slot}, ring := [], epoch := s.epoch + 1)
  {
    var s1 := To(s, a, Under(Drain(job, {}))).(lock := Held(a));
    Go(reach, s, s1, Step(a, Draining(GetLock)));
    var s2 := Scans(reach, s1, a, job);
    var s3 := To(s2, a, Under(Drain(job, {}))).(free := s2.free + {s2.ring[0].slot}, ring := s2.ring[1..]);
    Go(reach, s2, s3, Step(a, Draining(DrainPop)));
    assert s3.ring == [];
    s' := Bumps(reach, s3, a, job);
    assert s'.agents == s.agents[a := Under(Ready(job))];
  }

  /** A drain that finds the only context past the deferral's tag. */
  lemma Scans(reach: Reach, s: State, a: Agent, job: Job) returns (s': State)
    requires Closed(reach) && reach(s) && a in s.agents && s.agents[a] == Under(Drain(job, {}))
    requires |s.ring| == 1 && s.observed.Keys == {0} && Past(s.observed[0], s.ring[0].epoch)
    ensures reach(s') && s' == To(s, a, Under(Drain(job, {0})))
  {
    assert {} + {0} == {0};
    s' := To(s, a, Under(Drain(job, {0})));
    Go(reach, s, s', Step(a, Draining(DrainScan(0))));
  }

  /** The rest of the batch: the pointer taken out, and a pause at the next entry of the process. */
  lemma SweepNulls(reach: Reach, s: State, a: Agent, pid: Pid, start: nat) returns (s': State)
    requires Closed(reach) && reach(s) && a in s.agents && a in s.bags && |s.entries| > 2
    requires s.agents[a] == Under(Window(Reap(1, pid, start), Open)) && s.lock == Held(a) && s.bags[a] == []
    requires s.entries[1].ptr.At? && Swept(s.entries[2], pid)
    ensures var e := s.entries[1];
            && reach(s')
            && s' == To(s, a, Unpublished(ToSweep(pid, 2, true, start))).(
                 entries := s.entries[1 := Emptied(e, s.epoch)],
                 bags := s.bags[a := [Ref(e.ptr.obj, Issue(1, e.issues))]],
                 out := s.out + {(1, e.issues)}, lock := Free)
  {
    var s1 := Nulls(reach, s, a, Reap(1, pid, start));
    s' := To(s1, a, Unpublished(ToSweep(pid, 2, true, start))).(lock := Free);
    Go(reach, s1, s', Step(a, Pick(SweepPause)));
    assert s'.agents == s.agents[a := Unpublished(ToSweep(pid, 2, true, start))];
    var taken := [Ref(s.entries[1].ptr.obj, Issue(1, s.entries[1].issues))];
    assert [] + taken == taken;
    assert s'.bags == s.bags[a := taken];
  }

  // ---------- Reading ----------

  /** A lookup up to the pointer it loads, in a section entered at this epoch. */
  lemma Loads(reach: Reach, s: State, a: Agent, slot: Slot) returns (s': State)
    requires Closed(reach) && reach(s) && a in s.agents && a in s.bags && s.agents[a] == Idle && s.bags[a] == []
    requires 0 in s.observed && (forall b <- s.agents :: !s.agents[b].Section?)
    requires slot < |s.entries| && s.entries[slot].version % 2 == 0 && s.entries[slot].ptr.At?
    requires s.entries[slot].meta.kind < OBJECT_TYPES
    ensures var e := s.entries[slot];
            && reach(s')
            && s' == To(s, a, Section(CallFor(slot, e), 0, Acquire(e.version, e.meta, e.ptr.obj, e.issues))).(
                 observed := s.observed[0 := InSection(s.epoch)])
  {
    var (e, call) := (s.entries[slot], CallFor(slot, s.entries[slot]));
    var s1 := To(s, a, LookupEpoch(call));
    Go(reach, s, s1, Step(a, Start(StartLookup(call))));
    var s2 := To(s1, a, Section(call, 0, Enter(s.epoch)));
    assert CtxFree(s1, 0);
    Go(reach, s1, s2, Step(a, Sectioning(LoadEpoch(0))));
    var s3 := To(s2, a, Section(call, 0, Stage.Seq)).(observed := s2.observed[0 := InSection(s.epoch)]);
    Go(reach, s2, s3, Step(a, Sectioning(Announce)));
    s' := Snapshots(reach, s3, a, call);
    assert s'.agents == s.agents[a := Section(call, 0, Acquire(e.version, e.meta, e.ptr.obj, e.issues))];
  }

  function CallFor(slot: Slot, e: Entry): Call {
    Call(slot, e.meta.generation, e.meta.owner, {})
  }

  lemma Snapshots(reach: Reach, s: State, a: Agent, call: Call) returns (s': State)
    requires Closed(reach) && reach(s) && a in s.agents && call.slot < |s.entries|
    requires s.agents[a] == Section(call, 0, Stage.Seq)
    requires var e := s.entries[call.slot]; e.version % 2 == 0 && e.ptr.At? && e.meta.kind < OBJECT_TYPES
    ensures var e := s.entries[call.slot];
            && reach(s')
            && s' == To(s, a, Section(call, 0, Acquire(e.version, e.meta, e.ptr.obj, e.issues)))
  {
    var e := s.entries[call.slot];
    Go(reach, s, Loading(s, a, call, FRESH.meta, {}), Step(a, Snap(LoadSeq)));
    var m1 := LoadsField(reach, s, a, call, FRESH.meta, {}, Generation);
    var m2 := LoadsField(reach, s, a, call, m1, {} + {Generation}, Owner);
    var have := {} + {Generation} + {Owner};
    var m3 := LoadsField(reach, s, a, call, m2, have, Rights);
    var m4 := LoadsField(reach, s, a, call, m3, have + {Rights}, Kind);
    assert m4 == e.meta && have + {Rights} + {Kind} == ALL_FIELDS;
    s' := LoadsPointer(reach, s, a, call);
  }

  /** `s` with the agent in its snapshot, these fields loaded. */
  function Loading(s: State, a: Agent, call: Call, got: Meta, have: set<Field>): State
    requires call.slot < |s.entries|
  {
    To(s, a, Section(call, 0, Fields(s.entries[call.slot].version, got, have)))
  }

  lemma LoadsField(reach: Reach, s: State, a: Agent, call: Call, got: Meta, have: set<Field>, f: Field)
    returns (got': Meta)
    requires Closed(reach) && a in s.agents && call.slot < |s.entries| && f !in have
    requires reach(Loading(s, a, call, got, have))
    ensures got' == Put(got, f, s.entries[call.slot].meta) && reach(Loading(s, a, call, got', have + {f}))
  {
    got' := Put(got, f, s.entries[call.slot].meta);
    var (t, t') := (Loading(s, a, call, got, have), Loading(s, a, call, got', have + {f}));
    assert t'.agents == t.agents[a := t'.agents[a]];
    Go(reach, t, t', Step(a, Snap(LoadField(f))));
  }

  lemma LoadsPointer(reach: Reach, s: State, a: Agent, call: Call) returns (s': State)
    requires Closed(reach) && a in s.agents && call.slot < |s.entries|
    requires var e := s.entries[call.slot]; e.ptr.At? && e.meta.kind < OBJECT_TYPES
    requires reach(Loading(s, a, call, s.entries[call.slot].meta, ALL_FIELDS))
    ensures var e := s.entries[call.slot];
            && reach(s')
            && s' == To(s, a, Section(call, 0, Acquire(e.version, e.meta, e.ptr.obj, e.issues)))
  {
    var e := s.entries[call.slot];
    var s1 := Loading(s, a, call, e.meta, ALL_FIELDS);
    var s2 := To(s1, a, Section(call, 0, Pointer(e.version, e.meta)));
    Go(reach, s1, s2, Step(a, Snap(LoadSeqAgain)));
    s' := To(s2, a, Section(call, 0, Acquire(e.version, e.meta, e.ptr.obj, e.issues)));
    Go(reach, s2, s', Step(a, Snap(LoadPtr)));
    assert s'.agents == s.agents[a := Section(call, 0, Acquire(e.version, e.meta, e.ptr.obj, e.issues))];
  }

  // ---------- The run ----------

  /** Agent 0 sweeps, agent 1 reads, agent 2 closes and waits, agent 3 drains. */
  function Opening(): State {
    var entries := seq(SEGMENT_LEN, _ => FRESH);
    State(entries, Range(0, |entries|), [], Lock.Free, 0, map[0 := Quiescent], map[],
          map[0 := [], 1 := [], 2 := [], 3 := []], map[0 := Idle, 1 := Idle, 2 := Idle, 3 := Idle], [], {})
  }

  /** Every agent rests, and the first three entries are live: the second and third are process 5's. */
  ghost predicate Ready3(s: State) {
    && s.agents.Keys == s.bags.Keys == {0, 1, 2, 3}
    && (forall a <- s.agents :: s.agents[a] == Idle && s.bags[a] == []) && s.lock.Free? && s.ring == []
    && s.observed == map[0 := Quiescent] && |s.entries| > 2 && s.entries[0].ptr.At?
    && Swept(s.entries[1], 5) && Swept(s.entries[2], 5)
    && s.entries[1].version % 2 == 0 && s.entries[1].meta.kind < OBJECT_TYPES
  }

  /** `s'` is `s` with one more entry, and everyone at rest still. */
  ghost predicate OneMore(s: State, s': State, slot: Slot, pid: Pid, o: Obj) {
    && slot < |s.entries| && s'.entries == s.entries[slot := Filled(s.entries[slot], pid, o)]
    && s'.free == s.free - {slot} && s'.refs == s.refs[o := 1] && s'.lock == s.lock && s'.ring == s.ring
    && s'.observed == s.observed && s'.bags == s.bags && s'.agents == s.agents
  }

  lemma OpeningRests()
    ensures var s := Opening();
            && s.agents.Keys == s.bags.Keys == {0, 1, 2, 3} && (forall a <- s.agents :: Rests(s, a))
            && s.observed == map[0 := Quiescent] && s.refs == map[]
            && |s.entries| > 2 && s.entries[0] == s.entries[1] == s.entries[2] == FRESH
            && 0 in s.free && 1 in s.free && 2 in s.free
  {}

  /** Three entries, one of process 7 and two of process 5. */
  lemma ThreeEntries(reach: Reach) returns (s: State)
    requires Closed(reach) && reach(Opening())
    ensures reach(s) && Ready3(s) && 103 !in s.refs
  {
    var t := Opening();
    OpeningRests();
    var s1 := Installs(reach, t, 2, 100, 0, 7);
    var s2 := Installs(reach, s1, 0, 101, 1, 5);
    s := Installs(reach, s2, 0, 102, 2, 5);
    assert OneMore(t, s1, 0, 7, 100) && OneMore(s1, s2, 1, 5, 101) && OneMore(s2, s, 2, 5, 102);
  }

  /** The sweep has tagged its deferral, and the epoch has moved since. */
  lemma TaggedThenMoved(reach: Reach, s: State) returns (s': State)
    requires Closed(reach) && reach(s) && Ready3(s)
    ensures reach(s') && s'.agents.Keys == s'.bags.Keys == {0, 1, 2, 3}
    ensures s'.agents[0] == Under(Window(Reap(1, 5, |s.installs|), Open)) && s'.lock == Held(0)
    ensures s'.agents[1] == s'.agents[3] == Idle && !s'.agents[2].Section?
    ensures s'.bags[0] == s'.bags[1] == s'.bags[3] == [] && s'.refs == s.refs
    ensures s'.ring == [Deferred(1, s.epoch + 2, false)] && s'.epoch == s.epoch + 3 && s'.observed == s.observed
    ensures |s'.entries| > 2 && s'.entries[1] == s.entries[1] && s'.entries[2] == s.entries[2]
  {
    var s1 := Closes(reach, s, 2, 0);
    var s2 := SweepDefers(reach, s1, 0, 5);
    s' := To(s2, 2, Synchronize(ToCaller, s2.epoch, {})).(epoch := s2.epoch + 1);
    Go(reach, s2, s', Step(2, Grace(AdvanceEpoch)));
  }

  /** The deferral is tagged, the epoch moves, the reader loads, and the pointer goes out. */
  lemma LateNull(reach: Reach, s: State) returns (s': State)
    requires Closed(reach) && reach(s) && Ready3(s)
    ensures reach(s') && s'.agents.Keys == s'.bags.Keys == {0, 1, 2, 3}
    ensures s'.agents[3] == Idle && s'.bags[3] == [] && s'.lock.Free? && s'.refs == s.refs
    ensures s'.ring == [Deferred(1, s.epoch + 2, false)] && s'.observed == map[0 := InSection(s.epoch + 3)]
    ensures s'.agents[1].Section? && s'.agents[1].stage.Acquire? && s'.agents[1].call.slot == 1
    ensures |s'.entries| > 1 && s'.entries[1].nulledAt == s.epoch + 3
  {
    var s3 := TaggedThenMoved(reach, s);
    var s4 := Loads(reach, s3, 1, 1);
    s' := SweepNulls(reach, s4, 0, 5, |s.installs|);
    assert s'.observed == map[0 := InSection(s.epoch + 3)];
  }

  /** An install by agent 3, up to where it has found the one context past the deferral's tag. */
  lemma FindsItPast(reach: Reach, s: State) returns (s': State)
    requires Closed(reach) && reach(s) && 3 in s.agents && 3 in s.bags && s.agents[3] == Idle && s.bags[3] == []
    requires s.lock.Free? && |s.ring| == 1 && s.observed.Keys == {0} && Past(s.observed[0], s.ring[0].epoch)
    requires 103 !in s.refs
    ensures reach(s') && s'.ring == s.ring && s'.entries == s.entries && s'.observed == s.observed
    ensures 3 in s'.agents && s'.agents == s.agents[3 := s'.agents[3]]
    ensures s'.agents[3].Under? && s'.agents[3].work.Drain? && s'.agents[3].work.past == {0}
  {
    var meta := Meta(0, 9, {}, 0);
    var s1 := Take(s.(refs := s.refs[103 := 0]), 3, 103);
    Go(reach, s, s1, Step(3, Refs(Create(103))));
    var s2 := To(s1, 3, Want(Install(meta)));
    Go(reach, s1, s2, Step(3, Start(StartInstall(meta))));
    var s3 := To(s2, 3, Under(Drain(Install(meta), {}))).(lock := Held(3));
    Go(reach, s2, s3, Step(3, Draining(GetLock)));
    s' := Scans(reach, s3, 3, Install(meta));
    assert s'.agents == s.agents[3 := s'.agents[3]];
  }

  // ---------- As a run ----------

  /** Some run ends in `s`. */
  ghost predicate Reachable(s: State) {
    exists run, steps :: IsRun(run, steps) && run[|steps|] == s
  }

  lemma Extend(run: seq<State>, steps: seq<Step>, s': State, step: Step)
    requires IsRun(run, steps) && Next(run[|steps|], s', step)
    ensures IsRun(run + [s'], steps + [step])
  {
    var (r, t) := (run + [s'], steps + [step]);
    forall i | 0 <= i < |t|
      ensures Next(r[i], r[i + 1], t[i])
    {
      if i < |steps| {
        assert t[i] == steps[i] && r[i] == run[i] && r[i + 1] == run[i + 1];
      }
    }
  }

  lemma ReachableIsClosed(s: State, s': State, step: Step)
    requires Reachable(s) && Next(s, s', step)
    ensures Reachable(s')
  {
    var run: seq<State>, steps: seq<Step> :| IsRun(run, steps) && run[|steps|] == s;
    Extend(run, steps, s', step);
    var (r, t) := (run + [s'], steps + [step]);
    assert IsRun(r, t) && r[|t|] == s';
  }

  lemma OpeningIsReachable()
    ensures Reachable(Opening())
  {
    var run: seq<State>, steps: seq<Step> := [Opening()], [];
    assert IsRun(run, steps) && run[|steps|] == Opening();
  }

  /** The moment before a drain pops the slot the reader has loaded from. */
  ghost predicate AboutToPop(s: State) {
    && 1 in s.agents && 3 in s.agents && |s.ring| == 1 && s.ring[0].slot < |s.entries|
    && s.agents[3].Under? && s.agents[3].work.Drain? && s.agents[3].work.past == s.observed.Keys
    && !s.ring[0].byClose && s.entries[s.ring[0].slot].nulledAt == s.ring[0].epoch + 1
    && Loaded(s.agents[1], s.ring[0].slot)
  }

  lemma PopsUnderReader(reach: Reach) returns (s: State)
    requires Closed(reach) && reach(Opening())
    ensures reach(s) && AboutToPop(s)
  {
    var s1 := ThreeEntries(reach);
    var s2 := LateNull(reach, s1);
    s := FindsItPast(reach, s2);
  }

  lemma PoppedUnderReader() returns (s: State)
    ensures Reachable(s) && AboutToPop(s)
  {
    var reach := (s: State) => Reachable(s);
    forall s: State, s': State, step: Step | reach(s) && Next(s, s', step)
      ensures reach(s')
    {
      ReachableIsClosed(s, s', step);
    }
    OpeningIsReachable();
    s := PopsUnderReader(reach);
  }

  /**
   A run whose last step puts a slot a sweep deferred back on the freelist while agent 1 is in a section in
   which it loaded the slot's pointer: the pointer went out one epoch later than the deferral's tag.
   */
  lemma SweepReusedUnderReader() returns (run: seq<State>, steps: seq<Step>, i: nat)
    ensures IsRun(run, steps) && |steps| == i + 1 && steps[i] == Step(3, Draining(DrainPop))
    ensures var s := run[i];
            && |s.ring| == 1 && !s.ring[0].byClose && s.ring[0].slot < |s.entries|
            && s.entries[s.ring[0].slot].nulledAt == s.ring[0].epoch + 1
            && 1 in s.agents && Loaded(s.agents[1], s.ring[0].slot)
            && s.ring[0].slot in run[i + 1].free
  {
    var s := PoppedUnderReader();
    var (job, slot) := (s.agents[3].work.job, s.ring[0].slot);
    run, steps :| IsRun(run, steps) && run[|steps|] == s;
    i := |steps|;
    var s' := To(s, 3, Under(Drain(job, {}))).(free := s.free + {slot}, ring := s.ring[1..]);
    Extend(run, steps, s', Step(3, Draining(DrainPop)));
    run, steps := run + [s'], steps + [Step(3, Draining(DrainPop))];
  }
}
