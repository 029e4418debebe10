/**
 What the handle table remembers over time: generations, which issues have left the table, what an
 exit sweep has behind it, and when a closed slot may be used again.
 */
module HandleTableHistory {
  import opened Common
  import opened HandleTable
  import opened HandleTableSafety

  // ---------- Generations ----------

  /** What an install's window has stored so far, and what it has still to store. */
  ghost predicate PublishOk(e: Entry, src: Meta, phase: Phase) {
    && (phase.Shut? ==> e.meta == src && src.generation == e.issues % GENERATIONS)
    && (!phase.Shut? ==> src.generation == (e.issues + 1) % GENERATIONS)
    && (phase.Open? ==> e.meta.generation == e.issues % GENERATIONS)
    && (phase.Fill? ==> forall f <- ALL_FIELDS - phase.todo :: Agree(f, e.meta, src))
  }

  /** The lock holder is storing a new issue's fields into slot `i`. */
  ghost predicate Renumbering(s: State, i: Slot) {
    && s.lock.Held? && s.lock.holder in s.agents
    && var pc := s.agents[s.lock.holder];
       pc.Under? && pc.work.Window? && pc.work.w.Publish? && pc.work.w.slot == i && pc.work.phase.Fill?
  }

  ghost predicate Installing(pc: Pc) {
    pc.Under? && pc.work.Window? && pc.work.w.Publish?
  }

  ghost predicate InstallOk(s: State, pc: Pc) {
    Installing(pc) ==>
      && pc.work.w.slot < |s.entries|
      && PublishOk(s.entries[pc.work.w.slot], pc.work.w.src, pc.work.phase)
  }

  ghost predicate GenInv(s: State) {
    && (forall a <- s.agents :: InstallOk(s, s.agents[a]))
    && (forall i: Slot :: i < |s.entries| ==>
          s.entries[i].meta.generation == s.entries[i].issues % GENERATIONS || Renumbering(s, i))
  }

  /** Steps that store nothing and begin no install. */
  lemma QuietKeepsGen(s: State, s': State, a: Agent)
    requires LockInv(s) && GenInv(s) && Moves(s, s', a) && |s.entries| <= |s'.entries|
    requires forall i {:trigger s'.entries[i]} :: 0 <= i < |s'.entries| ==>
        s'.entries[i] == if i < |s.entries| then s.entries[i] else FRESH
    requires !Installing(s.agents[a]) && !Installing(s'.agents[a])
    requires s'.lock == s.lock || s.lock == Held(a) || s.lock == Free
    ensures GenInv(s')
  {
    forall i: Slot | i < |s'.entries|
      ensures s'.entries[i].meta.generation == s'.entries[i].issues % GENERATIONS || Renumbering(s', i)
    {}
  }

  lemma PickKeepsGen(s: State, s': State, a: Agent, step: PickStep)
    requires LockInv(s) && GenInv(s) && PickNext(s, s', a, step)
    ensures GenInv(s')
  {
    PickFrame(s, s', a, step);
    if step.PickFree? {
      assert !Renumbering(s, step.slot);
      NextGeneration(s.entries[step.slot].issues);
      forall i: Slot | i < |s'.entries|
        ensures s'.entries[i].meta.generation == s'.entries[i].issues % GENERATIONS || Renumbering(s', i)
      {
        assert !Renumbering(s, i);
      }
    } else {
      QuietKeepsGen(s, s', a);
    }
  }

  lemma NextGeneration(n: nat)
    ensures (n % GENERATIONS + 1) % GENERATIONS == (n + 1) % GENERATIONS
  {}

  /** Within a window, the fields already stored are the new issue's. */
  lemma StoreField1(m: Meta, src: Meta, todo: set<Field>, f: Field)
    requires f in todo && forall g <- ALL_FIELDS - todo :: Agree(g, m, src)
    ensures forall g <- ALL_FIELDS - (todo - {f}) :: Agree(g, Put(m, f, src), src)
  {
    forall g | g in ALL_FIELDS - (todo - {f})
      ensures Agree(g, Put(m, f, src), src)
    {
      if g != f {
        assert g in ALL_FIELDS - todo;
      }
    }
  }

  lemma StoreLocalGen(s: State, s': State, a: Agent, step: StoreStep)
    requires a in s.agents && a in s.bags && StoreNext(s, s', a, step)
    requires PcOk(s, s.bags[a], s.agents[a]) && InstallOk(s, s.agents[a])
    ensures InstallOk(s', s'.agents[a])
  {
    var (w, phase) := (s.agents[a].work.w, s.agents[a].work.phase);
    var e := s.entries[w.slot];
    if w.Publish? {
      match step
      case OpenWindow => assert ALL_FIELDS - Touched(w) == {};
      case StoreField(f) => StoreField1(e.meta, w.src, phase.todo, f);
      case StorePtr => AllFieldsAgree(e.meta, w.src);
      case ShutWindow =>
    }
  }

  lemma StoreKeepsGen(s: State, s': State, a: Agent, step: StoreStep)
    requires LockInv(s) && GenInv(s) && StoreNext(s, s', a, step)
    requires PcOk(s, s.bags[a], s.agents[a])
    ensures GenInv(s')
  {
    StoreFrame(s, s', a, step);
    StoreLocalGen(s, s', a, step);
    assert forall i: Slot :: Renumbering(s, i) ==> i == s.agents[a].work.w.slot;
    forall i: Slot | i < |s'.entries|
      ensures s'.entries[i].meta.generation == s'.entries[i].issues % GENERATIONS || Renumbering(s', i)
    {
      if i == s.agents[a].work.w.slot {
        StoreNumbers(s, s', a, step);
      }
    }
  }

  /** The window's own slot: numbered, or being renumbered. */
  lemma StoreNumbers(s: State, s': State, a: Agent, step: StoreStep)
    requires LockInv(s) && GenInv(s) && StoreNext(s, s', a, step)
    requires PcOk(s, s.bags[a], s.agents[a])
    ensures var i := s.agents[a].work.w.slot;
            && i < |s'.entries|
            && (s'.entries[i].meta.generation == s'.entries[i].issues % GENERATIONS || Renumbering(s', i))
  {
    StoreFrame(s, s', a, step);
    StoreLocalGen(s, s', a, step);
    assert InstallOk(s, s.agents[a]);
  }

  // ---------- Issues that have left the table ----------

  /** Issue `n` of slot `i` was installed and is no longer live. */
  ghost predicate Gone(s: State, i: Slot, n: nat) {
    i < |s.entries| && 1 <= n <= s.entries[i].issues && !(n == s.entries[i].issues && s.entries[i].ptr.At?)
  }

  /** What closes and sweeps have taken out is exactly what was installed and is gone. */
  ghost predicate OutInv(s: State) {
    && (forall i: Slot, n: nat :: (i, n) in s.out <==> Gone(s, i, n))
    && (forall i: Slot :: i < |s.entries| && s.entries[i].ptr.At? ==> s.entries[i].issues >= 1)
  }

  lemma QuietKeepsOut(s: State, s': State)
    requires OutInv(s) && s'.out == s.out && |s.entries| <= |s'.entries|
    requires forall i {:trigger s'.entries[i]} :: 0 <= i < |s.entries| ==>
        s'.entries[i].ptr == s.entries[i].ptr && s'.entries[i].issues == s.entries[i].issues
    requires forall i {:trigger s'.entries[i]} :: |s.entries| <= i < |s'.entries| ==> s'.entries[i] == FRESH
    ensures OutInv(s')
  {
    forall i: Slot, n: nat
      ensures (i, n) in s'.out <==> Gone(s', i, n)
    {
      assert (i, n) in s.out <==> Gone(s, i, n);
    }
  }

  lemma StoreKeepsOut(s: State, s': State, a: Agent, step: StoreStep)
    requires LockInv(s) && OutInv(s) && StoreNext(s, s', a, step)
    requires PcOk(s, s.bags[a], s.agents[a])
    ensures OutInv(s')
    ensures s'.out != s.out ==> exists i: Slot, n: nat :: (i, n) !in s.out && s'.out == s.out + {(i, n)}
  {
    var w := s.agents[a].work.w;
    if !step.StorePtr? || w.Attenuate? {
      QuietKeepsOut(s, s');
    } else {
      var e := s.entries[w.slot];
      assert w.Publish? || (!Gone(s, w.slot, e.issues) && (w.slot, e.issues) !in s.out);
      forall i: Slot, n: nat
        ensures (i, n) in s'.out <==> Gone(s', i, n)
      {
        assert (i, n) in s.out <==> Gone(s, i, n);
      }
    }
  }

  // ---------- The exit sweep ----------

  /** A sweep for `pid` begun when `start` installs had happened has `cursor` slots behind it. */
  datatype View = NoSweep | View(pid: Pid, cursor: nat, start: nat)

  function JobView(job: Job): View {
    if job.Sweep? then View(job.pid, job.cursor, job.start) else NoSweep
  }

  function AfterView(after: After): View {
    if after.ToSweep? then View(after.pid, after.cursor, after.start) else NoSweep
  }

  function SweepView(pc: Pc): View {
    match pc
    case Want(job) => JobView(job)
    case Under(Drain(job, _)) => JobView(job)
    case Under(Bump(job)) => JobView(job)
    case Under(Ready(job)) => JobView(job)
    case Under(Window(Reap(slot, pid, start), _)) => View(pid, slot, start)
    case Unpublished(after) => AfterView(after)
    case Synchronize(after, _, _) => AfterView(after)
    case Between(pid, cursor, _, start) => View(pid, cursor, start)
    case _ => NoSweep
  }

  /** No handle has been installed for `pid` since `start` installs. */
  ghost predicate NoneInstalled(s: State, pid: Pid, start: nat) {
    forall k :: start <= k < |s.installs| ==> s.installs[k] != pid
  }

  ghost predicate Behind(s: State, v: View) {
    v.View? ==>
      && v.start <= |s.installs|
      && (NoneInstalled(s, v.pid, v.start) ==>
            forall i :: 0 <= i < v.cursor && i < |s.entries| ==> !Swept(s.entries[i], v.pid))
  }

  ghost predicate SweepInv(s: State) {
    forall a <- s.agents :: Behind(s, SweepView(s.agents[a]))
  }

  /** A step that changes no entry's owner or pointer. */
  lemma BehindSame(s: State, s': State, v: View)
    requires Behind(s, v) && s'.installs == s.installs && |s.entries| <= |s'.entries|
    requires forall i {:trigger s'.entries[i]} :: 0 <= i < |s.entries| ==>
        && s'.entries[i].ptr == s.entries[i].ptr
        && (s.entries[i].ptr.At? ==> s'.entries[i].meta.owner == s.entries[i].meta.owner)
    requires forall i {:trigger s'.entries[i]} :: |s.entries| <= i < |s'.entries| ==> s'.entries[i] == FRESH
    ensures Behind(s', v)
  {
    if v.View? && NoneInstalled(s', v.pid, v.start) {
      assert NoneInstalled(s, v.pid, v.start);
    }
  }

  lemma QuietKeepsSweep(s: State, s': State, a: Agent)
    requires SweepInv(s) && Moves(s, s', a) && s'.installs == s.installs && |s.entries| <= |s'.entries|
    requires forall i {:trigger s'.entries[i]} :: 0 <= i < |s'.entries| ==>
        s'.entries[i] == if i < |s.entries| then s.entries[i] else FRESH
    requires Behind(s', SweepView(s'.agents[a]))
    ensures SweepInv(s')
  {
    forall b | b in s'.agents
      ensures Behind(s', SweepView(s'.agents[b]))
    {
      if b != a {
        BehindSame(s, s', SweepView(s.agents[b]));
      }
    }
  }

  lemma DrainKeepsView(s: State, s': State, a: Agent, step: DrainStep)
    requires DrainNext(s, s', a, step)
    ensures SweepView(s'.agents[a]) == SweepView(s.agents[a])
  {}

  lemma RoomKeepsView(s: State, s': State, a: Agent, step: RoomStep)
    requires RoomNext(s, s', a, step)
    ensures SweepView(s'.agents[a]) == NoSweep
  {}

  lemma GraceKeepsView(s: State, s': State, a: Agent, step: GraceStep)
    requires GraceNext(s, s', a, step)
    ensures SweepView(s'.agents[a]) == SweepView(s.agents[a])
  {}

  lemma PickKeepsBehind(s: State, s': State, a: Agent, step: PickStep)
    requires a in s.agents && Behind(s, SweepView(s.agents[a])) && PickNext(s, s', a, step)
    ensures a in s'.agents && Behind(s', SweepView(s'.agents[a]))
  {
    var v := SweepView(s.agents[a]);
    if step.SweepSkip? || step.SweepReap? || step.SweepPause? || step.SweepEnd? {
      assert NoneInstalled(s', v.pid, v.start) == NoneInstalled(s, v.pid, v.start);
    }
  }

  /** An install is the only step that gives a process a handle, and it is listed. */
  lemma StoreKeepsBehind(s: State, s': State, a: Agent, step: StoreStep, v: View)
    requires LockInv(s) && GenInv(s) && StoreNext(s, s', a, step)
    requires PcOk(s, s.bags[a], s.agents[a])
    requires Behind(s, v)
    ensures Behind(s', v)
  {
    var w := s.agents[a].work.w;
    if v.View? && NoneInstalled(s', v.pid, v.start) {
      assert NoneInstalled(s, v.pid, v.start) by {
        assert forall k :: 0 <= k < |s.installs| ==> s'.installs[k] == s.installs[k];
      }
      if step.StorePtr? && w.Publish? {
        StoreLocalGen(s, s', a, step);
        assert s'.entries[w.slot].meta == w.src;
        assert s'.installs[|s.installs|] == w.src.owner;
      }
    }
  }

  /** The sweeper's own window: when it shuts, the slot is empty and the cursor is past it. */
  lemma StoreOwnBehind(s: State, s': State, a: Agent, step: StoreStep)
    requires LockInv(s) && GenInv(s) && StoreNext(s, s', a, step)
    requires PcOk(s, s.bags[a], s.agents[a]) && Behind(s, SweepView(s.agents[a]))
    ensures a in s'.agents && Behind(s', SweepView(s'.agents[a]))
  {
    var v := SweepView(s.agents[a]);
    StoreKeepsBehind(s, s', a, step, v);
    if step.ShutWindow? && v.View? {
      assert NoneInstalled(s', v.pid, v.start) == NoneInstalled(s, v.pid, v.start);
      assert s'.entries[v.cursor].ptr.Null?;
    }
  }

  lemma StoreKeepsSweep(s: State, s': State, a: Agent, step: StoreStep)
    requires LockInv(s) && GenInv(s) && SweepInv(s) && StoreNext(s, s', a, step)
    requires PcOk(s, s.bags[a], s.agents[a])
    ensures SweepInv(s')
  {
    StoreFrame(s, s', a, step);
    StoreOwnBehind(s, s', a, step);
    forall b | b in s'.agents && b != a
      ensures Behind(s', SweepView(s'.agents[b]))
    {
      StoreKeepsBehind(s, s', a, step, SweepView(s.agents[b]));
    }
  }
}
