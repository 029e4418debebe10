/**
 What a handle stands for while it is live: its object, owner and type are fixed, and its rights only
 ever shrink, by exactly what a restrict asks.
 */
module HandleTableRights {
  import opened Common
  import opened HandleTable
  import opened HandleTableSafety
  import opened HandleTableHistory
  import opened HandleTableTheorems

  /** Both are live, and at the same issue. */
  predicate SameIssue(e: Entry, e': Entry) {
    e.ptr.At? && e'.ptr.At? && e.issues == e'.issues
  }

  /** `e'` stands for what `e` does, with no right more. */
  predicate Narrows(e: Entry, e': Entry) {
    && e'.ptr == e.ptr && e'.meta.generation == e.meta.generation
    && e'.meta.owner == e.meta.owner && e'.meta.kind == e.meta.kind
    && e'.meta.rights <= e.meta.rights
  }

  /** What a step may do to an entry: nothing is lost, an install counts, and the live one only narrows. */
  predicate Follows(e: Entry, e': Entry) {
    && e.issues <= e'.issues
    && (e.ptr.Null? && e'.ptr.At? ==> e.issues < e'.issues)
    && (SameIssue(e, e') ==> Narrows(e, e'))
  }

  lemma StoreFollows(s: State, s': State, a: Agent, step: StoreStep, slot: Slot)
    requires LockInv(s) && PcInv(s) && StoreNext(s, s', a, step) && slot < |s.entries|
    ensures slot < |s'.entries| && Follows(s.entries[slot], s'.entries[slot])
  {
    StoreFrame(s, s', a, step);
    assert PcOk(s, s.bags[a], s.agents[a]);
    if slot == s.agents[a].work.w.slot {
      var (w, e) := (s.agents[a].work.w, s.entries[slot]);
      assert WindowOk(e, s.bags[a], w, s.agents[a].work.phase);
    }
  }

  lemma StepFollows(s: State, s': State, step: Step, slot: Slot)
    requires LockInv(s) && PcInv(s) && Next(s, s', step) && slot < |s.entries|
    ensures slot < |s'.entries| && Follows(s.entries[slot], s'.entries[slot])
  {
    match step.family
    case Refs(st) => RefFrame(s, s', step.a, st);
    case Start(st) => StartFrame(s, s', step.a, st);
    case Sectioning(st) => SectionFrame(s, s', step.a, st);
    case Snap(st) => SnapFrame(s, s', step.a, st);
    case Draining(st) => DrainFrame(s, s', step.a, st);
    case Room(st) => RoomFrame(s, s', step.a, st);
    case Pick(st) => PickFrame(s, s', step.a, st);
    case Store(st) => StoreFollows(s, s', step.a, st, slot);
    case Grace(st) => GraceFrame(s, s', step.a, st);
  }

  lemma RunFollows(run: seq<State>, steps: seq<Step>, i: nat, slot: Slot)
    requires IsRun(run, steps) && i < |steps| && slot < |run[i].entries|
    ensures slot < |run[i + 1].entries| && Follows(run[i].entries[slot], run[i + 1].entries[slot])
  {
    RunKeepsInv(run, steps, i);
    RunStep(run, steps, i);
    StepFollows(run[i], run[i + 1], steps[i], slot);
  }

  lemma {:induction false} IssuesOnlyGrow(run: seq<State>, steps: seq<Step>, i: nat, j: nat, slot: Slot)
    requires IsRun(run, steps) && i <= j < |run| && slot < |run[i].entries|
    ensures slot < |run[j].entries| && run[i].entries[slot].issues <= run[j].entries[slot].issues
    decreases j - i
  {
    if i < j {
      IssuesOnlyGrow(run, steps, i, j - 1, slot);
      RunFollows(run, steps, j - 1, slot);
    }
  }

  /**
   In every run, as long as a handle is live it names one object, with one owner and one type, and its
   rights never grow, whatever restricts, lookups and other handles' writes interleave.
   */
  lemma {:induction false} RightsOnlyShrink(run: seq<State>, steps: seq<Step>, i: nat, j: nat, slot: Slot)
    requires IsRun(run, steps) && i <= j < |run| && slot < |run[i].entries| && slot < |run[j].entries|
    requires SameIssue(run[i].entries[slot], run[j].entries[slot])
    ensures Narrows(run[i].entries[slot], run[j].entries[slot])
    decreases j - i
  {
    if i < j {
      IssuesOnlyGrow(run, steps, i, j - 1, slot);
      RunFollows(run, steps, j - 1, slot);
      RightsOnlyShrink(run, steps, i, j - 1, slot);
    }
  }

  /** A restrict's store leaves exactly the rights the entry had and the caller asked to keep. */
  lemma RestrictIntersects(run: seq<State>, steps: seq<Step>, i: nat)
    requires IsRun(run, steps) && i < |steps| && steps[i].family == Store(StoreField(Rights))
    requires IsRestricting(run[i], steps[i].a)
    ensures var w := run[i].agents[steps[i].a].work.w;
            && w.slot < |run[i].entries| && w.slot < |run[i + 1].entries|
            && run[i + 1].entries[w.slot].meta.rights == run[i].entries[w.slot].meta.rights * w.asked
  {
    RunKeepsInv(run, steps, i);
    RunStep(run, steps, i);
    StoreIntersects(run[i], run[i + 1], steps[i].a);
  }

  lemma StoreIntersects(s: State, s': State, a: Agent)
    requires PcInv(s) && StoreNext(s, s', a, StoreField(Rights)) && IsRestricting(s, a)
    ensures var w := s.agents[a].work.w;
            && w.slot < |s.entries| && w.slot < |s'.entries|
            && s'.entries[w.slot].meta.rights == s.entries[w.slot].meta.rights * w.asked
  {
    assert PcOk(s, s.bags[a], s.agents[a]);
  }

  /** When a restrict lets its window go, the entry has no right it did not ask to keep. */
  lemma RestrictTakesEffect(run: seq<State>, steps: seq<Step>, i: nat)
    requires IsRun(run, steps) && i < |steps| && steps[i].family == Store(ShutWindow)
    requires IsRestricting(run[i], steps[i].a)
    ensures var w := run[i].agents[steps[i].a].work.w;
            w.slot < |run[i + 1].entries| && run[i + 1].entries[w.slot].meta.rights <= w.asked
  {
    RunKeepsInv(run, steps, i);
    RunStep(run, steps, i);
    ShutIsDone(run[i], run[i + 1], steps[i].a);
  }

  lemma ShutIsDone(s: State, s': State, a: Agent)
    requires PcInv(s) && StoreNext(s, s', a, ShutWindow) && IsRestricting(s, a)
    ensures var w := s.agents[a].work.w; w.slot < |s'.entries| && s'.entries[w.slot].meta.rights <= w.asked
  {
    assert PcOk(s, s.bags[a], s.agents[a]);
  }

  /**
   When an install lets its window go, the entry is live and whole: every field, the generation of its issue, an
   even version.
   */
  lemma InstallPublishes(run: seq<State>, steps: seq<Step>, i: nat)
    requires IsRun(run, steps) && i < |steps| && steps[i].family == Store(ShutWindow)
    requires steps[i].a in run[i].agents && Installing(run[i].agents[steps[i].a])
    ensures var w := run[i].agents[steps[i].a].work.w;
            && w.slot < |run[i + 1].entries|
            && var e := run[i + 1].entries[w.slot];
               e.ptr.At? && e.meta == w.src && e.meta.generation == e.issues % GENERATIONS && e.version % 2 == 0
  {
    RunKeepsInv(run, steps, i);
    RunStep(run, steps, i);
    ShutPublishes(run[i], run[i + 1], steps[i].a);
  }

  lemma ShutPublishes(s: State, s': State, a: Agent)
    requires PcInv(s) && GenInv(s) && StoreNext(s, s', a, ShutWindow) && Installing(s.agents[a])
    ensures var w := s.agents[a].work.w;
            && w.slot < |s'.entries|
            && var e := s'.entries[w.slot];
               e.ptr.At? && e.meta == w.src && e.meta.generation == e.issues % GENERATIONS && e.version % 2 == 0
  {
    assert PcOk(s, s.bags[a], s.agents[a]) && InstallOk(s, s.agents[a]);
  }

  ghost predicate IsRestricting(s: State, a: Agent) {
    a in s.agents && s.agents[a].Under? && s.agents[a].work.Window? && s.agents[a].work.w.Attenuate?
  }
}
