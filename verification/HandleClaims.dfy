/**
 Moving a handle out of its owner's table (`HandleTable::claim`, `Claim::commit` and its drop).

 One slot and any number of claimants. A claim is a lookup, which takes no lock, and then a check and
 a mark under the table lock; issuing, closing, committing and dropping are one hold of that lock
 each. The slot's generation is its issue count modulo 2^31, which is all a claim remembers of it;
 `issue` is which one that was, and `found` the one the claim's lookup saw. `committed` lists the issues
 committed, one entry a commit.
 */
module HandleClaims {
  import opened Common

  type Agent = nat
  type Pid = nat
  type Obj = nat

  datatype Pc =
    | Idle
    | LookedUp(issue: nat, obj: Obj, pid: Pid)
    | Claiming(issue: nat, pid: Pid, found: nat)

  datatype State = State(
    issues: nat,
    live: bool,
    owner: Pid,
    obj: Obj,
    inTransit: bool,
    agents: map<Agent, Pc>,
    committed: seq<nat>)

  datatype Step =
    | Issue(pid: Pid, o: Obj)
    | Close
    | Lookup
    | Mark
    | Commit
    | Drop

  /** The generations of two issues are one: a handle for either validates as the other. */
  predicate SameGeneration(m: nat, n: nat) {
    m % GENERATIONS == n % GENERATIONS
  }

  ghost predicate Init(s: State) {
    s.issues == 0 && !s.live && !s.inTransit && s.committed == [] && forall a <- s.agents :: s.agents[a].Idle?
  }

  function To(s: State, a: Agent, pc: Pc): State {
    s.(agents := s.agents[a := pc])
  }

  ghost predicate Next(s: State, s': State, a: Agent, step: Step) {
    && a in s.agents
    && var pc := s.agents[a];
       match step
       case Issue(pid, o) =>
         !s.live && s' == s.(issues := s.issues + 1, live := true, owner := pid, obj := o, inTransit := false)
       case Close =>
         s.live && s' == s.(live := false)
       case Lookup =>
         pc.Idle? && s.live && s' == To(s, a, LookedUp(s.issues, s.obj, s.owner))
       case Mark =>
         && pc.LookedUp?
         && s' == if SameGeneration(s.issues, pc.issue) && s.live && s.obj == pc.obj && !s.inTransit
                  then To(s, a, Claiming(s.issues, pc.pid, pc.issue)).(inTransit := true)
                  else To(s, a, Idle)
       case Commit =>
         && pc.Claiming?
         && s' == To(s, a, Idle)
                  .(live := s.live && !(SameGeneration(s.issues, pc.issue) && s.owner == pc.pid),
                    committed := s.committed + [pc.issue])
       case Drop =>
         && pc.Claiming?
         && s' == To(s, a, Idle).(inTransit := s.inTransit && !SameGeneration(s.issues, pc.issue))
  }

  ghost predicate IsRun(run: seq<State>, agents: seq<Agent>, steps: seq<Step>) {
    && |run| == |steps| + 1 == |agents| + 1
    && Init(run[0])
    && forall i {:trigger steps[i]} :: 0 <= i < |steps| ==> Next(run[i], run[i + 1], agents[i], steps[i])
  }

  // ---------- What every run keeps ----------

  /** What a call in progress remembers is an issue there was, and its process if that issue is still the live one. */
  ghost predicate Remembers(s: State, pc: Pc) {
    match pc
    case Idle => true
    case LookedUp(issue, obj, pid) =>
      1 <= issue <= s.issues && (issue == s.issues && s.live ==> s.owner == pid)
    case Claiming(issue, pid, found) =>
      && 1 <= found <= issue <= s.issues && SameGeneration(issue, found)
      && (found == s.issues && s.live ==> s.owner == pid)
  }

  ghost predicate BaseInv(s: State) {
    (forall a <- s.agents :: Remembers(s, s.agents[a])) && (s.live ==> s.issues >= 1)
  }

  lemma {:induction false} RunKeepsBase(run: seq<State>, agents: seq<Agent>, steps: seq<Step>, i: nat)
    requires IsRun(run, agents, steps) && i < |run|
    ensures BaseInv(run[i])
  {
    if i > 0 {
      RunKeepsBase(run, agents, steps, i - 1);
      assert Next(run[i - 1], run[i - 1 + 1], agents[i - 1], steps[i - 1]);
    }
  }

  /**
   A commit takes the handle from its owner: in every run the issue it claimed is live afterwards exactly
   if it was live and another process's. Only a lookup a multiple of 2^31 issues old can lead there.
   */
  lemma CommitClosesItsIssue(run: seq<State>, agents: seq<Agent>, steps: seq<Step>, i: nat)
    requires IsRun(run, agents, steps) && i < |steps| && steps[i].Commit?
    ensures agents[i] in run[i].agents && run[i].agents[agents[i]].Claiming?
    ensures var (s, s', pc) := (run[i], run[i + 1], run[i].agents[agents[i]]);
            && (s'.live && s'.issues == pc.issue <==> s.live && s.issues == pc.issue && s.owner != pc.pid)
            && (s'.live && s'.issues == pc.issue ==> pc.found < pc.issue && (pc.issue - pc.found) % GENERATIONS == 0)
  {
    RunKeepsBase(run, agents, steps, i);
    assert Next(run[i], run[i + 1], agents[i], steps[i]);
    var pc := run[i].agents[agents[i]];
    assert Remembers(run[i], pc);
    Residues(pc.found, pc.issue);
  }

  // ---------- Claims are exclusive until a late drop ----------

  /** Two claims are never on one issue, a committed issue has none, and none is committed twice. */
  ghost predicate Exclusive(s: State) {
    && (forall a <- s.agents, b <- s.agents ::
          s.agents[a].Claiming? && s.agents[b].Claiming? && s.agents[a].issue == s.agents[b].issue ==> a == b)
    && (forall a <- s.agents :: s.agents[a].Claiming? ==> s.agents[a].issue !in s.committed)
    && NoDup(s.committed)
  }

  /** The drop of a claim on an earlier issue of the same generation, while the live issue is marked. */
  ghost predicate LateDrop(s: State, a: Agent, step: Step) {
    && step.Drop? && a in s.agents && s.agents[a].Claiming?
    && s.agents[a].issue < s.issues && SameGeneration(s.issues, s.agents[a].issue) && s.live && s.inTransit
  }

  /** None of the first `n` steps is a late drop. */
  ghost predicate NoLateDrop(run: seq<State>, agents: seq<Agent>, steps: seq<Step>, n: nat)
    requires |agents| == |steps| <= |run| && n <= |steps|
  {
    forall k {:trigger steps[k]} :: 0 <= k < n ==> !LateDrop(run[k], agents[k], steps[k])
  }

  ghost predicate ClaimedBy(s: State, a: Agent, issue: nat) {
    a in s.agents && s.agents[a].Claiming? && s.agents[a].issue == issue
  }

  /** A claimed or committed issue that is live is marked, and a marked one is claimed or committed. */
  ghost predicate MarkInv(s: State) {
    && (forall a <- s.agents :: s.agents[a].Claiming? && s.agents[a].issue == s.issues && s.live ==> s.inTransit)
    && (forall m <- s.committed :: 1 <= m <= s.issues && (m == s.issues && s.live ==> s.inTransit))
    && (s.live && s.inTransit ==> s.issues in s.committed || exists a :: ClaimedBy(s, a, s.issues))
  }

  ghost predicate Inv(s: State) {
    BaseInv(s) && Exclusive(s) && MarkInv(s)
  }

  lemma NextKeepsExclusive(s: State, s': State, a: Agent, step: Step)
    requires Inv(s) && Next(s, s', a, step) && !LateDrop(s, a, step)
    ensures Exclusive(s')
  {
    assert Remembers(s, s.agents[a]);
  }

  lemma NextKeepsMark(s: State, s': State, a: Agent, step: Step)
    requires Inv(s) && Next(s, s', a, step) && !LateDrop(s, a, step)
    ensures MarkInv(s')
  {
    assert Remembers(s, s.agents[a]);
    if s'.live && s'.inTransit {
      if s.live && s.inTransit && s.issues !in s.committed {
        var b :| ClaimedBy(s, b, s.issues);
        assert b == a || ClaimedBy(s', b, s'.issues);
      } else {
        assert s'.issues in s'.committed || ClaimedBy(s', a, s'.issues);
      }
    }
  }

  lemma {:induction false} RunKeepsInv(run: seq<State>, agents: seq<Agent>, steps: seq<Step>, i: nat)
    requires IsRun(run, agents, steps) && i < |run| && NoLateDrop(run, agents, steps, i)
    ensures Inv(run[i])
  {
    RunKeepsBase(run, agents, steps, i);
    if i > 0 {
      RunKeepsInv(run, agents, steps, i - 1);
      assert Next(run[i - 1], run[i - 1 + 1], agents[i - 1], steps[i - 1]);
      NextKeepsExclusive(run[i - 1], run[i], agents[i - 1], steps[i - 1]);
      NextKeepsMark(run[i - 1], run[i], agents[i - 1], steps[i - 1]);
    }
  }

  /**
   For each issued handle at most one claim is outstanding and at most one is ever committed, whatever
   closes and reissues interleave and however old a claim is, as long as no drop was late.
   */
  lemma ClaimsAreExclusive(run: seq<State>, agents: seq<Agent>, steps: seq<Step>, i: nat)
    requires IsRun(run, agents, steps) && i < |run| && NoLateDrop(run, agents, steps, i)
    ensures Exclusive(run[i])
  {
    RunKeepsInv(run, agents, steps, i);
  }

  lemma CommittedOnce(run: seq<State>, agents: seq<Agent>, steps: seq<Step>, i: nat)
    requires IsRun(run, agents, steps) && i < |run| && NoLateDrop(run, agents, steps, i)
    ensures NoDup(run[i].committed)
  {
    RunKeepsInv(run, agents, steps, i);
  }

  /** It is exclusive, and stays so if some agent now looks the handle up and marks it. */
  ghost predicate Lasting(s: State) {
    && Exclusive(s)
    && forall a, s1, s2 :: Next(s, s1, a, Lookup) && Next(s1, s2, a, Mark) ==> Exclusive(s2)
  }

  /** After a late drop the one who dropped can claim the live issue, which another has claimed or committed. */
  lemma LateDropBreaks(s: State, s': State, a: Agent, step: Step)
    requires Inv(s) && Next(s, s', a, step) && LateDrop(s, a, step)
    ensures !Lasting(s')
  {
    var s1 := To(s', a, LookedUp(s'.issues, s'.obj, s'.owner));
    var s2 := To(s1, a, Claiming(s'.issues, s'.owner, s'.issues)).(inTransit := true);
    assert Next(s', s1, a, Lookup) && Next(s1, s2, a, Mark);
    assert s2.agents[a].Claiming?;
    if s.issues !in s.committed {
      var b :| ClaimedBy(s, b, s.issues);
      assert b != a && s2.agents[b] == s.agents[b];
    }
  }

  /** One more lookup and mark is no late drop. */
  lemma ClaimKeepsExclusive(s: State, s1: State, s2: State, a: Agent)
    requires Inv(s) && Next(s, s1, a, Lookup) && Next(s1, s2, a, Mark)
    ensures Exclusive(s2)
  {
    NextKeepsExclusive(s, s1, a, Lookup);
    NextKeepsMark(s, s1, a, Lookup);
    assert BaseInv(s1);
    NextKeepsExclusive(s1, s2, a, Mark);
  }

  lemma {:induction false} FirstLateDrop(run: seq<State>, agents: seq<Agent>, steps: seq<Step>, n: nat) returns (i: nat)
    requires |agents| == |steps| <= |run| && n <= |steps| && !NoLateDrop(run, agents, steps, n)
    ensures i < n && NoLateDrop(run, agents, steps, i) && LateDrop(run[i], agents[i], steps[i])
  {
    if NoLateDrop(run, agents, steps, n - 1) {
      i := n - 1;
    } else {
      i := FirstLateDrop(run, agents, steps, n - 1);
    }
  }

  /**
   Exactly when a run keeps the exclusion for good, in each of its states and for whoever claims next: if
   and only if none of its drops was late.
   */
  lemma ExclusiveIffNoLateDrop(run: seq<State>, agents: seq<Agent>, steps: seq<Step>)
    requires IsRun(run, agents, steps)
    ensures (forall i :: 0 <= i < |run| ==> Lasting(run[i])) <==> NoLateDrop(run, agents, steps, |steps|)
  {
    if NoLateDrop(run, agents, steps, |steps|) {
      forall i | 0 <= i < |run|
        ensures Lasting(run[i])
      {
        RunKeepsInv(run, agents, steps, i);
        forall a, s1, s2 | Next(run[i], s1, a, Lookup) && Next(s1, s2, a, Mark)
          ensures Exclusive(s2)
        {
          ClaimKeepsExclusive(run[i], s1, s2, a);
        }
      }
    } else {
      var i := FirstLateDrop(run, agents, steps, |steps|);
      RunKeepsInv(run, agents, steps, i);
      assert Next(run[i], run[i + 1], agents[i], steps[i]);
      LateDropBreaks(run[i], run[i + 1], agents[i], steps[i]);
    }
  }

  // ---------- Runs where it fails ----------

  /**
   Exactly when a claim that ends touches a later issue than its own: the slot has been issued a
   positive multiple of 2^31 times since, and that issue is marked (for a drop) or live and the same
   process's (for a commit).
   */
  lemma StaleClaimTouches(s: State, s': State, a: Agent, step: Step)
    requires Next(s, s', a, step) && (step.Drop? || step.Commit?) && s.agents[a].issue < s.issues
    ensures var (pc, again) := (s.agents[a], (s.issues - s.agents[a].issue) % GENERATIONS == 0);
            && (step.Drop? ==> (s'.inTransit != s.inTransit <==> again && s.inTransit))
            && (step.Commit? ==> (s'.live != s.live <==> again && s.live && s.owner == pc.pid))
  {
    Residues(s.agents[a].issue, s.issues);
  }

  lemma Residues(m: nat, n: nat)
    requires m <= n
    ensures SameGeneration(n, m) <==> (n - m) % GENERATIONS == 0
  {}

  /** A run with one more step. */
  lemma Extend(run: seq<State>, agents: seq<Agent>, steps: seq<Step>, s': State, a: Agent, step: Step)
    requires IsRun(run, agents, steps) && Next(run[|steps|], s', a, step)
    ensures IsRun(run + [s'], agents + [a], steps + [step])
  {
    var (r, g, t) := (run + [s'], agents + [a], steps + [step]);
    forall i | 0 <= i < |t|
      ensures Next(r[i], r[i + 1], g[i], t[i])
    {
      if i < |steps| {
        assert Next(run[i], run[i + 1], agents[i], steps[i]);
      }
    }
  }

  /** Issuing and closing the slot `n` times over. */
  lemma {:induction false} Cycle(run: seq<State>, agents: seq<Agent>, steps: seq<Step>, a: Agent, n: nat)
    returns (run': seq<State>, agents': seq<Agent>, steps': seq<Step>)
    requires IsRun(run, agents, steps) && a in run[|steps|].agents && !run[|steps|].live
    requires run[|steps|].owner == 0 && run[|steps|].obj == 0 && !run[|steps|].inTransit
    ensures IsRun(run', agents', steps')
    ensures run'[|steps'|] == run[|steps|].(issues := run[|steps|].issues + n)
  {
    run', agents', steps' := run, agents, steps;
    var k := 0;
    while k < n
      invariant 0 <= k <= n
      invariant IsRun(run', agents', steps')
      invariant run'[|steps'|] == run[|steps|].(issues := run[|steps|].issues + k)
    {
      var s := run'[|steps'|];
      var t := s.(issues := s.issues + 1, live := true, owner := 0, obj := 0, inTransit := false);
      Extend(run', agents', steps', t, a, Issue(0, 0));
      run', agents', steps' := run' + [t], agents' + [a], steps' + [Issue(0, 0)];
      Extend(run', agents', steps', t.(live := false), a, Close);
      run', agents', steps' := run' + [t.(live := false)], agents' + [a], steps' + [Close];
      k := k + 1;
    }
  }

  /** One more step of a run that ends in `s`. */
  lemma Go(run: seq<State>, agents: seq<Agent>, steps: seq<Step>, s': State, a: Agent, step: Step)
    returns (run': seq<State>, agents': seq<Agent>, steps': seq<Step>)
    requires IsRun(run, agents, steps) && Next(run[|steps|], s', a, step)
    ensures IsRun(run', agents', steps') && run'[|steps'|] == s'
  {
    Extend(run, agents, steps, s', a, step);
    run', agents', steps' := run + [s'], agents + [a], steps + [step];
  }

  /**
   Without that condition the exclusion fails: a claim dropped exactly 2^31 issues late clears the mark
   of the claim then outstanding, and a third claimant gets a second claim on the same issue.
   */
  lemma LateDropBreaksExclusion()
    returns (run: seq<State>, agents: seq<Agent>, steps: seq<Step>)
    ensures IsRun(run, agents, steps)
    ensures var s := run[|steps|];
            && 1 in s.agents && 2 in s.agents && s.agents[1].Claiming? && s.agents[2].Claiming?
            && s.agents[1].issue == s.agents[2].issue
  {
    var s := State(0, false, 0, 0, false, map[0 := Idle, 1 := Idle, 2 := Idle], []);
    run, agents, steps := [s], [], [];
    // Agent 0 claims issue 1, whose owner then closes it.
    s := s.(issues := 1, live := true);
    run, agents, steps := Go(run, agents, steps, s, 0, Issue(0, 0));
    s := To(s, 0, LookedUp(1, 0, 0));
    run, agents, steps := Go(run, agents, steps, s, 0, Lookup);
    s := To(s, 0, Claiming(1, 0, 1)).(inTransit := true);
    run, agents, steps := Go(run, agents, steps, s, 0, Mark);
    s := s.(live := false);
    run, agents, steps := Go(run, agents, steps, s, 0, Close);
    // The slot is issued 2^31 times more, the last time to stay.
    s := s.(issues := 2, live := true, inTransit := false);
    run, agents, steps := Go(run, agents, steps, s, 0, Issue(0, 0));
    s := s.(live := false);
    run, agents, steps := Go(run, agents, steps, s, 0, Close);
    run, agents, steps := Cycle(run, agents, steps, 0, GENERATIONS - 2);
    s := s.(issues := GENERATIONS);
    s := s.(issues := GENERATIONS + 1, live := true);
    run, agents, steps := Go(run, agents, steps, s, 0, Issue(0, 0));
    // Agent 1 claims it, agent 0 drops its old claim, and agent 2 claims it too.
    s := To(s, 1, LookedUp(GENERATIONS + 1, 0, 0));
    run, agents, steps := Go(run, agents, steps, s, 1, Lookup);
    s := To(s, 1, Claiming(GENERATIONS + 1, 0, GENERATIONS + 1)).(inTransit := true);
    run, agents, steps := Go(run, agents, steps, s, 1, Mark);
    s := To(s, 0, Idle).(inTransit := false);
    run, agents, steps := Go(run, agents, steps, s, 0, Drop);
    s := To(s, 2, LookedUp(GENERATIONS + 1, 0, 0));
    run, agents, steps := Go(run, agents, steps, s, 2, Lookup);
    s := To(s, 2, Claiming(GENERATIONS + 1, 0, GENERATIONS + 1)).(inTransit := true);
    run, agents, steps := Go(run, agents, steps, s, 2, Mark);
  }

  /** A commit that leaves its issue live: a lookup 2^31 issues old marks what another process owns by then. */
  lemma LateMarkOutlivesCommit()
    returns (run: seq<State>, agents: seq<Agent>, steps: seq<Step>)
    ensures IsRun(run, agents, steps) && run[|steps|].live && run[|steps|].issues in run[|steps|].committed
  {
    var s := State(0, false, 0, 0, false, map[0 := Idle], []);
    run, agents, steps := [s], [], [];
    // Agent 0 looks issue 1 up, and its owner closes it.
    s := s.(issues := 1, live := true);
    run, agents, steps := Go(run, agents, steps, s, 0, Issue(0, 0));
    s := To(s, 0, LookedUp(1, 0, 0));
    run, agents, steps := Go(run, agents, steps, s, 0, Lookup);
    s := s.(live := false);
    run, agents, steps := Go(run, agents, steps, s, 0, Close);
    // The slot is issued 2^31 times more, the last time to process 1.
    run, agents, steps := Cycle(run, agents, steps, 0, GENERATIONS - 1);
    s := s.(issues := GENERATIONS);
    s := s.(issues := GENERATIONS + 1, live := true, owner := 1);
    run, agents, steps := Go(run, agents, steps, s, 0, Issue(1, 0));
    // Agent 0 marks that issue for process 0 and commits it.
    s := To(s, 0, Claiming(GENERATIONS + 1, 0, 1)).(inTransit := true);
    run, agents, steps := Go(run, agents, steps, s, 0, Mark);
    s := To(s, 0, Idle).(committed := [GENERATIONS + 1]);
    run, agents, steps := Go(run, agents, steps, s, 0, Commit);
  }

  // ---------- The handle itself ----------

  /** `RawHandle::encode`: the generation above the segment above the slot; the fields do not overlap. */
  function Encode(seg: nat, slot: nat, generation: nat): nat
    requires seg < 0x1000 && slot < 0x10_0000 && generation < GENERATIONS
  {
    generation * 0x1_0000_0000 + (seg * 0x10_0000 + slot)
  }

  /** `RawHandle::decode`. */
  function Decode(h: nat): (nat, nat, nat) {
    var low := h % 0x1_0000_0000;
    (low / 0x10_0000, low % 0x10_0000, h / 0x1_0000_0000)
  }

  /** Every handle decodes to what it was made from, and its top bit is clear. */
  lemma HandleRoundTrip(seg: nat, slot: nat, generation: nat)
    requires seg < 0x1000 && slot < 0x10_0000 && generation < GENERATIONS
    ensures Decode(Encode(seg, slot, generation)) == (seg, slot, generation)
    ensures Encode(seg, slot, generation) < 0x8000_0000_0000_0000
  {
    var low := seg * 0x10_0000 + slot;
    assert low < 0x1_0000_0000;
    assert Encode(seg, slot, generation) % 0x1_0000_0000 == low;
    assert Encode(seg, slot, generation) / 0x1_0000_0000 == generation;
    assert low / 0x10_0000 == seg && low % 0x10_0000 == slot;
  }

  /**
   The `n`th handle issued for a slot is the null handle only for slot 0 of segment 0, each time its generation
   wraps.
   */
  lemma IssuedNull(seg: nat, slot: nat, n: nat)
    requires seg < 0x1000 && slot < 0x10_0000
    ensures Encode(seg, slot, n % GENERATIONS) == 0 <==> seg == 0 && slot == 0 && n % GENERATIONS == 0
  {}
}
