/**
 Waiting for the device table to change (`/dev/registry/changes`, `kernel/src/device.rs`): any number
 of changes announcing themselves and of reads parking, interleaved at every access to the published
 generation and every hold of a lock.

 `offsets` records what each read asked to be past, `finished` the latest generation whose
 announcement has looked at the waiting reads, and `answered` the reads answered and with what.
 */
module DeviceChanges {
  import opened Common

  type Agent = nat
  type Read = nat

  const WAITERS_MAX := 4

  datatype Parked = Parked(after: nat, read: Read)

  datatype Answer = Answer(read: Read, generation: nat)

  datatype Pc =
    | Idle
    | Changed
    | Loaded(g: nat)
    | Stored(g: nat)
    | Answering(due: seq<Read>)
    | Submitted(read: Read)
    | Holding(read: Read, generation: nat)

  datatype State = State(
    table: nat,
    published: nat,
    slots: seq<Option<Parked>>,
    agents: map<Agent, Pc>,
    offsets: map<Read, nat>,
    refused: set<Read>,
    finished: nat,
    answered: seq<Answer>)

  ghost predicate Init(s: State) {
    && s.table == s.published == s.finished == 0
    && s.slots == seq(WAITERS_MAX, _ => None)
    && (forall a <- s.agents :: s.agents[a].Idle?)
    && s.offsets == map[] && s.refused == {} && s.answered == []
  }

  function To(s: State, a: Agent, pc: Pc): State {
    s.(agents := s.agents[a := pc])
  }

  // ---------- The waiting reads ----------

  predicate IsPassed(slot: Option<Parked>, generation: nat) {
    slot.Some? && generation > slot.value.after
  }

  /** The reads `generation` is past, in slot order. */
  function Passed(slots: seq<Option<Parked>>, generation: nat): seq<Read> {
    if slots == [] then []
    else (if IsPassed(slots[0], generation) then [slots[0].value.read] else []) + Passed(slots[1..], generation)
  }

  /** The rest, where they were. */
  function Left(slots: seq<Option<Parked>>, generation: nat): (r: seq<Option<Parked>>)
    ensures |r| == |slots|
    ensures forall i :: 0 <= i < |slots| ==> r[i] == if IsPassed(slots[i], generation) then None else slots[i]
  {
    seq(|slots|, i requires 0 <= i < |slots| => if IsPassed(slots[i], generation) then None else slots[i])
  }

  /** The first free slot, if there is one. */
  function FreeSlot(slots: seq<Option<Parked>>): (r: Option<nat>)
    ensures r.Some? ==> r.value < |slots| && slots[r.value].None? && forall i :: 0 <= i < r.value ==> slots[i].Some?
    ensures r.None? ==> forall i :: 0 <= i < |slots| ==> slots[i].Some?
  {
    if slots == [] then None
    else if slots[0].None? then Some(0)
    else
      var r := FreeSlot(slots[1..]);
      if r.None? then None else Some(r.value + 1)
  }

  /** `Waiters`, in memory. */
  class Waiters {
    const slots: array<Option<Parked>>

    ghost predicate Valid()
      reads this
    {
      slots.Length == WAITERS_MAX
    }

    constructor ()
      ensures Valid() && fresh(slots) && slots[..] == seq(WAITERS_MAX, _ => None)
    {
      slots := new Option<Parked>[WAITERS_MAX](_ => None);
    }

    method Park(after: nat, read: Read) returns (ok: bool)
      requires Valid()
      modifies slots
      ensures Valid() && ok == FreeSlot(old(slots[..])).Some?
      ensures var before := old(slots[..]);
              slots[..] == if ok then before[FreeSlot(before).value := Some(Parked(after, read))] else before
    {
      var i := 0;
      while i < WAITERS_MAX
        invariant 0 <= i <= WAITERS_MAX && slots[..] == old(slots[..])
        invariant forall k :: 0 <= k < i ==> slots[k].Some?
      {
        if slots[i].None? {
          slots[i] := Some(Parked(after, read));
          return true;
        }
        i := i + 1;
      }
      ok := false;
    }

    method TakePassed(generation: nat) returns (out: seq<Read>)
      requires Valid()
      modifies slots
      ensures Valid() && out == Passed(old(slots[..]), generation) && slots[..] == Left(old(slots[..]), generation)
    {
      ghost var before := slots[..];
      out := [];
      var i := 0;
      while i < WAITERS_MAX
        invariant 0 <= i <= WAITERS_MAX
        invariant forall k :: i <= k < WAITERS_MAX ==> slots[k] == before[k]
        invariant forall k :: 0 <= k < i ==> slots[k] == Left(before, generation)[k]
        invariant out == Passed(before[..i], generation)
      {
        PassedSnoc(before[..i], before[i], generation);
        assert before[..i + 1] == before[..i] + [before[i]];
        if IsPassed(slots[i], generation) {
          out := out + [slots[i].value.read];
          slots[i] := None;
        }
        i := i + 1;
      }
      assert before[..i] == before;
    }
  }

  lemma {:induction false} PassedSnoc(slots: seq<Option<Parked>>, slot: Option<Parked>, generation: nat)
    ensures Passed(slots + [slot], generation) ==
            Passed(slots, generation) + if IsPassed(slot, generation) then [slot.value.read] else []
    decreases |slots|
  {
    if slots == [] {
      assert slots + [slot] == [slot];
      assert [slot][1..] == [];
    } else {
      assert (slots + [slot])[1..] == slots[1..] + [slot];
      PassedSnoc(slots[1..], slot, generation);
      Associates(if IsPassed(slots[0], generation) then [slots[0].value.read] else [], Passed(slots[1..], generation),
                 if IsPassed(slot, generation) then [slot.value.read] else []);
    }
  }

  // ---------- Changes ----------

  datatype ChangeStep = Change | LoadTable | Publish | TakePassed | AnswerNext | Finish

  ghost predicate ChangeNext(s: State, s': State, a: Agent, step: ChangeStep) {
    && a in s.agents
    && var pc := s.agents[a];
       match step
       case Change => pc.Idle? && s' == To(s, a, Changed).(table := s.table + 1)
       case LoadTable => pc.Changed? && s' == To(s, a, Loaded(s.table))
       case Publish => pc.Loaded? && s' == To(s, a, Stored(pc.g)).(published := Max(s.published, pc.g))
       case TakePassed =>
         && pc.Stored?
         && s' == To(s, a, Answering(Passed(s.slots, s.published)))
                  .(slots := Left(s.slots, s.published), finished := Max(s.finished, pc.g))
       case AnswerNext =>
         && pc.Answering? && pc.due != []
         && s' == To(s, a, Answering(pc.due[1..])).(answered := s.answered + [Answer(pc.due[0], s.published)])
       case Finish => pc.Answering? && pc.due == [] && s' == To(s, a, Idle)
  }

  // ---------- Reads ----------

  datatype ReadStep = Submit(read: Read, offset: nat) | Look | AnswerOne

  ghost predicate ReadNext(s: State, s': State, a: Agent, step: ReadStep) {
    && a in s.agents
    && var pc := s.agents[a];
       match step
       case Submit(read, offset) =>
         pc.Idle? && read !in s.offsets && s' == To(s, a, Submitted(read)).(offsets := s.offsets[read := offset])
       case Look =>
         && pc.Submitted? && pc.read in s.offsets
         && var offset := s.offsets[pc.read];
            var free := FreeSlot(s.slots);
            s' == if s.published > offset then To(s, a, Holding(pc.read, s.published))
                  else if free.Some? then To(s, a, Idle).(slots := s.slots[free.value := Some(Parked(offset, pc.read))])
                  else To(s, a, Idle).(refused := s.refused + {pc.read})
       case AnswerOne =>
         pc.Holding? && s' == To(s, a, Idle).(answered := s.answered + [Answer(pc.read, pc.generation)])
  }

  datatype Step = Changing(a: Agent, change: ChangeStep) | Reading(a: Agent, step: ReadStep)

  ghost predicate Next(s: State, s': State, step: Step) {
    match step
    case Changing(a, st) => ChangeNext(s, s', a, st)
    case Reading(a, st) => ReadNext(s, s', a, st)
  }

  ghost predicate IsRun(run: seq<State>, steps: seq<Step>) {
    && |run| == |steps| + 1
    && Init(run[0])
    && forall i {:trigger steps[i]} :: 0 <= i < |steps| ==> Next(run[i], run[i + 1], steps[i])
  }

  // ---------- No wakeup is lost ----------

  /** The agent is still to look at the waiting reads for the newest generation. */
  predicate Announces(pc: Pc, table: nat) {
    pc.Changed? || ((pc.Loaded? || pc.Stored?) && pc.g == table)
  }

  ghost predicate AgentOk(s: State, pc: Pc) {
    && (pc.Loaded? || pc.Stored? ==> pc.g <= s.table)
    && (pc.Stored? ==> pc.g <= s.published)
    && (pc.Answering? ==> forall r <- pc.due :: r in s.offsets && s.offsets[r] < s.published)
    && (pc.Holding? ==> pc.read in s.offsets && s.offsets[pc.read] < pc.generation)
  }

  ghost predicate OrderInv(s: State) {
    s.finished <= s.published <= s.table && |s.slots| == WAITERS_MAX
  }

  ghost predicate AgentInv(s: State) {
    forall a <- s.agents :: AgentOk(s, s.agents[a])
  }

  /** No parked read waits past a generation that an announcement has dealt with. */
  ghost predicate ParkedOk(s: State, p: Parked) {
    s.finished <= p.after && p.read in s.offsets && s.offsets[p.read] == p.after
  }

  ghost predicate ParkedInv(s: State) {
    forall i :: 0 <= i < |s.slots| && s.slots[i].Some? ==> ParkedOk(s, s.slots[i].value)
  }

  ghost predicate AnnounceInv(s: State) {
    s.finished < s.table ==> exists a <- s.agents :: Announces(s.agents[a], s.table)
  }

  ghost predicate AnswerOk(s: State, x: Answer) {
    x.read in s.offsets && s.offsets[x.read] < x.generation
  }

  ghost predicate AnswerInv(s: State) {
    forall x <- s.answered :: AnswerOk(s, x)
  }

  ghost predicate WakeInv(s: State) {
    OrderInv(s) && AgentInv(s) && ParkedInv(s) && AnnounceInv(s) && AnswerInv(s)
  }

  lemma {:induction false} PassedIsPassed(slots: seq<Option<Parked>>, generation: nat, r: Read)
    ensures r in Passed(slots, generation) <==>
            exists i :: 0 <= i < |slots| && IsPassed(slots[i], generation) && slots[i].value.read == r
    decreases |slots|
  {
    if slots != [] {
      PassedIsPassed(slots[1..], generation, r);
      if exists i :: 0 <= i < |slots| && IsPassed(slots[i], generation) && slots[i].value.read == r {
        var i :| 0 <= i < |slots| && IsPassed(slots[i], generation) && slots[i].value.read == r;
        assert i > 0 ==> slots[1..][i - 1] == slots[i];
      }
      if exists i :: 0 <= i < |slots[1..]| && IsPassed(slots[1..][i], generation) && slots[1..][i].value.read == r {
        var i :| 0 <= i < |slots[1..]| && IsPassed(slots[1..][i], generation) && slots[1..][i].value.read == r;
        assert slots[i + 1] == slots[1..][i];
      }
    }
  }

  lemma KeepsAnnouncing(s: State, s': State, a: Agent)
    requires a in s.agents && a in s'.agents && s'.agents == s.agents[a := s'.agents[a]] && s'.table == s.table
    requires AnnounceInv(s) && s.finished <= s'.finished
    requires Announces(s.agents[a], s.table) ==> Announces(s'.agents[a], s.table) || s'.finished >= s'.table
    ensures AnnounceInv(s')
  {
    if s'.finished < s'.table {
      var b :| b in s.agents && Announces(s.agents[b], s.table);
      assert b in s'.agents && Announces(s'.agents[b], s.table);
    }
  }

  lemma PassedAreDue(s: State)
    requires OrderInv(s) && ParkedInv(s)
    ensures forall r <- Passed(s.slots, s.published) :: r in s.offsets && s.offsets[r] < s.published
  {
    forall r | r in Passed(s.slots, s.published)
      ensures r in s.offsets && s.offsets[r] < s.published
    {
      PassedIsPassed(s.slots, s.published, r);
      var i :| 0 <= i < |s.slots| && IsPassed(s.slots[i], s.published) && s.slots[i].value.read == r;
      assert ParkedOk(s, s.slots[i].value);
    }
  }

  lemma ChangeKeepsAgents(s: State, s': State, a: Agent, step: ChangeStep)
    requires OrderInv(s) && AgentInv(s) && ParkedInv(s) && ChangeNext(s, s', a, step)
    ensures OrderInv(s') && AgentInv(s')
  {
    assert AgentOk(s, s.agents[a]);
    PassedAreDue(s);
    forall b | b in s'.agents
      ensures AgentOk(s', s'.agents[b])
    {
      assert AgentOk(s, s.agents[b]);
    }
  }

  lemma ChangeKeepsWake(s: State, s': State, a: Agent, step: ChangeStep)
    requires WakeInv(s) && ChangeNext(s, s', a, step)
    ensures WakeInv(s')
  {
    ChangeKeepsAgents(s, s', a, step);
    assert AgentOk(s, s.agents[a]);
    if step.Change? {
      assert Announces(s'.agents[a], s'.table);
    } else {
      KeepsAnnouncing(s, s', a);
    }
    assert ParkedInv(s') by {
      forall i | 0 <= i < |s'.slots| && s'.slots[i].Some?
        ensures ParkedOk(s', s'.slots[i].value)
      {
        assert s'.slots[i] == s.slots[i];
        assert ParkedOk(s, s.slots[i].value);
      }
    }
  }

  lemma ReadKeepsWake(s: State, s': State, a: Agent, step: ReadStep)
    requires WakeInv(s) && ReadNext(s, s', a, step)
    ensures WakeInv(s')
  {
    assert AgentOk(s, s.agents[a]);
    KeepsAnnouncing(s, s', a);
    forall b | b in s'.agents
      ensures AgentOk(s', s'.agents[b])
    {
      assert AgentOk(s, s.agents[b]);
    }
  }

  // ---------- Each read is answered once ----------

  /** Parked in a slot, in an agent's hands, answered, or refused. */
  datatype Place = InSlot(i: nat) | With(agent: Agent) | Done | Refused

  predicate Has(pc: Pc, r: Read) {
    match pc
    case Answering(due) => r in due
    case Submitted(read) => read == r
    case Holding(read, _) => read == r
    case _ => false
  }

  ghost predicate At(s: State, r: Read, p: Place) {
    match p
    case InSlot(i) => i < |s.slots| && s.slots[i].Some? && s.slots[i].value.read == r
    case With(a) => a in s.agents && Has(s.agents[a], r)
    case Done => exists k :: 0 <= k < |s.answered| && s.answered[k].read == r
    case Refused => r in s.refused
  }

  ghost predicate Housed(s: State, home: map<Read, Place>) {
    home.Keys == s.offsets.Keys && forall r, p :: At(s, r, p) <==> r in home && home[r] == p
  }

  ghost predicate HomeInv(s: State) {
    exists home :: Housed(s, home)
  }

  /** No read is answered twice, or due twice. */
  ghost predicate OnceInv(s: State) {
    && (forall i, j :: 0 <= i < j < |s.answered| ==> s.answered[i].read != s.answered[j].read)
    && (forall a <- s.agents :: s.agents[a].Answering? ==> NoDup(s.agents[a].due))
  }

  lemma MoveKeepsHome(s: State, s': State, r: Read, p: Place)
    requires HomeInv(s) && s'.offsets.Keys == s.offsets.Keys + {r}
    requires forall q :: At(s', r, q) <==> q == p
    requires forall x, q :: x != r ==> (At(s', x, q) <==> At(s, x, q))
    ensures HomeInv(s')
  {
    var home: map<Read, Place> :| Housed(s, home);
    assert Housed(s', home[r := p]);
  }

  lemma StayKeepsHome(s: State, s': State)
    requires HomeInv(s) && s'.offsets.Keys == s.offsets.Keys && forall x, q :: At(s', x, q) <==> At(s, x, q)
    ensures HomeInv(s')
  {
    var home: map<Read, Place> :| Housed(s, home);
    assert Housed(s', home);
  }

  lemma NotElsewhere(s: State, r: Read, p: Place)
    requires HomeInv(s) && At(s, r, p)
    ensures r in s.offsets && forall q :: q != p ==> !At(s, r, q)
  {
    var home: map<Read, Place> :| Housed(s, home);
    assert home[r] == p;
  }

  lemma SubmitKeepsHome(s: State, s': State, a: Agent, read: Read, offset: nat)
    requires HomeInv(s) && ReadNext(s, s', a, Submit(read, offset))
    ensures HomeInv(s')
  {
    var home: map<Read, Place> :| Housed(s, home);
    forall q
      ensures At(s', read, q) <==> q == With(a)
    {
      assert !At(s, read, q);
    }
    MoveKeepsHome(s, s', read, With(a));
  }

  lemma LookKeepsHome(s: State, s': State, a: Agent)
    requires HomeInv(s) && ReadNext(s, s', a, Look)
    ensures HomeInv(s')
  {
    var r := s.agents[a].read;
    assert At(s, r, With(a));
    NotElsewhere(s, r, With(a));
    var to := if s'.agents[a].Holding? then With(a)
              else if s'.refused != s.refused then Refused
              else if FreeSlot(s.slots).Some? then InSlot(FreeSlot(s.slots).value) else Refused;
    forall q
      ensures At(s', r, q) <==> q == to
    {
      assert At(s, r, q) <==> q == With(a);
    }
    forall x, q | x != r
      ensures At(s', x, q) <==> At(s, x, q)
    {}
    MoveKeepsHome(s, s', r, to);
  }

  lemma AnswerKeepsHome(s: State, s': State, a: Agent, r: Read, g: nat)
    requires HomeInv(s) && a in s.agents && a in s'.agents && Has(s.agents[a], r) && !Has(s'.agents[a], r)
    requires s' == To(s, a, s'.agents[a]).(answered := s.answered + [Answer(r, g)])
    requires forall x :: x != r ==> (Has(s'.agents[a], x) <==> Has(s.agents[a], x))
    ensures HomeInv(s') && forall k :: 0 <= k < |s.answered| ==> s.answered[k].read != r
  {
    assert At(s, r, With(a));
    NotElsewhere(s, r, With(a));
    assert !At(s, r, Done);
    assert s'.answered[|s.answered|].read == r;
    forall q
      ensures At(s', r, q) <==> q == Done
    {
      assert At(s, r, q) <==> q == With(a);
    }
    forall x, q | x != r
      ensures At(s', x, q) <==> At(s, x, q)
    {
      if q.Done? && At(s, x, q) {
        var k :| 0 <= k < |s.answered| && s.answered[k].read == x;
        assert s'.answered[k].read == x;
      }
    }
    MoveKeepsHome(s, s', r, Done);
  }

  lemma TakeKeepsHome(s: State, s': State, a: Agent)
    requires HomeInv(s) && ChangeNext(s, s', a, TakePassed)
    ensures HomeInv(s')
  {
    var home: map<Read, Place> :| Housed(s, home);
    var home' := map r <- home :: if r in Passed(s.slots, s.published) then With(a) else home[r];
    forall r, p
      ensures At(s', r, p) <==> r in home' && home'[r] == p
    {
      PassedIsPassed(s.slots, s.published, r);
      TakeMoves(s, s', a, home, r, p);
    }
    assert Housed(s', home');
  }

  lemma TakeMoves(s: State, s': State, a: Agent, home: map<Read, Place>, r: Read, p: Place)
    requires Housed(s, home) && ChangeNext(s, s', a, TakePassed)
    requires r in Passed(s.slots, s.published) <==>
             exists i :: 0 <= i < |s.slots| && IsPassed(s.slots[i], s.published) && s.slots[i].value.read == r
    ensures At(s', r, p) <==> r in home && (if r in Passed(s.slots, s.published) then With(a) else home[r]) == p
  {
    assert At(s, r, p) <==> r in home && home[r] == p;
    if r in Passed(s.slots, s.published) {
      var i :| 0 <= i < |s.slots| && IsPassed(s.slots[i], s.published) && s.slots[i].value.read == r;
      assert At(s, r, InSlot(i));
    }
  }

  lemma {:induction false} PassedNoDup(s: State, from: nat)
    requires HomeInv(s) && from <= |s.slots|
    ensures NoDup(Passed(s.slots[from..], s.published))
    decreases |s.slots| - from
  {
    if from < |s.slots| {
      var rest := s.slots[from..][1..];
      assert rest == s.slots[from + 1..];
      PassedNoDup(s, from + 1);
      if IsPassed(s.slots[from], s.published) {
        var r := s.slots[from].value.read;
        assert At(s, r, InSlot(from));
        NotElsewhere(s, r, InSlot(from));
        PassedIsPassed(rest, s.published, r);
        forall i | 0 <= i < |rest| && rest[i].Some?
          ensures rest[i].value.read != r
        {
          assert rest[i] == s.slots[from + 1 + i];
          assert !At(s, r, InSlot(from + 1 + i));
        }
      }
    }
  }

  lemma DueFacts(due: seq<Read>)
    requires NoDup(due) && due != []
    ensures NoDup(due[1..]) && due[0] !in due[1..] && forall x :: x != due[0] ==> (x in due[1..] <==> x in due)
  {
    assert due == [due[0]] + due[1..];
  }

  lemma ChangeKeepsOnce(s: State, s': State, a: Agent, step: ChangeStep)
    requires HomeInv(s) && OnceInv(s) && ChangeNext(s, s', a, step)
    ensures HomeInv(s') && OnceInv(s')
  {
    match step
    case TakePassed =>
      TakeKeepsHome(s, s', a);
      PassedNoDup(s, 0);
      assert s.slots[0..] == s.slots;
    case AnswerNext =>
      DueFacts(s.agents[a].due);
      AnswerKeepsHome(s, s', a, s.agents[a].due[0], s.published);
    case _ =>
      StayKeepsHome(s, s');
  }

  lemma ReadKeepsOnce(s: State, s': State, a: Agent, step: ReadStep)
    requires HomeInv(s) && OnceInv(s) && ReadNext(s, s', a, step)
    ensures HomeInv(s') && OnceInv(s')
  {
    match step
    case Submit(read, offset) => SubmitKeepsHome(s, s', a, read, offset);
    case Look => LookKeepsHome(s, s', a);
    case AnswerOne => AnswerKeepsHome(s, s', a, s.agents[a].read, s.agents[a].generation);
  }

  // ---------- Runs ----------

  ghost predicate Inv(s: State) {
    WakeInv(s) && HomeInv(s) && OnceInv(s)
  }

  lemma InitInv(s: State)
    requires Init(s)
    ensures Inv(s)
  {
    var home: map<Read, Place> := map[];
    assert Housed(s, home);
  }

  lemma NextKeepsInv(s: State, s': State, step: Step)
    requires Inv(s) && Next(s, s', step)
    ensures Inv(s')
  {
    match step
    case Changing(a, st) =>
      ChangeKeepsWake(s, s', a, st);
      ChangeKeepsOnce(s, s', a, st);
    case Reading(a, st) =>
      ReadKeepsWake(s, s', a, st);
      ReadKeepsOnce(s, s', a, st);
  }

  lemma {:induction false} RunKeepsInv(run: seq<State>, steps: seq<Step>, i: nat)
    requires IsRun(run, steps) && i < |run|
    ensures Inv(run[i])
  {
    if i == 0 {
      InitInv(run[0]);
    } else {
      RunKeepsInv(run, steps, i - 1);
      assert Next(run[i - 1], run[i - 1 + 1], steps[i - 1]);
      NextKeepsInv(run[i - 1], run[i], steps[i - 1]);
    }
  }

  // ---------- What the change node promises ----------

  /**
   Once an announcement of generation `g` has looked at the waiting reads, none is left waiting past anything below
   `g`.
   */
  lemma NoWakeupIsLost(run: seq<State>, steps: seq<Step>, i: nat, a: Agent, j: nat, k: nat)
    requires IsRun(run, steps) && i < j < |run| && steps[i] == Changing(a, TakePassed)
    requires k < |run[j].slots| && run[j].slots[k].Some?
    ensures a in run[i].agents && run[i].agents[a].Stored? && run[i].agents[a].g <= run[j].slots[k].value.after
  {
    assert ChangeNext(run[i], run[i + 1], a, TakePassed);
    FinishedOnlyGrows(run, steps, i + 1, j);
    RunKeepsInv(run, steps, j);
    assert ParkedOk(run[j], run[j].slots[k].value);
  }

  lemma {:induction false} FinishedOnlyGrows(run: seq<State>, steps: seq<Step>, i: nat, j: nat)
    requires IsRun(run, steps) && i <= j < |run|
    ensures run[i].finished <= run[j].finished && run[i].published <= run[j].published && run[i].table <= run[j].table
    decreases j - i
  {
    if i < j {
      FinishedOnlyGrows(run, steps, i, j - 1);
      assert Next(run[j - 1], run[j - 1 + 1], steps[j - 1]);
    }
  }

  /** With no announcement under way, every read still waiting waits past the table as it is. */
  lemma QuietMeansUpToDate(run: seq<State>, steps: seq<Step>, i: nat, k: nat)
    requires IsRun(run, steps) && i < |run| && k < |run[i].slots| && run[i].slots[k].Some?
    requires forall a <- run[i].agents :: !Announces(run[i].agents[a], run[i].table)
    ensures run[i].table <= run[i].slots[k].value.after
  {
    RunKeepsInv(run, steps, i);
    assert ParkedOk(run[i], run[i].slots[k].value);
  }

  /** Every read accepted is in exactly one place, and none is answered twice. */
  lemma EveryReadIsAnsweredOnce(run: seq<State>, steps: seq<Step>, i: nat, r: Read)
    requires IsRun(run, steps) && i < |run| && r in run[i].offsets
    ensures exists p :: At(run[i], r, p) && forall q :: At(run[i], r, q) ==> q == p
    ensures forall j, k :: 0 <= j < k < |run[i].answered| ==> run[i].answered[j].read != run[i].answered[k].read
  {
    RunKeepsInv(run, steps, i);
    var home: map<Read, Place> :| Housed(run[i], home);
    assert At(run[i], r, home[r]);
  }

  /** Every answer is a generation past what its read asked to be past. */
  lemma AnswersArePast(run: seq<State>, steps: seq<Step>, i: nat, k: nat)
    requires IsRun(run, steps) && i < |run| && k < |run[i].answered|
    ensures run[i].answered[k].read in run[i].offsets
    ensures run[i].offsets[run[i].answered[k].read] < run[i].answered[k].generation
  {
    RunKeepsInv(run, steps, i);
    assert AnswerOk(run[i], run[i].answered[k]);
  }
}
