/**
 A partition's window on its disk (`kernel/src/io/block.rs`): the fragments a transfer is cut into,
 the move from partition to disk offsets, and how a rescan closes a window that submits may be in the
 middle of.
 */
module BlockWindow {
  import opened Common
  import opened Partitions

  const PAGE := 4096

  function CheckedMul(a: nat, b: nat): Option<nat> {
    if a * b < U64_END then Some(a * b) else None
  }

  // ---------- Fragments ----------

  datatype Frag = Frag(base: nat, len: nat)

  /** The physical address of byte `pos` of a buffer made of these page frames. */
  function Address(frames: seq<nat>, pos: nat): nat
    requires pos / PAGE < |frames|
  {
    frames[pos / PAGE] + pos % PAGE
  }

  /** The addresses of `len` bytes from `pos` on, one by one. */
  function Addresses(frames: seq<nat>, pos: nat, len: nat): (s: seq<nat>)
    requires pos + len <= |frames| * PAGE
    ensures |s| == len && forall i :: 0 <= i < len ==> s[i] == Address(frames, pos + i)
  {
    seq<nat>(len, i requires 0 <= i < len => Address(frames, pos + i))
  }

  function Bytes(f: Frag): (s: seq<nat>)
    ensures |s| == f.len && forall i :: 0 <= i < f.len ==> s[i] == f.base + i
  {
    seq<nat>(f.len, i requires 0 <= i < f.len => f.base + i)
  }

  /** The addresses a list of fragments covers, in order. */
  function Expand(frags: seq<Frag>): seq<nat> {
    if frags == [] then [] else Expand(frags[..|frags| - 1]) + Bytes(frags[|frags| - 1])
  }

  /** Bytes that stay in one page are one fragment. */
  lemma InOnePage(frames: seq<nat>, pos: nat, len: nat)
    requires pos + len <= |frames| * PAGE && 0 < len && pos % PAGE + len <= PAGE
    ensures pos / PAGE < |frames|
    ensures Addresses(frames, pos, len) == Bytes(Frag(Address(frames, pos), len))
  {
    forall i | 0 <= i < len
      ensures Addresses(frames, pos, len)[i] == Bytes(Frag(Address(frames, pos), len))[i]
    {
      assert (pos + i) / PAGE == pos / PAGE && (pos + i) % PAGE == pos % PAGE + i;
    }
  }

  lemma AddressesSplit(frames: seq<nat>, pos: nat, a: nat, b: nat)
    requires pos + a + b <= |frames| * PAGE
    ensures Addresses(frames, pos, a + b) == Addresses(frames, pos, a) + Addresses(frames, pos + a, b)
  {}

  /** The fragment is not empty and lies within the frame at `frame`. */
  predicate Within(frame: nat, f: Frag) {
    0 < f.len && frame <= f.base && f.base + f.len <= frame + PAGE
  }

  /** The fragment crosses no page: it lies within one of the frames. */
  predicate InOneFrame(frames: seq<nat>, f: Frag) {
    exists k :: 0 <= k < |frames| && Within(frames[k], f)
  }

  /** `build_frags`: exactly the bytes of the range, in order, none crossing a page, no more than were reserved for. */
  method BuildFrags(frames: seq<nat>, offset: nat, length: nat) returns (frags: seq<Frag>)
    requires offset + length <= |frames| * PAGE
    ensures Expand(frags) == Addresses(frames, offset, length)
    ensures forall i :: 0 <= i < |frags| ==> InOneFrame(frames, frags[i])
    ensures |frags| <= length / PAGE + 2
  {
    frags := [];
    var pos, remaining := offset, length;
    ghost var done: nat := 0;
    while remaining > 0
      invariant 0 <= remaining && pos == offset + done && done + remaining == length
      invariant Expand(frags) == Addresses(frames, offset, done)
      invariant forall i :: 0 <= i < |frags| ==> InOneFrame(frames, frags[i])
      invariant remaining > 0 && |frags| > 0 ==> pos % PAGE == 0 && (|frags| - 1) * PAGE <= done
      invariant |frags| <= length / PAGE + 2
    {
      var page := pos / PAGE;
      var intra := pos % PAGE;
      var inPage := if PAGE - intra < remaining then PAGE - intra else remaining;
      InOnePage(frames, pos, inPage);
      AddressesSplit(frames, offset, done, inPage);
      ghost var before := frags;
      frags := frags + [Frag(frames[page] + intra, inPage)];
      assert Within(frames[page], frags[|frags| - 1]);
      assert frags[..|frags| - 1] == before;
      pos := pos + inPage;
      remaining := remaining - inPage;
      done := done + inPage;
    }
  }

  // ---------- The window ----------

  /** Blocks `start` up to `start + count` of a disk, of `sector` bytes each. */
  datatype Window = Window(start: nat, count: nat, sector: nat)

  /** `partition_rebase`, with the overflow checks of 64-bit arithmetic. */
  function Rebase(w: Window, offset: nat, length: nat): Option<nat> {
    var (span, end) := (CheckedMul(w.count, w.sector), CheckedAdd(offset, length));
    if span.None? || end.None? || end.value > span.value then None
    else
      var base := CheckedMul(w.start, w.sector);
      if base.None? then None else CheckedAdd(offset, base.value)
  }

  /** The bytes from `at` on lie in the window's slice of the disk. */
  ghost predicate InSlice(w: Window, at: nat, length: nat) {
    w.start * w.sector <= at && at + length <= (w.start + w.count) * w.sector
  }

  /** What is rebased lands in the slice, at the same distance from its start, and an overflow is refused. */
  lemma RebaseConfines(w: Window, offset: nat, length: nat)
    ensures Rebase(w, offset, length).Some? ==>
              var at := Rebase(w, offset, length).value;
              at == offset + w.start * w.sector && InSlice(w, at, length) && at < U64_END
  {
    assert (w.start + w.count) * w.sector == w.start * w.sector + w.count * w.sector;
  }

  /** A window whose end has a 64-bit byte offset refuses exactly the transfers that leave it. */
  lemma RebaseRefusesExactly(w: Window, offset: nat, length: nat)
    requires (w.start + w.count) * w.sector < U64_END
    ensures Rebase(w, offset, length).Some? <==> offset + length <= w.count * w.sector
  {
    assert (w.start + w.count) * w.sector == w.start * w.sector + w.count * w.sector;
  }

  /** A partition a table gave, on a disk whose size in bytes has 64 bits, is such a window, wholly on the disk. */
  lemma ParsedWindowIsOnDisk(parts: seq<Part>, i: nat, blocks: nat, offset: nat, length: nat)
    requires OnDisk(parts, blocks) && i < |parts| && blocks * BLOCK < U64_END
    ensures var w := Window(parts[i].first, parts[i].count, BLOCK);
            && (Rebase(w, offset, length).Some? <==> offset + length <= parts[i].count * BLOCK)
            && (Rebase(w, offset, length).Some? ==> Rebase(w, offset, length).value + length <= blocks * BLOCK)
  {
    var w := Window(parts[i].first, parts[i].count, BLOCK);
    RebaseRefusesExactly(w, offset, length);
    RebaseConfines(w, offset, length);
  }

  // ---------- Closing a window ----------

  type Agent = nat

  datatype Op = Data | Flush | Rescan | Eject

  datatype Irp = Irp(op: Op, offset: nat, length: nat)

  datatype Pc = Idle | Counted(irp: Irp) | Passed(irp: Irp) | Leaving

  /**
   `disk` lists the IRPs as they reached the disk; `seen` is that a rescan has seen no submit entering since it
   retired the window.
   */
  datatype State = State(
    window: Window,
    retired: bool,
    entering: nat,
    agents: map<Agent, Pc>,
    disk: seq<Irp>,
    seen: bool)

  ghost predicate Init(s: State) {
    !s.retired && s.entering == 0 && s.disk == [] && !s.seen && forall a <- s.agents :: s.agents[a].Idle?
  }

  function To(s: State, a: Agent, pc: Pc): State {
    s.(agents := s.agents[a := pc])
  }

  /** What `forward` hands the disk of an IRP the window let through. */
  function Forwarded(w: Window, irp: Irp): Option<Irp> {
    if irp.op.Flush? then Some(irp)
    else
      var at := Rebase(w, irp.offset, irp.length);
      if at.None? then None else Some(irp.(offset := at.value))
  }

  datatype Step = CountIn(a: Agent, irp: Irp) | Check(a: Agent) | Forward(a: Agent) | CountOut(a: Agent) | Retire | Look

  ghost predicate Next(s: State, s': State, step: Step) {
    match step
    case CountIn(a, irp) =>
      a in s.agents && s.agents[a].Idle? && s' == To(s, a, Counted(irp)).(entering := s.entering + 1)
    case Check(a) =>
      && a in s.agents && s.agents[a].Counted?
      && var irp := s.agents[a].irp;
         s' == To(s, a, if s.retired || irp.op.Rescan? || irp.op.Eject? then Leaving else Passed(irp))
    case Forward(a) =>
      && a in s.agents && s.agents[a].Passed?
      && var out := Forwarded(s.window, s.agents[a].irp);
         s' == To(s, a, Leaving).(disk := if out.None? then s.disk else s.disk + [out.value])
    case CountOut(a) =>
      a in s.agents && s.agents[a].Leaving? && s.entering > 0 && s' == To(s, a, Idle).(entering := s.entering - 1)
    case Retire => s' == s.(retired := true)
    case Look => s.retired && s' == s.(seen := s.seen || s.entering == 0)
  }

  ghost predicate IsRun(run: seq<State>, steps: seq<Step>) {
    && |run| == |steps| + 1
    && Init(run[0])
    && forall i {:trigger steps[i]} :: 0 <= i < |steps| ==> Next(run[i], run[i + 1], steps[i])
  }

  function Inside(agents: map<Agent, Pc>): set<Agent> {
    set a <- agents | !agents[a].Idle?
  }

  /** The count is of the submits in the window, and none is let through once it was seen empty. */
  ghost predicate CountInv(s: State) {
    && s.entering == |Inside(s.agents)|
    && (s.seen ==> s.retired && forall a <- s.agents :: !s.agents[a].Passed?)
  }

  ghost predicate SliceInv(s: State) {
    && (forall i :: 0 <= i < |s.disk| && s.disk[i].op.Data? ==> InSlice(s.window, s.disk[i].offset, s.disk[i].length))
    && (forall i :: 0 <= i < |s.disk| ==> s.disk[i].op.Data? || s.disk[i].op.Flush?)
    && (forall a <- s.agents :: s.agents[a].Passed? ==> s.agents[a].irp.op.Data? || s.agents[a].irp.op.Flush?)
  }

  lemma InsideChanges(agents: map<Agent, Pc>, a: Agent, pc: Pc)
    requires a in agents
    ensures Inside(agents[a := pc]) == if pc.Idle? then Inside(agents) - {a} else Inside(agents) + {a}
  {}

  lemma EmptyMeansIdle(agents: map<Agent, Pc>, a: Agent)
    requires a in agents && |Inside(agents)| == 0
    ensures agents[a].Idle?
  {
    assert a !in Inside(agents);
  }

  lemma NextKeepsCount(s: State, s': State, step: Step)
    requires CountInv(s) && Next(s, s', step)
    ensures CountInv(s')
  {
    match step
    case CountIn(a, irp) => InsideChanges(s.agents, a, s'.agents[a]);
    case Check(a) => assert Inside(s'.agents) == Inside(s.agents);
    case Forward(a) => assert Inside(s'.agents) == Inside(s.agents);
    case CountOut(a) => InsideChanges(s.agents, a, s'.agents[a]);
    case Retire =>
    case Look =>
      if s.entering == 0 {
        forall a | a in s.agents
          ensures !s.agents[a].Passed?
        {
          EmptyMeansIdle(s.agents, a);
        }
      }
  }

  lemma NextKeepsSlice(s: State, s': State, step: Step)
    requires SliceInv(s) && Next(s, s', step)
    ensures SliceInv(s') && s'.window == s.window
  {
    if step.Forward? {
      var irp := s.agents[step.a].irp;
      RebaseConfines(s.window, irp.offset, irp.length);
    }
  }

  lemma {:induction false} RunKeepsInv(run: seq<State>, steps: seq<Step>, i: nat)
    requires IsRun(run, steps) && i < |run|
    ensures CountInv(run[i]) && SliceInv(run[i]) && run[i].window == run[0].window
  {
    if i == 0 {
      assert Inside(run[0].agents) == {};
    } else {
      RunKeepsInv(run, steps, i - 1);
      assert Next(run[i - 1], run[i - 1 + 1], steps[i - 1]);
      NextKeepsCount(run[i - 1], run[i], steps[i - 1]);
      NextKeepsSlice(run[i - 1], run[i], steps[i - 1]);
    }
  }

  /**
   In every run, a data IRP that reaches the disk through the window reaches it inside the slice, and a rescan or an
   eject never does.
   */
  lemma WindowConfines(run: seq<State>, steps: seq<Step>, i: nat, k: nat)
    requires IsRun(run, steps) && i < |run| && k < |run[i].disk|
    ensures run[i].disk[k].op.Data? || run[i].disk[k].op.Flush?
    ensures run[i].disk[k].op.Data? ==> InSlice(run[0].window, run[i].disk[k].offset, run[i].disk[k].length)
  {
    RunKeepsInv(run, steps, i);
  }

  /** Once a rescan has retired the window and seen no submit entering, nothing reaches the disk through it any more. */
  lemma {:induction false} RetiredWindowIsSilent(run: seq<State>, steps: seq<Step>, i: nat, j: nat)
    requires IsRun(run, steps) && i <= j < |run| && run[i].seen
    ensures run[j].seen && run[j].disk == run[i].disk
    decreases j - i
  {
    if i < j {
      RetiredWindowIsSilent(run, steps, i, j - 1);
      RunKeepsInv(run, steps, j - 1);
      assert Next(run[j - 1], run[j - 1 + 1], steps[j - 1]);
    }
  }
}
