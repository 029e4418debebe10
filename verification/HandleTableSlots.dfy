/**
 Where every slot of the handle table is: free, deferred, live, or in the hands of one agent that
 is installing into it or has closed it and not yet deferred it.

 The invariant is that one place can be given to each slot so that the freelist, the deferred ring,
 the entries and every agent agree with it. A place is one value, so no slot is in two places and
 none is lost.
 */
module HandleTableSlots {
  import opened Common
  import opened HandleTable
  import opened HandleTableSafety

  datatype Place =
    | IsFree
    | IsDeferred
    | IsLive
    | IsHeld(agent: Agent)
    | IsReaped(agent: Agent)

  /** Whether the agent alone accounts for slot `i`: chosen and not yet published, or closed and not yet deferred. */
  predicate Holds(pc: Pc, i: Slot) {
    match pc
    case Want(job) => job.Defer? && job.slot == i
    case Under(work) => WorkHolds(work, i)
    case _ => false
  }

  predicate WorkHolds(work: Work, i: Slot) {
    match work
    case Drain(job, _) => job.Defer? && job.slot == i
    case Bump(job) => job.Defer? && job.slot == i
    case Ready(job) => job.Defer? && job.slot == i
    case Window(w, phase) => w.slot == i && ((w.Publish? && !phase.Shut?) || (w.Unpublish? && phase.Shut?))
    case Tag(slot) => slot == i
  }

  /** Whether the agent is sweeping slot `i`: already deferred, its pointer not yet taken. */
  predicate Reaping(pc: Pc, i: Slot) {
    pc.Under? && pc.work.Window? && pc.work.w.Reap? && !pc.work.phase.Shut? && pc.work.w.slot == i
  }

  ghost predicate InRing(ring: seq<Deferred>, i: Slot) {
    exists k :: 0 <= k < |ring| && ring[k].slot == i
  }

  /** Every structure agrees that slot `i` is at `p`, and nowhere else. */
  ghost predicate Located(s: State, i: Slot, p: Place) {
    && i < |s.entries|
    && (i in s.free <==> p.IsFree?)
    && (InRing(s.ring, i) <==> p.IsDeferred? || p.IsReaped?)
    && (s.entries[i].ptr.At? <==> p.IsLive? || p.IsReaped?)
    && (forall a <- s.agents :: Holds(s.agents[a], i) <==> p == IsHeld(a))
    && (forall a <- s.agents :: Reaping(s.agents[a], i) <==> p == IsReaped(a))
    && (p.IsHeld? || p.IsReaped? ==> p.agent in s.agents)
  }

  ghost predicate Placed(s: State, places: seq<Place>) {
    && |places| == |s.entries|
    && (forall i: Slot :: i < |places| ==> Located(s, i, places[i]))
    && (forall i <- s.free :: i < |s.entries|)
    && (forall k :: 0 <= k < |s.ring| ==> s.ring[k].slot < |s.entries|)
    && (forall k, l :: 0 <= k < l < |s.ring| ==> s.ring[k].slot != s.ring[l].slot)
  }

  ghost predicate SlotInv(s: State) {
    exists places :: Placed(s, places)
  }

  /** A step of `a` that leaves slot `i` where it is. */
  lemma LocatedSame(s: State, s': State, a: Agent, i: Slot, p: Place)
    requires Located(s, i, p) && Moves(s, s', a) && i < |s'.entries|
    requires i in s'.free <==> i in s.free
    requires InRing(s'.ring, i) <==> InRing(s.ring, i)
    requires s'.entries[i].ptr.At? <==> s.entries[i].ptr.At?
    requires Holds(s'.agents[a], i) <==> Holds(s.agents[a], i)
    requires Reaping(s'.agents[a], i) <==> Reaping(s.agents[a], i)
    ensures Located(s', i, p)
  {}

  // ---------- Steps that move no slot ----------

  ghost predicate HoldsSame(pc: Pc, pc': Pc) {
    forall i: Slot :: (Holds(pc', i) <==> Holds(pc, i)) && (Reaping(pc', i) <==> Reaping(pc, i))
  }

  lemma QuietKeepsSlots(s: State, s': State, a: Agent)
    requires SlotInv(s) && Moves(s, s', a) && s'.free == s.free && s'.ring == s.ring
    requires |s'.entries| == |s.entries|
    requires forall i {:trigger s'.entries[i]} :: 0 <= i < |s.entries| ==> s'.entries[i].ptr.At? == s.entries[i].ptr.At?
    requires HoldsSame(s.agents[a], s'.agents[a])
    ensures SlotInv(s')
  {
    var places: seq<Place> :| Placed(s, places);
    forall i: Slot | i < |places|
      ensures Located(s', i, places[i])
    {
      LocatedSame(s, s', a, i, places[i]);
    }
    assert Placed(s', places);
  }

  // ---------- Steps that move one ----------

  /** Slot `i` goes to `p`, and every other slot stays. */
  lemma Relocate(s: State, s': State, a: Agent, places: seq<Place>, i: Slot, p: Place)
    requires Placed(s, places) && Moves(s, s', a) && i < |places| && |s'.entries| == |s.entries|
    requires forall j: Slot :: j < |places| && j != i ==>
        && (j in s'.free <==> j in s.free)
        && (InRing(s'.ring, j) <==> InRing(s.ring, j))
        && (s'.entries[j].ptr.At? <==> s.entries[j].ptr.At?)
        && (Holds(s'.agents[a], j) <==> Holds(s.agents[a], j))
        && (Reaping(s'.agents[a], j) <==> Reaping(s.agents[a], j))
    requires Located(s', i, p)
    requires forall j <- s'.free :: j < |s.entries|
    requires forall k :: 0 <= k < |s'.ring| ==> s'.ring[k].slot < |s.entries|
    requires forall k, l :: 0 <= k < l < |s'.ring| ==> s'.ring[k].slot != s'.ring[l].slot
    ensures SlotInv(s')
  {
    var places' := places[i := p];
    forall j: Slot | j < |places'|
      ensures Located(s', j, places'[j])
    {
      if j != i {
        LocatedSame(s, s', a, j, places[j]);
      }
    }
    assert Placed(s', places');
  }

  lemma PopKeepsSlots(s: State, s': State, a: Agent)
    requires LockInv(s) && SlotInv(s) && DrainNext(s, s', a, DrainPop)
    ensures SlotInv(s')
  {
    var places: seq<Place> :| Placed(s, places);
    var i := s.ring[0].slot;
    RingPops(s.ring);
    assert Located(s, i, places[i]);
    Relocate(s, s', a, places, i, IsFree);
  }

  lemma RingPops(ring: seq<Deferred>)
    requires |ring| > 0
    requires forall k, l :: 0 <= k < l < |ring| ==> ring[k].slot != ring[l].slot
    ensures InRing(ring, ring[0].slot) && !InRing(ring[1..], ring[0].slot)
    ensures forall j: Slot :: j != ring[0].slot ==> (InRing(ring[1..], j) <==> InRing(ring, j))
  {
    forall j: Slot | j != ring[0].slot
      ensures InRing(ring[1..], j) <==> InRing(ring, j)
    {
      if InRing(ring, j) {
        var k :| 0 <= k < |ring| && ring[k].slot == j;
        assert ring[1..][k - 1].slot == j;
      }
    }
  }

  lemma RingPushes(ring: seq<Deferred>, d: Deferred)
    ensures InRing(ring + [d], d.slot)
    ensures forall j: Slot :: j != d.slot ==> (InRing(ring + [d], j) <==> InRing(ring, j))
  {
    assert (ring + [d])[|ring|].slot == d.slot;
    forall j: Slot | j != d.slot
      ensures InRing(ring + [d], j) <==> InRing(ring, j)
    {
      if InRing(ring, j) {
        var k :| 0 <= k < |ring| && ring[k].slot == j;
        assert (ring + [d])[k].slot == j;
      }
    }
  }

  lemma DrainKeepsSlots(s: State, s': State, a: Agent, step: DrainStep)
    requires LockInv(s) && SlotInv(s) && DrainNext(s, s', a, step)
    ensures SlotInv(s')
  {
    if step.DrainPop? {
      PopKeepsSlots(s, s', a);
    } else {
      DrainFrame(s, s', a, step);
      QuietKeepsSlots(s, s', a);
    }
  }

  lemma PushKeepsSlots(s: State, s': State, a: Agent)
    requires LockInv(s) && SlotInv(s) && RoomNext(s, s', a, PushRing)
    requires a in s.bags && PcOk(s, s.bags[a], s.agents[a])
    ensures SlotInv(s')
  {
    var places: seq<Place> :| Placed(s, places);
    var job := s.agents[a].work.job;
    assert Located(s, job.slot, places[job.slot]);
    assert Holds(s.agents[a], job.slot);
    if |s.ring| < DEFER_RING_CAPACITY {
      RingPushes(s.ring, Deferred(job.slot, job.epoch, true));
      Relocate(s, s', a, places, job.slot, IsDeferred);
    } else {
      QuietKeepsSlots(s, s', a);
    }
  }

  lemma GrowKeepsSlots(s: State, s': State, a: Agent)
    requires LockInv(s) && PcInv(s) && SlotInv(s) && RoomNext(s, s', a, PublishSegment)
    ensures SlotInv(s')
  {
    if |s.entries| > s.agents[a].len {
      QuietKeepsSlots(s, s', a);
      return;
    }
    RoomFrame(s, s', a, PublishSegment);
    var places: seq<Place> :| Placed(s, places);
    var places' := places + seq(SEGMENT_LEN, _ => IsFree);
    forall i: Slot | i < |places'|
      ensures Located(s', i, places'[i])
    {
      if i < |places| {
        LocatedSame(s, s', a, i, places[i]);
      } else {
        NothingHolds(s, i);
      }
    }
    assert Placed(s', places');
  }

  /** No agent accounts for a slot the table does not have. */
  lemma NothingHolds(s: State, i: Slot)
    requires PcInv(s) && i >= |s.entries|
    ensures forall a <- s.agents :: !Holds(s.agents[a], i) && !Reaping(s.agents[a], i)
  {
    forall a | a in s.agents
      ensures !Holds(s.agents[a], i) && !Reaping(s.agents[a], i)
    {
      assert PcOk(s, s.bags[a], s.agents[a]);
    }
  }

  lemma RoomKeepsSlots(s: State, s': State, a: Agent, step: RoomStep)
    requires LockInv(s) && PcInv(s) && SlotInv(s) && RoomNext(s, s', a, step)
    ensures SlotInv(s')
  {
    match step
    case PushRing => PushKeepsSlots(s, s', a);
    case PublishSegment => GrowKeepsSlots(s, s', a);
    case _ => QuietKeepsSlots(s, s', a);
  }

  lemma PickFreeKeepsSlots(s: State, s': State, a: Agent, slot: Slot)
    requires LockInv(s) && SlotInv(s) && PickNext(s, s', a, PickFree(slot))
    ensures SlotInv(s')
  {
    var places: seq<Place> :| Placed(s, places);
    assert Located(s, slot, places[slot]);
    Relocate(s, s', a, places, slot, IsHeld(a));
  }

  lemma ReapKeepsSlots(s: State, s': State, a: Agent)
    requires LockInv(s) && SlotInv(s) && PickNext(s, s', a, SweepReap)
    ensures SlotInv(s')
  {
    var places: seq<Place> :| Placed(s, places);
    var i := s.agents[a].work.job.cursor;
    assert Located(s, i, places[i]);
    assert !places[i].IsReaped?;
    RingPushes(s.ring, Deferred(i, s.epoch, false));
    Relocate(s, s', a, places, i, IsReaped(a));
  }

  lemma PickKeepsSlots(s: State, s': State, a: Agent, step: PickStep)
    requires LockInv(s) && SlotInv(s) && PickNext(s, s', a, step)
    ensures SlotInv(s')
  {
    match step
    case PickFree(slot) => PickFreeKeepsSlots(s, s', a, slot);
    case SweepReap => ReapKeepsSlots(s, s', a);
    case _ => QuietKeepsSlots(s, s', a);
  }

  lemma PublishKeepsSlots(s: State, s': State, a: Agent)
    requires LockInv(s) && SlotInv(s) && StoreNext(s, s', a, StorePtr)
    requires PcOk(s, s.bags[a], s.agents[a]) && s.agents[a].work.w.Publish?
    ensures SlotInv(s')
  {
    var places: seq<Place> :| Placed(s, places);
    var slot := s.agents[a].work.w.slot;
    assert Located(s, slot, places[slot]);
    assert Holds(s.agents[a], slot);
    Relocate(s, s', a, places, slot, IsLive);
  }

  lemma UnpublishKeepsSlots(s: State, s': State, a: Agent)
    requires LockInv(s) && SlotInv(s) && StoreNext(s, s', a, StorePtr)
    requires PcOk(s, s.bags[a], s.agents[a]) && (s.agents[a].work.w.Unpublish? || s.agents[a].work.w.Reap?)
    ensures SlotInv(s')
  {
    var places: seq<Place> :| Placed(s, places);
    var w := s.agents[a].work.w;
    assert Located(s, w.slot, places[w.slot]);
    assert w.Reap? <==> Reaping(s.agents[a], w.slot);
    Relocate(s, s', a, places, w.slot, if w.Reap? then IsDeferred else IsHeld(a));
  }

  lemma StoreKeepsSlots(s: State, s': State, a: Agent, step: StoreStep)
    requires LockInv(s) && SlotInv(s) && StoreNext(s, s', a, step)
    requires PcOk(s, s.bags[a], s.agents[a])
    ensures SlotInv(s')
  {
    if step.StorePtr? && s.agents[a].work.w.Publish? {
      PublishKeepsSlots(s, s', a);
    } else if step.StorePtr? && !s.agents[a].work.w.Attenuate? {
      UnpublishKeepsSlots(s, s', a);
    } else {
      QuietKeepsSlots(s, s', a);
    }
  }
}
