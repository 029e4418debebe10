/**
 When a closed slot goes back to the freelist. A section that still reads what was in it then announced an
 epoch later than the deferral's tag, and no later than when the pointer went out; so there is none if the
 epoch had not passed the tag by then.

 `close` reads its tag after it has taken the pointer out, so there never is of its slots. A sweep reads its
 tag first, and `HandleTableLateNull` has a run where there is.
 */
module HandleTableReuse {
  import opened Common
  import opened HandleTable
  import opened HandleTableSafety
  import opened HandleTableGrace
  import opened HandleTableSlots

  /** Whether the agent is inside a section in which it loaded a pointer from `slot`. */
  predicate Loaded(pc: Pc, slot: Slot) {
    pc.Section? && (pc.stage.Acquire? || pc.stage.Leave?) && pc.call.slot == slot
  }

  /** Every open section that loaded a pointer from `slot` announced an epoch up to `e`. */
  ghost predicate ReadersUpTo(s: State, slot: Slot, e: nat) {
    forall r <- s.agents :: Loaded(s.agents[r], slot) ==>
      && s.agents[r].ctx in s.observed
      && s.observed[s.agents[r].ctx].InSection?
      && s.observed[s.agents[r].ctx].epoch <= e
  }

  /** The deferral a closer is about to push. */
  predicate Deferring(pc: Pc, slot: Slot, e: nat) {
    match pc
    case Want(job) => job == Defer(slot, e)
    case Under(Drain(job, _)) => job == Defer(slot, e)
    case Under(Bump(job)) => job == Defer(slot, e)
    case Under(Ready(job)) => job == Defer(slot, e)
    case _ => false
  }

  /** The slot's pointer is out, and went out no later than the epoch the deferral is tagged with. */
  ghost predicate Covered(s: State, d: Deferred) {
    d.slot < |s.entries| && s.entries[d.slot].ptr.Null? && s.entries[d.slot].nulledAt <= d.epoch
  }

  /** Whoever is still reading what was in an empty slot announced an epoch up to when it went out. */
  ghost predicate NullReaders(s: State) {
    forall i: Slot :: i < |s.entries| && s.entries[i].ptr.Null? ==> ReadersUpTo(s, i, s.entries[i].nulledAt)
  }

  ghost predicate NulledInv(s: State) {
    forall i :: 0 <= i < |s.entries| ==> s.entries[i].nulledAt <= s.epoch
  }

  /** A close tags its deferral after it has taken the pointer out. */
  ghost predicate CloseTags(s: State) {
    forall k :: 0 <= k < |s.ring| && s.ring[k].byClose ==> Covered(s, s.ring[k])
  }

  ghost predicate DeferTags(s: State) {
    forall a, slot: Slot, e: nat | a in s.agents && Deferring(s.agents[a], slot, e) :: DeferOk(s, slot, e)
  }

  /** What is known of a deferral a closer is about to push. */
  ghost predicate DeferOk(s: State, slot: Slot, e: nat) {
    slot < |s.entries| && s.entries[slot].nulledAt <= e
  }

  /** The reader announced an epoch later than `e`. */
  ghost predicate ReadsSince(s: State, pc: Pc, e: nat)
    requires pc.Section?
  {
    pc.ctx in s.observed && s.observed[pc.ctx].InSection? && e < s.observed[pc.ctx].epoch
  }

  /** A drain has passed no context that still reads the slot it is looking at, unless that section is past its tag. */
  ghost predicate ScanReuse(s: State) {
    forall a, r | a in s.agents && r in s.agents && s.agents[a].Under? && s.agents[a].work.Drain? ::
      |s.ring| > 0 && Loaded(s.agents[r], s.ring[0].slot) && s.agents[r].ctx in s.agents[a].work.past ==>
        ReadsSince(s, s.agents[r], s.ring[0].epoch)
  }

  ghost predicate ReuseInv(s: State) {
    NullReaders(s) && NulledInv(s) && CloseTags(s) && DeferTags(s) && ScanReuse(s)
  }

  // ---------- Steps that take nothing out ----------

  /** No new section has loaded from `slot`, and those that had keep their announcement. */
  ghost predicate NoNewReaders(s: State, s': State, slot: Slot) {
    forall r <- s'.agents :: Loaded(s'.agents[r], slot) ==>
      && r in s.agents && Loaded(s.agents[r], slot) && s'.agents[r].ctx == s.agents[r].ctx
      && s.agents[r].ctx in s.observed && s.agents[r].ctx in s'.observed
      && s'.observed[s.agents[r].ctx] == s.observed[s.agents[r].ctx]
  }

  lemma ReadersStay(s: State, s': State, slot: Slot, e: nat)
    requires ReadersUpTo(s, slot, e) && NoNewReaders(s, s', slot)
    ensures ReadersUpTo(s', slot, e)
  {}

  /** Nothing has been taken out, the epoch has not gone back, and nobody has loaded from an empty slot. */
  ghost predicate NothingNulled(s: State, s': State) {
    && s.epoch <= s'.epoch && |s.entries| <= |s'.entries|
    && (forall i {:trigger s'.entries[i]} :: 0 <= i < |s'.entries| ==>
          if i < |s.entries| then
            && s'.entries[i].nulledAt == s.entries[i].nulledAt
            && (s'.entries[i].ptr.Null? ==> s.entries[i].ptr.Null?)
          else s'.entries[i] == FRESH)
    && (forall slot: Slot :: slot < |s.entries| ==> s.entries[slot].ptr.At? || NoNewReaders(s, s', slot))
    && (forall slot: Slot :: |s.entries| <= slot ==> NoNewReaders(s, s', slot))
  }

  /** A slot that is not there yet has no readers. */
  lemma NobodyReads(s: State, slot: Slot)
    requires PcInv(s) && |s.entries| <= slot
    ensures forall r <- s.agents :: !Loaded(s.agents[r], slot)
  {
    forall r | r in s.agents
      ensures !Loaded(s.agents[r], slot)
    {
      assert PcOk(s, s.bags[r], s.agents[r]);
    }
  }

  lemma NullReadersStay(s: State, s': State)
    requires PcInv(s) && NullReaders(s) && NothingNulled(s, s')
    ensures NullReaders(s')
  {
    forall i: Slot | i < |s'.entries| && s'.entries[i].ptr.Null?
      ensures ReadersUpTo(s', i, s'.entries[i].nulledAt)
    {
      if i < |s.entries| {
        ReadersStay(s, s', i, s.entries[i].nulledAt);
      } else {
        NobodyReads(s, i);
        assert NoNewReaders(s, s', i);
      }
    }
  }

  lemma DeferTagsStay(s: State, s': State, a: Agent)
    requires DeferTags(s) && Moves(s, s', a) && NothingNulled(s, s')
    requires forall slot: Slot, e: nat :: Deferring(s'.agents[a], slot, e) ==> Deferring(s.agents[a], slot, e)
    ensures DeferTags(s')
  {
    forall b, slot: Slot, e: nat | b in s'.agents && Deferring(s'.agents[b], slot, e)
      ensures DeferOk(s', slot, e)
    {
      assert Deferring(s.agents[b], slot, e) && DeferOk(s, slot, e);
    }
  }

  /** Nobody drains the ring while a sweep still has to take out what it has deferred. */
  lemma DrainedIsOut(s: State, a: Agent, k: nat)
    requires LockInv(s) && SlotInv(s) && a in s.agents && s.agents[a].Under? && s.agents[a].work.Drain?
    requires k < |s.ring|
    ensures s.ring[k].slot < |s.entries| && s.entries[s.ring[k].slot].ptr.Null?
  {
    var places: seq<Place> :| Placed(s, places);
    var slot := s.ring[k].slot;
    assert Located(s, slot, places[slot]);
    assert InRing(s.ring, slot);
  }

  /** A step that leaves the ring alone, and whose agent has not begun to pass contexts. */
  lemma ScanStays(s: State, s': State, a: Agent)
    requires LockInv(s) && SlotInv(s) && ScanReuse(s) && Moves(s, s', a) && s'.ring == s.ring && NothingNulled(s, s')
    requires s'.agents[a].Under? && s'.agents[a].work.Drain? ==> s'.agents[a].work.past == {}
    ensures ScanReuse(s')
  {
    forall b, r | b in s'.agents && r in s'.agents && s'.agents[b].Under? && s'.agents[b].work.Drain?
      ensures |s'.ring| > 0 && Loaded(s'.agents[r], s'.ring[0].slot) && s'.agents[r].ctx in s'.agents[b].work.past ==>
                ReadsSince(s', s'.agents[r], s'.ring[0].epoch)
    {
      if b != a && |s.ring| > 0 {
        DrainedIsOut(s, b, 0);
        assert NoNewReaders(s, s', s.ring[0].slot);
      }
    }
  }

  lemma QuietKeepsReuse(s: State, s': State, a: Agent)
    requires LockInv(s) && PcInv(s) && SlotInv(s) && ReuseInv(s) && Moves(s, s', a)
    requires s'.ring == s.ring && NothingNulled(s, s') && CloseTags(s')
    requires forall slot: Slot, e: nat :: Deferring(s'.agents[a], slot, e) ==> Deferring(s.agents[a], slot, e)
    requires s'.agents[a].Under? && s'.agents[a].work.Drain? ==> s'.agents[a].work.past == {}
    ensures ReuseInv(s')
  {
    NullReadersStay(s, s');
    DeferTagsStay(s, s', a);
    ScanStays(s, s', a);
  }

  /** An agent that is not in a read section afterwards is no new reader of anything. */
  lemma NotReading(s: State, s': State, a: Agent)
    requires LockInv(s) && Moves(s, s', a) && s'.observed == s.observed && !s'.agents[a].Section?
    ensures forall slot: Slot :: NoNewReaders(s, s', slot)
  {}

  lemma CoveredSame(s: State, s': State)
    requires s'.entries == s.entries
    ensures forall d :: Covered(s', d) <==> Covered(s, d)
  {}

  lemma AsideKeepsReuse(s: State, s': State, a: Agent)
    requires LockInv(s) && PcInv(s) && SlotInv(s) && ReuseInv(s) && Moves(s, s', a)
    requires s'.observed == s.observed && s'.ring == s.ring && s'.entries == s.entries && s.epoch <= s'.epoch
    requires !s'.agents[a].Section? && !s'.agents[a].Under?
    requires s'.agents[a].Want? ==> !s'.agents[a].job.Defer?
    ensures ReuseInv(s')
  {
    NotReading(s, s', a);
    CoveredSame(s, s');
    QuietKeepsReuse(s, s', a);
  }

  // ---------- Readers ----------

  lemma SectionReadsNothing(s: State, s': State, a: Agent, step: SectionStep, slot: Slot)
    requires LockInv(s) && EpochInv(s) && SectionNext(s, s', a, step)
    ensures NoNewReaders(s, s', slot)
  {}

  lemma SectionKeepsReuse(s: State, s': State, a: Agent, step: SectionStep)
    requires LockInv(s) && PcInv(s) && EpochInv(s) && SlotInv(s) && ReuseInv(s) && SectionNext(s, s', a, step)
    ensures ReuseInv(s')
  {
    SectionFrame(s, s', a, step);
    forall slot: Slot
      ensures NoNewReaders(s, s', slot)
    {
      SectionReadsNothing(s, s', a, step, slot);
    }
    CoveredSame(s, s');
    QuietKeepsReuse(s, s', a);
  }

  /** A pointer is only loaded from a slot that has one. */
  lemma SnapReadsLive(s: State, s': State, a: Agent, step: SnapStep, slot: Slot)
    requires LockInv(s) && SnapNext(s, s', a, step) && (slot < |s.entries| ==> s.entries[slot].ptr.Null?)
    ensures NoNewReaders(s, s', slot)
  {}

  lemma SnapKeepsReuse(s: State, s': State, a: Agent, step: SnapStep)
    requires LockInv(s) && PcInv(s) && SlotInv(s) && ReuseInv(s) && SnapNext(s, s', a, step)
    ensures ReuseInv(s')
  {
    SnapFrame(s, s', a, step);
    forall slot: Slot | slot < |s.entries| ==> s.entries[slot].ptr.Null?
      ensures NoNewReaders(s, s', slot)
    {
      SnapReadsLive(s, s', a, step, slot);
    }
    CoveredSame(s, s');
    QuietKeepsReuse(s, s', a);
  }

  // ---------- Draining ----------

  /** The tag is read after the pointer is out. */
  lemma TagKeepsReuse(s: State, s': State, a: Agent)
    requires LockInv(s) && PcInv(s) && SlotInv(s) && ReuseInv(s) && DrainNext(s, s', a, TagEpoch)
    ensures ReuseInv(s')
  {
    assert PcOk(s, s.bags[a], s.agents[a]);
    NotReading(s, s', a);
    CoveredSame(s, s');
    NullReadersStay(s, s');
    ScanStays(s, s', a);
    forall b, slot: Slot, e: nat | b in s'.agents && Deferring(s'.agents[b], slot, e)
      ensures DeferOk(s', slot, e)
    {
      if b != a {
        assert Deferring(s.agents[b], slot, e) && DeferOk(s, slot, e);
      }
    }
  }

  /** A scan passes a context only if it is in no section, or in one past the deferral's tag. */
  lemma ScanKeepsReuse(s: State, s': State, a: Agent, ctx: Ctx)
    requires LockInv(s) && PcInv(s) && EpochInv(s) && ReuseInv(s) && DrainNext(s, s', a, DrainScan(ctx))
    ensures ReuseInv(s')
  {
    NotReading(s, s', a);
    CoveredSame(s, s');
    NullReadersStay(s, s');
    DeferTagsStay(s, s', a);
    forall b, r | b in s'.agents && r in s'.agents && s'.agents[b].Under? && s'.agents[b].work.Drain?
      ensures Loaded(s'.agents[r], s'.ring[0].slot) && s'.agents[r].ctx in s'.agents[b].work.past ==>
                ReadsSince(s', s'.agents[r], s'.ring[0].epoch)
    {
      assert b == a && s'.agents[r] == if r == a then s'.agents[a] else s.agents[r];
      if Loaded(s.agents[r], s.ring[0].slot) {
        assert Announced(s, s.agents[r]);
      }
    }
  }

  lemma PopKeepsReuse(s: State, s': State, a: Agent)
    requires LockInv(s) && PcInv(s) && ReuseInv(s) && DrainNext(s, s', a, DrainPop)
    ensures ReuseInv(s')
  {
    NotReading(s, s', a);
    CoveredSame(s, s');
    NullReadersStay(s, s');
    DeferTagsStay(s, s', a);
    forall k | 0 <= k < |s'.ring| && s'.ring[k].byClose
      ensures Covered(s', s'.ring[k])
    {
      assert s'.ring[k] == s.ring[k + 1];
    }
  }

  lemma BumpKeepsReuse(s: State, s': State, a: Agent, step: DrainStep)
    requires LockInv(s) && PcInv(s) && SlotInv(s) && ReuseInv(s) && DrainNext(s, s', a, step)
    requires step.GetLock? || step.DrainEmpty? || step.BumpEpoch?
    ensures ReuseInv(s')
  {
    DrainFrame(s, s', a, step);
    NotReading(s, s', a);
    CoveredSame(s, s');
    QuietKeepsReuse(s, s', a);
  }

  lemma DrainKeepsReuse(s: State, s': State, a: Agent, step: DrainStep)
    requires LockInv(s) && PcInv(s) && EpochInv(s) && SlotInv(s) && ReuseInv(s) && DrainNext(s, s', a, step)
    ensures ReuseInv(s')
  {
    match step
    case TagEpoch => TagKeepsReuse(s, s', a);
    case DrainScan(ctx) => ScanKeepsReuse(s, s', a, ctx);
    case DrainPop => PopKeepsReuse(s, s', a);
    case _ => BumpKeepsReuse(s, s', a, step);
  }

  // ---------- Deferring ----------

  /** A slot some agent has closed and not deferred holds no pointer to load. */
  lemma DeferringIsEmpty(s: State, a: Agent, slot: Slot, e: nat)
    requires PcInv(s) && SlotInv(s) && a in s.agents && Deferring(s.agents[a], slot, e)
    ensures slot < |s.entries| && s.entries[slot].ptr.Null? && !InRing(s.ring, slot)
  {
    assert PcOk(s, s.bags[a], s.agents[a]);
    var places: seq<Place> :| Placed(s, places);
    assert Located(s, slot, places[slot]);
    assert Holds(s.agents[a], slot);
  }

  /** One more deferral, by the agent that has the lock. */
  lemma PushKeepsReuse(s: State, s': State, a: Agent, d: Deferred)
    requires LockInv(s) && PcInv(s) && ReuseInv(s) && Moves(s, s', a) && s'.observed == s.observed
    requires s'.entries == s.entries && s'.ring == s.ring + [d] && s.lock == Held(a)
    requires !s'.agents[a].Section? && !s'.agents[a].Want? && (s'.agents[a].Under? ==> s'.agents[a].work.Window?)
    requires d.byClose ==> Covered(s, d)
    ensures ReuseInv(s')
  {
    NotReading(s, s', a);
    CoveredSame(s, s');
    NullReadersStay(s, s');
    DeferTagsStay(s, s', a);
    forall k | 0 <= k < |s'.ring| && s'.ring[k].byClose
      ensures Covered(s', s'.ring[k])
    {
      assert s'.ring[k] == if k < |s.ring| then s.ring[k] else d;
    }
  }

  lemma RoomKeepsReuse(s: State, s': State, a: Agent, step: RoomStep)
    requires LockInv(s) && PcInv(s) && SlotInv(s) && ReuseInv(s) && RoomNext(s, s', a, step)
    ensures ReuseInv(s')
  {
    if step.PushRing? && |s.ring| < DEFER_RING_CAPACITY {
      var job := s.agents[a].work.job;
      DeferringIsEmpty(s, a, job.slot, job.epoch);
      assert DeferOk(s, job.slot, job.epoch);
      RoomFrame(s, s', a, step);
      PushKeepsReuse(s, s', a, Deferred(job.slot, job.epoch, true));
    } else {
      GrowKeepsReuse(s, s', a, step);
    }
  }

  lemma GrowKeepsReuse(s: State, s': State, a: Agent, step: RoomStep)
    requires LockInv(s) && PcInv(s) && SlotInv(s) && ReuseInv(s) && RoomNext(s, s', a, step) && s'.ring == s.ring
    ensures ReuseInv(s')
  {
    RoomFrame(s, s', a, step);
    NotReading(s, s', a);
    QuietKeepsReuse(s, s', a);
  }

  lemma PickKeepsReuse(s: State, s': State, a: Agent, step: PickStep)
    requires LockInv(s) && PcInv(s) && SlotInv(s) && ReuseInv(s) && PickNext(s, s', a, step)
    ensures ReuseInv(s')
  {
    PickFrame(s, s', a, step);
    if step.SweepReap? {
      PushKeepsReuse(s, s', a, Deferred(s.agents[a].work.job.cursor, s.epoch, false));
    } else {
      NotReading(s, s', a);
      CoveredSame(s, s');
      QuietKeepsReuse(s, s', a);
    }
  }

  // ---------- Taking out ----------

  /** The step is the store of a null pointer. */
  ghost predicate TakesOut(s: State, a: Agent, step: StoreStep)
    requires a in s.agents && s.agents[a].Under? && s.agents[a].work.Window?
  {
    step.StorePtr? && (s.agents[a].work.w.Unpublish? || s.agents[a].work.w.Reap?)
  }

  /** A close's deferral stays covered: its slot is empty, and no install has it. */
  lemma StoreKeepsTags(s: State, s': State, a: Agent, step: StoreStep)
    requires LockInv(s) && SlotInv(s) && CloseTags(s) && StoreNext(s, s', a, step)
    requires PcOk(s, s.bags[a], s.agents[a])
    ensures CloseTags(s')
  {
    var w := s.agents[a].work.w;
    if step.StorePtr? && w.Publish? {
      var places: seq<Place> :| Placed(s, places);
      assert Located(s, w.slot, places[w.slot]);
      assert Holds(s.agents[a], w.slot);
    }
  }

  lemma FillKeepsReuse(s: State, s': State, a: Agent, step: StoreStep)
    requires LockInv(s) && PcInv(s) && SlotInv(s) && ReuseInv(s) && StoreNext(s, s', a, step)
    requires !TakesOut(s, a, step) && CloseTags(s')
    ensures ReuseInv(s')
  {
    StoreFrame(s, s', a, step);
    NotReading(s, s', a);
    QuietKeepsReuse(s, s', a);
  }

  /** The pointer goes out: whoever has loaded it announced an epoch up to this one. */
  lemma NullKeepsReaders(s: State, s': State, a: Agent)
    requires LockInv(s) && EpochInv(s) && NullReaders(s) && NulledInv(s) && StoreNext(s, s', a, StorePtr)
    requires TakesOut(s, a, StorePtr) && forall slot: Slot :: NoNewReaders(s, s', slot)
    ensures NullReaders(s') && NulledInv(s')
  {
    var w := s.agents[a].work.w;
    forall i: Slot | i < |s'.entries| && s'.entries[i].ptr.Null?
      ensures ReadersUpTo(s', i, s'.entries[i].nulledAt)
    {
      if i == w.slot {
        assert ReadersUpTo(s, i, s.epoch);
      }
      ReadersStay(s, s', i, s'.entries[i].nulledAt);
    }
  }

  lemma NullKeepsDefers(s: State, s': State, a: Agent)
    requires LockInv(s) && PcInv(s) && SlotInv(s) && DeferTags(s) && StoreNext(s, s', a, StorePtr)
    requires TakesOut(s, a, StorePtr)
    ensures DeferTags(s')
  {
    assert PcOk(s, s.bags[a], s.agents[a]);
    forall b, slot: Slot, e: nat | b in s'.agents && Deferring(s'.agents[b], slot, e)
      ensures DeferOk(s', slot, e)
    {
      assert Deferring(s.agents[b], slot, e) && DeferOk(s, slot, e);
      DeferringIsEmpty(s, b, slot, e);
    }
  }

  lemma StoreKeepsReuse(s: State, s': State, a: Agent, step: StoreStep)
    requires LockInv(s) && PcInv(s) && EpochInv(s) && SlotInv(s) && ReuseInv(s) && StoreNext(s, s', a, step)
    ensures ReuseInv(s')
  {
    assert PcOk(s, s.bags[a], s.agents[a]);
    StoreKeepsTags(s, s', a, step);
    if TakesOut(s, a, step) {
      StoreFrame(s, s', a, step);
      NotReading(s, s', a);
      NullKeepsReaders(s, s', a);
      NullKeepsDefers(s, s', a);
    } else {
      FillKeepsReuse(s, s', a, step);
    }
  }

  // ---------- Whoever reads a slot that is reused ----------

  /** A reader of a slot that is popped announced an epoch past its tag, and no later than when its pointer went out. */
  lemma PopLeavesLateReaders(s: State, s': State, a: Agent, r: Agent)
    requires LockInv(s) && SlotInv(s) && ReuseInv(s) && DrainNext(s, s', a, DrainPop)
    requires r in s.agents && Loaded(s.agents[r], s.ring[0].slot)
    ensures s.ring[0].slot < |s.entries| && ReadsSince(s, s.agents[r], s.ring[0].epoch)
    ensures s.observed[s.agents[r].ctx].epoch <= s.entries[s.ring[0].slot].nulledAt
  {
    DrainedIsOut(s, a, 0);
    assert ReadersUpTo(s, s.ring[0].slot, s.entries[s.ring[0].slot].nulledAt);
  }
}
