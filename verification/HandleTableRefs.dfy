/**
 Reference counts in the handle table: every count is the number of places that hold a reference.

 So no path loses a reference or releases one twice, and an object that any entry or any agent
 holds has a count of at least one.
 */
module HandleTableRefs {
  import opened HandleTable
  import opened HandleTableSafety

  /** Everything that holds a reference to `o`: live entries, and what agents carry. */
  ghost function Holders(entries: seq<Entry>, bags: map<Agent, seq<Ref>>, o: Obj): set<Holder> {
    InEntries(entries, o) + InBags(bags, o)
  }

  ghost function InEntries(entries: seq<Entry>, o: Obj): set<Holder> {
    set i | 0 <= i < |entries| && entries[i].ptr == At(o) :: InSlot(i)
  }

  ghost function InBags(bags: map<Agent, seq<Ref>>, o: Obj): set<Holder> {
    set a, i | a in bags && 0 <= i < |bags[a]| && bags[a][i].obj == o :: InBag(a, i)
  }

  function Count(refs: map<Obj, nat>, o: Obj): nat {
    if o in refs then refs[o] else 0
  }

  ghost predicate RefInv(s: State) {
    forall o: Obj :: Count(s.refs, o) == |Holders(s.entries, s.bags, o)|
  }

  // ---------- How holders change ----------

  lemma BagGrows(bags: map<Agent, seq<Ref>>, a: Agent, ref: Ref, o: Obj)
    requires a in bags
    ensures var bags' := bags[a := bags[a] + [ref]];
            && InBag(a, |bags[a]|) !in InBags(bags, o)
            && InBags(bags', o) == InBags(bags, o) + if ref.obj == o then {InBag(a, |bags[a]|)} else {}
  {
    var bags' := bags[a := bags[a] + [ref]];
    forall h | h in InBags(bags', o) && h != InBag(a, |bags[a]|)
      ensures h in InBags(bags, o)
    {}
  }

  /** One more reference in a bag is one more holder of its object, and of no other. */
  lemma BagGrowsCount(entries: seq<Entry>, bags: map<Agent, seq<Ref>>, a: Agent, ref: Ref, o: Obj)
    requires a in bags
    ensures |Holders(entries, bags[a := bags[a] + [ref]], o)| ==
            |Holders(entries, bags, o)| + if ref.obj == o then 1 else 0
  {
    var h := InBag(a, |bags[a]|);
    BagGrows(bags, a, ref, o);
    if ref.obj == o {
      assert h !in Holders(entries, bags, o);
      assert Holders(entries, bags[a := bags[a] + [ref]], o) == Holders(entries, bags, o) + {h};
    }
  }

  lemma PushBack(bags: map<Agent, seq<Ref>>, a: Agent)
    requires a in bags && |bags[a]| > 0
    ensures var bags' := bags[a := bags[a][..|bags[a]| - 1]]; bags == bags'[a := bags'[a] + [Last(bags[a])]]
  {
    assert bags[a] == bags[a][..|bags[a]| - 1] + [Last(bags[a])];
  }

  /** An entry that holds nothing comes to hold `x`. */
  lemma EntryGains(entries: seq<Entry>, slot: Slot, e: Entry, x: Obj, o: Obj)
    requires slot < |entries| && entries[slot].ptr.Null? && e.ptr == At(x)
    ensures InSlot(slot) !in InEntries(entries, o)
    ensures InEntries(entries[slot := e], o) == InEntries(entries, o) + if x == o then {InSlot(slot)} else {}
  {}

  lemma EntriesSame(entries: seq<Entry>, entries': seq<Entry>, o: Obj)
    requires |entries| <= |entries'|
    requires forall i {:trigger entries'[i]} :: 0 <= i < |entries| ==> entries'[i].ptr == entries[i].ptr
    requires forall i {:trigger entries'[i]} :: |entries| <= i < |entries'| ==> entries'[i].ptr == Null
    ensures InEntries(entries', o) == InEntries(entries, o)
  {}

  lemma TakeKeepsRefs(s: State, a: Agent, o: Obj)
    requires RefInv(s) && a in s.bags && o in s.refs
    ensures RefInv(Take(s, a, o))
  {
    forall x: Obj
      ensures Count(Take(s, a, o).refs, x) == |Holders(s.entries, Take(s, a, o).bags, x)|
    {
      BagGrowsCount(s.entries, s.bags, a, Ref(o, Elsewhere), x);
    }
  }

  lemma DropKeepsRefs(s: State, a: Agent)
    requires RefInv(s) && a in s.bags && |s.bags[a]| > 0
    requires Last(s.bags[a]).obj in s.refs && s.refs[Last(s.bags[a]).obj] > 0
    ensures RefInv(Drop(s, a))
  {
    PushBack(s.bags, a);
    forall x: Obj
      ensures Count(Drop(s, a).refs, x) == |Holders(s.entries, Drop(s, a).bags, x)|
    {
      BagGrowsCount(s.entries, Drop(s, a).bags, a, Last(s.bags[a]), x);
    }
  }

  lemma EntryGainsCount(entries: seq<Entry>, bags: map<Agent, seq<Ref>>, slot: Slot, e: Entry, x: Obj, o: Obj)
    requires slot < |entries| && entries[slot].ptr.Null? && e.ptr == At(x)
    ensures |Holders(entries[slot := e], bags, o)| == |Holders(entries, bags, o)| + if x == o then 1 else 0
  {
    EntryGains(entries, slot, e, x, o);
    if x == o {
      assert InSlot(slot) !in Holders(entries, bags, o);
      assert Holders(entries[slot := e], bags, o) == Holders(entries, bags, o) + {InSlot(slot)};
    }
  }

  /** A reference moves between an agent and an entry, and no count changes. */
  lemma MoveKeepsCount(
    entries: seq<Entry>, bags: map<Agent, seq<Ref>>, a: Agent, slot: Slot, full: Entry, ref: Ref, o: Obj)
    requires a in bags && slot < |entries| && entries[slot].ptr.Null? && full.ptr == At(ref.obj)
    ensures |Holders(entries, bags[a := bags[a] + [ref]], o)| == |Holders(entries[slot := full], bags, o)|
  {
    BagGrowsCount(entries, bags, a, ref, o);
    EntryGainsCount(entries, bags, slot, full, ref.obj, o);
  }

  // ---------- Each family ----------

  lemma RefKeepsRefs(s: State, s': State, a: Agent, step: RefStep)
    requires RefInv(s) && RefNext(s, s', a, step)
    ensures RefInv(s')
  {
    match step
    case Create(o) =>
      var s0 := s.(refs := s.refs[o := 0]);
      assert RefInv(s0) by {
        assert forall x: Obj :: Count(s0.refs, x) == Count(s.refs, x);
      }
      TakeKeepsRefs(s0, a, o);
    case Clone(from) => TakeKeepsRefs(s, a, Last(s.bags[from]).obj);
    case DropLast => DropKeepsRefs(s, a);
    case Keep =>
  }

  lemma SectionKeepsRefs(s: State, s': State, a: Agent, step: SectionStep)
    requires RefInv(s) && SectionNext(s, s', a, step)
    ensures RefInv(s')
  {
    var pc := s.agents[a];
    if step.TryAcquire? && pc.stage.obj in s.refs && s.refs[pc.stage.obj] > 0 {
      var s0 := s.(agents := s'.agents);
      assert RefInv(s0);
      TakeKeepsRefs(s0, a, pc.stage.obj);
    } else if step.GiveBack? {
      var s0 := s.(agents := s'.agents);
      assert RefInv(s0);
      DropKeepsRefs(s0, a);
    }
  }

  lemma StoreKeepsRefs(s: State, s': State, a: Agent, step: StoreStep)
    requires RefInv(s) && a in s.bags && a in s.agents && PcOk(s, s.bags[a], s.agents[a]) && StoreNext(s, s', a, step)
    ensures RefInv(s')
  {
    var w := s.agents[a].work.w;
    var e := s.entries[w.slot];
    forall o: Obj
      ensures Count(s'.refs, o) == |Holders(s'.entries, s'.bags, o)|
    {
      assert Count(s.refs, o) == |Holders(s.entries, s.bags, o)|;
      if step.StorePtr? && w.Publish? {
        var ref := Last(s.bags[a]);
        PushBack(s.bags, a);
        MoveKeepsCount(s.entries, s'.bags, a, w.slot, s'.entries[w.slot], ref, o);
      } else if step.StorePtr? && (w.Unpublish? || w.Reap?) {
        var ref := Ref(e.ptr.obj, Issue(w.slot, e.issues));
        assert s.entries == s'.entries[w.slot := e];
        MoveKeepsCount(s'.entries, s.bags, a, w.slot, e, ref, o);
      } else {
        EntriesSame(s.entries, s'.entries, o);
      }
    }
  }

  /** Steps that neither hold nor publish anything new. */
  lemma QuietKeepsRefs(s: State, s': State)
    requires RefInv(s) && s'.refs == s.refs && s'.bags == s.bags && |s.entries| <= |s'.entries|
    requires forall i {:trigger s'.entries[i]} :: 0 <= i < |s'.entries| ==>
        s'.entries[i] == if i < |s.entries| then s.entries[i] else FRESH
    ensures RefInv(s')
  {
    forall o: Obj
      ensures Count(s'.refs, o) == |Holders(s'.entries, s'.bags, o)|
    {
      assert Count(s.refs, o) == |Holders(s.entries, s.bags, o)|;
      EntriesSame(s.entries, s'.entries, o);
    }
  }

  /** Whatever an entry or an agent holds is alive. */
  lemma HeldIsAlive(s: State, h: Holder, o: Obj)
    requires RefInv(s) && h in Holders(s.entries, s.bags, o)
    ensures o in s.refs && s.refs[o] >= 1
  {
    assert Count(s.refs, o) == |Holders(s.entries, s.bags, o)|;
    if Holders(s.entries, s.bags, o) == {} {
      assert false;
    }
  }
}
