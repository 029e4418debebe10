/**
 The device table (`kernel/src/device.rs`): what departs together, which served index a block or input
 node gets, and the walk over every block device that a shutdown makes (`kernel/src/power.rs`).

 Memory does not run out. Every table the registry has held is recorded in `history`.
 */
module DeviceRegistry {
  import opened Common

  const NO_PARENT: nat := 0xFFFF_FFFF

  datatype Sort = Block | Other

  datatype Kind = PciFunction | UsbDevice | Disk | Partition | RamDisk | Keyboard | Mouse | Console | Unknown

  datatype Entry = Entry(node: nat, sort: Sort, kind: Kind, served: nat, parent: nat, departed: bool, boot: bool)

  predicate IsInput(e: Entry) {
    e.kind.Keyboard? || e.kind.Mouse?
  }

  predicate IsInputAt(e: Entry, index: int) {
    IsInput(e) && e.served == index
  }

  predicate LiveBlock(e: Entry) {
    !e.departed && e.sort.Block?
  }

  predicate IsBlockAt(e: Entry, served: nat, node: nat) {
    LiveBlock(e) && e.served == served && e.node == node
  }

  // ---------- Descent ----------

  /** Entry `i`'s parents, each recorded before its child, lead to `id`. */
  predicate Under(entries: seq<Entry>, i: nat, id: nat)
    requires i < |entries|
    decreases i
  {
    i == id || (entries[i].parent < i && Under(entries, entries[i].parent, id))
  }

  /** Each entry of `path` is the parent of the one before it. */
  ghost predicate IsChain(entries: seq<Entry>, path: seq<nat>) {
    && path != [] && (forall k :: 0 <= k < |path| ==> path[k] < |entries|)
    && forall k :: 0 <= k < |path| - 1 ==> entries[path[k]].parent == path[k + 1]
  }

  ghost predicate IsChainFromTo(entries: seq<Entry>, path: seq<nat>, i: nat, id: nat) {
    IsChain(entries, path) && path[0] == i && path[|path| - 1] == id
  }

  /** Entry `i`'s parent chain reaches `id`. */
  ghost predicate Descends(entries: seq<Entry>, i: nat, id: nat) {
    exists path :: IsChainFromTo(entries, path, i, id)
  }

  /** No entry is recorded before its parent. */
  predicate ParentsFirst(entries: seq<Entry>) {
    forall i :: 0 <= i < |entries| && entries[i].parent < |entries| ==> entries[i].parent <= i
  }

  lemma {:induction false} UnderDescends(entries: seq<Entry>, i: nat, id: nat)
    requires i < |entries| && Under(entries, i, id)
    ensures Descends(entries, i, id)
    decreases i
  {
    if i == id {
      assert IsChainFromTo(entries, [i], i, id);
    } else {
      UnderDescends(entries, entries[i].parent, id);
      var path :| IsChainFromTo(entries, path, entries[i].parent, id);
      assert IsChainFromTo(entries, [i] + path, i, id);
    }
  }

  lemma {:induction false} ChainIsUnder(entries: seq<Entry>, path: seq<nat>, i: nat, id: nat)
    requires ParentsFirst(entries) && IsChainFromTo(entries, path, i, id)
    ensures i < |entries| && Under(entries, i, id)
    decreases |path|
  {
    if |path| > 1 {
      assert entries[path[0]].parent == path[1];
      ChainIsUnder(entries, path[1..], path[1], id);
    }
  }

  /** An entry's descendants come after it. */
  lemma {:induction false} UnderIsLater(entries: seq<Entry>, i: nat, id: nat)
    requires i < |entries| && Under(entries, i, id)
    ensures id <= i
    decreases i
  {
    if i != id {
      UnderIsLater(entries, entries[i].parent, id);
    }
  }

  /** One forward pass finds exactly the entries whose parent chain reaches the one it starts at. */
  ghost predicate OnePassFinds(entries: seq<Entry>) {
    forall i: nat, id: nat :: i < |entries| ==> (Under(entries, i, id) <==> Descends(entries, i, id))
  }

  /** Exactly when it does: no entry is recorded before its parent. */
  lemma OnePassFindsIff(entries: seq<Entry>)
    ensures OnePassFinds(entries) <==> ParentsFirst(entries)
  {
    if ParentsFirst(entries) {
      forall i: nat, id: nat | i < |entries|
        ensures Under(entries, i, id) <==> Descends(entries, i, id)
      {
        if Under(entries, i, id) {
          UnderDescends(entries, i, id);
        }
        if Descends(entries, i, id) {
          var path :| IsChainFromTo(entries, path, i, id);
          ChainIsUnder(entries, path, i, id);
        }
      }
    } else {
      var i: nat :| i < |entries| && i < entries[i].parent < |entries|;
      var id := entries[i].parent;
      assert IsChainFromTo(entries, [i, id], i, id);
      assert Descends(entries, i, id) && !Under(entries, i, id);
    }
  }

  /** A child recorded before its parent stays when the parent departs. */
  lemma EarlyChildStays(child: Entry, parent: Entry)
    requires child.parent == 1
    ensures Descends([child, parent], 0, 1) && Departed([child, parent], 1)[0] == child
  {
    assert IsChainFromTo([child, parent], [0, 1], 0, 1);
  }

  /** `entries` with exactly the node `id` and what is under it departed. */
  function Departed(entries: seq<Entry>, id: nat): (r: seq<Entry>)
    ensures |r| == |entries|
    ensures forall i :: 0 <= i < |entries| ==>
              r[i] == if Under(entries, i, id) then entries[i].(departed := true) else entries[i]
  {
    seq(|entries|, i requires 0 <= i < |entries| =>
      if Under(entries, i, id) then entries[i].(departed := true) else entries[i])
  }

  // ---------- Served indices ----------

  function Blocks(entries: seq<Entry>): nat {
    if entries == [] then 0 else Blocks(entries[..|entries| - 1]) + if entries[|entries| - 1].sort.Block? then 1 else 0
  }

  /** A block node's served index is the number of block nodes before it. */
  ghost predicate BlocksNumbered(entries: seq<Entry>) {
    forall i :: 0 <= i < |entries| && entries[i].sort.Block? ==> entries[i].served == Blocks(entries[..i])
  }

  lemma {:induction false} BlocksGrow(entries: seq<Entry>, i: nat, j: nat)
    requires i < j <= |entries|
    ensures Blocks(entries[..i]) + (if entries[i].sort.Block? then 1 else 0) <= Blocks(entries[..j])
    decreases j
  {
    assert entries[..j][..j - 1] == entries[..j - 1];
    if i < j - 1 {
      BlocksGrow(entries, i, j - 1);
    }
  }

  /** No two block nodes are served under one index, and a later one's is larger. */
  lemma BlocksServedApart(entries: seq<Entry>, i: nat, j: nat)
    requires BlocksNumbered(entries) && i < j < |entries| && entries[i].sort.Block? && entries[j].sort.Block?
    ensures entries[i].served < entries[j].served
  {
    BlocksGrow(entries, i, j);
  }

  /** `after` is `before` with entries appended: none removed, none but its flags changed. */
  ghost predicate Extends(before: seq<Entry>, after: seq<Entry>) {
    && |before| <= |after|
    && forall i :: 0 <= i < |before| ==>
         && after[i] == before[i].(departed := after[i].departed, boot := after[i].boot)
         && (before[i].departed ==> after[i].departed)
  }

  lemma ExtendsTransitively(a: seq<Entry>, b: seq<Entry>, c: seq<Entry>)
    requires Extends(a, b) && Extends(b, c)
    ensures Extends(a, c)
  {}

  /** The tables a registry has held, one after the other. */
  ghost predicate IsHistory(tables: seq<seq<Entry>>) {
    && (forall k :: 0 <= k < |tables| ==> BlocksNumbered(tables[k]))
    && (forall k :: 0 <= k < |tables| - 1 ==> Extends(tables[k], tables[k + 1]))
  }

  lemma {:induction false} HistoryExtends(tables: seq<seq<Entry>>, i: nat, j: nat)
    requires IsHistory(tables) && i <= j < |tables|
    ensures Extends(tables[i], tables[j])
    decreases j - i
  {
    if i < j {
      HistoryExtends(tables, i, j - 1);
      assert Extends(tables[j - 1], tables[j - 1 + 1]);
      ExtendsTransitively(tables[i], tables[j - 1], tables[j]);
    }
  }

  lemma HistoryGrows(tables: seq<seq<Entry>>, next: seq<Entry>)
    requires IsHistory(tables) && tables != [] && Extends(tables[|tables| - 1], next) && BlocksNumbered(next)
    ensures IsHistory(tables + [next])
  {}

  /**
   Over any history an index names one block node for good: one that was served under it, departed since
   or not, is the only one ever to be.
   */
  lemma BlockIndexIsNeverReissued(tables: seq<seq<Entry>>, i: nat, j: nat, p: nat, q: nat)
    requires IsHistory(tables) && i <= j < |tables| && p < |tables[i]| && q < |tables[j]|
    requires tables[i][p].sort.Block? && tables[j][q].sort.Block? && tables[i][p].served == tables[j][q].served
    ensures p == q
  {
    HistoryExtends(tables, i, j);
    if p < q {
      BlocksServedApart(tables[j], p, q);
    } else if q < p {
      BlocksServedApart(tables[j], q, p);
    }
  }

  lemma {:induction false} SameClassesSameBlocks(a: seq<Entry>, b: seq<Entry>)
    requires |a| == |b| && forall i :: 0 <= i < |a| ==> a[i].sort == b[i].sort
    ensures Blocks(a) == Blocks(b)
    decreases |a|
  {
    if a != [] {
      SameClassesSameBlocks(a[..|a| - 1], b[..|b| - 1]);
    }
  }

  /** Some live block node is served under `s`. */
  ghost predicate Served(entries: seq<Entry>, s: nat) {
    exists i :: 0 <= i < |entries| && LiveBlock(entries[i]) && entries[i].served == s
  }

  lemma ServedBelow(entries: seq<Entry>, s: nat)
    requires BlocksNumbered(entries) && Served(entries, s)
    ensures s < Blocks(entries)
  {
    var i :| 0 <= i < |entries| && LiveBlock(entries[i]) && entries[i].served == s;
    BlocksGrow(entries, i, |entries|);
    assert entries[..|entries|] == entries;
  }

  /** What `block_from` answers: the live block with the lowest index from `index` on. */
  ghost predicate IsLowest(entries: seq<Entry>, index: nat, r: Option<(nat, nat)>) {
    match r
    case None => forall s: nat :: Served(entries, s) ==> s < index
    case Some((served, node)) =>
      && index <= served
      && (exists i :: 0 <= i < |entries| && IsBlockAt(entries[i], served, node))
      && (forall s: nat :: Served(entries, s) && index <= s ==> served <= s)
  }

  // ---------- A walk over a table that changes ----------

  /** A live block is served under `s` in every table from the `h`th on. */
  ghost predicate ServedSince(tables: seq<seq<Entry>>, h: nat, s: nat) {
    forall t :: h <= t < |tables| ==> Served(tables[t], s)
  }

  /** A live block was served under `s` in one of them. */
  ghost predicate ServedOnce(tables: seq<seq<Entry>>, h: nat, s: nat) {
    exists t :: h <= t < |tables| && Served(tables[t], s)
  }

  ghost predicate Ascending(q: seq<nat>) {
    forall i, j :: 0 <= i < j < |q| ==> q[i] < q[j]
  }

  /** What a walk that has come to `next` has met. */
  ghost predicate Visits(tables: seq<seq<Entry>>, h: nat, visited: seq<nat>, next: nat) {
    && Ascending(visited) && (forall i :: 0 <= i < |visited| ==> visited[i] < next)
    && (forall s <- visited :: ServedOnce(tables, h, s))
    && (forall s: nat :: s < next && ServedSince(tables, h, s) ==> s in visited)
  }

  lemma VisitsOneMore(tables: seq<seq<Entry>>, h: nat, visited: seq<nat>, next: nat, found: Option<(nat, nat)>)
    requires h < |tables| && Visits(tables, h, visited, next)
    requires found.Some? && IsLowest(tables[|tables| - 1], next, found)
    ensures Visits(tables, h, visited + [found.value.0], found.value.0 + 1)
  {
    var index := found.value.0;
    assert Served(tables[|tables| - 1], index);
    assert ServedOnce(tables, h, index) && index in visited + [index];
    forall s: nat | s < index + 1 && ServedSince(tables, h, s)
      ensures s in visited + [index]
    {
      assert Served(tables[|tables| - 1], s);
    }
  }

  lemma VisitsLater(tables: seq<seq<Entry>>, h: nat, visited: seq<nat>, next: nat, table: seq<Entry>)
    requires h < |tables| && Visits(tables, h, visited, next)
    ensures Visits(tables + [table], h, visited, next)
  {
    var tables' := tables + [table];
    forall s | s in visited
      ensures ServedOnce(tables', h, s)
    {
      var t :| h <= t < |tables| && Served(tables[t], s);
      assert Served(tables'[t], s);
    }
    forall s: nat | s < next && ServedSince(tables', h, s)
      ensures s in visited
    {
      assert forall t :: h <= t < |tables| ==> tables'[t] == tables[t];
      assert ServedSince(tables, h, s);
    }
  }

  /** What else may happen to the table meanwhile. */
  datatype Change =
    | AddsBlock(node: nat, kind: Kind, parent: nat)
    | AddsOther(node: nat, kind: Kind, served: nat, parent: nat)
    | Departs(id: nat)

  // ---------- The table ----------

  class Registry {
    var entries: seq<Entry>
    var generation: nat
    ghost var history: seq<seq<Entry>>

    ghost predicate Valid()
      reads this
    {
      && BlocksNumbered(entries) && |entries| <= NO_PARENT
      && IsHistory(history) && history != [] && history[|history| - 1] == entries
    }

    constructor ()
      ensures Valid() && entries == [] && generation == 0 && history == [[]]
    {
      entries, generation, history := [], 0, [[]];
    }

    /** `push`: one entry, one generation. */
    method Push(e: Entry)
      requires Valid() && |entries| < NO_PARENT && (e.sort.Block? ==> e.served == Blocks(entries))
      modifies this
      ensures Valid() && entries == old(entries) + [e] && generation == old(generation) + 1
      ensures history == old(history) + [entries]
    {
      ghost var before := entries;
      entries := entries + [e];
      generation := generation + 1;
      assert entries[..|before|] == before;
      forall i | 0 <= i < |before| && entries[i].sort.Block?
        ensures entries[i].served == Blocks(entries[..i])
      {
        assert entries[..i] == before[..i];
      }
      HistoryGrows(history, entries);
      history := history + [entries];
    }

    /** `add_block_under`: the next block index, under whatever parent is given. */
    method AddBlockUnder(node: nat, kind: Kind, parent: nat) returns (served: nat)
      requires Valid() && |entries| < NO_PARENT
      modifies this
      ensures Valid() && entries == old(entries) + [Entry(node, Block, kind, served, parent, false, false)]
      ensures history == old(history) + [entries] && generation == old(generation) + 1
      ensures forall i :: 0 <= i < |old(entries)| && old(entries)[i].sort.Block? ==> old(entries)[i].served < served
    {
      served := 0;
      for i := 0 to |entries|
        invariant served == Blocks(entries[..i])
      {
        assert entries[..i + 1][..i] == entries[..i];
        if entries[i].sort.Block? {
          served := served + 1;
        }
      }
      assert entries[..|entries|] == entries;
      ghost var before := entries;
      Push(Entry(node, Block, kind, served, parent, false, false));
      forall i | 0 <= i < |before| && before[i].sort.Block?
        ensures before[i].served < served
      {
        BlocksServedApart(entries, i, |before|);
      }
    }

    /** `add_input`: one past every keyboard's and mouse's index so far, departed ones included. */
    method AddInput(node: nat, kind: Kind, parent: Option<nat>) returns (served: nat)
      requires Valid() && |entries| < NO_PARENT && (kind.Keyboard? || kind.Mouse?)
      modifies this
      ensures Valid() && history == old(history) + [entries] && generation == old(generation) + 1
      ensures var id := if parent.Some? then parent.value else NO_PARENT;
              entries == old(entries) + [Entry(node, Other, kind, served, id, false, false)]
      ensures forall i :: 0 <= i < |old(entries)| && IsInput(old(entries)[i]) ==> old(entries)[i].served < served
      ensures served == 0 || exists i :: 0 <= i < |old(entries)| && IsInputAt(old(entries)[i], served - 1)
    {
      served := 0;
      for i := 0 to |entries|
        invariant forall k :: 0 <= k < i && IsInput(entries[k]) ==> entries[k].served < served
        invariant served == 0 || exists k :: 0 <= k < i && IsInputAt(entries[k], served - 1)
      {
        if IsInput(entries[i]) && entries[i].served + 1 > served {
          served := entries[i].served + 1;
          assert IsInputAt(entries[i], served - 1);
        }
      }
      Push(Entry(node, Other, kind, served, if parent.Some? then parent.value else NO_PARENT, false, false));
    }

    /** `block_from`: the live block node with the lowest served index from `index` on. */
    method BlockFrom(index: nat) returns (r: Option<(nat, nat)>)
      requires Valid()
      ensures IsLowest(entries, index, r)
    {
      r := None;
      for i := 0 to |entries|
        invariant r.None? ==> forall k :: 0 <= k < i && LiveBlock(entries[k]) ==> entries[k].served < index
        invariant r.Some? ==>
                    && index <= r.value.0
                    && (exists k :: 0 <= k < i && IsBlockAt(entries[k], r.value.0, r.value.1))
                    && (forall k :: 0 <= k < i && LiveBlock(entries[k]) && index <= entries[k].served ==>
                          r.value.0 <= entries[k].served)
      {
        var e := entries[i];
        if LiveBlock(e) && index <= e.served && (r.None? || e.served < r.value.0) {
          r := Some((e.served, e.node));
          assert IsBlockAt(entries[i], e.served, e.node);
        }
      }
    }

    /** One change by someone else, while nobody holds the table. */
    method Apply(c: Change)
      requires Valid()
      modifies this
      ensures Valid() && (history == old(history) + [entries] || (history == old(history) && entries == old(entries)))
    {
      match c
      case AddsBlock(node, kind, parent) =>
        if |entries| < NO_PARENT {
          var _ := AddBlockUnder(node, kind, parent);
        }
      case AddsOther(node, kind, served, parent) =>
        if |entries| < NO_PARENT {
          Push(Entry(node, Other, kind, served, parent, false, false));
        }
      case Departs(id) =>
        var _ := Depart(id);
    }

    /** Any number of them, one after the other. */
    method ApplyAll(changes: seq<Change>, ghost h: nat, ghost visited: seq<nat>, ghost next: nat)
      requires Valid() && h < |history| && Visits(history, h, visited, next)
      modifies this
      ensures Valid() && |old(history)| <= |history| && old(history) == history[..|old(history)|]
      ensures Visits(history, h, visited, next)
    {
      for i := 0 to |changes|
        invariant Valid() && |old(history)| <= |history| && old(history) == history[..|old(history)|]
        invariant Visits(history, h, visited, next)
      {
        ghost var before := history;
        Apply(changes[i]);
        if history != before {
          VisitsLater(before, h, visited, next, entries);
        }
      }
    }

    /**
     The walk a shutdown makes, `changes[k]` all happening to the table after its `k`th call: in ascending order,
     every block that is live throughout, and none that never was.
     */
    method WalkBlocks(changes: seq<seq<Change>>) returns (visited: seq<nat>)
      requires Valid()
      modifies this
      ensures Valid() && |old(history)| <= |history| && old(history) == history[..|old(history)|]
      ensures Ascending(visited)
      ensures forall s: nat :: ServedSince(history, |old(history)| - 1, s) ==> s in visited
      ensures forall s <- visited :: ServedOnce(history, |old(history)| - 1, s)
    {
      ghost var h := |history| - 1;
      visited := [];
      var next: nat, k := 0, 0;
      var found := BlockFrom(next);
      while found.Some?
        invariant Valid() && h + 1 == |old(history)| <= |history| && old(history) == history[..h + 1]
        invariant 0 <= k <= |changes|
        invariant Visits(history, h, visited, next) && IsLowest(entries, next, found)
        decreases |changes| - k, if found.Some? then Blocks(entries) - found.value.0 else -1
      {
        var index := found.value.0;
        VisitsOneMore(history, h, visited, next, found);
        ServedBelow(entries, index);
        visited := visited + [index];
        next := index + 1;
        if k < |changes| {
          ApplyAll(changes[k], h, visited, next);
          k := k + 1;
        }
        found := BlockFrom(next);
        if found.Some? {
          ServedBelow(entries, found.value.0);
        }
      }
      assert history[|history| - 1] == entries;
    }

    /** `depart`: the node and all that is under it; one generation if anything changed. */
    method Depart(id: nat) returns (changed: bool)
      requires Valid()
      modifies this
      ensures Valid() && entries == Departed(old(entries), id) && history == old(history) + [entries]
      ensures changed == (entries != old(entries))
      ensures generation == old(generation) + if changed then 1 else 0
    {
      DepartedExtends(entries, id);
      changed := MarkUnder(id);
      if changed {
        generation := generation + 1;
      }
      HistoryGrows(history, entries);
      history := history + [entries];
    }

    /** One pass in table order: a node departs exactly if its parent just did. */
    method MarkUnder(id: nat) returns (changed: bool)
      modifies this`entries
      ensures entries == Departed(old(entries), id)
      ensures changed == (entries != old(entries))
    {
      ghost var before := entries;
      var gone: seq<nat> := [];
      changed := false;
      MarkedEnds(before, id);
      var i := id;
      while i < |entries|
        invariant id <= i && entries == MarkedTo(before, id, i) && HaveGone(before, id, i, gone)
        invariant changed == (entries != before)
        decreases |entries| - i
      {
        OneMoreMarked(before, id, i);
        OneMoreGone(before, id, i, gone);
        if i == id || entries[i].parent in gone {
          gone := gone + [i];
          changed := changed || !entries[i].departed;
          entries := entries[i := entries[i].(departed := true)];
        }
        i := i + 1;
      }
    }
  }

  /** The table once the pass has come to `i`. */
  function MarkedTo(before: seq<Entry>, id: nat, i: nat): (r: seq<Entry>)
    ensures |r| == |before|
    ensures forall k :: 0 <= k < |before| ==>
              r[k] == if k < i && Under(before, k, id) then before[k].(departed := true) else before[k]
  {
    seq(|before|, k requires 0 <= k < |before| =>
      if k < i && Under(before, k, id) then before[k].(departed := true) else before[k])
  }

  /** Nothing is marked before the node itself, and at the end all that is under it. */
  lemma MarkedEnds(before: seq<Entry>, id: nat)
    ensures MarkedTo(before, id, id) == before && HaveGone(before, id, id, [])
    ensures forall i: nat :: |before| <= i ==> MarkedTo(before, id, i) == Departed(before, id)
  {
    NothingEarlier(before, id);
  }

  /** `gone` lists the nodes the pass has marked before `i`. */
  ghost predicate HaveGone(before: seq<Entry>, id: nat, i: nat, gone: seq<nat>) {
    forall k: nat :: k in gone <==> k < i && k < |before| && Under(before, k, id)
  }

  lemma OneMoreGone(before: seq<Entry>, id: nat, i: nat, gone: seq<nat>)
    requires i < |before| && HaveGone(before, id, i, gone)
    ensures Under(before, i, id) <==> i == id || before[i].parent in gone
    ensures HaveGone(before, id, i + 1, if Under(before, i, id) then gone + [i] else gone)
  {}

  lemma OneMoreMarked(before: seq<Entry>, id: nat, i: nat)
    requires i < |before|
    ensures var (r, mark) := (MarkedTo(before, id, i), before[i].(departed := true));
            && r[i] == before[i]
            && MarkedTo(before, id, i + 1) == (if Under(before, i, id) then r[i := mark] else r)
            && (r[i := mark] != before <==> r != before || !before[i].departed)
  {
    var (r, mark) := (MarkedTo(before, id, i), before[i].(departed := true));
    assert MarkedTo(before, id, i + 1) == if Under(before, i, id) then r[i := mark] else r;
    if r != before {
      var k :| 0 <= k < |before| && r[k] != before[k];
      assert k != i && r[i := mark][k] != before[k];
    } else {
      assert r[i := mark][i] == mark;
      assert before[i].departed ==> r[i := mark] == before;
    }
  }

  lemma NothingEarlier(entries: seq<Entry>, id: nat)
    ensures forall k :: 0 <= k < |entries| && k < id ==> !Under(entries, k, id)
  {
    forall k | 0 <= k < |entries| && Under(entries, k, id)
      ensures id <= k
    {
      UnderIsLater(entries, k, id);
    }
  }

  lemma DepartedExtends(entries: seq<Entry>, id: nat)
    requires BlocksNumbered(entries)
    ensures Extends(entries, Departed(entries, id)) && BlocksNumbered(Departed(entries, id))
  {
    SameNumbers(entries, Departed(entries, id));
  }

  /** Flags do not count. */
  lemma SameNumbers(before: seq<Entry>, after: seq<Entry>)
    requires |before| == |after| && BlocksNumbered(before)
    requires forall i :: 0 <= i < |before| ==>
               after[i] == before[i].(departed := after[i].departed, boot := after[i].boot)
    ensures BlocksNumbered(after)
  {
    forall i | 0 <= i < |after| && after[i].sort.Block?
      ensures after[i].served == Blocks(after[..i])
    {
      SameClassesSameBlocks(before[..i], after[..i]);
    }
  }
}
