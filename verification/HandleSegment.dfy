/**
 The handle table's storage under its lock: the shuffled freelist threaded through a new segment
 (`kernel/src/handle/segment.rs`), the draws behind the shuffle (`kernel/src/handle/prng.rs`), and the
 ring of deferred closes (`kernel/src/handle/table.rs`).
 */
module HandleSegment {
  import opened Common

  const U32_MAX: nat := 0xFFFF_FFFF
  const FREE_NEXT_TAIL: nat := U32_MAX

  // ---------- Draws ----------

  /** One step of the generator. */
  function Xorshift(x: bv64): bv64 {
    var a := x ^ (x << 13);
    var b := a ^ (a >> 7);
    b ^ (b << 17)
  }

  lemma LeftMixes(x: bv64)
    requires x != 0
    ensures x ^ (x << 13) != 0 && x ^ (x << 17) != 0
  {}

  lemma RightMixes(x: bv64)
    requires x != 0
    ensures x ^ (x >> 7) != 0
  {}

  /** The generator never reaches the one state it could not leave. */
  lemma XorshiftStaysNonZero(x: bv64)
    requires x != 0
    ensures Xorshift(x) != 0
  {
    LeftMixes(x);
    RightMixes(x ^ (x << 13));
    LeftMixes((x ^ (x << 13)) ^ ((x ^ (x << 13)) >> 7));
  }

  /** Draws at or above this are rejected. */
  function Bound(n: nat): nat
    requires 0 < n <= U32_MAX
  {
    U32_MAX - U32_MAX % n
  }

  /**
   `gen_below` over a stream of 32-bit draws: the remainder of the first one below the bound, and how
   many were used; nothing when every draw given is rejected.
   */
  method GenBelow(draws: seq<nat>, n: nat) returns (r: Option<nat>, used: nat)
    requires 0 < n <= U32_MAX
    ensures used <= |draws|
    ensures r.Some? ==> used > 0 && draws[used - 1] < Bound(n) && r.value == draws[used - 1] % n < n
    ensures r.Some? ==> forall i :: 0 <= i < used - 1 ==> draws[i] >= Bound(n)
    ensures r.None? ==> forall i :: 0 <= i < |draws| ==> draws[i] >= Bound(n)
  {
    used := 0;
    while used < |draws|
      invariant used <= |draws| && forall i :: 0 <= i < used ==> draws[i] >= Bound(n)
    {
      var v := draws[used];
      used := used + 1;
      if v < Bound(n) {
        return Some(v % n), used;
      }
    }
    r := None;
  }

  /** The draws accepted for `r`, in order. */
  function Preimages(n: nat, r: nat): seq<nat>
    requires 0 < n <= U32_MAX && r < n
  {
    seq(Bound(n) / n, k requires 0 <= k => k * n + r)
  }

  /** Every result is hit by the same number of accepted draws, so an accepted draw is unbiased. */
  lemma EveryResultEquallyLikely(n: nat, r: nat, v: nat)
    requires 0 < n <= U32_MAX && r < n
    ensures |Preimages(n, r)| == U32_MAX / n > 0
    ensures v in Preimages(n, r) <==> v < Bound(n) && v % n == r
    ensures forall i, j :: 0 <= i < j < |Preimages(n, r)| ==> Preimages(n, r)[i] != Preimages(n, r)[j]
  {
    var q := U32_MAX / n;
    BoundIsMultiple(n);
    if v < Bound(n) && v % n == r {
      QuotientBelow(v, n, q);
      assert Preimages(n, r)[v / n] == v;
    }
    if v in Preimages(n, r) {
      var k :| 0 <= k < |Preimages(n, r)| && Preimages(n, r)[k] == v;
      MultipleBelow(k, n, r, q);
    }
    forall i, j | 0 <= i < j < |Preimages(n, r)|
      ensures Preimages(n, r)[i] != Preimages(n, r)[j]
    {
      LaterIsLarger(i, j, n);
    }
  }

  lemma BoundIsMultiple(n: nat)
    requires 0 < n <= U32_MAX
    ensures Bound(n) == (U32_MAX / n) * n && Bound(n) > 0 && Bound(n) % n == 0 && Bound(n) / n == U32_MAX / n
  {
    var q := U32_MAX / n;
    assert U32_MAX == q * n + U32_MAX % n;
    assert q >= 1;
    MultipleBelow(q, n, 0, q + 1);
  }

  lemma QuotientBelow(v: nat, n: nat, q: nat)
    requires 0 < n && v < q * n
    ensures v / n < q && v == (v / n) * n + v % n
  {
    if v / n >= q {
      LaterOrSame(q, v / n, n);
    }
  }

  lemma MultipleBelow(k: nat, n: nat, r: nat, q: nat)
    requires 0 < n && r < n && k < q
    ensures k * n + r < q * n && (k * n + r) % n == r && (k * n + r) / n == k
  {
    LaterOrSame(k + 1, q, n);
    QuotientUnique(k * n + r, n, k, r);
  }

  lemma QuotientUnique(v: nat, n: nat, k: nat, r: nat)
    requires 0 < n && r < n && v == k * n + r
    ensures v / n == k && v % n == r
  {
    var q, s := v / n, v % n;
    assert v == q * n + s;
    if q < k {
      LaterOrSame(q + 1, k, n);
    } else if k < q {
      LaterOrSame(k + 1, q, n);
    }
  }

  lemma LaterOrSame(i: nat, j: nat, n: nat)
    requires i <= j
    ensures i * n <= j * n
  {}

  lemma LaterIsLarger(i: nat, j: nat, n: nat)
    requires i < j && 0 < n
    ensures i * n < j * n
  {
    LaterOrSame(i + 1, j, n);
  }

  // ---------- The shuffle ----------

  /** `s` holds each of `0 .. |s|` exactly once. */
  predicate IsPermutation(s: seq<nat>) {
    NoDup(s) && forall i :: 0 <= i < |s| ==> s[i] < |s|
  }

  function Swap(s: seq<nat>, i: nat, j: nat): seq<nat>
    requires i < |s| && j < |s|
  {
    s[i := s[j]][j := s[i]]
  }

  /** The draw for place `i` is at most `i`. */
  predicate Draws(js: seq<nat>) {
    forall i :: 0 <= i < |js| ==> js[i] <= i
  }

  /** Places `k` down to 1 exchanged each with the place drawn for it. */
  function Shuffled(s: seq<nat>, k: nat, js: seq<nat>): (r: seq<nat>)
    requires k < |s| && k < |js| && Draws(js)
    ensures |r| == |s|
    decreases k
  {
    if k == 0 then s else Shuffled(Swap(s, k, js[k]), k - 1, js)
  }

  lemma SwapKeepsPermutation(s: seq<nat>, i: nat, j: nat)
    requires i < |s| && j < |s| && IsPermutation(s)
    ensures IsPermutation(Swap(s, i, j))
  {}

  lemma {:induction false} ShuffledIsPermutation(s: seq<nat>, k: nat, js: seq<nat>)
    requires k < |s| && k < |js| && Draws(js) && IsPermutation(s)
    ensures IsPermutation(Shuffled(s, k, js))
    decreases k
  {
    if k > 0 {
      SwapKeepsPermutation(s, k, js[k]);
      ShuffledIsPermutation(Swap(s, k, js[k]), k - 1, js);
    }
  }

  function Identity(n: nat): (s: seq<nat>)
    ensures |s| == n
  {
    seq(n, i => i)
  }

  /** `try_alloc_initialised`'s shuffle, on the scratch array of slot indices. */
  method Shuffle(perm: array<nat>, js: seq<nat>)
    requires 0 < perm.Length == |js| && Draws(js)
    modifies perm
    ensures perm[..] == Shuffled(Identity(perm.Length), perm.Length - 1, js)
    ensures IsPermutation(perm[..])
  {
    var n := perm.Length;
    for k := 0 to n
      invariant forall i :: 0 <= i < k ==> perm[i] == i
    {
      perm[k] := k;
    }
    assert perm[..] == Identity(n);
    ShuffledIsPermutation(Identity(n), n - 1, js);
    var i := n - 1;
    while i > 0
      invariant 0 <= i < n
      invariant Shuffled(perm[..], i, js) == Shuffled(Identity(n), n - 1, js)
    {
      var j := js[i];
      ghost var before := perm[..];
      perm[i], perm[j] := perm[j], perm[i];
      assert perm[..] == Swap(before, i, j);
      i := i - 1;
    }
  }

  /** What is left alone by the places still to come is final. */
  lemma {:induction false} ShuffledAbove(s: seq<nat>, k: nat, js: seq<nat>, i: nat)
    requires k < |s| && k < |js| && Draws(js) && k < i < |s|
    ensures Shuffled(s, k, js)[i] == s[i]
    decreases k
  {
    if k > 0 {
      ShuffledAbove(Swap(s, k, js[k]), k - 1, js, i);
    }
  }

  /**
   Different draws give different orders. There are as many ways to draw as there are orders, so each
   order comes from exactly one, and uniform draws make a uniform shuffle.
   */
  lemma {:induction false} ShuffleIsInjective(s: seq<nat>, k: nat, js: seq<nat>, ks: seq<nat>)
    requires NoDup(s) && k < |s| && k < |js| && k < |ks| && Draws(js) && Draws(ks)
    requires Shuffled(s, k, js) == Shuffled(s, k, ks)
    ensures forall i :: 1 <= i <= k ==> js[i] == ks[i]
    decreases k
  {
    if k > 0 {
      var (a, b) := (Swap(s, k, js[k]), Swap(s, k, ks[k]));
      ShuffledAbove(a, k - 1, js, k);
      ShuffledAbove(b, k - 1, ks, k);
      assert s[js[k]] == s[ks[k]];
      ShuffleIsInjective(a, k - 1, js, ks);
    }
  }

  // ---------- The freelist ----------

  /** One segment's `free_next` links and its `SegmentMeta`. `chain` is the free slots in list order. */
  class Segment {
    const freeNext: array<nat>
    var freeHead: nat
    var freeCount: nat
    ghost var chain: seq<nat>

    /** The links from the head visit each free slot once and end at the tail mark after `freeCount` of them. */
    ghost predicate Valid()
      reads this, freeNext
    {
      && freeNext.Length <= FREE_NEXT_TAIL
      && |chain| == freeCount
      && NoDup(chain)
      && (forall i :: 0 <= i < |chain| ==> chain[i] < freeNext.Length)
      && freeHead == (if chain == [] then FREE_NEXT_TAIL else chain[0])
      && (forall i :: 0 <= i < |chain| - 1 ==> freeNext[chain[i]] == chain[i + 1])
      && (chain != [] ==> freeNext[chain[|chain| - 1]] == FREE_NEXT_TAIL)
    }

    /** A new segment: every slot free, in the shuffled order. */
    constructor (len: nat, js: seq<nat>)
      requires 0 < len == |js| && len <= FREE_NEXT_TAIL && Draws(js)
      ensures Valid() && fresh(freeNext) && freeNext.Length == len
      ensures chain == Shuffled(Identity(len), len - 1, js) && IsPermutation(chain)
    {
      var perm := new nat[len](_ => 0);
      Shuffle(perm, js);
      freeNext := new nat[len](_ => 0);
      freeHead := perm[0];
      freeCount := len;
      chain := perm[..];
      new;
      Thread(freeNext, perm);
    }

    /** Each place of `perm` linked to the next. */
    static method Thread(links: array<nat>, perm: array<nat>)
      requires links != perm && 0 < links.Length == perm.Length && IsPermutation(perm[..])
      modifies links
      ensures forall i :: 0 <= i < perm.Length - 1 ==> links[perm[i]] == perm[i + 1]
      ensures links[perm[perm.Length - 1]] == FREE_NEXT_TAIL
    {
      var k := 0;
      while k < perm.Length - 1
        invariant 0 <= k <= perm.Length - 1
        invariant forall i :: 0 <= i < k ==> links[perm[i]] == perm[i + 1]
      {
        assert forall i :: 0 <= i < k ==> perm[..][i] != perm[..][k];
        links[perm[k]] := perm[k + 1];
        k := k + 1;
      }
      assert forall i :: 0 <= i < k ==> perm[..][i] != perm[..][k];
      links[perm[perm.Length - 1]] := FREE_NEXT_TAIL;
    }

    /** `allocate` takes the head, if any is free. */
    method Pop() returns (slot: Option<nat>)
      requires Valid()
      modifies this
      ensures Valid()
      ensures old(chain) == [] ==> slot.None? && chain == []
      ensures old(chain) != [] ==> slot == Some(old(chain)[0]) && chain == old(chain)[1..]
    {
      if freeCount == 0 {
        return None;
      }
      slot := Some(freeHead);
      freeHead := freeNext[freeHead];
      freeCount := freeCount - 1;
      chain := chain[1..];
    }

    /** `drain_expired` puts a slot back at the head. */
    method Push(slot: nat)
      requires Valid() && slot < freeNext.Length && slot !in chain
      modifies this, freeNext
      ensures Valid() && chain == [slot] + old(chain)
    {
      freeNext[slot] := freeHead;
      freeHead := slot;
      freeCount := freeCount + 1;
      chain := [slot] + chain;
    }
  }

  // ---------- The deferred ring ----------

  /** The place of the `i`th entry of a ring that starts at `head`. */
  function Pos(head: nat, i: nat): (p: nat)
    ensures p < DEFER_RING_CAPACITY
  {
    (head + i) % DEFER_RING_CAPACITY
  }

  /** One place on round the ring. */
  lemma PosMoves(head: nat, i: nat)
    requires head < DEFER_RING_CAPACITY && i + 1 < DEFER_RING_CAPACITY
    ensures Pos((head + 1) % DEFER_RING_CAPACITY, i) == Pos(head, i + 1) != head
  {}

  datatype Deferred = Deferred(handle: nat, epoch: nat)

  /** `DeferredQueue`: a fixed ring of optional entries. */
  class DeferredQueue {
    const buf: array<Option<Deferred>>
    var head: nat
    var len: nat

    ghost predicate Valid()
      reads this, buf
    {
      && buf.Length == DEFER_RING_CAPACITY && head < DEFER_RING_CAPACITY && len <= DEFER_RING_CAPACITY
      && forall i: nat :: i < len ==> buf[Pos(head, i)].Some?
    }

    /** The closes waiting, oldest first. */
    ghost function Contents(): seq<Deferred>
      requires Valid()
      reads this, buf
    {
      seq(len, i requires 0 <= i < len reads this, buf requires Valid() => buf[Pos(head, i)].value)
    }

    constructor ()
      ensures Valid() && Contents() == [] && fresh(buf)
    {
      buf := new Option<Deferred>[DEFER_RING_CAPACITY](_ => None);
      head, len := 0, 0;
    }

    method Push(d: Deferred) returns (ok: bool)
      requires Valid()
      modifies this, buf
      ensures Valid() && ok == (|old(Contents())| < DEFER_RING_CAPACITY)
      ensures Contents() == if ok then old(Contents()) + [d] else old(Contents())
    {
      if len == DEFER_RING_CAPACITY {
        return false;
      }
      var pos := (head + len) % DEFER_RING_CAPACITY;
      assert forall i: nat :: i < len ==> Pos(head, i) != pos;
      buf[pos] := Some(d);
      len := len + 1;
      ok := true;
    }

    method Front() returns (d: Option<Deferred>)
      requires Valid()
      ensures d == if Contents() == [] then None else Some(Contents()[0])
    {
      if len == 0 {
        return None;
      }
      d := buf[head];
      assert Pos(head, 0) == head;
    }

    method PopFront() returns (d: Option<Deferred>)
      requires Valid()
      modifies this, buf
      ensures Valid()
      ensures old(Contents()) == [] ==> d.None? && Contents() == []
      ensures old(Contents()) != [] ==> d == Some(old(Contents())[0]) && Contents() == old(Contents())[1..]
    {
      if len == 0 {
        return None;
      }
      d := buf[head];
      assert Pos(head, 0) == head;
      ghost var (before, head0) := (Contents(), head);
      buf[head] := None;
      head := (head + 1) % DEFER_RING_CAPACITY;
      len := len - 1;
      forall i: nat | i < len
        ensures buf[Pos(head, i)] == Some(before[i + 1])
      {
        PosMoves(head0, i);
      }
    }
  }
}
