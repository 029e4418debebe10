/**
 What several of the models share.
 */
module Common {

  datatype Option<T> = None | Some(value: T)

  type Byte = b: nat | b < 256

  /** How many generations a slot of the handle table goes through before they wrap. */
  const GENERATIONS := 0x8000_0000

  /** How many closes the handle table defers at a time. */
  const DEFER_RING_CAPACITY := 256

  function Min(a: nat, b: nat): nat {
    if a < b then a else b
  }

  function Max(a: nat, b: nat): nat {
    if a < b then b else a
  }

  predicate NoDup(q: seq<nat>) {
    forall i, j :: 0 <= i < j < |q| ==> q[i] != q[j]
  }

  lemma PopFacts(q: seq<nat>)
    requires NoDup(q) && q != []
    ensures NoDup(q[1..]) && q[0] !in q[1..]
    ensures forall y :: y != q[0] ==> (y in q[1..] <==> y in q)
  {
    assert q == [q[0]] + q[1..];
  }

  lemma Associates<T>(a: seq<T>, b: seq<T>, c: seq<T>)
    ensures a + (b + c) == (a + b) + c
  {}

  /** What the agents numbered below `n` come to, each at the rank of where it is. */
  function Total<Pc>(agents: map<nat, Pc>, rank: Pc -> nat, n: nat): nat {
    if n == 0 then 0 else Total(agents, rank, n - 1) + if n - 1 in agents then rank(agents[n - 1]) else 0
  }

  lemma {:induction false} TotalUpdate<Pc>(agents: map<nat, Pc>, rank: Pc -> nat, a: nat, pc: Pc, n: nat)
    requires a in agents && a < n
    ensures Total(agents[a := pc], rank, n) + rank(agents[a]) == Total(agents, rank, n) + rank(pc)
  {
    if a == n - 1 {
      TotalSame(agents, rank, a, pc, n - 1);
    } else {
      TotalUpdate(agents, rank, a, pc, n - 1);
    }
  }

  lemma {:induction false} TotalSame<Pc>(agents: map<nat, Pc>, rank: Pc -> nat, a: nat, pc: Pc, n: nat)
    requires n <= a
    ensures Total(agents[a := pc], rank, n) == Total(agents, rank, n)
  {
    if n > 0 {
      TotalSame(agents, rank, a, pc, n - 1);
    }
  }
}
