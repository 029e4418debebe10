/**
 The intrusive list of completed IRPs in memory (`kernel/src/io/irp.rs`): each IRP links to the next
 through its own `next` field, and finishing an IRP may end its life, so the walk reads the link
 first. `complete` and `finish_completed` are proved against a plain sequence.
 */
module IrpList {

  class Irp {
    var next: Irp?
    var status: int
    var transferred: nat

    constructor ()
      ensures next == null
    {
      next := null;
      status, transferred := 0, 0;
    }

    method SetCompletion(code: int, count: nat)
      modifies this`status, this`transferred
      ensures status == code && transferred == count
    {
      status, transferred := code, count;
    }

    /** `on_complete`: the IRP is its submitter's again, who may reuse or free it. */
    method OnComplete(reused: Irp?, calls: Calls)
      modifies this, calls
      ensures next == reused && calls.made == old(calls.made) + [this]
    {
      next := reused;
      calls.made := calls.made + [this];
    }
  }

  /** The `on_complete` calls made, in order. */
  class Calls {
    var made: seq<Irp>

    constructor ()
      ensures made == []
    {
      made := [];
    }
  }

  /** `chain` is the IRPs reached from `head`, in order, and nothing follows the last. */
  ghost predicate Linked(head: Irp?, chain: seq<Irp>)
    reads chain
  {
    && (forall i, j :: 0 <= i < j < |chain| ==> chain[i] != chain[j])
    && (if chain == [] then head == null else head == chain[0] && chain[|chain| - 1].next == null)
    && (forall i :: 0 <= i < |chain| - 1 ==> chain[i].next == chain[i + 1])
  }

  class Done {
    var head: Irp?
    var tail: Irp?
    ghost var list: seq<Irp>

    ghost predicate Valid()
      reads this, list
    {
      Linked(head, list) && tail == if list == [] then null else list[|list| - 1]
    }

    constructor ()
      ensures Valid() && list == []
    {
      head, tail, list := null, null, [];
    }

    /** `complete`: the IRP goes to the end of the list, with its result. */
    method Complete(irp: Irp, code: int, count: nat)
      requires Valid() && irp !in list
      modifies this, irp, list
      ensures Valid() && list == old(list) + [irp]
      ensures irp.status == code && irp.transferred == count
      ensures forall i <- old(list) :: i.status == old(i.status) && i.transferred == old(i.transferred)
    {
      irp.SetCompletion(code, count);
      irp.next := null;
      if tail == null {
        head := irp;
      } else {
        tail.next := irp;
      }
      tail := irp;
      list := list + [irp];
    }

    /**
     `finish_completed`: every IRP that was on the list is handed back once, first to last, whatever
     its submitter then does with it. `reuse` is what each submitter leaves in its link.
     */
    method Finish(reuse: Irp -> Irp?, calls: Calls)
      requires Valid()
      modifies this, list, calls
      ensures Valid() && list == [] && calls.made == old(calls.made) + old(list)
      ensures forall i <- old(list) :: i.next == reuse(i)
    {
      ghost var (chain, before, n) := (list, calls.made, 0);
      var irp := head;
      head, tail := null, null;
      list := [];
      while irp != null
        invariant Valid() && list == []
        invariant 0 <= n <= |chain| && calls.made == before + chain[..n]
        invariant forall i, j :: 0 <= i < j < |chain| ==> chain[i] != chain[j]
        invariant irp == if n == |chain| then null else chain[n]
        invariant forall i :: 0 <= i < n ==> chain[i].next == reuse(chain[i])
        invariant forall i :: n <= i < |chain| - 1 ==> chain[i].next == chain[i + 1]
        invariant n < |chain| ==> chain[|chain| - 1].next == null
        decreases |chain| - n
      {
        var next := irp.next;
        irp.OnComplete(reuse(irp), calls);
        n := n + 1;
        irp := next;
      }
    }
  }
}
