/**
 The linked wait queue behind the page lock: server procs chained through `next`, with head
 and tail pointers, as vsm_enqueue_proc and vsm_process_wq_core handle it.
 */
module WaitQueue {

  class ServerProc {
    const request: nat
    var next: ServerProc?

    constructor (request: nat)
      ensures this.request == request && next == null
    {
      this.request := request;
      next := null;
    }
  }

  /** `procs` are linked in this order, the last to nothing, starting at `head`. */
  ghost predicate Linked(head: ServerProc?, procs: seq<ServerProc>)
    reads procs
  {
    && (head == if procs == [] then null else procs[0])
    && (forall k {:trigger procs[k].next} :: 0 <= k < |procs| ==>
          procs[k].next == if k + 1 < |procs| then procs[k + 1] else null)
    && (forall j, k :: 0 <= j < k < |procs| ==> procs[j] != procs[k])
  }

  function Requests(procs: seq<ServerProc>): (r: seq<nat>)
    ensures |r| == |procs| && forall k :: 0 <= k < |r| ==> r[k] == procs[k].request
  {
    seq(|procs|, k requires 0 <= k < |procs| => procs[k].request)
  }

  class Queue {
    var head: ServerProc?
    var tail: ServerProc?
    ghost var procs: seq<ServerProc>

    ghost predicate Valid()
      reads this, procs
    {
      && Linked(head, procs)
      && (tail == if procs == [] then null else procs[|procs| - 1])
    }

    constructor ()
      ensures Valid() && procs == []
    {
      head, tail, procs := null, null, [];
    }

    method Enqueue(p: ServerProc)
      requires Valid() && p.next == null && p !in procs
      modifies this, procs
      ensures Valid() && procs == old(procs) + [p]
    {
      if head == null {
        head := p;
      }
      if tail != null {
        tail.next := p;
      }
      tail := p;
      procs := procs + [p];
    }

    /** Detach the whole queue for the drain loop. */
    method TakeAll() returns (batch: ServerProc?, ghost taken: seq<ServerProc>)
      requires Valid()
      modifies this
      ensures Valid() && procs == [] && taken == old(procs) && Linked(batch, taken)
    {
      batch, taken := head, procs;
      head, tail, procs := null, null, [];
    }
  }

  /** The drain loop: every proc of the batch, once, in queue order. */
  method Drain(batch: ServerProc?, ghost procs: seq<ServerProc>) returns (served: seq<nat>)
    requires Linked(batch, procs)
    ensures served == Requests(procs)
  {
    served := [];
    var p := batch;
    ghost var k := 0;
    while p != null
      invariant 0 <= k <= |procs| && p == (if k < |procs| then procs[k] else null)
      invariant served == Requests(procs)[..k]
      decreases |procs| - k
    {
      served := served + [p.request];
      p := p.next;
      k := k + 1;
    }
  }
}
