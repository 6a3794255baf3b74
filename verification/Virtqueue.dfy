/**
 The driver side of the split virtqueue of drivers/virtio/virtq.c, and a device that may finish the
 chains it was given in any order.
 */
module Virtqueue {
  import opened Wrappers
  import opened VirtqRing
  import opened VirtqTable
  import opened Counting

  datatype Used = Used(id: nat, len: nat)

  /** `heads` are different chains in flight. */
  ghost predicate Outstanding(heads: seq<nat>, flight: map<nat, Chain>) {
    Distinct(heads) && forall h :: h in heads ==> h in flight && h < NUM
  }

  ghost predicate Different(a: object, b: object, c: object, d: object) {
    a != b && a != c && a != d && b != c && b != d && c != d
  }

  /** A chain is waiting for the device, or finished and waiting for the driver, but not both. */
  ghost predicate Heads(offered: seq<nat>, done: seq<nat>, flight: map<nat, Chain>) {
    && Outstanding(offered, flight) && Outstanding(done, flight)
    && forall h :: h in done ==> h !in offered
  }

  /** There is always a slot for one more chain. */
  lemma RoomForHead(heads: seq<nat>, flight: map<nat, Chain>, head: nat)
    requires Outstanding(heads, flight) && head < NUM && head !in heads
    ensures |heads| < NUM
  {
    DistinctAppend(heads, head);
    Pigeonhole(heads + [head], NUM);
  }

  lemma HeadOffered(offered: seq<nat>, done: seq<nat>, flight: map<nat, Chain>, head: nat, c: Chain)
    requires Heads(offered, done, flight) && head < NUM && head !in flight
    ensures Heads(offered + [head], done, flight[head := c]) && |offered| < NUM
  {
    assert head !in offered;
    DistinctAppend(offered, head);
    RoomForHead(offered, flight, head);
  }

  lemma HeadTaken(offered: seq<nat>, done: seq<nat>, flight: map<nat, Chain>)
    requires Heads(offered, done, flight) && offered != []
    ensures offered[0] in flight && Heads(offered[1..], done, flight)
  {
    assert offered[0] in offered && forall h :: h in offered[1..] ==> h in offered;
  }

  lemma HeadDone(offered: seq<nat>, done: seq<nat>, flight: map<nat, Chain>, head: nat)
    requires Heads(offered, done, flight) && head < NUM && head in flight && head !in offered && head !in done
    ensures Heads(offered, done + [head], flight) && |done| < NUM
  {
    DistinctAppend(done, head);
    RoomForHead(done, flight, head);
  }

  lemma HeadRetired(offered: seq<nat>, done: seq<nat>, flight: map<nat, Chain>)
    requires Heads(offered, done, flight) && done != []
    ensures Heads(offered, done[1..], flight - {done[0]})
  {
    assert done[0] in done && done[0] !in done[1..] && forall h :: h in done[1..] ==> h in done;
  }

  function Ids(used: seq<Used>): (r: seq<nat>)
    ensures |r| == |used| && forall k :: 0 <= k < |r| ==> r[k] == used[k].id
  {
    seq(|used|, k requires 0 <= k < |used| => used[k].id)
  }

  /** What virtq_enqueue does: it returns, panics for want of descriptors, or stores at index 0xffff. */
  datatype EnqueueResult = Enqueued | NoDescriptor | OutsideTable

  class Queue {
    const table: Table
    const avail: Ring<nat>    // chain heads, to the device
    const used: Ring<Used>    // finished chains, from the device

    ghost predicate Separate()
      reads this
    {
      && {this, table, avail, used} !! {table.desc as object, table.xdata, avail.slots, used.slots}
      && Different(table, avail, used, this) && Different(table.desc, table.xdata, avail.slots, used.slots)
    }

    ghost predicate Valid()
      reads this, table, table.desc, table.xdata, avail, avail.slots, used, used.slots
    {
      && Separate() && table.Valid() && avail.Valid() && used.Valid()
      && Heads(avail.items, Ids(used.items), table.flight)
    }

    /** virtq_create. */
    constructor ()
      ensures Valid() && table.flight == map[] && |table.free| == NUM && avail.items == [] && used.items == []
    {
      table := new Table();
      avail := new Ring(0);
      used := new Ring(Used(0, 0));
    }

    /**
     virtq_enqueue. It keeps the queue valid exactly when there is a buffer: an empty list offers the
     device a descriptor that is still on the free list, or stores outside the table.
     */
    method Enqueue(bufs: seq<Buffer>, cookie: nat, write: bool) returns (r: EnqueueResult)
      requires Valid()
      modifies table, table.desc, table.xdata, avail, avail.slots
      ensures r == Enqueued <==> |bufs| <= |old(table.free)| != 0
      ensures r == NoDescriptor <==> |bufs| > |old(table.free)|
      ensures bufs != [] ==> Valid()
      ensures bufs != [] && r == Enqueued ==> var head := old(table.free)[0];
        && head !in old(table.flight) && table.free == old(table.free)[|bufs|..]
        && table.flight == old(table.flight)[head := Chain(old(table.free)[..|bufs|], bufs, write, cookie)]
        && avail.items == old(avail.items) + [head]
      ensures r != Enqueued || bufs == [] ==> table.flight == old(table.flight) && table.free == old(table.free)
      ensures r != Enqueued ==> avail.items == old(avail.items)
      ensures bufs == [] && r == Enqueued ==> !Valid() && avail.items == old(avail.items) + [table.free[0]]
    {
      var ok, head;
      if bufs == [] {
        ok, head := table.ClaimNothing(cookie);
        if !ok {
          return OutsideTable;
        }
        RoomForHead(avail.items, table.flight, head);
        avail.Put(head);
        return Enqueued;
      }
      ok, head := table.Claim(bufs, cookie, write);
      if !ok {
        return NoDescriptor;
      }
      HeadOffered(avail.items, Ids(used.items), old(table.flight), head, table.flight[head]);
      avail.Put(head);
      r := Enqueued;
    }

    /** virtq_dequeue: the cookie of the next completed chain, and the length the device wrote. */
    method Dequeue() returns (r: Option<(nat, nat)>)
      requires Valid()
      modifies table, table.desc, table.xdata, used
      ensures Valid() && (r == None <==> old(used.items) == [])
      ensures r == None ==> unchanged(table) && used.items == []
      ensures r.Some? ==> var u := old(used.items)[0];
        && u.id in old(table.flight) && r == Some((old(table.flight)[u.id].cookie, u.len))
        && table.flight == old(table.flight) - {u.id} && table.free == old(table.flight)[u.id].descs + old(table.free)
        && used.items == old(used.items)[1..]
    {
      ghost var done := Ids(used.items);
      var some, u := used.Next();
      if !some {
        return None;
      }
      assert u.id == done[0] && Ids(used.items) == done[1..];
      HeadRetired(avail.items, done, table.flight);
      var x := table.Reclaim(u.id);
      r := Some((x, u.len));
    }

    /** The device reads the next head from the avail ring. */
    method DeviceTake() returns (some: bool, head: nat)
      requires Valid()
      modifies avail
      ensures Valid() && some == (old(avail.items) != [])
      ensures some ==> head == old(avail.items)[0] && head in table.flight && avail.items == old(avail.items)[1..]
    {
      if avail.items != [] { HeadTaken(avail.items, Ids(used.items), table.flight); }
      some, head := avail.Next();
    }

    /** The device finishes any chain it has read, in any order. */
    method DeviceComplete(head: nat, len: nat)
      requires Valid() && head in table.flight && head !in avail.items && head !in Ids(used.items)
      modifies used, used.slots
      ensures Valid() && used.items == old(used.items) + [Used(head, len)]
    {
      ghost var done := Ids(used.items);
      HeadDone(avail.items, done, table.flight, head);
      used.Put(Used(head, len));
      assert Ids(used.items) == done + [head];
    }
  }
}
