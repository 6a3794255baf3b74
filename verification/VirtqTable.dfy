/**
 The descriptor table of a split virtqueue (drivers/virtio/virtq.c; section 2.6 of VIRTIO 1.1): one
 array that holds both the free list and the chains given to the device.
 */
module VirtqTable {
  import opened Wrappers
  import opened VirtqRing

  const NONE := 0xffff

  /** One buffer of a request. */
  datatype Buffer = Buffer(addr: nat, len: nat)

  datatype Desc = Desc(buf: Buffer, hasNext: bool, write: bool, next: nat)

  /** A chain given to the device: its descriptors in order, and what it was enqueued with. */
  datatype Chain = Chain(descs: seq<nat>, bufs: seq<Buffer>, write: bool, cookie: nat)

  /** Who has a descriptor, and at which position. */
  datatype Owner = Free(pos: nat) | InFlight(head: nat, pos: nat)

  /** The free list threaded through `next`, starting at `head`. */
  ghost predicate FreeList(d: seq<Desc>, free: seq<nat>, head: nat) {
    |d| == NUM && head == At(free, 0) && forall k :: 0 <= k < |free| ==> Link(d, free, k)
  }

  ghost predicate Link(d: seq<Desc>, free: seq<nat>, k: nat) {
    k < |free| && free[k] < |d| && d[free[k]].next == At(free, k + 1)
  }

  function At(free: seq<nat>, k: nat): nat {
    if k < |free| then free[k] else NONE
  }

  /** The device sees exactly the chain that was enqueued. */
  ghost predicate Intact(d: seq<Desc>, c: Chain) {
    && |d| == NUM && |c.descs| == |c.bufs| > 0
    && forall k :: 0 <= k < |c.descs| ==> Entry(d, c, k)
  }

  ghost predicate Entry(d: seq<Desc>, c: Chain, k: nat) {
    && k < |c.descs| == |c.bufs| && c.descs[k] < |d|
    && var e := d[c.descs[k]];
    && e.buf == c.bufs[k] && e.write == c.write && e.hasNext == (k + 1 < |c.descs|)
    && (k + 1 < |c.descs| ==> e.next == c.descs[k + 1])
  }

  /** Every descriptor is in the free list or in one chain, at one position. */
  ghost predicate Partition(owner: seq<Owner>, free: seq<nat>, flight: map<nat, Chain>) {
    FreeOwned(owner, free) && FlightOwned(owner, flight) && AllPlaced(owner, free, flight)
  }

  ghost predicate FreeOwned(owner: seq<Owner>, free: seq<nat>) {
    |owner| == NUM && forall k :: 0 <= k < |free| ==> FreeAt(owner, free, k)
  }

  ghost predicate FreeAt(owner: seq<Owner>, free: seq<nat>, k: nat) {
    k < |free| && free[k] < |owner| && owner[free[k]] == Free(k)
  }

  ghost predicate FlightOwned(owner: seq<Owner>, flight: map<nat, Chain>) {
    |owner| == NUM && forall h :: h in flight ==> ChainOwned(owner, h, flight[h].descs)
  }

  /** Chain `descs`, known by its first descriptor `h`. */
  ghost predicate ChainOwned(owner: seq<Owner>, h: nat, descs: seq<nat>)
    requires |owner| == NUM
  {
    && |descs| > 0 && descs[0] == h
    && forall k :: 0 <= k < |descs| ==> descs[k] < NUM && owner[descs[k]] == InFlight(h, k)
  }

  ghost predicate AllPlaced(owner: seq<Owner>, free: seq<nat>, flight: map<nat, Chain>) {
    |owner| == NUM && forall i :: 0 <= i < NUM ==> Placed(owner, free, flight, i)
  }

  ghost predicate Placed(owner: seq<Owner>, free: seq<nat>, flight: map<nat, Chain>, i: nat)
    requires i < |owner|
  {
    match owner[i]
    case Free(k) => k < |free| && free[k] == i
    case InFlight(h, k) => h in flight && k < |flight[h].descs| && flight[h].descs[k] == i
  }

  /** Read without the owner map: a descriptor is free, or in exactly one chain in flight. */
  lemma EachDescriptorOnce(owner: seq<Owner>, free: seq<nat>, flight: map<nat, Chain>, i: nat)
    requires Partition(owner, free, flight) && i < NUM
    ensures i in free <==> !exists h :: h in flight && i in flight[h].descs
    ensures forall g, h :: g in flight && h in flight && i in flight[g].descs && i in flight[h].descs ==> g == h
    ensures forall j, k :: 0 <= j < |free| && 0 <= k < |free| && free[j] == free[k] ==> j == k
  {
    assert Placed(owner, free, flight, i);
    if i in free {
      var k :| 0 <= k < |free| && free[k] == i;
      assert FreeAt(owner, free, k);
    }
    forall h | h in flight && i in flight[h].descs ensures owner[i].InFlight? && owner[i].head == h {
      assert ChainOwned(owner, h, flight[h].descs);
    }
    forall j, k | 0 <= j < |free| && 0 <= k < |free| && free[j] == free[k] ensures j == k {
      assert FreeAt(owner, free, j) && FreeAt(owner, free, k);
    }
  }

  function OwnersAfterEnqueue(owner: seq<Owner>, n: nat, head: nat): (r: seq<Owner>)
    ensures |r| == |owner| && forall i :: 0 <= i < |r| ==> r[i] == GivenAway(owner[i], n, head)
  {
    seq(|owner|, i requires 0 <= i < |owner| => GivenAway(owner[i], n, head))
  }

  function GivenAway(o: Owner, n: nat, head: nat): Owner {
    match o
    case Free(k) => if k < n then InFlight(head, k) else Free(k - n)
    case InFlight(_, _) => o
  }

  lemma HeadIsNew(owner: seq<Owner>, free: seq<nat>, flight: map<nat, Chain>)
    requires Partition(owner, free, flight) && |free| > 0
    ensures free[0] !in flight
  {
    assert FreeAt(owner, free, 0);
  }

  lemma EnqueueFree(owner: seq<Owner>, free: seq<nat>, n: nat, head: nat)
    requires FreeOwned(owner, free) && n <= |free|
    ensures FreeOwned(OwnersAfterEnqueue(owner, n, head), free[n..])
  {
    forall k | 0 <= k < |free| - n ensures FreeAt(OwnersAfterEnqueue(owner, n, head), free[n..], k) {
      assert FreeAt(owner, free, n + k);
    }
  }

  lemma EnqueueFlight(owner: seq<Owner>, free: seq<nat>, flight: map<nat, Chain>, c: Chain)
    requires FreeOwned(owner, free) && FlightOwned(owner, flight) && free != [] && free[0] !in flight
    requires 0 < |c.descs| <= |free| && forall k :: 0 <= k < |c.descs| ==> c.descs[k] == free[k]
    ensures FlightOwned(OwnersAfterEnqueue(owner, |c.descs|, free[0]), flight[free[0] := c])
  {
    var owner', flight' := OwnersAfterEnqueue(owner, |c.descs|, free[0]), flight[free[0] := c];
    forall h | h in flight' ensures ChainOwned(owner', h, flight'[h].descs) {
      if h != free[0] {
        assert ChainOwned(owner, h, flight[h].descs);
      } else {
        forall k | 0 <= k < |c.descs| ensures c.descs[k] < NUM && owner'[c.descs[k]] == InFlight(h, k) {
          assert FreeAt(owner, free, k);
        }
      }
    }
  }

  lemma EnqueuePlaced(owner: seq<Owner>, free: seq<nat>, flight: map<nat, Chain>, c: Chain)
    requires AllPlaced(owner, free, flight) && free != [] && free[0] !in flight
    requires 0 < |c.descs| <= |free| && forall k :: 0 <= k < |c.descs| ==> c.descs[k] == free[k]
    ensures AllPlaced(OwnersAfterEnqueue(owner, |c.descs|, free[0]), free[|c.descs|..], flight[free[0] := c])
  {
    var n, head := |c.descs|, free[0];
    var owner', free', flight' := OwnersAfterEnqueue(owner, n, head), free[n..], flight[head := c];
    forall i | 0 <= i < NUM ensures Placed(owner', free', flight', i) {
      assert Placed(owner, free, flight, i);
    }
  }

  lemma EnqueuePartition(owner: seq<Owner>, free: seq<nat>, flight: map<nat, Chain>, c: Chain)
    requires Partition(owner, free, flight)
    requires 0 < |c.descs| <= |free| && forall k :: 0 <= k < |c.descs| ==> c.descs[k] == free[k]
    ensures Partition(OwnersAfterEnqueue(owner, |c.descs|, free[0]), free[|c.descs|..], flight[free[0] := c])
  {
    HeadIsNew(owner, free, flight);
    EnqueueFree(owner, free, |c.descs|, free[0]);
    EnqueueFlight(owner, free, flight, c);
    EnqueuePlaced(owner, free, flight, c);
  }

  function OwnersAfterRelease(owner: seq<Owner>, n: nat, head: nat): (r: seq<Owner>)
    ensures |r| == |owner| && forall i :: 0 <= i < |r| ==> r[i] == TakenBack(owner[i], n, head)
  {
    seq(|owner|, i requires 0 <= i < |owner| => TakenBack(owner[i], n, head))
  }

  function TakenBack(o: Owner, n: nat, head: nat): Owner {
    match o
    case Free(k) => Free(k + n)
    case InFlight(h, k) => if h == head then Free(k) else o
  }

  lemma ReleaseFree(owner: seq<Owner>, free: seq<nat>, head: nat, descs: seq<nat>)
    requires FreeOwned(owner, free) && ChainOwned(owner, head, descs)
    ensures FreeOwned(OwnersAfterRelease(owner, |descs|, head), descs + free)
  {
    var owner', free' := OwnersAfterRelease(owner, |descs|, head), descs + free;
    forall k | 0 <= k < |free'| ensures FreeAt(owner', free', k) {
      if k < |descs| {
        assert free'[k] == descs[k] && owner[descs[k]] == InFlight(head, k);
      } else {
        assert free'[k] == free[k - |descs|] && FreeAt(owner, free, k - |descs|);
      }
    }
  }

  lemma ReleaseFlight(owner: seq<Owner>, flight: map<nat, Chain>, head: nat, n: nat)
    requires FlightOwned(owner, flight)
    ensures FlightOwned(OwnersAfterRelease(owner, n, head), flight - {head})
  {
    forall h | h in flight && h != head ensures ChainOwned(OwnersAfterRelease(owner, n, head), h, flight[h].descs) {
      assert ChainOwned(owner, h, flight[h].descs);
    }
  }

  lemma ReleasePlaced(owner: seq<Owner>, free: seq<nat>, flight: map<nat, Chain>, head: nat)
    requires AllPlaced(owner, free, flight) && head in flight
    ensures AllPlaced(OwnersAfterRelease(owner, |flight[head].descs|, head), flight[head].descs + free, flight - {head})
  {
    var n := |flight[head].descs|;
    forall i | 0 <= i < NUM
      ensures Placed(OwnersAfterRelease(owner, n, head), flight[head].descs + free, flight - {head}, i) {
      assert Placed(owner, free, flight, i);
    }
  }

  lemma ReleasePartition(owner: seq<Owner>, free: seq<nat>, flight: map<nat, Chain>, head: nat)
    requires Partition(owner, free, flight) && head in flight
    ensures Partition(OwnersAfterRelease(owner, |flight[head].descs|, head), flight[head].descs + free, flight - {head})
  {
    assert ChainOwned(owner, head, flight[head].descs);
    ReleaseFree(owner, free, head, flight[head].descs);
    ReleaseFlight(owner, flight, head, |flight[head].descs|);
    ReleasePlaced(owner, free, flight, head);
  }

  // ----- descriptors -----

  ghost predicate Descriptors(d: seq<Desc>, head: nat, free: seq<nat>, flight: map<nat, Chain>, owner: seq<Owner>) {
    && FreeList(d, free, head)
    && (forall h :: h in flight ==> Intact(d, flight[h]))
    && Partition(owner, free, flight)
  }

  /** The enqueue loop has written the first `n` free descriptors and followed their links. */
  ghost predicate Written(d: seq<Desc>, d': seq<Desc>, free: seq<nat>, bufs: seq<Buffer>, write: bool, n: nat) {
    && |d'| == |d| == NUM && n <= |bufs| && n <= |free|
    && (forall i :: 0 <= i < NUM ==> d'[i].next == d[i].next)
    && (forall i :: 0 <= i < NUM && i !in free[..n] ==> d'[i] == d[i])
    && (forall k :: 0 <= k < n ==>
      free[k] < NUM && d'[free[k]] == Desc(bufs[k], k + 1 < |bufs|, write, d[free[k]].next))
  }

  lemma InitialDescriptors(d: seq<Desc>, free: seq<nat>, owner: seq<Owner>)
    requires |d| == |free| == |owner| == NUM
    requires forall i :: 0 <= i < NUM ==> d[i].next == if i < NUM - 1 then i + 1 else NONE
    requires forall i :: 0 <= i < NUM ==> free[i] == i && owner[i] == Free(i)
    ensures Descriptors(d, 0, free, map[], owner)
  {
    forall i | 0 <= i < NUM ensures Link(d, free, i) && FreeAt(owner, free, i) && Placed(owner, free, map[], i) {
    }
  }

  lemma WriteOne(d: seq<Desc>, d': seq<Desc>, free: seq<nat>, owner: seq<Owner>, bufs: seq<Buffer>, write: bool, n: nat)
    requires FreeOwned(owner, free) && Written(d, d', free, bufs, write, n) && n < |bufs| && n < |free|
    ensures free[n] < NUM && d'[free[n]].next == d[free[n]].next
    ensures Written(d, d'[free[n] := Desc(bufs[n], n + 1 < |bufs|, write, d'[free[n]].next)], free, bufs, write, n + 1)
  {
    assert FreeAt(owner, free, n);
    assert free[..n + 1] == free[..n] + [free[n]];
    forall k | 0 <= k < n ensures free[k] != free[n] { assert FreeAt(owner, free, k); }
  }

  lemma EnqueueDescriptors(d: seq<Desc>, head: nat, free: seq<nat>, flight: map<nat, Chain>, owner: seq<Owner>,
                           d': seq<Desc>, c: Chain)
    requires Descriptors(d, head, free, flight, owner) && 0 < |c.descs| <= |free| && |c.bufs| == |c.descs|
    requires c.descs == free[..|c.descs|] && Written(d, d', free, c.bufs, c.write, |c.descs|)
    ensures Descriptors(d', At(free, |c.descs|), free[|c.descs|..], flight[head := c],
      OwnersAfterEnqueue(owner, |c.descs|, head))
  {
    var n := |c.descs|;
    EnqueuePartition(owner, free, flight, c);
    forall k | 0 <= k < n ensures Entry(d', c, k) {
      assert c.descs[k] == free[k] && Link(d, free, k);
      if k + 1 < n { assert c.descs[k + 1] == free[k + 1]; }
    }
    LinksKept(d, free, d', n);
    forall h | h in flight ensures Intact(d', flight[h]) {
      KeepsIntact(d, free, flight, owner, d', c.bufs, c.write, n, h);
    }
  }

  lemma LinksKept(d: seq<Desc>, free: seq<nat>, d': seq<Desc>, n: nat)
    requires |d| == |d'| == NUM && n <= |free| && FreeList(d, free, At(free, 0))
    requires forall i :: 0 <= i < NUM ==> d'[i].next == d[i].next
    ensures FreeList(d', free[n..], At(free, n))
  {
    forall k | 0 <= k < |free| - n ensures Link(d', free[n..], k) {
      assert Link(d, free, n + k);
    }
  }

  /** Running out of descriptors part way: only free ones were written. */
  lemma FailedDescriptors(d: seq<Desc>, head: nat, free: seq<nat>, flight: map<nat, Chain>, owner: seq<Owner>,
                          d': seq<Desc>, bufs: seq<Buffer>, write: bool, n: nat)
    requires Descriptors(d, head, free, flight, owner) && Written(d, d', free, bufs, write, n)
    ensures Descriptors(d', head, free, flight, owner)
  {
    LinksKept(d, free, d', 0);
    assert free[0..] == free;
    forall h | h in flight ensures Intact(d', flight[h]) {
      KeepsIntact(d, free, flight, owner, d', bufs, write, n, h);
    }
  }

  /** A chain in flight shares no descriptor with the free list. */
  lemma KeepsIntact(d: seq<Desc>, free: seq<nat>, flight: map<nat, Chain>, owner: seq<Owner>, d': seq<Desc>,
                    bufs: seq<Buffer>, write: bool, n: nat, h: nat)
    requires Partition(owner, free, flight) && h in flight && Intact(d, flight[h])
    requires Written(d, d', free, bufs, write, n)
    ensures Intact(d', flight[h])
  {
    var f := flight[h];
    assert ChainOwned(owner, h, f.descs);
    forall k | 0 <= k < |f.descs| ensures Entry(d', f, k) {
      assert Entry(d, f, k);
      assert owner[f.descs[k]] == InFlight(h, k);
      forall j | 0 <= j < n ensures free[j] != f.descs[k] {
        assert FreeAt(owner, free, j);
      }
      assert f.descs[k] !in free[..n];
    }
  }

  lemma ReleaseDescriptors(d: seq<Desc>, head: nat, free: seq<nat>, flight: map<nat, Chain>, owner: seq<Owner>, h: nat)
    requires Descriptors(d, head, free, flight, owner) && h in flight
    ensures var descs := flight[h].descs;
      && |descs| > 0 && descs[|descs| - 1] < NUM && h == descs[0]
      && Descriptors(d[descs[|descs| - 1] := d[descs[|descs| - 1]].(next := head)], h, descs + free,
                     flight - {h}, OwnersAfterRelease(owner, |descs|, h))
  {
    var descs := flight[h].descs;
    assert Intact(d, flight[h]) && ChainOwned(owner, h, descs);
    var last := descs[|descs| - 1];
    ReleasePartition(owner, free, flight, h);
    ReleaseFreeList(d, head, free, flight[h], owner, h);
    forall g | g in flight && g != h ensures Intact(d[last := d[last].(next := head)], flight[g]) {
      assert ChainOwned(owner, g, flight[g].descs);
      OthersIntact(d, flight[g], owner, g, h, last, |descs| - 1, head);
    }
  }

  lemma ReleaseFreeList(d: seq<Desc>, head: nat, free: seq<nat>, f: Chain, owner: seq<Owner>, h: nat)
    requires FreeList(d, free, head) && FreeOwned(owner, free) && ChainOwned(owner, h, f.descs) && Intact(d, f)
    ensures var last := f.descs[|f.descs| - 1]; FreeList(d[last := d[last].(next := head)], f.descs + free, h)
  {
    var last := f.descs[|f.descs| - 1];
    var d', free' := d[last := d[last].(next := head)], f.descs + free;
    forall k | 0 <= k < |free'| ensures Link(d', free', k) {
      ReleaseLink(d, head, free, f, owner, h, k);
    }
  }

  lemma OthersIntact(d: seq<Desc>, f: Chain, owner: seq<Owner>, g: nat, h: nat, last: nat, pos: nat, head: nat)
    requires Intact(d, f) && |owner| == NUM && ChainOwned(owner, g, f.descs) && g != h && last < NUM
    requires owner[last] == InFlight(h, pos)
    ensures Intact(d[last := d[last].(next := head)], f)
  {
    var d' := d[last := d[last].(next := head)];
    forall k | 0 <= k < |f.descs| ensures Entry(d', f, k) {
      assert Entry(d, f, k) && owner[f.descs[k]] == InFlight(g, k);
    }
  }

  lemma ReleaseLink(d: seq<Desc>, head: nat, free: seq<nat>, f: Chain, owner: seq<Owner>, h: nat, k: nat)
    requires FreeList(d, free, head) && FreeOwned(owner, free) && ChainOwned(owner, h, f.descs) && Intact(d, f)
    requires k < |f.descs| + |free|
    ensures var last := f.descs[|f.descs| - 1]; Link(d[last := d[last].(next := head)], f.descs + free, k)
  {
    var descs, n := f.descs, |f.descs|;
    assert owner[descs[n - 1]] == InFlight(h, n - 1);
    assert At(descs + free, k + 1) == if k + 1 < n then descs[k + 1] else At(free, k + 1 - n);
    if k < n {
      assert (descs + free)[k] == descs[k];
      assert Entry(d, f, k) && owner[descs[k]] == InFlight(h, k);
    } else {
      assert (descs + free)[k] == free[k - n];
      assert Link(d, free, k - n) && FreeAt(owner, free, k - n);
    }
  }

  // ----- cookies -----

  ghost predicate Cookies(x: seq<Option<nat>>, flight: map<nat, Chain>) {
    |x| == NUM && forall i :: 0 <= i < NUM ==> CookieAt(x, flight, i)
  }

  /** A cookie is kept for each chain in flight, at its head, and for no other descriptor. */
  ghost predicate CookieAt(x: seq<Option<nat>>, flight: map<nat, Chain>, i: nat) {
    i < |x| && x[i] == if i in flight then Some(flight[i].cookie) else None
  }

  lemma CookiePut(x: seq<Option<nat>>, flight: map<nat, Chain>, head: nat, c: Chain)
    requires Cookies(x, flight) && head < NUM
    ensures Cookies(x[head := Some(c.cookie)], flight[head := c])
  {
    var x' := x[head := Some(c.cookie)];
    var flight' := flight[head := c];
    forall i | 0 <= i < NUM ensures CookieAt(x', flight', i) {
      assert CookieAt(x, flight, i);
    }
  }

  lemma CookieTaken(x: seq<Option<nat>>, flight: map<nat, Chain>, head: nat)
    requires Cookies(x, flight) && head < NUM
    ensures Cookies(x[head := None], flight - {head})
  {
    var x' := x[head := None];
    var flight' := flight - {head};
    forall i | 0 <= i < NUM ensures CookieAt(x', flight', i) {
      assert CookieAt(x, flight, i);
    }
  }

  class Table {
    const desc: array<Desc>
    const xdata: array<Option<nat>>
    var freeHead: nat
    // the contents of the two arrays
    ghost var table: seq<Desc>
    ghost var cookies: seq<Option<nat>>
    ghost var owner: seq<Owner>
    ghost var free: seq<nat>            // the free list
    ghost var flight: map<nat, Chain>   // chains given to the device, by head

    ghost predicate Valid()
      reads this, desc, xdata
    {
      && desc[..] == table && Descriptors(table, freeHead, free, flight, owner)
      && xdata[..] == cookies && Cookies(cookies, flight)
    }

    constructor ()
      ensures Valid() && flight == map[] && free == seq(256, i requires 0 <= i => i) && fresh(desc) && fresh(xdata)
    {
      var d := NewTable();
      desc := d;
      xdata := new Option<nat>[NUM](_ => None);
      freeHead := 0;
      free, flight := seq(NUM, i requires 0 <= i => i), map[];
      owner := seq(NUM, i requires 0 <= i => Free(i));
      new;
      table, cookies := desc[..], xdata[..];
      InitialDescriptors(table, free, owner);
    }

    static method NewTable() returns (d: array<Desc>)
      ensures fresh(d) && d.Length == NUM
      ensures forall i :: 0 <= i < NUM ==> d[i].next == if i < NUM - 1 then i + 1 else NONE
    {
      d := new Desc[NUM](_ => Desc(Buffer(0, 0), false, false, 0));
      var i := 0;
      while i < NUM - 1
        invariant 0 <= i <= NUM - 1
        invariant forall k :: 0 <= k < i ==> d[k].next == k + 1
      {
        d[i] := d[i].(next := i + 1);
        i := i + 1;
      }
      d[i] := d[i].(next := NONE);
    }

    /** The descriptor loop of virtq_enqueue; `rest` is the first descriptor not used. */
    method WriteChain(bufs: seq<Buffer>, write: bool) returns (ok: bool, rest: nat)
      requires desc[..] == table && Descriptors(table, freeHead, free, flight, owner)
      modifies desc, this`table
      ensures ok <==> |bufs| <= |free|
      ensures desc[..] == table
      ensures ok ==> rest == At(free, |bufs|) && Written(old(table), table, free, bufs, write, |bufs|)
      ensures !ok ==> Descriptors(table, freeHead, free, flight, owner)
    {
      var i := 0;
      rest := freeHead;
      while i < |bufs|
        invariant 0 <= i <= |bufs| && i <= |free| && rest == At(free, i)
        invariant desc[..] == table && Written(old(table), table, free, bufs, write, i)
      {
        if i < |free| { assert Link(old(table), free, i); }
        if rest == NONE {
          FailedDescriptors(old(table), freeHead, free, flight, owner, table, bufs, write, i);
          return false, rest;
        }
        WriteOne(old(table), table, free, owner, bufs, write, i);
        desc[rest] := Desc(bufs[i], i != |bufs| - 1, write, desc[rest].next);
        table := desc[..];
        rest := desc[rest].next;
        i := i + 1;
      }
      ok := true;
    }

    /**
     virtq_enqueue up to the move of free_head for an empty list of buffers: a cookie is stored for a
     descriptor that stays free. `ok` is false where that store is outside the table.
     */
    method ClaimNothing(cookie: nat) returns (ok: bool, head: nat)
      requires Valid()
      modifies this`cookies, xdata
      ensures ok <==> free != []
      ensures ok ==>
        head == free[0] < NUM && head !in flight && xdata[..] == old(xdata[..])[head := Some(cookie)] && !Valid()
      ensures !ok ==> head == 0xffff && Valid()
    {
      head := freeHead;
      ok := head != NONE;
      if free != [] {
        assert Link(table, free, 0);
        HeadIsNew(owner, free, flight);
      }
      if ok {
        xdata[head] := Some(cookie);
        cookies := xdata[..];
        assert cookies[head] == Some(cookie) && !CookieAt(cookies, flight, head);
      }
    }

    /** virtq_enqueue up to the move of free_head; `ok` is false where the source panics for want of descriptors. */
    method Claim(bufs: seq<Buffer>, cookie: nat, write: bool) returns (ok: bool, head: nat)
      requires Valid() && bufs != []
      modifies this, desc, xdata
      ensures Valid() && (ok <==> |bufs| <= |old(free)|)
      ensures ok ==> head == old(free)[0] < NUM && head !in old(flight) && free == old(free)[|bufs|..]
      ensures ok ==> flight == old(flight)[head := Chain(old(free)[..|bufs|], bufs, write, cookie)]
      ensures !ok ==> flight == old(flight) && free == old(free)
    {
      head := freeHead;
      var rest;
      ok, rest := WriteChain(bufs, write);
      if ok {
        ghost var c := Chain(free[..|bufs|], bufs, write, cookie);
        assert Link(old(table), free, 0);
        EnqueueDescriptors(old(table), freeHead, free, flight, owner, table, c);
        HeadIsNew(owner, free, flight);
        CookiePut(cookies, flight, head, c);
        xdata[head] := Some(cookie);
        cookies := xdata[..];
        freeHead := rest;
        owner := OwnersAfterEnqueue(owner, |bufs|, head);
        free, flight := free[|bufs|..], flight[head := c];
      }
    }

    /** virtq_free_chain: the chain of `h` goes back to the front of the free list. */
    method FreeChain(h: nat)
      requires desc[..] == table && Descriptors(table, freeHead, free, flight, owner) && h in flight
      modifies this`table, this`freeHead, this`free, this`flight, this`owner, desc
      ensures desc[..] == table && Descriptors(table, freeHead, free, flight, owner)
      ensures flight == old(flight) - {h} && free == old(flight[h].descs) + old(free)
    {
      ghost var c := flight[h];
      assert Intact(table, c) && ChainOwned(owner, h, c.descs);
      var n := h;
      ghost var k := 0;
      while desc[n].hasNext
        invariant 0 <= k < |c.descs| && n == c.descs[k]
        decreases |c.descs| - k
      {
        assert Entry(table, c, k);
        n := desc[n].next;
        k := k + 1;
      }
      assert Entry(table, c, k);
      ReleaseDescriptors(table, freeHead, free, flight, owner, h);
      desc[n] := desc[n].(next := freeHead);
      table := desc[..];
      freeHead := h;
      owner := OwnersAfterRelease(owner, |c.descs|, h);
      free, flight := c.descs + free, flight - {h};
    }

    /** virtq_dequeue from the cookie on: it is there, so the source does not panic. */
    method Reclaim(h: nat) returns (x: nat)
      requires Valid() && h in flight
      modifies this, desc, xdata
      ensures Valid() && x == old(flight)[h].cookie
      ensures flight == old(flight) - {h} && free == old(flight[h].descs) + old(free)
    {
      assert ChainOwned(owner, h, flight[h].descs);
      assert CookieAt(cookies, flight, h);
      CookieTaken(cookies, flight, h);
      x := xdata[h].value;
      xdata[h] := None;
      cookies := xdata[..];
      FreeChain(h);
    }
  }
}
