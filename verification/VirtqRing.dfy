/**
 The avail and used rings of a split virtqueue (drivers/virtio/virtq.c): 256 slots, one side putting
 entries and the other reading them, both through indices that wrap at 16 bits.
 */
module VirtqRing {
  const NUM := 256
  const WRAP := 0x1_0000

  /** The slot of the n-th entry ever put on a ring, computed from the wrapping index. */
  lemma SlotOfIndex(n: nat)
    ensures n % WRAP % NUM == n % 0x1_0000 % 256 == n % 256
  {
  }

  lemma NextIndex(n: nat)
    ensures (n % WRAP + 1) % WRAP == (n + 1) % WRAP
  {
  }

  /** The last `n` of the `count` entries put on a ring. */
  ghost function Window<T>(ring: seq<T>, count: nat, n: nat): (r: seq<T>)
    requires |ring| == NUM && n <= count
    ensures |r| == n
  {
    if n == 0 then [] else Window(ring, count - 1, n - 1) + [ring[(count - 1) % NUM]]
  }

  /** Fewer than 256 entries apart, two entries have different slots. */
  lemma OtherSlot(a: nat, b: nat)
    requires a < b < a + NUM
    ensures a % NUM != b % NUM
  {
  }

  /** Writing the next slot leaves the last 255 entries alone. */
  lemma {:induction false} WindowKept<T>(ring: seq<T>, count: nat, n: nat, at: nat, x: T)
    requires |ring| == NUM && n <= count <= at < count - n + NUM
    ensures Window(ring[at % NUM := x], count, n) == Window(ring, count, n)
  {
    if n > 0 {
      OtherSlot(count - 1, at);
      WindowKept(ring, count - 1, n - 1, at, x);
    }
  }

  lemma {:induction false} WindowFirst<T>(ring: seq<T>, count: nat, n: nat)
    requires |ring| == NUM && 0 < n <= count
    ensures Window(ring, count, n) == [ring[(count - n) % NUM]] + Window(ring, count, n - 1)
  {
    if n > 1 { WindowFirst(ring, count - 1, n - 1); }
  }

  /**
   What one side has put on a ring and the other has not read. `idx` and `cursor` are the wrapping
   16-bit indices the two sides keep, `count` the unbounded number of entries put so far.
   */
  ghost predicate Pending<T>(ring: seq<T>, idx: nat, cursor: nat, count: nat, items: seq<T>) {
    && |ring| == NUM && |items| <= NUM && |items| <= count && items == Window(ring, count, |items|)
    && idx == count % WRAP && cursor == (count - |items|) % WRAP
  }

  /** The slot the writer takes holds no unread entry. */
  lemma Publish<T>(ring: seq<T>, idx: nat, cursor: nat, count: nat, items: seq<T>, x: T)
    requires Pending(ring, idx, cursor, count, items) && |items| < NUM
    ensures idx % NUM < NUM && Pending(ring[idx % NUM := x], (idx + 1) % WRAP, cursor, count + 1, items + [x])
  {
    SlotOfIndex(count);
    NextIndex(count);
    WindowKept(ring, count, |items|, count, x);
  }

  lemma Consume<T>(ring: seq<T>, idx: nat, cursor: nat, count: nat, items: seq<T>)
    requires Pending(ring, idx, cursor, count, items) && items != []
    ensures cursor % NUM < NUM && ring[cursor % NUM] == items[0]
    ensures Pending(ring, idx, (cursor + 1) % WRAP, count, items[1..])
  {
    SlotOfIndex(count - |items|);
    NextIndex(count - |items|);
    WindowFirst(ring, count, |items|);
  }

  /** Comparing the wrapped indices tells exactly whether anything is unread. */
  lemma NothingPending<T>(ring: seq<T>, idx: nat, cursor: nat, count: nat, items: seq<T>)
    requires Pending(ring, idx, cursor, count, items)
    ensures cursor == idx <==> items == []
  {
  }

  class Ring<T(==)> {
    const slots: array<T>
    var idx: nat             // the writer's index, which the reader sees
    var cursor: nat          // the reader's own index
    ghost var count: nat     // entries ever put
    ghost var items: seq<T>  // entries not read yet

    ghost predicate Valid()
      reads this, slots
    {
      Pending(slots[..], idx, cursor, count, items)
    }

    constructor (blank: T)
      ensures Valid() && items == [] && fresh(slots)
    {
      slots := new T[NUM](_ => blank);
      idx, cursor, count, items := 0, 0, 0, [];
    }

    method Put(x: T)
      requires Valid() && |items| < NUM
      modifies this`idx, this`count, this`items, slots
      ensures Valid() && items == old(items) + [x]
    {
      Publish(slots[..], idx, cursor, count, items, x);
      slots[idx % NUM] := x;
      idx := (idx + 1) % WRAP;
      items, count := items + [x], count + 1;
    }

    /** `some` is whether the two indices differ; they agree exactly when nothing is unread. */
    method Next() returns (some: bool, x: T)
      requires Valid()
      modifies this`cursor, this`items
      ensures Valid() && some == (old(items) != [])
      ensures some ==> x == old(items)[0] && items == old(items)[1..]
      ensures !some ==> items == []
    {
      NothingPending(slots[..], idx, cursor, count, items);
      some, x := cursor != idx, slots[cursor % NUM];
      if some {
        Consume(slots[..], idx, cursor, count, items);
        cursor := (cursor + 1) % WRAP;
        items := items[1..];
      }
    }
  }
}
