/**
 The size classes and frames of core/malloc.c as values: a frame is a page cut into blocks of one
 size behind a 16-byte header. Pages are page numbers, addresses are in bytes.
 */
module HeapBlocks {
  import opened Wrappers
  import opened Counting
  import opened Units

  const HEADER := 16
  const CLASSES := 8
  const LARGEST := 2040

  /** blocksize[]. */
  function BlockSize(o: nat): (b: nat)
    requires o < CLASSES
    ensures b % 8 == 0 && 16 <= b <= LARGEST
  {
    [16, 32, 64, 128, 248, 504, 1016, 2040][o]
  }

  /** Blocks in a frame: those that end before the last byte of the page. */
  function Slots(o: nat): (n: nat)
    requires o < CLASSES
    ensures n >= 1 && HEADER + n * BlockSize(o) < PAGE <= HEADER + (n + 1) * BlockSize(o)
  {
    [254, 127, 63, 31, 16, 8, 4, 1][o]
  }

  /**
   The small classes double from 16 on. The next three are the largest multiples of 8 of which 16, 8 and
   4 blocks fit. Two blocks of the last would end exactly where the page does, and only one is cut.
   */
  lemma ClassSizes(o: nat)
    requires o < CLASSES
    ensures o == 0 ==> BlockSize(o) == 16
    ensures 0 < o < 4 ==> BlockSize(o) == 2 * BlockSize(o - 1)
    ensures 4 <= o < 7 ==> var n := [16, 8, 4][o - 4];
      Slots(o) == n && HEADER + n * BlockSize(o) < PAGE <= HEADER + n * (BlockSize(o) + 8)
    ensures o == 7 ==> HEADER + 2 * BlockSize(o) == PAGE && Slots(o) == 1
  {
  }

  function Address(f: nat, o: nat, k: nat): nat
    requires o < CLASSES
  {
    f * PAGE + HEADER + k * BlockSize(o)
  }

  lemma MulMono(j: nat, k: nat, b: nat)
    requires j <= k
    ensures j * b <= k * b
  {
  }

  lemma MulAligned(k: nat, b: nat)
    requires b % 8 == 0
    ensures k * b % 8 == 0
  {
    var c := b / 8;
    assert k * b == k * (8 * c) == 8 * (k * c);
  }

  /** A block is 8-byte aligned and lies in its page behind the header. */
  lemma BlockFits(f: nat, o: nat, k: nat)
    requires o < CLASSES && k < Slots(o)
    ensures Address(f, o, k) % 8 == 0 && Address(f, o, k) / PAGE == f
    ensures f * PAGE + HEADER <= Address(f, o, k) && Address(f, o, k) + BlockSize(o) < (f + 1) * PAGE
  {
    var b := BlockSize(o);
    MulMono(k + 1, Slots(o), b);
    assert (k + 1) * b == k * b + b;
    MulAligned(k, b);
  }

  /** Blocks at different places do not overlap. */
  lemma BlocksDisjoint(f: nat, o: nat, k: nat, f': nat, o': nat, k': nat)
    requires o < CLASSES && o' < CLASSES && k < Slots(o) && k' < Slots(o')
    requires (f, k) != (f', k') && (f == f' ==> o == o')
    ensures Address(f, o, k) + BlockSize(o) <= Address(f', o', k')
      || Address(f', o', k') + BlockSize(o') <= Address(f, o, k)
  {
    BlockFits(f, o, k);
    BlockFits(f', o', k');
    if f == f' {
      var b := BlockSize(o);
      if k < k' {
        MulMono(k + 1, k', b);
        assert (k + 1) * b == k * b + b;
      } else {
        MulMono(k' + 1, k, b);
        assert (k' + 1) * b == k' * b + b;
      }
    }
  }

  // ----- the free blocks of a frame -----

  /** A frame's class, and the slots on its free list with the head first. */
  datatype Frame = Frame(order: nat, free: seq<nat>)

  ghost predicate FrameOk(fr: Frame) {
    fr.order < CLASSES && Distinct(fr.free) && forall k :: k in fr.free ==> k < Slots(fr.order)
  }

  /** Following the pointers from `ptr` goes through the blocks `free` of frame `f`. */
  ghost predicate Chained(mem: map<nat, Option<nat>>, ptr: Option<nat>, f: nat, o: nat, free: seq<nat>)
    requires o < CLASSES
    decreases free
  {
    if free == [] then ptr == None
    else
      && ptr == Some(Address(f, o, free[0])) && ptr.value in mem
      && Chained(mem, mem[ptr.value], f, o, free[1..])
  }

  /** A store outside the free blocks of the chain leaves it alone. */
  lemma {:induction false} ChainKept(mem: map<nat, Option<nat>>, ptr: Option<nat>, f: nat, o: nat, free: seq<nat>,
                                     a: nat, v: Option<nat>)
    requires o < CLASSES && Chained(mem, ptr, f, o, free)
    requires forall k :: k in free ==> Address(f, o, k) != a
    ensures Chained(mem[a := v], ptr, f, o, free)
    decreases free
  {
    if free != [] {
      assert free[0] in free;
      ChainKept(mem, mem[ptr.value], f, o, free[1..], a, v);
    }
  }

  lemma ChainPush(mem: map<nat, Option<nat>>, ptr: Option<nat>, f: nat, o: nat, free: seq<nat>, k: nat)
    requires o < CLASSES && Chained(mem, ptr, f, o, free) && k !in free && k < Slots(o)
    requires forall j :: j in free ==> j < Slots(o)
    ensures var a := Address(f, o, k); Chained(mem[a := ptr], Some(a), f, o, [k] + free)
  {
    var a := Address(f, o, k);
    forall j | j in free ensures Address(f, o, j) != a { BlocksDisjoint(f, o, j, f, o, k); }
    ChainKept(mem, ptr, f, o, free, a, ptr);
    assert ([k] + free)[1..] == free;
  }

  function Countdown(n: nat): (r: seq<nat>)
    ensures forall k: nat :: k in r <==> k < n
  {
    if n == 0 then [] else [n - 1] + Countdown(n - 1)
  }

  lemma {:induction false} CountdownDistinct(n: nat)
    ensures Distinct(Countdown(n))
  {
    if n > 0 {
      CountdownDistinct(n - 1);
      assert Countdown(n)[1..] == Countdown(n - 1);
    }
  }

  // ----- the frame lists -----

  /** struct frame. */
  datatype Header = Header(next: Option<nat>, freelist: Option<nat>)

  ghost predicate Listed(frames: map<nat, Header>, ptr: Option<nat>, list: seq<nat>)
    decreases list
  {
    if list == [] then ptr == None
    else ptr == Some(list[0]) && list[0] in frames && Listed(frames, frames[list[0]].next, list[1..])
  }

  /** Only the `next` fields of its own frames matter to a list. */
  lemma {:induction false} ListKept(frames: map<nat, Header>, frames': map<nat, Header>, ptr: Option<nat>,
                                    list: seq<nat>)
    requires Listed(frames, ptr, list)
    requires forall f :: f in list && f in frames ==> f in frames' && frames'[f].next == frames[f].next
    ensures Listed(frames', ptr, list)
    decreases list
  {
    if list != [] {
      assert list[0] in list;
      ListKept(frames, frames', frames[list[0]].next, list[1..]);
    }
  }

  // ----- the whole heap -----

  /** The frames by page, and the frame list of each class. */
  datatype Heap = Heap(frames: map<nat, Frame>, lists: seq<seq<nat>>)

  ghost predicate Sound(h: Heap) {
    && |h.lists| == CLASSES
    && (forall f :: f in h.frames ==> FrameOk(h.frames[f]) && f in h.lists[h.frames[f].order])
    && (forall o :: 0 <= o < CLASSES ==> ClassOk(h, o))
  }

  ghost predicate ClassOk(h: Heap, o: nat)
    requires o < |h.lists|
  {
    forall f :: f in h.lists[o] ==> f in h.frames && h.frames[f].order == o
  }

  /** Block `k` of frame `f` is handed out. */
  ghost predicate Live(h: Heap, f: nat, k: nat) {
    f in h.frames && h.frames[f].order < CLASSES && k < Slots(h.frames[f].order) && k !in h.frames[f].free
  }

  /** Different live blocks are disjoint, whatever their classes. */
  lemma LiveBlocksDisjoint(h: Heap, f: nat, k: nat, f': nat, k': nat)
    requires Sound(h) && Live(h, f, k) && Live(h, f', k') && (f, k) != (f', k')
    ensures var o, o' := h.frames[f].order, h.frames[f'].order;
      Address(f, o, k) + BlockSize(o) <= Address(f', o', k') || Address(f', o', k') + BlockSize(o') <= Address(f, o, k)
  {
    BlocksDisjoint(f, h.frames[f].order, k, f', h.frames[f'].order, k');
  }

  ghost function Take(h: Heap, f: nat): Heap
    requires f in h.frames && h.frames[f].free != []
  {
    h.(frames := h.frames[f := h.frames[f].(free := h.frames[f].free[1..])])
  }

  lemma TakeSound(h: Heap, f: nat)
    requires Sound(h) && f in h.frames && h.frames[f].free != []
    ensures Sound(Take(h, f)) && Live(Take(h, f), f, h.frames[f].free[0])
    ensures forall g: nat, k: nat :: (g, k) != (f, h.frames[f].free[0]) ==> (Live(Take(h, f), g, k) <==> Live(h, g, k))
  {
    var fr := h.frames[f];
    assert fr.free[0] in fr.free && FrameOk(fr);
    forall k | k in fr.free[1..] ensures k in fr.free { }
    assert FrameOk(fr.(free := fr.free[1..]));
    forall o | 0 <= o < CLASSES ensures ClassOk(Take(h, f), o) { assert ClassOk(h, o); }
  }

  ghost function Give(h: Heap, f: nat, k: nat): Heap
    requires f in h.frames
  {
    h.(frames := h.frames[f := h.frames[f].(free := [k] + h.frames[f].free)])
  }

  lemma GiveSound(h: Heap, f: nat, k: nat)
    requires Sound(h) && Live(h, f, k)
    ensures Sound(Give(h, f, k))
    ensures forall g: nat, j: nat :: (g, j) != (f, k) ==> (Live(Give(h, f, k), g, j) <==> Live(h, g, j))
    ensures !Live(Give(h, f, k), f, k)
  {
    assert ([k] + h.frames[f].free)[1..] == h.frames[f].free;
    forall o | 0 <= o < CLASSES ensures ClassOk(Give(h, f, k), o) { assert ClassOk(h, o); }
  }

  /** What is given back is taken next from that frame, and the heap is as it was. */
  lemma GiveThenTake(h: Heap, f: nat, k: nat)
    requires f in h.frames
    ensures f in Give(h, f, k).frames && Give(h, f, k).frames[f].free != []
    ensures Give(h, f, k).frames[f].free[0] == k && Take(Give(h, f, k), f) == h
  {
    assert ([k] + h.frames[f].free)[1..] == h.frames[f].free;
    assert Take(Give(h, f, k), f).frames == h.frames;
  }

  /** A new frame of class `o` in page `f`, all of it free. */
  ghost function Extend(h: Heap, f: nat, o: nat): Heap
    requires o < |h.lists| && o < CLASSES
  {
    Heap(h.frames[f := Frame(o, Countdown(Slots(o)))], h.lists[o := [f] + h.lists[o]])
  }

  lemma ExtendSound(h: Heap, f: nat, o: nat)
    requires Sound(h) && o < CLASSES && f !in h.frames
    ensures Sound(Extend(h, f, o)) && Extend(h, f, o).frames[f].free != []
    ensures forall g: nat, k: nat :: Live(Extend(h, f, o), g, k) <==> Live(h, g, k)
  {
    var h' := Extend(h, f, o);
    CountdownDistinct(Slots(o));
    assert 0 in Countdown(Slots(o));
    forall p | 0 <= p < CLASSES ensures ClassOk(h', p) { assert ClassOk(h, p); }
  }
}
