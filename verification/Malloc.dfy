/**
 The heap allocator of core/malloc.c: per size class a list of frames, per frame a list of free
 blocks threaded through the blocks themselves.
 */
module Malloc {
  import opened Wrappers
  import opened Counting
  import opened HeapBlocks
  import opened Units

  ghost predicate InMemory(heads: seq<Option<nat>>, headers: map<nat, Header>, mem: map<nat, Option<nat>>, h: Heap) {
    && |heads| == |h.lists| == CLASSES
    && (forall o :: 0 <= o < CLASSES ==> ListIn(heads, headers, h.lists, o))
    && (forall f :: f in h.frames ==> FrameIn(headers, mem, f, h.frames[f]))
  }

  ghost predicate ListIn(heads: seq<Option<nat>>, headers: map<nat, Header>, lists: seq<seq<nat>>, o: nat) {
    o < |heads| == |lists| && Listed(headers, heads[o], lists[o])
  }

  ghost predicate FrameIn(headers: map<nat, Header>, mem: map<nat, Option<nat>>, f: nat, fr: Frame) {
    f in headers && fr.order < CLASSES && Chained(mem, headers[f].freelist, f, fr.order, fr.free)
  }

  /** Every frame of the class is used up. */
  ghost predicate Full(h: Heap, o: nat)
    requires o < |h.lists|
  {
    forall f :: f in h.lists[o] && f in h.frames ==> h.frames[f].free == []
  }

  /** Frame `f` is the first of the list with a free block. */
  ghost predicate FirstFree(h: Heap, list: seq<nat>, f: nat)
    decreases list
  {
    && list != [] && list[0] in h.frames
    && if h.frames[list[0]].free != [] then f == list[0] else FirstFree(h, list[1..], f)
  }

  lemma ListsKept(heads: seq<Option<nat>>, headers: map<nat, Header>, mem: map<nat, Option<nat>>, h: Heap,
                  headers': map<nat, Header>)
    requires InMemory(heads, headers, mem, h)
    requires forall f :: f in headers ==> f in headers' && headers'[f].next == headers[f].next
    ensures forall o :: 0 <= o < CLASSES ==> ListIn(heads, headers', h.lists, o)
  {
    forall o | 0 <= o < CLASSES ensures ListIn(heads, headers', h.lists, o) {
      assert ListIn(heads, headers, h.lists, o);
      ListKept(headers, headers', heads[o], h.lists[o]);
    }
  }

  lemma TakeInMemory(heads: seq<Option<nat>>, headers: map<nat, Header>, mem: map<nat, Option<nat>>, h: Heap, f: nat)
    requires Sound(h) && InMemory(heads, headers, mem, h) && f in h.frames && h.frames[f].free != []
    ensures var a := Address(f, h.frames[f].order, h.frames[f].free[0]);
      && f in headers && headers[f].freelist == Some(a) && a in mem
      && InMemory(heads, headers[f := headers[f].(freelist := mem[a])], mem, Take(h, f))
  {
    assert FrameIn(headers, mem, f, h.frames[f]);
    var a := Address(f, h.frames[f].order, h.frames[f].free[0]);
    var headers', h' := headers[f := headers[f].(freelist := mem[a])], Take(h, f);
    ListsKept(heads, headers, mem, h, headers');
    forall g | g in h'.frames ensures FrameIn(headers', mem, g, h'.frames[g]) {
      assert FrameIn(headers, mem, g, h.frames[g]);
    }
  }

  /** A store at `a`, inside a block that is not free, leaves every chain alone. */
  lemma StoreKept(headers: map<nat, Header>, mem: map<nat, Option<nat>>, h: Heap, f: nat, k: nat, a: nat,
                  v: Option<nat>, g: nat)
    requires Sound(h) && Live(h, f, k) && g in h.frames && FrameIn(headers, mem, g, h.frames[g])
    requires var b := Address(f, h.frames[f].order, k); b <= a < b + BlockSize(h.frames[f].order)
    ensures FrameIn(headers, mem[a := v], g, h.frames[g])
  {
    var fr := h.frames[g];
    assert FrameOk(fr);
    forall j | j in fr.free ensures Address(g, fr.order, j) != a {
      BlocksDisjoint(f, h.frames[f].order, k, g, fr.order, j);
    }
    ChainKept(mem, headers[g].freelist, g, fr.order, fr.free, a, v);
  }

  lemma GiveInMemory(heads: seq<Option<nat>>, headers: map<nat, Header>, mem: map<nat, Option<nat>>, h: Heap, f: nat,
                     k: nat)
    requires Sound(h) && InMemory(heads, headers, mem, h) && Live(h, f, k)
    ensures f in headers
    ensures var a := Address(f, h.frames[f].order, k);
      InMemory(heads, headers[f := headers[f].(freelist := Some(a))], mem[a := headers[f].freelist], Give(h, f, k))
  {
    var fr := h.frames[f];
    assert FrameIn(headers, mem, f, fr) && FrameOk(fr);
    var a := Address(f, fr.order, k);
    var headers', mem', h' :=
      headers[f := headers[f].(freelist := Some(a))], mem[a := headers[f].freelist], Give(h, f, k);
    ListsKept(heads, headers, mem, h, headers');
    ChainPush(mem, headers[f].freelist, f, fr.order, fr.free, k);
    forall g | g in h'.frames ensures FrameIn(headers', mem', g, h'.frames[g]) {
      assert FrameIn(headers, mem, g, h.frames[g]);
      if g != f { StoreKept(headers, mem, h, f, k, a, headers[f].freelist, g); }
    }
  }

  /** Stores in page `f` only. */
  ghost predicate OnlyPage(mem: map<nat, Option<nat>>, mem': map<nat, Option<nat>>, f: nat) {
    forall a: nat :: a / PAGE != f && a in mem ==> a in mem' && mem'[a] == mem[a]
  }

  lemma {:induction false} ChainElsewhere(mem: map<nat, Option<nat>>, mem': map<nat, Option<nat>>, p: nat,
                                          ptr: Option<nat>, f: nat, o: nat, free: seq<nat>)
    requires o < CLASSES && OnlyPage(mem, mem', p) && f != p && Chained(mem, ptr, f, o, free)
    requires forall k :: k in free ==> k < Slots(o)
    ensures Chained(mem', ptr, f, o, free)
    decreases free
  {
    if free != [] {
      assert free[0] in free;
      BlockFits(f, o, free[0]);
      assert forall k :: k in free[1..] ==> k in free;
      ChainElsewhere(mem, mem', p, mem[ptr.value], f, o, free[1..]);
    }
  }

  lemma ExtendInMemory(heads: seq<Option<nat>>, headers: map<nat, Header>, mem: map<nat, Option<nat>>,
                       mem': map<nat, Option<nat>>, h: Heap,
                       p: nat, o: nat, freelist: Option<nat>)
    requires Sound(h) && InMemory(heads, headers, mem, h) && o < CLASSES && p !in h.frames
    requires OnlyPage(mem, mem', p) && Chained(mem', freelist, p, o, Countdown(Slots(o)))
    ensures InMemory(heads[o := Some(p)], headers[p := Header(heads[o], freelist)], mem', Extend(h, p, o))
  {
    var heads', headers', h' := heads[o := Some(p)], headers[p := Header(heads[o], freelist)], Extend(h, p, o);
    forall q | 0 <= q < CLASSES ensures ListIn(heads', headers', h'.lists, q) {
      assert ListIn(heads, headers, h.lists, q) && ClassOk(h, q);
      ListKept(headers, headers', heads[q], h.lists[q]);
      assert q == o ==> h'.lists[q][1..] == h.lists[q];
    }
    forall g | g in h'.frames ensures FrameIn(headers', mem', g, h'.frames[g]) {
      if g != p {
        assert FrameIn(headers, mem, g, h.frames[g]) && FrameOk(h.frames[g]);
        ChainElsewhere(mem, mem', p, headers[g].freelist, g, h.frames[g].order, h.frames[g].free);
      }
    }
  }

  lemma BeyondLast(o: nat, k: nat)
    requires o < CLASSES
    ensures k >= Slots(o) ==> HEADER + (k + 1) * BlockSize(o) >= PAGE
  {
    if k >= Slots(o) { MulMono(Slots(o) + 1, k + 1, BlockSize(o)); }
  }

  /** The next block of a frame that still fits. */
  lemma CutOne(p: nat, o: nat, k: nat)
    requires o < CLASSES && Address(p, o, k) + BlockSize(o) < (p + 1) * PAGE
    ensures k < Slots(o) && Address(p, o, k + 1) == Address(p, o, k) + BlockSize(o) && Address(p, o, k) / PAGE == p
  {
    var b := BlockSize(o);
    assert (k + 1) * b == k * b + b;
    BeyondLast(o, k);
    BlockFits(p, o, k);
  }

  lemma CutAll(p: nat, o: nat, k: nat)
    requires o < CLASSES && k <= Slots(o) && Address(p, o, k) + BlockSize(o) >= (p + 1) * PAGE
    ensures k == Slots(o)
  {
    if k < Slots(o) { BlockFits(p, o, k); }
  }

  /** get_order: the smallest class whose blocks are large enough. */
  method GetOrder(size: nat) returns (o: nat)
    requires size <= LARGEST
    ensures o < CLASSES && size <= BlockSize(o) && forall j :: 0 <= j < o ==> BlockSize(j) < size
  {
    o := 0;
    while o < 9
      invariant 0 <= o < CLASSES && forall j :: 0 <= j < o ==> BlockSize(j) < size
      decreases 9 - o
    {
      if size <= BlockSize(o) {
        break;
      }
      o := o + 1;
    }
  }

  /** Where a block is: slot `slot` of the frame in page `page`, of class `order`. */
  datatype Block = Block(page: nat, order: nat, slot: nat)

  /** Block `b` was the head of the free list of the first frame of its class that has one, and is gone from it. */
  ghost predicate TakenFrom(before: Heap, after: Heap, b: Block) {
    && b.order < |before.lists| && FirstFree(before, before.lists[b.order], b.page)
    && b.page in before.frames && before.frames[b.page].free != [] && b.slot == before.frames[b.page].free[0]
    && after == Take(before, b.page)
  }

  class Allocator {
    var heads: seq<Option<nat>>            // malloc_chunk[].framelist
    var headers: map<nat, Header>          // struct frame, by page
    var mem: map<nat, Option<nat>>         // struct mhdr, by address
    var supply: seq<nat>                   // pages alloc_page will return, until it returns NULL
    ghost var h: Heap

    ghost predicate Valid()
      reads this
    {
      Sound(h) && InMemory(heads, headers, mem, h) && Distinct(supply) && forall p :: p in supply ==> p !in h.frames
    }

    constructor (pages: seq<nat>)
      requires Distinct(pages)
      ensures Valid() && supply == pages && h.frames == map[]
    {
      heads := seq(CLASSES, _ => None);
      headers, mem, supply := map[], map[], pages;
      h := Heap(map[], seq(CLASSES, _ => []));
      new;
      forall o | 0 <= o < CLASSES ensures ListIn(heads, headers, h.lists, o) && ClassOk(h, o) {
      }
    }

    /** The search of __malloc: the first frame of the class with a free block. */
    method FindFrame(o: nat) returns (r: Option<nat>)
      requires Valid() && o < CLASSES
      ensures r == None <==> Full(h, o)
      ensures r.Some? ==>
        r.value in h.lists[o] && r.value in h.frames && r.value in headers && h.frames[r.value].free != []
      ensures r.Some? ==> FirstFree(h, h.lists[o], r.value)
    {
      assert ListIn(heads, headers, h.lists, o) && ClassOk(h, o);
      var f := heads[o];
      ghost var rest := h.lists[o];
      while f.Some?
        invariant Listed(headers, f, rest) && forall g :: g in rest ==> g in h.lists[o]
        invariant forall g :: g in h.lists[o] && h.frames[g].free != [] ==> g in rest
        invariant forall g :: FirstFree(h, rest, g) ==> FirstFree(h, h.lists[o], g)
        decreases |rest|
      {
        assert f.value == rest[0] && rest[0] in rest && FrameIn(headers, mem, f.value, h.frames[f.value]);
        if headers[f.value].freelist.Some? {
          return f;
        }
        f := headers[f.value].next;
        rest := rest[1..];
      }
      return None;
    }

    /** malloc_frame: cut a new page into free blocks. */
    method MallocFrame(o: nat) returns (f: Option<nat>, freelist: Option<nat>)
      requires o < CLASSES
      modifies this`mem, this`supply
      ensures f == None <==> old(supply) == []
      ensures f == None ==> supply == old(supply) && mem == old(mem)
      ensures f.Some? ==> old(supply) == [f.value] + supply && OnlyPage(old(mem), mem, f.value)
      ensures f.Some? ==> Chained(mem, freelist, f.value, o, Countdown(Slots(o)))
    {
      freelist := None;
      if supply == [] {
        return None, None;
      }
      var p := supply[0];
      supply := supply[1..];
      var a, b := p * PAGE + HEADER, BlockSize(o);
      ghost var k := 0;
      while a + b < (p + 1) * PAGE
        invariant 0 <= k <= Slots(o) && a == Address(p, o, k)
        invariant Chained(mem, freelist, p, o, Countdown(k)) && OnlyPage(old(mem), mem, p)
        invariant old(supply) == [p] + supply
        decreases Slots(o) - k
      {
        CutOne(p, o, k);
        ChainPush(mem, freelist, p, o, Countdown(k), k);
        mem := mem[a := freelist];
        freelist := Some(a);
        a := a + b;
        k := k + 1;
      }
      CutAll(p, o, k);
      f := Some(p);
    }

    /** A new frame at the head of the list of its class. */
    method AddFrame(o: nat) returns (ok: bool)
      requires Valid() && o < CLASSES
      modifies this
      ensures Valid() && (ok <==> old(supply) != [])
      ensures !ok ==> h == old(h) && supply == []
      ensures ok ==> old(supply) == [old(supply)[0]] + supply && h == Extend(old(h), old(supply)[0], o) && !Full(h, o)
      ensures forall g: nat, k: nat :: Live(h, g, k) <==> Live(old(h), g, k)
    {
      var f, freelist := MallocFrame(o);
      ok := f.Some?;
      if ok {
        var p := f.value;
        assert p in old(supply) && supply == old(supply)[1..];
        ExtendSound(h, p, o);
        ExtendInMemory(heads, headers, old(mem), mem, h, p, o, freelist);
        headers := headers[p := Header(heads[o], freelist)];
        heads := heads[o := Some(p)];
        h := Extend(h, p, o);
        assert p in h.lists[o];
      }
    }

    /** The head of a frame's free list. */
    method TakeBlock(f: nat) returns (a: nat)
      requires Valid() && f in h.frames && h.frames[f].free != [] && f in headers
      modifies this`headers, this`h
      ensures Valid() && h == Take(old(h), f)
      ensures var o, k := old(h).frames[f].order, old(h).frames[f].free[0];
        && o < CLASSES && a == Address(f, o, k) && a % 8 == 0
        && !Live(old(h), f, k) && Live(h, f, k) && h.frames[f].order == o
      ensures forall g: nat, j: nat :: (g, j) != (f, old(h).frames[f].free[0]) ==>
        (Live(h, g, j) <==> Live(old(h), g, j))
    {
      assert FrameOk(h.frames[f]);
      TakeSound(h, f);
      TakeInMemory(heads, headers, mem, h, f);
      BlockFits(f, h.frames[f].order, h.frames[f].free[0]);
      a := headers[f].freelist.value;
      headers := headers[f := headers[f].(freelist := mem[a])];
      h := Take(h, f);
    }

    /** free: the block goes back to the frame of its page. */
    method Free(a: nat, ghost b: Block)
      requires Valid() && Live(h, b.page, b.slot) && h.frames[b.page].order == b.order
      requires a == Address(b.page, b.order, b.slot)
      modifies this`headers, this`mem, this`h
      ensures Valid() && h == Give(old(h), b.page, b.slot) && !Live(h, b.page, b.slot)
      ensures forall g: nat, j: nat :: (g, j) != (b.page, b.slot) ==> (Live(h, g, j) <==> Live(old(h), g, j))
    {
      BlockFits(b.page, b.order, b.slot);
      GiveSound(h, b.page, b.slot);
      GiveInMemory(heads, headers, mem, h, b.page, b.slot);
      var f := a / PAGE;
      mem := mem[a := headers[f].freelist];
      headers := headers[f := headers[f].(freelist := Some(a))];
      h := Give(h, b.page, b.slot);
    }

    /** The holder of a block stores whatever it likes anywhere in it. */
    method ClientStore(ghost b: Block, a: nat, v: Option<nat>)
      requires Valid() && Live(h, b.page, b.slot) && h.frames[b.page].order == b.order
      requires Address(b.page, b.order, b.slot) <= a < Address(b.page, b.order, b.slot) + BlockSize(b.order)
      modifies this`mem
      ensures Valid()
    {
      forall g | g in h.frames ensures FrameIn(headers, mem[a := v], g, h.frames[g]) {
        assert FrameIn(headers, mem, g, h.frames[g]);
        StoreKept(headers, mem, h, b.page, b.slot, a, v, g);
      }
      mem := mem[a := v];
    }

    /**
     malloc. The block `b` was free or new and is now live; nothing else changed hands. The result is
     null exactly when every frame of the class is full and there is no page left.
     */
    method Malloc(size: nat) returns (r: Option<nat>, ghost b: Block)
      requires Valid() && 0 < size <= LARGEST
      modifies this
      ensures Valid()
      ensures b.order < CLASSES && size <= BlockSize(b.order) && (b.order > 0 ==> BlockSize(b.order - 1) < size)
      ensures r == None <==> Full(old(h), b.order) && old(supply) == []
      ensures r == None ==> h == old(h)
      ensures r.Some? ==> r.value == Address(b.page, b.order, b.slot) && r.value % 8 == 0
      ensures r.Some? ==> !Live(old(h), b.page, b.slot) && Live(h, b.page, b.slot) && h.frames[b.page].order == b.order
      ensures forall g: nat, k: nat :: r == None || (g, k) != (b.page, b.slot) ==>
        (Live(h, g, k) <==> Live(old(h), g, k))
      ensures r.Some? && !Full(old(h), b.order) ==> supply == old(supply) && TakenFrom(old(h), h, b)
      ensures r.Some? && Full(old(h), b.order) ==>
        old(supply) == [b.page] + supply && TakenFrom(Extend(old(h), b.page, b.order), h, b)
    {
      var o := GetOrder(size);
      b := Block(0, o, 0);
      ghost var grown := false;
      while true
        invariant Valid()
        invariant if grown then
            !Full(h, o) && Full(old(h), o) && old(supply) != [] && old(supply) == [old(supply)[0]] + supply
            && h == Extend(old(h), old(supply)[0], o)
          else h == old(h) && supply == old(supply)
        invariant forall g: nat, k: nat :: Live(h, g, k) <==> Live(old(h), g, k)
        decreases !grown
      {
        var f := FindFrame(o);
        if f.Some? {
          assert ClassOk(h, o);
          b := Block(f.value, o, h.frames[f.value].free[0]);
          var a := TakeBlock(f.value);
          r := Some(a);
          return;
        }
        var ok := AddFrame(o);
        if !ok {
          return None, b;
        }
        grown := true;
      }
    }
  }
}
