/**
 The page allocator of core/allocpage.c: intrusive free lists per order, splitting on allocation, no
 coalescing on free.
 */
module PageAllocator {
  import opened Wrappers
  import opened PageBlocks

  /** struct free_chunk. */
  datatype Chunk = Chunk(freelist: Option<nat>, nfree: int)

  /** struct header, stored at the start of a free block. */
  datatype Header = Header(next: Option<nat>, order: nat)

  /** The block below height `pos` of a list. */
  function Top(list: seq<nat>, pos: nat): Option<nat>
    requires pos <= |list|
  {
    if pos == 0 then None else Some(list[pos - 1])
  }

  ghost predicate Threaded(chunks: seq<Chunk>, header: map<nat, Header>, lists: seq<seq<nat>>) {
    |chunks| == |lists| && forall k :: 0 <= k < |lists| ==> ThreadedAt(chunks, header, lists, k)
  }

  ghost predicate ThreadedAt(chunks: seq<Chunk>, header: map<nat, Header>, lists: seq<seq<nat>>, k: nat) {
    && k < |chunks| == |lists|
    && chunks[k] == Chunk(Top(lists[k], |lists[k]|), |lists[k]|)
    && Headers(header, lists[k], k)
  }

  ghost predicate Headers(header: map<nat, Header>, list: seq<nat>, k: nat) {
    forall pos :: 0 <= pos < |list| ==> HeaderAt(header, list, k, pos)
  }

  ghost predicate HeaderAt(header: map<nat, Header>, list: seq<nat>, k: nat, pos: nat) {
    pos < |list| && list[pos] in header && header[list[pos]] == Header(Top(list, pos), k)
  }

  /** Storing into a page that starts no free block leaves every list alone. */
  lemma WriteElsewhere(header: map<nat, Header>, status: map<nat, Status>, list: seq<nat>, k: nat, b: nat, h: Header)
    requires Headers(header, list, k) && ListOwned(status, list, k) && (b in status ==> status[b].Live?)
    ensures Headers(header[b := h], list, k)
  {
    var header' := header[b := h];
    forall pos | 0 <= pos < |list| ensures HeaderAt(header', list, k, pos) {
      assert HeaderAt(header, list, k, pos) && FreeAt(status, list, k, pos);
    }
  }

  lemma HeadersAdd(header: map<nat, Header>, list: seq<nat>, k: nat, b: nat)
    requires Headers(header, list, k) && b in header && header[b] == Header(Top(list, |list|), k)
    ensures Headers(header, list + [b], k)
  {
    var list' := list + [b];
    forall pos | 0 <= pos < |list'| ensures HeaderAt(header, list', k, pos) {
      if pos < |list| { assert HeaderAt(header, list, k, pos); }
    }
  }

  lemma ThreadAdd(chunks: seq<Chunk>, header: map<nat, Header>, m: Blocks, b: nat, k: nat)
    requires Sound(m) && Threaded(chunks, header, m.lists) && b in m.status && m.status[b] == Live(k)
    ensures k < |chunks| == |m.lists|
    ensures Threaded(chunks[k := Chunk(Some(b), chunks[k].nfree + 1)],
      header[b := Header(chunks[k].freelist, k)], Push(m, b).lists)
  {
    assert PlacedAt(m.status[b], m.lists, b) && ThreadedAt(chunks, header, m.lists, k);
    var chunks' := chunks[k := Chunk(Some(b), chunks[k].nfree + 1)];
    var header', lists' := header[b := Header(chunks[k].freelist, k)], Push(m, b).lists;
    forall j | 0 <= j < |lists'| ensures ThreadedAt(chunks', header', lists', j) {
      assert ThreadedAt(chunks, header, m.lists, j) && ListOwned(m.status, m.lists[j], j);
      WriteElsewhere(header, m.status, m.lists[j], j, b, header'[b]);
      if j == k { HeadersAdd(header', m.lists[k], k, b); }
    }
  }

  lemma ThreadTake(chunks: seq<Chunk>, header: map<nat, Header>, lists: seq<seq<nat>>, k: nat)
    requires Threaded(chunks, header, lists) && k < |lists| && lists[k] != []
    ensures var n := |lists[k]| - 1;
      && k < |chunks| && chunks[k].freelist == Some(lists[k][n]) && lists[k][n] in header
      && Threaded(chunks[k := Chunk(header[lists[k][n]].next, chunks[k].nfree - 1)], header, lists[k := lists[k][..n]])
  {
    var n := |lists[k]| - 1;
    assert ThreadedAt(chunks, header, lists, k) && HeaderAt(header, lists[k], k, n);
    var chunks', lists' := chunks[k := Chunk(header[lists[k][n]].next, chunks[k].nfree - 1)], lists[k := lists[k][..n]];
    forall j | 0 <= j < |lists'| ensures ThreadedAt(chunks', header, lists', j) {
      assert ThreadedAt(chunks, header, lists, j);
      HeadersCut(header, lists[j], j, |lists'[j]|);
      assert lists[j][..|lists'[j]|] == lists'[j];
    }
  }

  lemma HeadersCut(header: map<nat, Header>, list: seq<nat>, k: nat, n: nat)
    requires Headers(header, list, k) && n <= |list|
    ensures Headers(header, list[..n], k)
  {
    var list' := list[..n];
    forall pos | 0 <= pos < n ensures HeaderAt(header, list', k, pos) {
      assert HeaderAt(header, list, k, pos);
    }
  }

  /** One turn of the loop in expand. */
  ghost function Split(m: Blocks, b: nat): Blocks
    requires b in m.status && 0 < m.status[b].order <= |m.lists|
  {
    Push(Halve(m, b), b + Pow(m.status[b].order - 1))
  }

  lemma SplitKeeps(m: Blocks, b: nat)
    requires Sound(m) && b in m.status && m.status[b].Live? && m.status[b].order > 0
    ensures Sound(Halve(m, b)) && m.status[b].order <= MAX_ORDER
    ensures var k := m.status[b].order - 1;
      && Halve(m, b).status[b + Pow(k)] == Live(k)
      && Sound(Split(m, b)) && Split(m, b).cover.Keys == m.cover.Keys
  {
    assert PlacedAt(m.status[b], m.lists, b);
    HalveSound(m, b);
    PushSound(Halve(m, b), b + Pow(m.status[b].order - 1));
  }

  /** The lists after a block of order `from` was taken and split down to `order`. */
  ghost predicate Carved(lists: seq<seq<nat>>, lists': seq<seq<nat>>, b: nat, order: nat, from: nat) {
    |lists'| == |lists| && forall j :: 0 <= j < |lists| ==> CarvedAt(lists, lists', b, order, from, j)
  }

  ghost predicate CarvedAt(lists: seq<seq<nat>>, lists': seq<seq<nat>>, b: nat, order: nat, from: nat, j: nat)
    requires j < |lists| == |lists'|
  {
    lists'[j] == if order <= j < from then lists[j] + [b + Pow(j)] else lists[j]
  }

  lemma CarveOne(lists: seq<seq<nat>>, lists': seq<seq<nat>>, b: nat, order: nat, from: nat)
    requires Carved(lists, lists', b, order + 1, from) && order < from <= |lists|
    ensures Carved(lists, lists'[order := lists'[order] + [b + Pow(order)]], b, order, from)
  {
    var lists'' := lists'[order := lists'[order] + [b + Pow(order)]];
    forall j | 0 <= j < |lists| ensures CarvedAt(lists, lists'', b, order, from, j) {
      assert CarvedAt(lists, lists', b, order + 1, from, j);
    }
  }

  /** The block in hand has been cut from `from` down to `k`. */
  ghost predicate Cut(m: Blocks, m': Blocks, b: nat, k: nat, from: nat) {
    && b in m'.status && m'.status[b] == Live(k) && Sound(m')
    && m'.cover.Keys == m.cover.Keys && SameLive(m, m', b)
    && Carved(m.lists, m'.lists, b, k, from)
  }

  lemma CutOne(m: Blocks, m': Blocks, b: nat, k: nat, from: nat)
    requires Cut(m, m', b, k + 1, from) && k < from <= MAX_ORDER
    ensures Cut(m, Split(m', b), b, k, from)
  {
    SplitKeeps(m', b);
    LiveAfterSplit(m, m', b, k);
    CarveOne(m.lists, m'.lists, b, k, from);
  }

  lemma LiveAfterSplit(m: Blocks, m': Blocks, b: nat, k: nat)
    requires SameLive(m, m', b) && Sound(m') && b in m'.status && m'.status[b] == Live(k + 1) && k < |m'.lists|
    ensures SameLive(m, Split(m', b), b)
  {
    UpperHalfIsNew(m', b);
    var status' := Split(m', b).status;
    forall x: nat ensures SameAt(m.status, status', b, x) {
      assert SameAt(m.status, m'.status, b, x);
    }
  }

  lemma LiveAfterTake(m: Blocks, taken: Blocks, m': Blocks, b: nat)
    requires b in taken.status && taken.status == m.status[b := taken.status[b]] && SameLive(taken, m', b)
    ensures SameLive(m, m', b)
  {
    forall x: nat ensures SameAt(m.status, m'.status, b, x) {
      assert SameAt(taken.status, m'.status, b, x);
    }
  }

  class Zone {
    const chunks: array<Chunk>
    var header: map<nat, Header>   // what the memory holds at the start of each page
    ghost var m: Blocks

    ghost predicate Valid()
      reads this, chunks
    {
      Sound(m) && Threaded(chunks[..], header, m.lists)
    }

    constructor ()
      ensures Valid() && m == Blocks(map[], seq(MAX_ORDER + 1, _ => []), map[]) && fresh(chunks)
    {
      chunks := new Chunk[MAX_ORDER + 1](_ => Chunk(None, 0));
      header := map[];
      m := Blocks(map[], seq(MAX_ORDER + 1, _ => []), map[]);
      new;
      forall k | 0 <= k <= MAX_ORDER ensures ThreadedAt(chunks[..], header, m.lists, k) {
      }
    }

    /** freelist_add, and the order its callers store in the block. */
    method FreelistAdd(k: nat, b: nat)
      requires Valid() && b in m.status && m.status[b] == Live(k)
      modifies this, chunks
      ensures Valid() && k <= MAX_ORDER && m == Push(old(m), b)
    {
      PushSound(m, b);
      ThreadAdd(chunks[..], header, m, b, k);
      header := header[b := Header(chunks[k].freelist, k)];
      chunks[k] := Chunk(Some(b), chunks[k].nfree + 1);
      m := Push(m, b);
    }

    /** The body of the loop in expand: the upper half of the block in hand goes on a free list. */
    method SplitOff(b: nat, k: nat, size: nat)
      requires Valid() && b in m.status && m.status[b] == Live(k + 1) && k < MAX_ORDER && size == Pow(k)
      modifies this, chunks
      ensures Valid() && m == Split(old(m), b)
    {
      SplitKeeps(m, b);
      m := Halve(m, b);
      FreelistAdd(k, b + size);
    }

    /** expand: the block in hand is cut down to `order`. */
    method Expand(b: nat, order: nat, pageOrder: nat)
      requires Valid() && b in m.status && m.status[b] == Live(pageOrder) && order <= pageOrder <= MAX_ORDER
      modifies this, chunks
      ensures Valid() && Cut(old(m), m, b, order, pageOrder)
    {
      var size, k := Pow(pageOrder), pageOrder;
      while k > order
        invariant order <= k <= pageOrder && size == Pow(k)
        invariant Valid() && Cut(old(m), m, b, k, pageOrder)
      {
        k := k - 1;
        size := size / 2;
        CutOne(old(m), m, b, k, pageOrder);
        SplitOff(b, k, size);
      }
    }

    /** __alloc_pages: a block of `order`, or None; `from` is the order it was cut from. */
    method AllocPages(order: nat) returns (r: Option<nat>, ghost from: nat)
      requires Valid() && order <= MAX_ORDER
      modifies this, chunks
      ensures Valid() && m.cover.Keys == old(m.cover).Keys
      ensures r == None <==> forall j :: order <= j <= MAX_ORDER ==> old(m.lists)[j] == []
      ensures r == None ==> m == old(m)
      ensures r.Some? ==> Allocated(old(m), m, r.value, order, from)
    {
      var i := order;
      while i <= MAX_ORDER
        invariant order <= i <= MAX_ORDER + 1 && Valid() && m == old(m)
        invariant forall j :: order <= j < i ==> m.lists[j] == []
      {
        assert ThreadedAt(chunks[..], header, m.lists, i);
        if chunks[i].freelist.Some? {
          var p := chunks[i].freelist.value;
          PopSound(m, i);
          ThreadTake(chunks[..], header, m.lists, i);
          chunks[i] := Chunk(header[p].next, chunks[i].nfree - 1);
          m := Pop(m, i);
          ghost var taken := m;
          Expand(p, order, i);
          LiveAfterTake(old(m), taken, m, p);
          return Some(p), i;
        }
        i := i + 1;
      }
      return None, 0;
    }

    /** free_pages: the block goes on the list of its order. */
    method FreePages(b: nat, order: nat)
      requires Valid() && b in m.status && m.status[b] == Live(order)
      modifies this, chunks
      ensures Valid() && m == Push(old(m), b) && SameLive(old(m), m, b) && m.status[b].Free?
      ensures order <= MAX_ORDER && b % Pow(order) == 0   // so its checks do not panic
    {
      BlocksAreAligned(m, b);
      FreelistAdd(order, b);
    }

    /** init_free_pages, and __free_pages at boot: memory the allocator has not managed yet. */
    method AddPages(b: nat, order: nat)
      requires Valid() && order <= MAX_ORDER && Aligned(b, order)
      requires forall p: nat :: b <= p < b + Pow(order) ==> p !in m.cover
      modifies this, chunks
      ensures Valid() && SameLive(old(m), m, b) && b in m.status && m.status[b].Free?
      ensures m.lists == old(m.lists)[order := old(m.lists)[order] + [b]]
      ensures forall p: nat :: p in m.cover <==> p in old(m.cover) || b <= p < b + Pow(order)
    {
      GrowSound(m, b, order);
      m := Grow(m, b, order);
      FreelistAdd(order, b);
    }

    /** The holder of a live block stores whatever it likes in any page of it. */
    method ClientStore(b: nat, p: nat, h: Header)
      requires Valid() && b in m.status && m.status[b].Live? && b <= p < b + Pow(m.status[b].order)
      modifies this`header
      ensures Valid()
    {
      if p in m.status { BlocksAreDisjoint(m, b, p, p); }
      ghost var before := header;
      header := header[p := h];
      forall k | 0 <= k <= MAX_ORDER ensures ThreadedAt(chunks[..], header, m.lists, k) {
        assert ThreadedAt(chunks[..], before, m.lists, k) && ListOwned(m.status, m.lists[k], k);
        WriteElsewhere(before, m.status, m.lists[k], k, p, h);
      }
    }
  }

  /**
   What an allocation does: the head of the first list from `order` up that is not empty is handed
   out, and its other parts go on the lists in between.
   */
  ghost predicate Allocated(m: Blocks, m': Blocks, b: nat, order: nat, from: nat) {
    && order <= from < |m.lists| && m.lists[from] != [] && b == m.lists[from][|m.lists[from]| - 1]
    && (forall j :: order <= j < from ==> m.lists[j] == [])
    && b in m.status && m.status[b].Free? && LiveOrder(m'.status, b) == Some(order) && SameLive(m, m', b)
    && Carved(m.lists[from := m.lists[from][..|m.lists[from]| - 1]], m'.lists, b, order, from)
  }

  /** Freeing a block and allocating its order again gives the same block, and all lists as they were. */
  lemma FreeThenAlloc(m: Blocks, b: nat, k: nat, m': Blocks, x: nat, from: nat)
    requires Sound(m) && b in m.status && m.status[b] == Live(k) && k < |m.lists|
    requires Allocated(Push(m, b), m', x, k, from)
    ensures x == b && from == k && m'.lists == m.lists
    ensures forall y: nat :: LiveOrder(m'.status, y) == LiveOrder(m.status, y)
  {
    var pushed := Push(m, b);
    assert pushed.lists[k] == m.lists[k] + [b];
    assert from == k && x == b;
    var popped := pushed.lists[k := pushed.lists[k][..|pushed.lists[k]| - 1]];
    assert popped[k] == m.lists[k];
    assert popped == m.lists;
    forall j | 0 <= j < |m.lists| ensures m'.lists[j] == m.lists[j] {
      assert CarvedAt(popped, m'.lists, b, k, k, j);
    }
    forall y: nat ensures LiveOrder(m'.status, y) == LiveOrder(m.status, y) {
      assert SameAt(pushed.status, m'.status, b, y);
    }
  }
}
