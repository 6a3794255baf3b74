/**
 The blocks of the page allocator of core/allocpage.c as values: which page belongs to which block,
 and which blocks are free. Addresses are page numbers.
 */
module PageBlocks {
  import opened Wrappers

  const MAX_ORDER := 9

  function Pow(k: nat): (r: nat)
    ensures r >= 1
  {
    if k == 0 then 1 else 2 * Pow(k - 1)
  }

  predicate Aligned(b: nat, k: nat) {
    k == 0 || (b % 2 == 0 && Aligned(b / 2, k - 1))
  }

  /** The alignment test of free_pages. */
  lemma {:induction false} AlignedIsMultiple(b: nat, k: nat)
    ensures Aligned(b, k) <==> b % Pow(k) == 0
  {
    if k > 0 {
      AlignedIsMultiple(b / 2, k - 1);
      HalfMod(b, Pow(k - 1));
    }
  }

  lemma HalfMod(b: nat, m: nat)
    requires m >= 1
    ensures b % (2 * m) == 0 <==> b % 2 == 0 && (b / 2) % m == 0
  {
    var h := b / 2;
    var q, r := h / m, h % m;
    assert b == 2 * (m * q + r) + b % 2 == (2 * m) * q + (2 * r + b % 2);
    Remainder(b, 2 * m, q, 2 * r + b % 2);
  }

  lemma Remainder(b: nat, m: nat, q: nat, r: nat)
    requires m >= 1 && b == m * q + r && r < m
    ensures b % m == r
  {
    var q', r' := b / m, b % m;
    Quotient(m, q, r, q', r');
  }

  lemma Quotient(m: nat, q: nat, r: nat, q': nat, r': nat)
    requires m * q + r == m * q' + r' && r < m && r' < m
    ensures q == q' && r == r'
  {
    if q != q' {
      var lo, hi := if q < q' then q else q', if q < q' then q' else q;
      assert m * hi == m * lo + m * (hi - lo);
      Multiple(m, hi - lo);
    }
  }

  lemma Multiple(m: nat, d: nat)
    requires d >= 1
    ensures m * d >= m
  {
  }

  /** Both halves of an aligned block are aligned. */
  lemma {:induction false} HalvesAligned(b: nat, k: nat)
    requires Aligned(b, k + 1)
    ensures Aligned(b, k) && Aligned(b + Pow(k), k)
  {
    if k > 0 {
      HalvesAligned(b / 2, k - 1);
      assert (b + Pow(k)) / 2 == b / 2 + Pow(k - 1);
    }
  }

  /** A block is on the free list of its order, at a height counted from the bottom, or handed out. */
  datatype Status = Free(order: nat, pos: nat) | Live(order: nat)

  /** `lists[k]` is the free list of order k with its head last; `cover` maps a page to its block. */
  datatype Blocks = Blocks(status: map<nat, Status>, lists: seq<seq<nat>>, cover: map<nat, nat>)

  ghost predicate Sound(m: Blocks) {
    |m.lists| == MAX_ORDER + 1 && Listed(m.status, m.lists) && Placed(m.status, m.lists) && Tiled(m.status, m.cover)
  }

  ghost predicate Listed(status: map<nat, Status>, lists: seq<seq<nat>>) {
    forall k :: 0 <= k < |lists| ==> ListOwned(status, lists[k], k)
  }

  ghost predicate ListOwned(status: map<nat, Status>, list: seq<nat>, k: nat) {
    forall pos :: 0 <= pos < |list| ==> FreeAt(status, list, k, pos)
  }

  ghost predicate FreeAt(status: map<nat, Status>, list: seq<nat>, k: nat, pos: nat) {
    pos < |list| && list[pos] in status && status[list[pos]] == Free(k, pos)
  }

  ghost predicate Placed(status: map<nat, Status>, lists: seq<seq<nat>>) {
    forall b :: b in status ==> PlacedAt(status[b], lists, b)
  }

  ghost predicate PlacedAt(s: Status, lists: seq<seq<nat>>, b: nat) {
    match s
    case Free(k, pos) => k < |lists| && pos < |lists[k]| && lists[k][pos] == b
    case Live(k) => k < |lists|
  }

  /** The blocks are aligned to their order and tile the managed pages. */
  ghost predicate Tiled(status: map<nat, Status>, cover: map<nat, nat>) {
    BlocksCover(status, cover) && PagesInBlocks(status, cover)
  }

  ghost predicate BlocksCover(status: map<nat, Status>, cover: map<nat, nat>) {
    forall b :: b in status ==> Covers(cover, b, status[b].order)
  }

  ghost predicate PagesInBlocks(status: map<nat, Status>, cover: map<nat, nat>) {
    forall p: nat :: InBlock(status, cover, p)
  }

  ghost predicate Covers(cover: map<nat, nat>, b: nat, k: nat) {
    Aligned(b, k) && forall p: nat :: CoversPage(cover, b, k, p)
  }

  ghost predicate CoversPage(cover: map<nat, nat>, b: nat, k: nat, p: nat) {
    b <= p < b + Pow(k) ==> p in cover && cover[p] == b
  }

  ghost predicate InBlock(status: map<nat, Status>, cover: map<nat, nat>, p: nat) {
    p in cover ==> cover[p] in status && cover[p] <= p < cover[p] + Pow(status[cover[p]].order)
  }

  /** The blocks handed out are the same, `b` aside. */
  ghost predicate SameLive(m: Blocks, m': Blocks, b: nat) {
    forall x: nat :: SameAt(m.status, m'.status, b, x)
  }

  ghost predicate SameAt(status: map<nat, Status>, status': map<nat, Status>, b: nat, x: nat) {
    x != b ==> LiveOrder(status, x) == LiveOrder(status', x)
  }

  function LiveOrder(status: map<nat, Status>, x: nat): Option<nat> {
    if x in status && status[x].Live? then Some(status[x].order) else None
  }

  // ----- reading the invariant -----

  /** Every managed page is in exactly one block, free or live. */
  lemma BlocksAreDisjoint(m: Blocks, a: nat, b: nat, p: nat)
    requires Sound(m) && a in m.status && b in m.status
    requires a <= p < a + Pow(m.status[a].order) && b <= p < b + Pow(m.status[b].order)
    ensures a == b && p in m.cover
  {
    assert Covers(m.cover, a, m.status[a].order) && CoversPage(m.cover, a, m.status[a].order, p);
    assert Covers(m.cover, b, m.status[b].order) && CoversPage(m.cover, b, m.status[b].order, p);
  }

  lemma EveryPageHasABlock(m: Blocks, p: nat)
    requires Sound(m)
    ensures p in m.cover <==> exists b :: b in m.status && b <= p < b + Pow(m.status[b].order)
  {
    if p in m.cover {
      assert InBlock(m.status, m.cover, p);
    }
    forall b | b in m.status && b <= p < b + Pow(m.status[b].order) ensures p in m.cover {
      assert Covers(m.cover, b, m.status[b].order) && CoversPage(m.cover, b, m.status[b].order, p);
    }
  }

  lemma BlocksAreAligned(m: Blocks, b: nat)
    requires Sound(m) && b in m.status
    ensures m.status[b].order <= MAX_ORDER && b % Pow(m.status[b].order) == 0
    ensures m.status[b].Free? <==> exists k :: 0 <= k <= MAX_ORDER && b in m.lists[k]
  {
    assert Covers(m.cover, b, m.status[b].order) && PlacedAt(m.status[b], m.lists, b);
    AlignedIsMultiple(b, m.status[b].order);
    forall k | 0 <= k <= MAX_ORDER && b in m.lists[k] ensures m.status[b].Free? {
      var pos :| 0 <= pos < |m.lists[k]| && m.lists[k][pos] == b;
      assert ListOwned(m.status, m.lists[k], k) && FreeAt(m.status, m.lists[k], k, pos);
    }
  }

  // ----- taking the head of a list -----

  function Pop(m: Blocks, k: nat): Blocks
    requires k < |m.lists| && m.lists[k] != []
  {
    var n := |m.lists[k]| - 1;
    m.(status := m.status[m.lists[k][n] := Live(k)], lists := m.lists[k := m.lists[k][..n]])
  }

  lemma PopSound(m: Blocks, k: nat)
    requires Sound(m) && k <= MAX_ORDER && m.lists[k] != []
    ensures Sound(Pop(m, k))
    ensures m.lists[k][|m.lists[k]| - 1] in m.status && m.status[m.lists[k][|m.lists[k]| - 1]].Free?
  {
    var n, m' := |m.lists[k]| - 1, Pop(m, k);
    var b := m.lists[k][n];
    assert ListOwned(m.status, m.lists[k], k) && FreeAt(m.status, m.lists[k], k, n);
    forall j | 0 <= j <= MAX_ORDER ensures ListOwned(m'.status, m'.lists[j], j) {
      OthersListed(m.status, m.lists[j], j, b, Live(k), |m'.lists[j]|);
      assert m'.lists[j] == m.lists[j][..|m'.lists[j]|];
    }
    forall x | x in m'.status ensures PlacedAt(m'.status[x], m'.lists, x) {
      if x != b { assert PlacedAt(m.status[x], m.lists, x) && m.status[b] == Free(k, n); }
    }
    SameTiles(m.status, m.cover, m'.status);
  }

  /** Changing block `b`, which is not among the first `n` of the list. */
  lemma OthersListed(status: map<nat, Status>, list: seq<nat>, k: nat, b: nat, s: Status, n: nat)
    requires ListOwned(status, list, k) && n <= |list|
    requires b in status ==> (match status[b] case Live(_) => true case Free(j, pos) => j != k || pos >= n)
    ensures ListOwned(status[b := s], list[..n], k)
  {
    var status', list' := status[b := s], list[..n];
    forall pos | 0 <= pos < n ensures FreeAt(status', list', k, pos) {
      assert FreeAt(status, list, k, pos);
    }
  }

  lemma SameTiles(status: map<nat, Status>, cover: map<nat, nat>, status': map<nat, Status>)
    requires Tiled(status, cover) && status.Keys == status'.Keys
    requires forall b :: b in status ==> status'[b].order == status[b].order
    ensures Tiled(status', cover)
  {
    forall p: nat ensures InBlock(status', cover, p) { assert InBlock(status, cover, p); }
    forall b | b in status' ensures Covers(cover, b, status'[b].order) { assert b in status; }
  }

  // ----- putting a block on a list -----

  function Push(m: Blocks, b: nat): Blocks
    requires b in m.status && m.status[b].order < |m.lists|
  {
    var k := m.status[b].order;
    m.(status := m.status[b := Free(k, |m.lists[k]|)], lists := m.lists[k := m.lists[k] + [b]])
  }

  lemma PushSound(m: Blocks, b: nat)
    requires Sound(m) && b in m.status && m.status[b].Live?
    ensures m.status[b].order <= MAX_ORDER && Sound(Push(m, b))
  {
    assert PlacedAt(m.status[b], m.lists, b);
    var k, m' := m.status[b].order, Push(m, b);
    var s := Free(k, |m.lists[k]|);
    forall j | 0 <= j <= MAX_ORDER ensures ListOwned(m'.status, m'.lists[j], j) {
      OthersListed(m.status, m.lists[j], j, b, s, |m.lists[j]|);
      assert m.lists[j][..|m.lists[j]|] == m.lists[j];
      if j == k { OneMoreListed(m'.status, m.lists[k], k, b); }
    }
    forall x | x in m'.status ensures PlacedAt(m'.status[x], m'.lists, x) {
      if x != b { assert PlacedAt(m.status[x], m.lists, x); }
    }
    SameTiles(m.status, m.cover, m'.status);
  }

  lemma OneMoreListed(status: map<nat, Status>, list: seq<nat>, k: nat, b: nat)
    requires ListOwned(status, list, k) && b in status && status[b] == Free(k, |list|)
    ensures ListOwned(status, list + [b], k)
  {
    var list' := list + [b];
    forall pos | 0 <= pos < |list'| ensures FreeAt(status, list', k, pos) {
      if pos < |list| { assert FreeAt(status, list, k, pos); }
    }
  }

  // ----- splitting a block that is in hand -----

  /** The `n` pages from `from` go to block `from`. */
  ghost function Recover(cover: map<nat, nat>, from: nat, n: nat): (r: map<nat, nat>)
    ensures Recovered(cover, r, from, n)
  {
    var r := map p | p in cover.Keys + Range(from, n) :: if from <= p < from + n then from else cover[p];
    assert forall p: nat :: Moved(cover, r, from, n, p);
    r
  }

  ghost predicate Recovered(cover: map<nat, nat>, cover': map<nat, nat>, from: nat, n: nat) {
    forall p: nat :: Moved(cover, cover', from, n, p)
  }

  ghost predicate Moved(cover: map<nat, nat>, cover': map<nat, nat>, from: nat, n: nat, p: nat) {
    && (p in cover' <==> p in cover || from <= p < from + n)
    && (p in cover' ==> cover'[p] == if from <= p < from + n then from else cover[p])
  }

  ghost function Range(from: nat, n: nat): (r: set<nat>)
    ensures forall p: nat :: p in r <==> from <= p < from + n
  {
    if n == 0 then {} else Range(from, n - 1) + {from + n - 1}
  }

  /** The upper half becomes a block of its own. */
  ghost function Halve(m: Blocks, b: nat): Blocks
    requires b in m.status && m.status[b].order > 0
  {
    var k := m.status[b].order - 1;
    m.(status := m.status[b := Live(k)][b + Pow(k) := Live(k)], cover := Recover(m.cover, b + Pow(k), Pow(k)))
  }

  lemma HalveSound(m: Blocks, b: nat)
    requires Sound(m) && b in m.status && m.status[b].Live? && m.status[b].order > 0
    ensures Sound(Halve(m, b)) && Halve(m, b).cover.Keys == m.cover.Keys
    ensures b + Pow(m.status[b].order - 1) !in m.status
  {
    var k, m' := m.status[b].order - 1, Halve(m, b);
    assert PlacedAt(m.status[b], m.lists, b);
    UpperHalfIsNew(m, b);
    HalveLists(m.status, m.lists, b, k, b + Pow(k));
    HalveCovers(m.status, m.cover, m'.cover, b, k);
    HalvePages(m.status, m.cover, m'.cover, b, k);
    SamePages(m.status, m.cover, m'.cover, b, k);
  }

  lemma UpperHalfIsNew(m: Blocks, b: nat)
    requires Sound(m) && b in m.status && m.status[b].order > 0
    ensures b + Pow(m.status[b].order - 1) !in m.status
  {
    var h := b + Pow(m.status[b].order - 1);
    if h in m.status { BlocksAreDisjoint(m, b, h, h); }
  }

  lemma HalveLists(status: map<nat, Status>, lists: seq<seq<nat>>, b: nat, k: nat, h: nat)
    requires Listed(status, lists) && Placed(status, lists) && k < |lists|
    requires b in status && status[b].Live? && h !in status
    ensures Listed(status[b := Live(k)][h := Live(k)], lists) && Placed(status[b := Live(k)][h := Live(k)], lists)
  {
    var status' := status[b := Live(k)][h := Live(k)];
    forall j | 0 <= j < |lists| ensures ListOwned(status', lists[j], j) {
      assert lists[j][..|lists[j]|] == lists[j];
      OthersListed(status, lists[j], j, b, Live(k), |lists[j]|);
      OthersListed(status[b := Live(k)], lists[j], j, h, Live(k), |lists[j]|);
    }
    forall x | x in status' ensures PlacedAt(status'[x], lists, x) {
      if x != b && x != h { assert PlacedAt(status[x], lists, x); }
    }
  }

  /** Blocks other than `b` keep their pages. */
  lemma CoversKept(cover: map<nat, nat>, cover': map<nat, nat>, x: nat, k: nat, from: nat, n: nat, b: nat)
    requires Covers(cover, x, k) && x != b && Recovered(cover, cover', from, n)
    requires forall p: nat :: PageOf(cover, from, n, b, p)
    ensures Covers(cover', x, k)
  {
    forall p: nat ensures CoversPage(cover', x, k, p) {
      assert CoversPage(cover, x, k, p) && Moved(cover, cover', from, n, p) && PageOf(cover, from, n, b, p);
    }
  }

  ghost predicate PageOf(cover: map<nat, nat>, from: nat, n: nat, b: nat, p: nat) {
    from <= p < from + n && p in cover ==> cover[p] == b
  }

  lemma HalveCovers(status: map<nat, Status>, cover: map<nat, nat>, cover': map<nat, nat>, b: nat, k: nat)
    requires BlocksCover(status, cover) && b in status && status[b].order == k + 1
    requires Recovered(cover, cover', b + Pow(k), Pow(k))
    ensures BlocksCover(status[b := Live(k)][b + Pow(k) := Live(k)], cover')
  {
    var h, n := b + Pow(k), Pow(k);
    assert Covers(cover, b, k + 1);
    HalvesAligned(b, k);
    forall p: nat ensures CoversPage(cover', b, k, p) && CoversPage(cover', h, k, p) && PageOf(cover, h, n, b, p) {
      assert CoversPage(cover, b, k + 1, p) && Moved(cover, cover', h, n, p);
    }
    var status' := status[b := Live(k)][h := Live(k)];
    forall x | x in status' ensures Covers(cover', x, status'[x].order) {
      if x != b && x != h { CoversKept(cover, cover', x, status[x].order, h, n, b); }
    }
  }

  lemma HalvePages(status: map<nat, Status>, cover: map<nat, nat>, cover': map<nat, nat>, b: nat, k: nat)
    requires PagesInBlocks(status, cover) && b in status && status[b].order == k + 1 && b + Pow(k) !in status
    requires Recovered(cover, cover', b + Pow(k), Pow(k))
    ensures PagesInBlocks(status[b := Live(k)][b + Pow(k) := Live(k)], cover')
  {
    var status' := status[b := Live(k)][b + Pow(k) := Live(k)];
    forall p: nat ensures InBlock(status', cover', p) {
      assert InBlock(status, cover, p) && Moved(cover, cover', b + Pow(k), Pow(k), p);
    }
  }

  lemma SamePages(status: map<nat, Status>, cover: map<nat, nat>, cover': map<nat, nat>, b: nat, k: nat)
    requires BlocksCover(status, cover) && b in status && status[b].order == k + 1
    requires Recovered(cover, cover', b + Pow(k), Pow(k))
    ensures cover'.Keys == cover.Keys
  {
    assert Covers(cover, b, k + 1);
    forall p: nat ensures p in cover' <==> p in cover {
      assert CoversPage(cover, b, k + 1, p) && Moved(cover, cover', b + Pow(k), Pow(k), p);
    }
  }

  // ----- new memory -----

  ghost function Grow(m: Blocks, b: nat, k: nat): Blocks {
    m.(status := m.status[b := Live(k)], cover := Recover(m.cover, b, Pow(k)))
  }

  lemma GrowSound(m: Blocks, b: nat, k: nat)
    requires Sound(m) && k <= MAX_ORDER && Aligned(b, k)
    requires forall p: nat :: b <= p < b + Pow(k) ==> p !in m.cover
    ensures Sound(Grow(m, b, k)) && b !in m.status
    ensures forall p: nat :: p in Grow(m, b, k).cover <==> p in m.cover || b <= p < b + Pow(k)
  {
    var m' := Grow(m, b, k);
    assert b in m.status ==> Covers(m.cover, b, m.status[b].order);
    assert b in m.status ==> CoversPage(m.cover, b, m.status[b].order, b);
    assert b !in m.cover;
    forall j | 0 <= j <= MAX_ORDER ensures ListOwned(m'.status, m'.lists[j], j) {
      assert m.lists[j][..|m.lists[j]|] == m.lists[j];
      OthersListed(m.status, m.lists[j], j, b, Live(k), |m.lists[j]|);
    }
    forall x | x in m'.status ensures PlacedAt(m'.status[x], m'.lists, x) {
      if x != b { assert PlacedAt(m.status[x], m.lists, x); }
    }
    GrowTiled(m.status, m.cover, m'.cover, b, k);
    forall p: nat ensures p in m'.cover <==> p in m.cover || b <= p < b + Pow(k) {
      assert Moved(m.cover, m'.cover, b, Pow(k), p);
    }
  }

  lemma GrowTiled(status: map<nat, Status>, cover: map<nat, nat>, cover': map<nat, nat>, b: nat, k: nat)
    requires Tiled(status, cover) && Aligned(b, k) && b !in status
    requires forall p: nat :: b <= p < b + Pow(k) ==> p !in cover
    requires Recovered(cover, cover', b, Pow(k))
    ensures Tiled(status[b := Live(k)], cover')
  {
    var status' := status[b := Live(k)];
    forall p: nat ensures CoversPage(cover', b, k, p) && PageOf(cover, b, Pow(k), b, p) && InBlock(status', cover', p) {
      assert Moved(cover, cover', b, Pow(k), p) && InBlock(status, cover, p);
    }
    forall x | x in status' ensures Covers(cover', x, status'[x].order) {
      if x != b { CoversKept(cover, cover', x, status[x].order, b, Pow(k), b); }
    }
  }
}
