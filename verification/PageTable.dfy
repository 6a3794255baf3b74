/**
 The radix page table of core/mm.c: table pages of 512 entries, walked from a root at level 0
 or 1 down to level 3.  Walking and mapping are proved against the flat map from page numbers
 to leaf entries that the tree stands for.
 */
module PageTable {
  import opened Wrappers

  const ENTRIES := 512

  /** A leaf entry: physical page, attribute flags, and the access flag that marks it in use. */
  datatype Leaf = Leaf(frame: nat, flags: nat, accessible: bool)

  datatype Entry = Empty | Table(next: nat) | Page(leaf: Leaf)

  /** Table pages by physical page number. */
  type Memory = map<nat, seq<Entry>>

  // ----- addresses -----

  /** The pages one entry at this level spans. */
  function Unit(level: nat): nat
    requires level <= 3
  {
    if level == 3 then 1 else if level == 2 then 512 else if level == 1 then 262144 else 134217728
  }

  /** The pages one table at this level spans. */
  function Span(level: nat): nat
    requires level <= 3
  {
    if level == 3 then 512 else if level == 2 then 262144 else if level == 1 then 134217728 else 68719476736
  }

  /** PIDX of the address of page `pn`. */
  function Index(level: nat, pn: nat): (i: nat)
    requires level <= 3
    ensures i < ENTRIES
  {
    pn / Unit(level) % ENTRIES
  }

  /** The part of a page number that a table at this level resolves. */
  function Low(level: nat, pn: nat): (low: nat)
    requires level <= 3
    ensures low < Span(level) && (pn < Span(level) ==> low == pn)
  {
    if level == 3 then pn % 512 else if level == 2 then pn % 262144
    else if level == 1 then pn % 134217728 else pn % 68719476736
  }

  function Pow2(n: nat): (r: nat)
    ensures r > 0
  {
    if n == 0 then 1 else 2 * Pow2(n - 1)
  }

  /** 2^12, 2^21, 2^30 and 2^39: the bytes one entry of each level spans. */
  lemma UnitBytes(level: nat)
    requires level <= 3
    ensures Pow2(39 - 9 * level) == Unit(level) * 4096
  {
    assert Pow2(4) == 16;
    assert Pow2(8) == 256;
    assert Pow2(12) == 4096;
    assert Pow2(16) == 65536;
    assert Pow2(20) == 1048576;
    assert Pow2(21) == 2097152;
    assert Pow2(25) == 33554432;
    assert Pow2(29) == 536870912;
    assert Pow2(30) == 1073741824;
    assert Pow2(34) == 17179869184;
    assert Pow2(38) == 274877906944;
    assert Pow2(39) == 549755813888;
  }

  /** The index at each of the four levels is nine bits of the address: those from bit 39 - 9 * level up. */
  lemma IndexIsPidx(level: nat, va: nat)
    requires level <= 3
    ensures Index(level, va / 4096) == va / Pow2(39 - 9 * level) % 512
  {
    UnitBytes(level);
    DigitsOf(va);
  }

  /** What a table resolves is its index, and what the table below resolves. */
  lemma SpanSplits(level: nat, a: nat, b: nat)
    requires level <= 3
    ensures Low(level, a) == Low(level, b)
      <==> Index(level, a) == Index(level, b) && (level < 3 ==> Low(level + 1, a) == Low(level + 1, b))
  {
    SplitAt(level, a);
    SplitAt(level, b);
    if level < 3 && Low(level, a) == Low(level, b) {
      UniqueDigits(Unit(level), Index(level, a), Low(level + 1, a), Index(level, b), Low(level + 1, b));
    }
  }

  lemma UniqueDigits(u: nat, d: nat, r: nat, e: nat, s: nat)
    requires r < u && s < u && d * u + r == e * u + s
    ensures d == e && r == s
  {
    assert d < e ==> (d + 1) * u <= e * u;
    assert e < d ==> (e + 1) * u <= d * u;
  }

  /** The indices are the digits of the page number, the one of the last level with weight one. */
  lemma SplitAt(level: nat, a: nat)
    requires level <= 3
    ensures Low(level, a) == Index(level, a) * Unit(level) + if level < 3 then Low(level + 1, a) else 0
    ensures level < 3 ==> Low(level + 1, a) < Unit(level)
  {
    match level
    case 3 =>
    case 0 => Digits0(a);
    case 1 => Digits1(a);
    case 2 => Digits2(a);
  }

  lemma Digits2(a: nat)
    ensures a % 262144 == a / 512 % 512 * 512 + a % 512
  {
  }

  lemma Digits1(a: nat)
    ensures a % 134217728 == a / 262144 % 512 * 262144 + a % 262144
  {
  }

  lemma Digits0(a: nat)
    ensures a % 68719476736 == a / 134217728 % 512 * 134217728 + a % 134217728
  {
  }

  // ----- the tree -----

  /** The slot for page `pn` below table `t`, if all tables on the way exist. */
  function Walk(mem: Memory, t: nat, level: nat, pn: nat): (slot: Option<(nat, nat)>)
    requires level <= 3
    ensures slot.Some? ==> slot.value.1 < ENTRIES
    decreases 3 - level
  {
    if level == 3 then Some((t, Index(3, pn)))
    else if t in mem && |mem[t]| == ENTRIES && mem[t][Index(level, pn)].Table?
    then Walk(mem, mem[t][Index(level, pn)].next, level + 1, pn)
    else None
  }

  /** Entry `i` of table `t` leads to table `n`. */
  predicate Leads(mem: Memory, t: nat, i: nat, n: nat) {
    t in mem && |mem[t]| == ENTRIES && i < ENTRIES && mem[t][i] == Table(n)
  }

  /**
   From a root at level 1, as the hypervisor's own: the walk for an address follows bits 38-30 and 29-21
   and ends in the entry that bits 20-12 number.
   */
  lemma WalkFollowsAddress(mem: Memory, root: nat, va: nat, u: nat, i: nat)
    ensures Walk(mem, root, 1, va / 4096) == Some((u, i))
      <==> (exists t2 :: Leads(mem, root, va / 1073741824 % 512, t2) && Leads(mem, t2, va / 2097152 % 512, u))
           && i == va / 4096 % 512
  {
    var pn := va / 4096;
    DigitsOf(va);
    var t2 := if root in mem && |mem[root]| == ENTRIES && mem[root][Index(1, pn)].Table?
              then mem[root][Index(1, pn)].next else 0;
    assert Walk(mem, root, 1, pn) == Some((u, i))
      <==> Leads(mem, root, Index(1, pn), t2) && Leads(mem, t2, Index(2, pn), u) && i == Index(3, pn);
  }

  lemma DigitsOf(va: nat)
    ensures Index(0, va / 4096) == va / 549755813888 % 512 && Index(1, va / 4096) == va / 1073741824 % 512
    ensures Index(2, va / 4096) == va / 2097152 % 512 && Index(3, va / 4096) == va / 4096 % 512
  {
    Divide0(va);
    Divide1(va);
    Divide2(va);
  }

  lemma Divide0(va: nat)
    ensures va / 4096 / 134217728 == va / 549755813888
  {
  }

  lemma Divide1(va: nat)
    ensures va / 4096 / 262144 == va / 1073741824
  {
  }

  lemma Divide2(va: nat)
    ensures va / 4096 / 512 == va / 2097152
  {
  }

  /** From a root at level 0, as the guest's: bits 47-39 choose the table where the rest of the walk starts. */
  lemma WalkFollowsWideAddress(mem: Memory, root: nat, va: nat, u: nat, i: nat)
    ensures Walk(mem, root, 0, va / 4096) == Some((u, i))
      <==> exists t1, t2 :: Leads(mem, root, va / 549755813888 % 512, t1) && Leads(mem, t1, va / 1073741824 % 512, t2)
             && Leads(mem, t2, va / 2097152 % 512, u) && i == va / 4096 % 512
  {
    var pn := va / 4096;
    DigitsOf(va);
    if root in mem && |mem[root]| == ENTRIES && mem[root][Index(0, pn)].Table? {
      WalkFollowsAddress(mem, mem[root][Index(0, pn)].next, va, u, i);
    }
  }

  /** Where a table hangs: its level, and the entry that leads to it. */
  datatype Place = Place(level: nat, parent: nat, index: nat)

  /** Every table has one place; its entries lead to tables whose place they are, one level down. */
  ghost predicate Tree(mem: Memory, root: nat, top: nat, shape: map<nat, Place>) {
    && shape.Keys == mem.Keys && root in mem && top <= 3 && shape[root].level == top
    && (forall t :: t in mem ==> |mem[t]| == ENTRIES && shape[t].level <= 3)
    && (forall t, i :: t in mem && 0 <= i < |mem[t]| ==> Fits(mem[t][i], t, i, root, shape))
  }

  ghost predicate Fits(e: Entry, t: nat, i: nat, root: nat, shape: map<nat, Place>) {
    t in shape &&
    match e
    case Empty => true
    case Table(n) => shape[t].level < 3 && n in shape && shape[n] == Place(shape[t].level + 1, t, i) && n != root
    case Page(_) => shape[t].level == 3
  }

  /** Two walks from tables of the same level that end in one slot started at one table, for the same page. */
  lemma {:induction false} WalksMeet(mem: Memory, root: nat, top: nat, shape: map<nat, Place>, t: nat, u: nat,
                                     level: nat, a: nat, b: nat)
    requires Tree(mem, root, top, shape) && level <= 3 && t in mem && u in mem
    requires shape[t].level == shape[u].level == level
    requires Walk(mem, t, level, a).Some? && Walk(mem, t, level, a) == Walk(mem, u, level, b)
    ensures t == u && Low(level, a) == Low(level, b)
    decreases 3 - level
  {
    if level < 3 {
      var i, j := Index(level, a), Index(level, b);
      var c, d := mem[t][i], mem[u][j];
      assert Fits(c, t, i, root, shape) && Fits(d, u, j, root, shape);
      WalksMeet(mem, root, top, shape, c.next, d.next, level + 1, a, b);
      SpanSplits(level, a, b);
    }
  }

  /** The same page modulo what the table spans gives the same slot. */
  lemma {:induction false} SamePage(mem: Memory, t: nat, level: nat, a: nat, b: nat)
    requires level <= 3 && Low(level, a) == Low(level, b)
    ensures Walk(mem, t, level, a) == Walk(mem, t, level, b)
    decreases 3 - level
  {
    if level < 3 {
      SpanSplits(level, a, b);
      if t in mem && |mem[t]| == ENTRIES && mem[t][Index(level, a)].Table? {
        SamePage(mem, mem[t][Index(level, a)].next, level + 1, a, b);
      }
    }
  }

  /** A walk that succeeds ends in a table of the last level. */
  lemma {:induction false} WalkEnds(mem: Memory, root: nat, top: nat, shape: map<nat, Place>, t: nat, level: nat,
                                    pn: nat)
    requires Tree(mem, root, top, shape) && level <= 3 && t in mem && shape[t].level == level
    requires Walk(mem, t, level, pn).Some?
    ensures Walk(mem, t, level, pn).value.0 in mem && shape[Walk(mem, t, level, pn).value.0].level == 3
    decreases 3 - level
  {
    if level < 3 {
      var e := mem[t][Index(level, pn)];
      assert Fits(e, t, Index(level, pn), root, shape);
      WalkEnds(mem, root, top, shape, e.next, level + 1, pn);
    }
  }

  /** The flat map: the leaf entry of page `pn`, or nothing. */
  function Lookup(mem: Memory, t: nat, level: nat, pn: nat): Option<Leaf>
    requires level <= 3
  {
    match Walk(mem, t, level, pn)
    case None => None
    case Some((u, i)) => if u in mem && i < |mem[u]| && mem[u][i].Page? then Some(mem[u][i].leaf) else None
  }

  // ----- changing the tree -----

  function Put(mem: Memory, t: nat, i: nat, e: Entry): Memory
    requires t in mem && i < |mem[t]|
  {
    mem[t := mem[t][i := e]]
  }

  function NoEntries(): seq<Entry> { seq(ENTRIES, _ => Empty) }

  /** Hang a new, empty table into an unused entry. */
  function Grow(mem: Memory, t: nat, i: nat, page: nat): Memory
    requires t in mem && i < |mem[t]|
  {
    Put(mem, t, i, Table(page))[page := NoEntries()]
  }

  lemma GrowKeepsTree(mem: Memory, root: nat, top: nat, shape: map<nat, Place>, t: nat, i: nat, page: nat)
    requires Tree(mem, root, top, shape) && t in mem && shape[t].level < 3 && i < ENTRIES && mem[t][i] == Empty
    requires page !in mem
    ensures Tree(Grow(mem, t, i, page), root, top, shape[page := Place(shape[t].level + 1, t, i)])
  {
    var mem', shape' := Grow(mem, t, i, page), shape[page := Place(shape[t].level + 1, t, i)];
    forall u, j | u in mem' && 0 <= j < |mem'[u]| ensures Fits(mem'[u][j], u, j, root, shape') {
      if u != page && (u != t || j != i) { assert Fits(mem[u][j], u, j, root, shape); }
    }
  }

  /** A new table translates nothing, so growing the tree changes no translation. */
  lemma {:induction false} GrowKeepsLookups(mem: Memory, root: nat, top: nat, shape: map<nat, Place>, t: nat, i: nat,
                                            page: nat,
                                            w: nat, level: nat, pn: nat)
    requires Tree(mem, root, top, shape) && t in mem && shape[t].level < 3 && i < ENTRIES && mem[t][i] == Empty
    requires page !in mem
    requires w in mem && shape[w].level == level
    ensures Lookup(Grow(mem, t, i, page), w, level, pn) == Lookup(mem, w, level, pn)
    decreases 3 - level
  {
    var mem' := Grow(mem, t, i, page);
    if level < 3 {
      var e := mem[w][Index(level, pn)];
      assert Fits(e, w, Index(level, pn), root, shape);
      if e.Table? {
        GrowKeepsLookups(mem, root, top, shape, t, i, page, e.next, level + 1, pn);
      } else if w == t && Index(level, pn) == i {
        assert Lookup(mem', page, level + 1, pn) == None;
      }
    }
  }

  lemma LeafKeepsTree(mem: Memory, root: nat, top: nat, shape: map<nat, Place>, t: nat, i: nat, leaf: Leaf)
    requires Tree(mem, root, top, shape) && t in mem && shape[t].level == 3 && i < ENTRIES
    ensures Tree(Put(mem, t, i, Page(leaf)), root, top, shape)
  {
    var mem' := Put(mem, t, i, Page(leaf));
    forall u, j | u in mem' && 0 <= j < |mem'[u]| ensures Fits(mem'[u][j], u, j, root, shape) {
      if (u, j) != (t, i) { assert Fits(mem[u][j], u, j, root, shape); }
    }
  }

  /** Writing a leaf moves no slot. */
  lemma {:induction false} LeafKeepsWalks(mem: Memory, root: nat, top: nat, shape: map<nat, Place>, t: nat, i: nat,
                                          leaf: Leaf,
                                          w: nat, level: nat, pn: nat)
    requires Tree(mem, root, top, shape) && t in mem && shape[t].level == 3 && i < ENTRIES
    requires w in mem && shape[w].level == level
    ensures Walk(Put(mem, t, i, Page(leaf)), w, level, pn) == Walk(mem, w, level, pn)
    decreases 3 - level
  {
    if level < 3 {
      var e := mem[w][Index(level, pn)];
      assert Fits(e, w, Index(level, pn), root, shape);
      if e.Table? { LeafKeepsWalks(mem, root, top, shape, t, i, leaf, e.next, level + 1, pn); }
    }
  }

  /** Writing the leaf of page `pn` changes the translation of that page and of no other. */
  lemma LeafChangesOnePage(mem: Memory, root: nat, top: nat, shape: map<nat, Place>, pn: nat, leaf: Leaf, other: nat)
    requires Tree(mem, root, top, shape) && Walk(mem, root, top, pn).Some?
    requires var (t, i) := Walk(mem, root, top, pn).value; t in mem && i < |mem[t]|
    ensures var (t, i) := Walk(mem, root, top, pn).value;
      Lookup(Put(mem, t, i, Page(leaf)), root, top, other)
      == if Low(top, other) == Low(top, pn) then Some(leaf) else Lookup(mem, root, top, other)
  {
    var (t, i) := Walk(mem, root, top, pn).value;
    WalkEnds(mem, root, top, shape, root, top, pn);
    LeafKeepsWalks(mem, root, top, shape, t, i, leaf, root, top, other);
    if Low(top, other) == Low(top, pn) {
      SamePage(mem, root, top, other, pn);
    } else if Walk(mem, root, top, other) == Walk(mem, root, top, pn) {
      WalksMeet(mem, root, top, shape, root, root, top, other, pn);
    }
  }

  // ----- the code -----

  datatype MapResult = Mapped | NoMemory | InUse

  /**
   The leaf entry of `page` after `done` pages from `first` have been mapped, given what it was before.
   Pages that agree on what the root resolves share their entry.
   */
  function Overlay(top: nat, before: Option<Leaf>, page: nat, first: nat, frame: nat, done: nat,
                   flags: nat): Option<Leaf>
    requires top <= 3
  {
    if done == 0 then before
    else if Low(top, page) == Low(top, first + done - 1) then Some(Leaf(frame + done - 1, flags, true))
    else Overlay(top, before, page, first, frame, done - 1, flags)
  }

  /** Within the span of the root, page number and entry are one to one. */
  lemma {:induction false} OverlayInSpan(top: nat, before: Option<Leaf>, page: nat, first: nat, frame: nat, done: nat,
                                         flags: nat)
    requires top <= 3 && page < Span(top) && first + done <= Span(top)
    ensures Overlay(top, before, page, first, frame, done, flags)
      == if first <= page < first + done then Some(Leaf(frame + (page - first), flags, true)) else before
    decreases done
  {
    if done > 0 { OverlayInSpan(top, before, page, first, frame, done - 1, flags); }
  }

  predicate Marked(e: Option<Leaf>) {
    e.Some? && e.value.accessible
  }

  /** No entry of the `done` pages from `first` was in use. */
  ghost predicate AllUnused(mem: Memory, root: nat, top: nat, first: nat, done: nat)
    requires top <= 3
  {
    forall k :: first <= k < first + done ==> !Marked(Lookup(mem, root, top, k))
  }

  /** An entry is in use afterwards if it was before, or if the range has a page with this entry. */
  lemma {:induction false} OverlayInUse(top: nat, before: Option<Leaf>, page: nat, first: nat, frame: nat, done: nat,
                                        flags: nat)
    requires top <= 3
    ensures Marked(Overlay(top, before, page, first, frame, done, flags))
      <==> Marked(before) || Hit(top, first, done, page)
    decreases done
  {
    if done > 0 {
      OverlayInUse(top, before, page, first, frame, done - 1, flags);
      assert first <= first + done - 1 < first + done;
    }
  }

  /** One of the pages shares the entry of `page`. */
  ghost predicate Hit(top: nat, first: nat, done: nat, page: nat)
    requires top <= 3
  {
    exists k :: first <= k < first + done && Low(top, k) == Low(top, page)
  }

  /** The entry of the page after those is in use, by an earlier mapping or by one of them. */
  ghost predicate Blocked(mem: Memory, root: nat, top: nat, first: nat, done: nat)
    requires top <= 3
  {
    Marked(Lookup(mem, root, top, first + done)) || Hit(top, first, done, first + done)
  }

  ghost predicate Overlaid(mem: Memory, mem': Memory, root: nat, top: nat, first: nat, frame: nat, done: nat,
                           flags: nat, p: nat)
    requires top <= 3
  {
    Lookup(mem', root, top, p) == Overlay(top, Lookup(mem, root, top, p), p, first, frame, done, flags)
  }

  /** The entry of `pn` is `leaf` now, if there is one; every other is as before. */
  ghost predicate Written(mem: Memory, mem': Memory, root: nat, top: nat, pn: nat, leaf: Option<Leaf>, p: nat)
    requires top <= 3
  {
    Lookup(mem', root, top, p) == if leaf.Some? && Low(top, p) == Low(top, pn) then leaf else Lookup(mem, root, top, p)
  }

  lemma OverlayOneMore(mem: Memory, m: Memory, m': Memory, root: nat, top: nat, first: nat, frame: nat, done: nat,
                       flags: nat,
                       pn: nat, leaf: Leaf, next: nat)
    requires top <= 3 && pn == first + done && leaf == Leaf(frame + done, flags, true) && next == done + 1
    requires forall p: nat :: Overlaid(mem, m, root, top, first, frame, done, flags, p)
    requires forall p: nat :: Written(m, m', root, top, pn, Some(leaf), p)
    ensures forall p: nat :: Overlaid(mem, m', root, top, first, frame, next, flags, p)
  {
    forall p: nat ensures Overlaid(mem, m', root, top, first, frame, next, flags, p) {
      assert Overlaid(mem, m, root, top, first, frame, done, flags, p) && Written(m, m', root, top, pn, Some(leaf), p);
    }
  }

  lemma OverlaySame(mem: Memory, m: Memory, m': Memory, root: nat, top: nat, first: nat, frame: nat, done: nat,
                    flags: nat, pn: nat)
    requires top <= 3
    requires forall p: nat :: Overlaid(mem, m, root, top, first, frame, done, flags, p)
    requires forall p: nat :: Written(m, m', root, top, pn, None, p)
    ensures forall p: nat :: Overlaid(mem, m', root, top, first, frame, done, flags, p)
  {
    forall p: nat ensures Overlaid(mem, m', root, top, first, frame, done, flags, p) {
      assert Overlaid(mem, m, root, top, first, frame, done, flags, p) && Written(m, m', root, top, pn, None, p);
    }
  }

  ghost predicate Same(mem: Memory, mem': Memory, root: nat, top: nat, p: nat)
    requires top <= 3
  {
    Lookup(mem', root, top, p) == Lookup(mem, root, top, p)
  }

  lemma SameIsWritten(mem: Memory, mem': Memory, root: nat, top: nat, pn: nat)
    requires top <= 3
    requires forall p: nat :: Same(mem, mem', root, top, p)
    ensures forall p: nat :: Written(mem, mem', root, top, pn, None, p)
  {
    forall p: nat ensures Written(mem, mem', root, top, pn, None, p) { assert Same(mem, mem', root, top, p); }
  }

  lemma SameAgain(mem: Memory, m: Memory, m': Memory, root: nat, top: nat)
    requires top <= 3
    requires (forall p: nat :: Same(mem, m, root, top, p)) && (forall p: nat :: Same(m, m', root, top, p))
    ensures forall p: nat :: Same(mem, m', root, top, p)
  {
    forall p: nat ensures Same(mem, m', root, top, p) {
      assert Same(mem, m, root, top, p) && Same(m, m', root, top, p);
    }
  }

  /** At most `most` pages were handed out, in order. */
  ghost predicate TakenFrom(before: seq<nat>, after: seq<nat>, most: nat) {
    after == before || (most > 0 && before != [] && TakenFrom(before[1..], after, most - 1))
  }

  lemma {:induction false} TakenOneMore(before: seq<nat>, mid: seq<nat>, after: seq<nat>, most: nat)
    requires TakenFrom(before, mid, most) && TakenFrom(mid, after, 1)
    ensures TakenFrom(before, after, most + 1)
  {
    if mid != before { TakenOneMore(before[1..], mid, after, most - 1); }
  }

  lemma WrittenAfter(mem: Memory, m: Memory, m': Memory, root: nat, top: nat, pn: nat, leaf: Leaf)
    requires top <= 3
    requires forall p: nat :: Written(mem, m, root, top, pn, None, p)
    requires forall p: nat :: Written(m, m', root, top, pn, Some(leaf), p)
    ensures forall p: nat :: Written(mem, m', root, top, pn, Some(leaf), p)
  {
    forall p: nat ensures Written(mem, m', root, top, pn, Some(leaf), p) {
      assert Written(mem, m, root, top, pn, None, p) && Written(m, m', root, top, pn, Some(leaf), p);
    }
  }

  function Cleared(before: Option<Leaf>, hit: bool): Option<Leaf> {
    if hit && before.Some? then Some(before.value.(accessible := false)) else before
  }

  class Tables {
    const root: nat
    const top: nat
    var mem: Memory
    var free: seq<nat>           // pages the page allocator will hand out, zeroed
    ghost var shape: map<nat, Place>

    ghost predicate Valid()
      reads this
    {
      && (top == 0 || top == 1)
      && Tree(mem, root, top, shape)
      && (forall k :: 0 <= k < |free| ==> free[k] !in mem)
      && (forall j, k :: 0 <= j < k < |free| ==> free[j] != free[k])
    }

    /** The flat map the tree stands for. */
    function At(pn: nat): Option<Leaf>
      reads this
      requires top <= 3
    {
      Lookup(mem, root, top, pn)
    }

    predicate InUseAt(pn: nat)
      reads this
      requires top <= 3
    {
      Marked(At(pn))
    }

    constructor (rootPage: nat, rootLevel: nat, pages: seq<nat>)
      requires rootLevel == 0 || rootLevel == 1
      requires rootPage !in pages && forall j, k :: 0 <= j < k < |pages| ==> pages[j] != pages[k]
      ensures Valid() && root == rootPage && top == rootLevel && free == pages
      ensures forall pn: nat :: At(pn) == None
    {
      root, top, free := rootPage, rootLevel, pages;
      mem, shape := map[rootPage := NoEntries()], map[rootPage := Place(rootLevel, 0, 0)];
    }

    /** alloc_page and pte_set_table: hang a new table into an unused entry. */
    method AddTable(t: nat, i: nat) returns (page: nat)
      requires Valid() && t in mem && shape[t].level < 3 && i < ENTRIES && mem[t][i] == Empty && free != []
      modifies this
      ensures Valid() && page == old(free)[0] && page !in old(mem) && free == old(free)[1..]
      ensures mem == Grow(old(mem), t, i, page) && shape == old(shape)[page := Place(old(shape)[t].level + 1, t, i)]
      ensures forall p: nat :: Same(old(mem), mem, root, top, p)
    {
      page := free[0];
      GrowKeepsTree(mem, root, top, shape, t, i, page);
      forall p: nat ensures Same(mem, Grow(mem, t, i, page), root, top, p) {
        GrowKeepsLookups(mem, root, top, shape, t, i, page, root, top, p);
      }
      mem := Grow(mem, t, i, page);
      shape := shape[page := Place(shape[t].level + 1, t, i)];
      free := free[1..];
    }

    /** One level of pagewalk: the table below `t` on the way to page `pn`, created if asked to. */
    method Descend(t: nat, lv: nat, pn: nat, create: bool) returns (next: Option<nat>)
      requires Valid() && top <= lv < 3 && t in mem && shape[t].level == lv
      requires PathTo(mem, root, top, lv, pn) == Some(t)
      modifies this
      ensures Valid() && forall p: nat :: Same(old(mem), mem, root, top, p)
      ensures next.None? ==> Walk(mem, root, top, pn) == None && (create ==> free == [])
      ensures next.Some? ==> next.value in mem && shape[next.value].level == lv + 1
      ensures next.Some? ==> PathTo(mem, root, top, lv + 1, pn) == next
      ensures !create || next.None? || Walk(old(mem), root, top, pn).Some?
        ==> mem == old(mem) && free == old(free) && shape == old(shape)
      ensures TakenFrom(old(free), free, 1)
    {
      var i := Index(lv, pn);
      assert Fits(mem[t][i], t, i, root, shape);
      PathWalk(mem, root, top, lv, pn);
      if mem[t][i].Table? {
        next := Some(mem[t][i].next);
      } else if create && free != [] {
        GrowKeepsPath(mem, t, i, free[0], root, top, lv, pn);
        var page := AddTable(t, i);
        next := Some(page);
      } else {
        return None;
      }
      PathExtends(mem, root, top, lv, pn);
    }

    /** pagewalk: the slot of page `pn`, creating missing tables if asked to. */
    method PageWalk(pn: nat, create: bool) returns (slot: Option<(nat, nat)>)
      requires Valid()
      modifies this
      ensures Valid()
      ensures forall p: nat :: Same(old(mem), mem, root, top, p)
      ensures !create || Walk(old(mem), root, top, pn).Some?
        ==> mem == old(mem) && free == old(free) && shape == old(shape)
      ensures slot == Walk(mem, root, top, pn)
      ensures slot.Some? ==> slot.value.0 in mem && shape[slot.value.0].level == 3
      ensures create && slot.None? ==> free == []
      ensures TakenFrom(old(free), free, 3 - top)
    {
      var t, lv := root, top;
      while lv < 3
        invariant top <= lv <= 3 && Valid() && t in mem && shape[t].level == lv
        invariant PathTo(mem, root, top, lv, pn) == Some(t)
        invariant forall p: nat :: Same(old(mem), mem, root, top, p)
        invariant !create || Walk(old(mem), root, top, pn).Some?
          ==> mem == old(mem) && free == old(free) && shape == old(shape)
        invariant TakenFrom(old(free), free, lv - top)
      {
        ghost var m, spare := mem, free;
        var next := Descend(t, lv, pn, create);
        SameAgain(old(mem), m, mem, root, top);
        TakenOneMore(old(free), spare, free, lv - top);
        if next == None { return None; }
        t, lv := next.value, lv + 1;
      }
      PathWalk(mem, root, top, 3, pn);
      slot := Some((t, Index(3, pn)));
    }

    /** Write the leaf entry of a page whose tables exist. */
    method SetLeaf(pn: nat, slot: (nat, nat), leaf: Leaf)
      requires Valid() && Walk(mem, root, top, pn) == Some(slot) && slot.0 in mem && shape[slot.0].level == 3
      modifies this`mem
      ensures Valid()
      ensures forall p: nat :: Written(old(mem), mem, root, top, pn, Some(leaf), p)
    {
      LeafKeepsTree(mem, root, top, shape, slot.0, slot.1, leaf);
      forall p: nat
        ensures Written(mem, Put(mem, slot.0, slot.1, Page(leaf)), root, top, pn, Some(leaf), p)
      {
        LeafChangesOnePage(mem, root, top, shape, pn, leaf, p);
      }
      mem := Put(mem, slot.0, slot.1, Page(leaf));
    }

    /** The body of the mappages loop. */
    method MapOne(pn: nat, leaf: Leaf) returns (r: MapResult)
      requires Valid()
      modifies this
      ensures Valid()
      ensures r.InUse? <==> old(InUseAt(pn))
      ensures r.NoMemory? ==> free == [] && Walk(old(mem), root, top, pn) == None
      ensures r.Mapped? ==> forall p: nat :: Written(old(mem), mem, root, top, pn, Some(leaf), p)
      ensures !r.Mapped? ==> forall p: nat :: Written(old(mem), mem, root, top, pn, None, p)
    {
      var slot := PageWalk(pn, true);
      ghost var m := mem;
      assert Same(old(mem), mem, root, top, pn);
      SameIsWritten(old(mem), mem, root, top, pn);
      if slot == None { return NoMemory; }
      var e := mem[slot.value.0][slot.value.1];
      assert InUseAt(pn) <==> e.Page? && e.leaf.accessible;
      if e.Page? && e.leaf.accessible { return InUse; }
      SetLeaf(pn, slot.value, leaf);
      WrittenAfter(old(mem), m, mem, root, top, pn, leaf);
      r := Mapped;
    }

    /**
     mappages: `count` pages from page `first` onto consecutive frames.  It stops at the first page
     that is in use, by an earlier mapping or an earlier page of the range, or when no page is left
     for a table; the pages before that are mapped and no other translation changes.
     */
    method MapPages(first: nat, frame: nat, count: nat, flags: nat) returns (r: MapResult, done: nat)
      requires Valid()
      modifies this
      ensures Valid() && done <= count
      ensures forall p: nat :: Overlaid(old(mem), mem, root, top, first, frame, done, flags, p)
      ensures r.Mapped? <==> done == count
      ensures r.InUse? <==> done < count && Blocked(old(mem), root, top, first, done)
      ensures AllUnused(old(mem), root, top, first, done)
      ensures r.NoMemory? ==> free == []
    {
      done := 0;
      while done < count
        invariant 0 <= done <= count && Valid()
        invariant forall p: nat :: Overlaid(old(mem), mem, root, top, first, frame, done, flags, p)
        invariant AllUnused(old(mem), root, top, first, done)
      {
        r := MapNext(old(mem), first, frame, done, done + 1, flags);
        if !r.Mapped? { return; }
        done := done + 1;
      }
      r := Mapped;
    }

    /** The mappages loop at its next page, `start` being the memory it found. */
    method MapNext(ghost start: Memory, first: nat, frame: nat, done: nat, ghost next: nat,
                   flags: nat) returns (r: MapResult)
      requires Valid() && next == done + 1
      requires forall p: nat :: Overlaid(start, mem, root, top, first, frame, done, flags, p)
      modifies this
      ensures Valid()
      ensures r.Mapped? && AllUnused(start, root, top, first, done) ==> AllUnused(start, root, top, first, next)
      ensures r.Mapped? ==> forall p: nat :: Overlaid(start, mem, root, top, first, frame, next, flags, p)
      ensures !r.Mapped? ==> forall p: nat :: Overlaid(start, mem, root, top, first, frame, done, flags, p)
      ensures r.InUse? <==> Blocked(start, root, top, first, done)
      ensures r.NoMemory? ==> free == []
    {
      var pn, leaf := first + done, Leaf(frame + done, flags, true);
      assert Marked(At(pn)) <==> Blocked(start, root, top, first, done) by {
        assert Overlaid(start, mem, root, top, first, frame, done, flags, pn);
        OverlayInUse(top, Lookup(start, root, top, pn), pn, first, frame, done, flags);
      }
      r := MapOne(pn, leaf);
      if r.Mapped? {
        OverlayOneMore(start, old(mem), mem, root, top, first, frame, done, flags, pn, leaf, next);
      } else {
        OverlaySame(start, old(mem), mem, root, top, first, frame, done, flags, pn);
      }
    }

    /**
     s2_page_invalidate: clear the access flag; the rest of the entry stays until the page is mapped
     again.  The result is the frame it frees: that of the entry, or 0 if the entry was never
     written; None where there is no table for the page and the source panics.
     */
    method Invalidate(pn: nat) returns (freed: Option<nat>)
      requires Valid()
      modifies this
      ensures Valid() && (freed == None <==> Walk(old(mem), root, top, pn) == None)
      ensures freed.Some? ==> freed.value == if old(At(pn)).Some? then old(At(pn)).value.frame else 0
      ensures forall p: nat :: At(p) == Cleared(old(At(p)), Low(top, p) == Low(top, pn))
    {
      var slot := PageWalk(pn, false);
      if slot == None {
        forall p: nat | Low(top, p) == Low(top, pn) ensures At(p) == None { SamePage(mem, root, top, p, pn); }
        return None;
      }
      forall p: nat | Low(top, p) == Low(top, pn) ensures At(p) == At(pn) { SamePage(mem, root, top, p, pn); }
      var e := mem[slot.value.0][slot.value.1];
      if !e.Page? { return Some(0); }
      SetLeaf(pn, slot.value, e.leaf.(accessible := false));
      forall p: nat ensures At(p) == Cleared(old(At(p)), Low(top, p) == Low(top, pn)) {
        assert Written(old(mem), mem, root, top, pn, Some(e.leaf.(accessible := false)), p);
      }
      freed := Some(e.leaf.frame);
    }
  }

  /** The table of level `to` on the way to page `pn`. */
  function PathTo(mem: Memory, t: nat, level: nat, to: nat, pn: nat): Option<nat>
    requires level <= to <= 3
    decreases 3 - level
  {
    if level == to then Some(t)
    else if t in mem && |mem[t]| == ENTRIES && mem[t][Index(level, pn)].Table?
    then PathTo(mem, mem[t][Index(level, pn)].next, level + 1, to, pn)
    else None
  }

  lemma {:induction false} PathWalk(mem: Memory, t: nat, level: nat, to: nat, pn: nat)
    requires level <= to <= 3 && PathTo(mem, t, level, to, pn).Some?
    ensures Walk(mem, t, level, pn) == Walk(mem, PathTo(mem, t, level, to, pn).value, to, pn)
    decreases 3 - level
  {
    if level < to { PathWalk(mem, mem[t][Index(level, pn)].next, level + 1, to, pn); }
  }

  lemma {:induction false} PathExtends(mem: Memory, t: nat, level: nat, to: nat, pn: nat)
    requires level <= to < 3 && PathTo(mem, t, level, to, pn).Some?
    requires var u := PathTo(mem, t, level, to, pn).value;
      u in mem && |mem[u]| == ENTRIES && mem[u][Index(to, pn)].Table?
    ensures PathTo(mem, t, level, to + 1, pn) == Some(mem[PathTo(mem, t, level, to, pn).value][Index(to, pn)].next)
    decreases 3 - level
  {
    if level < to { PathExtends(mem, mem[t][Index(level, pn)].next, level + 1, to, pn); }
  }

  lemma {:induction false} GrowKeepsPath(mem: Memory, t: nat, i: nat, page: nat, w: nat, level: nat, to: nat, pn: nat)
    requires t in mem && i < |mem[t]| && mem[t][i] == Empty && page !in mem
    requires level <= to <= 3 && PathTo(mem, w, level, to, pn).Some?
    ensures PathTo(Grow(mem, t, i, page), w, level, to, pn) == PathTo(mem, w, level, to, pn)
    decreases 3 - level
  {
    if level < to { GrowKeepsPath(mem, t, i, page, mem[w][Index(level, pn)].next, level + 1, to, pn); }
  }
}
