/**
 How the page allocator gets its memory: the early region behind the image (core/allocpage.c), the
 reserved ranges (core/memory.c) and the memory slots minus those ranges. Addresses are in bytes.
 */
module BootMemory {
  import opened PageBlocks
  import opened Counting
  import opened PageAllocator
  import opened Units

  const BIG := 0x20_0000       // 2 MiB, a block of the largest order
  const NBLOCK_MAX := 16

  datatype Range = Range(start: nat, end: nat)

  function AlignDown(a: nat): (r: nat)
    ensures r % BIG == 0 && r <= a < r + BIG
  {
    a / BIG * BIG
  }

  function AlignUp(a: nat): (r: nat)
    ensures r % BIG == 0 && a <= r < a + BIG
  {
    (a + BIG - 1) / BIG * BIG
  }

  predicate In(r: Range, a: nat) {
    r.start <= a < r.end
  }

  ghost predicate InSome(rs: seq<Range>, a: nat) {
    exists k :: 0 <= k < |rs| && In(rs[k], a)
  }

  ghost predicate Rounded(r: Range) {
    r.start % BIG == 0 && r.end % BIG == 0
  }

  ghost predicate AllRounded(rs: seq<Range>) {
    forall k :: 0 <= k < |rs| ==> Rounded(rs[k])
  }

  ghost predicate DisjointRanges(r: Range, s: Range) {
    r.end <= s.start || s.end <= r.start
  }

  /** All of a 2 MiB block is inside a rounded range, or none of it. */
  lemma WholeBlock(r: Range, base: nat, a: nat)
    requires Rounded(r) && base % BIG == 0 && base <= a < base + BIG
    ensures In(r, a) <==> In(r, base)
  {
    assert r.start == BIG * (r.start / BIG) && r.end == BIG * (r.end / BIG) && base == BIG * (base / BIG);
  }

  lemma WholeBlockInSome(rs: seq<Range>, base: nat, a: nat)
    requires AllRounded(rs) && base % BIG == 0 && base <= a < base + BIG
    ensures InSome(rs, a) <==> InSome(rs, base)
  {
    forall k | 0 <= k < |rs| ensures In(rs[k], a) <==> In(rs[k], base) {
      WholeBlock(rs[k], base, a);
    }
  }

  /** The reserved ranges of core/memory.c. */
  class Reservations {
    var reserved: seq<Range>

    ghost predicate Valid()
      reads this
    {
      AllRounded(reserved)
    }

    constructor ()
      ensures Valid() && reserved == []
    {
      reserved := [];
    }

    /** system_memory_reserve. */
    method Reserve(start: nat, end: nat)
      requires Valid() && |reserved| < NBLOCK_MAX
      modifies this
      ensures Valid() && reserved == old(reserved) + [Range(AlignDown(start), AlignUp(end))]
    {
      reserved := reserved + [Range(AlignDown(start), AlignUp(end))];
    }

    /** is_reserved. */
    method IsReserved(a: nat) returns (r: bool)
      ensures r <==> InSome(reserved, a)
    {
      var k := 0;
      while k < |reserved|
        invariant 0 <= k <= |reserved| && forall j :: 0 <= j < k ==> !In(reserved[j], a)
      {
        if In(reserved[k], a) {
          return true;
        }
        k := k + 1;
      }
      return false;
    }
  }

  /** The pages managed are those from before, and those of `slots` and `part` that are not reserved. */
  ghost predicate Managed(before: map<nat, nat>, after: map<nat, nat>, slots: seq<Range>, part: Range,
                          reserved: seq<Range>) {
    forall p: nat :: ManagedAt(before, after, slots, part, reserved, p)
  }

  ghost predicate ManagedAt(before: map<nat, nat>, after: map<nat, nat>, slots: seq<Range>, part: Range,
                            reserved: seq<Range>, p: nat) {
    p in after <==> p in before || ((InSome(slots, p * PAGE) || In(part, p * PAGE)) && !InSome(reserved, p * PAGE))
  }

  lemma BlockPages(a: nat)
    requires a % BIG == 0
    ensures a % PAGE == 0 && Aligned(a / PAGE, MAX_ORDER) && Pow(MAX_ORDER) == 512
  {
    AlignedIsMultiple(a / PAGE, MAX_ORDER);
    assert Pow(MAX_ORDER) == 512 by {
      assert Pow(0) == 1 && Pow(1) == 2 && Pow(2) == 4 && Pow(3) == 8 && Pow(4) == 16;
      assert Pow(5) == 32 && Pow(6) == 64 && Pow(7) == 128 && Pow(8) == 256;
    }
  }

  /** The numbers from `first` up to `end`. */
  ghost function Numbers(first: nat, end: nat): seq<nat>
    requires first <= end
  {
    if first == end then [] else Numbers(first, end - 1) + [end - 1]
  }

  /** The loop of early_allocator_init, over the pages from `first` up to `end`. */
  method AddSmallPages(zone: Zone, first: nat, end: nat)
    requires zone.Valid() && zone.m.cover == map[] && first <= end
    modifies zone, zone.chunks
    ensures zone.Valid() && forall p: nat :: p in zone.m.cover <==> first <= p < end
    ensures zone.m.lists == old(zone.m.lists)[0 := old(zone.m.lists)[0] + Numbers(first, end)]
  {
    var v := first;
    ghost var small := zone.m.lists[0];
    assert small + Numbers(first, first) == small;
    while v < end
      invariant first <= v <= end && zone.Valid()
      invariant forall p: nat :: p in zone.m.cover <==> first <= p < v
      invariant zone.m.lists == old(zone.m.lists)[0 := old(zone.m.lists)[0] + Numbers(first, v)]
    {
      assert Pow(0) == 1;
      assert small + Numbers(first, v + 1) == small + Numbers(first, v) + [v];
      zone.AddPages(v, 0);
      v := v + 1;
    }
  }

  /** early_allocator_init: four 2 MiB blocks behind the image, page by page. */
  method EarlyInit(zone: Zone, imageEnd: nat) returns (early: Range)
    requires zone.Valid() && zone.m.cover == map[]
    modifies zone, zone.chunks
    ensures zone.Valid() && early == Range(AlignUp(imageEnd), AlignUp(imageEnd) + 4 * BIG)
    ensures forall p: nat :: p in zone.m.cover <==> In(early, p * PAGE)
    ensures zone.m.lists
      == old(zone.m.lists)[0 := old(zone.m.lists)[0] + Numbers(early.start / PAGE, early.end / PAGE)]
  {
    early := Range(AlignUp(imageEnd), AlignUp(imageEnd) + 4 * BIG);
    AddSmallPages(zone, early.start / PAGE, early.end / PAGE);
    forall p: nat ensures p in zone.m.cover <==> In(early, p * PAGE) {
      PageIn(early, p);
    }
  }

  lemma PageIn(r: Range, p: nat)
    requires r.start % BIG == 0 && r.end % BIG == 0
    ensures In(r, p * PAGE) <==> r.start / PAGE <= p < r.end / PAGE
  {
    BlockPages(r.start);
    BlockPages(r.end);
    assert r.start == PAGE * (r.start / PAGE) && r.end == PAGE * (r.end / PAGE);
  }

  ghost predicate AllReserved(cover: map<nat, nat>, reserved: seq<Range>) {
    forall p: nat :: p in cover ==> InSome(reserved, p * PAGE)
  }

  // ----- the blocks the two loops take -----

  /** A 2 MiB block that starts in the range and is not reserved. */
  ghost predicate Gives(r: Range, reserved: seq<Range>, x: nat) {
    x % BIG == 0 && In(r, x) && !InSome(reserved, x)
  }

  /** The addresses the inner loop of pageallocator_init passes on, from `s` up. */
  ghost function TakenFrom(slot: Range, s: nat, reserved: seq<Range>): seq<nat>
    decreases slot.end - s
  {
    if s >= slot.end then []
    else if InSome(reserved, s) then TakenFrom(slot, s + BIG, reserved)
    else [s] + TakenFrom(slot, s + BIG, reserved)
  }

  /** The addresses pageallocator_init passes to init_free_pages, in order. */
  ghost function Taken(slots: seq<Range>, reserved: seq<Range>): seq<nat> {
    if slots == [] then []
    else var n := |slots| - 1; Taken(slots[..n], reserved) + TakenFrom(slots[n], slots[n].start, reserved)
  }

  ghost predicate AlignedStarts(slots: seq<Range>) {
    forall k :: 0 <= k < |slots| ==> slots[k].start % BIG == 0
  }

  lemma {:induction false} TakenFromHas(slot: Range, s: nat, reserved: seq<Range>, x: nat)
    requires s % BIG == 0
    ensures x in TakenFrom(slot, s, reserved) <==> s <= x && Gives(slot.(start := s), reserved, x)
    decreases slot.end - s
  {
    if s < slot.end {
      TakenFromHas(slot, s + BIG, reserved, x);
      assert s <= x && x % BIG == 0 && x != s ==> s + BIG <= x by { BlocksApartBy(s, x); }
    }
  }

  lemma BlocksApartBy(s: nat, x: nat)
    requires s % BIG == 0
    ensures x % BIG == 0 && s < x ==> s + BIG <= x
  {
    assert s == BIG * (s / BIG) && x == BIG * (x / BIG) + x % BIG;
  }

  lemma {:induction false} TakenFromOnce(slot: Range, s: nat, reserved: seq<Range>)
    requires s % BIG == 0
    ensures Distinct(TakenFrom(slot, s, reserved))
    decreases slot.end - s
  {
    if s < slot.end {
      TakenFromOnce(slot, s + BIG, reserved);
      TakenFromHas(slot, s + BIG, reserved, s);
      var rest := TakenFrom(slot, s + BIG, reserved);
      assert ([s] + rest)[1..] == rest;
    }
  }

  lemma {:induction false} TakenHas(slots: seq<Range>, reserved: seq<Range>, x: nat)
    requires AlignedStarts(slots)
    ensures x in Taken(slots, reserved) <==> exists i :: 0 <= i < |slots| && Gives(slots[i], reserved, x)
  {
    if slots != [] {
      var n := |slots| - 1;
      var front := slots[..n];
      TakenHas(front, reserved, x);
      TakenFromHas(slots[n], slots[n].start, reserved, x);
      assert forall i :: 0 <= i < n ==> front[i] == slots[i];
      assert forall i :: 0 <= i < |slots| ==> i < n || slots[i] == slots[n];
    }
  }

  /** No two slots share a block outside the reserved ranges. */
  ghost predicate Unshared(slots: seq<Range>, reserved: seq<Range>) {
    forall i, j, x: nat :: 0 <= i < j < |slots| && Gives(slots[i], reserved, x) ==> !Gives(slots[j], reserved, x)
  }

  /** No block is taken twice if and only if no two slots share a block outside the reserved ranges. */
  lemma {:induction false} TakenOnce(slots: seq<Range>, reserved: seq<Range>)
    requires AlignedStarts(slots)
    ensures Distinct(Taken(slots, reserved)) <==> Unshared(slots, reserved)
  {
    if slots != [] {
      var n := |slots| - 1;
      var front, last := slots[..n], slots[n];
      var a, b := Taken(front, reserved), TakenFrom(last, last.start, reserved);
      TakenOnce(front, reserved);
      TakenFromOnce(last, last.start, reserved);
      DistinctConcat(a, b);
      forall x: nat ensures x in a && x in b <==> SharedWithLast(slots, reserved, x) {
        TakenHas(front, reserved, x);
        TakenFromHas(last, last.start, reserved, x);
        LastShares(slots, reserved, x);
      }
      UnsharedFront(slots, reserved);
    }
  }

  /** The last slot gives a block that an earlier one gives as well. */
  ghost predicate SharedWithLast(slots: seq<Range>, reserved: seq<Range>, x: nat) {
    && slots != [] && Gives(slots[|slots| - 1], reserved, x)
    && exists i :: 0 <= i < |slots| - 1 && Gives(slots[i], reserved, x)
  }

  lemma LastShares(slots: seq<Range>, reserved: seq<Range>, x: nat)
    requires slots != []
    ensures var front := slots[..|slots| - 1];
      (exists i :: 0 <= i < |front| && Gives(front[i], reserved, x))
      <==> exists i :: 0 <= i < |slots| - 1 && Gives(slots[i], reserved, x)
  {
    var front := slots[..|slots| - 1];
    forall i | 0 <= i < |front| ensures front[i] == slots[i] {
    }
    if i :| 0 <= i < |slots| - 1 && Gives(slots[i], reserved, x) { assert Gives(front[i], reserved, x); }
  }

  lemma UnsharedFront(slots: seq<Range>, reserved: seq<Range>)
    requires slots != []
    ensures Unshared(slots, reserved)
      <==> Unshared(slots[..|slots| - 1], reserved) && forall x: nat :: !SharedWithLast(slots, reserved, x)
  {
    var n := |slots| - 1;
    var front := slots[..n];
    forall i | 0 <= i < n ensures front[i] == slots[i] {
    }
    if Unshared(front, reserved) && forall x: nat :: !SharedWithLast(slots, reserved, x) {
      forall i, j, x: nat | 0 <= i < j < |slots| && Gives(slots[i], reserved, x) ensures !Gives(slots[j], reserved, x) {
        if j == n {
          assert !SharedWithLast(slots, reserved, x);
        } else {
          assert Gives(front[i], reserved, x) && slots[j] == front[j];
        }
      }
    }
    if Unshared(slots, reserved) {
      forall i, j, x: nat | 0 <= i < j < n && Gives(front[i], reserved, x) ensures !Gives(front[j], reserved, x) {
        assert Gives(slots[i], reserved, x);
      }
    }
  }

  /** An input on which a block is taken twice: the first slot ends inside the first block of the second. */
  lemma BlockTakenTwice()
    ensures !Distinct(Taken([Range(0, 0x40_1000), Range(0x40_0000, 0x80_0000)], []))
  {
    var slots := [Range(0, 0x40_1000), Range(0x40_0000, 0x80_0000)];
    TakenOnce(slots, []);
    assert Gives(slots[0], [], 0x40_0000) && Gives(slots[1], [], 0x40_0000);
  }

  /** Reserving the block that two slots share is enough. */
  lemma ReservedBlockTakenOnce()
    ensures Distinct(Taken([Range(0, 0x40_1000), Range(0x40_0000, 0x80_0000)], [Range(0x40_0000, 0x60_0000)]))
  {
    var slots, reserved := [Range(0, 0x40_1000), Range(0x40_0000, 0x80_0000)], [Range(0x40_0000, 0x60_0000)];
    forall x: nat | Gives(slots[0], reserved, x) ensures !Gives(slots[1], reserved, x) {
      if In(slots[1], x) {
        BlocksApartBy(0x40_0000, x);
        assert In(reserved[0], x);
      }
    }
    TakenOnce(slots, reserved);
  }

  /**
   Every block taken lies inside its slot if and only if the slot is empty, ends on a 2 MiB boundary,
   or ends in a reserved block.
   */
  lemma TakenInside(slot: Range, reserved: seq<Range>)
    requires slot.start % BIG == 0
    ensures (forall x :: x in TakenFrom(slot, slot.start, reserved) ==> x + BIG <= slot.end)
      <==> slot.end <= slot.start || slot.end % BIG == 0 || InSome(reserved, AlignDown(slot.end - 1))
  {
    if slot.start < slot.end {
      var last, taken := AlignDown(slot.end - 1), TakenFrom(slot, slot.start, reserved);
      BlocksApartBy(slot.start, last);
      BlocksApartBy(last, slot.start);
      assert last + BIG <= slot.end <==> slot.end % BIG == 0 by { LastBlock(slot.end); }
      TakenFromHas(slot, slot.start, reserved, last);
      forall x | x in taken ensures x + BIG <= slot.end || x == last {
        TakenFromHas(slot, slot.start, reserved, x);
        BlocksApartBy(x, last);
        BlocksApartBy(last, x);
      }
    } else {
      assert TakenFrom(slot, slot.start, reserved) == [];
    }
  }

  lemma LastBlock(end: nat)
    requires end > 0
    ensures AlignDown(end - 1) + BIG <= end <==> end % BIG == 0
  {
    assert end == BIG * (end / BIG) + end % BIG && AlignDown(end - 1) == BIG * (AlignDown(end - 1) / BIG);
  }

  lemma {:induction false} TakenSteps(slot: Range, s: nat, reserved: seq<Range>, x: nat)
    requires x in TakenFrom(slot, s, reserved)
    ensures x % BIG == s % BIG
    decreases slot.end - s
  {
    if x in TakenFrom(slot, s + BIG, reserved) { TakenSteps(slot, s + BIG, reserved, x); }
  }

  /** The blocks taken from a slot are aligned to their order if and only if the slot starts so, or gives none. */
  lemma TakenAligned(slot: Range, reserved: seq<Range>)
    ensures var taken := TakenFrom(slot, slot.start, reserved);
      (forall x :: x in taken ==> x % BIG == 0) <==> slot.start % BIG == 0 || taken == []
  {
    var taken := TakenFrom(slot, slot.start, reserved);
    forall x | x in taken ensures x % BIG == slot.start % BIG { TakenSteps(slot, slot.start, reserved, x); }
    assert taken != [] ==> taken[0] in taken;
  }

  /** The two loops, whatever the slots: what they pass to init_free_pages. */
  method BlocksOf(slots: seq<Range>, reservations: Reservations) returns (blocks: seq<nat>)
    ensures blocks == Taken(slots, reservations.reserved)
  {
    blocks := [];
    var i := 0;
    while i < |slots|
      invariant 0 <= i <= |slots| && blocks == Taken(slots[..i], reservations.reserved)
    {
      ghost var before := blocks;
      assert slots[..i + 1][..i] == slots[..i];
      var s := slots[i].start;
      while s < slots[i].end
        invariant blocks + TakenFrom(slots[i], s, reservations.reserved)
               == before + TakenFrom(slots[i], slots[i].start, reservations.reserved)
        decreases slots[i].end - s
      {
        var skip := reservations.IsReserved(s);
        if !skip {
          blocks := blocks + [s];
        }
        s := s + BIG;
      }
      i := i + 1;
    }
    assert slots[..i] == slots;
  }

  // ----- what the blocks cover -----

  /** The slot, up to the end of its last block. */
  function Whole(r: Range): Range {
    Range(r.start, AlignUp(r.end))
  }

  function WholeAll(rs: seq<Range>): (w: seq<Range>)
    ensures |w| == |rs| && forall k :: 0 <= k < |rs| ==> w[k] == Whole(rs[k])
  {
    seq(|rs|, k requires 0 <= k < |rs| => Whole(rs[k]))
  }

  ghost predicate SlotsApart(slots: seq<Range>, reserved: seq<Range>) {
    AllRounded(slots) && Unshared(slots, reserved)
  }

  /** The slots start on 2 MiB boundaries, and no block is taken twice. */
  ghost predicate BlocksApart(slots: seq<Range>, reserved: seq<Range>) {
    AlignedStarts(slots) && Unshared(slots, reserved)
  }

  lemma VisitedBlock(r: Range, s: nat)
    requires s % BIG == 0
    ensures In(r, s) <==> In(Whole(r), s)
  {
    assert s == BIG * (s / BIG) && AlignUp(r.end) == BIG * (AlignUp(r.end) / BIG);
  }

  lemma WholeApart(slots: seq<Range>, reserved: seq<Range>)
    requires BlocksApart(slots, reserved)
    ensures SlotsApart(WholeAll(slots), reserved)
  {
    var whole := WholeAll(slots);
    forall i, j, x: nat | 0 <= i < j < |whole| && Gives(whole[i], reserved, x) ensures !Gives(whole[j], reserved, x) {
      VisitedBlock(slots[i], x);
      VisitedBlock(slots[j], x);
      assert Gives(slots[i], reserved, x);
    }
  }

  /** An address is covered and not reserved exactly when its block is taken. */
  lemma TakenCovers(slots: seq<Range>, reserved: seq<Range>, a: nat)
    requires AlignedStarts(slots) && AllRounded(reserved)
    ensures AlignDown(a) in Taken(slots, reserved) <==> InSome(WholeAll(slots), a) && !InSome(reserved, a)
  {
    var x, whole := AlignDown(a), WholeAll(slots);
    TakenHas(slots, reserved, x);
    WholeBlockInSome(reserved, x, a);
    forall k | 0 <= k < |slots| ensures In(slots[k], x) <==> In(whole[k], a) {
      VisitedBlock(slots[k], x);
      WholeBlock(whole[k], x, a);
    }
    assert (exists i :: 0 <= i < |slots| && Gives(slots[i], reserved, x)) ==> InSome(whole, a) && !InSome(reserved, a);
    if InSome(whole, a) && !InSome(reserved, a) {
      var k :| 0 <= k < |whole| && In(whole[k], a);
      assert Gives(slots[k], reserved, x);
    }
  }

  /** The block of an unreserved address of slot `i` is in no earlier slot. */
  lemma OutsideEarlierSlots(slots: seq<Range>, i: nat, s: nat, a: nat, reserved: seq<Range>)
    requires SlotsApart(slots, reserved) && i < |slots| && Gives(slots[i], reserved, s) && s <= a < s + BIG
    ensures !InSome(slots[..i], a)
  {
    forall k | 0 <= k < i ensures !In(slots[..i][k], a) {
      WholeBlock(slots[k], s, a);
      assert !Gives(slots[k], reserved, s);
    }
  }

  /** A block that is not reserved has not been added before. */
  lemma BlockIsNew(before: map<nat, nat>, cover: map<nat, nat>, slots: seq<Range>, i: nat, s: nat, reserved: seq<Range>,
                   p: nat)
    requires SlotsApart(slots, reserved) && AllRounded(reserved) && AllReserved(before, reserved)
    requires i < |slots| && slots[i].start <= s < slots[i].end && s % BIG == 0
    requires Managed(before, cover, slots[..i], Range(slots[i].start, s), reserved)
    requires s <= p * PAGE < s + BIG
    ensures In(slots[i], p * PAGE) && (InSome(reserved, p * PAGE) <==> InSome(reserved, s))
    ensures !InSome(reserved, s) ==> p !in cover
  {
    WholeBlock(slots[i], s, p * PAGE);
    WholeBlockInSome(reserved, s, p * PAGE);
    if !InSome(reserved, s) { OutsideEarlierSlots(slots, i, s, p * PAGE, reserved); }
    assert ManagedAt(before, cover, slots[..i], Range(slots[i].start, s), reserved, p);
  }

  /** One turn of the inner loop of pageallocator_init. */
  lemma OneBlock(before: map<nat, nat>, cover: map<nat, nat>, cover': map<nat, nat>, slots: seq<Range>, i: nat, s: nat,
                 reserved: seq<Range>)
    requires SlotsApart(slots, reserved) && AllRounded(reserved) && AllReserved(before, reserved)
    requires i < |slots| && slots[i].start <= s < slots[i].end && s % BIG == 0
    requires Managed(before, cover, slots[..i], Range(slots[i].start, s), reserved)
    requires InSome(reserved, s) ==> cover' == cover
    requires !InSome(reserved, s) ==> forall p: nat :: p in cover' <==> p in cover || s <= p * PAGE < s + BIG
    ensures Managed(before, cover', slots[..i], Range(slots[i].start, s + BIG), reserved)
  {
    var part, part' := Range(slots[i].start, s), Range(slots[i].start, s + BIG);
    var earlier := slots[..i];
    forall p: nat ensures ManagedAt(before, cover', earlier, part', reserved, p) {
      assert ManagedAt(before, cover, earlier, part, reserved, p);
      if s <= p * PAGE < s + BIG {
        BlockIsNew(before, cover, slots, i, s, reserved, p);
      } else {
        assert In(part', p * PAGE) <==> In(part, p * PAGE);
      }
    }
  }

  lemma SlotDone(before: map<nat, nat>, cover: map<nat, nat>, slots: seq<Range>, i: nat, s: nat, reserved: seq<Range>)
    requires i < |slots| && (s == slots[i].end || slots[i].end <= s == slots[i].start)
    requires Managed(before, cover, slots[..i], Range(slots[i].start, s), reserved)
    ensures Managed(before, cover, slots[..i + 1], Range(0, 0), reserved)
  {
    var done, earlier, none := slots[..i + 1], slots[..i], Range(0, 0);
    forall p: nat ensures ManagedAt(before, cover, done, none, reserved, p) {
      assert ManagedAt(before, cover, earlier, Range(slots[i].start, s), reserved, p);
      InOneMore(slots, i, p * PAGE);
    }
  }

  lemma InOneMore(slots: seq<Range>, i: nat, a: nat)
    requires i < |slots|
    ensures InSome(slots[..i + 1], a) <==> InSome(slots[..i], a) || In(slots[i], a)
  {
    forall k | 0 <= k < i ensures slots[..i + 1][k] == slots[..i][k] {
    }
    assert slots[..i + 1][i] == slots[i];
    if InSome(slots[..i], a) {
      var k :| 0 <= k < i && In(slots[..i][k], a);
      assert In(slots[..i + 1][k], a);
    }
    if InSome(slots[..i + 1], a) {
      var k :| 0 <= k < i + 1 && In(slots[..i + 1][k], a);
      assert k < i ==> In(slots[..i][k], a);
    }
  }

  function PageNumbers(blocks: seq<nat>): (r: seq<nat>)
    ensures |r| == |blocks| && forall k :: 0 <= k < |r| ==> r[k] == blocks[k] / PAGE
  {
    seq(|blocks|, k requires 0 <= k < |blocks| => blocks[k] / PAGE)
  }

  /** The blocks have gone on the list of the largest order, one after the other, and nothing else on any. */
  ghost predicate Offered(lists: seq<seq<nat>>, lists': seq<seq<nat>>, blocks: seq<nat>) {
    |lists| == |lists'| == MAX_ORDER + 1 && forall k :: 0 <= k <= MAX_ORDER ==> OfferedAt(lists, lists', blocks, k)
  }

  ghost predicate OfferedAt(lists: seq<seq<nat>>, lists': seq<seq<nat>>, blocks: seq<nat>, k: nat) {
    && k < |lists| && k < |lists'|
    && lists'[k] == if k == MAX_ORDER then lists[k] + PageNumbers(blocks) else lists[k]
  }

  lemma OfferedMore(lists: seq<seq<nat>>, mid: seq<seq<nat>>, lists': seq<seq<nat>>, a: seq<nat>, b: seq<nat>)
    requires Offered(lists, mid, a) && Offered(mid, lists', b)
    ensures Offered(lists, lists', a + b)
  {
    assert PageNumbers(a + b) == PageNumbers(a) + PageNumbers(b);
    forall k | 0 <= k <= MAX_ORDER ensures OfferedAt(lists, lists', a + b, k) {
      assert OfferedAt(lists, mid, a, k) && OfferedAt(mid, lists', b, k);
    }
  }

  lemma OfferedNothing(lists: seq<seq<nat>>)
    requires |lists| == MAX_ORDER + 1
    ensures Offered(lists, lists, [])
  {
    assert lists[MAX_ORDER] + PageNumbers([]) == lists[MAX_ORDER];
    forall k | 0 <= k <= MAX_ORDER ensures OfferedAt(lists, lists, [], k) {
    }
  }

  ghost function TakenAt(s: nat, reserved: seq<Range>): seq<nat> {
    if InSome(reserved, s) then [] else [s]
  }

  /** What the slot gives up to `s` has been offered. */
  ghost predicate OfferedUpTo(lists: seq<seq<nat>>, lists': seq<seq<nat>>, slot: Range, s: nat, reserved: seq<Range>) {
    exists got :: Offered(lists, lists', got)
      && got + TakenFrom(slot, s, reserved) == TakenFrom(slot, slot.start, reserved)
  }

  lemma NoneOffered(lists: seq<seq<nat>>, slot: Range, reserved: seq<Range>)
    requires |lists| == MAX_ORDER + 1
    ensures OfferedUpTo(lists, lists, slot, slot.start, reserved)
  {
    OfferedNothing(lists);
    var all := TakenFrom(slot, slot.start, reserved);
    assert [] + all == all;
  }

  lemma OneMoreOffered(lists: seq<seq<nat>>, mid: seq<seq<nat>>, lists': seq<seq<nat>>, slot: Range, s: nat, next: nat,
                       reserved: seq<Range>)
    requires OfferedUpTo(lists, mid, slot, s, reserved) && Offered(mid, lists', TakenAt(s, reserved))
    requires s < slot.end && next == s + BIG
    ensures OfferedUpTo(lists, lists', slot, next, reserved)
  {
    var got :| Offered(lists, mid, got) && got + TakenFrom(slot, s, reserved) == TakenFrom(slot, slot.start, reserved);
    var more, rest := TakenAt(s, reserved), TakenFrom(slot, next, reserved);
    OfferedMore(lists, mid, lists', got, more);
    assert got + (more + rest) == (got + more) + rest && more + rest == TakenFrom(slot, s, reserved);
  }

  lemma AllOffered(lists: seq<seq<nat>>, lists': seq<seq<nat>>, slot: Range, s: nat, reserved: seq<Range>)
    requires OfferedUpTo(lists, lists', slot, s, reserved) && s >= slot.end
    ensures Offered(lists, lists', TakenFrom(slot, slot.start, reserved))
  {
    var got :|
      Offered(lists, lists', got) && got + TakenFrom(slot, s, reserved) == TakenFrom(slot, slot.start, reserved);
    assert got + [] == got;
  }

  /** The body of the inner loop. */
  method PopulateBlock(zone: Zone, ghost slots: seq<Range>, ghost i: nat, s: nat, reservations: Reservations,
                       ghost before: map<nat, nat>)
    requires zone.Valid() && SlotsApart(slots, reservations.reserved) && reservations.Valid()
    requires AllReserved(before, reservations.reserved)
    requires i < |slots| && slots[i].start <= s < slots[i].end && s % BIG == 0
    requires Managed(before, zone.m.cover, slots[..i], Range(slots[i].start, s), reservations.reserved)
    modifies zone, zone.chunks
    ensures zone.Valid()
    ensures Managed(before, zone.m.cover, slots[..i], Range(slots[i].start, s + BIG), reservations.reserved)
    ensures Offered(old(zone.m.lists), zone.m.lists, TakenAt(s, reservations.reserved))
  {
    OfferedNothing(zone.m.lists);
    var skip := reservations.IsReserved(s);
    if !skip {
      AddBlock(zone, slots, i, s, reservations.reserved, before);
    }
    OneBlock(before, old(zone.m.cover), zone.m.cover, slots, i, s, reservations.reserved);
  }

  /** The inner loop of pageallocator_init. */
  method PopulateSlot(zone: Zone, slot: Range, ghost whole: seq<Range>, ghost i: nat, reservations: Reservations,
                      ghost before: map<nat, nat>)
    requires zone.Valid() && reservations.Valid() && SlotsApart(whole, reservations.reserved) && i < |whole|
    requires whole[i] == Whole(slot)
    requires AllReserved(before, reservations.reserved)
    requires Managed(before, zone.m.cover, whole[..i], Range(0, 0), reservations.reserved)
    modifies zone, zone.chunks
    ensures zone.Valid() && Managed(before, zone.m.cover, whole[..i + 1], Range(0, 0), reservations.reserved)
    ensures Offered(old(zone.m.lists), zone.m.lists, TakenFrom(slot, slot.start, reservations.reserved))
  {
    NoneOffered(zone.m.lists, slot, reservations.reserved);
    ghost var reserved := reservations.reserved;
    var s := slot.start;
    NothingOfSlot(before, zone.m.cover, whole[..i], s, reserved);
    while s < slot.end
      invariant slot.start <= s && s % BIG == 0 && (s <= whole[i].end || s == slot.start)
      invariant zone.Valid() && reservations.reserved == reserved
      invariant Managed(before, zone.m.cover, whole[..i], Range(slot.start, s), reserved)
      invariant OfferedUpTo(old(zone.m.lists), zone.m.lists, slot, s, reserved)
    {
      assert s + BIG <= whole[i].end by {
        VisitedBlock(slot, s);
        NextBlock(s, whole[i].end);
      }
      ghost var lists, next := zone.m.lists, s + BIG;
      PopulateBlock(zone, whole, i, s, reservations, before);
      OneMoreOffered(old(zone.m.lists), lists, zone.m.lists, slot, s, next, reserved);
      s := s + BIG;
    }
    AllOffered(old(zone.m.lists), zone.m.lists, slot, s, reserved);
    assert s == whole[i].end || whole[i].end <= s == slot.start by { VisitedBlock(slot, s); }
    SlotDone(before, zone.m.cover, whole, i, s, reserved);
  }

  lemma NextBlock(s: nat, end: nat)
    requires s % BIG == 0 && end % BIG == 0 && s < end
    ensures s + BIG <= end
  {
    assert s == BIG * (s / BIG) && end == BIG * (end / BIG);
  }

  lemma NothingOfSlot(before: map<nat, nat>, cover: map<nat, nat>, slots: seq<Range>, s: nat, reserved: seq<Range>)
    requires Managed(before, cover, slots, Range(0, 0), reserved)
    ensures Managed(before, cover, slots, Range(s, s), reserved)
  {
    forall p: nat ensures ManagedAt(before, cover, slots, Range(s, s), reserved, p) {
      assert ManagedAt(before, cover, slots, Range(0, 0), reserved, p);
    }
  }

  method AddBlock(zone: Zone, ghost slots: seq<Range>, ghost i: nat, s: nat, ghost reserved: seq<Range>,
                  ghost before: map<nat, nat>)
    requires zone.Valid() && SlotsApart(slots, reserved) && AllRounded(reserved) && AllReserved(before, reserved)
    requires i < |slots| && slots[i].start <= s < slots[i].end && s % BIG == 0 && !InSome(reserved, s)
    requires Managed(before, zone.m.cover, slots[..i], Range(slots[i].start, s), reserved)
    modifies zone, zone.chunks
    ensures zone.Valid()
    ensures forall p: nat :: p in zone.m.cover <==> p in old(zone.m.cover) || s <= p * PAGE < s + BIG
    ensures Offered(old(zone.m.lists), zone.m.lists, [s])
  {
    BlockPages(s);
    assert PageNumbers([s]) == [s / PAGE];
    forall p: nat | s / PAGE <= p < s / PAGE + Pow(MAX_ORDER) ensures p !in zone.m.cover {
      BlockIsNew(before, zone.m.cover, slots, i, s, reserved, p);
    }
    ghost var lists := zone.m.lists;
    zone.AddPages(s / PAGE, MAX_ORDER);
    forall k | 0 <= k <= MAX_ORDER ensures OfferedAt(lists, zone.m.lists, [s], k) {
    }
  }

  /** pageallocator_init: every 2 MiB block that starts in a slot and is not reserved, exactly once. */
  method Populate(zone: Zone, slots: seq<Range>, reservations: Reservations)
    requires zone.Valid() && reservations.Valid() && BlocksApart(slots, reservations.reserved)
    requires AllReserved(zone.m.cover, reservations.reserved)
    modifies zone, zone.chunks
    ensures zone.Valid()
    ensures forall p: nat :: PopulatedAt(old(zone.m.cover), zone.m.cover, slots, reservations.reserved, p)
    ensures Offered(old(zone.m.lists), zone.m.lists, Taken(slots, reservations.reserved))
  {
    OfferedNothing(zone.m.lists);
    ghost var whole := WholeAll(slots);
    WholeApart(slots, reservations.reserved);
    var i := 0;
    ghost var before := zone.m.cover;
    while i < |slots|
      invariant 0 <= i <= |slots| && zone.Valid() && reservations.reserved == old(reservations.reserved)
      invariant Managed(before, zone.m.cover, whole[..i], Range(0, 0), reservations.reserved)
      invariant Offered(old(zone.m.lists), zone.m.lists, Taken(slots[..i], reservations.reserved))
    {
      ghost var lists := zone.m.lists;
      PopulateSlot(zone, slots[i], whole, i, reservations, before);
      assert slots[..i + 1][..i] == slots[..i];
      OfferedMore(old(zone.m.lists), lists, zone.m.lists, Taken(slots[..i], reservations.reserved),
                  TakenFrom(slots[i], slots[i].start, reservations.reserved));
      i := i + 1;
    }
    assert whole[..i] == whole && slots[..i] == slots;
    forall p: nat ensures PopulatedAt(before, zone.m.cover, slots, reservations.reserved, p) {
      assert ManagedAt(before, zone.m.cover, whole, Range(0, 0), reservations.reserved, p);
      TakenCovers(slots, reservations.reserved, p * PAGE);
    }
  }

  /** A page is managed if it was before, or if its block is one of those taken. */
  ghost predicate PopulatedAt(before: map<nat, nat>, after: map<nat, nat>, slots: seq<Range>, reserved: seq<Range>,
                              p: nat) {
    p in after <==> p in before || AlignDown(p * PAGE) in Taken(slots, reserved)
  }

  /** The ranges reserved at boot: the 2 MiB blocks of the image, and the early region behind them. */
  function BootReserved(image: Range): seq<Range> {
    var end := AlignUp(image.end);
    [Range(AlignDown(image.start), end), Range(end, end + 4 * BIG)]
  }

  /**
   The boot sequence of core/init.c: no page of the image is ever managed, the early pages are, and
   so is every page of the blocks taken from the slots.
   */
  method Boot(image: Range, slots: seq<Range>) returns (zone: Zone, reservations: Reservations)
    requires image.start < image.end && BlocksApart(slots, BootReserved(image))
    ensures zone.Valid() && reservations.Valid() && reservations.reserved == BootReserved(image)
    ensures forall p: nat :: p in zone.m.cover <==>
      In(BootReserved(image)[1], p * PAGE) || AlignDown(p * PAGE) in Taken(slots, BootReserved(image))
    ensures forall p: nat :: p in zone.m.cover ==> !In(image, p * PAGE)
    ensures var early := BootReserved(image)[1];
      && |zone.m.lists| == MAX_ORDER + 1 && zone.m.lists[0] == Numbers(early.start / PAGE, early.end / PAGE)
      && (forall k :: 0 < k < MAX_ORDER ==> zone.m.lists[k] == [])
      && zone.m.lists[MAX_ORDER] == PageNumbers(Taken(slots, BootReserved(image)))
  {
    zone := new Zone();
    reservations := new Reservations();
    var early := EarlyInit(zone, image.end);
    reservations.Reserve(image.start, image.end);
    reservations.Reserve(early.start, early.end);
    ghost var before, reserved, lists := zone.m.cover, BootReserved(image), zone.m.lists;
    RoundedAlready(early.start);
    RoundedAlready(early.end);
    assert reservations.reserved == reserved;
    forall p: nat | p in before ensures InSome(reserved, p * PAGE) { InTwo(reserved, p * PAGE); }
    Populate(zone, slots, reservations);
    forall k | 0 <= k <= MAX_ORDER
      ensures zone.m.lists[k] == if k == MAX_ORDER then lists[k] + PageNumbers(Taken(slots, reserved)) else lists[k]
    {
      assert OfferedAt(lists, zone.m.lists, Taken(slots, reserved), k);
    }
    forall p: nat ensures p in zone.m.cover
      <==> In(reserved[1], p * PAGE) || AlignDown(p * PAGE) in Taken(slots, reserved)
    {
      assert PopulatedAt(before, zone.m.cover, slots, reserved, p);
    }
    forall p: nat | p in zone.m.cover ensures !In(image, p * PAGE) {
      TakenCovers(slots, reserved, p * PAGE);
      InTwo(reserved, p * PAGE);
    }
  }

  lemma RoundedAlready(a: nat)
    requires a % BIG == 0
    ensures AlignDown(a) == a == AlignUp(a)
  {
  }

  lemma InTwo(rs: seq<Range>, a: nat)
    requires |rs| == 2
    ensures InSome(rs, a) <==> In(rs[0], a) || In(rs[1], a)
  {
  }
}
