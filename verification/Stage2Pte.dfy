/**
 Stage-2 page-table entries as 64-bit words: the bit operations of include/s2mm.h and
 include/mm.h, and the record of independent fields they implement.
 */
module Stage2Pte {
  type Word = bv64

  // Fields of an entry: bits 1-0 valid, 5-2 memory attributes (0x3c: normal memory), 7-6 permission
  // (1 read-only, 3 read-write), 10 access flag, 47-12 physical page, 58-55 copyset.

  /** S2PTE_COPYSET(c): the low four bits of `c`, in bits 58 to 55. */
  function CopysetField(c: Word): Word { (c & 0xf) << 55 }

  // ----- the operations -----

  function PtePa(w: Word): Word { w & 0x0000_ffff_ffff_f000 }

  function Perm(w: Word): Word { (w & 0xc0) >> 6 }

  function CopysetBits(w: Word): Word { (w & 0x0780_0000_0000_0000) >> 55 }

  function ClearAccess(w: Word): Word { w & !0x400 }

  function MakeReadOnly(w: Word): Word { (w & !0xc0) | 0x40 }

  function MakeReadWrite(w: Word): Word { w | 0xc0 }

  /** `1 << node`, for the node numbers the cluster allows. */
  function NodeBit(node: nat): Word
    requires node < 32
  {
    (1 as Word) << node
  }

  function AddToCopyset(w: Word, node: nat): Word
    requires node < 32
  {
    w | CopysetField(NodeBit(node))
  }

  function ClearCopyset(w: Word): Word { w & !0x0780_0000_0000_0000 }

  /** pte_set_entry: a new entry, whatever the old one was. */
  function SetEntry(pa: Word, flags: Word): Word { PtePa(pa) | (flags | 0x403) }

  /** s2_map_page_copyset: a page with a copyset and no permission yet. */
  function MapWithCopyset(pa: Word, copyset: Word): Word { SetEntry(pa, 0x3c | CopysetField(copyset)) }

  /** guest_map_page for guest memory: read-write, no copyset. */
  function MapReadWrite(pa: Word): Word { SetEntry(pa, 0xfc) }

  predicate Accessible(w: Word) { w & 0x400 != 0 }

  predicate RwAble(w: Word) { w & 0x4c0 == 0x4c0 }

  predicate Readable(w: Word) { w & 0x400 != 0 && w & 0x40 != 0 }

  predicate RoOnly(w: Word) { w & 0x4c0 == 0x440 }

  // ----- the record -----

  datatype Permission = NoAccess | RO | WO | RW

  /** `other` has the bits of no other field in their places: valid bits, memory attributes, and the unused ones. */
  datatype Entry = Entry(accessible: bool, perm: Permission, copyset: set<nat>, pa: Word, other: Word)

  function DecodePerm(p: Word): Permission {
    if p == 0 then NoAccess else if p == 1 then RO else if p == 2 then WO else RW
  }

  /** The nodes whose bit is set in a four-bit copyset. */
  function DecodeSet(c: Word): set<nat> {
    Member(c & 1, 0) + Member(c & 2, 1) + Member(c & 4, 2) + Member(c & 8, 3)
  }

  function Member(bit: Word, node: nat): set<nat> { if bit != 0 then {node} else {} }

  function OtherBits(w: Word): Word { w & 0xf87f_0000_0000_0b3f }

  function View(w: Word): Entry {
    Entry(Accessible(w), DecodePerm(Perm(w)), DecodeSet(CopysetBits(w)), PtePa(w), OtherBits(w))
  }

  /** The record has all of the word: words with the same record are the same. */
  lemma ViewIsWhole(v: Word, w: Word)
    requires View(v) == View(w)
    ensures v == w
  {
    SameSet(CopysetBits(v), CopysetBits(w));
    SamePerm(v, w);
    RebuildsWord(v);
    RebuildsWord(w);
  }

  lemma SamePerm(v: Word, w: Word)
    requires DecodePerm(Perm(v)) == DecodePerm(Perm(w))
    ensures Perm(v) == Perm(w)
  {
    PermRange(v);
    PermRange(w);
  }

  lemma PermRange(w: Word)
    ensures Perm(w) == 0 || Perm(w) == 1 || Perm(w) == 2 || Perm(w) == 3
  {
  }

  lemma SameSet(c: Word, d: Word)
    requires DecodeSet(c) == DecodeSet(d)
    ensures c & 0xf == d & 0xf
  {
    assert 0 in DecodeSet(c) <==> 0 in DecodeSet(d);
    assert 1 in DecodeSet(c) <==> 1 in DecodeSet(d);
    assert 2 in DecodeSet(c) <==> 2 in DecodeSet(d);
    assert 3 in DecodeSet(c) <==> 3 in DecodeSet(d);
    SameNibble(c, d);
  }

  lemma SameNibble(c: Word, d: Word)
    requires (c & 1 != 0) == (d & 1 != 0) && (c & 2 != 0) == (d & 2 != 0)
    requires (c & 4 != 0) == (d & 4 != 0) && (c & 8 != 0) == (d & 8 != 0)
    ensures c & 0xf == d & 0xf
  {
  }

  function Rebuild(accessible: bool, perm: Word, copyset: Word, pa: Word, other: Word): Word {
    (if accessible then 0x400 else 0) | (perm << 6) | (copyset << 55) | pa | other
  }

  lemma RebuildsWord(w: Word)
    ensures w == Rebuild(Accessible(w), Perm(w), CopysetBits(w), PtePa(w), OtherBits(w))
    ensures CopysetBits(w) & 0xf == CopysetBits(w)
  {
  }

  predicate PageAddress(pa: Word) { pa & 0x0000_ffff_ffff_f000 == pa }

  // ----- each operation changes one field -----

  lemma InvalidateView(w: Word)
    ensures View(ClearAccess(w)) == View(w).(accessible := false)
    ensures (ClearAccess(w) ^ w) & !0x400 == 0
  {
  }

  lemma ReadOnlyView(w: Word)
    ensures View(MakeReadOnly(w)) == View(w).(perm := RO)
    ensures (MakeReadOnly(w) ^ w) & !0xc0 == 0
  {
  }

  lemma ReadWriteView(w: Word)
    ensures View(MakeReadWrite(w)) == View(w).(perm := RW)
    ensures (MakeReadWrite(w) ^ w) & !0xc0 == 0
  {
  }

  lemma ClearCopysetView(w: Word)
    ensures View(ClearCopyset(w)) == View(w).(copyset := {})
    ensures (ClearCopyset(w) ^ w) & !0x0780_0000_0000_0000 == 0
  {
  }

  lemma MapView(pa: Word, copyset: Word)
    requires PageAddress(pa)
    ensures View(MapWithCopyset(pa, copyset)) == Entry(true, NoAccess, DecodeSet(copyset), pa, 0x3f)
    ensures View(MapReadWrite(pa)) == Entry(true, RW, {}, pa, 0x3f)
  {
  }

  /** Where the fields are in the word. */
  lemma EntryLayout(pa: Word, copyset: Word)
    requires PageAddress(pa)
    ensures MapReadWrite(pa) == pa | 0x4ff
    ensures MapWithCopyset(pa, copyset) == pa | 0x43f | ((copyset & 0xf) << 55)
  {
  }

  /** A new entry is a valid page descriptor with the access flag, whatever the flags add. */
  lemma SetEntryIsValid(pa: Word, flags: Word)
    ensures SetEntry(pa, flags) & 3 == 3 && Accessible(SetEntry(pa, flags))
    ensures PtePa(flags) == 0 ==> PtePa(SetEntry(pa, flags)) == PtePa(pa)
    ensures SetEntry(pa, flags) & 0x3c == flags & 0x3c
  {
  }

  lemma NodeBits(node: nat)
    requires node < 32
    ensures DecodeSet(NodeBit(node) & 0xf) == if node < 4 then {node} else {}
  {
    assert NodeBit(node) & 0xf == if node == 0 then 1 else if node == 1 then 2
      else if node == 2 then 4 else if node == 3 then 8 else 0;
  }

  lemma TestsView(w: Word)
    ensures Accessible(w) == View(w).accessible
    ensures RwAble(w) <==> View(w).accessible && View(w).perm == RW
    ensures RoOnly(w) <==> View(w).accessible && View(w).perm == RO
    ensures Readable(w) <==> View(w).accessible && (View(w).perm == RO || View(w).perm == RW)
    ensures (CopysetBits(w) != 0) <==> View(w).copyset != {}
  {
  }

  /** A node joins the copyset exactly when its number fits the four-bit field; a larger one is lost. */
  lemma AddToCopysetView(w: Word, node: nat)
    requires node < 32
    ensures View(AddToCopyset(w, node)) == View(w).(copyset := View(w).copyset + if node < 4 then {node} else {})
    ensures node in View(AddToCopyset(w, node)).copyset <==> node < 4
  {
    NodeBits(node);
    AddFieldView(w, NodeBit(node));
  }

  lemma AddFieldView(w: Word, c: Word)
    ensures View(w | CopysetField(c)) == View(w).(copyset := View(w).copyset + DecodeSet(c & 0xf))
  {
    OrFields(w, c);
    OrSets(CopysetBits(w), c & 0xf);
  }

  /** Setting bits of the copyset field leaves the other fields alone. */
  lemma OrFields(w: Word, c: Word)
    ensures (w | ((c & 0xf) << 55)) & 0x400 == w & 0x400
    ensures (w | ((c & 0xf) << 55)) & 0xc0 == w & 0xc0
    ensures (w | ((c & 0xf) << 55)) & 0x0000_ffff_ffff_f000 == w & 0x0000_ffff_ffff_f000
    ensures (w | ((c & 0xf) << 55)) & 0xf87f_0000_0000_0b3f == w & 0xf87f_0000_0000_0b3f
    ensures ((w | ((c & 0xf) << 55)) & 0x0780_0000_0000_0000) >> 55 == ((w & 0x0780_0000_0000_0000) >> 55) | (c & 0xf)
  {
  }

  lemma OrOutside(w: Word, c: Word)
    ensures ((w | ((c & 0xf) << 55)) ^ w) & !0x0780_0000_0000_0000 == 0
  {
  }

  lemma AddToCopysetOutside(w: Word, node: nat)
    requires node < 32
    ensures (AddToCopyset(w, node) ^ w) & !0x0780_0000_0000_0000 == 0
  {
    OrOutside(w, NodeBit(node));
  }

  lemma OrSets(c: Word, d: Word)
    ensures DecodeSet(c | d) == DecodeSet(c) + DecodeSet(d)
  {
    OrBits(c, d);
  }

  lemma OrBits(c: Word, d: Word)
    ensures ((c | d) & 1 != 0) <==> (c & 1 != 0) || (d & 1 != 0)
    ensures ((c | d) & 2 != 0) <==> (c & 2 != 0) || (d & 2 != 0)
    ensures ((c | d) & 4 != 0) <==> (c & 4 != 0) || (d & 4 != 0)
    ensures ((c | d) & 8 != 0) <==> (c & 8 != 0) || (d & 8 != 0)
  {
  }
}
