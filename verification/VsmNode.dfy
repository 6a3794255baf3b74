/**
 One node's side of the protocol as the source runs it: a stage-2 entry word, the manager's
 owner field and the page frames in use, all updated in place.  Each method is proved to do
 exactly what its handler in VsmHandlers says.
 */
module VsmNode {
  import opened Wrappers
  import opened VsmHandlers
  import opened Stage2Pte

  const NODE_MAX := 32

  /** A page frame and the version of the page it contains. */
  datatype Frame = Frame(address: Word, version: nat)

  class PageView {
    const me: Node
    const manager: Node
    var pte: Word
    var owner: Node                 // manager_page.owner, meaningful on the manager
    var frame: Option<Frame>        // the page frame held for this page, if any

    /**
     An accessible entry is a valid descriptor of normal memory with no stray bits; it is readable and
     maps the one frame the node holds for the page.
     */
    ghost predicate Valid()
      reads this
    {
      && me < NODE_MAX && manager < NODE_MAX && owner < NODE_MAX
      && (View(pte).accessible ==> View(pte).perm == RO || View(pte).perm == RW)
      && (View(pte).accessible ==> View(pte).other == 0x3f)
      && (View(pte).accessible <==> frame.Some?)
      && (frame.Some? ==> frame.value.address == View(pte).pa)
    }

    ghost function State(): (p: Pte)
      reads this
      requires Valid()
    {
      var e := View(pte);
      if !e.accessible then Invalid
      else if e.perm == RW then ReadWrite(frame.value.version, e.copyset)
      else ReadOnly(frame.value.version, e.copyset)
    }

    ghost function AsLocal(): Local
      reads this
      requires Valid()
    {
      Local(me, manager, State(), owner)
    }

    /** vsm_node_init on the manager of the page. */
    constructor AtManager(node: Node, address: Word, version: nat)
      requires node < NODE_MAX && PageAddress(address)
      ensures Valid() && AsLocal() == Local(node, node, ReadWrite(version, {}), node)
    {
      me, manager, owner := node, node, node;
      pte := MapReadWrite(address);
      frame := Some(Frame(address, version));
      new;
      MapView(address, 0);
      assert View(pte) == Entry(true, RW, {}, address, 0x3f);
    }

    constructor Elsewhere(node: Node, home: Node)
      requires node < NODE_MAX && home < NODE_MAX
      ensures Valid() && AsLocal() == Local(node, home, Invalid, node)
    {
      me, manager, owner := node, home, node;
      pte := 0;
      frame := None;
    }

    predicate IAmOwner()
      reads this
    {
      RwAble(pte) || (RoOnly(pte) && CopysetBits(pte) != 0)
    }

    lemma OwnerTest()
      requires Valid()
      ensures IAmOwner() <==> State().Owns()
      ensures Accessible(pte) <==> State().Readable()
      ensures RwAble(pte) <==> State().ReadWrite?
      ensures Readable(pte) <==> State().Readable()
    {
      TestsView(pte);
    }

    /** The body of vsm_invalidate: one message per node of the copyset but this one, in ascending order. */
    method SendInvalidates(copyset: Word) returns (targets: seq<Node>)
      requires copyset & 0xf == copyset
      ensures forall i :: i in targets <==> i in DecodeSet(copyset) - {me}
      ensures forall k, m :: 0 <= k < m < |targets| ==> targets[k] < targets[m]
    {
      targets := [];
      var rest, node := copyset, 0;
      while rest != 0
        invariant 0 <= node <= 4 && rest == Shifted(copyset, node)
        invariant forall i :: i in targets <==> i in DecodeSet(copyset) && i < node && i != me
        invariant forall k :: 0 <= k < |targets| ==> targets[k] < node
        invariant forall k, m :: 0 <= k < m < |targets| ==> targets[k] < targets[m]
        decreases 4 - node
      {
        LowBit(copyset, node);
        if rest & 1 != 0 && node != me {
          targets := targets + [node];
        }
        rest := rest >> 1;
        node := node + 1;
      }
      NothingLeft(copyset, node);
    }

    // ----- fault handlers -----

    function FetchTarget(): Node
      reads this
    {
      if manager == me then owner else manager
    }

    /** __vsm_read_fetch_page up to the point where it waits. */
    method RaiseReadFault() returns (sent: Option<Message>)
      requires Valid()
      ensures var o := VsmHandlers.ReadFault(AsLocal());
        sent == o.message && AsLocal() == o.local && (sent.Some? <==> o.wait.Waiting?)
    {
      OwnerTest();
      if Readable(pte) { return None; }
      sent := Some(Fetch(FetchTarget(), Request(Read, me)));
    }

    /** __vsm_write_fetch_page up to the point where it waits, or to its end if it need not. */
    method RaiseWriteFault(store: Option<Page>, next: nat) returns (sent: Option<Message>, targets: seq<Node>)
      requires Valid()
      modifies this
      ensures Valid()
      ensures var o := VsmHandlers.WriteFault(old(AsLocal()), store, next);
        && AsLocal() == o.local && sent == o.message && (sent.Some? <==> o.wait.Waiting?)
        && (forall i :: i in targets <==> i in o.invalidated)
    {
      OwnerTest();
      sent, targets := None, [];
      if RwAble(pte) { return; }
      if RoOnly(pte) {
        if CopysetBits(pte) != 0 {
          targets := TakeWriteAccess(store, next);
          return;
        }
        DropPage();
      }
      sent := Some(Fetch(FetchTarget(), Request(Write, me)));
    }

    /** The common end of a write fault: invalidate the copyset, clear it, write, allow writing. */
    method TakeWriteAccess(store: Option<Page>, next: nat) returns (targets: seq<Node>)
      requires me < NODE_MAX && manager < NODE_MAX && owner < NODE_MAX
      requires View(pte).accessible && View(pte).other == 0x3f
      requires frame.Some? && frame.value.address == View(pte).pa
      modifies this
      ensures Valid() && owner == old(owner)
      ensures State() == ReadWrite(if store.Some? then next else old(frame).value.version, {})
      ensures forall i :: i in targets <==> i in old(View(pte).copyset) - {me}
    {
      CopysetRange(pte);
      targets := SendInvalidates(CopysetBits(pte));
      DropCopyset();
      if store.Some? {
        frame := Some(frame.value.(version := next));
      }
      AllowWriting();
    }

    /** s2pte_clear_copyset. */
    method DropCopyset()
      modifies this`pte
      ensures View(pte) == old(View(pte)).(copyset := {})
    {
      ClearCopysetView(pte);
      pte := ClearCopyset(pte);
    }

    /** s2pte_rw. */
    method AllowWriting()
      modifies this`pte
      ensures View(pte) == old(View(pte)).(perm := RW)
    {
      ReadWriteView(pte);
      pte := MakeReadWrite(pte);
    }

    /** s2pte_invalidate or s2_page_invalidate, and free_page: entry and frame go together. */
    method DropPage()
      requires Valid() && Accessible(pte)
      modifies this
      ensures Valid() && State() == Invalid && owner == old(owner)
    {
      frame := None;
      InvalidateView(pte);
      pte := ClearAccess(pte);
    }

    /** recv_fetch_reply and the rest of the read fault handler. */
    method FinishReadFault(address: Word, version: nat, copyset: Word) returns (panics: bool)
      requires Valid() && PageAddress(address) && copyset & 0xf == copyset
      modifies this
      ensures var o := Deliver(old(AsLocal()), Read, Reply(false, version, DecodeSet(copyset)), None, 0);
        if panics then o == Panic(EntryInUse) else Valid() && o.Ok? && AsLocal() == o.local
    {
      OwnerTest();
      if Accessible(pte) { return true; }
      MapView(address, copyset);
      pte := MapWithCopyset(address, copyset);
      frame := Some(Frame(address, version));
      ReadOnlyView(pte);
      pte := MakeReadOnly(pte);
      panics := false;
    }

    /** recv_fetch_reply and the rest of the write fault handler. */
    method FinishWriteFault(address: Word, version: nat, copyset: Word, store: Option<Page>, next: nat)
      returns (panics: bool, targets: seq<Node>)
      requires Valid() && PageAddress(address) && copyset & 0xf == copyset
      modifies this
      ensures var o := Deliver(old(AsLocal()), Write, Reply(true, version, DecodeSet(copyset)), store, next);
        if panics then o == Panic(EntryInUse)
        else Valid() && o.Ok? && AsLocal() == o.local && forall i :: i in targets <==> i in o.invalidated
    {
      OwnerTest();
      targets := [];
      if Accessible(pte) { panics := true; return; }
      MapView(address, copyset);
      pte := MapWithCopyset(address, copyset);
      frame := Some(Frame(address, version));
      targets := TakeWriteAccess(store, next);
      panics := false;
    }

    // ----- servers -----

    /** vsm_read_server_process. */
    method ReadServerProcess(from: Node) returns (panics: bool, sent: Option<Message>)
      requires Valid() && from < NODE_MAX
      modifies this
      ensures Valid()
      ensures var o := NarrowReadServer(old(AsLocal()), from);
        if panics then o.Panic? else o.Ok? && AsLocal() == o.local && sent == o.message
    {
      OwnerTest();
      panics, sent := false, None;
      if IAmOwner() {
        ReadOnlyView(pte);
        pte := MakeReadOnly(pte);
        AddToCopysetView(pte, from);
        pte := AddToCopyset(pte, from);
        sent := Some(Answer(from, Reply(false, frame.value.version, {})));
      } else if me == manager {
        if from == owner { return true, None; }
        sent := Some(Fetch(owner, Request(Read, from)));
      } else {
        panics := true;
      }
    }

    /** vsm_write_server_process. */
    method WriteServerProcess(from: Node) returns (panics: bool, sent: Option<Message>)
      requires Valid() && from < NODE_MAX
      modifies this
      ensures Valid()
      ensures var o := WriteServer(old(AsLocal()), from);
        if panics then o.Panic? else o.Ok? && AsLocal() == o.local && sent == o.message
    {
      OwnerTest();
      panics, sent := false, None;
      if IAmOwner() {
        sent := Some(Answer(from, Reply(true, frame.value.version, DecodeSet(CopysetBits(pte)))));
        DropPage();
        if me == manager {
          owner := from;
        }
      } else if me == manager {
        if from == owner { return true, None; }
        sent := Some(Fetch(owner, Request(Write, from)));
        owner := from;
      } else {
        panics := true;
      }
    }

    /** vsm_invalidate_server_process. */
    method InvalidateServerProcess()
      requires Valid()
      modifies this
      ensures Valid() && InvalidateServer(old(AsLocal())).Ok? && AsLocal() == InvalidateServer(old(AsLocal())).local
    {
      OwnerTest();
      if !Accessible(pte) { return; }
      if IAmOwner() { return; }
      DropPage();
    }
  }

  /**
   An owner that answers a read request is still recognised as owner exactly when the requester's
   number fits the copyset field or another copy was recorded before.
   */
  lemma OwnershipSurvivesReading(w: Word, from: nat)
    requires from < NODE_MAX && (RwAble(w) || (RoOnly(w) && CopysetBits(w) != 0))
    ensures var w' := AddToCopyset(MakeReadOnly(w), from);
      RwAble(w') || (RoOnly(w') && CopysetBits(w') != 0) <==> from < WIDTH || View(w).copyset != {}
  {
    var w1 := MakeReadOnly(w);
    ReadOnlyView(w);
    AddToCopysetView(w1, from);
    TestsView(w);
    TestsView(AddToCopyset(w1, from));
  }

  lemma CopysetRange(w: Word)
    ensures CopysetBits(w) & 0xf == CopysetBits(w)
  {
  }

  function Shifted(c: Word, node: nat): Word
    requires node <= 4
  {
    if node == 0 then c else if node == 1 then c >> 1 else if node == 2 then c >> 2
      else if node == 3 then c >> 3 else c >> 4
  }

  lemma LowBit(c: Word, node: nat)
    requires node <= 4 && c & 0xf == c && Shifted(c, node) != 0
    ensures node < 4 && Shifted(c, node) >> 1 == Shifted(c, node + 1)
    ensures node in DecodeSet(c) <==> Shifted(c, node) & 1 != 0
  {
    ShiftBits(c);
  }

  lemma ShiftBits(c: Word)
    requires c & 0xf == c
    ensures c >> 4 == 0
    ensures (c >> 1) >> 1 == c >> 2 && (c >> 2) >> 1 == c >> 3 && (c >> 3) >> 1 == c >> 4
    ensures ((c >> 1) & 1 != 0) <==> c & 2 != 0
    ensures ((c >> 2) & 1 != 0) <==> c & 4 != 0
    ensures ((c >> 3) & 1 != 0) <==> c & 8 != 0
  {
  }

  lemma NothingLeft(c: Word, node: nat)
    requires node <= 4 && c & 0xf == c && Shifted(c, node) == 0
    ensures forall i :: i in DecodeSet(c) ==> i < node
  {
    HighBits(c);
  }

  lemma HighBits(c: Word)
    ensures c == 0 ==> c & 1 == 0 && c & 2 == 0 && c & 4 == 0 && c & 8 == 0
    ensures c >> 1 == 0 ==> c & 2 == 0 && c & 4 == 0 && c & 8 == 0
    ensures c >> 2 == 0 ==> c & 4 == 0 && c & 8 == 0
    ensures c >> 3 == 0 ==> c & 8 == 0
  {
  }
}
