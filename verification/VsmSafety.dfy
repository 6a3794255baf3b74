/** Every enabled event keeps the invariant and does not panic; hence every run does. */
module VsmSafety {
  import opened Wrappers
  import opened VsmHandlers
  import opened VsmProtocol
  import opened VsmInvariant
  import opened VsmBoxes
  import opened VsmGrants
  import opened VsmShapes
  import opened VsmSteps

  lemma Ask(s: State, l: Ledger, i: Node, kind: Kind) returns (s': State, l': Ledger)
    requires Inv(s, l) && i < |s.pte| && s.wait[i].Idle? && !s.pte[i].Owns()
    ensures Inv(s', l')
    ensures var s1 := s.(pte := s.pte[i := Invalid], wait := s.wait[i := Waiting(kind)]);
      s' == if i == s.manager then s1.(down := s.down[s.dir := s.down[s.dir] + [Request(kind, i)]])
            else s1.(up := s.up[i := s.up[i] + [Request(kind, i)]])
  {
    if i == s.manager {
      s', l' := AskOwner(s, l, kind);
      Undisturbed(s, l, i);
      assert Inv(s', l');
    } else {
      s', l' := AskManager(s, l, i, kind);
      Undisturbed(s, l, i);
      assert Inv(s', l');
    }
  }

  /** Giving up its copy to ask for a better one affects no other copy. */
  lemma Undisturbed(s: State, l: Ledger, i: Node)
    requires Inv(s, l) && i < |s.pte| && i != l.chain[0] && s.replies[i] == []
    ensures Contents(l.chain[0], s.pte[i := Invalid], s.replies, s.invalidates, |s.history| - 1, s.seen)
  {
    DropCopy(l.chain[0], i, s.pte, s.replies, s.invalidates, s.invalidates[i], |s.history| - 1, s.seen);
    assert s.invalidates[i := s.invalidates[i]] == s.invalidates;
  }

  lemma AskStep(s: State, l: Ledger, e: Event, kind: Kind) returns (l': Ledger)
    requires Inv(s, l) && Enabled(s, e) && Asks(s, e, kind)
    ensures Step(s, e).Running? && Inv(Step(s, e).state, l')
  {
    var s';
    s', l' := Ask(s, l, e.node, kind);
    AskShape(s, e, kind);
  }

  // ----- exclusive access -----

  /** The node ownership is at, or on its way to, comes to rest with exclusive access. */
  lemma RestStructure(s: State, l: Ledger, e: Pte) returns (s': State, l': Ledger)
    requires Structure(s, l) && e.ReadWrite? && e.copyset == {}
    ensures Structure(s', l') && l'.chain == l.chain
    ensures var h := l.chain[0];
      s' == s.(pte := s.pte[h := e], wait := s.wait[h := Idle], replies := s.replies[h := []])
  {
    var h := l.chain[0];
    s' := s.(pte := s.pte[h := e], wait := s.wait[h := Idle], replies := s.replies[h := []]);
    l' := l.(place := l.place[h := Nowhere]);
    UpdateOwn(s.wait, l.place, s.up, s.replies, h, Idle, Nowhere, []);
    assert s.up[h := []] == s.up;
    FreeToMove(s.wait, l.place, s.down, h, Idle, Nowhere);
    TokenRests(h, s.pte, s.wait, l.place, e);
  }

  lemma Exclude(s: State, l: Ledger, store: Option<Page>) returns (s': State, l': Ledger)
    requires Inv(s, l)
    ensures Inv(s', l')
    ensures var h := l.chain[0];
      s' == Exclusive(s.(replies := s.replies[h := []]), h, TokenVersion(s.pte[h], s.replies[h]),
                      TokenCopyset(s.pte[h], s.replies[h]), store)
  {
    var h, last := l.chain[0], |s.history| - 1;
    var s1;
    s1, l' := RestStructure(s, l, ReadWrite(if store.Some? then last + 1 else last, {}));
    s' := Exclusive(s.(replies := s.replies[h := []]), h, last, TokenCopyset(s.pte[h], s.replies[h]), store);
    ExclusiveContents(s, l, s', store);
  }

  lemma ExclusiveContents(s: State, l: Ledger, s': State, store: Option<Page>)
    requires Inv(s, l)
    requires var h := l.chain[0];
      s' == Exclusive(s.(replies := s.replies[h := []]), h, |s.history| - 1,
        TokenCopyset(s.pte[h], s.replies[h]), store)
    ensures Contents(l.chain[0], s'.pte, s'.replies, s'.invalidates, |s'.history| - 1, s'.seen)
  {
    var h, last := l.chain[0], |s.history| - 1;
    if store.Some? {
      TakeAndWrite(h, s.pte, s.replies, s.invalidates, last, s.seen);
    } else {
      TakeExclusive(h, s.pte, s.replies, s.invalidates, last, s.seen);
    }
  }

  lemma UpgradeStep(s: State, l: Ledger, e: Event) returns (l': Ledger)
    requires Inv(s, l) && Enabled(s, e)
    requires e.WriteFault? && s.pte[e.node].ReadOnly? && s.pte[e.node].Owns()
    ensures Step(s, e).Running? && Inv(Step(s, e).state, l')
  {
    var i, s' := e.node, s;
    assert Entitled(i == l.chain[0], s.pte[i], s.wait[i], l.place[i]);
    assert ReplyMatches(s.wait[i], l.place[i], s.replies[i]);
    s', l' := Exclude(s, l, e.store);
    assert s.replies[i := []] == s.replies;
    UpgradeShape(s, e);
  }

  lemma ReceiveWriteStep(s: State, l: Ledger, e: Event) returns (l': Ledger)
    requires Inv(s, l) && Enabled(s, e) && e.DeliverReply? && s.wait[e.node].kind == Write
    ensures Step(s, e).Running? && Inv(Step(s, e).state, l')
  {
    var i, s' := e.node, s;
    assert ReplyMatches(s.wait[i], l.place[i], s.replies[i]);
    assert Entitled(i == l.chain[0], s.pte[i], s.wait[i], l.place[i]);
    s', l' := Exclude(s, l, e.store);
    assert s.replies[i][1..] == [];
    ReceiveWriteShape(s, e);
  }

  // ----- copies -----

  lemma ReceiveReadStructure(s: State, l: Ledger, i: Node, v: nat) returns (s': State, l': Ledger)
    requires Structure(s, l) && i < |s.pte| && s.wait[i] == Waiting(Read) && s.replies[i] != []
    ensures Structure(s', l') && l'.chain == l.chain && i != l.chain[0] && s.pte[i].Invalid? && |s.replies[i]| == 1
    ensures s' == s.(replies := s.replies[i := []], wait := s.wait[i := Idle], pte := s.pte[i := ReadOnly(v, {})])
  {
    s' := s.(replies := s.replies[i := []], wait := s.wait[i := Idle], pte := s.pte[i := ReadOnly(v, {})]);
    l' := l.(place := l.place[i := Nowhere]);
    UpdateOwn(s.wait, l.place, s.up, s.replies, i, Idle, Nowhere, []);
    assert s.up[i := []] == s.up;
    assert Entitled(i == l.chain[0], s.pte[i], s.wait[i], l.place[i]);
    FreeToMove(s.wait, l.place, s.down, i, Idle, Nowhere);
    UpdateToken(l.chain[0], s.pte, s.wait, l.place, i, ReadOnly(v, {}), Idle, Nowhere);
  }

  lemma ReceiveRead(s: State, l: Ledger, i: Node) returns (s': State, l': Ledger)
    requires Inv(s, l) && i < |s.pte| && s.wait[i] == Waiting(Read) && s.replies[i] != []
    ensures Inv(s', l') && s.pte[i].Invalid?
    ensures s' == s.(replies := s.replies[i := s.replies[i][1..]], wait := s.wait[i := Idle],
                     pte := s.pte[i := ReadOnly(s.replies[i][0].version, s.replies[i][0].copyset)])
  {
    s', l' := ReceiveReadStructure(s, l, i, s.replies[i][0].version);
    ReceiveCopy(l.chain[0], i, s.pte, s.replies, s.invalidates, |s.history| - 1, s.seen);
    assert s.replies[i][1..] == [];
  }

  lemma ReceiveReadStep(s: State, l: Ledger, e: Event) returns (l': Ledger)
    requires Inv(s, l) && Enabled(s, e) && e.DeliverReply? && s.wait[e.node].kind == Read
    ensures Step(s, e).Running? && Inv(Step(s, e).state, l')
  {
    var s';
    s', l' := ReceiveRead(s, l, e.node);
    ReceiveReadShape(s, e);
  }

  lemma InvalidateAtOwner(s: State, l: Ledger, count: nat)
    requires Inv(s, l)
    ensures Inv(s.(invalidates := s.invalidates[l.chain[0] := count]), l)
  {
    IgnoreInvalidate(l.chain[0], s.pte, s.replies, s.invalidates, count, |s.history| - 1, s.seen);
  }

  lemma InvalidateAtReader(s: State, l: Ledger, i: Node, count: nat)
    requires Inv(s, l) && i < |s.pte| && i != l.chain[0] && s.replies[i] == []
    ensures Inv(s.(invalidates := s.invalidates[i := count], pte := s.pte[i := Invalid]), l)
  {
    var h := l.chain[0];
    DropCopy(h, i, s.pte, s.replies, s.invalidates, count, |s.history| - 1, s.seen);
    assert Entitled(i == h, s.pte[i], s.wait[i], l.place[i]);
    UpdateToken(h, s.pte, s.wait, l.place, i, Invalid, s.wait[i], l.place[i]);
    assert s.wait[i := s.wait[i]] == s.wait && l.place[i := l.place[i]] == l.place;
  }

  lemma InvalidateStep(s: State, l: Ledger, e: Event)
    requires Inv(s, l) && Enabled(s, e) && e.ProcessInvalidate?
    ensures Step(s, e).Running? && Inv(Step(s, e).state, l)
  {
    var i, h := e.node, l.chain[0];
    IdleNode(s, l, i);
    InvalidateShape(s, e);
    if i == h {
      InvalidateAtOwner(s, l, s.invalidates[i] - 1);
    } else {
      InvalidateAtReader(s, l, i, s.invalidates[i] - 1);
    }
  }

  /** An idle node owns the page exactly when ownership is there, and has no reply coming. */
  lemma IdleNode(s: State, l: Ledger, i: Node)
    requires Structure(s, l) && i < |s.pte| && s.wait[i].Idle?
    ensures s.replies[i] == [] && (s.pte[i].Owns() <==> i == l.chain[0])
  {
    assert ReplyMatches(s.wait[i], l.place[i], s.replies[i]);
    assert Entitled(i == l.chain[0], s.pte[i], s.wait[i], l.place[i]);
  }

  lemma GuestStep(s: State, l: Ledger, e: Event) returns (l': Ledger)
    requires Inv(s, l) && Enabled(s, e) && (e.GuestRead? || e.GuestWrite?)
    ensures Step(s, e).Running? && Inv(Step(s, e).state, l')
  {
    var i, h := e.node, l.chain[0];
    l' := l;
    assert ReplyMatches(s.wait[i], l.place[i], s.replies[i]);
    assert Entitled(i == h, s.pte[i], s.wait[i], l.place[i]);
    if e.GuestRead? {
      ReadCopy(h, i, s.pte, s.replies, s.invalidates, |s.history| - 1, s.seen);
    } else {
      NewVersion(h, s.pte, s.replies, s.invalidates, |s.history| - 1, s.seen);
      TokenRests(h, s.pte, s.wait, l.place, ReadWrite(|s.history|, {}));
      assert s.wait[h := Idle] == s.wait && l.place[h := Nowhere] == l.place;
    }
  }

  // ----- served requests -----

  lemma ServeAtManagerStep(s: State, l: Ledger, e: Event) returns (l': Ledger)
    requires Inv(s, l) && Enabled(s, e) && e.ServeAtManager?
    ensures Step(s, e).Running? && Inv(Step(s, e).state, l')
  {
    var i, s' := e.node, s;
    Applicant(s, l, i);
    if s.pte[s.manager].Owns() {
      if s.wait[i].kind == Read { s', l' := AnswerReadAtManager(s, l, i); }
      else { s', l' := AnswerWriteAtManager(s, l, i); }
      AnswerAtManagerShape(s, e);
    } else {
      if s.wait[i].kind == Read { s', l' := ForwardRead(s, l, i); }
      else { s', l' := ForwardWrite(s, l, i); }
      ForwardShape(s, e);
    }
  }

  lemma ServeForwardedStep(s: State, l: Ledger, e: Event) returns (l': Ledger)
    requires Inv(s, l) && Enabled(s, e) && e.ServeForwarded?
    ensures Step(s, e).Running? && Inv(Step(s, e).state, l')
  {
    var h, s' := e.node, s;
    Server(s, l, h);
    if s.down[h][0].kind == Read { s', l' := AnswerForwardedRead(s, l, h); }
    else { s', l' := AnswerForwardedWrite(s, l, h); }
    AnswerForwardedShape(s, e);
  }

  /** Every enabled event leads to a state that satisfies the invariant again; in particular, none panics. */
  lemma StepKeepsInv(s: State, l: Ledger, e: Event) returns (l': Ledger)
    requires Inv(s, l) && Enabled(s, e)
    ensures Step(s, e).Running? && Inv(Step(s, e).state, l')
  {
    match e
    case ReadFault(i) =>
      if s.pte[i].Readable() { QuietFaultShape(s, e); l' := l; } else { l' := AskStep(s, l, e, Read); }
    case WriteFault(i, _) =>
      if s.pte[i].ReadWrite? { QuietFaultShape(s, e); l' := l; }
      else if s.pte[i].Owns() { l' := UpgradeStep(s, l, e); }
      else { l' := AskStep(s, l, e, Write); }
    case GuestRead(_) => l' := GuestStep(s, l, e);
    case GuestWrite(_, _) => l' := GuestStep(s, l, e);
    case ServeAtManager(_) => l' := ServeAtManagerStep(s, l, e);
    case ServeForwarded(_) => l' := ServeForwardedStep(s, l, e);
    case DeliverReply(i, _) =>
      if s.wait[i].kind == Read { l' := ReceiveReadStep(s, l, e); } else { l' := ReceiveWriteStep(s, l, e); }
    case ProcessInvalidate(_) => InvalidateStep(s, l, e); l' := l;
  }
}
