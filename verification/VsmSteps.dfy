/** Every step of the protocol keeps the invariant and does not panic. */
module VsmSteps {
  import opened VsmHandlers
  import opened VsmProtocol
  import opened VsmInvariant
  import opened VsmBoxes
  import opened VsmGrants

  // ----- faults -----

  /** A node other than the manager asks the manager. */
  lemma AskManager(s: State, l: Ledger, i: Node, kind: Kind) returns (s': State, l': Ledger)
    requires Structure(s, l) && i < |s.pte| && i != s.manager && s.wait[i].Idle? && !s.pte[i].Owns()
    ensures Structure(s', l') && l'.chain[0] == l.chain[0] != i
    ensures s' == s.(pte := s.pte[i := Invalid], wait := s.wait[i := Waiting(kind)],
                     up := s.up[i := s.up[i] + [Request(kind, i)]])
    ensures s.replies[i] == []
  {
    s' := s.(pte := s.pte[i := Invalid], wait := s.wait[i := Waiting(kind)],
             up := s.up[i := s.up[i] + [Request(kind, i)]]);
    l' := l.(place := l.place[i := ToManager]);
    if i in l.chain { ChainPlaces(s, l, i); }
    UpdateOwn(s.wait, l.place, s.up, s.replies, i, Waiting(kind), ToManager, []);
    assert s.replies[i := []] == s.replies;
    FreeToMove(s.wait, l.place, s.down, i, Waiting(kind), ToManager);
    UpdateToken(l.chain[0], s.pte, s.wait, l.place, i, Invalid, Waiting(kind), ToManager);
  }

  /** The manager asks the owner it has on record, which is never itself. */
  lemma AskOwner(s: State, l: Ledger, kind: Kind) returns (s': State, l': Ledger)
    requires Structure(s, l) && s.wait[s.manager].Idle? && !s.pte[s.manager].Owns()
    ensures Structure(s', l') && l'.chain[0] == l.chain[0] != s.manager && s.dir != s.manager
    ensures s' == s.(pte := s.pte[s.manager := Invalid], wait := s.wait[s.manager := Waiting(kind)],
                     down := s.down[s.dir := s.down[s.dir] + [Request(kind, s.manager)]])
    ensures s.replies[s.manager] == []
  {
    var m, r := s.manager, Request(kind, s.manager);
    s' := s.(pte := s.pte[m := Invalid], wait := s.wait[m := Waiting(kind)],
             down := s.down[s.dir := s.down[s.dir] + [r]]);
    l' := Ledger(if kind == Write then l.chain + [m] else l.chain, l.place[m := Forwarded(s.dir)]);
    if m in l.chain { ChainPlaces(s, l, m); }
    UpdateOwn(s.wait, l.place, s.up, s.replies, m, Waiting(kind), Forwarded(s.dir), []);
    assert s.up[m := []] == s.up && s.replies[m := []] == s.replies;
    UpdateToken(l.chain[0], s.pte, s.wait, l.place, m, Invalid, Waiting(kind), Forwarded(s.dir));
    Forward(s.wait, l.place, s.down, s.dir, r);
    if kind == Read {
      LinkRead(l.chain, s.down, r);
    } else {
      LinkWrite(l.chain, s.down, r);
    }
  }

  // ----- served requests -----

  /** A request on its way to the manager is its node's only one, and that node is not in the chain. */
  lemma Applicant(s: State, l: Ledger, i: Node)
    requires Structure(s, l) && i < |s.pte| && s.up[i] != []
    ensures s.wait[i].Waiting? && s.up[i] == [Request(s.wait[i].kind, i)] && s.replies[i] == []
    ensures l.place[i].ToManager? && i != s.manager && i !in l.chain && s.pte[i].Invalid?
  {
    assert s.up[i] == Asked(i, s.wait[i], l.place[i]);
    assert ReplyMatches(s.wait[i], l.place[i], s.replies[i]);
    if i in l.chain { ChainPlaces(s, l, i); }
    assert Entitled(i == l.chain[0], s.pte[i], s.wait[i], l.place[i]);
  }

  /** The request of a waiting node leaves its channel to the manager. */
  lemma Reassign(s: State, l: Ledger, i: Node, p: Place)
    requires Structure(s, l) && i < |s.pte| && s.up[i] != [] && p.Forwarded?
    ensures Places(s.wait, l.place[i := p]) && UpBoxes(s.wait, l.place[i := p], s.up[i := []])
    ensures ReplyBoxes(s.wait, l.place[i := p], s.replies)
    ensures Token(l.chain[0], s.pte, s.wait, l.place[i := p])
    ensures s.wait[i := s.wait[i]] == s.wait
  {
    Applicant(s, l, i);
    UpdateOwn(s.wait, l.place, s.up, s.replies, i, s.wait[i], p, []);
    UpdateToken(l.chain[0], s.pte, s.wait, l.place, i, s.pte[i], s.wait[i], p);
    assert s.wait[i := s.wait[i]] == s.wait && s.replies[i := []] == s.replies && s.pte[i := s.pte[i]] == s.pte;
  }

  lemma ForwardRead(s: State, l: Ledger, i: Node) returns (s': State, l': Ledger)
    requires Inv(s, l) && i < |s.pte| && s.up[i] == [Request(Read, i)]
    requires s.wait[s.manager].Idle? && !s.pte[s.manager].Owns()
    ensures i != s.dir && Inv(s', l')
    ensures s' == s.(up := s.up[i := []], down := s.down[s.dir := s.down[s.dir] + [Request(Read, i)]])
  {
    Applicant(s, l, i);
    var r, d := Request(Read, i), s.dir;
    if s.manager in l.chain { ChainPlaces(s, l, s.manager); }
    l' := l.(place := l.place[i := Forwarded(d)]);
    s' := s.(up := s.up[i := []], down := s.down[d := s.down[d] + [r]]);
    Reassign(s, l, i, Forwarded(d));
    Forward(s.wait, l.place, s.down, d, r);
    LinkRead(l.chain, s.down, r);
  }

  lemma ForwardWrite(s: State, l: Ledger, i: Node) returns (s': State, l': Ledger)
    requires Inv(s, l) && i < |s.pte| && s.up[i] == [Request(Write, i)]
    requires s.wait[s.manager].Idle? && !s.pte[s.manager].Owns()
    ensures i != s.dir && Inv(s', l')
    ensures s' == s.(up := s.up[i := []], down := s.down[s.dir := s.down[s.dir] + [Request(Write, i)]], dir := i)
  {
    Applicant(s, l, i);
    var r, d := Request(Write, i), s.dir;
    if s.manager in l.chain { ChainPlaces(s, l, s.manager); }
    l' := Ledger(l.chain + [i], l.place[i := Forwarded(d)]);
    s' := s.(up := s.up[i := []], down := s.down[d := s.down[d] + [r]], dir := i);
    Reassign(s, l, i, Forwarded(d));
    Forward(s.wait, l.place, s.down, d, r);
    LinkWrite(l.chain, s.down, r);
    assert Directory(s'.manager, s'.dir, l'.chain, s'.down) by { assert s.manager !in l'.chain; }
    assert Structure(s', l') && l'.chain[0] == l.chain[0];
  }

  /** The manager owns the page and shares it with `i`. */
  lemma AnswerReadAtManager(s: State, l: Ledger, i: Node) returns (s': State, l': Ledger)
    requires Inv(s, l) && i < |s.pte| && s.up[i] == [Request(Read, i)]
    requires s.wait[s.manager].Idle? && s.pte[s.manager].Owns()
    ensures Inv(s', l')
    ensures var m, e := s.manager, s.pte[s.manager];
      s' == s.(up := s.up[i := []], pte := s.pte[m := ReadOnly(e.version, e.copyset + {i})],
               replies := s.replies[i := [Reply(false, e.version, {})]])
  {
    Applicant(s, l, i);
    var m, e, reply := s.manager, s.pte[s.manager], Reply(false, s.pte[s.manager].version, {});
    assert Entitled(m == l.chain[0], s.pte[m], s.wait[m], l.place[m]);
    s' := s.(up := s.up[i := []], pte := s.pte[m := ReadOnly(e.version, e.copyset + {i})],
             replies := s.replies[i := [reply]]);
    l' := l.(place := l.place[i := Answered]);
    Answer(s, l, i, reply);
    FreeToMove(s.wait, l.place, s.down, i, s.wait[i], Answered);
    TokenStays(m, s.pte, s.wait, l.place, i, ReadOnly(e.version, e.copyset + {i}));
    ShareCopy(m, i, s.pte, s.replies, s.invalidates, |s.history| - 1, s.seen);
  }

  /** Only the requester's own boxes change when its request is answered. */
  lemma Answer(s: State, l: Ledger, i: Node, reply: Reply)
    requires Structure(s, l) && i < |s.pte| && s.wait[i].Waiting?
    requires reply.wnr == (s.wait[i].kind == Write)
    ensures Places(s.wait, l.place[i := Answered])
    ensures UpBoxes(s.wait, l.place[i := Answered], s.up[i := []])
    ensures ReplyBoxes(s.wait, l.place[i := Answered], s.replies[i := [reply]])
    ensures s.wait[i := s.wait[i]] == s.wait
    ensures forall k :: 0 <= k < |s.pte| && s.wait[k].Idle? ==> s.replies[k] == []
  {
    UpdateOwn(s.wait, l.place, s.up, s.replies, i, s.wait[i], Answered, [reply]);
    assert s.wait[i := s.wait[i]] == s.wait;
    forall k | 0 <= k < |s.pte| && s.wait[k].Idle? ensures s.replies[k] == [] {
      assert ReplyMatches(s.wait[k], l.place[k], s.replies[k]);
    }
  }

  /** The manager owns the page and hands it to `i`, which it records. */
  lemma AnswerWriteAtManager(s: State, l: Ledger, i: Node) returns (s': State, l': Ledger)
    requires Inv(s, l) && i < |s.pte| && s.up[i] == [Request(Write, i)]
    requires s.wait[s.manager].Idle? && s.pte[s.manager].Owns()
    ensures Inv(s', l')
    ensures var m, e := s.manager, s.pte[s.manager];
      s' == s.(up := s.up[i := []], pte := s.pte[m := Invalid], dir := i,
               replies := s.replies[i := [Reply(true, e.version, e.copyset)]])
  {
    Applicant(s, l, i);
    var m, e, reply := s.manager, s.pte[s.manager], Reply(true, s.pte[s.manager].version, s.pte[s.manager].copyset);
    assert Entitled(m == l.chain[0], s.pte[m], s.wait[m], l.place[m]);
    s' := s.(up := s.up[i := []], pte := s.pte[m := Invalid], dir := i, replies := s.replies[i := [reply]]);
    l' := Ledger([i], l.place[i := Answered]);
    Answer(s, l, i, reply);
    FreeToMove(s.wait, l.place, s.down, i, s.wait[i], Answered);
    TokenMoves(m, s.pte, s.wait, l.place, i);
    PassOwnership(m, i, s.pte, s.replies, s.invalidates, |s.history| - 1, s.seen);
    RestartChain(m, s.dir, l.chain, s.down, i);
  }

  /** A node that is sent requests and is not waiting owns the page, and is not the manager. */
  lemma Server(s: State, l: Ledger, h: Node)
    requires Structure(s, l) && h < |s.pte| && s.down[h] != [] && s.wait[h].Idle?
    ensures h == l.chain[0] && s.pte[h].Owns() && h != s.manager && s.replies[h] == []
    ensures var r := s.down[h][0];
      && r.from < |s.pte| && r.from != h && s.wait[r.from] == Waiting(r.kind) && s.pte[r.from].Invalid?
      && s.up[r.from] == [] && s.replies[r.from] == []
  {
    assert h in l.chain;
    ChainPlaces(s, l, h);
    var r := s.down[h][0];
    assert Entry(r, h, s.wait, l.place);
    assert ReplyMatches(s.wait[h], l.place[h], s.replies[h]);
    assert ReplyMatches(s.wait[r.from], l.place[r.from], s.replies[r.from]);
    assert Entitled(r.from == h, s.pte[r.from], s.wait[r.from], l.place[r.from]);
    assert s.up[r.from] == Asked(r.from, s.wait[r.from], l.place[r.from]);
  }

  lemma AnswerForwardedRead(s: State, l: Ledger, h: Node) returns (s': State, l': Ledger)
    requires Inv(s, l) && h < |s.pte| && s.down[h] != [] && s.wait[h].Idle? && s.down[h][0].kind == Read
    ensures Inv(s', l')
    ensures var e, x := s.pte[h], s.down[h][0].from;
      && x < |s.pte| && e.Owns()
      && s' == s.(down := s.down[h := s.down[h][1..]], pte := s.pte[h := ReadOnly(e.version, e.copyset + {x})],
                  replies := s.replies[x := [Reply(false, e.version, {})]])
  {
    Server(s, l, h);
    var e, x := s.pte[h], s.down[h][0].from;
    var e', reply := ReadOnly(e.version, e.copyset + {x}), Reply(false, e.version, {});
    s' := s.(down := s.down[h := s.down[h][1..]], pte := s.pte[h := e'], replies := s.replies[x := [reply]]);
    l' := l.(place := l.place[x := Answered]);
    Answer(s, l, x, reply);
    assert s.up[x := []] == s.up;
    TakeHead(s.wait, l.place, s.down, h);
    LinkServeRead(l.chain, s.down);
    TokenStays(h, s.pte, s.wait, l.place, x, e');
    ShareCopy(h, x, s.pte, s.replies, s.invalidates, |s.history| - 1, s.seen);
  }

  lemma HandOver(s: State, l: Ledger, h: Node, reply: Reply) returns (s': State, l': Ledger)
    requires Structure(s, l) && h < |s.pte| && s.down[h] != [] && s.wait[h].Idle? && s.down[h][0].kind == Write
    requires reply.wnr
    ensures Structure(s', l') && s.down[h][0].from < |s.pte| && l'.chain[0] == s.down[h][0].from
    ensures s' == s.(down := s.down[h := s.down[h][1..]], pte := s.pte[h := Invalid],
                     replies := s.replies[s.down[h][0].from := [reply]])
  {
    Server(s, l, h);
    var x := s.down[h][0].from;
    s' := s.(down := s.down[h := s.down[h][1..]], pte := s.pte[h := Invalid], replies := s.replies[x := [reply]]);
    l' := Ledger(l.chain[1..], l.place[x := Answered]);
    Answer(s, l, x, reply);
    assert s.up[x := []] == s.up;
    TakeHead(s.wait, l.place, s.down, h);
    LinkServeWrite(l.chain, s.down);
    TokenMoves(h, s.pte, s.wait, l.place, x);
    DirectoryServed(s.manager, s.dir, l.chain, s.down);
  }

  lemma AnswerForwardedWrite(s: State, l: Ledger, h: Node) returns (s': State, l': Ledger)
    requires Inv(s, l) && h < |s.pte| && s.down[h] != [] && s.wait[h].Idle? && s.down[h][0].kind == Write
    ensures Inv(s', l')
    ensures var e, x := s.pte[h], s.down[h][0].from;
      && x < |s.pte| && e.Owns()
      && s' == s.(down := s.down[h := s.down[h][1..]], pte := s.pte[h := Invalid],
                  replies := s.replies[x := [Reply(true, e.version, e.copyset)]])
  {
    Server(s, l, h);
    var e, x := s.pte[h], s.down[h][0].from;
    s', l' := HandOver(s, l, h, Reply(true, e.version, e.copyset));
    PassOwnership(h, x, s.pte, s.replies, s.invalidates, |s.history| - 1, s.seen);
  }
}
