/** What each kind of step does to the state, field by field. */
module VsmShapes {
  import opened Wrappers
  import opened VsmHandlers
  import opened VsmProtocol

  lemma NoInvalidates(counts: seq<nat>)
    ensures AddInvalidates(counts, {}) == counts
  {
  }

  ghost predicate Asks(s: State, e: Event, kind: Kind)
    requires s.WellFormed() && Enabled(s, e)
  {
    || (e.ReadFault? && kind == Read && s.pte[e.node].Invalid?)
    || (e.WriteFault? && kind == Write && !s.pte[e.node].Owns())
  }

  lemma AskShape(s: State, e: Event, kind: Kind)
    requires s.WellFormed() && s.dir < |s.pte| && Enabled(s, e) && Asks(s, e, kind)
    ensures var i, r := e.node, Request(kind, e.node);
      var s1 := s.(pte := s.pte[i := Invalid], wait := s.wait[i := Waiting(kind)]);
      Step(s, e) == Running(if i == s.manager then s1.(down := s.down[s.dir := s.down[s.dir] + [r]])
                            else s1.(up := s.up[i := s.up[i] + [r]]))
  {
    var i := e.node;
    NoInvalidates(s.invalidates);
    assert s.pte[i].Invalid? ==> s.pte[i := s.pte[i]] == s.pte[i := Invalid];
  }

  /** A fault that another processor's fault has already resolved. */
  lemma QuietFaultShape(s: State, e: Event)
    requires s.WellFormed() && Enabled(s, e)
    requires (e.ReadFault? && s.pte[e.node].Readable()) || (e.WriteFault? && s.pte[e.node].ReadWrite?)
    ensures Step(s, e) == Running(s)
  {
    var i := e.node;
    NoInvalidates(s.invalidates);
    assert s.pte[i := s.pte[i]] == s.pte && s.wait[i := Idle] == s.wait;
  }

  /** The state after node `i` takes exclusive access at version `v`, with the given copyset to invalidate. */
  function Exclusive(s: State, i: Node, v: nat, copyset: set<Node>, store: Option<Page>): State
    requires s.WellFormed() && i < |s.pte|
  {
    var s1 := s.(pte := s.pte[i := ReadWrite(if store.Some? then |s.history| else v, {})], wait := s.wait[i := Idle],
                 invalidates := AddInvalidates(s.invalidates, copyset - {i}));
    if store.Some? then s1.(history := s.history + [store.value], seen := s.seen[i := |s.history|]) else s1
  }

  lemma UpgradeShape(s: State, e: Event)
    requires s.WellFormed() && Enabled(s, e)
    requires e.WriteFault? && s.pte[e.node].ReadOnly? && s.pte[e.node].Owns()
    ensures Step(s, e) == Running(Exclusive(s, e.node, s.pte[e.node].version, s.pte[e.node].copyset, e.store))
  {
  }

  lemma ReceiveReadShape(s: State, e: Event)
    requires s.WellFormed() && Enabled(s, e) && e.DeliverReply? && s.wait[e.node].kind == Read && s.pte[e.node].Invalid?
    ensures var i := e.node;
      Step(s, e) == Running(s.(replies := s.replies[i := s.replies[i][1..]], wait := s.wait[i := Idle],
                               pte := s.pte[i := ReadOnly(s.replies[i][0].version, s.replies[i][0].copyset)]))
  {
    NoInvalidates(s.invalidates);
  }

  lemma ReceiveWriteShape(s: State, e: Event)
    requires s.WellFormed() && Enabled(s, e) && e.DeliverReply? && s.wait[e.node].kind == Write
    requires s.pte[e.node].Invalid?
    ensures var i := e.node;
      Step(s, e) == Running(Exclusive(s.(replies := s.replies[i := s.replies[i][1..]]), i,
                                      s.replies[i][0].version, s.replies[i][0].copyset, e.store))
  {
  }

  lemma InvalidateShape(s: State, e: Event)
    requires s.WellFormed() && Enabled(s, e) && e.ProcessInvalidate?
    ensures var i := e.node;
      Step(s, e) == Running(s.(invalidates := s.invalidates[i := s.invalidates[i] - 1],
                               pte := if s.pte[i].Owns() then s.pte else s.pte[i := Invalid]))
  {
    var i := e.node;
    NoInvalidates(s.invalidates[i := s.invalidates[i] - 1]);
    assert s.pte[i := s.pte[i]] == s.pte && s.wait[i := Idle] == s.wait;
  }

  lemma ForwardShape(s: State, e: Event)
    requires s.WellFormed() && s.dir < |s.pte| && Enabled(s, e)
    requires e.ServeAtManager? && !s.pte[s.manager].Owns() && s.up[e.node] == [Request(s.up[e.node][0].kind, e.node)]
    requires e.node != s.dir
    ensures var i, r := e.node, s.up[e.node][0];
      Step(s, e) == Running(s.(up := s.up[i := []], down := s.down[s.dir := s.down[s.dir] + [r]],
                               dir := if r.kind == Write then i else s.dir))
  {
    var m := s.manager;
    NoInvalidates(s.invalidates);
    assert s.up[e.node][1..] == [];
    assert s.pte[m := s.pte[m]] == s.pte && s.wait[m := Idle] == s.wait;
  }

  /** What the owner `h` of entry `e` sends back for a request. */
  function Granted(e: Pte, kind: Kind): Reply
    requires e.Owns()
  {
    if kind == Read then Reply(false, e.version, {}) else Reply(true, e.version, e.copyset)
  }

  /** What remains of the owner's entry. */
  function Retained(e: Pte, r: Request): Pte
    requires e.Owns()
  {
    if r.kind == Read then ReadOnly(e.version, e.copyset + {r.from}) else Invalid
  }

  lemma AnswerAtManagerShape(s: State, e: Event)
    requires s.WellFormed() && Enabled(s, e)
    requires e.ServeAtManager? && s.pte[s.manager].Owns() && s.up[e.node] == [Request(s.up[e.node][0].kind, e.node)]
    requires s.replies[e.node] == []
    ensures var i, r, m := e.node, s.up[e.node][0], s.manager;
      Step(s, e) == Running(s.(up := s.up[i := []], pte := s.pte[m := Retained(s.pte[m], r)],
                               replies := s.replies[i := [Granted(s.pte[m], r.kind)]],
                               dir := if r.kind == Write then i else s.dir))
  {
    var m := s.manager;
    NoInvalidates(s.invalidates);
    assert s.up[e.node][1..] == [] && s.wait[m := Idle] == s.wait;
    assert s.replies[e.node] + [Granted(s.pte[m], s.up[e.node][0].kind)] == [Granted(s.pte[m], s.up[e.node][0].kind)];
  }

  lemma AnswerForwardedShape(s: State, e: Event)
    requires s.WellFormed() && Enabled(s, e)
    requires e.ServeForwarded? && e.node != s.manager && s.pte[e.node].Owns()
    requires s.down[e.node][0].from < |s.pte| && s.replies[s.down[e.node][0].from] == []
    ensures var h, r := e.node, s.down[e.node][0];
      Step(s, e) == Running(s.(down := s.down[h := s.down[h][1..]], pte := s.pte[h := Retained(s.pte[h], r)],
                               replies := s.replies[r.from := [Granted(s.pte[h], r.kind)]]))
  {
    var h, r := e.node, s.down[e.node][0];
    NoInvalidates(s.invalidates);
    assert s.wait[h := Idle] == s.wait;
    assert s.replies[r.from] + [Granted(s.pte[h], r.kind)] == [Granted(s.pte[h], r.kind)];
  }

  lemma CommitSeen(s: State, i: Node, o: Outcome, k: Node)
    requires s.WellFormed() && i < |s.pte| && k < |s.pte| && o.Ok? && s.seen[k] <= |s.history|
    ensures Commit(s, i, o).Running?
    ensures var s' := Commit(s, i, o).state;
      s.history <= s'.history && k < |s'.seen| && s.seen[k] <= s'.seen[k]
  {
  }

  /** History only grows; what a guest has seen changes only to a version it holds or a new one. */
  lemma SeenShape(s: State, e: Event, k: Node)
    requires s.WellFormed() && Enabled(s, e) && Step(s, e).Running? && k < |s.pte|
    requires s.seen[k] <= |s.history| && (s.pte[k].Readable() ==> s.seen[k] <= s.pte[k].version)
    ensures var s' := Step(s, e).state;
      s.history <= s'.history && k < |s'.seen| && s.seen[k] <= s'.seen[k]
  {
    var i := e.node;
    match e
    case ReadFault(_) => CommitSeen(s, i, VsmHandlers.ReadFault(s.LocalView(i)), k);
    case WriteFault(_, store) => CommitSeen(s, i, VsmHandlers.WriteFault(s.LocalView(i), store, |s.history|), k);
    case GuestRead(_) =>
    case GuestWrite(_, _) =>
    case ServeAtManager(_) =>
      CommitSeen(s.(up := s.up[i := s.up[i][1..]]), s.manager, Serve(s.LocalView(s.manager), s.up[i][0]), k);
    case ServeForwarded(_) =>
      CommitSeen(s.(down := s.down[i := s.down[i][1..]]), i, Serve(s.LocalView(i), s.down[i][0]), k);
    case DeliverReply(_, store) =>
      CommitSeen(s.(replies := s.replies[i := s.replies[i][1..]]), i,
                 Deliver(s.LocalView(i), s.wait[i].kind, s.replies[i][0], store, |s.history|), k);
    case ProcessInvalidate(_) =>
      CommitSeen(s.(invalidates := s.invalidates[i := s.invalidates[i] - 1]), i, InvalidateServer(s.LocalView(i)), k);
  }
}
