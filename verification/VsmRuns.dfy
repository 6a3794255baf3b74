/**
 What holds in every run of the protocol: no panic, one ownership token, every copy accounted
 for, coherence when nothing is in flight, and reads that never go back in the write order.
 */
module VsmRuns {
  import opened VsmHandlers
  import opened VsmProtocol
  import opened VsmInvariant
  import opened VsmShapes
  import opened VsmSafety

  /** Each event is enabled when its turn comes. */
  ghost predicate Admissible(s: State, events: seq<Event>)
    decreases |events|
  {
    && s.WellFormed()
    && (events != [] ==>
          && Enabled(s, events[0])
          && (Step(s, events[0]).Running? ==> Admissible(Step(s, events[0]).state, events[1..])))
  }

  ghost function Execute(s: State, events: seq<Event>): Result
    requires Admissible(s, events)
    decreases |events|
  {
    if events == [] then Running(s)
    else match Step(s, events[0])
      case Panicked(reason) => Panicked(reason)
      case Running(s') => Execute(s', events[1..])
  }

  ghost predicate Reachable(s: State) {
    exists n: nat, manager: Node, page: Page, events: seq<Event> ::
      IsRun(n, manager, page, events, s)
  }

  ghost predicate IsRun(n: nat, manager: Node, page: Page, events: seq<Event>, s: State) {
    && manager < n && Admissible(Initial(n, manager, page), events)
    && Execute(Initial(n, manager, page), events) == Running(s)
  }

  lemma {:induction false} RunKeepsInv(s: State, l: Ledger, events: seq<Event>) returns (l': Ledger)
    requires Inv(s, l) && Admissible(s, events)
    ensures Execute(s, events).Running? && Inv(Execute(s, events).state, l')
    decreases |events|
  {
    l' := l;
    if events != [] {
      l' := StepKeepsInv(s, l, events[0]);
      l' := RunKeepsInv(Step(s, events[0]).state, l', events[1..]);
    }
  }

  lemma {:induction false} ExecuteOneMore(s: State, events: seq<Event>, e: Event)
    requires Admissible(s, events) && Execute(s, events).Running?
    requires Execute(s, events).state.WellFormed() && Enabled(Execute(s, events).state, e)
    requires Step(Execute(s, events).state, e).Running? && Step(Execute(s, events).state, e).state.WellFormed()
    ensures Admissible(s, events + [e]) && Execute(s, events + [e]) == Step(Execute(s, events).state, e)
    decreases |events|
  {
    if events == [] {
      assert [] + [e] == [e] && [e][1..] == [];
    } else {
      assert (events + [e])[1..] == events[1..] + [e];
      ExecuteOneMore(Step(s, events[0]).state, events[1..], e);
    }
  }

  lemma ReachableNext(s: State, e: Event, s': State)
    requires Reachable(s) && s.WellFormed() && Enabled(s, e) && Step(s, e) == Running(s') && s'.WellFormed()
    ensures Reachable(s')
  {
    var n: nat, manager: Node, page, events :| IsRun(n, manager, page, events, s);
    ExecuteOneMore(Initial(n, manager, page), events, e);
    assert IsRun(n, manager, page, events + [e], s');
  }

  lemma ReachableInitial(n: nat, manager: Node, page: Page)
    requires manager < n
    ensures Reachable(Initial(n, manager, page))
  {
    assert IsRun(n, manager, page, [], Initial(n, manager, page));
  }

  /** No run of any length, on any number of nodes, reaches a panic. */
  lemma NeverPanics(n: nat, manager: Node, page: Page, events: seq<Event>)
    requires manager < n && Admissible(Initial(n, manager, page), events)
    ensures Execute(Initial(n, manager, page), events).Running?
  {
    InitialInv(n, manager, page);
    var l' := RunKeepsInv(Initial(n, manager, page), Ledger([manager], seq(n, _ => Nowhere)), events);
  }

  lemma ReachableInv(s: State) returns (l: Ledger)
    requires Reachable(s)
    ensures Inv(s, l)
  {
    var n: nat, manager: Node, page, events :| IsRun(n, manager, page, events, s);
    InitialInv(n, manager, page);
    l := RunKeepsInv(Initial(n, manager, page), Ledger([manager], seq(n, _ => Nowhere)), events);
  }

  lemma ReachableStep(s: State, e: Event)
    requires Reachable(s) && s.WellFormed() && Enabled(s, e)
    ensures Step(s, e).Running? && Reachable(Step(s, e).state)
  {
    var l := ReachableInv(s);
    var l' := StepKeepsInv(s, l, e);
    ReachableNext(s, e, Step(s, e).state);
  }

  /**
   Outstanding write requests form an acyclic chain from the node ownership is at (or on its way to)
   to the node in the manager's directory, or to the manager itself: every node whose request for
   write access is past the manager is in it, each node of it has the write request of the next as
   its last, and the last node has none; a request to any other node never exists, and a manager
   that does not own the page never has itself on record.
   */
  lemma OwnershipChain(s: State) returns (chain: seq<Node>)
    requires Reachable(s)
    ensures Path(chain, |s.pte|) && s.WellFormed()
    ensures s.pte[chain[0]].Owns() || (s.replies[chain[0]] != [] && s.replies[chain[0]][0].wnr)
    ensures forall k :: 0 <= k < |chain| - 1 ==> HandsOn(chain, s.down, k)
    ensures AllReads(s.down[Last(chain)])
    ensures forall i :: 0 <= i < |s.pte| && s.wait[i] == Waiting(Write) && s.up[i] == [] ==> i in chain
    ensures forall j :: 0 <= j < |s.pte| && j !in chain ==> s.down[j] == []
    ensures if s.manager in chain then s.manager == Last(chain) else s.dir == Last(chain)
    ensures s.wait[s.manager].Idle? && !s.pte[s.manager].Owns() ==> s.dir == Last(chain) != s.manager
  {
    var l := ReachableInv(s);
    chain := l.chain;
    var h := chain[0];
    assert ReplyMatches(s.wait[h], l.place[h], s.replies[h]);
    if s.manager in chain { ChainPlaces(s, l, s.manager); }
    assert Last(chain) in chain;
    forall i | 0 <= i < |s.pte| && s.wait[i] == Waiting(Write) && s.up[i] == [] ensures i in chain {
      WriterInChain(s, l, i);
    }
  }

  /** A node whose request for write access is past the manager has its place in the chain. */
  lemma WriterInChain(s: State, l: Ledger, i: Node)
    requires Structure(s, l) && i < |s.pte| && s.wait[i] == Waiting(Write) && s.up[i] == []
    ensures i in l.chain
  {
    assert s.up[i] == Asked(i, s.wait[i], l.place[i]);
    if l.place[i].Answered? {
      assert Entitled(i == l.chain[0], s.pte[i], s.wait[i], l.place[i]);
    } else {
      assert IsAt(i, s.wait[i], l.place[i], s.down);
      var j := l.place[i].at;
      assert s.down[j] != [] && j in l.chain;
      var k :| 0 <= k < |l.chain| && l.chain[k] == j;
      var p :| 0 <= p < |s.down[j]| && s.down[j][p] == Request(Write, i);
      if k < |l.chain| - 1 { assert HandsOn(l.chain, s.down, k); }
    }
  }

  // ----- exactly one ownership token -----

  function WriteReplies(rs: seq<Reply>): nat {
    if rs == [] then 0 else (if rs[0].wnr then 1 else 0) + WriteReplies(rs[1..])
  }

  /** Owner entries plus write replies in flight, over all nodes. */
  function Tokens(pte: seq<Pte>, replies: seq<seq<Reply>>): nat
    requires |pte| == |replies|
  {
    if pte == [] then 0
    else var n := |pte| - 1;
         Tokens(pte[..n], replies[..n]) + (if pte[n].Owns() then 1 else 0) + WriteReplies(replies[n])
  }

  lemma {:induction false} CountTokens(pte: seq<Pte>, replies: seq<seq<Reply>>, h: int)
    requires |pte| == |replies|
    requires forall i :: 0 <= i < |pte| ==>
      (if pte[i].Owns() then 1 else 0) + WriteReplies(replies[i]) == if i == h then 1 else 0
    ensures Tokens(pte, replies) == if 0 <= h < |pte| then 1 else 0
  {
    if pte != [] {
      var n := |pte| - 1;
      CountTokens(pte[..n], replies[..n], h);
    }
  }

  /** Ownership is never lost and never duplicated, however late an invalidate arrives. */
  lemma OneToken(s: State)
    requires Reachable(s)
    ensures s.WellFormed() && Tokens(s.pte, s.replies) == 1
  {
    var l := ReachableInv(s);
    var h := l.chain[0];
    forall i | 0 <= i < |s.pte|
      ensures (if s.pte[i].Owns() then 1 else 0) + WriteReplies(s.replies[i]) == if i == h then 1 else 0
    {
      assert Entitled(i == h, s.pte[i], s.wait[i], l.place[i]);
      assert ReplyMatches(s.wait[i], l.place[i], s.replies[i]);
      if s.replies[i] != [] { assert WriteReplies(s.replies[i][1..]) == 0; }
    }
    CountTokens(s.pte, s.replies, h);
  }

  // ----- copies -----

  /** The version and copyset that travel with ownership, and the node it is at or on its way to. */
  ghost predicate IsToken(s: State, h: Node, version: nat, copyset: set<Node>)
    requires s.WellFormed()
  {
    && h < |s.pte|
    && if s.pte[h].Owns() then version == s.pte[h].version && copyset == s.pte[h].copyset
       else s.replies[h] != [] && s.replies[h][0] == Reply(true, version, copyset)
  }

  /** A copy, or a read reply in flight, is current and in the copyset, or has an invalidate pending. */
  lemma CopiesAreCovered(s: State) returns (h: Node, version: nat, copyset: set<Node>)
    requires Reachable(s)
    ensures s.WellFormed() && IsToken(s, h, version, copyset) && version == |s.history| - 1
    ensures forall i :: 0 <= i < |s.pte| && i != h && s.pte[i].Readable() ==>
      (i in copyset && s.pte[i].version == version) || s.invalidates[i] > 0
    ensures forall i :: 0 <= i < |s.pte| && i != h && s.replies[i] != [] ==>
      (i in copyset && s.replies[i][0].version == version) || s.invalidates[i] > 0
  {
    var l := ReachableInv(s);
    h := l.chain[0];
    version, copyset := TokenVersion(s.pte[h], s.replies[h]), TokenCopyset(s.pte[h], s.replies[h]);
    assert ReplyMatches(s.wait[h], l.place[h], s.replies[h]);
    assert Entitled(true, s.pte[h], s.wait[h], l.place[h]);
    forall i | 0 <= i < |s.pte| && i != h
      ensures CopyOk(i, s.pte[i], s.replies[i], version, copyset, s.invalidates[i])
    {
    }
  }

  /** Nothing in flight, nobody waiting. */
  ghost predicate Quiescent(s: State) {
    && s.WellFormed()
    && forall i :: 0 <= i < |s.pte| ==>
         s.wait[i].Idle? && s.up[i] == [] && s.down[i] == [] && s.replies[i] == [] && s.invalidates[i] == 0
  }

  /** What a guest on node `i` reads. */
  ghost predicate Reads(s: State, i: Node, page: Page) {
    && s.WellFormed() && i < |s.pte| && s.pte[i].Readable()
    && s.pte[i].version < |s.history| && s.history[s.pte[i].version] == page
  }

  /** When nothing is in flight there is one owner, everyone reads the last value written, and a writer is alone. */
  lemma QuiescentCoherence(s: State) returns (owner: Node)
    requires Reachable(s) && Quiescent(s)
    ensures owner < |s.pte| && s.pte[owner].Owns() && |s.history| > 0
    ensures forall i :: 0 <= i < |s.pte| && s.pte[i].Owns() ==> i == owner
    ensures forall i :: 0 <= i < |s.pte| && s.pte[i].Readable() ==> Reads(s, i, s.history[|s.history| - 1])
    ensures forall i :: 0 <= i < |s.pte| && i != owner && s.pte[i].Readable() ==> i in s.pte[owner].copyset
    ensures s.pte[owner].ReadWrite? ==> forall i :: 0 <= i < |s.pte| && i != owner ==> s.pte[i].Invalid?
  {
    var l := ReachableInv(s);
    var version, copyset;
    owner, version, copyset := CopiesAreCovered(s);
    assert owner == l.chain[0] by { assert Entitled(owner == l.chain[0], s.pte[owner], s.wait[owner], l.place[owner]); }
    assert Entitled(true, s.pte[owner], s.wait[owner], l.place[owner]);
    forall i | 0 <= i < |s.pte| && s.pte[i].Owns() ensures i == owner {
      assert Entitled(i == owner, s.pte[i], s.wait[i], l.place[i]);
    }
  }

  /**
   While messages are in flight a writer need not be alone, since invalidation is not acknowledged:
   it is alone exactly when no invalidate is still on its way to a node that has the page.
   */
  lemma WriterAlone(s: State, owner: Node)
    requires Reachable(s) && s.WellFormed() && owner < |s.pte| && s.pte[owner].ReadWrite?
    ensures (forall i :: 0 <= i < |s.pte| && i != owner ==> s.pte[i].Invalid?)
       <==> (forall i :: 0 <= i < |s.pte| && i != owner && s.invalidates[i] > 0 ==> s.pte[i].Invalid?)
  {
    var l := ReachableInv(s);
    var h, version, copyset := CopiesAreCovered(s);
    assert Entitled(owner == l.chain[0], s.pte[owner], s.wait[owner], l.place[owner]);
    assert h == l.chain[0] by {
      assert Entitled(h == l.chain[0], s.pte[h], s.wait[h], l.place[h]);
      assert ReplyMatches(s.wait[h], l.place[h], s.replies[h]);
    }
  }

  // ----- per-location consistency -----

  /** No step forgets a write or takes back what a guest has seen. */
  lemma StepMonotone(s: State, l: Ledger, e: Event, i: Node)
    requires Inv(s, l) && Enabled(s, e) && i < |s.pte|
    ensures Step(s, e).Running?
    ensures s.history <= Step(s, e).state.history && i < |Step(s, e).state.seen|
    ensures s.seen[i] <= Step(s, e).state.seen[i]
  {
    var l' := StepKeepsInv(s, l, e);
    assert NotOlder(s.pte[i], s.replies[i], |s.history| - 1, s.seen[i]);
    SeenShape(s, e, i);
  }

  lemma {:induction false} RunMonotone(s: State, l: Ledger, events: seq<Event>, i: Node)
    requires Inv(s, l) && Admissible(s, events) && i < |s.pte|
    ensures Execute(s, events).Running?
    ensures var s' := Execute(s, events).state; s.history <= s'.history && i < |s'.seen| && s.seen[i] <= s'.seen[i]
    decreases |events|
  {
    if events != [] {
      StepMonotone(s, l, events[0], i);
      var l' := StepKeepsInv(s, l, events[0]);
      RunMonotone(Step(s, events[0]).state, l', events[1..], i);
    }
  }

  /**
   All writes to the page form one order, extended by every write, and no guest ever reads a
   version older than one it has read or written before, even from a copy that is out of date.
   */
  lemma ReadsNeverGoBack(s: State, events: seq<Event>, i: Node)
    requires Reachable(s) && Admissible(s, events) && i < |s.pte| && Execute(s, events).Running?
    ensures var s' := Execute(s, events).state;
      && s.history <= s'.history && s'.WellFormed() && i < |s'.pte|
      && (s'.pte[i].Readable() ==> s.seen[i] <= s'.pte[i].version < |s'.history|)
      && (s'.pte[i].ReadWrite? ==> s'.pte[i].version == |s'.history| - 1)
  {
    var l := ReachableInv(s);
    var l' := RunKeepsInv(s, l, events);
    RunMonotone(s, l, events, i);
    var s' := Execute(s, events).state;
    assert NotOlder(s'.pte[i], s'.replies[i], |s'.history| - 1, s'.seen[i]);
    assert Entitled(i == l'.chain[0], s'.pte[i], s'.wait[i], l'.place[i]);
  }
}
