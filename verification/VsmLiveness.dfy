/**
 Once guests raise no new faults, every run drains: the protocol's own steps decrease a
 weighted count of what is outstanding, and until nothing is outstanding one of them is enabled.
 */
module VsmLiveness {
  import opened Counting
  import opened Sums
  import opened Wrappers
  import opened VsmHandlers
  import opened VsmProtocol
  import opened VsmInvariant
  import opened VsmShapes
  import opened VsmSteps
  import opened VsmSafety
  import opened VsmRuns

  lemma {:induction false} InvalidatesAdded(counts: seq<nat>, targets: set<Node>)
    ensures Total(Itself, AddInvalidates(counts, targets)) <= Total(Itself, counts) + |targets|
  {
    if counts != [] {
      var n := |counts| - 1;
      var rest := targets - {n};
      assert AddInvalidates(counts, targets)[..n] == AddInvalidates(counts[..n], rest);
      InvalidatesAdded(counts[..n], rest);
      assert n in targets ==> |rest| == |targets| - 1;
      assert n !in targets ==> rest == targets;
    }
  }

  function Itself(n: nat): nat { n }

  function Requests(box: seq<Request>): nat { |box| }

  /** A reply, and the invalidates its copyset will cause. */
  function ReplyWeight(rs: seq<Reply>): nat {
    if rs == [] then 0 else 1 + |rs[0].copyset| + ReplyWeight(rs[1..])
  }

  function CopysetSize(p: Pte): nat {
    if p.Readable() then |p.copyset| else 0
  }

  /** A forwarded request may still become a reply and a copyset entry; one at the manager may be forwarded first. */
  function Measure(s: State): nat {
    4 * Total(Requests, s.up) + 3 * Total(Requests, s.down) + Total(ReplyWeight, s.replies)
    + Total(CopysetSize, s.pte) + Total(Itself, s.invalidates)
  }

  /** The steps the protocol takes by itself. */
  predicate Internal(e: Event) {
    e.ServeAtManager? || e.ServeForwarded? || e.DeliverReply? || e.ProcessInvalidate?
  }

  lemma AnswerLess(s: State, h: Node, x: Node, r: Request)
    requires s.WellFormed() && h < |s.pte| && x < |s.pte| && s.pte[h].Owns() && s.replies[x] == []
    ensures Total(ReplyWeight, s.replies[x := [Granted(s.pte[h], r.kind)]])
            + Total(CopysetSize, s.pte[h := Retained(s.pte[h], r)])
            <= Total(ReplyWeight, s.replies) + Total(CopysetSize, s.pte) + 2
  {
    var reply := Granted(s.pte[h], r.kind);
    TotalUpdate(ReplyWeight, s.replies, x, [reply]);
    assert ReplyWeight([reply]) == 1 + |reply.copyset|;
    TotalUpdate(CopysetSize, s.pte, h, Retained(s.pte[h], r));
  }

  lemma ServeAtManagerLess(s: State, l: Ledger, e: Event)
    requires Inv(s, l) && Enabled(s, e) && e.ServeAtManager?
    ensures Step(s, e).Running? && Measure(Step(s, e).state) < Measure(s)
  {
    var i := e.node;
    var l' := StepKeepsInv(s, l, e);
    Applicant(s, l, i);
    TotalUpdate(Requests, s.up, i, []);
    var r := s.up[i][0];
    if s.pte[s.manager].Owns() {
      AnswerAtManagerShape(s, e);
      AnswerLess(s, s.manager, i, r);
    } else {
      if s.manager in l.chain { ChainPlaces(s, l, s.manager); }
      ForwardShape(s, e);
      TotalUpdate(Requests, s.down, s.dir, s.down[s.dir] + [r]);
    }
  }

  lemma ServeForwardedLess(s: State, l: Ledger, e: Event)
    requires Inv(s, l) && Enabled(s, e) && e.ServeForwarded?
    ensures Step(s, e).Running? && Measure(Step(s, e).state) < Measure(s)
  {
    var h, r := e.node, s.down[e.node][0];
    Server(s, l, h);
    AnswerForwardedShape(s, e);
    TotalUpdate(Requests, s.down, h, s.down[h][1..]);
    AnswerLess(s, h, r.from, r);
  }

  lemma DeliverLess(s: State, l: Ledger, e: Event)
    requires Inv(s, l) && Enabled(s, e) && e.DeliverReply?
    ensures Step(s, e).Running? && Measure(Step(s, e).state) < Measure(s)
  {
    var i := e.node;
    assert ReplyMatches(s.wait[i], l.place[i], s.replies[i]);
    assert Entitled(i == l.chain[0], s.pte[i], s.wait[i], l.place[i]);
    var reply := s.replies[i][0];
    assert s.replies[i][1..] == [];
    assert ReplyWeight(s.replies[i]) == 1 + |reply.copyset|;
    TotalUpdate(ReplyWeight, s.replies, i, []);
    if s.wait[i].kind == Read {
      ReceiveReadShape(s, e);
      TotalUpdate(CopysetSize, s.pte, i, ReadOnly(reply.version, reply.copyset));
    } else {
      ReceiveWriteShape(s, e);
      var v := if e.store.Some? then |s.history| else reply.version;
      TotalUpdate(CopysetSize, s.pte, i, ReadWrite(v, {}));
      InvalidatesAdded(s.invalidates, reply.copyset - {i});
      Subset(reply.copyset - {i}, reply.copyset);
    }
  }

  lemma InvalidateLess(s: State, e: Event)
    requires s.WellFormed() && Enabled(s, e) && e.ProcessInvalidate?
    ensures Step(s, e).Running? && Measure(Step(s, e).state) < Measure(s)
  {
    var i := e.node;
    InvalidateShape(s, e);
    TotalUpdate(Itself, s.invalidates, i, s.invalidates[i] - 1);
    TotalUpdate(CopysetSize, s.pte, i, Invalid);
  }

  /** Every step the protocol takes by itself brings it closer to rest. */
  lemma InternalStepsDecrease(s: State, l: Ledger, e: Event)
    requires Inv(s, l) && Enabled(s, e) && Internal(e)
    ensures Step(s, e).Running? && Measure(Step(s, e).state) < Measure(s)
  {
    match e
    case ServeAtManager(_) => ServeAtManagerLess(s, l, e);
    case ServeForwarded(_) => ServeForwardedLess(s, l, e);
    case DeliverReply(_, _) => DeliverLess(s, l, e);
    case ProcessInvalidate(_) => InvalidateLess(s, e);
  }

  /** Where to look for an enabled step: the node ownership is at, unless a message can be delivered at once. */
  lemma SomeStepEnabled(s: State, l: Ledger) returns (e: Event)
    requires Inv(s, l) && !Quiescent(s)
    ensures Internal(e) && Enabled(s, e) && (e.DeliverReply? ==> e.store == None)
  {
    var h := l.chain[0];
    if i :| 0 <= i < |s.pte| && s.wait[i].Waiting? && s.replies[i] != [] {
      e := DeliverReply(i, None);
    } else if s.down[h] != [] {
      assert ReplyMatches(s.wait[h], l.place[h], s.replies[h]);
      e := ServeForwarded(h);
    } else {
      OnlyHeadServes(s, l);
      var i :| 0 <= i < |s.pte|
        && !(s.wait[i].Idle? && s.up[i] == [] && s.down[i] == [] && s.replies[i] == [] && s.invalidates[i] == 0);
      assert s.wait[s.manager].Idle?;
      assert s.up[i] == Asked(i, s.wait[i], l.place[i]);
      assert ReplyMatches(s.wait[i], l.place[i], s.replies[i]);
      if s.up[i] != [] {
        e := ServeAtManager(i);
      } else {
        assert IsAt(i, s.wait[i], l.place[i], s.down);
        e := ProcessInvalidate(i);
      }
    }
  }

  /**
   If the head of the chain has nothing to serve and no reply is in flight, no request is at any node
   and the manager is idle.
   */
  lemma OnlyHeadServes(s: State, l: Ledger)
    requires Inv(s, l) && s.down[l.chain[0]] == []
    requires forall i :: 0 <= i < |s.pte| && s.wait[i].Waiting? ==> s.replies[i] == []
    ensures forall j :: 0 <= j < |s.pte| ==> s.down[j] == []
    ensures s.wait[s.manager].Idle?
  {
    assert |l.chain| > 1 ==> HandsOn(l.chain, s.down, 0);
    assert |l.chain| == 1;
    forall j | 0 <= j < |s.pte| ensures s.down[j] == [] {
      if j in l.chain { assert j == l.chain[0]; }
    }
    var m := s.manager;
    assert IsAt(m, s.wait[m], l.place[m], s.down);
    assert ReplyMatches(s.wait[m], l.place[m], s.replies[m]);
  }

  /** A run of internal steps is no longer than the measure. */
  lemma {:induction false} RunsAreBounded(s: State, l: Ledger, events: seq<Event>)
    requires Inv(s, l) && Admissible(s, events) && forall e :: e in events ==> Internal(e)
    ensures Execute(s, events).Running? && |events| + Measure(Execute(s, events).state) <= Measure(s)
    decreases |events|
  {
    if events != [] {
      InternalStepsDecrease(s, l, events[0]);
      var l' := StepKeepsInv(s, l, events[0]);
      RunsAreBounded(Step(s, events[0]).state, l', events[1..]);
    }
  }

  /**
   From any reachable state, every run of internal steps is bounded, and one that cannot be
   continued has reached quiescence, so each waiting node has been served.
   */
  lemma {:induction false} EveryRunDrains(s: State, events: seq<Event>)
    requires Reachable(s) && Admissible(s, events) && forall e :: e in events ==> Internal(e)
    ensures |events| <= Measure(s) && Execute(s, events).Running?
    ensures var s' := Execute(s, events).state;
      && s'.WellFormed()
      && ((forall e :: Internal(e) ==> !Enabled(s', e)) ==> Quiescent(s'))
  {
    var l := ReachableInv(s);
    RunsAreBounded(s, l, events);
    var l' := RunKeepsInv(s, l, events);
    var s' := Execute(s, events).state;
    if !Quiescent(s') {
      var e := SomeStepEnabled(s', l');
    }
  }
}
