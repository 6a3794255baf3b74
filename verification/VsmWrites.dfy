/**
 What guests write is what guests read: the order of writes is exactly the pages the run's events
 write, and every fault, left to itself, ends with the access it asked for.
 */
module VsmWrites {
  import opened Wrappers
  import opened VsmHandlers
  import opened VsmProtocol
  import opened VsmInvariant
  import opened VsmShapes
  import opened VsmSteps
  import opened VsmSafety
  import opened VsmRuns
  import opened VsmLiveness

  /** What an event writes: a guest's page, or the store of a write fault at the moment it gets access. */
  function Written(s: State, e: Event): seq<Page>
    requires s.WellFormed() && Enabled(s, e)
  {
    match e
    case GuestWrite(_, page) => [page]
    case WriteFault(i, store) =>
      if store.Some? && s.pte[i].ReadOnly? && s.pte[i].copyset != {} then [store.value] else []
    case DeliverReply(i, store) => if store.Some? && s.wait[i].kind == Write then [store.value] else []
    case _ => []
  }

  /** A handler run writes what it stores; only its node sees the new version. */
  lemma CommitWrites(s: State, i: Node, o: Outcome, k: Node)
    requires s.WellFormed() && i < |s.pte| && k < |s.pte| && o.Ok?
    ensures Commit(s, i, o).Running?
    ensures var s' := Commit(s, i, o).state;
      && s'.history == s.history + (if o.stored.Some? then [o.stored.value] else [])
      && |s'.pte| == |s'.seen| == |s.pte| && s'.pte[i] == o.local.pte
      && s'.seen[k] == if k == i && o.stored.Some? then |s.history| else s.seen[k]
  {
    assert s.history + [] == s.history;
  }

  /**
   A step extends the order of writes by what its event writes, and the writer holds the new version.
   What a guest has seen last changes only by its own accesses: the version it reads, or the one it writes.
   */
  lemma StepWrites(s: State, e: Event, k: Node)
    requires s.WellFormed() && Enabled(s, e) && Step(s, e).Running? && k < |s.pte|
    ensures var s' := Step(s, e).state;
      && |s'.pte| == |s'.seen| == |s.pte|
      && s'.history == s.history + Written(s, e)
      && (Written(s, e) != [] ==> s'.pte[e.node].ReadWrite? && s'.pte[e.node].version == |s.history|)
      && s'.seen[k] == if k != e.node then s.seen[k]
                       else if e.GuestRead? then s.pte[k].version
                       else if Written(s, e) != [] then |s.history|
                       else s.seen[k]
  {
    match e
    case ReadFault(i) => CommitWrites(s, i, VsmHandlers.ReadFault(s.LocalView(i)), k);
    case WriteFault(i, store) =>
      CommitWrites(s, i, VsmHandlers.WriteFault(s.LocalView(i), store, |s.history|), k);
    case GuestRead(i) => assert s.history + [] == s.history;
    case GuestWrite(_, _) =>
    case ServeAtManager(i) =>
      CommitWrites(s.(up := s.up[i := s.up[i][1..]]), s.manager, Serve(s.LocalView(s.manager), s.up[i][0]), k);
    case ServeForwarded(i) =>
      CommitWrites(s.(down := s.down[i := s.down[i][1..]]), i, Serve(s.LocalView(i), s.down[i][0]), k);
    case DeliverReply(i, store) =>
      CommitWrites(s.(replies := s.replies[i := s.replies[i][1..]]), i,
                   Deliver(s.LocalView(i), s.wait[i].kind, s.replies[i][0], store, |s.history|), k);
    case ProcessInvalidate(i) =>
      CommitWrites(s.(invalidates := s.invalidates[i := s.invalidates[i] - 1]), i,
                   InvalidateServer(s.LocalView(i)), k);
  }

  /** The pages a run writes, in order. */
  ghost function Writes(s: State, events: seq<Event>): seq<Page>
    requires Admissible(s, events)
    decreases |events|
  {
    if events == [] then []
    else match Step(s, events[0])
      case Panicked(_) => []
      case Running(s') => Written(s, events[0]) + Writes(s', events[1..])
  }

  lemma Associates<T>(a: seq<T>, b: seq<T>, c: seq<T>)
    ensures (a + b) + c == a + (b + c)
  {
  }

  lemma FirstThen(s: State, e: Event, u: State, b: seq<Event>)
    requires s.WellFormed() && Enabled(s, e) && Step(s, e) == Running(u) && Admissible(u, b)
    ensures Admissible(s, [e] + b) && Execute(s, [e] + b) == Execute(u, b)
    ensures Writes(s, [e] + b) == Written(s, e) + Writes(u, b)
  {
    assert ([e] + b)[1..] == b && ([e] + b)[0] == e;
  }

  lemma FirstOf(s: State, a: seq<Event>, u: State) returns (e: Event, v: State, rest: seq<Event>)
    requires Admissible(s, a) && Execute(s, a) == Running(u) && a != []
    ensures a == [e] + rest && Enabled(s, e) && Step(s, e) == Running(v)
    ensures Admissible(v, rest) && Execute(v, rest) == Running(u)
    ensures Writes(s, a) == Written(s, e) + Writes(v, rest)
  {
    e, v, rest := a[0], Step(s, a[0]).state, a[1..];
  }

  lemma {:induction false} HistoryIsWrites(s: State, events: seq<Event>)
    requires Admissible(s, events) && Execute(s, events).Running?
    ensures Execute(s, events).state.history == s.history + Writes(s, events)
    decreases |events|
  {
    if events == [] {
      assert s.history + [] == s.history;
    } else {
      var e, u, rest := FirstOf(s, events, Execute(s, events).state);
      StepWrites(s, e, s.manager);
      HistoryIsWrites(u, rest);
      Associates(s.history, Written(s, e), Writes(u, rest));
    }
  }

  function LastOf(first: Page, rest: seq<Page>): Page {
    if rest == [] then first else rest[|rest| - 1]
  }

  /** In every run that has come to rest, every readable copy is the page written last by any event of the run. */
  lemma ReadersSeeTheLastWrite(n: nat, manager: Node, page: Page, events: seq<Event>, i: Node)
    requires manager < n && Admissible(Initial(n, manager, page), events)
    requires Execute(Initial(n, manager, page), events).Running?
    requires var s := Execute(Initial(n, manager, page), events).state;
      Quiescent(s) && i < |s.pte| && s.pte[i].Readable()
    ensures var s := Execute(Initial(n, manager, page), events).state;
      Reads(s, i, LastOf(page, Writes(Initial(n, manager, page), events)))
  {
    var s := Execute(Initial(n, manager, page), events).state;
    HistoryIsWrites(Initial(n, manager, page), events);
    assert IsRun(n, manager, page, events, s);
    var owner := QuiescentCoherence(s);
    assert s.history == [page] + Writes(Initial(n, manager, page), events);
  }

  // ----- runs one after the other -----

  lemma {:induction false} RunOn(s: State, a: seq<Event>, u: State, b: seq<Event>)
    requires Admissible(s, a) && Execute(s, a) == Running(u) && Admissible(u, b)
    ensures Admissible(s, a + b) && Execute(s, a + b) == Execute(u, b)
    ensures Writes(s, a + b) == Writes(s, a) + Writes(u, b)
    decreases |a|
  {
    if a == [] {
      assert a + b == b && [] + Writes(u, b) == Writes(u, b);
    } else {
      var e, v, rest := FirstOf(s, a, u);
      RunOn(v, rest, u, b);
      FirstThen(s, e, v, rest + b);
      Associates([e], rest, b);
      Associates(Written(s, e), Writes(v, rest), Writes(u, b));
    }
  }

  lemma {:induction false} RunReaches(s: State, events: seq<Event>, s': State)
    requires Reachable(s) && Admissible(s, events) && Execute(s, events) == Running(s')
    ensures Reachable(s')
    decreases |events|
  {
    if events != [] {
      ReachableStep(s, events[0]);
      RunReaches(Step(s, events[0]).state, events[1..], s');
    }
  }

  // ----- a fault is served -----

  /** The access a fault asks for. */
  predicate Has(p: Pte, kind: Kind) {
    if kind == Write then p.ReadWrite? else p.Readable()
  }

  /** Only node `i` wants something, or has got it. */
  ghost predicate Lone(s: State, i: Node, kind: Kind) {
    && s.WellFormed() && i < |s.pte|
    && (forall j :: 0 <= j < |s.pte| && j != i ==> s.wait[j].Idle?)
    && (if s.wait[i].Idle? then Has(s.pte[i], kind) else s.wait[i].kind == kind)
    && (kind == Read ==> forall j :: 0 <= j < |s.pte| ==> s.invalidates[j] == 0)
  }

  lemma LoneServed(s: State, l: Ledger, e: Event, i: Node, kind: Kind)
    requires Inv(s, l) && Lone(s, i, kind) && Enabled(s, e) && (e.ServeAtManager? || e.ServeForwarded?)
    ensures Step(s, e).Running? && Lone(Step(s, e).state, i, kind)
  {
    if e.ServeAtManager? {
      Applicant(s, l, e.node);
      if s.pte[s.manager].Owns() {
        AnswerAtManagerShape(s, e);
      } else {
        if s.manager in l.chain { ChainPlaces(s, l, s.manager); }
        ForwardShape(s, e);
      }
    } else {
      Server(s, l, e.node);
      AnswerForwardedShape(s, e);
    }
  }

  lemma LoneReceives(s: State, l: Ledger, e: Event, i: Node, kind: Kind)
    requires Inv(s, l) && Lone(s, i, kind) && Enabled(s, e) && e.DeliverReply?
    ensures Step(s, e).Running? && Lone(Step(s, e).state, i, kind)
  {
    assert Entitled(i == l.chain[0], s.pte[i], s.wait[i], l.place[i]);
    if kind == Read { ReceiveReadShape(s, e); } else { ReceiveWriteShape(s, e); }
  }

  lemma LoneIgnores(s: State, e: Event, i: Node, kind: Kind)
    requires Lone(s, i, kind) && Enabled(s, e) && e.ProcessInvalidate?
    ensures Step(s, e).Running? && Lone(Step(s, e).state, i, kind)
  {
    InvalidateShape(s, e);
  }

  lemma LoneKeeps(s: State, l: Ledger, e: Event, i: Node, kind: Kind)
    requires Inv(s, l) && Lone(s, i, kind) && Enabled(s, e) && Internal(e)
    ensures Step(s, e).Running? && Lone(Step(s, e).state, i, kind)
  {
    match e {
      case ServeAtManager(_) => LoneServed(s, l, e, i, kind);
      case ServeForwarded(_) => LoneServed(s, l, e, i, kind);
      case DeliverReply(_, _) => LoneReceives(s, l, e, i, kind);
      case ProcessInvalidate(_) => LoneIgnores(s, e, i, kind);
    }
  }

  /** One more step of the protocol's own, not the last. */
  lemma LoneStep(s: State, l: Ledger, i: Node, kind: Kind) returns (e: Event, u: State, l': Ledger)
    requires Inv(s, l) && Lone(s, i, kind) && !Quiescent(s)
    ensures Enabled(s, e) && Step(s, e) == Running(u) && Written(s, e) == []
    ensures Inv(u, l') && Lone(u, i, kind) && Measure(u) < Measure(s) && |u.pte| == |s.pte|
  {
    e := SomeStepEnabled(s, l);
    InternalStepsDecrease(s, l, e);
    l' := StepKeepsInv(s, l, e);
    u := Step(s, e).state;
    LoneKeeps(s, l, e, i, kind);
    StepWrites(s, e, i);
  }

  /** From where only one node wants something, the protocol's own steps lead to rest with that node served. */
  lemma {:induction false} LoneDrains(s: State, l: Ledger, i: Node, kind: Kind) returns (events: seq<Event>, s': State)
    requires Inv(s, l) && Lone(s, i, kind)
    ensures Admissible(s, events) && Execute(s, events) == Running(s') && Writes(s, events) == []
    ensures Quiescent(s') && i < |s'.pte| == |s.pte| && Has(s'.pte[i], kind)
    decreases Measure(s)
  {
    if Quiescent(s) {
      events, s' := [], s;
    } else {
      var e, u, l' := LoneStep(s, l, i, kind);
      var rest;
      rest, s' := LoneDrains(u, l', i, kind);
      FirstThen(s, e, u, rest);
      events := [e] + rest;
    }
  }

  /** At rest, any node's fault can happen, and left to itself it ends at rest with the access asked for. */
  lemma FaultIsServed(s: State, i: Node, kind: Kind) returns (events: seq<Event>, s': State)
    requires Reachable(s) && Quiescent(s) && i < |s.pte|
    ensures Admissible(s, events) && Execute(s, events) == Running(s') && Writes(s, events) == []
    ensures Reachable(s') && Quiescent(s') && |s'.pte| == |s.pte| && Has(s'.pte[i], kind)
  {
    var l := ReachableInv(s);
    var e := if kind == Read then Event.ReadFault(i) else Event.WriteFault(i, None);
    var l' := StepKeepsInv(s, l, e);
    var u := Step(s, e).state;
    FaultIsLone(s, e, i, kind);
    StepWrites(s, e, i);
    var rest;
    rest, s' := LoneDrains(u, l', i, kind);
    FirstThen(s, e, u, rest);
    events := [e] + rest;
    RunReaches(s, events, s');
  }

  lemma FaultIsLone(s: State, e: Event, i: Node, kind: Kind)
    requires Quiescent(s) && s.dir < |s.pte| && i < |s.pte| && Enabled(s, e) && Step(s, e).Running?
    requires e == if kind == Read then Event.ReadFault(i) else Event.WriteFault(i, None)
    ensures Lone(Step(s, e).state, i, kind)
  {
    if Has(s.pte[i], kind) {
      QuietFaultShape(s, e);
    } else if kind == Write && s.pte[i].Owns() {
      UpgradeShape(s, e);
    } else {
      AskShape(s, e, kind);
    }
  }

  /**
   From rest, for any two nodes and any page, there is a run in which the guest of one writes the page
   and, after a fault of the other, the guest of the other reads exactly that page.
   */
  lemma WriteThenRead(s: State, i: Node, j: Node, page: Page) returns (events: seq<Event>, s': State)
    requires Reachable(s) && Quiescent(s) && i < |s.pte| && j < |s.pte|
    ensures Admissible(s, events) && Execute(s, events) == Running(s') && Writes(s, events) == [page]
    ensures Quiescent(s') && Reads(s', j, page) && Enabled(s', GuestRead(j))
  {
    var a, u := FaultIsServed(s, i, Write);
    var v := WriteOnce(u, i, page);
    RunOn(s, a, u, [GuestWrite(i, page)]);
    var b;
    b, s' := FaultIsServed(v, j, Read);
    RunOn(s, a + [GuestWrite(i, page)], v, b);
    events := a + [GuestWrite(i, page)] + b;
    HistoryIsWrites(v, b);
    assert s'.history == v.history;
    var owner := QuiescentCoherence(s');
  }

  lemma WriteOnce(u: State, i: Node, page: Page) returns (v: State)
    requires Reachable(u) && Quiescent(u) && i < |u.pte| && u.pte[i].ReadWrite?
    ensures var es := [GuestWrite(i, page)];
      Admissible(u, es) && Execute(u, es) == Running(v) && Writes(u, es) == [page]
    ensures Reachable(v) && Quiescent(v) && |v.pte| == |u.pte| && v.history == u.history + [page]
  {
    var e := GuestWrite(i, page);
    StepWrites(u, e, i);
    ReachableStep(u, e);
    v := Step(u, e).state;
    FirstThen(u, e, v, []);
    assert [e] + [] == [e] && [page] + [] == [page];
  }
}
