/**
 The protocol with the copyset field as wide as it is. A node number of 4 or more is not recorded
 when it reads; with at most four nodes that never happens, and with a fifth node ownership is lost.
 */
module VsmNarrow {
  import opened Wrappers
  import opened VsmHandlers
  import opened VsmProtocol
  import opened VsmInvariant
  import opened VsmShapes
  import opened VsmSteps
  import opened VsmSafety
  import opened VsmRuns

  function NarrowStep(s: State, e: Event): Result
    requires s.WellFormed() && Enabled(s, e)
  {
    match e
    case ServeAtManager(i) =>
      Commit(s.(up := s.up[i := s.up[i][1..]]), s.manager, NarrowServe(s.LocalView(s.manager), s.up[i][0]))
    case ServeForwarded(i) =>
      Commit(s.(down := s.down[i := s.down[i][1..]]), i, NarrowServe(s.LocalView(i), s.down[i][0]))
    case _ => Step(s, e)
  }

  /** The states of a run, and the events between them. */
  ghost predicate Trace(states: seq<State>, events: seq<Event>) {
    |states| == |events| + 1 && forall k :: 0 <= k < |events| ==> Follows(states, events, k)
  }

  ghost predicate Follows(states: seq<State>, events: seq<Event>, k: nat)
    requires k < |events| && k + 1 < |states|
  {
    && states[k].WellFormed() && Enabled(states[k], events[k])
    && NarrowStep(states[k], events[k]) == Running(states[k + 1])
  }

  ghost predicate NarrowReachable(n: nat, manager: Node, page: Page, s: State)
    requires manager < n
  {
    exists states, events :: Trace(states, events) && states[0] == Initial(n, manager, page) && states[|events|] == s
  }

  // ----- at most four nodes -----

  lemma SameStep(s: State, l: Ledger, e: Event)
    requires Inv(s, l) && |s.pte| <= WIDTH && Enabled(s, e)
    ensures NarrowStep(s, e) == Step(s, e)
  {
    match e
    case ServeAtManager(i) => Applicant(s, l, i);
    case ServeForwarded(i) => Server(s, l, i);
    case _ =>
  }

  lemma StepKeepsSize(s: State, e: Event)
    requires s.WellFormed() && Enabled(s, e) && Step(s, e).Running?
    ensures |Step(s, e).state.pte| == |s.pte|
  {
  }

  lemma {:induction false} SameRuns(n: nat, manager: Node, page: Page, states: seq<State>, events: seq<Event>, k: nat)
    requires manager < n <= WIDTH && Trace(states, events) && states[0] == Initial(n, manager, page) && k <= |events|
    ensures Reachable(states[k]) && |states[k].pte| == n
    decreases k
  {
    if k == 0 {
      ReachableInitial(n, manager, page);
    } else {
      SameRuns(n, manager, page, states, events, k - 1);
      var s, e := states[k - 1], events[k - 1];
      assert Follows(states, events, k - 1);
      var l := ReachableInv(s);
      SameStep(s, l, e);
      StepKeepsSize(s, e);
      ReachableStep(s, e);
    }
  }

  /** With at most four nodes, every run is a run of the protocol, and no step panics. */
  lemma FourNodesAreEnough(n: nat, manager: Node, page: Page, s: State)
    requires manager < n <= WIDTH && NarrowReachable(n, manager, page, s)
    ensures Reachable(s) && s.WellFormed() && Tokens(s.pte, s.replies) == 1
    ensures forall e :: Enabled(s, e) ==> NarrowStep(s, e).Running?
  {
    var states, events :| Trace(states, events) && states[0] == Initial(n, manager, page) && states[|events|] == s;
    SameRuns(n, manager, page, states, events, |events|);
    OneToken(s);
    var l := ReachableInv(s);
    forall e | Enabled(s, e) ensures NarrowStep(s, e).Running? {
      SameStep(s, l, e);
      var l' := StepKeepsInv(s, l, e);
    }
  }

  // ----- a fifth node -----

  lemma Onward(n: nat, manager: Node, page: Page, s: State, e: Event, s': State)
    requires manager < n && NarrowReachable(n, manager, page, s) && s.WellFormed() && Enabled(s, e)
    requires NarrowStep(s, e) == Running(s')
    ensures NarrowReachable(n, manager, page, s')
  {
    var states, events :| Trace(states, events) && states[0] == Initial(n, manager, page) && states[|events|] == s;
    var states', events' := states + [s'], events + [e];
    forall k | 0 <= k < |events'| ensures Follows(states', events', k) {
      if k < |events| { assert Follows(states, events, k); }
    }
    assert Trace(states', events') && states'[0] == states[0] && states'[|events'|] == s';
  }

  lemma Begin(n: nat, manager: Node, page: Page)
    requires manager < n
    ensures NarrowReachable(n, manager, page, Initial(n, manager, page))
  {
    var states, events := [Initial(n, manager, page)], [];
    assert Trace(states, events) && states[0] == Initial(n, manager, page) && states[|events|] == states[0];
  }

  /** Where recording makes no difference, the step is that of the protocol. */
  lemma SameServe(s: State, e: Event)
    requires s.WellFormed() && Enabled(s, e)
    requires e.ServeAtManager? ==> s.up[e.node][0].kind == Write
    requires !e.ServeForwarded?
    ensures NarrowStep(s, e) == Step(s, e)
  {
  }

  /** Nothing in flight, nobody waiting, and nobody owns the page. */
  ghost predicate Lost(s: State, n: nat, manager: Node) {
    && s.WellFormed() && |s.pte| == n && s.manager == manager && s.dir < n
    && forall i :: 0 <= i < n ==> Dormant(s, i)
  }

  ghost predicate Dormant(s: State, i: Node)
    requires s.WellFormed() && i < |s.pte|
  {
    s.wait[i].Idle? && s.up[i] == [] && s.down[i] == [] && s.replies[i] == [] && !s.pte[i].Owns()
  }

  lemma LostHasNoToken(s: State, n: nat, manager: Node)
    requires Lost(s, n, manager)
    ensures Tokens(s.pte, s.replies) == 0
  {
    forall i | 0 <= i < |s.pte|
      ensures (if s.pte[i].Owns() then 1 else 0) + WriteReplies(s.replies[i]) == if i == -1 then 1 else 0
    {
      assert Dormant(s, i);
    }
    CountTokens(s.pte, s.replies, -1);
  }

  /** The manager answers a reader it cannot record. */
  lemma LostAtManager(s: State, x: Node)
    requires s.WellFormed() && WIDTH <= x < |s.pte| && x != s.manager && s.wait[s.manager].Idle?
    requires s.pte[s.manager] == ReadWrite(0, {}) && s.up[x] == [Request(Read, x)] && s.replies[x] == []
    ensures NarrowStep(s, ServeAtManager(x)) ==
      Running(s.(up := s.up[x := []], pte := s.pte[s.manager := ReadOnly(0, {})],
                 replies := s.replies[x := [Reply(false, 0, {})]]))
  {
    NoInvalidates(s.invalidates);
    assert s.up[x][1..] == [] && s.wait[s.manager := Idle] == s.wait;
    assert s.replies[x] + [Reply(false, 0, {})] == [Reply(false, 0, {})];
  }

  /** An owner that is not the manager answers a reader it cannot record. */
  lemma LostElsewhere(s: State, h: Node, x: Node)
    requires s.WellFormed() && WIDTH <= x < |s.pte| && h < |s.pte| && h != s.manager && s.wait[h].Idle?
    requires s.pte[h] == ReadWrite(0, {}) && s.down[h] == [Request(Read, x)] && s.replies[x] == []
    ensures NarrowStep(s, ServeForwarded(h)) ==
      Running(s.(down := s.down[h := []], pte := s.pte[h := ReadOnly(0, {})],
                 replies := s.replies[x := [Reply(false, 0, {})]]))
  {
    NoInvalidates(s.invalidates);
    assert s.down[h][1..] == [] && s.wait[h := Idle] == s.wait;
    assert s.replies[x] + [Reply(false, 0, {})] == [Reply(false, 0, {})];
  }

  /** Node `h` has the page to itself and nothing is going on. */
  ghost predicate Settled(s: State, n: nat, manager: Node, h: Node) {
    && s.WellFormed() && |s.pte| == n && s.manager == manager && s.dir == h < n && s.pte[h] == ReadWrite(0, {})
    && forall i :: 0 <= i < n ==> Still(s, h, i)
  }

  ghost predicate Still(s: State, h: Node, i: Node)
    requires s.WellFormed() && i < |s.pte|
  {
    s.wait[i].Idle? && s.up[i] == [] && s.down[i] == [] && s.replies[i] == [] && (i != h ==> s.pte[i].Invalid?)
  }

  /** The first write moves the page from the manager to node `h`. */
  lemma MoveTo(n: nat, manager: Node, page: Page, h: Node) returns (s: State)
    requires manager < n && h < n && h != manager
    ensures NarrowReachable(n, manager, page, s) && Settled(s, n, manager, h)
  {
    var s0 := Initial(n, manager, page);
    Begin(n, manager, page);
    var e1, e2, e3 := Event.WriteFault(h, None), ServeAtManager(h), DeliverReply(h, None);
    AskShape(s0, e1, Write);
    var s1 := Step(s0, e1).state;
    assert s1.up[h] == [Request(Write, h)];
    Onward(n, manager, page, s0, e1, s1);
    AnswerAtManagerShape(s1, e2);
    SameServe(s1, e2);
    var s2 := Step(s1, e2).state;
    Onward(n, manager, page, s1, e2, s2);
    assert s2.replies[h] == [Reply(true, 0, {})];
    ReceiveWriteShape(s2, e3);
    s := Step(s2, e3).state;
    Onward(n, manager, page, s2, e3, s);
    forall i | 0 <= i < n ensures Still(s, h, i) {
    }
  }

  /** A reader that cannot be recorded asks, and ownership is gone. */
  lemma LoseIt(n: nat, manager: Node, page: Page, s: State, h: Node, x: Node) returns (s': State)
    requires manager < n && NarrowReachable(n, manager, page, s) && Settled(s, n, manager, h)
    requires WIDTH <= x < n && x != h && (h == manager || x == manager)
    ensures NarrowReachable(n, manager, page, s') && Lost(s', n, manager)
  {
    assert Still(s, h, x) && Still(s, h, h);
    CopyUnrecorded(n, manager, page, s, h, x);
    var told, take := Unrecorded(s, h, x), DeliverReply(x, None);
    ReceiveReadShape(told, take);
    assert told.replies[x][1..] == [];
    s' := Step(told, take).state;
    Onward(n, manager, page, told, take, s');
    forall i | 0 <= i < n ensures Dormant(s', i) {
      assert Still(s, h, i);
    }
  }

  lemma CopyUnrecorded(n: nat, manager: Node, page: Page, s: State, h: Node, x: Node)
    requires manager < n && NarrowReachable(n, manager, page, s) && Settled(s, n, manager, h)
    requires WIDTH <= x < n && x != h && (h == manager || x == manager)
    ensures NarrowReachable(n, manager, page, Unrecorded(s, h, x))
  {
    assert Still(s, h, x) && Still(s, h, h) && Still(s, h, manager);
    var ask, told := Event.ReadFault(x), Unrecorded(s, h, x);
    AskShape(s, ask, Read);
    var asked := Step(s, ask).state;
    Onward(n, manager, page, s, ask, asked);
    if h == manager {
      assert asked.up[x] == [Request(Read, x)] && asked.up[x := []] == s.up;
      LostAtManager(asked, x);
      Onward(n, manager, page, asked, ServeAtManager(x), told);
    } else {
      assert asked.down[h] == [Request(Read, x)] && asked.down[h := []] == s.down;
      LostElsewhere(asked, h, x);
      Onward(n, manager, page, asked, ServeForwarded(h), told);
    }
  }

  /** Node `x` has been sent a copy that the owner `h` did not record. */
  function Unrecorded(s: State, h: Node, x: Node): State
    requires s.WellFormed() && h < |s.pte| && x < |s.pte|
  {
    s.(pte := s.pte[x := Invalid][h := ReadOnly(0, {})], wait := s.wait[x := Waiting(Read)],
       replies := s.replies[x := [Reply(false, 0, {})]])
  }

  /** On any cluster of five or more nodes a run loses ownership. */
  lemma FifthNodeLosesIt(n: nat, manager: Node, page: Page) returns (s: State)
    requires manager < n && n > WIDTH
    ensures NarrowReachable(n, manager, page, s) && Lost(s, n, manager) && Tokens(s.pte, s.replies) == 0
  {
    if manager != WIDTH {
      var s0 := Initial(n, manager, page);
      Begin(n, manager, page);
      forall i | 0 <= i < n ensures Still(s0, manager, i) {
      }
      s := LoseIt(n, manager, page, s0, manager, WIDTH);
    } else {
      var s1 := MoveTo(n, manager, page, 0);
      s := LoseIt(n, manager, page, s1, 0, WIDTH);
    }
    LostHasNoToken(s, n, manager);
  }

  /** Once ownership is lost, the next writer makes a node panic. */
  lemma LostThenPanic(n: nat, manager: Node, page: Page, s: State, y: Node) returns (s': State, e: Event)
    requires manager < n && NarrowReachable(n, manager, page, s) && Lost(s, n, manager)
    requires y < n && y != manager && y != s.dir
    ensures NarrowReachable(n, manager, page, s') && s'.WellFormed() && Enabled(s', e) && NarrowStep(s', e).Panicked?
  {
    var h, w := s.dir, Request(Write, y);
    assert Dormant(s, y) && Dormant(s, manager) && Dormant(s, h);
    var e1, e2 := Event.WriteFault(y, None), ServeAtManager(y);
    AskShape(s, e1, Write);
    var s1 := Step(s, e1).state;
    Onward(n, manager, page, s, e1, s1);
    assert s1.up[y] == [w];
    ForwardShape(s1, e2);
    SameServe(s1, e2);
    s' := Step(s1, e2).state;
    Onward(n, manager, page, s1, e2, s');
    assert s'.down[h] == [w];
    e := ServeForwarded(h);
    StrangerPanics(s', h, y);
  }

  /** A node that does not own the page and gets a write request panics, unless it can pass it on. */
  lemma StrangerPanics(s: State, h: Node, y: Node)
    requires s.WellFormed() && h < |s.pte| && s.wait[h].Idle? && s.down[h] == [Request(Write, y)] && !s.pte[h].Owns()
    requires h == s.manager ==> s.dir == y
    ensures NarrowStep(s, ServeForwarded(h)).Panicked?
  {
  }

  /** On any cluster of five or more nodes a run panics. */
  lemma FifthNodePanics(n: nat, manager: Node, page: Page) returns (s: State, e: Event)
    requires manager < n && n > WIDTH
    ensures NarrowReachable(n, manager, page, s) && s.WellFormed() && Enabled(s, e) && NarrowStep(s, e).Panicked?
  {
    var lost := FifthNodeLosesIt(n, manager, page);
    var y := if manager != 0 && lost.dir != 0 then 0 else if manager != 1 && lost.dir != 1 then 1 else 2;
    s, e := LostThenPanic(n, manager, page, lost, y);
  }

  /** A state in which there is one ownership token and no step panics. */
  ghost predicate Healthy(s: State) {
    && s.WellFormed() && Tokens(s.pte, s.replies) == 1
    && forall e :: Enabled(s, e) ==> NarrowStep(s, e).Running?
  }

  /** The code keeps one owner and never panics if and only if the cluster has at most four nodes. */
  lemma CopysetWidthDecides(n: nat, manager: Node, page: Page)
    requires manager < n
    ensures (forall s :: NarrowReachable(n, manager, page, s) ==> Healthy(s)) <==> n <= WIDTH
  {
    if n <= WIDTH {
      forall s | NarrowReachable(n, manager, page, s) ensures Healthy(s) {
        FourNodesAreEnough(n, manager, page, s);
      }
    } else {
      var s := FifthNodeLosesIt(n, manager, page);
    }
  }
}
