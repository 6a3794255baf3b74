/**
 The whole of a node: the interleaved lock and drain steps of PageLock at every node, with the protocol's
 handlers as the requests they accept and serve. Every run of this machine is a run of the system of
 VsmWaitQueue, where accepting and processing a request are single steps.
 */
module VsmMachine {
  import opened Wrappers
  import opened VsmHandlers
  import opened VsmProtocol
  import opened VsmRuns
  import opened VsmWaitQueue
  import PageLock

  /** The nodes and the network, and the lock word, queue and activations of each node. */
  datatype Machine = Machine(net: State, locks: seq<PageLock.State>) {
    ghost predicate WellFormed() { net.WellFormed() && |locks| == |net.pte| }
  }

  datatype Move =
    | Spawn(node: Node, pc: PageLock.Pc)                 // an interrupt or a fault: a new activation
    | Lock(node: Node, a: nat, cpu: nat, spurious: bool, cause: Cause)   // one atomic step of an activation
    | Elsewhere(event: Event)                            // a guest access, or a reply for the waiting handler

  /** What a step of an activation needs besides the lock: the message it accepts, or the fault it handles. */
  datatype Cause = Nothing | Message(happening: Happening) | Trap(event: Event)

  // ----- steps -----

  /** The message whose arrival `h` is, as the request its activation carries. */
  function Carried(s: State, h: Happening): Option<Proc>
    requires s.WellFormed()
  {
    match h
    case FetchArrives(k) => if k < |s.up| && s.up[k] != [] then Some(FetchProc(s.up[k][0])) else None
    case ForwardArrives(k) => if k < |s.down| && s.down[k] != [] then Some(FetchProc(s.down[k][0])) else None
    case InvalidateArrives(k) => if k < |s.invalidates| && s.invalidates[k] > 0 then Some(InvalidateProc) else None
    case _ => None
  }

  /** The node a message arrives at. */
  function Target(s: State, h: Happening): Node {
    match h
    case FetchArrives(_) => s.manager
    case ForwardArrives(k) => k
    case InvalidateArrives(k) => k
    case _ => 0
  }

  predicate Allowed(c: Machine, m: Move)
    requires c.WellFormed()
  {
    match m
    case Spawn(i, pc) => i < |c.locks| && (pc.Try? || pc.Spin?)
    case Elsewhere(e) => Enabled(c.net, e) && (e.GuestRead? || e.GuestWrite? || e.DeliverReply?)
    case Lock(i, a, _, spurious, cause) =>
      && i < |c.locks| && PageLock.Enabled(c.locks[i], a)
      && var l := c.locks[i];
      if PageLock.Accepts(l, a, spurious) then
        // messages of one channel are accepted in the order they were sent
        && cause.Message? && Target(c.net, cause.happening) == i
        && Carried(c.net, cause.happening) == Some(l.pcs[a].request)
        && (cause.happening.ForwardArrives? ==> i != c.net.manager)
      else if l.pcs[a].Spin? then
        cause.Trap? && cause.event.node == i && (cause.event.ReadFault? || cause.event.WriteFault?)
      else if l.pcs[a].Fault? then c.net.wait[i].Idle?   // the handler ends when it has its page
      else true
  }

  /** What running a queued request does. */
  function RunProc(s: State, i: Node, p: Proc): Result
    requires s.WellFormed() && i < |s.pte|
  {
    match p
    case FetchProc(r) => Commit(s, i, Serve(s.LocalView(i), r))
    case InvalidateProc => Commit(s, i, InvalidateServer(s.LocalView(i)))
  }

  /** What is left in the network once the message has arrived. */
  function Received(s: State, h: Happening): State
    requires s.WellFormed() && Carried(s, h).Some?
  {
    match h
    case FetchArrives(k) => s.(up := s.up[k := s.up[k][1..]])
    case ForwardArrives(k) => s.(down := s.down[k := s.down[k][1..]])
    case InvalidateArrives(k) => s.(invalidates := s.invalidates[k := s.invalidates[k] - 1])
    case _ => s
  }

  /** The protocol's part of a step of an activation. */
  function Effect(c: Machine, i: Node, a: nat, spurious: bool, cause: Cause, cpu: nat): Result
    requires c.WellFormed() && Allowed(c, Lock(i, a, cpu, spurious, cause))
  {
    var l := c.locks[i];
    if PageLock.Accepts(l, a, spurious) then Running(Received(c.net, cause.happening))
    else if PageLock.Serves(l, a) then RunProc(c.net, i, PageLock.AboutToServe(l, a))
    else if l.pcs[a].Spin? && Enabled(c.net, cause.event) then Step(c.net, cause.event)
    else Running(c.net)
  }

  datatype Outcome = Goes(machine: Machine) | Halts(reason: PanicReason)

  function Do(c: Machine, m: Move): Outcome
    requires c.WellFormed() && Allowed(c, m)
  {
    match m
    case Spawn(i, pc) => Goes(c.(locks := c.locks[i := c.locks[i].(pcs := c.locks[i].pcs + [pc])]))
    case Elsewhere(e) => Join(Step(c.net, e), c.locks)
    case Lock(i, a, cpu, spurious, cause) =>
      Join(Effect(c, i, a, spurious, cause, cpu), c.locks[i := PageLock.Step(c.locks[i], a, cpu, spurious)])
  }

  function Join(r: Result, locks: seq<PageLock.State>): Outcome {
    match r
    case Running(s) => Goes(Machine(s, locks))
    case Panicked(reason) => Halts(reason)
  }

  // ----- the system it stands for -----

  function Queues(locks: seq<PageLock.State>): (q: seq<seq<Proc>>)
    ensures |q| == |locks| && forall i :: 0 <= i < |q| ==> q[i] == PageLock.Waiting(locks[i])
  {
    seq(|locks|, i requires 0 <= i < |locks| => PageLock.Waiting(locks[i]))
  }

  function SystemOf(c: Machine): System {
    System(c.net, Queues(c.locks))
  }

  /** The lock of node `i` is in order, and a handler that waits for a reply holds it. */
  ghost predicate NodeOk(c: Machine, i: Node)
    requires c.WellFormed() && i < |c.locks|
  {
    && PageLock.InOrder(c.locks[i])
    && (c.net.wait[i].Waiting? ==> PageLock.Faulting(c.locks[i]))
  }

  ghost predicate Safe(c: Machine) {
    c.WellFormed() && Sound(SystemOf(c)) && forall i :: 0 <= i < |c.locks| ==> NodeOk(c, i)
  }

  // ----- what a step leaves alone -----

  lemma CommitWait(s: State, i: Node, o: VsmHandlers.Outcome)
    requires s.WellFormed() && i < |s.pte| && o.Ok?
    ensures Commit(s, i, o).Running?
    ensures var s' := Commit(s, i, o).state; s'.WellFormed() && |s'.pte| == |s.pte| && s'.wait == s.wait[i := o.wait]
  {
  }

  /** An event concerns one node; only a fault makes it wait. */
  lemma StepWait(s: State, e: Event)
    requires s.WellFormed() && Enabled(s, e) && Step(s, e).Running?
    requires e.ReadFault? || e.WriteFault? || e.GuestRead? || e.GuestWrite? || e.DeliverReply?
    ensures var s' := Step(s, e).state;
      && s'.WellFormed() && |s'.pte| == |s.pte| && e.node < |s.pte|
      && (forall i :: 0 <= i < |s.pte| && i != e.node ==> s'.wait[i] == s.wait[i])
      && (!e.ReadFault? && !e.WriteFault? && s'.wait[e.node].Waiting? ==> s.wait[e.node].Waiting?)
  {
    var i := e.node;
    match e
    case ReadFault(_) => CommitWait(s, i, VsmHandlers.ReadFault(s.LocalView(i)));
    case WriteFault(_, store) => CommitWait(s, i, VsmHandlers.WriteFault(s.LocalView(i), store, |s.history|));
    case GuestRead(_) =>
    case GuestWrite(_, _) =>
    case DeliverReply(_, store) =>
      CommitWait(s.(replies := s.replies[i := s.replies[i][1..]]), i,
                 Deliver(s.LocalView(i), s.wait[i].kind, s.replies[i][0], store, |s.history|));
  }

  lemma ProcWait(s: State, i: Node, p: Proc)
    requires s.WellFormed() && i < |s.pte| && s.wait[i].Idle? && RunProc(s, i, p).Running?
    ensures var s' := RunProc(s, i, p).state; s'.WellFormed() && |s'.pte| == |s.pte| && s'.wait == s.wait
  {
    var o :=
      match p
      case FetchProc(r) => Serve(s.LocalView(i), r)
      case InvalidateProc => InvalidateServer(s.LocalView(i));
    CommitWait(s, i, o);
    assert s.wait[i := Idle] == s.wait;
  }

  lemma QueuesAfter(locks: seq<PageLock.State>, i: Node, l: PageLock.State)
    requires i < |locks|
    ensures Queues(locks[i := l]) == Queues(locks)[i := PageLock.Waiting(l)]
  {
  }

  // ----- refinement -----

  /** What the system sees of a step: a message accepted, a request served, a fault begun, or nothing. */
  function Seen(c: Machine, m: Move): Option<Happening>
    requires c.WellFormed() && Allowed(c, m)
  {
    match m
    case Spawn(_, _) => None
    case Elsewhere(e) => Some(AtNode(e))
    case Lock(i, a, _, spurious, cause) =>
      if PageLock.Accepts(c.locks[i], a, spurious) then Some(cause.happening)
      else if PageLock.Serves(c.locks[i], a) then Some(Process(i))
      else if c.locks[i].pcs[a].Spin? then Some(AtNode(cause.event))
      else None
  }

  /** The system does exactly what it sees of the step, and keeps going. */
  ghost predicate Refines(c: Machine, m: Move)
    requires c.WellFormed() && Allowed(c, m)
  {
    && Do(c, m).Goes? && Safe(Do(c, m).machine)
    && var d, d' := SystemOf(c), SystemOf(Do(c, m).machine);
    match Seen(c, m)
    case None => d' == d
    case Some(h) => d.WellFormed() && Possible(d, h) && Happen(d, h) == Going(d')
  }

  /** A lock step that leaves the nodes and the queue alone. */
  lemma SilentRefines(c: Machine, i: Node, l: PageLock.State)
    requires Safe(c) && i < |c.locks| && PageLock.Waiting(l) == PageLock.Waiting(c.locks[i])
    requires PageLock.InOrder(l) && (c.net.wait[i].Waiting? ==> PageLock.Faulting(l))
    ensures var c' := c.(locks := c.locks[i := l]); Safe(c') && SystemOf(c') == SystemOf(c)
  {
    var c' := c.(locks := c.locks[i := l]);
    QueuesAfter(c.locks, i, l);
    assert Queues(c'.locks) == Queues(c.locks);
    forall k | 0 <= k < |c'.locks| ensures NodeOk(c', k) {
      assert NodeOk(c, k) && (k != i ==> c'.locks[k] == c.locks[k]);
    }
  }

  /** A step that is one of the system, given what it does there. */
  lemma VisibleRefines(c: Machine, i: Node, h: Happening, r: Result, l: PageLock.State)
    requires Safe(c) && i < |c.locks| && SystemOf(c).WellFormed() && Possible(SystemOf(c), h)
    requires Happen(SystemOf(c), h) == Wrap(r, Queues(c.locks[i := l])) && PageLock.InOrder(l)
    requires r.Running? ==> r.state.WellFormed() && |r.state.pte| == |c.net.pte|
    requires r.Running? ==> forall k :: 0 <= k < |c.locks| && k != i ==> r.state.wait[k] == c.net.wait[k]
    requires r.Running? && r.state.wait[i].Waiting? ==> PageLock.Faulting(l)
    ensures r.Running? && Safe(Machine(r.state, c.locks[i := l]))
    ensures Happen(SystemOf(c), h) == Going(SystemOf(Machine(r.state, c.locks[i := l])))
  {
    StepRefines(SystemOf(c), h);
    var c' := Machine(r.state, c.locks[i := l]);
    forall k | 0 <= k < |c'.locks| ensures NodeOk(c', k) {
      assert NodeOk(c, k) && (k != i ==> c'.locks[k] == c.locks[k]);
    }
  }

  lemma SpawnRefines(c: Machine, m: Move)
    requires Safe(c) && Allowed(c, m) && m.Spawn?
    ensures Refines(c, m)
  {
    var i, l := m.node, c.locks[m.node];
    assert NodeOk(c, i);
    var h :| PageLock.Inv(l, h);
    PageLock.SpawnKeepsInv(l, h, m.pc);
    SilentRefines(c, i, l.(pcs := l.pcs + [m.pc]));
  }

  lemma ElsewhereRefines(c: Machine, m: Move)
    requires Safe(c) && Allowed(c, m) && m.Elsewhere?
    ensures Refines(c, m)
  {
    var e := m.event;
    var i, r := e.node, Step(c.net, e);
    assert NodeOk(c, i) && c.locks[i := c.locks[i]] == c.locks;
    if r.Running? { StepWait(c.net, e); }
    VisibleRefines(c, i, AtNode(e), r, c.locks[i]);
  }

  lemma AcceptIsArrival(c: Machine, i: Node, h: Happening, l: PageLock.State)
    requires Safe(c) && i < |c.locks| && i == Target(c.net, h) && Carried(c.net, h).Some?
    requires PageLock.InOrder(l) && PageLock.Waiting(l) == PageLock.Waiting(c.locks[i]) + [Carried(c.net, h).value]
    requires (h.ForwardArrives? ==> i != c.net.manager) && (c.net.wait[i].Waiting? ==> PageLock.Faulting(l))
    ensures var d, c' := SystemOf(c), Machine(Received(c.net, h), c.locks[i := l]);
      Safe(c') && d.WellFormed() && Possible(d, h) && Happen(d, h) == Going(SystemOf(c'))
  {
    QueuesAfter(c.locks, i, l);
    VisibleRefines(c, i, h, Running(Received(c.net, h)), l);
  }

  lemma AcceptRefines(c: Machine, m: Move, h: PageLock.Holders)
    requires Safe(c) && m.Lock? && Allowed(c, m) && PageLock.Inv(c.locks[m.node], h)
    requires PageLock.Accepts(c.locks[m.node], m.a, m.spurious)
    ensures Refines(c, m)
  {
    var l := c.locks[m.node];
    PageLock.StepInOrder(l, h, m.a, m.cpu, m.spurious);
    PageLock.AcceptJoins(l, h, m.a, m.cpu, m.spurious);
    PageLock.FaultsBeginAndEnd(l, h, m.a, m.cpu, m.spurious);
    assert NodeOk(c, m.node);
    AcceptIsArrival(c, m.node, m.cause.happening, PageLock.Step(l, m.a, m.cpu, m.spurious));
  }

  lemma ServeIsProcess(c: Machine, i: Node, p: Proc, l: PageLock.State)
    requires Safe(c) && i < |c.locks| && c.net.wait[i].Idle? && PageLock.InOrder(l)
    requires var q := PageLock.Waiting(c.locks[i]); q != [] && p == q[0] && PageLock.Waiting(l) == q[1..]
    ensures RunProc(c.net, i, p).Running?
    ensures var d, c' := SystemOf(c), Machine(RunProc(c.net, i, p).state, c.locks[i := l]);
      Safe(c') && d.WellFormed() && Possible(d, Process(i)) && Happen(d, Process(i)) == Going(SystemOf(c'))
  {
    QueuesAfter(c.locks, i, l);
    var r := RunProc(c.net, i, p);
    if r.Running? { ProcWait(c.net, i, p); }
    VisibleRefines(c, i, Process(i), r, l);
  }

  lemma ServeRefines(c: Machine, m: Move, h: PageLock.Holders)
    requires Safe(c) && m.Lock? && Allowed(c, m) && PageLock.Inv(c.locks[m.node], h)
    requires PageLock.Serves(c.locks[m.node], m.a)
    ensures Refines(c, m)
  {
    var l := c.locks[m.node];
    PageLock.StepInOrder(l, h, m.a, m.cpu, m.spurious);
    PageLock.ServeTakesFirst(l, h, m.a, m.cpu, m.spurious);
    assert NodeOk(c, m.node);
    ServeIsProcess(c, m.node, PageLock.AboutToServe(l, m.a), PageLock.Step(l, m.a, m.cpu, m.spurious));
  }

  lemma TrapIsFault(c: Machine, i: Node, e: Event, l: PageLock.State)
    requires Safe(c) && i < |c.locks| && e.node == i && (e.ReadFault? || e.WriteFault?) && c.net.wait[i].Idle?
    requires PageLock.InOrder(l) && PageLock.Faulting(l) && PageLock.Waiting(l) == PageLock.Waiting(c.locks[i])
    ensures Enabled(c.net, e) && Step(c.net, e).Running?
    ensures var d, c' := SystemOf(c), Machine(Step(c.net, e).state, c.locks[i := l]);
      Safe(c') && d.WellFormed() && Possible(d, AtNode(e)) && Happen(d, AtNode(e)) == Going(SystemOf(c'))
  {
    QueuesAfter(c.locks, i, l);
    assert Queues(c.locks[i := l]) == Queues(c.locks);
    var r := Step(c.net, e);
    if r.Running? { StepWait(c.net, e); }
    VisibleRefines(c, i, AtNode(e), r, l);
  }

  lemma FaultRefines(c: Machine, m: Move, h: PageLock.Holders)
    requires Safe(c) && m.Lock? && Allowed(c, m) && PageLock.Inv(c.locks[m.node], h)
    requires c.locks[m.node].pcs[m.a].Spin?
    ensures Refines(c, m)
  {
    var l := c.locks[m.node];
    PageLock.StepInOrder(l, h, m.a, m.cpu, m.spurious);
    PageLock.OthersQuiet(l, h, m.a, m.cpu, m.spurious);
    PageLock.FaultsBeginAndEnd(l, h, m.a, m.cpu, m.spurious);
    PageLock.FreeMeansNoFault(l, h);
    assert NodeOk(c, m.node);
    TrapIsFault(c, m.node, m.cause.event, PageLock.Step(l, m.a, m.cpu, m.spurious));
  }

  lemma QuietRefines(c: Machine, m: Move, h: PageLock.Holders)
    requires Safe(c) && m.Lock? && Allowed(c, m) && PageLock.Inv(c.locks[m.node], h)
    requires var l := c.locks[m.node];
      !PageLock.Accepts(l, m.a, m.spurious) && !PageLock.Serves(l, m.a) && !l.pcs[m.a].Spin?
    ensures Refines(c, m)
  {
    var i, l := m.node, c.locks[m.node];
    PageLock.StepInOrder(l, h, m.a, m.cpu, m.spurious);
    PageLock.OthersQuiet(l, h, m.a, m.cpu, m.spurious);
    PageLock.FaultsBeginAndEnd(l, h, m.a, m.cpu, m.spurious);
    assert NodeOk(c, i);
    SilentRefines(c, i, PageLock.Step(l, m.a, m.cpu, m.spurious));
  }

  /**
   Every atomic step of every activation at every node, every new activation, guest access and reply is
   a step of the system with wait queues, or invisible there; none panics.
   */
  lemma MachineRefines(c: Machine, m: Move)
    requires Safe(c) && Allowed(c, m)
    ensures Refines(c, m)
  {
    match m
    case Spawn(_, _) => SpawnRefines(c, m);
    case Elsewhere(_) => ElsewhereRefines(c, m);
    case Lock(i, a, _, spurious, _) =>
      var l := c.locks[i];
      assert NodeOk(c, i);
      var h :| PageLock.Inv(l, h);
      if PageLock.Accepts(l, a, spurious) {
        AcceptRefines(c, m, h);
      } else if PageLock.Serves(l, a) {
        ServeRefines(c, m, h);
      } else if l.pcs[a].Spin? {
        FaultRefines(c, m, h);
      } else {
        QuietRefines(c, m, h);
      }
  }

  // ----- runs -----

  function Boot(n: nat, manager: Node, page: Page): Machine
    requires manager < n
  {
    Machine(Initial(n, manager, page), seq(n, _ => PageLock.State(PageLock.Word(0, 0), [], [], [], [])))
  }

  ghost predicate Runs(c: Machine, ms: seq<Move>)
    decreases |ms|
  {
    && c.WellFormed()
    && (ms != [] ==> Allowed(c, ms[0]) && (Do(c, ms[0]).Goes? ==> Runs(Do(c, ms[0]).machine, ms[1..])))
  }

  ghost function Ending(c: Machine, ms: seq<Move>): Outcome
    requires Runs(c, ms)
    decreases |ms|
  {
    if ms == [] then Goes(c)
    else match Do(c, ms[0])
      case Halts(reason) => Halts(reason)
      case Goes(c') => Ending(c', ms[1..])
  }

  lemma {:induction false} RunsStaySafe(c: Machine, ms: seq<Move>)
    requires Safe(c) && Runs(c, ms)
    ensures Ending(c, ms).Goes? && Safe(Ending(c, ms).machine)
    decreases |ms|
  {
    if ms != [] {
      MachineRefines(c, ms[0]);
      RunsStaySafe(Do(c, ms[0]).machine, ms[1..]);
    }
  }

  /**
   No run of the machine panics, on any number of nodes, activations and processors, and the state it
   leads to, with accepted requests counted as in flight, is one the protocol reaches.
   */
  lemma MachineRefinesProtocol(n: nat, manager: Node, page: Page, ms: seq<Move>)
    requires manager < n && Runs(Boot(n, manager, page), ms)
    ensures var o := Ending(Boot(n, manager, page), ms);
      o.Goes? && SystemOf(o.machine).WellFormed() && Reachable(Abstract(SystemOf(o.machine)))
  {
    var c := Boot(n, manager, page);
    assert Queues(c.locks) == seq(n, _ => []);
    SystemRefinesProtocol(n, manager, page, []);
    assert SystemOf(c) == Start(n, manager, page);
    forall i | 0 <= i < n ensures NodeOk(c, i) {
      assert PageLock.Inv(c.locks[i], PageLock.Holders(None, None));
    }
    RunsStaySafe(c, ms);
  }
}
