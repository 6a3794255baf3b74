/**
 The protocol with its wait queues.  A message that arrives joins the page's wait queue of its
 node and is processed, in queue order, when the node is not waiting for a reply.  Every run of
 this system is a run of VsmProtocol, so everything proved there holds here.
 */
module VsmWaitQueue {
  import opened Wrappers
  import opened VsmHandlers
  import opened VsmProtocol
  import opened VsmInvariant
  import opened VsmRuns

  /** One entry of a wait queue. */
  datatype Proc = FetchProc(request: Request) | InvalidateProc

  /** `net` holds the nodes and what is still in the network; `queue[i]` is node i's wait queue. */
  datatype System = System(net: State, queue: seq<seq<Proc>>) {
    ghost predicate WellFormed() { net.WellFormed() && |queue| == |net.pte| }
  }

  datatype Happening =
    | AtNode(event: Event)             // a fault, a guest access or a reply
    | FetchArrives(node: Node)         // the next request of `node` reaches the manager
    | ForwardArrives(node: Node)       // the next request from the manager reaches `node`
    | InvalidateArrives(node: Node)
    | Process(node: Node)              // `node` takes the head of its wait queue

  datatype Progress = Going(system: System) | Stopped(reason: PanicReason)

  predicate Possible(c: System, h: Happening)
    requires c.WellFormed()
  {
    match h
    case AtNode(e) =>
      Enabled(c.net, e) && (e.ReadFault? || e.WriteFault? || e.GuestRead? || e.GuestWrite? || e.DeliverReply?)
    case FetchArrives(i) => i < |c.queue| && c.net.up[i] != []
    case ForwardArrives(i) => i < |c.queue| && i != c.net.manager && c.net.down[i] != []
    case InvalidateArrives(i) => i < |c.queue| && c.net.invalidates[i] > 0
    case Process(i) => i < |c.queue| && c.queue[i] != [] && c.net.wait[i].Idle?
  }

  function Enqueue(queue: seq<seq<Proc>>, i: Node, p: Proc): seq<seq<Proc>>
    requires i < |queue|
  {
    queue[i := queue[i] + [p]]
  }

  function Wrap(r: Result, queue: seq<seq<Proc>>): Progress {
    match r
    case Running(s) => Going(System(s, queue))
    case Panicked(reason) => Stopped(reason)
  }

  function Happen(c: System, h: Happening): Progress
    requires c.WellFormed() && Possible(c, h)
  {
    var s := c.net;
    match h
    case AtNode(e) => Wrap(Step(s, e), c.queue)
    case FetchArrives(i) =>
      Going(System(s.(up := s.up[i := s.up[i][1..]]), Enqueue(c.queue, s.manager, FetchProc(s.up[i][0]))))
    case ForwardArrives(i) =>
      Going(System(s.(down := s.down[i := s.down[i][1..]]), Enqueue(c.queue, i, FetchProc(s.down[i][0]))))
    case InvalidateArrives(i) =>
      Going(System(s.(invalidates := s.invalidates[i := s.invalidates[i] - 1]), Enqueue(c.queue, i, InvalidateProc)))
    case Process(i) =>
      var p, rest := c.queue[i][0], c.queue[i := c.queue[i][1..]];
      match p
      case FetchProc(r) => Wrap(Commit(s, i, Serve(s.LocalView(i), r)), rest)
      case InvalidateProc => Wrap(Commit(s, i, InvalidateServer(s.LocalView(i))), rest)
  }

  // ----- what a wait queue stands for -----

  function Fetches(q: seq<Proc>): seq<Request> {
    if q == [] then []
    else if q[0].FetchProc? then [q[0].request] + Fetches(q[1..])
    else Fetches(q[1..])
  }

  function FetchesFrom(q: seq<Proc>, i: Node): seq<Request> {
    if q == [] then []
    else if q[0].FetchProc? && q[0].request.from == i then [q[0].request] + FetchesFrom(q[1..], i)
    else FetchesFrom(q[1..], i)
  }

  function Invalidates(q: seq<Proc>): nat {
    if q == [] then 0 else (if q[0].InvalidateProc? then 1 else 0) + Invalidates(q[1..])
  }

  lemma {:induction false} QueueAppend(q: seq<Proc>, p: Proc, i: Node)
    ensures Fetches(q + [p]) == if p.FetchProc? then Fetches(q) + [p.request] else Fetches(q)
    ensures FetchesFrom(q + [p], i) ==
      if p.FetchProc? && p.request.from == i then FetchesFrom(q, i) + [p.request] else FetchesFrom(q, i)
    ensures Invalidates(q + [p]) == Invalidates(q) + (if p.InvalidateProc? then 1 else 0)
  {
    if q == [] {
      assert q + [p] == [p] && [p][1..] == [];
    } else {
      assert (q + [p])[1..] == q[1..] + [p];
      QueueAppend(q[1..], p, i);
    }
  }

  function UpOf(s: State, queue: seq<seq<Proc>>, i: Node): seq<Request>
    requires s.WellFormed() && |queue| == |s.pte| && i < |queue|
  {
    FetchesFrom(queue[s.manager], i) + s.up[i]
  }

  function DownOf(s: State, queue: seq<seq<Proc>>, i: Node): seq<Request>
    requires s.WellFormed() && |queue| == |s.pte| && i < |queue|
  {
    (if i == s.manager then [] else Fetches(queue[i])) + s.down[i]
  }

  function InvalidatesOf(s: State, queue: seq<seq<Proc>>, i: Node): nat
    requires s.WellFormed() && |queue| == |s.pte| && i < |queue|
  {
    Invalidates(queue[i]) + s.invalidates[i]
  }

  /** The protocol state: queued messages count as still in their boxes, ahead of the network. */
  function Abstract(c: System): (s: State)
    requires c.WellFormed()
    ensures s.WellFormed() && |s.pte| == |c.queue|
    ensures forall i :: 0 <= i < |c.queue| ==> s.up[i] == UpOf(c.net, c.queue, i)
    ensures forall i :: 0 <= i < |c.queue| ==> s.down[i] == DownOf(c.net, c.queue, i)
    ensures forall i :: 0 <= i < |c.queue| ==> s.invalidates[i] == InvalidatesOf(c.net, c.queue, i)
  {
    var n := |c.queue|;
    c.net.(up := seq(n, i requires 0 <= i < n => UpOf(c.net, c.queue, i)),
           down := seq(n, i requires 0 <= i < n => DownOf(c.net, c.queue, i)),
           invalidates := seq(n, i requires 0 <= i < n => InvalidatesOf(c.net, c.queue, i)))
  }

  function AbstractProgress(p: Progress): Result
    requires p.Going? ==> p.system.WellFormed()
  {
    match p
    case Going(c) => Running(Abstract(c))
    case Stopped(reason) => Panicked(reason)
  }

  lemma PostCommutes(s: State, queue: seq<seq<Proc>>, from: Node, m: Option<Message>)
    requires s.WellFormed() && |queue| == |s.pte| && from < |s.pte|
    ensures Post(Abstract(System(s, queue)), from, m) == Abstract(System(Post(s, from, m), queue))
  {
    var a, b := Post(Abstract(System(s, queue)), from, m), Abstract(System(Post(s, from, m), queue));
    if m.Some? && m.value.Fetch? {
      var r := m.value.request;
      forall k | 0 <= k < |queue| ensures a.up[k] == b.up[k] && a.down[k] == b.down[k] {
        assert UpOf(s, queue, k) + [r] == FetchesFrom(queue[s.manager], k) + (s.up[k] + [r]);
        var ahead := if k == s.manager then [] else Fetches(queue[k]);
        assert DownOf(s, queue, k) + [r] == ahead + (s.down[k] + [r]);
      }
    }
    assert a.up == b.up && a.down == b.down && a.invalidates == b.invalidates;
  }

  /** A handler's effects only append behind the queues. */
  lemma CommitCommutes(s: State, queue: seq<seq<Proc>>, i: Node, o: Outcome)
    requires s.WellFormed() && |queue| == |s.pte| && i < |s.pte|
    ensures var p := Wrap(Commit(s, i, o), queue);
      && (p.Going? ==> p.system.WellFormed())
      && Commit(Abstract(System(s, queue)), i, o) == AbstractProgress(p)
  {
    if o.Ok? {
      var l, stored := o.local, o.stored;
      var s1 := s.(pte := s.pte[i := l.pte], wait := s.wait[i := o.wait],
                   dir := if i == s.manager then l.dir else s.dir,
                   invalidates := AddInvalidates(s.invalidates, o.invalidated));
      var s2 := if stored.Some?
                then s1.(history := s1.history + [stored.value], seen := s1.seen[i := |s1.history|])
                else s1;
      PostCommutes(s2, queue, i, o.message);
      var a := Abstract(System(s, queue));
      assert AddInvalidates(a.invalidates, o.invalidated) == Abstract(System(s2, queue)).invalidates;
      assert a.up == Abstract(System(s2, queue)).up && a.down == Abstract(System(s2, queue)).down;
    }
  }

  // ----- each step is a protocol step or changes nothing -----

  /** Node `i` has the same messages coming in both systems. */
  ghost predicate Alike(c: System, c': System, i: Node)
    requires c.WellFormed() && c'.WellFormed() && i < |c.queue| == |c'.queue|
  {
    && UpOf(c'.net, c'.queue, i) == UpOf(c.net, c.queue, i)
    && DownOf(c'.net, c'.queue, i) == DownOf(c.net, c.queue, i)
    && InvalidatesOf(c'.net, c'.queue, i) == InvalidatesOf(c.net, c.queue, i)
  }

  lemma SameAbstract(c: System, c': System)
    requires c.WellFormed() && c'.WellFormed() && |c'.queue| == |c.queue|
    requires c'.net.(up := c.net.up, down := c.net.down, invalidates := c.net.invalidates) == c.net
    requires forall i :: 0 <= i < |c.queue| ==> Alike(c, c', i)
    ensures Abstract(c') == Abstract(c)
  {
    var a, b := Abstract(c), Abstract(c');
    forall i | 0 <= i < |c.queue|
      ensures a.up[i] == b.up[i] && a.down[i] == b.down[i] && a.invalidates[i] == b.invalidates[i] {
      assert Alike(c, c', i);
    }
    assert a.up == b.up && a.down == b.down && a.invalidates == b.invalidates;
  }

  lemma FetchArrivalIsInvisible(c: System, i: Node)
    requires c.WellFormed() && Possible(c, FetchArrives(i)) && c.net.up[i][0].from == i
    ensures Happen(c, FetchArrives(i)).Going? && Happen(c, FetchArrives(i)).system.WellFormed()
    ensures Abstract(Happen(c, FetchArrives(i)).system) == Abstract(c)
  {
    var c' := Happen(c, FetchArrives(i)).system;
    forall k | 0 <= k < |c.queue| ensures Alike(c, c', k) { FetchAlike(c, i, k); }
    SameAbstract(c, c');
  }

  lemma FetchAlike(c: System, i: Node, k: Node)
    requires c.WellFormed() && Possible(c, FetchArrives(i)) && c.net.up[i][0].from == i && k < |c.queue|
    ensures Alike(c, Happen(c, FetchArrives(i)).system, k)
  {
    var r := c.net.up[i][0];
    QueueAppend(c.queue[c.net.manager], FetchProc(r), k);
    Reassociate(FetchesFrom(c.queue[c.net.manager], i), c.net.up[i]);
  }

  lemma ForwardAlike(c: System, i: Node, k: Node)
    requires c.WellFormed() && Possible(c, ForwardArrives(i)) && k < |c.queue|
    ensures Alike(c, Happen(c, ForwardArrives(i)).system, k)
  {
    QueueAppend(c.queue[i], FetchProc(c.net.down[i][0]), k);
    Reassociate(Fetches(c.queue[i]), c.net.down[i]);
  }

  lemma Reassociate(ahead: seq<Request>, box: seq<Request>)
    requires box != []
    ensures ahead + [box[0]] + box[1..] == ahead + box
  {
  }

  lemma ForwardArrivalIsInvisible(c: System, i: Node)
    requires c.WellFormed() && Possible(c, ForwardArrives(i))
    ensures Happen(c, ForwardArrives(i)).Going? && Happen(c, ForwardArrives(i)).system.WellFormed()
    ensures Abstract(Happen(c, ForwardArrives(i)).system) == Abstract(c)
  {
    var c' := Happen(c, ForwardArrives(i)).system;
    forall k | 0 <= k < |c.queue| ensures Alike(c, c', k) { ForwardAlike(c, i, k); }
    SameAbstract(c, c');
  }

  lemma InvalidateArrivalIsInvisible(c: System, i: Node)
    requires c.WellFormed() && Possible(c, InvalidateArrives(i))
    ensures Happen(c, InvalidateArrives(i)).Going? && Happen(c, InvalidateArrives(i)).system.WellFormed()
    ensures Abstract(Happen(c, InvalidateArrives(i)).system) == Abstract(c)
  {
    var c' := Happen(c, InvalidateArrives(i)).system;
    forall k | 0 <= k < |c.queue| ensures Alike(c, c', k) {
      QueueAppend(c.queue[i], InvalidateProc, k);
    }
    SameAbstract(c, c');
  }

  lemma LocalIsStep(c: System, e: Event)
    requires c.WellFormed() && Possible(c, AtNode(e))
    ensures Enabled(Abstract(c), e)
    ensures var p := Happen(c, AtNode(e));
      (p.Going? ==> p.system.WellFormed()) && Step(Abstract(c), e) == AbstractProgress(p)
  {
    var s, i := c.net, e.node;
    match e
    case ReadFault(_) => CommitCommutes(s, c.queue, i, VsmHandlers.ReadFault(s.LocalView(i)));
    case WriteFault(_, store) => CommitCommutes(s, c.queue, i,
      VsmHandlers.WriteFault(s.LocalView(i), store, |s.history|));
    case DeliverReply(_, store) =>
      var s1 := s.(replies := s.replies[i := s.replies[i][1..]]);
      CommitCommutes(s1, c.queue, i, Deliver(s.LocalView(i), s.wait[i].kind, s.replies[i][0], store, |s.history|));
      SameBoxes(s, s1, c.queue);
    case GuestRead(_) =>
      SameBoxes(s, Step(s, e).state, c.queue);
    case GuestWrite(_, _) =>
      SameBoxes(s, Step(s, e).state, c.queue);
  }

  lemma SameBoxes(s: State, s1: State, q: seq<seq<Proc>>)
    requires s.WellFormed() && s1.WellFormed() && |q| == |s.pte| == |s1.pte|
    requires s1.manager == s.manager && s1.up == s.up && s1.down == s.down && s1.invalidates == s.invalidates
    ensures Abstract(System(s1, q)).up == Abstract(System(s, q)).up
    ensures Abstract(System(s1, q)).down == Abstract(System(s, q)).down
    ensures Abstract(System(s1, q)).invalidates == Abstract(System(s, q)).invalidates
  {
  }

  /** The protocol event that processing the head of node `i`'s queue amounts to. */
  function EventOf(c: System, i: Node): Event
    requires c.WellFormed() && i < |c.queue| && c.queue[i] != []
  {
    match c.queue[i][0]
    case InvalidateProc => ProcessInvalidate(i)
    case FetchProc(r) => if i == c.net.manager then ServeAtManager(r.from) else ServeForwarded(i)
  }

  /** Queued fetches at the manager name the node they came from. */
  ghost predicate Named(c: System)
    requires c.WellFormed()
  {
    forall p :: p in c.queue[c.net.manager] && p.FetchProc? ==> p.request.from < |c.queue|
  }

  lemma ProcessInvalidateIsStep(c: System, i: Node)
    requires c.WellFormed() && Possible(c, Process(i)) && c.queue[i][0].InvalidateProc?
    ensures Enabled(Abstract(c), ProcessInvalidate(i))
    ensures var p := Happen(c, Process(i));
      (p.Going? ==> p.system.WellFormed()) && Step(Abstract(c), ProcessInvalidate(i)) == AbstractProgress(p)
  {
    var s, rest := c.net, c.queue[i := c.queue[i][1..]];
    var a, b := Abstract(c), Abstract(System(s, rest));
    CommitCommutes(s, rest, i, InvalidateServer(s.LocalView(i)));
    assert b.invalidates == a.invalidates[i := a.invalidates[i] - 1];
    assert b.up == a.up;
    assert b.down == a.down;
  }

  lemma ProcessFetchIsStep(c: System, i: Node)
    requires c.WellFormed() && Possible(c, Process(i)) && c.queue[i][0].FetchProc?
    requires i == c.net.manager ==> c.queue[i][0].request.from < |c.queue|
    ensures Enabled(Abstract(c), EventOf(c, i))
    ensures var p := Happen(c, Process(i));
      (p.Going? ==> p.system.WellFormed()) && Step(Abstract(c), EventOf(c, i)) == AbstractProgress(p)
  {
    var s, q, rest := c.net, c.queue[i], c.queue[i := c.queue[i][1..]];
    var r, a, b := q[0].request, Abstract(c), Abstract(System(s, rest));
    CommitCommutes(s, rest, i, Serve(s.LocalView(i), r));
    assert b.invalidates == a.invalidates;
    if i == s.manager {
      assert a.up[r.from] == [r] + b.up[r.from];
      forall k | 0 <= k < |a.up| && k != r.from ensures a.up[k] == b.up[k] {
        assert FetchesFrom(q, k) == FetchesFrom(q[1..], k);
      }
      assert b.up == a.up[r.from := a.up[r.from][1..]];
      assert b.down == a.down;
    } else {
      assert a.down[i] == [r] + b.down[i];
      assert b.down == a.down[i := a.down[i][1..]];
      assert b.up == a.up;
    }
  }

  // ----- runs -----

  function Start(n: nat, manager: Node, page: Page): System
    requires manager < n
  {
    System(Initial(n, manager, page), seq(n, _ => []))
  }

  ghost predicate Sound(c: System) {
    c.WellFormed() && Named(c) && Reachable(Abstract(c))
  }

  /**
   A step of the system is a step of the protocol, or leaves the protocol state as it is; it never stops
   the system.
   */
  lemma StepRefines(c: System, h: Happening)
    requires Sound(c) && Possible(c, h)
    ensures Happen(c, h).Going? && Sound(Happen(c, h).system)
    ensures var a, a' := Abstract(c), Abstract(Happen(c, h).system);
      a == a' || exists e :: Enabled(a, e) && Step(a, e) == Running(a')
  {
    match h
    case FetchArrives(i) =>
      SenderIsNamed(c, i);
      FetchArrivalIsInvisible(c, i);
      assert Named(Happen(c, h).system);
    case ForwardArrives(i) => ForwardArrivalIsInvisible(c, i);
    case InvalidateArrives(i) => InvalidateArrivalIsInvisible(c, i);
    case AtNode(e) =>
      LocalIsStep(c, e);
      Advance(c, h, e);
    case Process(i) =>
      assert c.queue[i][0] in c.queue[i];
      if c.queue[i][0].FetchProc? { ProcessFetchIsStep(c, i); } else { ProcessInvalidateIsStep(c, i); }
      Advance(c, h, EventOf(c, i));
  }

  lemma SenderIsNamed(c: System, i: Node)
    requires Sound(c) && i < |c.queue| && c.net.up[i] != []
    ensures c.net.up[i][0].from == i
  {
    var l := ReachableInv(Abstract(c));
    assert Abstract(c).up[i] == Asked(i, Abstract(c).wait[i], l.place[i]);
    assert UpOf(c.net, c.queue, i)[|FetchesFrom(c.queue[c.net.manager], i)|] == c.net.up[i][0];
  }

  /** Only arrivals add to a queue. */
  lemma QueuesShrink(c: System, h: Happening)
    requires c.WellFormed() && Named(c) && Possible(c, h) && (h.AtNode? || h.Process?)
    requires Happen(c, h).Going? && Happen(c, h).system.WellFormed()
    ensures Named(Happen(c, h).system)
  {
    var c' := Happen(c, h).system;
    assert c'.net.manager == c.net.manager;
    assert c'.queue == if h.Process? then c.queue[h.node := c.queue[h.node][1..]] else c.queue;
    forall p | p in c'.queue[c.net.manager] ensures p in c.queue[c.net.manager] {
    }
  }

  lemma Advance(c: System, h: Happening, e: Event)
    requires Sound(c) && Possible(c, h) && (h.AtNode? || h.Process?)
    requires Enabled(Abstract(c), e)
    requires var p := Happen(c, h);
      (p.Going? ==> p.system.WellFormed()) && Step(Abstract(c), e) == AbstractProgress(p)
    ensures Happen(c, h).Going? && Sound(Happen(c, h).system)
  {
    ReachableStep(Abstract(c), e);
    QueuesShrink(c, h);
  }

  ghost predicate Feasible(c: System, hs: seq<Happening>)
    decreases |hs|
  {
    && c.WellFormed()
    && (hs != [] ==>
          && Possible(c, hs[0])
          && (Happen(c, hs[0]).Going? ==> Feasible(Happen(c, hs[0]).system, hs[1..])))
  }

  ghost function Play(c: System, hs: seq<Happening>): Progress
    requires Feasible(c, hs)
    decreases |hs|
  {
    if hs == [] then Going(c)
    else match Happen(c, hs[0])
      case Stopped(reason) => Stopped(reason)
      case Going(c') => Play(c', hs[1..])
  }

  lemma {:induction false} PlayRefines(c: System, hs: seq<Happening>)
    requires Sound(c) && Feasible(c, hs)
    ensures Play(c, hs).Going? && Sound(Play(c, hs).system)
    decreases |hs|
  {
    if hs != [] {
      StepRefines(c, hs[0]);
      PlayRefines(Happen(c, hs[0]).system, hs[1..]);
    }
  }

  /**
   No run of the system with wait queues panics, and the state it leads to, with queued messages
   counted as in flight, is one the protocol reaches.
   */
  lemma SystemRefinesProtocol(n: nat, manager: Node, page: Page, hs: seq<Happening>)
    requires manager < n && Feasible(Start(n, manager, page), hs)
    ensures var p := Play(Start(n, manager, page), hs);
      p.Going? && p.system.WellFormed() && Reachable(Abstract(p.system))
  {
    var c := Start(n, manager, page);
    var a := Abstract(c);
    assert a.up == c.net.up && a.down == c.net.down && a.invalidates == c.net.invalidates;
    ReachableInitial(n, manager, page);
    PlayRefines(c, hs);
  }
}
