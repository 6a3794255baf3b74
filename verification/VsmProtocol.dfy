/**
 The coherence protocol of core/vsm.c for one page over a cluster of nodes: a state
 machine whose steps are guest accesses, faults, served requests, delivered replies and
 processed invalidates.

 A request that has reached a node but waits behind the page lock is still counted as in
 the box it travelled in; VsmWaitQueue separates network and wait queue and shows that
 nothing is lost by this.
 */
module VsmProtocol {
  import opened Wrappers
  import opened VsmHandlers

  datatype State = State(
    manager: Node,
    dir: Node,                     // the manager's record of the owner
    pte: seq<Pte>,
    wait: seq<Wait>,
    up: seq<seq<Request>>,         // up[i]: requests from node i to the manager
    down: seq<seq<Request>>,       // down[i]: requests the manager sent to node i, in order
    replies: seq<seq<Reply>>,      // replies[i]: replies on their way to node i
    invalidates: seq<nat>,         // invalidates[i]: invalidate messages on their way to node i
    history: seq<Page>,            // every version of the page ever written, in order
    seen: seq<nat>)                // seen[i]: the version node i's guest last read or wrote
  {
    ghost predicate WellFormed() {
      && manager < |pte|
      && |wait| == |up| == |down| == |replies| == |invalidates| == |seen| == |pte|
    }

    function LocalView(i: Node): Local
      requires i < |pte|
    {
      Local(i, manager, pte[i], dir)
    }
  }

  datatype Event =
    | ReadFault(node: Node)
    | WriteFault(node: Node, store: Option<Page>)
    | GuestRead(node: Node)
    | GuestWrite(node: Node, page: Page)
    | ServeAtManager(node: Node)               // the manager serves the next request of `node`
    | ServeForwarded(node: Node)               // `node` serves the next request the manager sent it
    | DeliverReply(node: Node, store: Option<Page>)
    | ProcessInvalidate(node: Node)

  datatype Result = Running(state: State) | Panicked(reason: PanicReason)

  /** The manager owns the page read-write, nobody else has it. */
  function Initial(n: nat, manager: Node, page: Page): State
    requires manager < n
  {
    State(manager, manager,
          seq(n, i => if i == manager then ReadWrite(0, {}) else Invalid),
          seq(n, _ => Idle), seq(n, _ => []), seq(n, _ => []), seq(n, _ => []), seq(n, _ => 0),
          [page], seq(n, _ => 0))
  }

  /** Messages of one handler run: the manager's requests go down, everyone else's go up. */
  function Post(s: State, from: Node, m: Option<Message>): State
    requires s.WellFormed() && from < |s.pte|
  {
    match m
    case None => s
    case Some(Fetch(to, r)) =>
      if from != s.manager then s.(up := s.up[from := s.up[from] + [r]])
      else if to < |s.pte| then s.(down := s.down[to := s.down[to] + [r]])
      else s
    case Some(Answer(to, r)) =>
      if to < |s.pte| then s.(replies := s.replies[to := s.replies[to] + [r]]) else s
  }

  function AddInvalidates(counts: seq<nat>, targets: set<Node>): (r: seq<nat>)
    ensures |r| == |counts|
    ensures forall i {:trigger r[i]} :: 0 <= i < |r| ==> r[i] == counts[i] + (if i in targets then 1 else 0)
  {
    seq(|counts|, i requires 0 <= i < |counts| => counts[i] + (if i in targets then 1 else 0))
  }

  /** Apply what a handler run on node `i` decided. */
  function Commit(s: State, i: Node, o: Outcome): Result
    requires s.WellFormed() && i < |s.pte|
  {
    match o
    case Panic(reason) => Panicked(reason)
    case Ok(l, w, m, targets, stored) =>
      var s1 := s.(pte := s.pte[i := l.pte], wait := s.wait[i := w],
                   dir := if i == s.manager then l.dir else s.dir,
                   invalidates := AddInvalidates(s.invalidates, targets));
      var s2 := if stored.Some?
                then s1.(history := s1.history + [stored.value], seen := s1.seen[i := |s1.history|])
                else s1;
      Running(Post(s2, i, m))
  }

  predicate Enabled(s: State, e: Event)
    requires s.WellFormed()
  {
    && e.node < |s.pte|
    && match e
       case ReadFault(i) => s.wait[i].Idle?
       case WriteFault(i, _) => s.wait[i].Idle?
       case GuestRead(i) => s.pte[i].Readable()
       case GuestWrite(i, _) => s.pte[i].ReadWrite?
       case ServeAtManager(i) => s.wait[s.manager].Idle? && s.up[i] != []
       case ServeForwarded(i) => s.wait[i].Idle? && s.down[i] != []
       case DeliverReply(i, _) => s.wait[i].Waiting? && s.replies[i] != []
       case ProcessInvalidate(i) => s.wait[i].Idle? && s.invalidates[i] > 0
  }

  function Step(s: State, e: Event): Result
    requires s.WellFormed() && Enabled(s, e)
  {
    match e
    case ReadFault(i) => Commit(s, i, VsmHandlers.ReadFault(s.LocalView(i)))
    case WriteFault(i, store) => Commit(s, i, VsmHandlers.WriteFault(s.LocalView(i), store, |s.history|))
    case GuestRead(i) => Running(s.(seen := s.seen[i := s.pte[i].version]))
    case GuestWrite(i, page) =>
      Running(s.(pte := s.pte[i := s.pte[i].(version := |s.history|)],
                 history := s.history + [page], seen := s.seen[i := |s.history|]))
    case ServeAtManager(i) =>
      Commit(s.(up := s.up[i := s.up[i][1..]]), s.manager, Serve(s.LocalView(s.manager), s.up[i][0]))
    case ServeForwarded(i) =>
      Commit(s.(down := s.down[i := s.down[i][1..]]), i, Serve(s.LocalView(i), s.down[i][0]))
    case DeliverReply(i, store) =>
      Commit(s.(replies := s.replies[i := s.replies[i][1..]]), i,
             Deliver(s.LocalView(i), s.wait[i].kind, s.replies[i][0], store, |s.history|))
    case ProcessInvalidate(i) =>
      Commit(s.(invalidates := s.invalidates[i := s.invalidates[i] - 1]), i,
             InvalidateServer(s.LocalView(i)))
  }
}
