/**
 The two-byte page lock and the page's wait queue (core/vsm.c), as atomic steps of any number
 of handler activations in any interleaving.  An activation is a request handler, which never
 blocks on the page lock, or a fault handler, which does.
 */
module PageLock {
  import opened Sums
  import opened Wrappers
  import VsmWaitQueue

  type Request = VsmWaitQueue.Proc

  /** `lock` holds the page (a processor number plus one, or 1), `wqlock` the wait queue; 0 is free. */
  datatype Word = Word(lock: nat, wqlock: nat)

  /** Where an activation is. */
  datatype Pc =
    | Try(request: Request)                       // about to try the page lock
    | Enqueue(request: Request)                   // failed: about to take the queue lock
    | Append(request: Request, inherited: bool)   // has the queue lock; `inherited` the page lock too
    | Appended(inherited: bool)                   // about to release the queue lock
    | Direct(request: Request)                    // has the page lock: serves its own request
    | Spin                                        // fault handler: about to take the page lock
    | Fault                                       // fault handler at work under the page lock
    | DrainLock                                   // about to take the queue lock, to drain
    | DrainCheck                                  // has both locks, looks at the queue
    | DrainTaken(batch: seq<Request>)             // has taken the queue; about to release the queue lock
    | DrainRun(batch: seq<Request>)               // serves the batch
    | Done
  {
    /** The activation owns the page lock. */
    predicate HoldsPage() {
      Direct? || Fault? || DrainLock? || DrainCheck? || DrainTaken? || DrainRun?
      || (Append? && inherited) || (Appended? && inherited)
    }

    predicate HoldsQueue() { Append? || Appended? || DrainCheck? || DrainTaken? }

    /** Requests it has taken on and not finished. */
    function InHand(): seq<Request> {
      match this
      case Direct(r) => [r]
      case DrainTaken(b) => b
      case DrainRun(b) => b
      case _ => []
    }
  }

  /** `arrived` and `served` record the order in which requests were accepted and completed. */
  datatype State = State(word: Word, queue: seq<Request>, pcs: seq<Pc>, arrived: seq<Request>, served: seq<Request>)

  predicate Enabled(s: State, a: nat) {
    && a < |s.pcs|
    && match s.pcs[a]
       case Enqueue(_) => s.word.wqlock == 0
       case Spin => s.word.lock == 0
       case DrainLock => s.word.wqlock == 0
       case Done => false
       case _ => true
  }

  /** One step of activation `a` on processor `cpu`; `spurious` lets the trylock fail on a free lock. */
  function Step(s: State, a: nat, cpu: nat, spurious: bool): State
    requires Enabled(s, a)
  {
    var free := Word(0, 0);
    match s.pcs[a]
    case Try(r) =>
      if s.word.lock == 0 && !spurious then
        s.(word := s.word.(lock := cpu + 1), pcs := s.pcs[a := Direct(r)], arrived := s.arrived + [r])
      else s.(pcs := s.pcs[a := Enqueue(r)])
    case Enqueue(r) => s.(word := Word(1, 1), pcs := s.pcs[a := Append(r, s.word.lock == 0)])
    case Append(r, inherited) =>
      s.(queue := s.queue + [r], pcs := s.pcs[a := Appended(inherited)], arrived := s.arrived + [r])
    case Appended(inherited) =>
      s.(word := s.word.(wqlock := 0), pcs := s.pcs[a := if inherited then DrainLock else Done])
    case Direct(r) => s.(pcs := s.pcs[a := DrainLock], served := s.served + [r])
    case Spin => s.(word := s.word.(lock := cpu + 1), pcs := s.pcs[a := Fault])
    case Fault => s.(pcs := s.pcs[a := DrainLock])
    case DrainLock => s.(word := Word(1, 1), pcs := s.pcs[a := DrainCheck])
    case DrainCheck =>
      if s.queue == [] then s.(word := free, pcs := s.pcs[a := Done])
      else s.(queue := [], pcs := s.pcs[a := DrainTaken(s.queue)])
    case DrainTaken(b) => s.(word := s.word.(wqlock := 0), pcs := s.pcs[a := DrainRun(b)])
    case DrainRun(b) =>
      if b == [] then s.(pcs := s.pcs[a := DrainLock])
      else s.(pcs := s.pcs[a := DrainRun(b[1..])], served := s.served + [b[0]])
  }

  // ----- invariant -----

  /** `page` and `queue` are the activations that hold the two locks, if any. */
  datatype Holders = Holders(page: Option<nat>, queue: Option<nat>)

  ghost predicate Holding(pcs: seq<Pc>, h: Holders) {
    && (forall a :: 0 <= a < |pcs| ==> (pcs[a].HoldsPage() <==> h.page == Some(a)))
    && (forall a :: 0 <= a < |pcs| ==> (pcs[a].HoldsQueue() <==> h.queue == Some(a)))
    && (h.page.Some? ==> h.page.value < |pcs|)
    && (h.queue.Some? ==> h.queue.value < |pcs|)
  }

  ghost predicate Locks(w: Word, h: Holders) {
    && (w.lock != 0 <==> h.page.Some?)
    && (w.wqlock != 0 <==> h.queue.Some?)
    && (w.wqlock != 0 ==> w.lock != 0)
  }

  function Pending(pcs: seq<Pc>, h: Holders): seq<Request> {
    if h.page.Some? && h.page.value < |pcs| then pcs[h.page.value].InHand() else []
  }

  ghost predicate Inv(s: State, h: Holders) {
    && Holding(s.pcs, h) && Locks(s.word, h)
    && (s.queue != [] ==> h.page.Some?)
    && s.arrived == s.served + (Pending(s.pcs, h) + s.queue)
  }

  function NextHolders(s: State, h: Holders, a: nat, spurious: bool): Holders
    requires Enabled(s, a)
  {
    match s.pcs[a]
    case Try(_) => if s.word.lock == 0 && !spurious then h.(page := Some(a)) else h
    case Enqueue(_) => Holders(if s.word.lock == 0 then Some(a) else h.page, Some(a))
    case Appended(_) => h.(queue := None)
    case Spin => h.(page := Some(a))
    case DrainLock => h.(queue := Some(a))
    case DrainCheck => if s.queue == [] then Holders(None, None) else h
    case DrainTaken(_) => h.(queue := None)
    case _ => h
  }

  /** How a holder changes when activation `a` does or does not hold the lock after its step. */
  ghost predicate Passes(before: Option<nat>, after: Option<nat>, a: nat, holds: bool) {
    if holds then (before == None || before == Some(a)) && after == Some(a)
    else after == if before == Some(a) then None else before
  }

  lemma HoldingStep(pcs: seq<Pc>, h: Holders, a: nat, pc: Pc, h': Holders)
    requires Holding(pcs, h) && a < |pcs|
    requires Passes(h.page, h'.page, a, pc.HoldsPage()) && Passes(h.queue, h'.queue, a, pc.HoldsQueue())
    ensures Holding(pcs[a := pc], h')
  {
  }

  lemma StepKeepsLocks(s: State, h: Holders, a: nat, cpu: nat, spurious: bool)
    requires Inv(s, h) && Enabled(s, a)
    ensures var s', h' := Step(s, a, cpu, spurious), NextHolders(s, h, a, spurious);
      Holding(s'.pcs, h') && Locks(s'.word, h')
  {
    var s', h' := Step(s, a, cpu, spurious), NextHolders(s, h, a, spurious);
    assert s.pcs[a].HoldsPage() <==> h.page == Some(a);
    assert s.pcs[a].HoldsQueue() <==> h.queue == Some(a);
    HoldingStep(s.pcs, h, a, s'.pcs[a], h');
  }

  ghost predicate Ordered(s: State, h: Holders) {
    && (s.queue != [] ==> h.page.Some?)
    && s.arrived == s.served + (Pending(s.pcs, h) + s.queue)
  }

  lemma StepKeepsOrder(s: State, h: Holders, a: nat, cpu: nat, spurious: bool)
    requires Inv(s, h) && Enabled(s, a) && !s.pcs[a].Try? && !s.pcs[a].Append? && !s.pcs[a].Direct?
    requires !s.pcs[a].DrainRun?
    ensures Ordered(Step(s, a, cpu, spurious), NextHolders(s, h, a, spurious))
  {
    assert s.pcs[a].HoldsPage() <==> h.page == Some(a);
  }

  /** A request is accepted: behind everything accepted before, which is nothing if the page lock was free. */
  lemma AcceptKeepsOrder(s: State, h: Holders, a: nat, cpu: nat, spurious: bool)
    requires Inv(s, h) && Enabled(s, a) && (s.pcs[a].Try? || s.pcs[a].Append?)
    ensures Ordered(Step(s, a, cpu, spurious), NextHolders(s, h, a, spurious))
  {
    var s', h' := Step(s, a, cpu, spurious), NextHolders(s, h, a, spurious);
    assert s.pcs[a].HoldsPage() <==> h.page == Some(a);
    assert s.pcs[a].HoldsQueue() <==> h.queue == Some(a);
    if s.pcs[a].Append? {
      var p := Pending(s.pcs, h);
      assert Pending(s'.pcs, h') == p;
      assert s.served + (p + s.queue) + [s.pcs[a].request] == s.served + (p + (s.queue + [s.pcs[a].request]));
    }
  }

  /** The holder of the page lock completes the oldest request it has in hand. */
  lemma ServeKeepsOrder(s: State, h: Holders, a: nat, cpu: nat, spurious: bool)
    requires Inv(s, h) && Enabled(s, a) && (s.pcs[a].Direct? || s.pcs[a].DrainRun?)
    ensures Ordered(Step(s, a, cpu, spurious), NextHolders(s, h, a, spurious))
  {
    assert s.pcs[a].HoldsPage() <==> h.page == Some(a);
    var hand := s.pcs[a].InHand();
    assert Pending(s.pcs, h) == hand;
    if hand != [] {
      assert s.served + (hand + s.queue) == (s.served + [hand[0]]) + (hand[1..] + s.queue);
    }
  }

  lemma StepKeepsInv(s: State, h: Holders, a: nat, cpu: nat, spurious: bool)
    requires Inv(s, h) && Enabled(s, a)
    ensures Inv(Step(s, a, cpu, spurious), NextHolders(s, h, a, spurious))
  {
    StepKeepsLocks(s, h, a, cpu, spurious);
    match s.pcs[a]
    case Try(_) => AcceptKeepsOrder(s, h, a, cpu, spurious);
    case Append(_, _) => AcceptKeepsOrder(s, h, a, cpu, spurious);
    case Direct(_) => ServeKeepsOrder(s, h, a, cpu, spurious);
    case DrainRun(_) => ServeKeepsOrder(s, h, a, cpu, spurious);
    case _ => StepKeepsOrder(s, h, a, cpu, spurious);
  }

  // ----- no request is lost or duplicated -----

  /** The request an activation has still to get accepted. */
  function Unaccepted(pc: Pc): multiset<Request> {
    if pc.Try? || pc.Enqueue? || pc.Append? then multiset{pc.request} else multiset{}
  }

  function AllRequests(s: State): multiset<Request> {
    multiset(s.arrived) + Gather(Unaccepted, s.pcs)
  }

  lemma StepConserves(s: State, a: nat, cpu: nat, spurious: bool)
    requires Enabled(s, a)
    ensures AllRequests(Step(s, a, cpu, spurious)) == AllRequests(s)
  {
    var s' := Step(s, a, cpu, spurious);
    AcceptedOrNot(s, a, cpu, spurious);
    GatherUpdate(Unaccepted, s.pcs, a, s'.pcs[a]);
    Exchange(multiset(s.arrived), multiset(s'.arrived), Gather(Unaccepted, s.pcs), Gather(Unaccepted, s'.pcs),
             Unaccepted(s.pcs[a]), Unaccepted(s'.pcs[a]));
  }

  lemma AcceptedOrNot(s: State, a: nat, cpu: nat, spurious: bool)
    requires Enabled(s, a)
    ensures var s' := Step(s, a, cpu, spurious);
      && |s'.pcs| == |s.pcs| && s'.pcs == s.pcs[a := s'.pcs[a]]
      && multiset(s'.arrived) + Unaccepted(s'.pcs[a]) == multiset(s.arrived) + Unaccepted(s.pcs[a])
  {
  }

  // ----- progress -----

  function Weight(pc: Pc): nat {
    match pc
    case Try(_) => 11
    case Enqueue(_) => 10
    case Append(_, _) => 9
    case Appended(_) => 3
    case Direct(_) => 3
    case Spin => 4
    case Fault => 3
    case DrainLock => 2
    case DrainCheck => 1
    case DrainTaken(b) => 4 + |b|
    case DrainRun(b) => 3 + |b|
    case Done => 0
  }

  function Measure(s: State): nat { Total(Weight, s.pcs) + 5 * |s.queue| }

  lemma StepDecreases(s: State, a: nat, cpu: nat, spurious: bool)
    requires Enabled(s, a)
    ensures Measure(Step(s, a, cpu, spurious)) < Measure(s)
  {
    var s' := Step(s, a, cpu, spurious);
    TotalUpdate(Weight, s.pcs, a, s'.pcs[a]);
    assert s'.pcs == s.pcs[a := s'.pcs[a]];
  }

  /** The holder of the queue lock, else the holder of the page lock, else anyone, can move. */
  lemma SomeoneCanStep(s: State, h: Holders, a: nat) returns (b: nat)
    requires Inv(s, h) && a < |s.pcs| && !s.pcs[a].Done?
    ensures Enabled(s, b)
  {
    if h.queue.Some? {
      b := h.queue.value;
      assert s.pcs[b].HoldsQueue();
    } else if h.page.Some? {
      b := h.page.value;
      assert s.pcs[b].HoldsPage();
    } else {
      b := a;
      assert !s.pcs[a].HoldsPage() && !s.pcs[a].HoldsQueue();
    }
  }

  // ----- runs -----

  datatype Move = Move(activation: nat, cpu: nat, spurious: bool)

  /** Nothing locked or queued; every activation is about to start. */
  predicate Start(s: State) {
    && s.word == Word(0, 0) && s.queue == [] && s.arrived == [] && s.served == []
    && forall a :: 0 <= a < |s.pcs| ==> s.pcs[a].Try? || s.pcs[a].Spin?
  }

  ghost predicate Admissible(s: State, moves: seq<Move>)
    decreases |moves|
  {
    moves != [] ==>
      && Enabled(s, moves[0].activation)
      && Admissible(Step(s, moves[0].activation, moves[0].cpu, moves[0].spurious), moves[1..])
  }

  ghost function Run(s: State, moves: seq<Move>): State
    requires Admissible(s, moves)
    decreases |moves|
  {
    if moves == [] then s
    else Run(Step(s, moves[0].activation, moves[0].cpu, moves[0].spurious), moves[1..])
  }

  lemma {:induction false} RunKeeps(s: State, h: Holders, moves: seq<Move>) returns (h': Holders)
    requires Inv(s, h) && Admissible(s, moves)
    ensures Inv(Run(s, moves), h') && AllRequests(Run(s, moves)) == AllRequests(s)
    ensures |moves| + Measure(Run(s, moves)) <= Measure(s) && |Run(s, moves).pcs| == |s.pcs|
    decreases |moves|
  {
    h' := h;
    if moves != [] {
      var Move(a, cpu, spurious) := moves[0];
      StepKeepsInv(s, h, a, cpu, spurious);
      StepConserves(s, a, cpu, spurious);
      StepDecreases(s, a, cpu, spurious);
      h' := RunKeeps(Step(s, a, cpu, spurious), NextHolders(s, h, a, spurious), moves[1..]);
    }
  }

  /**
   In every interleaving: at most one activation holds each lock, the queue lock implies the page
   lock, requests complete in the order they were accepted, and while there is a request in the
   queue some activation holds the page lock and does not let go of it.
   */
  lemma LockSafety(s: State, moves: seq<Move>)
    requires Start(s) && Admissible(s, moves)
    ensures var t := Run(s, moves);
      && (forall a, b :: 0 <= a < |t.pcs| && 0 <= b < |t.pcs| && t.pcs[a].HoldsPage() && t.pcs[b].HoldsPage() ==>
        a == b)
      && (forall a, b :: 0 <= a < |t.pcs| && 0 <= b < |t.pcs| && t.pcs[a].HoldsQueue() && t.pcs[b].HoldsQueue() ==>
        a == b)
      && (t.word.wqlock != 0 ==> t.word.lock != 0)
      && t.served <= t.arrived
      && (t.queue != [] ==> exists a :: 0 <= a < |t.pcs| && t.pcs[a].HoldsPage())
      && (t.queue != [] ==> forall a: nat, cpu: nat, spurious: bool :: KeepsPage(t, a, cpu, spurious))
  {
    InitialInv(s);
    var h := RunKeeps(s, Holders(None, None), moves);
    var t := Run(s, moves);
    if t.queue != [] {
      assert t.pcs[h.page.value].HoldsPage();
      forall a: nat, cpu: nat, spurious: bool
        ensures KeepsPage(t, a, cpu, spurious) { HolderStays(t, a, cpu, spurious); }
    }
  }

  lemma HolderStays(t: State, a: nat, cpu: nat, spurious: bool)
    requires t.queue != []
    ensures KeepsPage(t, a, cpu, spurious)
  {
  }

  /** A step of the activation that holds the page lock does not release it. */
  ghost predicate KeepsPage(t: State, a: nat, cpu: nat, spurious: bool) {
    Enabled(t, a) && t.pcs[a].HoldsPage() ==> Step(t, a, cpu, spurious).pcs[a].HoldsPage()
  }

  lemma InitialInv(s: State)
    requires Start(s)
    ensures Inv(s, Holders(None, None))
  {
  }

  /**
   Every interleaving ends: it is no longer than the measure, and when no activation can move all
   are done, both locks are free, and each request was served exactly once, in the order accepted.
   */
  lemma EveryRequestServed(s: State, moves: seq<Move>)
    requires Start(s) && Admissible(s, moves)
    ensures |moves| <= Measure(s)
    ensures var t := Run(s, moves);
      (forall a :: !Enabled(t, a)) ==>
        && (forall a :: 0 <= a < |t.pcs| ==> t.pcs[a].Done?)
        && t.word == Word(0, 0) && t.queue == [] && t.served == t.arrived
        && multiset(t.served) == Gather(Unaccepted, s.pcs)
  {
    InitialInv(s);
    var h := RunKeeps(s, Holders(None, None), moves);
    var t := Run(s, moves);
    if forall a :: !Enabled(t, a) { AtRest(t, h); }
  }

  lemma AtRest(t: State, h: Holders)
    requires Inv(t, h) && forall a :: !Enabled(t, a)
    ensures forall a :: 0 <= a < |t.pcs| ==> t.pcs[a].Done?
    ensures t.word == Word(0, 0) && t.queue == [] && t.served == t.arrived
    ensures Gather(Unaccepted, t.pcs) == multiset{}
  {
    forall a | 0 <= a < |t.pcs| ensures t.pcs[a].Done? {
      if !t.pcs[a].Done? { var b := SomeoneCanStep(t, h, a); }
    }
    AllDone(t.pcs);
    assert h.page.None? && h.queue.None?;
  }

  lemma {:induction false} AllDone(pcs: seq<Pc>)
    requires forall a :: 0 <= a < |pcs| ==> pcs[a].Done?
    ensures Gather(Unaccepted, pcs) == multiset{}
  {
    if pcs != [] { AllDone(pcs[..|pcs| - 1]); }
  }

  // ----- what the rest of the node sees -----

  ghost predicate InOrder(s: State) {
    exists h :: Inv(s, h)
  }

  lemma StepInOrder(s: State, h: Holders, a: nat, cpu: nat, spurious: bool)
    requires Inv(s, h) && Enabled(s, a)
    ensures InOrder(Step(s, a, cpu, spurious))
  {
    StepKeepsInv(s, h, a, cpu, spurious);
  }

  /** The requests accepted and not yet served. */
  function Waiting(s: State): seq<Request> {
    if |s.served| <= |s.arrived| then s.arrived[|s.served|..] else []
  }

  /** A fault handler is between taking and giving up the page. */
  ghost predicate Faulting(s: State) {
    exists a :: 0 <= a < |s.pcs| && s.pcs[a].Fault?
  }

  /** The step accepts the activation's request. */
  predicate Accepts(s: State, a: nat, spurious: bool)
    requires a < |s.pcs|
  {
    s.pcs[a].Append? || (s.pcs[a].Try? && s.word.lock == 0 && !spurious)
  }

  /** The step serves a request. */
  predicate Serves(s: State, a: nat)
    requires a < |s.pcs|
  {
    s.pcs[a].Direct? || (s.pcs[a].DrainRun? && s.pcs[a].batch != [])
  }

  /** The request an activation is about to serve. */
  function AboutToServe(s: State, a: nat): Request
    requires a < |s.pcs| && Serves(s, a)
  {
    if s.pcs[a].Direct? then s.pcs[a].request else s.pcs[a].batch[0]
  }

  lemma AcceptJoins(s: State, h: Holders, a: nat, cpu: nat, spurious: bool)
    requires Inv(s, h) && Enabled(s, a) && Accepts(s, a, spurious)
    ensures Waiting(Step(s, a, cpu, spurious)) == Waiting(s) + [s.pcs[a].request]
  {
  }

  lemma ServeTakesFirst(s: State, h: Holders, a: nat, cpu: nat, spurious: bool)
    requires Inv(s, h) && Enabled(s, a) && Serves(s, a)
    ensures !Faulting(s) && Waiting(s) != [] && AboutToServe(s, a) == Waiting(s)[0]
    ensures Waiting(Step(s, a, cpu, spurious)) == Waiting(s)[1..]
  {
    assert s.pcs[a].HoldsPage();
    OnlyHolderFaults(s, h, a);
    ServedInOrder(s, h, a);
    var s' := Step(s, a, cpu, spurious);
    assert s'.served == s.served + [AboutToServe(s, a)] && s'.arrived == s.arrived;
  }

  lemma ServedInOrder(s: State, h: Holders, a: nat)
    requires Inv(s, h) && a < |s.pcs| && Serves(s, a)
    ensures Waiting(s) != [] && AboutToServe(s, a) == Waiting(s)[0] && |s.served| < |s.arrived|
  {
    assert h.page == Some(a);
    assert Pending(s.pcs, h) == s.pcs[a].InHand() && s.pcs[a].InHand()[0] == AboutToServe(s, a);
    assert s.arrived[|s.served|] == (Pending(s.pcs, h) + s.queue)[0];
  }

  lemma OthersQuiet(s: State, h: Holders, a: nat, cpu: nat, spurious: bool)
    requires Inv(s, h) && Enabled(s, a) && !Accepts(s, a, spurious) && !Serves(s, a)
    ensures Waiting(Step(s, a, cpu, spurious)) == Waiting(s)
  {
  }

  lemma OnlyHolderFaults(s: State, h: Holders, a: nat)
    requires Inv(s, h) && a < |s.pcs| && s.pcs[a].HoldsPage()
    ensures Faulting(s) <==> s.pcs[a].Fault?
  {
    forall b | 0 <= b < |s.pcs| && s.pcs[b].Fault? ensures b == a { assert s.pcs[b].HoldsPage(); }
  }

  lemma FreeMeansNoFault(s: State, h: Holders)
    requires Inv(s, h) && s.word.lock == 0
    ensures !Faulting(s)
  {
    forall a | 0 <= a < |s.pcs| ensures !s.pcs[a].Fault? { assert s.pcs[a].HoldsPage() <==> h.page == Some(a); }
  }

  /** A fault begins when the handler takes the lock and ends when it turns to the queue. */
  lemma FaultsBeginAndEnd(s: State, h: Holders, a: nat, cpu: nat, spurious: bool)
    requires Inv(s, h) && Enabled(s, a)
    ensures Faulting(Step(s, a, cpu, spurious)) <==> s.pcs[a].Spin? || (Faulting(s) && !s.pcs[a].Fault?)
  {
    var s' := Step(s, a, cpu, spurious);
    assert |s'.pcs| == |s.pcs| && forall b :: 0 <= b < |s.pcs| && b != a ==> s'.pcs[b] == s.pcs[b];
    assert s'.pcs[a].Fault? <==> s.pcs[a].Spin?;
    if s.pcs[a].Fault? {
      forall b | 0 <= b < |s'.pcs| ensures !s'.pcs[b].Fault? {
        assert s.pcs[b].Fault? ==> s.pcs[b].HoldsPage();
      }
    } else if b :| 0 <= b < |s.pcs| && s.pcs[b].Fault? {
      assert s'.pcs[b].Fault?;
    }
  }

  /**
   The lock byte names the processor that took the page, until someone takes the queue lock and writes
   1 over it; only the end of a drain clears it.
   */
  lemma LockByte(s: State, h: Holders, a: nat, cpu: nat, spurious: bool)
    requires Inv(s, h) && Enabled(s, a)
    ensures var s' := Step(s, a, cpu, spurious);
      s'.word.lock ==
        if !s.pcs[a].HoldsPage() && s'.pcs[a].HoldsPage() && !s'.pcs[a].HoldsQueue() then cpu + 1
        else if !s.pcs[a].HoldsQueue() && s'.pcs[a].HoldsQueue() then 1
        else if s.pcs[a].HoldsPage() && s'.pcs[a].Done? then 0
        else s.word.lock
  {
  }

  /** A new activation changes nothing for the others. */
  lemma SpawnKeepsInv(s: State, h: Holders, pc: Pc)
    requires Inv(s, h) && (pc.Try? || pc.Spin?)
    ensures Inv(s.(pcs := s.pcs + [pc]), h) && Waiting(s.(pcs := s.pcs + [pc])) == Waiting(s)
    ensures Faulting(s.(pcs := s.pcs + [pc])) <==> Faulting(s)
  {
    var pcs' := s.pcs + [pc];
    assert forall a :: 0 <= a < |s.pcs| ==> pcs'[a] == s.pcs[a];
    if a :| 0 <= a < |s.pcs| && s.pcs[a].Fault? { assert pcs'[a].Fault?; }
  }
}
