/**
 The system with wait queues drains too: arrivals only bring messages nearer, processing is a step of
 the protocol, and until nothing is outstanding something can happen.
 */
module VsmDrain {
  import opened Sums
  import opened VsmHandlers
  import opened VsmProtocol
  import opened VsmInvariant
  import opened VsmRuns
  import opened VsmLiveness
  import opened VsmWaitQueue

  /** Messages still in the network. */
  function Travelling(s: State): nat {
    Total(Requests, s.up) + Total(Requests, s.down) + Total(Itself, s.invalidates)
  }

  /** What happens without a new access by a guest. */
  predicate Unprompted(h: Happening) {
    h.AtNode? ==> h.event.DeliverReply?
  }

  lemma {:induction false} TotalMono<T>(f: T -> nat, xs: seq<T>, ys: seq<T>)
    requires |xs| == |ys| && forall i :: 0 <= i < |xs| ==> f(xs[i]) <= f(ys[i])
    ensures Total(f, xs) <= Total(f, ys)
  {
    if xs != [] {
      var n := |xs| - 1;
      TotalMono(f, xs[..n], ys[..n]);
    }
  }

  /** A message in the network weighs at least one. */
  lemma TravellingWeighs(c: System)
    requires c.WellFormed()
    ensures Travelling(c.net) <= Measure(Abstract(c))
  {
    var a := Abstract(c);
    TotalMono(Requests, c.net.up, a.up);
    TotalMono(Requests, c.net.down, a.down);
    TotalMono(Itself, c.net.invalidates, a.invalidates);
  }

  /** An arrival leaves one message less in the network. */
  lemma ArrivalLess(c: System, h: Happening)
    requires c.WellFormed() && Possible(c, h) && (h.FetchArrives? || h.ForwardArrives? || h.InvalidateArrives?)
    ensures Happen(c, h).Going? && Travelling(Happen(c, h).system.net) < Travelling(c.net)
  {
    var s, i := c.net, h.node;
    match h
    case FetchArrives(_) => TotalUpdate(Requests, s.up, i, s.up[i][1..]);
    case ForwardArrives(_) => TotalUpdate(Requests, s.down, i, s.down[i][1..]);
    case InvalidateArrives(_) => TotalUpdate(Itself, s.invalidates, i, s.invalidates[i] - 1);
  }

  lemma StepLess(c: System, h: Happening, e: Event)
    requires Sound(c) && Possible(c, h) && Enabled(Abstract(c), e) && Internal(e)
    requires Happen(c, h).Going? && Happen(c, h).system.WellFormed()
    requires Step(Abstract(c), e) == Running(Abstract(Happen(c, h).system))
    ensures Measure(Abstract(Happen(c, h).system)) < Measure(Abstract(c))
  {
    var l := ReachableInv(Abstract(c));
    InternalStepsDecrease(Abstract(c), l, e);
  }

  /** Everything that happens by itself brings the system closer to rest. */
  lemma HappeningsDecrease(c: System, h: Happening)
    requires Sound(c) && Possible(c, h) && Unprompted(h)
    ensures Happen(c, h).Going? && Sound(Happen(c, h).system)
    ensures var c' := Happen(c, h).system;
      || Measure(Abstract(c')) < Measure(Abstract(c))
      || (Abstract(c') == Abstract(c) && Travelling(c'.net) < Travelling(c.net))
  {
    StepRefines(c, h);
    match h
    case FetchArrives(i) =>
      SenderIsNamed(c, i);
      FetchArrivalIsInvisible(c, i);
      ArrivalLess(c, h);
    case ForwardArrives(i) =>
      ForwardArrivalIsInvisible(c, i);
      ArrivalLess(c, h);
    case InvalidateArrives(i) =>
      InvalidateArrivalIsInvisible(c, i);
      ArrivalLess(c, h);
    case AtNode(e) =>
      LocalIsStep(c, e);
      StepLess(c, h, e);
    case Process(i) =>
      assert c.queue[i][0] in c.queue[i];
      if c.queue[i][0].FetchProc? { ProcessFetchIsStep(c, i); } else { ProcessInvalidateIsStep(c, i); }
      StepLess(c, h, EventOf(c, i));
  }

  // ----- something can happen -----

  lemma NothingForwardedToManager(s: State, l: Ledger)
    requires Inv(s, l)
    ensures s.down[s.manager] == []
  {
  }

  lemma SomethingPossible(c: System) returns (h: Happening)
    requires Sound(c) && !Quiescent(Abstract(c))
    ensures Unprompted(h) && Possible(c, h)
  {
    var a := Abstract(c);
    var l := ReachableInv(a);
    var e := SomeStepEnabled(a, l);
    NothingForwardedToManager(a, l);
    var i := e.node;
    match e
    case DeliverReply(_, _) => h := AtNode(e);
    case ServeAtManager(_) =>
      assert a.up[i] == UpOf(c.net, c.queue, i);
      h := if c.net.up[i] != [] then FetchArrives(i) else Process(c.net.manager);
    case ServeForwarded(_) =>
      assert a.down[i] == DownOf(c.net, c.queue, i);
      h := if c.net.down[i] != [] then ForwardArrives(i) else Process(i);
    case ProcessInvalidate(_) =>
      assert a.invalidates[i] == InvalidatesOf(c.net, c.queue, i);
      h := if c.net.invalidates[i] > 0 then InvalidateArrives(i) else Process(i);
  }

  /** At rest, the wait queues are empty as well. */
  lemma QueuedIsOutstanding(c: System, i: Node)
    requires Sound(c) && i < |c.queue| && c.queue[i] != []
    ensures !Quiescent(Abstract(c))
  {
    var a, p := Abstract(c), c.queue[i][0];
    assert p in c.queue[i];
    var k := if p.FetchProc? && i == c.net.manager then p.request.from else i;
    assert a.up[k] == UpOf(c.net, c.queue, k) && a.down[k] == DownOf(c.net, c.queue, k);
    assert a.invalidates[k] == InvalidatesOf(c.net, c.queue, k);
    assert a.up[k] != [] || a.down[k] != [] || a.invalidates[k] > 0;
  }

  // ----- runs -----

  /** A bound on what can still happen: arrivals between two protocol steps are no more than the measure. */
  function Rank(m: nat, t: nat): nat {
    (m + 1) * (m + 1) + t
  }

  lemma RankLess(m: nat, t: nat, m': nat, t': nat)
    requires t' <= m' && (m' < m || (m' == m && t' < t))
    ensures Rank(m', t') < Rank(m, t)
  {
    if m' < m {
      assert (m + 1) * (m + 1) >= (m' + 2) * (m' + 2) == (m' + 1) * (m' + 1) + 2 * m' + 3;
    }
  }

  lemma {:induction false} SystemRunsAreBounded(c: System, hs: seq<Happening>)
    requires Sound(c) && Feasible(c, hs) && forall h :: h in hs ==> Unprompted(h)
    ensures Play(c, hs).Going? && Sound(Play(c, hs).system)
    ensures |hs| <= Rank(Measure(Abstract(c)), Travelling(c.net))
    decreases |hs|
  {
    if hs != [] {
      HappeningsDecrease(c, hs[0]);
      var c' := Happen(c, hs[0]).system;
      SystemRunsAreBounded(c', hs[1..]);
      TravellingWeighs(c');
      RankLess(Measure(Abstract(c)), Travelling(c.net), Measure(Abstract(c')), Travelling(c'.net));
    }
  }

  /**
   From any state a run with wait queues reaches, whatever happens by itself comes to an end, and
   where it cannot go on nothing is outstanding: no request waits in any queue, and no node waits.
   */
  lemma EverySystemRunDrains(c: System, hs: seq<Happening>)
    requires Sound(c) && Feasible(c, hs) && forall h :: h in hs ==> Unprompted(h)
    ensures |hs| <= Rank(Measure(Abstract(c)), Travelling(c.net)) && Play(c, hs).Going?
    ensures var c' := Play(c, hs).system;
      && c'.WellFormed()
      && ((forall h :: Unprompted(h) ==> !Possible(c', h)) ==>
            Quiescent(Abstract(c')) && forall i :: 0 <= i < |c'.queue| ==> c'.queue[i] == [])
  {
    SystemRunsAreBounded(c, hs);
    var c' := Play(c, hs).system;
    if !Quiescent(Abstract(c')) {
      var h := SomethingPossible(c');
    } else {
      forall i | 0 <= i < |c'.queue| ensures c'.queue[i] == [] {
        if c'.queue[i] != [] { QueuedIsOutstanding(c', i); }
      }
    }
  }
}
