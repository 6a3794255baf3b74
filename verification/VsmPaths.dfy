/**
 The machine of VsmMachine can do what the system of VsmWaitQueue can: a message is accepted whether the
 page lock is free or held, a fault begins, and a node left to itself serves all it has accepted.
 */
module VsmPaths {
  import opened Wrappers
  import opened VsmHandlers
  import opened VsmProtocol
  import opened VsmWaitQueue
  import opened VsmMachine
  import PageLock

  /** The moves lead from one machine to the other. */
  ghost predicate Path(c: Machine, ms: seq<Move>, c': Machine) {
    Runs(c, ms) && Ending(c, ms) == Goes(c')
  }

  lemma Then(c: Machine, m: Move, ms: seq<Move>, c': Machine)
    requires c.WellFormed() && Allowed(c, m) && Do(c, m).Goes? && Path(Do(c, m).machine, ms, c')
    ensures Path(c, [m] + ms, c')
  {
    assert ([m] + ms)[1..] == ms && ([m] + ms)[0] == m;
  }

  /** The arrival `h` of a message can happen in the system, and node `i` is where. */
  ghost predicate Arrives(c: Machine, i: Node, h: Happening) {
    && c.WellFormed() && SystemOf(c).WellFormed() && Possible(SystemOf(c), h)
    && (h.FetchArrives? || h.ForwardArrives? || h.InvalidateArrives?)
    && i == if h.FetchArrives? then c.net.manager else h.node
  }

  lemma ArrivalIsCarried(c: Machine, i: Node, h: Happening)
    requires Arrives(c, i, h)
    ensures i < |c.locks| && Target(c.net, h) == i && Carried(c.net, h).Some?
    ensures h.ForwardArrives? ==> i != c.net.manager
  {
  }

  /** A new activation at node `i`. */
  lemma Starts(c: Machine, i: Node, pc: PageLock.Pc) returns (c': Machine)
    requires Safe(c) && i < |c.locks| && (pc.Try? || pc.Spin?)
    ensures Allowed(c, Spawn(i, pc)) && Do(c, Spawn(i, pc)) == Goes(c') && Safe(c') && SystemOf(c') == SystemOf(c)
    ensures c'.net == c.net
    ensures var l := c.locks[i]; c'.locks == c.locks[i := l.(pcs := l.pcs + [pc])]
  {
    MachineRefines(c, Spawn(i, pc));
    c' := Do(c, Spawn(i, pc)).machine;
  }

  /** A step the system does not see. */
  lemma Silent(c: Machine, i: Node, a: nat, cpu: nat, spurious: bool) returns (c': Machine)
    requires Safe(c) && i < |c.locks| && PageLock.Enabled(c.locks[i], a)
    requires !PageLock.Accepts(c.locks[i], a, spurious) && !PageLock.Serves(c.locks[i], a)
    requires !c.locks[i].pcs[a].Spin? && (c.locks[i].pcs[a].Fault? ==> c.net.wait[i].Idle?)
    ensures var m := Lock(i, a, cpu, spurious, Nothing);
      Allowed(c, m) && Do(c, m) == Goes(c') && Safe(c') && SystemOf(c') == SystemOf(c)
    ensures c' == c.(locks := c.locks[i := PageLock.Step(c.locks[i], a, cpu, spurious)])
  {
    var m := Lock(i, a, cpu, spurious, Nothing);
    MachineRefines(c, m);
    c' := Do(c, m).machine;
  }

  lemma Accept(c: Machine, i: Node, a: nat, cpu: nat, h: Happening) returns (c': Machine)
    requires Safe(c) && Arrives(c, i, h) && PageLock.Enabled(c.locks[i], a) && PageLock.Accepts(c.locks[i], a, false)
    requires Carried(c.net, h) == Some(c.locks[i].pcs[a].request)
    ensures var m := Lock(i, a, cpu, false, Message(h)); Allowed(c, m) && Do(c, m) == Goes(c') && Safe(c')
    ensures SystemOf(c).WellFormed() && Possible(SystemOf(c), h) && Happen(SystemOf(c), h) == Going(SystemOf(c'))
    ensures c' == Machine(Received(c.net, h), c.locks[i := PageLock.Step(c.locks[i], a, cpu, false)])
  {
    var m := Lock(i, a, cpu, false, Message(h));
    MachineRefines(c, m);
    c' := Do(c, m).machine;
  }

  /** The lock of node `i` is free: a request handler gets it at once and accepts its message. */
  lemma AcceptedWhenFree(c: Machine, i: Node, h: Happening, cpu: nat) returns (ms: seq<Move>, c': Machine)
    requires Safe(c) && Arrives(c, i, h) && c.locks[i].word.lock == 0
    ensures Path(c, ms, c') && Safe(c') && |ms| == 2
    ensures SystemOf(c).WellFormed() && Possible(SystemOf(c), h) && Happen(SystemOf(c), h) == Going(SystemOf(c'))
    ensures i < |c'.locks| && c'.locks[i].pcs == c.locks[i].pcs + [PageLock.Direct(Carried(c.net, h).value)]
  {
    var p, a := Carried(c.net, h).value, |c.locks[i].pcs|;
    var c1 := Starts(c, i, PageLock.Try(p));
    c' := Accept(c1, i, a, cpu, h);
    var m := Lock(i, a, cpu, false, Message(h));
    Then(c1, m, [], c');
    Then(c, Spawn(i, PageLock.Try(p)), [m] + [], c');
    ms := [Spawn(i, PageLock.Try(p))] + ([m] + []);
  }

  /** With the queue lock, a handler appends its message and, if it did not get the page lock too, ends. */
  lemma Appends(c: Machine, i: Node, a: nat, h: Happening) returns (ms: seq<Move>, c': Machine)
    requires Safe(c) && Arrives(c, i, h) && a < |c.locks[i].pcs|
    requires c.locks[i].pcs[a] == PageLock.Append(Carried(c.net, h).value, false)
    ensures Path(c, ms, c') && Safe(c') && |ms| == 2
    ensures SystemOf(c).WellFormed() && Possible(SystemOf(c), h) && Happen(SystemOf(c), h) == Going(SystemOf(c'))
    ensures i < |c'.locks| && c'.locks[i].pcs == c.locks[i].pcs[a := PageLock.Done] && c'.locks[i].word.wqlock == 0
    ensures c'.locks[i].queue == c.locks[i].queue + [Carried(c.net, h).value]
  {
    var quiet, take := Lock(i, a, 0, false, Nothing), Lock(i, a, 0, false, Message(h));
    var c1 := Accept(c, i, a, 0, h);
    c' := Silent(c1, i, a, 0, false);
    Then(c1, quiet, [], c');
    Then(c, take, [quiet] + [], c');
    ms := [take] + ([quiet] + []);
  }

  /** A handler that finds the page lock held turns to the queue lock. */
  lemma TurnsToQueue(c: Machine, i: Node, a: nat) returns (ms: seq<Move>, c': Machine)
    requires Safe(c) && i < |c.locks| && a < |c.locks[i].pcs| && c.locks[i].pcs[a].Try?
    requires c.locks[i].word.lock != 0 && c.locks[i].word.wqlock == 0
    ensures Path(c, ms, c') && Safe(c') && |ms| == 2 && SystemOf(c') == SystemOf(c) && c'.net == c.net
    ensures i < |c'.locks| && c'.locks[i].queue == c.locks[i].queue
    ensures c'.locks[i].pcs == c.locks[i].pcs[a := PageLock.Append(c.locks[i].pcs[a].request, false)]
  {
    var quiet := Lock(i, a, 0, false, Nothing);
    var c1 := Silent(c, i, a, 0, false);
    c' := Silent(c1, i, a, 0, false);
    Then(c1, quiet, [], c');
    Then(c, quiet, [quiet] + [], c');
    ms := [quiet] + ([quiet] + []);
  }

  lemma {:induction false} PathOn(c: Machine, ms: seq<Move>, d: Machine, ns: seq<Move>, e: Machine)
    requires Path(c, ms, d) && Path(d, ns, e)
    ensures Path(c, ms + ns, e)
    decreases |ms|
  {
    if ms == [] {
      assert ms + ns == ns;
    } else {
      var m, rest := ms[0], ms[1..];
      PathOn(Do(c, m).machine, rest, d, ns, e);
      Then(c, m, rest + ns, e);
      assert [m] + (rest + ns) == ms + ns;
    }
  }

  /** The lock is held: the handler queues its message and ends, whoever holds the lock and whatever for. */
  lemma AcceptedWhenHeld(c: Machine, i: Node, h: Happening) returns (ms: seq<Move>, c': Machine)
    requires Safe(c) && Arrives(c, i, h) && c.locks[i].word.lock != 0 && c.locks[i].word.wqlock == 0
    ensures Path(c, ms, c') && Safe(c') && |ms| == 5
    ensures SystemOf(c).WellFormed() && Possible(SystemOf(c), h) && Happen(SystemOf(c), h) == Going(SystemOf(c'))
    ensures i < |c'.locks| && c'.locks[i].pcs == c.locks[i].pcs + [PageLock.Done] && c'.locks[i].word.wqlock == 0
    ensures c'.locks[i].queue == c.locks[i].queue + [Carried(c.net, h).value]
  {
    var p, a := Carried(c.net, h).value, |c.locks[i].pcs|;
    var c1 := Starts(c, i, PageLock.Try(p));
    var turn, c2 := TurnsToQueue(c1, i, a);
    var take;
    take, c' := Appends(c2, i, a, h);
    PathOn(c1, turn, c2, take, c');
    Then(c, Spawn(i, PageLock.Try(p)), turn + take, c');
    ms := [Spawn(i, PageLock.Try(p))] + (turn + take);
  }

  /** A fault at a node whose lock is free begins. */
  lemma FaultBegins(c: Machine, i: Node, e: Event, cpu: nat) returns (ms: seq<Move>, c': Machine)
    requires Safe(c) && i < |c.locks| && e.node == i && (e.ReadFault? || e.WriteFault?) && c.locks[i].word.lock == 0
    ensures Path(c, ms, c') && Safe(c') && |ms| == 2
    ensures var d, h := SystemOf(c), AtNode(e); d.WellFormed() && Possible(d, h) && Happen(d, h) == Going(SystemOf(c'))
    ensures i < |c'.locks| && c'.locks[i].pcs == c.locks[i].pcs + [PageLock.Fault]
  {
    var a := |c.locks[i].pcs|;
    var c1 := Starts(c, i, PageLock.Spin);
    var m := Lock(i, a, cpu, false, Trap(e));
    MachineRefines(c1, m);
    c' := Do(c1, m).machine;
    Then(c1, m, [], c');
    Then(c, Spawn(i, PageLock.Spin), [m] + [], c');
    ms := [Spawn(i, PageLock.Spin)] + ([m] + []);
  }

  /** A guest access, or the delivery of a reply, happens whatever the locks are doing. */
  lemma HappensElsewhere(c: Machine, e: Event) returns (c': Machine)
    requires Safe(c) && Enabled(c.net, e) && (e.GuestRead? || e.GuestWrite? || e.DeliverReply?)
    ensures Path(c, [Elsewhere(e)], c') && Safe(c') && c'.locks == c.locks
    ensures SystemOf(c).WellFormed() && Possible(SystemOf(c), AtNode(e))
    ensures Happen(SystemOf(c), AtNode(e)) == Going(SystemOf(c'))
  {
    MachineRefines(c, Elsewhere(e));
    c' := Do(c, Elsewhere(e)).machine;
    Then(c, Elsewhere(e), [], c');
    assert [Elsewhere(e)] + [] == [Elsewhere(e)];
  }

  // ----- a node left to itself -----

  /** Whoever has the page can go on: nobody is in the queue, and no handler at this node waits for a reply. */
  ghost predicate GoesOn(c: Machine, i: Node, a: nat) {
    && Safe(c) && i < |c.locks| && a < |c.locks[i].pcs| && c.net.wait[i].Idle?
    && (c.locks[i].pcs[a].HoldsQueue() || c.locks[i].word.wqlock == 0)
  }

  /** Only activation `a` of node `i` has moved. */
  ghost predicate OnlyMoved(c: Machine, c': Machine, i: Node, a: nat) {
    && |c'.locks| == |c.locks| && i < |c.locks| && a < |c.locks[i].pcs|
    && (forall k :: 0 <= k < |c.locks| && k != i ==> c'.locks[k] == c.locks[k])
    && c'.locks[i].arrived == c.locks[i].arrived
    && |c'.locks[i].pcs| == |c.locks[i].pcs| && c'.locks[i].pcs == c.locks[i].pcs[a := c'.locks[i].pcs[a]]
  }

  lemma ServeOne(c: Machine, i: Node, a: nat) returns (c': Machine)
    requires GoesOn(c, i, a) && PageLock.Serves(c.locks[i], a)
    ensures var m := Lock(i, a, 0, false, Nothing); Allowed(c, m) && Do(c, m) == Goes(c')
    ensures GoesOn(c', i, a) && OnlyMoved(c, c', i, a)
    ensures c'.locks[i] == PageLock.Step(c.locks[i], a, 0, false)
    ensures SystemOf(c).WellFormed() && Possible(SystemOf(c), Process(i))
    ensures Happen(SystemOf(c), Process(i)) == Going(SystemOf(c'))
  {
    var m := Lock(i, a, 0, false, Nothing);
    MachineRefines(c, m);
    c' := Do(c, m).machine;
    ProcWait(c.net, i, PageLock.AboutToServe(c.locks[i], a));
  }

  lemma SilentOne(c: Machine, i: Node, a: nat) returns (c': Machine)
    requires GoesOn(c, i, a) && PageLock.Enabled(c.locks[i], a) && !PageLock.Serves(c.locks[i], a)
    requires var pc := c.locks[i].pcs[a]; pc.Fault? || pc.DrainLock? || pc.DrainCheck? || pc.DrainTaken? || pc.DrainRun?
    ensures var m := Lock(i, a, 0, false, Nothing); Allowed(c, m) && Do(c, m) == Goes(c')
    ensures GoesOn(c', i, a) && OnlyMoved(c, c', i, a) && c'.net == c.net
    ensures c'.locks[i] == PageLock.Step(c.locks[i], a, 0, false)
  {
    c' := Silent(c, i, a, 0, false);
  }

  /** With the lock free, everything accepted has been served. */
  lemma FreeMeansServed(l: PageLock.State)
    requires PageLock.InOrder(l) && l.word.lock == 0
    ensures l.queue == [] && PageLock.Waiting(l) == []
  {
    var h :| PageLock.Inv(l, h);
  }

  /** From serving or handling a fault to the end of draining. */
  predicate Draining(pc: PageLock.Pc) {
    pc.Direct? || pc.Fault? || pc.DrainLock? || pc.DrainCheck? || pc.DrainTaken? || pc.DrainRun?
  }

  /** How far activation `a` is from giving up the page. */
  function Distance(l: PageLock.State, a: nat): nat
    requires a < |l.pcs|
  {
    PageLock.Weight(l.pcs[a]) + 5 * |l.queue|
  }

  /** Its next step takes it nearer; at the end both locks are free. */
  lemma NearerTheEnd(l: PageLock.State, a: nat)
    requires a < |l.pcs| && Draining(l.pcs[a]) && (l.pcs[a].HoldsQueue() || l.word.wqlock == 0)
    ensures PageLock.Enabled(l, a)
    ensures var l' := PageLock.Step(l, a, 0, false);
      && Distance(l', a) < Distance(l, a)
      && if l'.pcs[a].Done? then l'.word == PageLock.Word(0, 0) else Draining(l'.pcs[a])
  {
  }

  lemma DrainStep(c: Machine, i: Node, a: nat) returns (c': Machine)
    requires GoesOn(c, i, a) && Draining(c.locks[i].pcs[a])
    ensures var m := Lock(i, a, 0, false, Nothing); Allowed(c, m) && Do(c, m) == Goes(c')
    ensures GoesOn(c', i, a) && OnlyMoved(c, c', i, a) && Distance(c'.locks[i], a) < Distance(c.locks[i], a)
    ensures if c'.locks[i].pcs[a].Done? then Finished(c', i, a) else Draining(c'.locks[i].pcs[a])
  {
    NearerTheEnd(c.locks[i], a);
    if PageLock.Serves(c.locks[i], a) {
      c' := ServeOne(c, i, a);
    } else {
      c' := SilentOne(c, i, a);
    }
    assert NodeOk(c', i);
    if c'.locks[i].pcs[a].Done? { FreeMeansServed(c'.locks[i]); }
  }

  /** Activation `a` has ended, both locks are free and every request accepted at the node has been served. */
  ghost predicate Finished(c: Machine, i: Node, a: nat) {
    && i < |c.locks| && a < |c.locks[i].pcs| && c.locks[i].pcs[a].Done? && c.locks[i].word == PageLock.Word(0, 0)
    && c.locks[i].queue == [] && PageLock.Waiting(c.locks[i]) == []
  }

  lemma MovedTwice(c: Machine, d: Machine, e: Machine, i: Node, a: nat)
    requires OnlyMoved(c, d, i, a) && OnlyMoved(d, e, i, a)
    ensures OnlyMoved(c, e, i, a)
  {
  }

  /** The activation that has the page, moving alone, serves every request accepted and gives up both locks. */
  lemma {:induction false} Drains(c: Machine, i: Node, a: nat) returns (ms: seq<Move>, c': Machine)
    requires GoesOn(c, i, a) && Draining(c.locks[i].pcs[a])
    ensures Path(c, ms, c') && Safe(c') && OnlyMoved(c, c', i, a) && Finished(c', i, a)
    decreases Distance(c.locks[i], a)
  {
    var c1 := DrainStep(c, i, a);
    var rest;
    if c1.locks[i].pcs[a].Done? {
      rest, c' := [], c1;
    } else {
      rest, c' := Drains(c1, i, a);
      MovedTwice(c, c1, c', i, a);
    }
    Then(c, Lock(i, a, 0, false, Nothing), rest, c');
    ms := [Lock(i, a, 0, false, Nothing)] + rest;
  }
}
