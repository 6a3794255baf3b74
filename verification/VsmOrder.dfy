/**
 Which orders of the requests the manager has sent to one node the protocol can stand: reads may
 change places freely, and a write must be the last request its node serves.
 */
module VsmOrder {
  import opened Wrappers
  import opened Sums
  import opened VsmHandlers
  import opened VsmProtocol
  import opened VsmInvariant
  import opened VsmShapes
  import opened VsmSteps
  import opened VsmSafety
  import opened VsmRuns
  import opened VsmLiveness

  /** No request is behind a write. */
  ghost predicate ReadsFirst(box: seq<Request>) {
    forall p :: 0 <= p < |box| - 1 ==> box[p].kind == Read
  }

  /** The same requests in every box, in another order. */
  ghost predicate Shuffled(down: Boxes, down': Boxes) {
    |down'| == |down| && forall j :: 0 <= j < |down| ==> SameRequests(down, down', j)
  }

  ghost predicate SameRequests(down: Boxes, down': Boxes, j: Node) {
    j < |down| && j < |down'| && multiset(down'[j]) == multiset(down[j])
  }

  ghost predicate AllReadsFirst(down: Boxes) {
    forall j :: 0 <= j < |down| ==> ReadsFirst(down[j])
  }

  // ----- permutations -----

  lemma SameMembers(a: seq<Request>, b: seq<Request>)
    requires multiset(a) == multiset(b)
    ensures |a| == |b| && forall r :: r in a <==> r in b
  {
    assert |multiset(a)| == |a| && |multiset(b)| == |b|;
    forall r ensures r in a <==> r in b {
      assert r in multiset(a) <==> r in multiset(b);
    }
  }

  lemma {:induction false} OnceEach(box: seq<Request>, r: Request)
    requires Distinct(box)
    ensures multiset(box)[r] <= 1
  {
    if box != [] {
      var n := |box| - 1;
      assert box == box[..n] + [box[n]];
      OnceEach(box[..n], r);
      if r == box[n] { assert r !in box[..n]; }
    }
  }

  lemma Twice(box: seq<Request>, p: nat, q: nat)
    requires p < q < |box| && box[p] == box[q]
    ensures multiset(box)[box[p]] >= 2
  {
    var front := box[..q];
    assert box == front + [box[q]] + box[q + 1..];
    assert front[p] in multiset(front);
  }

  /** The boxes of a shuffled state hold each request once, at the same nodes. */
  lemma ShuffledBoxes(wait: seq<Wait>, place: seq<Place>, down: Boxes, down': Boxes)
    requires Located(wait, place, down) && DownBoxes(wait, place, down) && Shuffled(down, down')
    ensures Located(wait, place, down') && DownBoxes(wait, place, down')
  {
    forall i | 0 <= i < |wait| ensures IsAt(i, wait[i], place[i], down') {
      assert IsAt(i, wait[i], place[i], down);
      if place[i].Forwarded? && wait[i].Waiting? {
        assert SameRequests(down, down', place[i].at);
        SameMembers(down[place[i].at], down'[place[i].at]);
      }
    }
    forall j, p | 0 <= j < |down'| && 0 <= p < |down'[j]| ensures Entry(down'[j][p], j, wait, place) {
      EntryKept(wait, place, down, down', j, p);
    }
    forall j | 0 <= j < |down'| ensures Distinct(down'[j]) {
      forall p, q | 0 <= p < q < |down'[j]| ensures down'[j][p].from != down'[j][q].from {
        EntryKept(wait, place, down, down', j, p);
        EntryKept(wait, place, down, down', j, q);
        NotTwice(down, down', j, p, q);
      }
    }
  }

  lemma EntryKept(wait: seq<Wait>, place: seq<Place>, down: Boxes, down': Boxes, j: Node, p: nat)
    requires DownBoxes(wait, place, down) && Shuffled(down, down') && j < |down'| && p < |down'[j]|
    ensures Entry(down'[j][p], j, wait, place)
  {
    assert SameRequests(down, down', j);
    SameMembers(down[j], down'[j]);
    assert down'[j][p] in down'[j];
    var q :| 0 <= q < |down[j]| && down[j][q] == down'[j][p];
    assert Entry(down[j][q], j, wait, place);
  }

  lemma NotTwice(down: Boxes, down': Boxes, j: Node, p: nat, q: nat)
    requires Shuffled(down, down') && j < |down| && Distinct(down[j]) && p < q < |down'[j]|
    ensures down'[j][p] != down'[j][q]
  {
    assert SameRequests(down, down', j);
    OnceEach(down[j], down'[j][p]);
    if down'[j][p] == down'[j][q] { Twice(down'[j], p, q); }
  }

  lemma ShuffledLinks(chain: seq<Node>, down: Boxes, down': Boxes)
    requires Links(chain, down) && Shuffled(down, down') && AllReadsFirst(down')
    ensures Links(chain, down')
  {
    forall k | 0 <= k < |chain| - 1 ensures HandsOn(chain, down', k) {
      assert HandsOn(chain, down, k) && SameRequests(down, down', chain[k]);
      WriteIsLast(down[chain[k]], down'[chain[k]], chain[k + 1]);
    }
    assert SameRequests(down, down', Last(chain));
    SameMembers(down[Last(chain)], down'[Last(chain)]);
    forall p | 0 <= p < |down'[Last(chain)]| ensures down'[Last(chain)][p].kind == Read {
      assert down'[Last(chain)][p] in down[Last(chain)];
    }
    forall j | 0 <= j < |down'| && j !in chain ensures down'[j] == [] {
      assert SameRequests(down, down', j);
      SameMembers(down[j], down'[j]);
    }
  }

  lemma WriteIsLast(box: seq<Request>, box': seq<Request>, next: Node)
    requires HandsTo(box, next) && multiset(box') == multiset(box) && ReadsFirst(box')
    ensures HandsTo(box', next)
  {
    SameMembers(box, box');
    assert box[|box| - 1] in box';
    var p :| 0 <= p < |box'| && box'[p] == Request(Write, next);
    assert p == |box'| - 1;
  }

  /** Shuffling that leaves each write last keeps the invariant. */
  lemma ShuffledInv(s: State, l: Ledger, down': Boxes)
    requires Inv(s, l) && Shuffled(s.down, down') && AllReadsFirst(down')
    ensures Inv(s.(down := down'), l)
  {
    ShuffledBoxes(s.wait, l.place, s.down, down');
    ShuffledLinks(l.chain, s.down, down');
    assert SameRequests(s.down, down', s.manager);
    SameMembers(s.down[s.manager], down'[s.manager]);
  }

  lemma ReadsFirstAlready(chain: seq<Node>, down: Boxes)
    requires Links(chain, down)
    ensures AllReadsFirst(down)
  {
    forall j | 0 <= j < |down| ensures ReadsFirst(down[j]) {
      if j in chain {
        var k :| 0 <= k < |chain| && chain[k] == j;
        if k < |chain| - 1 { assert HandsOn(chain, down, k); }
      }
    }
  }

  // ----- serving one box -----

  function Again(e: Event, n: nat): (r: seq<Event>)
    ensures |r| == n
  {
    if n == 0 then [] else [e] + Again(e, n - 1)
  }

  lemma ServeAsOwner(t: State, h: Node)
    requires t.WellFormed() && h < |t.pte| && h != t.manager && t.wait[h].Idle? && t.down[h] != [] && t.pte[h].Owns()
    ensures Step(t, ServeForwarded(h)).Running?
    ensures var u := Step(t, ServeForwarded(h)).state;
      && u.WellFormed() && u.manager == t.manager && |u.pte| == |t.pte| && u.wait[h].Idle?
      && u.down[h] == t.down[h][1..] && u.pte[h] == Retained(t.pte[h], t.down[h][0])
  {
  }

  lemma ServeAsStranger(t: State, h: Node)
    requires t.WellFormed() && h < |t.pte| && h != t.manager && t.wait[h].Idle? && t.down[h] != [] && !t.pte[h].Owns()
    ensures Step(t, ServeForwarded(h)) == Panicked(NotOwner)
  {
  }

  /** An owner that serves its whole box gets through it exactly when no request is behind a write. */
  lemma {:induction false} ServeBox(t: State, h: Node)
    requires t.WellFormed() && h < |t.pte| && h != t.manager && t.wait[h].Idle? && (t.down[h] != [] ==> t.pte[h].Owns())
    ensures var events := Again(ServeForwarded(h), |t.down[h]|);
      Admissible(t, events) && (Execute(t, events).Running? <==> ReadsFirst(t.down[h]))
    decreases |t.down[h]|
  {
    var e, box := ServeForwarded(h), t.down[h];
    if box != [] {
      ServeAsOwner(t, h);
      var u := Step(t, e).state;
      assert Again(e, |box|)[1..] == Again(e, |box| - 1);
      if box[0].kind == Read {
        ServeBox(u, h);
        ReadsFirstTail(box);
      } else if |box| > 1 {
        ServeAsStranger(u, h);
        assert Again(e, |box| - 1)[0] == e;
      } else {
        assert Again(e, 0) == [];
      }
    }
  }

  lemma ReadsFirstTail(box: seq<Request>)
    requires box != [] && box[0].kind == Read
    ensures ReadsFirst(box) <==> ReadsFirst(box[1..])
  {
    if ReadsFirst(box[1..]) {
      forall p | 0 <= p < |box| - 1 ensures box[p].kind == Read {
        if p > 0 { assert box[p] == box[1..][p - 1]; }
      }
    }
  }

  // ----- the exact condition -----

  /**
   In a reachable state, an idle node gets through its box in a given order exactly when no request is
   behind a write.
   */
  lemma OrderThatMatters(s: State, h: Node, box: seq<Request>)
    requires Reachable(s) && s.WellFormed() && h < |s.pte| && s.wait[h].Idle? && s.down[h] != []
    requires multiset(box) == multiset(s.down[h])
    ensures var t, events := s.(down := s.down[h := box]), Again(ServeForwarded(h), |box|);
      Admissible(t, events) && (Execute(t, events).Running? <==> ReadsFirst(box))
  {
    var l := ReachableInv(s);
    Server(s, l, h);
    ServeBox(s.(down := s.down[h := box]), h);
  }

  /** The head of the chain takes the ownership on its way to it; its box, and all others, stay. */
  lemma HeadReceives(s: State, l: Ledger, down': Boxes) returns (e: Event, s': State, l': Ledger)
    requires Inv(s, l) && Shuffled(s.down, down') && s.wait[l.chain[0]].Waiting?
    ensures Enabled(s, e) && Internal(e) && Step(s, e) == Running(s') && Inv(s', l') && s'.down == s.down
    ensures Enabled(s.(down := down'), e) && Step(s.(down := down'), e) == Running(s'.(down := down'))
  {
    var h := l.chain[0];
    assert ReplyMatches(s.wait[h], l.place[h], s.replies[h]);
    assert Entitled(true, s.pte[h], s.wait[h], l.place[h]);
    e := DeliverReply(h, None);
    l' := StepKeepsInv(s, l, e);
    s' := Step(s, e).state;
    ReceiveWriteShape(s, e);
    ReceiveWriteShape(s.(down := down'), e);
  }

  /** The head of the chain serves the first request of its box, in whatever order the other boxes are. */
  lemma HeadServes(s: State, l: Ledger, down': Boxes) returns (e: Event, s': State, l': Ledger)
    requires Inv(s, l) && Shuffled(s.down, down') && s.wait[l.chain[0]].Idle?
    requires var h := l.chain[0]; down'[h] == s.down[h] != []
    ensures e == ServeForwarded(l.chain[0]) && Enabled(s, e) && Step(s, e) == Running(s') && Inv(s', l')
    ensures var h := l.chain[0]; var rest := down'[h := down'[h][1..]];
      && Shuffled(s'.down, rest) && Enabled(s.(down := down'), e)
      && Step(s.(down := down'), e) == Running(s'.(down := rest))
  {
    var h := l.chain[0];
    e := ServeForwarded(h);
    Server(s, l, h);
    l' := StepKeepsInv(s, l, e);
    s' := Step(s, e).state;
    AnswerForwardedShape(s, e);
    AnswerForwardedShape(s.(down := down'), e);
    var rest := down'[h := down'[h][1..]];
    forall j | 0 <= j < |s.down| ensures SameRequests(s'.down, rest, j) {
      assert SameRequests(s.down, down', j);
    }
  }

  /** Putting the requests of one node in another order changes no count. */
  lemma ShuffledMeasure(s: State, h: Node, box: seq<Request>)
    requires h < |s.down| && |box| == |s.down[h]|
    ensures Measure(s.(down := s.down[h := box])) == Measure(s)
  {
    TotalUpdate(Requests, s.down, h, box);
  }

  /** With an empty box at the head of the chain, every box is empty. */
  lemma OnlyHeadHasRequests(chain: seq<Node>, down: Boxes, down': Boxes)
    requires Links(chain, down) && Shuffled(down, down') && down[chain[0]] == []
    ensures AllReadsFirst(down')
  {
    assert |chain| > 1 ==> HandsOn(chain, down, 0);
    forall j | 0 <= j < |down'| ensures ReadsFirst(down'[j]) {
      assert SameRequests(down, down', j);
      if j in chain { assert j == chain[0]; }
      SameMembers(down[j], down'[j]);
    }
  }

  lemma OneShuffled(s: State, l: Ledger, down': Boxes, h: Node)
    requires Inv(s, l) && Shuffled(s.down, down') && h < |s.down| && ReadsFirst(down'[h])
    ensures var s1 := s.(down := s.down[h := down'[h]]);
      Inv(s1, l) && Shuffled(s1.down, down') && Measure(s1) == Measure(s)
  {
    var down1 := s.down[h := down'[h]];
    assert SameRequests(s.down, down', h);
    SameMembers(s.down[h], down'[h]);
    ReadsFirstAlready(l.chain, s.down);
    forall j | 0 <= j < |down1| ensures SameRequests(s.down, down1, j) && SameRequests(down1, down', j) {
      assert SameRequests(s.down, down', j);
    }
    ShuffledInv(s, l, down1);
    ShuffledMeasure(s, h, down'[h]);
  }

  /** If some box has a request behind a write, a run panics: ownership travels down the chain until it gets there. */
  lemma {:induction false} BadOrderPanics(s: State, l: Ledger, down': Boxes) returns (events: seq<Event>)
    requires Inv(s, l) && Shuffled(s.down, down') && !AllReadsFirst(down')
    ensures Admissible(s.(down := down'), events) && Execute(s.(down := down'), events).Panicked?
    decreases Measure(s)
  {
    var h, t := l.chain[0], s.(down := down');
    if s.wait[h].Waiting? {
      var e, s', l' := HeadReceives(s, l, down');
      InternalStepsDecrease(s, l, e);
      var rest := BadOrderPanics(s', l', down');
      events := [e] + rest;
      assert events[1..] == rest;
    } else if !ReadsFirst(down'[h]) {
      assert SameRequests(s.down, down', h);
      SameMembers(s.down[h], down'[h]);
      Server(s, l, h);
      ServeBox(t, h);
      events := Again(ServeForwarded(h), |down'[h]|);
    } else {
      var e, s', l', down2 := ServeInOrder(s, l, down');
      var rest := BadOrderPanics(s', l', down2);
      events := [e] + rest;
      assert events[1..] == rest;
    }
  }

  /** The head serves one request of a box in good order; a bad one remains elsewhere. */
  lemma ServeInOrder(s: State, l: Ledger, down': Boxes) returns (e: Event, s': State, l': Ledger, down2: Boxes)
    requires Inv(s, l) && Shuffled(s.down, down') && !AllReadsFirst(down')
    requires s.wait[l.chain[0]].Idle? && ReadsFirst(down'[l.chain[0]])
    ensures Enabled(s.(down := down'), e) && Step(s.(down := down'), e) == Running(s'.(down := down2))
    ensures Inv(s', l') && Shuffled(s'.down, down2) && !AllReadsFirst(down2) && Measure(s') < Measure(s)
  {
    var h := l.chain[0];
    OneShuffled(s, l, down', h);
    var s1 := s.(down := s.down[h := down'[h]]);
    if down'[h] == [] { OnlyHeadHasRequests(l.chain, s1.down, down'); }
    e, s', l' := HeadServes(s1, l, down');
    InternalStepsDecrease(s1, l, e);
    down2 := down'[h := down'[h][1..]];
    StillBad(down', h);
    assert s1.(down := down') == s.(down := down');
  }

  lemma StillBad(down: Boxes, h: Node)
    requires h < |down| && down[h] != [] && ReadsFirst(down[h]) && !AllReadsFirst(down)
    ensures !AllReadsFirst(down[h := down[h][1..]])
  {
    var j :| 0 <= j < |down| && !ReadsFirst(down[j]);
    assert down[h := down[h][1..]][j] == down[j];
  }

  /**
   Exactly which deviations from order are harmless. Let the requests the manager sent to each node
   arrive in any order: no run from there panics if and only if no node gets a request behind a write.
   */
  lemma HarmlessOrders(s: State, down': Boxes)
    requires Reachable(s) && Shuffled(s.down, down')
    ensures (forall events :: Admissible(s.(down := down'), events) ==> Execute(s.(down := down'), events).Running?)
       <==> AllReadsFirst(down')
  {
    var l := ReachableInv(s);
    var t := s.(down := down');
    if AllReadsFirst(down') {
      ShuffledInv(s, l, down');
      forall events | Admissible(t, events) ensures Execute(t, events).Running? {
        var l' := RunKeepsInv(t, l, events);
      }
    } else {
      var events := BadOrderPanics(s, l, down');
    }
  }

  // ----- a network that reorders reads all the time -----

  datatype Turn = Does(event: Event) | Reorders(boxes: Boxes)

  /** Events are enabled when their turn comes, and reorderings leave each write last. */
  ghost predicate Loose(s: State, turns: seq<Turn>)
    decreases |turns|
  {
    && s.WellFormed()
    && (turns != [] ==>
          match turns[0]
          case Does(e) => Enabled(s, e) && (Step(s, e).Running? ==> Loose(Step(s, e).state, turns[1..]))
          case Reorders(boxes) =>
            Shuffled(s.down, boxes) && AllReadsFirst(boxes) && Loose(s.(down := boxes), turns[1..]))
  }

  ghost function Ending(s: State, turns: seq<Turn>): Result
    requires Loose(s, turns)
    decreases |turns|
  {
    if turns == [] then Running(s)
    else match turns[0]
      case Reorders(boxes) => Ending(s.(down := boxes), turns[1..])
      case Does(e) =>
        match Step(s, e)
        case Panicked(reason) => Panicked(reason)
        case Running(s') => Ending(s', turns[1..])
  }

  /** Reordering that leaves each write last is harmless at any time and any number of times. */
  lemma {:induction false} LooseRunsNeverPanic(s: State, l: Ledger, turns: seq<Turn>) returns (l': Ledger)
    requires Inv(s, l) && Loose(s, turns)
    ensures Ending(s, turns).Running? && Inv(Ending(s, turns).state, l')
    decreases |turns|
  {
    l' := l;
    if turns != [] {
      match turns[0]
      case Does(e) =>
        l' := StepKeepsInv(s, l, e);
        l' := LooseRunsNeverPanic(Step(s, e).state, l', turns[1..]);
      case Reorders(boxes) =>
        ShuffledInv(s, l, boxes);
        l' := LooseRunsNeverPanic(s.(down := boxes), l, turns[1..]);
    }
  }
}
