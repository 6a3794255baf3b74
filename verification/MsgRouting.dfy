/**
 How a fetch reply finds the CPU that asked (core/msg.c, and the fetch messages of core/vsm.c): the
 requesting CPU travels in the low three bits of a connection id that every hop makes anew.
 */
module MsgRouting {
  import opened Wrappers

  const U32 := 0x1_0000_0000

  /** new_connection: the counter shifted left by three, which drops its top three bits, or'ed with the CPU. */
  function NewConnection(conid: nat, reqcpu: nat): (r: nat)
    ensures r < U32
  {
    conid % 0x2000_0000 * 8 + reqcpu % 8
  }

  /** msg_cpu. */
  function MsgCpu(cid: nat): nat {
    cid % 8
  }

  /** The CPU survives, whatever the counter, exactly when it fits in three bits. */
  lemma CpuSurvives(conid: nat, reqcpu: nat)
    ensures MsgCpu(NewConnection(conid, reqcpu)) == reqcpu % 8
    ensures MsgCpu(NewConnection(conid, reqcpu)) == reqcpu <==> reqcpu < 8
    ensures NewConnection(conid, reqcpu) / 8 == conid % 0x2000_0000
  {
  }

  /** Two messages get the same id exactly when their counters agree in the low 29 bits and their CPUs in three. */
  lemma SameConnection(a: nat, j: nat, b: nat, k: nat)
    ensures NewConnection(a, j) == NewConnection(b, k) <==> a % 0x2000_0000 == b % 0x2000_0000 && j % 8 == k % 8
  {
    CpuSurvives(a, j);
    CpuSurvives(b, k);
  }

  datatype Cpu = Cpu(node: nat, id: nat)

  /**
   What a CPU is doing: nothing, waiting for the reply to its request number `serial`, or holding
   the reply to request `serial` in its reply buffer. Serial numbers are not on the wire.
   */
  datatype Wait = Idle | Waiting(serial: nat) | Replied(serial: nat)

  datatype Msg = Msg(isReply: bool, home: nat, cid: nat, serial: nat)

  /** `net` holds the messages sent and not handled yet, `conids` the counter of each node. */
  datatype State = State(cpus: seq<seq<Wait>>, net: seq<Msg>, conids: seq<nat>, requests: nat)

  datatype Event =
    | Send(cpu: Cpu)               // fault: send_fetch_req, and wait
    | Forward(i: nat, via: nat)     // node `via` passes request `i` on
    | Answer(i: nat, via: nat)      // node `via` replies to request `i`
    | Deliver(i: nat)              // reply `i` goes to the reply buffer of its CPU
    | Collect(cpu: Cpu)            // the waiting CPU takes its reply

  ghost predicate HasCpu(s: State, c: Cpu) {
    c.node < |s.cpus| && c.id < |s.cpus[c.node]|
  }

  function At(cpus: seq<seq<Wait>>, c: Cpu): Wait {
    if c.node < |cpus| && c.id < |cpus[c.node]| then cpus[c.node][c.id] else Idle
  }

  function Put(cpus: seq<seq<Wait>>, c: Cpu, w: Wait): seq<seq<Wait>>
    requires c.node < |cpus| && c.id < |cpus[c.node]|
  {
    cpus[c.node := cpus[c.node][c.id := w]]
  }

  /** The CPU a message is for, read off the wire. */
  function Addressee(m: Msg): Cpu {
    Cpu(m.home, MsgCpu(m.cid))
  }

  function Remove(net: seq<Msg>, i: nat): seq<Msg>
    requires i < |net|
  {
    net[..i] + net[i + 1..]
  }

  function Tick(conids: seq<nat>, n: nat): seq<nat>
    requires n < |conids|
  {
    conids[n := (conids[n] + 1) % U32]
  }

  ghost predicate Enabled(s: State, e: Event) {
    match e
    case Send(c) => HasCpu(s, c) && c.node < |s.conids| && At(s.cpus, c) == Idle
    case Forward(i, via) => i < |s.net| && !s.net[i].isReply && via < |s.conids|
    case Answer(i, via) => i < |s.net| && !s.net[i].isReply && via < |s.conids|
    case Deliver(i) => i < |s.net| && s.net[i].isReply
    case Collect(c) => HasCpu(s, c) && At(s.cpus, c).Replied?
  }

  /** None where the source stops: the CPU does not exist, or its reply buffer is in use. */
  ghost function Step(s: State, e: Event): Option<State>
    requires Enabled(s, e)
  {
    match e
    case Send(c) =>
      var m := Msg(false, c.node, NewConnection(s.conids[c.node], c.id), s.requests);
      Some(State(Put(s.cpus, c, Waiting(s.requests)), s.net + [m], Tick(s.conids, c.node), s.requests + 1))
    case Forward(i, via) =>
      var m := s.net[i].(cid := NewConnection(s.conids[via], MsgCpu(s.net[i].cid)));
      Some(s.(net := s.net[i := m], conids := Tick(s.conids, via)))
    case Answer(i, via) =>
      var m := s.net[i].(isReply := true, cid := NewConnection(s.conids[via], MsgCpu(s.net[i].cid)));
      Some(s.(net := s.net[i := m], conids := Tick(s.conids, via)))
    case Deliver(i) =>
      var c := Addressee(s.net[i]);
      if !HasCpu(s, c) || At(s.cpus, c).Replied? then None
      else Some(s.(cpus := Put(s.cpus, c, Replied(s.net[i].serial)), net := Remove(s.net, i)))
    case Collect(c) => Some(s.(cpus := Put(s.cpus, c, Idle)))
  }

  ghost predicate Initial(s: State) {
    && s.net == [] && s.requests == 0 && |s.conids| == |s.cpus|
    && (forall c :: HasCpu(s, c) ==> c.id < 8)
    && (forall c :: At(s.cpus, c) == Idle)
  }

  // ----- the invariant -----

  function Count(net: seq<Msg>, c: Cpu): nat {
    if net == [] then 0 else (if Addressee(net[0]) == c then 1 else 0) + Count(net[1..], c)
  }

  /** A CPU has one message on its way while it waits, and none otherwise. */
  ghost predicate OneMessage(cpus: seq<seq<Wait>>, net: seq<Msg>, c: Cpu) {
    Count(net, c) == if At(cpus, c).Waiting? then 1 else 0
  }

  /** A message belongs to the request its addressee is waiting for. */
  ghost predicate Current(cpus: seq<seq<Wait>>, net: seq<Msg>, i: nat) {
    i < |net| && At(cpus, Addressee(net[i])) == Waiting(net[i].serial)
  }

  ghost predicate Inv(s: State) {
    && (forall c :: HasCpu(s, c) ==> c.id < 8)
    && (forall c :: OneMessage(s.cpus, s.net, c))
    && (forall i :: 0 <= i < |s.net| ==> Current(s.cpus, s.net, i))
    && (forall c :: Numbered(s.cpus, s.requests, c))
    && (forall c, d :: NotShared(s.cpus, c, d))
  }

  /** Request numbers have been given out already. */
  ghost predicate Numbered(cpus: seq<seq<Wait>>, requests: nat, c: Cpu) {
    !At(cpus, c).Idle? ==> At(cpus, c).serial < requests
  }

  /** No two CPUs have the same request. */
  ghost predicate NotShared(cpus: seq<seq<Wait>>, c: Cpu, d: Cpu) {
    !At(cpus, c).Idle? && !At(cpus, d).Idle? && At(cpus, c).serial == At(cpus, d).serial ==> c == d
  }

  /** One CPU changes and keeps its request, gets a new one, or goes idle. */
  lemma NumbersKept(cpus: seq<seq<Wait>>, requests: nat, requests': nat, c: Cpu, w: Wait)
    requires (forall d :: Numbered(cpus, requests, d)) && (forall d, e :: NotShared(cpus, d, e))
    requires c.node < |cpus| && c.id < |cpus[c.node]| && requests <= requests'
    requires w.Idle? || (w.serial == requests < requests') || (!At(cpus, c).Idle? && w.serial == At(cpus, c).serial)
    ensures (forall d :: Numbered(Put(cpus, c, w), requests', d)) && (forall d, e :: NotShared(Put(cpus, c, w), d, e))
  {
    var cpus' := Put(cpus, c, w);
    forall d ensures Numbered(cpus', requests', d) {
      assert Numbered(cpus, requests, d);
    }
    forall d, e ensures NotShared(cpus', d, e) {
      assert NotShared(cpus, d, e) && Numbered(cpus, requests, d) && Numbered(cpus, requests, e);
    }
  }

  lemma {:induction false} CountConcat(a: seq<Msg>, b: seq<Msg>, c: Cpu)
    ensures Count(a + b, c) == Count(a, c) + Count(b, c)
  {
    if a == [] {
      assert a + b == b;
    } else {
      assert (a + b)[1..] == a[1..] + b;
      CountConcat(a[1..], b, c);
    }
  }

  function One(m: Msg, c: Cpu): nat {
    if Addressee(m) == c then 1 else 0
  }

  lemma CountAround(net: seq<Msg>, i: nat, m: Msg, c: Cpu)
    requires i < |net|
    ensures Count(net[i := m], c) == Count(net, c) - One(net[i], c) + One(m, c)
    ensures Count(Remove(net, i), c) == Count(net, c) - One(net[i], c)
  {
    var a, b := net[..i], net[i + 1..];
    assert net == a + ([net[i]] + b) && net[i := m] == a + ([m] + b);
    CountConcat(a, [net[i]] + b, c);
    CountConcat(a, [m] + b, c);
    CountConcat(a, b, c);
    CountConcat([m], b, c);
    CountConcat([net[i]], b, c);
    assert [m][1..] == [] && [net[i]][1..] == [];
  }

  lemma {:induction false} CountTwo(net: seq<Msg>, i: nat, j: nat, c: Cpu)
    requires i < j < |net| && Addressee(net[i]) == c && Addressee(net[j]) == c
    ensures Count(net, c) >= 2
  {
    var blank := net[i].(home := c.node + 1);
    CountAround(net, i, blank, c);
    CountAround(net[i := blank], j, blank, c);
  }

  // ----- every step keeps it -----

  lemma SendKeeps(s: State, c: Cpu)
    requires Inv(s) && Enabled(s, Send(c))
    ensures Inv(Step(s, Send(c)).value)
  {
    var s' := Step(s, Send(c)).value;
    var m := s'.net[|s.net|];
    CpuSurvives(s.conids[c.node], c.id);
    assert Addressee(m) == c;
    NumbersKept(s.cpus, s.requests, s'.requests, c, Waiting(s.requests));
    forall d ensures OneMessage(s'.cpus, s'.net, d) {
      assert OneMessage(s.cpus, s.net, d);
      CountConcat(s.net, [m], d);
      assert [m][1..] == [];
    }
    forall i | 0 <= i < |s'.net| ensures Current(s'.cpus, s'.net, i) {
      if i < |s.net| { assert Current(s.cpus, s.net, i); }
    }
  }

  /** A forward or an answer: the message is replaced by one for the same CPU and request. */
  lemma ReplaceKeeps(s: State, i: nat, m: Msg)
    requires Inv(s) && i < |s.net| && Addressee(m) == Addressee(s.net[i]) && m.serial == s.net[i].serial
    ensures Inv(s.(net := s.net[i := m]))
  {
    var net' := s.net[i := m];
    forall d ensures OneMessage(s.cpus, net', d) {
      assert OneMessage(s.cpus, s.net, d);
      CountAround(s.net, i, m, d);
    }
    forall k | 0 <= k < |net'| ensures Current(s.cpus, net', k) {
      assert Current(s.cpus, s.net, k);
    }
  }

  /** The reply finds its CPU waiting for it, with an empty buffer, and is in that buffer afterwards. */
  lemma DeliverKeeps(s: State, i: nat)
    requires Inv(s) && i < |s.net| && s.net[i].isReply
    ensures Enabled(s, Deliver(i)) && At(s.cpus, Addressee(s.net[i])) == Waiting(s.net[i].serial)
    ensures Step(s, Deliver(i)).Some? && Inv(Step(s, Deliver(i)).value)
    ensures var s' := Step(s, Deliver(i)).value;
      && At(s'.cpus, Addressee(s.net[i])) == Replied(s.net[i].serial)
      && (forall d :: d != Addressee(s.net[i]) ==> At(s'.cpus, d) == At(s.cpus, d))
      && s.net == s'.net[..i] + [s.net[i]] + s'.net[i..]
  {
    assert Current(s.cpus, s.net, i);
    var c, s' := Addressee(s.net[i]), Step(s, Deliver(i)).value;
    NumbersKept(s.cpus, s.requests, s.requests, c, Replied(s.net[i].serial));
    forall d ensures OneMessage(s'.cpus, s'.net, d) {
      assert OneMessage(s.cpus, s.net, d);
      CountAround(s.net, i, s.net[i], d);
    }
    forall k | 0 <= k < |s'.net| ensures Current(s'.cpus, s'.net, k) {
      var j := if k < i then k else k + 1;
      assert s'.net[k] == s.net[j] && Current(s.cpus, s.net, j);
      NotForTheSame(s, i, j, c);
    }
  }

  lemma NotForTheSame(s: State, i: nat, j: nat, c: Cpu)
    requires Inv(s) && i < |s.net| && j < |s.net| && i != j && c == Addressee(s.net[i])
    ensures Addressee(s.net[j]) != c
  {
    assert OneMessage(s.cpus, s.net, c);
    if Addressee(s.net[j]) == c {
      CountTwo(s.net, if i < j then i else j, if i < j then j else i, c);
    }
  }

  lemma CollectKeeps(s: State, c: Cpu)
    requires Inv(s) && HasCpu(s, c) && At(s.cpus, c).Replied?
    ensures Enabled(s, Collect(c)) && Inv(Step(s, Collect(c)).value)
    ensures var s' := Step(s, Collect(c)).value;
      && At(s'.cpus, c) == Idle && (forall d :: d != c ==> At(s'.cpus, d) == At(s.cpus, d)) && s'.net == s.net
  {
    var s' := Step(s, Collect(c)).value;
    NumbersKept(s.cpus, s.requests, s.requests, c, Idle);
    forall d ensures OneMessage(s'.cpus, s'.net, d) {
      assert OneMessage(s.cpus, s.net, d);
    }
    forall k | 0 <= k < |s'.net| ensures Current(s'.cpus, s'.net, k) {
      assert Current(s.cpus, s.net, k);
    }
  }

  /** Any node can pass on or answer any request on its way, and the message stays for the CPU that sent it. */
  lemma PassedOn(s: State, i: nat, via: nat, e: Event)
    requires Inv(s) && i < |s.net| && !s.net[i].isReply && via < |s.conids|
    requires e == Forward(i, via) || e == Answer(i, via)
    ensures Enabled(s, e) && Step(s, e).Some? && Inv(Step(s, e).value)
    ensures var s' := Step(s, e).value;
      && s'.cpus == s.cpus && |s'.net| == |s.net| && (forall k :: 0 <= k < |s.net| && k != i ==> s'.net[k] == s.net[k])
      && Addressee(s'.net[i]) == Addressee(s.net[i]) && s'.net[i].serial == s.net[i].serial
      && s'.net[i].isReply == e.Answer?
  {
    CpuSurvives(s.conids[via], MsgCpu(s.net[i].cid));
    ReplaceKeeps(s, i, Step(s, e).value.net[i]);
  }

  lemma StepKeepsInv(s: State, e: Event)
    requires Inv(s) && Enabled(s, e)
    ensures Step(s, e).Some? && Inv(Step(s, e).value)
  {
    match e
    case Send(c) => SendKeeps(s, c);
    case Forward(i, via) => PassedOn(s, i, via, e);
    case Answer(i, via) => PassedOn(s, i, via, e);
    case Deliver(i) => DeliverKeeps(s, i);
    case Collect(c) => CollectKeeps(s, c);
  }

  // ----- runs -----

  /** `es` can happen one after the other from `s`. */
  ghost predicate Runs(s: State, es: seq<Event>, s': State)
    decreases |es|
  {
    if es == [] then s' == s
    else Enabled(s, es[0]) && Step(s, es[0]).Some? && Runs(Step(s, es[0]).value, es[1..], s')
  }

  lemma {:induction false} RunKeepsInv(s: State, es: seq<Event>, s': State)
    requires Inv(s) && Runs(s, es, s')
    ensures Inv(s')
    decreases |es|
  {
    if es != [] {
      StepKeepsInv(s, es[0]);
      RunKeepsInv(Step(s, es[0]).value, es[1..], s');
    }
  }

  lemma InitialInv(s: State)
    requires Initial(s)
    ensures Inv(s)
  {
  }

  /**
   In every run, however often requests are forwarded and counters wrap: no step stops, every reply
   on its way is for the one CPU that waits for exactly that reply, with an empty buffer, and
   every waiting CPU has exactly one message on its way.
   */
  lemma RepliesFindTheirCpu(s: State, es: seq<Event>, s': State)
    requires Initial(s) && Runs(s, es, s')
    ensures forall e :: Enabled(s', e) ==> Step(s', e).Some?
    ensures forall i :: 0 <= i < |s'.net| ==> At(s'.cpus, Addressee(s'.net[i])) == Waiting(s'.net[i].serial)
    ensures forall c :: At(s'.cpus, c).Waiting? ==> Count(s'.net, c) == 1
    ensures forall c, d :: At(s'.cpus, c).Waiting? && At(s'.cpus, c) == At(s'.cpus, d) ==> c == d
  {
    InitialInv(s);
    RunKeepsInv(s, es, s');
    forall e | Enabled(s', e) ensures Step(s', e).Some? { StepKeepsInv(s', e); }
    forall i | 0 <= i < |s'.net| ensures At(s'.cpus, Addressee(s'.net[i])) == Waiting(s'.net[i].serial) {
      assert Current(s'.cpus, s'.net, i);
    }
    forall c, d | At(s'.cpus, c).Waiting? && At(s'.cpus, c) == At(s'.cpus, d) ensures c == d {
      assert NotShared(s'.cpus, c, d);
    }
    forall c | At(s'.cpus, c).Waiting? ensures Count(s'.net, c) == 1 {
      assert OneMessage(s'.cpus, s'.net, c);
    }
  }

  // ----- what a CPU sends and what it gets -----

  /** What an event does to CPU `c`. */
  lemma CpuStep(s: State, e: Event, c: Cpu)
    requires Inv(s) && Enabled(s, e)
    ensures Step(s, e).Some?
    ensures At(Step(s, e).value.cpus, c) == match e
              case Send(d) => if d == c then Waiting(s.requests) else At(s.cpus, c)
              case Deliver(i) => if Addressee(s.net[i]) == c then Replied(s.net[i].serial) else At(s.cpus, c)
              case Collect(d) => if d == c then Idle else At(s.cpus, c)
              case _ => At(s.cpus, c)
  {
    if e.Deliver? { DeliverKeeps(s, e.i); }
  }

  /** The number of the request that CPU `c` sends by `e`, if it does. */
  ghost function Sends(s: State, e: Event, c: Cpu): seq<nat> {
    if e == Send(c) then [s.requests] else []
  }

  /** The number on the reply that CPU `c` takes from its buffer by `e`, if it does. */
  ghost function Takes(s: State, e: Event, c: Cpu): seq<nat>
    requires Enabled(s, e)
  {
    if e == Collect(c) then [At(s.cpus, c).serial] else []
  }

  /** The requests CPU `c` sends in a run. */
  ghost function Sent(s: State, es: seq<Event>, s': State, c: Cpu): seq<nat>
    requires Runs(s, es, s')
    decreases |es|
  {
    if es == [] then [] else Sends(s, es[0], c) + Sent(Step(s, es[0]).value, es[1..], s', c)
  }

  /** The replies CPU `c` takes from its buffer in a run. */
  ghost function Taken(s: State, es: seq<Event>, s': State, c: Cpu): seq<nat>
    requires Runs(s, es, s')
    decreases |es|
  {
    if es == [] then [] else Takes(s, es[0], c) + Taken(Step(s, es[0]).value, es[1..], s', c)
  }

  /** The request a CPU has sent and not taken the reply to. */
  function Pending(w: Wait): seq<nat> {
    if w.Idle? then [] else [w.serial]
  }

  lemma PendingStep(s: State, e: Event, c: Cpu)
    requires Inv(s) && Enabled(s, e)
    ensures Step(s, e).Some?
    ensures Pending(At(s.cpus, c)) + Sends(s, e, c) == Takes(s, e, c) + Pending(At(Step(s, e).value.cpus, c))
  {
    CpuStep(s, e, c);
    if e.Deliver? { DeliverKeeps(s, e.i); }
  }

  lemma Exchange(p: seq<nat>, a: seq<nat>, b: seq<nat>, q: seq<nat>, x: seq<nat>, y: seq<nat>, r: seq<nat>)
    requires p + a == b + q && q + x == y + r
    ensures p + (a + x) == (b + y) + r
  {
    assert p + (a + x) == (p + a) + x;
    assert (b + q) + x == b + (q + x);
    assert b + (y + r) == (b + y) + r;
  }

  /** In every run a CPU takes the replies to its own requests, each once, in the order sent. */
  lemma {:induction false} TakenIsSent(s: State, es: seq<Event>, s': State, c: Cpu)
    requires Inv(s) && Runs(s, es, s')
    ensures Pending(At(s.cpus, c)) + Sent(s, es, s', c) == Taken(s, es, s', c) + Pending(At(s'.cpus, c))
    decreases |es|
  {
    if es == [] {
      assert Pending(At(s.cpus, c)) + [] == [] + Pending(At(s.cpus, c));
    } else {
      var e, u, rest := es[0], Step(s, es[0]).value, es[1..];
      PendingStep(s, e, c);
      StepKeepsInv(s, e);
      TakenIsSent(u, rest, s', c);
      Exchange(Pending(At(s.cpus, c)), Sends(s, e, c), Takes(s, e, c), Pending(At(u.cpus, c)),
               Sent(u, rest, s', c), Taken(u, rest, s', c), Pending(At(s'.cpus, c)));
    }
  }

  /** A CPU that is idle again has taken exactly the replies to what it sent; a waiting one misses the last only. */
  lemma EveryRequestReplied(s: State, es: seq<Event>, s': State, c: Cpu)
    requires Initial(s) && Runs(s, es, s')
    ensures At(s'.cpus, c).Idle? ==> Taken(s, es, s', c) == Sent(s, es, s', c)
    ensures !At(s'.cpus, c).Idle? ==> Sent(s, es, s', c) == Taken(s, es, s', c) + [At(s'.cpus, c).serial]
  {
    InitialInv(s);
    TakenIsSent(s, es, s', c);
    assert [] + Sent(s, es, s', c) == Sent(s, es, s', c) && Taken(s, es, s', c) + [] == Taken(s, es, s', c);
  }

  /** The node that makes a new connection id in a step. */
  function Sender(e: Event): Option<nat> {
    match e
    case Send(c) => Some(c.node)
    case Forward(_, via) => Some(via)
    case Answer(_, via) => Some(via)
    case _ => None
  }

  function From(e: Event, n: nat): nat {
    if Sender(e) == Some(n) then 1 else 0
  }

  ghost function MessagesFrom(es: seq<Event>, n: nat): nat {
    if es == [] then 0 else From(es[0], n) + MessagesFrom(es[1..], n)
  }

  lemma CounterStep(s: State, e: Event, n: nat)
    requires Enabled(s, e) && Step(s, e).Some? && n < |s.conids|
    ensures var s' := Step(s, e).value; n < |s'.conids| && s'.conids[n] % U32 == (s.conids[n] + From(e, n)) % U32
  {
  }

  lemma AddMore(a: nat, b: nat, x: nat, y: nat)
    requires a % U32 == (b + x) % U32
    ensures (a + y) % U32 == (b + (x + y)) % U32
  {
    assert a - (b + x) == U32 * (a / U32 - (b + x) / U32);
  }

  /** A node's counter counts the messages it sends, modulo 2^32. */
  lemma {:induction false} CountersCount(s: State, es: seq<Event>, s': State, n: nat)
    requires Runs(s, es, s') && n < |s.conids|
    ensures n < |s'.conids| && s'.conids[n] % 0x1_0000_0000 == (s.conids[n] + MessagesFrom(es, n)) % 0x1_0000_0000
    decreases |es|
  {
    if es != [] {
      var u := Step(s, es[0]).value;
      CounterStep(s, es[0], n);
      CountersCount(u, es[1..], s', n);
      AddMore(u.conids[n], s.conids[n], From(es[0], n), MessagesFrom(es[1..], n));
    }
  }

  /** The hops of request `i` from node to node. */
  ghost function Hops(i: nat, hops: seq<nat>): seq<Event> {
    seq(|hops|, k requires 0 <= k < |hops| => Forward(i, hops[k]))
  }

  lemma {:induction false} RunThen(s: State, es: seq<Event>, u: State, more: seq<Event>, s': State)
    requires Runs(s, es, u) && Runs(u, more, s')
    ensures Runs(s, es + more, s')
    decreases |es|
  {
    if es == [] {
      assert es + more == more;
    } else {
      assert (es + more)[1..] == es[1..] + more;
      RunThen(Step(s, es[0]).value, es[1..], u, more, s');
    }
  }

  /** However often it is passed on, the last request sent stays on its way to the CPU that sent it. */
  lemma {:induction false} HopsRun(s: State, hops: seq<nat>) returns (s': State)
    requires |s.net| > 0 && !s.net[|s.net| - 1].isReply && forall k :: 0 <= k < |hops| ==> hops[k] < |s.conids|
    ensures Runs(s, Hops(|s.net| - 1, hops), s')
    ensures s'.cpus == s.cpus && |s'.net| == |s.net| && s'.net[..|s.net| - 1] == s.net[..|s.net| - 1]
    ensures |s'.conids| == |s.conids| && s'.requests == s.requests
    ensures var m, m' := s.net[|s.net| - 1], s'.net[|s.net| - 1];
      !m'.isReply && m'.serial == m.serial && Addressee(m') == Addressee(m)
    decreases |hops|
  {
    var i := |s.net| - 1;
    if hops == [] {
      s' := s;
    } else {
      var e := Forward(i, hops[0]);
      CpuSurvives(s.conids[hops[0]], MsgCpu(s.net[i].cid));
      s' := HopsRun(Step(s, e).value, hops[1..]);
      assert Hops(i, hops)[0] == e && Hops(i, hops)[1..] == Hops(i, hops[1..]);
    }
  }

  lemma PutTwice(cpus: seq<seq<Wait>>, c: Cpu, v: Wait, w: Wait)
    requires c.node < |cpus| && c.id < |cpus[c.node]|
    ensures Put(Put(cpus, c, v), c, w) == Put(cpus, c, w)
    ensures w == At(cpus, c) ==> Put(cpus, c, w) == cpus
  {
    assert Put(Put(cpus, c, v), c, w)[c.node] == cpus[c.node][c.id := w];
    assert w == At(cpus, c) ==> Put(cpus, c, w)[c.node] == cpus[c.node];
  }

  /** An idle CPU can send, any nodes can pass the request on, any node can answer, and the reply comes back. */
  lemma CallReturns(s: State, c: Cpu, hops: seq<nat>, via: nat) returns (s': State)
    requires Inv(s) && HasCpu(s, c) && At(s.cpus, c) == Idle && c.node < |s.conids| && via < |s.conids|
    requires forall k :: 0 <= k < |hops| ==> hops[k] < |s.conids|
    ensures var i := |s.net|;
      Runs(s, [Send(c)] + Hops(i, hops) + [Answer(i, via), Deliver(i), Collect(c)], s')
    ensures s'.cpus == s.cpus && s'.net == s.net && s'.requests == s.requests + 1
  {
    var i := |s.net|;
    CpuSurvives(s.conids[c.node], c.id);
    var t := Step(s, Send(c)).value;
    assert [Send(c)][1..] == [];
    assert Runs(s, [Send(c)], t);
    var u := HopsRun(t, hops);
    RunThen(s, [Send(c)], t, Hops(i, hops), u);
    s' := AnswerReturns(u, i, c, via);
    RunThen(s, [Send(c)] + Hops(i, hops), u, [Answer(i, via), Deliver(i), Collect(c)], s');
    PutTwice(s.cpus, c, Waiting(s.requests), Idle);
    assert s'.net == s.net;
  }

  lemma AnswerReturns(u: State, i: nat, c: Cpu, via: nat) returns (s': State)
    requires |u.net| == i + 1 && !u.net[i].isReply && Addressee(u.net[i]) == c && via < |u.conids|
    requires HasCpu(u, c) && At(u.cpus, c).Waiting?
    ensures Runs(u, [Answer(i, via), Deliver(i), Collect(c)], s')
    ensures s'.cpus == Put(u.cpus, c, Idle) && s'.net == u.net[..i] && s'.requests == u.requests
  {
    CpuSurvives(u.conids[via], MsgCpu(u.net[i].cid));
    var v := Step(u, Answer(i, via)).value;
    assert Addressee(v.net[i]) == c;
    var w := Step(v, Deliver(i)).value;
    s' := Step(w, Collect(c)).value;
    PutTwice(u.cpus, c, Replied(u.net[i].serial), Idle);
    var es := [Answer(i, via), Deliver(i), Collect(c)];
    assert es[1..] == [Deliver(i), Collect(c)] && es[1..][1..] == [Collect(c)] && es[1..][1..][1..] == [];
    assert Runs(w, [Collect(c)], s');
    assert Runs(v, es[1..], s');
  }
}
