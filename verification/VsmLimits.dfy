/** Runs that show which stronger statements about the protocol are false; VsmOrder has the exact condition on order. */
module VsmLimits {
  import opened Wrappers
  import opened VsmHandlers
  import opened VsmProtocol
  import opened VsmShapes
  import opened VsmRuns

  // ----- a reader that is out of date -----

  /** Nodes 0, the manager, and 1, with the given entries and nothing in flight but `invalidates`. */
  function Pair(pte: seq<Pte>, invalidates: seq<nat>, history: seq<Page>, seen: seq<nat>): State {
    State(0, 0, pte, [Idle, Idle], [[], []], [[], []], [[], []], invalidates, history, seen)
  }

  function Fresh(page: Page): State { Pair([ReadWrite(0, {}), Invalid], [0, 0], [page], [0, 0]) }

  function Asked(page: Page): State {
    Fresh(page).(wait := [Idle, Waiting(Read)], up := [[], [Request(Read, 1)]])
  }

  function Answered(page: Page): State {
    Asked(page).(up := [[], []], pte := [ReadOnly(0, {1}), Invalid], replies := [[], [Reply(false, 0, {})]])
  }

  function Shared(page: Page): State { Pair([ReadOnly(0, {1}), ReadOnly(0, {})], [0, 0], [page], [0, 0]) }

  lemma FreshStep(page: Page)
    ensures Initial(2, 0, page) == Fresh(page)
    ensures Step(Fresh(page), Event.ReadFault(1)) == Running(Asked(page))
  {
    var s := Fresh(page);
    AskShape(s, Event.ReadFault(1), Read);
    assert s.up[1] + [Request(Read, 1)] == [Request(Read, 1)];
    assert s.pte[1 := Invalid] == s.pte && s.wait[1 := Waiting(Read)] == [Idle, Waiting(Read)];
  }

  lemma AskedStep(page: Page)
    ensures Step(Asked(page), ServeAtManager(1)) == Running(Answered(page))
  {
    var s := Asked(page);
    AnswerAtManagerShape(s, ServeAtManager(1));
    assert Retained(ReadWrite(0, {}), Request(Read, 1)) == ReadOnly(0, {1});
    assert s.up[1 := []] == [[], []] && s.replies[1 := [Reply(false, 0, {})]] == [[], [Reply(false, 0, {})]];
  }

  lemma AnsweredStep(page: Page)
    ensures Step(Answered(page), DeliverReply(1, None)) == Running(Shared(page))
  {
    var s := Answered(page);
    ReceiveReadShape(s, DeliverReply(1, None));
    assert s.replies[1][1..] == [] && s.wait[1 := Idle] == [Idle, Idle];
  }

  lemma SharedIsReachable(page: Page)
    ensures Reachable(Shared(page))
  {
    FreshStep(page); AskedStep(page); AnsweredStep(page);
    ReachableInitial(2, 0, page);
    ReachableNext(Fresh(page), Event.ReadFault(1), Asked(page));
    ReachableNext(Asked(page), ServeAtManager(1), Answered(page));
    ReachableNext(Answered(page), DeliverReply(1, None), Shared(page));
  }

  lemma UpgradeAndWrite(before: Page, after: Page)
    ensures var s := Pair([ReadWrite(0, {}), ReadOnly(0, {})], [0, 1], [before], [0, 0]);
      && Step(Shared(before), Event.WriteFault(0, None)) == Running(s)
      && Step(s, GuestWrite(0, after))
         == Running(Pair([ReadWrite(1, {}), ReadOnly(0, {})], [0, 1], [before, after], [1, 0]))
  {
    UpgradeShape(Shared(before), Event.WriteFault(0, None));
    assert AddInvalidates([0, 0], {1} - {0}) == [0, 1];
  }

  /**
   A writer and a reader of the previous version can coexist: the invalidate has been sent, not
   processed, and the reader's guest reads a value that is no longer the last one written.
   */
  lemma StaleReaderIsReachable(before: Page, after: Page) returns (s: State)
    ensures Reachable(s) && s.WellFormed() && |s.pte| == 2
    ensures s.pte[0].ReadWrite? && Reads(s, 0, after) && Reads(s, 1, before)
  {
    SharedIsReachable(before);
    UpgradeAndWrite(before, after);
    s := Pair([ReadWrite(0, {}), ReadOnly(0, {})], [0, 1], [before], [0, 0]);
    ReachableNext(Shared(before), Event.WriteFault(0, None), s);
    var s' := Pair([ReadWrite(1, {}), ReadOnly(0, {})], [0, 1], [before, after], [1, 0]);
    ReachableNext(s, GuestWrite(0, after), s');
    s := s';
  }

  // ----- a read behind a write -----

  /** Nodes 0, the manager, 1 and 2; node 1 owns the page and was sent `box`. */
  function Triple(pte: seq<Pte>, wait: seq<Wait>, up: seq<seq<Request>>, dir: Node, box: seq<Request>,
                  replies: seq<seq<Reply>>, page: Page): State {
    State(0, dir, pte, wait, up, [[], box, []], replies, [0, 0, 0], [page], [0, 0, 0])
  }

  function Quiet3(): seq<seq<Reply>> { [[], [], []] }

  /** Node 1 has taken the page from the manager. */
  function Taken(page: Page): State {
    Triple([Invalid, ReadWrite(0, {}), Invalid], [Idle, Idle, Idle], [[], [], []], 1, [], Quiet3(), page)
  }

  /** Node 2's read was forwarded to node 1, then the manager asked it for the page. */
  function Queued(page: Page, box: seq<Request>): State {
    Triple([Invalid, ReadWrite(0, {}), Invalid], [Waiting(Write), Idle, Waiting(Read)],
           [[], [], []], 1, box, Quiet3(), page)
  }

  function Start3(page: Page): State {
    Triple([ReadWrite(0, {}), Invalid, Invalid], [Idle, Idle, Idle], [[], [], []], 0, [], Quiet3(), page)
  }

  function Wanted(page: Page): State {
    Start3(page).(wait := [Idle, Waiting(Write), Idle], up := [[], [Request(Write, 1)], []])
  }

  function HandedOver(page: Page): State {
    Wanted(page).(up := [[], [], []], pte := [Invalid, Invalid, Invalid], dir := 1,
                  replies := [[], [Reply(true, 0, {})], []])
  }

  lemma StartStep(page: Page)
    ensures Step(Start3(page), Event.WriteFault(1, None)) == Running(Wanted(page))
  {
    var s := Start3(page);
    AskShape(s, Event.WriteFault(1, None), Write);
    assert s.pte[1 := Invalid] == s.pte && s.up[1] + [Request(Write, 1)] == [Request(Write, 1)];
  }

  lemma WantedStep(page: Page)
    ensures Step(Wanted(page), ServeAtManager(1)) == Running(HandedOver(page))
  {
    var s := Wanted(page);
    AnswerAtManagerShape(s, ServeAtManager(1));
    assert s.up[1 := []] == [[], [], []];
  }

  lemma HandedOverStep(page: Page)
    ensures Step(HandedOver(page), DeliverReply(1, None)) == Running(Taken(page))
  {
    var s := HandedOver(page);
    ReceiveWriteShape(s, DeliverReply(1, None));
    assert AddInvalidates(s.invalidates, {} - {1}) == s.invalidates;
    assert s.replies[1][1..] == [];
  }

  lemma TakenIsReachable(page: Page)
    ensures Reachable(Taken(page))
  {
    assert Initial(3, 0, page) == Start3(page);
    StartStep(page); WantedStep(page); HandedOverStep(page);
    ReachableInitial(3, 0, page);
    ReachableNext(Start3(page), Event.WriteFault(1, None), Wanted(page));
    ReachableNext(Wanted(page), ServeAtManager(1), HandedOver(page));
    ReachableNext(HandedOver(page), DeliverReply(1, None), Taken(page));
  }

  function Reading(page: Page): State {
    Taken(page).(wait := [Idle, Idle, Waiting(Read)], up := [[], [], [Request(Read, 2)]])
  }

  function Passed(page: Page): State {
    Reading(page).(up := [[], [], []], down := [[], [Request(Read, 2)], []])
  }

  lemma TakenStep(page: Page)
    ensures Step(Taken(page), Event.ReadFault(2)) == Running(Reading(page))
  {
    var s := Taken(page);
    AskShape(s, Event.ReadFault(2), Read);
    assert s.pte[2 := Invalid] == s.pte && s.up[2] + [Request(Read, 2)] == [Request(Read, 2)];
  }

  lemma ReadingStep(page: Page)
    ensures Step(Reading(page), ServeAtManager(2)) == Running(Passed(page))
  {
    var s := Reading(page);
    ForwardShape(s, ServeAtManager(2));
    assert s.down[1] + [Request(Read, 2)] == [Request(Read, 2)];
    assert s.up[2 := []] == [[], [], []];
  }

  lemma PassedStep(page: Page)
    ensures Step(Passed(page), Event.WriteFault(0, None))
      == Running(Queued(page, [Request(Read, 2), Request(Write, 0)]))
  {
    var s := Passed(page);
    AskShape(s, Event.WriteFault(0, None), Write);
    assert s.pte[0 := Invalid] == s.pte;
    assert s.down[1] + [Request(Write, 0)] == [Request(Read, 2), Request(Write, 0)];
  }

  lemma QueuedIsReachable(page: Page)
    ensures Reachable(Queued(page, [Request(Read, 2), Request(Write, 0)]))
  {
    TakenIsReachable(page);
    TakenStep(page); ReadingStep(page); PassedStep(page);
    ReachableNext(Taken(page), Event.ReadFault(2), Reading(page));
    ReachableNext(Reading(page), ServeAtManager(2), Passed(page));
    ReachableNext(Passed(page), Event.WriteFault(0, None), Queued(page, [Request(Read, 2), Request(Write, 0)]));
  }

  /** Swapping two requests the manager sent to one node makes that node panic: it has already passed the page on. */
  lemma ReorderingPanics(page: Page) returns (s: State, swapped: State)
    ensures Reachable(s) && |s.down| == 3 && |s.down[1]| == 2
    ensures swapped == s.(down := s.down[1 := [s.down[1][1], s.down[1][0]]])
    ensures Admissible(swapped, [ServeForwarded(1), ServeForwarded(1)])
    ensures Execute(swapped, [ServeForwarded(1), ServeForwarded(1)]) == Panicked(NotOwner)
  {
    QueuedIsReachable(page);
    var r, w := Request(Read, 2), Request(Write, 0);
    s := Queued(page, [r, w]);
    swapped := Queued(page, [w, r]);
    var e := ServeForwarded(1);
    var next := Triple([Invalid, Invalid, Invalid], swapped.wait, [[], [], []],
      1, [r], [[Reply(true, 0, {})], [], []], page);
    assert Step(swapped, e) == Running(next) by {
      AnswerForwardedShape(swapped, e);
      assert [w, r][1..] == [r];
      assert swapped.down[1 := [r]] == next.down;
      assert swapped.replies[0 := [Reply(true, 0, {})]] == next.replies;
    }
    assert Step(next, e) == Panicked(NotOwner);
    assert [e, e][1..] == [e];
  }
}
