/**
 The fault handlers and request servers of core/vsm.c for one page, as they run on
 one node while it holds the page lock.  Each is a function from the node's view of
 the page to its new view plus what it sends; running out of the protocol's
 assumptions is a `Panic`, as in the source.

 Page contents are named by a version: the position of the write that produced them
 in the global order of writes (see VsmProtocol).
 */
module VsmHandlers {
  import opened Wrappers

  type Node = nat
  type Page = seq<bv8>

  datatype Kind = Read | Write

  /** A fetch request; `from` stays the faulting node through any forwarding. */
  datatype Request = Request(kind: Kind, from: Node)

  /** A fetch reply: page contents, and for a write fetch the owner's copyset. */
  datatype Reply = Reply(wnr: bool, version: nat, copyset: set<Node>)

  /** What a node's stage-2 entry says about the page. */
  datatype Pte =
    | Invalid
    | ReadOnly(version: nat, copyset: set<Node>)
    | ReadWrite(version: nat, copyset: set<Node>)
  {
    predicate Readable() { !Invalid? }

    /** Read-write, or read-only with a non-empty copyset. */
    predicate Owns() { ReadWrite? || (ReadOnly? && copyset != {}) }
  }

  /** A fault handler between its request and the reply holds the page lock. */
  datatype Wait = Idle | Waiting(kind: Kind)

  datatype Message =
    | Fetch(to: Node, request: Request)
    | Answer(to: Node, reply: Reply)

  /** `dir` is the manager's record of the owner; only the manager's matters. */
  datatype Local = Local(me: Node, manager: Node, pte: Pte, dir: Node)

  datatype PanicReason = NotOwner | RequestFromOwner | EntryInUse

  datatype Outcome =
    | Ok(local: Local, wait: Wait, message: Option<Message>, invalidated: set<Node>, stored: Option<Page>)
    | Panic(reason: PanicReason)

  function Quiet(l: Local): Outcome {
    Ok(l, Idle, None, {}, None)
  }

  /** The manager asks the owner it has on record, everyone else asks the manager. */
  function FetchTarget(l: Local): Node {
    if l.me == l.manager then l.dir else l.manager
  }

  function ReadFault(l: Local): Outcome {
    if l.pte.Readable() then Quiet(l)
    else Ok(l, Waiting(Read), Some(Fetch(FetchTarget(l), Request(Read, l.me))), {}, None)
  }

  /** Take write access: invalidate every other copy, then store if asked to. */
  function Acquire(l: Local, version: nat, copyset: set<Node>, store: Option<Page>, next: nat): Outcome {
    var v := if store.Some? then next else version;
    Ok(l.(pte := ReadWrite(v, {})), Idle, None, copyset - {l.me}, store)
  }

  /** `store` is the immediate write some callers pass; it is dropped if the page is writable already. */
  function WriteFault(l: Local, store: Option<Page>, next: nat): Outcome {
    if l.pte.ReadWrite? then Quiet(l)
    else if l.pte.Owns() then Acquire(l, l.pte.version, l.pte.copyset, store, next)
    else Ok(l.(pte := Invalid), Waiting(Write), Some(Fetch(FetchTarget(l), Request(Write, l.me))), {}, None)
  }

  /** The reply reaches the waiting handler, which maps the page and finishes. */
  function Deliver(l: Local, kind: Kind, reply: Reply, store: Option<Page>, next: nat): Outcome {
    if l.pte.Readable() then Panic(EntryInUse)
    else if kind == Read then Quiet(l.(pte := ReadOnly(reply.version, reply.copyset)))
    else Acquire(l, reply.version, reply.copyset, store, next)
  }

  function ReadServer(l: Local, from: Node): Outcome {
    if l.pte.Owns() then
      Ok(l.(pte := ReadOnly(l.pte.version, l.pte.copyset + {from})), Idle,
         Some(Answer(from, Reply(false, l.pte.version, {}))), {}, None)
    else if l.me == l.manager then
      if from == l.dir then Panic(RequestFromOwner)
      else Ok(l, Idle, Some(Fetch(l.dir, Request(Read, from))), {}, None)
    else Panic(NotOwner)
  }

  /** Nodes the copyset field of an entry has a bit for. */
  const WIDTH := 4

  /** The read server as it is with the four-bit copyset field: a larger node number is not recorded. */
  function NarrowReadServer(l: Local, from: Node): Outcome {
    if l.pte.Owns() && from >= WIDTH then
      Ok(l.(pte := ReadOnly(l.pte.version, l.pte.copyset)), Idle,
         Some(Answer(from, Reply(false, l.pte.version, {}))), {}, None)
    else ReadServer(l, from)
  }

  function NarrowServe(l: Local, r: Request): Outcome {
    if r.kind == Read then NarrowReadServer(l, r.from) else WriteServer(l, r.from)
  }

  function WriteServer(l: Local, from: Node): Outcome {
    if l.pte.Owns() then
      Ok(l.(pte := Invalid, dir := if l.me == l.manager then from else l.dir), Idle,
         Some(Answer(from, Reply(true, l.pte.version, l.pte.copyset))), {}, None)
    else if l.me == l.manager then
      if from == l.dir then Panic(RequestFromOwner)
      else Ok(l.(dir := from), Idle, Some(Fetch(l.dir, Request(Write, from))), {}, None)
    else Panic(NotOwner)
  }

  function Serve(l: Local, r: Request): Outcome {
    if r.kind == Read then ReadServer(l, r.from) else WriteServer(l, r.from)
  }

  /** An owner ignores invalidation; so does a node without a copy. */
  function InvalidateServer(l: Local): Outcome {
    if l.pte.Invalid? || l.pte.Owns() then Quiet(l) else Quiet(l.(pte := Invalid))
  }
}
