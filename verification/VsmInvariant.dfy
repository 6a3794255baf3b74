/**
 The inductive invariant of the coherence protocol.

 It is stated with a `Ledger` that records what no single node knows: the chain of nodes
 ownership will travel along, and where each outstanding request currently is.  Each
 predicate takes only the parts of the state it constrains.
 */
module VsmInvariant {
  import opened VsmHandlers
  import opened VsmProtocol

  datatype Place = Nowhere | ToManager | Forwarded(at: Node) | Answered

  datatype Ledger = Ledger(chain: seq<Node>, place: seq<Place>)

  type Boxes = seq<seq<Request>>

  // ----- outstanding requests: each one, or its reply, is in exactly one place -----

  ghost predicate Places(wait: seq<Wait>, place: seq<Place>) {
    && |wait| == |place|
    && forall i :: 0 <= i < |wait| ==> (wait[i].Idle? <==> place[i].Nowhere?)
  }

  /** What node `i`'s channel to the manager holds. */
  function Asked(i: Node, w: Wait, p: Place): seq<Request> {
    if p.ToManager? && w.Waiting? then [Request(w.kind, i)] else []
  }

  ghost predicate UpBoxes(wait: seq<Wait>, place: seq<Place>, up: Boxes) {
    && |wait| == |place| == |up|
    && forall i :: 0 <= i < |up| ==> up[i] == Asked(i, wait[i], place[i])
  }

  ghost predicate ReplyMatches(w: Wait, p: Place, rs: seq<Reply>) {
    if p.Answered? && w.Waiting? then |rs| == 1 && rs[0].wnr == (w.kind == Write) else rs == []
  }

  ghost predicate ReplyBoxes(wait: seq<Wait>, place: seq<Place>, replies: seq<seq<Reply>>) {
    && |wait| == |place| == |replies|
    && forall i :: 0 <= i < |replies| ==> ReplyMatches(wait[i], place[i], replies[i])
  }

  ghost predicate IsAt(i: Node, w: Wait, p: Place, down: Boxes) {
    p.Forwarded? && w.Waiting? ==> p.at < |down| && Request(w.kind, i) in down[p.at]
  }

  ghost predicate Located(wait: seq<Wait>, place: seq<Place>, down: Boxes) {
    && |wait| == |place| == |down|
    && forall i :: 0 <= i < |wait| ==> IsAt(i, wait[i], place[i], down)
  }

  ghost predicate Entry(r: Request, j: Node, wait: seq<Wait>, place: seq<Place>) {
    && r.from < |wait| && r.from < |place|
    && place[r.from] == Forwarded(j) && wait[r.from] == Waiting(r.kind)
  }

  ghost predicate DownBoxes(wait: seq<Wait>, place: seq<Place>, down: Boxes) {
    && |wait| == |place| == |down|
    && (forall j, p :: 0 <= j < |down| && 0 <= p < |down[j]| ==> Entry(down[j][p], j, wait, place))
    && (forall j :: 0 <= j < |down| ==> Distinct(down[j]))
  }

  ghost predicate Distinct(box: seq<Request>) {
    forall p, q :: 0 <= p < q < |box| ==> box[p].from != box[q].from
  }

  // ----- the chain of ownership -----

  ghost predicate Path(chain: seq<Node>, n: nat) {
    && |chain| > 0
    && (forall k :: 0 <= k < |chain| ==> chain[k] < n)
    && (forall k, m :: 0 <= k < m < |chain| ==> chain[k] != chain[m])
  }

  ghost predicate AllReads(box: seq<Request>) {
    forall p :: 0 <= p < |box| ==> box[p].kind == Read
  }

  /** Reads, then the write request of `next`. */
  ghost predicate HandsTo(box: seq<Request>, next: Node) {
    && |box| > 0 && box[|box| - 1] == Request(Write, next)
    && forall p :: 0 <= p < |box| - 1 ==> box[p].kind == Read
  }

  ghost predicate Links(chain: seq<Node>, down: Boxes) {
    && Path(chain, |down|)
    && (forall k :: 0 <= k < |chain| - 1 ==> HandsOn(chain, down, k))
    && AllReads(down[Last(chain)])
    && (forall j :: 0 <= j < |down| && j !in chain ==> down[j] == [])
  }

  /** Each node of the chain has the write request of the next one. */
  ghost predicate HandsOn(chain: seq<Node>, down: Boxes, k: nat) {
    k + 1 < |chain| && chain[k] < |down| && HandsTo(down[chain[k]], chain[k + 1])
  }

  function Last(chain: seq<Node>): Node
    requires |chain| > 0
  {
    chain[|chain| - 1]
  }

  /** The manager knows the end of the chain, or is it. */
  ghost predicate Directory(manager: Node, dir: Node, chain: seq<Node>, down: Boxes) {
    && |chain| > 0 && manager < |down| && dir < |down|
    && (if manager in chain then manager == Last(chain) && down[manager] == [] else dir == Last(chain))
  }

  /** Ownership is at node `h`, at rest or in a write reply, and nowhere else. */
  ghost predicate Token(h: Node, pte: seq<Pte>, wait: seq<Wait>, place: seq<Place>) {
    && |pte| == |wait| == |place| && h < |pte|
    && (if wait[h].Idle? then pte[h].Owns() else wait[h].kind == Write && place[h].Answered?)
    && (forall i :: 0 <= i < |pte| ==> Entitled(i == h, pte[i], wait[i], place[i]))
  }

  ghost predicate Entitled(holder: bool, p: Pte, w: Wait, at: Place) {
    && (w.Waiting? ==> p.Invalid?)
    && (p.ReadWrite? ==> p.copyset == {})
    && (p.Owns() || (at.Answered? && w == Waiting(Write)) ==> holder)
  }

  ghost predicate Structure(s: State, l: Ledger) {
    && s.WellFormed() && s.dir < |s.pte|
    && Places(s.wait, l.place)
    && UpBoxes(s.wait, l.place, s.up)
    && ReplyBoxes(s.wait, l.place, s.replies)
    && Located(s.wait, l.place, s.down)
    && DownBoxes(s.wait, l.place, s.down)
    && Links(l.chain, s.down)
    && Directory(s.manager, s.dir, l.chain, s.down)
    && l.place[s.manager] != ToManager
    && Token(l.chain[0], s.pte, s.wait, l.place)
  }

  // ----- copies and versions -----

  function TokenVersion(p: Pte, rs: seq<Reply>): nat {
    if p.Readable() then p.version else if rs != [] then rs[0].version else 0
  }

  function TokenCopyset(p: Pte, rs: seq<Reply>): set<Node> {
    if p.Readable() then p.copyset else if rs != [] then rs[0].copyset else {}
  }

  /** A copy of version `v` at (or on its way to) node `i` is current and recorded, or will be invalidated. */
  ghost predicate Covered(i: Node, v: nat, version: nat, copyset: set<Node>, pending: nat) {
    (i in copyset && v == version) || pending > 0
  }

  ghost predicate CopyOk(i: Node, p: Pte, rs: seq<Reply>, version: nat, copyset: set<Node>, pending: nat) {
    && (p.Readable() ==> Covered(i, p.version, version, copyset, pending))
    && (rs != [] ==> rs[0].copyset == {} && Covered(i, rs[0].version, version, copyset, pending))
  }

  ghost predicate Copies(h: Node, pte: seq<Pte>, replies: seq<seq<Reply>>, pending: seq<nat>) {
    && |pte| == |replies| == |pending| && h < |pte|
    && var version, copyset := TokenVersion(pte[h], replies[h]), TokenCopyset(pte[h], replies[h]);
       forall i :: 0 <= i < |pte| && i != h ==> CopyOk(i, pte[i], replies[i], version, copyset, pending[i])
  }

  /** Ownership carries the last version written; what a node holds is never older than what it has seen. */
  ghost predicate Versions(h: Node, pte: seq<Pte>, replies: seq<seq<Reply>>, last: nat, seen: seq<nat>) {
    && |pte| == |replies| == |seen| && h < |pte|
    && TokenVersion(pte[h], replies[h]) == last
    && forall i :: 0 <= i < |pte| ==> NotOlder(pte[i], replies[i], last, seen[i])
  }

  ghost predicate NotOlder(p: Pte, rs: seq<Reply>, last: nat, seen: nat) {
    && seen <= last
    && (p.Readable() ==> seen <= p.version <= last)
    && (rs != [] ==> seen <= rs[0].version <= last)
  }

  /** The parts of the invariant that speak about page contents, given that node `h` has ownership. */
  ghost predicate Contents(h: Node, pte: seq<Pte>, replies: seq<seq<Reply>>, pending: seq<nat>, last: nat,
                           seen: seq<nat>) {
    Copies(h, pte, replies, pending) && Versions(h, pte, replies, last, seen)
  }

  ghost predicate Inv(s: State, l: Ledger) {
    && Structure(s, l) && |s.history| > 0
    && Contents(l.chain[0], s.pte, s.replies, s.invalidates, |s.history| - 1, s.seen)
  }

  lemma InitialInv(n: nat, manager: Node, page: Page)
    requires manager < n
    ensures Inv(Initial(n, manager, page), Ledger([manager], seq(n, _ => Nowhere)))
  {
  }

  // ----- which nodes can be where -----

  /** An idle node in the chain is its head and owns the page; a node asking the manager is not in it. */
  lemma ChainPlaces(s: State, l: Ledger, i: Node)
    requires Structure(s, l) && i in l.chain
    ensures i < |s.pte|
    ensures s.wait[i].Idle? ==> i == l.chain[0] && s.pte[i].Owns()
    ensures !l.place[i].ToManager?
    ensures i != l.chain[0] ==> l.place[i].Forwarded? && s.wait[i] == Waiting(Write)
  {
    var k :| 0 <= k < |l.chain| && l.chain[k] == i;
    if k > 0 {
      var j := l.chain[k - 1];
      assert HandsOn(l.chain, s.down, k - 1);
      assert Entry(s.down[j][|s.down[j]| - 1], j, s.wait, l.place);
    }
  }
}
