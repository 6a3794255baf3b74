/** How sending, forwarding and answering a request move it between the boxes. */
module VsmBoxes {
  import opened VsmHandlers
  import opened VsmInvariant

  // ----- one node's entry changes -----

  lemma UpdateOwn(wait: seq<Wait>, place: seq<Place>, up: Boxes, replies: seq<seq<Reply>>,
                  i: Node, w: Wait, p: Place, rs: seq<Reply>)
    requires Places(wait, place) && UpBoxes(wait, place, up) && ReplyBoxes(wait, place, replies)
    requires i < |wait| && (w.Idle? <==> p.Nowhere?) && ReplyMatches(w, p, rs)
    ensures Places(wait[i := w], place[i := p])
    ensures UpBoxes(wait[i := w], place[i := p], up[i := Asked(i, w, p)])
    ensures ReplyBoxes(wait[i := w], place[i := p], replies[i := rs])
    ensures up[i] == Asked(i, wait[i], place[i]) && ReplyMatches(wait[i], place[i], replies[i])
  {
  }

  lemma UpdateToken(h: Node, pte: seq<Pte>, wait: seq<Wait>, place: seq<Place>, i: Node, e: Pte, w: Wait, p: Place)
    requires Token(h, pte, wait, place) && i < |pte| && i != h && Entitled(false, e, w, p)
    ensures Token(h, pte[i := e], wait[i := w], place[i := p])
  {
  }

  /** Owner `h` stays owner when it answers a read request of `x`. */
  lemma TokenStays(h: Node, pte: seq<Pte>, wait: seq<Wait>, place: seq<Place>, x: Node, e: Pte)
    requires Token(h, pte, wait, place) && x < |pte| && x != h && wait[x] == Waiting(Read)
    requires wait[h].Idle? && e.ReadOnly? && e.Owns()
    ensures Token(h, pte[h := e], wait, place[x := Answered])
  {
    forall i | 0 <= i < |pte| ensures Entitled(i == h, pte[h := e][i], wait[i], place[x := Answered][i]) {
      assert Entitled(i == h, pte[i], wait[i], place[i]);
    }
  }

  /** Owner `h` hands over to `x`. */
  lemma TokenMoves(h: Node, pte: seq<Pte>, wait: seq<Wait>, place: seq<Place>, x: Node)
    requires Token(h, pte, wait, place) && x < |pte| && x != h && wait[x] == Waiting(Write) && wait[h].Idle?
    ensures Token(x, pte[h := Invalid], wait, place[x := Answered])
  {
    forall i | 0 <= i < |pte| ensures Entitled(i == x, pte[h := Invalid][i], wait[i], place[x := Answered][i]) {
      assert Entitled(i == h, pte[i], wait[i], place[i]);
    }
  }

  /** Node `h` comes to rest with ownership. */
  lemma TokenRests(h: Node, pte: seq<Pte>, wait: seq<Wait>, place: seq<Place>, e: Pte)
    requires Token(h, pte, wait, place) && e.ReadWrite? && e.copyset == {}
    ensures Token(h, pte[h := e], wait[h := Idle], place[h := Nowhere])
  {
    var pte', wait', place' := pte[h := e], wait[h := Idle], place[h := Nowhere];
    forall i | 0 <= i < |pte| ensures Entitled(i == h, pte'[i], wait'[i], place'[i]) {
      assert Entitled(i == h, pte[i], wait[i], place[i]);
    }
  }

  // ----- requests forwarded by the manager -----

  /** The requests listed in the boxes are those of nodes whose place says so; others may change freely. */
  lemma FreeToMove(wait: seq<Wait>, place: seq<Place>, down: Boxes, i: Node, w: Wait, p: Place)
    requires Located(wait, place, down) && DownBoxes(wait, place, down)
    requires i < |wait| && !place[i].Forwarded? && !p.Forwarded?
    ensures Located(wait[i := w], place[i := p], down) && DownBoxes(wait[i := w], place[i := p], down)
  {
    var wait', place' := wait[i := w], place[i := p];
    forall k | 0 <= k < |wait| ensures IsAt(k, wait'[k], place'[k], down) {
      assert IsAt(k, wait[k], place[k], down);
    }
    forall j, q | 0 <= j < |down| && 0 <= q < |down[j]| ensures Entry(down[j][q], j, wait', place') {
      assert Entry(down[j][q], j, wait, place);
    }
  }

  /** The manager sends `r` to node `d`. */
  lemma Forward(wait: seq<Wait>, place: seq<Place>, down: Boxes, d: Node, r: Request)
    requires Located(wait, place, down) && DownBoxes(wait, place, down)
    requires r.from < |wait| && d < |wait| && !place[r.from].Forwarded?
    ensures
      var wait', place', down' :=
        wait[r.from := Waiting(r.kind)], place[r.from := Forwarded(d)], down[d := down[d] + [r]];
      Located(wait', place', down') && DownBoxes(wait', place', down')
  {
    var wait', place', down' :=
      wait[r.from := Waiting(r.kind)], place[r.from := Forwarded(d)], down[d := down[d] + [r]];
    forall k | 0 <= k < |wait| ensures IsAt(k, wait'[k], place'[k], down') {
      assert IsAt(k, wait[k], place[k], down);
      if k == r.from { assert down'[d][|down[d]|] == r; }
    }
    forall j, q | 0 <= j < |down| && 0 <= q < |down'[j]| ensures Entry(down'[j][q], j, wait', place') {
      if q < |down[j]| { assert Entry(down[j][q], j, wait, place); }
    }
    forall j | 0 <= j < |down| ensures Distinct(down'[j]) {
      assert Distinct(down[j]);
      if j == d {
        forall q | 0 <= q < |down[d]| ensures down[d][q].from != r.from {
          assert Entry(down[d][q], d, wait, place);
        }
      }
    }
  }

  /** Node `j` takes the next request off its box and answers it. */
  lemma TakeHead(wait: seq<Wait>, place: seq<Place>, down: Boxes, j: Node)
    requires Located(wait, place, down) && DownBoxes(wait, place, down)
    requires j < |down| && down[j] != []
    ensures
      var r := down[j][0];
      && Entry(r, j, wait, place)
      && Located(wait, place[r.from := Answered], down[j := down[j][1..]])
      && DownBoxes(wait, place[r.from := Answered], down[j := down[j][1..]])
  {
    var r := down[j][0];
    assert Entry(r, j, wait, place);
    var place', down' := place[r.from := Answered], down[j := down[j][1..]];
    forall k | 0 <= k < |wait| ensures IsAt(k, wait[k], place'[k], down') {
      assert IsAt(k, wait[k], place[k], down);
      if k != r.from && place[k] == Forwarded(j) && wait[k].Waiting? {
        var q :| 0 <= q < |down[j]| && down[j][q] == Request(wait[k].kind, k);
        assert down'[j][q - 1] == Request(wait[k].kind, k);
      }
    }
    assert Distinct(down[j]);
    forall i, q | 0 <= i < |down| && 0 <= q < |down'[i]| ensures Entry(down'[i][q], i, wait, place') {
      var q' := if i == j then q + 1 else q;
      assert down'[i][q] == down[i][q'];
      assert Entry(down[i][q'], i, wait, place);
    }
    forall i | 0 <= i < |down| ensures Distinct(down'[i]) {
      assert Distinct(down[i]);
    }
  }

  // ----- the chain -----

  lemma LinkRead(chain: seq<Node>, down: Boxes, r: Request)
    requires Links(chain, down) && r.kind == Read
    ensures Links(chain, down[Last(chain) := down[Last(chain)] + [r]])
  {
    var d := Last(chain);
    var down' := down[d := down[d] + [r]];
    forall k | 0 <= k < |chain| - 1 ensures HandsOn(chain, down', k) {
      assert HandsOn(chain, down, k);
    }
    assert d == chain[|chain| - 1] && d in chain;
  }

  lemma LinkWrite(chain: seq<Node>, down: Boxes, r: Request)
    requires Links(chain, down) && r.kind == Write && r.from < |down| && r.from !in chain
    ensures Links(chain + [r.from], down[Last(chain) := down[Last(chain)] + [r]])
  {
    var d, chain' := Last(chain), chain + [r.from];
    var down' := down[d := down[d] + [r]];
    forall k | 0 <= k < |chain'| - 1 ensures HandsOn(chain', down', k) {
      if k < |chain| - 1 {
        assert HandsOn(chain, down, k);
      }
    }
    assert down[r.from] == [];
    assert r.from != d by { assert d == chain[|chain| - 1]; }
    assert AllReads(down'[Last(chain')]);
    forall j | 0 <= j < |down| && j !in chain' ensures down'[j] == [] {
      assert j !in chain && d in chain;
    }
  }

  /** The head of the chain serves a read: the chain stays. */
  lemma LinkServeRead(chain: seq<Node>, down: Boxes)
    requires Links(chain, down) && down[chain[0]] != [] && down[chain[0]][0].kind == Read
    ensures Links(chain, down[chain[0] := down[chain[0]][1..]])
  {
    var h := chain[0];
    var down' := down[h := down[h][1..]];
    forall k | 0 <= k < |chain| - 1 ensures HandsOn(chain, down', k) {
      assert HandsOn(chain, down, k);
    }
  }

  /** The head of the chain serves a write: it was its last request and came from the next node. */
  lemma LinkServeWrite(chain: seq<Node>, down: Boxes)
    requires Links(chain, down) && down[chain[0]] != [] && down[chain[0]][0].kind == Write
    ensures |chain| > 1 && down[chain[0]] == [Request(Write, chain[1])]
    ensures Links(chain[1..], down[chain[0] := down[chain[0]][1..]])
  {
    var h := chain[0];
    var box := down[h];
    assert |chain| > 1;
    assert HandsOn(chain, down, 0);
    var chain', down' := chain[1..], down[h := down[h][1..]];
    forall k | 0 <= k < |chain'| - 1 ensures HandsOn(chain', down', k) {
      assert HandsOn(chain, down, k + 1);
    }
    forall j | 0 <= j < |down| && j !in chain' ensures down'[j] == [] {
      if j != h { assert j !in chain; }
    }
  }

  lemma DirectoryServed(manager: Node, dir: Node, chain: seq<Node>, down: Boxes)
    requires Directory(manager, dir, chain, down) && Path(chain, |down|) && |chain| > 1
    requires manager != chain[0] && down[chain[0]] != []
    ensures Directory(manager, dir, chain[1..], down[chain[0] := down[chain[0]][1..]])
  {
    assert manager in chain <==> manager in chain[1..];
  }

  /** A manager that heads the chain is all of it, and can start a new one. */
  lemma RestartChain(manager: Node, dir: Node, chain: seq<Node>, down: Boxes, i: Node)
    requires Directory(manager, dir, chain, down) && Links(chain, down) && chain[0] == manager
    requires i < |down| && i != manager
    ensures Links([i], down) && Directory(manager, i, [i], down)
  {
    assert chain == [manager];
  }
}
