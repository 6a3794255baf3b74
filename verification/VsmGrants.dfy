/** How copies and versions change when ownership is used, shared, passed on or revoked. */
module VsmGrants {
  import opened VsmHandlers
  import opened VsmProtocol
  import opened VsmInvariant

  /** Owner `h` answers a read request of `x`. */
  lemma ShareCopy(h: Node, x: Node, pte: seq<Pte>, replies: seq<seq<Reply>>, pending: seq<nat>, last: nat,
                  seen: seq<nat>)
    requires Contents(h, pte, replies, pending, last, seen)
    requires x < |pte| && x != h && pte[h].Owns() && pte[x].Invalid? && replies[h] == []
    ensures Contents(h, pte[h := ReadOnly(pte[h].version, pte[h].copyset + {x})],
                     replies[x := [Reply(false, pte[h].version, {})]], pending, last, seen)
  {
    var v, cs := pte[h].version, pte[h].copyset;
    var pte', replies' := pte[h := ReadOnly(v, cs + {x})], replies[x := [Reply(false, v, {})]];
    forall i | 0 <= i < |pte| && i != h ensures CopyOk(i, pte'[i], replies'[i], v, cs + {x}, pending[i]) {
      assert CopyOk(i, pte[i], replies[i], v, cs, pending[i]);
    }
    forall i | 0 <= i < |pte| ensures NotOlder(pte'[i], replies'[i], last, seen[i]) {
      assert NotOlder(pte[i], replies[i], last, seen[i]);
    }
  }

  /** Owner `h` answers a write request of `x`: ownership is now in the reply. */
  lemma PassOwnership(h: Node, x: Node, pte: seq<Pte>, replies: seq<seq<Reply>>, pending: seq<nat>, last: nat,
                      seen: seq<nat>)
    requires Contents(h, pte, replies, pending, last, seen)
    requires x < |pte| && x != h && pte[h].Owns() && pte[x].Invalid? && replies[h] == []
    ensures Contents(x, pte[h := Invalid], replies[x := [Reply(true, pte[h].version, pte[h].copyset)]],
      pending, last, seen)
  {
    var v, cs := pte[h].version, pte[h].copyset;
    var pte', replies' := pte[h := Invalid], replies[x := [Reply(true, v, cs)]];
    forall i | 0 <= i < |pte| && i != x ensures CopyOk(i, pte'[i], replies'[i], v, cs, pending[i]) {
      if i != h { assert CopyOk(i, pte[i], replies[i], v, cs, pending[i]); }
    }
    forall i | 0 <= i < |pte| ensures NotOlder(pte'[i], replies'[i], last, seen[i]) {
      assert NotOlder(pte[i], replies[i], last, seen[i]);
    }
  }

  /** A read reply becomes a copy. */
  lemma ReceiveCopy(h: Node, i: Node, pte: seq<Pte>, replies: seq<seq<Reply>>, pending: seq<nat>, last: nat,
                    seen: seq<nat>)
    requires Contents(h, pte, replies, pending, last, seen)
    requires i < |pte| && i != h && pte[i].Invalid? && |replies[i]| == 1
    ensures replies[i][0].copyset == {}
    ensures Contents(h, pte[i := ReadOnly(replies[i][0].version, {})], replies[i := []], pending, last, seen)
  {
    var pte', replies' := pte[i := ReadOnly(replies[i][0].version, {})], replies[i := []];
    var version, copyset := TokenVersion(pte[h], replies[h]), TokenCopyset(pte[h], replies[h]);
    assert CopyOk(i, pte[i], replies[i], version, copyset, pending[i]);
    forall k | 0 <= k < |pte| && k != h ensures CopyOk(k, pte'[k], replies'[k], version, copyset, pending[k]) {
      assert CopyOk(k, pte[k], replies[k], version, copyset, pending[k]);
    }
    forall k | 0 <= k < |pte| ensures NotOlder(pte'[k], replies'[k], last, seen[k]) {
      assert NotOlder(pte[k], replies[k], last, seen[k]);
    }
  }

  /** Node `h` takes exclusive access, invalidating the copyset that came with ownership. */
  lemma TakeExclusive(h: Node, pte: seq<Pte>, replies: seq<seq<Reply>>, pending: seq<nat>, last: nat, seen: seq<nat>)
    requires Contents(h, pte, replies, pending, last, seen)
    ensures Contents(h, pte[h := ReadWrite(last, {})], replies[h := []],
                     AddInvalidates(pending, TokenCopyset(pte[h], replies[h]) - {h}), last, seen)
  {
    var version, copyset := TokenVersion(pte[h], replies[h]), TokenCopyset(pte[h], replies[h]);
    var pte', replies', pending' :=
      pte[h := ReadWrite(last, {})], replies[h := []], AddInvalidates(pending, copyset - {h});
    forall k | 0 <= k < |pte| && k != h ensures CopyOk(k, pte'[k], replies'[k], last, {}, pending'[k]) {
      assert CopyOk(k, pte[k], replies[k], version, copyset, pending[k]);
    }
    forall k | 0 <= k < |pte| ensures NotOlder(pte'[k], replies'[k], last, seen[k]) {
      assert NotOlder(pte[k], replies[k], last, seen[k]);
    }
  }

  /** A node with exclusive access writes. */
  lemma NewVersion(h: Node, pte: seq<Pte>, replies: seq<seq<Reply>>, pending: seq<nat>, last: nat, seen: seq<nat>)
    requires Contents(h, pte, replies, pending, last, seen)
    requires pte[h] == ReadWrite(last, {}) && replies[h] == []
    ensures Contents(h, pte[h := ReadWrite(last + 1, {})], replies, pending, last + 1, seen[h := last + 1])
  {
    var pte', seen' := pte[h := ReadWrite(last + 1, {})], seen[h := last + 1];
    forall k | 0 <= k < |pte| && k != h ensures CopyOk(k, pte'[k], replies[k], last + 1, {}, pending[k]) {
      assert CopyOk(k, pte[k], replies[k], last, {}, pending[k]);
    }
    forall k | 0 <= k < |pte| ensures NotOlder(pte'[k], replies[k], last + 1, seen'[k]) {
      assert NotOlder(pte[k], replies[k], last, seen[k]);
    }
  }

  /** Both, for a handler that was given something to write. */
  lemma TakeAndWrite(h: Node, pte: seq<Pte>, replies: seq<seq<Reply>>, pending: seq<nat>, last: nat, seen: seq<nat>)
    requires Contents(h, pte, replies, pending, last, seen)
    ensures Contents(h, pte[h := ReadWrite(last + 1, {})], replies[h := []],
                     AddInvalidates(pending, TokenCopyset(pte[h], replies[h]) - {h}), last + 1, seen[h := last + 1])
  {
    TakeExclusive(h, pte, replies, pending, last, seen);
    NewVersion(h, pte[h := ReadWrite(last, {})], replies[h := []],
               AddInvalidates(pending, TokenCopyset(pte[h], replies[h]) - {h}), last, seen);
    assert pte[h := ReadWrite(last, {})][h := ReadWrite(last + 1, {})] == pte[h := ReadWrite(last + 1, {})];
  }

  /** A copy is dropped: nothing else depends on it, so an invalidate for it is spent. */
  lemma DropCopy(h: Node, i: Node, pte: seq<Pte>, replies: seq<seq<Reply>>, pending: seq<nat>, count: nat, last: nat,
                 seen: seq<nat>)
    requires Contents(h, pte, replies, pending, last, seen)
    requires i < |pte| && i != h && replies[i] == []
    ensures Contents(h, pte[i := Invalid], replies, pending[i := count], last, seen)
  {
    var pte', pending' := pte[i := Invalid], pending[i := count];
    var version, copyset := TokenVersion(pte[h], replies[h]), TokenCopyset(pte[h], replies[h]);
    forall k | 0 <= k < |pte| && k != h ensures CopyOk(k, pte'[k], replies[k], version, copyset, pending'[k]) {
      assert CopyOk(k, pte[k], replies[k], version, copyset, pending[k]);
    }
    forall k | 0 <= k < |pte| ensures NotOlder(pte'[k], replies[k], last, seen[k]) {
      assert NotOlder(pte[k], replies[k], last, seen[k]);
    }
  }

  /** An invalidate that reaches the owner is spent without effect. */
  lemma IgnoreInvalidate(h: Node, pte: seq<Pte>, replies: seq<seq<Reply>>, pending: seq<nat>, count: nat, last: nat,
                         seen: seq<nat>)
    requires Contents(h, pte, replies, pending, last, seen)
    ensures Contents(h, pte, replies, pending[h := count], last, seen)
  {
    var version, copyset := TokenVersion(pte[h], replies[h]), TokenCopyset(pte[h], replies[h]);
    forall k | 0 <= k < |pte| && k != h
      ensures CopyOk(k, pte[k], replies[k], version, copyset, pending[h := count][k]) {
      assert CopyOk(k, pte[k], replies[k], version, copyset, pending[k]);
    }
  }

  /** A guest reads a copy its node holds. */
  lemma ReadCopy(h: Node, i: Node, pte: seq<Pte>, replies: seq<seq<Reply>>, pending: seq<nat>, last: nat,
                 seen: seq<nat>)
    requires Contents(h, pte, replies, pending, last, seen)
    requires i < |pte| && pte[i].Readable() && replies[i] == []
    ensures seen[i] <= pte[i].version && Contents(h, pte, replies, pending, last, seen[i := pte[i].version])
  {
    assert NotOlder(pte[i], replies[i], last, seen[i]);
    forall k | 0 <= k < |pte| ensures NotOlder(pte[k], replies[k], last, seen[i := pte[i].version][k]) {
      assert NotOlder(pte[k], replies[k], last, seen[k]);
    }
  }
}
