/**
 Which structure blocks the parser accepts, and what the tokens are in bytes.
 */
module FdtAccepts {
  import opened Wrappers
  import opened DeviceTree
  import opened DeviceTreeBuild
  import opened Fdt
  import opened Units

  // ----- bytes -----

  lemma WordBytes(x: nat)
    requires x < 256
    ensures U32(x) == [0, 0, 0, x]
  {
    assert BigEndian(x / 256 / 256 / 256, 1) == [] + [0];
    assert BigEndian(x / 256 / 256, 2) == [0] + [0];
    assert BigEndian(x / 256, 3) == [0, 0] + [0];
  }

  /** The five marks as the words of section 5.4.1 of the Devicetree Specification; any other word is an error. */
  lemma Marks(blob: seq<byte>, cur: nat, x: byte)
    requires 4 * cur + 4 <= |blob| && blob[4 * cur..4 * cur + 4] == [0, 0, 0, x]
    ensures x == 9 <==> Decode(blob, cur) == AtEnd
    ensures x == 1 ==> Decode(blob, cur) == BeginAt(blob, cur)
    ensures x == 2 <==> Decode(blob, cur) == Got(End, cur + 1)
    ensures x == 3 ==> Decode(blob, cur) == PropAt(blob, cur)
    ensures x == 4 <==> Decode(blob, cur) == Got(Nop, cur + 1)
    ensures x !in {1, 2, 3, 4, 9} ==> Decode(blob, cur) == Bad
  {
    WordBytes(x);
    ReadWritten(blob, 4 * cur, x);
  }

  /** Tokens byte by byte: a name and its NUL padded to words; a property with its length before its name. */
  lemma TokenBytes(name: seq<byte>, data: seq<byte>, off: byte)
    requires |data| < 256
    ensures Encode(Begin(name)) == [0, 0, 0, 1] + (name + [0] + Pad(|name| + 1))
    ensures Encode(Property(Prop(off, data)))
      == [0, 0, 0, 3] + ([0, 0, 0, |data|] + ([0, 0, 0, off] + (data + Pad(|data|))))
    ensures Encode(End) == [0, 0, 0, 2] && Encode(Nop) == [0, 0, 0, 4]
  {
    assert U32(1) == [0, 0, 0, 1] by { WordBytes(1); }
    assert U32(2) == [0, 0, 0, 2] by { WordBytes(2); }
    assert U32(3) == [0, 0, 0, 3] by { WordBytes(3); }
    assert U32(4) == [0, 0, 0, 4] by { WordBytes(4); }
    assert U32(|data|) == [0, 0, 0, |data|] by { WordBytes(|data|); }
    assert U32(off) == [0, 0, 0, off] by { WordBytes(off); }
  }

  /** strlen finds no end exactly when there is no NUL. */
  lemma {:induction false} NoNul(blob: seq<byte>, at: nat)
    requires at <= |blob|
    ensures StrLen(blob, at) == None <==> 0 !in blob[at..]
    decreases |blob| - at
  {
    if at < |blob| {
      NoNul(blob, at + 1);
      assert blob[at..] == [blob[at]] + blob[at + 1..];
    }
  }

  // ----- tokens -----

  /** Every node that begins ends, and properties are inside nodes. */
  predicate Balanced(ts: seq<Token>, depth: nat)
    decreases |ts|
  {
    if ts == [] then depth == 0
    else match ts[0]
      case Begin(_) => Balanced(ts[1..], depth + 1)
      case End => depth > 0 && Balanced(ts[1..], depth - 1)
      case Property(_) => depth > 0 && Balanced(ts[1..], depth)
      case Nop => Balanced(ts[1..], depth)
  }

  /** How many nodes there are on the way up from a node. */
  ghost function Above(nodes: seq<Node>, n: Option<nat>): nat
    requires ParentsFirst(nodes) && (n.Some? ==> n.value < |nodes|)
    decreases if n.Some? then n.value + 1 else 0
  {
    if n == None then 0 else
      assert ParentFirst(nodes, n.value);
      1 + Above(nodes, nodes[n.value].parent)
  }

  ghost predicate SameParents(a: seq<Node>, b: seq<Node>) {
    |a| <= |b| && forall i :: 0 <= i < |a| ==> a[i].parent == b[i].parent
  }

  lemma {:induction false} SameAbove(a: seq<Node>, b: seq<Node>, n: Option<nat>)
    requires ParentsFirst(a) && ParentsFirst(b) && SameParents(a, b) && (n.Some? ==> n.value < |a|)
    ensures Above(a, n) == Above(b, n)
    decreases if n.Some? then n.value + 1 else 0
  {
    if n.Some? {
      assert ParentFirst(a, n.value);
      SameAbove(a, b, a[n.value].parent);
    }
  }

  /** The depth counter is the number of open nodes. */
  ghost predicate Counts(b: Builder)
    requires Fine(b)
  {
    b.depth == Above(b.nodes, b.node)
  }

  lemma TakeCounts(b: Builder, t: Token)
    requires Fine(b) && Counts(b)
    ensures Take(b, t).Some? <==> (t.End? || t.Property? ==> b.depth > 0)
    ensures Take(b, t).Some? ==> Fine(Take(b, t).value) && Counts(Take(b, t).value)
  {
    if Take(b, t).Some? {
      var b' := Take(b, t).value;
      TakeFine(b, t);
      SameAbove(b.nodes, b'.nodes, b.node);
    }
  }

  /** The tokens are taken and no node stays open exactly when they are balanced. */
  lemma {:induction false} TakesBalanced(b: Builder, ts: seq<Token>)
    requires Fine(b) && Counts(b)
    ensures Balanced(ts, b.depth) <==> TakeAll(b, ts).Some? && TakeAll(b, ts).value.node == None
    decreases |ts|
  {
    if ts != [] {
      TakeCounts(b, ts[0]);
      if Take(b, ts[0]).Some? { TakesBalanced(Take(b, ts[0]).value, ts[1..]); }
    }
  }

  /** The tokens from word `cur` up to the end mark. */
  ghost function TokensFrom(tape: Tape, cur: nat): Option<seq<Token>>
    requires Moving(tape)
    decreases |tape| - cur
  {
    if cur >= |tape| then None
    else
      assert MovesOn(tape, cur);
      match tape[cur]
      case Bad => None
      case AtEnd => Some([])
      case Got(t, next) =>
        var rest := TokensFrom(tape, next);
        if rest == None then None else Some([t] + rest.value)
  }

  lemma {:induction false} RunTakes(tape: Tape, cur: nat, b: Builder)
    requires Moving(tape) && Fine(b)
    ensures Run(tape, cur, b).Parsed? <==>
      var ts := TokensFrom(tape, cur);
      ts.Some? && TakeAll(b, ts.value).Some? && TakeAll(b, ts.value).value.node == None
    ensures var ts := TokensFrom(tape, cur); Run(tape, cur, b).Parsed? ==>
      var b' := TakeAll(b, ts.value).value; Run(tape, cur, b).root == b'.root && Run(tape, cur, b).nodes == b'.nodes
    decreases |tape| - cur
  {
    if cur < |tape| && tape[cur].Got? {
      assert MovesOn(tape, cur);
      var t, next := tape[cur].token, tape[cur].next;
      var rest := TokensFrom(tape, next);
      if rest.Some? { assert ([t] + rest.value)[1..] == rest.value; }
      if Take(b, t).Some? {
        TakeFine(b, t);
        RunTakes(tape, next, Take(b, t).value);
      }
    }
  }

  /** The parser accepts a block exactly when it is tokens up to an end mark and they are balanced. */
  lemma AcceptsBalanced(blob: seq<byte>)
    ensures var ts := TokensFrom(TapeOf(blob), 0);
      Run(TapeOf(blob), 0, Empty).Parsed? <==> ts.Some? && Balanced(ts.value, 0)
  {
    var tape := TapeOf(blob);
    RunTakes(tape, 0, Empty);
    if TokensFrom(tape, 0).Some? { TakesBalanced(Empty, TokensFrom(tape, 0).value); }
  }
}
