/**
 What a run of dt_node_alloc and dt_prop_alloc in document order leaves in memory: the nodes of a
 tree laid out one after the other, reading back as its mirror image.
 */
module DeviceTreeBuild {
  import opened Wrappers
  import opened DeviceTree
  import opened Units

  /** The nodes of `t`, the first at index `base`; `next` is the sibling inserted before it. */
  function Layout(t: Tree, base: nat, parent: Option<nat>, next: Option<nat>): (r: seq<Node>)
    ensures |r| == Size(t)
    decreases t
  {
    [Node(t.name, parent, Last(t.children, base + 1, None), next, Reverse(t.props))]
      + LayoutAll(t.children, base + 1, Some(base), None)
  }

  function LayoutAll(f: seq<Tree>, base: nat, parent: Option<nat>, next: Option<nat>): (r: seq<Node>)
    ensures |r| == SizeAll(f)
    decreases f
  {
    if f == [] then [] else
      Layout(f[0], base, parent, next) + LayoutAll(f[1..], base + Size(f[0]), parent, Some(base))
  }

  /** The last of the siblings `f`, or `next` when there are none. */
  function Last(f: seq<Tree>, base: nat, next: Option<nat>): Option<nat> {
    if f == [] then next else Last(f[1..], base + Size(f[0]), Some(base))
  }

  // ----- reading the layout back -----

  ghost predicate Holds(nodes: seq<Node>, base: nat, part: seq<Node>) {
    base + |part| <= |nodes| && nodes[base..base + |part|] == part
  }

  lemma HoldsParts(nodes: seq<Node>, base: nat, a: seq<Node>, b: seq<Node>)
    requires Holds(nodes, base, a + b)
    ensures Holds(nodes, base, a) && Holds(nodes, base + |a|, b)
  {
    var n := base + |a|;
    assert nodes[base..n] == nodes[base..base + |a + b|][..|a|];
    assert nodes[n..n + |b|] == nodes[base..base + |a + b|][|a|..];
  }

  /** Siblings laid out after `done` read back, last first, in front of what `next` reads. */
  lemma {:induction false} LayoutReads(nodes: seq<Node>, f: seq<Tree>, base: nat, parent: Option<nat>,
                                       next: Option<nat>, done: seq<Tree>)
    requires Holds(nodes, base, LayoutAll(f, base, parent, next)) && Reads(nodes, next, parent, done)
    ensures Reads(nodes, Last(f, base, next), parent, MirrorAll(f) + done)
    decreases f, 1
  {
    if f == [] {
      assert MirrorAll(f) + done == done;
    } else {
      var t, base' := f[0], base + Size(f[0]);
      LayoutCons(f, base, base', parent, next);
      HoldsParts(nodes, base, Layout(t, base, parent, next), LayoutAll(f[1..], base', parent, Some(base)));
      assert Reads(nodes, Some(base), parent, [Mirror(t)] + done)
        by { TreeLayoutReads(nodes, t, base, parent, next, done); }
      MirrorCons(f, done);
      LayoutReads(nodes, f[1..], base', parent, Some(base), [Mirror(t)] + done);
    }
  }

  lemma MirrorCons(f: seq<Tree>, done: seq<Tree>)
    requires f != []
    ensures MirrorAll(f[1..]) + ([Mirror(f[0])] + done) == MirrorAll(f) + done
  {
  }

  lemma {:induction false} TreeLayoutReads(nodes: seq<Node>, t: Tree, base: nat, parent: Option<nat>, next: Option<nat>,
                                           done: seq<Tree>)
    requires Holds(nodes, base, Layout(t, base, parent, next)) && Reads(nodes, next, parent, done)
    ensures Reads(nodes, Some(base), parent, [Mirror(t)] + done)
    decreases t, 0
  {
    FirstNode(nodes, t, base, parent, next);
    assert Reads(nodes, Last(t.children, base + 1, None), Some(base), MirrorAll(t.children)) by {
      assert Reads(nodes, None, Some(base), []);
      LayoutReads(nodes, t.children, base + 1, Some(base), None, []);
      assert MirrorAll(t.children) + [] == MirrorAll(t.children);
    }
    OneMoreTree(nodes, t, base, parent, done);
  }

  lemma OneMoreTree(nodes: seq<Node>, t: Tree, base: nat, parent: Option<nat>, done: seq<Tree>)
    requires base < |nodes| && nodes[base].parent == parent && nodes[base].name == t.name
    requires nodes[base].props == Reverse(t.props)
    requires Reads(nodes, nodes[base].child, Some(base), MirrorAll(t.children))
    requires Reads(nodes, nodes[base].next, parent, done)
    ensures Reads(nodes, Some(base), parent, [Mirror(t)] + done)
  {
    assert ([Mirror(t)] + done)[1..] == done;
  }

  lemma FirstNode(nodes: seq<Node>, t: Tree, base: nat, parent: Option<nat>, next: Option<nat>)
    requires Holds(nodes, base, Layout(t, base, parent, next))
    ensures nodes[base] == Node(t.name, parent, Last(t.children, base + 1, None), next, Reverse(t.props))
    ensures Holds(nodes, base + 1, LayoutAll(t.children, base + 1, Some(base), None))
  {
    var here := Layout(t, base, parent, next);
    HoldsParts(nodes, base, [here[0]], LayoutAll(t.children, base + 1, Some(base), None));
    assert nodes[base] == nodes[base..base + 1][0] == here[0];
  }

  /** The memory of a whole tree reads as its mirror image. */
  lemma TreeReads(t: Tree)
    ensures Reads(Layout(t, 0, None, None), Some(0), None, [Mirror(t)])
  {
    var nodes := Layout(t, 0, None, None);
    assert LayoutAll([t][1..], Size(t), None, Some(0)) == [];
    assert LayoutAll([t], 0, None, None) == nodes + [] == nodes;
    assert nodes[0..|nodes|] == nodes;
    LayoutReads(nodes, [t], 0, None, None, []);
    assert MirrorAll([t][1..]) == [];
    assert MirrorAll([t]) + [] == [Mirror(t)];
    assert Last([t], 0, None) == Last([t][1..], Size(t), Some(0)) == Some(0);
  }

  lemma {:induction false} LayoutParents(f: seq<Tree>, base: nat, parent: Option<nat>, next: Option<nat>, k: nat)
    requires (parent.Some? ==> parent.value < base) && k < SizeAll(f)
    ensures var q := LayoutAll(f, base, parent, next)[k].parent; q.Some? ==> q.value < base + k
    decreases f
  {
    var t := f[0];
    if k >= Size(t) {
      LayoutParents(f[1..], base + Size(t), parent, Some(base), k - Size(t));
    } else if k > 0 {
      LayoutParents(t.children, base + 1, Some(base), None, k - 1);
    }
  }

  lemma TreeParents(t: Tree)
    ensures ParentsFirst(Layout(t, 0, None, None))
  {
    var nodes := Layout(t, 0, None, None);
    assert LayoutAll([t][1..], Size(t), None, Some(0)) == [];
    assert LayoutAll([t], 0, None, None) == nodes + [] == nodes;
    assert SizeAll([t][1..]) == 0;
    forall i | 0 <= i < |nodes| ensures ParentFirst(nodes, i) {
      LayoutParents([t], 0, None, None, i);
    }
  }

  // ----- building it -----

  datatype Token = Begin(name: seq<byte>) | End | Property(prop: Prop) | Nop

  /** The builder: the nodes so far, the node being filled and the first root. */
  datatype Builder = Builder(nodes: seq<Node>, node: Option<nat>, root: Option<nat>, depth: nat)

  ghost predicate Fine(b: Builder) {
    (b.node.Some? ==> b.node.value < |b.nodes|) && ParentsFirst(b.nodes)
  }

  /** What one token does; None where the parser panics or loads through a null pointer. */
  function Take(b: Builder, t: Token): (r: Option<Builder>)
    requires b.node.Some? ==> b.node.value < |b.nodes|
  {
    match t
    case Begin(name) =>
      var n := |b.nodes|;
      Some(Builder(NodeAlloc(b.nodes, b.node, name), Some(n), if b.root == None then Some(n) else b.root, b.depth + 1))
    case End =>
      if b.depth == 0 || b.node == None then None
      else Some(b.(node := b.nodes[b.node.value].parent, depth := b.depth - 1))
    case Property(p) =>
      if b.node == None then None else Some(b.(nodes := PropAlloc(b.nodes, b.node.value, p)))
    case Nop => Some(b)
  }

  lemma TakeFine(b: Builder, t: Token)
    requires Fine(b) && Take(b, t).Some?
    ensures Fine(Take(b, t).value)
  {
    var b' := Take(b, t).value;
    if t.End? { assert ParentFirst(b.nodes, b.node.value); }
    forall i | 0 <= i < |b'.nodes| ensures ParentFirst(b'.nodes, i) {
      if i < |b.nodes| { assert ParentFirst(b.nodes, i); }
    }
  }

  function TakeAll(b: Builder, ts: seq<Token>): (r: Option<Builder>)
    requires Fine(b)
    ensures r.Some? ==> Fine(r.value)
    decreases |ts|
  {
    if ts == [] then Some(b)
    else
      var r := Take(b, ts[0]);
      if r == None then None else
        assert Fine(r.value) by { TakeFine(b, ts[0]); }
        TakeAll(r.value, ts[1..])
  }

  lemma {:induction false} TakeConcat(b: Builder, s: seq<Token>, t: seq<Token>, m: Builder)
    requires Fine(b) && TakeAll(b, s) == Some(m)
    ensures TakeAll(b, s + t) == TakeAll(m, t)
    decreases |s|
  {
    if s == [] {
      assert s + t == t;
    } else {
      TakeFine(b, s[0]);
      assert (s + t)[1..] == s[1..] + t;
      TakeConcat(Take(b, s[0]).value, s[1..], t, m);
    }
  }

  // ----- the tokens of a tree -----

  /** The structure block of section 5.4 of the Devicetree Specification, without NOPs. */
  function Flat(t: Tree): seq<Token>
    decreases t, 0
  {
    [Begin(t.name)] + (FlatProps(t.props) + (FlatAll(t.children) + [End]))
  }

  function FlatAll(f: seq<Tree>): seq<Token>
    decreases f, 1
  {
    if f == [] then [] else Flat(f[0]) + FlatAll(f[1..])
  }

  function FlatProps(ps: seq<Prop>): seq<Token> {
    if ps == [] then [] else [Property(ps[0])] + FlatProps(ps[1..])
  }

  function Strip(ts: seq<Token>): seq<Token> {
    if ts == [] then [] else if ts[0] == Nop then Strip(ts[1..]) else [ts[0]] + Strip(ts[1..])
  }

  lemma {:induction false} NopsDoNothing(b: Builder, ts: seq<Token>)
    requires Fine(b)
    ensures TakeAll(b, ts) == TakeAll(b, Strip(ts))
    decreases |ts|
  {
    if ts != [] && Take(b, ts[0]).Some? {
      TakeFine(b, ts[0]);
      NopsDoNothing(Take(b, ts[0]).value, ts[1..]);
    }
  }

  /** The nodes so far, with the current one pointing at a new child. */
  function Linked(b: Builder): seq<Node>
    requires Fine(b)
  {
    if b.node == None then b.nodes else b.nodes[b.node.value := b.nodes[b.node.value].(child := Some(|b.nodes|))]
  }

  function Sibling(b: Builder): Option<nat>
    requires Fine(b)
  {
    if b.node == None then None else b.nodes[b.node.value].child
  }

  /** The builder after a whole tree was added below its current node. */
  function Added(b: Builder, t: Tree): Builder
    requires Fine(b)
  {
    b.(nodes := Linked(b) + Layout(t, |b.nodes|, b.node, Sibling(b)),
       root := if b.root == None then Some(|b.nodes|) else b.root)
  }

  /** Properties go to the front of the list of the current node. */
  lemma {:induction false} TakeProps(b: Builder, ps: seq<Prop>, n: nat)
    requires Fine(b) && b.node == Some(n)
    ensures TakeAll(b, FlatProps(ps))
      == Some(b.(nodes := b.nodes[n := b.nodes[n].(props := Reverse(ps) + b.nodes[n].props)]))
    decreases |ps|
  {
    if ps == [] {
      assert Reverse(ps) + b.nodes[n].props == b.nodes[n].props;
      assert b.nodes[n := b.nodes[n]] == b.nodes;
    } else {
      TakeFine(b, Property(ps[0]));
      var b' := Take(b, Property(ps[0])).value;
      assert TakeAll(b, FlatProps(ps)) == TakeAll(b', FlatProps(ps[1..])) by {
        assert FlatProps(ps)[1..] == FlatProps(ps[1..]);
      }
      TakeProps(b', ps[1..], n);
      PropsStep(b.nodes, ps, n);
    }
  }

  lemma PropsStep(s: seq<Node>, ps: seq<Prop>, n: nat)
    requires n < |s| && ps != []
    ensures var s' := PropAlloc(s, n, ps[0]);
      s'[n := s'[n].(props := Reverse(ps[1..]) + s'[n].props)] == s[n := s[n].(props := Reverse(ps) + s[n].props)]
  {
    assert Reverse(ps[1..]) + ([ps[0]] + s[n].props) == Reverse(ps) + s[n].props;
  }

  lemma {:induction false} TakeForest(b: Builder, f: seq<Tree>, n: nat)
    requires Fine(b) && b.node == Some(n) && b.root.Some?
    ensures TakeAll(b, FlatAll(f)) == Some(b.(nodes :=
      b.nodes[n := b.nodes[n].(child := Last(f, |b.nodes|, b.nodes[n].child))]
      + LayoutAll(f, |b.nodes|, Some(n), b.nodes[n].child)))
    decreases f, 1
  {
    if f == [] {
      assert b.nodes[n := b.nodes[n]] + [] == b.nodes;
    } else {
      TakeTree(b, f[0]);
      var b' := Added(b, f[0]);
      TakeConcat(b, Flat(f[0]), FlatAll(f[1..]), b');
      TakeForest(b', f[1..], n);
      ForestStep(b.nodes, f, n);
    }
  }

  lemma ForestStep(s: seq<Node>, f: seq<Tree>, n: nat)
    requires n < |s| && f != []
    ensures var s' := s[n := s[n].(child := Some(|s|))] + Layout(f[0], |s|, Some(n), s[n].child);
      && n < |s'| == |s| + Size(f[0])
      && s'[n := s'[n].(child := Last(f[1..], |s'|, s'[n].child))] + LayoutAll(f[1..], |s'|, Some(n), s'[n].child)
         == s[n := s[n].(child := Last(f, |s|, s[n].child))] + LayoutAll(f, |s|, Some(n), s[n].child)
  {
    var c, end := s[n].child, |s| + Size(f[0]);
    var here, rest, last := Layout(f[0], |s|, Some(n), c), LayoutAll(f[1..], end, Some(n), Some(|s|)), Last(f, |s|, c);
    Relink(s, n, Some(|s|), last, here, rest);
    LayoutCons(f, |s|, end, Some(n), c);
  }

  lemma LayoutCons(f: seq<Tree>, base: nat, base': nat, parent: Option<nat>, next: Option<nat>)
    requires f != [] && base' == base + Size(f[0])
    ensures LayoutAll(f, base, parent, next)
      == Layout(f[0], base, parent, next) + LayoutAll(f[1..], base', parent, Some(base))
    ensures Last(f, base, next) == Last(f[1..], base', Some(base))
  {
  }

  lemma Relink(s: seq<Node>, n: nat, c: Option<nat>, d: Option<nat>, here: seq<Node>, rest: seq<Node>)
    requires n < |s|
    ensures var s' := s[n := s[n].(child := c)] + here;
      && s'[n].child == c
      && s'[n := s'[n].(child := d)] + rest == s[n := s[n].(child := d)] + (here + rest)
  {
    var s' := s[n := s[n].(child := c)] + here;
    assert s'[n := s'[n].(child := d)] == s[n := s[n].(child := d)] + here;
  }

  lemma {:induction false} TakeTree(b: Builder, t: Tree)
    requires Fine(b)
    ensures TakeAll(b, Flat(t)) == Some(Added(b, t)) && Fine(Added(b, t))
    decreases t, 0
  {
    var n := |b.nodes|;
    TakeFine(b, Begin(t.name));
    var b1 := Take(b, Begin(t.name)).value;
    TakeProps(b1, t.props, n);
    var b2 := TakeAll(b1, FlatProps(t.props)).value;
    TakeForest(b2, t.children, n);
    var b3 := TakeAll(b2, FlatAll(t.children)).value;
    TreeDone(b, t, b1, b2, b3);
    TakeFine(b3, End);
    TakeFour(b, Begin(t.name), FlatProps(t.props), FlatAll(t.children), End, b1, b2, b3);
  }

  lemma TakeFour(b: Builder, first: Token, s: seq<Token>, t: seq<Token>, last: Token, b1: Builder, b2: Builder,
                 b3: Builder)
    requires Fine(b) && Fine(b1) && Fine(b2) && Fine(b3) && Take(b3, last).Some?
    requires Take(b, first) == Some(b1) && TakeAll(b1, s) == Some(b2) && TakeAll(b2, t) == Some(b3)
    ensures TakeAll(b, [first] + (s + (t + [last]))) == Take(b3, last)
  {
    var tail := t + [last];
    assert TakeAll(b2, tail) == Take(b3, last) by { TakeLast(b2, t, last, b3); }
    assert TakeAll(b1, s + tail) == TakeAll(b2, tail) by { TakeConcat(b1, s, tail, b2); }
    TakeFirst(b, first, s + tail, b1);
  }

  lemma TakeLast(b: Builder, t: seq<Token>, last: Token, b': Builder)
    requires Fine(b) && Fine(b') && TakeAll(b, t) == Some(b') && Take(b', last).Some?
    ensures TakeAll(b, t + [last]) == Take(b', last)
  {
    TakeConcat(b, t, [last], b');
    TakeFine(b', last);
    assert [last][1..] == [];
  }

  lemma TakeFirst(b: Builder, t: Token, ts: seq<Token>, b': Builder)
    requires Fine(b) && Fine(b') && Take(b, t) == Some(b')
    ensures TakeAll(b, [t] + ts) == TakeAll(b', ts)
  {
    assert ([t] + ts)[1..] == ts;
  }

  lemma TreeDone(b: Builder, t: Tree, b1: Builder, b2: Builder, b3: Builder)
    requires Fine(b) && Fine(b1) && Fine(b2) && Fine(b3) && b1 == Take(b, Begin(t.name)).value
    requires var n := |b.nodes|;
      && b2 == b1.(nodes := b1.nodes[n := b1.nodes[n].(props := Reverse(t.props) + b1.nodes[n].props)])
      && b3 == b2.(nodes := b2.nodes[n := b2.nodes[n].(child := Last(t.children, |b2.nodes|, b2.nodes[n].child))]
                            + LayoutAll(t.children, |b2.nodes|, Some(n), b2.nodes[n].child))
    ensures Take(b3, End) == Some(Added(b, t))
  {
    var n := |b.nodes|;
    var x := Node(t.name, b.node, None, Sibling(b), []);
    assert b1.nodes == Linked(b) + [x];
    assert Reverse(t.props) + [] == Reverse(t.props);
    NodeFilled(Linked(b), x, Reverse(t.props), Last(t.children, n + 1, None),
      LayoutAll(t.children, n + 1, Some(n), None));
    assert b3.nodes == Linked(b) + Layout(t, n, b.node, Sibling(b));
  }

  /** The last node gets its properties, then its child, then more nodes follow. */
  lemma NodeFilled(s: seq<Node>, x: Node, ps: seq<Prop>, c: Option<nat>, rest: seq<Node>)
    ensures var n, y := |s|, x.(props := ps);
      (s + [x])[n := y] == s + [y] && (s + [y])[n := y.(child := c)] + rest == s + ([y.(child := c)] + rest)
  {
  }
}
