/**
 The device tree of core/device.c: nodes linked by parent, child and next pointers, children kept in
 reverse order of insertion, and the stackless pre-order walk over them. A pointer is an index.
 */
module DeviceTree {
  import opened Wrappers
  import opened Units

  /** A property: where its name is in the strings block, and its data. */
  datatype Prop = Prop(nameoff: nat, data: seq<byte>)

  /** struct device_node; the list `props` has its head first. */
  datatype Node = Node(name: seq<byte>, parent: Option<nat>, child: Option<nat>, next: Option<nat>, props: seq<Prop>)

  /** A device tree as a value, in the order of the source text. */
  datatype Tree = Tree(name: seq<byte>, props: seq<Prop>, children: seq<Tree>)

  /** dt_node_alloc, with the name its caller stores. */
  function NodeAlloc(nodes: seq<Node>, parent: Option<nat>, name: seq<byte>): (r: seq<Node>)
    requires parent.Some? ==> parent.value < |nodes|
    ensures |r| == |nodes| + 1
  {
    if parent == None then nodes + [Node(name, None, None, None, [])]
    else
      var p := parent.value;
      nodes[p := nodes[p].(child := Some(|nodes|))] + [Node(name, parent, None, nodes[p].child, [])]
  }

  /** dt_prop_alloc, with the contents its caller stores. */
  function PropAlloc(nodes: seq<Node>, n: nat, p: Prop): (r: seq<Node>)
    requires n < |nodes|
    ensures |r| == |nodes|
  {
    nodes[n := nodes[n].(props := [p] + nodes[n].props)]
  }

  function Reverse<T>(s: seq<T>): (r: seq<T>)
    ensures |r| == |s|
  {
    if s == [] then [] else Reverse(s[1..]) + [s[0]]
  }

  /** The tree with the children and the properties of every node reversed. */
  function Mirror(t: Tree): Tree {
    Tree(t.name, Reverse(t.props), MirrorAll(t.children))
  }

  function MirrorAll(f: seq<Tree>): seq<Tree> {
    if f == [] then [] else MirrorAll(f[1..]) + [Mirror(f[0])]
  }

  function Size(t: Tree): (n: nat)
    ensures n >= 1
  {
    1 + SizeAll(t.children)
  }

  function SizeAll(f: seq<Tree>): nat {
    if f == [] then 0 else Size(f[0]) + SizeAll(f[1..])
  }

  // ----- a list of siblings in memory -----

  /** Following `next` from `at` reads the trees `f`, all below `parent`. */
  ghost predicate Reads(nodes: seq<Node>, at: Option<nat>, parent: Option<nat>, f: seq<Tree>)
    decreases f
  {
    if f == [] then at == None
    else
      && at.Some? && at.value < |nodes| && nodes[at.value].parent == parent
      && nodes[at.value].name == f[0].name && nodes[at.value].props == f[0].props
      && Reads(nodes, nodes[at.value].child, at, f[0].children)
      && Reads(nodes, nodes[at.value].next, parent, f[1..])
  }

  /** A node is allocated after its parent. */
  ghost predicate ParentsFirst(nodes: seq<Node>) {
    forall i :: 0 <= i < |nodes| ==> ParentFirst(nodes, i)
  }

  ghost predicate ParentFirst(nodes: seq<Node>, i: nat)
    requires i < |nodes|
  {
    nodes[i].parent.Some? ==> nodes[i].parent.value < i
  }

  // ----- next_node -----

  /** `Crash` is a load through a null pointer. */
  datatype Step = At(node: nat) | Done | Crash

  function Follow(p: Option<nat>): Step {
    match p case Some(i) => At(i) case None => Done
  }

  /** Where the climb from `n` ends up. */
  function Climb(nodes: seq<Node>, n: nat): Step
    requires ParentsFirst(nodes) && n < |nodes|
    decreases n
  {
    assert ParentFirst(nodes, n);
    if nodes[n].parent.Some? && nodes[n].next == None then Climb(nodes, nodes[n].parent.value)
    else Follow(nodes[n].next)
  }

  function Next(nodes: seq<Node>, prev: nat): Step
    requires ParentsFirst(nodes) && prev < |nodes|
  {
    assert ParentFirst(nodes, prev);
    if nodes[prev].child.Some? then At(nodes[prev].child.value)
    else if nodes[prev].next.Some? then At(nodes[prev].next.value)
    else if nodes[prev].parent == None then Crash
    else Climb(nodes, nodes[prev].parent.value)
  }

  /** next_node: `prev` None asks for the root. */
  method NextNode(nodes: seq<Node>, root: Option<nat>, prev: Option<nat>) returns (r: Step)
    requires ParentsFirst(nodes) && (prev.Some? ==> prev.value < |nodes|)
    ensures r == if prev == None then Follow(root) else Next(nodes, prev.value)
  {
    if prev == None {
      return Follow(root);
    }
    var p := nodes[prev.value];
    if p.child.Some? {
      return At(p.child.value);
    }
    if p.next == None {
      if p.parent == None {
        return Crash;
      }
      assert ParentFirst(nodes, prev.value);
      var n := p.parent.value;
      while nodes[n].parent.Some? && nodes[n].next == None
        invariant 0 <= n < |nodes| && Climb(nodes, n) == Climb(nodes, p.parent.value)
        decreases n
      {
        assert ParentFirst(nodes, n);
        n := nodes[n].parent.value;
      }
      return Follow(nodes[n].next);
    }
    return At(p.next.value);
  }

  // ----- the walk -----

  /** The nodes read from `at`, in pre-order. */
  ghost function PreOrder(nodes: seq<Node>, at: Option<nat>, parent: Option<nat>, f: seq<Tree>): (r: seq<nat>)
    requires Reads(nodes, at, parent, f)
    ensures |r| == SizeAll(f) && forall k :: 0 <= k < |r| ==> r[k] < |nodes|
    ensures f != [] ==> r[0] == at.value
    decreases f
  {
    if f == [] then []
    else
      [at.value] + PreOrder(nodes, nodes[at.value].child, at, f[0].children)
        + PreOrder(nodes, nodes[at.value].next, parent, f[1..])
  }

  /** Calls of next_node go through `s` in order and then give `exit`. */
  ghost predicate Walk(nodes: seq<Node>, s: seq<nat>, exit: Step)
    requires ParentsFirst(nodes)
  {
    && s != [] && s[0] < |nodes|
    && Next(nodes, s[0]) == (if |s| == 1 then exit else At(s[1]))
    && (|s| > 1 ==> Walk(nodes, s[1..], exit))
  }

  lemma {:induction false} WalkOn(nodes: seq<Node>, s: seq<nat>, t: seq<nat>, exit: Step)
    requires ParentsFirst(nodes) && t != [] && Walk(nodes, s, At(t[0])) && Walk(nodes, t, exit)
    ensures Walk(nodes, s + t, exit)
  {
    assert (s + t)[1..] == s[1..] + t;
    if |s| > 1 {
      WalkOn(nodes, s[1..], t, exit);
    } else {
      assert s[1..] + t == t;
    }
  }

  /** Below a parent, the walk goes through the siblings and then climbs. */
  lemma {:induction false} WalkSiblings(nodes: seq<Node>, at: Option<nat>, p: nat, f: seq<Tree>)
    requires ParentsFirst(nodes) && p < |nodes| && f != [] && Reads(nodes, at, Some(p), f)
    ensures Walk(nodes, PreOrder(nodes, at, Some(p), f), Climb(nodes, p))
    decreases f
  {
    var i, t := at.value, f[0];
    var here := PreOrder(nodes, nodes[i].child, at, t.children);
    var rest := PreOrder(nodes, nodes[i].next, Some(p), f[1..]);
    var exit := if f[1..] == [] then Climb(nodes, p) else At(nodes[i].next.value);
    assert Climb(nodes, i) == exit;
    if t.children != [] {
      WalkSiblings(nodes, nodes[i].child, i, t.children);
      WalkOn(nodes, [i], here, exit);
    } else {
      assert [i] + here == [i];
    }
    assert Walk(nodes, [i] + here, exit);
    if f[1..] != [] {
      WalkSiblings(nodes, nodes[i].next, p, f[1..]);
      WalkOn(nodes, [i] + here, rest, Climb(nodes, p));
    } else {
      assert [i] + here + rest == [i] + here;
    }
  }

  /** Two walks that end and start at the same node are the same walk. */
  lemma {:induction false} OneWalk(nodes: seq<Node>, s: seq<nat>, t: seq<nat>)
    requires ParentsFirst(nodes) && Walk(nodes, s, Done) && Walk(nodes, t, Done) && s[0] == t[0]
    ensures s == t
  {
    if |s| > 1 && |t| > 1 {
      OneWalk(nodes, s[1..], t[1..]);
    }
  }

  lemma {:induction false} WalkTail(nodes: seq<Node>, s: seq<nat>, k: nat)
    requires ParentsFirst(nodes) && Walk(nodes, s, Done) && k < |s|
    ensures Walk(nodes, s[k..], Done)
  {
    if k > 0 {
      WalkTail(nodes, s[1..], k - 1);
      assert s[1..][k - 1..] == s[k..];
    } else {
      assert s[0..] == s;
    }
  }

  lemma NoNodeTwice(nodes: seq<Node>, s: seq<nat>, j: nat, k: nat)
    requires ParentsFirst(nodes) && Walk(nodes, s, Done) && j < |s| && k < |s| && s[j] == s[k]
    ensures j == k
  {
    WalkTail(nodes, s, j);
    WalkTail(nodes, s, k);
    OneWalk(nodes, s[j..], s[k..]);
  }

  /** The walk over a whole tree, started at its root, is its pre-order exactly when the root has a child. */
  lemma WholeWalk(nodes: seq<Node>, root: nat, t: Tree)
    requires ParentsFirst(nodes) && Reads(nodes, Some(root), None, [t])
    ensures t.children != [] <==> Walk(nodes, PreOrder(nodes, Some(root), None, [t]), Done)
    ensures t.children == [] ==> Next(nodes, root) == Crash
  {
    var below := PreOrder(nodes, nodes[root].child, Some(root), t.children);
    assert PreOrder(nodes, nodes[root].next, None, []) == [];
    assert PreOrder(nodes, Some(root), None, [t]) == [root] + below;
    if t.children != [] {
      WalkSiblings(nodes, nodes[root].child, root, t.children);
      WalkOn(nodes, [root], below, Done);
    } else {
      assert [root] + below == [root];
    }
  }

  /** Names in pre-order. */
  function Names(f: seq<Tree>): seq<seq<byte>> {
    if f == [] then [] else [f[0].name] + Names(f[0].children) + Names(f[1..])
  }

  lemma {:induction false} PreOrderNames(nodes: seq<Node>, at: Option<nat>, parent: Option<nat>, f: seq<Tree>)
    requires Reads(nodes, at, parent, f)
    ensures |Names(f)| == SizeAll(f)
    ensures forall k :: 0 <= k < SizeAll(f) ==> nodes[PreOrder(nodes, at, parent, f)[k]].name == Names(f)[k]
    decreases f
  {
    if f != [] {
      PreOrderNames(nodes, nodes[at.value].child, at, f[0].children);
      PreOrderNames(nodes, nodes[at.value].next, parent, f[1..]);
    }
  }

  lemma WalkAt(nodes: seq<Node>, s: seq<nat>, k: nat)
    requires ParentsFirst(nodes) && Walk(nodes, s, Done) && k < |s|
    ensures s[k] < |nodes| && Next(nodes, s[k]) == if k + 1 < |s| then At(s[k + 1]) else Done
  {
    WalkTail(nodes, s, k);
  }

  /** What next_node gives after the k-th node in pre-order, for any tree. */
  lemma WalkOrCrash(nodes: seq<Node>, root: nat, t: Tree, k: nat)
    requires ParentsFirst(nodes) && Reads(nodes, Some(root), None, [t]) && k < SizeAll([t])
    ensures var s := PreOrder(nodes, Some(root), None, [t]);
      Next(nodes, s[k]) == if k + 1 < |s| then At(s[k + 1]) else if t.children == [] then Crash else Done
  {
    WholeWalk(nodes, root, t);
    if t.children != [] {
      WalkAt(nodes, PreOrder(nodes, Some(root), None, [t]), k);
    } else {
      assert [t][1..] == [] && SizeAll([t]) == 1;
    }
  }

  /**
   next_match_node: the first node after `prev` in pre-order that is in `hits`. `prev` is the node
   at position `from - 1`, or None when the search starts at the root. A search without a hit ends in
   a load through a null pointer exactly when the root has no child.
   */
  method NextMatch(nodes: seq<Node>, root: nat, prev: Option<nat>, hits: set<nat>, ghost t: Tree,
                   ghost from: nat) returns (r: Step)
    requires ParentsFirst(nodes) && Reads(nodes, Some(root), None, [t])
    requires from <= SizeAll([t])
    requires prev == if from == 0 then None else Some(PreOrder(nodes, Some(root), None, [t])[from - 1])
    ensures var s := PreOrder(nodes, Some(root), None, [t]);
      match r
      case At(n) => exists k :: from <= k < |s| && s[k] == n && n in hits && forall i :: from <= i < k ==> s[i] !in hits
      case Done => t.children != [] && forall i :: from <= i < |s| ==> s[i] !in hits
      case Crash => t.children == [] && forall i :: from <= i < |s| ==> s[i] !in hits
  {
    ghost var s := PreOrder(nodes, Some(root), None, [t]);
    ghost var k := from;
    if from > 0 { WalkOrCrash(nodes, root, t, from - 1); }
    var n := NextNode(nodes, Some(root), prev);
    while n.At?
      invariant from <= k <= |s| && n == (if k < |s| then At(s[k]) else if t.children == [] then Crash else Done)
      invariant forall i :: from <= i < k ==> s[i] !in hits
      decreases |s| - k
    {
      if n.node in hits {
        return n;
      }
      WalkOrCrash(nodes, root, t, k);
      n := NextNode(nodes, Some(root), Some(n.node));
      k := k + 1;
    }
    return n;
  }
}
