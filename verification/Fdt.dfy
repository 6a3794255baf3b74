/**
 The parser for the structure block of a flattened device tree (core/fdt.c; section 5.4 of the
 Devicetree Specification), from bytes to linked nodes.
 */
module Fdt {
  import opened Wrappers
  import opened DeviceTree
  import opened DeviceTreeBuild
  import opened Counting
  import opened Units

  const W := 0x1_0000_0000
  const FDT_BEGIN_NODE := 1
  const FDT_END_NODE := 2
  const FDT_PROP := 3
  const FDT_NOP := 4
  const FDT_END := 9

  function Power(n: nat): nat {
    if n == 0 then 1 else 256 * Power(n - 1)
  }

  /** The last `n` bytes of a number, most significant first. */
  function BigEndian(x: nat, n: nat): (r: seq<byte>)
    ensures |r| == n
  {
    if n == 0 then [] else BigEndian(x / 256, n - 1) + [x % 256]
  }

  function Value(s: seq<byte>): nat {
    if s == [] then 0 else var low: int := s[|s| - 1]; Value(s[..|s| - 1]) * 256 + low
  }

  lemma {:induction false} ValueOfBytes(x: nat, n: nat)
    requires x < Power(n)
    ensures Value(BigEndian(x, n)) == x
  {
    if n > 0 {
      ValueOfBytes(x / 256, n - 1);
      assert BigEndian(x, n)[..n - 1] == BigEndian(x / 256, n - 1);
    }
  }

  function U32(x: nat): (r: seq<byte>)
    ensures |r| == 4
  {
    BigEndian(x, 4)
  }

  /** fdt32_to_u32 of the word at byte `at`. */
  function ReadU32(blob: seq<byte>, at: nat): nat
    requires at + 4 <= |blob|
  {
    Value(blob[at..at + 4])
  }

  lemma ReadWritten(blob: seq<byte>, at: nat, x: nat)
    requires x < W && at + 4 <= |blob| && blob[at..at + 4] == U32(x)
    ensures ReadU32(blob, at) == x
  {
    assert Power(4) == 256 * Power(3) == 256 * (256 * Power(2)) == 256 * (256 * (256 * Power(1))) == W;
    ValueOfBytes(x, 4);
  }

  /** strlen; None when no NUL follows. */
  function StrLen(blob: seq<byte>, at: nat): (r: Option<nat>)
    ensures r.Some? ==> at + r.value < |blob|
    decreases |blob| - at
  {
    if at >= |blob| then None
    else if blob[at] == 0 then Some(0)
    else
      var r := StrLen(blob, at + 1);
      if r == None then None else Some(1 + r.value)
  }

  lemma {:induction false} StrLenOf(blob: seq<byte>, at: nat, n: nat)
    requires at + n < |blob| && blob[at + n] == 0 && 0 !in blob[at..at + n]
    ensures StrLen(blob, at) == Some(n)
    decreases n
  {
    if n > 0 {
      assert blob[at] == blob[at..at + n][0];
      assert blob[at + 1..at + n] == blob[at..at + n][1..];
      StrLenOf(blob, at + 1, n - 1);
    }
  }

  /** Words taken by `n` bytes, in the 32-bit arithmetic of the source. */
  function Words(n: nat): nat {
    (n % W + 3) % W / 4
  }

  /** Rounding up wraps around for the three largest lengths, and the cursor then skips no data. */
  lemma WordsOf(n: nat)
    requires n < W
    ensures Words(n) == if n + 3 < W then (n + 3) / 4 else 0
  {
  }

  // ----- encoding -----

  function Pad(n: nat): (r: seq<byte>)
    ensures n + |r| == 4 * ((n + 3) / 4)
  {
    if n % 4 == 0 then [] else if n % 4 == 1 then [0, 0, 0] else if n % 4 == 2 then [0, 0] else [0]
  }

  ghost predicate Encodable(t: Token) {
    match t
    case Begin(name) => 0 !in name && |name| + 5 <= W
    case Property(p) => |p.data| + 4 <= W && p.nameoff < W
    case _ => true
  }

  /** Words of the encoding of a token. */
  function Len(t: Token): nat {
    match t
    case Begin(name) => 1 + (|name| + 4) / 4
    case Property(p) => 3 + (|p.data| + 3) / 4
    case _ => 1
  }

  function Encode(t: Token): (r: seq<byte>)
    ensures |r| == 4 * Len(t)
  {
    match t
    case Begin(name) => U32(FDT_BEGIN_NODE) + (name + [0] + Pad(|name| + 1))
    case End => U32(FDT_END_NODE)
    case Property(p) => U32(FDT_PROP) + (U32(|p.data|) + (U32(p.nameoff) + (p.data + Pad(|p.data|))))
    case Nop => U32(FDT_NOP)
  }

  function LenAll(ts: seq<Token>): nat {
    if ts == [] then 0 else Len(ts[0]) + LenAll(ts[1..])
  }

  ghost predicate AllEncodable(ts: seq<Token>) {
    forall k :: 0 <= k < |ts| ==> Encodable(ts[k])
  }

  function EncodeAll(ts: seq<Token>): (r: seq<byte>)
    ensures |r| == 4 * LenAll(ts)
  {
    if ts == [] then [] else Encode(ts[0]) + EncodeAll(ts[1..])
  }

  // ----- decoding -----

  /** What is at the cursor: a token and where the next one starts, the end mark, or nothing legal. */
  datatype Decoded = Got(token: Token, next: nat) | AtEnd | Bad

  function Decode(blob: seq<byte>, cur: nat): (r: Decoded)
    ensures r.Got? ==> cur < r.next && 4 * cur + 4 <= |blob|
  {
    if 4 * cur + 4 > |blob| then Bad
    else
      var token := ReadU32(blob, 4 * cur);
      if token == FDT_END then AtEnd
      else if token == FDT_BEGIN_NODE then BeginAt(blob, cur)
      else if token == FDT_END_NODE then Got(End, cur + 1)
      else if token == FDT_PROP then PropAt(blob, cur)
      else if token == FDT_NOP then Got(Nop, cur + 1)
      else Bad
  }

  function BeginAt(blob: seq<byte>, cur: nat): (r: Decoded)
    ensures r.Got? ==> cur < r.next
  {
    var at := 4 * cur + 4;
    var n := StrLen(blob, at);
    if n == None then Bad else Got(Begin(blob[at..at + n.value]), cur + 1 + Words(n.value + 1))
  }

  function PropAt(blob: seq<byte>, cur: nat): (r: Decoded)
    ensures r.Got? ==> cur < r.next
  {
    var at := 4 * cur + 12;
    if at > |blob| then Bad
    else
      var len := ReadU32(blob, 4 * cur + 4);
      if at + len > |blob| then Bad
      else Got(Property(Prop(ReadU32(blob, 4 * cur + 8), blob[at..at + len])), cur + 3 + Words(len))
  }

  lemma DecodeBegin(blob: seq<byte>, cur: nat, name: seq<byte>)
    requires Encodable(Begin(name)) && 4 * cur + 4 + |name| < |blob|
    requires blob[4 * cur..4 * cur + 4] == U32(FDT_BEGIN_NODE)
    requires blob[4 * cur + 4..4 * cur + 4 + |name|] == name && blob[4 * cur + 4 + |name|] == 0
    ensures Decode(blob, cur) == Got(Begin(name), cur + Len(Begin(name)))
  {
    assert ReadU32(blob, 4 * cur) == FDT_BEGIN_NODE by { ReadWritten(blob, 4 * cur, FDT_BEGIN_NODE); }
    assert BeginAt(blob, cur) == Got(Begin(name), cur + Len(Begin(name))) by { NameRead(blob, cur, name); }
  }

  lemma NameRead(blob: seq<byte>, cur: nat, name: seq<byte>)
    requires Encodable(Begin(name)) && 4 * cur + 4 + |name| < |blob|
    requires blob[4 * cur + 4..4 * cur + 4 + |name|] == name && blob[4 * cur + 4 + |name|] == 0
    ensures BeginAt(blob, cur) == Got(Begin(name), cur + Len(Begin(name)))
  {
    StrLenOf(blob, 4 * cur + 4, |name|);
    WordsOf(|name| + 1);
  }

  lemma BeginParts(blob: seq<byte>, pre: seq<byte>, mark: seq<byte>, name: seq<byte>, pad: seq<byte>, post: seq<byte>,
                   at: nat)
    requires blob == pre + (mark + (name + [0] + pad)) + post && |mark| == 4 && at == |pre|
    ensures |blob| > at + 4 + |name| && blob[at..at + 4] == mark
    ensures blob[at + 4..at + 4 + |name|] == name && blob[at + 4 + |name|] == 0
  {
  }

  lemma DecodeProp(blob: seq<byte>, cur: nat, p: Prop)
    requires Encodable(Property(p)) && 4 * cur + 12 + |p.data| <= |blob| && blob[4 * cur..4 * cur + 4] == U32(FDT_PROP)
    requires blob[4 * cur + 4..4 * cur + 8] == U32(|p.data|) && blob[4 * cur + 8..4 * cur + 12] == U32(p.nameoff)
    requires blob[4 * cur + 12..4 * cur + 12 + |p.data|] == p.data
    ensures Decode(blob, cur) == Got(Property(p), cur + Len(Property(p)))
  {
    assert ReadU32(blob, 4 * cur) == FDT_PROP by { ReadWritten(blob, 4 * cur, FDT_PROP); }
    assert PropAt(blob, cur) == Got(Property(p), cur + Len(Property(p))) by {
      ReadWritten(blob, 4 * cur + 4, |p.data|);
      ReadWritten(blob, 4 * cur + 8, p.nameoff);
      DataRead(blob, cur, p);
    }
  }

  lemma DataRead(blob: seq<byte>, cur: nat, p: Prop)
    requires Encodable(Property(p)) && 4 * cur + 12 + |p.data| <= |blob|
    requires blob[4 * cur + 12..4 * cur + 12 + |p.data|] == p.data
    requires ReadU32(blob, 4 * cur + 4) == |p.data| && ReadU32(blob, 4 * cur + 8) == p.nameoff
    ensures PropAt(blob, cur) == Got(Property(p), cur + Len(Property(p)))
  {
    WordsOf(|p.data|);
  }

  lemma PropParts(blob: seq<byte>, pre: seq<byte>, mark: seq<byte>, len: seq<byte>, off: seq<byte>, data: seq<byte>,
                  pad: seq<byte>, post: seq<byte>, at: nat)
    requires blob == pre + (mark + (len + (off + (data + pad)))) + post && |mark| == |len| == |off| == 4 && at == |pre|
    ensures |blob| >= at + 12 + |data| && blob[at..at + 4] == mark && blob[at + 4..at + 8] == len
    ensures blob[at + 8..at + 12] == off
    ensures blob[at + 12..at + 12 + |data|] == data
  {
  }

  lemma DecodeMark(blob: seq<byte>, cur: nat, mark: nat)
    requires 4 * cur + 4 <= |blob| && blob[4 * cur..4 * cur + 4] == U32(mark)
    ensures mark == FDT_END_NODE ==> Decode(blob, cur) == Got(End, cur + 1)
    ensures mark == FDT_NOP ==> Decode(blob, cur) == Got(Nop, cur + 1)
    ensures mark == FDT_END ==> Decode(blob, cur) == AtEnd
  {
    if mark < W { ReadWritten(blob, 4 * cur, mark); }
  }

  lemma MarkPart(blob: seq<byte>, pre: seq<byte>, mark: seq<byte>, post: seq<byte>, at: nat)
    requires blob == pre + mark + post && |mark| == 4 && at == |pre|
    ensures at + 4 <= |blob| && blob[at..at + 4] == mark
  {
  }

  lemma EncodedBegin(blob: seq<byte>, pre: seq<byte>, name: seq<byte>, post: seq<byte>, cur: nat)
    requires |pre| == 4 * cur && Encodable(Begin(name)) && blob == pre + Encode(Begin(name)) + post
    ensures Decode(blob, cur) == Got(Begin(name), cur + Len(Begin(name)))
  {
    BeginParts(blob, pre, U32(FDT_BEGIN_NODE), name, Pad(|name| + 1), post, 4 * cur);
    assert Decode(blob, cur) == Got(Begin(name), cur + Len(Begin(name))) by { DecodeBegin(blob, cur, name); }
  }

  lemma EncodedProp(blob: seq<byte>, pre: seq<byte>, p: Prop, post: seq<byte>, cur: nat)
    requires |pre| == 4 * cur && Encodable(Property(p)) && blob == pre + Encode(Property(p)) + post
    ensures Decode(blob, cur) == Got(Property(p), cur + Len(Property(p)))
  {
    PropParts(blob, pre, U32(FDT_PROP), U32(|p.data|), U32(p.nameoff), p.data, Pad(|p.data|), post, 4 * cur);
    assert Decode(blob, cur) == Got(Property(p), cur + Len(Property(p))) by { DecodeProp(blob, cur, p); }
  }

  lemma EncodedMark(blob: seq<byte>, pre: seq<byte>, mark: nat, post: seq<byte>, cur: nat)
    requires |pre| == 4 * cur && blob == pre + U32(mark) + post
    ensures mark == FDT_END_NODE ==> Decode(blob, cur) == Got(End, cur + 1)
    ensures mark == FDT_NOP ==> Decode(blob, cur) == Got(Nop, cur + 1)
    ensures mark == FDT_END ==> Decode(blob, cur) == AtEnd
  {
    MarkPart(blob, pre, U32(mark), post, 4 * cur);
    DecodeMark(blob, cur, mark);
  }

  lemma DecodeEncoded(blob: seq<byte>, pre: seq<byte>, t: Token, post: seq<byte>, cur: nat)
    requires |pre| == 4 * cur && Encodable(t) && blob == pre + Encode(t) + post
    ensures Decode(blob, cur) == Got(t, cur + Len(t))
  {
    match t
    case Begin(name) => EncodedBegin(blob, pre, name, post, cur);
    case Property(p) => EncodedProp(blob, pre, p, post, cur);
    case End => EncodedMark(blob, pre, FDT_END_NODE, post, cur);
    case Nop => EncodedMark(blob, pre, FDT_NOP, post, cur);
  }

  // ----- the block, decoded at every word -----

  type Tape = seq<Decoded>

  ghost predicate Moving(tape: Tape) {
    forall c :: 0 <= c < |tape| ==> MovesOn(tape, c)
  }

  ghost predicate MovesOn(tape: Tape, c: nat)
    requires c < |tape|
  {
    tape[c].Got? ==> c < tape[c].next
  }

  /** What is at each word, were it a token. */
  ghost function TapeOf(blob: seq<byte>): (r: Tape)
    ensures |r| == |blob| / 4 && Moving(r)
  {
    seq(|blob| / 4, c requires 0 <= c => Decode(blob, c))
  }

  ghost predicate IsTape(tape: Tape, blob: seq<byte>) {
    |tape| == |blob| / 4 && forall c :: 0 <= c < |tape| ==> Shows(tape, blob, c)
  }

  ghost predicate Shows(tape: Tape, blob: seq<byte>, c: nat)
    requires c < |tape|
  {
    tape[c] == Decode(blob, c)
  }

  lemma TapeIs(blob: seq<byte>)
    ensures IsTape(TapeOf(blob), blob)
  {
    var tape := TapeOf(blob);
    forall c | 0 <= c < |tape| ensures Shows(tape, blob, c) {
    }
  }

  lemma OnTape(tape: Tape, blob: seq<byte>, cur: nat)
    requires IsTape(tape, blob) && 4 * cur + 4 <= |blob|
    ensures cur < |tape| && tape[cur] == Decode(blob, cur)
  {
    assert Shows(tape, blob, cur);
  }

  /** Reading from word `cur` gives the tokens `ts`, one after the other. */
  ghost predicate Laid(tape: Tape, cur: nat, ts: seq<Token>)
    decreases |ts|
  {
    ts != [] ==> cur < |tape| && tape[cur] == Got(ts[0], cur + Len(ts[0])) && Laid(tape, cur + Len(ts[0]), ts[1..])
  }

  lemma {:induction false} EncodedIsLaid(blob: seq<byte>, pre: seq<byte>, ts: seq<Token>, post: seq<byte>, cur: nat,
                                         tape: Tape)
    requires |pre| == 4 * cur && AllEncodable(ts) && blob == pre + EncodeAll(ts) + post && IsTape(tape, blob)
    ensures Laid(tape, cur, ts)
    decreases |ts|
  {
    if ts != [] {
      var mid := cur + Len(ts[0]);
      assert cur < |tape| && tape[cur] == Got(ts[0], mid) by { TokenOnTape(blob, pre, ts, post, cur, tape); }
      assert Laid(tape, mid, ts[1..]) by {
        FirstToken(blob, pre, ts, post);
        EncodedIsLaid(blob, pre + Encode(ts[0]), ts[1..], post, mid, tape);
      }
    }
  }

  lemma TokenOnTape(blob: seq<byte>, pre: seq<byte>, ts: seq<Token>, post: seq<byte>, cur: nat, tape: Tape)
    requires |pre| == 4 * cur && ts != [] && AllEncodable(ts) && blob == pre + EncodeAll(ts) + post
    requires IsTape(tape, blob)
    ensures cur < |tape| && tape[cur] == Got(ts[0], cur + Len(ts[0]))
  {
    FirstToken(blob, pre, ts, post);
    assert Decode(blob, cur) == Got(ts[0], cur + Len(ts[0])) by {
      DecodeEncoded(blob, pre, ts[0], EncodeAll(ts[1..]) + post, cur);
    }
    OnTape(tape, blob, cur);
  }

  lemma FirstToken(blob: seq<byte>, pre: seq<byte>, ts: seq<Token>, post: seq<byte>)
    requires ts != [] && blob == pre + EncodeAll(ts) + post
    ensures blob == pre + Encode(ts[0]) + (EncodeAll(ts[1..]) + post)
    ensures blob == (pre + Encode(ts[0])) + EncodeAll(ts[1..]) + post
  {
    Regroup(pre, Encode(ts[0]), EncodeAll(ts[1..]), post);
  }

  lemma Regroup(pre: seq<byte>, a: seq<byte>, b: seq<byte>, post: seq<byte>)
    ensures pre + (a + b) + post == pre + a + (b + post) == pre + a + b + post
  {
  }

  // ----- parsing -----

  /** `Panic` stands for the source's panics and for reads through a null pointer or past the block. */
  datatype Outcome = Parsed(root: Option<nat>, nodes: seq<Node>, cur: nat) | Panic

  const Empty := Builder([], None, None, 0)

  ghost function Run(tape: Tape, cur: nat, b: Builder): Outcome
    requires Moving(tape) && Fine(b)
    decreases |tape| - cur
  {
    if cur >= |tape| then Panic
    else
      assert MovesOn(tape, cur);
      match tape[cur]
      case Bad => Panic
      case AtEnd => if b.node == None then Parsed(b.root, b.nodes, cur) else Panic
      case Got(t, next) =>
        var r := Take(b, t);
        if r == None then Panic else
          assert Fine(r.value) by { TakeFine(b, t); }
          Run(tape, next, r.value)
  }

  lemma RunStep(tape: Tape, cur: nat, b: Builder, t: Token, next: nat)
    requires Moving(tape) && Fine(b) && cur < |tape| && tape[cur] == Got(t, next) && Take(b, t).Some?
    ensures Fine(Take(b, t).value) && Run(tape, cur, b) == Run(tape, next, Take(b, t).value)
  {
    TakeFine(b, t);
  }

  /** fdt_parse. */
  method Parse(blob: seq<byte>) returns (r: Outcome)
    ensures r == Run(TapeOf(blob), 0, Empty)
  {
    var cur, b := 0, Empty;
    ghost var tape := TapeOf(blob);
    TapeIs(blob);
    while true
      invariant 0 <= cur && Fine(b) && Run(tape, cur, b) == Run(tape, 0, Empty)
      decreases |blob| - 4 * cur
    {
      if 4 * cur + 4 > |blob| {
        return Panic;
      }
      OnTape(tape, blob, cur);
      var token := ReadU32(blob, 4 * cur);
      if token == FDT_END {
        break;
      }
      var ok, next, b' := ParseToken(blob, cur, token, b);
      if !ok {
        return Panic;
      }
      RunStep(tape, cur, b, tape[cur].token, next);
      cur, b := next, b';
    }
    return if b.node != None then Panic else Parsed(b.root, b.nodes, cur);
  }

  /** The switch of fdt_parse; `b` holds its local variables and the nodes allocated so far. */
  method ParseToken(blob: seq<byte>, cur: nat, token: nat, b: Builder) returns (ok: bool, next: nat, b': Builder)
    requires Fine(b) && 4 * cur + 4 <= |blob| && token == ReadU32(blob, 4 * cur) && token != FDT_END
    ensures var d := Decode(blob, cur);
      && ok == (d.Got? && Take(b, d.token).Some?)
      && (ok ==> next == d.next && b' == Take(b, d.token).value)
  {
    var at := 4 * cur;
    ok, next, b' := false, cur, b;
    if token == FDT_BEGIN_NODE {
      var len := StrLen(blob, at + 4);
      if len.Some? {
        var nodes := NodeAlloc(b.nodes, b.node, blob[at + 4..at + 4 + len.value]);
        var node := Some(|nodes| - 1);
        b' := Builder(nodes, node, if b.root == None then node else b.root, b.depth + 1);
        ok, next := true, cur + 1 + Words(len.value + 1);
      }
    } else if token == FDT_END_NODE {
      if b.depth != 0 && b.node.Some? {
        b' := b.(node := b.nodes[b.node.value].parent, depth := b.depth - 1);
        ok, next := true, cur + 1;
      }
    } else if token == FDT_PROP {
      if at + 12 <= |blob| {
        var len := ReadU32(blob, at + 4);
        if at + 12 + len <= |blob| && b.node.Some? {
          var p := Prop(ReadU32(blob, at + 8), blob[at + 12..at + 12 + len]);
          b' := b.(nodes := PropAlloc(b.nodes, b.node.value, p));
          ok, next := true, cur + 3 + Words(len);
        }
      }
    } else if token == FDT_NOP {
      ok, next := true, cur + 1;
    }
  }

  lemma {:induction false} RunTokens(tape: Tape, cur: nat, end: nat, ts: seq<Token>, b: Builder, b': Builder)
    requires Moving(tape) && Laid(tape, cur, ts) && end == cur + LenAll(ts) && Fine(b) && TakeAll(b, ts) == Some(b')
    ensures Run(tape, cur, b) == Run(tape, end, b')
    decreases |ts|
  {
    if ts != [] {
      var mid := cur + Len(ts[0]);
      RunStep(tape, cur, b, ts[0], mid);
      RunTokens(tape, mid, end, ts[1..], Take(b, ts[0]).value, b');
    }
  }

  /**
   Parsing the flattening of any tree, with NOPs anywhere and anything behind the end mark, gives
   nodes that read as its mirror image, root first, and leaves the cursor on the end mark.
   */
  lemma ParseFlattened(t: Tree, ts: seq<Token>, rest: seq<byte>)
    requires AllEncodable(ts) && Strip(ts) == Flat(t)
    ensures var nodes := Layout(t, 0, None, None);
      && Run(TapeOf(EncodeAll(ts) + U32(FDT_END) + rest), 0, Empty) == Parsed(Some(0), nodes, LenAll(ts))
      && Reads(nodes, Some(0), None, [Mirror(t)]) && ParentsFirst(nodes)
  {
    var blob := EncodeAll(ts) + U32(FDT_END) + rest;
    TapeIs(blob);
    FlattenedIsLaid(ts, rest, blob, TapeOf(blob));
    TreeParses(t, ts, TapeOf(blob));
    TreeReads(t);
    TreeParents(t);
  }

  /** The tokens of a tree and the end mark, however they got onto the tape. */
  lemma TreeParses(t: Tree, ts: seq<Token>, tape: Tape)
    requires Moving(tape) && Strip(ts) == Flat(t) && Laid(tape, 0, ts) && LenAll(ts) < |tape|
    requires tape[LenAll(ts)] == AtEnd
    ensures Run(tape, 0, Empty) == Parsed(Some(0), Layout(t, 0, None, None), LenAll(ts))
  {
    NopsDoNothing(Empty, ts);
    TakeTree(Empty, t);
    var b := Added(Empty, t);
    assert b.nodes == Layout(t, 0, None, None);
    RunTokens(tape, 0, LenAll(ts), ts, Empty, b);
  }

  lemma FlattenedIsLaid(ts: seq<Token>, rest: seq<byte>, blob: seq<byte>, tape: Tape)
    requires AllEncodable(ts) && blob == EncodeAll(ts) + U32(FDT_END) + rest && IsTape(tape, blob)
    ensures Laid(tape, 0, ts) && LenAll(ts) < |tape| && tape[LenAll(ts)] == AtEnd
  {
    assert Laid(tape, 0, ts) by {
      Regroup([], EncodeAll(ts), U32(FDT_END), rest);
      assert [] + EncodeAll(ts) == EncodeAll(ts);
      EncodedIsLaid(blob, [], ts, U32(FDT_END) + rest, 0, tape);
    }
    EndOnTape(EncodeAll(ts), rest, blob, LenAll(ts), tape);
  }

  lemma EndOnTape(code: seq<byte>, rest: seq<byte>, blob: seq<byte>, cur: nat, tape: Tape)
    requires |code| == 4 * cur && blob == code + U32(FDT_END) + rest && IsTape(tape, blob)
    ensures cur < |tape| && tape[cur] == AtEnd
  {
    assert Decode(blob, cur) == AtEnd by { EncodedMark(blob, code, FDT_END, rest, cur); }
    OnTape(tape, blob, cur);
  }

  lemma {:induction false} MirrorSize(f: seq<Tree>)
    ensures SizeAll(MirrorAll(f)) == SizeAll(f)
    decreases f
  {
    if f != [] {
      MirrorSize(f[1..]);
      MirrorSize(f[0].children);
      SizeAppend(MirrorAll(f[1..]), Mirror(f[0]));
    }
  }

  lemma {:induction false} SizeAppend(f: seq<Tree>, t: Tree)
    ensures SizeAll(f + [t]) == SizeAll(f) + Size(t)
    decreases |f|
  {
    if f == [] {
      assert f + [t] == [t] && [t][1..] == [];
    } else {
      assert (f + [t])[1..] == f[1..] + [t];
      SizeAppend(f[1..], t);
    }
  }

  /** After parsing a tree whose root has a child, the walk meets every node the parser allocated, once. */
  lemma ParsedTreeIsWalked(t: Tree)
    requires t.children != []
    ensures var nodes := Layout(t, 0, None, None);
      && ParentsFirst(nodes) && Reads(nodes, Some(0), None, [Mirror(t)])
      && var s := PreOrder(nodes, Some(0), None, [Mirror(t)]);
      && Walk(nodes, s, Done) && |s| == |nodes| && Distinct(s) && forall i: nat :: i < |nodes| ==> i in s
  {
    var nodes := Layout(t, 0, None, None);
    TreeReads(t);
    TreeParents(t);
    var s := PreOrder(nodes, Some(0), None, [Mirror(t)]);
    MirrorSize(t.children);
    assert SizeAll([Mirror(t)][1..]) == 0;
    WholeWalk(nodes, 0, Mirror(t));
    forall j, k | 0 <= j < k < |s| ensures s[j] != s[k] {
      if s[j] == s[k] { NoNodeTwice(nodes, s, j, k); }
    }
    DistinctPairs(s);
    forall i: nat | i < |nodes| ensures i in s { AllBelow(s, |nodes|, i); }
  }
}
