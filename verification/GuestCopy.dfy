/**
 Copying between host buffers and guest memory (core/s2mm.c): page by page through the stage-2
 translation, over any page boundaries.
 */
module GuestCopy {
  import opened Units

  // ----- memory, at any list of host addresses -----

  ghost predicate Inside(hosts: seq<nat>, size: nat) {
    forall k :: 0 <= k < |hosts| ==> hosts[k] < size
  }

  /** The bytes at the addresses, one by one. */
  function Load(mem: seq<byte>, hosts: seq<nat>): (r: seq<byte>)
    requires Inside(hosts, |mem|)
    ensures |r| == |hosts| && forall k :: 0 <= k < |r| ==> r[k] == mem[hosts[k]]
  {
    seq(|hosts|, k requires 0 <= k < |hosts| => mem[hosts[k]])
  }

  /** The first `n` bytes of `data`, stored one after the other. */
  function Store(mem: seq<byte>, hosts: seq<nat>, data: seq<byte>, n: nat): (r: seq<byte>)
    requires Inside(hosts, |mem|) && n <= |data| == |hosts|
    ensures |r| == |mem|
  {
    if n == 0 then mem else Store(mem, hosts, data, n - 1)[hosts[n - 1] := data[n - 1]]
  }

  /** memcpy. */
  function Blit(mem: seq<byte>, at: nat, data: seq<byte>): (r: seq<byte>)
    requires at + |data| <= |mem|
    ensures |r| == |mem|
  {
    mem[..at] + data + mem[at + |data|..]
  }

  /** `n` addresses from position `done` on are consecutive. */
  ghost predicate Consecutive(hosts: seq<nat>, done: nat, n: nat, at: nat) {
    done + n <= |hosts| && forall k :: done <= k < done + n ==> hosts[k] == at + (k - done)
  }

  /** One memcpy is as many byte stores. */
  lemma {:induction false} StoreChunk(mem: seq<byte>, hosts: seq<nat>, data: seq<byte>, done: nat, n: nat, at: nat)
    requires Inside(hosts, |mem|) && |data| == |hosts| && Consecutive(hosts, done, n, at) && at + n <= |mem|
    ensures Blit(Store(mem, hosts, data, done), at, data[done..done + n]) == Store(mem, hosts, data, done + n)
    decreases n
  {
    var m := Store(mem, hosts, data, done);
    if n == 0 {
      assert Blit(m, at, data[done..done]) == m;
    } else {
      StoreChunk(mem, hosts, data, done, n - 1, at);
      BlitOneMore(m, at, data[done..done + n - 1], data[done + n - 1]);
      assert data[done..done + n] == data[done..done + n - 1] + [data[done + n - 1]];
    }
  }

  lemma BlitOneMore(mem: seq<byte>, at: nat, d: seq<byte>, x: byte)
    requires at + |d| < |mem|
    ensures Blit(mem, at, d + [x]) == Blit(mem, at, d)[at + |d| := x]
  {
  }

  /** Bytes that share an address are equal. */
  ghost predicate Consistent(hosts: seq<nat>, data: seq<byte>) {
    |hosts| == |data| && forall j, k :: 0 <= j < k < |data| && hosts[j] == hosts[k] ==> data[j] == data[k]
  }

  lemma {:induction false} LastStore(mem: seq<byte>, hosts: seq<nat>, data: seq<byte>, n: nat, k: nat)
    requires Inside(hosts, |mem|) && k < n <= |data| && Consistent(hosts, data)
    ensures Store(mem, hosts, data, n)[hosts[k]] == data[k]
    decreases n
  {
    if k < n - 1 { LastStore(mem, hosts, data, n - 1, k); }
  }

  /** What was stored is loaded back if and only if no address stands for two bytes that differ. */
  lemma StoreThenLoad(mem: seq<byte>, hosts: seq<nat>, data: seq<byte>)
    requires Inside(hosts, |mem|) && |hosts| == |data|
    ensures Load(Store(mem, hosts, data, |data|), hosts) == data <==> Consistent(hosts, data)
  {
    var mem' := Store(mem, hosts, data, |data|);
    if Consistent(hosts, data) {
      forall k | 0 <= k < |data| ensures Load(mem', hosts)[k] == data[k] {
        LastStore(mem, hosts, data, |data|, k);
      }
    }
    if Load(mem', hosts) == data {
      forall j, k | 0 <= j < k < |data| && hosts[j] == hosts[k] ensures data[j] == data[k] {
        assert Load(mem', hosts)[j] == Load(mem', hosts)[k];
      }
    }
  }

  /** An address that is not in the list keeps its byte. */
  lemma {:induction false} Spared(mem: seq<byte>, hosts: seq<nat>, data: seq<byte>, n: nat, h: nat)
    requires Inside(hosts, |mem|) && n <= |data| == |hosts| && h < |mem| && h !in hosts
    ensures Store(mem, hosts, data, n)[h] == mem[h]
    decreases n
  {
    if n > 0 {
      assert hosts[n - 1] in hosts;
      Spared(mem, hosts, data, n - 1, h);
    }
  }

  // ----- the addresses of a guest range -----

  /** Guest page numbers to physical page numbers, for the pages that have an entry. */
  type Table = map<nat, nat>

  /** ipa2pa: the host address of a guest address, or 0. */
  function Translate(t: Table, a: nat): nat {
    if a / PAGE in t then t[a / PAGE] * PAGE + a % PAGE else 0
  }

  ghost predicate Backed(t: Table, size: nat) {
    PAGE <= size && forall p :: p in t ==> (t[p] + 1) * PAGE <= size
  }

  /**
   The host address a copy of the guest range from `a` uses for guest address `x`. Each page is
   translated once, where the range enters it; without an entry its bytes go to host address 0 on.
   */
  function Host(t: Table, a: nat, x: nat): nat
    requires a <= x
  {
    var enters := if x - x % PAGE < a then a else x - x % PAGE;
    Translate(t, enters) + (x - enters)
  }

  function Hosts(t: Table, a: nat, n: nat): (r: seq<nat>)
    ensures |r| == n
  {
    seq<nat>(n, k requires 0 <= k => Host(t, a, a + k))
  }

  lemma HostBelow(t: Table, a: nat, x: nat, size: nat)
    requires Backed(t, size) && a <= x
    ensures Host(t, a, x) < size && (x / PAGE in t ==> Host(t, a, x) == Translate(t, x))
  {
    var enters := if x - x % PAGE < a then a else x - x % PAGE;
    assert enters / PAGE == x / PAGE && enters % PAGE + (x - enters) == x % PAGE;
  }

  lemma HostsInside(t: Table, a: nat, n: nat, size: nat)
    requires Backed(t, size)
    ensures Inside(Hosts(t, a, n), size)
  {
    var hosts := Hosts(t, a, n);
    forall k | 0 <= k < n ensures hosts[k] < size { HostBelow(t, a, a + k, size); }
  }

  /** From where the range enters a page to the end of the page, host addresses are consecutive. */
  lemma HostChunk(t: Table, a: nat, cur: nat, k: nat)
    requires a <= cur && (cur == a || cur % PAGE == 0) && k < PAGE - cur % PAGE
    ensures Host(t, a, cur + k) == Translate(t, cur) + k
  {
    assert (cur + k) % PAGE == cur % PAGE + k;
  }

  lemma HostsChunk(t: Table, a: nat, len: nat, done: nat, n: nat, size: nat)
    requires Backed(t, size) && done + n <= len && 0 < n <= PAGE - (a + done) % PAGE
    requires (done == 0 || (a + done) % PAGE == 0)
    ensures Consecutive(Hosts(t, a, len), done, n, Translate(t, a + done)) && Translate(t, a + done) + n <= size
  {
    var hosts, at := Hosts(t, a, len), Translate(t, a + done);
    forall k | done <= k < done + n ensures hosts[k] == at + (k - done) { HostChunk(t, a, a + done, k - done); }
    assert hosts[done + n - 1] < size by { HostsInside(t, a, len, size); }
  }

  // ----- what comes back -----

  /** copy_to_guest byte by byte. */
  function Put(mem: seq<byte>, t: Table, a: nat, data: seq<byte>): (r: seq<byte>)
    requires Backed(t, |mem|)
    ensures |r| == |mem|
  {
    HostsInside(t, a, |data|, |mem|);
    Store(mem, Hosts(t, a, |data|), data, |data|)
  }

  /** copy_from_guest byte by byte. */
  function Get(mem: seq<byte>, t: Table, a: nat, n: nat): (r: seq<byte>)
    requires Backed(t, |mem|)
    ensures |r| == n
  {
    HostsInside(t, a, n, |mem|);
    Load(mem, Hosts(t, a, n))
  }

  /**
   Bytes copied to the guest come back unchanged if and only if no host byte stands for two bytes
   of the range that differ, whatever is mapped.
   */
  lemma RoundTrip(mem: seq<byte>, t: Table, a: nat, data: seq<byte>)
    requires Backed(t, |mem|)
    ensures Get(Put(mem, t, a, data), t, a, |data|) == data <==> Consistent(Hosts(t, a, |data|), data)
  {
    HostsInside(t, a, |data|, |mem|);
    StoreThenLoad(mem, Hosts(t, a, |data|), data);
  }

  ghost predicate Mapped(t: Table, a: nat, n: nat) {
    forall x: nat :: MappedAt(t, a, n, x)
  }

  ghost predicate MappedAt(t: Table, a: nat, n: nat, x: nat) {
    a <= x < a + n ==> x / PAGE in t
  }

  /** Different guest pages have different backing pages. */
  ghost predicate Distinct(t: Table) {
    forall p: nat, q: nat :: p in t && q in t && t[p] == t[q] ==> p == q
  }

  /** Mapped guest bytes at different addresses have different host bytes. */
  lemma OneAddress(t: Table, a: nat, x: nat, b: nat, y: nat, size: nat)
    requires Distinct(t) && Backed(t, size) && a <= x && b <= y && x / PAGE in t && y / PAGE in t && x != y
    ensures Host(t, a, x) != Host(t, b, y)
  {
    HostBelow(t, a, x, size);
    HostBelow(t, b, y, size);
    SameTranslation(t, x, y);
  }

  lemma SameTranslation(t: Table, x: nat, y: nat)
    requires Distinct(t) && x / PAGE in t && y / PAGE in t
    ensures Translate(t, x) == Translate(t, y) ==> x == y
  {
    assert Translate(t, x) == Translate(t, y) ==> t[x / PAGE] == t[y / PAGE];
  }

  /** A mapped range with distinct backing pages always comes back. */
  lemma MappedRoundTrip(mem: seq<byte>, t: Table, a: nat, data: seq<byte>)
    requires Backed(t, |mem|) && Distinct(t) && Mapped(t, a, |data|)
    ensures Get(Put(mem, t, a, data), t, a, |data|) == data
  {
    var hosts := Hosts(t, a, |data|);
    forall j, k | 0 <= j < k < |data| ensures hosts[j] != hosts[k] {
      assert MappedAt(t, a, |data|, a + j) && MappedAt(t, a, |data|, a + k);
      OneAddress(t, a, a + j, a, a + k, |mem|);
    }
    RoundTrip(mem, t, a, data);
  }

  /** Between mapped ranges that do not overlap, a copy from one does not see a copy to the other. */
  lemma GetElsewhere(mem: seq<byte>, t: Table, a: nat, data: seq<byte>, b: nat, n: nat)
    requires Backed(t, |mem|) && Distinct(t) && Mapped(t, a, |data|) && Mapped(t, b, n)
    requires (b + n <= a || a + |data| <= b)
    ensures Get(Put(mem, t, a, data), t, b, n) == Get(mem, t, b, n)
  {
    var written, read := Hosts(t, a, |data|), Hosts(t, b, n);
    HostsInside(t, a, |data|, |mem|);
    HostsInside(t, b, n, |mem|);
    forall k | 0 <= k < n ensures Put(mem, t, a, data)[read[k]] == mem[read[k]] {
      forall j | 0 <= j < |data| ensures written[j] != read[k] {
        assert MappedAt(t, a, |data|, a + j) && MappedAt(t, b, n, b + k);
        OneAddress(t, a, a + j, b, b + k, |mem|);
      }
      Spared(mem, written, data, |data|, read[k]);
    }
  }

  /** Host memory that stands for no byte of the range stays as it was. */
  lemma PutSpares(mem: seq<byte>, t: Table, a: nat, data: seq<byte>, h: nat)
    requires Backed(t, |mem|) && h < |mem| && h !in Hosts(t, a, |data|)
    ensures Put(mem, t, a, data)[h] == mem[h]
  {
    HostsInside(t, a, |data|, |mem|);
    Spared(mem, Hosts(t, a, |data|), data, |data|, h);
  }

  // ----- where the bytes are -----

  /** The host byte behind guest address `x`: the same offset in the page that the table gives. */
  ghost predicate Holds(mem: seq<byte>, t: Table, x: nat, b: byte) {
    && x / PAGE in t
    && var h := t[x / PAGE] * PAGE + x % PAGE; h < |mem| && mem[h] == b
  }

  /**
   The host address of each byte of a range, from the table alone: with an entry, the offset in its page;
   without one, the distance from where the range enters the page.
   */
  lemma HostIs(t: Table, a: nat, x: nat)
    requires a <= x
    ensures Host(t, a, x) == if x / PAGE in t then t[x / PAGE] * PAGE + x % PAGE
                             else if x / PAGE == a / PAGE then x - a else x % PAGE
  {
    if x / PAGE == a / PAGE {
      assert x - x % PAGE <= a && x - a == x % PAGE - a % PAGE;
    } else {
      assert x - x % PAGE >= a && (x - x % PAGE) / PAGE == x / PAGE && (x - x % PAGE) % PAGE == 0;
    }
  }

  /** A copy from the guest reads each byte of a mapped page from the host byte behind it. */
  lemma GetReads(mem: seq<byte>, t: Table, a: nat, n: nat, k: nat)
    requires Backed(t, |mem|) && k < n && (a + k) / PAGE in t
    ensures Holds(mem, t, a + k, Get(mem, t, a, n)[k])
  {
    HostsInside(t, a, n, |mem|);
    HostIs(t, a, a + k);
    assert Hosts(t, a, n)[k] == Host(t, a, a + k);
  }

  /** Where there is no entry, it reads the first host page. */
  lemma GetReadsUnmapped(mem: seq<byte>, t: Table, a: nat, n: nat, k: nat)
    requires Backed(t, |mem|) && k < n && (a + k) / PAGE !in t
    ensures Get(mem, t, a, n)[k] == mem[if (a + k) / PAGE == a / PAGE then k else (a + k) % PAGE]
  {
    HostsInside(t, a, n, |mem|);
    HostIs(t, a, a + k);
    assert Hosts(t, a, n)[k] == Host(t, a, a + k);
  }

  /** A copy to a mapped range with distinct backing pages leaves each byte behind its guest address. */
  lemma PutPlaces(mem: seq<byte>, t: Table, a: nat, data: seq<byte>, k: nat)
    requires Backed(t, |mem|) && Distinct(t) && Mapped(t, a, |data|) && k < |data|
    ensures Holds(Put(mem, t, a, data), t, a + k, data[k])
  {
    assert MappedAt(t, a, |data|, a + k);
    MappedRoundTrip(mem, t, a, data);
    GetReads(Put(mem, t, a, data), t, a, |data|, k);
  }

  class Guest {
    const mem: array<byte>     // host physical memory
    var table: Table

    ghost predicate Valid()
      reads this
    {
      Backed(table, mem.Length)
    }

    constructor (size: nat, t: Table)
      requires Backed(t, size)
      ensures Valid() && table == t && fresh(mem)
    {
      mem := new byte[size](_ => 0);
      table := t;
    }

    method Memcpy(at: nat, data: seq<byte>)
      requires at + |data| <= mem.Length
      modifies mem
      ensures mem[..] == Blit(old(mem[..]), at, data)
    {
      forall k | 0 <= k < |data| {
        mem[at + k] := data[k];
      }
    }

    /** copy_to_guest. */
    method CopyTo(a: nat, data: seq<byte>)
      requires Valid()
      modifies mem
      ensures mem[..] == Put(old(mem[..]), table, a, data)
      ensures Distinct(table) && Mapped(table, a, |data|)
        ==> forall k :: 0 <= k < |data| ==> Holds(mem[..], table, a + k, data[k])
    {
      ghost var before, hosts := mem[..], Hosts(table, a, |data|);
      HostsInside(table, a, |data|, mem.Length);
      var done := 0;
      while done < |data|
        invariant 0 <= done <= |data| && (done == 0 || done == |data| || (a + done) % PAGE == 0)
        invariant mem[..] == Store(before, hosts, data, done)
      {
        var n := ChunkSize(a + done, |data| - done);
        HostsChunk(table, a, |data|, done, n, mem.Length);
        StoreChunk(before, hosts, data, done, n, Translate(table, a + done));
        Memcpy(Translate(table, a + done), data[done..done + n]);
        done := done + n;
      }
      forall k | 0 <= k < |data| && Distinct(table) && Mapped(table, a, |data|)
        ensures Holds(mem[..], table, a + k, data[k])
      {
        PutPlaces(before, table, a, data, k);
      }
    }

    /** copy_from_guest. */
    method CopyFrom(a: nat, len: nat) returns (r: seq<byte>)
      requires Valid()
      ensures r == Get(mem[..], table, a, len)
      ensures forall k :: 0 <= k < |r| && (a + k) / PAGE in table ==> Holds(mem[..], table, a + k, r[k])
    {
      ghost var hosts := Hosts(table, a, len);
      HostsInside(table, a, len, mem.Length);
      r := [];
      while |r| < len
        invariant |r| <= len && (|r| == 0 || |r| == len || (a + |r|) % PAGE == 0)
        invariant forall k :: 0 <= k < |r| ==> r[k] == mem[hosts[k]]
      {
        var n := ChunkSize(a + |r|, len - |r|);
        HostsChunk(table, a, len, |r|, n, mem.Length);
        var at := Translate(table, a + |r|);
        r := r + mem[at..at + n];
      }
      forall k | 0 <= k < |r| && (a + k) / PAGE in table ensures Holds(mem[..], table, a + k, r[k]) {
        GetReads(mem[..], table, a, len, k);
      }
    }
  }

  /** What is left of the page, or of the range. */
  function ChunkSize(cur: nat, left: nat): (n: nat)
    ensures n <= left && n <= PAGE - cur % PAGE && (left > 0 ==> n > 0) && (n == left || (cur + n) % PAGE == 0)
  {
    var n := PAGE - cur % PAGE;
    if n > left then left else n
  }
}
