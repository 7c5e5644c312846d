/** lwIP packet buffers: linked, reference-counted objects, and the three
    operations the program calls on them.  `Heap` is the conservation law of
    reference counts; every operation below is stated as what it does to the
    set of live buffers and to the multiset of outside holders. */
module Pbufs {
  datatype Option<T> = None | Some(value: T)

  /** The lwIP error codes that the program tells apart. */
  datatype Err = Ok | Mem | Abrt | If | Other

  newtype byte = x: int | 0 <= x < 0x100

  type u16 = x: nat | x < 0x1_0000

  function U8(x: nat): nat { x % 0x100 }

  function U16(x: nat): nat { x % 0x1_0000 }

  lemma U16Sum(x: nat, y: nat)
    ensures U16(U16(x) + U16(y)) == U16(x + y)
  {
  }

  lemma U16Add(x: nat, y: nat)
    ensures U16(U16(x) + y) == U16(x + y)
  {
  }

  class Pbuf {
    var next: Pbuf?
    const payload: seq<byte>  // the data the stack put in the buffer
    var len: nat
    var totLen: nat
    var ref: nat
    ghost var freed: nat  // how many times the buffer was given back

    /** A buffer as the stack delivers it: unlinked and held once. */
    constructor (data: seq<byte>)
      ensures next == null && payload == data && len == totLen == |data|
      ensures ref == 1 && freed == 0
    {
      next, payload, len, totLen, ref, freed := null, data, |data|, |data|, 1, 0;
    }
  }

  // ---------- Chains ----------

  ghost function Elems(s: seq<Pbuf>): set<Pbuf> {
    set p | p in s
  }

  /** All buffers of several chains. */
  ghost function Nodes(chains: seq<seq<Pbuf>>): set<Pbuf> {
    set s, p | s in chains && p in s :: p
  }

  ghost predicate Apart(s: seq<Pbuf>, i: nat, j: nat)
    requires i < |s| && j < |s|
  {
    s[i] != s[j]
  }

  ghost predicate Distinct(s: seq<Pbuf>) {
    forall i, j {:trigger Apart(s, i, j)} :: 0 <= i < j < |s| ==> Apart(s, i, j)
  }

  lemma Differ(s: seq<Pbuf>, i: nat)
    requires Distinct(s) && i < |s|
    ensures forall j :: 0 <= j < |s| && j != i ==> s[j] != s[i]
  {
    forall j | 0 <= j < |s| && j != i
      ensures s[j] != s[i]
    {
      assert if i < j then Apart(s, i, j) else Apart(s, j, i);
    }
  }

  lemma DistinctAppend(s: seq<Pbuf>, u: seq<Pbuf>)
    requires Distinct(s) && Distinct(u) && Separate(s, u)
    ensures Distinct(s + u)
  {
    forall i, j | 0 <= i < j < |s + u|
      ensures Apart(s + u, i, j)
    {
      if j < |s| {
        assert Apart(s, i, j);
      } else if i < |s| {
        assert s[i] in Elems(s) && u[j - |s|] in Elems(u);
      } else {
        assert Apart(u, i - |s|, j - |s|);
      }
    }
  }

  ghost predicate Separate(s: seq<Pbuf>, u: seq<Pbuf>) {
    forall p :: p in s ==> p !in u
  }

  lemma SeparateAt(s: seq<Pbuf>, u: seq<Pbuf>)
    requires Separate(s, u)
    ensures forall i, j :: 0 <= i < |s| && 0 <= j < |u| ==> s[i] != u[j]
  {
    forall i, j | 0 <= i < |s| && 0 <= j < |u|
      ensures s[i] != u[j]
    {
      assert s[i] in s && u[j] in u;
    }
  }

  lemma {:induction false} ElemsCount(s: seq<Pbuf>)
    requires Distinct(s)
    ensures |Elems(s)| == |s|
  {
    if s != [] {
      var last := s[|s| - 1];
      var t := s[..|s| - 1];
      Differ(s, |s| - 1);
      forall i, j | 0 <= i < j < |t|
        ensures Apart(t, i, j)
      {
        assert Apart(s, i, j);
      }
      ElemsCount(t);
      assert s == t + [last] && Elems(s) == Elems(t) + {last};
      assert last !in t;
    }
  }

  ghost function After(s: seq<Pbuf>, i: nat): Pbuf? {
    if i + 1 < |s| then s[i + 1] else null
  }

  /** `head` is the start of an acyclic chain whose nodes, in order, are `s`. */
  ghost predicate Chain(head: Pbuf?, s: seq<Pbuf>)
    reads s`next
  {
    && head == (if s == [] then null else s[0])
    && Distinct(s)
    && (forall i {:trigger After(s, i)} :: 0 <= i < |s| ==> s[i].next == After(s, i))
  }

  lemma ChainTail(head: Pbuf?, s: seq<Pbuf>)
    requires Chain(head, s) && s != []
    ensures Chain(s[0].next, s[1..])
  {
    var t := s[1..];
    assert s[0].next == After(s, 0);
    forall i, j | 0 <= i < j < |t|
      ensures Apart(t, i, j)
    {
      assert Apart(s, i + 1, j + 1);
    }
    forall i | 0 <= i < |t|
      ensures t[i].next == After(t, i)
    {
      assert s[i + 1].next == After(s, i + 1);
    }
  }

  ghost function Payloads(s: seq<Pbuf>): (q: seq<seq<byte>>)
    ensures |q| == |s|
  {
    if s == [] then [] else [s[0].payload] + Payloads(s[1..])
  }

  lemma {:induction false} PayloadsAppend(s: seq<Pbuf>, u: seq<Pbuf>)
    ensures Payloads(s + u) == Payloads(s) + Payloads(u)
  {
    if s == [] {
      assert s + u == u;
    } else {
      var c := s + u;
      PayloadsAppend(s[1..], u);
      assert c[1..] == s[1..] + u && c[0] == s[0];
      Assoc([s[0].payload], Payloads(s[1..]), Payloads(u));
    }
  }

  function Flat(q: seq<seq<byte>>): seq<byte> {
    if q == [] then [] else q[0] + Flat(q[1..])
  }

  lemma Assoc<T>(x: seq<T>, y: seq<T>, z: seq<T>)
    ensures x + y + z == x + (y + z)
  {
  }

  lemma {:induction false} FlatAppend(a: seq<seq<byte>>, b: seq<seq<byte>>)
    ensures Flat(a + b) == Flat(a) + Flat(b)
  {
    if a == [] {
      assert a + b == b;
    } else {
      var c := a + b;
      FlatAppend(a[1..], b);
      assert c[1..] == a[1..] + b && c[0] == a[0];
      assert a[0] + (Flat(a[1..]) + Flat(b)) == a[0] + Flat(a[1..]) + Flat(b);
    }
  }

  /** The number of payload bytes from node `i` to the end. */
  ghost function Rest(s: seq<Pbuf>, i: nat): nat
    decreases |s| - i
  {
    if i < |s| then |s[i].payload| + Rest(s, i + 1) else 0
  }

  /** Lengths agree with the payloads, and each `totLen` is the 16-bit total
      from that node to the end of the chain. */
  ghost predicate Sized(s: seq<Pbuf>)
    reads s`len, s`totLen
  {
    && (forall p :: p in s ==> p.len == |p.payload| < 0x1_0000)
    && (forall i {:trigger Rest(s, i)} :: 0 <= i < |s| ==> s[i].totLen == U16(Rest(s, i)))
  }

  // ---------- Reference-count conservation ----------

  ghost function Preds(live: set<Pbuf>, p: Pbuf): set<Pbuf>
    reads live`next
  {
    set q | q in live && q.next == p
  }

  /** `p` is in use, what it points to is live, and `p` is counted exactly once
      per outside holder and once per live predecessor. */
  ghost predicate Counted(live: set<Pbuf>, holders: multiset<Pbuf>, p: Pbuf)
    reads p`freed, p`ref, p`next, live`next
  {
    && p.freed == 0
    && (p.next != null ==> p.next in live)
    && 1 <= p.ref == holders[p] + |Preds(live, p)|
  }

  /** The conservation law of reference counts. */
  ghost predicate Heap(live: set<Pbuf>, holders: multiset<Pbuf>)
    reads live`next, live`ref, live`freed
  {
    && (forall p :: p in holders ==> p in live)
    && (forall p {:trigger Counted(live, holders, p)} :: p in live ==> Counted(live, holders, p))
  }

  ghost function Hold(p: Pbuf?): multiset<Pbuf> {
    if p == null then multiset{} else multiset{p}
  }

  lemma SumAssoc(x: multiset<Pbuf>, y: multiset<Pbuf>, z: multiset<Pbuf>)
    ensures x + y + z == x + (y + z)
  {
  }

  lemma Reorder(x: multiset<Pbuf>, y: multiset<Pbuf>, z: multiset<Pbuf>)
    ensures x + y + z == x + z + y
  {
  }

  lemma Rotate(x: multiset<Pbuf>, y: multiset<Pbuf>, z: multiset<Pbuf>)
    ensures x + y + z == y + z + x
  {
  }

  lemma NullHold(x: multiset<Pbuf>)
    ensures x + Hold(null) == x
  {
  }

  lemma NoneHold(p: Pbuf?)
    ensures Hold(p) == multiset{} + Hold(p)
  {
  }

  lemma HoldSwap(p: Pbuf?, q: Pbuf?)
    ensures Hold(p) + Hold(q) == Hold(q) + Hold(p)
  {
  }

  lemma HeapUnion(a: set<Pbuf>, ha: multiset<Pbuf>, b: set<Pbuf>, hb: multiset<Pbuf>)
    requires Heap(a, ha) && Heap(b, hb) && a !! b
    ensures Heap(a + b, ha + hb)
  {
    forall p | p in a + b
      ensures Counted(a + b, ha + hb, p)
    {
      if p in a {
        assert Counted(a, ha, p);
        forall q | q in b
          ensures q.next != p
        {
          assert Counted(b, hb, q);
        }
        assert Preds(a + b, p) == Preds(a, p);
      } else {
        assert Counted(b, hb, p);
        forall q | q in a
          ensures q.next != p
        {
          assert Counted(a, ha, q);
        }
        assert Preds(a + b, p) == Preds(b, p);
      }
    }
  }

  /** In a chain, the only possible predecessor of a node is the one before it. */
  lemma ChainPred(head: Pbuf?, s: seq<Pbuf>, q: Pbuf, i: nat)
    requires Chain(head, s) && i < |s| && q in s && q.next == s[i]
    ensures 0 < i && q == s[i - 1]
  {
    var j :| 0 <= j < |s| && s[j] == q;
    Differ(s, i);
    assert s[j].next == After(s, j);
  }

  /** Only the nodes of `s` lead to nodes of `s`. */
  ghost predicate Isolated(live: set<Pbuf>, s: seq<Pbuf>)
    reads live`next
  {
    forall q :: q in live && q.next != null && q.next in s ==> q in s
  }

  /** Nothing leaks in front of the first held node of a chain ... */
  lemma {:induction false} ChainDead(live: set<Pbuf>, holders: multiset<Pbuf>, head: Pbuf?, s: seq<Pbuf>, k: nat)
    requires Heap(live, holders) && Chain(head, s) && Isolated(live, s)
    requires k <= |s| && forall i :: 0 <= i < k ==> s[i] !in holders
    ensures forall i :: 0 <= i < k ==> s[i] !in live
  {
    if k > 0 {
      var i: nat := k - 1;
      ChainDead(live, holders, head, s, i);
      var p := s[i];
      forall q | q in live
        ensures q.next != p
      {
        if q.next == p {
          ChainPred(head, s, q, i);
        }
      }
      assert Preds(live, p) == {};
      assert p in live ==> Counted(live, holders, p);
    }
  }

  /** ... and nothing behind it is lost. */
  lemma {:induction false} ChainKept(live: set<Pbuf>, holders: multiset<Pbuf>, head: Pbuf?, s: seq<Pbuf>,
                                         k: nat, i: nat)
    requires Heap(live, holders) && Chain(head, s)
    requires k <= i < |s| && s[k] in live
    ensures s[i] in live
  {
    if k < i {
      ChainKept(live, holders, head, s, k, i - 1);
      assert Counted(live, holders, s[i - 1]);
      assert s[i - 1].next == After(s, i - 1);
    }
  }

  /** What conservation leaves of a chain: exactly the part from its first held
      node on, each node counted once per holder and once for its predecessor. */
  lemma {:induction false} ChainLive(live: set<Pbuf>, holders: multiset<Pbuf>, head: Pbuf?, s: seq<Pbuf>, k: nat)
    requires Heap(live, holders) && Chain(head, s) && Isolated(live, s)
    requires k <= |s| && forall i :: 0 <= i < k ==> s[i] !in holders
    requires k < |s| ==> s[k] in holders
    ensures forall i :: 0 <= i < |s| ==> (s[i] in live <==> k <= i)
    ensures forall i :: k <= i < |s| ==> s[i].ref == holders[s[i]] + if i == k then 0 else 1
  {
    ChainDead(live, holders, head, s, k);
    forall i | k <= i < |s|
      ensures s[i] in live && s[i].ref == holders[s[i]] + if i == k then 0 else 1
    {
      ChainKept(live, holders, head, s, k, i);
      assert Counted(live, holders, s[i]);
      forall q | q in live && q.next == s[i]
        ensures i > k && q == s[i - 1]
      {
        ChainPred(head, s, q, i);
      }
      if i > k {
        ChainKept(live, holders, head, s, k, i - 1);
        assert s[i - 1].next == After(s, i - 1);
        assert Preds(live, s[i]) == {s[i - 1]};
      } else {
        assert Preds(live, s[i]) == {};
      }
    }
  }

  ghost predicate Suffix(t: seq<Pbuf>, s: seq<Pbuf>) {
    t == s || (s != [] && Suffix(t, s[1..]))
  }

  lemma {:induction false} SuffixTail(t: seq<Pbuf>, s: seq<Pbuf>)
    requires Suffix(t, s)
    ensures t != [] ==> Suffix(t[1..], s)
    ensures forall p :: p in t ==> p in s
  {
    if t != s {
      SuffixTail(t, s[1..]);
      assert s == [s[0]] + s[1..];
    }
  }

  lemma {:induction false} SuffixAt(t: seq<Pbuf>, s: seq<Pbuf>) returns (k: nat)
    requires Suffix(t, s)
    ensures k <= |s| && t == s[k..]
  {
    if t == s {
      k := 0;
    } else {
      k := SuffixAt(t, s[1..]);
      k := k + 1;
    }
  }

  ghost function First(s: seq<Pbuf>): Pbuf? {
    if s == [] then null else s[0]
  }

  /** One chain with a held suffix: that suffix lives, singly held, and nothing
      in front of it does. */
  lemma SettleOne(live: set<Pbuf>, holders: multiset<Pbuf>, s: seq<Pbuf>, t: seq<Pbuf>)
    requires Heap(live, holders) && Chain(First(s), s) && Isolated(live, s) && Suffix(t, s)
    requires forall p :: p in s ==> holders[p] == Hold(First(t))[p]
    ensures forall p :: p in s ==> (p in live <==> p in t)
    ensures forall p :: p in t ==> p in s && p.ref == 1
  {
    var k := SuffixAt(t, s);
    forall i | 0 <= i < |s|
      ensures s[i] in holders <==> i == k
    {
      SuffixIndex(s, k, i);
    }
    ChainLive(live, holders, First(s), s, k);
    SuffixTail(t, s);
    forall p | p in s
      ensures (p in live <==> p in t) && (p in t ==> p.ref == 1)
    {
      var i :| 0 <= i < |s| && s[i] == p;
      SuffixIndex(s, k, i);
    }
  }

  lemma SuffixIndex(s: seq<Pbuf>, k: nat, i: nat)
    requires Distinct(s) && k <= |s| && i < |s|
    ensures s[i] in s[k..] <==> k <= i
    ensures k < |s| ==> (s[i] == s[k] <==> i == k)
  {
    Differ(s, i);
    if k <= i {
      assert s[k..][i - k] == s[i];
    }
  }

  lemma ChainClosed(s: seq<Pbuf>, q: Pbuf)
    requires Chain(First(s), s) && q in s
    ensures q.next != null ==> q.next in s
  {
    var i :| 0 <= i < |s| && s[i] == q;
    assert s[i].next == After(s, i);
  }

  lemma Stays(live: set<Pbuf>, a: seq<Pbuf>, b: seq<Pbuf>)
    requires Chain(First(b), b) && Separate(a, b) && live <= Elems(a) + Elems(b)
    ensures Isolated(live, a)
  {
    forall q | q in live
      ensures q.next != null && q.next in a ==> q in a
    {
      if q in b {
        ChainClosed(b, q);
        assert forall p :: p in a && p in b ==> p in Elems(a) && p in Elems(b);
      } else {
        assert q in Elems(a);
      }
    }
  }

  /** Two separate chains of which the suffixes `t` and `u` are held: conservation
      leaves those suffixes and nothing else. */
  lemma Settle(live: set<Pbuf>, a: seq<Pbuf>, t: seq<Pbuf>, b: seq<Pbuf>, u: seq<Pbuf>)
    requires Chain(First(a), a) && Chain(First(b), b) && Separate(a, b)
    requires Suffix(t, a) && Suffix(u, b) && live <= Elems(a) + Elems(b)
    requires Heap(live, Hold(First(t)) + Hold(First(u)))
    ensures live == Elems(t) + Elems(u) && Separate(t, u)
    ensures forall p :: p in t + u ==> p.ref == 1
  {
    SuffixTail(t, a);
    SuffixTail(u, b);
    HoldApart(a, t, b, u);
    var holders := Hold(First(t)) + Hold(First(u));
    assert forall p :: p in a ==> ((p in live <==> p in t) && (p in t ==> p.ref == 1)) by {
      Stays(live, a, b);
      SettleOne(live, holders, a, t);
    }
    assert forall p :: p in b ==> ((p in live <==> p in u) && (p in u ==> p.ref == 1)) by {
      Stays(live, b, a);
      SettleOne(live, holders, b, u);
    }
    SettleSets(live, a, t, b, u);
  }

  lemma SettleSets(live: set<Pbuf>, a: seq<Pbuf>, t: seq<Pbuf>, b: seq<Pbuf>, u: seq<Pbuf>)
    requires live <= Elems(a) + Elems(b) && Separate(a, b)
    requires forall p :: p in a ==> (p in live <==> p in t)
    requires forall p :: p in b ==> (p in live <==> p in u)
    requires (forall p :: p in t ==> p in a) && (forall p :: p in u ==> p in b)
    ensures live == Elems(t) + Elems(u) && Separate(t, u)
  {
    assert forall p :: p in Elems(t) ==> p in Elems(a);
    assert forall p :: p in Elems(u) ==> p in Elems(b);
  }

  lemma HoldApart(a: seq<Pbuf>, t: seq<Pbuf>, b: seq<Pbuf>, u: seq<Pbuf>)
    requires Separate(a, b) && (forall p :: p in t ==> p in a) && (forall p :: p in u ==> p in b)
    ensures forall p :: p in a ==> (Hold(First(t)) + Hold(First(u)))[p] == Hold(First(t))[p]
    ensures forall p :: p in b ==> (Hold(First(t)) + Hold(First(u)))[p] == Hold(First(u))[p]
  {
    assert forall p :: p in a ==> p in Elems(a);
    assert forall p :: p in b ==> p in Elems(b);
  }

  // ---------- Operations ----------

  /** Takes one more reference. */
  method PbufRef(p: Pbuf, ghost live: set<Pbuf>, ghost holders: multiset<Pbuf>)
    requires Heap(live, holders) && p in live && p.ref < 0xFF
    modifies p`ref
    ensures p.ref == old(p.ref) + 1
    ensures Heap(live, holders + Hold(p))
  {
    p.ref := p.ref + 1;
    forall q | q in live
      ensures Counted(live, holders + Hold(p), q)
    {
      assert old(Counted(live, holders, q));
      assert Preds(live, q) == old(Preds(live, q));
    }
  }

  /** One step of releasing: drops the holder on `p`.  When it was the last one
      `p` is given back, and the reference `p` had on its successor becomes the
      caller's to drop. */
  method Release(p: Pbuf, ghost live: set<Pbuf>, ghost rest: multiset<Pbuf>) returns (zero: bool)
    requires Heap(live, rest + Hold(p))
    modifies p`ref, p`freed
    ensures p in live && p.ref == old(p.ref) - 1
    ensures zero <==> p.ref == 0
    ensures !zero ==> Heap(live, rest)
    ensures zero ==> p.freed == 1 && Heap(live - {p}, rest + Hold(p.next))
  {
    assert Counted(live, rest + Hold(p), p);
    p.ref := p.ref - 1;
    zero := p.ref == 0;
    if zero {
      p.freed := p.freed + 1;
      assert old(Preds(live, p)) == {};
      forall q | q in live - {p}
        ensures Counted(live - {p}, rest + Hold(p.next), q)
      {
        assert old(Counted(live, rest + Hold(p), q));
        assert q !in old(Preds(live, p));
        if q == p.next {
          assert old(Preds(live, q)) == Preds(live - {p}, q) + {p};
        } else {
          assert old(Preds(live, q)) == Preds(live - {p}, q);
        }
      }
      assert p !in old(Preds(live, p));
    } else {
      forall q | q in live
        ensures Counted(live, rest, q)
      {
        assert old(Counted(live, rest + Hold(p), q));
        assert Preds(live, q) == old(Preds(live, q));
      }
    }
  }

  /** A buffer with one holder left does not lead to itself. */
  lemma LastOne(live: set<Pbuf>, rest: multiset<Pbuf>, p: Pbuf)
    requires Heap(live, rest + Hold(p))
    ensures p.ref >= 1 && (p.ref == 1 ==> p.next != p)
  {
    assert p in rest + Hold(p) && Counted(live, rest + Hold(p), p);
    if p.ref == 1 {
      assert p !in Preds(live, p);
    }
  }

  /** Releases one reference and every buffer that this leaves unheld, walking
      down the chain.  `n` buffers go; lwIP returns that number in 8 bits. */
  method PbufFree(p: Pbuf?, ghost live: set<Pbuf>, ghost rest: multiset<Pbuf>)
    returns (count: nat, ghost live': set<Pbuf>, ghost n: nat)
    requires Heap(live, rest + Hold(p))
    modifies live`ref, live`freed
    ensures live' <= live && Heap(live', rest)
    ensures |live| == |live'| + n && count == U8(n)
    ensures p == null || old(p.ref) > 1 ==> n == 0
    ensures p != null && old(p.ref) == 1 && (p.next == null || old(p.next.ref) > 1) ==> n == 1
    ensures forall q :: q in live ==> q.ref <= old(q.ref)
    ensures forall q :: q in live && q !in live' ==> q.freed == 1
    decreases live, p != null
  {
    count, live', n := 0, live, 0;
    if p == null {
      assert rest + Hold(p) == rest;
    } else {
      LastOne(live, rest, p);
      var zero := Release(p, live, rest);
      if zero {
        count, live', n := PbufFree(p.next, live - {p}, rest);
        count, n := U8(count + 1), n + 1;
      }
    }
  }

  lemma {:induction false} RestSuffix(s: seq<Pbuf>, k: nat, i: nat)
    requires k + i <= |s|
    ensures Rest(s[k..], i) == Rest(s, k + i)
    decreases |s| - i
  {
    if k + i < |s| {
      RestSuffix(s, k, i + 1);
    }
  }

  lemma {:induction false} RestAppend(s: seq<Pbuf>, u: seq<Pbuf>, i: nat)
    requires i <= |s|
    ensures Rest(s + u, i) == Rest(s, i) + Rest(u, 0)
    decreases |s| - i
  {
    if i < |s| {
      RestAppend(s, u, i + 1);
    } else {
      assert (s + u)[|s|..] == u;
      RestSuffix(s + u, |s|, 0);
    }
  }

  /** The chain total is the length of the payloads put together. */
  lemma {:induction false} RestFlat(s: seq<Pbuf>)
    ensures Rest(s, 0) == |Flat(Payloads(s))|
  {
    if s != [] {
      RestFlat(s[1..]);
      RestSuffix(s, 1, 0);
    }
  }

  lemma {:induction false} SizedSuffix(s: seq<Pbuf>, k: nat)
    requires Sized(s) && k <= |s|
    ensures Sized(s[k..])
  {
    forall i | 0 <= i < |s| - k
      ensures s[k..][i].totLen == U16(Rest(s[k..], i))
    {
      RestSuffix(s, k, i);
      assert s[k + i].totLen == U16(Rest(s, k + i));
    }
  }

  /** The totals that `PbufCat` writes are the totals of the joined chain. */
  lemma {:induction false} SizedCat(s: seq<Pbuf>, u: seq<Pbuf>)
    requires Sized(u) && forall p :: p in s ==> p.len == |p.payload| < 0x1_0000
    requires forall i {:trigger Rest(s, i)} :: 0 <= i < |s| ==> s[i].totLen == U16(Rest(s, i) + Rest(u, 0))
    ensures Sized(s + u)
  {
    forall i | 0 <= i < |s + u|
      ensures (s + u)[i].totLen == U16(Rest(s + u, i))
    {
      if i < |s| {
        RestAppend(s, u, i);
        assert s[i].totLen == U16(Rest(s, i) + Rest(u, 0));
      } else {
        assert (s + u)[|s|..] == u;
        RestSuffix(s + u, |s|, i - |s|);
        assert u[i - |s|].totLen == U16(Rest(u, i - |s|));
      }
    }
  }

  /** Appends the chain `t` to the chain `h`; the loop updates the totals. */
  method PbufCat(h: Pbuf, t: Pbuf, ghost s: seq<Pbuf>, ghost u: seq<Pbuf>)
    requires Chain(h, s) && Chain(t, u) && Sized(s) && Sized(u)
    requires Separate(s, u)
    modifies s`next, s`totLen
    ensures Chain(h, s + u) && Sized(s + u)
    ensures forall i :: 0 <= i < |s| - 1 ==> s[i].next == old(s[i].next)
  {
    hide U16;
    assert s[0] in Elems(s) && u[0] in Elems(u);
    assert forall j :: 0 <= j < |u| ==> u[j] in Elems(u);
    assert forall j :: 0 <= j < |s| ==> s[j] in Elems(s);
    assert t.totLen == U16(Rest(u, 0));
    var p := h;
    ghost var i := 0;
    while p.next != null
      invariant i < |s| && p == s[i]
      invariant forall j {:trigger Rest(s, j)} :: i <= j < |s| ==> s[j].totLen == U16(Rest(s, j))
      invariant forall j {:trigger Rest(s, j)} :: 0 <= j < i ==> s[j].totLen == U16(Rest(s, j) + Rest(u, 0))
      decreases |s| - i
      modifies s`totLen
    {
      assert p.totLen == U16(Rest(s, i));
      U16Sum(Rest(s, i), Rest(u, 0));
      Differ(s, i);
      p.totLen := U16(p.totLen + t.totLen);
      assert s[i].next == After(s, i);
      p := p.next;
      i := i + 1;
    }
    assert s[i].next == After(s, i);
    assert p.totLen == U16(Rest(s, i));
    U16Sum(Rest(s, i), Rest(u, 0));
    Differ(s, i);
    p.totLen := U16(p.totLen + t.totLen);
    SizedCat(s, u);
    p.next := t;
    assert Chain(h, s + u) by {
      DistinctAppend(s, u);
      assert forall j :: 0 <= j < |s| ==> After(s + u, j) == if j + 1 < |s| then After(s, j) else t;
      assert forall j :: |s| <= j < |s + u| ==> After(s + u, j) == After(u, j - |s|);
    }
  }

  /** Appends `t` and takes a reference on it for the link that now leads there. */
  method PbufChain(h: Pbuf, t: Pbuf, ghost s: seq<Pbuf>, ghost u: seq<Pbuf>,
                   ghost live: set<Pbuf>, ghost holders: multiset<Pbuf>)
    requires Chain(h, s) && Chain(t, u) && Sized(s) && Sized(u)
    requires Separate(s, u) && Elems(s) + Elems(u) <= live
    requires Heap(live, holders) && t.ref < 0xFF
    modifies s`next, s`totLen, t`ref
    ensures Chain(h, s + u) && Sized(s + u)
    ensures t.ref == old(t.ref) + 1
    ensures Heap(live, holders)
  {
    assert s[0] in Elems(s) && u[0] in Elems(u);
    ghost var last := s[|s| - 1];
    assert last in Elems(s) && last.next == After(s, |s| - 1);
    PbufCat(h, t, s, u);
    assert (s + u)[|s| - 1].next == After(s + u, |s| - 1);
    t.ref := t.ref + 1;
    forall q | q in live && q != last
      ensures q.next == old(q.next)
    {
      if q in s {
        var i :| 0 <= i < |s| && s[i] == q;
      }
    }
    forall q | q in live
      ensures Counted(live, holders, q)
    {
      assert old(Counted(live, holders, q));
      if q == t {
        assert Preds(live, t) == old(Preds(live, t)) + {last};
      } else {
        assert Preds(live, q) == old(Preds(live, q));
      }
    }
  }
}
