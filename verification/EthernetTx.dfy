/** The transmit half of the Ethernet driver: the ring of descriptor objects, the
    driver's indices, and the packets it keeps alive for the DMA. */
module EthernetTxs {
  import opened Pbufs
  import opened Rings
  import opened TxDescriptors
  import opened TxSpec

  function SpanOf(q: Pbuf): Span
    requires q.len < 0x1_0000
    reads q`len
  {
    Span(q, q.len)
  }

  ghost function SpansOf(s: seq<Pbuf>): (segs: seq<Span>)
    requires forall q :: q in s ==> q.len < 0x1_0000
    reads s`len
    ensures |segs| == |s|
  {
    if s == [] then [] else SpansOf(s[..|s| - 1]) + [SpanOf(s[|s| - 1])]
  }

  /** A descriptor object shows the submitted descriptor. */
  ghost predicate Shows(d: TxDescriptor, x: Slot)
    reads d
  {
    && d.desc0 == x.buf1 && d.desc1 == x.buf2 && d.desc2 == x.w2
    && d.desc3 == Current(x) && d.appData0 == x.app
    && (d.OwnedByDma() <==> !x.done)
  }

  ghost predicate Different(ring: seq<TxDescriptor>, i: nat, j: nat)
    requires i < |ring| && j < |ring|
  {
    ring[i] != ring[j]
  }

  ghost predicate Within(b: Pbuf?, c: seq<Pbuf>) {
    b != null ==> b in c
  }

  /** The descriptors `x` carry the packets `chains`, in order: each points into the
      first packet not finished yet, and the last of a packet names its head.  All
      buffers of these packets are live. */
  ghost predicate Carried(x: seq<Slot>, chains: seq<seq<Pbuf>>, live: set<Pbuf>)
    reads live`next
  {
    if x == [] then chains == []
    else
      && chains != [] && chains[0] != []
      && Elems(chains[0]) <= live && Chain(chains[0][0], chains[0])
      && Within(x[0].buf1, chains[0]) && Within(x[0].buf2, chains[0])
      && (x[0].app != null ==> x[0].app == chains[0][0])
      && Carried(x[1..], if x[0].app != null then chains[1..] else chains, live)
  }

  /** The references that the descriptors `x` will give back. */
  ghost function Held(x: seq<Slot>): multiset<Pbuf> {
    if x == [] then multiset{} else Hold(x[0].app) + Held(x[1..])
  }

  lemma {:induction false} HeldAppend(x: seq<Slot>, y: seq<Slot>)
    ensures Held(x + y) == Held(x) + Held(y)
  {
    if x == [] {
      assert x + y == y;
    } else {
      var z := x + y;
      assert z[1..] == x[1..] + y && z[0] == x[0];
      HeldAppend(x[1..], y);
      SumAssoc(Hold(x[0].app), Held(x[1..]), Held(y));
    }
  }

  lemma {:induction false} HeldHeads(x: seq<Slot>)
    ensures Held(x) == multiset(Heads(x))
  {
    if x != [] {
      var last := x[|x| - 1];
      HeldHeads(x[..|x| - 1]);
      HeldAppend(x[..|x| - 1], [last]);
      assert x == x[..|x| - 1] + [last] && [last][1..] == [];
    }
  }

  lemma {:induction false} CarriedAppend(x: seq<Slot>, y: seq<Slot>, c: seq<seq<Pbuf>>, d: seq<seq<Pbuf>>,
                                             live: set<Pbuf>)
    requires Carried(x, c, live) && Carried(y, d, live)
    ensures Carried(x + y, c + d, live)
  {
    if x == [] {
      assert x + y == y && c + d == d;
    } else {
      var c' := if x[0].app != null then c[1..] else c;
      CarriedAppend(x[1..], y, c', d, live);
      assert (x + y)[1..] == x[1..] + y;
      assert (if x[0].app != null then (c + d)[1..] else c + d) == c' + d;
    }
  }

  lemma {:induction false} DescriptorsCarried(t: Tx, segs: seq<Span>, k: nat, total: Word, s: seq<Pbuf>,
                                                  live: set<Pbuf>)
    requires t.n > 0 && |t.init| == t.n && k < |segs|
    requires s != [] && Elems(s) <= live && Chain(s[0], s) && forall i :: 0 <= i < |segs| ==> segs[i].data in s
    ensures Carried(Descriptors(t, segs, k, total, s[0]), [s], live)
    decreases |segs| - k
  {
    var x := Fill(Left(t, |t.history|), segs, k, total, s[0]);
    var t1 := t.(history := t.history + [x]);
    var rest := Descriptors(t1, segs, k + 2, total, s[0]);
    assert ([x] + rest)[1..] == rest;
    if k + 2 < |segs| {
      DescriptorsCarried(t1, segs, k + 2, total, s, live);
    } else {
      assert [s][1..] == [];
    }
  }

  /** A packet put out keeps the order of the packets in flight. */
  lemma OutputCarried(t: Tx, p: Pbuf, s: seq<Pbuf>, segs: seq<Span>, c: seq<seq<Pbuf>>, live: set<Pbuf>)
    requires TxSpec.Valid(t) && Accepts(t, segs) && Elems(s) <= live && Chain(p, s) && s != [] && |segs| == |s|
    requires forall i :: 0 <= i < |segs| ==> segs[i].data in s
    requires Carried(t.history[t.r..], c, live)
    ensures var e := Output(t, segs, p);
      && e.r == t.r <= |e.history|
      && Carried(e.history[t.r..], c + [s], live)
      && Held(e.history[t.r..]) == Held(t.history[t.r..]) + Hold(p)
  {
    var total := Bits(Total(segs));
    var d := Descriptors(t, segs, 0, total, p);
    EmitShape(t, segs, 0, total, p);
    DescriptorsCarried(t, segs, 0, total, s, live);
    CarriedAppend(t.history[t.r..], d, c, [s], live);
    assert Output(t, segs, p).history[t.r..] == t.history[t.r..] + d;
    assert t.history[..t.r] + t.history[t.r..] == t.history;
    EmitHeads(t, segs, 0, total, p);
    HeadsAppend(t.history, d);
    assert Heads(t.history) + Heads(d) == Heads(t.history) + [p];
    assert (Heads(t.history) + Heads(d))[|Heads(t.history)|..] == Heads(d);
    HeldHeads(d);
    HeldAppend(t.history[t.r..], d);
  }

  lemma SpansData(s: seq<Pbuf>)
    requires forall q :: q in s ==> q.len < 0x1_0000
    ensures forall i :: 0 <= i < |s| ==> SpansOf(s)[i].data in s
  {
    forall i | 0 <= i < |s|
      ensures SpansOf(s)[i].data in s
    {
      SpansAt(s, i);
    }
  }

  lemma {:induction false} FirstHeld(x: seq<Slot>, c: seq<seq<Pbuf>>, live: set<Pbuf>)
    requires Carried(x, c, live) && x != []
    ensures c[0][0] in Held(x)
  {
    if x[0].app == null {
      FirstHeld(x[1..], c, live);
    }
  }

  /** A chain of which the first buffer is live is live. */
  lemma LiveChain(live: set<Pbuf>, holders: multiset<Pbuf>, s: seq<Pbuf>)
    requires Heap(live, holders) && Chain(First(s), s) && (s != [] ==> s[0] in live)
    ensures Elems(s) <= live
  {
    forall b | b in s
      ensures b in live
    {
      var i :| 0 <= i < |s| && s[i] == b;
      ChainKept(live, holders, s[0], s, 0, i);
    }
  }

  /** Giving back a packet leaves all others in use: what the driver still holds
      stays live with every buffer behind it. */
  lemma {:induction false} CarriedLive(x: seq<Slot>, c: seq<seq<Pbuf>>, was: set<Pbuf>, live: set<Pbuf>,
                                           outside: multiset<Pbuf>)
    requires Heap(live, outside + Held(x)) && live <= was && Carried(x, c, was)
    ensures Carried(x, c, live)
  {
    if x != [] {
      FirstHeld(x, c, was);
      LiveChain(live, outside + Held(x), c[0]);
      SumAssoc(outside, Hold(x[0].app), Held(x[1..]));
      CarriedLive(x[1..], if x[0].app != null then c[1..] else c, was, live, outside + Hold(x[0].app));
    }
  }

  /** What a descriptor carries does not depend on whether the DMA is through. */
  lemma {:induction false} CarriedDone(x: seq<Slot>, y: seq<Slot>, c: seq<seq<Pbuf>>, live: set<Pbuf>)
    requires Carried(x, c, live)
    requires |x| == |y| && forall i :: 0 <= i < |x| ==> y[i] == x[i].(done := y[i].done, back := y[i].back)
    ensures Carried(y, c, live) && Held(y) == Held(x)
  {
    if x != [] {
      CarriedDone(x[1..], y[1..], if x[0].app != null then c[1..] else c, live);
    }
  }

  lemma FlightDone(t: Tx, i: nat, back: Word, c: seq<seq<Pbuf>>, live: set<Pbuf>)
    requires DmaEnabled(t, i, back) && Carried(t.history[t.r..], c, live)
    ensures var u := Dma(t, i, back);
      u.r == t.r <= |u.history| && Carried(u.history[t.r..], c, live)
      && Held(u.history[t.r..]) == Held(t.history[t.r..])
  {
    CarriedDone(t.history[t.r..], Dma(t, i, back).history[t.r..], c, live);
  }

  lemma {:induction false} CarriedIn(x: seq<Slot>, c: seq<seq<Pbuf>>, live: set<Pbuf>)
    requires Carried(x, c, live)
    ensures forall i :: 0 <= i < |x| ==>
      (x[i].buf1 != null ==> x[i].buf1 in live) && (x[i].buf2 != null ==> x[i].buf2 in live)
  {
    if x != [] {
      CarriedIn(x[1..], if x[0].app != null then c[1..] else c, live);
      assert forall p :: p in c[0] ==> p in Elems(c[0]);
      assert forall i :: 1 <= i < |x| ==> x[i] == x[1..][i - 1];
    }
  }

  class EthernetTx {
    const n: nat
    const ring: seq<TxDescriptor>
    var availableIndex: nat
    var availableSize: nat
    var unavailableIndex: nat

    ghost var t: Tx                    // the descriptors handed over and released so far
    ghost var live: set<Pbuf>          // the buffers in use
    ghost var outside: multiset<Pbuf>  // the references held by others than this driver
    ghost var chains: seq<seq<Pbuf>>   // the packets in flight

    /** A driver that has put nothing out yet; its descriptors hold anything. */
    constructor (ring: seq<TxDescriptor>, ghost init: seq<Word>, ghost live: set<Pbuf>, ghost outside: multiset<Pbuf>)
      requires ring != []
      requires forall i, j {:trigger Different(ring, i, j)} :: 0 <= i < j < |ring| ==> Different(ring, i, j)
      requires |init| == |ring| && forall i :: 0 <= i < |ring| ==> ring[i].desc3 == init[i]
      requires Heap(live, outside)
      ensures Valid() && this.ring == ring && this.live == live && this.outside == outside
      ensures t == Tx(|ring|, init, [], 0)
    {
      n, this.ring := |ring|, ring;
      availableIndex, availableSize, unavailableIndex := 0, |ring|, 0;
      this.live, this.outside, chains := live, outside, [];
      t := Tx(|ring|, init, [], 0);
      new;
      assert outside + Held([]) == outside;
    }

    ghost predicate Ring()
      reads `availableIndex, `availableSize, `unavailableIndex, `t, ring
    {
      && n > 0 && |ring| == n && t.n == n && TxSpec.Valid(t)
      && (forall i, j {:trigger Different(ring, i, j)} :: 0 <= i < j < n ==> Different(ring, i, j))
      && availableIndex == Pos(n, |t.history|)
      && unavailableIndex == Pos(n, t.r)
      && availableSize == Available(t)
      && (forall i {:trigger Pos(n, i)} :: t.r <= i < |t.history| ==> Shows(ring[Pos(n, i)], t.history[i]))
      && (forall i {:trigger Left(t, i)} :: |t.history| <= i < t.r + n ==> ring[Pos(n, i)].desc3 == Left(t, i))
    }

    /** The driver holds each packet in flight once, and its descriptors point into
        the packets in flight only. */
    ghost predicate Kept()
      requires t.r <= |t.history|
      reads `t, `live, `outside, `chains, live`next, live`ref, live`freed
    {
      && Heap(live, outside + Held(t.history[t.r..]))
      && Carried(t.history[t.r..], chains, live)
    }

    ghost predicate Valid()
      reads this, ring, live`next, live`ref, live`freed
    {
      Ring() && Kept()
    }

    /** In every state the available index is the release index and the descriptors
        in use apart, around the ring. */
    lemma Indices()
      requires Ring()
      ensures availableSize <= n && availableIndex == (unavailableIndex + n - availableSize) % n
    {
      PosAdd(n, t.r, n - availableSize);
      PosMod(n, unavailableIndex + n - availableSize);
    }

    /** Within one round of `r`, different descriptors are different objects. */
    lemma OthersDiffer(h: nat)
      requires Ring() && t.r <= h < t.r + n
      ensures forall i {:trigger Pos(n, i)} :: t.r <= i < t.r + n && i != h ==> ring[Pos(n, i)] != ring[Pos(n, h)]
    {
      forall i | t.r <= i < t.r + n && i != h
        ensures ring[Pos(n, i)] != ring[Pos(n, h)]
      {
        if i < h {
          PosDistinct(n, i, h);
        } else {
          PosDistinct(n, h, i);
        }
        assert Pos(n, i) < Pos(n, h) ==> Different(ring, Pos(n, i), Pos(n, h));
        assert Pos(n, h) < Pos(n, i) ==> Different(ring, Pos(n, h), Pos(n, i));
      }
    }

    /** Moves on to the next available descriptor. */
    method Use()
      requires availableSize > 0
      modifies `availableIndex, `availableSize
      ensures availableIndex == (if old(availableIndex) + 1 == n then 0 else old(availableIndex) + 1)
      ensures availableSize == old(availableSize) - 1
    {
      availableIndex := availableIndex + 1;
      if availableIndex == n {
        availableIndex := 0;
      }
      availableSize := availableSize - 1;
    }

    /** Fills the next descriptor and hands it to the DMA. */
    method FillOne(buf1: Span, buf2: Span, first: bool, last: bool, payloadLength: Word, p: Pbuf?)
      requires Ring() && availableSize > 0
      modifies this`availableIndex, this`availableSize, this`t, ring[availableIndex]
      ensures Ring()
      ensures t == old(t).(history := old(t).history + [Slot(Target(buf1), Target(buf2), Word2(buf1.size, buf2.size),
                Word3(Left(old(t), |old(t).history|), first, last, payloadLength),
                if last then p else null, false, {})])
    {
      hide Word3, Word2, Target, Pos, TxDescriptor.OwnedByDma, Owned;
      ghost var h, x := |t.history|, Slot(Target(buf1), Target(buf2), Word2(buf1.size, buf2.size),
        Word3(Left(t, |t.history|), first, last, payloadLength), if last then p else null, false, {});
      assert ring[Pos(n, h)].desc3 == Left(t, h);
      PosNext(n, h);
      OthersDiffer(h);
      FillDescriptor(ring[availableIndex], buf1, buf2, first, last, payloadLength, p);
      Use();
      ghost var t0 := t;
      t := t.(history := t.history + [x]);
      forall i | |t.history| <= i < t.r + n
        ensures ring[Pos(n, i)].desc3 == Left(t, i)
      {
        assert Left(t, i) == Left(t0, i);
      }
    }

    /** Collects the buffers of a packet and their total size; gives up at a packet
        of more buffers than the ring has descriptors. */
    method Collect(p: Pbuf?, ghost s: seq<Pbuf>) returns (ok: bool, bufs: seq<Pbuf>, payloadLength: nat)
      requires Chain(p, s) && forall q :: q in s ==> q.len < 0x1_0000
      ensures ok <==> |s| <= n
      ensures ok ==> bufs == s && payloadLength == Total(SpansOf(s))
    {
      bufs, payloadLength := [], 0;
      var q := p;
      ghost var i := 0;
      while q != null
        invariant i <= |s| && i <= n && bufs == s[..i]
        invariant q == if i < |s| then s[i] else null
        invariant payloadLength == Total(SpansOf(s[..i]))
        decreases |s| - i
      {
        if |bufs| == n {
          return false, bufs, payloadLength;
        }
        assert s[i].next == After(s, i);
        TotalPush(s, i);
        bufs := bufs + [q];
        payloadLength := (payloadLength + q.len) % 0x1_0000_0000;
        q := q.next;
        i := i + 1;
      }
      assert s[..i] == s;
      ok := true;
    }

    /** One iteration of the filling loop: the buffers from `k` on, two at most. */
    method FillNext(bufs: seq<Pbuf>, k: nat, payloadLength: nat, p: Pbuf?) returns (next: nat)
      requires Ring() && k < |bufs| <= k + 2 * availableSize && forall q :: q in bufs ==> q.len < 0x1_0000
      modifies this`availableIndex, this`availableSize, this`t, ring
      ensures Ring() && availableSize == old(availableSize) - 1
      ensures next == if k + 2 <= |bufs| then k + 2 else |bufs|
      ensures t == old(t).(history := old(t).history
                           + [Fill(Left(old(t), |old(t).history|), old(SpansOf(bufs)), k, Bits(payloadLength), p)])
    {
      SpansAt(bufs, k);
      var buf1 := SpanOf(bufs[k]);
      var buf2 := NOTHING;
      next := k + 1;
      if next < |bufs| {
        SpansAt(bufs, next);
        buf2 := SpanOf(bufs[next]);
        next := next + 1;
      }
      FillOne(buf1, buf2, k == 0, next == |bufs|, Bits(payloadLength), p);
    }

    /** Fills the descriptors for all of `bufs`. */
    method FillAll(bufs: seq<Pbuf>, payloadLength: nat, p: Pbuf?)
      requires Ring() && forall q :: q in bufs ==> q.len < 0x1_0000
      requires |bufs| <= 2 * availableSize
      modifies this`availableIndex, this`availableSize, this`t, ring
      ensures Ring() && t == Emit(old(t), old(SpansOf(bufs)), 0, Bits(payloadLength), p)
    {
      ghost var segs, total, t0 := SpansOf(bufs), Bits(payloadLength), t;
      var bufIndex := 0;
      while bufIndex < |bufs|
        invariant bufIndex <= |bufs| <= bufIndex + 2 * availableSize && Ring()
        invariant Emit(t, segs, bufIndex, total, p) == Emit(t0, segs, 0, total, p)
      {
        bufIndex := FillNext(bufs, bufIndex, payloadLength, p);
      }
    }

    /** What the DMA may still read is in use. */
    lemma InFlightLive()
      requires t.r <= |t.history| && Kept()
      ensures forall i :: t.r <= i < |t.history| ==>
        && (t.history[i].buf1 != null ==> t.history[i].buf1 in live)
        && (t.history[i].buf2 != null ==> t.history[i].buf2 in live)
    {
      var x := t.history[t.r..];
      CarriedIn(x, chains, live);
      assert forall i :: t.r <= i < |t.history| ==> t.history[i] == x[i - t.r];
    }

    /** Takes the packet `s` at `p` for transmission, or refuses it and changes
        nothing.  A packet taken gets one reference of the driver's own. */
    method LowLevelOutput(p: Pbuf?, ghost s: seq<Pbuf>) returns (err: Err)
      requires Valid() && Chain(p, s) && forall q :: q in s ==> q.len < 0x1_0000
      requires p != null ==> p in live && p.ref < 0xFF
      modifies this`availableIndex, this`availableSize, this`t, this`chains, ring, (if p != null then {p} else {})`ref
      ensures Valid() && err == if Accepts(old(t), SpansOf(s)) then Ok else If
      ensures t == Output(old(t), SpansOf(s), p)
      ensures p != null ==> p.ref == old(p.ref) + if err == Ok then 1 else 0
      ensures chains == old(chains) + if err == Ok && p != null then [s] else []
      ensures err == If ==> forall d :: d in ring ==> unchanged(d)
    {
      hide Kept;
      var ok, bufs, payloadLength := Collect(p, s);
      if !ok {
        return If;
      }
      if |bufs| > availableSize * 2 {
        return If;
      }
      if p != null {
        TakePacket(p, s, bufs, payloadLength);
      } else {
        FillAll([], payloadLength, null);
      }
      return Ok;
    }

    /** The accepted case. */
    method TakePacket(p: Pbuf, ghost s: seq<Pbuf>, bufs: seq<Pbuf>, payloadLength: nat)
      requires Valid() && Chain(p, s) && forall q :: q in s ==> q.len < 0x1_0000
      requires p in live && p.ref < 0xFF && Accepts(t, SpansOf(s))
      requires bufs == s && payloadLength == Total(SpansOf(s))
      modifies this`availableIndex, this`availableSize, this`t, this`chains, ring, p`ref
      ensures Valid() && t == Output(old(t), SpansOf(s), p)
      ensures p.ref == old(p.ref) + 1 && chains == old(chains) + [s]
    {
      hide Shows, Carried, Heap;
      ghost var e := Output(t, SpansOf(s), p);
      Reference(p, s, e);
      Submit(bufs, payloadLength, p, e, chains + [s]);
    }

    /** Takes the reference that keeps a packet while it is in flight. */
    method Reference(p: Pbuf, ghost s: seq<Pbuf>, ghost e: Tx)
      requires TxSpec.Valid(t) && Kept() && Chain(p, s) && forall q :: q in s ==> q.len < 0x1_0000
      requires p in live && p.ref < 0xFF && Accepts(t, SpansOf(s)) && e == Output(t, SpansOf(s), p)
      modifies p`ref
      ensures p.ref == old(p.ref) + 1
      ensures e.r <= |e.history| && Carried(e.history[e.r..], chains + [s], live)
      ensures Heap(live, outside + Held(e.history[e.r..]))
    {
      SpansData(s);
      LiveChain(live, outside + Held(t.history[t.r..]), s);
      OutputCarried(t, p, s, SpansOf(s), chains, live);
      PbufRef(p, live, outside + Held(t.history[t.r..]));
      SumAssoc(outside, Held(t.history[t.r..]), Hold(p));
    }

    /** Fills the descriptors; `e` is the ring and `cs` the packets then in flight. */
    method Submit(bufs: seq<Pbuf>, payloadLength: nat, p: Pbuf, ghost e: Tx, ghost cs: seq<seq<Pbuf>>)
      requires Ring() && (forall q :: q in bufs ==> q.len < 0x1_0000) && |bufs| <= 2 * availableSize
      requires e == Emit(t, SpansOf(bufs), 0, Bits(payloadLength), p)
      requires e.r <= |e.history| && Carried(e.history[e.r..], cs, live) && Heap(live, outside + Held(e.history[e.r..]))
      modifies this`availableIndex, this`availableSize, this`t, this`chains, ring
      ensures Valid() && t == e && chains == cs
    {
      hide Emit, SpansOf, Bits, Pos, Shows, Left;
      FillAll(bufs, payloadLength, p);
      chains := cs;
    }

    /** Makes the oldest descriptor in flight available again. */
    method Advance()
      requires Ring() && t.r < |t.history| && t.history[t.r].done
      modifies this`availableSize, this`unavailableIndex, this`t
      ensures Ring() && t == old(t).(r := old(t).r + 1)
    {
      hide Pos;
      ghost var t0 := t;
      PosNext(n, t.r);
      PosSame(n, t.r, t.r + n);
      assert Pos(n, t.r) == unavailableIndex;
      availableSize := availableSize + 1;
      unavailableIndex := unavailableIndex + 1;
      if unavailableIndex == n {
        unavailableIndex := 0;
      }
      t := t.(r := t.r + 1);
      forall i | |t.history| <= i < t.r + n
        ensures ring[Pos(n, i)].desc3 == Left(t, i)
      {
        assert Left(t, i) == Left(t0, i);
      }
    }

    /** Drops one reference: what the driver holds for the descriptors `x` stays. */
    method Drop(p: Pbuf?, ghost x: seq<Slot>, ghost c: seq<seq<Pbuf>>, ghost rest: multiset<Pbuf>)
      requires Heap(live, rest + Hold(p) + Held(x)) && Carried(x, c, live)
      modifies this`live, live`ref, live`freed
      ensures Heap(live, rest + Held(x)) && Carried(x, c, live) && live <= old(live)
      ensures forall q :: q in old(live) && q !in live ==> q.freed == 1
    {
      Reorder(rest, Hold(p), Held(x));
      var count, live', m := PbufFree(p, live, rest + Held(x));
      CarriedLive(x, c, live, live', rest);
      live := live';
    }

    /** Gives back the packet that ends with the oldest descriptor in flight, if
        one does. */
    method DropOldest(p: Pbuf?)
      requires t.r < |t.history| && Kept() && p == t.history[t.r].app
      modifies this`live, this`chains, live`ref, live`freed
      ensures var x := t.history[t.r + 1..]; Heap(live, outside + Held(x)) && Carried(x, chains, live)
      ensures live <= old(live) && forall q :: q in old(live) && q !in live ==> q.freed == 1
    {
      hide Heap;
      ghost var x := t.history[t.r..];
      assert x[1..] == t.history[t.r + 1..];
      chains := if p != null then chains[1..] else chains;
      SumAssoc(outside, Hold(p), Held(x[1..]));
      Drop(p, x[1..], chains, outside);
    }

    /** One iteration of the release loop. */
    method ReleaseOne()
      requires Valid() && t.r < |t.history| && t.history[t.r].done
      modifies this`availableSize, this`unavailableIndex, this`t, this`live, this`chains, live`ref, live`freed
      ensures Valid() && t == old(t).(r := old(t).r + 1)
      ensures live <= old(live) && forall q :: q in old(live) && q !in live ==> q.freed == 1
    {
      assert Pos(n, t.r) == unavailableIndex;
      DropOldest(ring[unavailableIndex].appData0);
      Advance();
    }

    /** Gives back what the DMA is through with, oldest first. */
    method ReleaseTxBuffers()
      requires Valid()
      modifies this`availableSize, this`unavailableIndex, this`t, this`live, this`chains, live`ref, live`freed
      ensures Valid() && t == TxSpec.Release(old(t)) && live <= old(live)
      ensures forall p :: p in old(live) && p !in live ==> p.freed == 1
    {
      while availableIndex != unavailableIndex
        invariant Valid() && TxSpec.Release(t) == TxSpec.Release(old(t)) && live <= old(live)
        invariant forall p :: p in old(live) && p !in live ==> p.freed == 1
        decreases |t.history| - t.r
      {
        assert Pos(n, t.r) == unavailableIndex;
        if ring[unavailableIndex].OwnedByDma() {
          return;
        }
        ReleaseOne();
      }
    }

    /** The DMA is through with descriptor `i` and writes `back` into its word 3. */
    method DmaComplete(d: TxDescriptor, ghost i: nat, back: Word)
      requires Valid() && DmaEnabled(t, i, back) && d == ring[Pos(n, i)]
      modifies this`t, d`desc3
      ensures Valid() && t == Dma(old(t), i, back)
    {
      FlightDone(t, i, back, chains, live);
      WriteBack(d, i, back);
    }

    method WriteBack(d: TxDescriptor, ghost i: nat, back: Word)
      requires Ring() && DmaEnabled(t, i, back) && d == ring[Pos(n, i)]
      modifies this`t, d`desc3
      ensures Ring() && t == Dma(old(t), i, back)
    {
      ghost var t0 := t;
      OthersDiffer(i);
      d.desc3 := back;
      t := Dma(t, i, back);
      forall j | |t.history| <= j < t.r + n
        ensures ring[Pos(n, j)].desc3 == Left(t, j)
      {
        assert Left(t, j) == if j == i + n then back else Left(t0, j);
      }
    }

    /** The stack drops a reference of its own.  This touches nothing that `Ring`
        depends on. */
    method LwipFree(p: Pbuf, ghost rest: multiset<Pbuf>)
      requires t.r <= |t.history| && Kept() && outside == rest + Hold(p)
      modifies this`live, this`outside, live`ref, live`freed
      ensures Kept() && live <= old(live) && outside == rest
      ensures forall q :: q in old(live) && q !in live ==> q.freed == 1
    {
      Drop(p, t.history[t.r..], chains, rest);
      outside := rest;
    }
  }

  lemma TotalPush(s: seq<Pbuf>, i: nat)
    requires (forall q :: q in s ==> q.len < 0x1_0000) && i < |s|
    ensures s[..i + 1] == s[..i] + [s[i]]
    ensures Total(SpansOf(s[..i + 1])) == (Total(SpansOf(s[..i])) + s[i].len) % 0x1_0000_0000
  {
    var u := s[..i + 1];
    assert u[..|u| - 1] == s[..i] && u[|u| - 1] == s[i];
    assert SpansOf(u)[..i] == SpansOf(s[..i]);
  }

  lemma {:induction false} SpansAt(s: seq<Pbuf>, i: nat)
    requires (forall q :: q in s ==> q.len < 0x1_0000) && i < |s|
    ensures SpansOf(s)[i] == SpanOf(s[i])
  {
    if i < |s| - 1 {
      SpansAt(s[..|s| - 1], i);
    }
  }

  method FillDescriptor(desc: TxDescriptor, buf1: Span, buf2: Span, first: bool, last: bool,
                        payloadLength: Word, p: Pbuf?)
    modifies desc
    ensures desc.desc0 == Target(buf1) && desc.desc1 == Target(buf2) && desc.desc2 == Word2(buf1.size, buf2.size)
    ensures desc.desc3 == Word3(old(desc.desc3), first, last, payloadLength) && desc.OwnedByDma()
    ensures desc.appData0 == if last then p else null
  {
    if first {
      desc.SetFirstDescriptor();
    }
    desc.Set(buf1, buf2, payloadLength);
    if last {
      desc.SetLastDescriptor();
      desc.SetAppData(p, 0);
    } else {
      desc.SetAppData(null, 0);
    }
    desc.SetOwned();
  }
}
