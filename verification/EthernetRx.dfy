/** The receive half of the Ethernet driver: the pool of receive buffers, the chains
    built from them as frames arrive, and their way back into the pool. */
module EthernetRxs {
  import opened Pbufs

  const RX_BUFFER_COUNT := 12
  const RX_BUFFER_SIZE := 1000

  /** The bytes received from node `i` to the end. */
  ghost function Bytes(s: seq<Pbuf>, i: nat): nat
    reads s`len
    decreases |s| - i
  {
    if i < |s| then s[i].len + Bytes(s, i + 1) else 0
  }

  /** Each node has the 16-bit total from it to the end of the chain. */
  ghost predicate Totals(s: seq<Pbuf>)
    reads s`len, s`totLen
  {
    forall i {:trigger Bytes(s, i)} :: 0 <= i < |s| ==> s[i].totLen == U16(Bytes(s, i))
  }

  /** A frame as far as it was received. */
  ghost predicate Linked(start: Pbuf?, end: Pbuf?, s: seq<Pbuf>)
    reads s`next, s`len, s`totLen
  {
    Chain(start, s) && Totals(s) && (s != [] ==> end == s[|s| - 1])
  }

  lemma LinkedStart(start: Pbuf?, end: Pbuf?, s: seq<Pbuf>)
    requires Linked(start, end, s)
    ensures start == First(s)
  {
  }

  /** `out` is the first buffers on the way from `p`. */
  ghost predicate Path(p: Pbuf?, out: seq<Pbuf>)
    reads out`next
  {
    out == [] || (p == out[0] && Path(out[0].next, out[1..]))
  }

  /** The pool after the buffers `out` were given back, one after the other. */
  ghost function Returned(buffers: set<Pbuf>, out: seq<Pbuf>, pool: seq<Pbuf>): (r: seq<Pbuf>)
    ensures Elems(r) == Elems(pool) + Elems(out) * buffers && |pool| <= |r|
  {
    if out == [] then pool
    else Returned(buffers, out[1..], (if out[0] in buffers then [out[0]] else []) + pool)
  }

  lemma {:induction false} BytesAppend(s: seq<Pbuf>, p: Pbuf, i: nat)
    requires i <= |s|
    ensures Bytes(s + [p], i) == Bytes(s, i) + p.len
    decreases |s| - i
  {
    if i < |s| {
      BytesAppend(s, p, i + 1);
    } else {
      assert Bytes(s + [p], |s| + 1) == 0;
    }
  }

  /** The totals before a buffer is added; that of the new one is 0. */
  ghost function BytesList(s: seq<Pbuf>): (b: seq<nat>)
    reads s`len
    ensures |b| == |s| + 1 && forall i :: 0 <= i <= |s| ==> b[i] == Bytes(s, i)
  {
    BytesFrom(s, 0)
  }

  ghost function BytesFrom(s: seq<Pbuf>, i: nat): (b: seq<nat>)
    requires i <= |s|
    reads s`len
    ensures |b| == |s| + 1 - i && forall j :: i <= j <= |s| ==> b[j - i] == Bytes(s, j)
    decreases |s| - i
  {
    [Bytes(s, i)] + if i < |s| then BytesFrom(s, i + 1) else []
  }

  lemma BytesAppended(s: seq<Pbuf>, p: Pbuf, u: seq<Pbuf>, before: seq<nat>)
    requires before == BytesList(s) && u == s + [p]
    requires forall j :: 0 <= j < |u| ==> u[j].totLen == U16(before[j] + p.len)
    ensures Totals(u)
  {
    forall j | 0 <= j < |u|
      ensures u[j].totLen == U16(Bytes(u, j))
    {
      BytesAppend(s, p, j);
      assert before[j] == Bytes(s, j);
    }
  }

  lemma SubsetCount<T>(a: set<T>, b: set<T>)
    requires a <= b
    ensures |a| <= |b|
  {
    assert |b| == |a| + |b - a| by {
      assert b == a + (b - a);
    }
  }

  lemma {:induction false} BytesBound(s: seq<Pbuf>, i: nat)
    requires i <= |s| && forall p :: p in s ==> p.len <= RX_BUFFER_SIZE
    ensures Bytes(s, i) <= (|s| - i) * RX_BUFFER_SIZE
    decreases |s| - i
  {
    if i < |s| {
      BytesBound(s, i + 1);
    }
  }

  /** The sum of the lengths is the number of bytes received. */
  lemma {:induction false} BytesFlat(s: seq<Pbuf>, data: seq<seq<byte>>, i: nat)
    requires |data| == |s| && i <= |s| && forall j :: 0 <= j < |s| ==> s[j].len == |data[j]|
    ensures Bytes(s, i) == |Flat(data[i..])|
    decreases |s| - i
  {
    if i < |s| {
      BytesFlat(s, data, i + 1);
      assert data[i..][1..] == data[i + 1..];
    }
  }

  class EthernetRx {
    const buffers: set<Pbuf>          // the memory of the pool
    var available: bool
    var pool: seq<Pbuf>               // the free buffers, next one first

    ghost var hw: set<Pbuf>           // the buffers the receive hardware may write to
    ghost var live: set<Pbuf>         // the buffers in use by the stack
    ghost var outside: multiset<Pbuf> // the references held on them

    /** Every buffer of the pool is in exactly one place. */
    ghost predicate Places()
      reads `pool, `hw, `live
    {
      && Distinct(pool)
      && Elems(pool) !! hw !! live
      && Elems(pool) + hw <= buffers <= Elems(pool) + hw + live
    }

    ghost predicate Valid()
      reads this, live`next, live`ref, live`freed, hw`ref, hw`freed
    {
      && |buffers| == RX_BUFFER_COUNT
      && Places() && Heap(live, outside)
      && (forall p :: p in hw ==> p.ref == 1 && p.freed == 0)
      && (!available ==> pool == [])
    }

    constructor (pool: seq<Pbuf>)
      requires Distinct(pool) && |pool| == RX_BUFFER_COUNT
      ensures Valid() && available && this.pool == pool && buffers == Elems(pool)
      ensures hw == live == {} && outside == multiset{}
    {
      buffers, available, this.pool := set p | p in pool, true, pool;
      hw, live, outside := {}, {}, multiset{};
      ElemsCount(pool);
    }

    /** The stop flag is up only when no buffer is free.  As long as the hardware
        holds at most its four, at least eight are then in use by the stack. */
    lemma Exhausted()
      requires Valid() && !available && |hw| <= 4
      ensures |live * buffers| >= RX_BUFFER_COUNT - 4
    {
      assert Elems(pool) == {};
      assert buffers == hw + live * buffers;
    }

    /** No chain of buffers of the pool alone overflows its 16-bit total. */
    lemma NoWrap(s: seq<Pbuf>)
      requires Valid() && Distinct(s) && Elems(s) <= buffers && Totals(s)
      requires forall p :: p in s ==> p.len <= RX_BUFFER_SIZE
      ensures forall i :: 0 <= i < |s| ==> s[i].totLen == Bytes(s, i)
    {
      ElemsCount(s);
      SubsetCount(Elems(s), buffers);
      forall i | 0 <= i < |s|
        ensures s[i].totLen == Bytes(s, i)
      {
        BytesBound(s, i);
        assert s[i].totLen == U16(Bytes(s, i));
      }
    }

    /** Hands a free buffer to the hardware, or raises the stop flag. */
    method RxAllocate() returns (p: Pbuf?)
      requires Valid()
      modifies this`available, this`pool, this`hw, Elems(pool)
      ensures Valid() && live == old(live) && outside == old(outside)
      ensures p == null <==> old(pool) == []
      ensures p == null ==> !available && pool == [] && hw == old(hw)
      ensures p != null ==> available == old(available) && old(pool) == [p] + pool && hw == old(hw) + {p}
      ensures p != null ==> p.next == null && p.len == p.totLen == 0
    {
      if pool == [] {
        available := false;
        return null;
      }
      ghost var before := pool;
      p := pool[0];
      assert before == [p] + before[1..];
      DistinctTail(before);
      pool := pool[1..];
      p.next, p.len, p.totLen, p.ref, p.freed := null, 0, 0, 1, 0;
      hw := hw + {p};
    }

    /** The custom free function of a receive buffer. */
    method PbufFreeCustom(p: Pbuf)
      requires p !in pool && Distinct(pool)
      modifies this`available, this`pool
      ensures available && pool == [p] + old(pool) && Distinct(pool)
    {
      DistinctAppend([p], pool);
      pool := [p] + pool;
      if !available {
        available := true;
      }
    }

    /** One buffer of `pbuf_free`: drops a reference and, with the last one, gives
        the buffer back and turns to the next of the chain. */
    method FreeOne(p: Pbuf, ghost rest: multiset<Pbuf>) returns (zero: bool)
      requires Valid() && outside == rest + Hold(p)
      modifies this`available, this`pool, this`live, this`outside, p`ref, p`freed
      ensures Valid() && p in old(live)
      ensures zero ==> live == old(live) - {p} && outside == rest + Hold(p.next)
      ensures !zero ==> live == old(live) && outside == rest
      ensures pool == (if zero && p in buffers then [p] else []) + old(pool)
      ensures available == (old(available) || (zero && p in buffers))
    {
      zero := Release(p, live, rest);
      if zero {
        live, outside := live - {p}, rest + Hold(p.next);
        if p in buffers {
          assert p in Elems([p]);
          PbufFreeCustom(p);
        } else {
          assert [] + pool == pool;
        }
      } else {
        outside := rest;
        assert [] + pool == pool;
      }
    }

    /** Drops one reference to a chain: exactly the buffers that this leaves unheld,
        which are the first `out` of the chain, are let go of; those of the pool
        return to it one after the other, and with the first of them the stop flag
        goes down. */
    method Free(p: Pbuf?, ghost rest: multiset<Pbuf>) returns (ghost out: seq<Pbuf>)
      requires Valid() && outside == rest + Hold(p)
      modifies this`available, this`pool, this`live, this`outside, live`ref, live`freed
      ensures Valid() && outside == rest && Path(p, out)
      ensures Elems(out) <= old(live) && live == old(live) - Elems(out)
      ensures pool == Returned(buffers, out, old(pool))
      ensures available == (old(available) || pool != old(pool))
      ensures |old(pool)| <= |pool|
      decreases live, p != null
    {
      out := [];
      if p == null {
        assert rest + Hold(p) == rest;
      } else {
        var zero := FreeOne(p, rest);
        if zero {
          out := Free(p.next, rest);
          assert ([p] + out)[1..] == out && Elems([p] + out) == {p} + Elems(out);
          out := [p] + out;
        }
      }
    }

    /** The stack takes one more reference. */
    method StackRef(p: Pbuf)
      requires Valid() && p in live && p.ref < 0xFF
      modifies this`outside, p`ref
      ensures Valid() && outside == old(outside) + Hold(p) && p.ref == old(p.ref) + 1
    {
      PbufRef(p, live, outside);
      outside := outside + Hold(p);
    }

    /** Adds the received buffer to the end of the frame `s` from `start` to `end`. */
    method RxLink(start: Pbuf?, end: Pbuf?, p: Pbuf, length: u16, ghost s: seq<Pbuf>) returns (start': Pbuf, end': Pbuf)
      requires Valid() && p in hw
      requires Linked(start, end, s) && Elems(s) <= live
      modifies this`hw, this`live, this`outside, p, Elems(s)`next, Elems(s)`totLen
      ensures Valid() && live == old(live) + {p} && hw == old(hw) - {p}
      ensures outside == old(outside) + if s == [] then Hold(p) else multiset{}
      ensures Linked(start', end', s + [p]) && p.len == length
      ensures start' == if s == [] then p else start
    {
      p.next := null;
      p.totLen := 0;
      p.len := length;
      start' := Attach(start, end, p, s);
      end' := p;
      Retotal(start', length, s, p);
    }

    /** Chains the buffer `p`, first of its frame or behind the last one. */
    method Attach(start: Pbuf?, end: Pbuf?, p: Pbuf, ghost s: seq<Pbuf>) returns (start': Pbuf)
      requires Valid() && p in hw && p.next == null
      requires Chain(start, s) && Elems(s) <= live && (s != [] ==> end == s[|s| - 1])
      modifies this`hw, this`live, this`outside, Elems(s)`next
      ensures Valid() && live == old(live) + {p} && hw == old(hw) - {p}
      ensures outside == old(outside) + if s == [] then Hold(p) else multiset{}
      ensures Chain(start', s + [p]) && start' == if s == [] then p else start
    {
      if start == null {
        assert [] + [p] == [p];
        start' := p;
        AttachFirst(p);
      } else {
        assert s[|s| - 1] in Elems(s);
        start' := start;
        AttachLast(end, p, s);
      }
    }

    /** The calls of the link callback for the rest of a frame, whose buffers arrive
        in the order `bufs`: the frame is the chain of exactly these buffers in that
        order, with their lengths and the totals from each to the end. */
    method Receive(start: Pbuf?, end: Pbuf?, bufs: seq<Pbuf>, lengths: seq<u16>, ghost s: seq<Pbuf>)
      returns (start': Pbuf?, end': Pbuf?)
      requires Valid() && Distinct(bufs) && Elems(bufs) <= hw
      requires |lengths| == |bufs|
      requires Linked(start, end, s) && Elems(s) <= live
      modifies this`hw, this`live, this`outside, Elems(bufs), Elems(s)`next, Elems(s)`totLen
      ensures Valid() && live == old(live) + Elems(bufs) && hw == old(hw) - Elems(bufs)
      ensures outside == old(outside) + if s == [] then Hold(start') else multiset{}
      ensures Linked(start', end', s + bufs) && start' == First(s + bufs)
      ensures forall i :: 0 <= i < |bufs| ==> bufs[i].len == lengths[i]
      decreases |bufs|
    {
      hide Linked, Valid;
      LinkedStart(start, end, s);
      if bufs == [] {
        assert s + bufs == s;
        return start, end;
      }
      start', end' := ReceiveFirst(start, end, bufs, lengths, s);
      assert s + [bufs[0]] + bufs[1..] == s + bufs;
      start', end' := Receive(start', end', bufs[1..], lengths[1..], s + [bufs[0]]);
    }

    method ReceiveFirst(start: Pbuf?, end: Pbuf?, bufs: seq<Pbuf>, lengths: seq<u16>, ghost s: seq<Pbuf>)
      returns (start': Pbuf, end': Pbuf)
      requires Valid() && Distinct(bufs) && Elems(bufs) <= hw && |lengths| == |bufs| > 0
      requires Linked(start, end, s) && Elems(s) <= live
      modifies this`hw, this`live, this`outside, bufs[0], Elems(s)`next, Elems(s)`totLen
      ensures Valid() && live == old(live) + {bufs[0]} && hw == old(hw) - {bufs[0]}
      ensures outside == old(outside) + if s == [] then Hold(start') else multiset{}
      ensures Linked(start', end', s + [bufs[0]]) && start' == First(s + [bufs[0]]) && bufs[0].len == lengths[0]
      ensures Distinct(bufs[1..]) && bufs[0] !in bufs[1..] && Elems(bufs) == {bufs[0]} + Elems(bufs[1..])
      ensures Elems(bufs[1..]) <= hw && Elems(s + [bufs[0]]) == Elems(s) + {bufs[0]} <= live
    {
      DistinctTail(bufs);
      start', end' := RxLink(start, end, bufs[0], lengths[0], s);
    }

    /** A buffer that came from the hardware, held by the frame being received. */
    ghost method AttachFirst(p: Pbuf)
      requires Valid() && p in hw && p.next == null
      modifies this`hw, this`live, this`outside
      ensures Valid() && live == old(live) + {p} && hw == old(hw) - {p} && outside == old(outside) + Hold(p)
    {
      assert Preds({p}, p) == {};
      assert Counted({p}, Hold(p), p);
      HeapUnion(live, outside, {p}, Hold(p));
      hw, live, outside := hw - {p}, live + {p}, outside + Hold(p);
    }

    /** A buffer that came from the hardware, linked behind the last one of `s`. */
    method AttachLast(end: Pbuf, p: Pbuf, ghost s: seq<Pbuf>)
      requires Valid() && p in hw && p.next == null
      requires s != [] && Chain(s[0], s) && Elems(s) <= live && end == s[|s| - 1]
      modifies this`hw, this`live, end`next
      ensures Valid() && live == old(live) + {p} && hw == old(hw) - {p}
      ensures Chain(s[0], s + [p])
    {
      assert end in Elems(s) && end.next == After(s, |s| - 1);
      Differ(s, |s| - 1);
      LinkLast(end, p, live, outside);
      ChainLast(s, p);
      hw, live := hw - {p}, live + {p};
    }
  }

  /** Links `p` behind `end`, which becomes its one holder. */
  method LinkLast(end: Pbuf, p: Pbuf, ghost live: set<Pbuf>, ghost holders: multiset<Pbuf>)
    requires end in live && end.next == null
    requires Heap(live, holders) && p !in live && p.next == null && p.ref == 1 && p.freed == 0
    modifies end`next
    ensures Heap(live + {p}, holders) && end.next == p
  {
    end.next := p;
    forall q | q in live + {p}
      ensures Counted(live + {p}, holders, q)
    {
      if q == p {
        forall x | x in live && x != end
          ensures x.next != p
        {
          assert old(Counted(live, holders, x));
        }
        assert Preds(live + {p}, p) == {end};
      } else {
        assert old(Counted(live, holders, q));
        assert Preds(live + {p}, q) == old(Preds(live, q));
      }
    }
  }

  /** The chain after its last node was linked to `p`. */
  twostate lemma ChainLast(s: seq<Pbuf>, new p: Pbuf)
    requires s != [] && old(Chain(s[0], s)) && p !in s && p.next == null && s[|s| - 1].next == p
    requires forall i :: 0 <= i < |s| - 1 ==> s[i].next == old(s[i].next)
    ensures Chain(s[0], s + [p])
  {
    DistinctAppend(s, [p]);
    forall i | 0 <= i <= |s|
      ensures (s + [p])[i].next == After(s + [p], i)
    {
      assert i < |s| ==> After(s, i) == old(s[i].next);
    }
  }

  /** The closing loop of the link callback: adds `length` to every total. */
  method AddLength(start: Pbuf, length: nat, ghost u: seq<Pbuf>, ghost before: seq<nat>)
    requires Chain(start, u) && |before| == |u| && forall j :: 0 <= j < |u| ==> u[j].totLen == U16(before[j])
    modifies u`totLen
    ensures forall j :: 0 <= j < |u| ==> u[j].totLen == U16(before[j] + length)
  {
    ghost var i := 0;
    var q: Pbuf? := start;
    while q != null
      invariant i <= |u| && q == if i < |u| then u[i] else null
      invariant forall j :: 0 <= j < i ==> u[j].totLen == U16(before[j] + length)
      invariant forall j :: i <= j < |u| ==> u[j].totLen == U16(before[j])
      decreases |u| - i
    {
      U16Add(before[i], length);
      Differ(u, i);
      q.totLen := U16(q.totLen + length);
      assert u[i].next == After(u, i);
      q := q.next;
      i := i + 1;
    }
  }

  /** The totals of a frame to which `p` was added. */
  method Retotal(start: Pbuf, length: nat, ghost s: seq<Pbuf>, ghost p: Pbuf)
    requires Chain(start, s + [p]) && Totals(s) && p.totLen == 0 && p.len == length
    modifies (s + [p])`totLen
    ensures Totals(s + [p])
  {
    ghost var u, before := s + [p], BytesList(s);
    forall j | 0 <= j < |u|
      ensures u[j].totLen == U16(before[j])
    {
      assert before[j] == Bytes(s, j);
    }
    AddLength(start, length, u, before);
    BytesAppended(s, p, u, before);
  }

  lemma DistinctTail(s: seq<Pbuf>)
    requires Distinct(s) && s != []
    ensures Distinct(s[1..]) && s[0] !in s[1..] && Elems(s) == {s[0]} + Elems(s[1..])
  {
    Differ(s, 0);
    assert s == [s[0]] + s[1..];
    forall i, j | 0 <= i < j < |s| - 1
      ensures Apart(s[1..], i, j)
    {
      assert Apart(s, i + 1, j + 1);
    }
  }
}
