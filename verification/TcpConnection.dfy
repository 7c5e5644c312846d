/** The objects of the TCP server: protocol control blocks, which record the calls
    made on them, and connections, which hold chains of reference-counted buffers. */
module TcpConnections {
  import opened Pbufs
  import opened TcpSpec

  /** A protocol control block.  Its methods are the lwIP calls the server makes;
      they record the call and answer from `answers`. */
  class TcpPcb {
    const answers: Answers
    var asked: nat
    var trace: seq<Call>

    constructor (answers: Answers)
      ensures this.answers == answers && asked == 0 && trace == []
    {
      this.answers, asked, trace := answers, 0, [];
    }

    method Ask() returns (r: Answer)
      modifies `asked
      ensures r == answers(old(asked)) && asked == old(asked) + 1
    {
      r := answers(asked);
      asked := asked + 1;
    }

    method TcpSndbuf() returns (n: u16)
      modifies this
      ensures n == answers(old(asked)).sndbuf && asked == old(asked) + 1
      ensures trace == old(trace) + [Room(n)]
    {
      var r := Ask();
      n := r.sndbuf;
      trace := trace + [Room(n)];
    }

    method TcpWrite(data: seq<byte>) returns (err: Err)
      modifies this
      ensures err == answers(old(asked)).write && asked == old(asked) + 1
      ensures trace == old(trace) + [Call.Write(data, err)]
    {
      var r := Ask();
      err := r.write;
      trace := trace + [Call.Write(data, err)];
    }

    method TcpClose() returns (err: Err)
      modifies this
      ensures err == answers(old(asked)).close && asked == old(asked) + 1
      ensures trace == old(trace) + [Call.Close(err)]
    {
      var r := Ask();
      err := r.close;
      trace := trace + [Call.Close(err)];
    }

    /** Tells whether the stack runs the error callback. */
    method TcpAbort() returns (raises: bool)
      modifies this
      ensures raises == answers(old(asked)).raises && asked == old(asked) + 1
      ensures trace == old(trace) + [Abort(raises)]
    {
      var r := Ask();
      raises := r.raises;
      trace := trace + [Abort(raises)];
    }

    method TcpOutput()
      modifies `trace
      ensures trace == old(trace) + [Output]
    {
      trace := trace + [Output];
    }

    method TcpRecved(n: nat)
      modifies `trace
      ensures trace == old(trace) + [Recved(n)]
    {
      trace := trace + [Recved(n)];
    }
  }

  class TcpConnection {
    var state: State
    var controlBlock: TcpPcb?
    var writeBuffer: Pbuf?
    var readBuffer: Pbuf?

    const pcb: TcpPcb         // the block the connection was accepted with
    ghost var w: seq<Pbuf>    // the nodes of the write buffer chain
    ghost var r: seq<Pbuf>    // the nodes of the read buffer chain

    constructor (pcb: TcpPcb)
      ensures Valid() && w == r == [] && controlBlock == pcb && this.pcb == pcb
      ensures state == Established
    {
      this.pcb, controlBlock, state := pcb, pcb, Established;
      writeBuffer, readBuffer, w, r := null, null, [], [];
    }

    ghost function View(): Conn
      reads this, pcb
    {
      Conn(state, controlBlock != null, Payloads(w), Payloads(r), pcb.trace, pcb.asked)
    }

    ghost function Bufs(): set<Pbuf>
      reads this
    {
      Elems(w) + Elems(r)
    }

    /** Between callbacks: two separate chains, and their buffers are held by the
        connection and by nothing else. */
    ghost predicate Valid()
      reads this, Bufs()
    {
      && (if controlBlock == null then state == Closed && w == [] else controlBlock == pcb)
      && Chain(writeBuffer, w) && Chain(readBuffer, r)
      && Sized(w) && Sized(r)
      && Separate(w, r)
      && Heap(Bufs(), Hold(readBuffer) + Hold(writeBuffer))
    }

    /** Each buffer of a connection is then held exactly once. */
    lemma HeldOnce()
      requires Valid()
      ensures forall p :: p in Bufs() ==> p.ref == 1
    {
      assert Hold(readBuffer) + Hold(writeBuffer) == Hold(First(w)) + Hold(First(r));
      Settle(Bufs(), w, w, r, r);
      assert forall p :: p in Bufs() ==> p in w + r;
    }
  }

  /** In the middle of a callback: the write buffer is what is left of the chain
      `s`, and `v` are buffers that are not queued. */
  ghost predicate Loose(c: TcpConnection, live: set<Pbuf>, s: seq<Pbuf>, v: seq<Pbuf>)
    reads c`writeBuffer, c`w, c.w`next, s`next, s`len, s`totLen
  {
    && Chain(First(s), s) && Separate(s, v)
    && live <= Elems(s) + Elems(v)
    && Chain(c.writeBuffer, c.w) && Suffix(c.w, s) && Sized(s)
  }

  lemma {:induction false} SuffixSized(t: seq<Pbuf>, s: seq<Pbuf>)
    requires Suffix(t, s) && Sized(s)
    ensures Sized(t)
  {
    if t != s {
      SizedSuffix(s, 1);
      SuffixSized(t, s[1..]);
    }
  }

  /** Once only the connection holds buffers, it is in order again. */
  lemma SettleSending(c: TcpConnection, live: set<Pbuf>, s: seq<Pbuf>, v: seq<Pbuf>)
    requires Loose(c, live, s, v) && Chain(First(v), v) && Heap(live, Hold(c.readBuffer) + Hold(c.writeBuffer))
    requires Chain(c.readBuffer, c.r) && Suffix(c.r, v) && Sized(c.r)
    requires if c.controlBlock == null then c.state == Closed && c.w == [] else c.controlBlock == c.pcb
    ensures c.Valid() && live == c.Bufs()
  {
    SuffixSized(c.w, s);
    assert Hold(c.readBuffer) + Hold(c.writeBuffer) == Hold(First(c.w)) + Hold(First(c.r));
    Settle(live, s, c.w, v, c.r);
  }

  lemma {:induction false} SuffixNil(s: seq<Pbuf>)
    ensures Suffix([], s)
  {
    if s != [] {
      SuffixNil(s[1..]);
    }
  }

  lemma NothingHeld(live: set<Pbuf>, a: seq<Pbuf>, b: seq<Pbuf>)
    requires Heap(live, multiset{}) && live <= Elems(a) + Elems(b) && Separate(a, b)
    requires Chain(First(a), a) && Chain(First(b), b)
    ensures live == {}
  {
    SuffixNil(a);
    SuffixNil(b);
    assert Hold(First([])) + Hold(First([])) == multiset{};
    Settle(live, a, [], b, []);
  }

  /** The connection and an arriving packet taken together. */
  lemma JoinPacket(c: TcpConnection, p: Pbuf, u: seq<Pbuf>)
    requires c.Valid() && Chain(p, u) && Heap(Elems(u), Hold(p)) && c.Bufs() !! Elems(u)
    ensures var live := c.Bufs() + Elems(u);
      && Heap(live, Hold(p) + Hold(c.writeBuffer) + Hold(c.readBuffer))
      && Loose(c, live, c.w, c.r + u) && live == Elems(c.w) + Elems(c.r + u) && Separate(c.r, u)
      && forall q :: q in live ==> q.ref == 1
  {
    PacketHeld(p, u);
    c.HeldOnce();
    HeapUnion(c.Bufs(), Hold(c.readBuffer) + Hold(c.writeBuffer), Elems(u), Hold(p));
    assert Hold(c.readBuffer) + Hold(c.writeBuffer) + Hold(p) == Hold(p) + Hold(c.writeBuffer) + Hold(c.readBuffer);
    assert forall q :: q in c.w + c.r ==> q in c.Bufs();
    assert forall q :: q in u ==> q in Elems(u);
  }

  lemma PacketHeld(p: Pbuf?, u: seq<Pbuf>)
    requires Chain(p, u) && Heap(Elems(u), Hold(p))
    ensures forall q :: q in u ==> q.ref == 1
  {
    assert Hold(First(u)) + Hold(First([])) == Hold(p);
    Settle(Elems(u), u, u, [], []);
  }

  /** With no holder but the connection, moving on frees exactly one buffer. */
  lemma OneFreed(live: set<Pbuf>, live': set<Pbuf>, rest: multiset<Pbuf>, w: seq<Pbuf>, n: nat)
    requires w != [] && Chain(w[0], w) && live' <= live && |live| == |live'| + n
    requires Heap(live', rest + Hold(After(w, 0)))
    ensures rest == multiset{} && live == Elems(w) ==> U8(n) == 1 && live' == Elems(w[1..])
  {
    if rest == multiset{} && live == Elems(w) {
      Differ(w, 0);
      assert rest + Hold(After(w, 0)) == Hold(First(w[1..])) + Hold(First([]));
      assert Suffix(w[1..], w);
      Settle(live', w, w[1..], [], []);
      ElemsTail(w);
      assert n == 1;
    }
  }

  lemma ElemsTail(w: seq<Pbuf>)
    requires w != [] && Distinct(w)
    ensures Elems(w) == {w[0]} + Elems(w[1..]) && w[0] !in Elems(w[1..])
    ensures |Elems(w)| == 1 + |Elems(w[1..])|
  {
    Differ(w, 0);
    assert w == [w[0]] + w[1..];
    assert Elems(w) == {w[0]} + Elems(w[1..]) && w[0] !in Elems(w[1..]);
  }
}
