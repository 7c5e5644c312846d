/** The TCP server and its echo application: the callbacks of the stack, on chains of
    reference-counted buffers that the stack, a read buffer and a write buffer hold
    at the same time.  Every callback is proved to take the step of `TcpSpec` and to
    keep the buffers conserved. */
module TcpServers {
  import opened Pbufs
  import opened TcpSpec
  import opened TcpConnections

  /** Puts the chain `u` at `t` behind the chain `s` at `h`, or starts a chain with
      it: the two places that buffer data do this. */
  method Append(h: Pbuf?, t: Pbuf, ghost s: seq<Pbuf>, ghost u: seq<Pbuf>,
                ghost live: set<Pbuf>, ghost rest: multiset<Pbuf>)
    returns (head: Pbuf)
    requires Chain(h, s) && Chain(t, u) && Sized(s) && Sized(u)
    requires Separate(s, u) && Elems(s) + Elems(u) <= live
    requires Heap(live, rest + Hold(h)) && t.ref < 0xFF
    modifies s`next, s`totLen, t`ref
    ensures Chain(head, s + u) && Sized(s + u) && Heap(live, rest + Hold(head))
    ensures t.ref == old(t.ref) + 1
  {
    if h != null {
      PbufChain(h, t, s, u, live, rest + Hold(h));
      head := h;
    } else {
      assert s + u == u && rest + Hold(h) == rest;
      PbufRef(t, live, rest);
      head := t;
    }
  }

  /** A chain of which the first buffer is held loses none, wherever it is queued. */
  lemma Spared(live: set<Pbuf>, holders: multiset<Pbuf>, w: seq<Pbuf>, u: seq<Pbuf>)
    requires Heap(live, holders) && Chain(First(w + u), w + u) && u != []
    ensures u[0] in holders ==> Elems(u) <= live
  {
    if u[0] in holders {
      forall p | p in u
        ensures p in live
      {
        var i :| 0 <= i < |u| && u[i] == p;
        assert (w + u)[|w| + i] == p && (w + u)[|w|] == u[0];
        ChainKept(live, holders, First(w + u), w + u, |w|, |w| + i);
      }
    }
  }

  /** The first two buffers of a chain that somebody holds. */
  lemma NextHeld(live: set<Pbuf>, holders: multiset<Pbuf>, w: seq<Pbuf>)
    requires Heap(live, holders) && w != [] && Chain(w[0], w) && w[0] in holders
    ensures w[0] in live && w[0].ref >= 1
    ensures |w| > 1 ==> w[0].next == w[1] && w[1] in live && w[1].ref >= 1 && w[1] != w[0]
    ensures |w| == 1 ==> w[0].next == null
  {
    assert Counted(live, holders, w[0]) && w[0].next == After(w, 0);
    if |w| > 1 {
      Differ(w, 0);
      assert Counted(live, holders, w[1]);
    }
  }

  /** The echo application: sends back whatever was received. */
  class TcpEchoServer {
    var tcpServer: TcpServer

    constructor (server: TcpServer)
      ensures tcpServer == server
    {
      tcpServer := server;
    }

    /** Consumes the read buffer; `rest` holds the packet being delivered. */
    method Recv(c: TcpConnection, ghost live: set<Pbuf>, ghost rest: multiset<Pbuf>)
      returns (ghost live': set<Pbuf>, ghost s: seq<Pbuf>, ghost v: seq<Pbuf>)
      requires c.controlBlock == c.pcb
      requires Loose(c, live, c.w, c.r) && live == Elems(c.w) + Elems(c.r)
      requires Chain(c.readBuffer, c.r) && Sized(c.r)
      requires Heap(live, rest + Hold(c.readBuffer) + Hold(c.writeBuffer))
      requires forall p :: p in live ==> p.ref < 0xFE
      modifies c`writeBuffer, c`readBuffer, c`w, c`r, c.pcb, live`next, live`totLen, live`ref, live`freed
      ensures c.readBuffer == null && c.r == [] && Loose(c, live', s, v) && Chain(First(v), v)
      ensures live' <= live && Heap(live', rest + Hold(c.writeBuffer))
      ensures forall p :: p in live && p !in live' ==> p.freed == 1
      ensures c.View() == Echo(c.pcb.answers, old(c.View()))
    {
      hide Heap, Sized, Chain;
      live', s, v := tcpServer.Write(c, c.readBuffer, c.r, live, rest + Hold(c.readBuffer));
      live' := DropReadBuffer(c, live', rest, s, v);
    }

    method DropReadBuffer(c: TcpConnection, ghost live: set<Pbuf>, ghost rest: multiset<Pbuf>,
                          ghost s: seq<Pbuf>, ghost v: seq<Pbuf>)
      returns (ghost live': set<Pbuf>)
      requires Loose(c, live, s, v) && Chain(First(v), v) && Heap(live, rest + Hold(c.readBuffer) + Hold(c.writeBuffer))
      modifies c`readBuffer, c`r, live`ref, live`freed
      ensures c.readBuffer == null && c.r == [] && Loose(c, live', s, v) && Chain(First(v), v)
      ensures live' <= live && Heap(live', rest + Hold(c.writeBuffer))
      ensures forall p :: p in live && p !in live' ==> p.freed == 1
    {
      Reorder(rest, Hold(c.readBuffer), Hold(c.writeBuffer));
      var n, left, m := PbufFree(c.readBuffer, live, rest + Hold(c.writeBuffer));
      live' := left;
      c.readBuffer := null;
      c.r := [];
    }
  }

  /** The list of connections has room for this many and is never shrunk. */
  const MAX_CONNECTIONS := 10

  class TcpServer {
    var connections: seq<TcpConnection>
    var recvCallback: TcpEchoServer?

    constructor ()
      ensures connections == [] && recvCallback == null
    {
      connections, recvCallback := [], null;
    }

    /** A new connection is taken on while the list has room; otherwise its
        control block is closed or, failing that, aborted. */
    method Accept(newpcb: TcpPcb, err: Err) returns (res: Err)
      modifies `connections, newpcb
      ensures |old(connections)| <= |connections| && connections[..|old(connections)|] == old(connections)
      ensures err == Ok && |old(connections)| < MAX_CONNECTIONS ==>
        && res == Ok && |connections| == |old(connections)| + 1 && unchanged(newpcb)
        && var c := connections[|old(connections)|];
          fresh(c) && c.Valid() && c.w == c.r == [] && c.pcb == newpcb && c.state == Established
      ensures err != Ok || |old(connections)| >= MAX_CONNECTIONS ==>
        var closed := newpcb.answers(old(newpcb.asked)).close;
        && connections == old(connections)
        && res == (if closed != Ok then Abrt else if err != Ok then err else Mem)
        && newpcb.trace == old(newpcb.trace) + [Call.Close(closed)]
             + if closed != Ok then [Abort(newpcb.answers(old(newpcb.asked) + 1).raises)] else []
    {
      res := err;
      if res == Ok && |connections| >= MAX_CONNECTIONS {
        res := Mem;
      }
      if res != Ok {
        var errClose := newpcb.TcpClose();
        if errClose != Ok {
          var raises := newpcb.TcpAbort();
          return Abrt;
        }
        return;
      }
      var c := new TcpConnection(newpcb);
      connections := connections + [c];
    }

    /** The end of one iteration of `writeToTcp`: frees the leading buffer and
        moves the write buffer on to the next one. */
    method DropLeading(c: TcpConnection, ghost live: set<Pbuf>, ghost rest: multiset<Pbuf>)
      returns (freed: nat, ghost live': set<Pbuf>, ghost n: nat)
      requires c.writeBuffer != null && Chain(c.writeBuffer, c.w)
      requires Heap(live, rest + Hold(c.writeBuffer))
      requires forall i :: 1 <= i < |c.w| ==> c.w[i].ref < 0xFF
      modifies c`writeBuffer, c`w, live`ref, live`freed
      ensures c.w == old(c.w)[1..] && Chain(c.writeBuffer, c.w)
      ensures live' <= live && Heap(live', rest + Hold(c.writeBuffer))
      ensures forall p :: p in live && p !in live' ==> p.freed == 1
      ensures forall i :: 1 <= i < |c.w| ==> c.w[i].ref < 0xFF
      ensures |live| == |live'| + n && freed == U8(n)
      ensures freed == 1 <==> old(c.writeBuffer.ref) == 1
    {
      var pbuf: Pbuf := c.writeBuffer;
      ChainTail(pbuf, c.w);
      if |c.w| > 1 {
        Differ(c.w, 1);
      }
      NextHeld(live, rest + Hold(pbuf), c.w);
      c.writeBuffer := pbuf.next;
      c.w := c.w[1..];
      ghost var more := rest + Hold(c.writeBuffer);
      assert rest + Hold(pbuf) + Hold(c.writeBuffer) == more + Hold(pbuf);
      if c.writeBuffer == null {
        assert more == rest;
      } else {
        PbufRef(c.writeBuffer, live, rest + Hold(pbuf));
      }
      freed, live', n := PbufFree(pbuf, live, more);
    }

    /** The start of one iteration: asks for room and offers the leading buffer
        to the stack.  `taken` tells that the stack copied it. */
    method OfferLeading(c: TcpConnection) returns (taken: bool)
      requires c.controlBlock == c.pcb && Chain(c.writeBuffer, c.w)
      requires forall p :: p in c.w ==> p.len == |p.payload|
      modifies c.pcb
      ensures !taken ==> c.View() == Pump(c.pcb.answers, old(c.View()))
      ensures taken ==> c.w != []
      ensures taken ==>
        Pump(c.pcb.answers, c.View().(queue := c.View().queue[1..])) == Pump(c.pcb.answers, old(c.View()))
    {
      if c.writeBuffer == null {
        return false;
      }
      var available := c.pcb.TcpSndbuf();
      if available < c.writeBuffer.len {
        return false;
      }
      var err := c.pcb.TcpWrite(c.writeBuffer.payload);
      if err == Mem {
        return false;
      }
      if err != Ok {
        return false;
      }
      return true;
    }

    /** One iteration of `writeToTcp`.  `odd` tells that the iteration freed
        something else than one buffer. */
    method Iterate(c: TcpConnection, ghost live: set<Pbuf>, ghost rest: multiset<Pbuf>)
      returns (more: bool, odd: bool, ghost live': set<Pbuf>)
      requires c.controlBlock == c.pcb && Chain(c.writeBuffer, c.w)
      requires Heap(live, rest + Hold(c.writeBuffer))
      requires forall p :: p in c.w ==> p.len == |p.payload|
      requires forall i :: 1 <= i < |c.w| ==> c.w[i].ref < 0xFF
      modifies c`writeBuffer, c`w, c.pcb, live`ref, live`freed
      ensures Chain(c.writeBuffer, c.w)
      ensures if more then old(c.w) != [] && c.w == old(c.w)[1..] else c.w == old(c.w)
      ensures live' <= live && Heap(live', rest + Hold(c.writeBuffer))
      ensures forall p :: p in live && p !in live' ==> p.freed == 1
      ensures forall i :: 1 <= i < |c.w| ==> c.w[i].ref < 0xFF
      ensures Pump(c.pcb.answers, old(c.View())) == if more then Pump(c.pcb.answers, c.View()) else c.View()
      ensures rest == multiset{} && live == Elems(old(c.w)) ==> !odd && live' == Elems(c.w)
      ensures more ==> (!odd <==> old(c.w[0].ref) == 1)
    {
      odd, live' := false, live;
      more := OfferLeading(c);
      if more {
        assert Payloads(c.w)[1..] == Payloads(c.w[1..]);
        ghost var w, n := c.w, 0;
        var freed;
        freed, live', n := DropLeading(c, live, rest);
        OneFreed(live, live', rest, w, n);
        odd := freed != 1;
      }
    }

    /** Sends from the front of the write buffer until the stack has no room.
        `odd` counts the iterations that freed something else than one buffer. */
    method WriteToTcp(c: TcpConnection, ghost live: set<Pbuf>, ghost rest: multiset<Pbuf>)
      returns (ghost live': set<Pbuf>, odd: nat)
      requires c.controlBlock == c.pcb && Chain(c.writeBuffer, c.w)
      requires Heap(live, rest + Hold(c.writeBuffer))
      requires forall p :: p in c.w ==> p.ref < 0xFF && p.len == |p.payload|
      modifies c`writeBuffer, c`w, c.pcb, live`ref, live`freed
      ensures Chain(c.writeBuffer, c.w) && Suffix(c.w, old(c.w))
      ensures live' <= live && Heap(live', rest + Hold(c.writeBuffer))
      ensures forall p :: p in live && p !in live' ==> p.freed == 1
      ensures c.View() == TcpSpec.WriteToTcp(c.pcb.answers, old(c.View()))
      ensures rest == multiset{} && live == Elems(old(c.w)) ==> odd == 0 && live' == Elems(c.w)
    {
      hide Heap, Chain;
      live', odd := live, 0;
      ghost var s, a := c.w, c.pcb.answers;
      var more := true;
      while more
        invariant Chain(c.writeBuffer, c.w) && Suffix(c.w, s)
        invariant live' <= live && Heap(live', rest + Hold(c.writeBuffer))
        invariant forall p :: p in s ==> p.len == |p.payload|
        invariant forall p :: p in live && p !in live' ==> p.freed == 1
        invariant forall i :: 1 <= i < |c.w| ==> c.w[i].ref < 0xFF
        invariant Pump(a, old(c.View())) == if more then Pump(a, c.View()) else c.View()
        invariant rest == multiset{} && live == Elems(s) ==> odd == 0 && live' == Elems(c.w)
        decreases |c.w|, more
      {
        SuffixTail(c.w, s);
        var strange;
        more, strange, live' := Iterate(c, live', rest);
        odd := if strange then odd + 1 else odd;
      }
      c.pcb.TcpOutput();
    }

    /** The accepted case of `write`: queue the chain behind what waits already
        and send what the stack has room for. */
    method Send(c: TcpConnection, pbuf: Pbuf, ghost u: seq<Pbuf>, ghost live: set<Pbuf>, ghost rest: multiset<Pbuf>)
      returns (ghost live': set<Pbuf>)
      requires c.controlBlock == c.pcb && Chain(c.writeBuffer, c.w) && Chain(pbuf, u)
      requires Sized(c.w) && Sized(u) && Separate(c.w, u) && live == Elems(c.w) + Elems(u)
      requires Heap(live, rest + Hold(c.writeBuffer))
      requires forall p :: p in live ==> p.ref < 0xFE
      modifies c`writeBuffer, c`w, c.pcb, live`next, live`totLen, live`ref, live`freed
      ensures Loose(c, live', old(c.w) + u, [])
      ensures live' <= live && Heap(live', rest + Hold(c.writeBuffer))
      ensures forall p :: p in live && p !in live' ==> p.freed == 1
      ensures c.View() == TcpSpec.WriteToTcp(c.pcb.answers, old(c.View()).(queue := old(c.View()).queue + Payloads(u)))
    {
      hide Heap, Suffix;
      Queue(c, pbuf, u, live, rest);
      var odd;
      live', odd := WriteToTcp(c, live, rest);
    }

    /** Puts the chain behind what waits already. */
    method Queue(c: TcpConnection, pbuf: Pbuf, ghost u: seq<Pbuf>, ghost live: set<Pbuf>, ghost rest: multiset<Pbuf>)
      requires Chain(c.writeBuffer, c.w) && Chain(pbuf, u)
      requires Sized(c.w) && Sized(u) && Separate(c.w, u) && live == Elems(c.w) + Elems(u)
      requires Heap(live, rest + Hold(c.writeBuffer))
      requires forall p :: p in live ==> p.ref < 0xFE
      modifies c`writeBuffer, c`w, live`next, live`totLen, live`ref
      ensures c.w == old(c.w) + u && Chain(c.writeBuffer, c.w) && Sized(c.w)
      ensures Heap(live, rest + Hold(c.writeBuffer)) && forall p :: p in live ==> p.ref < 0xFF
      ensures c.View() == old(c.View()).(queue := old(c.View()).queue + Payloads(u))
    {
      hide Heap, Sized;
      ghost var s := c.w + u;
      PayloadsAppend(c.w, u);
      c.writeBuffer := Append(c.writeBuffer, pbuf, c.w, u, live, rest);
      c.w := s;
    }

    /** Takes the chain `u` at `pbuf` for sending unless the connection is not
        established or there is nothing in it. */
    method Write(c: TcpConnection, pbuf: Pbuf?, ghost u: seq<Pbuf>, ghost live: set<Pbuf>, ghost rest: multiset<Pbuf>)
      returns (ghost live': set<Pbuf>, ghost s: seq<Pbuf>, ghost v: seq<Pbuf>)
      requires c.controlBlock == c.pcb && Chain(c.writeBuffer, c.w) && Chain(pbuf, u)
      requires Sized(c.w) && Sized(u) && Separate(c.w, u) && live == Elems(c.w) + Elems(u)
      requires Heap(live, rest + Hold(c.writeBuffer))
      requires forall p :: p in live ==> p.ref < 0xFE
      modifies c`writeBuffer, c`w, c.pcb, live`next, live`totLen, live`ref, live`freed
      ensures Loose(c, live', s, v) && Chain(First(v), v)
      ensures live' <= live && Heap(live', rest + Hold(c.writeBuffer))
      ensures forall p :: p in live && p !in live' ==> p.freed == 1
      ensures c.View() == WriteChain(c.pcb.answers, old(c.View()), Payloads(u))
      ensures pbuf != null && pbuf in rest ==> Elems(u) <= live'
    {
      live', s, v := live, c.w, u;
      RestFlat(u);
      if c.state != Established {
        return;
      }
      if pbuf == null {
        return;
      }
      assert pbuf.totLen == U16(Rest(u, 0));
      if pbuf.totLen == 0 {
        return;
      }
      s, v := c.w + u, [];
      ghost var w := c.w;
      live' := Send(c, pbuf, u, live, rest);
      Spared(live', rest + Hold(c.writeBuffer), w, u);
    }

    /** The stack gave the connection up: every buffer goes back. */
    method Error(c: TcpConnection)
      requires c.Valid()
      modifies c, c.Bufs()`ref, c.Bufs()`freed
      ensures c.Valid() && c.w == c.r == []
      ensures c.View() == OnError(old(c.View()))
      ensures forall p :: p in old(c.Bufs()) ==> p.freed == 1
    {
      c.state := Closed;
      c.controlBlock := null;
      HoldSwap(c.readBuffer, c.writeBuffer);
      FreeBoth(c.readBuffer, c.writeBuffer, c.r, c.w);
      c.readBuffer := null;
      c.writeBuffer := null;
      c.w, c.r := [], [];
      assert Hold(null) + Hold(null) == multiset{};
    }

    method FreeBoth(p: Pbuf?, q: Pbuf?, ghost a: seq<Pbuf>, ghost b: seq<Pbuf>)
      requires Chain(p, a) && Chain(q, b) && Separate(a, b)
      requires Heap(Elems(b) + Elems(a), Hold(q) + Hold(p))
      modifies (Elems(b) + Elems(a))`ref, (Elems(b) + Elems(a))`freed
      ensures forall x :: x in Elems(b) + Elems(a) ==> x.freed == 1
    {
      hide Heap, Distinct, After, Separate;
      ghost var all := Elems(b) + Elems(a);
      var n1, live1, m1 := PbufFree(p, all, Hold(q));
      NoneHold(q);
      var n2, live2, m2 := PbufFree(q, live1, multiset{});
      NothingHeld(live2, a, b);
    }

    method Close(c: TcpConnection)
      requires c.Valid() && c.controlBlock == c.pcb && c.w == []
      modifies c, c.pcb, c.Bufs()`ref, c.Bufs()`freed
      ensures c.Valid() && c.View() == CloseConn(c.pcb.answers, old(c.View()))
      ensures c.r == old(c.r) || c.r == []
      ensures c.Bufs() <= old(c.Bufs()) && forall p :: p in old(c.Bufs()) && p !in c.Bufs() ==> p.freed == 1
    {
      hide Heap, Sized, Chain;
      var err := c.pcb.TcpClose();
      if err == Mem {
        return;
      }
      if err != Ok {
        var raises := c.pcb.TcpAbort();
        if raises {
          Error(c);
        }
      }
      c.state := Closed;
    }

    /** `writeToTcp` as called between callbacks: with an empty read buffer every
        iteration frees exactly one buffer. */
    method SendWaiting(c: TcpConnection) returns (odd: nat)
      requires c.Valid() && c.controlBlock == c.pcb
      modifies c`writeBuffer, c`w, c.pcb, c.Bufs()`ref, c.Bufs()`freed
      ensures c.Valid() && c.View() == TcpSpec.WriteToTcp(c.pcb.answers, old(c.View()))
      ensures c.Bufs() <= old(c.Bufs()) && forall p :: p in old(c.Bufs()) && p !in c.Bufs() ==> p.freed == 1
      ensures old(c.r) == [] ==> odd == 0
    {
      ghost var w, live := c.w, c.Bufs();
      c.HeldOnce();
      assert c.r == [] ==> live == Elems(w);
      live, odd := WriteToTcp(c, live, Hold(c.readBuffer));
      SettleSending(c, live, w, c.r);
    }

    method Drive(c: TcpConnection) returns (odd: nat)
      requires c.Valid()
      modifies c, c.pcb, c.Bufs()`ref, c.Bufs()`freed
      ensures c.Valid() && c.View() == OnIdle(c.pcb.answers, old(c.View()))
      ensures c.r == old(c.r) || c.r == []
      ensures c.Bufs() <= old(c.Bufs()) && forall p :: p in old(c.Bufs()) && p !in c.Bufs() ==> p.freed == 1
      ensures old(c.r) == [] ==> odd == 0
    {
      odd := 0;
      if c.writeBuffer != null {
        odd := SendWaiting(c);
      } else if c.state == Closing {
        Close(c);
      }
    }

    /** Acknowledged data make room for more. */
    method Sent(c: TcpConnection, len: u16) returns (err: Err)
      requires c.Valid()
      modifies c, c.pcb, c.Bufs()`ref, c.Bufs()`freed
      ensures c.Valid() && c.View() == Step(c.pcb.answers, true, old(c.View()), Event.Sent(len)) && err == Ok
      ensures c.r == old(c.r) || c.r == []
      ensures c.Bufs() <= old(c.Bufs()) && forall p :: p in old(c.Bufs()) && p !in c.Bufs() ==> p.freed == 1
    {
      var odd := Drive(c);
      err := Ok;
    }

    method Poll(c: TcpConnection) returns (err: Err)
      requires c.Valid()
      modifies c, c.pcb, c.Bufs()`ref, c.Bufs()`freed
      ensures c.Valid() && c.View() == Step(c.pcb.answers, true, old(c.View()), Event.Poll) && err == Ok
      ensures c.r == old(c.r) || c.r == []
      ensures c.Bufs() <= old(c.Bufs()) && forall p :: p in old(c.Bufs()) && p !in c.Bufs() ==> p.freed == 1
    {
      var odd := Drive(c);
      err := Ok;
    }

    /** Adds the packet to the read buffer, which then holds it too. */
    method TakePacket(c: TcpConnection, p: Pbuf, ghost u: seq<Pbuf>, ghost live: set<Pbuf>)
      requires Chain(c.readBuffer, c.r) && Sized(c.r) && Loose(c, live, c.w, c.r + u)
      requires Chain(p, u) && Sized(u) && Separate(c.r, u) && live == Elems(c.w) + Elems(c.r + u)
      requires Heap(live, Hold(p) + Hold(c.writeBuffer) + Hold(c.readBuffer))
      requires forall q :: q in live ==> q.ref == 1
      modifies c`readBuffer, c`r, c.r`next, c.r`totLen, p`ref
      ensures c.r == old(c.r) + u && Chain(c.readBuffer, c.r) && Sized(c.r)
      ensures Loose(c, live, c.w, c.r) && live == Elems(c.w) + Elems(c.r)
      ensures Heap(live, Hold(p) + Hold(c.writeBuffer) + Hold(c.readBuffer))
      ensures forall q :: q in live ==> q.ref <= 2
    {
      hide Heap, Distinct, After, Sized;
      SeparateAt(c.w, c.r + u);
      assert forall i :: 0 <= i < |c.r| ==> c.r[i] == (c.r + u)[i];
      assert p == (c.r + u)[|c.r|];
      c.readBuffer := Append(c.readBuffer, p, c.r, u, live, Hold(p) + Hold(c.writeBuffer));
      c.r := c.r + u;
    }

    /** The stack's own reference on the packet is dropped last. */
    method FinishPacket(c: TcpConnection, p: Pbuf, ghost live: set<Pbuf>, ghost s: seq<Pbuf>, ghost v: seq<Pbuf>)
      requires Loose(c, live, s, v) && Chain(First(v), v)
      requires Heap(live, Hold(p) + Hold(c.readBuffer) + Hold(c.writeBuffer))
      requires Chain(c.readBuffer, c.r) && Sized(c.r) && Suffix(c.r, v) && c.controlBlock == c.pcb
      modifies live`ref, live`freed
      ensures c.Valid() && c.Bufs() <= live
      ensures forall q :: q in live && q !in c.Bufs() ==> q.freed == 1
    {
      Rotate(Hold(p), Hold(c.readBuffer), Hold(c.writeBuffer));
      var n, live', m := PbufFree(p, live, Hold(c.readBuffer) + Hold(c.writeBuffer));
      SettleSending(c, live', s, v);
    }

    method HandToApplication(app: TcpEchoServer, c: TcpConnection, p: Pbuf, ghost live: set<Pbuf>)
      requires c.controlBlock == c.pcb && Loose(c, live, c.w, c.r) && live == Elems(c.w) + Elems(c.r)
      requires Chain(c.readBuffer, c.r) && Sized(c.r)
      requires Heap(live, Hold(p) + Hold(c.readBuffer) + Hold(c.writeBuffer))
      requires forall q :: q in live ==> q.ref <= 2
      modifies c`writeBuffer, c`readBuffer, c`w, c`r, c.pcb, live`next, live`totLen, live`ref, live`freed
      ensures c.Valid() && c.Bufs() <= live && c.r == []
      ensures forall q :: q in live && q !in c.Bufs() ==> q.freed == 1
      ensures c.View() == Echo(c.pcb.answers, old(c.View()))
    {
      hide Heap, Sized, Loose;
      ghost var live', s, v := app.Recv(c, live, Hold(p));
      SuffixNil(v);
      NullHold(Hold(p));
      FinishPacket(c, p, live', s, v);
    }

    /** Lets the application, if there is one, consume the read buffer; then the
        packet is let go of. */
    method HandOver(c: TcpConnection, p: Pbuf, ghost live: set<Pbuf>)
      requires c.controlBlock == c.pcb && Loose(c, live, c.w, c.r) && live == Elems(c.w) + Elems(c.r)
      requires Chain(c.readBuffer, c.r) && Sized(c.r)
      requires Heap(live, Hold(p) + Hold(c.readBuffer) + Hold(c.writeBuffer))
      requires forall q :: q in live ==> q.ref <= 2
      modifies c`writeBuffer, c`readBuffer, c`w, c`r, c.pcb, live`next, live`totLen, live`ref, live`freed
      ensures c.Valid() && c.Bufs() <= live
      ensures forall q :: q in live && q !in c.Bufs() ==> q.freed == 1
      ensures c.View() == if recvCallback != null then Echo(c.pcb.answers, old(c.View())) else old(c.View())
      ensures recvCallback != null ==> c.r == []
    {
      hide Heap, Sized, Loose, Chain;
      if recvCallback != null {
        HandToApplication(recvCallback, c, p, live);
      } else {
        KeepForLater(c, p, live);
      }
    }

    method KeepForLater(c: TcpConnection, p: Pbuf, ghost live: set<Pbuf>)
      requires c.controlBlock == c.pcb && Loose(c, live, c.w, c.r) && live == Elems(c.w) + Elems(c.r)
      requires Chain(c.readBuffer, c.r) && Sized(c.r)
      requires Heap(live, Hold(p) + Hold(c.readBuffer) + Hold(c.writeBuffer))
      modifies live`ref, live`freed
      ensures c.Valid() && c.Bufs() <= live
      ensures forall q :: q in live && q !in c.Bufs() ==> q.freed == 1
    {
      FinishPacket(c, p, live, c.w, c.r);
    }

    /** Buffers a packet and hands the read buffer over. */
    method Deliver(c: TcpConnection, p: Pbuf, ghost u: seq<Pbuf>)
      requires c.Valid() && c.controlBlock == c.pcb
      requires Chain(p, u) && Sized(u) && Heap(Elems(u), Hold(p)) && c.Bufs() !! Elems(u)
      modifies c, c.pcb, c.Bufs(), Elems(u)
      ensures c.Valid() && c.Bufs() <= old(c.Bufs()) + Elems(u)
      ensures var d := old(c.View()).(pending := old(c.View()).pending + Payloads(u));
        c.View() == if recvCallback != null then Echo(c.pcb.answers, d) else d
      ensures forall q :: q in old(c.Bufs()) + Elems(u) && q !in c.Bufs() ==> q.freed == 1
      ensures recvCallback != null ==> c.r == []
    {
      PayloadsAppend(c.r, u);
      JoinPacket(c, p, u);
      ghost var live := c.Bufs() + Elems(u);
      ghost var d := c.View().(pending := c.View().pending + Payloads(u));
      TakePacket(c, p, u, live);
      assert c.View() == d;
      Reorder(Hold(p), Hold(c.writeBuffer), Hold(c.readBuffer));
      HandOver(c, p, live);
    }

    /** An empty delivery is the end of the stream. */
    method RecvEnd(c: TcpConnection)
      requires c.Valid() && c.controlBlock == c.pcb
      modifies c, c.pcb, c.Bufs()`ref, c.Bufs()`freed
      ensures c.Valid() && c.View() == Step(c.pcb.answers, true, old(c.View()), Fin)
      ensures c.Bufs() <= old(c.Bufs()) && forall p :: p in old(c.Bufs()) && p !in c.Bufs() ==> p.freed == 1
      ensures old(c.r) == [] ==> c.r == []
    {
      c.state := Closing;
      if c.writeBuffer != null {
        var odd := SendWaiting(c);
      } else {
        Close(c);
      }
    }

    method RecvData(c: TcpConnection, p: Pbuf, err: Err, ghost u: seq<Pbuf>) returns (res: Err)
      requires c.Valid() && c.controlBlock == c.pcb
      requires Chain(p, u) && Sized(u) && Heap(Elems(u), Hold(p)) && c.Bufs() !! Elems(u)
      modifies c, c.pcb, c.Bufs(), Elems(u)
      ensures c.Valid() && c.Bufs() <= old(c.Bufs()) + Elems(u) && res == err
      ensures c.View() == Step(c.pcb.answers, recvCallback != null, old(c.View()), Data(Payloads(u), err))
      ensures forall q :: q in old(c.Bufs()) + Elems(u) && q !in c.Bufs() ==> q.freed == 1
      ensures recvCallback != null && old(c.r) == [] ==> c.r == []
    {
      if err != Ok {
        Refuse(p, u);
        return err;
      }
      RestFlat(u);
      assert p.totLen == U16(Rest(u, 0));
      c.pcb.TcpRecved(p.totLen);
      Deliver(c, p, u);
      return Ok;
    }

    /** The stack delivers a packet, or with none the end of the stream. */
    method Recv(c: TcpConnection, p: Pbuf?, err: Err, ghost u: seq<Pbuf>) returns (res: Err)
      requires c.Valid() && c.controlBlock == c.pcb
      requires Chain(p, u) && Sized(u) && Heap(Elems(u), Hold(p)) && c.Bufs() !! Elems(u)
      modifies c, c.pcb, c.Bufs(), Elems(u)
      ensures c.Valid() && c.Bufs() <= old(c.Bufs()) + Elems(u)
      ensures c.View() == Step(c.pcb.answers, recvCallback != null, old(c.View()),
                               if p == null then Fin else Data(Payloads(u), err))
      ensures res == if p == null then Ok else err
      ensures forall q :: q in old(c.Bufs()) + Elems(u) && q !in c.Bufs() ==> q.freed == 1
      ensures recvCallback != null && old(c.r) == [] ==> c.r == []
    {
      if p == null {
        RecvEnd(c);
        return Ok;
      }
      res := RecvData(c, p, err, u);
    }

    method Refuse(p: Pbuf, ghost u: seq<Pbuf>)
      requires Chain(p, u) && Heap(Elems(u), Hold(p))
      modifies Elems(u)`ref, Elems(u)`freed
      ensures forall q :: q in u ==> q.freed == 1
    {
      NoneHold(p);
      var n, live, m := PbufFree(p, Elems(u), multiset{});
      NothingHeld(live, u, []);
      assert forall q :: q in u ==> q in Elems(u);
    }
  }

  // ---------- The callbacks as the stack runs them ----------

  /** The control block was aborted, and nothing else done with it. */
  ghost predicate Disowned(before: seq<TcpSpec.Call>, tpcb: TcpPcb)
    reads tpcb
  {
    |tpcb.trace| == |before| + 1 && before < tpcb.trace && tpcb.trace[|before|].Abort?
  }

  /** The guard of every callback: with no connection, or one that no longer has
      this control block, the control block is aborted. */
  method Guard(arg: TcpConnection?, tpcb: TcpPcb) returns (ok: bool)
    modifies tpcb
    ensures ok <==> arg != null && arg.controlBlock == tpcb
    ensures ok ==> unchanged(tpcb)
    ensures !ok ==> Disowned(old(tpcb.trace), tpcb)
  {
    if arg == null {
      var raises := tpcb.TcpAbort();
      return false;
    }
    if arg.controlBlock != tpcb {
      var raises := tpcb.TcpAbort();
      return false;
    }
    return true;
  }

  method RecvCallback(server: TcpServer, arg: TcpConnection?, tpcb: TcpPcb, p: Pbuf?, err: Err, ghost u: seq<Pbuf>)
    returns (res: Err)
    requires arg != null ==> arg.Valid() && arg.Bufs() !! Elems(u)
    requires Chain(p, u) && Sized(u) && Heap(Elems(u), Hold(p))
    modifies tpcb, if arg == null then {} else {arg, arg.pcb}
    modifies if arg == null then {} else arg.Bufs(), Elems(u)
    ensures arg == null || old(arg.controlBlock) != tpcb ==>
      res == Abrt && Disowned(old(tpcb.trace), tpcb) && unchanged(Elems(u))
    ensures arg != null && old(arg.controlBlock) != tpcb ==> unchanged(arg) && unchanged(old(arg.Bufs()))
    ensures arg != null && old(arg.controlBlock) == tpcb ==>
      && res == (if p == null then Ok else err) && arg.Valid()
      && arg.View() == Step(tpcb.answers, server.recvCallback != null, old(arg.View()),
                            if p == null then Fin else Data(Payloads(u), err))
      && arg.Bufs() <= old(arg.Bufs()) + Elems(u)
      && (forall q :: q in old(arg.Bufs()) + Elems(u) && q !in arg.Bufs() ==> q.freed == 1)
      && (server.recvCallback != null && old(arg.r) == [] ==> arg.r == [])
  {
    var ok := Guard(arg, tpcb);
    if !ok {
      return Abrt;
    }
    res := server.Recv(arg, p, err, u);
  }

  method SentCallback(server: TcpServer, arg: TcpConnection?, tpcb: TcpPcb, len: u16) returns (res: Err)
    requires arg != null ==> arg.Valid()
    modifies tpcb, if arg == null then {} else {arg, arg.pcb}
    modifies if arg == null then {} else arg.Bufs()
    ensures arg == null || old(arg.controlBlock) != tpcb ==> res == Abrt && Disowned(old(tpcb.trace), tpcb)
    ensures arg != null && old(arg.controlBlock) != tpcb ==> unchanged(arg) && unchanged(old(arg.Bufs()))
    ensures arg != null && old(arg.controlBlock) == tpcb ==>
      && res == Ok && arg.Valid() && arg.View() == Step(tpcb.answers, true, old(arg.View()), Event.Sent(len))
      && arg.Bufs() <= old(arg.Bufs()) && (forall q :: q in old(arg.Bufs()) && q !in arg.Bufs() ==> q.freed == 1)
      && (arg.r == old(arg.r) || arg.r == [])
  {
    var ok := Guard(arg, tpcb);
    if !ok {
      return Abrt;
    }
    res := server.Sent(arg, len);
  }

  method PollCallback(server: TcpServer, arg: TcpConnection?, tpcb: TcpPcb) returns (res: Err)
    requires arg != null ==> arg.Valid()
    modifies tpcb, if arg == null then {} else {arg, arg.pcb}
    modifies if arg == null then {} else arg.Bufs()
    ensures arg == null || old(arg.controlBlock) != tpcb ==> res == Abrt && Disowned(old(tpcb.trace), tpcb)
    ensures arg != null && old(arg.controlBlock) != tpcb ==> unchanged(arg) && unchanged(old(arg.Bufs()))
    ensures arg != null && old(arg.controlBlock) == tpcb ==>
      && res == Ok && arg.Valid() && arg.View() == Step(tpcb.answers, true, old(arg.View()), Event.Poll)
      && arg.Bufs() <= old(arg.Bufs()) && (forall q :: q in old(arg.Bufs()) && q !in arg.Bufs() ==> q.freed == 1)
      && (arg.r == old(arg.r) || arg.r == [])
  {
    var ok := Guard(arg, tpcb);
    if !ok {
      return Abrt;
    }
    res := server.Poll(arg);
  }
}
