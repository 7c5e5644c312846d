/** The echo server in its environment: the stack hands it packets and runs the
    callbacks of many connections in any order. */
module EchoRun {
  import opened Pbufs
  import opened TcpSpec
  import opened TcpConnections
  import opened TcpServers
  import TcpTalks

  /** A buffer put in front of a chain takes over the reference on its first one. */
  lemma ConsHeap(p: Pbuf, q: Pbuf?, v: seq<Pbuf>)
    requires Chain(q, v) && Heap(Elems(v), Hold(q)) && p !in v
    requires p.next == q && p.ref == 1 && p.freed == 0
    ensures Chain(p, [p] + v) && Heap(Elems([p] + v), Hold(p))
  {
    var u := [p] + v;
    forall i, j | 0 <= i < j < |u|
      ensures Apart(u, i, j)
    {
      if i > 0 {
        assert Apart(v, i - 1, j - 1);
      }
    }
    forall i | 0 <= i < |u|
      ensures u[i].next == After(u, i)
    {
      if i > 0 {
        assert v[i - 1].next == After(v, i - 1);
      }
    }
    forall x | x in Elems(u)
      ensures Counted(Elems(u), Hold(p), x)
    {
      if x == p {
        forall y | y in v
          ensures y.next != p
        {
          ChainClosed(v, y);
        }
        assert p.next != p;
        assert Preds(Elems(u), p) == {};
      } else {
        assert Counted(Elems(v), Hold(q), x);
        if x == q {
          assert Preds(Elems(u), x) == Preds(Elems(v), x) + {p};
        } else {
          assert Preds(Elems(u), x) == Preds(Elems(v), x);
        }
      }
    }
  }

  /** A packet as the stack builds it: fresh buffers, each held once. */
  method NewPacket(chunks: seq<seq<byte>>) returns (p: Pbuf?, u: seq<Pbuf>)
    requires |Flat(chunks)| < 0x1_0000
    ensures Chain(p, u) && Sized(u) && Heap(Elems(u), Hold(p)) && Payloads(u) == chunks
    ensures fresh(u)
  {
    if chunks == [] {
      p, u := null, [];
    } else {
      var q, v := NewPacket(chunks[1..]);
      RestFlat(v);
      var h := new Pbuf(chunks[0]);
      h.next := q;
      h.totLen := |chunks[0]| + if q == null then 0 else q.totLen;
      p, u := h, [h] + v;
      ConsHeap(h, q, v);
      ConsSized(h, q, v);
    }
  }

  lemma ConsSized(p: Pbuf, q: Pbuf?, v: seq<Pbuf>)
    requires Sized(v) && q == First(v)
    requires p.len == |p.payload| && p.totLen == p.len + (if q == null then 0 else q.totLen)
    requires p.len + Rest(v, 0) < 0x1_0000
    ensures Sized([p] + v) && Payloads([p] + v) == [p.payload] + Payloads(v)
  {
    var u := [p] + v;
    assert u[1..] == v;
    forall i | 0 <= i < |u|
      ensures u[i].totLen == U16(Rest(u, i))
    {
      if i > 0 {
        RestSuffix(u, 1, i - 1);
        assert v[i - 1].totLen == U16(Rest(v, i - 1));
      } else {
        RestSuffix(u, 1, 0);
        assert q != null ==> v[0].totLen == U16(Rest(v, 0));
      }
    }
  }

  /** A chain as the stack hands it over, holding the data of an event; other events
      bring none. */
  ghost predicate Brings(e: Event, u: seq<Pbuf>)
    reads u
  {
    if e.Data? then Chain(First(u), u) && Sized(u) && Heap(Elems(u), Hold(First(u))) && Payloads(u) == e.chunks
    else u == []
  }

  /** One callback of the stack for connection `c`; it delivers the buffers `u`. */
  method Callback(server: TcpServer, c: TcpConnection, e: Event, u: seq<Pbuf>)
    requires server.recvCallback != null && c.Valid() && c.r == [] && Enabled(c.View(), e)
    requires Brings(e, u) && c.Bufs() !! Elems(u)
    modifies c, c.pcb, c.Bufs(), Elems(u)
    ensures c.Valid() && c.r == [] && c.View() == Step(c.pcb.answers, true, old(c.View()), e)
    ensures c.Bufs() <= old(c.Bufs()) + Elems(u)
    ensures forall q :: q in old(c.Bufs()) + Elems(u) && q !in c.Bufs() ==> q.freed == 1
  {
    hide Heap, Sized, Chain;
    match e {
      case Data(chunks, err) =>
        var res := server.Recv(c, u[0], err, u);
      case Fin =>
        HeapEmpty();
        var res := server.Recv(c, null, Ok, []);
      case Sent(len) =>
        var res := server.Sent(c, len);
      case Poll =>
        var res := server.Poll(c);
      case Error =>
        server.Error(c);
    }
  }

  lemma HeapEmpty()
    ensures Heap(Elems([]), Hold(null)) && Chain(null, []) && Sized([])
  {
  }

  // ---------- Many connections ----------

  datatype Happening = Connect(answers: Answers) | On(i: nat, e: Event)

  datatype Session = Session(answers: Answers, conn: Conn)

  function SysStep(s: seq<Session>, h: Happening): seq<Session> {
    match h
    case Connect(a) => if |s| < MAX_CONNECTIONS then s + [Session(a, ACCEPTING)] else s
    case On(i, e) =>
      if i < |s| then s[i := s[i].(conn := Step(s[i].answers, true, s[i].conn, e))] else s
  }

  function SysRun(s: seq<Session>, hs: seq<Happening>): seq<Session>
    decreases |hs|
  {
    if hs == [] then s else SysRun(SysStep(s, hs[0]), hs[1..])
  }

  predicate SysEnabled(s: seq<Session>, h: Happening) {
    h.On? ==> h.i < |s| && Enabled(s[h.i].conn, h.e)
  }

  predicate SysLegal(s: seq<Session>, hs: seq<Happening>)
    decreases |hs|
  {
    hs == [] || (SysEnabled(s, hs[0]) && SysLegal(SysStep(s, hs[0]), hs[1..]))
  }

  /** The callbacks of connection `i`, in order. */
  function Of(i: nat, hs: seq<Happening>): seq<Event> {
    if hs == [] then []
    else (if hs[0].On? && hs[0].i == i then [hs[0].e] else []) + Of(i, hs[1..])
  }

  /** Connections do not influence each other: in a run of the whole server each
      takes the run of its own callbacks. */
  lemma {:induction false} SysProject(s: seq<Session>, hs: seq<Happening>, i: nat)
    requires SysLegal(s, hs) && i < |s|
    ensures i < |SysRun(s, hs)| && Legal(s[i].answers, true, s[i].conn, Of(i, hs))
    ensures SysRun(s, hs)[i] == s[i].(conn := Run(s[i].answers, true, s[i].conn, Of(i, hs)))
    decreases |hs|
  {
    if hs != [] {
      SysProject(SysStep(s, hs[0]), hs[1..], i);
      if hs[0].On? && hs[0].i == i {
        assert Of(i, hs)[1..] == Of(i, hs[1..]);
      } else {
        assert Of(i, hs) == Of(i, hs[1..]);
      }
    }
  }

  /** A session that starts during the run is the run of its callbacks. */
  lemma {:induction false} SysSession(s: seq<Session>, hs: seq<Happening>, i: nat)
    requires SysLegal(s, hs) && |s| <= i < |SysRun(s, hs)|
    ensures var r := SysRun(s, hs)[i];
      Legal(r.answers, true, ACCEPTING, Of(i, hs)) && r.conn == Run(r.answers, true, ACCEPTING, Of(i, hs))
    decreases |hs|
  {
    hide Step;
    var t := SysStep(s, hs[0]);
    assert Of(i, hs) == Of(i, hs[1..]);
    if i < |t| {
      SysProject(t, hs[1..], i);
    } else {
      SysSession(t, hs[1..], i);
    }
  }

  /** The whole server, every connection: what was taken for transmission is a
      prefix of what arrived on that connection, and without an error on it the
      rest of what arrived waits in its own write buffer. */
  lemma ServerEchoes(hs: seq<Happening>, i: nat)
    requires SysLegal([], hs) && i < |SysRun([], hs)|
    ensures var c, es := SysRun([], hs)[i].conn, Of(i, hs);
      && Accepted(c.trace) <= Received(es)
      && ((forall e :: e in es ==> !e.Error?) ==> Accepted(c.trace) + Flat(c.queue) == Received(es))
  {
    SysSession([], hs, i);
    EchoExact(SysRun([], hs)[i].answers, Of(i, hs));
  }

  /** On every connection of the server the calls keep their order, and bytes wait only
      because the stack said no to them last. */
  lemma ServerTalks(hs: seq<Happening>, i: nat)
    requires SysLegal([], hs) && i < |SysRun([], hs)|
    ensures TcpTalks.Settled(SysRun([], hs)[i].conn) && TcpTalks.Justified(SysRun([], hs)[i].conn)
  {
    SysSession([], hs, i);
    TcpTalks.RunSpeaks(SysRun([], hs)[i].answers, true, ACCEPTING, Of(i, hs));
    TcpTalks.RunJustified(SysRun([], hs)[i].answers, ACCEPTING, Of(i, hs));
  }

  // ---------- The server object takes these runs ----------

  ghost predicate Apart2(c: TcpConnection, d: TcpConnection)
    reads c, d
  {
    c != d && c.pcb != d.pcb && c.Bufs() !! d.Bufs()
  }

  ghost predicate Ready(c: TcpConnection)
    reads c, c.Bufs()
  {
    c.Valid() && c.r == []
  }

  ghost predicate Separated(cs: seq<TcpConnection>)
    reads cs
  {
    forall i, j {:trigger Apart2(cs[i], cs[j])} :: 0 <= i < j < |cs| ==> Apart2(cs[i], cs[j])
  }

  /** All connections are in order and share nothing. */
  ghost predicate InOrder(cs: seq<TcpConnection>)
    reads cs, set c, p | c in cs && p in c.Bufs() :: p
  {
    && (forall i {:trigger Ready(cs[i])} :: 0 <= i < |cs| ==> Ready(cs[i]))
    && Separated(cs)
  }

  ghost function Sessions(cs: seq<TcpConnection>): (s: seq<Session>)
    reads cs, set c | c in cs :: c.pcb
    ensures |s| == |cs|
    ensures forall i :: 0 <= i < |cs| ==> s[i] == Session(cs[i].pcb.answers, cs[i].View())
  {
    seq(|cs|, i requires 0 <= i < |cs| reads cs, set c | c in cs :: c.pcb => Session(cs[i].pcb.answers, cs[i].View()))
  }

  twostate lemma Undisturbed(d: TcpConnection)
    requires old(d.Valid()) && unchanged(d) && unchanged(d.pcb) && unchanged(old(d.Bufs()))
    ensures d.Valid() && d.r == old(d.r) && d.Bufs() == old(d.Bufs()) && d.View() == old(d.View())
  {
  }

  /** A callback of one connection leaves every other one as it was. */
  method CallbackAt(server: TcpServer, cs: seq<TcpConnection>, i: nat, e: Event, u: seq<Pbuf>)
    requires server.recvCallback != null && InOrder(cs)
    requires i < |cs| && Enabled(cs[i].View(), e)
    requires Brings(e, u) && forall j :: 0 <= j < |cs| ==> cs[j].Bufs() !! Elems(u)
    modifies cs[i], cs[i].pcb, cs[i].Bufs(), Elems(u)
    ensures Ready(cs[i]) && cs[i].View() == Step(cs[i].pcb.answers, true, old(cs[i].View()), e)
    ensures cs[i].Bufs() <= old(cs[i].Bufs()) + Elems(u)
    ensures forall q :: q in old(cs[i].Bufs()) + Elems(u) && q !in cs[i].Bufs() ==> q.freed == 1
    ensures forall j {:trigger cs[j]} :: 0 <= j < |cs| && j != i ==>
      Ready(cs[j]) && cs[j].View() == old(cs[j].View()) && cs[j].Bufs() == old(cs[j].Bufs())
  {
    assert Ready(cs[i]);
    Callback(server, cs[i], e, u);
    forall j | 0 <= j < |cs| && j != i
      ensures Ready(cs[j]) && cs[j].View() == old(cs[j].View()) && cs[j].Bufs() == old(cs[j].Bufs())
    {
      assert old(Ready(cs[j]));
      assert old(if i < j then Apart2(cs[i], cs[j]) else Apart2(cs[j], cs[i]));
      Undisturbed(cs[j]);
    }
  }

  ghost predicate Held(cs: seq<TcpConnection>, p: Pbuf)
    reads cs
  {
    exists i :: 0 <= i < |cs| && p in cs[i].Bufs()
  }

  method SysCallback(server: TcpServer, cs: seq<TcpConnection>, i: nat, e: Event, u: seq<Pbuf>)
    requires server.recvCallback != null && InOrder(cs)
    requires SysEnabled(Sessions(cs), On(i, e))
    requires Brings(e, u) && forall j :: 0 <= j < |cs| ==> cs[j].Bufs() !! Elems(u)
    modifies cs[i], cs[i].pcb, cs[i].Bufs(), Elems(u)
    ensures InOrder(cs) && Sessions(cs) == SysStep(old(Sessions(cs)), On(i, e))
    ensures cs[i].Bufs() <= old(cs[i].Bufs()) + Elems(u)
    ensures forall q :: q in old(cs[i].Bufs()) + Elems(u) && q !in cs[i].Bufs() ==> q.freed == 1
    ensures forall j :: 0 <= j < |cs| && j != i ==> cs[j].Bufs() == old(cs[j].Bufs())
  {
    CallbackAt(server, cs, i, e, u);
    forall j, k | 0 <= j < k < |cs|
      ensures Apart2(cs[j], cs[k])
    {
      assert old(Apart2(cs[j], cs[k]));
    }
  }

  twostate predicate Still(c: TcpConnection)
    reads c, c.pcb, c.Bufs()
  {
    unchanged(c) && unchanged(c.pcb) && unchanged(c.Bufs())
  }

  twostate lemma StillReady(c: TcpConnection)
    requires old(Ready(c)) && Still(c)
    ensures Ready(c) && c.View() == old(c.View())
  {
    Undisturbed(c);
  }

  twostate lemma AllReady(cs: seq<TcpConnection>)
    requires old(InOrder(cs)) && forall i {:trigger cs[i]} :: 0 <= i < |cs| ==> Still(cs[i])
    ensures forall i {:trigger Ready(cs[i])} :: 0 <= i < |cs| ==> Ready(cs[i]) && cs[i].View() == old(cs[i].View())
  {
    forall i | 0 <= i < |cs|
      ensures Ready(cs[i]) && cs[i].View() == old(cs[i].View())
    {
      assert old(Ready(cs[i]));
      StillReady(cs[i]);
    }
  }

  twostate lemma StillInOrder(cs: seq<TcpConnection>)
    requires old(InOrder(cs)) && forall i {:trigger cs[i]} :: 0 <= i < |cs| ==> Still(cs[i])
    ensures InOrder(cs)
  {
    AllReady(cs);
    assert unchanged(cs) ==> Separated(cs);
  }

  twostate lemma StillSessions(cs: seq<TcpConnection>)
    requires old(InOrder(cs)) && forall i {:trigger cs[i]} :: 0 <= i < |cs| ==> Still(cs[i])
    ensures Sessions(cs) == old(Sessions(cs))
  {
    AllReady(cs);
  }

  /** A new connection beside the others. */
  lemma Joined(cs: seq<TcpConnection>, d: TcpConnection)
    requires InOrder(cs) && d.Valid() && d.w == d.r == []
    requires forall c :: c in cs ==> c != d && c.pcb != d.pcb
    ensures InOrder(cs + [d])
    ensures Sessions(cs + [d]) == Sessions(cs) + [Session(d.pcb.answers, d.View())]
  {
    var ds := cs + [d];
    forall i | 0 <= i < |ds|
      ensures Ready(ds[i])
    {
      assert i < |cs| ==> Ready(cs[i]);
    }
    forall i, j | 0 <= i < j < |ds|
      ensures Apart2(ds[i], ds[j])
    {
      assert j < |cs| ==> Apart2(cs[i], cs[j]);
    }
  }

  /** Accepting a connection, or refusing it, leaves the others as they were. */
  method Admit(server: TcpServer, pcb: TcpPcb)
    requires InOrder(server.connections) && forall c :: c in server.connections ==> c.pcb != pcb
    requires pcb.trace == [] && pcb.asked == 0
    modifies server`connections, pcb
    ensures InOrder(old(server.connections)) && Sessions(old(server.connections)) == old(Sessions(server.connections))
    ensures if |old(server.connections)| >= MAX_CONNECTIONS then server.connections == old(server.connections)
      else
        && |server.connections| == |old(server.connections)| + 1
        && server.connections[..|old(server.connections)|] == old(server.connections)
        && var d := server.connections[|old(server.connections)|];
          fresh(d) && d.Valid() && d.w == d.r == [] && d.View() == ACCEPTING && d.pcb == pcb
  {
    ghost var cs := server.connections;
    var res := server.Accept(pcb, Ok);
    StillInOrder(cs);
    StillSessions(cs);
  }

  method SysConnect(server: TcpServer, a: Answers)
    requires InOrder(server.connections)
    modifies server`connections
    ensures InOrder(server.connections)
    ensures Sessions(server.connections) == SysStep(old(Sessions(server.connections)), Connect(a))
    ensures old(server.connections) <= server.connections
    ensures forall c :: c in server.connections && c !in old(server.connections) ==>
      fresh(c) && fresh(c.pcb) && c.Bufs() == {}
  {
    hide InOrder, TcpConnection.Valid, Sessions, TcpConnection.View;
    ghost var cs := server.connections;
    var pcb := new TcpPcb(a);
    StillInOrder(cs);
    assert forall c :: c in cs ==> c.pcb != pcb;
    Admit(server, pcb);
    if |cs| < MAX_CONNECTIONS {
      ghost var d := server.connections[|cs|];
      assert server.connections == cs + [d];
      assert InOrder(cs) && forall c :: c in cs ==> c != d && c.pcb != d.pcb;
      Joined(cs, d);
    }
  }

  // ---------- The packets of a run ----------

  predicate Delivers(h: Happening) { h.On? && h.e.Data? }

  lemma NodesFirst(packets: seq<seq<Pbuf>>)
    requires packets != []
    ensures Nodes(packets) == Elems(packets[0]) + Nodes(packets[1..])
  {
    assert packets == [packets[0]] + packets[1..];
  }

  /** One packet for each delivery of the run, in order. */
  ghost predicate Supplied(hs: seq<Happening>, packets: seq<seq<Pbuf>>)
    reads Nodes(packets)
    decreases |hs|
  {
    if hs == [] then packets == []
    else if Delivers(hs[0]) then
      packets != [] &&
      (NodesFirst(packets); Brings(hs[0].e, packets[0]) && Supplied(hs[1..], packets[1..]))
    else Supplied(hs[1..], packets)
  }

  /** No two packets share a buffer. */
  ghost predicate NoneShared(packets: seq<seq<Pbuf>>)
    decreases |packets|
  {
    packets == [] || (Elems(packets[0]) !! Nodes(packets[1..]) && NoneShared(packets[1..]))
  }

  /** There are packets for every run: fresh chains with the data of its deliveries. */
  method Supply(hs: seq<Happening>) returns (packets: seq<seq<Pbuf>>)
    requires forall h :: h in hs && Delivers(h) ==> |Flat(h.e.chunks)| < 0x1_0000
    ensures Supplied(hs, packets) && NoneShared(packets) && fresh(Nodes(packets))
    decreases |hs|
  {
    if hs == [] {
      packets := [];
    } else {
      assert hs[0] in hs;
      packets := Supply(hs[1..]);
      if Delivers(hs[0]) {
        ghost var others := packets;
        var p, u := NewPacket(hs[0].e.chunks);
        packets := [u] + packets;
        assert packets[1..] == others;
        NodesFirst(packets);
      }
    }
  }

  /** Every connection holds only buffers of `done`, and each of those is held or was
      given back, once. */
  ghost predicate Settled(cs: seq<TcpConnection>, done: set<Pbuf>)
    reads cs, done
  {
    && (forall i :: 0 <= i < |cs| ==> cs[i].Bufs() <= done)
    && (forall p :: p in done ==> Held(cs, p) || p.freed == 1)
  }

  lemma NoneYet()
    ensures InOrder([]) && Settled([], {}) && Sessions([]) == []
  {
  }

  lemma HeldCounts(cs: seq<TcpConnection>, done: set<Pbuf>)
    requires InOrder(cs) && Settled(cs, done)
    ensures forall c :: c in cs ==> c.Bufs() <= done
    ensures forall p :: p in done ==> if Held(cs, p) then p.freed == 0 && p.ref == 1 else p.freed == 1
  {
    forall p | p in done && Held(cs, p)
      ensures p.freed == 0 && p.ref == 1
    {
      var i :| 0 <= i < |cs| && p in cs[i].Bufs();
      assert Ready(cs[i]);
      cs[i].HeldOnce();
      assert Counted(cs[i].Bufs(), Hold(cs[i].readBuffer) + Hold(cs[i].writeBuffer), p);
    }
  }

  method ServeConnect(server: TcpServer, a: Answers, ghost done: set<Pbuf>)
    requires InOrder(server.connections) && Settled(server.connections, done)
    modifies server`connections
    ensures InOrder(server.connections) && Settled(server.connections, done)
    ensures Sessions(server.connections) == SysStep(old(Sessions(server.connections)), Connect(a))
    ensures forall c :: c in server.connections && c !in old(server.connections) ==> fresh(c) && fresh(c.pcb)
  {
    ghost var cs := server.connections;
    SysConnect(server, a);
    forall p | p in done
      ensures Held(server.connections, p) || p.freed == 1
    {
      if Held(cs, p) {
        var i :| 0 <= i < |cs| && p in cs[i].Bufs();
        assert server.connections[i] == cs[i];
      }
    }
  }

  method ServeOn(server: TcpServer, cs: seq<TcpConnection>, i: nat, e: Event, u: seq<Pbuf>, ghost done: set<Pbuf>)
    requires server.recvCallback != null && InOrder(cs) && Settled(cs, done)
    requires SysEnabled(Sessions(cs), On(i, e)) && Brings(e, u) && done !! Elems(u)
    modifies cs[i], cs[i].pcb, cs[i].Bufs(), Elems(u)
    ensures InOrder(cs) && Sessions(cs) == SysStep(old(Sessions(cs)), On(i, e)) && Settled(cs, done + Elems(u))
  {
    SysCallback(server, cs, i, e, u);
    forall p | p in done + Elems(u)
      ensures Held(cs, p) || p.freed == 1
    {
      if p in done && old(Held(cs, p)) {
        var j :| 0 <= j < |cs| && p in old(cs[j].Bufs());
        assert j != i ==> p in cs[j].Bufs();
      }
    }
  }

  /** The echo server in any run, with the packets that the stack hands it: it takes
      the steps of `SysRun`, connections hold only buffers of these packets, and each
      of their buffers is held once, by the connection that waits to send it, or was
      given back exactly once. */
  method Serve(server: TcpServer, hs: seq<Happening>, packets: seq<seq<Pbuf>>)
    requires server.connections == [] && server.recvCallback != null
    requires SysLegal([], hs) && Supplied(hs, packets) && NoneShared(packets)
    modifies server, Nodes(packets)
    ensures InOrder(server.connections) && Sessions(server.connections) == SysRun([], hs)
    ensures forall c :: c in server.connections ==> c.Bufs() <= Nodes(packets)
    ensures forall p :: p in Nodes(packets) ==>
      if Held(server.connections, p) then p.freed == 0 && p.ref == 1 else p.freed == 1
  {
    hide InOrder, Brings, SysStep, TcpConnection.Bufs;
    NoneYet();
    ghost var done := {};
    var rest, left := hs, packets;
    while rest != []
      invariant server.recvCallback != null && InOrder(server.connections) && Settled(server.connections, done)
      invariant SysLegal(Sessions(server.connections), rest)
      invariant SysRun(Sessions(server.connections), rest) == SysRun([], hs)
      invariant forall c :: c in server.connections ==> fresh(c) && fresh(c.pcb)
      invariant Supplied(rest, left) && NoneShared(left)
      invariant Nodes(packets) == done + Nodes(left) && done !! Nodes(left)
      decreases |rest|
    {
      match rest[0] {
        case Connect(a) =>
          ServeConnect(server, a, done);
        case On(i, e) =>
          var u := [];
          if e.Data? {
            NodesFirst(left);
            u, left := left[0], left[1..];
          }
          ServeOn(server, server.connections, i, e, u, done);
          done := done + Elems(u);
      }
      rest := rest[1..];
    }
    HeldCounts(server.connections, done);
  }
}
