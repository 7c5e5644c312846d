/** The transmit driver, the DMA and the stack together, in any order: the stack
    sends packets and lets go of them, the DMA finishes descriptors, and the driver
    gives back what is finished. */
module EthernetTxRun {
  import opened Pbufs
  import opened Rings
  import opened TxDescriptors
  import opened TxSpec
  import opened EthernetTxs
  import opened TxBytes

  /** Packet `k` is sent or let go of by the stack, the `j`-th oldest descriptor in
      flight is finished, or the driver releases. */
  datatype Action = Send(k: nat) | LetGo(k: nat) | Finish(j: nat, back: Word) | Reclaim

  /** `gone` are the packets that the stack has let go of. */
  datatype World = World(t: Tx, gone: set<nat>)

  /** The packets of a run, by head and by what is sent of them. */
  datatype Mail = Mail(heads: seq<Pbuf>, segs: seq<seq<Span>>)

  /** The stack uses only packets it has not let go of; reference counts of 8 bits
      do not overflow. */
  ghost predicate Enabled(m: Mail, w: World, a: Action) {
    TxSpec.Valid(w.t) && |m.segs| == |m.heads| &&
    match a
    case Send(k) => k < |m.heads| && k !in w.gone && Held(w.t.history[w.t.r..])[m.heads[k]] < 0xFE
    case LetGo(k) => k < |m.heads| && k !in w.gone
    case Finish(j, back) => DmaEnabled(w.t, w.t.r + j, back)
    case Reclaim => true
  }

  /** What an action does to the ring. */
  ghost function OpsOf(m: Mail, w: World, a: Action): seq<Op>
    requires Enabled(m, w, a)
  {
    match a
    case Send(k) => [Out(m.segs[k], m.heads[k])]
    case LetGo(k) => []
    case Finish(j, back) => [Done(w.t.r + j, back)]
    case Reclaim => [Rel]
  }

  ghost function Act(m: Mail, w: World, a: Action): World
    requires Enabled(m, w, a)
  {
    match a
    case Send(k) => w.(t := Step(w.t, Out(m.segs[k], m.heads[k])))
    case LetGo(k) => w.(gone := w.gone + {k})
    case Finish(j, back) => w.(t := Step(w.t, Done(w.t.r + j, back)))
    case Reclaim => w.(t := Step(w.t, Rel))
  }

  ghost predicate Legal(m: Mail, w: World, acts: seq<Action>)
    decreases |acts|
  {
    acts == [] || (Enabled(m, w, acts[0]) && Legal(m, Act(m, w, acts[0]), acts[1..]))
  }

  ghost function ActAll(m: Mail, w: World, acts: seq<Action>): World
    requires Legal(m, w, acts)
    decreases |acts|
  {
    if acts == [] then w else ActAll(m, Act(m, w, acts[0]), acts[1..])
  }

  ghost function AllOps(m: Mail, w: World, acts: seq<Action>): seq<Op>
    requires Legal(m, w, acts)
    decreases |acts|
  {
    if acts == [] then [] else OpsOf(m, w, acts[0]) + AllOps(m, Act(m, w, acts[0]), acts[1..])
  }

  /** Every such run is a run of the ring, so that what holds of those holds here. */
  lemma {:induction false} ActsRun(m: Mail, w: World, acts: seq<Action>)
    requires Legal(m, w, acts)
    ensures Runs(w.t, AllOps(m, w, acts), ActAll(m, w, acts).t)
    decreases |acts|
  {
    if acts != [] {
      var v := Act(m, w, acts[0]);
      ActsRun(m, v, acts[1..]);
      if acts[0].LetGo? {
        assert [] + AllOps(m, v, acts[1..]) == AllOps(m, v, acts[1..]);
      } else {
        var op := OpsOf(m, w, acts[0])[0];
        assert ([op] + AllOps(m, v, acts[1..]))[1..] == AllOps(m, v, acts[1..]);
      }
    }
  }

  /** Packets of fewer than 2^15 bytes; the DMA clears the flags and the length. */
  ghost predicate ProperAct(m: Mail, a: Action) {
    match a
    case Send(k) => k < |m.segs| && Whole(m.segs[k]) && |Gather(m.segs[k])| < 0x8000
    case LetGo(k) => true
    case Finish(j, back) => Clean(back)
    case Reclaim => true
  }

  lemma {:induction false} ProperOps(m: Mail, w: World, acts: seq<Action>)
    requires Legal(m, w, acts) && forall a :: a in acts ==> ProperAct(m, a)
    ensures forall op :: op in AllOps(m, w, acts) ==> Proper(op)
    decreases |acts|
  {
    hide Act, Enabled, Whole, Gather;
    if acts != [] {
      assert acts[0] in acts && ProperAct(m, acts[0]);
      ProperOps(m, Act(m, w, acts[0]), acts[1..]);
    }
  }

  /** In every such run with proper packets, what the DMA puts on the wire is exactly the
      bytes of the packets that were taken, in the order in which they were sent. */
  lemma RunSends(m: Mail, n: nat, init: seq<Word>, acts: seq<Action>)
    requires n > 0 && |init| == n && forall i :: 0 <= i < n ==> Clean(init[i])
    requires var w := World(Tx(n, init, [], 0), {}); Legal(m, w, acts) && forall a :: a in acts ==> ProperAct(m, a)
    ensures var w := World(Tx(n, init, [], 0), {});
      var frames := Decode(ActAll(m, w, acts).t.history, None);
      frames.Some? && AllSend(frames.value, Messages(Taken(w.t, AllOps(m, w, acts))))
  {
    var w := World(Tx(n, init, [], 0), {});
    ActsRun(m, w, acts);
    ProperOps(m, w, acts);
    SendsPackets(n, init, AllOps(m, w, acts), ActAll(m, w, acts).t);
  }

  // ---------- The packets ----------

  /** Two packets share no buffer. */
  ghost predicate Foreign(packets: seq<seq<Pbuf>>, i: nat, j: nat)
    requires i < |packets| && j < |packets|
  {
    Separate(packets[i], packets[j])
  }

  ghost predicate Letter(s: seq<Pbuf>, head: Pbuf, segs: seq<Span>)
    reads s`next, s`len
  {
    && s != [] && head == s[0] && Chain(head, s)
    && (forall q :: q in s ==> q.len < 0x1_0000) && segs == SpansOf(s)
  }

  /** The packets that the run is about: separate chains. */
  ghost predicate Posted(m: Mail, packets: seq<seq<Pbuf>>)
    reads Nodes(packets)`next, Nodes(packets)`len
  {
    && |m.heads| == |m.segs| == |packets|
    && (forall i, j {:trigger Foreign(packets, i, j)} :: 0 <= i < |packets| && 0 <= j < |packets| && i != j ==>
         Foreign(packets, i, j))
    && forall k {:trigger packets[k]} :: 0 <= k < |packets| ==>
      assert Elems(packets[k]) <= Nodes(packets); Letter(packets[k], m.heads[k], m.segs[k])
  }

  /** The bytes of a packet are the payloads of its buffers, put together. */
  lemma LetterBytes(s: seq<Pbuf>, head: Pbuf, segs: seq<Span>)
    requires Letter(s, head, segs) && forall q :: q in s ==> q.len == |q.payload|
    ensures Whole(segs) && Gather(segs) == Flat(Payloads(s))
  {
    GatherChain(s);
  }

  /** The packets that the stack still has. */
  ghost function StackHas(heads: seq<Pbuf>, gone: set<nat>): set<Pbuf> {
    set i | 0 <= i < |heads| && i !in gone :: heads[i]
  }

  lemma StackHasAt(heads: seq<Pbuf>, gone: set<nat>, k: nat)
    requires Distinct(heads) && k < |heads|
    ensures heads[k] in StackHas(heads, gone) <==> k !in gone
    ensures StackHas(heads, gone + {k}) == StackHas(heads, gone) - {heads[k]}
  {
    Differ(heads, k);
    assert forall i :: 0 <= i < |heads| && i !in gone ==> heads[i] in StackHas(heads, gone);
    assert forall i :: 0 <= i < |heads| && i !in gone + {k} ==> heads[i] in StackHas(heads, gone + {k});
  }

  lemma OneLess(s: set<Pbuf>, p: Pbuf)
    requires p in s
    ensures multiset(s) == multiset(s - {p}) + Hold(p)
  {
  }

  /** The heads of separate packets differ. */
  lemma HeadsDiffer(m: Mail, packets: seq<seq<Pbuf>>)
    requires Posted(m, packets)
    ensures Distinct(m.heads)
  {
    forall i, j | 0 <= i < j < |m.heads|
      ensures Apart(m.heads, i, j)
    {
      assert packets[i][0] in packets[i] && packets[j][0] in packets[j];
      assert Foreign(packets, i, j);
    }
  }

  /** No buffer but the first of a packet is the head of one. */
  lemma OnlyFirst(m: Mail, packets: seq<seq<Pbuf>>, k: nat, i: nat)
    requires Posted(m, packets) && k < |packets| && 0 < i < |packets[k]|
    ensures packets[k][i] !in m.heads
  {
    var s := packets[k];
    Differ(s, 0);
    forall j | 0 <= j < |m.heads|
      ensures m.heads[j] != s[i]
    {
      assert packets[j][0] in packets[j] && s[i] in s;
      assert j != k ==> Foreign(packets, j, k);
    }
  }

  lemma NoneEnters(m: Mail, packets: seq<seq<Pbuf>>, live: set<Pbuf>, k: nat)
    requires Posted(m, packets) && k < |packets| && live <= Nodes(packets)
    ensures Isolated(live, packets[k])
  {
    forall q | q in live
      ensures q.next != null && q.next in packets[k] ==> q in packets[k]
    {
      var j :| 0 <= j < |packets| && q in packets[j];
      ChainClosed(packets[j], q);
      assert j != k ==> Foreign(packets, j, k);
    }
  }

  /** Between actions: the objects show the world, and a buffer that is not in use any
      more was given back once. */
  ghost predicate Follows(e: EthernetTx, m: Mail, w: World, packets: seq<seq<Pbuf>>)
    reads e, e.ring, e.live`next, e.live`ref, e.live`freed
    reads Nodes(packets)`next, Nodes(packets)`len, Nodes(packets)`freed
  {
    && e.Valid() && e.t == w.t && e.outside == multiset(StackHas(m.heads, w.gone))
    && Posted(m, packets) && e.live <= Nodes(packets)
    && (forall b :: b in Nodes(packets) && b !in e.live ==> b.freed == 1)
    && (forall p :: p in Heads(w.t.history) ==> p in m.heads)
  }

  lemma {:induction false} HeldIsHead(x: seq<Slot>, p: Pbuf)
    requires p in Held(x)
    ensures p in Heads(x)
  {
    HeadsAppend([x[0]], x[1..]);
    assert x == [x[0]] + x[1..] && [x[0]][..0] == [];
    if p != x[0].app {
      HeldIsHead(x[1..], p);
    }
  }

  /** What is in flight is in flight for packets of the run. */
  lemma FlightHead(t: Tx, p: Pbuf)
    requires TxSpec.Valid(t) && p in Held(t.history[t.r..])
    ensures p in Heads(t.history)
  {
    HeldIsHead(t.history[t.r..], p);
    HeadsAppend(t.history[..t.r], t.history[t.r..]);
    assert t.history[..t.r] + t.history[t.r..] == t.history;
  }

  /** Only packets of the run are put into the ring. */
  lemma ActHeads(m: Mail, w: World, a: Action)
    requires Enabled(m, w, a) && forall p :: p in Heads(w.t.history) ==> p in m.heads
    ensures forall p :: p in Heads(Act(m, w, a).t.history) ==> p in m.heads
  {
    if !a.LetGo? {
      var op := OpsOf(m, w, a)[0];
      StepHeads(w.t, op);
      assert [op][1..] == [];
    }
  }

  /** A packet that the stack still has is in use, and its first buffer is counted
      once for the stack and once for every time it is in flight. */
  lemma HeadCount(e: EthernetTx, m: Mail, w: World, packets: seq<seq<Pbuf>>, k: nat)
    requires Follows(e, m, w, packets) && k < |m.heads| && k !in w.gone
    ensures m.heads[k] in e.live && m.heads[k].ref == 1 + Held(w.t.history[w.t.r..])[m.heads[k]]
  {
    var p, s := m.heads[k], packets[k];
    HeadsDiffer(m, packets);
    StackHasAt(m.heads, w.gone, k);
    assert p in e.outside;
    assert Counted(e.live, e.outside + Held(w.t.history[w.t.r..]), p);
    NoneEnters(m, packets, e.live, k);
    forall q | q in e.live
      ensures q.next != p
    {
      if q.next == p {
        ChainPred(p, s, q, 0);
      }
    }
    assert Preds(e.live, p) == {};
  }

  /** A buffer was given back, once, exactly when the stack has let go of its packet
      and no descriptor in flight belongs to it. */
  lemma FreedIff(e: EthernetTx, m: Mail, w: World, packets: seq<seq<Pbuf>>, k: nat, b: Pbuf)
    requires Follows(e, m, w, packets) && k < |packets| && b in packets[k]
    ensures b.freed == if k in w.gone && m.heads[k] !in Held(w.t.history[w.t.r..]) then 1 else 0
  {
    var p, s, flight := m.heads[k], packets[k], Held(w.t.history[w.t.r..]);
    var holders := e.outside + flight;
    HeadsDiffer(m, packets);
    StackHasAt(m.heads, w.gone, k);
    NoneEnters(m, packets, e.live, k);
    var i :| 0 <= i < |s| && s[i] == b;
    assert b in Nodes(packets);
    if p in holders {
      ChainKept(e.live, holders, p, s, 0, i);
      assert Counted(e.live, holders, b);
    } else {
      forall j | 0 <= j < |s|
        ensures s[j] !in holders
      {
        if j > 0 {
          OnlyFirst(m, packets, k, j);
          if s[j] in flight {
            FlightHead(w.t, s[j]);
          }
        }
      }
      ChainDead(e.live, holders, p, s, |s|);
    }
  }

  /** `b` is in use and was never given back. */
  ghost predicate InUse(e: EthernetTx, b: Pbuf?)
    reads e`live, (if b == null then {} else {b})`freed
  {
    b != null ==> b in e.live && b.freed == 0
  }

  lemma FlightInUse(e: EthernetTx, m: Mail, w: World, packets: seq<seq<Pbuf>>)
    requires Follows(e, m, w, packets)
    ensures forall i :: e.t.r <= i < |e.t.history| ==> InUse(e, e.t.history[i].buf1) && InUse(e, e.t.history[i].buf2)
  {
    e.InFlightLive();
    assert forall b :: b in e.live ==> Counted(e.live, e.outside + Held(w.t.history[w.t.r..]), b);
  }

  // ---------- The actions ----------

  method SendPacket(e: EthernetTx, head: Pbuf, ghost m: Mail, ghost w: World, ghost packets: seq<seq<Pbuf>>,
                    ghost k: nat)
    requires Follows(e, m, w, packets) && Enabled(m, w, Send(k)) && head == m.heads[k]
    requires head in e.live && head.ref < 0xFF
    modifies e`availableIndex, e`availableSize, e`t, e`chains, e.ring, head`ref
    ensures Follows(e, m, Act(m, w, Send(k)), packets)
  {
    ActHeads(m, w, Send(k));
    var err := e.LowLevelOutput(head, packets[k]);
  }

  method LetGoOf(e: EthernetTx, head: Pbuf, ghost m: Mail, ghost w: World, ghost packets: seq<seq<Pbuf>>, ghost k: nat)
    requires Follows(e, m, w, packets) && Enabled(m, w, LetGo(k)) && head == m.heads[k]
    modifies e`live, e`outside, e.live`ref, e.live`freed
    ensures Follows(e, m, Act(m, w, LetGo(k)), packets)
  {
    hide EthernetTx.Ring, Posted;
    HeadsDiffer(m, packets);
    StackHasAt(m.heads, w.gone, k);
    OneLess(StackHas(m.heads, w.gone), head);
    e.LwipFree(head, multiset(StackHas(m.heads, w.gone + {k})));
  }

  /** The `j`-th oldest descriptor in flight. */
  method Oldest(e: EthernetTx, j: nat) returns (d: TxDescriptor)
    requires e.Ring() && e.t.r + j < |e.t.history|
    ensures Pos(e.n, e.t.r + j) < |e.ring| && d == e.ring[Pos(e.n, e.t.r + j)] && d in e.ring
  {
    PosAdd(e.n, e.t.r, j);
    var x := e.unavailableIndex + j;
    if x >= e.n {
      x := x - e.n;
    }
    d := e.ring[x];
  }

  method FinishOne(e: EthernetTx, j: nat, back: Word, ghost m: Mail, ghost w: World, ghost packets: seq<seq<Pbuf>>)
    requires Follows(e, m, w, packets) && Enabled(m, w, Finish(j, back))
    modifies e`t, e.ring
    ensures Follows(e, m, Act(m, w, Finish(j, back)), packets)
  {
    hide EthernetTx.Ring, EthernetTx.Kept, Posted;
    ActHeads(m, w, Finish(j, back));
    var d := Oldest(e, j);
    e.DmaComplete(d, w.t.r + j, back);
  }

  method ReclaimAll(e: EthernetTx, ghost m: Mail, ghost w: World, ghost packets: seq<seq<Pbuf>>)
    requires Follows(e, m, w, packets) && Enabled(m, w, Reclaim)
    modifies e`availableSize, e`unavailableIndex, e`t, e`live, e`chains, e.live`ref, e.live`freed
    ensures Follows(e, m, Act(m, w, Reclaim), packets)
  {
    hide EthernetTx.Ring, EthernetTx.Kept, Posted;
    ActHeads(m, w, Reclaim);
    e.ReleaseTxBuffers();
  }

  method TakeOne(e: EthernetTx, heads: seq<Pbuf>, a: Action, ghost m: Mail, ghost w: World,
                 ghost packets: seq<seq<Pbuf>>)
    requires Follows(e, m, w, packets) && Enabled(m, w, a) && m.heads == heads
    modifies e, e.ring, Nodes(packets)`ref, Nodes(packets)`freed
    ensures Follows(e, m, Act(m, w, a), packets)
  {
    match a {
      case Send(k) =>
        HeadCount(e, m, w, packets, k);
        SendPacket(e, heads[k], m, w, packets, k);
      case LetGo(k) => LetGoOf(e, heads[k], m, w, packets, k);
      case Finish(j, back) => FinishOne(e, j, back, m, w, packets);
      case Reclaim => ReclaimAll(e, m, w, packets);
    }
  }

  lemma Started(e: EthernetTx, m: Mail, packets: seq<seq<Pbuf>>)
    requires e.Valid() && e.t.history == [] && e.live == Nodes(packets) && e.outside == multiset(StackHas(m.heads, {}))
    requires Posted(m, packets)
    ensures Follows(e, m, World(e.t, {}), packets)
  {
  }

  /** The driver in every run, with the packets `packets` at `heads`: it takes the run
      of the ring, every buffer that the DMA may still read is in use, and a buffer is
      given back, once, exactly when the stack has let go of its packet and every
      descriptor of it was finished and released. */
  method RunAll(e: EthernetTx, heads: seq<Pbuf>, acts: seq<Action>, ghost m: Mail, ghost packets: seq<seq<Pbuf>>)
    returns (ghost w: World)
    requires e.Valid() && e.t.history == [] && e.live == Nodes(packets) && e.outside == multiset(StackHas(heads, {}))
    requires m.heads == heads && Posted(m, packets) && Legal(m, World(e.t, {}), acts)
    modifies e, e.ring, Nodes(packets)`ref, Nodes(packets)`freed
    ensures e.Valid() && w == ActAll(m, World(old(e.t), {}), acts) && e.t == w.t
    ensures Runs(old(e.t), AllOps(m, World(old(e.t), {}), acts), e.t)
    ensures forall i :: e.t.r <= i < |e.t.history| ==> InUse(e, e.t.history[i].buf1) && InUse(e, e.t.history[i].buf2)
    ensures forall k, b :: 0 <= k < |packets| && b in packets[k] ==>
      b.freed == if k in w.gone && heads[k] !in Held(e.t.history[e.t.r..]) then 1 else 0
  {
    ghost var w0 := World(e.t, {});
    ActsRun(m, w0, acts);
    w := w0;
    Started(e, m, packets);
    var rest := acts;
    while rest != []
      invariant Follows(e, m, w, packets)
      invariant Legal(m, w, rest) && ActAll(m, w, rest) == ActAll(m, w0, acts)
      decreases |rest|
    {
      TakeOne(e, heads, rest[0], m, w, packets);
      w := Act(m, w, rest[0]);
      rest := rest[1..];
    }
    FlightInUse(e, m, w, packets);
    forall k, b | 0 <= k < |packets| && b in packets[k]
      ensures b.freed == if k in w.gone && heads[k] !in Held(e.t.history[e.t.r..]) then 1 else 0
    {
      FreedIff(e, m, w, packets, k, b);
    }
  }
}
