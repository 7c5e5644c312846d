/** What goes out on the wire: the bytes that the DMA reads through its descriptors
    are those of the packets, and the length it is told is their number. */
module TxBytes {
  import opened Pbufs
  import opened Rings
  import opened TxDescriptors
  import opened TxSpec
  import opened EthernetTxs

  /** The bytes of a span. */
  ghost function Content(x: Span): seq<byte> {
    if x.data != null && x.size <= |x.data.payload| then x.data.payload[..x.size] else []
  }

  /** The bytes of several spans, one after the other. */
  ghost function Gather(spans: seq<Span>): seq<byte> {
    if spans == [] then [] else Gather(spans[..|spans| - 1]) + Content(spans[|spans| - 1])
  }

  /** Spans of whole buffers. */
  ghost predicate Whole(segs: seq<Span>) {
    forall i :: 0 <= i < |segs| ==> segs[i].data != null && segs[i].size == |segs[i].data.payload|
  }

  /** Empty spans carry no bytes. */
  lemma {:induction false} GatherNonEmpty(segs: seq<Span>)
    requires Whole(segs)
    ensures Gather(NonEmpty(segs)) == Gather(segs)
  {
    if segs != [] {
      var init, last := segs[..|segs| - 1], segs[|segs| - 1];
      GatherNonEmpty(init);
      if last.size != 0 {
        assert (NonEmpty(init) + [last])[..|NonEmpty(init)|] == NonEmpty(init);
      } else {
        assert NonEmpty(init) + [] == NonEmpty(init);
      }
    }
  }

  lemma Below32(x: nat)
    requires x < 0x8000
    ensures x % 0x1_0000_0000 == x
  {
  }

  lemma Sum32(x: nat, y: nat)
    ensures (x % 0x1_0000_0000 + y) % 0x1_0000_0000 == (x + y) % 0x1_0000_0000
  {
  }

  /** The total is the number of bytes, in 32 bits. */
  lemma {:induction false} TotalBytes(segs: seq<Span>)
    requires Whole(segs)
    ensures Total(segs) == |Gather(segs)| % 0x1_0000_0000
  {
    if segs != [] {
      var init, last := segs[..|segs| - 1], segs[|segs| - 1];
      TotalBytes(init);
      Sum32(|Gather(init)|, last.size);
      assert |Gather(segs)| == |Gather(init)| + last.size;
    }
  }

  /** The spans of a chain are its payloads, put together. */
  lemma {:induction false} GatherChain(s: seq<Pbuf>)
    requires forall q :: q in s ==> q.len == |q.payload| < 0x1_0000
    ensures Whole(SpansOf(s)) && Gather(SpansOf(s)) == Flat(Payloads(s))
  {
    if s != [] {
      var init, last := s[..|s| - 1], s[|s| - 1];
      GatherChain(init);
      PayloadsAppend(init, [last]);
      FlatAppend(Payloads(init), Payloads([last]));
      assert s == init + [last] && [last][1..] == [];
      assert Payloads([last]) == [last.payload] && [last.payload][1..] == [];
    }
  }

  /** What the driver adds up for a packet, the empty one included, is the number of
      its bytes. */
  lemma TotalIs(s: seq<Pbuf>)
    requires forall q :: q in s ==> q.len == |q.payload| < 0x1_0000
    ensures Total(SpansOf(s)) == |Flat(Payloads(s))| % 0x1_0000_0000
  {
    GatherChain(s);
    TotalBytes(SpansOf(s));
  }

  /** The bytes of the packets of a run, one packet after the other. */
  ghost function Messages(ops: seq<Op>): seq<seq<byte>> {
    if ops == [] then []
    else (if ops[0].Out? then [Gather(ops[0].segs)] else []) + Messages(ops[1..])
  }

  /** The frame says how many bytes it has, and they are these. */
  ghost predicate Sends(f: DmaFrame, bytes: seq<byte>) {
    Gather(f.spans) == bytes && f.length == Bits(|bytes|) && |bytes| < 0x8000
  }

  ghost predicate AllSend(f: seq<DmaFrame>, messages: seq<seq<byte>>) {
    |f| == |messages| && forall i :: 0 <= i < |f| ==> Sends(f[i], messages[i])
  }

  /** Only whole packets of fewer than 2^15 bytes are put out, and what the DMA writes
      back clears the flags and the length. */
  ghost predicate Proper(op: Op) {
    match op
    case Out(segs, head) => Whole(segs) && |Gather(segs)| < 0x8000
    case Rel => true
    case Done(i, back) => Clean(back)
  }

  lemma ProperIsClean(op: Op)
    requires Proper(op)
    ensures CleanOp(op)
  {
    if op.Out? {
      TotalBytes(op.segs);
      FitsIff(Total(op.segs));
    }
  }

  lemma FrameSends(segs: seq<Span>, head: Pbuf?)
    requires Whole(segs) && |Gather(segs)| < 0x8000
    ensures Sends(DmaFrame(NonEmpty(segs), Bits(Total(segs)), head), Gather(segs))
  {
    hide Bits, Gather, NonEmpty, Total, Whole;
    GatherNonEmpty(segs);
    TotalBytes(segs);
    Below32(|Gather(segs)|);
  }

  lemma {:induction false} FramesSend(ops: seq<Op>)
    requires forall op :: op in ops ==> Proper(op)
    ensures AllSend(Frames(ops), Messages(ops))
  {
    hide Sends, Gather, Whole, NonEmpty, Total, Bits;
    if ops != [] {
      FramesSend(ops[1..]);
      assert ops[0] in ops && Proper(ops[0]);
      if ops[0].Out? {
        FrameSends(ops[0].segs, ops[0].head);
      }
    }
  }

  lemma {:induction false} TakenAmong(t: Tx, ops: seq<Op>)
    ensures forall op :: op in Taken(t, ops) ==> op in ops && op.Out?
    decreases |ops|
  {
    if ops != [] && Valid(t) && OpEnabled(t, ops[0]) {
      TakenAmong(Step(t, ops[0]), ops[1..]);
      assert ops == [ops[0]] + ops[1..];
    }
  }

  /** In every run from the start, the frames that the DMA puts together from the ring
      are the packets taken, byte for byte and in order, each with its exact length. */
  lemma SendsPackets(n: nat, init: seq<Word>, ops: seq<Op>, e: Tx)
    requires n > 0 && |init| == n && Runs(Tx(n, init, [], 0), ops, e)
    requires (forall i :: 0 <= i < n ==> Clean(init[i])) && forall op :: op in ops ==> Proper(op)
    ensures var frames := Decode(e.history, None);
      frames.Some? && AllSend(frames.value, Messages(Taken(Tx(n, init, [], 0), ops)))
  {
    var t := Tx(n, init, [], 0);
    forall op | op in ops
      ensures CleanOp(op)
    {
      ProperIsClean(op);
    }
    DmaReadsPackets(t, ops, e, []);
    assert [] + Frames(Taken(t, ops)) == Frames(Taken(t, ops));
    TakenAmong(t, ops);
    FramesSend(Taken(t, ops));
  }
}
