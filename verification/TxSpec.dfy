/** The Ethernet transmit ring over values.  `history` holds every descriptor
    ever handed to the DMA, in order; descriptor `i` sits in ring slot
    `Pos(n, i)`, and the first `r` of them have been released. */
module TxSpec {
  import opened Pbufs
  import opened Rings
  import opened TxDescriptors

  // ---------- The ring ----------

  /** A descriptor as submitted: its two buffers, words 2 and 3, the packet to free
      with it, whether the DMA is through with it, and what that left in word 3. */
  datatype Slot = Slot(buf1: Pbuf?, buf2: Pbuf?, w2: nat, w3: Word, app: Pbuf?, done: bool, back: Word)

  datatype Tx = Tx(n: nat, init: seq<Word>, history: seq<Slot>, r: nat)

  predicate Valid(t: Tx) {
    && t.n > 0 && |t.init| == t.n
    && t.r <= |t.history| <= t.r + t.n
    && forall i :: 0 <= i < t.r ==> t.history[i].done
  }

  /** The number of descriptors the driver may still use. */
  function Available(t: Tx): nat
    requires Valid(t)
  {
    t.n - (|t.history| - t.r)
  }

  function Current(s: Slot): Word {
    if s.done then s.back else s.w3
  }

  /** What word 3 of the slot for descriptor `i` holds before it is filled. */
  function Left(t: Tx, i: nat): Word
    requires t.n > 0 && |t.init| == t.n && i < |t.history| + t.n
  {
    if i < t.n then t.init[i] else Current(t.history[i - t.n])
  }

  /** The sum of the sizes in 32 bits. */
  function Total(segs: seq<Span>): nat {
    if segs == [] then 0 else (Total(segs[..|segs| - 1]) + segs[|segs| - 1].size) % 0x1_0000_0000
  }

  /** The span the descriptor takes next, if any is left. */
  function Next(segs: seq<Span>, k: nat): Span {
    if k < |segs| then segs[k] else NOTHING
  }

  /** The descriptor for the spans from `k` on. */
  function Fill(left: Word, segs: seq<Span>, k: nat, total: Word, head: Pbuf?): Slot {
    var last := k + 2 >= |segs|;
    Slot(Target(Next(segs, k)), Target(Next(segs, k + 1)), Word2(Next(segs, k).size, Next(segs, k + 1).size),
         Word3(left, k == 0, last, total), if last then head else null, false, {})
  }

  /** The filling loop of `lowLevelOutput`, from buffer `k` on. */
  function Emit(t: Tx, segs: seq<Span>, k: nat, total: Word, head: Pbuf?): Tx
    requires t.n > 0 && |t.init| == t.n
    decreases |segs| - k
  {
    if k >= |segs| then t
    else Emit(t.(history := t.history + [Fill(Left(t, |t.history|), segs, k, total, head)]), segs, k + 2, total, head)
  }

  /** The descriptors that this fills, in order. */
  function Descriptors(t: Tx, segs: seq<Span>, k: nat, total: Word, head: Pbuf?): seq<Slot>
    requires t.n > 0 && |t.init| == t.n
    decreases |segs| - k
  {
    if k >= |segs| then []
    else
      var x := Fill(Left(t, |t.history|), segs, k, total, head);
      [x] + Descriptors(t.(history := t.history + [x]), segs, k + 2, total, head)
  }

  predicate Accepts(t: Tx, segs: seq<Span>)
    requires Valid(t)
  {
    |segs| <= t.n && |segs| <= 2 * Available(t)
  }

  function Output(t: Tx, segs: seq<Span>, head: Pbuf?): Tx
    requires Valid(t)
  {
    if Accepts(t, segs) then Emit(t, segs, 0, Bits(Total(segs)), head) else t
  }

  /** `releaseTxBuffers`: compares ring positions, as the code does. */
  function Release(t: Tx): Tx
    requires Valid(t)
    decreases |t.history| - t.r
  {
    if Pos(t.n, |t.history|) == Pos(t.n, t.r) then t
    else if !t.history[t.r].done then t
    else Release(t.(r := t.r + 1))
  }

  /** The DMA is through with descriptor `i` and writes back `back`. */
  predicate DmaEnabled(t: Tx, i: nat, back: Word) {
    t.r <= i < |t.history| && !t.history[i].done && !Owned(back)
  }

  function Dma(t: Tx, i: nat, back: Word): Tx
    requires DmaEnabled(t, i, back)
  {
    t.(history := t.history[i := t.history[i].(done := true, back := back)])
  }

  // ---------- What one operation does ----------

  predicate Full(t: Tx) {
    |t.history| == t.r + t.n
  }

  lemma {:induction false} EmitShape(t: Tx, segs: seq<Span>, k: nat, total: Word, head: Pbuf?)
    requires t.n > 0 && |t.init| == t.n && k <= |segs| + 1
    ensures var e := Emit(t, segs, k, total, head);
      && e == t.(history := t.history + Descriptors(t, segs, k, total, head))
      && |e.history| == |t.history| + if k < |segs| then (|segs| - k + 1) / 2 else 0
    decreases |segs| - k
  {
    if k < |segs| {
      var x := Fill(Left(t, |t.history|), segs, k, total, head);
      var t1 := t.(history := t.history + [x]);
      EmitShape(t1, segs, k + 2, total, head);
      assert t1.history + Descriptors(t1, segs, k + 2, total, head) == t.history + Descriptors(t, segs, k, total, head);
    }
  }

  /** A packet is taken exactly when it has at most `n` buffers and a descriptor for
      every two of them is available; it then uses those and no others, and the
      ring stays in order.  A refused packet changes nothing. */
  lemma OutputTakes(t: Tx, segs: seq<Span>, head: Pbuf?)
    requires Valid(t)
    ensures Accepts(t, segs) <==> |segs| <= t.n && (|segs| + 1) / 2 <= Available(t)
    ensures var e := Output(t, segs, head);
      && Valid(e) && e.r == t.r && t.history <= e.history
      && Available(e) == Available(t) - if Accepts(t, segs) then (|segs| + 1) / 2 else 0
  {
    EmitShape(t, segs, 0, Bits(Total(segs)), head);
    if Accepts(t, segs) {
      assert forall i :: 0 <= i < t.r ==> Emit(t, segs, 0, Bits(Total(segs)), head).history[i] == t.history[i];
    }
  }

  /** How many descriptors from the front the DMA is through with. */
  function DonePrefix(s: seq<Slot>): nat {
    if s == [] || !s[0].done then 0 else 1 + DonePrefix(s[1..])
  }

  /** Unless the ring is completely full, exactly the longest finished prefix of
      the descriptors in flight is released.  A completely full ring looks empty
      to the code, and nothing is. */
  lemma {:induction false} ReleaseExact(t: Tx)
    requires Valid(t)
    ensures Valid(Release(t)) && Release(t) == t.(r := Release(t).r)
    ensures Release(t).r == if Full(t) then t.r else t.r + DonePrefix(t.history[t.r..])
    decreases |t.history| - t.r
  {
    PosSame(t.n, t.r, |t.history|);
    if t.r < |t.history| && !Full(t) && t.history[t.r].done {
      ReleaseExact(t.(r := t.r + 1));
      assert t.history[t.r..][1..] == t.history[t.r + 1..];
    }
  }

  // ---------- Runs ----------

  datatype Op = Out(segs: seq<Span>, head: Pbuf) | Rel | Done(i: nat, back: Word)

  predicate OpEnabled(t: Tx, op: Op) {
    op.Done? ==> DmaEnabled(t, op.i, op.back)
  }

  function Step(t: Tx, op: Op): Tx
    requires Valid(t) && OpEnabled(t, op)
  {
    match op
    case Out(segs, head) => Output(t, segs, head)
    case Rel => Release(t)
    case Done(i, back) => Dma(t, i, back)
  }

  lemma StepValid(t: Tx, op: Op)
    requires Valid(t) && OpEnabled(t, op)
    ensures Valid(Step(t, op)) && Step(t, op).n == t.n && Step(t, op).init == t.init
    ensures t.r <= Step(t, op).r && |t.history| <= |Step(t, op).history|
  {
    match op
    case Out(segs, head) => OutputTakes(t, segs, head); EmitShape(t, segs, 0, Bits(Total(segs)), head);
    case Rel => ReleaseExact(t);
    case Done(_, _) =>
  }

  /** The states of a run, one operation at a time. */
  predicate Runs(t: Tx, ops: seq<Op>, e: Tx)
    decreases |ops|
  {
    if ops == [] then e == t
    else Valid(t) && OpEnabled(t, ops[0]) && Runs(Step(t, ops[0]), ops[1..], e)
  }

  /** The packets of a run that were taken. */
  function Taken(t: Tx, ops: seq<Op>): seq<Op>
    decreases |ops|
  {
    if ops == [] || !Valid(t) || !OpEnabled(t, ops[0]) then []
    else TakenBy(t, ops[0]) + Taken(Step(t, ops[0]), ops[1..])
  }

  function TakenBy(t: Tx, op: Op): seq<Op>
    requires Valid(t)
  {
    if op.Out? && op.segs != [] && Accepts(t, op.segs) then [op] else []
  }

  /** A completely full ring stays full for ever: whatever is put out, released or
      finished, no descriptor is reused and no packet is freed. */
  lemma {:induction false} FullForever(t: Tx, ops: seq<Op>, e: Tx)
    requires Valid(t) && Full(t) && Runs(t, ops, e)
    ensures Valid(e) && Full(e) && e.r == t.r && |e.history| == |t.history|
    ensures Taken(t, ops) == []
    decreases |ops|
  {
    if ops != [] {
      StepValid(t, ops[0]);
      match ops[0] {
        case Out(segs, head) => OutputTakes(t, segs, head);
        case Rel => ReleaseExact(t);
        case Done(_, _) =>
      }
      FullForever(Step(t, ops[0]), ops[1..], e);
    }
  }

  function Repeat(op: Op, k: nat): seq<Op> {
    if k == 0 then [] else [op] + Repeat(op, k - 1)
  }

  /** That state is not far away: from the start, as many packets of one buffer as
      the ring has descriptors are all taken, and fill it completely. */
  lemma FullReachable(n: nat, init: seq<Word>, seg: Span, head: Pbuf) returns (e: Tx)
    requires n > 0 && |init| == n
    ensures Runs(Tx(n, init, [], 0), Repeat(Out([seg], head), n), e) && Full(e)
  {
    e := FillUp(Tx(n, init, [], 0), n, seg, head);
  }

  lemma {:induction false} FillUp(t: Tx, k: nat, seg: Span, head: Pbuf) returns (e: Tx)
    requires Valid(t) && k <= Available(t)
    ensures Runs(t, Repeat(Out([seg], head), k), e)
    ensures Valid(e) && e.n == t.n && e.r == t.r && Available(e) == Available(t) - k
    decreases k
  {
    if k == 0 {
      e := t;
    } else {
      OutputTakes(t, [seg], head);
      StepValid(t, Out([seg], head));
      var ops := Repeat(Out([seg], head), k);
      assert ops[1..] == Repeat(Out([seg], head), k - 1);
      e := FillUp(Step(t, ops[0]), k - 1, seg, head);
    }
  }

  // ---------- Each packet is freed once, after its descriptors ----------

  function Heads(s: seq<Slot>): seq<Pbuf> {
    if s == [] then []
    else Heads(s[..|s| - 1]) + if s[|s| - 1].app != null then [s[|s| - 1].app] else []
  }

  function PacketHeads(ops: seq<Op>): seq<Pbuf> {
    if ops == [] then [] else (if ops[0].Out? then [ops[0].head] else []) + PacketHeads(ops[1..])
  }

  lemma {:induction false} HeadsAppend(a: seq<Slot>, b: seq<Slot>)
    ensures Heads(a + b) == Heads(a) + Heads(b)
  {
    if b == [] {
      assert a + b == a;
    } else {
      var c := b[..|b| - 1];
      assert (a + b)[..|a + b| - 1] == a + c;
      HeadsAppend(a, c);
      Assoc(Heads(a), Heads(c), if b[|b| - 1].app != null then [b[|b| - 1].app] else []);
    }
  }

  lemma {:induction false} EmitHeads(t: Tx, segs: seq<Span>, k: nat, total: Word, head: Pbuf)
    requires t.n > 0 && |t.init| == t.n && k <= |segs| + 1
    ensures Heads(Emit(t, segs, k, total, head).history) == Heads(t.history) + if k < |segs| then [head] else []
    decreases |segs| - k
  {
    if k < |segs| {
      var x := Fill(Left(t, |t.history|), segs, k, total, head);
      assert (t.history + [x])[..|t.history|] == t.history;
      EmitHeads(t.(history := t.history + [x]), segs, k + 2, total, head);
    }
  }

  lemma {:induction false} HeadsDone(a: seq<Slot>, b: seq<Slot>)
    requires |a| == |b| && forall i :: 0 <= i < |a| ==> a[i].app == b[i].app
    ensures Heads(a) == Heads(b)
  {
    if a != [] {
      HeadsDone(a[..|a| - 1], b[..|b| - 1]);
    }
  }

  lemma StepHeads(t: Tx, op: Op)
    requires Valid(t) && OpEnabled(t, op)
    ensures Heads(Step(t, op).history) == Heads(t.history) + PacketHeads(TakenBy(t, op))
  {
    match op
    case Out(segs, head) => EmitHeads(t, segs, 0, Bits(Total(segs)), head);
    case Rel => ReleaseExact(t);
    case Done(i, back) => HeadsDone(t.history, Step(t, op).history);
  }

  /** In every run, the packets freed so far followed by those still in flight are
      exactly the packets taken, in order; every descriptor of a freed packet has
      been finished by the DMA. */
  lemma {:induction false} FreedOnce(t: Tx, ops: seq<Op>, e: Tx)
    requires Valid(t) && Runs(t, ops, e)
    ensures Valid(e) && e.n == t.n && t.r <= e.r
    ensures Heads(e.history[..e.r]) + Heads(e.history[e.r..]) == Heads(t.history) + PacketHeads(Taken(t, ops))
    ensures forall i :: 0 <= i < e.r ==> e.history[i].done
    decreases |ops|
  {
    if ops == [] {
      assert e.history[..e.r] + e.history[e.r..] == e.history;
      HeadsAppend(e.history[..e.r], e.history[e.r..]);
    } else {
      var u := Step(t, ops[0]);
      StepValid(t, ops[0]);
      StepHeads(t, ops[0]);
      FreedOnce(u, ops[1..], e);
      PacketHeadsAppend(TakenBy(t, ops[0]), Taken(u, ops[1..]));
      Assoc(Heads(t.history), PacketHeads(TakenBy(t, ops[0])), PacketHeads(Taken(u, ops[1..])));
    }
  }

  lemma {:induction false} PacketHeadsAppend(a: seq<Op>, b: seq<Op>)
    ensures PacketHeads(a + b) == PacketHeads(a) + PacketHeads(b)
  {
    if a == [] {
      assert a + b == b;
    } else {
      var c := a + b;
      PacketHeadsAppend(a[1..], b);
      assert c[1..] == a[1..] + b && c[0] == a[0];
      Assoc(if a[0].Out? then [a[0].head] else [], PacketHeads(a[1..]), PacketHeads(b));
    }
  }

  // ---------- Which descriptors are a packet's own ----------

  function Size(segs: seq<Span>): nat { (|segs| + 1) / 2 }

  function Sizes(ops: seq<Op>): nat {
    if ops == [] then 0
    else Sizes(ops[..|ops| - 1]) + if ops[|ops| - 1].Out? then Size(ops[|ops| - 1].segs) else 0
  }

  /** The descriptors `d` carry exactly the buffers `segs`, two each, and the last of
      them names the packet.  All of them were handed to the DMA, with the checksums to
      be put in. */
  predicate Block(d: seq<Slot>, segs: seq<Span>, head: Pbuf?) {
    && |d| == Size(segs)
    && forall i :: 0 <= i < |d| ==>
      && d[i].buf1 == Target(Next(segs, 2 * i)) && d[i].buf2 == Target(Next(segs, 2 * i + 1))
      && d[i].w2 == Word2(Next(segs, 2 * i).size, Next(segs, 2 * i + 1).size)
      && d[i].app == (if i == |d| - 1 then head else null)
      && Owned(d[i].w3) && CIC <= d[i].w3
  }

  /** The descriptors `h` are those of the packets of `ops`, one packet after the
      other. */
  predicate Carries(h: seq<Slot>, ops: seq<Op>)
    decreases |ops|
  {
    if ops == [] then h == []
    else
      var op := ops[|ops| - 1];
      && op.Out? && op.segs != [] && Size(op.segs) <= |h|
      && Block(h[|h| - Size(op.segs)..], op.segs, op.head)
      && Carries(h[..|h| - Size(op.segs)], ops[..|ops| - 1])
  }

  lemma {:induction false} DescriptorsAre(t: Tx, segs: seq<Span>, k: nat, total: Word, head: Pbuf?)
    requires t.n > 0 && |t.init| == t.n && k <= |segs| + 1
    ensures var d := Descriptors(t, segs, k, total, head);
      && |d| == (if k < |segs| then (|segs| - k + 1) / 2 else 0)
      && forall i :: 0 <= i < |d| ==>
        && d[i].buf1 == Target(Next(segs, k + 2 * i)) && d[i].buf2 == Target(Next(segs, k + 2 * i + 1))
        && d[i].w2 == Word2(Next(segs, k + 2 * i).size, Next(segs, k + 2 * i + 1).size)
        && d[i].app == (if i == |d| - 1 then head else null)
        && Owned(d[i].w3) && CIC <= d[i].w3
    decreases |segs| - k
  {
    if k < |segs| {
      var x := Fill(Left(t, |t.history|), segs, k, total, head);
      DescriptorsAre(t.(history := t.history + [x]), segs, k + 2, total, head);
    }
  }

  lemma BlockSame(a: seq<Slot>, b: seq<Slot>, k: nat, segs: seq<Span>, head: Pbuf?)
    requires |a| == |b| && forall i :: 0 <= i < |a| ==> b[i] == a[i].(done := b[i].done, back := b[i].back)
    requires k <= |a| && Block(a[k..], segs, head)
    ensures Block(b[k..], segs, head)
  {
    var c, d := a[k..], b[k..];
    forall i | 0 <= i < |d|
      ensures d[i] == c[i].(done := d[i].done, back := d[i].back)
    {
      assert d[i] == b[k + i] && c[i] == a[k + i];
    }
  }

  lemma {:induction false} CarriesSame(a: seq<Slot>, b: seq<Slot>, ops: seq<Op>)
    requires Carries(a, ops)
    requires |a| == |b| && forall i :: 0 <= i < |a| ==> b[i] == a[i].(done := b[i].done, back := b[i].back)
    ensures Carries(b, ops)
    decreases |ops|
  {
    if ops != [] {
      var op := ops[|ops| - 1];
      var k := |a| - Size(op.segs);
      BlockSame(a, b, k, op.segs, op.head);
      CarriesSame(a[..k], b[..k], ops[..|ops| - 1]);
    }
  }

  lemma PacketBlock(t: Tx, segs: seq<Span>, total: Word, head: Pbuf?)
    requires t.n > 0 && |t.init| == t.n
    ensures Block(Descriptors(t, segs, 0, total, head), segs, head)
  {
    DescriptorsAre(t, segs, 0, total, head);
  }

  /** The descriptors of one packet more. */
  lemma CarriesMore(h: seq<Slot>, d: seq<Slot>, ops: seq<Op>, op: Op)
    requires Carries(h, ops) && op.Out? && op.segs != [] && Block(d, op.segs, op.head)
    ensures Carries(h + d, ops + [op])
  {
    assert (h + d)[|h|..] == d && (h + d)[..|h|] == h;
    assert (ops + [op])[..|ops|] == ops;
  }

  lemma StepCarries(t: Tx, op: Op, ops: seq<Op>)
    requires Valid(t) && OpEnabled(t, op) && Carries(t.history, ops)
    ensures Carries(Step(t, op).history, ops + TakenBy(t, op))
  {
    hide Carries, Block;
    assert ops + [] == ops;
    match op
    case Out(segs, head) =>
      EmitShape(t, segs, 0, Bits(Total(segs)), head);
      if TakenBy(t, op) != [] {
        PacketBlock(t, segs, Bits(Total(segs)), head);
        CarriesMore(t.history, Descriptors(t, segs, 0, Bits(Total(segs)), head), ops, op);
      } else {
        assert t.history + [] == t.history;
      }
    case Rel => ReleaseExact(t);
    case Done(i, back) => CarriesSame(t.history, Step(t, op).history, ops);
  }

  lemma {:induction false} RunCarries(t: Tx, ops: seq<Op>, e: Tx, before: seq<Op>)
    requires Valid(t) && Runs(t, ops, e) && Carries(t.history, before)
    ensures Carries(e.history, before + Taken(t, ops))
    decreases |ops|
  {
    if ops == [] {
      assert before + [] == before;
    } else {
      StepValid(t, ops[0]);
      StepCarries(t, ops[0], before);
      RunCarries(Step(t, ops[0]), ops[1..], e, before + TakenBy(t, ops[0]));
      Assoc(before, TakenBy(t, ops[0]), Taken(Step(t, ops[0]), ops[1..]));
    }
  }

  lemma {:induction false} NoHeads(s: seq<Slot>)
    requires forall x :: x in s ==> x.app == null
    ensures Heads(s) == []
  {
    if s != [] {
      NoHeads(s[..|s| - 1]);
    }
  }

  lemma BlockHeads(d: seq<Slot>, segs: seq<Span>, head: Pbuf, k: nat)
    requires Block(d, segs, head) && segs != [] && k <= |d|
    ensures Heads(d[..k]) == if k == |d| then [head] else []
  {
    if k == |d| {
      assert d[..k] == d;
      NoHeads(d[..k - 1]);
    } else {
      NoHeads(d[..k]);
    }
  }

  lemma OneMore(ops: seq<Op>, op: Op)
    ensures PacketHeads(ops + [op]) == PacketHeads(ops) + if op.Out? then [op.head] else []
  {
    PacketHeadsAppend(ops, [op]);
    assert [op][1..] == [];
  }

  lemma {:induction false} AllHeads(h: seq<Slot>, ops: seq<Op>)
    requires Carries(h, ops)
    ensures Heads(h) == PacketHeads(ops) && |h| == Sizes(ops)
    decreases |ops|
  {
    if ops != [] {
      var op, init := ops[|ops| - 1], ops[..|ops| - 1];
      var k := |h| - Size(op.segs);
      AllHeads(h[..k], init);
      PartHeads(h, ops, |h|);
      OneMore(init, op);
      assert h[..|h|] == h && init + [op] == ops;
    }
  }

  /** The heads among the first `r` descriptors when `r` cuts the last packet. */
  lemma PartHeads(h: seq<Slot>, ops: seq<Op>, r: nat)
    requires ops != [] && Carries(h, ops) && |h| - Size(ops[|ops| - 1].segs) <= r <= |h|
    ensures Heads(h[..r]) == Heads(h[..|h| - Size(ops[|ops| - 1].segs)])
      + if r == |h| then [ops[|ops| - 1].head] else []
  {
    var op := ops[|ops| - 1];
    var k := |h| - Size(op.segs);
    assert h[..r] == h[..k] + h[k..][..r - k];
    HeadsAppend(h[..k], h[k..][..r - k]);
    BlockHeads(h[k..], op.segs, op.head, r - k);
  }

  /** The first `r` descriptors are those of the first `m` packets and some, not all,
      of the next packet. */
  lemma {:induction false} Split(h: seq<Slot>, ops: seq<Op>, r: nat) returns (m: nat)
    requires Carries(h, ops) && r <= |h|
    ensures m <= |ops| && Heads(h[..r]) == PacketHeads(ops[..m])
    ensures Sizes(ops[..m]) <= r && (m < |ops| ==> r < Sizes(ops[..m + 1]))
    decreases |ops|
  {
    hide Block;
    AllHeads(h, ops);
    if r == |h| {
      m := |ops|;
      assert h[..r] == h && ops[..m] == ops;
    } else {
      var last := |ops| - 1;
      var k, init := |h| - Size(ops[last].segs), ops[..last];
      assert ops[..last + 1] == ops;
      if r < k {
        m := Split(h[..k], init, r);
        assert h[..k][..r] == h[..r] && init[..m] == ops[..m];
        assert m < last ==> init[..m + 1] == ops[..m + 1];
      } else {
        m := last;
        PartHeads(h, ops, r);
        AllHeads(h[..k], init);
      }
    }
  }

  /** In every run from the start: the packets freed so far are the first `m` taken.
      All descriptors that carry their buffers, which are the first
      `Sizes(taken[..m])`, were finished by the DMA and released before; the packet
      after them still waits for a descriptor of its own. */
  lemma FreedAfterOwn(n: nat, init: seq<Word>, ops: seq<Op>, e: Tx) returns (m: nat)
    requires n > 0 && |init| == n && Runs(Tx(n, init, [], 0), ops, e)
    ensures var taken := Taken(Tx(n, init, [], 0), ops);
      && Valid(e) && m <= |taken| && Carries(e.history, taken)
      && Heads(e.history[..e.r]) == PacketHeads(taken[..m])
      && Sizes(taken[..m]) <= e.r && (m < |taken| ==> e.r < Sizes(taken[..m + 1]))
      && forall i :: 0 <= i < Sizes(taken[..m]) ==> e.history[i].done
  {
    var t := Tx(n, init, [], 0);
    RunCarries(t, ops, e, []);
    assert [] + Taken(t, ops) == Taken(t, ops);
    FreedOnce(t, ops, e);
    m := Split(e.history, Taken(t, ops), e.r);
  }

  // ---------- What the DMA reads ----------

  /** A frame as the DMA puts it together: the spans its descriptors point to, the
      length in their word 3 and the packet to free with the last one. */
  datatype DmaFrame = DmaFrame(spans: seq<Span>, length: Word, head: Pbuf?)

  function Spans(s: Slot): seq<Span> {
    (if s.buf1 != null then [Span(s.buf1, Len1(s.w2))] else [])
    + (if s.buf2 != null then [Span(s.buf2, Len2(s.w2))] else [])
  }

  /** The part of a frame read so far. */
  datatype Part = Part(spans: seq<Span>, length: Word)

  function Read(cur: Option<Part>): seq<Span> {
    if cur.Some? then cur.value.spans else []
  }

  /** Reads descriptors in ring order.  A frame starts at the first-descriptor flag
      and ends at the last-descriptor flag, and all its descriptors give the same
      length; anything else is malformed. */
  function Decode(s: seq<Slot>, cur: Option<Part>): Option<seq<DmaFrame>> {
    if s == [] then (if cur == None then Some([]) else None)
    else if IsFirst(s[0].w3) <==> cur.Some? then None
    else if cur.Some? && cur.value.length != Frame(s[0].w3) then None
    else
      var spans := Read(cur) + Spans(s[0]);
      if IsLast(s[0].w3) then
        var rest := Decode(s[1..], None);
        if rest == None then None else Some([DmaFrame(spans, Frame(s[0].w3), s[0].app)] + rest.value)
      else Decode(s[1..], Some(Part(spans, Frame(s[0].w3))))
  }

  /** A frame has the length that its part had. */
  lemma {:induction false} DecodeLength(s: seq<Slot>, cur: Part)
    requires Decode(s, Some(cur)).Some?
    ensures Decode(s, Some(cur)).value != [] && Decode(s, Some(cur)).value[0].length == cur.length
  {
    if !IsLast(s[0].w3) {
      DecodeLength(s[1..], Part(cur.spans + Spans(s[0]), Frame(s[0].w3)));
    }
  }

  function One(x: Span): seq<Span> {
    if x.size != 0 then [x] else []
  }

  /** The spans that carry data. */
  function NonEmpty(segs: seq<Span>): seq<Span> {
    if segs == [] then [] else NonEmpty(segs[..|segs| - 1]) + One(segs[|segs| - 1])
  }

  function Frames(ops: seq<Op>): seq<DmaFrame> {
    if ops == [] then []
    else (if ops[0].Out? then [DmaFrame(NonEmpty(ops[0].segs), Bits(Total(ops[0].segs)), ops[0].head)] else [])
         + Frames(ops[1..])
  }

  /** What the DMA writes back clears the flags and the length, and so did reset. */
  predicate CleanRing(t: Tx) {
    && (forall i :: 0 <= i < |t.init| ==> Clean(t.init[i]))
    && (forall i :: 0 <= i < |t.history| && t.history[i].done ==> Clean(t.history[i].back))
  }

  /** A packet the stack may send: real buffers, a length that fits its field. */
  predicate Sendable(segs: seq<Span>) {
    Fits(Bits(Total(segs))) && Real(segs)
  }

  predicate Real(segs: seq<Span>) {
    forall i :: 0 <= i < |segs| ==> segs[i].data != null
  }

  lemma LeftClean(t: Tx)
    requires Valid(t) && CleanRing(t) && !Full(t)
    ensures Clean(Left(t, |t.history|))
  {
  }

  lemma FillSpans(left: Word, segs: seq<Span>, k: nat, total: Word, head: Pbuf?)
    requires k < |segs| && Fits(total) && Real(segs)
    ensures Spans(Fill(left, segs, k, total, head)) == One(Next(segs, k)) + One(Next(segs, k + 1))
  {
    Word2Exact(Next(segs, k).size, Next(segs, k + 1).size);
  }

  lemma NonEmptyNext(segs: seq<Span>, k: nat)
    requires k < |segs|
    ensures NonEmpty(segs[..k + 1]) == NonEmpty(segs[..k]) + One(segs[k])
  {
    assert segs[..k + 1][..k] == segs[..k];
  }

  /** The spans read so far, and those of the next descriptor. */
  lemma NonEmptyPair(segs: seq<Span>, k: nat, m: nat)
    requires k < |segs| && m == if k + 2 <= |segs| then k + 2 else |segs|
    ensures NonEmpty(segs[..m]) == NonEmpty(segs[..k]) + (One(Next(segs, k)) + One(Next(segs, k + 1)))
  {
    NonEmptyNext(segs, k);
    if k + 1 < |segs| {
      NonEmptyNext(segs, k + 1);
      Assoc(NonEmpty(segs[..k]), One(segs[k]), One(segs[k + 1]));
    } else {
      assert One(segs[k]) + One(NOTHING) == One(segs[k]);
    }
  }

  /** What is left in the words of the descriptors to be used adds no flag and no
      length bit of its own. */
  predicate AddsNothing(t: Tx, segs: seq<Span>, k: nat, total: Word, head: Pbuf)
    requires t.n > 0 && |t.init| == t.n
    decreases |segs| - k
  {
    k >= |segs| ||
    var left, last := Left(t, |t.history|), k + 2 >= |segs|;
    && (k == 0 || !IsFirst(left))
    && (last || !IsLast(left))
    && Frame(left) <= total
    && AddsNothing(t.(history := t.history + [Fill(left, segs, k, total, head)]), segs, k + 2, total, head)
  }

  /** Reading one more descriptor that is not the last of its packet. */
  lemma DecodeMiddle(x: Slot, rest: seq<Slot>, cur: Option<Part>, want: DmaFrame)
    requires x.app == null && want.head != null && (cur.Some? ==> cur.value.length == want.length)
    ensures Decode([x] + rest, cur) == Some([want]) <==>
      && (IsFirst(x.w3) <==> cur == None) && !IsLast(x.w3) && Frame(x.w3) == want.length
      && Decode(rest, Some(Part(Read(cur) + Spans(x), want.length))) == Some([want])
  {
    assert ([x] + rest)[1..] == rest;
    var spans := Read(cur) + Spans(x);
    var r := Decode(rest, None);
    if IsLast(x.w3) && r.Some? {
      assert ([DmaFrame(spans, Frame(x.w3), null)] + r.value)[0].head == null;
    }
    if Decode(rest, Some(Part(spans, Frame(x.w3)))).Some? {
      DecodeLength(rest, Part(spans, Frame(x.w3)));
    }
  }

  /** Reading the last descriptor of a packet. */
  lemma DecodeLast(x: Slot, cur: Option<Part>, want: DmaFrame)
    requires want.spans == Read(cur) + Spans(x) && want.head == x.app
    requires cur.Some? ==> cur.value.length == want.length
    ensures Decode([x], cur) == Some([want]) <==>
      (IsFirst(x.w3) <==> cur == None) && IsLast(x.w3) && Frame(x.w3) == want.length
  {
    assert [x][1..] == [];
    assert [DmaFrame(want.spans, Frame(x.w3), x.app)] + [] == [DmaFrame(want.spans, Frame(x.w3), x.app)];
  }

  function Cur(segs: seq<Span>, k: nat, total: Word): Option<Part>
    requires k <= |segs|
  {
    if k == 0 then None else Some(Part(NonEmpty(segs[..k]), total))
  }

  function Want(segs: seq<Span>, total: Word, head: Pbuf?): DmaFrame {
    DmaFrame(NonEmpty(segs), total, head)
  }

  lemma FillRead(left: Word, segs: seq<Span>, k: nat, m: nat, total: Word, head: Pbuf?)
    requires k < |segs| && Fits(total) && Real(segs) && m == if k + 2 <= |segs| then k + 2 else |segs|
    ensures Read(Cur(segs, k, total)) + Spans(Fill(left, segs, k, total, head)) == NonEmpty(segs[..m])
  {
    FillSpans(left, segs, k, total, head);
    NonEmptyPair(segs, k, m);
    assert k == 0 ==> NonEmpty(segs[..k]) == [];
  }

  /** A descriptor in the middle of a packet. */
  lemma ReadMiddle(left: Word, segs: seq<Span>, k: nat, total: Word, head: Pbuf, rest: seq<Slot>)
    requires k + 2 < |segs| && Fits(total) && Real(segs)
    ensures Decode([Fill(left, segs, k, total, head)] + rest, Cur(segs, k, total)) == Some([Want(segs, total, head)])
      <==>
        && (k == 0 || !IsFirst(left)) && !IsLast(left) && Frame(left) <= total
        && Decode(rest, Cur(segs, k + 2, total)) == Some([Want(segs, total, head)])
  {
    var x := Fill(left, segs, k, total, head);
    Word3Reads(left, k == 0, false, total);
    FillRead(left, segs, k, k + 2, total, head);
    DecodeMiddle(x, rest, Cur(segs, k, total), Want(segs, total, head));
  }

  /** The last descriptor of a packet. */
  lemma ReadLast(left: Word, segs: seq<Span>, k: nat, total: Word, head: Pbuf)
    requires k < |segs| <= k + 2 && Fits(total) && Real(segs)
    ensures Decode([Fill(left, segs, k, total, head)], Cur(segs, k, total)) == Some([Want(segs, total, head)]) <==>
      (k == 0 || !IsFirst(left)) && Frame(left) <= total
  {
    var x := Fill(left, segs, k, total, head);
    Word3Reads(left, k == 0, true, total);
    FillRead(left, segs, k, |segs|, total, head);
    assert segs[..|segs|] == segs;
    DecodeLast(x, Cur(segs, k, total), Want(segs, total, head));
  }

  /** The DMA reads the descriptors of a packet, from buffer `k` on, as exactly
      that packet if and only if the words they are written over add nothing. */
  lemma {:induction false} DecodesIff(t: Tx, segs: seq<Span>, k: nat, total: Word, head: Pbuf)
    requires t.n > 0 && |t.init| == t.n && Fits(total) && Real(segs) && k < |segs|
    ensures Decode(Descriptors(t, segs, k, total, head), Cur(segs, k, total)) == Some([Want(segs, total, head)])
      <==> AddsNothing(t, segs, k, total, head)
    decreases |segs| - k
  {
    var left := Left(t, |t.history|);
    var t1 := t.(history := t.history + [Fill(left, segs, k, total, head)]);
    if k + 2 < |segs| {
      ReadMiddle(left, segs, k, total, head, Descriptors(t1, segs, k + 2, total, head));
      DecodesIff(t1, segs, k + 2, total, head);
    } else {
      assert Descriptors(t, segs, k, total, head) == [Fill(left, segs, k, total, head)];
      ReadLast(left, segs, k, total, head);
    }
  }

  /** A first-descriptor flag that the DMA leaves in the word of the second
      descriptor to be used spoils every packet of more than two buffers. */
  lemma StaleFlag(t: Tx, segs: seq<Span>, total: Word, head: Pbuf)
    requires Valid(t) && Fits(total) && Real(segs) && |segs| > 2 && |t.history| + 1 < t.r + t.n
    requires IsFirst(Left(t, |t.history| + 1))
    ensures Decode(Descriptors(t, segs, 0, total, head), None) != Some([Want(segs, total, head)])
  {
    var t1 := t.(history := t.history + [Fill(Left(t, |t.history|), segs, 0, total, head)]);
    assert Left(t1, |t1.history|) == Left(t, |t.history| + 1);
    DecodesIff(t, segs, 0, total, head);
  }

  lemma {:induction false} CleanAddsNothing(t: Tx, segs: seq<Span>, k: nat, total: Word, head: Pbuf)
    requires Valid(t) && CleanRing(t)
    requires k < |segs| ==> |t.history| + (|segs| - k + 1) / 2 <= t.r + t.n
    ensures AddsNothing(t, segs, k, total, head)
    decreases |segs| - k
  {
    if k < |segs| {
      var left := Left(t, |t.history|);
      LeftClean(t);
      CleanBits(left, total);
      CleanAddsNothing(t.(history := t.history + [Fill(left, segs, k, total, head)]), segs, k + 2, total, head);
    }
  }

  lemma CleanBits(left: Word, total: Word)
    requires Clean(left)
    ensures Frame(left) <= total
  {
  }

  // ---------- Every run ----------

  lemma {:induction false} DecodeAppend(a: seq<Slot>, b: seq<Slot>, cur: Option<Part>, f: seq<DmaFrame>,
                                            g: seq<DmaFrame>)
    requires Decode(a, cur) == Some(f) && Decode(b, None) == Some(g)
    ensures Decode(a + b, cur) == Some(f + g)
  {
    if a == [] {
      assert a + b == b && f + g == g;
    } else {
      assert (a + b)[1..] == a[1..] + b;
      var spans := Read(cur) + Spans(a[0]);
      if IsLast(a[0].w3) {
        var rest := Decode(a[1..], None).value;
        DecodeAppend(a[1..], b, None, rest, g);
        Assoc([DmaFrame(spans, Frame(a[0].w3), a[0].app)], rest, g);
      } else {
        DecodeAppend(a[1..], b, Some(Part(spans, Frame(a[0].w3))), f, g);
      }
    }
  }

  lemma {:induction false} DecodeSame(a: seq<Slot>, b: seq<Slot>, cur: Option<Part>)
    requires |a| == |b| && forall i :: 0 <= i < |a| ==> a[i] == b[i].(done := a[i].done, back := a[i].back)
    ensures Decode(a, cur) == Decode(b, cur)
  {
    if a != [] {
      DecodeSame(a[1..], b[1..], None);
      DecodeSame(a[1..], b[1..], Some(Part(Read(cur) + Spans(a[0]), Frame(a[0].w3))));
    }
  }

  predicate CleanOp(op: Op) {
    match op
    case Out(segs, head) => Sendable(segs)
    case Rel => true
    case Done(i, back) => Clean(back)
  }

  lemma StepDecodes(t: Tx, op: Op, f: seq<DmaFrame>)
    requires Valid(t) && OpEnabled(t, op) && CleanRing(t) && CleanOp(op)
    requires Decode(t.history, None) == Some(f)
    ensures CleanRing(Step(t, op))
    ensures Decode(Step(t, op).history, None) == Some(f + Frames(TakenBy(t, op)))
  {
    match op
    case Out(segs, head) =>
      EmitShape(t, segs, 0, Bits(Total(segs)), head);
      if TakenBy(t, op) == [] {
        assert f + [] == f && Descriptors(t, [], 0, Bits(Total([])), head) == [] && t.history + [] == t.history;
      } else {
        CleanAddsNothing(t, segs, 0, Bits(Total(segs)), head);
        DecodesIff(t, segs, 0, Bits(Total(segs)), head);
        DecodeAppend(t.history, Descriptors(t, segs, 0, Bits(Total(segs)), head), None, f,
                     [Want(segs, Bits(Total(segs)), head)]);
        FreshNotDone(t, segs, 0, Bits(Total(segs)), head);
        FramesOne(op);
      }
    case Rel =>
      ReleaseExact(t);
      assert f + [] == f;
    case Done(i, back) =>
      DecodeSame(Step(t, op).history, t.history, None);
      assert f + [] == f;
  }

  lemma FramesOne(op: Op)
    ensures op.Out? ==> Frames([op]) == [DmaFrame(NonEmpty(op.segs), Bits(Total(op.segs)), op.head)]
  {
    assert [op][1..] == [];
  }

  lemma {:induction false} FreshNotDone(t: Tx, segs: seq<Span>, k: nat, total: Word, head: Pbuf)
    requires t.n > 0 && |t.init| == t.n
    ensures forall x :: x in Descriptors(t, segs, k, total, head) ==> !x.done
    decreases |segs| - k
  {
    if k < |segs| {
      var x := Fill(Left(t, |t.history|), segs, k, total, head);
      FreshNotDone(t.(history := t.history + [x]), segs, k + 2, total, head);
    }
  }

  /** In every run with clean write-backs, reading all descriptors in ring order
      yields exactly the packets taken: each with one first and one last flag, its
      buffers in order and its total length. */
  lemma {:induction false} DmaReadsPackets(t: Tx, ops: seq<Op>, e: Tx, f: seq<DmaFrame>)
    requires Valid(t) && CleanRing(t) && Runs(t, ops, e) && forall op :: op in ops ==> CleanOp(op)
    requires Decode(t.history, None) == Some(f)
    ensures Decode(e.history, None) == Some(f + Frames(Taken(t, ops)))
    decreases |ops|
  {
    if ops == [] {
      assert f + [] == f;
    } else {
      StepValid(t, ops[0]);
      StepDecodes(t, ops[0], f);
      DmaReadsPackets(Step(t, ops[0]), ops[1..], e, f + Frames(TakenBy(t, ops[0])));
      FramesAppend(TakenBy(t, ops[0]), Taken(Step(t, ops[0]), ops[1..]));
      Assoc(f, Frames(TakenBy(t, ops[0])), Frames(Taken(Step(t, ops[0]), ops[1..])));
    }
  }

  lemma {:induction false} FramesAppend(a: seq<Op>, b: seq<Op>)
    ensures Frames(a + b) == Frames(a) + Frames(b)
  {
    if a == [] {
      assert a + b == b;
    } else {
      var c := a + b;
      FramesAppend(a[1..], b);
      assert c[1..] == a[1..] + b && c[0] == a[0];
      Assoc(if a[0].Out? then [DmaFrame(NonEmpty(a[0].segs), Bits(Total(a[0].segs)), a[0].head)] else [],
            Frames(a[1..]), Frames(b));
    }
  }
}
