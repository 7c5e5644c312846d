/** What the server and the stack say to each other on a connection, in every run:
    the order of the calls, that every callback tries to send what waits, and how far
    that gets. */
module TcpTalks {
  import opened Pbufs
  import opened TcpSpec

  // ---------- The order of the calls ----------

  /** What was said last: nothing that is still open, the room there is, the result of
      a write, that a close was refused; or the connection was given back. */
  datatype Phase = Quiet | Asked(room: nat) | Wrote(err: Err) | Refused | Over | Wrong

  /** The only calls allowed in each phase: room is asked for before every write, which
      fits in it; after a write that failed nothing more is written; what was written
      is pushed out; credit and the close come in between; a close that is refused is
      followed by an abort; and then there is nothing more. */
  function Follow(p: Phase, c: Call): Phase {
    match c
    case Room(n) => if p.Quiet? || p == Wrote(Ok) then Asked(n) else Wrong
    case Write(data, err) => if p.Asked? && |data| <= p.room then Wrote(err) else Wrong
    case Output => if p.Asked? || p.Wrote? then Quiet else Wrong
    case Recved(_) => if p.Quiet? then Quiet else Wrong
    case Close(err) => if !p.Quiet? then Wrong else if err == Ok then Over else if err == Mem then Quiet else Refused
    case Abort(_) => if p.Refused? then Over else Wrong
  }

  function PhaseOf(t: seq<Call>): Phase {
    if t == [] then Quiet else Follow(PhaseOf(t[..|t| - 1]), t[|t| - 1])
  }

  lemma PhaseAppend(t: seq<Call>, c: Call)
    ensures PhaseOf(t + [c]) == Follow(PhaseOf(t), c)
  {
    assert (t + [c])[..|t|] == t;
  }

  lemma {:induction false} PumpSpeaks(a: Answers, c: Conn)
    requires PhaseOf(c.trace) == Wrote(Ok) || (PhaseOf(c.trace) == Quiet && c.queue != [])
    ensures PhaseOf(Pump(a, c).trace).Asked? || PhaseOf(Pump(a, c).trace).Wrote?
    decreases |c.queue|
  {
    hide PhaseOf;
    if c.queue != [] {
      var room := Room(a(c.asked).sndbuf);
      PhaseAppend(c.trace, room);
      if room.n >= |c.queue[0]| {
        var x := Write(c.queue[0], a(c.asked + 1).write);
        PhaseAppend(c.trace + [room], x);
        if x.err == Ok {
          PumpSpeaks(a, c.(asked := c.asked + 2, trace := c.trace + [room] + [x], queue := c.queue[1..]));
        }
      }
    }
  }

  lemma WriteSpeaks(a: Answers, c: Conn)
    requires PhaseOf(c.trace) == Quiet && c.queue != []
    ensures PhaseOf(WriteToTcp(a, c).trace) == Quiet
  {
    PumpSpeaks(a, c);
    PhaseAppend(Pump(a, c).trace, Output);
  }

  /** Between callbacks nothing is open, and nothing was left undone at the end. */
  predicate Settled(c: Conn) {
    PhaseOf(c.trace) == Quiet || (PhaseOf(c.trace) == Over && c.state == Closed && c.queue == [])
  }

  lemma CloseSpeaks(a: Answers, c: Conn)
    requires PhaseOf(c.trace) == Quiet && c.queue == []
    ensures Settled(CloseConn(a, c))
  {
    hide PhaseOf;
    var x := Close(a(c.asked).close);
    PhaseAppend(c.trace, x);
    PhaseAppend(c.trace + [x], Abort(a(c.asked + 1).raises));
  }

  lemma IdleSpeaks(a: Answers, c: Conn)
    requires Settled(c)
    ensures Settled(OnIdle(a, c))
  {
    if c.queue != [] {
      WriteSpeaks(a, c);
    } else if c.state == Closing {
      CloseSpeaks(a, c);
    }
  }

  /** The end of the stream is handled as an idle callback of a closing connection. */
  lemma FinIsIdle(a: Answers, echo: bool, c: Conn)
    ensures Step(a, echo, c, Fin) == OnIdle(a, c.(state := Closing))
  {
  }

  lemma EchoSpeaks(a: Answers, c: Conn)
    requires PhaseOf(c.trace) == Quiet
    ensures PhaseOf(Echo(a, c).trace) == Quiet
  {
    hide WriteToTcp;
    if c.pending == [] {
      assert WriteChain(a, c, c.pending) == c;
    } else {
      WriteSpeaks(a, c.(queue := c.queue + c.pending));
    }
  }

  lemma CallbackSpeaks(a: Answers, echo: bool, c: Conn, e: Event)
    requires Settled(c) && Enabled(c, e)
    ensures Settled(Step(a, echo, c, e))
  {
    hide OnIdle, Echo, PhaseOf;
    match e
    case Data(chunks, err) =>
      PhaseAppend(c.trace, Recved(U16(|Flat(chunks)|)));
      EchoSpeaks(a, c.(trace := c.trace + [Recved(U16(|Flat(chunks)|))], pending := c.pending + chunks));
    case Fin =>
      IdleSpeaks(a, c.(state := Closing));
      FinIsIdle(a, echo, c);
    case Sent(_) => IdleSpeaks(a, c);
    case Poll => IdleSpeaks(a, c);
    case Error =>
  }

  /** In every run the calls keep this order, and between callbacks nothing is open. */
  lemma {:induction false} RunSpeaks(a: Answers, echo: bool, c: Conn, es: seq<Event>)
    requires Settled(c) && Legal(a, echo, c, es)
    ensures Settled(Run(a, echo, c, es))
    decreases |es|
  {
    if es != [] {
      CallbackSpeaks(a, echo, c, es[0]);
      RunSpeaks(a, echo, Step(a, echo, c, es[0]), es[1..]);
    }
  }

  // ---------- Every callback tries ----------

  /** Nothing waits, or the stack just said no to the first chunk that does: it had too
      little room for it, or did not take it. */
  predicate Stopped(t: seq<Call>, queue: seq<seq<byte>>) {
    queue == [] || (|t| >= 2 && t[|t| - 1] == Output && SaysNo(t[|t| - 2], queue[0]))
  }

  predicate SaysNo(x: Call, chunk: seq<byte>) {
    (x.Room? && x.n < |chunk|) || (x.Write? && x.data == chunk && x.err != Ok)
  }

  lemma {:induction false} PumpStops(a: Answers, c: Conn)
    ensures var d := Pump(a, c);
      && c.trace <= d.trace
      && (c.queue != [] ==> |d.trace| > |c.trace| && d.trace[|c.trace|].Room?)
      && (d.queue == [] || (|d.trace| > |c.trace| && SaysNo(d.trace[|d.trace| - 1], d.queue[0])))
    decreases |c.queue|
  {
    if c.queue != [] && a(c.asked).sndbuf >= |c.queue[0]| && a(c.asked + 1).write == Ok {
      var room, x := Room(a(c.asked).sndbuf), Write(c.queue[0], Ok);
      PumpStops(a, c.(asked := c.asked + 2, trace := c.trace + [room] + [x], queue := c.queue[1..]));
    }
  }

  /** After `before` the stack was asked for room, and sending went on until nothing
      waited or it said no. */
  predicate Tried(before: seq<Call>, d: Conn) {
    && before <= d.trace && |d.trace| >= |before| + 2 && d.trace[|before|].Room?
    && Stopped(d.trace, d.queue)
  }

  lemma WriteTries(a: Answers, c: Conn)
    requires c.queue != []
    ensures Tried(c.trace, WriteToTcp(a, c))
  {
    PumpStops(a, c);
  }

  predicate Idle(e: Event) { e.Sent? || e.Poll? }

  predicate Open(c: Conn) {
    (c.state == Established || c.state == Closing) && c.pending == []
  }

  /** The callback comes with data for the connection. */
  predicate Feeds(c: Conn, e: Event) {
    c.state == Established && e.Data? && e.err == Ok && Flat(e.chunks) != []
  }

  /** Every callback of an open connection tries to send what waits, with the data it
      brings; closes if it may and nothing waits; and does nothing else. */
  lemma CallbackTries(a: Answers, c: Conn, e: Event)
    requires Open(c) && Enabled(c, e)
    ensures var d := Step(a, true, c, e);
      && (Feeds(c, e) ==> Tried(c.trace + [Recved(|Flat(e.chunks)|)], d))
      && (Idle(e) || e.Fin? ==>
           if c.queue != [] then Tried(c.trace, d)
           else if e.Fin? || c.state == Closing then c.trace < d.trace && d.trace[|c.trace|].Close?
           else d == c)
      && (e.Data? && !Feeds(c, e) ==>
           d == c.(trace := c.trace + if e.err == Ok then [Recved(|Flat(e.chunks)|)] else []))
  {
    hide Pump, Stopped;
    match e
    case Data(chunks, err) =>
      var d := c.(trace := c.trace + [Recved(U16(|Flat(chunks)|))], pending := c.pending + chunks);
      assert c.pending + chunks == chunks;
      assert c.trace + [] == c.trace;
      if Feeds(c, e) {
        WriteTries(a, d.(queue := d.queue + chunks));
      }
    case Fin =>
      if c.queue != [] {
        WriteTries(a, c.(state := Closing));
      }
    case Sent(_) => if c.queue != [] { WriteTries(a, c); }
    case Poll => if c.queue != [] { WriteTries(a, c); }
    case Error =>
  }

  /** The calls without the credit given last. */
  function Heard(t: seq<Call>): seq<Call> {
    if t != [] && t[|t| - 1].Recved? then Heard(t[..|t| - 1]) else t
  }

  /** Bytes wait only because the last word of the stack about them was no. */
  predicate Justified(c: Conn) {
    Stopped(Heard(c.trace), c.queue)
  }

  lemma {:induction false} HeardMore(t: seq<Call>, n: nat)
    ensures Heard(t + [Recved(n)]) == Heard(t)
  {
    assert (t + [Recved(n)])[..|t|] == t;
  }

  lemma TriedJustifies(before: seq<Call>, d: Conn)
    requires Tried(before, d)
    ensures Justified(d)
  {
  }

  /** The connection takes part in the protocol, or is done. */
  predicate Regular(c: Conn) {
    Open(c) || (c.state == Closed && c.queue == [] && c.pending == [])
  }

  lemma StepRegular(a: Answers, c: Conn, e: Event)
    requires Regular(c) && Enabled(c, e)
    ensures Regular(Step(a, true, c, e))
  {
    WriteMoves(a, c, None);
    WriteMoves(a, c.(state := Closing), None);
    if e.Data? {
      var d := c.(trace := c.trace + [Recved(U16(|Flat(e.chunks)|))], pending := []);
      WriteMoves(a, c.(trace := d.trace, pending := c.pending + e.chunks,
                       queue := c.queue + (c.pending + e.chunks)), None);
    }
  }

  lemma StepJustified(a: Answers, c: Conn, e: Event)
    requires Regular(c) && Enabled(c, e) && Justified(c)
    ensures Justified(Step(a, true, c, e))
  {
    hide Tried, WriteToTcp;
    var d := Step(a, true, c, e);
    if Open(c) && !e.Error? {
      CallbackTries(a, c, e);
      if Feeds(c, e) {
        TriedJustifies(c.trace + [Recved(|Flat(e.chunks)|)], d);
      } else if e.Data? {
        HeardMore(c.trace, |Flat(e.chunks)|);
        assert c.trace + [] == c.trace;
      } else if c.queue != [] {
        TriedJustifies(c.trace, d);
      }
    }
  }

  /** In every state of every run, what waits in the write buffer waits because the
      last word of the stack about it was no. */
  lemma {:induction false} RunJustified(a: Answers, c: Conn, es: seq<Event>)
    requires Regular(c) && Legal(a, true, c, es) && Justified(c)
    ensures Justified(Run(a, true, c, es)) && Regular(Run(a, true, c, es))
    decreases |es|
  {
    if es != [] {
      StepRegular(a, c, es[0]);
      StepJustified(a, c, es[0]);
      RunJustified(a, Step(a, true, c, es[0]), es[1..]);
    }
  }

  // ---------- How far that gets ----------

  /** From answer `from` on, the stack always has memory, and room for `m` bytes. */
  ghost predicate Ample(a: Answers, from: nat, m: nat) {
    forall n :: n >= from ==> a(n).sndbuf >= m && a(n).write == Ok
  }

  predicate Small(q: seq<seq<byte>>, m: nat) {
    forall x :: x in q ==> |x| <= m
  }

  lemma {:induction false} AmplePump(a: Answers, c: Conn, m: nat)
    requires Ample(a, c.asked, m) && Small(c.queue, m)
    ensures Pump(a, c).queue == [] && Pump(a, c).asked >= c.asked
    decreases |c.queue|
  {
    if c.queue != [] {
      var room, x := Room(a(c.asked).sndbuf), Write(c.queue[0], Ok);
      AmplePump(a, c.(asked := c.asked + 2, trace := c.trace + [room] + [x], queue := c.queue[1..]), m);
    }
  }

  /** All that waits is taken, in order. */
  lemma AmpleWrite(a: Answers, c: Conn, m: nat)
    requires Ample(a, c.asked, m) && Small(c.queue, m)
    ensures var d := WriteToTcp(a, c);
      && d == c.(queue := [], trace := d.trace, asked := d.asked) && d.asked >= c.asked
      && Accepted(d.trace) == Accepted(c.trace) + Flat(c.queue)
  {
    WriteMoves(a, c, None);
    AmplePump(a, c, m);
    var d := WriteToTcp(a, c);
    assert Accepted(d.trace) + [] == Accepted(d.trace);
  }

  /** The callback sets the sending loop going. */
  predicate Wakes(c: Conn, e: Event) {
    Idle(e) || e.Fin? || Feeds(c, e)
  }

  /** The data that an event brings for sending. */
  function Brought(c: Conn, e: Event): seq<byte> {
    if Feeds(c, e) then Flat(e.chunks) else []
  }

  lemma ClosePushes(a: Answers, c: Conn)
    ensures var d := CloseConn(a, c);
      && Accepted(d.trace) == Accepted(c.trace) && d.asked >= c.asked
      && (c.queue == c.pending == [] ==> d.queue == d.pending == []) && (d.state == Closed || d.state == c.state)
      && (d.state != Closed ==> d.pending == c.pending && d.queue == c.queue)
      && (c.queue == [] ==> d.queue == [])
  {
    var x := Close(a(c.asked).close);
    Push(c.trace, x, None);
    Push(c.trace + [x], Abort(a(c.asked + 1).raises), None);
  }

  lemma AmpleIdle(a: Answers, c: Conn, m: nat)
    requires Ample(a, c.asked, m) && Small(c.queue, m) && Open(c)
    ensures var d := OnIdle(a, c);
      && d.queue == [] && Accepted(d.trace) == Accepted(c.trace) + Flat(c.queue) && d.asked >= c.asked
      && (d.state == c.state || d.state == Closed)
  {
    assert Accepted(c.trace) + [] == Accepted(c.trace);
    if c.queue != [] {
      AmpleWrite(a, c, m);
    } else if c.state == Closing {
      ClosePushes(a, c);
    }
  }

  lemma FeedIs(a: Answers, c: Conn, chunks: seq<seq<byte>>)
    requires Open(c) && Enabled(c, Data(chunks, Ok)) && Feeds(c, Data(chunks, Ok))
    ensures Step(a, true, c, Data(chunks, Ok))
      == WriteToTcp(a, c.(trace := c.trace + [Recved(|Flat(chunks)|)], pending := chunks, queue := c.queue + chunks))
           .(pending := [])
  {
    hide WriteToTcp;
    assert c.pending + chunks == chunks;
  }

  lemma AmpleData(a: Answers, c: Conn, chunks: seq<seq<byte>>, m: nat)
    requires Ample(a, c.asked, m) && Small(c.queue, m) && Small(chunks, m) && Open(c)
    requires Enabled(c, Data(chunks, Ok)) && Feeds(c, Data(chunks, Ok))
    ensures var d := Step(a, true, c, Data(chunks, Ok));
      && d.queue == [] && Accepted(d.trace) == Accepted(c.trace) + Flat(c.queue) + Flat(chunks)
      && d.asked >= c.asked && d.state == Established && d.pending == []
  {
    hide WriteToTcp, Accepted, Flat;
    var x := Recved(|Flat(chunks)|);
    var d := c.(trace := c.trace + [x], pending := chunks, queue := c.queue + chunks);
    assert c.pending + chunks == chunks;
    FeedIs(a, c, chunks);
    Push(c.trace, x, None);
    FlatAppend(c.queue, chunks);
    Assoc(Accepted(c.trace), Flat(c.queue), Flat(chunks));
    AmpleWrite(a, d, m);
  }

  /** With a stack that has room, every callback that wakes the connection leaves
      nothing waiting: what waited and what it brought is taken, in order. */
  lemma AmpleStep(a: Answers, c: Conn, e: Event, m: nat)
    requires Ample(a, c.asked, m) && Small(c.queue, m) && (e.Data? ==> Small(e.chunks, m))
    requires Open(c) && Enabled(c, e) && !e.Error?
    ensures var d := Step(a, true, c, e);
      && d.queue == (if Wakes(c, e) then [] else c.queue) && d.asked >= c.asked
      && Accepted(d.trace) == Accepted(c.trace) + (if Wakes(c, e) then Flat(c.queue) + Brought(c, e) else [])
  {
    hide CloseConn, WriteToTcp;
    var d := Step(a, true, c, e);
    assert Flat(c.queue) + [] == Flat(c.queue);
    match e
    case Data(chunks, err) =>
      if Feeds(c, e) {
        AmpleData(a, c, chunks, m);
        Assoc(Accepted(c.trace), Flat(c.queue), Flat(chunks));
      } else {
        CallbackTries(a, c, e);
        Push(c.trace, Recved(|Flat(chunks)|), None);
        assert c.trace + [] == c.trace && Accepted(c.trace) + [] == Accepted(c.trace);
      }
    case Fin =>
      FinIsIdle(a, true, c);
      AmpleIdle(a, c.(state := Closing), m);
    case Sent(_) => AmpleIdle(a, c, m);
    case Poll => AmpleIdle(a, c, m);
  }
  /** What a run brings for sending. */
  function BroughtBy(c: Conn, es: seq<Event>): seq<byte> {
    if c.state == Established then Received(es) else []
  }

  lemma StepState(a: Answers, c: Conn, e: Event)
    requires Open(c) && Enabled(c, e) && !e.Error?
    ensures var d := Step(a, true, c, e);
      && d.pending == [] && d.state != Listening
      && (c.state == Established && !e.Fin? <==> d.state == Established)
  {
    hide WriteToTcp, Heard;
    WriteMoves(a, c, None);
    WriteMoves(a, c.(state := Closing), None);
    StepRegular(a, c, e);
    if Feeds(c, e) {
      FeedIs(a, c, e.chunks);
      WriteMoves(a, c.(trace := c.trace + [Recved(|Flat(e.chunks)|)], pending := e.chunks, queue := c.queue + e.chunks),
                 None);
    } else if e.Data? {
      CallbackTries(a, c, e);
    }
  }

  lemma BroughtNext(a: Answers, c: Conn, e: Event, es: seq<Event>)
    requires Open(c) && Enabled(c, e) && !e.Error?
    ensures BroughtBy(c, [e] + es) == Brought(c, e) + BroughtBy(Step(a, true, c, e), es)
  {
    StepState(a, c, e);
    assert ([e] + es)[1..] == es;
    assert e.Data? && e.err == Ok && !Feeds(c, e) && c.state == Established ==> Flat(e.chunks) == [];
  }

  /** One event of such a run; what is left waits for nothing. */
  lemma AmpleNext(a: Answers, c: Conn, e: Event, es: seq<Event>, m: nat)
    requires Ample(a, c.asked, m) && Small(c.queue, m) && Open(c) && Enabled(c, e)
    requires !e.Error? && (e.Data? ==> Small(e.chunks, m)) && (c.queue == [] || Wakes(c, e))
    ensures var d := Step(a, true, c, e);
      && d.queue == [] && Regular(d) && Ample(a, d.asked, m) && Small(d.queue, m)
      && Accepted(d.trace) + BroughtBy(d, es) == Accepted(c.trace) + (Flat(c.queue) + BroughtBy(c, [e] + es))
  {
    hide Step, Accepted, BroughtBy, Enabled, Open, Idle;
    var d := Step(a, true, c, e);
    AmpleStep(a, c, e, m);
    StepRegular(a, c, e);
    BroughtNext(a, c, e, es);
    Assoc(Flat(c.queue), Brought(c, e), BroughtBy(d, es));
    Assoc(Accepted(c.trace), Flat(c.queue) + Brought(c, e), BroughtBy(d, es));
    if !Wakes(c, e) {
      assert Accepted(c.trace) + [] == Accepted(c.trace) && Flat(c.queue) + Brought(c, e) == [];
    }
  }

  lemma NothingBrought(c: Conn)
    ensures BroughtBy(c, []) == [] && Flat([]) == []
  {
  }

  /** With a stack that has room, a run takes everything: as soon as one callback woke
      the connection nothing ever waits again, and what the stack was given is what
      waited and then all that arrived, in order. */
  lemma {:induction false} AmpleRun(a: Answers, c: Conn, es: seq<Event>, m: nat)
    requires Ample(a, c.asked, m) && Small(c.queue, m) && Regular(c) && Legal(a, true, c, es)
    requires forall e :: e in es ==> !e.Error? && (e.Data? ==> Small(e.chunks, m))
    requires c.queue == [] || (es != [] && Wakes(c, es[0]))
    ensures var d := Run(a, true, c, es);
      d.queue == [] && Accepted(d.trace) == Accepted(c.trace) + (Flat(c.queue) + BroughtBy(c, es))
    decreases |es|
  {
    hide Step, Wakes, Enabled, Ample, Small, Accepted, Received;
    if es == [] || c.state == Closed {
      assert Accepted(c.trace) + ([] + []) == Accepted(c.trace);
      if c.state == Closed {
        ClosedIsQuiet(a, c, es);
      } else {
        NothingBrought(c);
      }
    } else {
      AmpleNext(a, c, es[0], es[1..], m);
      assert [es[0]] + es[1..] == es && es[0] in es;
      AmpleRun(a, Step(a, true, c, es[0]), es[1..], m);
    }
  }

  /** With a stack that has room, everything is echoed at once. */
  lemma AllEchoed(a: Answers, es: seq<Event>, m: nat)
    requires Ample(a, 0, m) && Legal(a, true, ACCEPTING, es)
    requires forall e :: e in es ==> !e.Error? && (e.Data? ==> Small(e.chunks, m))
    ensures var c := Run(a, true, ACCEPTING, es); c.queue == [] && Accepted(c.trace) == Received(es)
  {
    AmpleRun(a, ACCEPTING, es, m);
    assert [] + ([] + Received(es)) == Received(es);
  }

  // ---------- Refusals, lost control blocks, and servers without an application ----------

  /** A write leaves the connection alone exactly when it is not established or there
      is nothing in the chain, by its 16-bit total. */
  lemma RefusesIff(a: Answers, c: Conn, chain: seq<seq<byte>>)
    ensures WriteChain(a, c, chain) == c <==> c.state != Established || |Flat(chain)| % 0x1_0000 == 0
  {
    PumpOnlyWrites(a, c.(queue := c.queue + chain));
  }

  /** The connection has lost its control block after an error, or after an abort that
      raised one, and not otherwise. */
  predicate Alive(c: Conn, failed: bool) {
    c.live <==> !failed && Abort(true) !in c.trace
  }

  lemma CallsAlive(c: Conn, d: Conn, failed: bool)
    requires Alive(c, failed) && c.trace <= d.trace && d.live == c.live
    requires forall i :: |c.trace| <= i < |d.trace| ==> d.trace[i] != Abort(true)
    ensures Alive(d, failed)
  {
    assert forall i :: 0 <= i < |c.trace| ==> d.trace[i] == c.trace[i];
  }

  lemma WriteAlive(a: Answers, c: Conn, failed: bool)
    requires Alive(c, failed)
    ensures Alive(WriteToTcp(a, c), failed)
  {
    PumpOnlyWrites(a, c);
    WriteMoves(a, c, None);
    CallsAlive(c, WriteToTcp(a, c), failed);
  }

  lemma IdleAlive(a: Answers, c: Conn, failed: bool)
    requires Alive(c, failed)
    ensures Alive(OnIdle(a, c), failed)
  {
    hide WriteToTcp;
    if c.queue != [] {
      WriteAlive(a, c, failed);
    } else {
      var d := OnIdle(a, c);
      var raised := |d.trace| == |c.trace| + 2 && d.trace[|c.trace| + 1] == Abort(true);
      assert d.live == (c.live && !raised);
    }
  }

  lemma StepAlive(a: Answers, echo: bool, c: Conn, e: Event, failed: bool)
    requires Alive(c, failed)
    ensures Alive(Step(a, echo, c, e), failed || e.Error?)
  {
    hide WriteToTcp, OnIdle;
    match e
    case Data(chunks, err) =>
      var d := c.(trace := c.trace + [Recved(U16(|Flat(chunks)|))], pending := c.pending + chunks);
      CallsAlive(c, d, failed);
      WriteAlive(a, d.(queue := d.queue + d.pending), failed);
    case Fin =>
      FinIsIdle(a, echo, c);
      IdleAlive(a, c.(state := Closing), failed);
    case Sent(_) => IdleAlive(a, c, failed);
    case Poll => IdleAlive(a, c, failed);
    case Error =>
  }

  lemma {:induction false} RunAlive(a: Answers, echo: bool, c: Conn, es: seq<Event>, failed: bool)
    requires Alive(c, failed)
    ensures Alive(Run(a, echo, c, es), FailedBy(es, failed))
    decreases |es|
  {
    if es != [] {
      StepAlive(a, echo, c, es[0], failed);
      RunAlive(a, echo, Step(a, echo, c, es[0]), es[1..], failed || es[0].Error?);
    }
  }

  /** In every run, the connection has its control block exactly until the stack
      reports an error or an abort raises one; without it, it is closed and empty. */
  lemma LiveIff(a: Answers, es: seq<Event>)
    requires Legal(a, true, ACCEPTING, es)
    ensures var c := Run(a, true, ACCEPTING, es);
      && (c.live <==> (forall e :: e in es ==> !e.Error?) && Abort(true) !in c.trace)
      && (!c.live ==> c.state == Closed && c.queue == [] && c.pending == [])
  {
    RunAlive(a, true, ACCEPTING, es, false);
    FailedOnlyByError(es, false);
    RunDropped(a, ACCEPTING, es);
  }

  predicate Dropped(c: Conn) {
    Regular(c) && (!c.live ==> c.state == Closed)
  }

  lemma {:induction false} RunDropped(a: Answers, c: Conn, es: seq<Event>)
    requires Dropped(c) && Legal(a, true, c, es)
    ensures Dropped(Run(a, true, c, es))
    decreases |es|
  {
    if es != [] {
      StepRegular(a, c, es[0]);
      StepDropped(a, c, es[0]);
      RunDropped(a, Step(a, true, c, es[0]), es[1..]);
    }
  }

  lemma StepDropped(a: Answers, c: Conn, e: Event)
    requires Dropped(c) && Enabled(c, e)
    ensures !Step(a, true, c, e).live ==> Step(a, true, c, e).state == Closed
  {
    hide WriteToTcp;
    WriteMoves(a, c, None);
    WriteMoves(a, c.(state := Closing), None);
    if e.Data? {
      WriteMoves(a, c.(trace := c.trace + [Recved(U16(|Flat(e.chunks)|))], pending := c.pending + e.chunks,
                       queue := c.queue + (c.pending + e.chunks)), None);
    }
  }

  /** All data of a run. */
  function Gathered(es: seq<Event>): seq<byte> {
    if es == [] then []
    else (if es[0].Data? && es[0].err == Ok then Flat(es[0].chunks) else []) + Gathered(es[1..])
  }

  /** A closed connection stays closed. */
  lemma {:induction false} StaysClosed(a: Answers, c: Conn, es: seq<Event>)
    requires c.state == Closed && Legal(a, false, c, es)
    ensures Run(a, false, c, es).state == Closed
    decreases |es|
  {
    if es != [] {
      WriteMoves(a, c, None);
      StaysClosed(a, Step(a, false, c, es[0]), es[1..]);
    }
  }

  /** Without an application what arrives is kept in the read buffer, in order, until
      the connection is closed, and nothing is sent. */
  lemma {:induction false} Unread(a: Answers, c: Conn, es: seq<Event>)
    requires c.queue == [] && Legal(a, false, c, es)
    ensures var d := Run(a, false, c, es);
      && d.queue == [] && Accepted(d.trace) == Accepted(c.trace)
      && (d.state != Closed ==> Flat(d.pending) == Flat(c.pending) + Gathered(es))
    decreases |es|
  {
    if es == [] {
      assert Flat(c.pending) + [] == Flat(c.pending);
    } else {
      var d := Step(a, false, c, es[0]);
      UnreadStep(a, c, es[0]);
      Unread(a, d, es[1..]);
      if d.state == Closed {
        StaysClosed(a, d, es[1..]);
      } else {
        Assoc(Flat(c.pending), Gathered([es[0]]), Gathered(es[1..]));
        assert [es[0]][1..] == [] && Gathered([es[0]]) + Gathered(es[1..]) == Gathered(es);
      }
    }
  }

  lemma GatheredOne(e: Event)
    ensures Gathered([e]) == if e.Data? && e.err == Ok then Flat(e.chunks) else []
  {
    assert [e][1..] == [];
  }

  lemma UnreadStep(a: Answers, c: Conn, e: Event)
    requires c.queue == []
    ensures var d := Step(a, false, c, e);
      && d.queue == [] && Accepted(d.trace) == Accepted(c.trace)
      && (d.state != Closed ==> Flat(d.pending) == Flat(c.pending) + Gathered([e]))
  {
    hide CloseConn;
    GatheredOne(e);
    assert Flat(c.pending) + [] == Flat(c.pending);
    match e
    case Data(chunks, err) =>
      Push(c.trace, Recved(U16(|Flat(chunks)|)), None);
      FlatAppend(c.pending, chunks);
    case Fin => ClosePushes(a, c.(state := Closing));
    case Sent(_) => ClosePushes(a, c);
    case Poll => ClosePushes(a, c);
    case Error =>
  }
}
