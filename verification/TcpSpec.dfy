/** The echo connection as a state machine over values: what each lwIP callback
    does to the connection and which lwIP calls it makes, for every answer the
    stack may give.  `TcpServer.dfy` proves that the code on pbuf chains and
    connection objects takes exactly these steps. */
module TcpSpec {
  import opened Pbufs

  datatype State = Closed | Listening | Established | Closing

  /** What the stack says when it is asked: the room in the send buffer, the
      results of `tcp_write` and `tcp_close`, and whether `tcp_abort` runs the
      error callback. */
  datatype Answer = Answer(sndbuf: u16, write: Err, close: Err, raises: bool)

  type Answers = nat -> Answer

  /** The calls of the stack, each with its answer. */
  datatype Call = Room(n: nat) | Write(data: seq<byte>, err: Err) | Output | Recved(n: nat) | Close(err: Err)
                | Abort(raised: bool)

  /** `live` is a non-null control block, `queue` and `pending` are the payloads
      of the write and read buffer chains, `trace` the calls made so far and
      `asked` the number of answers used. */
  datatype Conn = Conn(state: State, live: bool, queue: seq<seq<byte>>, pending: seq<seq<byte>>,
                       trace: seq<Call>, asked: nat)

  datatype Event = Data(chunks: seq<seq<byte>>, err: Err) | Fin | Sent(len: u16) | Poll | Error

  // ---------- Steps ----------

  /** The loop of `writeToTcp`. */
  function Pump(a: Answers, c: Conn): Conn
    decreases |c.queue|
  {
    if c.queue == [] then c
    else
      var room := a(c.asked).sndbuf;
      var d := c.(asked := c.asked + 1, trace := c.trace + [Room(room)]);
      if room < |c.queue[0]| then d
      else
        var err := a(d.asked).write;
        var e := d.(asked := d.asked + 1, trace := d.trace + [Write(c.queue[0], err)]);
        if err != Ok then e else Pump(a, e.(queue := c.queue[1..]))
  }

  function WriteToTcp(a: Answers, c: Conn): Conn {
    var d := Pump(a, c);
    d.(trace := d.trace + [Output])
  }

  function WriteChain(a: Answers, c: Conn, chain: seq<seq<byte>>): Conn {
    if c.state != Established || U16(|Flat(chain)|) == 0 then c
    else WriteToTcp(a, c.(queue := c.queue + chain))
  }

  /** The echo application consumes the read buffer, whatever becomes of it. */
  function Echo(a: Answers, c: Conn): Conn {
    WriteChain(a, c, c.pending).(pending := [])
  }

  function OnError(c: Conn): Conn {
    c.(state := Closed, live := false, queue := [], pending := [])
  }

  function CloseConn(a: Answers, c: Conn): Conn {
    var err := a(c.asked).close;
    var d := c.(asked := c.asked + 1, trace := c.trace + [Close(err)]);
    if err == Mem then d
    else if err == Ok then d.(state := Closed)
    else
      var raised := a(d.asked).raises;
      var e := d.(asked := d.asked + 1, trace := d.trace + [Abort(raised)]);
      (if raised then OnError(e) else e).(state := Closed)
  }

  function OnIdle(a: Answers, c: Conn): Conn {
    if c.queue != [] then WriteToTcp(a, c)
    else if c.state == Closing then CloseConn(a, c)
    else c
  }

  /** `echo` tells whether the echo application is registered. */
  function Step(a: Answers, echo: bool, c: Conn, e: Event): Conn {
    match e
    case Data(chunks, err) =>
      if err != Ok then c
      else
        var d := c.(trace := c.trace + [Recved(U16(|Flat(chunks)|))], pending := c.pending + chunks);
        if echo then Echo(a, d) else d
    case Fin =>
      var d := c.(state := Closing);
      if c.queue != [] then WriteToTcp(a, d) else CloseConn(a, d)
    case Sent(_) => OnIdle(a, c)
    case Poll => OnIdle(a, c)
    case Error => OnError(c)
  }

  function Run(a: Answers, echo: bool, c: Conn, es: seq<Event>): Conn
    decreases |es|
  {
    if es == [] then c else Run(a, echo, Step(a, echo, c, es[0]), es[1..])
  }

  const ACCEPTING := Conn(Established, true, [], [], [], 0)

  // ---------- The environment ----------

  /** A chain as lwIP delivers it: at least one buffer, 16-bit lengths. */
  predicate Packet(chunks: seq<seq<byte>>) {
    chunks != [] && |Flat(chunks)| < 0x1_0000
  }

  /** lwIP delivers nothing for a connection that was closed. */
  predicate Enabled(c: Conn, e: Event) {
    && (e.Data? || e.Fin? ==> c.state != Closed)
    && (e.Data? ==> Packet(e.chunks))
  }

  predicate Legal(a: Answers, echo: bool, c: Conn, es: seq<Event>)
    decreases |es|
  {
    es == [] || (Enabled(c, es[0]) && Legal(a, echo, Step(a, echo, c, es[0]), es[1..]))
  }

  // ---------- What a run is judged by ----------

  /** The bytes the stack has taken for transmission. */
  function Accepted(t: seq<Call>): seq<byte> {
    if t == [] then [] else
      var last := t[|t| - 1];
      Accepted(t[..|t| - 1]) + if last.Write? && last.err == Ok then last.data else []
  }

  /** The window credit returned to the sender. */
  function Credit(t: seq<Call>): nat {
    if t == [] then 0 else
      var last := t[|t| - 1];
      Credit(t[..|t| - 1]) + if last.Recved? then last.n else 0
  }

  /** The bytes that arrive before the first end-of-stream or error. */
  function Received(es: seq<Event>): seq<byte> {
    if es == [] || es[0].Fin? || es[0].Error? then []
    else (if es[0].Data? && es[0].err == Ok then Flat(es[0].chunks) else []) + Received(es[1..])
  }

  function Delivered(es: seq<Event>): nat {
    if es == [] then 0
    else (if es[0].Data? && es[0].err == Ok then |Flat(es[0].chunks)| else 0) + Delivered(es[1..])
  }

  /** Every attempt to close comes after exactly `rec` was taken; with none
      given, there is no such attempt. */
  predicate ClosesAfter(t: seq<Call>, rec: Option<seq<byte>>) {
    t == [] ||
    var before := t[..|t| - 1];
    ClosesAfter(before, rec) && (t[|t| - 1].Close? ==> rec == Some(Accepted(before)))
  }

  lemma {:induction false} ClosesAfterAt(t: seq<Call>, rec: Option<seq<byte>>, i: nat)
    requires ClosesAfter(t, rec) && i < |t| && t[i].Close?
    ensures rec == Some(Accepted(t[..i]))
  {
    if i < |t| - 1 {
      ClosesAfterAt(t[..|t| - 1], rec, i);
      assert t[..|t| - 1][..i] == t[..i];
    }
  }

  lemma {:induction false} ClosesWeaken(t: seq<Call>, rec: Option<seq<byte>>)
    requires ClosesAfter(t, None)
    ensures ClosesAfter(t, rec)
  {
    if t != [] {
      ClosesWeaken(t[..|t| - 1], rec);
    }
  }

  // ---------- One loop ----------

  lemma Push(t: seq<Call>, x: Call, rec: Option<seq<byte>>)
    ensures Accepted(t + [x]) == Accepted(t) + if x.Write? && x.err == Ok then x.data else []
    ensures Credit(t + [x]) == Credit(t) + if x.Recved? then x.n else 0
    ensures ClosesAfter(t + [x], rec) <==> ClosesAfter(t, rec) && (x.Close? ==> rec == Some(Accepted(t)))
  {
    assert (t + [x])[..|t|] == t;
  }

  /** Sending moves bytes from the front of the queue to the stack and changes
      nothing else: none is lost, repeated or reordered. */
  ghost predicate Moved(c: Conn, d: Conn, rec: Option<seq<byte>>) {
    && d == c.(queue := d.queue, trace := d.trace, asked := d.asked)
    && Accepted(d.trace) + Flat(d.queue) == Accepted(c.trace) + Flat(c.queue)
    && Credit(d.trace) == Credit(c.trace)
    && (ClosesAfter(c.trace, rec) ==> ClosesAfter(d.trace, rec))
  }

  lemma MovedTwice(c: Conn, d: Conn, e: Conn, rec: Option<seq<byte>>)
    requires Moved(c, d, rec) && Moved(d, e, rec)
    ensures Moved(c, e, rec)
  {
  }

  lemma NothingMoves(c: Conn, rec: Option<seq<byte>>)
    ensures Moved(c, c, rec)
  {
  }

  /** A question moves nothing, nor does a write that fails. */
  lemma CallMoves(c: Conn, x: Call, asked: nat, rec: Option<seq<byte>>)
    requires x.Room? || x.Output? || (x.Write? && x.err != Ok)
    ensures Moved(c, c.(asked := asked, trace := c.trace + [x]), rec)
  {
    Push(c.trace, x, rec);
  }

  /** A write that succeeds moves the first chunk. */
  lemma ChunkMoves(c: Conn, asked: nat, rec: Option<seq<byte>>)
    requires c.queue != []
    ensures Moved(c, c.(asked := asked, trace := c.trace + [Write(c.queue[0], Ok)], queue := c.queue[1..]), rec)
  {
    Push(c.trace, Write(c.queue[0], Ok), rec);
    Assoc(Accepted(c.trace), c.queue[0], Flat(c.queue[1..]));
  }

  lemma {:induction false} PumpMoves(a: Answers, c: Conn, rec: Option<seq<byte>>)
    ensures Moved(c, Pump(a, c), rec)
    decreases |c.queue|
  {
    hide Moved;
    if c.queue == [] {
      NothingMoves(c, rec);
    } else {
      var d := c.(asked := c.asked + 1, trace := c.trace + [Room(a(c.asked).sndbuf)]);
      CallMoves(c, Room(a(c.asked).sndbuf), d.asked, rec);
      if a(c.asked).sndbuf >= |c.queue[0]| {
        var x := Write(c.queue[0], a(d.asked).write);
        var e := d.(asked := d.asked + 1, trace := d.trace + [x]);
        if x.err == Ok {
          ChunkMoves(d, e.asked, rec);
          PumpMoves(a, e.(queue := c.queue[1..]), rec);
          MovedTwice(d, e.(queue := c.queue[1..]), Pump(a, c), rec);
        } else {
          CallMoves(d, x, e.asked, rec);
        }
        MovedTwice(c, d, Pump(a, c), rec);
      }
    }
  }

  lemma WriteMoves(a: Answers, c: Conn, rec: Option<seq<byte>>)
    ensures Moved(c, WriteToTcp(a, c), rec)
  {
    PumpMoves(a, c, rec);
    Push(Pump(a, c).trace, Output, rec);
  }

  // ---------- Every run ----------

  /** What holds between callbacks of the echo server, where `rec` arrived before
      the stream ended, `ended` tells whether it did and `failed` whether the
      stack reported an error. */
  ghost predicate Inv(c: Conn, rec: seq<byte>, ended: bool, failed: bool) {
    && c.pending == []
    && (c.state == Established || (c.state == Closing && ended) || (c.state == Closed && ended && c.queue == []))
    && (c.state == Established ==> !ended)
    && Accepted(c.trace) <= rec
    && (!failed || c.state != Closed ==> Accepted(c.trace) + Flat(c.queue) == rec)
    && ClosesAfter(c.trace, if ended then Some(rec) else None)
  }

  lemma CloseKeeps(a: Answers, c: Conn, rec: seq<byte>, failed: bool)
    requires Inv(c, rec, true, failed) && c.state == Closing && c.queue == []
    ensures Inv(CloseConn(a, c), rec, true, failed)
    ensures Credit(CloseConn(a, c).trace) == Credit(c.trace)
    ensures CloseConn(a, c).state == if a(c.asked).close == Mem then Closing else Closed
  {
    var x := Close(a(c.asked).close);
    assert Accepted(c.trace) + [] == Accepted(c.trace);
    Push(c.trace, x, Some(rec));
    Push(c.trace + [x], Abort(a(c.asked + 1).raises), Some(rec));
  }

  lemma IdleKeeps(a: Answers, c: Conn, rec: seq<byte>, ended: bool, failed: bool)
    requires Inv(c, rec, ended, failed)
    ensures Inv(OnIdle(a, c), rec, ended, failed)
    ensures Credit(OnIdle(a, c).trace) == Credit(c.trace)
  {
    if c.queue != [] {
      WriteMoves(a, c, if ended then Some(rec) else None);
    } else if c.state == Closing {
      CloseKeeps(a, c, rec, failed);
    }
  }

  lemma FinKeeps(a: Answers, c: Conn, rec: seq<byte>, ended: bool, failed: bool)
    requires Inv(c, rec, ended, failed) && c.state != Closed
    ensures Inv(Step(a, true, c, Fin), rec, true, failed)
    ensures Credit(Step(a, true, c, Fin).trace) == Credit(c.trace)
  {
    var d := c.(state := Closing);
    if !ended {
      ClosesWeaken(c.trace, Some(rec));
    }
    assert Inv(d, rec, true, failed);
    IdleKeeps(a, d, rec, true, failed);
  }

  lemma DataKeeps(a: Answers, c: Conn, chunks: seq<seq<byte>>, rec: seq<byte>, ended: bool, failed: bool)
    requires Inv(c, rec, ended, failed) && Enabled(c, Data(chunks, Ok))
    ensures Inv(Step(a, true, c, Data(chunks, Ok)), rec + if ended then [] else Flat(chunks), ended, failed)
    ensures Credit(Step(a, true, c, Data(chunks, Ok)).trace) == Credit(c.trace) + |Flat(chunks)|
  {
    hide Pump, WriteToTcp, ClosesAfter, Accepted, Credit, Flat;
    var r := Step(a, true, c, Data(chunks, Ok));
    var d := c.(trace := c.trace + [Recved(|Flat(chunks)|)], pending := chunks);
    assert c.pending + chunks == chunks;
    Push(c.trace, Recved(|Flat(chunks)|), if ended then Some(rec) else None);
    if ended || Flat(chunks) == [] {
      assert r == d.(pending := []);
      assert rec + [] == rec;
      DropKeeps(c, d.(pending := []), rec, ended, failed);
    } else {
      assert r == WriteToTcp(a, d.(queue := d.queue + chunks)).(pending := []);
      EchoKeeps(a, d, chunks, rec, failed);
    }
  }

  lemma DropKeeps(c: Conn, r: Conn, rec: seq<byte>, ended: bool, failed: bool)
    requires Inv(c, rec, ended, failed) && r == c.(trace := r.trace)
    requires Accepted(r.trace) == Accepted(c.trace)
    requires ClosesAfter(r.trace, if ended then Some(rec) else None)
    ensures Inv(r, rec, ended, failed)
  {
  }

  lemma EchoKeeps(a: Answers, d: Conn, chunks: seq<seq<byte>>, rec: seq<byte>, failed: bool)
    requires d.state == Established && ClosesAfter(d.trace, None)
    requires Accepted(d.trace) + Flat(d.queue) == rec
    ensures var r := WriteToTcp(a, d.(queue := d.queue + chunks)).(pending := []);
      Inv(r, rec + Flat(chunks), false, failed) && Credit(r.trace) == Credit(d.trace)
  {
    var q := d.(queue := d.queue + chunks);
    FlatAppend(d.queue, chunks);
    Assoc(Accepted(d.trace), Flat(d.queue), Flat(chunks));
    WriteMoves(a, q, None);
    QueuedKeeps(q, WriteToTcp(a, q), rec + Flat(chunks), failed);
  }

  lemma QueuedKeeps(q: Conn, w: Conn, rec: seq<byte>, failed: bool)
    requires Moved(q, w, None) && q.state == Established && ClosesAfter(q.trace, None)
    requires Accepted(q.trace) + Flat(q.queue) == rec
    ensures Inv(w.(pending := []), rec, false, failed)
  {
  }

  // ---------- The theorems ----------

  function EndedBy(es: seq<Event>, ended: bool): bool
    decreases |es|
  {
    if es == [] then ended else EndedBy(es[1..], ended || es[0].Fin? || es[0].Error?)
  }

  function FailedBy(es: seq<Event>, failed: bool): bool
    decreases |es|
  {
    if es == [] then failed else FailedBy(es[1..], failed || es[0].Error?)
  }

  /** One callback of either kind. */
  lemma StepKeeps(a: Answers, c: Conn, e: Event, rec: seq<byte>, ended: bool, failed: bool)
    requires Inv(c, rec, ended, failed) && Enabled(c, e)
    ensures Inv(Step(a, true, c, e), rec + (if ended then [] else Received([e])),
                ended || e.Fin? || e.Error?, failed || e.Error?)
    ensures Credit(Step(a, true, c, e).trace) == Credit(c.trace) + Delivered([e])
    ensures Rank(c.state) <= Rank(Step(a, true, c, e).state)
  {
    assert rec + [] == rec;
    match e
    case Data(chunks, err) =>
      assert Flat(chunks) + [] == Flat(chunks);
      if err == Ok {
        DataKeeps(a, c, chunks, rec, ended, failed);
      }
    case Fin => FinKeeps(a, c, rec, ended, failed);
    case Sent(_) => IdleKeeps(a, c, rec, ended, failed);
    case Poll => IdleKeeps(a, c, rec, ended, failed);
    case Error =>
      if !ended {
        ClosesWeaken(c.trace, Some(rec));
      }
  }

  /** A connection only ever goes from Established to Closing to Closed. */
  function Rank(s: State): nat {
    match s case Listening => 0 case Established => 1 case Closing => 2 case Closed => 3
  }

  lemma {:induction false} RunKeeps(a: Answers, c: Conn, es: seq<Event>, rec: seq<byte>, ended: bool, failed: bool)
    requires Inv(c, rec, ended, failed) && Legal(a, true, c, es)
    ensures Inv(Run(a, true, c, es), rec + (if ended then [] else Received(es)),
                EndedBy(es, ended), FailedBy(es, failed))
    ensures Credit(Run(a, true, c, es).trace) == Credit(c.trace) + Delivered(es)
    ensures Rank(c.state) <= Rank(Run(a, true, c, es).state)
    decreases |es|
  {
    if es == [] {
      assert rec + [] == rec;
    } else {
      var e := es[0];
      var rec' := rec + if ended then [] else Received([e]);
      StepKeeps(a, c, e, rec, ended, failed);
      RunKeeps(a, Step(a, true, c, e), es[1..], rec', ended || e.Fin? || e.Error?, failed || e.Error?);
      ReceivedSplit(es);
      Assoc(rec, Received([e]), Received(es[1..]));
      assert rec' + [] == rec';
    }
  }

  lemma ReceivedSplit(es: seq<Event>)
    requires es != []
    ensures Received(es) == Received([es[0]]) + if es[0].Fin? || es[0].Error? then [] else Received(es[1..])
    ensures Delivered(es) == Delivered([es[0]]) + Delivered(es[1..])
  {
    assert [es[0]][1..] == [];
  }

  /** The echo is exact.  Whatever the stack answers and in whatever order the
      callbacks come, what was taken for transmission is a prefix of what
      arrived; until the stack reports an error, the rest of what arrived waits
      in the write buffer.  Every byte handed over is credited to the sender
      once, echoed or not. */
  lemma EchoExact(a: Answers, es: seq<Event>)
    requires Legal(a, true, ACCEPTING, es)
    ensures var c := Run(a, true, ACCEPTING, es);
      && Accepted(c.trace) <= Received(es)
      && ((forall e :: e in es ==> !e.Error?) ==> Accepted(c.trace) + Flat(c.queue) == Received(es))
      && (c.state != Closed ==> Accepted(c.trace) + Flat(c.queue) == Received(es))
      && c.pending == []
      && Credit(c.trace) == Delivered(es)
  {
    RunKeeps(a, ACCEPTING, es, [], false, false);
    assert [] + Received(es) == Received(es);
    FailedOnlyByError(es, false);
  }

  lemma {:induction false} FailedOnlyByError(es: seq<Event>, failed: bool)
    ensures FailedBy(es, failed) <==> failed || exists e :: e in es && e.Error?
    decreases |es|
  {
    if es != [] {
      FailedOnlyByError(es[1..], failed || es[0].Error?);
      assert es == [es[0]] + es[1..];
    }
  }

  /** A graceful close loses nothing: the connection is closed only after every
      byte that arrived was taken for transmission. */
  lemma ClosesDrained(a: Answers, es: seq<Event>, i: nat)
    requires Legal(a, true, ACCEPTING, es)
    requires i < |Run(a, true, ACCEPTING, es).trace| && Run(a, true, ACCEPTING, es).trace[i].Close?
    ensures Accepted(Run(a, true, ACCEPTING, es).trace[..i]) == Received(es)
  {
    RunKeeps(a, ACCEPTING, es, [], false, false);
    assert [] + Received(es) == Received(es);
    ClosesAfterAt(Run(a, true, ACCEPTING, es).trace, if EndedBy(es, false) then Some(Received(es)) else None, i);
  }

  /** Nothing is asked of the stack for a connection that is closed. */
  lemma {:induction false} ClosedIsQuiet(a: Answers, c: Conn, es: seq<Event>)
    requires c.state == Closed && c.queue == [] && Legal(a, true, c, es)
    ensures var d := Run(a, true, c, es);
      d.state == Closed && d.queue == [] && d.trace == c.trace && d.asked == c.asked
    decreases |es|
  {
    if es != [] {
      ClosedIsQuiet(a, Step(a, true, c, es[0]), es[1..]);
    }
  }

  // ---------- What a callback returns ----------

  /** The result that the callback for an event gives the stack. */
  function Result(e: Event): Err {
    if e.Data? then e.err else Ok
  }

  /** From `c` to `d` a call of `tcp_abort` was added. */
  predicate Aborted(c: Conn, d: Conn) {
    exists i :: |c.trace| <= i < |d.trace| && d.trace[i].Abort?
  }

  /** The stack demands the result `Abrt` exactly of callbacks that aborted their
      control block. */
  predicate Truthful(a: Answers, echo: bool, c: Conn, e: Event) {
    Result(e) == Abrt <==> Aborted(c, Step(a, echo, c, e))
  }

  /** The callback asks for the connection to be closed. */
  predicate Closes(c: Conn, e: Event) {
    c.queue == [] && (e.Fin? || ((e.Sent? || e.Poll?) && c.state == Closing))
  }

  lemma {:induction false} PumpOnlyWrites(a: Answers, c: Conn)
    ensures c.trace <= Pump(a, c).trace
    ensures forall i :: |c.trace| <= i < |Pump(a, c).trace| ==> !Pump(a, c).trace[i].Abort?
    decreases |c.queue|
  {
    if c.queue != [] && a(c.asked).sndbuf >= |c.queue[0]| {
      var room, x := Room(a(c.asked).sndbuf), Write(c.queue[0], a(c.asked + 1).write);
      if x.err == Ok {
        PumpOnlyWrites(a, c.(asked := c.asked + 2, trace := c.trace + [room] + [x], queue := c.queue[1..]));
      }
    }
  }

  /** Every callback only adds to the calls made. */
  lemma StepGrows(a: Answers, echo: bool, c: Conn, e: Event)
    ensures c.trace <= Step(a, echo, c, e).trace
    ensures Aborted(c, Step(a, echo, c, e))
      <==> Closes(c, e) && a(c.asked).close != Ok && a(c.asked).close != Mem
  {
    match e
    case Data(chunks, err) =>
      var d := c.(trace := c.trace + [Recved(U16(|Flat(chunks)|))], pending := c.pending + chunks);
      PumpOnlyWrites(a, d.(queue := d.queue + d.pending));
    case Fin => ClosingGrows(a, c.(state := Closing));
    case Sent(_) => ClosingGrows(a, c);
    case Poll => ClosingGrows(a, c);
    case Error =>
  }

  lemma ClosingGrows(a: Answers, c: Conn)
    ensures c.trace <= OnIdle(a, c).trace
    ensures Aborted(c, OnIdle(a, c))
      <==> Closes(c, Poll) && a(c.asked).close != Ok && a(c.asked).close != Mem
  {
    PumpOnlyWrites(a, c);
    if Closes(c, Poll) && a(c.asked).close != Ok && a(c.asked).close != Mem {
      assert OnIdle(a, c).trace[|c.trace| + 1].Abort?;
    }
  }

  /** A callback that aborts returns `Ok` all the same.  Its result is what the stack
      demands if and only if it does not close with an answer other than `Ok` and
      `Mem`, nor was handed `Abrt` along with data. */
  lemma TruthfulIff(a: Answers, echo: bool, c: Conn, e: Event)
    ensures Truthful(a, echo, c, e) <==>
      && !(Closes(c, e) && a(c.asked).close != Ok && a(c.asked).close != Mem)
      && !(e.Data? && e.err == Abrt)
  {
    StepGrows(a, echo, c, e);
  }

  /** The end of a stream whose close is answered otherwise is aborted and reported
      as `Ok`. */
  lemma AbortHidden(a: Answers)
    requires a(0).close == Other
    ensures Run(a, true, ACCEPTING, [Fin]).trace == [Close(Other), Abort(a(1).raises)]
    ensures Result(Fin) == Ok && !Truthful(a, true, ACCEPTING, Fin)
  {
    assert [Fin][1..] == [];
    assert [] + [Close(Other)] + [Abort(a(1).raises)] == [Close(Other), Abort(a(1).raises)];
    TruthfulIff(a, true, ACCEPTING, Fin);
  }

  /** A stack that always has room and memory. */
  ghost predicate Generous(a: Answers, c: Conn) {
    && (forall n, i :: 0 <= i < |c.queue| ==> a(n).sndbuf >= |c.queue[i]|)
    && (forall n :: a(n).write == Ok && a(n).close == Ok)
  }

  lemma {:induction false} GenerousPump(a: Answers, c: Conn)
    requires Generous(a, c)
    ensures Pump(a, c).queue == []
    decreases |c.queue|
  {
    if c.queue != [] {
      var room, x := Room(a(c.asked).sndbuf), Write(c.queue[0], a(c.asked + 1).write);
      GenerousPump(a, c.(asked := c.asked + 2, trace := c.trace + [room] + [x], queue := c.queue[1..]));
    }
  }

  /** A pending close gets through: two polls of a stack that has room send what
      is left and close. */
  lemma TwoPollsClose(a: Answers, c: Conn)
    requires c.state == Closing && Generous(a, c)
    ensures var d := Run(a, true, c, [Poll, Poll]);
      d.state == Closed && d.queue == [] && Accepted(d.trace) == Accepted(c.trace) + Flat(c.queue)
  {
    var d := OnIdle(a, c);
    assert [Poll, Poll][1..] == [Poll] && [Poll][1..] == [];
    assert Run(a, true, c, [Poll, Poll]) == Run(a, true, d, [Poll]) == OnIdle(a, d);
    Push(d.trace, Close(Ok), None);
    if c.queue == [] {
      assert Accepted(c.trace) + [] == Accepted(c.trace);
    } else {
      DrainedByPoll(a, c);
    }
  }

  lemma DrainedByPoll(a: Answers, c: Conn)
    requires Generous(a, c)
    ensures var d := WriteToTcp(a, c);
      d == c.(queue := [], trace := d.trace, asked := d.asked) && Accepted(d.trace) == Accepted(c.trace) + Flat(c.queue)
  {
    WriteMoves(a, c, None);
    GenerousPump(a, c);
    var d := WriteToTcp(a, c);
    assert Accepted(d.trace) + [] == Accepted(d.trace);
  }
}
