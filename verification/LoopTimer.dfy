/** The software timer of the main loop, which compares 32-bit ticks, against ideal
    time that never wraps. */
module LoopTimers {
  type u32 = x: nat | x < 0x1_0000_0000

  /** The 32-bit tick at an ideal time. */
  function Tick(time: nat): u32 { time % 0x1_0000_0000 }

  function Epoch(time: nat): nat { time / 0x1_0000_0000 }

  /** The test of the timer. */
  predicate Fires(prev: u32, expiry: u32, tick: u32) {
    tick > (prev + expiry) % 0x1_0000_0000
  }

  predicate Late(now: nat, deadline: nat) {
    Epoch(now) > Epoch(deadline) && Tick(now) <= Tick(deadline)
  }

  predicate Early(now: nat, deadline: nat) {
    Epoch(now) < Epoch(deadline) && Tick(now) > Tick(deadline)
  }

  /** The timer fires when more than `expiry` has passed since `from`, except in two
      cases: late, when the time has gone into a later epoch than the deadline and
      its tick is not beyond the tick of the deadline; and early, when the deadline
      lies in a later epoch and the tick is beyond that of the deadline. */
  lemma FiresIff(from: nat, expiry: u32, now: nat)
    ensures (Fires(Tick(from), expiry, Tick(now)) <==> now - from > expiry)
      <==> !Late(now, from + expiry) && !Early(now, from + expiry)
  {
    assert (Tick(from) + expiry) % 0x1_0000_0000 == Tick(from + expiry);
  }

  /** Within one epoch it is exact. */
  lemma FiresExactly(from: nat, expiry: u32, now: nat)
    requires Epoch(now) == Epoch(from + expiry)
    ensures Fires(Tick(from), expiry, Tick(now)) <==> now - from > expiry
  {
    FiresIff(from, expiry, now);
  }

  /** The timer is stuck for good exactly when its deadline falls on the last tick of
      an epoch. */
  lemma Stuck(prev: u32, expiry: u32)
    ensures (forall now: nat :: !Fires(prev, expiry, Tick(now))) <==> (prev + expiry) % 0x1_0000_0000 == 0xFFFF_FFFF
  {
    assert Fires(prev, expiry, Tick(0xFFFF_FFFF)) <==> (prev + expiry) % 0x1_0000_0000 != 0xFFFF_FFFF;
  }

  /** The ideal times at which the timer fires when it is polled at the given times. */
  function Fired(from: nat, expiry: u32, polls: seq<nat>): seq<nat>
    decreases |polls|
  {
    if polls == [] then []
    else if Fires(Tick(from), expiry, Tick(polls[0])) then [polls[0]] + Fired(polls[0], expiry, polls[1..])
    else Fired(from, expiry, polls[1..])
  }

  /** The times at which a timer of ideal time fires: each poll that comes more than
      `expiry` after the firing before it. */
  function Due(from: nat, expiry: nat, polls: seq<nat>): seq<nat>
    decreases |polls|
  {
    if polls == [] then []
    else if polls[0] - from > expiry then [polls[0]] + Due(polls[0], expiry, polls[1..])
    else Due(from, expiry, polls[1..])
  }

  /** No poll is late or early against the deadline it is compared with. */
  predicate Punctual(from: nat, expiry: nat, polls: seq<nat>)
    decreases |polls|
  {
    polls == [] ||
    (!Late(polls[0], from + expiry) && !Early(polls[0], from + expiry)
     && Punctual(if polls[0] - from > expiry then polls[0] else from, expiry, polls[1..]))
  }

  /** Every decision of the timer is the one of ideal time. */
  predicate Right(from: nat, expiry: u32, polls: seq<nat>)
    decreases |polls|
  {
    polls == [] ||
    ((Fires(Tick(from), expiry, Tick(polls[0])) <==> polls[0] - from > expiry)
     && Right(if polls[0] - from > expiry then polls[0] else from, expiry, polls[1..]))
  }

  /** Over any polls, the timer decides as ideal time would, firing whenever it is due
      and only then, if and only if no poll is late or early. */
  lemma {:induction false} RightIff(from: nat, expiry: u32, polls: seq<nat>)
    ensures Right(from, expiry, polls) <==> Punctual(from, expiry, polls)
    ensures Punctual(from, expiry, polls) ==> Fired(from, expiry, polls) == Due(from, expiry, polls)
    decreases |polls|
  {
    if polls != [] {
      FiresIff(from, expiry, polls[0]);
      RightIff(if polls[0] - from > expiry then polls[0] else from, expiry, polls[1..]);
    }
  }

  /** Polls at most `g` apart, the first at most `g` after `last`. */
  predicate Regular(last: nat, g: nat, polls: seq<nat>)
    decreases |polls|
  {
    polls == [] || (last <= polls[0] <= last + g && Regular(polls[0], g, polls[1..]))
  }

  /** Each callback comes more than `expiry` and at most `expiry + g` after the one
      before it, and none is missing at `end`. */
  predicate Spaced(from: nat, expiry: nat, g: nat, fired: seq<nat>, end: nat)
    decreases |fired|
  {
    if fired == [] then end - from <= expiry
    else expiry < fired[0] - from <= expiry + g && Spaced(fired[0], expiry, g, fired[1..], end)
  }

  function Last(from: nat, polls: seq<nat>): nat {
    if polls == [] then from else polls[|polls| - 1]
  }

  /** As long as polls and deadlines stay in one epoch, polling at most `g` apart runs
      the callbacks at distances above `expiry` and at most `expiry + g`, up to the last
      poll. */
  lemma {:induction false} Gaps(from: nat, expiry: u32, last: nat, g: nat, polls: seq<nat>)
    requires from <= last <= from + expiry && Regular(last, g, polls)
    requires forall t :: t in polls ==> Epoch(t + expiry) == Epoch(t) == Epoch(from) == Epoch(from + expiry)
    ensures Spaced(from, expiry, g, Fired(from, expiry, polls), Last(last, polls))
    decreases |polls|
  {
    if polls != [] {
      var now := polls[0];
      assert now in polls;
      FiresExactly(from, expiry, now);
      assert forall t :: t in polls[1..] ==> t in polls;
      if Fires(Tick(from), expiry, Tick(now)) {
        Gaps(now, expiry, now, g, polls[1..]);
      } else {
        Gaps(from, expiry, now, g, polls[1..]);
      }
    }
  }

  class LoopTimer {
    var expiry: u32
    var prevTick: u32
    var calls: nat  // how often the callback ran

    constructor ()
      ensures expiry == prevTick == calls == 0
    {
      expiry, prevTick, calls := 0, 0, 0;
    }

    method SetExpiry(expiry: u32)
      modifies `expiry
      ensures this.expiry == expiry
    {
      this.expiry := expiry;
    }

    method Poll(tick: u32)
      modifies `prevTick, `calls
      ensures var fires := Fires(old(prevTick), expiry, tick);
        calls == old(calls) + (if fires then 1 else 0) && prevTick == if fires then tick else old(prevTick)
    {
      if tick > (prevTick + expiry) % 0x1_0000_0000 {
        prevTick := tick;
        calls := calls + 1;
      }
    }
  }

  /** Polls at the given ideal times and reports when the callback ran. */
  method PollAll(timer: LoopTimer, ghost from: nat, polls: seq<nat>) returns (fired: seq<nat>)
    requires timer.prevTick == Tick(from)
    modifies timer`prevTick, timer`calls
    ensures fired == Fired(from, timer.expiry, polls) && timer.calls == old(timer.calls) + |fired|
  {
    fired := [];
    var rest := polls;
    ghost var last := from;
    while rest != []
      invariant timer.prevTick == Tick(last) && timer.calls == old(timer.calls) + |fired|
      invariant fired + Fired(last, timer.expiry, rest) == Fired(from, timer.expiry, polls)
      decreases |rest|
    {
      var before := timer.calls;
      timer.Poll(Tick(rest[0]));
      if timer.calls != before {
        fired, last := fired + [rest[0]], rest[0];
      }
      rest := rest[1..];
    }
  }
}
