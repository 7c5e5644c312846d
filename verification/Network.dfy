/** The Ethernet link and the DHCP process of the network, two state machines that
    meet in lwIP's link callback. */
module Networks {
  /** What the PHY driver answers when asked for the state of the link. */
  datatype Status = Fine | ReadError | WriteError | AddressError | ResetTimeout | LinkIsDown | AutonegoNotDone
                  | FullDuplex100 | HalfDuplex100 | FullDuplex10 | HalfDuplex10

  datatype DhcpState = Off | Start | WaitAddress | AddressAssigned | Timeout | LinkDown

  /** What is done to the peripheral and the stack. */
  datatype Call = EthStart(full: bool, fast: bool) | EthStop | SetUp | SetDown | SetLinkUp | SetLinkDown
                | DhcpStart | DhcpTries(n: nat) | SetStatic

  const MAX_DHCP_TRIES := 2

  /** `linkUp` and `up` are flags of the interface, `started` tells that the
      peripheral runs, `hooked` that lwIP knows the link callback. */
  datatype Net = Net(useDhcp: bool, linkUp: bool, up: bool, started: bool, hooked: bool, dhcp: DhcpState,
                     trace: seq<Call>)

  // ---------- Steps ----------

  function Updated(n: Net): Net {
    n.(dhcp := if n.linkUp then Start else LinkDown)
  }

  function Hook(n: Net): Net {
    if n.hooked then Updated(n) else n
  }

  predicate Broken(s: Status) { s == LinkIsDown || s == ReadError }

  predicate Connected(s: Status) { s.FullDuplex100? || s.HalfDuplex100? || s.FullDuplex10? || s.HalfDuplex10? }

  /** `ethernet_link_check_state`. */
  function Check(n: Net, s: Status): Net {
    if n.linkUp && Broken(s) then
      Hook(n.(linkUp := false, up := false, started := false, trace := n.trace + [EthStop, SetDown, SetLinkDown]))
    else if !n.linkUp && Connected(s) then
      var full, fast := s.FullDuplex100? || s.FullDuplex10?, s.FullDuplex100? || s.HalfDuplex100?;
      Hook(n.(linkUp := true, up := true, started := true, trace := n.trace + [EthStart(full, fast), SetUp, SetLinkUp]))
    else n
  }

  /** `dhcpProcess`, when the stack has been supplied an address or has tried
      `tries` times. */
  function Process(n: Net, supplied: bool, tries: nat): Net {
    match n.dhcp
    case Start => n.(dhcp := WaitAddress, trace := n.trace + if n.useDhcp then [DhcpStart] else [])
    case WaitAddress =>
      if !n.useDhcp then n
      else if supplied then n.(dhcp := AddressAssigned)
      else if tries > MAX_DHCP_TRIES then n.(dhcp := Timeout, trace := n.trace + [DhcpTries(tries), SetStatic])
      else n.(trace := n.trace + [DhcpTries(tries)])
    case LinkDown => n.(dhcp := Off)
    case _ => n
  }

  /** Before `init`, and `init` itself: the link is checked while lwIP does not know
      the callback yet, which is then run once by hand. */
  function Fresh(useDhcp: bool): Net { Net(useDhcp, false, false, false, false, LinkDown, []) }

  function Initialised(useDhcp: bool, s: Status): Net {
    Updated(Check(Fresh(useDhcp), s)).(hooked := true)
  }

  datatype Event = LinkTimer(status: Status) | DhcpTimer(supplied: bool, tries: nat)

  function Step(n: Net, e: Event): Net {
    match e
    case LinkTimer(s) => Check(n, s)
    case DhcpTimer(supplied, tries) => Process(n, supplied, tries)
  }

  function Run(n: Net, es: seq<Event>): Net
    decreases |es|
  {
    if es == [] then n else Run(Step(n, es[0]), es[1..])
  }

  // ---------- The order of calls ----------

  /** What the calls so far say: the link is down or up, its address being asked for
      (with the number of tries last read) or set by hand. */
  datatype Phase = Idle | Linked | Asked(tries: nat) | Static | Wrong

  /** The only calls allowed in each phase. */
  function Follow(p: Phase, c: Call): Phase {
    match c
    case EthStart(_, _) => if p.Idle? then Linked else Wrong
    case EthStop => if p.Idle? || p.Wrong? then Wrong else Idle
    case DhcpStart => if p.Linked? then Asked(0) else Wrong
    case DhcpTries(n) => if p.Asked? then Asked(n) else Wrong
    case SetStatic => if p.Asked? && p.tries > MAX_DHCP_TRIES then Static else Wrong
    case SetUp => if p.Linked? then p else Wrong
    case SetLinkUp => if p.Linked? then p else Wrong
    case SetDown => if p.Idle? then p else Wrong
    case SetLinkDown => if p.Idle? then p else Wrong
  }

  function PhaseOf(t: seq<Call>): Phase {
    if t == [] then Idle else Follow(PhaseOf(t[..|t| - 1]), t[|t| - 1])
  }

  lemma {:induction false} PhaseAppend(t: seq<Call>, c: Call)
    ensures PhaseOf(t + [c]) == Follow(PhaseOf(t), c)
  {
    assert (t + [c])[..|t|] == t;
  }

  predicate Sought(d: DhcpState) { d.Start? || d.WaitAddress? || d.AddressAssigned? || d.Timeout? }

  /** The two machines agree with each other and with the calls made. */
  predicate Agree(n: Net) {
    && n.hooked && n.linkUp == n.up == n.started == Sought(n.dhcp)
    && match PhaseOf(n.trace)
       case Idle => !n.linkUp
       case Linked => n.dhcp.Start? || (!n.useDhcp && n.dhcp.WaitAddress?)
       case Asked(tries) => n.dhcp.WaitAddress? || n.dhcp.AddressAssigned?
       case Static => n.dhcp.Timeout?
       case Wrong => false
  }

  lemma PhaseTwo(t: seq<Call>, a: Call, b: Call)
    ensures PhaseOf(t + [a, b]) == Follow(Follow(PhaseOf(t), a), b)
  {
    PhaseAppend(t, a);
    PhaseAppend(t + [a], b);
    assert t + [a, b] == t + [a] + [b];
  }

  lemma PhaseThree(t: seq<Call>, a: Call, b: Call, c: Call)
    ensures PhaseOf(t + [a, b, c]) == Follow(Follow(Follow(PhaseOf(t), a), b), c)
  {
    PhaseTwo(t, a, b);
    PhaseAppend(t + [a, b], c);
    assert t + [a, b, c] == t + [a, b] + [c];
  }

  lemma StepAgrees(n: Net, e: Event)
    requires Agree(n)
    ensures Agree(Step(n, e)) && Step(n, e).useDhcp == n.useDhcp
  {
    match e
    case LinkTimer(s) =>
      if n.linkUp && Broken(s) {
        PhaseThree(n.trace, EthStop, SetDown, SetLinkDown);
      } else if !n.linkUp && Connected(s) {
        var full, fast := s.FullDuplex100? || s.FullDuplex10?, s.FullDuplex100? || s.HalfDuplex100?;
        PhaseThree(n.trace, EthStart(full, fast), SetUp, SetLinkUp);
      }
    case DhcpTimer(supplied, tries) =>
      if n.dhcp.Start? {
        assert n.trace + [] == n.trace;
        PhaseAppend(n.trace, DhcpStart);
      } else if n.dhcp.WaitAddress? {
        PhaseAppend(n.trace, DhcpTries(tries));
        PhaseTwo(n.trace, DhcpTries(tries), SetStatic);
      }
  }

  /** In every state after `init`, the DHCP process is active exactly when the link
      is up, which is exactly when the peripheral runs; and the calls made keep
      their order. */
  lemma {:induction false} RunAgrees(useDhcp: bool, s: Status, es: seq<Event>)
    ensures Agree(Run(Initialised(useDhcp, s), es)) && Run(Initialised(useDhcp, s), es).useDhcp == useDhcp
  {
    InitAgrees(useDhcp, s);
    RunKeeps(Initialised(useDhcp, s), es);
  }

  lemma InitAgrees(useDhcp: bool, s: Status)
    ensures Agree(Initialised(useDhcp, s))
  {
    var full, fast := s.FullDuplex100? || s.FullDuplex10?, s.FullDuplex100? || s.HalfDuplex100?;
    PhaseThree([], EthStart(full, fast), SetUp, SetLinkUp);
  }

  lemma {:induction false} RunKeeps(n: Net, es: seq<Event>)
    requires Agree(n)
    ensures Agree(Run(n, es)) && Run(n, es).useDhcp == n.useDhcp
    decreases |es|
  {
    if es != [] {
      StepAgrees(n, es[0]);
      RunKeeps(Step(n, es[0]), es[1..]);
    }
  }

  // ---------- What the order of calls means ----------

  /** No call was out of order before one that is not. */
  lemma {:induction false} NeverWrong(t: seq<Call>, i: nat)
    requires PhaseOf(t) != Wrong && i <= |t|
    ensures PhaseOf(t[..i]) != Wrong
    decreases |t|
  {
    if i < |t| {
      NeverWrong(t[..|t| - 1], i);
      assert t[..|t| - 1][..i] == t[..i];
    } else {
      assert t[..i] == t;
    }
  }

  /** Without a stop of the peripheral in between, an address once asked for is not
      asked for again. */
  lemma {:induction false} AskedOnce(t: seq<Call>, i: nat, j: nat)
    requires PhaseOf(t) != Wrong && i < j < |t| && t[i] == t[j] == DhcpStart
    ensures exists k :: i < k < j && t[k] == EthStop
  {
    NeverWrong(t, j + 1);
    assert t[..j + 1][..j] == t[..j];
    StillAsked(t, i, j);
  }

  lemma {:induction false} StillAsked(t: seq<Call>, i: nat, j: nat)
    requires i < j <= |t| && PhaseOf(t[..j]) != Wrong && t[i] == DhcpStart
    ensures PhaseOf(t[..j]).Asked? || PhaseOf(t[..j]).Static? || exists k :: i < k < j && t[k] == EthStop
    decreases j
  {
    assert t[..j][..j - 1] == t[..j - 1];
    NeverWrong(t[..j], j - 1);
    if i < j - 1 {
      StillAsked(t, i, j - 1);
    }
  }

  /** The tries are read only after the address was asked for on this link. */
  lemma {:induction false} TriesAfterStart(t: seq<Call>, j: nat)
    requires PhaseOf(t) != Wrong && j < |t| && t[j].DhcpTries?
    ensures exists i :: 0 <= i < j && t[i] == DhcpStart && forall k :: i < k < j ==> t[k] != EthStop
  {
    NeverWrong(t, j + 1);
    assert t[..j + 1][..j] == t[..j];
    AskedSince(t, j);
  }

  lemma {:induction false} AskedSince(t: seq<Call>, j: nat)
    requires j <= |t| && PhaseOf(t[..j]).Asked?
    ensures exists i :: 0 <= i < j && t[i] == DhcpStart && forall k :: i < k < j ==> t[k] != EthStop
    decreases j
  {
    if j > 0 {
      assert t[..j][..j - 1] == t[..j - 1];
      if t[j - 1] != DhcpStart {
        AskedSince(t, j - 1);
      }
    }
  }

  // ---------- The objects ----------

  class Network {
    const useDhcp: bool
    var linkUp: bool
    var up: bool
    var started: bool
    var linkCallback: bool
    var dhcpState: DhcpState
    ghost var trace: seq<Call>

    constructor (useDhcp: bool)
      ensures View() == Fresh(useDhcp)
    {
      this.useDhcp := useDhcp;
      linkUp, up, started, linkCallback, dhcpState, trace := false, false, false, false, LinkDown, [];
    }

    ghost function View(): Net
      reads this
    {
      Net(useDhcp, linkUp, up, started, linkCallback, dhcpState, trace)
    }

    method LinkStatusUpdated()
      modifies `dhcpState
      ensures View() == Updated(old(View()))
    {
      if linkUp {
        dhcpState := Start;
      } else {
        dhcpState := LinkDown;
      }
    }

    /** lwIP's change of the link flag, with its callback. */
    method NetifSetLink(isUp: bool)
      requires linkUp != isUp
      modifies `linkUp, `dhcpState, `trace
      ensures View() ==
        Hook(old(View()).(linkUp := isUp, trace := old(trace) + [if isUp then SetLinkUp else SetLinkDown]))
    {
      linkUp := isUp;
      trace := trace + [if isUp then SetLinkUp else SetLinkDown];
      if linkCallback {
        LinkStatusUpdated();
      }
    }

    method EthernetLinkCheckState(status: Status)
      modifies this
      ensures View() == Check(old(View()), status)
    {
      var linkStatusDown := status == LinkIsDown || status == ReadError;
      if linkUp && linkStatusDown {
        started, up := false, false;
        trace := trace + [EthStop] + [SetDown];
        NetifSetLink(false);
        assert trace == old(trace) + [EthStop, SetDown, SetLinkDown];
      } else if !linkUp && !linkStatusDown {
        var linkChanged, full, fast := false, false, false;
        match status {
          case FullDuplex100 => full, fast, linkChanged := true, true, true;
          case HalfDuplex100 => full, fast, linkChanged := false, true, true;
          case FullDuplex10 => full, fast, linkChanged := true, false, true;
          case HalfDuplex10 => full, fast, linkChanged := false, false, true;
          case _ =>
        }
        if linkChanged {
          started, up := true, true;
          trace := trace + [EthStart(full, fast)] + [SetUp];
          NetifSetLink(true);
          assert trace == old(trace) + [EthStart(full, fast), SetUp, SetLinkUp];
        }
      }
    }

    method Init(status: Status)
      requires View() == Fresh(useDhcp)
      modifies this
      ensures View() == Initialised(useDhcp, status)
    {
      EthernetLinkCheckState(status);
      LinkStatusUpdated();
      linkCallback := true;
    }

    method DhcpProcess(supplied: bool, tries: nat)
      modifies `dhcpState, `trace
      ensures View() == Process(old(View()), supplied, tries)
    {
      match dhcpState {
        case Start =>
          DhcpStart();
          dhcpState := WaitAddress;
        case WaitAddress =>
          if useDhcp && supplied {
            dhcpState := AddressAssigned;
          } else {
            var n := DhcpTries(tries);
            if n > MAX_DHCP_TRIES {
              dhcpState := Timeout;
              trace := trace + [SetStatic];
            }
          }
        case LinkDown => dhcpState := Off;
        case _ =>
      }
    }

    method DhcpStart()
      modifies `trace
      ensures trace == old(trace) + if useDhcp then [Call.DhcpStart] else []
    {
      if useDhcp {
        trace := trace + [Call.DhcpStart];
      }
    }

    /** Without DHCP the interface reports no tries. */
    method DhcpTries(tries: nat) returns (n: nat)
      modifies `trace
      ensures n == if useDhcp then tries else 0
      ensures trace == old(trace) + if useDhcp then [Call.DhcpTries(tries)] else []
    {
      n := 0;
      if useDhcp {
        trace := trace + [Call.DhcpTries(tries)];
        n := tries;
      }
    }

    /** The network in any run of its two timers. */
    method Serve(status: Status, es: seq<Event>)
      requires View() == Fresh(useDhcp)
      modifies this
      ensures View() == Run(Initialised(useDhcp, status), es) && Agree(View())
    {
      Init(status);
      var rest := es;
      while rest != []
        invariant Run(View(), rest) == Run(Initialised(useDhcp, status), es)
        decreases |rest|
      {
        match rest[0] {
          case LinkTimer(s) => EthernetLinkCheckState(s);
          case DhcpTimer(supplied, tries) => DhcpProcess(supplied, tries);
        }
        rest := rest[1..];
      }
      RunAgrees(useDhcp, status, es);
    }
  }
}
