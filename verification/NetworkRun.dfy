/** What the network does in every run, told from the events alone: when the link is up
    and in which mode, and how an address is sought while it is. */
module NetworkRuns {
  import opened Networks
  import opened Pbufs

  // ---------- The link ----------

  /** The mode that a configuration of the peripheral stands for. */
  function Mode(full: bool, fast: bool): Status {
    match (full, fast)
    case (true, true) => FullDuplex100
    case (false, true) => HalfDuplex100
    case (true, false) => FullDuplex10
    case (false, false) => HalfDuplex10
  }

  /** The mode in which the link is up, if it is, after one more check: the first of
      the four modes reported brings it up, and then it stays in that mode until it is
      reported down or cannot be read. */
  function Seen(link: Option<Status>, s: Status): Option<Status> {
    match s
    case FullDuplex100 => if link == None then Some(s) else link
    case HalfDuplex100 => if link == None then Some(s) else link
    case FullDuplex10 => if link == None then Some(s) else link
    case HalfDuplex10 => if link == None then Some(s) else link
    case LinkIsDown => None
    case ReadError => None
    case _ => link
  }

  function SeenAll(link: Option<Status>, es: seq<Event>): Option<Status>
    decreases |es|
  {
    if es == [] then link
    else SeenAll(if es[0].LinkTimer? then Seen(link, es[0].status) else link, es[1..])
  }

  /** What the calls say about the link: the mode last programmed, and what was last
      done to peripheral, interface and link. */
  datatype Calls = Calls(mode: Option<Status>, up: bool, linkUp: bool)

  function Reported(t: seq<Call>): Calls {
    if t == [] then Calls(None, false, false)
    else
      var r := Reported(t[..|t| - 1]);
      match t[|t| - 1]
      case EthStart(full, fast) => r.(mode := Some(Mode(full, fast)))
      case EthStop => r.(mode := None)
      case SetUp => r.(up := true)
      case SetDown => r.(up := false)
      case SetLinkUp => r.(linkUp := true)
      case SetLinkDown => r.(linkUp := false)
      case _ => r
  }

  lemma ReportedMore(t: seq<Call>, c: Call)
    ensures Reported(t + [c]) ==
      match c
      case EthStart(full, fast) => Reported(t).(mode := Some(Mode(full, fast)))
      case EthStop => Reported(t).(mode := None)
      case SetUp => Reported(t).(up := true)
      case SetDown => Reported(t).(up := false)
      case SetLinkUp => Reported(t).(linkUp := true)
      case SetLinkDown => Reported(t).(linkUp := false)
      case _ => Reported(t)
  {
    assert (t + [c])[..|t|] == t;
  }

  /** Flags and calls are those of the link. */
  predicate Shows(n: Net, link: Option<Status>) {
    && n.linkUp == n.up == n.started == link.Some?
    && Reported(n.trace) == Calls(link, link.Some?, link.Some?)
  }

  lemma GoingDown(t: seq<Call>)
    ensures Reported(t + [EthStop, SetDown, SetLinkDown]) == Calls(None, false, false)
  {
    ReportedMore(t, EthStop);
    ReportedMore(t + [EthStop], SetDown);
    ReportedMore(t + [EthStop] + [SetDown], SetLinkDown);
    assert t + [EthStop, SetDown, SetLinkDown] == t + [EthStop] + [SetDown] + [SetLinkDown];
  }

  lemma GoingUp(t: seq<Call>, full: bool, fast: bool)
    ensures Reported(t + [EthStart(full, fast), SetUp, SetLinkUp]) == Calls(Some(Mode(full, fast)), true, true)
  {
    hide Mode;
    var start := EthStart(full, fast);
    ReportedMore(t, start);
    ReportedMore(t + [start], SetUp);
    ReportedMore(t + [start] + [SetUp], SetLinkUp);
    assert t + [start, SetUp, SetLinkUp] == t + [start] + [SetUp] + [SetLinkUp];
  }

  lemma CheckShows(n: Net, s: Status, link: Option<Status>)
    requires Shows(n, link)
    ensures Shows(Check(n, s), Seen(link, s))
  {
    hide Reported;
    match s
    case FullDuplex100 => GoingUp(n.trace, true, true);
    case HalfDuplex100 => GoingUp(n.trace, false, true);
    case FullDuplex10 => GoingUp(n.trace, true, false);
    case HalfDuplex10 => GoingUp(n.trace, false, false);
    case LinkIsDown => GoingDown(n.trace);
    case ReadError => GoingDown(n.trace);
    case _ =>
  }

  lemma ProcessShows(n: Net, supplied: bool, tries: nat, link: Option<Status>)
    requires Shows(n, link)
    ensures Shows(Process(n, supplied, tries), link)
  {
    hide Reported;
    ReportedMore(n.trace, DhcpStart);
    ReportedMore(n.trace, DhcpTries(tries));
    ReportedMore(n.trace + [DhcpTries(tries)], SetStatic);
    assert n.trace + [DhcpTries(tries), SetStatic] == n.trace + [DhcpTries(tries)] + [SetStatic];
    assert n.trace + [] == n.trace;
  }

  lemma {:induction false} RunShows(n: Net, es: seq<Event>, link: Option<Status>)
    requires Shows(n, link)
    ensures Shows(Run(n, es), SeenAll(link, es))
    decreases |es|
  {
    if es != [] {
      match es[0] {
        case LinkTimer(s) => CheckShows(n, s, link);
        case DhcpTimer(supplied, tries) => ProcessShows(n, supplied, tries, link);
      }
      RunShows(Step(n, es[0]), es[1..], if es[0].LinkTimer? then Seen(link, es[0].status) else link);
    }
  }

  /** In every run, interface, link and peripheral are up exactly while the reports of
      the PHY say so, and the peripheral runs in the mode that the report named which
      brought the link up. */
  lemma LinkIs(useDhcp: bool, s: Status, es: seq<Event>)
    ensures Shows(Run(Initialised(useDhcp, s), es), SeenAll(Seen(None, s), es))
  {
    CheckShows(Fresh(useDhcp), s, None);
    RunShows(Initialised(useDhcp, s), es, Seen(None, s));
  }

  // ---------- The address ----------

  /** No report takes the link down. */
  predicate Steady(es: seq<Event>) {
    forall e :: e in es && e.LinkTimer? ==> e.status != LinkIsDown && e.status != ReadError
  }

  datatype Reading = Reading(supplied: bool, tries: nat)

  /** What the DHCP process finds, each time it runs. */
  function Readings(es: seq<Event>): seq<Reading> {
    if es == [] then []
    else (if es[0].DhcpTimer? then [Reading(es[0].supplied, es[0].tries)] else []) + Readings(es[1..])
  }

  /** The number of readings in front of the first that settles the matter: an address
      was supplied, or it was tried more than twice. */
  function Unsettled(rs: seq<Reading>): (k: nat)
    ensures k <= |rs| && (forall i :: 0 <= i < k ==> !rs[i].supplied && rs[i].tries <= 2)
    ensures k < |rs| ==> rs[k].supplied || rs[k].tries > 2
  {
    if rs == [] || rs[0].supplied || rs[0].tries > 2 then 0 else 1 + Unsettled(rs[1..])
  }

  function Asks(rs: seq<Reading>): seq<Call> {
    if rs == [] then [] else [DhcpTries(rs[0].tries)] + Asks(rs[1..])
  }

  /** How the wait for an address ends. */
  function Waited(rs: seq<Reading>): (DhcpState, seq<Call>) {
    var k := Unsettled(rs);
    if k == |rs| then (WaitAddress, Asks(rs))
    else if rs[k].supplied then (AddressAssigned, Asks(rs[..k]))
    else (Timeout, Asks(rs[..k]) + [DhcpTries(rs[k].tries), SetStatic])
  }

  /** How the search for an address stands after the given readings, and the calls
      that were made for it: it begins with the first of them. */
  function Search(useDhcp: bool, rs: seq<Reading>): (DhcpState, seq<Call>) {
    if rs == [] then (Start, [])
    else if !useDhcp then (WaitAddress, [])
    else (Waited(rs[1..]).0, [DhcpStart] + Waited(rs[1..]).1)
  }

  /** The DHCP process alone. */
  function Reads(n: Net, rs: seq<Reading>): Net
    decreases |rs|
  {
    if rs == [] then n else Reads(Process(n, rs[0].supplied, rs[0].tries), rs[1..])
  }

  /** While the link stays up, only the DHCP process does anything. */
  lemma {:induction false} SteadyReads(n: Net, es: seq<Event>)
    requires n.linkUp && Steady(es)
    ensures Run(n, es) == Reads(n, Readings(es))
    decreases |es|
  {
    if es != [] {
      assert es[0] in es;
      SteadyReads(Step(n, es[0]), es[1..]);
      if es[0].DhcpTimer? {
        var rs := Readings(es);
        assert rs[0] == Reading(es[0].supplied, es[0].tries) && rs[1..] == Readings(es[1..]);
      } else {
        assert [] + Readings(es[1..]) == Readings(es[1..]);
      }
    }
  }

  /** A search that is over, or was never begun, stays as it is. */
  lemma {:induction false} NoMore(n: Net, rs: seq<Reading>)
    requires n.dhcp.AddressAssigned? || n.dhcp.Timeout? || n.dhcp.Off? || (n.dhcp.WaitAddress? && !n.useDhcp)
    ensures Reads(n, rs) == n
    decreases |rs|
  {
    if rs != [] {
      NoMore(n, rs[1..]);
    }
  }

  lemma {:induction false} Waits(n: Net, rs: seq<Reading>)
    requires n.dhcp.WaitAddress? && n.useDhcp
    ensures Reads(n, rs) == n.(dhcp := Waited(rs).0, trace := n.trace + Waited(rs).1)
    decreases |rs|
  {
    assert n.trace + [] == n.trace;
    if rs != [] {
      var m := Process(n, rs[0].supplied, rs[0].tries);
      if Unsettled(rs) == 0 {
        NoMore(m, rs[1..]);
        assert Asks(rs[..0]) == [] && [] + [DhcpTries(rs[0].tries), SetStatic] == [DhcpTries(rs[0].tries), SetStatic];
      } else {
        Waits(m, rs[1..]);
        AsksMore(rs, Unsettled(rs));
        assert rs[1..][..Unsettled(rs) - 1] == rs[1..Unsettled(rs)];
        Assoc(n.trace, [DhcpTries(rs[0].tries)], Waited(rs[1..]).1);
        assert Waited(rs).1 == [DhcpTries(rs[0].tries)] + Waited(rs[1..]).1;
      }
    }
  }

  lemma AsksMore(rs: seq<Reading>, k: nat)
    requires 0 < k <= |rs|
    ensures Asks(rs[..k]) == [DhcpTries(rs[0].tries)] + Asks(rs[1..k])
  {
    assert rs[..k][1..] == rs[1..k];
  }

  /** From the moment the link is up until it is taken down, the calls and the state of
      the DHCP process are those of the search: the address is asked for at the first
      reading, awaited until it was supplied or tried more than twice, and then taken
      or set by hand. */
  lemma Searches(n: Net, es: seq<Event>)
    requires n.linkUp && n.dhcp.Start? && Steady(es)
    ensures var s := Search(n.useDhcp, Readings(es)); Run(n, es) == n.(dhcp := s.0, trace := n.trace + s.1)
  {
    var rs := Readings(es);
    SteadyReads(n, es);
    assert n.trace + [] == n.trace;
    if rs != [] {
      var m := Process(n, rs[0].supplied, rs[0].tries);
      if n.useDhcp {
        Waits(m, rs[1..]);
        Assoc(n.trace, [DhcpStart], Waited(rs[1..]).1);
      } else {
        NoMore(m, rs[1..]);
      }
    }
  }

  lemma {:induction false} RunAppend(n: Net, es: seq<Event>, fs: seq<Event>)
    ensures Run(n, es + fs) == Run(Run(n, es), fs)
    decreases |es|
  {
    if es == [] {
      assert es + fs == fs;
    } else {
      RunAppend(Step(n, es[0]), es[1..], fs);
      assert (es + fs)[1..] == es[1..] + fs;
    }
  }

  /** Whenever in a run the link comes up in mode `s`, the peripheral is started in that
      mode, interface and link are set up, and an address is sought, until the link is
      taken down. */
  lemma AddressSought(useDhcp: bool, first: Status, es: seq<Event>, s: Status, later: seq<Event>)
    requires SeenAll(Seen(None, first), es) == None && Seen(None, s).Some? && Steady(later)
    ensures var start := Initialised(useDhcp, first);
      var n, r := Run(start, es), Run(start, es + [LinkTimer(s)] + later);
      var search := Search(useDhcp, Readings(later));
      && r.dhcp == search.0
      && exists full, fast :: Mode(full, fast) == s
           && r.trace == n.trace + [EthStart(full, fast), SetUp, SetLinkUp] + search.1
  {
    var start := Initialised(useDhcp, first);
    var n := Run(start, es);
    RunAgrees(useDhcp, first, es);
    LinkIs(useDhcp, first, es);
    RunAppend(start, es + [LinkTimer(s)], later);
    RunAppend(start, es, [LinkTimer(s)]);
    assert [LinkTimer(s)][1..] == [];
    var up := Check(n, s);
    Searches(up, later);
    UpIn(n, s);
  }

  lemma UpIn(n: Net, s: Status)
    requires !n.linkUp && Seen(None, s).Some?
    ensures exists full, fast ::
      Mode(full, fast) == s && Check(n, s).trace == n.trace + [EthStart(full, fast), SetUp, SetLinkUp]
  {
    var full, fast := s.FullDuplex100? || s.FullDuplex10?, s.FullDuplex100? || s.HalfDuplex100?;
    assert Mode(full, fast) == s;
  }

  /** The same when the link is up at the start. */
  lemma AddressAtStart(useDhcp: bool, s: Status, later: seq<Event>)
    requires Seen(None, s).Some? && Steady(later)
    ensures var n, r := Initialised(useDhcp, s), Run(Initialised(useDhcp, s), later);
      r.dhcp == Search(useDhcp, Readings(later)).0 && r.trace == n.trace + Search(useDhcp, Readings(later)).1
  {
    Searches(Initialised(useDhcp, s), later);
  }

  /** No report brings the link up. */
  predicate Dark(es: seq<Event>) {
    forall e :: e in es && e.LinkTimer? ==> Seen(None, e.status) == None
  }

  /** While the link stays down nothing is called; the first time the DHCP process runs,
      it turns itself off. */
  lemma {:induction false} StaysDown(n: Net, es: seq<Event>)
    requires !n.linkUp && (n.dhcp.LinkDown? || n.dhcp.Off?) && Dark(es)
    ensures Run(n, es) == n.(dhcp := if Readings(es) == [] then n.dhcp else Off)
    decreases |es|
  {
    if es != [] {
      assert es[0] in es;
      StaysDown(Step(n, es[0]), es[1..]);
    }
  }
}
