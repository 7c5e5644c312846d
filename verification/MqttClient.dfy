/** The receiving side of the MQTT client: the subscriptions, kept in a map sorted by
    topic, and the reassembly of payloads that arrive in fragments. */
module MqttClients {
  import opened Memory
  import opened Pbufs

  // ---------- The order of topics ----------

  /** A character of a C string. */
  newtype letter = x: int | 1 <= x < 0x100 witness 1

  type Topic = seq<letter>

  /** A topic pointer may be null. */
  type Key = Option<Topic>

  /** `strcmp`. */
  function StrCmp(s: Topic, t: Topic): int {
    if s == [] then (if t == [] then 0 else -(t[0] as int))
    else if t == [] then s[0] as int
    else if s[0] != t[0] then s[0] as int - t[0] as int
    else StrCmp(s[1..], t[1..])
  }

  /** The order of subscription keys: null first, then as strings. */
  predicate Less(a: Key, b: Key) {
    if a == b then false
    else if a == None then true
    else if b == None then false
    else StrCmp(a.value, b.value) < 0
  }

  lemma {:induction false} StrCmpSign(s: Topic, t: Topic)
    ensures (StrCmp(s, t) == 0 <==> s == t) && (StrCmp(s, t) < 0 <==> StrCmp(t, s) > 0)
  {
    if s != [] && t != [] {
      StrCmpSign(s[1..], t[1..]);
      assert s == [s[0]] + s[1..] && t == [t[0]] + t[1..];
    }
  }

  lemma {:induction false} StrCmpTransitive(s: Topic, t: Topic, u: Topic)
    requires StrCmp(s, t) < 0 && StrCmp(t, u) < 0
    ensures StrCmp(s, u) < 0
  {
    if s != [] && t != [] && u != [] && s[0] == t[0] == u[0] {
      StrCmpTransitive(s[1..], t[1..], u[1..]);
    }
  }

  /** The order is irreflexive and transitive, and two keys of which neither comes
      first are the same topic: a strict weak order with equality as equivalence. */
  lemma LessOrder(a: Key, b: Key, c: Key)
    ensures !Less(a, a)
    ensures Less(a, b) && Less(b, c) ==> Less(a, c)
    ensures !Less(a, b) && !Less(b, a) <==> a == b
    ensures Less(a, b) ==> !Less(b, a)
  {
    if a.Some? && b.Some? {
      StrCmpSign(a.value, b.value);
      StrCmpSign(b.value, a.value);
      if c.Some? && Less(a, b) && Less(b, c) {
        StrCmpTransitive(a.value, b.value, c.value);
        StrCmpSign(a.value, c.value);
      }
    }
  }

  /** `s` comes before `t`: they agree up to place `k`, where `s` ends or has the lower
      letter. */
  predicate FirstAt(s: Topic, t: Topic, k: nat) {
    k < |t| && k <= |s| && s[..k] == t[..k] && (k < |s| ==> s[k] < t[k])
  }

  lemma {:induction false} FirstAtCompares(s: Topic, t: Topic, k: nat)
    requires FirstAt(s, t, k)
    ensures StrCmp(s, t) < 0
  {
    if k > 0 {
      assert s[0] == s[..k][0] && t[0] == t[..k][0];
      assert s[1..][..k - 1] == s[..k][1..] && t[1..][..k - 1] == t[..k][1..];
      FirstAtCompares(s[1..], t[1..], k - 1);
    }
  }

  lemma {:induction false} ComparesFirstAt(s: Topic, t: Topic) returns (k: nat)
    requires StrCmp(s, t) < 0
    ensures FirstAt(s, t, k)
  {
    k := 0;
    if s != [] && s[0] == t[0] {
      var j := ComparesFirstAt(s[1..], t[1..]);
      k := j + 1;
      assert s[..k] == [s[0]] + s[1..][..j] && t[..k] == [t[0]] + t[1..][..j];
    }
  }

  /** The order is that of a dictionary, with null in front of everything. */
  lemma LessIff(a: Key, b: Key)
    ensures Less(a, b) <==> b.Some? && (a.None? || exists k :: FirstAt(a.value, b.value, k))
  {
    if a.Some? && b.Some? {
      StrCmpSign(a.value, b.value);
      if StrCmp(a.value, b.value) < 0 {
        var k := ComparesFirstAt(a.value, b.value);
      }
      forall k | FirstAt(a.value, b.value, k)
        ensures StrCmp(a.value, b.value) < 0
      {
        FirstAtCompares(a.value, b.value, k);
      }
    }
  }

  // ---------- Reassembly ----------

  /** A payload being received: the announced total, what of it is kept, whether
      more is expected, and the payloads handed to the application. */
  datatype Message = Message(capacity: nat, valid: bool, total: nat, active: bool, kept: seq<byte>,
                             payloads: seq<seq<byte>>)

  function Announce(m: Message, total: nat): Message {
    m.(total := total, active := true, kept := [])
  }

  function Take(m: Message, data: seq<byte>, last: bool): Message {
    if !m.active || |m.kept| > m.capacity then m
    else
      var size := Min(|data|, m.capacity - |m.kept|);
      var d := m.(kept := m.kept + data[..size]);
      if size != |data| || !last || |d.kept| != d.total then d
      else d.(active := false, payloads := if d.valid then d.payloads + [d.kept] else d.payloads)
  }

  /** The fragments of a message, the last one marked. */
  function TakeAll(m: Message, fragments: seq<seq<byte>>): Message
    decreases |fragments|
  {
    if fragments == [] then m
    else TakeAll(Take(m, fragments[0], |fragments| == 1), fragments[1..])
  }

  /** The first `cap` bytes. */
  function Prefix(s: seq<byte>, cap: nat): (r: seq<byte>)
    ensures |r| == Min(|s|, cap) && r <= s
  {
    s[..Min(|s|, cap)]
  }

  lemma PrefixMore(s: seq<byte>, t: seq<byte>, cap: nat)
    ensures Prefix(Prefix(s, cap) + t, cap) == Prefix(s + t, cap)
    ensures Prefix(s, cap) + t[..Min(|t|, cap - |Prefix(s, cap)|)] == Prefix(s + t, cap)
  {
  }

  /** A message is handed over at its last fragment. */
  predicate HandedOver(m: Message, before: nat, last: nat) {
    && m.valid
    && ((before <= m.capacity && before + last == m.total <= m.capacity)
        || (before > m.capacity && last == 0 && m.total == m.capacity))
  }

  lemma TakeLast(m: Message, s: seq<byte>, last: seq<byte>)
    requires m.active && m.kept == Prefix(s, m.capacity)
    ensures var r := Take(m, last, true);
      && r.kept == Prefix(s + last, m.capacity)
      && r.payloads == m.payloads + (if HandedOver(m, |s|, |last|) then [r.kept] else [])
      && (r.active <==> !HandedOver(m.(valid := true), |s|, |last|))
  {
    PrefixMore(s, last, m.capacity);
  }

  /** Whatever the fragments are, the buffer holds the first bytes of all of them
      together, as many as fit; and when the message is handed over, which happens
      at most once, that is what the application gets. */
  lemma {:induction false} TakeAllKeeps(m: Message, s: seq<byte>, fragments: seq<seq<byte>>)
    requires m.active && m.kept == Prefix(s, m.capacity) && fragments != []
    ensures var r := TakeAll(m, fragments);
      var last := fragments[|fragments| - 1];
      var before := s + Flat(fragments[..|fragments| - 1]);
      && r.kept == Prefix(s + Flat(fragments), m.capacity)
      && r.payloads == m.payloads + (if HandedOver(m, |before|, |last|) then [r.kept] else [])
      && (r.active <==> !HandedOver(m.(valid := true), |before|, |last|))
    decreases |fragments|
  {
    var n := |fragments|;
    if n == 1 {
      TakeLast(m, s, fragments[0]);
      assert fragments == [fragments[0]] && fragments[..0] == [] && s + [] == s;
      assert [fragments[0]][1..] == [] && Flat([fragments[0]]) == fragments[0] + [] == fragments[0];
    } else {
      PrefixMore(s, fragments[0], m.capacity);
      var d := Take(m, fragments[0], false);
      TakeAllKeeps(d, s + fragments[0], fragments[1..]);
      assert fragments[..n - 1][1..] == fragments[1..][..n - 2];
      FlatAfter(s, fragments);
      FlatAfter(s, fragments[..n - 1]);
      assert d == m.(kept := d.kept);
    }
  }

  /** The first fragments of a message, none of them the last. */
  function TakePart(m: Message, fragments: seq<seq<byte>>): Message
    decreases |fragments|
  {
    if fragments == [] then m else TakePart(Take(m, fragments[0], false), fragments[1..])
  }

  /** At any time before the last fragment the buffer holds exactly the first bytes
      of what arrived, as many as fit, and nothing was handed over. */
  lemma {:induction false} TakePartKeeps(m: Message, s: seq<byte>, fragments: seq<seq<byte>>)
    requires m.active && m.kept == Prefix(s, m.capacity)
    ensures TakePart(m, fragments) == m.(kept := Prefix(s + Flat(fragments), m.capacity))
    decreases |fragments|
  {
    if fragments == [] {
      assert s + [] == s;
    } else {
      PrefixMore(s, fragments[0], m.capacity);
      TakePartKeeps(Take(m, fragments[0], false), s + fragments[0], fragments[1..]);
      FlatAfter(s, fragments);
    }
  }

  lemma FlatAfter(s: seq<byte>, fragments: seq<seq<byte>>)
    requires fragments != []
    ensures s + fragments[0] + Flat(fragments[1..]) == s + Flat(fragments)
  {
  }

  /** A message whose fragments add up to the announced total is handed over, once
      and complete, exactly when it fits in the buffer. */
  lemma WholeMessage(m: Message, fragments: seq<seq<byte>>)
    requires fragments != []
    ensures var r := TakeAll(Announce(m, |Flat(fragments)|), fragments);
      && (r.payloads != m.payloads <==> m.valid && |Flat(fragments)| <= m.capacity)
      && (r.payloads != m.payloads ==> r.payloads == m.payloads + [Flat(fragments)])
  {
    var a := Announce(m, |Flat(fragments)|);
    var n := |fragments|;
    TakeAllKeeps(a, [], fragments);
    FlatAppend(fragments[..n - 1], [fragments[n - 1]]);
    assert fragments[..n - 1] + [fragments[n - 1]] == fragments;
    assert Flat([fragments[n - 1]]) == fragments[n - 1] + [];
    assert a.payloads + [] == a.payloads;
    assert |Flat(fragments)| <= m.capacity ==> Prefix(Flat(fragments), m.capacity) == Flat(fragments);
    assert [] + Flat(fragments) == Flat(fragments) && [] + Flat(fragments[..n - 1]) == Flat(fragments[..n - 1]);
  }

  /** Whatever total was announced, the application gets only payloads of exactly that
      many bytes, the first of what arrived; and it gets one if and only if there is a
      callback and the last fragment fits and makes up that number. */
  lemma OnlyAnnounced(m: Message, total: nat, fragments: seq<seq<byte>>)
    requires fragments != []
    ensures var r := TakeAll(Announce(m, total), fragments);
      var all, last := |Flat(fragments)|, |fragments[|fragments| - 1]|;
      && (r.payloads != m.payloads ==>
           total <= all && r.payloads == m.payloads + [Flat(fragments)[..total]])
      && (r.payloads != m.payloads <==>
           m.valid && if all <= m.capacity then all == total else last == 0 && total == m.capacity)
  {
    var a, n := Announce(m, total), |fragments|;
    TakeAllKeeps(a, [], fragments);
    FlatAppend(fragments[..n - 1], [fragments[n - 1]]);
    assert fragments[..n - 1] + [fragments[n - 1]] == fragments;
    assert Flat([fragments[n - 1]]) == fragments[n - 1] + [];
    assert a.payloads + [] == a.payloads;
    assert [] + Flat(fragments) == Flat(fragments) && [] + Flat(fragments[..n - 1]) == Flat(fragments[..n - 1]);
  }

  // ---------- Subscriptions ----------

  class Subscription {
    const topic: Key
    const buffer: array<byte>
    var size: nat
    var totalSize: nat
    var subscribed: bool
    var valid: bool                    // whether there is a callback
    ghost var payloads: seq<seq<byte>> // what the buffer held when it was run

    constructor (topic: Key, capacity: nat, valid: bool)
      ensures this.topic == topic && buffer.Length == capacity && fresh(buffer)
      ensures size == totalSize == 0 && !subscribed && this.valid == valid && payloads == []
    {
      this.topic, buffer, this.valid := topic, new byte[capacity], valid;
      size, totalSize, subscribed, payloads := 0, 0, false, [];
    }

    ghost function View(active: bool): Message
      requires size <= buffer.Length
      reads `size, `totalSize, `valid, `payloads, buffer
    {
      Message(buffer.Length, valid, totalSize, active, buffer[..size], payloads)
    }

    /** The application's callback. */
    method ReceivedPayload()
      requires size <= buffer.Length
      modifies `payloads
      ensures payloads == old(payloads) + [buffer[..size]]
    {
      payloads := payloads + [buffer[..size]];
    }
  }

  const MAX_SUBSCRIPTIONS := 4

  datatype Entry = Entry(key: Key, sub: Subscription)

  ghost predicate Before(s: seq<Entry>, i: nat, j: nat)
    requires i < |s| && j < |s|
  {
    Less(s[i].key, s[j].key)
  }

  ghost predicate Sorted(s: seq<Entry>) {
    forall i, j {:trigger Before(s, i, j)} :: 0 <= i < j < |s| ==> Before(s, i, j)
  }

  /** The subscription that was registered first for a topic. */
  ghost function FirstFor(subs: seq<Subscription>, key: Key): (s: Subscription?)
    ensures s != null ==> s in subs && s.topic == key
  {
    if subs == [] then null else
      var first := FirstFor(subs[..|subs| - 1], key);
      if first != null then first
      else if subs[|subs| - 1].topic == key then subs[|subs| - 1] else null
  }

  /** What the map holds for a topic. */
  ghost predicate Maps(s: seq<Entry>, key: Key, sub: Subscription?) {
    if sub == null then forall e :: e in s ==> e.key != key else Entry(key, sub) in s
  }

  /** The place of a key in a sorted map: behind every entry that comes before it. */
  method LowerBound(s: seq<Entry>, key: Key) returns (k: nat)
    requires Sorted(s)
    ensures k <= |s|
    ensures forall i :: 0 <= i < k ==> Less(s[i].key, key)
    ensures forall i :: k <= i < |s| ==> !Less(s[i].key, key)
  {
    k := 0;
    while k < |s| && Less(s[k].key, key)
      invariant k <= |s| && forall i :: 0 <= i < k ==> Less(s[i].key, key)
    {
      k := k + 1;
    }
    forall i | k < i < |s|
      ensures !Less(s[i].key, key)
    {
      assert Before(s, k, i);
      LessOrder(s[k].key, s[i].key, key);
    }
  }

  /** Finds the entry of a topic by comparisons alone. */
  method Find(s: seq<Entry>, key: Key) returns (sub: Subscription?)
    requires Sorted(s)
    ensures Maps(s, key, sub)
  {
    var k := LowerBound(s, key);
    if k < |s| && !Less(key, s[k].key) {
      LessOrder(s[k].key, key, key);
      return s[k].sub;
    }
    forall e | e in s
      ensures e.key != key
    {
      var i :| 0 <= i < |s| && s[i] == e;
      NotAt(s, k, key, i);
    }
    return null;
  }

  /** Adds an entry in its place unless the topic has one already. */
  method Emplace(s: seq<Entry>, key: Key, sub: Subscription) returns (r: seq<Entry>)
    requires Sorted(s)
    ensures Sorted(r)
    ensures if Maps(s, key, null) then |r| == |s| + 1 && forall e :: e in r <==> e in s || e == Entry(key, sub)
      else r == s
  {
    var k := LowerBound(s, key);
    if k < |s| && !Less(key, s[k].key) {
      LessOrder(s[k].key, key, key);
      return s;
    }
    assert Maps(s, key, null) by {
      forall e | e in s
        ensures e.key != key
      {
        var i :| 0 <= i < |s| && s[i] == e;
        NotAt(s, k, key, i);
      }
    }
    r := s[..k] + [Entry(key, sub)] + s[k..];
    assert s == s[..k] + s[k..];
    forall i, j | 0 <= i < j < |r|
      ensures Before(r, i, j)
    {
      if i != k && j != k {
        assert Before(s, if i < k then i else i - 1, if j < k then j else j - 1);
      } else if i == k {
        NotAt(s, k, key, j - 1);
      }
    }
  }

  /** An entry in front of the place of a key is less, one behind it greater. */
  lemma NotAt(s: seq<Entry>, k: nat, key: Key, i: nat)
    requires Sorted(s) && k <= |s| && i < |s|
    requires forall j :: 0 <= j < k ==> Less(s[j].key, key)
    requires k < |s| ==> Less(key, s[k].key)
    ensures if i < k then Less(s[i].key, key) else Less(key, s[i].key)
    ensures s[i].key != key
  {
    LessOrder(s[i].key, key, key);
    if k < i {
      assert Before(s, k, i);
      LessOrder(key, s[k].key, s[i].key);
      LessOrder(key, s[i].key, key);
    }
  }

  /** A sorted map has one entry for a topic. */
  lemma MapsOnce(s: seq<Entry>, key: Key, x: Subscription?, y: Subscription?)
    requires Sorted(s) && Maps(s, key, x) && Maps(s, key, y)
    ensures x == y
  {
    if x != null && y != null {
      var i :| 0 <= i < |s| && s[i] == Entry(key, x);
      var j :| 0 <= j < |s| && s[j] == Entry(key, y);
      if i < j {
        KeysDiffer(s, i, j);
      } else if j < i {
        KeysDiffer(s, j, i);
      }
    }
  }

  lemma KeysDiffer(s: seq<Entry>, i: nat, j: nat)
    requires Sorted(s) && i < j < |s|
    ensures s[i].key != s[j].key
  {
    assert Before(s, i, j);
  }

  /** Place `i` is the first that has the topic. */
  ghost predicate FirstIs(subs: seq<Subscription>, key: Key, i: nat) {
    i < |subs| && subs[i].topic == key && forall j :: 0 <= j < i ==> subs[j].topic != key
  }

  lemma FirstForMore(subs: seq<Subscription>, sub: Subscription, key: Key)
    ensures FirstFor(subs + [sub], key) ==
      if FirstFor(subs, key) == null && sub.topic == key then sub else FirstFor(subs, key)
  {
    assert (subs + [sub])[..|subs|] == subs;
  }

  lemma {:induction false} FirstForIs(subs: seq<Subscription>, key: Key)
    ensures FirstFor(subs, key) == null <==> forall s :: s in subs ==> s.topic != key
    ensures FirstFor(subs, key) != null ==> exists i: nat :: FirstIs(subs, key, i) && subs[i] == FirstFor(subs, key)
  {
    if subs != [] {
      var init := subs[..|subs| - 1];
      FirstForIs(init, key);
      assert subs == init + [subs[|subs| - 1]];
      if FirstFor(init, key) != null {
        var i: nat :| FirstIs(init, key, i) && init[i] == FirstFor(init, key);
        assert FirstIs(subs, key, i);
      } else if FirstFor(subs, key) != null {
        var i: nat := |subs| - 1;
        assert FirstIs(subs, key, i);
      }
    }
  }

  ghost function One(s: Subscription?): set<Subscription> {
    if s == null then {} else {s}
  }

  ghost function Store(s: Subscription?): set<array<byte>> {
    if s == null then {} else {s.buffer}
  }

  class MqttClient {
    var subscriptions: seq<Entry>
    var active: Subscription?
    ghost var registered: seq<Subscription>  // in the order they were accepted

    constructor ()
      ensures Valid() && subscriptions == [] && registered == [] && active == null
    {
      subscriptions, registered, active := [], [], null;
    }

    /** The map is sorted and holds, for every topic, the subscription that was
        registered first for it. */
    ghost predicate Indexed()
      reads `subscriptions, `registered
    {
      && Sorted(subscriptions) && |subscriptions| <= MAX_SUBSCRIPTIONS
      && forall key {:trigger FirstFor(registered, key)} :: Maps(subscriptions, key, FirstFor(registered, key))
    }

    ghost predicate Valid()
      reads `subscriptions, `registered, `active, registered`size
    {
      && Indexed() && (active != null ==> active in registered)
      && (forall s :: s in registered ==> s.size <= s.buffer.Length)
    }

    /** Accepts a subscription while the map has room, even when its topic is taken.
        `answer` is what the stack says to the request. */
    method RegisterSubscription(sub: Subscription, answer: Err) returns (accepted: bool)
      requires Valid() && sub.size <= sub.buffer.Length
      modifies `subscriptions, `registered, sub`subscribed
      ensures Valid() && accepted == (|old(subscriptions)| < MAX_SUBSCRIPTIONS)
      ensures registered == old(registered) + if accepted then [sub] else []
      ensures sub.subscribed == if accepted then answer == Ok else old(sub.subscribed)
    {
      if |subscriptions| == MAX_SUBSCRIPTIONS {
        assert registered + [] == registered;
        return false;
      }
      ghost var s := subscriptions;
      subscriptions := Emplace(subscriptions, sub.topic, sub);
      forall key
        ensures Maps(subscriptions, key, FirstFor(registered + [sub], key))
      {
        assert Maps(s, key, FirstFor(registered, key));
        FirstForMore(registered, sub, key);
      }
      registered := registered + [sub];
      sub.subscribed := answer == Ok;
      return true;
    }

    /** A message is announced: what follows goes to the subscription registered
        first for exactly this topic, if there is one. */
    method IncomingPublish(topic: Key, totalLength: nat)
      requires Valid()
      modifies `active, One(FirstFor(registered, topic))`size, One(FirstFor(registered, topic))`totalSize
      ensures Valid() && active == FirstFor(registered, topic)
      ensures active != null ==> active.View(true) == Announce(old(FirstFor(registered, topic).View(true)), totalLength)
    {
      assert Maps(subscriptions, topic, FirstFor(registered, topic));
      active := null;
      var it := Find(subscriptions, topic);
      MapsOnce(subscriptions, topic, it, FirstFor(registered, topic));
      FirstForIs(registered, topic);
      if it != null {
        active := it;
        active.size := 0;
        active.totalSize := totalLength;
      }
    }

    /** A whole message: announced, then delivered in fragments of which the last one
        is marked. */
    method Deliver(topic: Key, totalLength: nat, fragments: seq<seq<byte>>)
      requires Valid() && fragments != []
      modifies `active, One(FirstFor(registered, topic))`size, One(FirstFor(registered, topic))`totalSize
      modifies One(FirstFor(registered, topic))`payloads, Store(FirstFor(registered, topic))
      ensures Valid()
      ensures FirstFor(registered, topic) == null ==> active == null
      ensures FirstFor(registered, topic) != null ==>
        FirstFor(registered, topic).View(active == FirstFor(registered, topic))
          == TakeAll(Announce(old(FirstFor(registered, topic).View(true)), totalLength), fragments)
    {
      IncomingPublish(topic, totalLength);
      var rest := fragments;
      ghost var sub := active;
      while rest != []
        invariant Valid() && (active == null || active == sub)
        invariant sub != null ==> sub in registered
        invariant sub != null ==>
          TakeAll(sub.View(active == sub), rest)
            == TakeAll(Announce(old(FirstFor(registered, topic).View(true)), totalLength), fragments)
        decreases |rest|
      {
        IncomingData(rest[0], |rest| == 1);
        rest := rest[1..];
      }
    }

    /** A fragment of the announced message. */
    method IncomingData(data: seq<byte>, last: bool)
      requires Valid()
      modifies `active, One(active)`size, One(active)`payloads, Store(active)
      ensures Valid()
      ensures old(active) == null ==> active == null
      ensures old(active) != null ==>
        var sub: Subscription := old(active);
        && active == (if active == null then null else sub)
        && sub.View(active == sub) == Take(old(active.View(true)), data, last)
    {
      if active == null {
        return;
      }
      var bufSize := active.buffer.Length - active.size;
      var size := Min(|data|, bufSize);
      CopyN(data[..size], active.buffer, active.size);
      active.size := active.size + size;
      if size != |data| {
        return;
      }
      if last {
        if active.size != active.totalSize {
          return;
        }
        if active.valid {
          active.ReceivedPayload();
        }
        active := null;
      }
    }
  }
}
