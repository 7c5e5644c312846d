/** The receive pool, the hardware and the stack together, in any order: buffers are
    handed to the hardware, filled and linked, frames are delivered, and the stack
    takes and drops references on any of their buffers. */
module EthernetRxRun {
  import opened Pbufs
  import opened EthernetRxs

  /** Buffers linked one behind the other, what was received in each, and the
      references that are held on each, not counting that of the one before it. */
  datatype Linking = Linking(bufs: seq<Pbuf>, data: seq<seq<byte>>, refs: seq<nat>)

  type Frame = f: Linking | |f.data| == |f.refs| == |f.bufs| witness Linking([], [], [])

  const EMPTY: Frame := Linking([], [], [])

  /** Where the buffers are: in the pool, with the hardware, in the frame being
      received, or in a frame that the stack has. */
  datatype World = World(available: bool, pool: seq<Pbuf>, hw: seq<Pbuf>, partial: Frame, frames: set<Frame>)

  datatype Action =
    | Allocate
    | Link(j: nat, data: seq<byte>)
    | Deliver
    | Take(f: Frame, i: nat)
    | LetGo(f: Frame, i: nat)

  /** The hardware fills any buffer it has, and none beyond its size; the stack drops
      references that it has, and counts of 8 bits do not overflow. */
  predicate Enabled(w: World, a: Action) {
    match a
    case Allocate => true
    case Link(j, data) => j < |w.hw| && |data| <= RX_BUFFER_SIZE
    case Deliver => w.partial.bufs != []
    case Take(f, i) => f in w.frames && i < |f.refs| && f.refs[i] + (if i == 0 then 0 else 1) < 0xFF
    case LetGo(f, i) => f in w.frames && i < |f.refs| && f.refs[i] > 0
  }

  /** The pool after the buffers `s` came back, one after the other. */
  function Back(s: seq<Pbuf>, pool: seq<Pbuf>): (r: seq<Pbuf>)
    ensures |r| == |s| + |pool|
  {
    if s == [] then pool else Back(s[1..], [s[0]] + pool)
  }

  /** The number of buffers in front of the first one that is held. */
  function Leading(refs: seq<nat>): (k: nat)
    ensures k <= |refs| && (forall i :: 0 <= i < k ==> refs[i] == 0) && (k < |refs| ==> refs[k] > 0)
  {
    if refs == [] || refs[0] > 0 then 0 else 1 + Leading(refs[1..])
  }

  function Count(f: Frame, i: nat, n: nat): Frame
    requires i < |f.refs|
  {
    f.(refs := f.refs[i := n])
  }

  function Drop(f: Frame, k: nat): Frame
    requires k <= |f.bufs|
  {
    Linking(f.bufs[k..], f.data[k..], f.refs[k..])
  }

  /** The references on buffer `i` of a frame are `n` now; what is left of the frame is
      the part from its first held buffer on. */
  function Recount(w: World, f: Frame, i: nat, n: nat): World
    requires i < |f.refs|
  {
    var g := Count(f, i, n);
    var k := Leading(g.refs);
    w.(frames := w.frames - {f} + if k < |f.refs| then {Drop(g, k)} else {})
  }

  function Act(w: World, a: Action): World
    requires Enabled(w, a)
  {
    match a
    case Allocate =>
      if w.pool == [] then w.(available := false) else w.(pool := w.pool[1..], hw := w.hw + [w.pool[0]])
    case Link(j, data) =>
      var ref := if w.partial.bufs == [] then 1 else 0;
      w.(hw := w.hw[..j] + w.hw[j + 1..],
         partial := Linking(w.partial.bufs + [w.hw[j]], w.partial.data + [data], w.partial.refs + [ref]))
    case Deliver => w.(frames := w.frames + {w.partial}, partial := EMPTY)
    case Take(f, i) => Recount(w, f, i, f.refs[i] + 1)
    case LetGo(f, i) =>
      var k := Leading(Count(f, i, f.refs[i] - 1).refs);
      Recount(w, f, i, f.refs[i] - 1).(available := w.available || k > 0, pool := Back(f.bufs[..k], w.pool))
  }

  predicate Legal(w: World, acts: seq<Action>)
    decreases |acts|
  {
    acts == [] || (Enabled(w, acts[0]) && Legal(Act(w, acts[0]), acts[1..]))
  }

  function ActAll(w: World, acts: seq<Action>): World
    requires Legal(w, acts)
    decreases |acts|
  {
    if acts == [] then w else ActAll(Act(w, acts[0]), acts[1..])
  }

  // ---------- The objects follow ----------

  function All(w: World): set<Frame> { w.frames + {w.partial} }

  ghost function Used(fs: set<Frame>): set<Pbuf> {
    set f, p | f in fs && p in f.bufs :: p
  }

  /** Frames share no buffer, and the first buffer of each is held. */
  ghost predicate NoneShared(fs: set<Frame>) {
    && (forall f :: f in fs && f.bufs != [] ==> f.refs[0] > 0)
    && (forall f, g :: f in fs && g in fs && f != g ==> Separate(f.bufs, g.bufs))
  }

  /** A frame is a chain of its buffers in the order in which they were linked, each
      with what was received in it and the total from there on. */
  ghost predicate Sound(f: Frame)
    reads f.bufs`next, f.bufs`len, f.bufs`totLen
  {
    && Chain(First(f.bufs), f.bufs) && Totals(f.bufs)
    && forall i :: 0 <= i < |f.bufs| ==> f.bufs[i].len == |f.data[i]| <= RX_BUFFER_SIZE
  }

  /** The buffers of a frame are held as often as it says. */
  ghost predicate Held(outside: multiset<Pbuf>, f: Frame) {
    forall i :: 0 <= i < |f.bufs| ==> outside[f.bufs[i]] == f.refs[i]
  }

  ghost predicate Framed(outside: multiset<Pbuf>, fs: set<Frame>)
    reads Used(fs)`next, Used(fs)`len, Used(fs)`totLen
  {
    && NoneShared(fs)
    && forall f :: f in fs ==> (assert Elems(f.bufs) <= Used(fs); Held(outside, f) && Sound(f))
  }

  /** The stack has no empty frame, and none that is still being received. */
  ghost predicate Whole(w: World) {
    w.partial !in w.frames && forall f :: f in w.frames ==> f.bufs != []
  }

  ghost predicate Follows(e: EthernetRx, w: World)
    reads e, e.live`next, e.live`ref, e.live`freed, e.hw`ref, e.hw`freed
    reads Used(All(w))`next, Used(All(w))`len, Used(All(w))`totLen
  {
    && e.Valid() && e.available == w.available && e.pool == w.pool
    && Distinct(w.hw) && Elems(w.hw) == e.hw
    && e.live == Used(All(w)) <= e.buffers && Framed(e.outside, All(w)) && Whole(w)
  }

  /** Every buffer of the pool is in exactly one place, and in at most one frame. */
  lemma OnePlace(e: EthernetRx, w: World, b: Pbuf)
    requires Follows(e, w) && b in e.buffers
    ensures b in w.pool || b in w.hw || b in Used(All(w))
    ensures !(b in w.pool && b in w.hw)
    ensures !(b in w.pool && b in Used(All(w))) && !(b in w.hw && b in Used(All(w)))
    ensures forall f, g :: f in All(w) && g in All(w) && b in f.bufs && b in g.bufs ==> f == g
  {
    hide Sound, Held, Heap;
    assert b in Elems(w.pool) <==> b in w.pool;
    assert b in Elems(w.hw) <==> b in w.hw;
  }

  /** No buffer is lost. */
  lemma NoneLost(e: EthernetRx, w: World)
    requires Follows(e, w)
    ensures |w.pool| + |w.hw| + |Used(All(w))| == RX_BUFFER_COUNT
  {
    hide Framed, Heap, Used;
    ElemsCount(w.pool);
    ElemsCount(w.hw);
    assert Elems(w.pool) + Elems(w.hw) + Used(All(w)) == e.buffers;
  }

  /** The total of every buffer of a frame is the number of bytes that were received in
      it and in those behind it. */
  lemma ExactTotals(e: EthernetRx, w: World, f: Frame)
    requires Follows(e, w) && f in All(w)
    ensures forall i :: 0 <= i < |f.bufs| ==> f.bufs[i].totLen == |Flat(f.data[i..])|
  {
    hide Held, NoneShared, All, Heap;
    assert Elems(f.bufs) <= Used(All(w));
    assert Sound(f);
    e.NoWrap(f.bufs);
    forall i | 0 <= i < |f.bufs|
      ensures f.bufs[i].totLen == |Flat(f.data[i..])|
    {
      BytesFlat(f.bufs, f.data, i);
    }
  }

  /** With the stop flag up the pool is empty, and the buffers that the hardware does
      not have, at least eight of twelve with its four descriptors, are in frames. */
  lemma ExhaustedInFrames(e: EthernetRx, w: World)
    requires Follows(e, w) && !w.available
    ensures w.pool == [] && |Used(All(w))| == RX_BUFFER_COUNT - |w.hw|
  {
    hide Framed, Heap, Used;
    NoneLost(e, w);
  }

  lemma FrameUsed(fs: set<Frame>, f: Frame)
    requires f in fs
    ensures Elems(f.bufs) <= Used(fs)
  {
  }

  /** What is said of a frame stays true as long as its buffers do not change. */
  twostate lemma StaysSound(f: Frame)
    requires old(Sound(f)) && unchanged(f.bufs)
    ensures Sound(f)
  {
    assert forall i :: 0 <= i < |f.bufs| ==> f.bufs[i] in f.bufs;
  }

  /** Frames do not lead into each other. */
  lemma NoneEnters(live: set<Pbuf>, outside: multiset<Pbuf>, fs: set<Frame>, f: Frame)
    requires Framed(outside, fs) && live == Used(fs) && f in fs
    ensures Isolated(live, f.bufs) && Chain(First(f.bufs), f.bufs) && Elems(f.bufs) <= live
  {
    hide Held, Totals;
    assert Sound(f);
    forall q | q in live
      ensures q.next != null && q.next in f.bufs ==> q in f.bufs
    {
      var g :| g in fs && q in g.bufs;
      assert Sound(g);
      ChainClosed(g.bufs, q);
      assert g != f ==> Separate(f.bufs, g.bufs);
    }
  }

  /** What the reference count of a buffer in a frame is. */
  lemma RefOf(live: set<Pbuf>, outside: multiset<Pbuf>, fs: set<Frame>, f: Frame, i: nat)
    requires Heap(live, outside) && Framed(outside, fs) && live == Used(fs) && f in fs && i < |f.bufs|
    ensures f.bufs[i] in live && f.bufs[i].ref == f.refs[i] + if i == 0 then 0 else 1
    ensures outside[f.bufs[i]] == f.refs[i] && f.refs[0] > 0
  {
    hide Heap, Totals, Chain;
    NoneEnters(live, outside, fs, f);
    assert Held(outside, f) && f.bufs != [] && f.refs[0] > 0;
    ChainLive(live, outside, First(f.bufs), f.bufs, 0);
  }

  /** One frame made into another, or none. */
  lemma Replaced(before: multiset<Pbuf>, after: multiset<Pbuf>, fs: set<Frame>, f: Frame, gs: set<Frame>)
    requires NoneShared(fs) && f in fs && forall h :: h in fs && h != f ==> Held(before, h) && Sound(h)
    requires forall p :: p !in f.bufs && p in Used(fs) ==> before[p] == after[p]
    requires forall g, h :: g in gs && h in gs ==> g == h
    requires forall g :: g in gs ==> Held(after, g) && Sound(g) && (g.bufs != [] ==> g.refs[0] > 0)
    requires forall g, p :: g in gs && p in g.bufs ==> p in f.bufs || p !in Used(fs)
    ensures Framed(after, fs - {f} + gs)
  {
    forall h | h in fs && h != f
      ensures Held(after, h)
    {
      FrameUsed(fs, h);
      assert Separate(h.bufs, f.bufs);
      assert forall i :: 0 <= i < |h.bufs| ==> h.bufs[i] in h.bufs && h.bufs[i] in Elems(h.bufs);
    }
    forall g, h | g in gs && h in fs && h != f
      ensures Separate(g.bufs, h.bufs) && Separate(h.bufs, g.bufs)
    {
      FrameUsed(fs, h);
      assert Separate(h.bufs, f.bufs);
      assert forall p :: p in h.bufs ==> p in Elems(h.bufs);
    }
  }

  lemma {:induction false} ChainSuffix(head: Pbuf?, s: seq<Pbuf>, k: nat)
    requires Chain(head, s) && Totals(s) && k <= |s|
    ensures Chain(First(s[k..]), s[k..]) && Totals(s[k..])
  {
    if k > 0 {
      ChainTail(head, s);
      forall i | 0 <= i < |s| - 1
        ensures s[1..][i].totLen == U16(Bytes(s[1..], i))
      {
        BytesSuffix(s, i);
        assert s[i + 1].totLen == U16(Bytes(s, i + 1));
      }
      ChainSuffix(s[0].next, s[1..], k - 1);
      assert s[1..][k - 1..] == s[k..];
    } else {
      assert s[0..] == s;
    }
  }

  lemma {:induction false} BytesSuffix(s: seq<Pbuf>, i: nat)
    requires s != [] && i < |s|
    ensures Bytes(s[1..], i) == Bytes(s, i + 1)
    decreases |s| - i
  {
    if i + 1 < |s| {
      BytesSuffix(s, i + 1);
    }
  }

  /** The frame from buffer `k` on, after the count of buffer `i` became `n`. */
  lemma Kept(before: multiset<Pbuf>, f: Frame, i: nat, n: nat, k: nat)
    requires Held(before, f) && Sound(f) && i < |f.bufs| && k <= |f.bufs|
    ensures Held(before[f.bufs[i] := n], Drop(Count(f, i, n), k)) && Sound(Drop(Count(f, i, n), k))
    ensures Distinct(f.bufs)
  {
    Differ(f.bufs, i);
    ChainSuffix(First(f.bufs), f.bufs, k);
  }

  lemma Recounted(before: multiset<Pbuf>, w: World, f: Frame, i: nat, n: nat)
    requires Framed(before, All(w)) && Whole(w) && f in w.frames && i < |f.bufs|
    ensures Held(before[f.bufs[i] := n], Count(f, i, n))
    ensures var v := Recount(w, f, i, n); var k := Leading(Count(f, i, n).refs);
            Framed(before[f.bufs[i] := n], All(v)) && Whole(v) && Used(All(v)) == Used(All(w)) - Elems(f.bufs[..k])
  {
    hide Sound, Held;
    var g, after := Count(f, i, n), before[f.bufs[i] := n];
    var k, v := Leading(g.refs), Recount(w, f, i, n);
    var gs := if k < |f.bufs| then {Drop(g, k)} else {};
    Kept(before, f, i, n, k);
    Kept(before, f, i, n, 0);
    assert Drop(g, 0) == g;
    assert w.partial != f;
    if k < |f.bufs| {
      assert f.bufs[k] in f.bufs && Drop(g, k).bufs[0] == f.bufs[k];
      assert Separate(f.bufs, w.partial.bufs);
    }
    assert All(v) == All(w) - {f} + gs;
    Replaced(before, after, All(w), f, gs);
    UsedWithout(All(w), f, Drop(g, k), k);
  }

  lemma Halves(s: seq<Pbuf>, k: nat)
    requires Distinct(s) && k <= |s|
    ensures Separate(s[..k], s[k..]) && forall p :: p in s <==> p in s[..k] || p in s[k..]
  {
    assert s == s[..k] + s[k..];
    forall i, j | 0 <= i < k <= j < |s|
      ensures s[i] != s[j]
    {
      assert Apart(s, i, j);
    }
  }

  /** What is in use without the first buffers of a frame. */
  lemma UsedWithout(fs: set<Frame>, f: Frame, g: Frame, k: nat)
    requires NoneShared(fs) && f in fs && Distinct(f.bufs) && k <= |f.bufs| && g.bufs == f.bufs[k..]
    ensures Used(fs - {f} + if k < |f.bufs| then {g} else {}) == Used(fs) - Elems(f.bufs[..k])
  {
    var s, gs := f.bufs, if k < |f.bufs| then {g} else {};
    Halves(s, k);
    forall p | p in Used(fs - {f} + gs)
      ensures p in Used(fs) && p !in s[..k]
    {
      var h :| h in fs - {f} + gs && p in h.bufs;
      if h in fs && h != f {
        assert Separate(h.bufs, s) && (p in s[..k] ==> p in s);
      } else {
        assert h == g;
      }
    }
    forall p | p in Used(fs) && p !in s[..k]
      ensures p in Used(fs - {f} + gs)
    {
      var h :| h in fs && p in h.bufs;
      assert h != f ==> h in fs - {f} + gs;
      assert h == f ==> p in g.bufs && g in fs - {f} + gs;
    }
  }

  // ---------- The actions ----------
  method AllocateOne(e: EthernetRx, ghost w: World)
    requires Follows(e, w)
    modifies e`available, e`pool, e`hw, Elems(e.pool)
    ensures Follows(e, Act(w, Allocate))
  {
    hide NoneShared, Held, Sound, Heap, Used;
    var p := e.RxAllocate();
    assert All(Act(w, Allocate)) == All(w);
    forall f | f in All(w)
      ensures Held(e.outside, f) && Sound(f)
    {
      FrameUsed(All(w), f);
      StaysSound(f);
    }
    if p != null {
      assert p in old(Elems(e.pool));
      DistinctAppend(w.hw, [p]);
    }
  }

  method TakeOne(e: EthernetRx, p: Pbuf, ghost w: World, ghost f: Frame, ghost i: nat)
    requires Enabled(w, Take(f, i)) && p == f.bufs[i] && Follows(e, w)
    modifies e`outside, p`ref
    ensures Follows(e, Act(w, Take(f, i)))
  {
    hide Framed, Heap, Used, Whole, EthernetRx.Places, Distinct;
    RefOf(e.live, e.outside, All(w), f, i);
    ghost var before := e.outside;
    Recounted(before, w, f, i, f.refs[i] + 1);
    e.StackRef(p);
    assert e.outside == before[p := f.refs[i] + 1];
  }

  /** Following the links from buffer `i` of a chain gives the buffers behind it. */
  lemma {:induction false} PathChain(head: Pbuf?, s: seq<Pbuf>, i: nat, p: Pbuf?, out: seq<Pbuf>)
    requires Chain(head, s) && i <= |s| && p == (if i < |s| then s[i] else null) && Path(p, out)
    ensures i + |out| <= |s| && out == s[i..i + |out|]
    decreases |out|
  {
    if out != [] {
      assert s[i].next == After(s, i);
      PathChain(head, s, i + 1, s[i].next, out[1..]);
      assert out == [s[i]] + out[1..];
    }
  }

  lemma {:induction false} BackReturned(buffers: set<Pbuf>, s: seq<Pbuf>, pool: seq<Pbuf>)
    requires Elems(s) <= buffers
    ensures Returned(buffers, s, pool) == Back(s, pool)
  {
    if s != [] {
      assert s[0] in Elems(s) && Elems(s[1..]) <= Elems(s);
      BackReturned(buffers, s[1..], [s[0]] + pool);
    }
  }

  /** What goes with a reference is exactly what is in front of the first buffer held. */
  lemma Gone(live: set<Pbuf>, live': set<Pbuf>, rest: multiset<Pbuf>, g: Frame, i: nat, out: seq<Pbuf>)
    requires Chain(First(g.bufs), g.bufs) && Isolated(live, g.bufs) && Elems(g.bufs) <= live
    requires live' == live - Elems(out) && Heap(live', rest) && Held(rest, g)
    requires i < |g.bufs| && Path(g.bufs[i], out) && (i > 0 ==> g.refs[0] > 0)
    ensures out == g.bufs[..Leading(g.refs)]
  {
    hide Heap, Totals;
    var s, k := g.bufs, Leading(g.refs);
    PathChain(First(s), s, i, s[i], out);
    ChainLive(live', rest, First(s), s, k);
    forall j | 0 <= j < |s|
      ensures s[j] in out <==> j < k
    {
      assert s[j] in Elems(s);
    }
    assert s[0] in out <==> 0 < k;
    assert out != [] ==> s[i] == out[0] && s[i + |out| - 1] == out[|out| - 1];
    if i + |out| < |s| {
      Differ(s, i + |out|);
      assert s[i + |out|] !in out;
    }
  }

  method LetGoOf(e: EthernetRx, p: Pbuf, ghost w: World, ghost f: Frame, ghost i: nat)
    requires Enabled(w, LetGo(f, i)) && p == f.bufs[i] && Follows(e, w)
    modifies e`available, e`pool, e`live, e`outside, e.live`ref, e.live`freed
    ensures Follows(e, Act(w, LetGo(f, i)))
  {
    hide Framed, Heap, Used, Held;
    ghost var fs, before, live, n := All(w), e.outside, e.live, f.refs[i] - 1;
    ghost var rest := before[p := n];
    RefOf(live, before, fs, f, i);
    NoneEnters(live, before, fs, f);
    Recounted(before, w, f, i, n);
    ghost var out := e.Free(p, rest);
    Gone(live, e.live, rest, Count(f, i, n), i, out);
    BackReturned(e.buffers, out, w.pool);
    ghost var v := Act(w, LetGo(f, i));
    assert All(v) == All(Recount(w, f, i, n));
  }

  lemma WithoutOne(s: seq<Pbuf>, j: nat)
    requires Distinct(s) && j < |s|
    ensures Distinct(s[..j] + s[j + 1..]) && Elems(s[..j] + s[j + 1..]) == Elems(s) - {s[j]}
  {
    var u := s[..j] + s[j + 1..];
    Differ(s, j);
    assert s == s[..j] + [s[j]] + s[j + 1..];
    forall a, b | 0 <= a < b < |u|
      ensures Apart(u, a, b)
    {
      assert Apart(s, if a < j then a else a + 1, if b < j then b else b + 1);
    }
  }

  /** The frame being received with one buffer more. */
  lemma Longer(before: multiset<Pbuf>, after: multiset<Pbuf>, w: World, p: Pbuf, g: Frame)
    requires NoneShared(All(w)) && Whole(w) && p !in Used(All(w)) && before[p] == 0
    requires forall h :: h in All(w) ==> Held(before, h)
    requires forall h :: h in w.frames ==> Sound(h)
    requires g.bufs == w.partial.bufs + [p] && Sound(g)
    requires g.refs == w.partial.refs + [if w.partial.bufs == [] then 1 else 0]
    requires after == before + if w.partial.bufs == [] then Hold(p) else multiset{}
    ensures var v := w.(partial := g); Framed(after, All(v)) && Whole(v) && Used(All(v)) == Used(All(w)) + {p}
  {
    hide Sound;
    var v := w.(partial := g);
    FrameUsed(All(w), w.partial);
    assert forall q :: q in w.partial.bufs ==> q in Elems(w.partial.bufs);
    assert Held(after, g) by {
      assert Held(before, w.partial);
    }
    assert g !in w.frames by {
      assert p in g.bufs;
    }
    assert All(v) == All(w) - {w.partial} + {g};
    Replaced(before, after, All(w), w.partial, {g});
    forall q | q in Used(All(w)) + {p}
      ensures q in Used(All(v))
    {
      if q in g.bufs {
        FrameUsed(All(v), g);
      } else {
        var h :| h in All(w) && q in h.bufs;
        assert h in All(v);
      }
    }
    forall q | q in Used(All(v))
      ensures q in Used(All(w)) + {p}
    {
      var h :| h in All(v) && q in h.bufs;
      assert h == g || h in All(w);
    }
  }

  /** What the link callback finds. */
  lemma BeforeLink(e: EthernetRx, w: World, p: Pbuf)
    requires Follows(e, w) && p in e.hw
    ensures NoneShared(All(w)) && p !in Used(All(w)) && e.outside[p] == 0
    ensures forall h :: h in All(w) ==> Held(e.outside, h) && Sound(h) && Elems(h.bufs) <= e.live && p !in h.bufs
    ensures forall h :: h in w.frames ==> Separate(h.bufs, w.partial.bufs)
  {
    hide Held, Sound;
    assert p !in e.live && p !in e.outside;
    forall h | h in All(w)
      ensures Elems(h.bufs) <= e.live && p !in h.bufs
    {
      FrameUsed(All(w), h);
      assert p in h.bufs ==> p in Elems(h.bufs);
    }
    assert w.partial in All(w);
  }

  method LinkOne(e: EthernetRx, start: Pbuf?, end: Pbuf?, p: Pbuf, data: seq<byte>, ghost w: World, ghost j: nat)
    requires Enabled(w, Link(j, data)) && p == w.hw[j] && Follows(e, w)
    requires w.partial.bufs == [] ==> start == null
    requires w.partial.bufs != [] ==> start == w.partial.bufs[0] && end == w.partial.bufs[|w.partial.bufs| - 1]
    modifies e`hw, e`live, e`outside, p, Elems(w.partial.bufs)`next, Elems(w.partial.bufs)`totLen
    ensures Follows(e, Act(w, Link(j, data)))
  {
    hide Framed, Heap, Used, Held, Totals, NoneShared;
    ghost var s, before, v := w.partial.bufs, e.outside, Act(w, Link(j, data));
    assert p in Elems(w.hw);
    WithoutOne(w.hw, j);
    BeforeLink(e, w, p);
    assert Sound(w.partial) && w.partial in All(w);
    assert Linked(start, end, s);
    var start', end' := e.RxLink(start, end, p, |data|, s);
    forall h | h in w.frames
      ensures Sound(h)
    {
      assert Separate(h.bufs, s);
      StaysSound(h);
    }
    assert Sound(v.partial);
    Longer(before, e.outside, w, p, v.partial);
    assert All(v) == All(w.(partial := v.partial));
  }

  lemma NoBuffers(outside: multiset<Pbuf>)
    ensures Held(outside, EMPTY) && Sound(EMPTY)
  {
  }

  /** The frame received is handed over as it is. */
  lemma Delivered(e: EthernetRx, w: World)
    requires Enabled(w, Deliver) && Follows(e, w)
    ensures Follows(e, Act(w, Deliver))
  {
    hide Heap, Held, Sound;
    var v := Act(w, Deliver);
    assert All(v) == All(w) + {EMPTY};
    NoBuffers(e.outside);
    assert Used(All(v)) == Used(All(w));
  }

  /** The actions stay within the pool. */
  lemma Within(e: EthernetRx, w: World)
    requires Follows(e, w)
    ensures Elems(w.pool) <= e.buffers && Elems(w.hw) <= e.buffers && e.live <= e.buffers && w.pool == e.pool
    ensures forall f :: f in All(w) ==> Elems(f.bufs) <= e.buffers
    ensures forall j :: 0 <= j < |w.hw| ==> w.hw[j] in e.buffers
    ensures forall f, i :: f in All(w) && 0 <= i < |f.bufs| ==> f.bufs[i] in e.buffers
  {
    hide Heap, Framed, Whole;
    assert forall j :: 0 <= j < |w.hw| ==> w.hw[j] in Elems(w.hw);
    assert forall f, i :: f in All(w) && 0 <= i < |f.bufs| ==> f.bufs[i] in Elems(f.bufs);
  }

  method ActOne(e: EthernetRx, w: World, a: Action)
    requires Enabled(w, a) && Follows(e, w)
    modifies e, e.buffers
    ensures Follows(e, Act(w, a))
  {
    hide Follows, Elems;
    Within(e, w);
    match a {
      case Allocate => AllocateOne(e, w);
      case Link(j, data) =>
        var s := w.partial.bufs;
        LinkOne(e, if s == [] then null else s[0], if s == [] then null else s[|s| - 1], w.hw[j], data, w, j);
      case Deliver => Delivered(e, w);
      case Take(f, i) => TakeOne(e, f.bufs[i], w, f, i);
      case LetGo(f, i) => LetGoOf(e, f.bufs[i], w, f, i);
    }
  }

  const START := World(true, [], [], EMPTY, {})

  /** The receive driver in every run from a fresh pool: pool, hardware, frames and
      references are those of the run, so that a buffer is in use exactly as long as it
      or one in front of it in its frame is held, and in the pool again after that. */
  method RunAll(e: EthernetRx, pool: seq<Pbuf>, acts: seq<Action>) returns (w: World)
    requires e.Valid() && e.available && e.pool == pool && e.buffers == Elems(pool)
    requires e.hw == e.live == {} && e.outside == multiset{}
    requires Legal(START.(pool := pool), acts)
    modifies e, e.buffers
    ensures w == ActAll(START.(pool := pool), acts) && Follows(e, w)
  {
    w := START.(pool := pool);
    NoBuffers(e.outside);
    assert All(w) == {EMPTY} && Used(All(w)) == {};
    var rest := acts;
    while rest != []
      invariant Follows(e, w) && Legal(w, rest) && ActAll(w, rest) == ActAll(START.(pool := pool), acts)
      decreases |rest|
    {
      ActOne(e, w, rest[0]);
      w := Act(w, rest[0]);
      rest := rest[1..];
    }
  }
}
