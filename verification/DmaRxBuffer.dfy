/** The circular buffer that a DMA fills with received bytes.  The program sees the
    DMA only through its counter; `Feed` is the byte stream behind it. */
module DmaRxBuffers {
  import opened Memory
  import opened Pbufs
  import opened Rings

  // ---------- The three numbers the program keeps ----------

  datatype Ptrs = Ptrs(head: int, tail: int, size: int)

  /** The numbers are in range and agree: `size` bytes lie between `head` and
      `tail`, round the end of the buffer. */
  predicate Agree(n: nat, p: Ptrs) {
    && 0 <= p.head < n && 0 <= p.tail < n && 0 <= p.size <= n
    && (p.head + p.size == p.tail || p.head + p.size == p.tail + n)
  }

  function Update(n: nat, p: Ptrs, counter: int): Ptrs {
    var newTail := n - counter;
    if newTail == p.tail then p
    else
      var change := if newTail < p.tail then newTail - p.tail + n else newTail - p.tail;
      if p.size + change > n then Ptrs(newTail, newTail, n) else Ptrs(p.head, newTail, p.size + change)
  }

  function AvailableAtEnd(n: nat, p: Ptrs): int {
    if p.size == 0 || p.head < p.tail then p.tail - p.head else n - p.head
  }

  function CopySize(n: nat, p: Ptrs, size: nat): int {
    Min(AvailableAtEnd(n, p), size)
  }

  function Copied(n: nat, p: Ptrs, size: nat): Ptrs {
    var k := CopySize(n, p, size);
    Ptrs(if p.head + k == n then 0 else p.head + k, p.tail, p.size - k)
  }

  /** The numbers keep agreeing exactly when the counter is not 0: the range is
      1 to `n`, not 0 to `n - 1`. */
  lemma UpdateAgrees(n: nat, p: Ptrs, counter: int)
    requires Agree(n, p) && 0 <= counter <= n
    ensures Agree(n, Update(n, p, counter)) <==> counter != 0
  {
  }

  /** What is available in one piece: all of it, or what there is up to the end of
      the buffer.  A copy stays inside the buffer and takes as much of that as asked. */
  lemma CopyAgrees(n: nat, p: Ptrs, size: nat)
    requires Agree(n, p)
    ensures AvailableAtEnd(n, p) == Min(p.size, n - p.head)
    ensures Agree(n, Copied(n, p, size))
    ensures 0 <= CopySize(n, p, size) <= p.size && p.head + CopySize(n, p, size) <= n
  {
  }

  /** Two copies with room for the whole buffer always empty it. */
  lemma TwoCopiesDrain(n: nat, p: Ptrs, size1: nat, size2: nat)
    requires Agree(n, p) && size1 >= n && size2 >= n
    ensures Copied(n, Copied(n, p, size1), size2).size == 0
  {
  }

  /** Counter 0, which the documentation allows and the hardware does not show:
      after it, an emptied buffer claims to hold everything. */
  lemma CounterZero(n: nat)
    requires n > 0
    ensures var p := Copied(n, Update(n, Ptrs(0, 0, 0), 0), n);
      p == Ptrs(0, n, 0) && AvailableAtEnd(n, p) == n && Copied(n, p, n).size + n == 0
  {
  }

  // ---------- The stream behind them ----------

  /** The numbers stand for positions of the stream. */
  predicate At(n: nat, p: Ptrs, read: nat, seen: nat)
    requires n > 0
  {
    && read <= seen && p.size == seen - read <= n
    && p.head == Pos(n, read) && p.tail == Pos(n, seen)
  }

  function Oldest(n: nat, total: nat): nat {
    if total < n then 0 else total - n
  }

  function Max(x: nat, y: nat): nat { if x < y then y else x }

  /** A look after `total` bytes counts all of them right: fewer than `n` are new, or
      what is new beyond whole rounds fills the buffer anyway. */
  predicate Accurate(n: nat, read: nat, seen: nat, total: nat)
    requires n > 0 && read <= seen <= total
  {
    total - seen < n || seen - read + Pos(n, total - seen) >= n
  }

  /** The position up to which a look notices: the counter does not show whole rounds
      of the buffer. */
  function Noticed(n: nat, read: nat, seen: nat, total: nat): (s: nat)
    requires n > 0 && read <= seen <= total
    ensures seen <= s <= total && (s == total <==> Accurate(n, read, seen, total))
  {
    if Accurate(n, read, seen, total) then total else seen + Pos(n, total - seen)
  }

  /** Reading the counter moves the numbers to what it notices, and on to the oldest
      byte still there. */
  lemma UpdateLocates(n: nat, p: Ptrs, read: nat, seen: nat, total: nat)
    requires n > 0 && At(n, p, read, seen) && seen <= total
    ensures var seen' := Noticed(n, read, seen, total);
      At(n, Update(n, p, n - Pos(n, total)), Max(read, Oldest(n, seen')), seen')
  {
    UpdateCounts(n, p, read, seen, total);
    UpdateExact(n, p, read, seen, total);
  }

  lemma UpdateCounts(n: nat, p: Ptrs, read: nat, seen: nat, total: nat)
    requires n > 0 && At(n, p, read, seen) && seen <= total
    ensures var seen' := seen + Pos(n, total - seen);
      At(n, Update(n, p, n - Pos(n, total)), Max(read, Oldest(n, seen')), seen')
  {
    PosGap(n, seen, total);
    PosAdd(n, seen, Pos(n, total - seen));
  }

  /** After a look the numbers are those of the whole stream exactly when it is
      accurate. */
  lemma UpdateExact(n: nat, p: Ptrs, read: nat, seen: nat, total: nat)
    requires n > 0 && At(n, p, read, seen) && seen <= total
    ensures At(n, Update(n, p, n - Pos(n, total)), Max(read, Oldest(n, total)), total)
      <==> Accurate(n, read, seen, total)
  {
    hide Pos, Update;
    var d := Pos(n, total - seen);
    UpdateCounts(n, p, read, seen, total);
    if total - seen < n {
      NoRound(n, total - seen);
    } else if p.size + d >= n {
      Rounds(n, seen, d, total);
    }
  }

  lemma NoRound(n: nat, i: nat)
    requires i < n
    ensures Pos(n, i) == i
  {
  }

  lemma Rounds(n: nat, seen: nat, d: nat, total: nat)
    requires n > 0 && seen + n <= total && n <= seen + d && d == Pos(n, total - seen)
    ensures Pos(n, seen + d) == Pos(n, total) == Pos(n, total - n) == Pos(n, seen + d - n)
  {
    PosGap(n, seen, total);
    PosAdd(n, seen, d);
    PosSame(n, total - n, total);
    PosSame(n, seen + d - n, seen + d);
  }

  /** The position of the byte that the cell of position `i` holds: the newest one
      whole rounds further on. */
  function Newest(n: nat, i: nat, total: nat): (j: nat)
    requires n > 0 && i < total
    ensures i <= j < total <= j + n && Pos(n, j) == Pos(n, i)
    ensures j == i <==> total <= i + n
    decreases total - i
  {
    if total <= i + n then i else Newest(n, i + n, total)
  }

  /** The bytes received so far, how many of them the program has noticed, the
      position it takes for the next one, and the positions it was really given. */
  datatype Feed = Feed(stream: seq<byte>, seen: nat, read: nat, given: seq<nat>)

  datatype Op = Receive(data: seq<byte>) | Look | Copy(size: nat)

  function Positions(from: nat, k: nat): (s: seq<nat>)
    ensures |s| == k && forall i :: 0 <= i < k ==> s[i] == from + i
  {
    if k == 0 then [] else Positions(from, k - 1) + [from + k - 1]
  }

  /** What the cells of `k` positions from `from` on hold. */
  function Cells(n: nat, from: nat, k: nat, total: nat): (s: seq<nat>)
    requires n > 0 && from + k <= total
    ensures |s| == k && forall i :: 0 <= i < k ==> s[i] == Newest(n, from + i, total)
  {
    if k == 0 then [] else Cells(n, from, k - 1, total) + [Newest(n, from + k - 1, total)]
  }

  /** The contiguous part of the unread bytes, as far as asked for. */
  function Given(n: nat, f: Feed, size: nat): nat
    requires n > 0 && f.read <= f.seen
  {
    Min(Min(f.seen - f.read, n - Pos(n, f.read)), size)
  }

  predicate Sane(n: nat, f: Feed) {
    n > 0 && f.read <= f.seen <= f.read + n && f.seen <= |f.stream|
  }

  /** What the code does. */
  function Step(n: nat, f: Feed, op: Op): (g: Feed)
    requires Sane(n, f)
    ensures Sane(n, g) && f.read <= g.read
  {
    match op
    case Receive(data) => f.(stream := f.stream + data)
    case Look =>
      var seen := Noticed(n, f.read, f.seen, |f.stream|);
      f.(seen := seen, read := Max(f.read, Oldest(n, seen)))
    case Copy(size) =>
      var k := Given(n, f, size);
      f.(read := f.read + k, given := f.given + Cells(n, f.read, k, |f.stream|))
  }

  /** What it is meant to do: a look notices everything and keeps the newest `n`, a
      copy gives the bytes that come next. */
  function Meant(n: nat, f: Feed, op: Op): Feed
    requires Sane(n, f)
  {
    match op
    case Receive(data) => f.(stream := f.stream + data)
    case Look => f.(seen := |f.stream|, read := Max(f.read, Oldest(n, |f.stream|)))
    case Copy(size) =>
      var k := Given(n, f, size);
      f.(read := f.read + k, given := f.given + Positions(f.read, k))
  }

  /** A look is accurate, and what is copied was not overwritten before. */
  predicate Timely(n: nat, f: Feed, op: Op)
    requires Sane(n, f)
  {
    match op
    case Receive(_) => true
    case Look => Accurate(n, f.read, f.seen, |f.stream|)
    case Copy(size) => Given(n, f, size) == 0 || |f.stream| <= f.read + n
  }

  /** The code does what it is meant to exactly when it is timely. */
  lemma TimelyIff(n: nat, f: Feed, op: Op)
    requires Sane(n, f)
    ensures Step(n, f, op) == Meant(n, f, op) <==> Timely(n, f, op)
  {
    if op.Copy? {
      var k := Given(n, f, op.size);
      var cells, next := Cells(n, f.read, k, |f.stream|), Positions(f.read, k);
      assert (f.given + cells)[|f.given|..] == cells && (f.given + next)[|f.given|..] == next;
      if k > 0 && |f.stream| > f.read + n {
        assert cells[0] != next[0];
      }
    }
  }

  function Run(n: nat, f: Feed, ops: seq<Op>): Feed
    requires Sane(n, f)
    decreases |ops|
  {
    if ops == [] then f else Run(n, Step(n, f, ops[0]), ops[1..])
  }

  predicate Legal(n: nat, f: Feed, ops: seq<Op>)
    requires Sane(n, f)
    decreases |ops|
  {
    ops == [] || (Timely(n, f, ops[0]) && Legal(n, Step(n, f, ops[0]), ops[1..]))
  }

  /** Every step of the run is what is meant. */
  predicate AsMeant(n: nat, f: Feed, ops: seq<Op>)
    requires Sane(n, f)
    decreases |ops|
  {
    ops == [] || (Step(n, f, ops[0]) == Meant(n, f, ops[0]) && AsMeant(n, Step(n, f, ops[0]), ops[1..]))
  }

  /** A run goes as meant, every look and every copy, exactly when it is timely
      throughout. */
  lemma {:induction false} LegalIff(n: nat, f: Feed, ops: seq<Op>)
    requires Sane(n, f)
    ensures AsMeant(n, f, ops) <==> Legal(n, f, ops)
    decreases |ops|
  {
    if ops != [] {
      TimelyIff(n, f, ops[0]);
      LegalIff(n, Step(n, f, ops[0]), ops[1..]);
    }
  }

  const SILENT := Feed([], 0, 0, [])

  /** The positions go up, and none is beyond what was read. */
  predicate Ascending(s: seq<nat>, bound: nat) {
    && (forall i, j :: 0 <= i < j < |s| ==> s[i] < s[j])
    && (forall i :: 0 <= i < |s| ==> s[i] < bound)
  }

  /** In every timely run, bytes are given in the order in which they arrived, none
      twice. */
  lemma {:induction false} InOrder(n: nat, f: Feed, ops: seq<Op>)
    requires Sane(n, f) && Legal(n, f, ops) && Ascending(f.given, f.read)
    ensures Sane(n, Run(n, f, ops)) && Ascending(Run(n, f, ops).given, Run(n, f, ops).read)
    decreases |ops|
  {
    if ops != [] {
      TimelyIff(n, f, ops[0]);
      InOrder(n, Step(n, f, ops[0]), ops[1..]);
    }
  }

  lemma RunCons(n: nat, f: Feed, op: Op, ops: seq<Op>)
    requires Sane(n, f)
    ensures Run(n, f, [op] + ops) == Run(n, Step(n, f, op), ops)
    ensures Legal(n, f, [op] + ops) <==> Timely(n, f, op) && Legal(n, Step(n, f, op), ops)
  {
    assert ([op] + ops)[1..] == ops;
  }

  /** Three bytes arrive and are noticed; two more arrive before the copy. */
  function Overrun(first: seq<byte>, more: seq<byte>): seq<Op> {
    [Receive(first)] + ([Look] + ([Receive(more)] + Copies()))
  }

  function Copies(): seq<Op> {
    [Copy(1)] + ([Look] + ([Copy(4)] + ([Copy(4)] + [])))
  }

  /** Without that it fails: in a buffer of 4, two bytes that arrive between a look
      and the copy overwrite one that is unread.  The fifth byte is given first, and
      once more at the end. */
  lemma Overwritten(first: seq<byte>, more: seq<byte>)
    requires |first| == 3 && |more| == 2
    ensures Run(4, SILENT, Overrun(first, more)).given == [4, 1, 2, 3, 4]
    ensures !Legal(4, SILENT, Overrun(first, more))
  {
    hide Run, Legal;
    var all := first + more;
    assert [] + first == first;
    RunCons(4, SILENT, Receive(first), [Look] + ([Receive(more)] + Copies()));
    RunCons(4, Feed(first, 0, 0, []), Look, [Receive(more)] + Copies());
    RunCons(4, Feed(first, 3, 0, []), Receive(more), Copies());
    CopiesRun(all);
  }

  lemma CopiesRun(all: seq<byte>)
    requires |all| == 5
    ensures Run(4, Feed(all, 3, 0, []), Copies()).given == [4, 1, 2, 3, 4]
    ensures !Legal(4, Feed(all, 3, 0, []), Copies())
  {
  }

  // ---------- Which runs give an exact prefix ----------

  /** A byte was skipped: some look moved on over it. */
  predicate Skipped(f: Feed) {
    f.read > |f.given|
  }

  /** No copy that gives something comes after a byte was skipped or overwritten. */
  predicate Smooth(n: nat, f: Feed, ops: seq<Op>)
    requires Sane(n, f)
    decreases |ops|
  {
    ops == [] ||
    ((ops[0].Copy? && Given(n, f, ops[0].size) > 0 ==> !Skipped(f) && |f.stream| <= f.read + n)
     && Smooth(n, Step(n, f, ops[0]), ops[1..]))
  }

  /** What is given once is never taken back. */
  lemma {:induction false} GivenGrows(n: nat, f: Feed, ops: seq<Op>)
    requires Sane(n, f)
    ensures f.given <= Run(n, f, ops).given
    decreases |ops|
  {
    if ops != [] {
      GivenGrows(n, Step(n, f, ops[0]), ops[1..]);
    }
  }

  lemma PositionsAppend(from: nat, j: nat, k: nat)
    ensures Positions(from, j) + Positions(from + j, k) == Positions(from, j + k)
  {
  }

  /** A copy that gives something continues the exact prefix if and only if nothing
      was skipped and what it gives was not overwritten. */
  lemma CopyContinues(n: nat, f: Feed, size: nat)
    requires Sane(n, f) && |f.given| <= f.read && f.given == Positions(0, |f.given|) && Given(n, f, size) > 0
    ensures var g := Step(n, f, Copy(size));
      if !Skipped(f) && |f.stream| <= f.read + n then g.given == Positions(0, |g.given|)
      else g.given[|f.given|] != |f.given|
  {
  }

  /** The positions given are exactly the first ones of the stream if and only if no
      copy that gives something comes after a byte was skipped or overwritten. */
  lemma {:induction false} PrefixIff(n: nat, f: Feed, ops: seq<Op>)
    requires Sane(n, f) && |f.given| <= f.read && f.given == Positions(0, |f.given|)
    ensures var r := Run(n, f, ops); Smooth(n, f, ops) <==> r.given == Positions(0, |r.given|)
    decreases |ops|
  {
    if ops != [] {
      var g := Step(n, f, ops[0]);
      if ops[0].Copy? && Given(n, f, ops[0].size) > 0 {
        CopyContinues(n, f, ops[0].size);
      } else {
        assert f.given + [] == f.given;
      }
      GivenGrows(n, g, ops[1..]);
      if g.given == Positions(0, |g.given|) {
        PrefixIff(n, g, ops[1..]);
      } else {
        assert Run(n, g, ops[1..]).given[|f.given|] == g.given[|f.given|];
      }
    }
  }

  /** A look moves on over unread bytes exactly when it is accurate and finds more
      than `n` of them. */
  lemma LookSkips(n: nat, f: Feed)
    requires Sane(n, f)
    ensures Step(n, f, Look).read > f.read <==> Accurate(n, f.read, f.seen, |f.stream|) && |f.stream| > f.read + n
  {
  }

  /** No look finds more than `n` unread bytes. */
  predicate NoOverflow(n: nat, f: Feed, ops: seq<Op>)
    requires Sane(n, f)
    decreases |ops|
  {
    ops == [] ||
    ((ops[0].Look? ==> |f.stream| <= f.read + n) && NoOverflow(n, Step(n, f, ops[0]), ops[1..]))
  }

  /** A byte that was skipped stays skipped. */
  lemma {:induction false} NeverMadeUp(n: nat, f: Feed, ops: seq<Op>)
    requires Sane(n, f) && Skipped(f)
    ensures Skipped(Run(n, f, ops))
    decreases |ops|
  {
    if ops != [] {
      NeverMadeUp(n, Step(n, f, ops[0]), ops[1..]);
    }
  }

  /** A timely run gives every byte up to the one it reads next if and only if no look
      overflows. */
  lemma {:induction false} NothingSkipped(n: nat, f: Feed, ops: seq<Op>)
    requires Sane(n, f) && Legal(n, f, ops) && f.given == Positions(0, f.read)
    ensures NoOverflow(n, f, ops) <==> Run(n, f, ops).given == Positions(0, Run(n, f, ops).read)
    decreases |ops|
  {
    if ops != [] {
      var g := Step(n, f, ops[0]);
      TimelyIff(n, f, ops[0]);
      if ops[0].Copy? {
        PositionsAppend(0, f.read, Given(n, f, ops[0].size));
      }
      if g.given == Positions(0, g.read) {
        NothingSkipped(n, g, ops[1..]);
      } else {
        NeverMadeUp(n, g, ops[1..]);
      }
    }
  }

  /** `out` is the bytes of the stream at the given positions. */
  predicate Selected(out: seq<byte>, stream: seq<byte>, at: seq<nat>) {
    |out| == |at| && forall i :: 0 <= i < |at| ==> at[i] < |stream| && out[i] == stream[at[i]]
  }

  // ---------- The buffer ----------

  class DmaRxBuffer {
    const n: nat
    const buffer: array<byte>
    var head: int
    var tail: int
    var size: int

    var dma: nat                 // where the DMA writes next
    ghost var stream: seq<byte>  // what the DMA has received
    ghost var seen: nat          // how much of it the program has noticed
    ghost var read: nat          // the position of the byte at `head`

    function Numbers(): Ptrs
      reads `head, `tail, `size
    {
      Ptrs(head, tail, size)
    }

    ghost predicate Located()
      reads `head, `tail, `size, `seen, `read
    {
      n > 0 && At(n, Numbers(), read, seen)
    }

    /** The DMA has gone round the buffer; it holds the newest bytes. */
    ghost predicate Holds()
      reads `stream, `dma, buffer
    {
      && n > 0 && buffer.Length == n && dma == Pos(n, |stream|)
      && forall i {:trigger Pos(n, i)} :: Oldest(n, |stream|) <= i < |stream| ==> buffer[Pos(n, i)] == stream[i]
    }

    ghost predicate Valid()
      reads `head, `tail, `size, `seen, `read, `stream, `dma, buffer
    {
      Located() && Holds() && seen <= |stream|
    }

    constructor (n: nat)
      requires n > 0
      ensures Valid() && this.n == n && stream == [] && seen == read == 0 && fresh(buffer)
    {
      this.n, buffer := n, new byte[n];
      head, tail, size := 0, 0, 0;
      dma, stream, seen, read := 0, [], 0, 0;
    }

    /** In every state, the numbers are in range and agree. */
    lemma ValidAgree()
      requires Located()
      ensures Agree(n, Numbers())
    {
      PosAdd(n, read, size);
    }

    /** What the DMA counter shows: the bytes left until the end of the buffer. */
    function Counter(): int
      reads `dma
    {
      n - dma
    }

    /** The DMA receives a byte. */
    method Store(b: byte)
      requires Valid()
      modifies `stream, `dma, buffer
      ensures Valid() && stream == old(stream) + [b]
    {
      ghost var total := |stream|;
      PosNext(n, total);
      buffer[dma] := b;
      dma := if dma + 1 == n then 0 else dma + 1;
      stream := stream + [b];
      forall i | Oldest(n, |stream|) <= i < |stream|
        ensures buffer[Pos(n, i)] == stream[i]
      {
        if i < total {
          PosDistinct(n, i, total);
        }
      }
    }

    method UpdatePointers(counter: int)
      modifies `head, `tail, `size
      ensures Numbers() == Update(n, old(Numbers()), counter)
    {
      var newTail := n - counter;
      var changeInSize := newTail - tail;
      if changeInSize == 0 {
        return;
      }
      if changeInSize < 0 {
        changeInSize := changeInSize + n;
      }
      var newSize := size + changeInSize;
      if newSize > n {
        head := newTail;
        newSize := n;
      }
      size := newSize;
      tail := newTail;
    }

    /** Reads the counter and notices what arrived, up to whole rounds of the buffer;
        goes on to the oldest byte still there. */
    method Look()
      requires Valid()
      modifies `head, `tail, `size, `seen, `read
      ensures Valid() && read == Max(old(read), Oldest(n, seen))
      ensures seen == Noticed(n, old(read), old(seen), |stream|)
    {
      Notice(Counter(), |stream|);
    }

    method Notice(counter: int, ghost total: nat)
      requires Located() && seen <= total && counter == n - Pos(n, total)
      modifies `head, `tail, `size, `seen, `read
      ensures Located() && read == Max(old(read), Oldest(n, seen)) && seen == Noticed(n, old(read), old(seen), total)
    {
      hide Update, Pos, Oldest, Accurate;
      ghost var seen', p := Noticed(n, read, seen, total), Update(n, Numbers(), counter);
      UpdateLocates(n, Numbers(), read, seen, total);
      assert At(n, p, Max(read, Oldest(n, seen')), seen');
      UpdatePointers(counter);
      assert Numbers() == p;
      seen := seen';
      read := Max(read, Oldest(n, seen));
    }

    /** `out` is what the cells of the `k` positions from `from` on hold. */
    ghost predicate Taken(out: seq<byte>, from: nat, k: nat)
      requires n > 0
      reads `stream
    {
      from + k <= |stream| && Selected(out, stream, Cells(n, from, k, |stream|))
    }

    /** Copies the contiguous part of the unread bytes, as far as asked for.  If the
        DMA has not overwritten them, these are the next bytes of the stream. */
    method Copy(dst: array<byte>, size: nat) returns (copySize: int)
      requires Valid() && size <= dst.Length && dst != buffer
      modifies `head, `size, `read, dst
      ensures Valid() && Numbers() == Copied(n, old(Numbers()), size)
      ensures 0 <= copySize <= size && read == old(read) + copySize
      ensures copySize == Min(Min(seen - old(read), n - Pos(n, old(read))), size)
      ensures Taken(dst[..copySize], old(read), copySize) && dst[copySize..] == old(dst[copySize..])
      ensures |stream| <= old(read) + n ==> dst[..copySize] == stream[old(read)..read]
    {
      hide Pos, Holds, Taken;
      ValidAgree();
      CopyAgrees(n, Numbers(), size);
      copySize := Min(AvailableAtEnd(n, Numbers()), size);
      CopyOut(dst, copySize);
      Advance(copySize);
    }

    method CopyOut(dst: array<byte>, k: nat)
      requires Valid() && k <= size && head + k <= n && k <= dst.Length && dst != buffer
      modifies dst
      ensures Valid() && Taken(dst[..k], read, k) && dst[k..] == old(dst[k..])
      ensures |stream| <= read + n ==> dst[..k] == stream[read..read + k]
    {
      hide Pos, Selected;
      CellsHold(k);
      CopyN(buffer[head..head + k], dst, 0);
      assert dst[..0] == [] && [] + buffer[head..head + k] == buffer[head..head + k];
    }

    /** The cell of a position holds the newest byte of the stream whole rounds on. */
    lemma CellHolds(i: nat)
      requires Valid() && i < size && head + i < n
      ensures read + i < |stream| && buffer[head + i] == stream[Newest(n, read + i, |stream|)]
    {
      PosAdd(n, read, i);
      assert Pos(n, Newest(n, read + i, |stream|)) == head + i;
    }

    lemma CellsHold(k: nat)
      requires Valid() && k <= size && head + k <= n
      ensures Taken(buffer[head..head + k], read, k)
      ensures |stream| <= read + n ==> buffer[head..head + k] == stream[read..read + k]
    {
      hide Pos;
      var out, cells := buffer[head..head + k], Cells(n, read, k, |stream|);
      forall i | 0 <= i < k
        ensures cells[i] < |stream| && out[i] == stream[cells[i]]
        ensures |stream| <= read + n ==> cells[i] == read + i
      {
        CellHolds(i);
      }
    }

    method Advance(copySize: nat)
      requires Located() && copySize <= size && head + copySize <= n
      modifies `head, `size, `read
      ensures Located() && read == old(read) + copySize
      ensures Numbers() ==
        Ptrs(if old(head) + copySize == n then 0 else old(head) + copySize, tail, old(size) - copySize)
    {
      PosAdd(n, read, copySize);
      head := head + copySize;
      size := size - copySize;
      read := read + copySize;
      if head == n {
        head := 0;
      }
    }
  }

  // ---------- Runs of the buffer ----------

  /** The DMA receives `data`. */
  method StoreAll(b: DmaRxBuffer, data: seq<byte>)
    requires b.Valid()
    modifies b`stream, b`dma, b.buffer
    ensures b.Valid() && b.stream == old(b.stream) + data
  {
    var rest := data;
    while rest != []
      invariant b.Valid() && b.stream + rest == old(b.stream) + data
      decreases |rest|
    {
      b.Store(rest[0]);
      rest := rest[1..];
    }
  }

  ghost function FeedOf(b: DmaRxBuffer, given: seq<nat>): Feed
    reads b`stream, b`seen, b`read
  {
    Feed(b.stream, b.seen, b.read, given)
  }

  method PlayCopy(b: DmaRxBuffer, size: nat) returns (out: seq<byte>)
    requires b.Valid()
    modifies b`head, b`size, b`read
    ensures b.Valid() && b.read == old(b.read) + Given(b.n, old(FeedOf(b, [])), size)
    ensures Selected(out, b.stream, Cells(b.n, old(b.read), b.read - old(b.read), |b.stream|))
  {
    hide Selected, Cells, DmaRxBuffer.Located, DmaRxBuffer.Holds;
    var dst := new byte[size];
    var k := b.Copy(dst, size);
    out := dst[..k];
  }

  /** The positions that one operation gives. */
  function Gives(n: nat, f: Feed, op: Op): seq<nat>
    requires Sane(n, f)
  {
    if op.Copy? then Cells(n, f.read, Given(n, f, op.size), |f.stream|) else []
  }

  /** One operation on the buffer, timely or not, is one step of the stream, and what a
      copy hands out is what it gives. */
  method Play(b: DmaRxBuffer, op: Op, ghost given: seq<nat>) returns (out: seq<byte>)
    requires b.Valid() && Sane(b.n, FeedOf(b, given))
    modifies b, b.buffer
    ensures b.Valid() && FeedOf(b, Step(b.n, old(FeedOf(b, given)), op).given) == Step(b.n, old(FeedOf(b, given)), op)
    ensures Selected(out, b.stream, Gives(b.n, old(FeedOf(b, given)), op))
  {
    out := [];
    match op {
      case Receive(data) => StoreAll(b, data);
      case Look => b.Look();
      case Copy(size) =>
        out := PlayCopy(b, size);
    }
  }

  /** In every run, timely or not, the bytes copied out are exactly the bytes of the
      stream at the positions the run gives. */
  method PlayAll(b: DmaRxBuffer, ops: seq<Op>) returns (out: seq<byte>, ghost f: Feed)
    requires b.Valid() && FeedOf(b, []) == SILENT
    modifies b, b.buffer
    ensures f == Run(b.n, SILENT, ops) && f.stream == b.stream
    ensures Selected(out, f.stream, f.given)
    ensures Legal(b.n, SILENT, ops) ==> Ascending(f.given, |f.stream|)
  {
    out, f := [], SILENT;
    var rest := ops;
    while rest != []
      invariant b.Valid() && FeedOf(b, f.given) == f && Sane(b.n, f)
      invariant Run(b.n, f, rest) == Run(b.n, SILENT, ops)
      invariant Selected(out, f.stream, f.given)
      decreases |rest|
    {
      ghost var g := Step(b.n, f, rest[0]);
      var data := Play(b, rest[0], f.given);
      StepSelects(b.n, f, rest[0], out, data);
      out, f, rest := out + data, g, rest[1..];
    }
    if Legal(b.n, SILENT, ops) {
      InOrder(b.n, SILENT, ops);
    }
  }

  /** What one step adds to the bytes given. */
  lemma StepSelects(n: nat, f: Feed, op: Op, out: seq<byte>, data: seq<byte>)
    requires Sane(n, f) && Selected(out, f.stream, f.given)
    requires Selected(data, Step(n, f, op).stream, Gives(n, f, op))
    ensures var g := Step(n, f, op); Selected(out + data, g.stream, g.given)
  {
  }

  /** What is copied out in a run that gives the first positions is what arrived
      first. */
  lemma PrefixBytes(f: Feed, out: seq<byte>)
    requires Selected(out, f.stream, f.given) && f.given == Positions(0, |f.given|)
    ensures |out| <= |f.stream| && out == f.stream[..|out|]
  {
    if |out| > 0 {
      assert f.given[|out| - 1] == |out| - 1;
    }
  }

  // ---------- Reading ----------

  /** What happens around one look of the waiting loop: bytes that arrive before it,
      bytes that arrive between it and the copy, and an error of the line. */
  datatype Turn = Turn(before: seq<byte>, between: seq<byte>, error: bool)

  /** All that arrives in the given turns. */
  function Arrived(turns: seq<Turn>): seq<byte> {
    if turns == [] then [] else turns[0].before + turns[0].between + Arrived(turns[1..])
  }

  /** Fewer than `n` bytes arrive from one look to the next, of which `waiting` were
      there already. */
  predicate TimelyTurns(n: nat, waiting: nat, turns: seq<Turn>)
    decreases |turns|
  {
    turns == [] || (waiting + |turns[0].before| < n && TimelyTurns(n, |turns[0].between|, turns[1..]))
  }

  /** The position a look leaves the program at: where it was, unless that byte is no
      longer among the newest `n`. */
  ghost predicate Resumes(b: DmaRxBuffer, before: nat, from: nat)
    reads b`seen
  {
    from == Max(before, Oldest(b.n, b.seen))
  }

  method Arrive(b: DmaRxBuffer, turn: Turn)
    requires b.Valid()
    modifies b, b.buffer
    ensures b.Valid() && Resumes(b, old(b.read), b.read) && old(b.seen) <= b.seen
    ensures b.stream == old(b.stream) + turn.before + turn.between
    ensures b.seen == Noticed(b.n, old(b.read), old(b.seen), |old(b.stream)| + |turn.before|)
  {
    StoreAll(b, turn.before);
    b.Look();
    StoreAll(b, turn.between);
  }

  /** One turn of the waiting loop of `_read`. */
  method WaitOnce(b: DmaRxBuffer, data: array<byte>, size: nat, turn: Turn) returns (copySize: int, ghost from: nat)
    requires b.Valid() && size <= data.Length && data != b.buffer
    modifies b, b.buffer, data
    ensures b.Valid() && Resumes(b, old(b.read), from) && b.read == from + copySize && old(b.seen) <= b.seen
    ensures copySize == Min(Min(b.seen - from, b.n - Pos(b.n, from)), size) >= 0
    ensures b.stream == old(b.stream) + turn.before + turn.between
    ensures b.seen == Noticed(b.n, old(b.read), old(b.seen), |old(b.stream)| + |turn.before|)
    ensures |b.stream| <= from + b.n ==> data[..copySize] == b.stream[from..b.read]
    ensures copySize == 0 ==> data[..] == old(data[..]) && (size > 0 ==> b.read == b.seen)
  {
    hide DmaRxBuffer.Located, DmaRxBuffer.Holds, Cells, Selected, Noticed;
    Arrive(b, turn);
    from := b.read;
    assert data[..] == data[0..];
    copySize := b.Copy(data, size);
    assert data[..] == data[0..];
  }

  /** What `_read` has to show: the unread bytes from `from` on, as many as are
      contiguous and fit; or nothing, and then, once it looked, nothing is unread. */
  ghost predicate Outcome(b: DmaRxBuffer, data: array<byte>, size: nat, res: Option<int>, from: nat, looked: bool)
    requires b.n > 0
    reads b`stream, b`seen, b`read, data
  {
    if res.Some? && res.value > 0 then
      && from <= b.read <= |b.stream| && b.read == from + res.value && res.value <= data.Length
      && res.value == Min(Min(b.seen - from, b.n - Pos(b.n, from)), size)
      && (|b.stream| <= from + b.n ==> data[..res.value] == b.stream[from..b.read])
    else
      b.read == from && (res == None || res.value == -1) && (looked && size > 0 ==> b.read == b.seen)
  }

  /** The waiting loop of `_read`: looks and copies until there is something, or an
      error.  The first turn with an error is the last one; it yields -1 exactly if it
      finds nothing to give.  `None` is a call that still waits after the given turns;
      `taken` of them are used up. */
  method Read(b: DmaRxBuffer, data: array<byte>, size: nat, turns: seq<Turn>)
    returns (res: Option<int>, ghost from: nat, ghost taken: nat)
    requires b.Valid() && size <= data.Length && data != b.buffer
    modifies b, b.buffer, data
    ensures b.Valid() && Resumes(b, old(b.read), from) && taken <= |turns|
    ensures b.stream + Arrived(turns[taken..]) == old(b.stream) + Arrived(turns)
    ensures TimelyTurns(b.n, |old(b.stream)| - old(b.seen), turns) && taken > 0 ==>
      b.seen + |turns[taken - 1].between| == |b.stream|
    ensures Outcome(b, data, size, res, from, taken > 0)
    ensures res == Some(-1) <==> taken > 0 && turns[taken - 1].error && b.read == from
    ensures forall i :: 0 <= i < taken && (i + 1 < taken || res == None) ==> !turns[i].error
    ensures res == None ==> taken == |turns|
    ensures res == None || res.value <= 0 ==> data[..] == old(data[..])
  {
    hide DmaRxBuffer.Located, DmaRxBuffer.Holds, Noticed, Pos;
    AtFirst(b);
    res, from, taken := None, b.read, 0;
    var rest := turns;
    ghost var timely := TimelyTurns(b.n, |b.stream| - b.seen, turns);
    while rest != [] && res == None
      invariant b.Valid() && Resumes(b, old(b.read), from)
      invariant taken + |rest| == |turns| && rest == turns[taken..]
      invariant b.stream + Arrived(rest) == old(b.stream) + Arrived(turns)
      invariant timely ==> TimelyTurns(b.n, |b.stream| - b.seen, rest)
      invariant timely && taken > 0 ==> b.seen + |turns[taken - 1].between| == |b.stream|
      invariant Outcome(b, data, size, res, from, taken > 0)
      invariant res == Some(-1) <==> taken > 0 && turns[taken - 1].error && b.read == from
      invariant forall i :: 0 <= i < taken && (i + 1 < taken || res == None) ==> !turns[i].error
      invariant res == None || res.value <= 0 ==> data[..] == old(data[..])
      decreases |rest|
    {
      var copySize;
      ghost var stream := b.stream;
      copySize, from := WaitOnce(b, data, size, rest[0]);
      ArrivedNext(stream, rest);
      if copySize > 0 {
        res := Some(copySize);
      } else if rest[0].error {
        res := Some(-1);
      }
      rest, taken := rest[1..], taken + 1;
    }
  }

  lemma AtFirst(b: DmaRxBuffer)
    requires b.Valid()
    ensures b.n > 0 && Resumes(b, b.read, b.read)
  {
  }

  lemma ArrivedNext(stream: seq<byte>, turns: seq<Turn>)
    requires turns != []
    ensures stream + turns[0].before + turns[0].between + Arrived(turns[1..]) == stream + Arrived(turns)
  {
  }
}
