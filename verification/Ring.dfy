/** Positions in a ring of `n` slots that is used over and over. */
module Rings {
  /** The slot of the `i`-th use: `i` modulo `n`. */
  function Pos(n: nat, i: nat): (p: nat)
    requires n > 0
    ensures p < n && p <= i
  {
    if i < n then i else Pos(n, i - n)
  }

  lemma {:induction false} PosNext(n: nat, i: nat)
    requires n > 0
    ensures Pos(n, i + 1) == if Pos(n, i) + 1 == n then 0 else Pos(n, i) + 1
  {
    if i >= n {
      PosNext(n, i - n);
    }
  }

  /** Two positions at most a round apart coincide only when nothing or a whole
      round lies between them. */
  lemma {:induction false} PosSame(n: nat, i: nat, j: nat)
    requires n > 0 && i <= j <= i + n
    ensures Pos(n, i) == Pos(n, j) <==> j == i || j == i + n
  {
    if i >= n {
      PosSame(n, i - n, j - n);
    } else if j >= n {
      assert Pos(n, j) == j - n;
    }
  }

  lemma PosDistinct(n: nat, i: nat, j: nat)
    requires n > 0 && i < j < i + n
    ensures Pos(n, i) != Pos(n, j)
  {
    PosSame(n, i, j);
  }

  lemma {:induction false} PosMod(n: nat, i: nat)
    requires n > 0
    ensures Pos(n, i) == i % n
  {
    if i >= n {
      PosMod(n, i - n);
      ModStep(n, i - n);
    } else {
      SmallMod(n, i);
    }
  }

  lemma SmallMod(n: nat, i: nat)
    requires i < n
    ensures i % n == i
  {
  }

  lemma ModStep(n: nat, i: nat)
    requires n > 0
    ensures (i + n) % n == i % n
  {
    var q, r := i / n, i % n;
    assert i + n == n * (q + 1) + r;
    DivUnique(n, i + n, q + 1, r);
  }

  lemma Scale(n: int, d: int)
    requires n > 0
    ensures (d >= 1 ==> n * d >= n) && (d <= -1 ==> n * d <= -n)
  {
    assert n * d == n * (d - 1) + n && n * d == n * (d + 1) - n;
  }

  lemma DivUnique(n: nat, x: nat, q: int, r: nat)
    requires r < n && x == n * q + r
    ensures x % n == r
  {
    var d := x / n - q;
    assert n * d == r - x % n;
    Scale(n, d);
  }

  /** Moving on by at most a round. */
  lemma {:induction false} PosAdd(n: nat, i: nat, k: nat)
    requires n > 0 && k <= n
    ensures Pos(n, i + k) == if Pos(n, i) + k < n then Pos(n, i) + k else Pos(n, i) + k - n
  {
    if i >= n {
      PosAdd(n, i - n, k);
    }
  }

  /** The distance between two uses, up to whole rounds, from their slots. */
  lemma {:induction false} PosGap(n: nat, i: nat, j: nat)
    requires n > 0 && i <= j
    ensures Pos(n, j - i) == if Pos(n, j) >= Pos(n, i) then Pos(n, j) - Pos(n, i) else Pos(n, j) - Pos(n, i) + n
    decreases j - i
  {
    if j - i < n {
      PosAdd(n, i, j - i);
    } else {
      PosGap(n, i, j - n);
    }
  }
}
