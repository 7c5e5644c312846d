/** One Ethernet transmit descriptor and the words the DMA reads from it.  Word 3,
    into which the driver ORs flags and a length, is modelled as the set of its
    bits that are 1: `|` is union, a mask is an intersection. */
module TxDescriptors {
  import opened Pbufs

  type Word = set<nat>

  // ---------- Numbers as bits ----------

  function BitsFrom(n: nat, i: nat): Word {
    if n == 0 then {} else (if n % 2 == 1 then {i} else {}) + BitsFrom(n / 2, i + 1)
  }

  function Bits(n: nat): Word { BitsFrom(n, 0) }

  lemma {:induction false} BitsRange(n: nat, i: nat, b: nat)
    ensures b in BitsFrom(n, i) ==> i <= b
    decreases n
  {
    if n != 0 {
      BitsRange(n / 2, i + 1, b);
    }
  }

  lemma {:induction false} BitsInjectiveFrom(m: nat, n: nat, i: nat)
    requires BitsFrom(m, i) == BitsFrom(n, i)
    ensures m == n
    decreases m + n
  {
    BitsRange(m / 2, i + 1, i);
    BitsRange(n / 2, i + 1, i);
    if m == 0 && n == 0 {
    } else if m == 0 {
      BitsNonEmpty(n, i);
    } else if n == 0 {
      BitsNonEmpty(m, i);
    } else {
      assert i in BitsFrom(m, i) <==> m % 2 == 1;
      assert i in BitsFrom(n, i) <==> n % 2 == 1;
      assert BitsFrom(m / 2, i + 1) == BitsFrom(m, i) - {i};
      assert BitsFrom(n / 2, i + 1) == BitsFrom(n, i) - {i};
      BitsInjectiveFrom(m / 2, n / 2, i + 1);
    }
  }

  lemma {:induction false} BitsNonEmpty(n: nat, i: nat)
    requires n > 0
    ensures BitsFrom(n, i) != {}
  {
    if n % 2 == 1 {
      assert i in BitsFrom(n, i);
    } else {
      BitsNonEmpty(n / 2, i + 1);
    }
  }

  /** A number can be read back from its bits. */
  lemma BitsInjective(m: nat, n: nat)
    ensures Bits(m) == Bits(n) <==> m == n
  {
    if Bits(m) == Bits(n) {
      BitsInjectiveFrom(m, n, 0);
    }
  }

  // ---------- Words 2 and 3 ----------

  const OWN: Word := {31}
  const FD: Word := {29}
  const LD: Word := {28}
  const CIC: Word := {16, 17}
  const LENGTH: Word := set b: nat | b < 15

  function Pow2(k: nat): (p: nat)
    ensures p >= 1
  {
    if k == 0 then 1 else 2 * Pow2(k - 1)
  }

  /** Multiplying by a power of two moves the bits up. */
  lemma {:induction false} BitsShift(n: nat, k: nat, i: nat)
    requires n > 0
    ensures BitsFrom(n * Pow2(k), i) == BitsFrom(n, i + k)
    decreases k
  {
    if k > 0 {
      var m := n * Pow2(k - 1);
      assert n * Pow2(k) == 2 * m;
      BitsShift(n, k - 1, i + 1);
      assert m > 0;
      assert BitsFrom(2 * m, i) == {} + BitsFrom(m, i + 1);
    }
  }

  lemma Powers()
    ensures Pow2(16) == 0x1_0000 && Pow2(28) == 0x1000_0000 && Pow2(29) == 0x2000_0000 && Pow2(31) == 0x8000_0000
  {
    assert Pow2(4) == 16 && Pow2(8) == 256 && Pow2(12) == 4096 && Pow2(16) == 0x1_0000;
    assert Pow2(20) == 0x10_0000 && Pow2(24) == 0x100_0000 && Pow2(28) == 0x1000_0000;
  }

  lemma OneBit(k: nat)
    ensures Bits(Pow2(k)) == {k}
  {
    BitsShift(1, k, 0);
  }

  lemma TwoBits(k: nat)
    ensures Bits(3 * Pow2(k)) == {k, k + 1}
  {
    BitsShift(3, k, 0);
    assert BitsFrom(3, k) == {k} + BitsFrom(1, k + 1);
  }

  /** The flags are the numbers that the code gives. */
  lemma Flags()
    ensures OWN == Bits(0x8000_0000) && FD == Bits(0x2000_0000) && LD == Bits(0x1000_0000) && CIC == Bits(0x3_0000)
  {
    hide Bits, Pow2;
    Powers();
    OneBit(31);
    OneBit(29);
    OneBit(28);
    TwoBits(16);
  }

  function Word2(len1: u16, len2: u16): nat { len2 * 0x1_0000 + len1 }

  function Len1(w2: nat): u16 { w2 % 0x1_0000 }

  function Len2(w2: nat): u16 { w2 / 0x1_0000 % 0x1_0000 }

  lemma Word2Exact(len1: u16, len2: u16)
    ensures Len1(Word2(len1, len2)) == len1 && Len2(Word2(len1, len2)) == len2
  {
  }

  /** What the driver leaves in word 3 when `prev` was there before: the flags, the
      checksum control and the length are ORed in, nothing is cleared. */
  function Word3(prev: Word, first: bool, last: bool, total: Word): Word {
    prev + (if first then FD else {}) + CIC + total + (if last then LD else {}) + OWN
  }

  predicate Owned(w3: Word) { OWN <= w3 }

  predicate IsFirst(w3: Word) { FD <= w3 }

  predicate IsLast(w3: Word) { LD <= w3 }

  function Frame(w3: Word): Word { w3 * LENGTH }

  /** The length fits its field. */
  predicate Fits(total: Word) { total <= LENGTH }

  predicate Below(bits: Word, bound: nat) {
    forall b :: b in bits ==> b < bound
  }

  lemma {:induction false} BitsBelow(n: nat, i: nat, k: nat)
    ensures Below(BitsFrom(n, i), i + k) <==> n < Pow2(k)
    decreases k
  {
    if n == 0 {
    } else if k > 0 {
      BitsBelow(n / 2, i + 1, k - 1);
      assert BitsFrom(n, i) == (if n % 2 == 1 then {i} else {}) + BitsFrom(n / 2, i + 1);
      assert Below(BitsFrom(n, i), i + k) <==> Below(BitsFrom(n / 2, i + 1), i + 1 + (k - 1));
    } else {
      BitsNonEmpty(n, i);
      var b :| b in BitsFrom(n, i);
      BitsRange(n, i, b);
    }
  }

  /** The field has 15 bits. */
  lemma FitsIff(total: nat)
    ensures Fits(Bits(total)) <==> total < 0x8000
  {
    BitsBelow(total, 0, 15);
    assert Pow2(15) == 0x8000 by {
      assert Pow2(5) == 32 && Pow2(10) == 1024;
    }
    assert Fits(Bits(total)) <==> Below(Bits(total), 15);
  }

  /** Nothing is left in the word that the driver will not overwrite. */
  predicate Clean(prev: Word) {
    !IsFirst(prev) && !IsLast(prev) && Frame(prev) == {}
  }

  /** The fields of a filled word 3, from those of the word that was there. */
  lemma Word3Reads(prev: Word, first: bool, last: bool, total: Word)
    requires Fits(total)
    ensures var w := Word3(prev, first, last, total);
      && Owned(w) && CIC <= w && (IsFirst(w) <==> first || IsFirst(prev)) && (IsLast(w) <==> last || IsLast(prev))
      && (Frame(w) == total <==> Frame(prev) <= total)
  {
    var w := Word3(prev, first, last, total);
    assert 29 in w <==> first || 29 in prev;
    assert 28 in w <==> last || 28 in prev;
    assert Frame(w) == Frame(prev) + total;
  }

  /** The DMA reads the word as the driver means it exactly when what was left in
      it adds neither a flag nor a length bit of its own. */
  lemma Word3Exact(prev: Word, first: bool, last: bool, total: Word)
    requires Fits(total)
    ensures var w := Word3(prev, first, last, total);
      (IsFirst(w) == first && IsLast(w) == last && Frame(w) == total)
      <==> ((first || !IsFirst(prev)) && (last || !IsLast(prev)) && Frame(prev) <= total)
  {
    Word3Reads(prev, first, last, total);
  }

  // ---------- The descriptor ----------

  /** A stretch of memory: the payload of a packet buffer, or nothing. */
  datatype Span = Span(data: Pbuf?, size: u16)

  const NOTHING := Span(null, 0)

  /** A descriptor does not point to an empty span. */
  function Target(b: Span): Pbuf? {
    if b.size != 0 then b.data else null
  }

  class TxDescriptor {
    var desc0: Pbuf?
    var desc1: Pbuf?
    var desc2: nat
    var desc3: Word
    var appData0: Pbuf?
    var appData1: nat

    method Set(buf1: Span, buf2: Span, payloadLength: Word)
      modifies `desc0, `desc1, `desc2, `desc3
      ensures desc0 == Target(buf1) && desc1 == Target(buf2)
      ensures desc2 == Word2(buf1.size, buf2.size) && desc3 == old(desc3) + CIC + payloadLength
    {
      desc0 := if buf1.size != 0 then buf1.data else null;
      desc1 := if buf2.size != 0 then buf2.data else null;
      desc2 := buf2.size * 0x1_0000 + buf1.size;
      desc3 := desc3 + CIC + payloadLength;
    }

    predicate OwnedByDma()
      reads `desc3
    {
      Owned(desc3)
    }

    method SetOwned()
      modifies `desc3
      ensures desc3 == old(desc3) + OWN && OwnedByDma()
    {
      desc3 := desc3 + OWN;
    }

    method SetFirstDescriptor()
      modifies `desc3
      ensures desc3 == old(desc3) + FD && IsFirst(desc3)
    {
      desc3 := desc3 + FD;
    }

    method SetLastDescriptor()
      modifies `desc3
      ensures desc3 == old(desc3) + LD && IsLast(desc3)
    {
      desc3 := desc3 + LD;
    }

    method SetAppData(data0: Pbuf?, data1: nat)
      modifies `appData0, `appData1
      ensures appData0 == data0 && appData1 == data1
    {
      appData0, appData1 := data0, data1;
    }
  }
}
