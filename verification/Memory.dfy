/** Copying bytes. */
module Memory {
  import opened Pbufs

  function Min(x: int, y: int): int { if x < y then x else y }

  /** Copies `data` to `dst` from index `at` on. */
  method CopyN(data: seq<byte>, dst: array<byte>, at: nat)
    requires at + |data| <= dst.Length
    modifies dst
    ensures dst[..at + |data|] == old(dst[..at]) + data
    ensures dst[at + |data|..] == old(dst[at + |data|..])
  {
    var i := 0;
    while i < |data|
      invariant i <= |data| && dst[..at + i] == old(dst[..at]) + data[..i]
      invariant dst[at + |data|..] == old(dst[at + |data|..])
    {
      dst[at + i] := data[i];
      i := i + 1;
    }
  }
}
