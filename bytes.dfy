// Byte buffers and the memcpy every copy loop in the sources is built from.
module Bytes {

  newtype byte = b: int | 0 <= b < 256

  /** memcpy(dst + dstOff, src + srcOff, n), from a source buffer the copy
      only reads. */
  method Memcpy(dst: array<byte>, dstOff: nat, src: seq<byte>, srcOff: nat, n: nat)
    requires dstOff + n <= dst.Length && srcOff + n <= |src|
    modifies dst
    ensures forall p | dstOff <= p < dstOff + n :: dst[p] == src[srcOff + (p - dstOff)]
    ensures forall p | 0 <= p < dst.Length && !(dstOff <= p < dstOff + n) :: dst[p] == old(dst[p])
    ensures dst[..dstOff + n] == old(dst[..dstOff]) + src[srcOff .. srcOff + n]
  {
    var t := 0;
    while t < n
      invariant 0 <= t <= n
      invariant forall p | dstOff <= p < dstOff + t :: dst[p] == src[srcOff + (p - dstOff)]
      invariant forall p | 0 <= p < dst.Length && !(dstOff <= p < dstOff + t) :: dst[p] == old(dst[p])
    {
      dst[dstOff + t] := src[srcOff + t];
      t := t + 1;
    }
    assert dst[..dstOff + n] == old(dst[..dstOff]) + src[srcOff .. srcOff + n];
  }
}
