// C's 32-bit integer types and the XALIGN(x, a) rounding macro shared by
// the encoder and the monitor capture: round a UINT32 up to a multiple of a
// power of two a.
module Align {

  const UINT32_LIMIT: int := 0x1_0000_0000
  const INT32_MIN: int := -0x8000_0000
  const INT32_MAX: int := 0x7FFF_FFFF

  /** A value of C's UINT32. */
  type UInt32 = x: int | 0 <= x < 0x1_0000_0000

  /** A value of C's int (and of LONG on Windows). */
  type Int32 = x: int | -0x8000_0000 <= x < 0x8000_0000

  /** (int)u for a UINT32 u: the same 32 bits read as two's complement. */
  function AsInt32(u: UInt32): (r: Int32)
    ensures r % UINT32_LIMIT == u
    ensures r >= 0 <==> u <= INT32_MAX
  {
    if u <= INT32_MAX then u else u - UINT32_LIMIT
  }

  /** The int whose bits are the low 32 bits of x: what C leaves in an int
      when x was computed in UINT32 arithmetic. */
  function Wrap32(x: int): (r: Int32)
    ensures r % UINT32_LIMIT == x % UINT32_LIMIT
    ensures INT32_MIN <= x <= INT32_MAX ==> r == x
  {
    AsInt32(x % UINT32_LIMIT)
  }

  /** The alignments the sources pass to XALIGN. */
  predicate IsAlignment(a: int)
  {
    a == 2 || a == 16 || a == 64
  }

  /** XALIGN(x, a) == ((x) + (a)-1) & ~((a)-1), evaluated in UINT32: the sum
      y wraps modulo 2^32, and clearing the low log2(a) bits of y leaves the
      largest multiple of a that is at most y, which is y - y % a because a is
      a power of two. */
  function XAlign(x: UInt32, a: int): (r: UInt32)
    requires IsAlignment(a)
    ensures r % a == 0 && r % 2 == 0
    ensures r <= (x + a - 1) % UINT32_LIMIT < r + a
    ensures x + a - 1 < UINT32_LIMIT ==> x <= r < x + a
  {
    var y := (x + a - 1) % UINT32_LIMIT;
    y - y % a
  }

  /** Aligning an aligned value changes nothing (no wrap can occur, because
      an aligned UINT32 is at most 2^32 - a). */
  lemma XAlignIdempotent(x: UInt32, a: int)
    requires IsAlignment(a)
    ensures XAlign(XAlign(x, a), a) == XAlign(x, a)
  {
    AlignedFixed(XAlign(x, a), a);
  }

  /** An aligned value is its own alignment. */
  lemma AlignedFixed(r: UInt32, a: int)
    requires IsAlignment(a) && r % a == 0
    ensures XAlign(r, a) == r
  {
    var q := r / a;
    assert r == q * a;
    if a == 2 {
      assert q <= 0x7FFF_FFFF;
    } else if a == 16 {
      assert q <= 0x0FFF_FFFF;
    } else {
      assert q <= 0x03FF_FFFF;
    }
    var y := r + a - 1;
    assert y < UINT32_LIMIT;
    assert y % a == a - 1;
  }

}
