// Integer facts and C arithmetic shared by the models.
module Arith {

  /** C's `/` on int: the quotient truncated toward zero. */
  function CDiv(a: int, b: int): (q: int)
    requires b != 0
    ensures a >= 0 && b > 0 ==> q == a / b
    ensures (a >= 0) == (b > 0) || q <= 0
  {
    if (a >= 0) == (b > 0) then
      (if a >= 0 then a / b else (-a) / (-b))
    else
      -((if a >= 0 then a else -a) / (if b >= 0 then b else -b))
  }

  /** a * b on naturals, defined by repeated addition. Byte offsets are
      written with Mul so that their proofs go through the lemmas below, one
      step at a time, rather than through general nonlinear arithmetic. */
  function Mul(a: nat, b: nat): nat
  {
    if a == 0 then 0 else Mul(a - 1, b) + b
  }

  lemma {:induction false} MulIsProduct(a: nat, b: nat)
    ensures Mul(a, b) == a * b
  {
    if a > 0 {
      MulIsProduct(a - 1, b);
    }
  }

  lemma MulSucc(a: nat, b: nat)
    ensures Mul(a + 1, b) == Mul(a, b) + b
  {
  }

  lemma MulComm(a: nat, b: nat)
    ensures Mul(a, b) == Mul(b, a)
  {
    MulIsProduct(a, b);
    MulIsProduct(b, a);
  }

  /** Rows of b pixels of 4 bytes each. */
  lemma {:induction false} MulFour(a: nat, b: nat)
    ensures Mul(a, b * 4) == Mul(a, b) * 4
  {
    if a > 0 {
      MulFour(a - 1, b);
    }
  }

  lemma MulAtLeast(d: int, n: int)
    requires d >= 1 && n >= 0
    ensures d * n >= n
  {
  }

  lemma MulMonotone(a: nat, b: nat, n: nat)
    requires a <= b
    ensures Mul(a, n) <= Mul(b, n)
  {
    MulIsProduct(a, n);
    MulIsProduct(b, n);
    if a < b {
      MulAtLeast(b - a, n);
      assert b * n - a * n == (b - a) * n;
    }
  }

  /** Row i of rows of n, up to and including its end, lies within rows
      full rows. */
  lemma RowEnd(i: nat, j: nat, rows: nat, n: nat)
    requires i < rows && j <= n
    ensures Mul(i, n) + j <= Mul(rows, n)
  {
    MulMonotone(i + 1, rows, n);
  }

  /** A multiple of an even number is twice the multiple of its half. */
  lemma {:induction false} MulDouble(i: nat, h: nat)
    ensures Mul(i, 2 * h) == 2 * Mul(i, h)
  {
    if i > 0 {
      MulDouble(i - 1, h);
    }
  }

  /** An even number of rows is twice its half. */
  lemma MulDoubleRows(h: nat, w: nat)
    ensures Mul(2 * h, w) == 2 * Mul(h, w)
  {
    MulComm(2 * h, w);
    MulComm(h, w);
    MulDouble(w, h);
  }
}
