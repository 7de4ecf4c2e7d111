/** Bitwise AND on non-negative integers, as the C program applies it to the
    button register and to the frame counter, together with single-bit views. */
module Bits {

  function Pow2(k: nat): (r: nat)
    ensures r >= 1
  {
    if k == 0 then 1 else 2 * Pow2(k - 1)
  }

  /** Bit `k` of `a` (0 or 1). */
  function Bit(a: nat, k: nat): (r: nat)
    ensures r < 2
  {
    if k == 0 then a % 2 else Bit(a / 2, k - 1)
  }

  /** The C `&` on non-negative operands, defined bit by bit from the lowest bit. */
  function BitAnd(a: nat, b: nat): nat
    decreases a
  {
    if a == 0 || b == 0 then 0
    else 2 * BitAnd(a / 2, b / 2) + (if a % 2 == 1 && b % 2 == 1 then 1 else 0)
  }

  lemma {:induction false} BitOfZero(k: nat)
    ensures Bit(0, k) == 0
  {
    if k > 0 {
      BitOfZero(k - 1);
    }
  }

  /** Masking with a single bit keeps exactly that bit:
      `a & (1 << k)` is `1 << k` when bit `k` of `a` is set and 0 otherwise. */
  lemma {:induction false} BitAndPow2(a: nat, k: nat)
    ensures BitAnd(a, Pow2(k)) == Pow2(k) * Bit(a, k)
    decreases k
  {
    if k == 0 {
      assert BitAnd(a / 2, 0) == 0;
    } else if a == 0 {
      BitOfZero(k);
    } else {
      BitAndPow2(a / 2, k - 1);
      assert Pow2(k) / 2 == Pow2(k - 1) && Pow2(k) % 2 == 0;
    }
  }

  /** The same fact stated as a test: `(a & (1 << k)) == 0` iff bit `k` is clear. */
  lemma MaskedBitClear(a: nat, k: nat)
    ensures BitAnd(a, Pow2(k)) == 0 <==> Bit(a, k) == 0
  {
    BitAndPow2(a, k);
  }

  /** Bits 0 and 1 of a number are its remainder by 2 and the parity of its half. */
  lemma LowBits(a: nat)
    ensures Bit(a, 0) == a % 2
    ensures Bit(a, 1) == (a / 2) % 2
  {
  }
}
