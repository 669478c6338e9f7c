/** Bitwise operations on non-negative integers.

    The interpreter keeps its registers and memory cells as unbounded
    integers (an `ADD Vx, byte` is never masked), so `&`, `|` and `^` are
    defined here bit by bit on `nat`, and the lemmas below give the
    arithmetic meaning of the masks the interpreter uses: a low mask
    `2^k - 1` keeps the remainder modulo `2^k`, a shifted mask keeps a field.
    Shifts are defined bit by bit too, so that the inductive proofs stay
    within linear arithmetic; ShiftsAreArithmetic connects them to `*`,
    `/` and `%`.
 */
module Bits {

  function Pow2(k: nat): (r: nat)
    ensures r >= 1
  {
    if k == 0 then 1 else 2 * Pow2(k - 1)
  }

  /** `m << k` */
  function Shl(m: nat, k: nat): nat {
    if k == 0 then m else 2 * Shl(m, k - 1)
  }

  /** `a >> k` */
  function Shr(a: nat, k: nat): nat {
    if k == 0 then a else Shr(a / 2, k - 1)
  }

  /** The low `k` bits of `a`: `a & ((1 << k) - 1)`. */
  function Low(a: nat, k: nat): nat {
    if k == 0 then 0 else 2 * Low(a / 2, k - 1) + a % 2
  }

  /** `a & b`, one bit at a time from the least significant end. */
  function And(a: nat, b: nat): nat {
    if a == 0 then 0
    else 2 * And(a / 2, b / 2) + (if a % 2 == 1 && b % 2 == 1 then 1 else 0)
  }

  /** `a | b`. */
  function Or(a: nat, b: nat): nat {
    if a == 0 then b
    else if b == 0 then a
    else 2 * Or(a / 2, b / 2) + (if a % 2 == 1 || b % 2 == 1 then 1 else 0)
  }

  /** `a ^ b`. */
  function Xor(a: nat, b: nat): nat {
    if a == 0 then b
    else if b == 0 then a
    else 2 * Xor(a / 2, b / 2) + (if a % 2 != b % 2 then 1 else 0)
  }

  /** Bit `k` of `a`, as 0 or 1. */
  function Bit(a: nat, k: nat): nat {
    Shr(a, k) % 2
  }

  // ---------------------------------------------------------------------
  // Arithmetic facts

  lemma Pow2Values()
    ensures Pow2(1) == 2 && Pow2(4) == 16 && Pow2(7) == 128
    ensures Pow2(8) == 256 && Pow2(12) == 4096
  {
    assert Pow2(4) == 16 by { assert Pow2(2) == 4; }
    assert Pow2(8) == 256 by { assert Pow2(6) == 64; }
    assert Pow2(12) == 4096 by { assert Pow2(10) == 1024; }
  }

  lemma MulNonneg(x: int, y: int)
    requires x >= 0 && y >= 0
    ensures x * y >= 0
  {
  }

  /** Division with remainder has one answer. */
  lemma DivModUnique(a: int, d: int, q: int, r: int)
    requires d > 0 && 0 <= r < d && a == q * d + r
    ensures a / d == q && a % d == r
  {
    var q0, r0 := a / d, a % d;
    assert a == q0 * d + r0;
    if q > q0 {
      MulNonneg(q - q0 - 1, d);
      assert false;
    } else if q < q0 {
      MulNonneg(q0 - q - 1, d);
      assert false;
    }
  }

  lemma MulTwice(a: int, p: int)
    ensures a * (2 * p) == 2 * (a * p)
  {
  }

  /** Shifting left by `k` bits is multiplying by `2^k`. */
  lemma {:induction false} ShlIsMul(a: nat, k: nat)
    ensures Shl(a, k) == a * Pow2(k)
  {
    if k > 0 {
      ShlIsMul(a, k - 1);
      MulTwice(a, Pow2(k - 1));
    }
  }

  /** `a` splits into its bits above `k` and its low `k` bits. */
  lemma {:induction false} ShrLowSplit(a: nat, k: nat)
    ensures a == Shl(Shr(a, k), k) + Low(a, k) && Low(a, k) < Pow2(k)
  {
    if k > 0 {
      ShrLowSplit(a / 2, k - 1);
    }
  }

  /** Shifting right by `k` bits is dividing by `2^k`, and the low `k` bits
      are the remainder. */
  lemma ShrIsDiv(a: nat, k: nat)
    ensures Shr(a, k) == a / Pow2(k) && Low(a, k) == a % Pow2(k)
  {
    ShrLowSplit(a, k);
    ShlIsMul(Shr(a, k), k);
    DivModUnique(a, Pow2(k), Shr(a, k), Low(a, k));
  }

  lemma ShiftsAreArithmetic(a: nat, k: nat)
    ensures Shl(a, k) == a * Pow2(k)
    ensures Shr(a, k) == a / Pow2(k) && Low(a, k) == a % Pow2(k)
  {
    ShlIsMul(a, k);
    ShrIsDiv(a, k);
  }

  // ---------------------------------------------------------------------
  // Masks

  lemma AndStep(a: nat, b: nat)
    ensures And(a, b) == 2 * And(a / 2, b / 2) + (if a % 2 == 1 && b % 2 == 1 then 1 else 0)
  {
  }

  lemma {:induction false} AndZero(a: nat)
    ensures And(a, 0) == 0
  {
    if a != 0 {
      AndZero(a / 2);
    }
  }

  /** `a & b` is no larger than either operand. */
  lemma {:induction false} AndBound(a: nat, b: nat)
    ensures And(a, b) <= a && And(a, b) <= b
  {
    if a != 0 {
      AndBound(a / 2, b / 2);
    }
  }

  /** A low mask keeps the low bits: `a & (2^k - 1) == a % 2^k`. */
  lemma {:induction false} AndLow(a: nat, k: nat)
    ensures And(a, Pow2(k) - 1) == Low(a, k)
  {
    if k == 0 {
      AndZero(a);
    } else {
      var b := Pow2(k) - 1;
      assert b / 2 == Pow2(k - 1) - 1 && b % 2 == 1;
      AndLow(a / 2, k - 1);
      AndStep(a, b);
      assert And(a, b) == 2 * Low(a / 2, k - 1) + a % 2;
    }
  }

  /** A mask made of a high part `m << k` and a low part `lo < 2^k` acts on
      the high bits and the low bits of `a` separately. */
  lemma {:induction false} AndSplit(a: nat, m: nat, lo: nat, k: nat)
    requires lo < Pow2(k)
    ensures And(a, Shl(m, k) + lo) == Shl(And(Shr(a, k), m), k) + And(Low(a, k), lo)
  {
    if k > 0 {
      var b, r := Shl(m, k) + lo, Low(a, k);
      assert b / 2 == Shl(m, k - 1) + lo / 2 && b % 2 == lo % 2;
      assert r / 2 == Low(a / 2, k - 1) && r % 2 == a % 2;
      AndSplit(a / 2, m, lo / 2, k - 1);
      AndStep(a, b);
      AndStep(r, lo);
    } else {
      assert lo == 0 && Shl(m, k) == m && Shr(a, k) == a && Low(a, k) == 0;
    }
  }

  /** `(a << k) | b` is `(a << k) + b` when `b` fits in `k` bits. */
  lemma {:induction false} OrShift(a: nat, b: nat, k: nat)
    requires b < Pow2(k)
    ensures Or(Shl(a, k), b) == Shl(a, k) + b
  {
    if k > 0 && Shl(a, k) != 0 && b != 0 {
      OrShift(a, b / 2, k - 1);
    }
  }

  /** `(a & (1 << k)) >> k` is bit `k` of `a`. */
  lemma MaskedBit(a: nat, k: nat)
    ensures Shr(And(a, Shl(1, k)), k) == Bit(a, k)
  {
    AndSplit(a, 1, 0, k);
    AndZero(Low(a, k));
    assert Pow2(1) == 2;
    AndLow(Shr(a, k), 1);
    ShiftsAreArithmetic(Shr(a, k), 1);
    ShiftsAreArithmetic(And(Shr(a, k), 1), k);
    ShiftsAreArithmetic(Shl(And(Shr(a, k), 1), k), k);
    DivModUnique(And(Shr(a, k), 1) * Pow2(k), Pow2(k), And(Shr(a, k), 1), 0);
  }
}
