/** FX33's decimal split.

    The handler divides with `/`, which in Python 3 is true division: the
    hundreds and tens cells receive fractions (123 stores 1.23 and 2.3), and
    only the ones cell receives an integer. The evident intent is the usual
    binary-coded decimal store of three digits, which Semantics.Digits
    computes and the rest of the model uses. */
module Bcd {
  import opened Semantics

  /** The three values the handler stores, as written: `v / 100`,
      `(v % 100) / 10` with true division, and `v % 10`. */
  function AsWrittenDigits(v: nat): (d: (real, real, nat))
    ensures d.2 < 10
    ensures d.0 * 100.0 == v as real && d.1 * 10.0 == (v % 100) as real
  {
    (v as real / 100.0, (v % 100) as real / 10.0, v % 10)
  }

  /** The hundreds cell as written holds the hundreds digit exactly when the
      value is a multiple of 100; otherwise it holds a fraction. */
  lemma AsWrittenHundreds(v: nat)
    ensures AsWrittenDigits(v).0 == Digits(v).0 as real <==> v % 100 == 0
  {
    var d := Digits(v);
    assert v == 100 * d.0 + 10 * d.1 + d.2;
    if AsWrittenDigits(v).0 == d.0 as real {
      assert v as real == (100 * d.0) as real;
    }
  }

  /** 123 is stored as 1.23, 2.3 and 3 rather than 1, 2 and 3. */
  lemma AsWrittenExample()
    ensures AsWrittenDigits(123) == (1.23, 2.3, 3)
    ensures Digits(123) == (1, 2, 3)
  {
  }

  /** The corrected split is the decimal representation: the only three
      digits that spell `v` (for `v` below 1000). */
  lemma {:induction false} DigitsUnique(v: nat, h: nat, t: nat, o: nat)
    requires v < 1000 && h < 10 && t < 10 && o < 10
    ensures 100 * h + 10 * t + o == v <==> Digits(v) == (h, t, o)
  {
    var d := Digits(v);
    if 100 * h + 10 * t + o == v {
      assert 100 * d.0 + 10 * d.1 + d.2 == 100 * h + 10 * t + o;
      assert d.0 == h;
      assert d.1 == t;
    }
  }
}
