/** Powers of two and single bits of non-negative integers. */
module Bits {

  /** `2**n` */
  function Pow2(n: nat): (r: nat)
    ensures r >= 1
  {
    if n == 0 then 1 else 2 * Pow2(n - 1)
  }

  /** `(x >> j) & 1` for a non-negative `x`: bit `j` of `x`, counted from the
      least significant bit. */
  function Bit(x: nat, j: nat): (b: nat)
    ensures b <= 1
  {
    if j == 0 then x % 2 else Bit(x / 2, j - 1)
  }

  lemma {:induction false} BitOfZero(j: nat)
    ensures Bit(0, j) == 0
  {
    if j > 0 {
      BitOfZero(j - 1);
    }
  }

  /** Two numbers below `2**n` that agree on bits `0 .. n-1` are equal. */
  lemma {:induction false} BitsDetermine(x: nat, y: nat, n: nat)
    requires x < Pow2(n) && y < Pow2(n)
    requires forall j :: 0 <= j < n ==> Bit(x, j) == Bit(y, j)
    ensures x == y
  {
    if n > 0 {
      forall j | 0 <= j < n - 1
        ensures Bit(x / 2, j) == Bit(y / 2, j)
      {
        assert Bit(x, j + 1) == Bit(y, j + 1);
      }
      BitsDetermine(x / 2, y / 2, n - 1);
      assert Bit(x, 0) == Bit(y, 0);
    }
  }

  /** A non-zero number below `2**n` has a set bit among bits `0 .. n-1`. */
  lemma {:induction false} SetBitExists(x: nat, n: nat)
    requires 0 < x < Pow2(n)
    ensures exists j :: 0 <= j < n && Bit(x, j) == 1
  {
    if x % 2 == 1 {
      assert Bit(x, 0) == 1;
    } else {
      SetBitExists(x / 2, n - 1);
      var j :| 0 <= j < n - 1 && Bit(x / 2, j) == 1;
      assert Bit(x, j + 1) == 1;
    }
  }

  lemma {:induction false} MulAtLeast(d: nat, k: nat)
    requires k >= 1
    ensures d * k >= d
  {
    if k > 1 {
      MulAtLeast(d, k - 1);
      assert d * k == d * (k - 1) + d;
    }
  }

  /** Quotient and remainder are unique: the facts about `//` and `%` that the
      level arithmetic needs. */
  lemma DivModUnique(x: nat, d: nat, q: nat, r: nat)
    requires d >= 1 && r < d && x == d * q + r
    ensures x / d == q && x % d == r
  {
    var q', r' := x / d, x % d;
    assert x == d * q' + r';
    if q' < q {
      MulAtLeast(d, q - q');
    } else if q' > q {
      MulAtLeast(d, q' - q);
    }
  }

  /** `x >> n`, by halving; `ShiftAndLowBits` gives its value as `x // 2**n`. */
  function Shift(x: nat, n: nat): nat
  {
    if n == 0 then x else Shift(x / 2, n - 1)
  }

  /** `x % 2**n`, the low `n` bits of `x`, rebuilt one bit at a time. Keeping
      the division by `2**n` out of the definitions keeps the proofs about the
      drivers in linear arithmetic. */
  function LowBits(x: nat, n: nat): nat
  {
    if n == 0 then 0 else 2 * LowBits(x / 2, n - 1) + x % 2
  }

  /** Dividing by `2 * p` is halving, then dividing by `p`; the remainder is
      rebuilt from the remainder by `p` and the bit halving dropped. */
  lemma HalveDivMod(x: nat, p: nat)
    requires p >= 1
    ensures x / (2 * p) == (x / 2) / p && x % (2 * p) == 2 * ((x / 2) % p) + x % 2
  {
    var y := x / 2;
    var q, m := y / p, y % p;
    assert y == p * q + m;
    assert (2 * p) * q == 2 * (p * q);
    assert x == (2 * p) * q + (2 * m + x % 2);
    DivModUnique(x, 2 * p, q, 2 * m + x % 2);
  }

  lemma {:induction false} ShiftAndLowBits(x: nat, n: nat)
    ensures Shift(x, n) == x / Pow2(n) && LowBits(x, n) == x % Pow2(n)
  {
    if n > 0 {
      ShiftAndLowBits(x / 2, n - 1);
      HalveDivMod(x, Pow2(n - 1));
    }
  }

  lemma {:induction false} LowBitsBound(x: nat, n: nat)
    ensures LowBits(x, n) < Pow2(n)
  {
    if n > 0 {
      LowBitsBound(x / 2, n - 1);
    }
  }

  /** A number is determined by its high part `x >> n` and its low `n` bits. */
  lemma {:induction false} ShiftAndLowBitsDetermine(x: nat, y: nat, n: nat)
    requires Shift(x, n) == Shift(y, n) && LowBits(x, n) == LowBits(y, n)
    ensures x == y
  {
    if n > 0 {
      ShiftAndLowBitsDetermine(x / 2, y / 2, n - 1);
    }
  }

  /** Counting up by one carries into the high part exactly when the low `n`
      bits wrap round to 0. */
  lemma {:induction false} ShiftStep(x: nat, n: nat)
    ensures Shift(x + 1, n) == Shift(x, n) + (if LowBits(x + 1, n) == 0 then 1 else 0)
  {
    if n > 0 {
      if x % 2 == 0 {
        assert (x + 1) / 2 == x / 2;
      } else {
        assert (x + 1) / 2 == x / 2 + 1;
        ShiftStep(x / 2, n - 1);
      }
    }
  }
}
