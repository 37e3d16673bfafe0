/** Division, remainders and powers of two. */
module Arith {
  function Pow2(bits: nat): (n: nat)
    ensures n >= 1
  {
    if bits == 0 then 1 else 2 * Pow2(bits - 1)
  }

  lemma Product(a: int, n: int)
    requires a >= 1 && n >= 0
    ensures a * n >= n
  {
  }

  lemma Split(low: int, high: int, n: int)
    requires 0 <= low < n
    ensures (low + high * n) / n == high && (low + high * n) % n == low
  {
    var q, r := (low + high * n) / n, (low + high * n) % n;
    assert (q - high) * n == low - r;
    if q > high {
      Product(q - high, n);
    } else if q < high {
      Product(high - q, n);
    }
  }

  lemma {:induction false} PowAdd(a: nat, b: nat)
    ensures Pow2(a + b) == Pow2(a) * Pow2(b)
  {
    if a > 0 {
      PowAdd(a - 1, b);
      assert Pow2(a + b) == 2 * Pow2(a - 1 + b);
    }
  }

  lemma PowOne()
    ensures Pow2(1) == 2
  {
    assert Pow2(0) == 1;
  }

  lemma Pow32()
    ensures Pow2(32) == 0x1_0000_0000
  {
    assert Pow2(8) == 256 by { assert Pow2(4) == 16; }
    assert Pow2(12) == 4096;
    assert Pow2(16) == 65536;
    assert Pow2(20) == 0x10_0000;
    assert Pow2(24) == 0x100_0000;
    assert Pow2(28) == 0x1000_0000;
  }

  function Quotient(x: nat, n: nat): nat
    requires n > 0
  {
    x / n
  }

  function Min(a: int, b: int): int { if a <= b then a else b }

  // An odd factor can be cancelled modulo a power of two.
  lemma {:induction false} OddCancels(bits: nat, a: nat, d: nat, m: nat)
    requires a % 2 == 1 && a * d == m * Pow2(bits)
    ensures exists q: nat :: d == q * Pow2(bits)
  {
    if bits == 0 {
      assert d == d * Pow2(0);
    } else {
      var h := Pow2(bits - 1);
      assert a * d == 2 * (m * h);
      EvenFactor(a, d, m * h);
      var e := d / 2;
      assert a * d == 2 * (a * e);
      OddCancels(bits - 1, a, e, m);
      var q: nat :| e == q * h;
      assert d == q * Pow2(bits);
    }
  }

  lemma EvenFactor(a: nat, d: nat, x: nat)
    requires a % 2 == 1 && a * d == 2 * x
    ensures d % 2 == 0 && d == 2 * (d / 2)
  {
    var b := a / 2;
    assert a * d == 2 * (b * d) + d;
  }

  lemma SameResidue(x: nat, y: nat, n: nat) returns (m: nat)
    requires n > 0 && x <= y && x % n == y % n
    ensures y - x == m * n
  {
    var q := y / n - x / n;
    assert y - x == q * n;
    if q < 0 {
      Product(-q, n);
    }
    m := q;
  }
}
