/** Facts about products, division and remainder that the ring indices, page
    addresses and bit fields need. */
module Arithmetic {

  lemma MulAtLeast(k: int, q: int)
    requires k >= 1 && q >= 0
    ensures k * q >= q
  {
    assert k * q == (k - 1) * q + q;
  }

  lemma MulMonotone(a: int, b: int, q: int)
    requires a <= b && q >= 0
    ensures a * q <= b * q
  {
    if a < b {
      MulAtLeast(b - a, q);
      assert b * q == (b - a) * q + a * q;
    }
  }

  lemma Distribute(a: int, b: int, q: int)
    ensures (a + b) * q == a * q + b * q
    ensures (a - b) * q == a * q - b * q
  {
  }

  /** The quotient and remainder are the only pair with the remainder in range. */
  lemma DivModUnique(a: int, d: int, r: int, q: int)
    requires q > 0 && 0 <= r < q && a == d * q + r
    ensures a / q == d && a % q == r
  {
    var d', r' := a / q, a % q;
    assert a == q * d' + r';
    Distribute(d, d', q);
    Distribute(d', d, q);
    if d > d' {
      MulAtLeast(d - d', q);
    } else if d < d' {
      MulAtLeast(d' - d, q);
    }
  }

  lemma DivModParts(a: int, q: int)
    requires q > 0
    ensures a == (a / q) * q + a % q && 0 <= a % q < q
    ensures a >= 0 ==> a / q >= 0
  {
  }

  lemma ModShift(a: int, k: int, q: int)
    requires q > 0
    ensures (a + k * q) % q == a % q && (a + k * q) / q == a / q + k
  {
    DivModParts(a, q);
    Distribute(a / q, k, q);
    DivModUnique(a + k * q, a / q + k, a % q, q);
  }

  /** A bound on a quotient is a bound on the product. */
  lemma DivBound(a: int, q: int, x: int)
    requires q > 0
    ensures x <= a / q <==> x * q <= a
  {
    DivModParts(a, q);
    if x <= a / q {
      MulMonotone(x, a / q, q);
    } else {
      MulMonotone(a / q + 1, x, q);
      Distribute(a / q, 1, q);
    }
  }

  /** Two to the power of `k`. */
  function Pow2(k: nat): (r: nat)
    ensures r > 0
  {
    if k == 0 then 1 else 2 * Pow2(k - 1)
  }

  lemma {:induction false} Pow2Add(a: nat, b: nat)
    ensures Pow2(a + b) == Pow2(a) * Pow2(b)
  {
    if a > 0 {
      Pow2Add(a - 1, b);
    }
  }

  lemma {:induction false} Pow2Monotone(a: nat, b: nat)
    ensures a < b <==> Pow2(a) < Pow2(b)
  {
    if a < b {
      Pow2Add(a, b - a);
      MulMonotone(2, Pow2(b - a), Pow2(a));
    } else {
      Pow2Add(b, a - b);
      MulMonotone(1, Pow2(a - b), Pow2(b));
    }
  }

  lemma Pow2Values()
    ensures Pow2(8) == 0x100 && Pow2(9) == 512 && Pow2(12) == 4096 && Pow2(17) == 131072
    ensures Pow2(22) == 4 * 1024 * 1024 && Pow2(64) == 0x1_0000_0000_0000_0000
  {
    assert Pow2(4) == 16;
    Pow2Add(4, 4);
    Pow2Add(8, 4);
    Pow2Add(8, 8);
    Pow2Add(16, 16);
    Pow2Add(32, 32);
    Pow2Add(12, 10);
    assert Pow2(10) == 2 * Pow2(9) == 4 * Pow2(8);
    assert Pow2(17) == 2 * Pow2(16);
  }
}
