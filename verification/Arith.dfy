/** Powers of two, and division facts with a variable divisor. */
module Arith {
  function Pow2(n: nat): (r: nat)
    ensures r >= 1
  {
    if n == 0 then 1 else 2 * Pow2(n - 1)
  }

  /** Bit n of v. */
  function Bit(v: nat, n: nat): bool { v / Pow2(n) % 2 == 1 }

  lemma ProductPositive(a: nat, b: nat)
    requires a >= 1 && b >= 1
    ensures a * b >= 1
  {
  }

  lemma MulAtLeast(r: nat, k: nat)
    requires k >= 1
    ensures r * k >= r
  {
    assert r * (k - 1) >= 0;
    assert r * k == r * (k - 1) + r;
  }

  lemma MulGap(r: nat, p: int, q: int)
    ensures p < q ==> r * p + r <= r * q
  {
    if p < q {
      assert r * q - r * p == r * (q - p);
      MulAtLeast(r, q - p);
    }
  }

  lemma Quotient(a: int, r: nat, q: int, m: nat)
    requires a == r * q + m && m < r
    ensures a / r == q && a % r == m
  {
    assert a == r * (a / r) + a % r;
    MulGap(r, a / r, q);
    MulGap(r, q, a / r);
  }

  /** Adding one below a modulus. */
  lemma NextModulo(a: nat, r: nat)
    requires r >= 1
    ensures (a + 1) % r == (if a % r + 1 == r then 0 else a % r + 1)
    ensures (a + 1) / r == a / r + (if a % r + 1 == r then 1 else 0)
  {
    var q, m := a / r, a % r;
    assert a + 1 == r * q + (m + 1);
    if m + 1 == r {
      assert r * q + r == r * (q + 1);
      Quotient(a + 1, r, q + 1, 0);
    } else {
      Quotient(a + 1, r, q, m + 1);
    }
  }

  /** The same, for a running total that has just gone from n - 1 to n. */
  lemma TotalStep(v: nat, n: nat, r: nat)
    requires r >= 1 && n >= 1
    ensures var m := (v + (n - 1)) % r;
      && (v + n) % r == (if m + 1 == r then 0 else m + 1)
      && (v + n) / r == (v + (n - 1)) / r + (if m + 1 == r then 1 else 0)
  {
    var a := v + (n - 1);
    assert a + 1 == v + n;
    NextModulo(a, r);
  }

  /** Adding a multiple of the divisor keeps the remainder. */
  lemma AddMultiple(a: int, k: int, r: nat)
    requires r >= 1
    ensures (a + r * k) % r == a % r
  {
    var q := a / r;
    assert a == r * q + a % r;
    assert r * q + r * k == r * (q + k);
    Quotient(a + r * k, r, q + k, a % r);
  }

  lemma MultipleIff(d: nat, r: nat, k: int)
    requires r >= 1 && d == r * k
    ensures d % r == 0
  {
    MulGap(r, k, 0);
    Quotient(d, r, k, 0);
  }

  lemma SameResidueIff(a: nat, d: nat, r: nat)
    requires r >= 1
    ensures a % r == (a + d) % r <==> d % r == 0
  {
    var q1, q2 := a / r, (a + d) / r;
    assert a == r * q1 + a % r && a + d == r * q2 + (a + d) % r;
    if a % r == (a + d) % r {
      assert r * q2 - r * q1 == r * (q2 - q1);
      MultipleIff(d, r, q2 - q1);
    }
    if d % r == 0 {
      assert d == r * (d / r);
      AddMultiple(a, d / r, r);
    }
  }
}
