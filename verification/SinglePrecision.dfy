/** Single-precision numbers, as integers: a value of 24 significant bits is a multiple of its
    unit, and a quotient or product is rounded to the nearest such value, ties to even. */
module SinglePrecision {
  import opened Arith

  /** The largest integer below which every integer is a single-precision number. */
  const SINGLE_LIMIT := 0x1000000

  /** p / u, rounded to the nearest integer, ties to even. */
  function Nearest(p: nat, u: nat): (r: nat)
    requires u >= 1
    ensures NearestMultiple(p, u, u * r, r)
  {
    NextMultiple(p, u, p / u);
    Rounded(p / u, p % u, u)
  }

  /** q + m / u, rounded. */
  function Rounded(q: nat, m: nat, u: nat): nat {
    if 2 * m > u || (2 * m == u && q % 2 == 1) then q + 1 else q
  }

  /** v == u * r is a multiple of u nearest to p; of two such it is the even one. */
  predicate NearestMultiple(p: nat, u: nat, v: int, r: nat) {
    && 2 * (v - p) <= u && 2 * (p - v) <= u
    && (2 * (v - p) == u || 2 * (p - v) == u ==> r % 2 == 0)
  }

  lemma NextMultiple(p: nat, u: nat, q: nat)
    requires u >= 1 && q == p / u
    ensures p == u * q + p % u && u * (q + 1) == u * q + u
  {
  }

  /** The distance of neighbouring single-precision numbers at p. */
  function Unit(p: nat): (u: nat)
    ensures u >= 1 && p < SINGLE_LIMIT * u
    ensures u > 1 ==> SINGLE_LIMIT * u <= 2 * p
  {
    if p < SINGLE_LIMIT then 1 else 2 * Unit(p / 2)
  }

  /** p, rounded to single precision. */
  function Single(p: nat): nat {
    Unit(p) * Nearest(p, Unit(p))
  }

  /** A multiple of u is the nearest one to itself. */
  lemma NearestExact(q: nat, u: nat)
    requires u >= 1
    ensures Nearest(u * q, u) == q
  {
    Quotient(u * q, u, q, 0);
  }

  /** Numbers of at most 24 significant bits stay as they are. */
  lemma SingleExact(m: nat, a: nat)
    requires m < SINGLE_LIMIT
    ensures Single(m * Pow2(a)) == m * Pow2(a)
  {
    var p := m * Pow2(a);
    UnitDivides(p, m, a);
    ExactMultiple(p, Unit(p));
  }

  lemma ExactMultiple(p: nat, u: nat)
    requires u >= 1 && p % u == 0
    ensures u * Nearest(p, u) == p
  {
    NextMultiple(p, u, p / u);
    NearestExact(p / u, u);
  }

  lemma {:induction false} UnitDivides(p: nat, m: nat, a: nat)
    requires m < SINGLE_LIMIT && p == m * Pow2(a)
    ensures p % Unit(p) == 0
  {
    if p >= SINGLE_LIMIT {
      assert a >= 1;
      HalfOfProduct(p, m, Pow2(a - 1));
      UnitDivides(p / 2, m, a - 1);
      DoubleDivides(p, Unit(p / 2));
    }
  }

  lemma DoubleDivides(p: nat, u: nat)
    requires u >= 1 && p % 2 == 0 && p / 2 % u == 0
    ensures p % (2 * u) == 0
  {
    var q := p / 2 / u;
    assert p / 2 == u * q + p / 2 % u;
    assert 2 * (u * q) == (2 * u) * q;
    MultipleIff(p, 2 * u, q);
  }

  lemma HalfOfProduct(p: nat, m: nat, b: nat)
    requires p == m * (2 * b)
    ensures p % 2 == 0 && p / 2 == m * b
  {
    assert p == 2 * (m * b);
  }

  // ----- The scale factor -----

  /** The power of two in size / n: the quotient is between 2^e and 2^(e + 1). */
  function Exponent(n: nat, size: nat): (e: nat)
    requires 1 <= n <= size
    ensures n * Pow2(e) <= size < n * Pow2(e + 1)
  {
    if size < 2 * n then 0 else DoubleBounds(n, size, Exponent(n, size / 2)); 1 + Exponent(n, size / 2)
  }

  lemma DoubleBounds(n: nat, size: nat, e: nat)
    requires n * Pow2(e) <= size / 2 < n * Pow2(e + 1)
    ensures n * Pow2(e + 1) <= size < n * Pow2(e + 2)
  {
    assert n * Pow2(e + 1) == 2 * (n * Pow2(e));
    assert n * Pow2(e + 2) == 2 * (n * Pow2(e + 1));
  }

  /** Sizes that the framebuffer code converts to single precision without a change, for an
      axis of n native positions. */
  predicate Convertible(n: nat, size: nat) {
    (n == 192 || n == 256) && n <= size < SINGLE_LIMIT
  }

  /** Some powers, by steps the verifier unfolds. */
  lemma SmallPowers()
    ensures Pow2(7) == 128 && Pow2(8) == 256 && Pow2(16) == 0x10000 && Pow2(17) == 0x20000
    ensures Pow2(23) == 0x800000 && Pow2(24) == 0x1000000
  {
    assert Pow2(4) == 16;
    assert Pow2(8) == 16 * Pow2(4);
    assert Pow2(12) == 16 * Pow2(8);
    assert Pow2(16) == 16 * Pow2(12);
    assert Pow2(20) == 16 * Pow2(16);
    assert Pow2(24) == 16 * Pow2(20);
  }

  lemma ExponentRange(n: nat, size: nat)
    requires Convertible(n, size)
    ensures Exponent(n, size) <= (if size < n * 0x10000 then 15 else 16)
    ensures n == 256 ==> Exponent(n, size) <= 15
  {
    var e := Exponent(n, size);
    SmallPowers();
    if e >= 16 {
      Pow2Grows(16, e);
      MulGap(n, 0x10000, Pow2(e));
      if e >= 17 {
        Pow2Grows(17, e);
        MulGap(n, 0x20000, Pow2(e));
      }
    }
  }

  lemma {:induction false} Pow2Grows(a: nat, b: nat)
    requires a <= b
    ensures Pow2(a) <= Pow2(b)
    decreases b
  {
    if a < b { Pow2Grows(a, b - 1); }
  }

  /** How many units make one: size / n has 23 bits below its leading one, so many of them
      behind the point. */
  function Grid(n: nat, size: nat): (g: nat)
    requires Convertible(n, size)
    ensures g >= 128
    ensures size < n * 0x10000 ==> g >= 256
  {
    ExponentRange(n, size);
    GridPower(Exponent(n, size));
    Pow2(23 - Exponent(n, size))
  }

  lemma GridPower(e: nat)
    requires e <= 16
    ensures Pow2(23 - e) >= 128 && (e <= 15 ==> Pow2(23 - e) >= 256)
    ensures Pow2(23 - e) * Pow2(e) == 0x800000 && Pow2(23 - e) * Pow2(e + 1) == 0x1000000
  {
    SmallPowers();
    PowProduct(23 - e, e);
    PowProduct(23 - e, e + 1);
    Pow2Grows(7, 23 - e);
    if e <= 15 { Pow2Grows(8, 23 - e); }
  }

  lemma {:induction false} PowProduct(a: nat, b: nat)
    ensures Pow2(a) * Pow2(b) == Pow2(a + b)
  {
    if b > 0 {
      PowProduct(a, b - 1);
      assert Pow2(a) * (2 * Pow2(b - 1)) == 2 * (Pow2(a) * Pow2(b - 1));
    }
  }

  /** The single-precision quotient size / n, in units. */
  function Scale(n: nat, size: nat): nat
    requires Convertible(n, size)
  {
    Nearest(size * Grid(n, size), n)
  }

  /** The quotient has 24 significant bits. */
  lemma ScaleIsSingle(n: nat, size: nat)
    requires Convertible(n, size)
    ensures n * 0x800000 <= size * Grid(n, size) < n * SINGLE_LIMIT
    ensures 0x800000 <= Scale(n, size) <= SINGLE_LIMIT
  {
    var e, g, s := Exponent(n, size), Grid(n, size), Scale(n, size);
    ExponentRange(n, size);
    GridPower(e);
    ProductBounds(g, n, size, Pow2(e), Pow2(e + 1), 0x800000, SINGLE_LIMIT);
    NearestBounds(size * g, n, 0x800000, SINGLE_LIMIT);
  }

  lemma ProductBounds(g: nat, n: nat, size: nat, p: nat, q: nat, a: nat, b: nat)
    requires g >= 1 && n * p <= size < n * q && g * p == a && g * q == b
    ensures n * a <= size * g < n * b
  {
    MulGap(g, n * p, size);
    MulGap(g, size, n * q);
    assert g * (n * p) == n * (g * p);
    assert g * (n * q) == n * (g * q);
  }

  lemma NearestBounds(p: nat, u: nat, a: nat, b: nat)
    requires u >= 1 && u * a <= p < u * b
    ensures a <= Nearest(p, u) <= b
  {
    var r := Nearest(p, u);
    if r < a { MulGap(u, r, a); }
    if b < r { MulGap(u, b, r); }
  }
}
