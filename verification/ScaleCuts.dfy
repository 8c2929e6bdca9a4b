/** How an axis of n native positions is shared out among `size` destination positions: each
    share begins at the ceiling of a multiple of size / n. The emulator computes the multiples
    in single precision. */
module ScaleCuts {
  import opened Arith
  import opened SinglePrecision

  // ----- The partition -----

  /** cuts[i] is the first destination position of source position i: n shares, none empty,
      which make up `size` positions. */
  predicate Partition(cuts: seq<nat>, n: nat, size: nat) {
    && 1 <= n && |cuts| == n + 1 && cuts[0] == 0 && cuts[n] == size
    && forall i :: 0 <= i < n ==> cuts[i] < cuts[i + 1]
  }

  /** The source position that destination position t shows. */
  function Owner(cuts: seq<nat>, n: nat, t: nat): (i: nat)
    requires 1 <= n < |cuts| && cuts[0] <= t
    ensures i < n && cuts[i] <= t && (t < cuts[n] ==> t < cuts[i + 1])
  {
    if n == 1 || cuts[n - 1] <= t then n - 1 else Owner(cuts, n - 1, t)
  }

  lemma {:induction false} CutsMonotone(cuts: seq<nat>, n: nat, size: nat, i: nat, j: nat)
    requires Partition(cuts, n, size) && i <= j <= n
    ensures cuts[i] <= cuts[j] <= size
    decreases n - i
  {
    if i < j {
      CutsMonotone(cuts, n, size, i + 1, j);
    } else if j < n {
      CutsMonotone(cuts, n, size, i + 1, n);
    }
  }

  /** A destination position lies in the share of its owner, and in no other. */
  lemma Located(cuts: seq<nat>, n: nat, size: nat, i: nat, t: nat)
    requires Partition(cuts, n, size) && i < n && t < size
    ensures cuts[i] <= t < cuts[i + 1] <==> i == Owner(cuts, n, t)
  {
    var o := Owner(cuts, n, t);
    if i < o { CutsMonotone(cuts, n, size, i + 1, o); }
    if o < i { CutsMonotone(cuts, n, size, o + 1, i); }
  }

  // ----- Exact cuts -----

  /** ceil(a / b) */
  function Ceil(a: nat, b: nat): nat
    requires b >= 1
  {
    (a + b - 1) / b
  }

  /** The cuts of exact scale factors. */
  function Start(n: nat, size: nat, i: nat): nat
    requires n >= 1
  {
    Ceil(i * size, n)
  }

  lemma CeilBounds(a: nat, b: nat)
    requires b >= 1
    ensures a <= b * Ceil(a, b) < a + b
  {
    assert a + b - 1 == b * ((a + b - 1) / b) + (a + b - 1) % b;
  }

  lemma FloorBounds(a: nat, b: nat)
    requires b >= 1
    ensures b * (a / b) <= a < b * (a / b) + b
  {
    assert a == b * (a / b) + a % b;
  }

  lemma StartEnds(n: nat, size: nat)
    requires n >= 1
    ensures Start(n, size, 0) == 0 && Start(n, size, n) == size
  {
    Quotient(n - 1, n, 0, n - 1);
    assert n * size + n - 1 == n * size + (n - 1);
    Quotient(n * size + n - 1, n, size, n - 1);
  }

  lemma StartAdvances(n: nat, size: nat, i: nat)
    requires 1 <= n <= size
    ensures Start(n, size, i) < Start(n, size, i + 1)
  {
    var a, b := Start(n, size, i), Start(n, size, i + 1);
    CeilBounds(i * size, n);
    CeilBounds((i + 1) * size, n);
    assert (i + 1) * size == i * size + size;
    MulGap(n, b, a + 1);
    MulLess(n, a, b);
  }

  lemma MulLess(n: nat, a: nat, b: nat)
    requires n * a < n * b
    ensures a < b
  {
    MulGap(n, b, a);
    if a == b { assert false; }
  }

  /** floor(t * n / size) */
  function Source(n: nat, size: nat, t: nat): nat
    requires size >= 1
  {
    t * n / size
  }

  function ExactCuts(n: nat, size: nat): seq<nat>
    requires n >= 1
  {
    seq(n + 1, i requires 0 <= i => Start(n, size, i))
  }

  /** Exact cuts make a partition in which position t shows source position
      floor(t * n / size). */
  lemma ExactCutsPartition(n: nat, size: nat)
    requires 1 <= n <= size
    ensures Partition(ExactCuts(n, size), n, size)
    ensures forall t :: 0 <= t < size ==> Owner(ExactCuts(n, size), n, t) == Source(n, size, t)
  {
    StartEnds(n, size);
    forall i | 0 <= i < n ensures Start(n, size, i) < Start(n, size, i + 1) {
      StartAdvances(n, size, i);
    }
    forall t | 0 <= t < size ensures Owner(ExactCuts(n, size), n, t) == Source(n, size, t) {
      ExactOwner(n, size, t);
    }
  }

  lemma ExactOwner(n: nat, size: nat, t: nat)
    requires 1 <= n <= size && t < size && Partition(ExactCuts(n, size), n, size)
    ensures Owner(ExactCuts(n, size), n, t) == Source(n, size, t)
  {
    var s := Source(n, size, t);
    ShareInRange(n, size, t);
    InShare(n, size, t);
    hide Ceil, Start, Source;
    Located(ExactCuts(n, size), n, size, s, t);
  }

  lemma InShare(n: nat, size: nat, t: nat)
    requires n >= 1 && size >= 1
    ensures Start(n, size, Source(n, size, t)) <= t < Start(n, size, Source(n, size, t) + 1)
  {
    var s := Source(n, size, t);
    FloorBounds(t * n, size);
    assert (s + 1) * size == s * size + size;
    BelowStart(n, size, s, t);
    BelowStart(n, size, s + 1, t);
  }

  lemma ShareInRange(n: nat, size: nat, t: nat)
    requires 1 <= n && t < size
    ensures Source(n, size, t) < n
  {
    FloorBounds(t * n, size);
    MulGap(n, t, size);
    assert t * n < size * n;
    MulGap(size, n, Source(n, size, t));
  }

  /** t is at or after the start of i exactly when i * size <= t * n. */
  lemma BelowStart(n: nat, size: nat, i: nat, t: nat)
    requires n >= 1
    ensures Start(n, size, i) <= t <==> i * size <= t * n
  {
    var a := Start(n, size, i);
    CeilBounds(i * size, n);
    MulGap(n, t, a);
    MulGap(n, a, t);
  }

  // ----- Rounded cuts -----

  /** v / g is k * size / n, give or take e / (2 * n * g). */
  predicate Close(n: nat, size: nat, g: nat, e: nat, k: nat, v: nat) {
    -(e as int) <= 2 * (n * v - k * (size * g)) <= e
  }

  /** Ceilings of products that are close enough and right at the start leave no share empty,
      so they make a partition iff they end at the size. */
  lemma RoundedCutsPartition(n: nat, size: nat, g: nat, e: nat, y: seq<nat>, cuts: seq<nat>)
    requires 1 <= n <= size && g >= 1 && |y| == |cuts| == n + 1 && y[0] == 0 && e <= (size - n) * g
    requires forall k :: 0 <= k <= n ==> Close(n, size, g, e, k, y[k]) && cuts[k] == Ceil(y[k], g)
    ensures Partition(cuts, n, size) <==> Ceil(y[n], g) == size
  {
    Quotient(g - 1, g, 0, g - 1);
    forall k | 0 <= k < n ensures cuts[k] < cuts[k + 1] {
      RoundedStep(n, size, g, e, k, y[k], y[k + 1]);
      CeilStep(y[k], y[k + 1], g);
    }
  }

  lemma CeilStep(a: nat, b: nat, g: nat)
    requires g >= 1 && a + g <= b
    ensures Ceil(a, g) < Ceil(b, g)
  {
    var c, d := Ceil(a, g), Ceil(b, g);
    CeilBounds(a, g);
    CeilBounds(b, g);
    MulLess(g, c, d);
  }

  lemma RoundedStep(n: nat, size: nat, g: nat, e: nat, k: nat, a: nat, b: nat)
    requires 1 <= n <= size && g >= 1 && e <= (size - n) * g
    requires Close(n, size, g, e, k, a) && Close(n, size, g, e, k + 1, b)
    ensures a + g <= b
  {
    assert (size - n) * g == size * g - n * g;
    assert (k + 1) * (size * g) == k * (size * g) + size * g;
    assert n * (a + g) == n * a + n * g;
    MulGap(n, b, a + g);
  }

  // ----- The cuts computed in single precision -----

  /** Position i times the scale, in units. */
  function Product(n: nat, size: nat, i: nat): nat
    requires Convertible(n, size)
  {
    Single(i * Scale(n, size))
  }

  function Cut(n: nat, size: nat, i: nat): nat
    requires Convertible(n, size)
  {
    Ceil(Product(n, size, i), Grid(n, size))
  }

  function FloatCuts(n: nat, size: nat): seq<nat>
    requires Convertible(n, size)
  {
    seq(n + 1, i requires 0 <= i => Cut(n, size, i))
  }

  const ERROR: nat := 0x30000

  /** What rounding the quotient and the product adds up to. */
  lemma ProductsClose(n: nat, size: nat, k: nat)
    requires Convertible(n, size) && k <= n
    ensures Close(n, size, Grid(n, size), ERROR, k, Product(n, size, k))
  {
    hide Nearest, Unit, Grid, Single;
    var s, t := Scale(n, size), size * Grid(n, size);
    ScaleIsSingle(n, size);
    SmallProduct(k, s);
    var p := k * s;
    SmallUnit(p);
    ErrorsAdd(n, k, s, t, p, Product(n, size, k));
  }

  lemma SmallProduct(k: nat, s: nat)
    requires k <= 256 && s <= 0x1000000
    ensures k * s <= 0x100000000
  {
    MulUp(k, 256, s);
  }

  lemma MulUp(a: nat, b: nat, c: nat)
    requires a <= b
    ensures a * c <= b * c
  {
  }

  lemma SmallUnit(p: nat)
    requires p <= 0x100000000
    ensures Unit(p) <= 512
    ensures 2 * (Single(p) - p) <= 512 && 2 * (p - Single(p)) <= 512
  {
    var u := Unit(p);
  }

  lemma ErrorsAdd(n: nat, k: nat, s: nat, t: nat, p: nat, v: nat)
    requires k <= n <= 256 && p == k * s
    requires 2 * (v - p) <= 512 && 2 * (p - v) <= 512
    requires 2 * (n * s - t) <= n && 2 * (t - n * s) <= n
    ensures -(ERROR as int) <= 2 * (n * v - k * t) <= ERROR
  {
    var a, b := 2 * (v - p), 2 * (n * s - t);
    assert 2 * (n * v - k * t) == n * a + k * b by {
      assert n * (k * s) == k * (n * s);
      assert n * a == 2 * (n * v) - 2 * (n * p);
      assert k * b == 2 * (k * (n * s)) - 2 * (k * t);
    }
    Bounded(n, 256, a, 512);
    Bounded(k, 256, b, 256);
  }

  lemma Bounded(n: nat, m: nat, a: int, b: nat)
    requires n <= m && a <= b && -a <= b
    ensures n * a <= m * b && -(n * a) <= m * b
  {
    assert n * b <= m * b;
    assert n * (b - a) >= 0 && n * (b + a) >= 0;
    assert n * (b - a) == n * b - n * a && n * (b + a) == n * b + n * a;
  }

  /** The sizes at which the last cut comes out right. */
  predicate Fits(n: nat, size: nat) {
    n == 256 || size <= 65536 * n || size % 2 == 0 || size % 3 == 0
  }

  /** The cuts computed in single precision leave no share empty, and make up the whole size iff
      the size fits. */
  lemma FloatCutsPartitionIff(n: nat, size: nat)
    requires Convertible(n, size)
    ensures Partition(FloatCuts(n, size), n, size) <==> Fits(n, size)
  {
    var g := Grid(n, size);
    if n == 192 { LastCut192(size); } else { LastCut256(size); }
    if size == n {
      UnscaledCuts(n);
    } else {
      EnoughRoom(n, size);
      forall k | 0 <= k <= n ensures Close(n, size, g, ERROR, k, Product(n, size, k)) {
        ProductsClose(n, size, k);
      }
      hide Close, Product, Partition;
      var y := seq(n + 1, i requires 0 <= i => Product(n, size, i));
      StartAtZero(n, size);
      RoundedCutsPartition(n, size, g, ERROR, y, FloatCuts(n, size));
    }
  }

  lemma StartAtZero(n: nat, size: nat)
    requires Convertible(n, size)
    ensures Product(n, size, 0) == 0
  {
    NearestExact(0, 1);
  }

  lemma CeilExact(q: nat, g: nat)
    requires g >= 1
    ensures Ceil(q * g, g) == q
  {
    Quotient(q * g + g - 1, g, q, g - 1);
  }

  lemma UnscaledGrid(n: nat)
    requires Convertible(n, n)
    ensures Grid(n, n) == Scale(n, n) == 0x800000
  {
    assert Exponent(n, n) == 0;
    SmallPowers();
    hide Nearest;
    NearestExact(0x800000, n);
  }

  lemma UnscaledCut(n: nat, i: nat)
    requires Convertible(n, n) && i <= n && Grid(n, n) == Scale(n, n) == 0x800000
    ensures Cut(n, n, i) == i
  {
    hide Scale, Grid, Single;
    SmallPowers();
    SingleExact(i, 23);
    CeilExact(i, 0x800000);
  }

  /** A picture of the native size is not stretched. */
  lemma UnscaledCuts(n: nat)
    requires Convertible(n, n)
    ensures Partition(FloatCuts(n, n), n, n)
  {
    UnscaledGrid(n);
    hide Scale, Grid, Cut;
    forall i | 0 <= i <= n ensures Cut(n, n, i) == i {
      UnscaledCut(n, i);
    }
    IdentityPartition(FloatCuts(n, n), n);
  }

  lemma IdentityPartition(cuts: seq<nat>, n: nat)
    requires n >= 1 && |cuts| == n + 1 && forall i :: 0 <= i <= n ==> cuts[i] == i
    ensures Partition(cuts, n, n)
  {
  }

  lemma EnoughRoom(n: nat, size: nat)
    requires Convertible(n, size) && size > n
    ensures ERROR <= (size - n) * Grid(n, size)
  {
    if size < 2 * n {
      assert Exponent(n, size) == 0;
      SmallPowers();
      MulUp(1, size - n, Grid(n, size));
    } else {
      ScaleIsSingle(n, size);
      HalfProduct(size, n, Grid(n, size));
    }
  }

  lemma HalfProduct(size: nat, n: nat, g: nat)
    requires size >= 2 * n
    ensures size * g <= 2 * ((size - n) * g)
  {
    MulUp(size, 2 * (size - n), g);
  }

  // ----- The last cut -----

  /** The grid in units of 1 / 128; only for the largest sizes is it an odd number of them. */
  lemma GridIn128(n: nat, size: nat) returns (f: nat)
    requires Convertible(n, size)
    ensures Grid(n, size) == 128 * f
    ensures if size < 65536 * n then f % 2 == 0 else f == 1
  {
    var e := GridExponent(n, size);
    hide Grid;
    f := Pow2(16 - e);
    ReducedPower(e);
  }

  lemma GridExponent(n: nat, size: nat) returns (e: nat)
    requires Convertible(n, size)
    ensures if size < 65536 * n then e < 16 else e == 16
    ensures Grid(n, size) == Pow2(23 - e)
  {
    e := Exponent(n, size);
    ExponentRange(n, size);
    if size >= 65536 * n { LargeExponent(n, size); }
  }

  lemma ReducedPower(e: nat)
    requires e <= 16
    ensures Pow2(23 - e) == 128 * Pow2(16 - e)
    ensures if e < 16 then Pow2(16 - e) == 2 * Pow2(15 - e) else Pow2(16 - e) == 1
  {
    SmallPowers();
    PowProduct(16 - e, 7);
  }

  lemma LargeExponent(n: nat, size: nat)
    requires Convertible(n, size) && size >= 65536 * n
    ensures Exponent(n, size) == 16
  {
    var e := Exponent(n, size);
    ExponentRange(n, size);
    SmallPowers();
    PowerSteps(n, e + 1, 16);
  }

  lemma PowerSteps(n: nat, a: nat, b: nat)
    ensures a <= b ==> n * Pow2(a) <= n * Pow2(b)
  {
    if a <= b {
      Pow2Grows(a, b);
      MulUp(Pow2(a), Pow2(b), n);
    }
  }

  /** Over 256 positions the scale is exact. */
  lemma WidthScale(size: nat) returns (a: nat)
    requires Convertible(256, size)
    ensures Grid(256, size) == 256 * Pow2(a) && Scale(256, size) == size * Pow2(a)
  {
    var e := GridExponent(256, size);
    ReducedPower(e);
    a := 15 - e;
    ExactScale(size, Grid(256, size), Pow2(a));
  }

  lemma Assoc(a: nat, b: nat, c: nat)
    ensures a * (b * c) == (a * b) * c
  {
  }

  lemma ExactScale(size: nat, g: nat, m: nat)
    requires g == 256 * m
    ensures Nearest(size * g, 256) == size * m
  {
    assert size * (256 * m) == 256 * (size * m);
    NearestExact(size * m, 256);
  }

  /** Over 256 positions every size comes out right. */
  lemma LastCut256(size: nat)
    requires Convertible(256, size)
    ensures Cut(256, size, 256) == size
  {
    var a := WidthScale(size);
    hide Scale, Grid;
    ExactEnd(size, a, Grid(256, size), Scale(256, size));
  }

  lemma ExactEnd(size: nat, a: nat, g: nat, s: nat)
    requires size < SINGLE_LIMIT && g == 256 * Pow2(a) && s == size * Pow2(a)
    ensures Ceil(Single(256 * s), g) == size
  {
    hide Single, Ceil, Pow2;
    SmallPowers();
    PowProduct(a, 8);
    Assoc(size, Pow2(a), 256);
    assert 256 * s == size * g;
    SingleExact(size, a + 8);
    CeilExact(size, g);
  }

  /** The unit of a number between two neighbouring powers of two. */
  lemma {:induction false} UnitAt(p: nat, a: nat)
    requires 0x800000 * Pow2(a) <= p < SINGLE_LIMIT * Pow2(a)
    ensures Unit(p) == Pow2(a)
  {
    if a > 0 {
      assert Pow2(a) == 2 * Pow2(a - 1) && p >= SINGLE_LIMIT;
      UnitAt(p / 2, a - 1);
    }
  }

  /** 128 * b + 64 * d, rounded: to 128 * b when d is zero or b is even. */
  lemma RoundedEnd(b: nat, d: int, p: nat)
    requires p == 128 * b + 64 * d && -1 <= d <= 1
    requires 0x40000000 <= p && (p < 0x80000000 || (b % 2 == 0 && p < 0x100000000))
    ensures Single(p) == if d == 0 || b % 2 == 0 then 128 * b else 128 * (b + d)
  {
    SmallPowers();
    if p < 0x80000000 {
      UnitAt(p, 7);
      TieAt128(b, d, p);
    } else {
      UnitAt(p, 8);
      TieAt256(b / 2, d, p);
    }
  }

  lemma TieAt128(b: nat, d: int, p: nat)
    requires p == 128 * b + 64 * d && -1 <= d <= 1
    ensures Nearest(p, 128) == if d == 0 || b % 2 == 0 then b else b + d
  {
    hide Nearest;
    var r := Nearest(p, 128);
    assert b - 1 <= r <= b + 1;
  }

  lemma TieAt256(c: nat, d: int, p: nat)
    requires p == 256 * c + 64 * d && -1 <= d <= 1
    ensures Nearest(p, 256) == c
  {
    hide Nearest;
  }

  /** Over 192 positions the product is a multiple of 64 next to the size. */
  lemma LastProduct192(size: nat, f: nat, b: nat, d: int)
    requires Convertible(192, size) && Grid(192, size) == 128 * f && b == size * f
    requires d == 3 * Scale(192, size) - 2 * b
    requires if size < 65536 * 192 then f % 2 == 0 else f == 1
    ensures -1 <= d <= 1
    ensures Product(192, size, 192) == if d == 0 || b % 2 == 0 then 128 * b else 128 * (b + d)
  {
    var s := Scale(192, size);
    ScaleIsSingle(192, size);
    if f % 2 == 0 { EvenProduct(size, f); }
    hide Grid, Nearest, Single;
    EndOf192(size * Grid(192, size), s, size, f, b, d);
  }

  lemma EndOf192(t: nat, s: nat, size: nat, f: nat, b: nat, d: int)
    requires t == size * (128 * f) && b == size * f && NearestMultiple(t, 192, 192 * s, s)
    requires d == 3 * s - 2 * b && 192 * 0x800000 <= t < 192 * SINGLE_LIMIT
    requires b % 2 == 0 || (b < SINGLE_LIMIT && f == 1)
    ensures -1 <= d <= 1
    ensures Single(192 * s) == if d == 0 || b % 2 == 0 then 128 * b else 128 * (b + d)
  {
    Assoc(size, f, 128);
    ThreeScale(t, s, b, d);
    hide Single;
    RoundedEnd(b, d, 192 * s);
  }

  lemma ThreeScale(t: nat, s: nat, b: nat, d: int)
    requires t == 128 * b && d == 3 * s - 2 * b && NearestMultiple(t, 192, 192 * s, s)
    ensures -1 <= d <= 1 && 192 * s == 128 * b + 64 * d
  {
  }

  lemma EvenProduct(a: nat, f: nat)
    requires f % 2 == 0
    ensures a * f % 2 == 0
  {
    assert a * f == 2 * (a * (f / 2));
  }

  lemma LastCut192(size: nat)
    requires Convertible(192, size)
    ensures Cut(192, size, 192) == size <==> Fits(192, size)
  {
    hide Scale, Grid, Product, Ceil;
    var f := GridIn128(192, size);
    var s, v := Scale(192, size), Product(192, size, 192);
    LastProduct192(size, f, size * f, 3 * s - 2 * (size * f));
    if size < 65536 * 192 {
      EvenProduct(size, f);
      SmallEnd(size, f, v);
    } else {
      LargeEnd(size, 3 * s - 2 * size, v, s);
    }
  }

  lemma SmallEnd(size: nat, f: nat, v: nat)
    requires f >= 1 && v == 128 * (size * f)
    ensures Ceil(v, 128 * f) == size
  {
    assert v == size * (128 * f);
    CeilExact(size, 128 * f);
  }

  lemma LargeEnd(size: nat, d: int, v: nat, s: nat)
    requires d == 3 * s - 2 * size && -1 <= d <= 1 && size > 0
    requires v == if d == 0 || size % 2 == 0 then 128 * size else 128 * (size + d)
    ensures Ceil(v, 128) == size <==> size % 2 == 0 || size % 3 == 0
  {
    CeilExact(size, 128);
    CeilExact(size + d, 128);
  }

  // ----- Compared with the exact cuts -----

  /** Across a picture up to 65535 wide the cuts are the exact ones. */
  lemma WidthCutsAreExact(w: nat)
    requires 256 <= w < 0x10000
    ensures FloatCuts(256, w) == ExactCuts(256, w)
  {
    forall i | 0 <= i <= 256 ensures Cut(256, w, i) == Start(256, w, i) {
      hide Scale, Grid, Cut, Start;
      MulUp(i, 256, w);
      WidthCut(w, i);
    }
  }

  lemma WidthCut(w: nat, i: nat)
    requires 256 <= w < 0x10000 && i * w < SINGLE_LIMIT
    ensures Cut(256, w, i) == Start(256, w, i)
  {
    var a := WidthScale(w);
    hide Scale, Grid, Single, Ceil, Pow2;
    Assoc(i, w, Pow2(a));
    SingleExact(i * w, a);
    CeilScaled(i * w, 256, Pow2(a));
  }

  lemma CeilScaled(a: nat, n: nat, m: nat)
    requires n >= 1 && m >= 1
    ensures n * m >= 1 && Ceil(a * m, n * m) == Ceil(a, n)
  {
    MulGap(m, 0, n);
    CeilBounds(a, n);
    var c := Ceil(a, n);
    MulUp(a, n * c, m);
    assert (n * c) * m == (n * m) * c;
    MulGap(m, n * c, a + n);
    assert (a + n) * m == a * m + n * m;
    CeilIs(a * m, n * m, c);
  }

  lemma CeilIs(a: nat, b: nat, c: nat)
    requires b >= 1 && a <= b * c < a + b
    ensures Ceil(a, b) == c
  {
    Quotient(a + b - 1, b, c, a + b - 1 - b * c);
  }

  /** For pictures up to 24575 high a cut is the exact one, or one more where an exact multiple
      is rounded up. */
  lemma HeightCutsNearExact(n: nat, size: nat, k: nat)
    requires Convertible(n, size) && size < 128 * n && k <= n
    ensures var v, g := Product(n, size, k), Grid(n, size);
      Cut(n, size, k) == Start(n, size, k) + if k * size % n == 0 && n * v > k * (size * g) then 1 else 0
  {
    var v, g := Product(n, size, k), Grid(n, size);
    hide Product, Grid, Ceil;
    FineGrid(n, size);
    ProductsClose(n, size, k);
    hide Start, Close;
    CloseCeil(n, size, g, k, v);
  }

  lemma CloseCeil(n: nat, size: nat, g: nat, k: nat, v: nat)
    requires n >= 1 && g >= 0x20000 && Close(n, size, g, ERROR, k, v)
    ensures Ceil(v, g) == Start(n, size, k) + if k * size % n == 0 && n * v > k * (size * g) then 1 else 0
  {
    hide Ceil;
    assert k * (size * g) == (k * size) * g;
    NearCeil(n, g, k * size, v);
  }

  lemma FineGrid(n: nat, size: nat)
    requires Convertible(n, size) && size < 128 * n
    ensures Grid(n, size) >= 0x20000
  {
    var e := Exponent(n, size);
    SmallPowers();
    if e >= 7 {
      Pow2Grows(7, e);
      MulGap(n, 127, Pow2(e));
      assert false;
    }
    ExponentRange(n, size);
    Pow2Grows(17, 23 - e);
  }

  /** The ceiling of v / g when v / g is a / n give or take less than 1 / n. */
  lemma NearCeil(n: nat, g: nat, a: nat, v: nat)
    requires n >= 1 && g >= 1 && -(g as int) < n * v - a * g < g
    ensures Ceil(v, g) == Ceil(a, n) + if a % n == 0 && n * v > a * g then 1 else 0
  {
    var c := Ceil(a, n);
    CeilBounds(a, n);
    DivisibleIff(a, n, c);
    hide Ceil;
    Assoc(n, c, g);
    if a == n * c && n * v > a * g {
      JustAbove(n, g, c, v);
      CeilIs(v, g, c + 1);
    } else {
      if a < n * c { MulGap(g, a, n * c); }
      AtMost(n, g, c, v);
      AboveLower(n, g, a, v, c);
      CeilIs(v, g, c);
    }
  }

  lemma JustAbove(n: nat, g: nat, c: nat, v: nat)
    requires n >= 1 && n * (c * g) < n * v < n * (c * g) + g
    ensures c * g < v <= g * (c + 1) < v + g
  {
    MulLess(n, c * g, v);
    MulUp(1, n, v - c * g);
    assert n * (v - c * g) == n * v - n * (c * g);
  }

  lemma AtMost(n: nat, g: nat, c: nat, v: nat)
    requires n >= 1 && n * v <= n * (c * g)
    ensures v <= g * c
  {
    if v > c * g { MulGap(n, c * g, v); }
  }

  lemma AboveLower(n: nat, g: nat, a: nat, v: nat, c: nat)
    requires n >= 1 && g >= 1 && n * c < a + n && a * g - g < n * v
    ensures g * c < v + g
  {
    MulUp(n * c + 1, a + n, g);
    assert (a + n) * g == a * g + n * g;
    assert (n * c + 1) * g == n * (c * g) + g;
    assert n * (v + g) == n * v + n * g;
    MulLess(n, c * g, v + g);
  }

  lemma DivisibleIff(a: nat, n: nat, c: nat)
    requires n >= 1 && a <= n * c < a + n
    ensures a % n == 0 <==> a == n * c
  {
    if a == n * c {
      Quotient(a, n, c, 0);
    } else if a % n == 0 {
      assert a == n * (a / n);
      MulLess(n, a / n, c);
      MulGap(n, a / n, c);
    }
  }

  /** The exact cuts are not always met: 108 / 192 of 208 lines is 117, but the 108th cut comes
      out at 118. */
  lemma CutRoundedUp()
    ensures FloatCuts(192, 208)[108] == 118 && ExactCuts(192, 208)[108] == 117
  {
    SmallPowers();
    UnitAt(981467172, 6);
    assert Scale(192, 208) == 9087659;
  }
}
