/** The square-root coprocessor: the bitwise root and the unit's start/busy/result protocol. */
module SqrtUnit {
  import opened Types
  import opened Arith

  // ----- Bitwise or -----

  function Or(a: nat, b: nat): nat {
    if a == 0 && b == 0 then 0
    else (if a % 2 == 1 || b % 2 == 1 then 1 else 0) + 2 * Or(a / 2, b / 2)
  }

  lemma {:induction false} OrZero(b: nat)
    ensures Or(0, b) == b && Or(b, 0) == b
  {
    if b > 0 {
      OrZero(b / 2);
    }
  }

  /** A power of two and a number whose bits all lie above it have no bit in common. */
  lemma {:induction false} OrIsSum(n: nat, m: nat)
    ensures Or(Pow2(n), 2 * Pow2(n) * m) == Pow2(n) + 2 * Pow2(n) * m
    ensures Or(2 * Pow2(n) * m, Pow2(n)) == Pow2(n) + 2 * Pow2(n) * m
  {
    var b := 2 * Pow2(n) * m;
    assert b == 2 * (Pow2(n) * m) && b / 2 == Pow2(n) * m;
    if n == 0 {
      OrZero(m);
      assert b / 2 == m;
    } else {
      assert Pow2(n) / 2 == Pow2(n - 1) && Pow2(n) * m == 2 * Pow2(n - 1) * m;
      OrIsSum(n - 1, m);
    }
  }

  // ----- The root -----

  predicate IsRoot(r: nat, x: nat) { r * r <= x < (r + 1) * (r + 1) }

  lemma RootUnique(r: nat, s: nat, x: nat)
    requires IsRoot(r, x) && IsRoot(s, x)
    ensures r == s
  {
    SquareGap(r, s);
    SquareGap(s, r);
  }

  lemma SquareGap(a: nat, b: nat)
    ensures a < b ==> (a + 1) * (a + 1) <= b * b
  {
    if a < b {
      assert b * b == (a + 1) * (a + 1) + (b - (a + 1)) * (b + a + 1);
    }
  }

  /** The root of a 64-bit number fits in 32 bits. */
  lemma RootFits(r: nat, x: u64)
    requires IsRoot(r, x)
    ensures r < 0x1_0000_0000
  {
    SquareGap(0xFFFF_FFFF, r);
  }

  /** The largest power of four below 2^64, as the source computes it. */
  lemma TopBit()
    ensures (0xFFFF_FFFF_FFFF_FFFF as bv64 >> 1) & !(0xFFFF_FFFF_FFFF_FFFF as bv64 >> 2) == 0x4000_0000_0000_0000
    ensures Pow2(62) == 0x4000_0000_0000_0000
  {
    Pow2Values();
  }

  lemma Pow2Values()
    ensures Pow2(62) == 0x4000_0000_0000_0000
  {
    assert Pow2(7) == 128;
    assert Pow2(14) == 0x4000;
    Pow2Add(14, 2);
    Pow2Add(16, 16);
    Pow2Add(32, 16);
    Pow2Add(48, 14);
  }

  lemma {:induction false} Pow2Add(a: nat, b: nat)
    ensures Pow2(a + b) == Pow2(a) * Pow2(b)
  {
    if b > 0 {
      Pow2Add(a, b - 1);
      assert Pow2(a + b) == 2 * Pow2(a + (b - 1));
    }
  }

  /** One step of the method of digits: the root so far gains a bit exactly when the next
      larger candidate still fits. `scale` is the weight of the root so far. */
  lemma RootStep(x: nat, r: nat, bit: nat, remainder: nat)
    requires bit >= 1 && remainder == x - r * r * (4 * bit) && remainder < (2 * r + 1) * (4 * bit)
    ensures remainder >= bit + r * (4 * bit) ==>
      var r' := 2 * r + 1;
      remainder - (bit + r * (4 * bit)) == x - r' * r' * bit && remainder - (bit + r * (4 * bit)) < (2 * r' + 1) * bit
    ensures remainder < bit + r * (4 * bit) ==>
      var r' := 2 * r;
      remainder == x - r' * r' * bit && remainder < (2 * r' + 1) * bit
  {
    assert (2 * r + 1) * (2 * r + 1) * bit == r * r * (4 * bit) + r * (4 * bit) + bit;
    assert (2 * r) * (2 * r) * bit == r * r * (4 * bit);
    assert (2 * (2 * r + 1) + 1) * bit == r * (4 * bit) + 3 * bit;
    assert (2 * r + 1) * (4 * bit) == 2 * (r * (4 * bit)) + 4 * bit;
    assert (2 * (2 * r) + 1) * bit == r * (4 * bit) + bit;
  }

  /** Where the loop stands with n + 1 bit pairs to go: r is the root of what lies above them,
      kept scaled in `root`, and `remainder` is what r leaves of x. */
  ghost predicate Digits(x: nat, n: int, bit: nat, root: nat, remainder: nat, r: nat) {
    && n >= -1
    && bit == (if n < 0 then 0 else Pow2(2 * n))
    && (n >= 0 ==> root == r * (4 * bit) && remainder == x - r * r * (4 * bit) && remainder < (2 * r + 1) * (4 * bit))
    && (n < 0 ==> root == r && remainder == x - r * r && remainder < 2 * r + 1)
  }

  lemma Pow2Twice(k: nat)
    ensures Pow2(k + 2) == 4 * Pow2(k)
  {
    assert Pow2(k + 2) == 2 * Pow2(k + 1);
  }

  lemma Quarter(n: nat)
    ensures n > 0 ==> Pow2(2 * n) == 4 * Pow2(2 * (n - 1))
    ensures n == 0 ==> Pow2(2 * n) == 1
  {
    if n > 0 {
      Pow2Twice(2 * (n - 1));
    }
  }

  lemma Shuffle(bit: nat, r: nat)
    ensures 2 * bit * (2 * r) == r * (4 * bit) && 2 * bit * r == 2 * r * bit
    ensures r * (4 * bit) == 2 * (2 * r * bit)
    ensures bit + 2 * r * bit == (2 * r + 1) * bit
  {
  }

  /** The source's bitwise ors are sums here. */
  lemma OrValues(n: nat, bit: nat, root: nat, r: nat)
    requires bit == Pow2(2 * n) && root == r * (4 * bit)
    ensures Or(bit, root) == bit + root && root / 2 == 2 * r * bit
    ensures Or(root / 2, bit) == (2 * r + 1) * bit
  {
    OrIsSum(2 * n, 2 * r);
    OrIsSum(2 * n, r);
    Shuffle(bit, r);
  }

  lemma NextDigit(x: nat, n: nat, bit: nat, root: nat, remainder: nat, r: nat)
    requires Digits(x, n, bit, root, remainder, r)
    ensures if remainder >= Or(bit, root)
            then Digits(x, n - 1, bit / 4, Or(root / 2, bit), remainder - Or(bit, root), 2 * r + 1)
            else Digits(x, n - 1, bit / 4, root / 2, remainder, 2 * r)
  {
    OrValues(n, bit, root, r);
    RootStep(x, r, bit, remainder);
    Quarter(n);
    var r' := if remainder >= Or(bit, root) then 2 * r + 1 else 2 * r;
    Rescale(r', bit, n);
  }

  /** Expressions scaled by this step's bit, in terms of the next step's. */
  lemma Rescale(r: nat, bit: nat, n: nat)
    requires bit == Pow2(2 * n)
    ensures n > 0 ==> bit == 4 * (bit / 4) && bit / 4 == Pow2(2 * (n - 1))
    ensures n == 0 ==> bit == 1 && r * bit == r && r * r * bit == r * r && (2 * r + 1) * bit == 2 * r + 1
  {
    Quarter(n);
  }

  lemma Finished(x: nat, root: nat, remainder: nat, r: nat)
    requires root == r && x == r * r + remainder && remainder < 2 * r + 1
    ensures IsRoot(root, x)
  {
    assert (r + 1) * (r + 1) == r * r + 2 * r + 1;
  }

  lemma Started(x: u64)
    ensures Digits(x, 31, 0x4000_0000_0000_0000, 0, x, 0)
  {
    Pow2Values();
  }

  /** isqrt */
  method Isqrt(x: u64) returns (root: nat)
    ensures IsRoot(root, x) && root < 0x1_0000_0000
  {
    if x < 1 { return 0; }
    var squaredBit: nat, remainder: nat := 0x4000_0000_0000_0000, x;
    root := 0;
    ghost var n: int, r: nat := 31, 0;
    Started(x);
    while squaredBit > 0
      invariant Digits(x, n, squaredBit, root, remainder, r)
      decreases n
    {
      NextDigit(x, n, squaredBit, root, remainder, r);
      if remainder >= Or(squaredBit, root) {
        remainder := remainder - Or(squaredBit, root);
        root := root / 2;
        root := Or(root, squaredBit);
        r := 2 * r + 1;
      } else {
        root := root / 2;
        r := 2 * r;
      }
      squaredBit := squaredBit / 4;
      n := n - 1;
    }
    Finished(x, root, remainder, r);
    RootFits(root, x);
  }

  // ----- The unit -----

  const LATENCY := 26

  class Unit {
    var mode: bool             // 64-bit operand
    var busy: bool
    var paramLow: u32          // 0x2B8
    var paramHigh: u32         // 0x2BC
    var result: nat            // register 0x2B4
    var running: bool
    var pending: nat           // sqrtResult
    var due: nat               // sqrtCycles
    ghost var started: bool    // some operation was started
    ghost var latched: nat     // operand of the last start

    function Operand(): u64
      reads this
    {
      if mode then paramLow as int + 0x1_0000_0000 * (paramHigh as int) else paramLow
    }

    /** While running the register reads zero and the pending result is the root of the
        operand latched at the last start; when idle the register shows that root. */
    ghost predicate Valid()
      reads this
    {
      && busy == running
      && (running ==> started && result == 0 && IsRoot(pending, latched))
      && (!running && started ==> IsRoot(result, latched))
      && pending < 0x1_0000_0000 && result < 0x1_0000_0000
    }

    constructor ()
      ensures Valid() && !running && !started && result == 0
    {
      mode, busy, paramLow, paramHigh, result, running, pending, due := false, false, 0, 0, 0, false, 0, 0;
      started, latched := false, 0;
    }

    /** execsqrt: start over with the operand as it is now. */
    method Start(now: nat)
      requires Valid()
      modifies this
      ensures Valid() && running && started && due == now + 26
      ensures latched == if mode then 0x1_0000_0000 * (paramHigh as int) + paramLow else paramLow
      ensures mode == old(mode) && paramLow == old(paramLow) && paramHigh == old(paramHigh)
    {
      busy := true;
      var v := Operand();
      pending := Isqrt(v);
      result := 0;
      due := now + LATENCY;
      running := true;
      started, latched := true, v;
    }

    /** A 32-bit write to the control register only changes the operand width for later starts. */
    method WriteControl32(val: u32)
      requires Valid()
      modifies this`mode
      ensures Valid() && mode == (val % 2 == 1)
    {
      mode := val % 0x1_0000 % 2 == 1;
    }

    /** A 16-bit write restarts. */
    method WriteControl(val: u16, now: nat)
      requires Valid()
      modifies this
      ensures Valid() && running && mode == (val % 2 == 1) && due == now + 26
      ensures latched == if mode then 0x1_0000_0000 * (paramHigh as int) + paramLow else paramLow
      ensures paramLow == old(paramLow) && paramHigh == old(paramHigh)
    {
      mode := val % 2 == 1;
      Start(now);
    }

    method WriteParam(high: bool, val: u32, now: nat)
      requires Valid()
      modifies this
      ensures Valid() && running && mode == old(mode) && due == now + 26
      ensures latched == if mode then 0x1_0000_0000 * (paramHigh as int) + paramLow else paramLow
      ensures if high then paramHigh == val && paramLow == old(paramLow) else paramLow == val && paramHigh == old(paramHigh)
    {
      if high { paramHigh := val; } else { paramLow := val; }
      Start(now);
    }

    /** The scheduled completion, whatever starts and restarts came before. */
    method Service(now: nat)
      requires Valid()
      modifies this
      ensures Valid() && latched == old(latched) && started == old(started)
      ensures running == (old(running) && now < old(due))
      ensures old(running) && now >= old(due) ==> IsRoot(result, latched)
      ensures !old(running) || now < old(due) ==> result == old(result)
      ensures mode == old(mode) && paramLow == old(paramLow) && paramHigh == old(paramHigh) && due == old(due)
    {
      if running && now >= due {
        busy := false;
        result := pending;
        running := false;
      }
    }
  }
}
