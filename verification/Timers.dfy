/** The four cascadable hardware timers of one CPU. */
module Timers {
  import opened Types
  import opened Arith

  const CHAINED := 0xFFFF

  /** timer, timerReload, timerON, timerMODE (a shift, or CHAINED), timerCycle, the interrupt
      bit of the control register, and the enabled flag of the scheduled item. */
  datatype Channel = Channel(timer: u16, reload: u16, on: bool, mode: nat, cycle: nat, irq: bool, enabled: bool)

  type Bank = s: seq<Channel> | |s| == 4 witness seq(4, i => Channel(0, 0, false, 0, 0, false, false))

  /** Cycles from a reload to the next overflow. */
  function Period(c: Channel): (r: nat)
    ensures r >= 1
  {
    var remain := 0x1_0000 - c.reload;
    var unit := Pow2(c.mode);
    ProductPositive(remain, unit);
    remain * unit
  }

  lemma SamePeriod(c: Channel, d: Channel)
    requires c.reload == d.reload && c.mode == d.mode
    ensures Period(c) == Period(d)
  {
  }

  /** read_timer is only used up to the scheduled overflow of a running timer. */
  predicate Readable(c: Channel, now: nat) { c.on && c.mode != CHAINED ==> now <= c.cycle }

  /** read_timer */
  function Read(c: Channel, now: nat): u16
    requires Readable(c, now)
  {
    if c.mode == CHAINED || !c.on then c.timer
    else
      var units: nat := FloorDiv(c.cycle - now, Pow2(c.mode));
      if units >= 0x1_0000 then 0 else 0xFFFF - units
  }

  function FloorDiv(a: nat, b: nat): nat
    requires b >= 1
  {
    a / b
  }

  /** Prescalers 1, 64, 256 and 1024, doubled into timer cycles; 4 and up count overflows. */
  function ModeOf(bits: nat): nat {
    if bits == 0 then 1 else if bits == 1 then 7 else if bits == 2 then 9 else if bits == 3 then 11 else CHAINED
  }

  /** Cycles per count for the four prescalers, at two cycles to the clock the registers count. */
  lemma Prescalers()
    ensures Pow2(ModeOf(0)) == 2 * 1 && Pow2(ModeOf(1)) == 2 * 64 && Pow2(ModeOf(2)) == 2 * 256 && Pow2(ModeOf(3)) == 2 * 1024
    ensures forall bits :: 4 <= bits < 8 ==> ModeOf(bits) == CHAINED
  {
    assert Pow2(9) == 4 * Pow2(7);
    assert Pow2(11) == 4 * Pow2(9);
  }

  function CeilDiv(a: nat, b: nat): nat
    requires b >= 1
  {
    (a + b - 1) / b
  }

  predicate Links(c: Channel) { c.on && c.mode == CHAINED }

  // ----- The chained timers as one mixed-radix number -----

  /** One past the last timer of the run of linked timers starting at i. */
  function ChainEnd(b: Bank, i: nat): (e: nat)
    requires i <= 4
    ensures i <= e <= 4 && (forall k :: i <= k < e ==> Links(b[k])) && (e < 4 ==> !Links(b[e]))
    decreases 4 - i
  {
    if i == 4 || !Links(b[i]) then i else ChainEnd(b, i + 1)
  }

  function Radix(b: Bank, i: nat, e: nat): (r: nat)
    requires i <= e <= 4
    ensures r >= 1
    decreases e - i
  {
    if i == e then 1 else
      var size := 0x1_0000 - b[i].reload;
      var rest := Radix(b, i + 1, e);
      ProductPositive(size, rest);
      size * rest
  }

  /** The timers i..e, least significant first, as digits above their reload values. */
  function Value(b: Bank, i: nat, e: nat): int
    requires i <= e <= 4
    decreases e - i
  {
    if i == e then 0 else (b[i].timer - b[i].reload) + (0x1_0000 - b[i].reload) * Value(b, i + 1, e)
  }

  predicate DigitsValid(b: Bank, i: nat, e: nat)
    requires i <= e <= 4
  {
    forall k :: i <= k < e ==> b[k].reload <= b[k].timer
  }

  /** One count into timer i, carrying while timers overflow. */
  function Carry(b: Bank, i: nat): Bank
    requires i <= 4
    decreases 4 - i
  {
    if i == 4 || !Links(b[i]) then b
    else if b[i].timer == 0xFFFF then Carry(b[i := b[i].(timer := b[i].reload)], i + 1)
    else b[i := b[i].(timer := b[i].timer + 1)]
  }

  /** The interrupts that count adds to those already raised. */
  function CarryIrqs(b: Bank, i: nat, raised: seq<nat>): seq<nat>
    requires i <= 4
    decreases 4 - i
  {
    if i == 4 || !Links(b[i]) || b[i].timer != 0xFFFF then raised
    else CarryIrqs(b, i + 1, if b[i].irq then raised + [i] else raised)
  }

  /** The timers whose interrupt a service of timer num raises, the chain standing as in b. */
  function IrqsOf(b: Bank, num: nat): seq<nat>
    requires num < 4
  {
    CarryIrqs(b, num + 1, if b[num].irq then [num] else [])
  }

  lemma {:induction false} IrqsBehind(b: Bank, i: nat, before: seq<nat>, raised: seq<nat>)
    requires i <= 4
    ensures CarryIrqs(b, i, before + raised) == before + CarryIrqs(b, i, raised)
    decreases 4 - i
  {
    if i < 4 && Links(b[i]) && b[i].timer == 0xFFFF {
      assert before + raised + [i] == before + (raised + [i]);
      IrqsBehind(b, i + 1, before, if b[i].irq then raised + [i] else raised);
    }
  }

  lemma CarryOn(b: Bank, i: nat)
    requires i < 4 && Links(b[i]) && b[i].timer == 0xFFFF
    ensures Carry(b, i) == Carry(b[i := b[i].(timer := b[i].reload)], i + 1)
  {
  }

  // ----- The scheduled overflow -----

  /** Overflows due by now. */
  function Elapsed(c: Channel, now: nat): (k: nat)
    requires c.cycle <= now
    ensures k >= 1
  {
    (now - c.cycle) / Period(c) + 1
  }

  /** Timer num reloaded, with its next overflow k periods later. */
  function Overflowed(b: Bank, num: nat, k: nat): Bank
    requires num < 4
  {
    b[num := b[num].(cycle := b[num].cycle + k * Period(b[num]), timer := b[num].reload)]
  }

  /** The timers after the overflow of timer num is serviced. */
  function Serviced(b: Bank, num: nat, now: nat): Bank
    requires num < 4 && b[num].cycle <= now
  {
    Carry(Overflowed(b, num, Elapsed(b[num], now)), num + 1)
  }

  class TimerUnit {
    var bank: Bank
    var irqs: seq<nat>       // timers whose interrupt was raised, in order

    ghost predicate Valid()
      reads this
    {
      forall k :: 0 <= k < 4 ==> bank[k].enabled == (bank[k].on && bank[k].mode != CHAINED)
    }

    constructor ()
      ensures Valid() && irqs == []
    {
      bank := seq(4, i => Channel(0, 0, false, 0, 0, false, false));
      irqs := [];
    }

    method WriteReload(num: nat, value: u16)
      requires Valid() && num < 4
      modifies this`bank
      ensures Valid() && bank == old(bank)[num := old(bank)[num].(reload := value)]
    {
      bank := bank[num := bank[num].(reload := value)];
    }

    /** write_timer. A chained timer's cycle comes from an over-wide shift: `junk`. */
    method WriteTimer(num: nat, value: u16, now: nat, junk: nat)
      requires Valid() && num < 4 && Readable(bank[num], now)
      modifies this`bank
      ensures Valid()
      ensures forall k :: 0 <= k < 4 && k != num ==> bank[k] == old(bank)[k]
      ensures var o, c := old(bank)[num], bank[num];
        && c.on == (value / 0x80 % 2 == 1) && c.irq == (value / 0x40 % 2 == 1) && c.reload == o.reload
        && c.timer == (if c.on then o.reload else if o.on then Read(o, now) else o.timer)
        && c.mode == ModeOf(value % 8)
        && (c.mode != CHAINED ==> c.cycle == now + Period(c) && c.enabled == c.on)
    {
      hide Period, Read;
      ghost var b0 := bank;
      var c := bank[num];
      if value / 0x80 % 2 == 1 {
        c := c.(timer := c.reload);
      } else if c.on {
        c := c.(timer := Read(c, now));
      }
      c := c.(on := value / 0x80 % 2 == 1, irq := value / 0x40 % 2 == 1);
      match value % 8 {
        case 0 => c := c.(mode := 0 + 1);
        case 1 => c := c.(mode := 6 + 1);
        case 2 => c := c.(mode := 8 + 1);
        case 3 => c := c.(mode := 10 + 1);
        case _ => c := c.(mode := CHAINED);
      }
      ghost var before := c;
      c := c.(cycle := if c.mode == CHAINED then junk else now + Period(c));
      c := c.(enabled := c.on && c.mode != CHAINED);
      SamePeriod(before, c);
      bank := bank[num := c];
      assert forall k :: 0 <= k < 4 && k != num ==> bank[k] == b0[k];
    }

    /** Move a due overflow past now, one period at a time; `k` counts the periods. */
    method CatchUp(num: nat, now: nat) returns (k: nat)
      requires num < 4 && bank[num].cycle <= now
      modifies this`bank
      ensures bank == old(bank)[num := old(bank)[num].(cycle := old(bank)[num].cycle + k * Period(old(bank)[num]))]
      ensures now < bank[num].cycle <= now + Period(old(bank)[num])
      ensures k == Elapsed(old(bank)[num], now)
    {
      k := 0;
      var c := bank[num];
      var period := Period(c);
      var cycle := c.cycle;
      while cycle <= now
        invariant cycle == c.cycle + k * period
        invariant k > 0 ==> cycle <= now + period
        decreases now + period - cycle
      {
        cycle := cycle + period;
        k := k + 1;
      }
      assert now - c.cycle == period * (k - 1) + (now - (cycle - period));
      Quotient(now - c.cycle, period, k - 1, now - (cycle - period));
      bank := bank[num := c.(cycle := cycle)];
    }

    /** Sixteen-bit increment of a linked timer; tells whether it came round to zero. */
    method Count(i: nat) returns (over: bool)
      requires i < 4
      modifies this`bank
      ensures over == (old(bank)[i].timer == 0xFFFF)
      ensures bank == old(bank)[i := old(bank)[i].(timer := if over then 0 else old(bank)[i].timer + 1)]
    {
      var t := (bank[i].timer + 1) % 0x1_0000;
      over := t == 0;
      bank := bank[i := bank[i].(timer := t)];
    }

    /** An overflow reloads the timer and raises its interrupt if enabled. */
    method Wrap(i: nat)
      requires i < 4
      modifies this
      ensures bank == old(bank)[i := old(bank)[i].(timer := old(bank)[i].reload)]
      ensures irqs == if old(bank)[i].irq then old(irqs) + [i] else old(irqs)
    {
      bank := bank[i := bank[i].(timer := bank[i].reload)];
      if bank[i].irq { irqs := irqs + [i]; }
    }

    /** TSequenceItem_Timer::exec for timer num. The chain above it counts once, however
        many periods had passed. */
    method Exec(num: nat, now: nat)
      requires Valid() && num < 4 && bank[num].enabled && bank[num].cycle <= now
      modifies this
      ensures Valid()
      ensures bank == Serviced(old(bank), num, now)
      ensures now < bank[num].cycle <= now + Period(old(bank)[num])
      ensures irqs == old(irqs) + IrqsOf(old(bank), num)
    {
      var first := true;
      ghost var b0 := bank;
      ghost var own: seq<nat> := if b0[num].irq then [num] else [];
      ghost var raised := irqs + own;
      IrqsBehind(b0, num + 1, irqs, own);
      assert CarryIrqs(b0, num + 1, raised) == irqs + IrqsOf(b0, num);
      hide IrqsOf;
      ghost var k := Elapsed(b0[num], now);
      var i := num;
      while i < 4
        invariant num <= i <= 4 && Valid() && first == (i == num)
        invariant i == num ==> bank == b0 && irqs == old(irqs)
        invariant i > num ==> now < bank[num].cycle <= now + Period(b0[num])
        invariant i > num ==> Carry(Overflowed(b0, num, k), num + 1) == Carry(bank, i)
        invariant i > num ==> forall j :: i <= j < 4 ==> bank[j] == b0[j]
        invariant i > num ==> CarryIrqs(b0, num + 1, raised) == CarryIrqs(b0, i, irqs)
      {
        if !bank[i].on { return; }
        ghost var before := bank;
        var over := false;
        if bank[i].mode == CHAINED {
          over := Count(i);
        } else {
          if !first { break; }
          first := false;
          over := true;
          var periods := CatchUp(i, now);
          assert periods == k;
        }
        if !over { break; }
        if i > num { CarryOn(before, i); }
        Wrap(i);
        assert if i > num then bank == before[i := before[i].(timer := before[i].reload)] else bank == Overflowed(b0, num, k);
        i := i + 1;
      }
    }
  }

  // ----- What the cascade counts -----

  /** Counting never touches the timers below and keeps every setting and digit range. */
  lemma {:induction false} CarryKeeps(b: Bank, i: nat)
    requires i <= 4
    ensures var c := Carry(b, i);
      && (forall k :: 0 <= k < i ==> c[k] == b[k])
      && (forall k :: 0 <= k < 4 ==> c[k] == b[k].(timer := c[k].timer))
      && (forall k :: 0 <= k < 4 && b[k].reload <= b[k].timer ==> c[k].reload <= c[k].timer)
    decreases 4 - i
  {
    if i < 4 && Links(b[i]) && b[i].timer == 0xFFFF {
      CarryKeeps(b[i := b[i].(timer := b[i].reload)], i + 1);
    }
  }

  lemma {:induction false} ValueOfSame(b: Bank, c: Bank, i: nat, e: nat)
    requires i <= e <= 4 && forall k :: i <= k < e ==> b[k] == c[k]
    ensures Value(b, i, e) == Value(c, i, e) && Radix(b, i, e) == Radix(c, i, e)
    decreases e - i
  {
    if i < e {
      ValueOfSame(b, c, i + 1, e);
    }
  }

  lemma {:induction false} RadixOfSameReloads(b: Bank, c: Bank, i: nat, e: nat)
    requires i <= e <= 4 && forall k :: i <= k < e ==> b[k].reload == c[k].reload
    ensures Radix(b, i, e) == Radix(c, i, e)
    decreases e - i
  {
    if i < e {
      RadixOfSameReloads(b, c, i + 1, e);
    }
  }

  lemma {:induction false} ValueInRange(b: Bank, i: nat, e: nat)
    requires i <= e <= 4 && DigitsValid(b, i, e)
    ensures 0 <= Value(b, i, e) < Radix(b, i, e)
    decreases e - i
  {
    if i < e {
      ValueInRange(b, i + 1, e);
      DigitBound(b[i].timer - b[i].reload, 0x1_0000 - b[i].reload, Value(b, i + 1, e), Radix(b, i + 1, e));
    }
  }

  lemma DigitBound(d: int, size: int, v: int, r: int)
    requires 0 <= d < size && 0 <= v < r
    ensures 0 <= d + size * v < size * r
  {
    assert size * v >= 0;
    assert size * v + size == size * (v + 1) <= size * r;
  }

  /** One count adds exactly one to the number the linked timers form, modulo the product of
      their sizes. */
  lemma {:induction false} CarryAddsOne(b: Bank, i: nat, e: nat)
    requires i <= 4 && i <= e <= ChainEnd(b, i) && DigitsValid(b, i, e)
    ensures Value(Carry(b, i), i, e) == if Value(b, i, e) + 1 == Radix(b, i, e) then 0 else Value(b, i, e) + 1
    decreases e - i
  {
    hide Value, Radix, Carry, ChainEnd;
    if i == e {
      NoDigits(b, Carry(b, i), i);
    } else if b[i].timer == 0xFFFF {
      ValueInRange(b, i + 1, e);
      CarryFullDigit(b, i, e);
      CarryAddsOne(b[i := b[i].(timer := b[i].reload)], i + 1, e);
      CarryOut(0x1_0000 - b[i].reload, Value(b, i + 1, e), Radix(b, i + 1, e));
    } else {
      CarryFreeDigit(b, i, e);
    }
  }

  lemma NoDigits(b: Bank, c: Bank, i: nat)
    requires i <= 4
    ensures Value(b, i, i) == 0 == Value(c, i, i) && Radix(b, i, i) == 1
  {
  }

  /** A digit with room takes the count. */
  lemma CarryFreeDigit(b: Bank, i: nat, e: nat)
    requires i <= 4 && i < e <= ChainEnd(b, i) && DigitsValid(b, i, e) && b[i].timer < 0xFFFF
    ensures Value(Carry(b, i), i, e) == Value(b, i, e) + 1 < Radix(b, i, e)
  {
    var b' := b[i := b[i].(timer := b[i].timer + 1)];
    assert Carry(b, i) == b';
    hide Carry;
    ValueInRange(b, i + 1, e);
    ValueOfSame(b, b', i + 1, e);
    DigitBound(b[i].timer - b[i].reload + 1, 0x1_0000 - b[i].reload, Value(b, i + 1, e), Radix(b, i + 1, e));
  }

  /** A full digit goes back to its reload value and the rest of the chain counts. */
  lemma CarryFullDigit(b: Bank, i: nat, e: nat)
    requires i <= 4 && i < e <= ChainEnd(b, i) && b[i].timer == 0xFFFF
    ensures var b' := b[i := b[i].(timer := b[i].reload)]; var size := 0x1_0000 - b[i].reload;
      && ChainEnd(b, i) == ChainEnd(b', i + 1)
      && Value(b', i + 1, e) == Value(b, i + 1, e) && Radix(b', i + 1, e) == Radix(b, i + 1, e)
      && Value(Carry(b, i), i, e) == size * Value(Carry(b', i + 1), i + 1, e)
      && Value(b, i, e) == size - 1 + size * Value(b, i + 1, e) && Radix(b, i, e) == size * Radix(b, i + 1, e)
  {
    var b' := b[i := b[i].(timer := b[i].reload)];
    ChainEndSame(b, b', i + 1);
    ValueOfSame(b, b', i + 1, e);
    CarryKeeps(b', i + 1);
  }

  /** A full digit: one more clears it and carries. */
  lemma CarryOut(size: int, v: int, r: int)
    requires size >= 1 && 0 <= v < r
    ensures (size - 1 + size * v) + 1 == size * (v + 1)
    ensures v + 1 == r <==> (size - 1 + size * v) + 1 == size * r
  {
    assert size * (r - (v + 1)) == size * r - size * (v + 1);
  }

  lemma {:induction false} ChainEndSame(b: Bank, c: Bank, i: nat)
    requires i <= 4 && forall k :: i <= k < 4 ==> b[k] == c[k]
    ensures ChainEnd(b, i) == ChainEnd(c, i)
    decreases 4 - i
  {
    if i < 4 && Links(b[i]) {
      ChainEndSame(b, c, i + 1);
    }
  }

  /** n base overflows, each counted by the chain starting at i. */
  function CarryN(b: Bank, i: nat, n: nat): Bank
    requires i <= 4
  {
    if n == 0 then b else Carry(CarryN(b, i, n - 1), i)
  }

  lemma {:induction false} CarryNKeeps(b: Bank, i: nat, e: nat, n: nat)
    requires i <= 4 && i <= e <= ChainEnd(b, i) && DigitsValid(b, i, e)
    ensures var c := CarryN(b, i, n);
      && DigitsValid(c, i, e) && ChainEnd(c, i) == ChainEnd(b, i) && Radix(c, i, e) == Radix(b, i, e)
      && forall k :: 0 <= k < 4 ==> c[k] == b[k].(timer := c[k].timer)
  {
    if n > 0 {
      CarryNKeeps(b, i, e, n - 1);
      CarryKeeps(CarryN(b, i, n - 1), i);
      RadixOfSameReloads(b, CarryN(b, i, n), i, e);
      ChainEndOfSameSettings(b, CarryN(b, i, n), i);
    }
  }

  lemma {:induction false} ChainEndOfSameSettings(b: Bank, c: Bank, i: nat)
    requires i <= 4 && forall k :: 0 <= k < 4 ==> c[k] == b[k].(timer := c[k].timer)
    ensures ChainEnd(b, i) == ChainEnd(c, i)
    decreases 4 - i
  {
    if i < 4 && Links(b[i]) {
      ChainEndOfSameSettings(b, c, i + 1);
    }
  }

  /** Over any number of base overflows the linked timers hold the running total. */
  lemma {:induction false} ChainCountsModRadix(b: Bank, i: nat, e: nat, n: nat)
    requires i <= 4 && i <= e <= ChainEnd(b, i) && DigitsValid(b, i, e)
    ensures Value(CarryN(b, i, n), i, e) == (Value(b, i, e) + n) % Radix(b, i, e)
  {
    hide Value, Radix, Carry, ChainEnd;
    ValueInRange(b, i, e);
    if n == 0 {
      Quotient(Value(b, i, e), Radix(b, i, e), 0, Value(b, i, e));
    } else {
      ChainCountsModRadix(b, i, e, n - 1);
      CarryNKeeps(b, i, e, n - 1);
      CarryAddsOne(CarryN(b, i, n - 1), i, e);
      TotalStep(Value(b, i, e), n, Radix(b, i, e));
    }
  }

  /** A count raises the interrupt of a linked timer iff it is enabled and the timers up to
      it stand at their largest value. */
  lemma {:induction false} IrqIffWrap(b: Bank, i: nat, j: nat, raised: seq<nat>)
    requires i <= 4 && i <= j < ChainEnd(b, i) && DigitsValid(b, i, j + 1) && j !in raised
    ensures j in CarryIrqs(b, i, raised) <==> b[j].irq && Value(b, i, j + 1) + 1 == Radix(b, i, j + 1)
    decreases j - i
  {
    var size := 0x1_0000 - b[i].reload;
    ValueInRange(b, i + 1, j + 1);
    if b[i].timer == 0xFFFF {
      CarryOut(size, Value(b, i + 1, j + 1), Radix(b, i + 1, j + 1));
      if i == j {
        IrqsAreLater(b, i + 1, j, if b[i].irq then raised + [i] else raised);
      } else {
        IrqIffWrap(b, i + 1, j, if b[i].irq then raised + [i] else raised);
      }
    } else {
      DigitBound(b[i].timer - b[i].reload + 1, size, Value(b, i + 1, j + 1), Radix(b, i + 1, j + 1));
    }
  }

  lemma {:induction false} IrqsAreLater(b: Bank, i: nat, j: nat, raised: seq<nat>)
    requires j < i <= 4
    ensures j in CarryIrqs(b, i, raised) <==> j in raised
    decreases 4 - i
  {
    if i < 4 && Links(b[i]) && b[i].timer == 0xFFFF {
      IrqsAreLater(b, i + 1, j, if b[i].irq then raised + [i] else raised);
    }
  }

  /** How often n base overflows raise timer j's interrupt. */
  function IrqCount(b: Bank, i: nat, j: nat, n: nat): nat
    requires i <= 4
  {
    if n == 0 then 0
    else IrqCount(b, i, j, n - 1) + (if j in CarryIrqs(CarryN(b, i, n - 1), i, []) then 1 else 0)
  }

  /** Whether the next count interrupts, from the total so far. */
  lemma IrqAfter(b: Bank, i: nat, j: nat, n: nat)
    requires i <= 4 && i <= j < ChainEnd(b, i) && DigitsValid(b, i, j + 1)
    ensures j in CarryIrqs(CarryN(b, i, n), i, []) <==>
            b[j].irq && (Value(b, i, j + 1) + n) % Radix(b, i, j + 1) + 1 == Radix(b, i, j + 1)
  {
    ChainCountsModRadix(b, i, j + 1, n);
    CarryNKeeps(b, i, j + 1, n);
    IrqIffWrap(CarryN(b, i, n), i, j, []);
  }

  /** An enabled linked timer interrupts once per full cycle of the digits up to it. */
  lemma {:induction false} IrqRate(b: Bank, i: nat, j: nat, n: nat)
    requires i <= 4 && i <= j < ChainEnd(b, i) && DigitsValid(b, i, j + 1)
    ensures IrqCount(b, i, j, n) == if b[j].irq then (Value(b, i, j + 1) + n) / Radix(b, i, j + 1) else 0
  {
    hide Value, Radix, CarryN, CarryIrqs, ChainEnd;
    var v, r := Value(b, i, j + 1), Radix(b, i, j + 1);
    ValueInRange(b, i, j + 1);
    if n == 0 {
      Quotient(v, r, 0, v);
    } else {
      IrqRate(b, i, j, n - 1);
      IrqAfter(b, i, j, n - 1);
      TotalStep(v, n, r);
    }
  }

  // ----- Late service -----

  /** k overflows of timer num, each serviced when it is due. */
  function OnTime(b: Bank, num: nat, k: nat): Bank
    requires num < 4
  {
    if k == 0 then b else var c := OnTime(b, num, k - 1); Serviced(c, num, c[num].cycle)
  }

  /** Counting from timer i neither reads nor changes a timer below it. */
  lemma {:induction false} CarryLocal(b: Bank, i: nat, j: nat, c: Channel)
    requires j < i <= 4
    ensures Carry(b[j := c], i) == Carry(b, i)[j := c]
    decreases 4 - i
  {
    if i < 4 && Links(b[i]) && b[i].timer == 0xFFFF {
      var full := b[i].(timer := b[i].reload);
      CarryLocal(b[i := full], i + 1, j, c);
      assert b[j := c][i := full] == b[i := full][j := c];
    } else if i < 4 && Links(b[i]) {
      assert b[j := c][i := b[i].(timer := b[i].timer + 1)] == b[i := b[i].(timer := b[i].timer + 1)][j := c];
    }
  }

  lemma {:induction false} CarryNLocal(b: Bank, i: nat, j: nat, c: Channel, n: nat)
    requires j < i <= 4
    ensures CarryN(b[j := c], i, n) == CarryN(b, i, n)[j := c] && CarryN(b, i, n)[j] == b[j]
  {
    if n > 0 {
      CarryNLocal(b, i, j, c, n - 1);
      CarryLocal(CarryN(b, i, n - 1), i, j, c);
      CarryKeeps(CarryN(b, i, n - 1), i);
    }
  }

  lemma NextOnTime(b: Bank, num: nat, k: nat, y: Bank)
    requires num < 4 && k >= 1 && y == CarryN(Overflowed(b, num, k), num + 1, k)
    ensures Serviced(y, num, y[num].cycle) == CarryN(Overflowed(b, num, k + 1), num + 1, k + 1)
  {
    var x := Overflowed(b, num, k);
    assert CarryN(Overflowed(b, num, k + 1), num + 1, k + 1) == Carry(CarryN(Overflowed(b, num, k + 1), num + 1, k), num + 1);
    hide Overflowed, Carry, CarryN, Serviced;
    OneDue(y, num);
    CarryNLocal(x, num + 1, num, Overflowed(x, num, 1)[num], k);
    OverflowOf(x, y, num);
    OverflowAgain(b, num, k);
  }

  /** Overflows on time: k reloads of the timer itself and k counts into the chain above. */
  lemma {:induction false} OnTimeCounts(b: Bank, num: nat, k: nat)
    requires num < 4 && k >= 1
    ensures OnTime(b, num, k) == CarryN(Overflowed(b, num, k), num + 1, k)
  {
    if k == 1 {
      FirstOnTime(b, num);
    } else {
      OnTimeCounts(b, num, k - 1);
      NextOnTime(b, num, k - 1, OnTime(b, num, k - 1));
      hide Overflowed, Carry, CarryN, Serviced;
    }
  }

  lemma FirstOnTime(b: Bank, num: nat)
    requires num < 4
    ensures OnTime(b, num, 1) == CarryN(Overflowed(b, num, 1), num + 1, 1)
  {
    var x := Overflowed(b, num, 1);
    OneDue(b, num);
    assert OnTime(b, num, 0) == b;
    assert CarryN(x, num + 1, 0) == x;
    hide Overflowed, Carry, Serviced;
    assert CarryN(x, num + 1, 1) == Carry(CarryN(x, num + 1, 0), num + 1);
  }

  lemma OverflowOf(x: Bank, y: Bank, num: nat)
    requires num < 4 && x[num] == y[num]
    ensures Overflowed(y, num, 1) == y[num := Overflowed(x, num, 1)[num]]
    ensures Overflowed(x, num, 1) == x[num := Overflowed(x, num, 1)[num]]
  {
  }

  lemma OneDue(b: Bank, num: nat)
    requires num < 4
    ensures Serviced(b, num, b[num].cycle) == Carry(Overflowed(b, num, 1), num + 1)
  {
    Quotient(0, Period(b[num]), 0, 0);
  }

  lemma OverflowAgain(b: Bank, num: nat, k: nat)
    requires num < 4
    ensures Overflowed(Overflowed(b, num, k), num, 1) == Overflowed(b, num, k + 1)
  {
    var x := Overflowed(b, num, k);
    SamePeriod(b[num], x[num]);
    assert (k + 1) * Period(b[num]) == k * Period(b[num]) + Period(b[num]);
  }

  /** Counting stops at the end of the chain. */
  lemma {:induction false} CarryStops(b: Bank, i: nat)
    requires i <= 4
    ensures forall k :: ChainEnd(b, i) <= k < 4 ==> Carry(b, i)[k] == b[k]
    decreases 4 - i
  {
    if i < 4 && Links(b[i]) && b[i].timer == 0xFFFF {
      var b' := b[i := b[i].(timer := b[i].reload)];
      ChainEndSame(b, b', i + 1);
      CarryStops(b', i + 1);
    }
  }

  lemma {:induction false} CarryNStops(b: Bank, i: nat, n: nat)
    requires i <= 4 && DigitsValid(b, i, ChainEnd(b, i))
    ensures forall k :: ChainEnd(b, i) <= k < 4 ==> CarryN(b, i, n)[k] == b[k]
    ensures forall k :: 0 <= k < i ==> CarryN(b, i, n)[k] == b[k]
  {
    if n > 0 {
      CarryNStops(b, i, n - 1);
      CarryNKeeps(b, i, ChainEnd(b, i), n - 1);
      CarryStops(CarryN(b, i, n - 1), i);
      CarryKeeps(CarryN(b, i, n - 1), i);
    }
  }

  /** The number a chain forms determines its timers. */
  lemma {:induction false} ValueDetermines(b: Bank, c: Bank, i: nat, e: nat)
    requires i <= e <= 4 && DigitsValid(b, i, e) && DigitsValid(c, i, e)
    requires forall k :: i <= k < e ==> b[k].reload == c[k].reload
    requires Value(b, i, e) == Value(c, i, e)
    ensures forall k :: i <= k < e ==> b[k].timer == c[k].timer
    decreases e - i
  {
    if i < e {
      var size := 0x1_0000 - b[i].reload;
      Quotient(Value(b, i, e), size, Value(b, i + 1, e), b[i].timer - b[i].reload);
      Quotient(Value(b, i, e), size, Value(c, i + 1, e), c[i].timer - c[i].reload);
      ValueDetermines(b, c, i + 1, e);
    }
  }

  lemma SameChain(b: Bank, i: nat, m: nat, n: nat)
    requires i <= 4 && DigitsValid(b, i, ChainEnd(b, i))
    ensures CarryN(b, i, m) == CarryN(b, i, n) <==> Value(CarryN(b, i, m), i, ChainEnd(b, i)) == Value(CarryN(b, i, n), i, ChainEnd(b, i))
  {
    hide Value, Radix, CarryN;
    var e := ChainEnd(b, i);
    var x, y := CarryN(b, i, m), CarryN(b, i, n);
    CarryNKeeps(b, i, e, m);
    CarryNKeeps(b, i, e, n);
    CarryNStops(b, i, m);
    CarryNStops(b, i, n);
    if Value(x, i, e) == Value(y, i, e) {
      ValueDetermines(x, y, i, e);
      assert forall k :: 0 <= k < 4 ==> x[k] == y[k];
    }
  }

  lemma OneForMany(x: Bank, i: nat, k: nat)
    requires i <= 4 && k >= 1 && DigitsValid(x, i, ChainEnd(x, i))
    ensures Carry(x, i) == CarryN(x, i, k) <==> (k - 1) % Radix(x, i, ChainEnd(x, i)) == 0
  {
    var e := ChainEnd(x, i);
    assert CarryN(x, i, 1) == Carry(CarryN(x, i, 0), i);
    hide Value, Radix, ChainEnd, Carry, CarryN;
    var v, r := Value(x, i, e), Radix(x, i, e);
    ValueInRange(x, i, e);
    SameChain(x, i, 1, k);
    SameResidueIff(v + 1, k - 1, r);
    assert Value(CarryN(x, i, 1), i, e) == (v + 1) % r by { ChainCountsModRadix(x, i, e, 1); }
    assert Value(CarryN(x, i, k), i, e) == (v + 1 + (k - 1)) % r by {
      ChainCountsModRadix(x, i, e, k);
      assert v + 1 + (k - 1) == v + k;
    }
  }

  /** Servicing timer num at a time when k overflows are due leaves what k services on time
      leave iff the k - 1 counts it drops make up whole cycles of the chain above. */
  lemma LateServiceIff(b: Bank, num: nat, now: nat)
    requires num < 4 && b[num].cycle <= now && DigitsValid(b, num + 1, ChainEnd(b, num + 1))
    ensures var k := Elapsed(b[num], now);
      Serviced(b, num, now) == OnTime(b, num, k) <==> (k - 1) % Radix(b, num + 1, ChainEnd(b, num + 1)) == 0
  {
    hide Value, Radix, Carry, CarryN, OnTime, Elapsed;
    var k, i := Elapsed(b[num], now), num + 1;
    var x := Overflowed(b, num, k);
    ChainEndSame(b, x, i);
    ValueOfSame(b, x, i, ChainEnd(b, i));
    OnTimeCounts(b, num, k);
    OneForMany(x, i, k);
  }

  /** A timer with a period of two cycles, serviced two cycles late, below a chained timer: one
      of the two counts is lost. */
  lemma LateServiceLosesCounts()
    ensures var b: Bank := [Channel(0xFFFF, 0xFFFF, true, 1, 100, false, true), Channel(0, 0, true, CHAINED, 0, false, false),
                            Channel(0, 0, false, 0, 0, false, false), Channel(0, 0, false, 0, 0, false, false)];
            Elapsed(b[0], 102) == 2 && Serviced(b, 0, 102)[1].timer == 1 && OnTime(b, 0, 2)[1].timer == 2
  {
    var off := Channel(0, 0, false, 0, 0, false, false);
    var b: Bank := [Channel(0xFFFF, 0xFFFF, true, 1, 100, false, true), Channel(0, 0, true, CHAINED, 0, false, false), off, off];
    assert Period(b[0]) == 2;
    OnTimeCounts(b, 0, 2);
    var x := Overflowed(b, 0, 2);
    assert Carry(x, 1) == x[1 := x[1].(timer := 1)];
    assert CarryN(x, 1, 2) == Carry(CarryN(x, 1, 1), 1);
    assert CarryN(x, 1, 1) == Carry(CarryN(x, 1, 0), 1);
  }

  /** A timer that is off, or counts clocks, takes no count, and none gets past it: neither it nor
      any timer above it counts or interrupts. */
  lemma {:induction false} NoCountPast(b: Bank, i: nat, j: nat, raised: seq<nat>)
    requires i <= j < 4 && (!b[j].on || b[j].mode != 0xFFFF)
    ensures forall k :: j <= k < 4 ==> Carry(b, i)[k] == b[k]
    ensures forall k :: j <= k < 4 && k !in raised ==> k !in CarryIrqs(b, i, raised)
    decreases j - i
  {
    if Links(b[i]) && b[i].timer == 0xFFFF {
      NoCountPast(b[i := b[i].(timer := b[i].reload)], i + 1, j, raised);
      NoCountPast(b, i + 1, j, if b[i].irq then raised + [i] else raised);
    }
  }

  // ----- Interrupts of a late service -----

  /** How often k services on time raise timer j's interrupt. */
  function OnTimeIrqs(b: Bank, num: nat, j: nat, k: nat): nat
    requires num < 4
  {
    if k == 0 then 0
    else OnTimeIrqs(b, num, j, k - 1) + (if j in IrqsOf(OnTime(b, num, k - 1), num) then 1 else 0)
  }

  /** The interrupts raised before do not matter to those a count raises. */
  lemma {:induction false} IrqsAdded(b: Bank, i: nat, j: nat, raised: seq<nat>)
    requires i <= 4
    ensures j in CarryIrqs(b, i, raised) <==> j in raised || j in CarryIrqs(b, i, [])
    decreases 4 - i
  {
    if i < 4 && Links(b[i]) && b[i].timer == 0xFFFF {
      IrqsAdded(b, i + 1, j, if b[i].irq then raised + [i] else raised);
      IrqsAdded(b, i + 1, j, if b[i].irq then [i] else []);
      assert [] + [i] == [i];
    }
  }

  lemma {:induction false} IrqsLocal(b: Bank, c: Bank, i: nat, raised: seq<nat>)
    requires i <= 4 && forall k :: i <= k < 4 ==> b[k] == c[k]
    ensures CarryIrqs(b, i, raised) == CarryIrqs(c, i, raised)
    decreases 4 - i
  {
    if i < 4 && Links(b[i]) && b[i].timer == 0xFFFF {
      IrqsLocal(b, c, i + 1, if b[i].irq then raised + [i] else raised);
    }
  }

  lemma {:induction false} IrqsInChain(b: Bank, i: nat, j: nat)
    requires i <= 4 && !(i <= j < ChainEnd(b, i))
    ensures j !in CarryIrqs(b, i, [])
    decreases 4 - i
  {
    if i < 4 && Links(b[i]) && b[i].timer == 0xFFFF {
      IrqsInChain(b, i + 1, j);
      IrqsAdded(b, i + 1, j, if b[i].irq then [i] else []);
      assert [] + [i] == [i];
    }
  }

  /** The chain before the m-th of the services on time. */
  lemma ChainOnTime(b: Bank, num: nat, m: nat)
    requires num < 4 && DigitsValid(b, num + 1, ChainEnd(b, num + 1))
    ensures forall k :: num < k < 4 ==> OnTime(b, num, m)[k] == CarryN(b, num + 1, m)[k]
    ensures OnTime(b, num, m)[num].irq == b[num].irq
  {
    var x := Overflowed(b, num, m);
    if m > 0 {
      OnTimeCounts(b, num, m);
      assert x == b[num := x[num]];
      CarryNLocal(b, num + 1, num, x[num], m);
    }
  }

  /** Which timers the service after k on time interrupts. */
  lemma NextIrqs(b: Bank, num: nat, j: nat, k: nat)
    requires num < 4 && DigitsValid(b, num + 1, ChainEnd(b, num + 1))
    ensures j in IrqsOf(OnTime(b, num, k), num) <==>
            if j == num then b[num].irq else j in CarryIrqs(CarryN(b, num + 1, k), num + 1, [])
  {
    var i, raised: seq<nat> := num + 1, if b[num].irq then [num] else [];
    var x, y := CarryN(b, i, k), OnTime(b, num, k);
    ChainOnTime(b, num, k);
    assert IrqsOf(y, num) == CarryIrqs(y, i, raised);
    IrqsLocal(y, x, i, raised);
    hide CarryIrqs, CarryN, OnTime, IrqsOf;
    IrqsAdded(x, i, j, raised);
    if j == num { NotBelow(x, i, j); }
  }

  /** Timer j's share of the interrupts, one service after the other. */
  lemma {:induction false} OnTimeIrqsCount(b: Bank, num: nat, j: nat, k: nat)
    requires num < 4 && DigitsValid(b, num + 1, ChainEnd(b, num + 1))
    ensures OnTimeIrqs(b, num, j, k) == if j == num then (if b[num].irq then k else 0) else IrqCount(b, num + 1, j, k)
  {
    hide CarryIrqs, CarryN, OnTime, IrqsOf, ChainEnd;
    if k > 0 {
      OnTimeIrqsCount(b, num, j, k - 1);
      NextIrqs(b, num, j, k - 1);
    }
  }

  lemma NotBelow(b: Bank, i: nat, j: nat)
    requires j < i <= 4
    ensures j !in CarryIrqs(b, i, [])
  {
    IrqsAreLater(b, i, j, []);
  }

  lemma {:induction false} NoIrqs(b: Bank, i: nat, j: nat, n: nat)
    requires i <= 4 && !(i <= j < ChainEnd(b, i)) && DigitsValid(b, i, ChainEnd(b, i))
    ensures IrqCount(b, i, j, n) == 0
  {
    hide Value, Radix, CarryIrqs;
    if n > 0 {
      NoIrqs(b, i, j, n - 1);
      CarryNKeeps(b, i, ChainEnd(b, i), n - 1);
      IrqsInChain(CarryN(b, i, n - 1), i, j);
    }
  }

  /** The rate at which n base overflows interrupt timer j of a chain; none for other timers. */
  function Rate(b: Bank, i: nat, j: nat, n: nat): int
    requires i <= 4
  {
    if i <= j < ChainEnd(b, i) && b[j].irq then (Value(b, i, j + 1) + n) / Radix(b, i, j + 1) else 0
  }

  lemma CountIsRate(b: Bank, i: nat, j: nat, n: nat)
    requires i <= 4 && DigitsValid(b, i, ChainEnd(b, i))
    ensures IrqCount(b, i, j, n) == Rate(b, i, j, n)
  {
    hide Value, Radix, CarryIrqs;
    if i <= j < ChainEnd(b, i) {
      IrqRate(b, i, j, n);
    } else {
      NoIrqs(b, i, j, n);
    }
  }

  /** What k services on time raise for timer j, and the first of them alone. */
  lemma ServiceIrqs(b: Bank, num: nat, j: nat, k: nat)
    requires num < 4 && DigitsValid(b, num + 1, ChainEnd(b, num + 1))
    ensures OnTimeIrqs(b, num, j, k) == if j == num then (if b[num].irq then k else 0) else Rate(b, num + 1, j, k)
    ensures (if j in IrqsOf(b, num) then 1 else 0) == if j == num then (if b[num].irq then 1 else 0) else Rate(b, num + 1, j, 1)
  {
    assert OnTime(b, num, 0) == b;
    assert OnTimeIrqs(b, num, j, 1) == OnTimeIrqs(b, num, j, 0) + (if j in IrqsOf(b, num) then 1 else 0);
    hide OnTime, IrqsOf, Rate, IrqCount;
    OnTimeIrqsCount(b, num, j, k);
    OnTimeIrqsCount(b, num, j, 1);
    CountIsRate(b, num + 1, j, k);
    CountIsRate(b, num + 1, j, 1);
  }

  /** A service at a time when k overflows are due raises timer j's interrupt as often as k
      services on time iff, for the timer itself, it is on time or does not interrupt, and for a
      timer of the chain, the counts dropped would not have interrupted. */
  lemma LateInterruptsIff(b: Bank, num: nat, now: nat, j: nat)
    requires num < 4 && b[num].cycle <= now && DigitsValid(b, num + 1, ChainEnd(b, num + 1))
    ensures var k := Elapsed(b[num], now);
      (if j in IrqsOf(b, num) then 1 else 0) == OnTimeIrqs(b, num, j, k)
      <==> if j == num then b[num].irq ==> k == 1 else Rate(b, num + 1, j, 1) == Rate(b, num + 1, j, k)
  {
    hide Rate, IrqsOf, OnTimeIrqs, Elapsed;
    ServiceIrqs(b, num, j, Elapsed(b[num], now));
  }

  // ----- Reading a running timer -----

  /** The prescaler steps left before the overflow, from the cycles since the start. */
  lemma StepsLeft(remain: nat, unit: nat, e: nat)
    requires unit >= 1 && e <= remain * unit
    ensures CeilDiv(e, unit) <= remain && (remain * unit - e) / unit == remain - CeilDiv(e, unit)
    ensures e > 0 ==> CeilDiv(e, unit) >= 1
    ensures CeilDiv(0, unit) == 0
  {
    var k := (e + unit - 1) / unit;
    var t := unit - 1 - (e + unit - 1) % unit;
    assert e + unit - 1 == unit * k + (e + unit - 1) % unit;
    assert e + t == unit * k;
    MulGap(unit, remain, k);
    assert remain * unit - e == unit * (remain - k) + t by {
      assert unit * (remain - k) == unit * remain - unit * k;
    }
    Quotient(remain * unit - e, unit, remain - k, t);
    MulGap(unit, 0, k);
    Quotient(unit - 1, unit, 0, unit - 1);
  }

  /** e cycles after a start the timer reads reload + ceil(e / unit) - 1; at the very start it
      reads one below its reload value, except that 0 stays 0. */
  lemma RunningTimerReads(c: Channel, start: nat, now: nat)
    requires c.on && c.mode != CHAINED && c.cycle == start + Period(c) && start <= now <= c.cycle
    ensures Read(c, now) == if now == start then Max(c.reload - 1, 0)
                            else c.reload + CeilDiv(now - start, Pow2(c.mode)) - 1
  {
    StepsLeft(0x1_0000 - c.reload, Pow2(c.mode), now - start);
  }

  /** A running timer stays between its reload value and 65535 exactly from the first cycle
      after the start (always, with reload 0), and never counts down. */
  lemma ReadsInRangeIff(c: Channel, start: nat, now: nat)
    requires c.on && c.mode != CHAINED && c.cycle == start + Period(c) && start <= now <= c.cycle
    ensures Read(c, now) >= c.reload <==> now > start || c.reload == 0
  {
    RunningTimerReads(c, start, now);
    StepsLeft(0x1_0000 - c.reload, Pow2(c.mode), now - start);
  }

  lemma ReadsAreMonotone(c: Channel, start: nat, t1: nat, t2: nat)
    requires c.on && c.mode != CHAINED && c.cycle == start + Period(c) && start <= t1 <= t2 <= c.cycle
    ensures Read(c, t1) <= Read(c, t2)
  {
    var u := Pow2(c.mode);
    RunningTimerReads(c, start, t1);
    RunningTimerReads(c, start, t2);
    StepsLeft(0x1_0000 - c.reload, u, t2 - start);
    DivMonotone(t1 - start + u - 1, t2 - start + u - 1, u);
  }

  lemma DivMonotone(a: nat, b: nat, r: nat)
    requires a <= b && r >= 1
    ensures a / r <= b / r
  {
    assert a == r * (a / r) + a % r && b == r * (b / r) + b % r;
    MulGap(r, b / r, a / r);
  }
}
