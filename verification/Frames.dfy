/** What whole lines and frames of the scanline event amount to: how many DMA triggers and
    interrupts of each kind. */
module Frames {
  import opened Types
  import opened Arith
  import opened Scanline

  // ----- One line -----

  /** The four events of line k, counted from the first line start. */
  lemma LineEvents(k: nat)
    ensures PhaseAt(4 * k) == HStart && PhaseAt(4 * k + 1) == HStartIRQ && PhaseAt(4 * k + 2) == HDraw && PhaseAt(4 * k + 3) == HBlank
    ensures LineAt(4 * k + 1) == LineAt(4 * k + 2) == LineAt(4 * k + 3) == LineAt(4 * k + 4) == k % 263
  {
    LineTiming(k);
    LineQuotients(k);
  }

  lemma LineQuotients(k: nat)
    ensures (4 * k + 1) / 4 == k && (4 * k + 2) / 4 == k && (4 * k + 3) / 4 == k
  {
  }

  // ----- DMA triggers -----

  function DmaCount(dmas: seq<DmaMode>, mode: DmaMode): nat {
    if dmas == [] then 0
    else DmaCount(dmas[..|dmas| - 1], mode) + (if dmas[|dmas| - 1] == mode then 1 else 0)
  }

  lemma DmaAppend(dmas: seq<DmaMode>, on: bool, x: DmaMode, mode: DmaMode)
    ensures DmaCount(With(dmas, on, x), mode) == DmaCount(dmas, mode) + (if on && x == mode then 1 else 0)
  {
    assert (dmas + [x])[..|dmas|] == dmas;
  }

  /** A line issues one line-start trigger, on visible lines one for the display and one at the
      horizontal blank, and line 192 the one at the vertical blank. */
  lemma LineDmas(k: nat, mode: DmaMode)
    ensures var line := k % 263;
      DmaCount(DmasAt(4 * k + 4), mode) == DmaCount(DmasAt(4 * k), mode)
        + match mode
          case DmaHStart => 1
          case DmaMemDisplay => if line < 192 then 1 else 0
          case DmaHBlank => if line < 192 then 1 else 0
          case DmaVBlank => if line == 192 then 1 else 0
  {
    LineEvents(k);
    var line, d0 := k % 263, DmasAt(4 * k);
    var d1 := With(d0 + [DmaHStart], line < 192, DmaMemDisplay);
    var d2 := With(d1, line == 192, DmaVBlank);
    var d4 := With(d2, line < 192, DmaHBlank);
    assert DmasAt(4 * k + 1) == d1;
    assert DmasAt(4 * k + 2) == d2;
    assert DmasAt(4 * k + 3) == d2;
    assert DmasAt(4 * k + 4) == d4;
    DmaAppend(d0, true, DmaHStart, mode);
    DmaAppend(d0 + [DmaHStart], line < 192, DmaMemDisplay, mode);
    DmaAppend(d1, line == 192, DmaVBlank, mode);
    DmaAppend(d2, line < 192, DmaHBlank, mode);
  }

  /** Lines below `limit` among the first k. */
  function LinesBelow(limit: nat, k: nat): int { k / 263 * limit + Min(k % 263, limit) }

  /** Times line `at` is among the first k lines. */
  function TimesAt(at: nat, k: nat): int { (k + 262 - at) / 263 }

  lemma NextLineBelow(limit: nat, k: nat)
    requires limit <= 263
    ensures LinesBelow(limit, 0) == 0
    ensures LinesBelow(limit, k + 1) == LinesBelow(limit, k) + (if k % 263 < limit then 1 else 0)
  {
    NextModulo(k, 263);
    assert (k / 263 + 1) * limit == k / 263 * limit + limit;
  }

  lemma NextTimeAt(at: nat, k: nat)
    requires at < 263
    ensures TimesAt(at, 0) == 0
    ensures TimesAt(at, k + 1) == TimesAt(at, k) + (if k % 263 == at then 1 else 0)
  {
    var q, m := k / 263, k % 263;
    if m < at {
      Quotient(k + 262 - at, 263, q, m + 262 - at);
      Quotient(k + 1 + 262 - at, 263, q, m + 263 - at);
    } else if m == at {
      Quotient(k + 262 - at, 263, q, 262);
      Quotient(k + 1 + 262 - at, 263, q + 1, 0);
    } else {
      Quotient(k + 262 - at, 263, q + 1, m - at - 1);
      Quotient(k + 1 + 262 - at, 263, q + 1, m - at);
    }
  }

  /** The triggers of the first k lines: 263 line starts a frame, 192 of the display and at the
      horizontal blank, and one at the vertical blank, each on its line. */
  lemma {:induction false} DmaTriggers(k: nat, mode: DmaMode)
    ensures DmaCount(DmasAt(4 * k), mode)
         == match mode
            case DmaHStart => k
            case DmaMemDisplay => LinesBelow(192, k)
            case DmaHBlank => LinesBelow(192, k)
            case DmaVBlank => TimesAt(192, k)
  {
    hide DmasAt, LinesBelow, TimesAt;
    if k == 0 {
      assert DmasAt(4 * k) == [] by { NoTriggers(); }
      NextLineBelow(192, 0);
      NextTimeAt(192, 0);
    } else {
      DmaTriggers(k - 1, mode);
      LineDmas(k - 1, mode);
      assert 4 * (k - 1) + 4 == 4 * k;
      NextLineBelow(192, k - 1);
      NextTimeAt(192, k - 1);
    }
  }

  lemma NoTriggers()
    ensures DmasAt(0) == []
  {
  }

  // ----- Interrupts -----

  /** One CPU's status after n events, its settings left alone. */
  function StatAt(s: Stat, n: nat): Stat {
    if n == 0 then s
    else if PhaseAt(n - 1) == HStart then LineStat(StatAt(s, n - 1), LineAt(n))
    else StatAfter(PhaseAt(n - 1), StatAt(s, n - 1))
  }

  /** The interrupts of the first n events. */
  function IrqsAt(s9: Stat, s7: Stat, n: nat): seq<Irq> {
    if n == 0 then [] else Raised(PhaseAt(n - 1), IrqsAt(s9, s7, n - 1), StatAt(s9, n - 1), StatAt(s7, n - 1))
  }

  function IrqCount(irqs: seq<Irq>, i: Irq): nat {
    if irqs == [] then 0 else IrqCount(irqs[..|irqs| - 1], i) + (if irqs[|irqs| - 1] == i then 1 else 0)
  }

  lemma IrqAppend(irqs: seq<Irq>, on: bool, x: Irq, i: Irq)
    ensures IrqCount(With(irqs, on, x), i) == IrqCount(irqs, i) + (if on && x == i then 1 else 0)
  {
    assert (irqs + [x])[..|irqs|] == irqs;
  }

  /** What one event raises of each kind for each CPU, given that CPU's status. */
  lemma RaisedCount(phase: Phase, irqs: seq<Irq>, s9: Stat, s7: Stat, i: Irq)
    requires i.proc == 0 || i.proc == 1
    ensures var s := if i.proc == 0 then s9 else s7;
      IrqCount(Raised(phase, irqs, s9, s7), i) == IrqCount(irqs, i)
        + (if phase == HStartIRQ && (if i.kind == VBlankIrq then s.pendV else i.kind == LineIrq && s.pendM) then 1
           else if phase == HBlank && i.kind == HBlankIrq && s.irqH then 1 else 0)
  {
    if phase == HStartIRQ {
      var r1 := With(irqs, s9.pendV, Irq(ARM9, VBlankIrq));
      var r2 := With(r1, s7.pendV, Irq(ARM7, VBlankIrq));
      var r3 := With(r2, s9.pendM, Irq(ARM9, LineIrq));
      IrqAppend(irqs, s9.pendV, Irq(ARM9, VBlankIrq), i);
      IrqAppend(r1, s7.pendV, Irq(ARM7, VBlankIrq), i);
      IrqAppend(r2, s9.pendM, Irq(ARM9, LineIrq), i);
      IrqAppend(r3, s7.pendM, Irq(ARM7, LineIrq), i);
    } else if phase == HBlank {
      IrqAppend(irqs, s9.irqH, Irq(ARM9, HBlankIrq), i);
      IrqAppend(With(irqs, s9.irqH, Irq(ARM9, HBlankIrq)), s7.irqH, Irq(ARM7, HBlankIrq), i);
    }
  }

  /** The same settings: interrupt enables and match line. */
  predicate SameSettings(s: Stat, t: Stat) {
    s.irqV == t.irqV && s.irqH == t.irqH && s.irqM == t.irqM && s.goal == t.goal
  }

  /** The status along line k: armed by its start as its settings say, disarmed by its interrupt
      phase, and ready for the next line at its end. */
  lemma LineStatus(s: Stat, k: nat)
    requires BeforeLine(StatAt(s, 4 * k), if k % 263 == 0 then 262 else k % 263 - 1) && SameSettings(s, StatAt(s, 4 * k))
    ensures var a, e := StatAt(s, 4 * k + 1), StatAt(s, 4 * k + 4);
      && a.pendV == (k % 263 == 192 && s.irqV) && a.pendM == (k % 263 == s.goal && s.irqM)
      && SameSettings(s, a) && SameSettings(s, StatAt(s, 4 * k + 3)) && SameSettings(s, e)
      && BeforeLine(e, k % 263)
  {
    LineEvents(k);
    var s0 := StatAt(s, 4 * k);
    StartLineFlags(s0, k % 263);
    hide LineStat;
    var s1 := StatAt(s, 4 * k + 1);
    assert s1 == LineStat(s0, k % 263);
    assert StatAt(s, 4 * k + 2) == s1.(pendV := false, pendM := false);
    assert StatAt(s, 4 * k + 3) == StatAt(s, 4 * k + 2);
    assert StatAt(s, 4 * k + 4) == StatAt(s, 4 * k + 3).(hblank := true);
  }

  lemma {:induction false} StatusBefore(s: Stat, k: nat)
    requires !s.vblank && !s.pendV && !s.pendM
    ensures BeforeLine(StatAt(s, 4 * k), if k % 263 == 0 then 262 else k % 263 - 1) && SameSettings(s, StatAt(s, 4 * k))
  {
    hide StatAt, BeforeLine, SameSettings;
    if k == 0 {
      StatusFirst(s);
    } else {
      StatusBefore(s, k - 1);
      LineStatus(s, k - 1);
      LineBefore(k);
    }
  }

  lemma LineBefore(k: nat)
    requires k > 0
    ensures (if k % 263 == 0 then 262 else k % 263 - 1) == (k - 1) % 263 && 4 * (k - 1) + 4 == 4 * k
  {
    NextModulo(k - 1, 263);
  }

  lemma StatusFirst(s: Stat)
    requires !s.vblank && !s.pendV && !s.pendM
    ensures BeforeLine(StatAt(s, 0), 262) && SameSettings(s, StatAt(s, 0))
  {
  }

  /** The interrupts line k adds. */
  lemma LineIrqs(s9: Stat, s7: Stat, k: nat, i: Irq)
    requires !s9.vblank && !s9.pendV && !s9.pendM && !s7.vblank && !s7.pendV && !s7.pendM
    requires i.proc == 0 || i.proc == 1
    ensures var s := if i.proc == 0 then s9 else s7; var line := k % 263;
      IrqCount(IrqsAt(s9, s7, 4 * k + 4), i) == IrqCount(IrqsAt(s9, s7, 4 * k), i)
        + match i.kind
          case VBlankIrq => if line == 192 && s.irqV then 1 else 0
          case LineIrq => if line == s.goal && s.irqM then 1 else 0
          case HBlankIrq => if s.irqH then 1 else 0
  {
    StatusBefore(s9, k);
    StatusBefore(s7, k);
    LineStatus(s9, k);
    LineStatus(s7, k);
    hide StatAt, BeforeLine, IrqsAt;
    LineRaises(s9, s7, k, i);
  }

  /** The same in terms of the status as each event finds it. */
  lemma LineRaises(s9: Stat, s7: Stat, k: nat, i: Irq)
    requires i.proc == 0 || i.proc == 1
    ensures var s := if i.proc == 0 then s9 else s7; var armed, body := StatAt(s, 4 * k + 1), StatAt(s, 4 * k + 3);
      IrqCount(IrqsAt(s9, s7, 4 * k + 4), i) == IrqCount(IrqsAt(s9, s7, 4 * k), i)
        + match i.kind
          case VBlankIrq => if armed.pendV then 1 else 0
          case LineIrq => if armed.pendM then 1 else 0
          case HBlankIrq => if body.irqH then 1 else 0
  {
    LineEvents(k);
    hide StatAt;
    RaisedCount(HStart, IrqsAt(s9, s7, 4 * k), StatAt(s9, 4 * k), StatAt(s7, 4 * k), i);
    RaisedCount(HStartIRQ, IrqsAt(s9, s7, 4 * k + 1), StatAt(s9, 4 * k + 1), StatAt(s7, 4 * k + 1), i);
    RaisedCount(HDraw, IrqsAt(s9, s7, 4 * k + 2), StatAt(s9, 4 * k + 2), StatAt(s7, 4 * k + 2), i);
    RaisedCount(HBlank, IrqsAt(s9, s7, 4 * k + 3), StatAt(s9, 4 * k + 3), StatAt(s7, 4 * k + 3), i);
    hide Raised;
    assert IrqsAt(s9, s7, 4 * k + 4) == Raised(HBlank, IrqsAt(s9, s7, 4 * k + 3), StatAt(s9, 4 * k + 3), StatAt(s7, 4 * k + 3));
    assert IrqsAt(s9, s7, 4 * k + 3) == Raised(HDraw, IrqsAt(s9, s7, 4 * k + 2), StatAt(s9, 4 * k + 2), StatAt(s7, 4 * k + 2));
    assert IrqsAt(s9, s7, 4 * k + 2) == Raised(HStartIRQ, IrqsAt(s9, s7, 4 * k + 1), StatAt(s9, 4 * k + 1), StatAt(s7, 4 * k + 1));
    assert IrqsAt(s9, s7, 4 * k + 1) == Raised(HStart, IrqsAt(s9, s7, 4 * k), StatAt(s9, 4 * k), StatAt(s7, 4 * k));
  }

  /** The interrupts of the first k lines: an enabled CPU gets one vertical-blank interrupt a frame,
      at line 192, one line-match interrupt, at its line if there is such a line, and one
      horizontal-blank interrupt a line. */
  lemma {:induction false} Interrupts(s9: Stat, s7: Stat, k: nat, i: Irq)
    requires !s9.vblank && !s9.pendV && !s9.pendM && !s7.vblank && !s7.pendV && !s7.pendM
    requires i.proc == 0 || i.proc == 1
    ensures var s := if i.proc == 0 then s9 else s7;
      IrqCount(IrqsAt(s9, s7, 4 * k), i)
        == match i.kind
           case VBlankIrq => if s.irqV then TimesAt(192, k) else 0
           case LineIrq => if s.irqM && s.goal < 263 then TimesAt(s.goal, k) else 0
           case HBlankIrq => if s.irqH then k else 0
  {
    var s := if i.proc == 0 then s9 else s7;
    hide IrqsAt, StatAt, TimesAt;
    if k == 0 {
      assert IrqsAt(s9, s7, 4 * k) == [] by { NoInterrupts(s9, s7); }
      NextTimeAt(192, 0);
      if s.goal < 263 { NextTimeAt(s.goal, 0); }
    } else {
      Interrupts(s9, s7, k - 1, i);
      LineIrqs(s9, s7, k - 1, i);
      NextTimeAt(192, k - 1);
      if s.goal < 263 { NextTimeAt(s.goal, k - 1); }
      assert 4 * (k - 1) + 4 == 4 * k;
    }
  }

  lemma NoInterrupts(s9: Stat, s7: Stat)
    ensures IrqsAt(s9, s7, 0) == []
  {
  }
}
