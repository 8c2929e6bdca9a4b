/** The scanline event: four phases per line, 263 lines per frame, serviced at any time at or
    after they are due. */
module Scanline {
  import opened Types
  import opened Arith

  const LINES := 263
  const LINE_CYCLES := 4260
  const FRAME_CYCLES := 1120380   // the constant of the load-average bookkeeping

  datatype Phase = HStart | HStartIRQ | HDraw | HBlank
  datatype DmaMode = DmaVBlank | DmaHBlank | DmaHStart | DmaMemDisplay
  datatype IrqKind = VBlankIrq | HBlankIrq | LineIrq
  datatype Irq = Irq(proc: int, kind: IrqKind)

  /** One CPU's DISPSTAT, with the IRQs its line event has armed. */
  datatype Stat = Stat(vblank: bool, hblank: bool, vmatch: bool, irqV: bool, irqH: bool, irqM: bool, goal: nat,
                       pendV: bool, pendM: bool)

  // ----- Closed forms: what the n-th event finds and leaves -----

  function PhaseAt(n: nat): Phase { [HStart, HStartIRQ, HDraw, HBlank][n % 4] }

  /** Cycles from the start of a line to its phase: 1, 7, 259 and 88 dots of 12 cycles. */
  function StampAt(n: nat): nat { n / 4 * LINE_CYCLES + [0, 12, 96, 3204][n % 4] }

  /** VCount after n events, the first line start included. */
  function LineAt(n: nat): nat { if n == 0 then 262 else (n - 1) / 4 % LINES }

  /** How many line starts are among the first n events. */
  function LineStarts(n: nat): nat { (n + 3) / 4 }

  /** Conditional append. */
  function With<T>(s: seq<T>, on: bool, x: T): seq<T> { if on then s + [x] else s }

  /** The interrupts a phase raises: what a line start armed (vertical blank first), or the
      enabled horizontal-blank ones; ARM9 first. */
  function Raised(phase: Phase, irqs: seq<Irq>, s9: Stat, s7: Stat): seq<Irq> {
    match phase
    case HStartIRQ =>
      With(With(With(With(irqs, s9.pendV, Irq(ARM9, VBlankIrq)), s7.pendV, Irq(ARM7, VBlankIrq)),
                s9.pendM, Irq(ARM9, LineIrq)), s7.pendM, Irq(ARM7, LineIrq))
    case HBlank => With(With(irqs, s9.irqH, Irq(ARM9, HBlankIrq)), s7.irqH, Irq(ARM7, HBlankIrq))
    case _ => irqs
  }

  /** The DMA triggers after a phase of a line. */
  function Triggered(phase: Phase, dmas: seq<DmaMode>, line: nat): seq<DmaMode> {
    match phase
    case HStart => With(dmas + [DmaHStart], line < 192, DmaMemDisplay)
    case HStartIRQ => With(dmas, line == 192, DmaVBlank)
    case HDraw => dmas
    case HBlank => With(dmas, line < 192, DmaHBlank)
  }

  /** All DMA triggers of the first n events. */
  function DmasAt(n: nat): seq<DmaMode> {
    if n == 0 then [] else Triggered(PhaseAt(n - 1), DmasAt(n - 1), LineAt(n))
  }

  /** The status after a phase other than the line start. */
  function StatAfter(phase: Phase, s: Stat): Stat {
    if phase == HStartIRQ then s.(pendV := false, pendM := false)
    else if phase == HBlank then s.(hblank := true)
    else s
  }

  predicate BeforeLine(o: Stat, line: nat) {
    !o.pendV && !o.pendM && (o.vblank <==> 192 <= line < 262)
  }

  /** One CPU's DISPSTAT right after a line start: the flags tell the line, and its
      interrupts are armed exactly as enabled. */
  predicate StartedLine(o: Stat, s: Stat, line: nat) {
    && s.vblank == (192 <= line < 262) && !s.hblank
    && s.vmatch == (line == o.goal) && s.pendM == (s.vmatch && o.irqM)
    && s.pendV == (line == 192 && o.irqV)
    && s.irqV == o.irqV && s.irqH == o.irqH && s.irqM == o.irqM && s.goal == o.goal
  }

  /** Line 192: raise the flag and arm the interrupt if it is enabled. */
  function BeginVBlank(s: Stat): Stat {
    if s.irqV then s.(vblank := true, pendV := true) else s.(vblank := true)
  }

  /** execHardware_hstart_vcount for one CPU */
  function MatchLine(s: Stat, line: nat): Stat {
    if line == s.goal then s.(vmatch := true, pendM := s.pendM || s.irqM) else s.(vmatch := false)
  }

  /** The flag updates of a line start. */
  function LineStat(s: Stat, line: nat): Stat {
    var s1 := if line == 262 then s.(vblank := false) else if line == 192 then BeginVBlank(s) else s;
    MatchLine(s1.(hblank := false), line)
  }

  /** Entering a line with the flags of the previous one. */
  lemma StartLineFlags(o: Stat, line: nat)
    requires line < LINES && BeforeLine(o, if line == 0 then 262 else line - 1)
    ensures StartedLine(o, LineStat(o, line), line)
  {
  }

  /** The line counter, 32 bits wide, rolls over at 263. */
  function NextLine(v: u32): u32 {
    if v + 1 == LINES || v == 0xFFFF_FFFF then 0 else v + 1
  }

  /** A VCOUNT write is taken while the counter is between 202 and 212. */
  function WrittenVCount(vcount: u32, value: u16): u32 {
    if 202 <= vcount <= 212 then value else vcount
  }

  /** Successive events of the closed forms. */
  lemma NextEvent(n: nat)
    ensures PhaseAt(n) == HStart ==> n % 4 == 0 && (n + 1) % 4 == 1 && PhaseAt(n + 1) == HStartIRQ && StampAt(n + 1) == StampAt(n) + 12
    ensures PhaseAt(n) == HStartIRQ ==> n % 4 == 1 && (n + 1) % 4 == 2 && PhaseAt(n + 1) == HDraw && StampAt(n + 1) == StampAt(n) + 84
    ensures PhaseAt(n) == HDraw ==> n % 4 == 2 && (n + 1) % 4 == 3 && PhaseAt(n + 1) == HBlank && StampAt(n + 1) == StampAt(n) + 3108
    ensures PhaseAt(n) == HBlank ==> n % 4 == 3 && (n + 1) % 4 == 0 && PhaseAt(n + 1) == HStart && StampAt(n + 1) == StampAt(n) + 1056
    ensures LineAt(n) < LINES
    ensures LineAt(n + 1) == if n % 4 == 0 then (LineAt(n) + 1) % LINES else LineAt(n)
    ensures LineStarts(n + 1) == if n % 4 == 0 then LineStarts(n) + 1 else LineStarts(n)
    ensures LineStarts(n + 1) / LINES == LineStarts(n) / LINES + (if n % 4 == 0 && LineAt(n + 1) == 262 then 1 else 0)
  {
    var q, r := n / 4, n % 4;
    assert n == 4 * q + r;
    if r == 0 && n > 0 {
      assert LineAt(n) == (q - 1) % LINES && LineAt(n + 1) == q % LINES;
    }
  }

  // ----- VCOUNT writes -----

  /** The counter k line starts after it was v. */
  function LinesOn(v: u32, k: nat): u32 {
    if k == 0 then v else NextLine(LinesOn(v, k - 1))
  }

  /** After a write the counter is inside the frame iff the value written is a line number or
      the 32-bit counter has meanwhile wrapped; until then a larger value only counts on. */
  lemma {:induction false} VCountStaysInFrameIff(vcount: u32, value: u16, k: nat)
    requires 202 <= vcount <= 212
    ensures var v := LinesOn(WrittenVCount(vcount, value), k);
      && (v < LINES <==> value < LINES || value + k >= 0x1_0000_0000)
      && v == (if value < LINES then (value + k) % LINES
               else if value + k < 0x1_0000_0000 then value + k
               else (value + k - 0x1_0000_0000) % LINES)
  {
    if k > 0 {
      VCountStaysInFrameIff(vcount, value, k - 1);
      NextModulo(value + (k - 1), LINES);
      if value + (k - 1) >= 0x1_0000_0000 {
        NextModulo(value + (k - 1) - 0x1_0000_0000, LINES);
      }
    }
  }

  /** The next line start, entered from counter v, leaves the vertical-blank flag right. */
  predicate NextFlagRight(s: Stat, v: u32) {
    LineStat(s, NextLine(v)).vblank <==> 192 <= NextLine(v) < 262
  }

  lemma VBlankOf(s: Stat, line: nat)
    ensures LineStat(s, line).vblank == (line != 262 && (line == 192 || s.vblank))
  {
  }

  /** A write during vertical blank leaves the flag right at the next line iff that line is
      still in the blanking period or is the one that ends it. */
  lemma VBlankFlagRightIff(vcount: u32, value: u16, s: Stat)
    requires 202 <= vcount <= 212 && s.vblank
    ensures NextFlagRight(s, WrittenVCount(vcount, value)) <==> 191 <= value <= 261
  {
    hide LineStat;
    VBlankOf(s, NextLine(WrittenVCount(vcount, value)));
  }

  // ----- The event -----

  class Display {
    var timestamp: nat
    var param: Phase
    var vcount: u32
    var stat9: Stat
    var stat7: Stat
    var vblankEnded: bool
    var frames: nat              // times nds_vblankEnded was raised
    var irqs: seq<Irq>           // interrupts raised so far
    var dmas: seq<DmaMode>       // DMA triggers issued so far
    ghost var n: nat             // events serviced since initSchedule

    /** Without VCOUNT writes everything is determined by the number of serviced events. */
    ghost predicate Valid()
      reads this
    {
      && timestamp == StampAt(n) && param == PhaseAt(n) && vcount == LineAt(n)
      && frames == LineStarts(n) / LINES && dmas == DmasAt(n)
      && StatValid(stat9) && StatValid(stat7)
    }

    /** The vertical-blank flag covers lines 192 to 261, the horizontal one the time from
        HBlank to the next line start, and interrupts are only pending in between the line
        start and its IRQ phase. */
    ghost predicate StatValid(s: Stat)
      reads this
    {
      && (s.vblank <==> 192 <= vcount < 262)
      && (s.hblank <==> n > 0 && n % 4 == 0)
      && (s.pendV || s.pendM ==> n % 4 == 1)
      && (s.pendV ==> vcount == 192)
      && (s.pendM ==> s.vmatch)
    }

    /** initSchedule: the very end of the last scanline. */
    constructor ()
      ensures Valid() && n == 0 && irqs == [] && dmas == [] && frames == 0
    {
      timestamp, param, vcount := 0, HStart, 262;
      stat9 := Stat(false, false, false, false, false, false, 0, false, false);
      stat7 := Stat(false, false, false, false, false, false, 0, false, false);
      vblankEnded, frames, irqs, dmas, n := false, 0, [], [], 0;
    }

    /** A game changing its interrupt enables and match line. */
    method WriteStat(proc: int, irqV: bool, irqH: bool, irqM: bool, goal: nat)
      requires Valid() && (proc == ARM9 || proc == ARM7)
      modifies this`stat9, this`stat7
      ensures Valid()
      ensures stat9 == if proc == ARM9 then old(stat9).(irqV := irqV, irqH := irqH, irqM := irqM, goal := goal) else old(stat9)
      ensures stat7 == if proc == ARM7 then old(stat7).(irqV := irqV, irqH := irqH, irqM := irqM, goal := goal) else old(stat7)
    {
      if proc == ARM9 {
        stat9 := stat9.(irqV := irqV, irqH := irqH, irqM := irqM, goal := goal);
      } else {
        stat7 := stat7.(irqV := irqV, irqH := irqH, irqM := irqM, goal := goal);
      }
    }

    /** A write to VCOUNT. It only has an effect between lines 202 and 212; one that changes the
        counter puts it out of step with the schedule for good. The flags of the next line are
        then right iff that line is still blanked or ends the blanking, and later lines are lines
        of the frame iff the value is one or the counter has wrapped. */
    method WriteVCount(value: u16)
      requires Valid()
      modifies this`vcount
      ensures Valid() <==> vcount == old(vcount)
      ensures !(202 <= old(vcount) <= 212) ==> Valid()
      ensures 202 <= old(vcount) <= 212 ==>
        && vcount == value
        && (NextFlagRight(stat9, vcount) <==> 191 <= value <= 261) && (NextFlagRight(stat7, vcount) <==> 191 <= value <= 261)
        && forall k :: LinesOn(vcount, k) < LINES <==> value < LINES || value + k >= 0x1_0000_0000
    {
      hide NextFlagRight;
      if vcount >= 202 && vcount <= 212 {
        VBlankFlagRightIff(vcount, value, stat9);
        VBlankFlagRightIff(vcount, value, stat7);
        forall k: nat
          ensures LinesOn(value, k) < LINES <==> value < LINES || value + k >= 0x1_0000_0000
        {
          VCountStaysInFrameIff(vcount, value, k);
        }
        vcount := value;
      }
    }

    /** execHardware_hstart, from any line; from a line of the frame whose flags are right, the
        flags of the next line are right. */
    method ExecHStart()
      modifies this
      ensures timestamp == old(timestamp) && param == old(param) && irqs == old(irqs) && n == old(n)
      ensures vcount == NextLine(old(vcount))
      ensures frames == old(frames) + (if vcount == 262 then 1 else 0)
      ensures dmas == With(old(dmas) + [DmaHStart], vcount < 192, DmaMemDisplay)
      ensures stat9 == LineStat(old(stat9), vcount) && stat7 == LineStat(old(stat7), vcount)
      ensures old(vcount) < LINES && BeforeLine(old(stat9), old(vcount)) ==> StartedLine(old(stat9), stat9, vcount)
      ensures old(vcount) < LINES && BeforeLine(old(stat7), old(vcount)) ==> StartedLine(old(stat7), stat7, vcount)
    {
      if vcount < LINES && BeforeLine(stat9, vcount) { StartLineFlags(stat9, NextLine(vcount)); }
      if vcount < LINES && BeforeLine(stat7, vcount) { StartLineFlags(stat7, NextLine(vcount)); }
      hide BeforeLine, StartedLine, MatchLine, BeginVBlank;
      var v := if vcount == 0xFFFF_FFFF then 0 else vcount + 1;
      var s9, s7 := stat9, stat7;
      match v {
        case 263 =>
          v := 0;
        case 262 =>
          vblankEnded, frames := true, frames + 1;
          s9, s7 := s9.(vblank := false), s7.(vblank := false);
        case 192 =>
          s9, s7 := BeginVBlank(s9), BeginVBlank(s7);
        case _ =>
      }
      vcount := v;
      s9, s7 := s9.(hblank := false), s7.(hblank := false);
      stat9, stat7 := MatchLine(s9, vcount), MatchLine(s7, vcount);
      dmas := dmas + [DmaHStart];
      if vcount < 192 {
        dmas := dmas + [DmaMemDisplay];
      }
    }

    /** execHardware_hstart_vblankStart */
    method ExecVBlankStart()
      modifies this`stat9, this`stat7, this`irqs, this`dmas
      ensures stat9 == old(stat9).(pendV := false) && stat7 == old(stat7).(pendV := false)
      ensures irqs == With(With(old(irqs), old(stat9).pendV, Irq(ARM9, VBlankIrq)), old(stat7).pendV, Irq(ARM7, VBlankIrq))
      ensures dmas == old(dmas) + [DmaVBlank]
    {
      if stat9.pendV { stat9, irqs := stat9.(pendV := false), irqs + [Irq(ARM9, VBlankIrq)]; }
      if stat7.pendV { stat7, irqs := stat7.(pendV := false), irqs + [Irq(ARM7, VBlankIrq)]; }
      dmas := dmas + [DmaVBlank];
    }

    /** execHardware_hstart_vcount_irq */
    method ExecVCountIrq()
      modifies this`stat9, this`stat7, this`irqs
      ensures stat9 == old(stat9).(pendM := false) && stat7 == old(stat7).(pendM := false)
      ensures irqs == With(With(old(irqs), old(stat9).pendM, Irq(ARM9, LineIrq)), old(stat7).pendM, Irq(ARM7, LineIrq))
    {
      if stat9.pendM { stat9, irqs := stat9.(pendM := false), irqs + [Irq(ARM9, LineIrq)]; }
      if stat7.pendM { stat7, irqs := stat7.(pendM := false), irqs + [Irq(ARM7, LineIrq)]; }
    }

    /** execHardware_hstart_irq: what the line start armed is raised, and nothing stays armed. */
    method ExecHStartIrq()
      requires stat9.pendV || stat7.pendV ==> vcount == 192
      modifies this`stat9, this`stat7, this`irqs, this`dmas
      ensures stat9 == old(stat9).(pendV := false, pendM := false)
      ensures stat7 == old(stat7).(pendV := false, pendM := false)
      ensures irqs == Raised(HStartIRQ, old(irqs), old(stat9), old(stat7))
      ensures dmas == With(old(dmas), vcount == 192, DmaVBlank)
    {
      if vcount == 192 {
        ExecVBlankStart();
      }
      ExecVCountIrq();
    }

    /** execHardware_hblank: the flag goes up and the enabled interrupts are raised. */
    method ExecHBlank()
      modifies this`stat9, this`stat7, this`irqs, this`dmas
      ensures stat9 == old(stat9).(hblank := true) && stat7 == old(stat7).(hblank := true)
      ensures irqs == Raised(HBlank, old(irqs), old(stat9), old(stat7))
      ensures dmas == With(old(dmas), vcount < 192, DmaHBlank)
    {
      if vcount < 192 {
        dmas := dmas + [DmaHBlank];
      }
      stat9, stat7 := stat9.(hblank := true), stat7.(hblank := true);
      if stat9.irqH { irqs := irqs + [Irq(ARM9, HBlankIrq)]; }
      if stat7.irqH { irqs := irqs + [Irq(ARM7, HBlankIrq)]; }
    }

    /** The two phases around a line start. */
    method ExecLineStart()
      requires Valid() && (param == HStart || param == HStartIRQ)
      modifies this
      ensures Valid() && n == old(n) + 1
      ensures irqs == Raised(old(param), old(irqs), old(stat9), old(stat7)) && dmas == Triggered(old(param), old(dmas), vcount)
      ensures old(param) == HStart ==> StartedLine(old(stat9), stat9, vcount) && StartedLine(old(stat7), stat7, vcount)
      ensures old(param) == HStartIRQ ==> stat9 == StatAfter(HStartIRQ, old(stat9)) && stat7 == StatAfter(HStartIRQ, old(stat7))
    {
      NextEvent(n);
      hide PhaseAt, StampAt, LineAt, LineStarts, With, LineStat;
      if param == HStart {
        ExecHStart();
        timestamp := timestamp + 1 * 6 * 2;
        param := HStartIRQ;
      } else {
        ExecHStartIrq();
        timestamp := timestamp + 7 * 6 * 2;
        param := HDraw;
      }
      n := n + 1;
    }

    /** The two phases along a line. */
    method ExecLineBody()
      requires Valid() && (param == HDraw || param == HBlank)
      modifies this
      ensures Valid() && n == old(n) + 1
      ensures irqs == Raised(old(param), old(irqs), old(stat9), old(stat7)) && dmas == Triggered(old(param), old(dmas), vcount)
      ensures stat9 == StatAfter(old(param), old(stat9)) && stat7 == StatAfter(old(param), old(stat7))
    {
      NextEvent(n);
      hide PhaseAt, StampAt, LineAt, LineStarts, With;
      if param == HDraw {
        timestamp := timestamp + (267 - 8) * 6 * 2;
        param := HBlank;
      } else {
        ExecHBlank();
        timestamp := timestamp + (355 - 267) * 6 * 2;
        param := HStart;
      }
      n := n + 1;
    }

    /** The scanline part of Sequencer::execHardware, called with nds_timer = now. */
    method ExecHardware(now: nat)
      requires Valid()
      modifies this
      ensures Valid()
      ensures n == old(n) + (if now >= old(timestamp) then 1 else 0)
      ensures now < old(timestamp) ==> irqs == old(irqs) && dmas == old(dmas) && stat9 == old(stat9) && stat7 == old(stat7)
      ensures now >= old(timestamp) ==> irqs == Raised(old(param), old(irqs), old(stat9), old(stat7))
      ensures now >= old(timestamp) ==> dmas == Triggered(old(param), old(dmas), vcount)
      ensures now >= old(timestamp) ==>
                if old(param) == HStart then StartedLine(old(stat9), stat9, vcount) && StartedLine(old(stat7), stat7, vcount)
                else stat9 == StatAfter(old(param), old(stat9)) && stat7 == StatAfter(old(param), old(stat7))
    {
      if now < timestamp { return; }
      match param {
        case HStart | HStartIRQ => ExecLineStart();
        case HDraw | HBlank => ExecLineBody();
      }
    }
  }

  /** The k-th line start is due exactly 4260 * k cycles after the first and enters line
      k mod 263; a frame lasts the 1120380 cycles used for load tracking. */
  lemma LineTiming(k: nat)
    ensures PhaseAt(4 * k) == HStart && StampAt(4 * k) == 4260 * k && LineAt(4 * k + 1) == k % 263
    ensures PhaseAt(4 * k + 1) == HStartIRQ && StampAt(4 * k + 1) == 4260 * k + 12
    ensures PhaseAt(4 * k + 2) == HDraw && StampAt(4 * k + 2) == 4260 * k + 96
    ensures PhaseAt(4 * k + 3) == HBlank && StampAt(4 * k + 3) == 4260 * k + 3204
    ensures StampAt(4 * (k + 263)) - StampAt(4 * k) == 1120380
    ensures LineStarts(4 * k + 1) / 263 == LineStarts(4 * k) / 263 + (if k % 263 == 262 then 1 else 0)
  {
    NextEvent(4 * k);
  }
}
