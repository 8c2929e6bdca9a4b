/** The DMA channel controller, with the geometry-FIFO mode that transfers in bursts. */
module Dma {
  import opened Types
  import opened Arith

  const IMMEDIATE := 0
  const MEM_DISPLAY := 4
  const CARD := 5
  const GXFIFO := 7
  const WIFI7 := 8
  const GBASLOT7 := 9

  const BURST := 112
  const LOW_MARK := 127
  const M32 := 0x1_0000_0000

  datatype Update = Increment | Decrement | Fixed | Other   // Other: reload for the destination, invalid for the source

  datatype Transfer = Transfer(src: u32, dst: u32)

  /** The controller's registers and flags, its bit in nds.freezeBus, the interrupts it has
      raised and the bus transfers it has made since its control register was last written. */
  datatype Channel = Channel(
    procnum: int, chan: nat,
    enable: bool, irq: bool, repeatMode: bool, startReg: nat, wordcount: u32, startmode: nat, wide: bool,
    sar: Update, dar: Update, saddr: u32, daddr: u32, saddrUser: u32, daddrUser: u32,
    dmaCheck: bool, running: bool, paused: bool, triggered: bool, nextEvent: nat,
    frozen: bool, irqs: nat, bus: seq<Transfer>)

  /** What the channel sees of the rest of the machine when it runs. */
  datatype Surroundings = Surroundings(now: nat, gxSize: nat, vcount: nat, cardWords: u32, elapsed: nat)

  function UpdateOf(bits: nat): Update {
    if bits == 0 then Increment else if bits == 1 then Decrement else if bits == 2 then Fixed else Other
  }

  function Schedule(d: Channel, now: nat): Channel {
    d.(dmaCheck := true, nextEvent := now)
  }

  /** tryTrigger: ignored by other modes, by a disabled channel and by one that is copying. */
  function TryTrigger(d: Channel, mode: nat, now: nat): Channel {
    if d.startmode != mode || !d.enable || (d.running && !d.paused) then d
    else Schedule(d.(triggered := true), now)
  }

  function Pause(d: Channel): Channel {
    d.(triggered := false, paused := true)
  }

  function Stop(d: Channel): Channel {
    d.(running := false, enable := d.enable && d.repeatMode, irqs := if d.irq then d.irqs + 1 else d.irqs)
  }

  function Width(d: Channel): nat { if d.wide then 4 else 2 }

  /** The address step, as the 32-bit addend the source computes. */
  function Step(u: Update, width: nat): u32
    requires width == 2 || width == 4
  {
    match u
    case Increment => width
    case Decrement => M32 - width
    case Fixed => 0
    case Other => width
  }

  /** n transfers from given addresses. */
  function Burst(src: u32, dst: u32, srcinc: u32, dstinc: u32, n: nat): (r: seq<Transfer>)
    ensures |r| == n
  {
    seq(n, k requires k >= 0 => Transfer((src + k * srcinc) % M32, (dst + k * dstinc) % M32))
  }

  /** How many units one copy moves. */
  function Todo(d: Channel, e: Surroundings): nat {
    if d.startmode == CARD then e.cardWords / Width(d)
    else if d.startmode == MEM_DISPLAY then 128
    else
      var count := if d.procnum == ARM9 && d.wordcount == 0 then 0x20_0000 else d.wordcount;
      if d.startmode == GXFIFO then Min(count, BURST) else count
  }

  /** doCopy. An invalid source update gives up without copying or scheduling. */
  function Copied(d: Channel, e: Surroundings): Channel {
    var d0 := if d.startmode == MEM_DISPLAY && e.vcount == 191 then d.(enable := false) else d;
    if d.sar == Other then d0
    else
      var n := Todo(d, e);
      var srcinc, dstinc := Step(d.sar, Width(d)), Step(d.dar, Width(d));
      var d1 := Schedule(d0.(bus := d.bus + Burst(d.saddr, d.daddr, srcinc, dstinc, n)), e.now);
      d1.(nextEvent := e.now + e.elapsed, frozen := d.frozen || d.procnum == ARM9,
          saddr := (d.saddr + n * srcinc) % M32,
          daddr := if d.dar == Other then d.daddr else (d.daddr + n * dstinc) % M32,
          wordcount := if d.repeatMode then d.wordcount
                       else if d.startmode == CARD then 0
                       else (d.wordcount - n) % M32)
  }

  /** The start mode a channel latches when it begins. */
  function StartModeOf(d: Channel): nat {
    if d.procnum == ARM9 then d.startReg
    else if d.startReg / 2 == 3 then (if d.chan == 1 || d.chan == 3 then GBASLOT7 else WIFI7)
    else [0, 1, 5, 0][d.startReg / 2 % 4]
  }

  /** The start mode is latched, and the conditions that need no trigger are scanned. */
  function Latched(d: Channel, e: Surroundings): Channel {
    var mode := StartModeOf(d);
    d.(startmode := mode,
       triggered := d.triggered || mode == IMMEDIATE || (mode == GXFIFO && e.gxSize <= LOW_MARK))
  }

  function Begin(d: Channel, e: Surroundings): Channel {
    var d1 := Latched(d, e);
    if d1.triggered then Copied(d1.(running := true, paused := false), e) else d1
  }

  /** exec: ends the copy that was running, or begins one. */
  function Exec(d: Channel, e: Surroundings): Channel {
    var d1 := d.(dmaCheck := false, frozen := d.frozen && d.procnum != ARM9);
    if d1.running && !(d1.startmode == GXFIFO && d1.wordcount > 0) then Stop(d1)
    else
      var d2 := if d1.running then Pause(d1) else d1;
      if d2.enable then Begin(d2, e) else d2
  }

  /** The fields of a control word; the log starts over. */
  function Decoded(d: Channel, val: u32): Channel {
    var hi := val / 0x1_0000;
    d.(wordcount := val % 0x20_0000, dar := UpdateOf(hi / 32 % 4), sar := UpdateOf(hi / 128 % 4),
       repeatMode := Bit(hi, 9), wide := Bit(hi, 10),
       startReg := if d.procnum == ARM7 then hi / 2048 % 8 / 2 * 2 else hi / 2048 % 8,
       irq := Bit(hi, 14), enable := Bit(hi, 15), bus := [])
  }

  /** Freshly enabled channels drop old triggers, and enabled ones take over the user's
      addresses. */
  function Reloaded(d: Channel, wasEnable: bool): Channel {
    d.(triggered := d.triggered && (wasEnable || !d.enable),
       saddr := if d.enable then d.saddrUser else d.saddr,
       daddr := if d.enable then d.daddrUser else d.daddr)
  }

  /** write32 on the control register. */
  function WriteControl(d: Channel, val: u32, now: nat): Channel {
    var d1 := Reloaded(Decoded(d, val), d.enable);
    if d.startmode != IMMEDIATE && d.startmode != GXFIFO && d.enable then d1 else Schedule(d1, now)
  }

  function BitsOf(u: Update): nat {
    match u
    case Increment => 0
    case Decrement => 1
    case Fixed => 2
    case Other => 3
  }

  /** read32: the control word of the fields; the source's ors join separate bits as long as the
      count fits its 21 bits. */
  function ControlWord(d: Channel): nat {
    (if d.enable then 0x8000_0000 else 0) + (if d.irq then 0x4000_0000 else 0) + d.startReg * 0x800_0000
    + (if d.wide then 0x400_0000 else 0) + (if d.repeatMode then 0x200_0000 else 0)
    + BitsOf(d.sar) * 0x80_0000 + BitsOf(d.dar) * 0x20_0000 + d.wordcount
  }

  /** A halfword is the sum of the fields its bits are split into. */
  lemma SplitHalfword(hi: u16)
    ensures hi == hi % 32 + 32 * (hi / 32 % 4) + 128 * (hi / 128 % 4) + 512 * (hi / 512 % 2) + 1024 * (hi / 1024 % 2)
                  + 2048 * (hi / 2048 % 8) + 0x4000 * (hi / 0x4000 % 2) + 0x8000 * (hi / 0x8000 % 2)
  {
    Quotients(hi);
    var a, b, c, d, f, g, h := hi / 32, hi / 128, hi / 512, hi / 1024, hi / 2048, hi / 0x4000, hi / 0x8000;
    assert hi == 32 * a + hi % 32 && a == 4 * b + a % 4 && b == 4 * c + b % 4 && c == 2 * d + c % 2;
    assert d == 2 * f + d % 2 && f == 8 * g + f % 8 && g == 2 * h + g % 2 && h == h % 2;
  }

  lemma Quotients(hi: u16)
    ensures hi / 32 / 4 == hi / 128 && hi / 128 / 4 == hi / 512 && hi / 512 / 2 == hi / 1024 && hi / 1024 / 2 == hi / 2048
    ensures hi / 2048 / 8 == hi / 0x4000 && hi / 0x4000 / 2 == hi / 0x8000 < 2
  {
  }

  lemma HighFields(hi: u16)
    ensures hi == hi % 32 + 32 * (hi / 32 % 4) + 128 * (hi / 128 % 4) + (if Bit(hi, 9) then 512 else 0)
                  + (if Bit(hi, 10) then 1024 else 0) + 2048 * (hi / 2048 % 8)
                  + (if Bit(hi, 14) then 0x4000 else 0) + (if Bit(hi, 15) then 0x8000 else 0)
  {
    PowersOfTwo();
    SplitHalfword(hi);
  }

  lemma PowersOfTwo()
    ensures Pow2(9) == 512 && Pow2(10) == 1024 && Pow2(14) == 0x4000 && Pow2(15) == 0x8000
  {
    assert Pow2(5) == 32;
    assert Pow2(10) == 1024;
    assert Pow2(15) == 0x8000;
  }

  lemma UpdateRoundTrip(bits: nat)
    requires bits < 4
    ensures BitsOf(UpdateOf(bits)) == bits
  {
  }

  lemma SameWord(c: Channel, d: Channel)
    requires c.enable == d.enable && c.irq == d.irq && c.startReg == d.startReg && c.wide == d.wide
    requires c.repeatMode == d.repeatMode && c.sar == d.sar && c.dar == d.dar && c.wordcount == d.wordcount
    ensures ControlWord(c) == ControlWord(d)
  {
  }

  lemma OnlyFieldsCount(d: Channel, val: u32, now: nat)
    ensures ControlWord(WriteControl(d, val, now)) == ControlWord(Decoded(d, val))
  {
    hide Decoded, BitsOf;
    var d1 := Decoded(d, val);
    SameWord(d1, Reloaded(d1, d.enable));
    SameWord(d1, Schedule(Reloaded(d1, d.enable), now));
    hide ControlWord;
  }

  lemma DecodedWord(d: Channel, val: u32)
    ensures var hi := val / 0x1_0000; var s := hi / 2048 % 8;
      ControlWord(Decoded(d, val)) == val % 0x1_0000 + 0x1_0000 * (hi - (if d.procnum == ARM7 then s % 2 * 2048 else 0))
  {
    var hi := val / 0x1_0000;
    HighFields(hi);
    hide Bit;
    UpdateRoundTrip(hi / 32 % 4);
    UpdateRoundTrip(hi / 128 % 4);
    hide BitsOf, UpdateOf;
    LowFields(val);
  }

  /** What is written to the control register is read back; the ARM7 has no lowest start bit. */
  lemma ReadBack(d: Channel, val: u32, now: nat)
    ensures ControlWord(WriteControl(d, val, now))
         == if d.procnum == ARM7 then val - val / 0x800_0000 % 2 * 0x800_0000 else val
  {
    hide Decoded, ControlWord, WriteControl;
    OnlyFieldsCount(d, val, now);
    DecodedWord(d, val);
    LowFields(val);
  }

  lemma LowFields(val: u32)
    ensures val % 0x20_0000 == val % 0x1_0000 + 0x1_0000 * (val / 0x1_0000 % 32)
    ensures val / 0x800_0000 % 2 == val / 0x1_0000 / 2048 % 8 % 2
  {
    assert val / 0x20_0000 == val / 0x1_0000 / 32;
    assert val / 0x800_0000 == val / 0x1_0000 / 2048;
  }

  // ----- Any run of a geometry-FIFO channel -----

  datatype Event = Trigger(mode: nat, at: nat) | Service(e: Surroundings)

  /** The sequencer services a channel once its event is due. */
  function Apply(d: Channel, ev: Event): Channel {
    match ev
    case Trigger(mode, at) => TryTrigger(d, mode, at)
    case Service(e) => if d.dmaCheck && e.now >= d.nextEvent then Exec(d, e) else d
  }

  function Run(d: Channel, evs: seq<Event>): Channel {
    if evs == [] then d else Apply(Run(d, evs[..|evs| - 1]), evs[|evs| - 1])
  }

  /** A channel just programmed for the geometry FIFO, without repeat: idle, or still running or
      paused in that mode. */
  predicate Armed(d: Channel) {
    && d.procnum == ARM9 && d.enable && !d.repeatMode && d.startReg == GXFIFO && d.sar != Other
    && (d.running ==> d.startmode == GXFIFO) && (d.running && !d.paused ==> d.dmaCheck)
    && Sane(d) && d.bus == []
  }

  /** The bus is only frozen during a copy whose end is scheduled. */
  predicate Sane(d: Channel) {
    d.frozen ==> d.procnum == ARM9 && d.dmaCheck && d.running && !d.paused
  }

  /** The channel's event is pending, or a low FIFO makes it so. */
  predicate Prompt(d: Channel) { d.enable && !d.dmaCheck ==> d.startmode == GXFIFO }

  predicate SameSetup(d0: Channel, d: Channel) {
    && d.procnum == d0.procnum && d.chan == d0.chan && d.irq == d0.irq && d.repeatMode == d0.repeatMode
    && d.startReg == d0.startReg && d.wide == d0.wide && d.sar == d0.sar && d.dar == d0.dar
  }

  /** Where the k-th word of the whole transfer is read. */
  function SourceAt(d0: Channel, k: nat): u32 {
    (d0.saddr + k * Step(d0.sar, Width(d0))) % M32
  }

  function DestAt(d0: Channel, k: nat): u32 {
    (d0.daddr + k * Step(d0.dar, Width(d0))) % M32
  }

  /** Words copied and words to come make up the initial count, in address order. */
  ghost predicate Conserved(d0: Channel, d: Channel) {
    && |d.bus| + d.wordcount == d0.wordcount
    && d.saddr == SourceAt(d0, |d.bus|)
    && (forall k :: 0 <= k < |d.bus| ==> d.bus[k].src == SourceAt(d0, k))
    && (d0.dar != Other ==> d.daddr == DestAt(d0, |d.bus|) && forall k :: 0 <= k < |d.bus| ==> d.bus[k].dst == DestAt(d0, k))
  }

  /** The channel is enabled until everything is copied and acknowledged once, a copy under
      way always has its end scheduled, and the bus is only frozen meanwhile. */
  predicate Lively(d0: Channel, d: Channel) {
    && (if d.enable then d.wordcount > 0 || d.running else d.wordcount == 0 && !d.running)
    && (d.running ==> d.startmode == GXFIFO)
    && (d.running && !d.paused ==> d.dmaCheck)
    && (d.frozen ==> d.dmaCheck && d.running && !d.paused)
    && d.irqs == d0.irqs + (if !d.enable && d.irq then 1 else 0)
  }

  lemma ArmedIsLive(d: Channel)
    requires Armed(d) && d.wordcount > 0
    ensures SameSetup(d, d) && Conserved(d, d) && Lively(d, d)
  {
  }

  lemma AddressStep(a: nat, i: nat, k: nat, inc: nat)
    ensures ((a + i * inc) % M32 + k * inc) % M32 == (a + (i + k) * inc) % M32
  {
    assert (i + k) * inc == i * inc + k * inc;
  }

  lemma CopySources(d0: Channel, d: Channel, e: Surroundings, k: nat)
    requires SameSetup(d0, d) && d.sar != Other && Conserved(d0, d) && k <= Todo(d, e)
    ensures Burst(d.saddr, d.daddr, Step(d.sar, Width(d)), Step(d.dar, Width(d)), k + 1)[k].src == SourceAt(d0, |d.bus| + k)
    ensures (d.saddr + k * Step(d.sar, Width(d))) % M32 == SourceAt(d0, |d.bus| + k)
  {
    AddressStep(d0.saddr, |d.bus|, k, Step(d.sar, Width(d)));
  }

  lemma CopyDests(d0: Channel, d: Channel, e: Surroundings, k: nat)
    requires SameSetup(d0, d) && d.dar != Other && Conserved(d0, d) && k <= Todo(d, e)
    ensures Burst(d.saddr, d.daddr, Step(d.sar, Width(d)), Step(d.dar, Width(d)), k + 1)[k].dst == DestAt(d0, |d.bus| + k)
    ensures (d.daddr + k * Step(d.dar, Width(d))) % M32 == DestAt(d0, |d.bus| + k)
  {
    AddressStep(d0.daddr, |d.bus|, k, Step(d.dar, Width(d)));
  }

  lemma CopyConserves(d0: Channel, d: Channel, e: Surroundings)
    requires SameSetup(d0, d) && d0.sar != Other && !d0.repeatMode && Conserved(d0, d)
    requires d.startmode == GXFIFO && d.wordcount > 0
    ensures Conserved(d0, Copied(d, e)) && |Copied(d, e).bus| == |d.bus| + Min(d.wordcount, BURST)
  {
    var n, c := Todo(d, e), Copied(d, e);
    CopySources(d0, d, e, n);
    forall k | |d.bus| <= k < |c.bus| ensures c.bus[k].src == SourceAt(d0, k) {
      CopySources(d0, d, e, k - |d.bus|);
    }
    if d0.dar != Other {
      CopyDests(d0, d, e, n);
      forall k | |d.bus| <= k < |c.bus| ensures c.bus[k].dst == DestAt(d0, k) {
        CopyDests(d0, d, e, k - |d.bus|);
      }
    }
  }

  /** An enabled channel that is idle or paused and has words left. */
  predicate Waiting(d0: Channel, d: Channel) {
    && d.enable && d.wordcount > 0 && !d.dmaCheck && !d.frozen && d.irqs == d0.irqs
    && (d.running ==> d.paused && d.startmode == GXFIFO)
  }

  lemma BeginKeeps(d0: Channel, d: Channel, e: Surroundings)
    requires Armed(d0) && SameSetup(d0, d) && Conserved(d0, d) && Waiting(d0, d)
    ensures var c := Begin(d, e);
      (SameSetup(d0, c) && Conserved(d0, c) && Lively(d0, c) && |c.bus| <= |d.bus| + BURST && d.bus <= c.bus)
  {
    var d1 := d.(startmode := GXFIFO);
    if d.triggered || e.gxSize <= LOW_MARK {
      var d2 := d1.(triggered := true, running := true, paused := false);
      CopyConserves(d0, d2, e);
      assert Begin(d, e) == Copied(d2, e);
    } else {
      assert Begin(d, e) == d1;
    }
  }

  lemma ExecKeeps(d0: Channel, d: Channel, e: Surroundings)
    requires Armed(d0) && d0.wordcount > 0
    requires SameSetup(d0, d) && Conserved(d0, d) && Lively(d0, d)
    ensures var c := Exec(d, e);
      (SameSetup(d0, c) && Conserved(d0, c) && Lively(d0, c) && |c.bus| <= |d.bus| + BURST && d.bus <= c.bus && (Prompt(d) ==> Prompt(c)))
  {
    var d1 := d.(dmaCheck := false, frozen := false);
    if d1.running && d1.wordcount == 0 {
      assert Exec(d, e) == Stop(d1);
    } else if d1.enable {
      BeginKeeps(d0, if d1.running then Pause(d1) else d1, e);
    }
  }

  lemma ApplyKeeps(d0: Channel, d: Channel, ev: Event)
    requires Armed(d0) && d0.wordcount > 0
    requires SameSetup(d0, d) && Conserved(d0, d) && Lively(d0, d)
    ensures var c := Apply(d, ev);
      (SameSetup(d0, c) && Conserved(d0, c) && Lively(d0, c) && |c.bus| <= |d.bus| + BURST && d.bus <= c.bus && (Prompt(d) ==> Prompt(c)))
  {
    if ev.Service? {
      ExecKeeps(d0, d, ev.e);
    }
  }

  /** Over every run of triggers and services: words copied plus words left stay the initial
      count, sources are read once each in order, at most one burst moves per event, and the
      channel switches itself off, interrupting once, exactly when everything is copied. */
  lemma {:induction false} RunConserves(d0: Channel, evs: seq<Event>)
    requires Armed(d0) && d0.wordcount > 0
    ensures var d := Run(d0, evs); SameSetup(d0, d) && Conserved(d0, d) && Lively(d0, d) && (Prompt(d0) ==> Prompt(d))
  {
    if evs != [] {
      RunConserves(d0, evs[..|evs| - 1]);
      ApplyKeeps(d0, Run(d0, evs[..|evs| - 1]), evs[|evs| - 1]);
    }
  }

  /** An unfinished channel is never stuck: its event is pending, or the next low-FIFO trigger
      makes it so and the service then copies a full burst or all that is left. */
  lemma NeverStuck(d0: Channel, evs: seq<Event>, now: nat, e: Surroundings)
    requires Armed(d0) && Prompt(d0) && d0.wordcount > 0 && Run(d0, evs).enable
    requires e.gxSize <= LOW_MARK
    ensures var d := Run(d0, evs); var t := TryTrigger(d, GXFIFO, now);
      && (d.dmaCheck || (t.dmaCheck && t.nextEvent == now))
      && |Exec(t, e).bus| == |d.bus| + Min(d.wordcount, BURST)
      && (d.wordcount == 0 ==> !Exec(t, e).enable)
  {
    var d := Run(d0, evs);
    RunConserves(d0, evs);
    ApplyKeeps(d0, d, Trigger(GXFIFO, now));
    if d.wordcount > 0 {
      ExecOnLowFifo(d0, TryTrigger(d, GXFIFO, now), e);
    }
  }

  /** n services in a row on a FIFO that is always low. */
  function Drain(d: Channel, e: Surroundings, n: nat): Channel {
    if n == 0 then d else Exec(Drain(d, e, n - 1), e)
  }

  /** What the n-th service on a low FIFO leaves. */
  predicate Drained(d0: Channel, d: Channel, n: nat) {
    && d.wordcount == Max(0, d0.wordcount - BURST * n)
    && (d.enable <==> n == 0 || BURST * (n - 1) < d0.wordcount)
  }

  /** On a low FIFO the n-th service leaves W - 112 n words, and the channel stops at the first
      service that finds none. */
  lemma {:induction false} DrainSchedule(d0: Channel, e: Surroundings, n: nat)
    requires Armed(d0) && d0.wordcount > 0 && e.gxSize <= LOW_MARK
    ensures var d := Drain(d0, e, n);
      && SameSetup(d0, d) && Conserved(d0, d) && Lively(d0, d) && Drained(d0, d, n)
      && (d.enable && n > 0 ==> d.dmaCheck)
  {
    hide Armed, SameSetup, Conserved, Lively, Drained, Exec;
    if n == 0 {
      ArmedIsLive(d0);
      DrainStart(d0);
    } else {
      DrainSchedule(d0, e, n - 1);
      DrainStep(d0, Drain(d0, e, n - 1), e, n - 1, n);
    }
  }

  lemma DrainStart(d0: Channel)
    requires Armed(d0)
    ensures Drained(d0, d0, 0)
  {
    hide Sane;
  }

  lemma DrainStep(d0: Channel, d: Channel, e: Surroundings, n: nat, m: nat)
    requires m == n + 1
    requires Armed(d0) && d0.wordcount > 0 && e.gxSize <= LOW_MARK
    requires SameSetup(d0, d) && Conserved(d0, d) && Lively(d0, d) && Drained(d0, d, n)
    ensures var c := Exec(d, e);
      && SameSetup(d0, c) && Conserved(d0, c) && Lively(d0, c) && Drained(d0, c, m)
      && (c.enable ==> c.dmaCheck)
  {
    ExecKeeps(d0, d, e);
    if d.enable && d.wordcount > 0 {
      ExecOnLowFifo(d0, d, e);
    }
  }

  lemma ExecOnLowFifo(d0: Channel, d: Channel, e: Surroundings)
    requires Armed(d0) && SameSetup(d0, d) && Conserved(d0, d) && Lively(d0, d)
    requires d.enable && d.wordcount > 0 && e.gxSize <= LOW_MARK
    ensures var c := Exec(d, e);
      (c.wordcount == d.wordcount - Min(d.wordcount, BURST) && |c.bus| == |d.bus| + Min(d.wordcount, BURST)
       && c.dmaCheck && c.enable && c.running)
  {
    var t := d.(dmaCheck := false, frozen := false);
    var w := (if t.running then Pause(t) else t).(startmode := GXFIFO, triggered := true, running := true, paused := false);
    assert Exec(d, e) == Copied(w, e);
    CopyConserves(d0, w, e);
  }

  /** What a word count of zero stands for on the ARM9. */
  function RequestedWords(wordcount: u32): nat { if wordcount == 0 then 0x20_0000 else wordcount }

  /** The first burst leaves the requested number of words, less itself, iff the count was not
      written as zero: then the subtraction wraps and nearly 2^32 words remain. */
  lemma RequestHonouredIff(d: Channel, e: Surroundings)
    requires Armed(d) && d.startmode == GXFIFO
    ensures var c := Copied(d, e);
      && (|c.bus| + c.wordcount == RequestedWords(d.wordcount) <==> d.wordcount != 0)
      && (d.wordcount == 0 ==> |c.bus| == BURST && c.wordcount == M32 - BURST)
  {
  }

  // ----- Programming a transfer -----

  /** A control word that asks an ARM9 channel for a geometry-FIFO transfer of at least one word,
      without repeat and with a valid source update. */
  predicate Requests(d: Channel, val: u32) {
    var hi := val / 0x1_0000;
    && d.procnum == ARM9 && val % 0x20_0000 > 0
    && Bit(hi, 15) && !Bit(hi, 9) && hi / 2048 % 8 == GXFIFO && hi / 128 % 4 != 3
  }

  /** The channel is idle, or running in geometry-FIFO mode already. */
  predicate Joins(d: Channel) { d.running ==> d.startmode == GXFIFO }

  /** A request arms a channel that is not running in another mode, whatever it was doing, with
      the user's addresses. It is prompt unless it waits for the trigger of an older mode. */
  lemma RequestArms(d: Channel, val: u32, now: nat)
    requires Sane(d) && Requests(d, val) && Joins(d)
    ensures var c := WriteControl(d, val, now);
      && Armed(c) && c.wordcount == val % 0x20_0000 && c.saddr == d.saddrUser && c.daddr == d.daddrUser
      && (!d.enable ==> !c.triggered)
      && (Prompt(c) <==> !d.enable || d.startmode == IMMEDIATE || d.startmode == GXFIFO || d.dmaCheck)
  {
    hide Bit;
  }

  /** Nothing will be copied before the control register is written again. */
  predicate Doomed(d: Channel) {
    !d.repeatMode && if d.running then d.startmode != GXFIFO else !d.enable
  }

  lemma {:induction false} DoomedCopiesNothing(d: Channel, evs: seq<Event>)
    requires Doomed(d)
    ensures Doomed(Run(d, evs)) && Run(d, evs).bus == d.bus
  {
    if evs != [] {
      DoomedCopiesNothing(d, evs[..|evs| - 1]);
    }
  }

  /** Some run copies words of a requested transfer iff the channel was not running in another
      mode when it was requested: otherwise the end of the old copy stops the new one. */
  lemma RequestTakenIff(d: Channel, val: u32, now: nat)
    requires Sane(d) && Requests(d, val)
    ensures (exists evs: seq<Event> :: Run(WriteControl(d, val, now), evs).bus != []) <==> Joins(d)
  {
    var c := WriteControl(d, val, now);
    if Joins(d) {
      RequestArms(d, val, now);
      ArmedStarts(c);
    } else {
      assert Doomed(c) && c.bus == [] by { hide Bit; }
      forall evs: seq<Event> ensures Run(c, evs).bus == [] {
        DoomedCopiesNothing(c, evs);
      }
    }
  }

  /** The trigger of its mode, if need be, and a service on a low FIFO start a transfer. */
  lemma ArmedStarts(c: Channel)
    requires Armed(c) && c.wordcount > 0
    ensures exists evs: seq<Event> :: Run(c, evs).bus != []
  {
    ArmedIsLive(c);
    var first := Trigger(c.startmode, 0);
    var t := if c.dmaCheck then c else Apply(c, first);
    var pre: seq<Event> := if c.dmaCheck then [] else [first];
    ApplyKeeps(c, c, first);
    assert t.dmaCheck && t.enable && t.wordcount > 0;
    assert Run(c, []) == c;
    assert [first][..0] == [] && Run(c, pre) == t;
    var service := Service(Surroundings(t.nextEvent, 0, 0, 0, 0));
    ExecOnLowFifo(c, t, service.e);
    assert (pre + [service])[..|pre|] == pre;
    assert Run(c, pre + [service]) == Exec(t, service.e);
    assert Run(c, pre + [service]).bus != [];
  }

  // ----- Every channel -----

  lemma SaneTrigger(d: Channel, mode: nat, now: nat)
    requires Sane(d)
    ensures Sane(TryTrigger(d, mode, now))
  {
  }

  lemma SaneExec(d: Channel, e: Surroundings)
    requires Sane(d)
    ensures Sane(Exec(d, e))
  {
    hide Copied;
    var d1 := d.(dmaCheck := false, frozen := d.frozen && d.procnum != ARM9);
    var d2 := if d1.running then Pause(d1) else d1;
    SaneCopied(Latched(d2, e).(running := true, paused := false), e);
  }

  lemma SaneCopied(d: Channel, e: Surroundings)
    requires !d.frozen && d.running && !d.paused
    ensures Sane(Copied(d, e))
  {
    hide Burst, Todo, Step;
  }

  /** The user's address registers play no part in a transfer under way. */
  lemma UserAddressesIdle(d0: Channel, d: Channel, src: u32, dst: u32)
    ensures var c := d.(saddrUser := src, daddrUser := dst);
      && Sane(c) == Sane(d) && SameSetup(d0, c) == SameSetup(d0, d)
      && Conserved(d0, c) == Conserved(d0, d) && Lively(d0, c) == Lively(d0, d)
  {
  }

  lemma SaneWrite(d: Channel, val: u32, now: nat)
    requires Sane(d)
    ensures Sane(WriteControl(d, val, now))
  {
    hide Bit;
  }

  /** What a service of a live transfer amounts to. */
  lemma ServiceOutcome(d0: Channel, d: Channel, e: Surroundings)
    requires Armed(d0) && d0.wordcount > 0
    requires SameSetup(d0, d) && Conserved(d0, d) && Lively(d0, d)
    ensures var c := Exec(d, e); var w := d0.wordcount;
      && SameSetup(d0, c) && Conserved(d0, c) && Lively(d0, c)
      && d.bus <= c.bus && |c.bus| <= Min(w, |d.bus| + BURST)
      && (!c.enable <==> |c.bus| == w && !c.running)
      && c.irqs == d0.irqs + (if !c.enable && c.irq then 1 else 0)
  {
    ExecKeeps(d0, d, e);
    hide Exec, Armed, SameSetup, SourceAt, DestAt;
  }
}
