/** Which addresses a transfer reads and writes, how many words it moves and when, in numbers read
    off the control word. */
module DmaAddresses {
  import opened Types
  import opened Arith
  import opened Dma

  const SPACE: nat := 0x1_0000_0000

  /** The k-th address of a transfer that begins at a: 0 steps up by the word size, 1 down, 2 not
      at all. Addresses are 32 bits wide. */
  function AddressOf(mode: nat, a: u32, size: nat, k: nat): int {
    if mode == 0 then (a + k * size) % SPACE else if mode == 1 then (a - k * size) % SPACE else a
  }

  lemma StepUp(a: u32, size: nat, k: nat)
    requires size == 2 || size == 4
    ensures (a + k * Step(Increment, size)) % M32 == AddressOf(0, a, size, k)
  {
  }

  lemma StepDown(a: u32, size: nat, k: nat)
    requires size == 2 || size == 4
    ensures (a + k * Step(Decrement, size)) % M32 == AddressOf(1, a, size, k)
  {
    assert a + k * (M32 - size) == (a - k * size) + M32 * k;
    AddMultiple(a - k * size, k, M32);
  }

  lemma StepsAre(mode: nat, a: u32, wide: bool, k: nat)
    requires mode < 3
    ensures var size := if wide then 4 else 2;
      (a + k * Step(UpdateOf(mode), size)) % M32 == AddressOf(mode, a, size, k)
  {
    var size := if wide then 4 else 2;
    if mode == 0 {
      StepUp(a, size, k);
    } else if mode == 1 {
      StepDown(a, size, k);
    } else {
      assert a + k * 0 == a;
    }
  }

  /** The update modes of a control word: bits 21 and 22 for the destination, 23 and 24 for the
      source; and the word size, bit 26. */
  function DestMode(val: u32): nat { val / 0x20_0000 % 4 }
  function SourceMode(val: u32): nat { val / 0x80_0000 % 4 }
  function WordSize(val: u32): nat { if val / 0x400_0000 % 2 == 1 then 4 else 2 }

  lemma ControlFields(d: Channel, val: u32, now: nat)
    ensures var c := Dma.WriteControl(d, val, now);
      c.sar == UpdateOf(SourceMode(val)) && c.dar == UpdateOf(DestMode(val)) && Width(c) == WordSize(val)
  {
    var hi := val / 0x1_0000;
    assert Pow2(10) == 1024 by { PowersOfTwo(); }
    assert hi / 32 == val / 0x20_0000 && hi / 128 == val / 0x80_0000 && hi / 1024 == val / 0x400_0000;
  }

  /** The destination that is reloaded: it is not written back, so every burst of 112 words begins
      at it again. */
  ghost predicate Reloading(d0: Channel, d: Channel) {
    && d.daddr == d0.daddr && (d.wordcount == 0 || |d.bus| % 112 == 0)
    && forall k :: 0 <= k < |d.bus| ==> d.bus[k].dst == AddressOf(0, d0.daddr, Width(d0), k % 112)
  }

  lemma CopyReloads(d0: Channel, d: Channel, e: Surroundings)
    requires SameSetup(d0, d) && d0.dar == Other && d0.sar != Other && !d0.repeatMode && Reloading(d0, d)
    requires d.startmode == GXFIFO && d.wordcount > 0
    ensures Reloading(d0, Copied(d, e))
  {
    var n, c := Todo(d, e), Copied(d, e);
    assert n == Min(d.wordcount, 112) && |c.bus| == |d.bus| + n;
    assert n == 112 || c.wordcount == 0;
    AddMultiple(|d.bus|, 1, 112);
    forall k | |d.bus| <= k < |c.bus| ensures c.bus[k].dst == AddressOf(0, d0.daddr, Width(d0), k % 112) {
      var j := k - |d.bus|;
      Quotient(k, 112, |d.bus| / 112, j);
      StepUp(d0.daddr, Width(d0), j);
    }
  }

  lemma ApplyReloads(d0: Channel, d: Channel, ev: Event)
    requires Armed(d0) && d0.dar == Other && SameSetup(d0, d) && Lively(d0, d) && Reloading(d0, d)
    ensures Reloading(d0, Apply(d, ev))
  {
    if ev.Service? && d.dmaCheck && ev.e.now >= d.nextEvent && Exec(d, ev.e).bus != d.bus {
      var t := d.(dmaCheck := false, frozen := false);
      var w := (if t.running then Pause(t) else t).(startmode := GXFIFO, triggered := true, running := true, paused := false);
      assert Exec(d, ev.e) == Copied(w, ev.e) by { hide Copied; }
      CopyReloads(d0, w, ev.e);
    } else {
      NothingCopied(d, ev);
    }
  }

  /** An event that copies nothing leaves count and destination alone. */
  lemma NothingCopied(d: Channel, ev: Event)
    requires Apply(d, ev).bus == d.bus && d.procnum == ARM9 && d.startReg == GXFIFO && (d.running ==> d.startmode == GXFIFO)
    requires d.sar != Other
    ensures Apply(d, ev).daddr == d.daddr && Apply(d, ev).wordcount == d.wordcount
  {
    if ev.Service? && d.dmaCheck && ev.e.now >= d.nextEvent {
      var d1 := d.(dmaCheck := false, frozen := d.frozen && d.procnum != ARM9);
      hide Begin;
      if !(d1.running && !(d1.startmode == GXFIFO && d1.wordcount > 0)) && d1.enable {
        BeginsNothing(if d1.running then Pause(d1) else d1, ev.e);
      }
    }
  }

  lemma BeginsNothing(d: Channel, e: Surroundings)
    requires Begin(d, e).bus == d.bus && d.procnum == ARM9 && d.startReg == GXFIFO && d.sar != Other
    ensures Begin(d, e).daddr == d.daddr && Begin(d, e).wordcount == d.wordcount
  {
    CopyCopies(Latched(d, e).(running := true, paused := false), e);
    hide Copied;
  }

  lemma CopyCopies(d: Channel, e: Surroundings)
    requires d.startmode == GXFIFO && d.sar != Other && d.procnum == ARM9
    ensures |Copied(d, e).bus| > |d.bus|
  {
  }

  lemma {:induction false} RunReloads(d0: Channel, evs: seq<Event>)
    requires Armed(d0) && d0.wordcount > 0 && d0.dar == Other
    ensures Reloading(d0, Run(d0, evs))
  {
    hide Armed, Apply, Reloading;
    if evs == [] {
      assert Reloading(d0, d0) by { NothingYet(d0); }
    } else {
      RunReloads(d0, evs[..|evs| - 1]);
      RunConserves(d0, evs[..|evs| - 1]);
      ApplyReloads(d0, Run(d0, evs[..|evs| - 1]), evs[|evs| - 1]);
    }
  }

  lemma NothingYet(d0: Channel)
    requires Armed(d0)
    ensures Reloading(d0, d0)
  {
  }

  /** A requested geometry-FIFO transfer copies, in whatever run of events, its words in order from
      the source register on, each one word size after the last, before it, or at the same
      address, as its control word says; and likewise to the destination, which with mode 3 begins
      again every 112 words. */
  lemma TransferAddresses(d: Channel, val: u32, now: nat, evs: seq<Event>, k: nat)
    requires Sane(d) && Requests(d, val) && Joins(d)
    ensures var c := Run(Dma.WriteControl(d, val, now), evs);
      && (k < |c.bus| ==>
            && c.bus[k].src == AddressOf(SourceMode(val), d.saddrUser, WordSize(val), k)
            && c.bus[k].dst == (if DestMode(val) < 3 then AddressOf(DestMode(val), d.daddrUser, WordSize(val), k)
                                else AddressOf(0, d.daddrUser, WordSize(val), k % 112)))
      && |c.bus| <= val % 0x20_0000 && (!c.enable ==> |c.bus| == val % 0x20_0000)
  {
    var d0 := Dma.WriteControl(d, val, now);
    RequestArms(d, val, now);
    ControlFields(d, val, now);
    SourceModeOf(d, val);
    hide Dma.WriteControl, Run, Requests, Armed;
    CopiedInOrder(d0, evs, k);
    PlannedAddresses(d0, SourceMode(val), DestMode(val), WordSize(val), k);
    if DestMode(val) == 3 { RunReloads(d0, evs); }
  }

  lemma CopiedInOrder(d0: Channel, evs: seq<Event>, k: nat)
    requires Armed(d0) && d0.wordcount > 0
    ensures var c := Run(d0, evs);
      && (k < |c.bus| ==> c.bus[k].src == SourceAt(d0, k) && (d0.dar != Other ==> c.bus[k].dst == DestAt(d0, k)))
      && |c.bus| <= d0.wordcount && (!c.enable ==> |c.bus| == d0.wordcount)
  {
    RunConserves(d0, evs);
    hide Run, SourceAt, DestAt, Armed;
  }

  lemma PlannedAddresses(d0: Channel, source: nat, dest: nat, size: nat, k: nat)
    requires source < 3 && dest < 4 && d0.sar == UpdateOf(source) && d0.dar == UpdateOf(dest) && Width(d0) == size
    ensures SourceAt(d0, k) == AddressOf(source, d0.saddr, size, k)
    ensures d0.dar == Other <==> dest == 3
    ensures dest < 3 ==> DestAt(d0, k) == AddressOf(dest, d0.daddr, size, k)
  {
    StepsAre(source, d0.saddr, size == 4, k);
    if dest < 3 { StepsAre(dest, d0.daddr, size == 4, k); }
    hide AddressOf, Step;
  }

  lemma SourceModeOf(d: Channel, val: u32)
    requires Requests(d, val)
    ensures SourceMode(val) < 3
  {
    assert val / 0x1_0000 / 128 == val / 0x80_0000;
  }

  /** So no two words of a transfer with moving addresses share one. */
  lemma NoAddressTwice(mode: nat, a: u32, size: nat, j: nat, k: nat)
    requires mode < 2 && (size == 2 || size == 4) && j < k < 0x20_0000
    ensures AddressOf(mode, a, size, j) != AddressOf(mode, a, size, k)
  {
    var d := (k - j) * size;
    assert k * size == j * size + d && 0 < d < SPACE;
    if mode == 0 {
      Apart(a + j * size, d);
    } else {
      Apart(a - k * size, d);
    }
  }

  lemma Apart(x: int, d: int)
    requires 0 < d < SPACE
    ensures x % SPACE != (x + d) % SPACE
  {
    var q, m := x / SPACE, x % SPACE;
    if m + d < SPACE {
      Quotient(x + d, SPACE, q, m + d);
    } else {
      Quotient(x + d, SPACE, q + 1, m + d - SPACE);
    }
  }

  // ----- How many words, and when -----

  /** On a FIFO of at most 127 entries the first n services copy 112 words each, until all are. */
  lemma BurstsOf112(d0: Channel, e: Surroundings, n: nat)
    requires Armed(d0) && d0.wordcount > 0 && e.gxSize <= 127
    ensures |Drain(d0, e, n).bus| == Min(d0.wordcount, 112 * n)
  {
    DrainSchedule(d0, e, n);
  }

  /** On a fuller one an untriggered channel waits. */
  lemma FullFifoWaits(d: Channel, e: Surroundings)
    requires d.procnum == ARM9 && d.enable && d.startReg == 7 && !d.running && !d.triggered && e.gxSize > 127
    ensures var c := Exec(d, e); c.bus == d.bus && c.enable && !c.running && !c.dmaCheck && c.startmode == 7
  {
  }

  /** A transfer under way whose last burst has ended on such a FIFO pauses, and forgets the trigger
      that began it. */
  lemma FullFifoPauses(d: Channel, e: Surroundings)
    requires d.procnum == ARM9 && d.enable && d.startReg == 7 == d.startmode && d.running && d.wordcount > 0 && e.gxSize > 127
    ensures var c := Exec(d, e);
      && c.bus == d.bus && c.wordcount == d.wordcount && c.enable && c.running && c.paused && !c.triggered
      && !c.frozen && !c.dmaCheck
  {
  }

  /** A trigger is noticed by an enabled channel of its mode that is not copying, and makes its event
      due at once; nothing else changes. */
  lemma TriggerNoticedIff(d: Channel, mode: nat, now: nat)
    ensures TryTrigger(d, mode, now)
         == if d.enable && d.startmode == mode && (!d.running || d.paused) then d.(triggered := true, dmaCheck := true, nextEvent := now)
            else d
  {
  }

  /** The start modes: the ARM9's three bits as they are; the ARM7's upper two stand for immediate,
      vertical blank and card, and for the GBA slot on channels 1 and 3 or wifi on 0 and 2. */
  lemma StartModes(d: Channel)
    requires d.startReg < 8 && d.chan < 4
    ensures d.procnum == ARM9 ==> StartModeOf(d) == d.startReg
    ensures d.procnum == ARM7 ==>
      StartModeOf(d) == if d.startReg < 2 then 0 else if d.startReg < 4 then 1 else if d.startReg < 6 then 5
                        else if d.chan % 2 == 1 then 9 else 8
  {
  }

  /** The words of a transfer in one piece: the whole count, 0 standing for 0x200000 on the ARM9;
      128 for the display; what the card has for the card. */
  function WholeCount(d: Channel, e: Surroundings): nat {
    if d.startmode == 5 then e.cardWords / (if d.wide then 4 else 2)
    else if d.startmode == 4 then 128
    else if d.procnum == ARM9 && d.wordcount == 0 then 0x20_0000
    else d.wordcount
  }

  /** A triggered channel of any mode but the geometry FIFO copies everything in one service: in
      order from its addresses, with its end scheduled and, on the ARM9, the bus frozen. */
  lemma WholeTransfer(d: Channel, e: Surroundings, source: nat, dest: nat, size: nat, k: nat)
    requires d.enable && !d.running && d.triggered && d.startmode == StartModeOf(d) != GXFIFO
    requires source < 3 && dest < 3 && d.sar == UpdateOf(source) && d.dar == UpdateOf(dest)
    requires size == (if d.wide then 4 else 2) && k < WholeCount(d, e)
    ensures var c := Exec(d, e);
      && |c.bus| == |d.bus| + WholeCount(d, e) && c.bus[..|d.bus|] == d.bus
      && c.bus[|d.bus| + k].src == AddressOf(source, d.saddr, size, k)
      && c.bus[|d.bus| + k].dst == AddressOf(dest, d.daddr, size, k)
  {
    var d1 := Latched(d.(dmaCheck := false, frozen := d.frozen && d.procnum != ARM9), e).(running := true, paused := false);
    assert Exec(d, e) == Copied(d1, e) && Todo(d1, e) == WholeCount(d, e) by { hide Copied; }
    StepsAre(source, d.saddr, d.wide, k);
    StepsAre(dest, d.daddr, d.wide, k);
    hide Exec, AddressOf, Step, Todo, WholeCount;
  }

  /** The service after that ends it: one interrupt if enabled, and only a repeating channel stays
      enabled, with its count as it was. */
  lemma TransferEnds(d: Channel, e: Surroundings, e2: Surroundings)
    requires d.enable && !d.running && d.triggered && d.startmode == StartModeOf(d) != GXFIFO && d.sar != Other
    requires d.startmode != 4
    ensures var c := Exec(d, e); var f := Exec(c, e2);
      && c.running && !c.paused && c.dmaCheck && c.nextEvent == e.now + e.elapsed && c.frozen == (d.procnum == ARM9 || d.frozen)
      && !f.running && !f.dmaCheck && f.enable == d.repeatMode && f.irqs == d.irqs + (if d.irq then 1 else 0) && f.bus == c.bus
      && (d.repeatMode ==> f.wordcount == d.wordcount)
  {
    hide Burst, Todo, Step;
  }
}
