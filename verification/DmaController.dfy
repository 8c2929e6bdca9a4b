/** The DMA channel as the source keeps it: an object whose methods update its registers step
    by step. */
module DmaController {
  import opened Types
  import opened Arith
  import opened Dma

  class Controller {
    var d: Channel
    ghost var start: Option<Channel>    // the geometry-FIFO transfer under way or completed, as armed

    /** The transfer since its arming: nothing lost, everything in order, never stuck. */
    ghost predicate Valid()
      reads this
    {
      && Sane(d)
      && (start.Some? ==>
            && Armed(start.value) && start.value.wordcount > 0
            && SameSetup(start.value, d) && Conserved(start.value, d) && Lively(start.value, d))
    }

    constructor (proc: int, chan: nat)
      ensures Valid() && start == None
      ensures d == Channel(proc, chan, false, false, false, 0, 0, IMMEDIATE, false, Increment, Increment,
                           0, 0, 0, 0, false, false, false, false, 0, false, 0, [])
    {
      d := Channel(proc, chan, false, false, false, 0, 0, IMMEDIATE, false, Increment, Increment,
                   0, 0, 0, 0, false, false, false, false, 0, false, 0, []);
      start := None;
    }

    method DoSchedule(now: nat)
      modifies this`d
      ensures d == Schedule(old(d), now)
    {
      d := d.(dmaCheck := true);
      d := d.(nextEvent := now);
    }

    method DoPause()
      modifies this`d
      ensures d == Pause(old(d))
    {
      d := d.(triggered := false);
      d := d.(paused := true);
    }

    method DoStop()
      modifies this`d
      ensures d == Stop(old(d))
    {
      d := d.(running := false);
      if !d.repeatMode { d := d.(enable := false); }
      if d.irq { d := d.(irqs := d.irqs + 1); }
    }

    /** A trigger never disturbs a transfer, and a copy under way does not notice it at all. */
    method TryTrigger(mode: nat, now: nat)
      requires Valid()
      modifies this`d
      ensures Valid() && d == Dma.TryTrigger(old(d), mode, now)
      ensures d.bus == old(d).bus && (old(d).running && !old(d).paused ==> d == old(d))
    {
      SaneTrigger(d, mode, now);
      if start.Some? { ApplyKeeps(start.value, d, Trigger(mode, now)); }
      ApplyTrigger(mode, now);
    }

    method ApplyTrigger(mode: nat, now: nat)
      modifies this`d
      ensures d == Dma.TryTrigger(old(d), mode, now)
    {
      if d.startmode != mode { return; }
      if !d.enable { return; }
      if d.running && !d.paused { return; }
      d := d.(triggered := true);
      DoSchedule(now);
    }

    /** The copy loop. Writing a word into the geometry FIFO may trigger that FIFO's DMA mode
        again, this channel included: `low` says after which words that happens. */
    method CopyWords(todo: nat, srcinc: u32, dstinc: u32, now: nat, low: nat -> bool) returns (src: u32, dst: u32)
      requires d.running && !d.paused
      modifies this`d
      ensures d == old(d).(bus := old(d).bus + Burst(old(d).saddr, old(d).daddr, srcinc, dstinc, todo))
      ensures src == (d.saddr + todo * srcinc) % M32 && dst == (d.daddr + todo * dstinc) % M32
    {
      src, dst := d.saddr, d.daddr;
      ghost var d0 := d;
      ghost var all := Burst(d.saddr, d.daddr, srcinc, dstinc, todo);
      var i := todo;
      while i > 0
        invariant 0 <= i <= todo
        invariant src == (d0.saddr + (todo - i) * srcinc) % M32 && dst == (d0.daddr + (todo - i) * dstinc) % M32
        invariant d == d0.(bus := d0.bus + all[..todo - i])
      {
        assert all[todo - i] == Transfer(src, dst);
        assert all[..todo - i] + [all[todo - i]] == all[..todo - i + 1];
        d := d.(bus := d.bus + [Transfer(src, dst)]);
        if low(todo - i) {
          ApplyTrigger(GXFIFO, now);
        }
        AddressStep(d0.saddr, todo - i, 1, srcinc);
        AddressStep(d0.daddr, todo - i, 1, dstinc);
        src, dst := (src + srcinc) % M32, (dst + dstinc) % M32;
        i := i - 1;
      }
      assert all[..todo] == all;
    }

    method DoCopy(e: Surroundings, low: nat -> bool)
      requires d.running && !d.paused
      modifies this`d
      ensures d == Copied(old(d), e)
    {
      var todo := Todo(d, e);
      var sz := Width(d);
      if d.startmode == MEM_DISPLAY && e.vcount == 191 { d := d.(enable := false); }
      if d.sar == Other { return; }
      var src, dst := CopyWords(todo, Step(d.sar, sz), Step(d.dar, sz), e.now, low);
      DoSchedule(e.now);
      FinishCopy(e, todo, src, dst);
    }

    /** After the loop: the end of the copy is scheduled, the bus frozen, and the addresses and
        the count written back. */
    method FinishCopy(e: Surroundings, todo: nat, src: u32, dst: u32)
      modifies this`d
      ensures d == old(d).(nextEvent := old(d).nextEvent + e.elapsed, frozen := old(d).frozen || old(d).procnum == ARM9,
        saddr := src, daddr := if old(d).dar == Other then old(d).daddr else dst,
        wordcount := if old(d).repeatMode then old(d).wordcount
                     else if old(d).startmode == CARD then 0 else (old(d).wordcount - todo) % M32)
    {
      var frozen, daddr, wordcount := d.frozen, d.daddr, d.wordcount;
      if d.procnum == ARM9 { frozen := true; }
      if d.dar != Other { daddr := dst; }
      if !d.repeatMode {
        wordcount := if d.startmode == CARD then 0 else (wordcount - todo) % M32;
      }
      d := d.(nextEvent := d.nextEvent + e.elapsed, frozen := frozen, saddr := src, daddr := daddr, wordcount := wordcount);
    }

    method Latch(e: Surroundings)
      modifies this`d
      ensures d == Latched(old(d), e)
    {
      d := d.(startmode := StartModeOf(d));
      if d.startmode == IMMEDIATE {
        d := d.(triggered := true);
      } else if d.startmode == GXFIFO {
        if e.gxSize <= LOW_MARK { d := d.(triggered := true); }
      }
    }

    /** The second half of exec: latch the start mode, scan for a trigger and copy. */
    method Start(e: Surroundings, low: nat -> bool)
      modifies this`d
      ensures d == Begin(old(d), e)
    {
      Latch(e);
      if d.triggered {
        d := d.(running := true, paused := false);
        DoCopy(e, low);
      }
    }

    /** The channel's event. A geometry-FIFO transfer moves at most one burst, in order, and is
        disabled, with one interrupt if enabled, exactly when every word has been copied and
        the last copy has ended. */
    method Exec(e: Surroundings, low: nat -> bool)
      requires Valid()
      modifies this`d
      ensures Valid() && d == Dma.Exec(old(d), e)
      ensures start.Some? ==>
        var w := start.value.wordcount;
        && old(d).bus <= d.bus && |d.bus| <= Min(w, |old(d).bus| + BURST)
        && (!d.enable <==> |d.bus| == w && !d.running)
        && d.irqs == start.value.irqs + (if !d.enable && d.irq then 1 else 0)
    {
      ghost var before := d;
      d := d.(dmaCheck := false, frozen := d.frozen && d.procnum != ARM9);
      if d.running && !(d.startmode == GXFIFO && d.wordcount > 0) {
        DoStop();
      } else {
        if d.running { DoPause(); }
        if d.enable { Start(e, low); }
      }
      SaneExec(before, e);
      hide Armed, SameSetup, Conserved, Lively, Sane;
      if start.Some? { ServiceOutcome(start.value, before, e); }
    }

    /** A write to an address register. */
    method WriteAddress(source: bool, val: u32)
      requires Valid()
      modifies this`d
      ensures Valid()
      ensures d == if source then old(d).(saddrUser := val) else old(d).(daddrUser := val)
    {
      var src, dst := if source then val else d.saddrUser, if source then d.daddrUser else val;
      if start.Some? { UserAddressesIdle(start.value, d, src, dst); }
      hide Conserved, Lively, SameSetup;
      d := d.(saddrUser := src, daddrUser := dst);
    }

    /** A control write reads back as written, and arms a geometry-FIFO transfer exactly when it
        requests one from a channel that is not running in another mode: with the user's
        addresses and count, and no old trigger if the channel was disabled. */
    method WriteControl(val: u32, now: nat)
      requires Valid()
      modifies this
      ensures Valid() && d == Dma.WriteControl(old(d), val, now)
      ensures ControlWord(d) == if d.procnum == ARM7 then val - val / 0x800_0000 % 2 * 0x800_0000 else val
      ensures start == if Requests(old(d), val) && Joins(old(d)) then Some(d) else None
      ensures start.Some? ==>
        && d.wordcount == val % 0x20_0000 && d.saddr == old(d).saddrUser && d.daddr == old(d).daddrUser
        && (!old(d).enable ==> !d.triggered)
    {
      ghost var before := d;
      UpdateControl(val, now);
      ReadBack(before, val, now);
      SaneWrite(before, val, now);
      hide Dma.WriteControl, ControlWord, Armed, SameSetup, Conserved, Lively, Sane;
      start := None;
      if Requests(before, val) && Joins(before) {
        RequestArms(before, val, now);
        ArmedIsLive(d);
        start := Some(d);
      }
    }

    method UpdateControl(val: u32, now: nat)
      modifies this`d
      ensures d == Dma.WriteControl(old(d), val, now) && d.procnum == old(d).procnum
    {
      hide Decoded;
      var wasEnable := d.enable;
      DecodeControl(val);
      var triggered, saddr, daddr := d.triggered, d.saddr, d.daddr;
      if !wasEnable && d.enable { triggered := false; }
      if d.enable { saddr, daddr := d.saddrUser, d.daddrUser; }
      d := d.(triggered := triggered, saddr := saddr, daddr := daddr);
      var doNotStart := false;
      if d.startmode != IMMEDIATE && d.startmode != GXFIFO && wasEnable { doNotStart := true; }
      if !doNotStart { DoSchedule(now); }
    }

    method DecodeControl(val: u32)
      modifies this`d
      ensures d == Decoded(old(d), val) && d.procnum == old(d).procnum
      ensures d.startmode == old(d).startmode && d.saddrUser == old(d).saddrUser && d.daddrUser == old(d).daddrUser
    {
      hide Bit;
      var valhi := val / 0x1_0000;
      var startmode := valhi / 2048 % 8;
      if d.procnum == ARM7 { startmode := startmode / 2 * 2; }
      d := d.(wordcount := val % 0x20_0000, dar := UpdateOf(valhi / 32 % 4), sar := UpdateOf(valhi / 128 % 4),
              repeatMode := Bit(valhi, 9), wide := Bit(valhi, 10), startReg := startmode,
              irq := Bit(valhi, 14), enable := Bit(valhi, 15), bus := []);
    }
  }
}
