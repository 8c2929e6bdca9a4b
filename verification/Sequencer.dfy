/** The event sequencer around the interleaving loop: finding the next due event and running
    the CPUs up to it. */
module Sequencer {
  import opened Types
  import opened ArmLoop

  const MAX_WORK := 4000

  /** A scheduled hardware unit: whether it takes part, and when it is due. */
  datatype Item = Item(enabled: bool, due: nat)

  predicate Triggered(it: Item, now: int) { it.enabled && now >= it.due }

  /** Sequencer::findNext: the scanline item always takes part, the others when enabled. */
  function FindNext(dispcnt: nat, items: seq<Item>): (next: nat)
    ensures next <= dispcnt
    ensures forall k :: 0 <= k < |items| && items[k].enabled ==> next <= items[k].due
    ensures next == dispcnt || exists k :: 0 <= k < |items| && items[k].enabled && next == items[k].due
  {
    if items == [] then dispcnt
    else
      var before := FindNext(dispcnt, items[..|items| - 1]);
      var last := items[|items| - 1];
      if last.enabled then Min(before, last.due) else before
  }

  /** The next due time is exactly the first instant at which some unit is triggered. */
  lemma NothingTriggeredBefore(dispcnt: nat, items: seq<Item>, now: int)
    ensures now < FindNext(dispcnt, items) <==>
            (now < dispcnt && forall k :: 0 <= k < |items| ==> !Triggered(items[k], now))
  {
  }

  // ----- One pass of the NDS_exec loop -----

  /** nds_timer, nds_arm9_timer, nds_arm7_timer, the idle counters and the machine flags. */
  datatype Clock = Clock(nds: int, t9: int, t7: int, idle9: int, idle7: int, f: Flags)

  function SliceStart(c: Clock): State {
    State(c.t9 - c.nds, c.t7 - c.nds, true, 0, c.idle9, c.idle7, c.f.(reschedule := false), [])
  }

  function SliceNext(c: Clock, due: int): int { Min(due, c.nds + MAX_WORK) - c.nds }

  /** The timers after the loop; a CPU that still waits for an interrupt is rolled back to
      nds_timer, together with the idle time it had been credited. */
  function SliceEnd(c: Clock, e: State): Clock {
    var nds, t9, t7 := c.nds + e.time, c.nds + e.arm9, c.nds + e.arm7;
    Clock(nds, if e.f.wait9 then nds else t9, if e.f.wait7 then nds else t7,
          if e.f.wait9 then e.idle9 - (t9 - nds) else e.idle9,
          if e.f.wait7 then e.idle7 - (t7 - nds) else e.idle7, e.f)
  }

  function RunSlice(c: Clock, due: int, env: Env): State {
    RunToEnd(SliceStart(c), SliceNext(c, due), env, 0)
  }

  /** No CPU step begins at or after the moment any enabled event is due, and the pass ends
      less than one step (or the ARM9's initial lead) after that moment. */
  lemma EventsAreNotPassed(c: Clock, dispcnt: nat, items: seq<Item>, env: Env)
    ensures var due := FindNext(dispcnt, items); var e := RunSlice(c, due, env);
      && (forall k :: 0 <= k < |e.log| ==> c.nds + e.log[k].start < dispcnt)
      && (forall k, j :: 0 <= k < |e.log| && 0 <= j < |items| && items[j].enabled ==>
            c.nds + e.log[k].start < items[j].due)
      && (e.log != [] ==> SliceEnd(c, e).nds < Max(due + Largest(e.log), c.t9 + 1))
  {
    var due := FindNext(dispcnt, items);
    LoopGuarantees(SliceStart(c), SliceNext(c, due), env);
  }

  /** Every cycle a CPU's clock advanced is either executed or counted as idle, rollback
      included. */
  lemma CyclesAccounted(c: Clock, due: int, env: Env)
    ensures var e := RunSlice(c, due, env); var d := SliceEnd(c, e);
      && d.t9 - c.t9 == (Total(e.log, ARM9, false) - Total(e.log, ARM9, true)) + (d.idle9 - c.idle9)
      && d.t7 - c.t7 == (Total(e.log, ARM7, false) - Total(e.log, ARM7, true)) + (d.idle7 - c.idle7)
  {
    LoopGuarantees(SliceStart(c), SliceNext(c, due), env);
  }

  /** nds_timer stands at the clock of the CPU that is behind. */
  predicate InSync(c: Clock) { c.nds == Min(c.t9, c.t7) }

  /** Synchronised clocks stay so unless the ARM7 handed over while awake and the ARM9 is past
      the end of the slice: then the ARM7 is left behind nds_timer. Until then nds_timer never
      moves back. */
  lemma SyncAfterSlice(c: Clock, due: int, env: Env)
    requires InSync(c)
    ensures var e := RunSlice(c, due, env); var d := SliceEnd(c, e);
      && d.nds >= c.nds
      && (!InSync(d) <==> !e.doArm7 && !e.f.wait7 && e.arm9 > SliceNext(c, due))
      && (!InSync(d) ==> d.t7 < d.nds)
  {
    LoopGuarantees(SliceStart(c), SliceNext(c, due), env);
  }

  /** What every pass leaves: synchronised clocks, or an ARM7 behind an nds_timer that stands at
      the ARM9. */
  predicate Settled(c: Clock) { InSync(c) || (c.t9 == c.nds && c.t7 < c.nds) }

  lemma StaysSettled(c: Clock, due: int, env: Env)
    requires Settled(c)
    ensures Settled(SliceEnd(c, RunSlice(c, due, env)))
  {
    LoopGuarantees(SliceStart(c), SliceNext(c, due), env);
  }

  // ----- When the clocks can come apart -----

  predicate Ready9(f: Flags) { !f.wait9 && f.freezeBus == 0 }

  /** What a caller can see before a pass that may leave the ARM7 behind: it is due for a turn
      within the slice, and one of the CPUs can run an instruction that makes the ARM7 idle and
      hand over to an ARM9 beyond the slice. */
  predicate MayLoseSync(c: Clock, due: int) {
    var next, a9, a7 := SliceNext(c, due), c.t9 - c.nds, c.t7 - c.nds;
    && c.f.execute && a7 < next && a9 != next
    && if a9 > next then !c.f.wait7 && (c.f.freezeBus != 0 || next > 2)
       else if a9 <= a7 || c.f.wait7 || c.f.freezeBus != 0 then Ready9(c.f)
       else next > 2
  }

  /** An ARM9 exactly at the end of the slice takes no more steps. */
  lemma {:induction false} StuckAtNext(s: State, next: int, env: Env, i: nat)
    requires s.arm9 == next
    ensures RunToEnd(s, next, env, i).arm9 == next
    decreases Measure(s, next)
  {
    if Running(s, next) {
      IterateProgress(s, next, env(i));
      StuckAtNext(Iterate(s, next, env(i)), next, env, i + 1);
    }
  }

  /** An ARM7 past the end of the slice never hands over. */
  lemma {:induction false} KeepsArm7(s: State, next: int, env: Env, i: nat)
    requires s.doArm7 && s.arm7 >= next
    ensures RunToEnd(s, next, env, i).doArm7
    decreases Measure(s, next)
  {
    if Running(s, next) {
      IterateProgress(s, next, env(i));
      KeepsArm7(Iterate(s, next, env(i)), next, env, i + 1);
    }
  }

  lemma NeverLost(c: Clock, due: int, env: Env)
    requires InSync(c) && !MayLoseSync(c, due)
    ensures InSync(SliceEnd(c, RunSlice(c, due, env)))
  {
    var s, next := SliceStart(c), SliceNext(c, due);
    SyncAfterSlice(c, due, env);
    if Running(s, next) {
      IterateProgress(s, next, env(0));
      var s1 := Iterate(s, next, env(0));
      assert RunToEnd(s, next, env, 0) == RunToEnd(s1, next, env, 1);
      if s.arm9 == next {
        StuckAtNext(s, next, env, 0);
      } else if s1.arm9 == next {
        StuckAtNext(s1, next, env, 1);
      } else if s.arm7 >= next {
        KeepsArm7(s, next, env, 0);
      } else if s1.doArm7 {
        assert s1.arm7 >= next;
        KeepsArm7(s1, next, env, 1);
      } else if Running(s1, next) {
        var s2 := Iterate(s1, next, env(1));
        IterateProgress(s1, next, env(1));
        assert RunToEnd(s1, next, env, 1) == RunToEnd(s2, next, env, 2);
        StuckAtNext(s2, next, env, 2);
      } else {
        assert RunToEnd(s1, next, env, 1) == s1;
      }
    }
  }

  const FROZEN := Flags(false, true, false, false, 1, 300)

  /** An ARM9 instruction that runs past the slice and freezes the bus; an ARM7 instruction that
      leaves the given flags. */
  function LongStep(next: int, f7: Flags): Env
    requires next >= 0
  {
    n => (Outcome(next + 1, FROZEN), Outcome(1, f7))
  }

  lemma LosesSync(c: Clock, due: int)
    requires InSync(c) && MayLoseSync(c, due)
    ensures exists env: Env :: !InSync(SliceEnd(c, RunSlice(c, due, env)))
  {
    var s, next := SliceStart(c), SliceNext(c, due);
    var idle := s.f.wait7 || s.f.freezeBus != 0;
    var env := LongStep(next, if next < s.arm9 then FROZEN else FROZEN.(wait7 := true, freezeBus := 0));
    var s1 := Iterate(s, next, env(0));
    IterateProgress(s, next, env(0));
    assert RunToEnd(s, next, env, 0) == RunToEnd(s1, next, env, 1);
    if s1.arm9 > next && !s1.doArm7 {
      assert RunToEnd(s1, next, env, 1) == s1;
    } else {
      var s2 := Iterate(s1, next, env(1));
      IterateProgress(s1, next, env(1));
      assert RunToEnd(s1, next, env, 1) == RunToEnd(s2, next, env, 2);
      if s2.arm9 > next && !s2.doArm7 {
        assert RunToEnd(s2, next, env, 2) == s2;
      } else {
        var s3 := Iterate(s2, next, env(2));
        IterateProgress(s2, next, env(2));
        assert RunToEnd(s2, next, env, 2) == RunToEnd(s3, next, env, 3) == s3;
      }
    }
    SyncAfterSlice(c, due, env);
  }

  /** Synchronised clocks can come apart in the next pass exactly when it starts like that. */
  lemma CanLoseSyncIff(c: Clock, due: int)
    requires InSync(c)
    ensures (exists env: Env :: !InSync(SliceEnd(c, RunSlice(c, due, env)))) <==> MayLoseSync(c, due)
  {
    if MayLoseSync(c, due) {
      LosesSync(c, due);
    } else {
      forall env: Env ensures InSync(SliceEnd(c, RunSlice(c, due, env))) {
        NeverLost(c, due, env);
      }
    }
  }

  // ----- When nds_timer can move backwards -----

  /** Once both CPUs have reached nds_timer, it does not go back. */
  lemma {:induction false} StaysForward(s: State, next: int, env: Env, i: nat)
    requires s.MinTime() >= 0 && s.time >= 0
    ensures RunToEnd(s, next, env, i).time >= 0
    decreases Measure(s, next)
  {
    if Running(s, next) {
      IterateProgress(s, next, env(i));
      IterateForward(s, next, env(i));
      StaysForward(Iterate(s, next, env(i)), next, env, i + 1);
    }
  }

  lemma IterateForward(s: State, next: int, o: (Outcome, Outcome))
    requires Running(s, next)
    ensures var e := Iterate(s, next, o); e.time == e.MinTime() >= s.MinTime()
  {
  }

  /** An ARM7 that has to idle comes up to nds_timer, or hands over to an ARM9 that is there. */
  lemma {:induction false} IdlesForward(s: State, next: int, env: Env, i: nat)
    requires s.doArm7 && s.arm7 < 0 <= s.arm9 && s.arm7 < next
    requires (s.f.wait7 || s.f.freezeBus != 0) && !s.f.reschedule && s.f.execute
    ensures RunToEnd(s, next, env, i).time >= 0
    decreases Measure(s, next)
  {
    var e := Iterate(s, next, env(i));
    IterateProgress(s, next, env(i));
    assert First(s, next, env(i).0) == s;
    if e.MinTime() >= 0 {
      StaysForward(e, next, env, i + 1);
    } else {
      IdlesForward(e, next, env, i + 1);
    }
  }

  function OneCycle(after: Flags): Env { n => (Outcome(1, after), Outcome(1, after)) }

  /** An instruction that costs one cycle and asks for a reschedule ends the pass at once. */
  lemma OneStepBack(c: Clock, due: int)
    requires Settled(c) && c.f.execute && !c.f.wait7 && c.f.freezeBus == 0 && c.t7 + 2 < c.nds && c.t7 < due
    ensures exists env: Env :: SliceEnd(c, RunSlice(c, due, env)).nds < c.nds
  {
    var env := OneCycle(c.f.(reschedule := true));
    var s, next := SliceStart(c), SliceNext(c, due);
    var e := Iterate(s, next, env(0));
    IterateProgress(s, next, env(0));
    assert e.arm7 == s.arm7 + 2 && e.time == e.arm7 && !Running(e, next);
    assert RunSlice(c, due, env) == RunToEnd(e, next, env, 1) == e;
    assert SliceEnd(c, RunSlice(c, due, env)).nds < c.nds;
  }

  lemma NeverBack(c: Clock, due: int, env: Env)
    requires Settled(c)
    requires !(c.f.execute && !c.f.wait7 && c.f.freezeBus == 0 && c.t7 + 2 < c.nds && c.t7 < due)
    ensures SliceEnd(c, RunSlice(c, due, env)).nds >= c.nds
  {
    var s, next := SliceStart(c), SliceNext(c, due);
    if InSync(c) {
      StaysForward(s, next, env, 0);
    } else if Running(s, next) {
      if c.f.wait7 || c.f.freezeBus != 0 {
        IdlesForward(s, next, env, 0);
      } else {
        IterateProgress(s, next, env(0));
        assert Iterate(s, next, env(0)).arm7 >= s.arm7 + 2;
        StaysForward(Iterate(s, next, env(0)), next, env, 1);
      }
    }
  }

  /** From any clocks a pass can leave, the next one can take nds_timer back exactly when the
      ARM7 is more than one instruction behind, is allowed to run, and no event is due before
      it: known before the pass. */
  lemma CanMoveBackIff(c: Clock, due: int)
    requires Settled(c)
    ensures (exists env: Env :: SliceEnd(c, RunSlice(c, due, env)).nds < c.nds)
       <==> c.f.execute && !c.f.wait7 && c.f.freezeBus == 0 && c.t7 + 2 < c.nds && c.t7 < due
  {
    if c.f.execute && !c.f.wait7 && c.f.freezeBus == 0 && c.t7 + 2 < c.nds && c.t7 < due {
      OneStepBack(c, due);
    } else {
      forall env: Env ensures SliceEnd(c, RunSlice(c, due, env)).nds >= c.nds {
        NeverBack(c, due, env);
      }
    }
  }

  // ----- A run in which nds_timer moves backwards -----

  const THAWED := Flags(false, true, false, false, 0, 0)

  /** The ARM9 is 40 cycles ahead on a frozen bus when an event is due in 20: the ARM7 idles
      to the event and hands over, and nds_timer jumps to the ARM9's clock. Once the bus is
      free again, one ARM7 instruction that reschedules takes nds_timer back. */
  lemma TimeMovesBackwards()
    ensures var c := Clock(1000, 1040, 1000, 0, 0, FROZEN);
            var d := SliceEnd(c, RunSlice(c, 1020, OneCycle(FROZEN)));
            var d' := SliceEnd(d.(f := THAWED), RunSlice(d.(f := THAWED), 1100, OneCycle(THAWED.(reschedule := true))));
            InSync(c) && d.nds == 1040 && d.t7 == 1020 && d'.nds == 1022
  {
    var c := Clock(1000, 1040, 1000, 0, 0, FROZEN);
    var s := SliceStart(c);
    var s1 := Iterate(s, 20, OneCycle(FROZEN)(0));
    IterateProgress(s, 20, OneCycle(FROZEN)(0));
    assert s1.time == 40 && s1.arm7 == 20 && !Running(s1, 20);
    assert RunToEnd(s, 20, OneCycle(FROZEN), 0) == RunToEnd(s1, 20, OneCycle(FROZEN), 1) == s1;
    var d := SliceEnd(c, s1).(f := THAWED);
    var env := OneCycle(THAWED.(reschedule := true));
    var t := SliceStart(d);
    var t1 := Iterate(t, 60, env(0));
    IterateProgress(t, 60, env(0));
    assert RunToEnd(t, 60, env, 0) == RunToEnd(t1, 60, env, 1) == t1;
  }

  /** The NDS_exec loop body between two hardware services. */
  class Console {
    const machine: Machine
    var arm9Timer: int
    var arm7Timer: int

    constructor (m: Machine)
      ensures machine == m && arm9Timer == arm7Timer == 0
    {
      machine := m;
      arm9Timer, arm7Timer := 0, 0;
    }

    ghost function CurrentClock(): Clock
      reads this, machine
    {
      Clock(machine.ndsTimer, arm9Timer, arm7Timer, machine.idle9, machine.idle7, machine.CurrentFlags())
    }

    method ExecSlice(dispcnt: nat, items: seq<Item>, env: Env)
      modifies this, machine
      ensures var due := FindNext(dispcnt, items); var c := old(CurrentClock());
              CurrentClock() == SliceEnd(c, RunSlice(c, due, env))
    {
      ghost var c := CurrentClock();
      var next := FindNext(dispcnt, items);
      next := Min(next, machine.ndsTimer + MAX_WORK);
      machine.reschedule := false;
      var base := machine.ndsTimer;
      var arm9, arm7 := arm9Timer - base, arm7Timer - base;
      ghost var e;
      arm9, arm7, e := machine.ArmInnerLoop(true, base, next - base, arm9, arm7, env, 0, [], SliceStart(c));
      arm7Timer := base + arm7;
      arm9Timer := base + arm9;
      if machine.wait9 {
        machine.idle9 := machine.idle9 - (arm9Timer - machine.ndsTimer);
        arm9Timer := machine.ndsTimer;
      }
      if machine.wait7 {
        machine.idle7 := machine.idle7 - (arm7Timer - machine.ndsTimer);
        arm7Timer := machine.ndsTimer;
      }
    }
  }
}
