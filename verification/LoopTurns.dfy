/** What single turns of the two CPUs do to their clocks and to the bus, and what follows for whole
    passes of the loop: an ARM9 stalled on a full geometry FIFO gets going again once it drains. */
module LoopTurns {
  import opened Types
  import opened ArmLoop
  import opened Sequencer

  /** A CPU may run an instruction. */
  predicate Stopped9(f: Flags) { f.wait9 || f.freezeBus > 0 }
  predicate Stopped7(f: Flags) { f.wait7 || f.freezeBus > 0 }

  /** Bit 0 of freezeBus is the geometry FIFO's; with room in the FIFO a waiting ARM9 clears it. */
  function Thawed(f: Flags): Flags {
    if f.gxSize < 255 then f.(freezeBus := f.freezeBus / 2 * 2) else f
  }

  // ----- Single turns -----

  /** A turn of the ARM9: an instruction takes its cost and leaves its flags; waiting takes up to
      4000 cycles, not beyond the slice, and thaws the bus. */
  lemma Arm9TurnDoes(s: State, next: int, o: Outcome)
    ensures var e := Arm9Turn(s, next, o); var t := if next - s.arm9 < 4000 then next - s.arm9 else 4000;
      e == if Stopped9(s.f) then s.(arm9 := s.arm9 + t, idle9 := s.idle9 + t, f := Thawed(s.f), log := s.log + [Step(0, s.arm9, t, true)])
           else s.(arm9 := s.arm9 + o.cost, f := o.after, log := s.log + [Step(0, s.arm9, o.cost, false)])
  {
  }

  /** A turn of the ARM7, whose instructions take two cycles each; waiting to the end of the slice
      hands over. */
  lemma Arm7TurnDoes(s: State, next: int, o: Outcome)
    ensures var e := Arm7Turn(s, next, o); var t := if next - s.arm7 < 4000 then next - s.arm7 else 4000;
      e == if Stopped7(s.f) then s.(arm7 := s.arm7 + t, idle7 := s.idle7 + t, doArm7 := next - s.arm7 > 4000,
                                    log := s.log + [Step(1, s.arm7, t, true)])
           else s.(arm7 := s.arm7 + 2 * o.cost, f := o.after, log := s.log + [Step(1, s.arm7, 2 * o.cost, false)])
  {
  }

  // ----- What a log tells -----

  /** The turn a log entry stands for: it starts at that CPU's clock, and takes a waiting time or
      the cost of an instruction, doubled for the ARM7. */
  ghost predicate TurnIs(s0: State, log: seq<Step>, k: nat, next: int, env: Env)
    requires k < |log|
  {
    var st := log[k];
    && (st.proc == 0 || st.proc == 1)
    && st.start == (if st.proc == 0 then s0.arm9 else s0.arm7) + Total(log[..k], st.proc, false)
    && if st.idle then st.advance == Min(4000, next - st.start)
       else exists i: nat :: st.advance == if st.proc == 0 then env(i).0.cost else 2 * env(i).1.cost
  }

  ghost predicate AllTurns(s0: State, s: State, next: int, env: Env) {
    && (forall k :: 0 <= k < |s.log| ==> TurnIs(s0, s.log, k, next, env))
    && s.arm9 == s0.arm9 + Total(s.log, 0, false) && s.arm7 == s0.arm7 + Total(s.log, 1, false)
  }

  lemma AppendTurn(s0: State, s: State, e: State, st: Step, next: int, env: Env)
    requires AllTurns(s0, s, next, env) && e.log == s.log + [st]
    requires st.start == if st.proc == 0 then s.arm9 else s.arm7
    requires (st.proc == 0 && e.arm9 == s.arm9 + st.advance && e.arm7 == s.arm7)
          || (st.proc == 1 && e.arm7 == s.arm7 + st.advance && e.arm9 == s.arm9)
    requires if st.idle then st.advance == Min(4000, next - st.start)
             else exists i: nat :: st.advance == if st.proc == 0 then env(i).0.cost else 2 * env(i).1.cost
    ensures AllTurns(s0, e, next, env)
  {
    AppendTotal(s.log, st, 0, false);
    AppendTotal(s.log, st, 1, false);
    forall k | 0 <= k < |e.log| ensures TurnIs(s0, e.log, k, next, env) {
      if k < |s.log| {
        assert TurnIs(s0, s.log, k, next, env);
        assert e.log[..k] == s.log[..k];
      } else {
        assert e.log[..k] == s.log;
      }
    }
  }

  lemma IterateTurns(s0: State, s: State, next: int, env: Env, i: nat)
    requires AllTurns(s0, s, next, env) && Running(s, next)
    ensures AllTurns(s0, Iterate(s, next, env(i)), next, env)
  {
    var o := env(i);
    var s1 := First(s, next, o.0);
    var s2 := Second(s1, s.MinTime(), next, o.1);
    Arm9TurnDoes(s, next, o.0);
    Arm7TurnDoes(s1, next, o.1);
    hide AllTurns, Arm9Turn, Arm7Turn;
    if s1 != s {
      AppendTurn(s0, s, s1, s1.log[|s.log|], next, env);
    }
    if s2 != s1 {
      AppendTurn(s0, s1, s2, s2.log[|s1.log|], next, env);
    }
    TurnsIgnoreTime(s0, s2, next, env, s2.MinTime());
  }

  lemma TurnsIgnoreTime(s0: State, s: State, next: int, env: Env, t: int)
    requires AllTurns(s0, s, next, env)
    ensures AllTurns(s0, s.(time := t), next, env)
  {
  }

  /** Every entry of a run's log is such a turn. */
  lemma {:induction false} RunTurns(s0: State, s: State, next: int, env: Env, i: nat)
    requires AllTurns(s0, s, next, env)
    ensures AllTurns(s0, RunToEnd(s, next, env, i), next, env)
    decreases Measure(s, next)
  {
    hide AllTurns;
    if Running(s, next) {
      IterateProgress(s, next, env(i));
      IterateTurns(s0, s, next, env, i);
      RunTurns(s0, Iterate(s, next, env(i)), next, env, i + 1);
    }
  }

  // ----- Thawing -----

  /** No instruction was executed. */
  predicate AllIdle(log: seq<Step>) { forall k :: 0 <= k < |log| ==> log[k].idle }

  predicate Has9(log: seq<Step>) { exists k :: 0 <= k < |log| && log[k].proc == 0 }

  /** The flags after a log of waiting turns only. */
  function Waited(f: Flags, log: seq<Step>): Flags { if Has9(log) then Thawed(f) else f }

  lemma ThawOnce(f: Flags)
    ensures Thawed(Thawed(f)) == Thawed(f)
  {
  }

  lemma Has9Append(log: seq<Step>, st: Step)
    ensures Has9(log + [st]) <==> Has9(log) || st.proc == 0
    ensures AllIdle(log + [st]) <==> AllIdle(log) && st.idle
  {
    if Has9(log) {
      var k :| 0 <= k < |log| && log[k].proc == 0;
      assert (log + [st])[k].proc == 0;
    }
    if st.proc == 0 { assert (log + [st])[|log|].proc == 0; }
    assert (log + [st])[|log|] == st;
    assert forall k :: 0 <= k < |log| ==> (log + [st])[k] == log[k];
  }

  lemma Turn9Waits(f0: Flags, s: State, next: int, o: Outcome)
    requires AllIdle(s.log) ==> s.f == Waited(f0, s.log)
    ensures var e := Arm9Turn(s, next, o); AllIdle(e.log) ==> AllIdle(s.log) && e.f == Waited(f0, e.log)
  {
    Arm9TurnDoes(s, next, o);
    Has9Append(s.log, Arm9Turn(s, next, o).log[|s.log|]);
    ThawOnce(f0);
    hide AllIdle, Has9, Thawed;
  }

  lemma Turn7Waits(f0: Flags, s: State, next: int, o: Outcome)
    requires AllIdle(s.log) ==> s.f == Waited(f0, s.log)
    ensures var e := Arm7Turn(s, next, o); AllIdle(e.log) ==> AllIdle(s.log) && e.f == Waited(f0, e.log)
  {
    Arm7TurnDoes(s, next, o);
    Has9Append(s.log, Arm7Turn(s, next, o).log[|s.log|]);
    hide AllIdle, Has9, Thawed;
  }

  lemma IterateWaits(f0: Flags, s: State, next: int, o: (Outcome, Outcome))
    requires AllIdle(s.log) ==> s.f == Waited(f0, s.log)
    ensures var e := Iterate(s, next, o); AllIdle(e.log) ==> AllIdle(s.log) && e.f == Waited(f0, e.log)
  {
    hide AllIdle, Waited, Arm9Turn, Arm7Turn;
    Turn9Waits(f0, s, next, o.0);
    Turn7Waits(f0, First(s, next, o.0), next, o.1);
  }

  /** What the flags are after a run in which nobody executed: bit 0 of freezeBus is clear if the
      ARM9 waited and the FIFO holds fewer than 255 entries, and nothing else has changed. */
  lemma {:induction false} RunWaits(f0: Flags, s: State, next: int, env: Env, i: nat)
    requires AllIdle(s.log) ==> s.f == Waited(f0, s.log)
    ensures var e := RunToEnd(s, next, env, i); AllIdle(e.log) ==> AllIdle(s.log) && e.f == Waited(f0, e.log)
    decreases Measure(s, next)
  {
    hide AllIdle, Waited;
    if Running(s, next) {
      IterateProgress(s, next, env(i));
      IterateWaits(f0, s, next, env(i));
      RunWaits(f0, Iterate(s, next, env(i)), next, env, i + 1);
    }
  }

  /** Only the geometry FIFO holds the bus, and it has room. */
  predicate Thawing(f: Flags) { f.freezeBus <= 1 && f.gxSize < 255 }

  /** An executed step stays in the log. */
  lemma {:induction false} StaysExecuted(s: State, next: int, env: Env, i: nat)
    requires !AllIdle(s.log)
    ensures !AllIdle(RunToEnd(s, next, env, i).log)
  {
    RunWaits(s.f, s, next, env, i);
  }

  /** An awake ARM7 whose turn is to come before the end of the slice executes, or the ARM9 does,
      if the bus is free or the ARM9 waits first and frees it. */
  lemma {:induction false} AwakeArm7Executes(s: State, next: int, env: Env, i: nat)
    requires s.doArm7 && s.arm7 < next && !s.f.wait7 && !s.f.reschedule && s.f.execute
    requires s.f.freezeBus == 0 || (Thawing(s.f) && s.arm9 <= s.arm7)
    ensures !AllIdle(RunToEnd(s, next, env, i).log)
    decreases Measure(s, next)
  {
    var o := env(i);
    var s1, e := First(s, next, o.0), Iterate(s, next, o);
    IterateProgress(s, next, o);
    Arm9TurnDoes(s, next, o.0);
    Arm7TurnDoes(s1, next, o.1);
    hide Arm9Turn, Arm7Turn, Measure;
    if Stopped9(s.f) && s.arm9 <= s.arm7 && s.arm9 < s.arm7 {
      AwakeArm7Executes(e, next, env, i + 1);
    } else {
      assert !e.log[|e.log| - 1].idle || !e.log[|s.log|].idle;
      StaysExecuted(e, next, env, i + 1);
    }
  }

  /** An ARM9 that may run executes before the end of the slice, or the ARM7 does. */
  lemma {:induction false} ReadyArm9Executes(s: State, next: int, env: Env, i: nat)
    requires !Stopped9(s.f) && s.arm9 < next && !s.f.reschedule && s.f.execute
    ensures !AllIdle(RunToEnd(s, next, env, i).log)
    decreases Measure(s, next)
  {
    var o := env(i);
    var s1, e := First(s, next, o.0), Iterate(s, next, o);
    IterateProgress(s, next, o);
    Arm9TurnDoes(s, next, o.0);
    Arm7TurnDoes(s1, next, o.1);
    hide Arm9Turn, Arm7Turn, Measure;
    if s.doArm7 && s.arm7 < s.arm9 && s.f.wait7 {
      ReadyArm9Executes(e, next, env, i + 1);
    } else {
      assert !e.log[|s.log|].idle;
      StaysExecuted(e, next, env, i + 1);
    }
  }

  // ----- Passes -----

  /** A pass that begins with the bus held by a FIFO that has room, the ARM9 due first and the ARM7
      awake and due, executes an instruction. */
  lemma StallWithAwakeArm7(c: Clock, due: int, env: Env)
    requires Thawing(c.f) && c.f.execute && !c.f.wait7 && c.t9 <= c.t7 && c.t7 < due && c.t7 < c.nds + 4000
    ensures !AllIdle(RunSlice(c, due, env).log)
  {
    AwakeArm7Executes(SliceStart(c), SliceNext(c, due), env, 0);
  }

  lemma {:induction false} LogGrows(s: State, next: int, env: Env, i: nat)
    ensures s.log <= RunToEnd(s, next, env, i).log
    decreases Measure(s, next)
  {
    if Running(s, next) {
      IterateProgress(s, next, env(i));
      LogGrows(Iterate(s, next, env(i)), next, env, i + 1);
    }
  }

  /** In a pass in which the ARM9 is due first, and nobody executes, the ARM9 waits. */
  lemma DueArm9Waits(c: Clock, due: int, env: Env)
    requires c.f.execute && c.t9 <= c.t7 && c.t9 < due && c.t9 < c.nds + 4000
    ensures Has9(RunSlice(c, due, env).log)
  {
    var s, next := SliceStart(c), SliceNext(c, due);
    var e := Iterate(s, next, env(0));
    IterateProgress(s, next, env(0));
    LogGrows(e, next, env, 1);
    assert e.log[0].proc == 0;
  }

  /** So a stall is never for good: an awake ARM9 held up by a FIFO that has room executes in this
      pass or in the next one that is long enough for it, unless the ARM7 does first. */
  lemma StallEnds(c: Clock, due: int, env: Env, due2: int, env2: Env)
    requires Thawing(c.f) && c.f.execute && !c.f.wait9 && c.t9 <= c.t7 && c.t9 < due && c.t9 < c.nds + 4000
    ensures var e := RunSlice(c, due, env); var d := SliceEnd(c, e);
      AllIdle(e.log) ==>
        && !Stopped9(d.f)
        && (d.t9 < due2 && d.t9 < d.nds + 4000 ==> !AllIdle(RunSlice(d, due2, env2).log))
  {
    var e := RunSlice(c, due, env);
    var d := SliceEnd(c, e);
    DueArm9Waits(c, due, env);
    RunWaits(SliceStart(c).f, SliceStart(c), SliceNext(c, due), env, 0);
    if AllIdle(e.log) && d.t9 < due2 && d.t9 < d.nds + 4000 {
      ReadyArm9Executes(SliceStart(d), SliceNext(d, due2), env2, 0);
    }
  }

  /** A pass lasts at most 4000 cycles, and not beyond the next event, unless a step runs over. */
  lemma PassLength(c: Clock, due: int, env: Env)
    ensures var e := RunSlice(c, due, env);
      && (forall k :: 0 <= k < |e.log| ==> e.log[k].start < 4000 && c.nds + e.log[k].start < due)
      && (e.f.execute && !e.f.reschedule ==> e.MinTime() >= Min(4000, due - c.nds))
  {
    LoopGuarantees(SliceStart(c), SliceNext(c, due), env);
  }

  /** After a pass a waiting CPU's clock stands at nds_timer, and one that does not wait where its
      turns took it. */
  lemma WaitingClocks(c: Clock, due: int, env: Env)
    ensures var e := RunSlice(c, due, env); var d := SliceEnd(c, e);
      && d.t9 == (if d.f.wait9 then d.nds else c.t9 + Total(e.log, 0, false))
      && d.t7 == (if d.f.wait7 then d.nds else c.t7 + Total(e.log, 1, false))
      && d.nds == c.nds + e.time
  {
    LoopGuarantees(SliceStart(c), SliceNext(c, due), env);
  }
}
