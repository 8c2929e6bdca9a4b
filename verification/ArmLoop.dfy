/** The two-CPU interleaving loop. A CPU step is an Outcome chosen by an arbitrary environment:
    its cost and the machine flags it leaves behind. Times are relative to the nds_timer at
    the start of the loop, as in the source. */
module ArmLoop {
  import opened Types

  const IRQ_WAIT := 4000

  type Cost = c: int | 1 <= c witness 1

  datatype Flags = Flags(reschedule: bool, execute: bool, wait9: bool, wait7: bool, freezeBus: nat, gxSize: nat)

  datatype Outcome = Outcome(cost: Cost, after: Flags)

  /** The outcome of the ARM9 and of the ARM7 step of the i-th iteration, if they run. */
  type Env = nat -> (Outcome, Outcome)

  datatype Step = Step(proc: int, start: int, advance: int, idle: bool)

  datatype State = State(arm9: int, arm7: int, doArm7: bool, time: int, idle9: int, idle7: int, f: Flags, log: seq<Step>) {
    /** minarmtime */
    function MinTime(): int { if doArm7 then Min(arm9, arm7) else arm9 }
  }

  predicate Running(s: State, next: int) {
    s.MinTime() < next && !s.f.reschedule && s.f.execute
  }

  // ----- One iteration -----

  function Arm9Turn(s: State, next: int, o: Outcome): State {
    if !s.f.wait9 && s.f.freezeBus == 0 then
      s.(arm9 := s.arm9 + o.cost, f := o.after, log := s.log + [Step(ARM9, s.arm9, o.cost, false)])
    else
      var t := Min(next, s.arm9 + IRQ_WAIT);
      s.(arm9 := t, idle9 := s.idle9 + (t - s.arm9),
         f := if s.f.gxSize < 255 then s.f.(freezeBus := ClearBit0(s.f.freezeBus)) else s.f,
         log := s.log + [Step(ARM9, s.arm9, t - s.arm9, true)])
  }

  function ClearBit0(v: nat): (r: nat)
    ensures r % 2 == 0 && r / 2 == v / 2
  {
    v - v % 2
  }

  /** An ARM7 that idles up to the end of the slice hands over to the ARM9-only loop. */
  function Arm7Turn(s: State, next: int, o: Outcome): State {
    if !s.f.wait7 && s.f.freezeBus == 0 then
      s.(arm7 := s.arm7 + 2 * o.cost, f := o.after, log := s.log + [Step(ARM7, s.arm7, 2 * o.cost, false)])
    else
      var t := Min(next, s.arm7 + IRQ_WAIT);
      s.(arm7 := t, idle7 := s.idle7 + (t - s.arm7), doArm7 := t != next,
         log := s.log + [Step(ARM7, s.arm7, t - s.arm7, true)])
  }

  function First(s: State, next: int, o: Outcome): State {
    if !s.doArm7 || s.arm9 <= s.MinTime() then Arm9Turn(s, next, o) else s
  }

  /** The ARM7's part; whether it runs was decided by the time before the ARM9's part. */
  function Second(s: State, timer: int, next: int, o: Outcome): State {
    if s.doArm7 && s.arm7 <= timer then Arm7Turn(s, next, o) else s
  }

  function Iterate(s: State, next: int, o: (Outcome, Outcome)): State {
    var e := Second(First(s, next, o.0), s.MinTime(), next, o.1);
    e.(time := e.MinTime())
  }

  // ----- Termination and the whole run -----

  function Measure(s: State, next: int): nat {
    Max(0, next - s.arm9) + (if s.doArm7 then Max(0, next - s.arm7) else 0)
  }

  lemma IterateProgress(s: State, next: int, o: (Outcome, Outcome))
    requires Running(s, next)
    ensures Measure(Iterate(s, next, o), next) < Measure(s, next)
  {
  }

  /** The state in which the loop stops; `i` numbers iterations for the environment. */
  function RunToEnd(s: State, next: int, env: Env, i: nat): (e: State)
    ensures !Running(e, next)
    decreases Measure(s, next)
  {
    if Running(s, next) then
      IterateProgress(s, next, env(i));
      RunToEnd(Iterate(s, next, env(i)), next, env, i + 1)
    else s
  }

  // ----- What every run keeps -----

  function Largest(log: seq<Step>): (m: int)
    ensures forall k :: 0 <= k < |log| ==> log[k].advance <= m
    ensures m >= 0
  {
    if log == [] then 0 else Max(Largest(log[..|log| - 1]), log[|log| - 1].advance)
  }

  /** Cycles of one CPU, or only its idle ones. */
  function Total(log: seq<Step>, proc: int, idleOnly: bool): int {
    if log == [] then 0
    else
      var last := log[|log| - 1];
      Total(log[..|log| - 1], proc, idleOnly)
      + (if last.proc == proc && (idleOnly ==> last.idle) then last.advance else 0)
  }

  function Skew(s: State): nat { Abs(s.arm9 - s.arm7) }

  /** The log explains the clocks and the idle counters, and no step starts at or past next. */
  ghost predicate Books(s0: State, s: State, next: int) {
    && (forall k :: 0 <= k < |s.log| ==> s.log[k].start < next && s.log[k].advance >= 1)
    && s.arm9 == s0.arm9 + Total(s.log, ARM9, false)
    && s.arm7 == s0.arm7 + Total(s.log, ARM7, false)
    && s.idle9 == s0.idle9 + Total(s.log, ARM9, true)
    && s.idle7 == s0.idle7 + Total(s.log, ARM7, true)
  }

  /** The CPUs stay as close as the start and the largest step allow, and nds_timer follows
      the CPU that is behind. */
  ghost predicate Bounds(s0: State, s: State, next: int) {
    && Skew(s) <= Max(Skew(s0), Largest(s.log))
    && (s.doArm7 || s.arm7 == next)
    && (if s.log == [] then s == s0 else s.time == s.MinTime())
    && (s.arm9 < next + Largest(s.log) || s.arm9 == s0.arm9)
    && (s.doArm7 ==> s.log == [] || s.time < next + Largest(s.log))
    && s0.MinTime() <= s.MinTime()
  }

  lemma AppendTotal(log: seq<Step>, st: Step, proc: int, idleOnly: bool)
    ensures Total(log + [st], proc, idleOnly) == Total(log, proc, idleOnly)
              + (if st.proc == proc && (idleOnly ==> st.idle) then st.advance else 0)
  {
    assert (log + [st])[..|log|] == log;
  }

  lemma AppendStep(log: seq<Step>, st: Step)
    ensures Largest(log + [st]) == Max(Largest(log), st.advance)
    ensures Total(log + [st], ARM9, false) == Total(log, ARM9, false) + (if st.proc == ARM9 then st.advance else 0)
    ensures Total(log + [st], ARM7, false) == Total(log, ARM7, false) + (if st.proc == ARM7 then st.advance else 0)
    ensures Total(log + [st], ARM9, true) == Total(log, ARM9, true) + (if st.proc == ARM9 && st.idle then st.advance else 0)
    ensures Total(log + [st], ARM7, true) == Total(log, ARM7, true) + (if st.proc == ARM7 && st.idle then st.advance else 0)
  {
    assert (log + [st])[..|log|] == log;
    AppendTotal(log, st, ARM9, false);
    AppendTotal(log, st, ARM7, false);
    AppendTotal(log, st, ARM9, true);
    AppendTotal(log, st, ARM7, true);
  }

  /** Only a CPU that is not ahead takes a step. */
  lemma SkewStep(x: int, y: int, dx: nat, dy: nat, bound: int)
    requires Abs(x - y) <= bound && dx <= bound && dy <= bound
    requires (dx > 0 ==> x <= y) && (dy > 0 ==> y <= x)
    ensures Abs(x + dx - (y + dy)) <= bound
  {
  }

  lemma Arm9TurnKeeps(s0: State, s: State, next: int, o: Outcome)
    requires s.arm9 < next && Books(s0, s, next)
    ensures var e := Arm9Turn(s, next, o); var a := e.arm9 - s.arm9;
      && Books(s0, e, next) && a >= 1 && e.log != [] && Largest(e.log) == Max(Largest(s.log), a)
      && e.arm7 == s.arm7 && e.doArm7 == s.doArm7
  {
    AppendStep(s.log, Arm9Turn(s, next, o).log[|s.log|]);
  }

  lemma Arm7TurnKeeps(s0: State, s: State, next: int, o: Outcome)
    requires s.doArm7 && s.arm7 < next && Books(s0, s, next)
    ensures var e := Arm7Turn(s, next, o); var a := e.arm7 - s.arm7;
      && Books(s0, e, next) && a >= 1 && e.log != [] && Largest(e.log) == Max(Largest(s.log), a)
      && e.arm9 == s.arm9 && (e.doArm7 || e.arm7 == next)
  {
    AppendStep(s.log, Arm7Turn(s, next, o).log[|s.log|]);
  }

  /** Any move of the CPUs that are not ahead keeps the bounds. */
  lemma BoundsStep(s0: State, s: State, e: State, next: int, dx: nat, dy: nat)
    requires Bounds(s0, s, next) && Running(s, next)
    requires e.arm9 == s.arm9 + dx && e.arm7 == s.arm7 + dy && e.time == e.MinTime()
    requires e.log != [] && Max(dx, dy) <= Largest(e.log) && Largest(s.log) <= Largest(e.log)
    requires dx > 0 ==> s.arm9 == s.MinTime()
    requires dy > 0 ==> s.doArm7 && s.arm7 == s.MinTime()
    requires (e.doArm7 ==> s.doArm7) && (e.doArm7 || e.arm7 == next)
    ensures Bounds(s0, e, next)
  {
    SkewStep(s.arm9, s.arm7, dx, dy, Max(Skew(s0), Largest(e.log)));
  }

  /** What one iteration does to the clocks, with the books kept. */
  lemma IterateMoves(s0: State, s: State, next: int, o: (Outcome, Outcome)) returns (dx: nat, dy: nat)
    requires Books(s0, s, next) && Running(s, next) && (s.doArm7 || s.arm7 == next)
    ensures var e := Iterate(s, next, o);
      && Books(s0, e, next) && e.time == e.MinTime()
      && e.arm9 == s.arm9 + dx && e.arm7 == s.arm7 + dy
      && e.log != [] && Max(dx, dy) <= Largest(e.log) && Largest(s.log) <= Largest(e.log)
      && (dx > 0 ==> s.arm9 == s.MinTime()) && (dy > 0 ==> s.doArm7 && s.arm7 == s.MinTime())
      && (e.doArm7 ==> s.doArm7) && (e.doArm7 || e.arm7 == next)
  {
    hide Books, Largest, Arm9Turn, Arm7Turn;
    var timer := s.MinTime();
    var s1 := First(s, next, o.0);
    dx, dy := 0, 0;
    if !s.doArm7 || s.arm9 <= timer {
      Arm9TurnKeeps(s0, s, next, o.0);
      dx := s1.arm9 - s.arm9;
    }
    var s2 := Second(s1, timer, next, o.1);
    if s1.doArm7 && s1.arm7 <= timer {
      Arm7TurnKeeps(s0, s1, next, o.1);
      dy := s2.arm7 - s1.arm7;
    }
    BooksIgnoreTime(s0, s2, next, s2.MinTime());
  }

  lemma BooksIgnoreTime(s0: State, s: State, next: int, t: int)
    requires Books(s0, s, next)
    ensures Books(s0, s.(time := t), next)
  {
  }

  lemma IterateKeeps(s0: State, s: State, next: int, o: (Outcome, Outcome))
    requires Books(s0, s, next) && Bounds(s0, s, next) && Running(s, next)
    ensures Books(s0, Iterate(s, next, o), next) && Bounds(s0, Iterate(s, next, o), next)
  {
    var dx, dy := IterateMoves(s0, s, next, o);
    BoundsStep(s0, s, Iterate(s, next, o), next, dx, dy);
  }

  lemma {:induction false} RunKeeps(s0: State, s: State, next: int, env: Env, i: nat)
    requires Books(s0, s, next) && Bounds(s0, s, next)
    ensures var e := RunToEnd(s, next, env, i); Books(s0, e, next) && Bounds(s0, e, next)
    decreases Measure(s, next)
  {
    if Running(s, next) {
      IterateProgress(s, next, env(i));
      IterateKeeps(s0, s, next, env(i));
      RunKeeps(s0, Iterate(s, next, env(i)), next, env, i + 1);
    }
  }

  /** What a whole run of the loop guarantees: every step starts before `next` and takes time,
      the log accounts for both clocks and both idle counters, the CPUs stay within the
      initial skew or the largest step, and the loop only stops at `next`, on a reschedule
      or on a halt. */
  lemma LoopGuarantees(s0: State, next: int, env: Env)
    requires s0.doArm7 && s0.log == []
    ensures var e := RunToEnd(s0, next, env, 0);
      && Books(s0, e, next)
      && Skew(e) <= Max(Skew(s0), Largest(e.log))
      && (e.MinTime() >= next || e.f.reschedule || !e.f.execute)
      && (e.doArm7 || e.arm7 == next)
      && (e.log != [] ==> e.time == e.MinTime() && s0.MinTime() <= e.time < Max(next + Largest(e.log), s0.arm9 + 1))
      && (e.log == [] ==> e == s0)
  {
    RunKeeps(s0, s0, next, env, 0);
  }

  // ----- The loop as the source runs it -----

  class Machine {
    var ndsTimer: int
    var reschedule: bool
    var execute: bool
    var wait9: bool
    var wait7: bool
    var freezeBus: nat
    var gxSize: nat
    var idle9: int
    var idle7: int

    ghost function CurrentFlags(): Flags
      reads this
    {
      Flags(reschedule, execute, wait9, wait7, freezeBus, gxSize)
    }

    /** The loop's state when its locals hold arm9 and arm7. */
    ghost function View(base: int, arm9: int, arm7: int, doArm7: bool, log: seq<Step>): State
      reads this
    {
      State(arm9, arm7, doArm7, ndsTimer - base, idle9, idle7, CurrentFlags(), log)
    }

    /** armcpu_exec, abstracted as an arbitrary outcome. */
    method ArmcpuExec(o: Outcome) returns (cost: Cost)
      modifies this
      ensures cost == o.cost && CurrentFlags() == o.after
      ensures unchanged(`ndsTimer) && unchanged(`idle9) && unchanged(`idle7)
    {
      reschedule, execute, wait9, wait7 := o.after.reschedule, o.after.execute, o.after.wait9, o.after.wait7;
      freezeBus, gxSize := o.after.freezeBus, o.after.gxSize;
      cost := o.cost;
    }

    /** The ARM9's half of an iteration: a CPU whose turn comes before `next` advances, and only
        waiting counts as idle, never past `next`. */
    method TakeArm9(next: int, arm9: int, o: Outcome, ghost base: int, ghost s: State) returns (r9: int)
      requires s == View(base, arm9, s.arm7, s.doArm7, s.log)
      modifies this
      ensures var e := Arm9Turn(s, next, o); e == View(base, r9, s.arm7, s.doArm7, e.log)
      ensures arm9 < next ==> r9 > arm9
      ensures if old(wait9) || old(freezeBus) != 0 then r9 <= next && idle9 - old(idle9) == r9 - arm9 else idle9 == old(idle9)
    {
      if !wait9 && freezeBus == 0 {
        var cost := ArmcpuExec(o);
        r9 := arm9 + cost;
      } else {
        r9 := Min(next, arm9 + IRQ_WAIT);
        idle9 := idle9 + (r9 - arm9);
        if gxSize < 255 { freezeBus := ClearBit0(freezeBus); }
      }
    }

    /** The ARM7's half, likewise; `handOver` tells that it idles to the end of the slice. */
    method TakeArm7(next: int, arm7: int, o: Outcome, ghost base: int, ghost s: State) returns (r7: int, handOver: bool)
      requires s.doArm7 && s == View(base, s.arm9, arm7, true, s.log)
      modifies this
      ensures var e := Arm7Turn(s, next, o); e == View(base, s.arm9, r7, !handOver, e.log)
      ensures arm7 < next ==> r7 > arm7
      ensures if old(wait7) || old(freezeBus) != 0 then r7 <= next && idle7 - old(idle7) == r7 - arm7 else idle7 == old(idle7)
      ensures handOver ==> r7 == next
    {
      if !wait7 && freezeBus == 0 {
        var cost := ArmcpuExec(o);
        r7, handOver := arm7 + 2 * cost, false;
      } else {
        r7 := Min(next, arm7 + IRQ_WAIT);
        idle7 := idle7 + (r7 - arm7);
        handOver := r7 == next;
      }
    }

    /** armInnerLoop<true,doArm7>; the ARM9-only instance is entered by recursion. */
    method ArmInnerLoop(doArm7: bool, base: int, next: int, arm9: int, arm7: int, env: Env, i: nat,
                        ghost log: seq<Step>, ghost start: State)
      returns (r9: int, r7: int, ghost end: State)
      requires View(base, arm9, arm7, doArm7, log) == start
      modifies this
      ensures end == RunToEnd(start, next, env, i)
      ensures end == View(base, r9, r7, end.doArm7, end.log)
      decreases doArm7
    {
      hide Arm9Turn, Arm7Turn;
      r9, r7 := arm9, arm7;
      var n := i;
      var timer := if doArm7 then Min(r9, r7) else r9;
      ghost var s := start;
      while timer < next && !reschedule && execute
        invariant s == View(base, r9, r7, doArm7, s.log) && timer == s.MinTime()
        invariant RunToEnd(s, next, env, n) == RunToEnd(start, next, env, i)
        decreases Measure(s, next)
      {
        IterateProgress(s, next, env(n));
        ghost var s1 := First(s, next, env(n).0);
        ghost var s2 := Second(s1, timer, next, env(n).1);
        ghost var after := Iterate(s, next, env(n));
        assert after == s2.(time := s2.MinTime());
        assert RunToEnd(s, next, env, n) == RunToEnd(after, next, env, n + 1);
        if !doArm7 || r9 <= timer {
          r9 := TakeArm9(next, r9, env(n).0, base, s);
        }
        assert s1 == View(base, r9, r7, doArm7, s1.log);
        if doArm7 && r7 <= timer {
          var handOver;
          r7, handOver := TakeArm7(next, r7, env(n).1, base, s1);
          if handOver {
            ndsTimer := base + r9;
            r9, r7, end := ArmInnerLoop(false, base, next, r9, r7, env, n + 1, after.log, after);
            return;
          }
        }
        assert s2 == View(base, r9, r7, doArm7, s2.log);
        timer := if doArm7 then Min(r9, r7) else r9;
        ndsTimer := base + timer;
        s := after;
        n := n + 1;
      }
      end := s;
    }
  }
}
