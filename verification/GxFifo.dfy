/** The geometry-engine FIFO: a ring of commands with a derived counter and status flags. */
module GxFifo {
  import opened RingIndex
  import opened Types

  const CAPACITY := 200000
  const LOW_MARK := 127

  datatype Entry = Entry(cmd: u8, param: u32)

  predicate IsMatrixStackCommand(cmd: u8) { cmd == 0x11 || cmd == 0x12 }

  /** How many queued commands push or pop a matrix. */
  function MatrixOps(q: seq<Entry>): (n: nat)
    ensures n <= |q|
  {
    if q == [] then 0 else (if IsMatrixStackCommand(q[0].cmd) then 1 else 0) + MatrixOps(q[1..])
  }

  lemma {:induction false} MatrixOpsAppend(q: seq<Entry>, e: Entry)
    ensures MatrixOps(q + [e]) == MatrixOps(q) + (if IsMatrixStackCommand(e.cmd) then 1 else 0)
  {
    if q == [] {
      assert q + [e] == [e];
    } else {
      assert (q + [e])[1..] == q[1..] + [e];
      MatrixOpsAppend(q[1..], e);
    }
  }

  /** How often a command number is queued. */
  function CountOf(q: seq<Entry>, cmd: u8): nat {
    if q == [] then 0 else (if q[0].cmd == cmd then 1 else 0) + CountOf(q[1..], cmd)
  }

  /** The matrix-stack operations are the pushes, 0x11, and the pops, 0x12. */
  lemma {:induction false} MatrixOpsAre(q: seq<Entry>)
    ensures MatrixOps(q) == CountOf(q, 0x11) + CountOf(q, 0x12)
  {
    if q != [] { MatrixOpsAre(q[1..]); }
  }

  /** The fill flags of gxstat. */
  datatype Flags = Flags(low: bool, empty: bool, stackBusy: bool)

  function FlagsOf(q: seq<Entry>): Flags {
    Flags(|q| <= LOW_MARK, q == [], MatrixOps(q) != 0)
  }

  /** Low means at most 127 entries; the stack is busy while a push or a pop is queued. */
  lemma FlagsTell(q: seq<Entry>)
    ensures FlagsOf(q).low <==> |q| < 128
    ensures FlagsOf(q).stackBusy <==> CountOf(q, 0x11) > 0 || CountOf(q, 0x12) > 0
  {
    MatrixOpsAre(q);
  }

  class Fifo {
    const cmd: array<u8>
    const param: array<u32>
    var head: nat
    var tail: nat
    var size: nat
    var matrixStackOps: nat      // matrix_stack_op_size
    var flags: Flags
    var dmaTriggers: nat         // low-FIFO DMA triggers issued
    var reschedule: bool
    ghost var contents: seq<Entry>

    ghost predicate Valid()
      reads this, cmd, param
    {
      && cmd.Length == param.Length == CAPACITY && head < CAPACITY && size <= CAPACITY
      && tail == Slot(CAPACITY, head, size)
      && |contents| == size
      && (forall k :: 0 <= k < size ==>
            contents[k] == Entry(cmd[Slot(CAPACITY, head, k)], param[Slot(CAPACITY, head, k)]))
      && matrixStackOps == MatrixOps(contents)
    }

    constructor ()
      ensures Valid() && contents == [] && flags == Flags(false, true, false)
    {
      cmd := new u8[CAPACITY](i => 0);
      param := new u32[CAPACITY](i => 0);
      head, tail, size, matrixStackOps := 0, 0, 0, 0;
      flags, dmaTriggers, reschedule, contents := Flags(false, true, false), 0, false, [];
    }

    /** GXF_FIFO_handleEvents */
    method HandleEvents()
      requires Valid()
      modifies this`flags, this`dmaTriggers, this`reschedule
      ensures Valid() && flags == FlagsOf(contents)
      ensures dmaTriggers == old(dmaTriggers) + (if |contents| <= LOW_MARK then 1 else 0)
      ensures reschedule == (old(reschedule) || flags.low != old(flags).low || flags.empty != old(flags).empty)
    {
      var low := size <= 127;
      var lowChange := flags.low != low;
      flags := flags.(low := low);
      if low { dmaTriggers := dmaTriggers + 1; }
      var empty := size == 0;
      var emptyChange := flags.empty != empty;
      flags := flags.(empty := empty);
      flags := flags.(stackBusy := matrixStackOps != 0);
      if emptyChange || lowChange { reschedule := true; }
    }

    /** Store an entry and account for it. */
    method Push(c: u8, p: u32)
      requires Valid() && size < CAPACITY
      modifies this`tail, this`size, this`matrixStackOps, this`contents, cmd, param
      ensures Valid() && contents == old(contents) + [Entry(c, p)]
    {
      cmd[tail] := c;
      param[tail] := p;
      tail := tail + 1;
      size := size + 1;
      if tail > CAPACITY - 1 { tail := 0; }
      MatrixOpsAppend(contents, Entry(c, p));
      if IsMatrixStackCommand(c) { matrixStackOps := matrixStackOps + 1; }
      contents := contents + [Entry(c, p)];
    }

    /** GFX_FIFOsend; the ring must not be full. */
    method Send(c: u8, p: u32)
      requires Valid() && size < CAPACITY
      modifies this, cmd, param
      ensures Valid() && contents == old(contents) + [Entry(c, p)] && flags == FlagsOf(contents)
      ensures dmaTriggers == old(dmaTriggers) + (if |contents| <= LOW_MARK then 1 else 0)
      ensures reschedule
    {
      Push(c, p);
      HandleEvents();
      reschedule := true;   // NDS_RescheduleGXFIFO
    }

    /** GFX_PIPErecv */
    method Recv() returns (e: Option<Entry>)
      requires Valid()
      modifies this
      ensures Valid() && flags == FlagsOf(contents)
      ensures if old(contents) == [] then e == None && contents == [] else e.Some? && old(contents) == [e.value] + contents
      ensures dmaTriggers == old(dmaTriggers) + (if |contents| <= LOW_MARK then 1 else 0)
      ensures reschedule == (old(reschedule) || flags.low != old(flags).low || flags.empty != old(flags).empty)
    {
      if size == 0 {
        HandleEvents();
        return None;
      }
      e := Some(Entry(cmd[head], param[head]));
      if IsMatrixStackCommand(e.value.cmd) { matrixStackOps := matrixStackOps - 1; }
      head := head + 1;
      size := size - 1;
      if head > CAPACITY - 1 { head := 0; }
      contents := contents[1..];
      HandleEvents();
    }

    /** The clear bit of GFX_FIFOcnt: pipe and FIFO together. The flags are left alone, so they
        stop agreeing with the contents exactly when something was queued. */
    method Clear()
      requires Valid()
      modifies this
      ensures Valid() && contents == [] && flags == old(flags) && dmaTriggers == old(dmaTriggers)
      ensures old(flags == FlagsOf(contents)) ==> (flags == FlagsOf(contents) <==> old(contents) == [])
    {
      matrixStackOps := 0;      // GFX_PIPEclear
      head, tail, size := 0, 0, 0;
      matrixStackOps := 0;      // GFX_FIFOclear
      contents := [];
    }
  }
}
