/** The two inter-processor FIFOs: a ring buffer for each direction, whose fill state is
    mirrored in the control registers of both processors. */
module IpcFifo {
  import opened RingIndex
  import opened Types
  import opened IpcControl

  const CAPACITY := 16

  /** The send FIFO ran empty, or the receive FIFO is not empty. */
  datatype Irq = SendEmpty | RecvNonEmpty

  /** IPC_FIFO with the values it holds, oldest first. */
  class Ring {
    const buf: array<u32>
    var head: nat
    var tail: nat
    var size: nat
    ghost var contents: seq<u32>
    ghost var accepted: seq<u32>     // values pushed since the last clear
    ghost var received: seq<u32>     // values popped since the last clear

    ghost predicate Valid()
      reads this, buf
    {
      && buf.Length == CAPACITY && head < CAPACITY && size <= CAPACITY
      && tail == Slot(CAPACITY, head, size)
      && |contents| == size
      && (forall k :: 0 <= k < size ==> contents[k] == buf[Slot(CAPACITY, head, k)])
      && accepted == received + contents
    }

    constructor ()
      ensures Valid() && contents == [] && fresh(buf)
    {
      buf := new u32[CAPACITY](i => 0);
      head, tail, size := 0, 0, 0;
      contents, accepted, received := [], [], [];
    }

    method Clear()
      requires Valid()
      modifies this
      ensures Valid() && contents == [] && accepted == [] && received == []
    {
      head, tail, size := 0, 0, 0;
      contents, accepted, received := [], [], [];
    }

    method Push(val: u32)
      requires Valid() && size < CAPACITY
      modifies this, buf
      ensures Valid() && contents == old(contents) + [val]
      ensures accepted == old(accepted) + [val] && received == old(received)
    {
      buf[tail] := val;
      tail := tail + 1;
      size := size + 1;
      if tail > 15 { tail := 0; }
      contents, accepted := contents + [val], accepted + [val];
    }

    method Pop() returns (val: u32)
      requires Valid() && size > 0
      modifies this
      ensures Valid() && old(contents) == [val] + contents
      ensures accepted == old(accepted) && received == old(received) + [val]
    {
      val := buf[head];
      head := head + 1;
      size := size - 1;
      if head > 15 { head := 0; }
      received, contents := received + [contents[0]], contents[1..];
    }
  }

  /** The four fill flags a control register shows: of its own send FIFO and, as its receive
      FIFO, of the other processor's. */
  predicate Shows(c: Control, send: nat, recv: nat) {
    && (c.sendEmpty <==> send == 0) && (c.sendFull <==> send == CAPACITY)
    && (c.recvEmpty <==> recv == 0) && (c.recvFull <==> recv == CAPACITY)
  }

  /** One processor's side: the FIFO it sends through, its control register and the interrupts
      raised for it so far. */
  class Port {
    const fifo: Ring
    var cnt: bv16
    var irqs: seq<Irq>

    /** IPC_FIFOinit */
    constructor ()
      ensures fifo.Valid() && fifo.contents == [] && Decode(cnt) == RESET && irqs == []
      ensures fresh(fifo) && fresh(fifo.buf)
    {
      fifo := new Ring();
      cnt, irqs := 0x0101, [];
      ResetWord();
    }
  }

  /** Two ports facing each other: all eight fill flags tell the truth. */
  ghost predicate Linked(a: Port, b: Port)
    reads a, b, a.fifo, b.fifo, a.fifo.buf, b.fifo.buf
  {
    && a != b && a.fifo != b.fifo && a.fifo.buf != b.fifo.buf
    && a.fifo.Valid() && b.fifo.Valid()
    && Shows(Decode(a.cnt), a.fifo.size, b.fifo.size) && Shows(Decode(b.cnt), b.fifo.size, a.fifo.size)
  }

  /** MMU_Reset: both sides empty. */
  method Connect() returns (arm9: Port, arm7: Port)
    ensures fresh(arm9) && fresh(arm7) && Linked(arm9, arm7) && Linked(arm7, arm9)
    ensures arm9.fifo.contents == arm7.fifo.contents == []
  {
    hide Decode;
    arm9 := new Port();
    arm7 := new Port();
  }

  /** IPC_FIFOsend: nothing when disabled, an error flag when full; otherwise the value is
      queued, both error flags go and the receiver may be interrupted. */
  method Send(me: Port, peer: Port, val: u32)
    requires Linked(me, peer)
    modifies me, peer, me.fifo, me.fifo.buf
    ensures Linked(me, peer) && me.irqs == old(me.irqs)
    ensures var f := me.fifo; var l, r := Decode(old(me.cnt)), Decode(old(peer.cnt));
      if !l.enable then
        f.contents == old(f.contents) && f.accepted == old(f.accepted)
        && me.cnt == old(me.cnt) && peer.cnt == old(peer.cnt) && peer.irqs == old(peer.irqs)
      else if old(|f.contents|) == CAPACITY then
        f.contents == old(f.contents) && f.accepted == old(f.accepted)
        && Decode(me.cnt) == l.(error := true) && peer.cnt == old(peer.cnt) && peer.irqs == old(peer.irqs)
      else
        && f.contents == old(f.contents) + [val] && f.accepted == old(f.accepted) + [val]
        && Decode(me.cnt) == l.(sendEmpty := false, sendFull := |f.contents| == CAPACITY, error := false)
        && Decode(peer.cnt) == r.(recvEmpty := false, recvFull := |f.contents| == CAPACITY, error := false)
        && peer.irqs == if r.recvIrq then old(peer.irqs) + [RecvNonEmpty] else old(peer.irqs)
    ensures me.fifo.received == old(me.fifo.received)
  {
    hide Decode, Has, SentLocal, SentRemote, ReceivedLocal, ReceivedRemote, Failed, WrittenLocal, WrittenRemote;
    var cntL := me.cnt;
    Fields(cntL);
    if !Has(cntL, FIFOENABLE) { return; }
    if me.fifo.size > 15 {
      ErrorMask(cntL);
      me.cnt := Failed(cntL);
      return;
    }
    var cntR := peer.cnt;
    me.fifo.Push(val);
    var full := me.fifo.size > 15;
    SendMasks(cntL, cntR, full);
    cntL, cntR := SentLocal(cntL, full), SentRemote(cntR, full);
    me.cnt, peer.cnt := cntL, cntR;
    Fields(cntR);
    if Has(cntR, RECVIRQEN) { peer.irqs := peer.irqs + [RecvNonEmpty]; }
  }

  /** IPC_FIFOrecv: zero when disabled, zero and an error flag when the remote FIFO is empty,
      otherwise its oldest value. */
  method Recv(me: Port, peer: Port) returns (val: u32)
    requires Linked(me, peer)
    modifies me, peer, peer.fifo
    ensures Linked(me, peer) && me.irqs == old(me.irqs)
    ensures var f := peer.fifo; var l, r := Decode(old(me.cnt)), Decode(old(peer.cnt));
      if !l.enable then
        val == 0 && f.contents == old(f.contents) && f.received == old(f.received)
        && me.cnt == old(me.cnt) && peer.cnt == old(peer.cnt) && peer.irqs == old(peer.irqs)
      else if old(f.contents) == [] then
        val == 0 && f.contents == [] && f.received == old(f.received)
        && Decode(me.cnt) == l.(error := true) && peer.cnt == old(peer.cnt) && peer.irqs == old(peer.irqs)
      else
        && old(f.contents) == [val] + f.contents && f.received == old(f.received) + [val]
        && Decode(me.cnt) == l.(recvEmpty := f.contents == [], recvFull := false, error := false)
        && Decode(peer.cnt) == r.(sendEmpty := f.contents == [], sendFull := false, error := false)
        && peer.irqs == if f.contents == [] && r.sendIrq then old(peer.irqs) + [SendEmpty] else old(peer.irqs)
    ensures peer.fifo.accepted == old(peer.fifo.accepted)
  {
    hide Decode, Has, SentLocal, SentRemote, ReceivedLocal, ReceivedRemote, Failed, WrittenLocal, WrittenRemote;
    var cntL := me.cnt;
    val := 0;
    Fields(cntL);
    if !Has(cntL, FIFOENABLE) { return; }
    if peer.fifo.size == 0 {
      ErrorMask(cntL);
      me.cnt := Failed(cntL);
      return;
    }
    var cntR := peer.cnt;
    val := peer.fifo.Pop();
    var empty := peer.fifo.size == 0;
    RecvMasks(cntL, cntR, empty);
    cntL, cntR := ReceivedLocal(cntL, empty), ReceivedRemote(cntR, empty);
    Fields(cntR);
    if empty && Has(cntR, SENDIRQEN) { peer.irqs := peer.irqs + [SendEmpty]; }
    me.cnt, peer.cnt := cntL, cntR;
  }

  function Raised(irqs: seq<Irq>, sendEmpty: bool, recvNonEmpty: bool): seq<Irq> {
    var sent := if sendEmpty then irqs + [SendEmpty] else irqs;
    if recvNonEmpty then sent + [RecvNonEmpty] else sent
  }

  /** The two registers after a write. */
  method ControlAfter(local: bv16, remote: bv16, val: bv16) returns (cntL: bv16, cntR: bv16)
    ensures var l, v, clear := Decode(local), Decode(val), Has(val, SENDCLEAR);
      Decode(cntL) == Control(l.sendEmpty || clear, l.sendFull && !clear, l.recvEmpty, l.recvFull, l.error && !v.error,
                              v.sendIrq, v.recvIrq, v.enable)
    ensures var r, clear := Decode(remote), Has(val, SENDCLEAR);
      Decode(cntR) == r.(recvEmpty := r.recvEmpty || clear, recvFull := r.recvFull && !clear)
  {
    hide Decode, Has, Acknowledge, ClearSend, TakeOver, WrittenRemote;
    WriteMasks(local, remote, val);
    cntL := Acknowledge(local, val);
    cntL, cntR := ClearSend(cntL, val), WrittenRemote(remote, val);
    cntL := TakeOver(cntL, val);
  }

  /** The interrupts a register write raises at once. */
  method Notify(irqs: seq<Irq>, cnt: bv16) returns (raised: seq<Irq>)
    ensures var c := Decode(cnt); raised == Raised(irqs, c.sendIrq && c.sendEmpty, c.recvIrq && !c.recvEmpty)
  {
    Fields(cnt);
    raised := irqs;
    if Has(cnt, SENDIRQEN) && Has(cnt, SENDEMPTY) { raised := raised + [SendEmpty]; }
    if Has(cnt, RECVIRQEN) && !Has(cnt, RECVEMPTY) { raised := raised + [RecvNonEmpty]; }
  }

  /** The registers and the send FIFO after a write to the register. */
  method SetControl(me: Port, peer: Port, val: bv16)
    requires Linked(me, peer)
    modifies me`cnt, peer`cnt, me.fifo
    ensures Linked(me, peer)
    ensures var clear := Has(val, SENDCLEAR);
      && me.fifo.contents == (if clear then [] else old(me.fifo.contents))
      && me.fifo.accepted == (if clear then [] else old(me.fifo.accepted))
      && me.fifo.received == (if clear then [] else old(me.fifo.received))
    ensures var l, v, clear := Decode(old(me.cnt)), Decode(val), Has(val, SENDCLEAR);
      Decode(me.cnt) == Control(l.sendEmpty || clear, l.sendFull && !clear, l.recvEmpty, l.recvFull, l.error && !v.error,
                                v.sendIrq, v.recvIrq, v.enable)
    ensures var r, clear := Decode(old(peer.cnt)), Has(val, SENDCLEAR);
      Decode(peer.cnt) == r.(recvEmpty := r.recvEmpty || clear, recvFull := r.recvFull && !clear)
  {
    hide Decode;
    var cntL, cntR := ControlAfter(me.cnt, peer.cnt, val);
    if Has(val, SENDCLEAR) { me.fifo.Clear(); }
    me.cnt, peer.cnt := cntL, cntR;
  }

  /** IPC_FIFOcnt: acknowledge, clear, and take over the writeable fields; interrupts whose
      condition now holds are raised at once. (The source raises them before it stores the two
      registers; raising reads neither.) */
  method WriteControl(me: Port, peer: Port, val: bv16)
    requires Linked(me, peer)
    modifies me, peer, me.fifo
    ensures Linked(me, peer) && peer.irqs == old(peer.irqs)
    ensures var clear := Has(val, SENDCLEAR);
      && me.fifo.contents == (if clear then [] else old(me.fifo.contents))
      && me.fifo.accepted == (if clear then [] else old(me.fifo.accepted))
      && me.fifo.received == (if clear then [] else old(me.fifo.received))
    ensures var l, v, clear := Decode(old(me.cnt)), Decode(val), Has(val, SENDCLEAR);
      Decode(me.cnt) == Control(l.sendEmpty || clear, l.sendFull && !clear, l.recvEmpty, l.recvFull, l.error && !v.error,
                                v.sendIrq, v.recvIrq, v.enable)
    ensures var r, clear := Decode(old(peer.cnt)), Has(val, SENDCLEAR);
      Decode(peer.cnt) == r.(recvEmpty := r.recvEmpty || clear, recvFull := r.recvFull && !clear)
    ensures me.irqs == Raised(old(me.irqs), Decode(val).sendIrq && me.fifo.contents == [],
                              Decode(val).recvIrq && peer.fifo.contents != [])
  {
    hide Decode, Has;
    SetControl(me, peer, val);
    var raised := Notify(me.irqs, me.cnt);
    me.irqs := raised;
  }

  /** Each interrupt joins those raised before once if its condition holds, the one for the empty
      send FIFO first. */
  lemma RaisedTells(irqs: seq<Irq>, sendEmpty: bool, recvNonEmpty: bool)
    ensures var r := Raised(irqs, sendEmpty, recvNonEmpty); var n := |irqs|;
      && irqs <= r && |r| == n + (if sendEmpty then 1 else 0) + (if recvNonEmpty then 1 else 0)
      && (SendEmpty in r[n..] <==> sendEmpty) && (RecvNonEmpty in r[n..] <==> recvNonEmpty)
      && (sendEmpty ==> r[n] == SendEmpty)
  {
    var r := Raised(irqs, sendEmpty, recvNonEmpty);
    assert r[|irqs|..] == (if sendEmpty then [SendEmpty] else []) + (if recvNonEmpty then [RecvNonEmpty] else []);
  }
}
