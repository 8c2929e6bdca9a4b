/** The IPCFIFOCNT register: its 16 bits, the fields they stand for, and what the masks the
    FIFO code applies do to those fields. */
module IpcControl {
  const SENDEMPTY: bv16 := 0x0001
  const SENDFULL: bv16 := 0x0002
  const SENDIRQEN: bv16 := 0x0004
  const SENDCLEAR: bv16 := 0x0008
  const RECVEMPTY: bv16 := 0x0100
  const RECVFULL: bv16 := 0x0200
  const RECVIRQEN: bv16 := 0x0400
  const FIFOERROR: bv16 := 0x4000
  const FIFOENABLE: bv16 := 0x8000
  const WRITEABLE: bv16 := SENDIRQEN | RECVIRQEN | FIFOENABLE

  datatype Control = Control(sendEmpty: bool, sendFull: bool, recvEmpty: bool, recvFull: bool, error: bool,
                             sendIrq: bool, recvIrq: bool, enable: bool)

  predicate Has(c: bv16, mask: bv16) { c & mask != 0 }

  function Decode(c: bv16): Control {
    Control(Has(c, SENDEMPTY), Has(c, SENDFULL), Has(c, RECVEMPTY), Has(c, RECVFULL), Has(c, FIFOERROR),
            Has(c, SENDIRQEN), Has(c, RECVIRQEN), Has(c, FIFOENABLE))
  }

  /** Bit n of a register value. */
  predicate BitOf(c: bv16, n: nat)
    requires n < 16
  {
    (c >> n) & 1 == 1
  }

  /** The fields are bits 0, 1, 8, 9, 14, 2, 10 and 15, and a send FIFO is cleared by bit 3. */
  lemma FieldBits(c: bv16)
    ensures Decode(c) == Control(BitOf(c, 0), BitOf(c, 1), BitOf(c, 8), BitOf(c, 9), BitOf(c, 14), BitOf(c, 2), BitOf(c, 10), BitOf(c, 15))
    ensures Has(c, SENDCLEAR) <==> BitOf(c, 3)
  {
  }

  const RESET: Control := Control(true, false, true, false, false, false, false, false)

  lemma ResetWord()
    ensures Decode(0x0101) == RESET
  {
  }

  lemma Fields(c: bv16)
    ensures var d := Decode(c);
      && d.sendEmpty == Has(c, SENDEMPTY) && d.recvEmpty == Has(c, RECVEMPTY)
      && d.sendIrq == Has(c, SENDIRQEN) && d.recvIrq == Has(c, RECVIRQEN) && d.enable == Has(c, FIFOENABLE)
  {
  }

  /** The sender's and the receiver's register after an accepted value; `full` is the new
      state of the ring. */
  function SentLocal(l: bv16, full: bool): bv16 {
    var c := l & 0xBFFC;
    if full then c | SENDFULL else c
  }

  function SentRemote(r: bv16, full: bool): bv16 {
    var c := r & 0xBCFF;
    if full then c | RECVFULL else c
  }

  /** Both error flags go, whatever raised them. */
  lemma SendMasks(l: bv16, r: bv16, full: bool)
    ensures Decode(SentLocal(l, full)) == Decode(l).(sendEmpty := false, sendFull := full, error := false)
    ensures Decode(SentRemote(r, full)) == Decode(r).(recvEmpty := false, recvFull := full, error := false)
  {
  }

  /** The same for a delivered value; `empty` is the new state of the ring. */
  function ReceivedLocal(l: bv16, empty: bool): bv16 {
    var c := l & 0xBCFF;
    if empty then c | RECVEMPTY else c
  }

  function ReceivedRemote(r: bv16, empty: bool): bv16 {
    var c := r & 0xBFFC;
    if empty then c | SENDEMPTY else c
  }

  lemma RecvMasks(l: bv16, r: bv16, empty: bool)
    ensures Decode(ReceivedLocal(l, empty)) == Decode(l).(recvEmpty := empty, recvFull := false, error := false)
    ensures Decode(ReceivedRemote(r, empty)) == Decode(r).(sendEmpty := empty, sendFull := false, error := false)
  {
  }

  function Failed(c: bv16): bv16 { c | FIFOERROR }

  lemma ErrorMask(c: bv16)
    ensures Decode(Failed(c)) == Decode(c).(error := true)
  {
  }

  /** A write to the register: acknowledge the error, clear the send FIFO, then take over the
      three writeable bits. */
  function Acknowledge(c: bv16, val: bv16): bv16 {
    if Has(val, FIFOERROR) then c & !FIFOERROR else c
  }

  function ClearSend(c: bv16, val: bv16): bv16 {
    if Has(val, SENDCLEAR) then (c | SENDEMPTY) & !SENDFULL else c
  }

  function TakeOver(c: bv16, val: bv16): bv16 {
    (c & !WRITEABLE) | (val & WRITEABLE)
  }

  function WrittenLocal(c: bv16, val: bv16): bv16 {
    TakeOver(ClearSend(Acknowledge(c, val), val), val)
  }

  function WrittenRemote(c: bv16, val: bv16): bv16 {
    if Has(val, SENDCLEAR) then (c | RECVEMPTY) & !RECVFULL else c
  }

  lemma AcknowledgeMask(c: bv16, val: bv16)
    ensures Decode(Acknowledge(c, val)) == Decode(c).(error := Decode(c).error && !Decode(val).error)
  {
  }

  lemma ClearSendMask(c: bv16, val: bv16)
    ensures Decode(ClearSend(c, val))
         == if Has(val, SENDCLEAR) then Decode(c).(sendEmpty := true, sendFull := false) else Decode(c)
  {
  }

  lemma TakeOverMask(c: bv16, val: bv16)
    ensures var v := Decode(val);
      Decode(TakeOver(c, val)) == Decode(c).(sendIrq := v.sendIrq, recvIrq := v.recvIrq, enable := v.enable)
  {
  }

  lemma WriteMasks(l: bv16, r: bv16, val: bv16)
    ensures var o, v := Decode(l), Decode(val); var clear := Has(val, SENDCLEAR);
      Decode(WrittenLocal(l, val))
        == Control(o.sendEmpty || clear, o.sendFull && !clear, o.recvEmpty, o.recvFull, o.error && !v.error,
                   v.sendIrq, v.recvIrq, v.enable)
    ensures var o := Decode(r); var clear := Has(val, SENDCLEAR);
      Decode(WrittenRemote(r, val)) == o.(recvEmpty := o.recvEmpty || clear, recvFull := o.recvFull && !clear)
  {
    var c1 := Acknowledge(l, val);
    var c2 := ClearSend(c1, val);
    AcknowledgeMask(l, val);
    ClearSendMask(c1, val);
    TakeOverMask(c2, val);
    RemoteMask(r, val);
  }

  lemma RemoteMask(r: bv16, val: bv16)
    ensures Decode(WrittenRemote(r, val))
         == if Has(val, SENDCLEAR) then Decode(r).(recvEmpty := true, recvFull := false) else Decode(r)
  {
  }
}
