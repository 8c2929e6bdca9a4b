/** The rectangular display windows. Each keeps a precomputed line of flags that is rebuilt only
    when its horizontal bounds have changed; a pixel test then reads the line through a pointer
    that is redirected to an empty line where the window does not apply. */
module Windows {
  import opened Types
  import opened Arith

  const WIDTH := 256

  /** The registers of one window. */
  datatype Regs = Regs(h0: u8, h1: u8, v0: u8, v1: u8, enabled: bool)

  datatype Op =
    | SetH(val: u16) | SetH0(b: u8) | SetH1(b: u8)
    | SetV(val: u16) | SetV0(b: u8) | SetV1(b: u8)
    | Enable(on: bool)
    | Line(y: u8)

  function Apply(r: Regs, op: Op): Regs {
    match op
    case SetH(val) => r.(h0 := val / 256, h1 := val % 256)
    case SetH0(b) => r.(h0 := b)
    case SetH1(b) => r.(h1 := b)
    case SetV(val) => r.(v0 := val / 256, v1 := val % 256)
    case SetV0(b) => r.(v0 := b)
    case SetV1(b) => r.(v1 := b)
    case Enable(on) => r.(enabled := on)
    case Line(_) => r
  }

  /** The registers after a history of operations. */
  function After(r: Regs, ops: seq<Op>): Regs {
    if ops == [] then r else Apply(After(r, ops[..|ops| - 1]), ops[|ops| - 1])
  }

  /** A coordinate between two bounds: an ordered pair is half open, a reversed pair wraps around
      and then includes its end. */
  predicate Between(start: u8, end: u8, c: int) {
    if start > end then !(end < c < start) else start <= c < end
  }

  /** The pixel lies in the window, straight from the registers. */
  predicate Inside(r: Regs, x: int, y: u8) {
    r.enabled && Between(r.v0, r.v1, y) && Between(r.h0, r.h1, x)
  }

  /** The column or line c is from `start` on and before `end`, or, in a window that wraps around,
      up to `end`. */
  predicate Spans(start: nat, end: nat, c: int) {
    if start <= end then start <= c < end else c >= start || c <= end
  }

  /** The high byte of a bounds register is the left or upper edge, the low byte the right or lower
      one; an enabled window is the rectangle between them, and a disabled one is empty. */
  lemma WindowFromRegisters(r: Regs, left: u8, right: u8, top: u8, bottom: u8, on: bool, x: nat, y: u8)
    requires x < WIDTH
    ensures var w := After(r, [SetV(256 * top + bottom), Enable(on), SetH(256 * left + right)]);
      Inside(w, x, y) <==> on && Spans(left, right, x) && Spans(top, bottom, y)
  {
    var ops := [SetV(256 * top + bottom), Enable(on), SetH(256 * left + right)];
    assert ops[..2][..1][..0] == [] && ops[..2][..1] == ops[..1];
    assert After(r, ops[..1]) == Apply(After(r, ops[..1][..0]), SetV(256 * top + bottom));
    assert After(r, ops[..2]) == Apply(After(r, ops[..2][..1]), Enable(on));
    assert After(r, ops) == Apply(After(r, ops[..2]), SetH(256 * left + right));
  }

  /** A write to one byte of a register is a write of both with the other byte as it was. */
  lemma ByteWrites(r: Regs, b: u8)
    ensures Apply(r, SetH0(b)) == Apply(r, SetH(256 * b + r.h1)) && Apply(r, SetH1(b)) == Apply(r, SetH(256 * r.h0 + b))
    ensures Apply(r, SetV0(b)) == Apply(r, SetV(256 * b + r.v1)) && Apply(r, SetV1(b)) == Apply(r, SetV(256 * r.v0 + b))
  {
  }

  class Window {
    var regs: Regs
    var needUpdate: bool
    const hWin: array<bool>
    const empty: array<bool>
    var curr: array<bool>

    /** The precomputed line is stale only while it is marked so. */
    ghost predicate Valid()
      reads this, hWin, empty
    {
      && hWin.Length == WIDTH && empty.Length == WIDTH && hWin != empty
      && (curr == hWin || curr == empty)
      && (forall x :: 0 <= x < WIDTH ==> !empty[x])
      && (needUpdate || forall x :: 0 <= x < WIDTH ==> hWin[x] == Between(regs.h0, regs.h1, x))
    }

    constructor ()
      ensures Valid() && fresh(hWin) && fresh(empty) && regs == Regs(0, 0, 0, 0, false)
    {
      regs, needUpdate := Regs(0, 0, 0, 0, false), true;
      var none := new bool[WIDTH](_ => false);
      hWin := new bool[WIDTH](_ => false);
      empty, curr := none, none;
    }

    /** _UpdateWINH */
    method UpdateWINH()
      requires Valid()
      modifies this`needUpdate, hWin
      ensures Valid() && (regs.enabled ==> !needUpdate)
    {
      if !regs.enabled { return; }
      needUpdate := false;
      var startX, endX := regs.h0, regs.h1;
      if startX > endX {
        Fill(0, endX + 1, true);
        Fill(endX + 1, startX, false);
        Fill(startX, WIDTH, true);
      } else {
        Fill(0, startX, false);
        Fill(startX, endX, true);
        Fill(endX, WIDTH, false);
      }
    }

    method Fill(from: nat, to: nat, b: bool)
      requires from <= to <= WIDTH == hWin.Length
      modifies hWin
      ensures forall x :: 0 <= x < WIDTH ==> hWin[x] == if from <= x < to then b else old(hWin[x])
    {
      for i := from to to
        invariant forall x :: 0 <= x < WIDTH ==> hWin[x] == if from <= x < i then b else old(hWin[x])
      {
        hWin[i] := b;
      }
    }

    /** _SetupWindows */
    method SetupWindows(y: u8)
      requires Valid()
      modifies this`curr
      ensures curr == if regs.enabled && Between(regs.v0, regs.v1, y) then hWin else empty
    {
      curr := empty;
      if !regs.enabled { return; }
      if regs.v0 > regs.v1 {
        if y < regs.v0 && y > regs.v1 { return; }
      } else {
        if y < regs.v0 || y >= regs.v1 { return; }
      }
      curr := hWin;
    }

    /** One register write, or the set-up at the start of a rendered line. */
    method Perform(op: Op)
      requires Valid()
      modifies this`regs, this`needUpdate, this`curr, hWin
      ensures Valid() && regs == Apply(old(regs), op)
      ensures op.Line? ==> forall x :: 0 <= x < WIDTH ==> curr[x] == Inside(regs, x, op.y)
    {
      match op {
        case SetH(val) =>
          regs, needUpdate := regs.(h0 := val / 256, h1 := val % 256), true;
        case SetH0(b) =>
          regs, needUpdate := regs.(h0 := b), true;
        case SetH1(b) =>
          regs, needUpdate := regs.(h1 := b), true;
        case SetV(val) =>
          regs := regs.(v0 := val / 256, v1 := val % 256);
        case SetV0(b) =>
          regs := regs.(v0 := b);
        case SetV1(b) =>
          regs := regs.(v1 := b);
        case Enable(on) =>
          regs := regs.(enabled := on);
        case Line(y) =>
          if needUpdate { UpdateWINH(); }
          SetupWindows(y);
      }
    }

    /** The line of flags a pixel test reads. */
    ghost function Flags(): (s: seq<bool>)
      requires Valid()
      reads this, hWin, empty
      ensures |s| == WIDTH
    {
      curr[..]
    }
  }

  /** The flags a direct evaluation of the registers gives for line y. */
  function Direct(r: Regs, y: u8): (s: seq<bool>)
    ensures |s| == WIDTH && forall x :: 0 <= x < WIDTH ==> s[x] == Inside(r, x, y)
  {
    seq(WIDTH, x => Inside(r, x, y))
  }

  /** Over any history of writes and lines, every rendered line sees exactly the flags that the
      registers written so far call for: the cache is never noticed. */
  method Replay(w: Window, ops: seq<Op>) returns (seen: seq<seq<bool>>)
    requires w.Valid()
    modifies w`regs, w`needUpdate, w`curr, w.hWin
    ensures w.Valid() && |seen| == |ops|
    ensures forall i :: 0 <= i < |ops| && ops[i].Line? ==> seen[i] == Direct(After(old(w.regs), ops[..i]), ops[i].y)
  {
    seen := [];
    ghost var r0 := w.regs;
    for i := 0 to |ops|
      invariant w.Valid() && |seen| == i && w.regs == After(r0, ops[..i])
      invariant forall j :: 0 <= j < i && ops[j].Line? ==> seen[j] == Direct(After(r0, ops[..j]), ops[j].y)
    {
      w.Perform(ops[i]);
      assert ops[..i + 1][..i] == ops[..i];
      seen := seen + [w.curr[..]];
    }
  }

  // ----- Layer test -----

  /** The layer masks and effect bits of WININ, WINOUT and WINOBJ. */
  datatype Control = Control(in0: u8, in0Special: bool, in1: u8, in1Special: bool,
                             out: u8, outSpecial: bool, obj: u8, objSpecial: bool, objEnabled: bool)

  function LayerBit(mask: u8, layer: nat): bool
    requires layer < 6
  {
    var p := if layer == 0 then 1 else if layer == 1 then 2 else if layer == 2 then 4
             else if layer == 3 then 8 else if layer == 4 then 16 else 32;
    mask / p % 2 == 1
  }

  /** Bit k of a mask is layer k's, the effect layer's being bit 5. */
  lemma LayerBitIs(b0: nat, b1: nat, b2: nat, b3: nat, b4: nat, b5: nat, rest: nat, layer: nat)
    requires b0 < 2 && b1 < 2 && b2 < 2 && b3 < 2 && b4 < 2 && b5 < 2 && rest < 4 && layer < 6
    ensures LayerBit(b0 + 2 * b1 + 4 * b2 + 8 * b3 + 16 * b4 + 32 * b5 + 64 * rest, layer)
       <==> [b0, b1, b2, b3, b4, b5][layer] == 1
  {
    var m6 := rest;
    var m5 := b5 + 2 * m6;
    var m4 := b4 + 2 * m5;
    var m3 := b3 + 2 * m4;
    var m2 := b2 + 2 * m3;
    var m1 := b1 + 2 * m2;
    var m := b0 + 2 * m1;
    match layer {
      case 0 => Quotient(m, 2, m1, b0);
      case 1 => BitUp(m, 2, m1, b0, m2, b1);
      case 2 => BitUp(m, 4, m2, b0 + 2 * b1, m3, b2);
      case 3 => BitUp(m, 8, m3, b0 + 2 * b1 + 4 * b2, m4, b3);
      case 4 => BitUp(m, 16, m4, b0 + 2 * b1 + 4 * b2 + 8 * b3, m5, b4);
      case _ => BitUp(m, 32, m5, b0 + 2 * b1 + 4 * b2 + 8 * b3 + 16 * b4, m6, b5);
    }
  }

  lemma BitUp(m: nat, p: nat, q: nat, low: nat, next: nat, b: nat)
    requires m == p * q + low && low < p && q == 2 * next + b && b < 2
    ensures m / p % 2 == b
  {
    Quotient(m, p, q, low);
    Quotient(q, 2, next, b);
  }

  /** The region deciding a pixel: window 0 over window 1 over the object window over the
      outside; no region when every window is off. */
  datatype Region = In0 | In1 | InObj | Outside | NoWindow

  function RegionOf(r0: Regs, r1: Regs, c: Control, obj: bool, x: int, y: u8): Region {
    if Inside(r0, x, y) then In0
    else if Inside(r1, x, y) then In1
    else if c.objEnabled && obj then InObj
    else if c.objEnabled || r0.enabled || r1.enabled then Outside
    else NoWindow
  }

  function Verdict(c: Control, region: Region, layer: nat, draw: bool, effect: bool): (bool, bool)
    requires layer < 6
  {
    match region
    case In0 => (LayerBit(c.in0, layer), c.in0Special)
    case In1 => (LayerBit(c.in1, layer), c.in1Special)
    case InObj => (LayerBit(c.obj, layer), c.objSpecial)
    case Outside => (LayerBit(c.out, layer), c.outSpecial)
    case NoWindow => (draw, effect)
  }

  /** Window 0 decides what lies in it, window 1 what lies outside window 0, the object window what
      lies outside both, and the outside mask the rest as long as any of them is enabled. */
  lemma RegionsInOrder(r0: Regs, r1: Regs, c: Control, obj: bool, x: int, y: u8, layer: nat, draw: bool, effect: bool)
    requires layer < 6
    ensures var in0, in1 := Inside(r0, x, y), Inside(r1, x, y);
      var v := Verdict(c, RegionOf(r0, r1, c, obj, x, y), layer, draw, effect);
      && (in0 ==> v == (LayerBit(c.in0, layer), c.in0Special))
      && (!in0 && in1 ==> v == (LayerBit(c.in1, layer), c.in1Special))
      && (!in0 && !in1 && c.objEnabled && obj ==> v == (LayerBit(c.obj, layer), c.objSpecial))
      && (!in0 && !in1 && !(c.objEnabled && obj) && (r0.enabled || r1.enabled || c.objEnabled) ==>
            v == (LayerBit(c.out, layer), c.outSpecial))
      && (!r0.enabled && !r1.enabled && !c.objEnabled ==> v == (draw, effect))
  {
    hide LayerBit;
  }

  /** _RenderLine_CheckWindows, on a line both windows have been set up for. */
  method CheckWindows(w0: Window, w1: Window, c: Control, sprWin: array<bool>, x: nat, layer: nat,
                      draw0: bool, effect0: bool, ghost y: u8)
    returns (draw: bool, effect: bool)
    requires w0.Valid() && w1.Valid() && x < WIDTH && sprWin.Length == WIDTH && layer < 6
    requires w0.Flags() == Direct(w0.regs, y) && w1.Flags() == Direct(w1.regs, y)
    ensures (draw, effect) == Verdict(c, RegionOf(w0.regs, w1.regs, c, sprWin[x], x, y), layer, draw0, effect0)
  {
    draw, effect := draw0, effect0;
    assert w0.Flags()[x] == Inside(w0.regs, x, y) && w1.Flags()[x] == Inside(w1.regs, x, y);
    if w0.curr[x] {
      return LayerBit(c.in0, layer), c.in0Special;
    }
    if w1.curr[x] {
      return LayerBit(c.in1, layer), c.in1Special;
    }
    if c.objEnabled {
      if sprWin[x] {
        return LayerBit(c.obj, layer), c.objSpecial;
      }
    }
    if c.objEnabled || w1.regs.enabled || w0.regs.enabled {
      draw, effect := LayerBit(c.out, layer), c.outSpecial;
    }
  }
}
