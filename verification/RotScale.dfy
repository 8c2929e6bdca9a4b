/** The rotation/scaling background loop: its fast path against the affine mapping of every
    screen column. */
module RotScale {
  import opened Types
  import opened Arith

  const ONE := 0x100        // 1.0 in 8-bit fixed point

  type s32 = x: int | -0x8000_0000 <= x < 0x8000_0000

  function Wrap32(v: int): s32 {
    (v + 0x8000_0000) % 0x1_0000_0000 - 0x8000_0000
  }

  /** ROTOCOORD.bits.Integer: bits 8..27 as a signed 20-bit number. */
  function Integer(v: int): int {
    var u := v / 0x100 % 0x10_0000;
    if u >= 0x8_0000 then u - 0x10_0000 else u
  }

  type Size = n: nat | n == 128 || n == 256 || n == 512 || n == 1024 witness 256

  datatype Params = Params(wrap: bool, x: s32, y: s32, dx: int, dy: int, wh: Size, ht: Size)

  /** A pixel callback: background position and screen column. */
  datatype Call = Call(auxX: int, auxY: int, i: nat)

  /** A coordinate as the background sees it. */
  function Aux(p: Params, v: int, size: Size): int {
    if p.wrap then Integer(v) % size else Integer(v)
  }

  function CallAt(p: Params, i: nat): Call {
    Call(Aux(p, p.x + i * p.dx, p.wh), Aux(p, p.y + i * p.dy, p.ht), i)
  }

  predicate Inside(p: Params, c: Call) { p.wrap || (0 <= c.auxX < p.wh && 0 <= c.auxY < p.ht) }

  /** The mapping of columns 0..n: one callback for every column that hits the background. */
  function Mapped(p: Params, n: nat): seq<Call> {
    if n == 0 then []
    else if Inside(p, CallAt(p, n - 1)) then Mapped(p, n - 1) + [CallAt(p, n - 1)]
    else Mapped(p, n - 1)
  }

  lemma IntegerIgnoresOverflow(v: int)
    ensures Integer(Wrap32(v)) == Integer(v)
  {
    var q := (v + 0x8000_0000) / 0x1_0000_0000;
    assert Wrap32(v) == v - 0x1_0000_0000 * q;
    assert Wrap32(v) / 0x100 == v / 0x100 - 0x100_0000 * q;
    assert (v / 0x100 - 0x10_0000 * (16 * q)) % 0x10_0000 == v / 0x100 % 0x10_0000;
  }

  /** Within 2^27 of the origin it is the coordinate divided by 256, rounded down. */
  lemma IntegerIsFloor(v: int)
    requires -0x800_0000 <= v < 0x800_0000
    ensures Integer(v) * 0x100 <= v < Integer(v) * 0x100 + 0x100
  {
  }

  /** Column i shows the background position whose 8-bit fixed-point coordinates are i steps on from
      the start, wrapped to the background's size or skipped when outside it. */
  lemma ColumnShows(p: Params, i: nat, tx: int, ty: int)
    requires -0x800_0000 <= p.x + i * p.dx < 0x800_0000 && -0x800_0000 <= p.y + i * p.dy < 0x800_0000
    requires tx * 0x100 <= p.x + i * p.dx < tx * 0x100 + 0x100 && ty * 0x100 <= p.y + i * p.dy < ty * 0x100 + 0x100
    ensures CallAt(p, i) == if p.wrap then Call(tx % p.wh, ty % p.ht, i) else Call(tx, ty, i)
    ensures Inside(p, CallAt(p, i)) <==> p.wrap || (0 <= tx < p.wh && 0 <= ty < p.ht)
  {
    IntegerIsFloor(p.x + i * p.dx);
    IntegerIsFloor(p.y + i * p.dy);
    hide Integer;
  }

  lemma WrapAdd(v: int, d: int)
    ensures Wrap32(Wrap32(v) + d) == Wrap32(v + d)
  {
    var q := (v + 0x8000_0000) / 0x1_0000_0000;
    assert Wrap32(v) == v - 0x1_0000_0000 * q;
    assert (v + d + 0x8000_0000 - 0x1_0000_0000 * q) % 0x1_0000_0000 == (v + d + 0x8000_0000) % 0x1_0000_0000;
  }

  /** A whole step moves the integer part by one, modulo 2^20. */
  lemma IntegerStep(v: int, i: nat)
    ensures (Integer(v + i * ONE) - Integer(v) - i) % 0x10_0000 == 0
  {
    assert (v + 0x100 * i) / 0x100 == v / 0x100 + i;
    var a := v / 0x100;
    assert a == 0x10_0000 * (a / 0x10_0000) + a % 0x10_0000;
    assert a + i == 0x10_0000 * ((a + i) / 0x10_0000) + (a + i) % 0x10_0000;
  }

  lemma IntegerRange(v: int)
    ensures -0x8_0000 <= Integer(v) < 0x8_0000
  {
  }

  /** In wrap mode an unscaled column i lies i to the right of the first. */
  lemma WrapColumn(v: int, i: nat, size: Size)
    ensures Integer(v + i * ONE) % size == (Integer(v) + i) % size
  {
    IntegerStep(v, i);
    var d := Integer(v + i * ONE) - Integer(v) - i;
    var q := d / 0x10_0000;
    assert Integer(v + i * ONE) == Integer(v) + i + 0x10_0000 * q;
    MultipleOfSize(Integer(v) + i, q, size);
  }

  lemma MultipleOfSize(a: int, q: int, size: Size)
    ensures (a + 0x10_0000 * q) % size == a % size
  {
    if size == 128 {
      AddMultiple(a, 8192 * q, 128);
    } else if size == 256 {
      AddMultiple(a, 4096 * q, 256);
    } else if size == 512 {
      AddMultiple(a, 2048 * q, 512);
    } else {
      AddMultiple(a, 1024 * q, 1024);
    }
  }

  /** Without wrapping, columns that stay on the background do not overflow the coordinate. */
  lemma PlainColumn(v: int, i: nat)
    requires 0 <= Integer(v) && Integer(v) + i < 0x8_0000
    ensures Integer(v + i * ONE) == Integer(v) + i
  {
    IntegerStep(v, i);
    IntegerRange(v + i * ONE);
  }

  predicate Unscaled(p: Params) { p.dx == 256 && p.dy == 0 }

  lemma UnscaledColumn(p: Params, i: nat)
    requires Unscaled(p) && p.wrap
    ensures CallAt(p, i) == Call((Aux(p, p.x, p.wh) + i) % p.wh, Aux(p, p.y, p.ht), i)
  {
    WrapColumn(p.x, i, p.wh);
    ModAdd(Integer(p.x), i, p.wh);
  }

  lemma ModAdd(a: int, i: nat, size: Size)
    ensures (a % size + i) % size == (a + i) % size
  {
    AddMultiple(a % size + i, a / size, size);
    assert a % size + i + size * (a / size) == a + i;
  }

  /** The line when it wraps: the column is masked after every step. */
  method WrappedLine(p: Params, n: u16) returns (calls: seq<Call>)
    requires Unscaled(p) && p.wrap
    ensures calls == Mapped(p, n)
  {
    var auxX, auxY := Aux(p, p.x, p.wh), Aux(p, p.y, p.ht);
    calls := [];
    UnscaledColumn(p, 0);
    for i := 0 to n
      invariant auxX == CallAt(p, i).auxX && calls == Mapped(p, i)
    {
      UnscaledColumn(p, i);
      UnscaledColumn(p, i + 1);
      calls := calls + [Call(auxX, auxY, i)];
      auxX := auxX + 1;
      ModAdd(Aux(p, p.x, p.wh) + i, 1, p.wh);
      auxX := auxX % p.wh;
    }
  }

  /** The line when all of it lies on the background. */
  method PlainLine(p: Params, n: u16) returns (calls: seq<Call>)
    requires Unscaled(p) && !p.wrap
    requires Integer(p.x) >= 0 && Integer(p.x) + n < p.wh && 0 <= Integer(p.y) < p.ht
    ensures calls == Mapped(p, n)
  {
    var auxX, auxY := Integer(p.x), Integer(p.y);
    calls := [];
    for i := 0 to n
      invariant auxX == Integer(p.x) + i && calls == Mapped(p, i)
    {
      PlainColumn(p.x, i);
      calls := calls + [Call(auxX, auxY, i)];
      auxX := auxX + 1;
    }
  }

  /** The 32-bit coordinate reached after i steps. */
  function Coord(v: int, i: nat, d: int): s32 { Wrap32(v + i * d) }

  /** It stands for the exact coordinate, now and after one more step. */
  lemma CoordinateStep(v: int, i: nat, d: int)
    ensures Integer(Coord(v, i, d)) == Integer(v + i * d)
    ensures Wrap32(Coord(v, i, d) + d) == Coord(v, i + 1, d)
  {
    IntegerIgnoresOverflow(v + i * d);
    WrapAdd(v + i * d, d);
    assert v + (i + 1) * d == (v + i * d) + d;
  }

  /** The general loop: fixed-point coordinates advanced in 32 bits. */
  method GeneralLine(p: Params, n: u16) returns (calls: seq<Call>)
    ensures calls == Mapped(p, n)
  {
    var x, y := p.x, p.y;
    calls := [];
    for i := 0 to n
      invariant x == Coord(p.x, i, p.dx) && y == Coord(p.y, i, p.dy)
      invariant calls == Mapped(p, i)
    {
      CoordinateStep(p.x, i, p.dx);
      CoordinateStep(p.y, i, p.dy);
      var auxX, auxY := Aux(p, x, p.wh), Aux(p, y, p.ht);
      if p.wrap || (auxX >= 0 && auxX < p.wh && auxY >= 0 && auxY < p.ht) {
        calls := calls + [Call(auxX, auxY, i)];
      }
      x, y := Wrap32(x + p.dx), Wrap32(y + p.dy);
    }
  }

  /** rot_scale_op: whichever path is taken, the callbacks are those of the affine mapping. */
  method RotScaleOp(p: Params, n: u16) returns (calls: seq<Call>)
    ensures calls == Mapped(p, n)
  {
    if p.dx == 256 && p.dy == 0 {
      var auxX, auxY := Aux(p, p.x, p.wh), Aux(p, p.y, p.ht);
      if p.wrap {
        calls := WrappedLine(p, n);
        return;
      } else if auxX + n < p.wh && auxX >= 0 && auxY < p.ht && auxY >= 0 {
        calls := PlainLine(p, n);
        return;
      }
    }
    calls := GeneralLine(p, n);
  }

  /** The mapping visits columns left to right, each at most once, and skips exactly those
      that fall outside an unwrapped background. */
  lemma {:induction false} MappedIsTheVisibleLine(p: Params, n: nat)
    ensures forall k :: 0 <= k < |Mapped(p, n)| ==>
              var c := Mapped(p, n)[k]; c.i < n && c == CallAt(p, c.i) && Inside(p, c)
    ensures forall j, k :: 0 <= j < k < |Mapped(p, n)| ==> Mapped(p, n)[j].i < Mapped(p, n)[k].i
    ensures forall i :: 0 <= i < n && Inside(p, CallAt(p, i)) ==> CallAt(p, i) in Mapped(p, n)
  {
    if n > 0 {
      MappedIsTheVisibleLine(p, n - 1);
    }
  }
}
