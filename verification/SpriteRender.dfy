/** The sprite renderer: loops that walk screen columns and picture coordinates together and
    keep, column by column, the nearest sprite seen so far. */
module SpriteRender {
  import opened Types
  import opened GpuMemory
  import opened SpriteSpec

  /** `len` screen columns from `start`, the first of which is column `first` of the field. */
  datatype Span = Span(start: nat, len: nat, first: nat) {
    predicate Has(k: int) { start <= k < start + len }
  }

  /** The part of a field of `width` columns at signed position x that is on screen. */
  function Clip(x: int, width: nat): (s: Span)
    requires -256 <= x < 256 && 0 < x + width && width <= 128
    ensures s.start + s.len <= WIDTH
  {
    if x < 0 then Span(0, width + x, -x)
    else if x + width > WIDTH then Span(x, WIDTH - x, 0)
    else Span(x, width, 0)
  }

  lemma ClipIsExact(x: int, width: nat, k: nat)
    requires -256 <= x < 256 && 0 < x + width && width <= 128 && k < WIDTH
    ensures var s := Clip(x, width);
      && (s.Has(k) <==> 0 <= k - x < width)
      && (s.Has(k) ==> s.first + (k - s.start) == k - x)
  {
  }

  /** The picture column after j screen columns; it moves by xdir with each. */
  function Column(x: int, xdir: int, j: int): int { if xdir < 0 then x - j else x + j }

  /** The walk stays inside a picture of at most 64 columns. */
  predicate Walk(sp: Span, x: int, xdir: int) {
    && (xdir == 1 || xdir == -1)
    && (sp.len > 0 ==> 0 <= x < 64 && 0 <= Column(x, xdir, sp.len - 1) < 64)
  }

  /** _RenderSpriteBMP */
  method RenderSpriteBmp(e: Env, i: nat, line: array<Pixel>, prio: nat, sp: Span, x: int, xdir: int, srcadr: nat, alpha: nat)
    requires e.Valid() && line.Length == WIDTH && sp.start + sp.len <= WIDTH && Walk(sp, x, xdir)
    modifies line
    ensures forall k :: 0 <= k < WIDTH ==>
              line[k] == if sp.Has(k) then Merge(old(line[k]), i, prio, BmpAt(e, srcadr, Column(x, xdir, k - sp.start), alpha)) else old(line[k])
  {
    var sprX, col := sp.start, x;
    for j := 0 to sp.len
      invariant sprX == sp.start + j && col == Column(x, xdir, j)
      invariant forall k :: 0 <= k < WIDTH ==>
                  line[k] == if sp.start <= k < sprX
                             then Merge(old(line[k]), i, prio, BmpAt(e, srcadr, Column(x, xdir, k - sp.start), alpha)) else old(line[k])
    {
      var color := e.mem.Half(srcadr + col * 2);
      if Opaque(color) && prio < line[sprX].prio {
        line[sprX] := Pixel(color, alpha + 1, 3, prio, i);
      }
      sprX, col := sprX + 1, col + xdir;
    }
  }

  /** _RenderSprite256 */
  method RenderSprite256(e: Env, i: nat, line: array<Pixel>, prio: nat, sp: Span, x: int, xdir: int, srcadr: nat, pal: seq<u16>, kind: nat)
    requires e.Valid() && |pal| == 256 && line.Length == WIDTH && sp.start + sp.len <= WIDTH && Walk(sp, x, xdir)
    modifies line
    ensures forall k :: 0 <= k < WIDTH ==>
              line[k] == if sp.Has(k) then Merge(old(line[k]), i, prio, At256(e, srcadr, pal, Column(x, xdir, k - sp.start), kind)) else old(line[k])
  {
    var sprX, col := sp.start, x;
    for j := 0 to sp.len
      invariant sprX == sp.start + j && col == Column(x, xdir, j)
      invariant forall k :: 0 <= k < WIDTH ==>
                  line[k] == if sp.start <= k < sprX
                             then Merge(old(line[k]), i, prio, At256(e, srcadr, pal, Column(x, xdir, k - sp.start), kind)) else old(line[k])
    {
      var entry := e.mem.Byte(srcadr + col % 8 + col / 8 * 64);
      if entry > 0 && prio < line[sprX].prio {
        line[sprX] := Pixel(pal[entry], 255, kind, prio, i);
      }
      sprX, col := sprX + 1, col + xdir;
    }
  }

  /** _RenderSprite16: as before, but the sprite number is not entered. */
  method RenderSprite16(e: Env, i: nat, line: array<Pixel>, prio: nat, sp: Span, x: int, xdir: int, srcadr: nat, pal: seq<u16>, kind: nat)
    requires e.Valid() && |pal| == 16 && line.Length == WIDTH && sp.start + sp.len <= WIDTH && Walk(sp, x, xdir)
    modifies line
    ensures forall k :: 0 <= k < WIDTH ==>
              line[k] == if sp.Has(k) then Merge(old(line[k]), i, prio, At16(e, srcadr, pal, Column(x, xdir, k - sp.start), kind)) else old(line[k])
  {
    var sprX, col := sp.start, x;
    for j := 0 to sp.len
      invariant sprX == sp.start + j && col == Column(x, xdir, j)
      invariant forall k :: 0 <= k < WIDTH ==>
                  line[k] == if sp.start <= k < sprX
                             then Merge(old(line[k]), i, prio, At16(e, srcadr, pal, Column(x, xdir, k - sp.start), kind)) else old(line[k])
    {
      var x1 := col / 2;
      var byte := e.mem.Byte(srcadr + x1 % 4 + x1 / 4 * 32);
      var entry := if col % 2 == 1 then byte / 16 else byte % 16;
      if entry > 0 && prio < line[sprX].prio {
        line[sprX] := Pixel(pal[entry], 255, kind, prio, line[sprX].num);
      }
      sprX, col := sprX + 1, col + xdir;
    }
  }

  /** _RenderSpriteWin: the same walk, marking the object window. */
  method RenderSpriteWin(e: Env, win: array<bool>, src: nat, col256: bool, sp: Span, x: int, xdir: int)
    requires e.Valid() && win.Length == WIDTH && sp.start + sp.len <= WIDTH && Walk(sp, x, xdir)
    requires src < LCD_SIZE + PAGE_SIZE
    modifies win
    ensures forall k :: 0 <= k < WIDTH ==>
              win[k] == (old(win[k]) || (sp.Has(k) && WindowAt(e, src, col256, Column(x, xdir, k - sp.start))))
  {
    if col256 {
      RenderWin256(e, win, src, sp, x, xdir);
    } else {
      RenderWin16(e, win, src, sp, x, xdir);
    }
  }

  method RenderWin256(e: Env, win: array<bool>, src: nat, sp: Span, x: int, xdir: int)
    requires e.Valid() && win.Length == WIDTH && sp.start + sp.len <= WIDTH && Walk(sp, x, xdir)
    requires src < LCD_SIZE + PAGE_SIZE
    modifies win
    ensures forall k :: 0 <= k < WIDTH ==>
              win[k] == (old(win[k]) || (sp.Has(k) && WindowAt(e, src, true, Column(x, xdir, k - sp.start))))
  {
    var sprX, col := sp.start, x;
    for j := 0 to sp.len
      invariant sprX == sp.start + j && col == Column(x, xdir, j)
      invariant forall k :: 0 <= k < WIDTH ==>
                  win[k] == (old(win[k]) || (sp.start <= k < sprX && WindowAt(e, src, true, Column(x, xdir, k - sp.start))))
    {
      if e.mem.host[src + col % 8 + col / 8 * 64] > 0 {
        win[sprX] := true;
      }
      sprX, col := sprX + 1, col + xdir;
    }
  }

  method RenderWin16(e: Env, win: array<bool>, src: nat, sp: Span, x: int, xdir: int)
    requires e.Valid() && win.Length == WIDTH && sp.start + sp.len <= WIDTH && Walk(sp, x, xdir)
    requires src < LCD_SIZE + PAGE_SIZE
    modifies win
    ensures forall k :: 0 <= k < WIDTH ==>
              win[k] == (old(win[k]) || (sp.Has(k) && WindowAt(e, src, false, Column(x, xdir, k - sp.start))))
  {
    var sprX, col := sp.start, x;
    for j := 0 to sp.len
      invariant sprX == sp.start + j && col == Column(x, xdir, j)
      invariant forall k :: 0 <= k < WIDTH ==>
                  win[k] == (old(win[k]) || (sp.start <= k < sprX && WindowAt(e, src, false, Column(x, xdir, k - sp.start))))
    {
      var x1 := col / 2;
      var byte := e.mem.host[src + x1 % 4 + x1 / 4 * 32];
      var entry := if col % 2 == 1 then byte / 16 else byte % 16;
      assert entry > 0 <==> WindowAt(e, src, false, col);
      if entry > 0 {
        win[sprX] := true;
      }
      sprX, col := sprX + 1, col + xdir;
    }
  }

  lemma StepColumn(x: int, i: nat, d: int)
    ensures x + (i + 1) * d == (x + i * d) + d
  {
  }

  /** The texture position after j columns. */
  function Along(begin: int, j: int, d: int): int { begin + j * d }

  /** The rotated loops: the texture position moves along the affine map; a window sprite marks
      `win` where a drawing sprite writes `line`. */
  method RenderRotated(line: array<Pixel>, win: array<bool>, window: bool, i: nat, prio: nat, sp: Span,
                       realX0: int, realY0: int, dx: int, dy: int, texel: (int, int) -> Option<Dot>)
    requires line.Length == WIDTH && win.Length == WIDTH && sp.start + sp.len <= WIDTH
    modifies line, win
    ensures forall k :: 0 <= k < WIDTH ==>
              line[k] == if sp.Has(k) && !window
                         then Merge(old(line[k]), i, prio, texel(Along(realX0, k - sp.start, dx) / 256, Along(realY0, k - sp.start, dy) / 256))
                         else old(line[k])
    ensures forall k :: 0 <= k < WIDTH ==>
              win[k] == (old(win[k]) || (sp.Has(k) && window && prio < old(line[k]).prio
                         && texel(Along(realX0, k - sp.start, dx) / 256, Along(realY0, k - sp.start, dy) / 256).Some?))
  {
    var sprX, realX, realY := sp.start, realX0, realY0;
    for j := 0 to sp.len
      invariant sprX == sp.start + j && realX == Along(realX0, j, dx) && realY == Along(realY0, j, dy)
      invariant forall k :: 0 <= k < WIDTH ==>
                  line[k] == if sp.start <= k < sprX && !window
                             then Merge(old(line[k]), i, prio, texel(Along(realX0, k - sp.start, dx) / 256, Along(realY0, k - sp.start, dy) / 256))
                             else old(line[k])
      invariant forall k :: 0 <= k < WIDTH ==>
                  win[k] == (old(win[k]) || (sp.start <= k < sprX && window && prio < old(line[k]).prio
                             && texel(Along(realX0, k - sp.start, dx) / 256, Along(realY0, k - sp.start, dy) / 256).Some?))
    {
      var d := texel(realX / 256, realY / 256);
      if d.Some? && prio < line[sprX].prio {
        if window {
          win[sprX] := true;
        } else {
          line[sprX] := Merge(line[sprX], i, prio, d);
        }
      }
      StepColumn(realX0, j, dx);
      StepColumn(realY0, j, dy);
      sprX, realX, realY := sprX + 1, realX + dx, realY + dy;
    }
  }

  // ----- One sprite -----

  /** _ComputeSpriteVars: the visible span, the picture row, and the first picture column with
      its direction; None when the sprite misses the line. */
  datatype Vars = Vars(sp: Span, y: nat, x: int, xdir: int)

  function ComputeSpriteVars(e: Env, s: Oam): (r: Option<Vars>)
    requires e.Valid() && s.Valid()
    ensures r.Some? ==> r.value.sp.start + r.value.sp.len <= WIDTH && Walk(r.value.sp, r.value.x, r.value.xdir)
  {
    var y := LineIn(e, s);
    if y >= s.SizeY() || s.x + s.SizeX() <= 0 then None
    else
      var sp := Clip(s.x, s.SizeX());
      Some(Vars(sp,
                if s.vFlip then s.SizeY() - y - 1 else y,
                if s.hFlip then s.SizeX() - sp.first - 1 else sp.first,
                if s.hFlip then -1 else 1))
  }

  /** The walk set up by ComputeSpriteVars meets exactly the visible columns, each at its
      mirrored or plain picture column. */
  lemma VarsAreExact(e: Env, s: Oam, k: nat)
    requires e.Valid() && s.Valid() && k < WIDTH
    ensures
      (var r := ComputeSpriteVars(e, s);
       var u := k - s.x;
       var shown := LineIn(e, s) < s.SizeY() && 0 <= u < s.SizeX();
       if !shown then r.None? || !r.value.sp.Has(k)
       else r.Some? && r.value.sp.Has(k) && r.value.y == RowOf(e, s)
            && Column(r.value.x, r.value.xdir, k - r.value.sp.start) == (if s.hFlip then s.SizeX() - 1 - u else u))
  {
    if s.x + s.SizeX() > 0 {
      ClipIsExact(s.x, s.SizeX(), k);
    }
  }

  /** What the walk meets at screen column k. */
  function ColorAt(e: Env, s: Oam, v: Vars, k: int): Option<Dot>
    requires e.Valid() && s.Valid() && s.mode != 2
  {
    var col := Column(v.x, v.xdir, k - v.sp.start);
    if s.mode == 3 then (if s.palette != 0 then BmpAt(e, BmpBase(e, s, v.y), col, s.palette) else None)
    else if s.depth then At256(e, RowBase(e, s, v.y, 8), Palette256(e, s), col, s.mode)
    else At16(e, RowBase(e, s, v.y, 4), Palette16(e, s), col, s.mode)
  }

  predicate MaskAt(e: Env, s: Oam, v: Vars, k: int)
    requires e.Valid() && s.Valid()
  {
    WindowAt(e, e.mem.GpuMap(RowBase(e, s, v.y, if s.depth then 8 else 4)), s.depth, Column(v.x, v.xdir, k - v.sp.start))
  }

  /** A sprite shows at a column what its walk meets there. */
  lemma DotOfWalk(e: Env, s: Oam, k: nat)
    requires e.Valid() && s.Valid() && k < WIDTH && s.mode != 2
    ensures
      (var r := ComputeSpriteVars(e, s);
       PlainDot(e, s, k) == if r.Some? && r.value.sp.Has(k) then ColorAt(e, s, r.value, k) else None)
  {
    VarsAreExact(e, s, k);
    hide BmpBase, RowBase, BmpAt, At256, At16, ComputeSpriteVars;
  }

  lemma MaskOfWalk(e: Env, s: Oam, k: nat)
    requires e.Valid() && s.Valid() && k < WIDTH
    ensures
      (var r := ComputeSpriteVars(e, s);
       PlainWindow(e, s, k) <==> r.Some? && r.value.sp.Has(k) && MaskAt(e, s, r.value, k))
  {
    VarsAreExact(e, s, k);
    hide RowBase, WindowAt, ComputeSpriteVars;
  }

  /** An unrotated colour sprite. */
  method DrawPlain(e: Env, i: nat, s: Oam, line: array<Pixel>)
    requires e.Valid() && s.Valid() && line.Length == WIDTH && s.mode != 2
    modifies line
    ensures forall k :: 0 <= k < WIDTH ==> line[k] == Merge(old(line[k]), i, s.priority, PlainDot(e, s, k))
  {
    hide PlainDot, ComputeSpriteVars, BmpBase, RowBase, BmpAt, At256, At16;
    var r := ComputeSpriteVars(e, s);
    forall k | 0 <= k < WIDTH
      ensures PlainDot(e, s, k) == if r.Some? && r.value.sp.Has(k) then ColorAt(e, s, r.value, k) else None
    {
      DotOfWalk(e, s, k);
    }
    if r.None? { return; }
    var v := r.value;
    if s.mode == 3 {
      if s.palette == 0 { return; }
      RenderSpriteBmp(e, i, line, s.priority, v.sp, v.x, v.xdir, BmpBase(e, s, v.y), s.palette);
    } else if s.depth {
      RenderSprite256(e, i, line, s.priority, v.sp, v.x, v.xdir, RowBase(e, s, v.y, 8), Palette256(e, s), s.mode);
    } else {
      RenderSprite16(e, i, line, s.priority, v.sp, v.x, v.xdir, RowBase(e, s, v.y, 4), Palette16(e, s), s.mode);
    }
  }

  /** An unrotated window sprite. */
  method DrawWindow(e: Env, s: Oam, win: array<bool>)
    requires e.Valid() && s.Valid() && win.Length == WIDTH
    modifies win
    ensures forall k :: 0 <= k < WIDTH ==> win[k] == (old(win[k]) || PlainWindow(e, s, k))
  {
    hide PlainWindow, ComputeSpriteVars, RowBase, WindowAt;
    var r := ComputeSpriteVars(e, s);
    forall k | 0 <= k < WIDTH
      ensures PlainWindow(e, s, k) <==> r.Some? && r.value.sp.Has(k) && MaskAt(e, s, r.value, k)
    {
      MaskOfWalk(e, s, k);
    }
    if r.None? { return; }
    var v := r.value;
    var src := e.mem.GpuMap(RowBase(e, s, v.y, if s.depth then 8 else 4));
    RenderSpriteWin(e, win, src, s.depth, v.sp, v.x, v.xdir);
  }

  /** The texture position at the first visible column of a rotated sprite. */
  function StartX(s: Oam, a: Affine, y: int, first: int): int {
    s.SizeX() * 128 - FieldX(s) / 2 * a.dx - FieldY(s) / 2 * a.dmx + y * a.dmx + first * a.dx
  }

  function StartY(s: Oam, a: Affine, y: int, first: int): int {
    s.SizeY() * 128 - FieldX(s) / 2 * a.dy - FieldY(s) / 2 * a.dmy + y * a.dmy + first * a.dy
  }

  /** Clipping `first` columns and walking j more is the affine map at column first + j. */
  lemma AlongTheLine(s: Oam, a: Affine, y: int, first: int, j: int)
    ensures Along(StartX(s, a, y, first), j, a.dx) == TextureX(s, a, first + j, y)
    ensures Along(StartY(s, a, y, first), j, a.dy) == TextureY(s, a, first + j, y)
  {
    Distribute(s.SizeX() * 128, FieldX(s) / 2, FieldY(s) / 2, a.dx, a.dmx, first, j, y);
    Distribute(s.SizeY() * 128, FieldX(s) / 2, FieldY(s) / 2, a.dy, a.dmy, first, j, y);
  }

  lemma Distribute(c: int, hx: int, hy: int, d: int, dm: int, u0: int, j: int, y: int)
    ensures c - hx * d - hy * dm + y * dm + u0 * d + j * d == c + (u0 + j - hx) * d + (y - hy) * dm
  {
  }

  /** What the walk set up for a rotated sprite meets at screen column k. */
  function Walked(e: Env, s: Oam, a: Affine, sp: Span, realX: int, realY: int, k: nat): Option<Dot>
    requires e.Valid() && s.Valid()
  {
    RotTexel(e, s, Along(realX, k - sp.start, a.dx) / 256, Along(realY, k - sp.start, a.dy) / 256)
  }

  /** The walk meets exactly the visible columns, each at its place under the affine map. */
  lemma RotatedColumn(e: Env, oam: seq<Oam>, s: Oam, k: nat)
    requires e.Valid() && s.Valid() && |oam| == 128 && k < WIDTH
    requires LineIn(e, s) < FieldY(s) && s.x + FieldX(s) > 0
    ensures
      (var a, sp := AffineOf(oam, s), Clip(s.x, FieldX(s));
       var y := LineIn(e, s);
       RotDot(e, oam, s, k) == if sp.Has(k) then Walked(e, s, a, sp, StartX(s, a, y, sp.first), StartY(s, a, y, sp.first), k) else None)
  {
    var a, sp := AffineOf(oam, s), Clip(s.x, FieldX(s));
    ClipIsExact(s.x, FieldX(s), k);
    AlongTheLine(s, a, LineIn(e, s), sp.first, k - sp.start);
  }

  /** Moving a start by the clipped columns of a sprite that begins left of the screen. */
  lemma ClippedStart(s: Oam, a: Affine, y: int)
    requires s.Valid() && s.x + FieldX(s) > 0
    ensures StartX(s, a, y, Clip(s.x, FieldX(s)).first) == StartX(s, a, y, 0) - (if s.x < 0 then s.x * a.dx else 0)
    ensures StartY(s, a, y, Clip(s.x, FieldX(s)).first) == StartY(s, a, y, 0) - (if s.x < 0 then s.x * a.dy else 0)
  {
  }

  /** A rotated sprite, drawing or marking the window. */
  method DrawRotated(e: Env, oam: seq<Oam>, i: nat, s: Oam, line: array<Pixel>, win: array<bool>)
    requires e.Valid() && s.Valid() && |oam| == 128 && line.Length == WIDTH && win.Length == WIDTH
    modifies line, win
    ensures forall k :: 0 <= k < WIDTH ==>
              line[k] == if OnlyWindow(s) then old(line[k]) else Merge(old(line[k]), i, s.priority, RotDot(e, oam, s, k))
    ensures forall k :: 0 <= k < WIDTH ==>
              win[k] == (old(win[k]) || (OnlyWindow(s) && s.priority < old(line[k]).prio && RotDot(e, oam, s, k).Some?))
  {
    var y := LineIn(e, s);
    if y >= FieldY(s) { return; }
    if s.x + FieldX(s) <= 0 { return; }
    var a := AffineOf(oam, s);
    var realX, realY := StartX(s, a, y, 0), StartY(s, a, y, 0);
    ClippedStart(s, a, y);
    if s.x < 0 {
      realX, realY := realX - s.x * a.dx, realY - s.x * a.dy;
    }
    var sp := Clip(s.x, FieldX(s));
    forall k | 0 <= k < WIDTH
      ensures RotDot(e, oam, s, k) == if sp.Has(k) then Walked(e, s, a, sp, realX, realY, k) else None
    {
      RotatedColumn(e, oam, s, k);
    }
    if !s.depth && s.mode == 3 && s.palette == 0 { return; }
    RenderRotated(line, win, OnlyWindow(s), i, s.priority, sp, realX, realY, a.dx, a.dy, (tx, ty) => RotTexel(e, s, tx, ty));
  }

  // ----- The whole line -----

  /** _SpriteRenderPerform: every column of the line ends with the layered result of all 128
      entries, and the object window with the marks of the window sprites. */
  method SpriteRenderPerform(e: Env, oam: seq<Oam>, line: array<Pixel>, win: array<bool>)
    requires Scene(e, oam) && line.Length == WIDTH && win.Length == WIDTH
    modifies line, win
    ensures forall k :: 0 <= k < WIDTH ==> line[k] == Layered(e, oam, 128, k, old(line[k]))
    ensures forall k :: 0 <= k < WIDTH ==> win[k] == Masked(e, oam, 128, k, old(line[k]), old(win[k]))
  {
    for i := 0 to 128
      invariant forall k :: 0 <= k < WIDTH ==> line[k] == Layered(e, oam, i, k, old(line[k]))
      invariant forall k :: 0 <= k < WIDTH ==> win[k] == Masked(e, oam, i, k, old(line[k]), old(win[k]))
    {
      DrawSprite(e, oam, i, line, win);
    }
  }

  method DrawSprite(e: Env, oam: seq<Oam>, i: nat, line: array<Pixel>, win: array<bool>)
    requires Scene(e, oam) && i < 128 && line.Length == WIDTH && win.Length == WIDTH
    modifies line, win
    ensures forall k :: 0 <= k < WIDTH ==> line[k] == Merge(old(line[k]), i, oam[i].priority, SpriteDot(e, oam, i, k))
    ensures forall k :: 0 <= k < WIDTH ==> win[k] == (old(win[k]) || Marks(e, oam, i, k, old(line[k])))
  {
    var s := oam[i];
    if s.rotScale == 2 { return; }
    if s.rotScale % 2 == 1 {
      DrawRotated(e, oam, i, s, line, win);
    } else if s.mode == 2 {
      DrawWindow(e, s, win);
    } else {
      DrawPlain(e, i, s, line);
    }
  }
}
