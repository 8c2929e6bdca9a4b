/** What each OBJ shows on a scanline, pixel by pixel. */
module SpriteSpec {
  import opened Types
  import opened Arith
  import opened GpuMemory

  const WIDTH := 256

  /** OAMAttributes; `x` is the signed 9-bit position and attr3 the affine parameter that
      shares the entry. */
  datatype Oam = Oam(y: u8, rotScale: nat, mode: nat, depth: bool, shape: nat,
                     x: int, rotIndex: nat, hFlip: bool, vFlip: bool, size: nat,
                     tile: nat, priority: nat, palette: nat, attr3: int) {
    predicate Valid() {
      && rotScale < 4 && mode < 4 && shape < 4 && size < 4 && -256 <= x < 256
      && rotIndex < 8 && tile < 1024 && priority < 4 && palette < 16 && -0x8000 <= attr3 < 0x8000
    }

    /** _sprSizeTab */
    function SizeX(): (r: nat)
      ensures r == 8 || r == 16 || r == 32 || r == 64
    {
      if shape == 0 then Square() else if shape == 1 then Long() else if shape == 2 then Short() else 8
    }

    function SizeY(): (r: nat)
      ensures r == 8 || r == 16 || r == 32 || r == 64
    {
      if shape == 0 then Square() else if shape == 1 then Short() else if shape == 2 then Long() else 8
    }

    function Square(): nat { if size == 0 then 8 else if size == 1 then 16 else if size == 2 then 32 else 64 }
    function Long(): nat { if size == 0 then 16 else if size == 3 then 64 else 32 }
    function Short(): nat { if size == 2 then 16 else if size == 3 then 32 else 8 }
  }

  datatype Env = Env(mem: Memory, sprMem: nat, boundary: nat, bmpBoundary: nat, twoD: bool,
                     extPalette: bool, bmpMapping: bool, bmp2D: bool, pal: seq<u16>, ext: seq<u16>, line: nat) {
    predicate Valid() {
      && mem.Valid() && 5 <= boundary <= 8 && 7 <= bmpBoundary <= 8
      && |pal| == 256 && |ext| == 4096 && line < 192
    }
  }

  /** A colour a sprite contributes: its value, blend alpha and type, and whether the sprite
      enters its number for later effects, which only some of the loops do. */
  datatype Dot = Dot(color: u16, alpha: nat, kind: nat, numbered: bool)

  function Palette256(e: Env, s: Oam): (p: seq<u16>)
    requires e.Valid() && s.Valid()
    ensures |p| == 256
  {
    if e.extPalette then e.ext[256 * s.palette..256 * s.palette + 256] else e.pal
  }

  function Palette16(e: Env, s: Oam): (p: seq<u16>)
    requires e.Valid() && s.Valid()
    ensures |p| == 16
  {
    e.pal[16 * s.palette..16 * s.palette + 16]
  }

  function Nibble(b: u8, col: nat): (r: u8)
    ensures r < 16
  {
    if col % 2 == 1 then b / 16 else b % 16
  }

  // ----- Unrotated sprites -----

  /** Sprite row shown on the current line, before flipping. */
  function LineIn(e: Env, s: Oam): nat { (e.line - s.y) % 256 }

  function RowOf(e: Env, s: Oam): int {
    if s.vFlip then s.SizeY() - LineIn(e, s) - 1 else LineIn(e, s)
  }

  /** First byte of a sprite row of tiles, for a given row length in bytes per tile. */
  function RowBase(e: Env, s: Oam, row: nat, tileRow: nat): nat {
    if e.twoD then e.sprMem + s.tile * 32 + row / 8 * 1024 + row % 8 * tileRow
    else e.sprMem + s.tile * Pow2(e.boundary) + row / 8 * s.SizeX() * tileRow + row % 8 * tileRow
  }

  /** _SpriteAddressBMP */
  function BmpBase(e: Env, s: Oam, row: nat): nat {
    if e.bmpMapping then e.sprMem + s.tile * Pow2(e.bmpBoundary) + row * s.SizeX() * 2
    else if e.bmp2D then e.sprMem + (s.tile / 32 * 32 * 64 + s.tile % 32 * 8 + row * 256) * 2
    else e.sprMem + (s.tile / 16 * 16 * 64 + s.tile % 16 * 8 + row * 128) * 2
  }

  function Opaque(color: u16): bool { color >= 0x8000 }

  /** A direct colour, 256 colours and 16 colours at a column of a picture row, if not
      transparent. */
  function BmpAt(e: Env, srcadr: nat, col: int, alpha: nat): Option<Dot>
    requires e.Valid()
  {
    if col < 0 then None
    else
      var color := e.mem.Half(srcadr + col * 2);
      if Opaque(color) then Some(Dot(color, alpha + 1, 3, true)) else None
  }

  function At256(e: Env, srcadr: nat, pal: seq<u16>, col: int, kind: nat): Option<Dot>
    requires e.Valid() && |pal| == 256
  {
    if col < 0 then None
    else
      var index := e.mem.Byte(srcadr + col % 8 + col / 8 * 64);
      if index > 0 then Some(Dot(pal[index], 255, kind, true)) else None
  }

  function At16(e: Env, srcadr: nat, pal: seq<u16>, col: int, kind: nat): Option<Dot>
    requires e.Valid() && |pal| == 16
  {
    if col < 0 then None
    else
      var b := col / 2;
      var index := Nibble(e.mem.Byte(srcadr + b % 4 + b / 4 * 32), col);
      if index > 0 then Some(Dot(pal[index], 255, kind, false)) else None
  }

  /** The colour at a column and row of the sprite's own picture, if it is not transparent. */
  function PlainTexel(e: Env, s: Oam, row: nat, col: nat): Option<Dot>
    requires e.Valid() && s.Valid() && s.mode != 2
  {
    if s.mode == 3 then (if s.palette != 0 then BmpAt(e, BmpBase(e, s, row), col, s.palette) else None)
    else if s.depth then At256(e, RowBase(e, s, row, 8), Palette256(e, s), col, s.mode)
    else At16(e, RowBase(e, s, row, 4), Palette16(e, s), col, s.mode)
  }

  /** What an unrotated colour sprite shows at screen column k. */
  function PlainDot(e: Env, s: Oam, k: nat): Option<Dot>
    requires e.Valid() && s.Valid() && s.mode != 2
  {
    var u := k - s.x;
    if LineIn(e, s) < s.SizeY() && 0 <= u < s.SizeX() then
      PlainTexel(e, s, RowOf(e, s), if s.hFlip then s.SizeX() - 1 - u else u)
    else None
  }

  /** A byte reached by indexing from one mapped pointer. */
  function ByteFrom(e: Env, base: nat, offset: nat): u8
    requires e.Valid() && offset < 0x8000
  {
    e.mem.host[e.mem.GpuMap(base) + offset]
  }

  /** Whether a window sprite is set at a column of a picture row read through one pointer. */
  predicate WindowAt(e: Env, src: nat, col256: bool, col: int)
    requires e.Valid() && src < LCD_SIZE + PAGE_SIZE
  {
    0 <= col < 64 &&
    if col256 then e.mem.host[src + col % 8 + col / 8 * 64] > 0
    else Nibble(e.mem.host[src + col / 2 % 4 + col / 8 * 32], col) > 0
  }

  predicate WindowTexel(e: Env, s: Oam, row: nat, col: nat)
    requires e.Valid() && s.Valid()
  {
    WindowAt(e, e.mem.GpuMap(RowBase(e, s, row, if s.depth then 8 else 4)), s.depth, col)
  }

  predicate PlainWindow(e: Env, s: Oam, k: nat)
    requires e.Valid() && s.Valid()
  {
    var u := k - s.x;
    && LineIn(e, s) < s.SizeY() && 0 <= u < s.SizeX()
    && WindowTexel(e, s, RowOf(e, s), if s.hFlip then s.SizeX() - 1 - u else u)
  }

  // ----- Rotated and scaled sprites -----

  /** The affine parameters (dx, dmx, dy, dmy) of a sprite. */
  datatype Affine = Affine(dx: int, dmx: int, dy: int, dmy: int)

  function AffineOf(oam: seq<Oam>, s: Oam): Affine
    requires |oam| == 128 && s.Valid()
  {
    var block := (s.rotIndex + (if s.hFlip then 8 else 0) + (if s.vFlip then 16 else 0)) * 4;
    Affine(oam[block].attr3, oam[block + 1].attr3, oam[block + 2].attr3, oam[block + 3].attr3)
  }

  function FieldX(s: Oam): nat { if s.rotScale >= 2 then 2 * s.SizeX() else s.SizeX() }
  function FieldY(s: Oam): nat { if s.rotScale >= 2 then 2 * s.SizeY() else s.SizeY() }

  /** The picture position, in 8-bit fixed point, of field position (u, v): the affine map
      takes the middle of the field to the middle of the picture. */
  function TextureX(s: Oam, a: Affine, u: int, v: int): int {
    s.SizeX() * 128 + (u - FieldX(s) / 2) * a.dx + (v - FieldY(s) / 2) * a.dmx
  }

  function TextureY(s: Oam, a: Affine, u: int, v: int): int {
    s.SizeY() * 128 + (u - FieldX(s) / 2) * a.dy + (v - FieldY(s) / 2) * a.dmy
  }

  /** Where the picture of a rotated tiled sprite starts, and the position of picture byte
      (tx, ty) behind it. */
  function RotBase(e: Env, s: Oam): nat {
    e.sprMem + s.tile * (if e.twoD && !s.depth then 32 else Pow2(e.boundary))
  }

  function RotOffset(e: Env, s: Oam, tx: nat, ty: nat): (r: nat)
    requires tx < 64 && ty < 64
    ensures r < 0x8000
  {
    if s.depth then tx % 8 + tx / 8 * 64 + (if e.twoD then ty / 8 * 1024 else ty / 8 * (s.SizeX() * 8)) + ty % 8 * 8
    else tx / 2 % 4 + tx / 8 * 32 + (if e.twoD then ty / 8 * 1024 else ty / 8 * (s.SizeX() * 4)) + ty % 8 * 4
  }

  function Rot256(e: Env, s: Oam, tx: nat, ty: nat): Option<Dot>
    requires e.Valid() && s.Valid() && tx < 64 && ty < 64
  {
    var index := ByteFrom(e, RotBase(e, s), RotOffset(e, s, tx, ty));
    if index > 0 then Some(Dot(Palette256(e, s)[index], 255, s.mode, false)) else None
  }

  function RotBmp(e: Env, s: Oam, tx: nat, ty: nat): Option<Dot>
    requires e.Valid() && s.Valid()
  {
    var offset := if e.bmp2D then (BmpBase(e, s, ty) - BmpBase(e, s, 0)) / 2 + tx else tx + ty * s.SizeX();
    var color := e.mem.Half(BmpBase(e, s, 0) + offset * 2);
    if s.palette != 0 && Opaque(color) then Some(Dot(color, s.palette, 3, false)) else None
  }

  function Rot16(e: Env, s: Oam, tx: nat, ty: nat): Option<Dot>
    requires e.Valid() && s.Valid() && tx < 64 && ty < 64
  {
    var index := Nibble(ByteFrom(e, RotBase(e, s), RotOffset(e, s, tx, ty)), tx);
    if index > 0 then Some(Dot(Palette16(e, s)[index], 255, s.mode, false)) else None
  }

  /** The picture byte at (tx, ty), fetched through the pointer to the start of the picture, is
      the one at its video address iff the pages of the picture up to it lie in a row. */
  lemma RotatedPictureIff(e: Env, s: Oam, tx: nat, ty: nat)
    requires e.Valid() && s.Valid() && tx < s.SizeX() && ty < s.SizeY()
    ensures var base, d := RotBase(e, s), RotOffset(e, s, tx, ty);
      && (e.mem.GpuMap(base) + d == e.mem.GpuMap(base + d) <==> InARow(e.mem, base, d))
      && (InARow(e.mem, base, d) ==> ByteFrom(e, base, d) == e.mem.Byte(base + d))
  {
    hide RotOffset, RotBase;
    e.mem.PointerReachIff(RotBase(e, s), RotOffset(e, s, tx, ty));
  }

  /** The video page d bytes on is as many LCDC pages on. */
  predicate InARow(m: Memory, base: nat, d: nat)
    requires m.Valid()
  {
    m.pages[(base + d) / PAGE_SIZE % 512] == m.pages[base / PAGE_SIZE % 512] + (base % PAGE_SIZE + d) / PAGE_SIZE
  }

  /** The same for a window sprite's row, read from the pointer to its start. */
  lemma WindowRowIff(e: Env, s: Oam, row: nat, col: nat)
    requires e.Valid() && s.Valid() && col < s.SizeX()
    ensures var base := RowBase(e, s, row, if s.depth then 8 else 4);
      var d := if s.depth then col % 8 + col / 8 * 64 else col / 2 % 4 + col / 8 * 32;
      && (e.mem.GpuMap(base) + d == e.mem.GpuMap(base + d) <==> InARow(e.mem, base, d))
      && (InARow(e.mem, base, d) ==>
            (WindowTexel(e, s, row, col) <==>
               (if s.depth then e.mem.Byte(base + d) else Nibble(e.mem.Byte(base + d), col)) > 0))
  {
    hide RowBase;
    e.mem.PointerReachIff(RowBase(e, s, row, if s.depth then 8 else 4),
                          if s.depth then col % 8 + col / 8 * 64 else col / 2 % 4 + col / 8 * 32);
  }

  /** The colour at picture position (tx, ty) of a rotated sprite, if that lies in the picture.
      In 16-colour window mode it only says that the pixel is set. */
  function RotTexel(e: Env, s: Oam, tx: int, ty: int): Option<Dot>
    requires e.Valid() && s.Valid()
  {
    if !(0 <= tx < s.SizeX() && 0 <= ty < s.SizeY()) then None
    else if s.depth then Rot256(e, s, tx, ty)
    else if s.mode == 3 then RotBmp(e, s, tx, ty)
    else Rot16(e, s, tx, ty)
  }

  function RotDot(e: Env, oam: seq<Oam>, s: Oam, k: nat): Option<Dot>
    requires e.Valid() && s.Valid() && |oam| == 128
  {
    var a := AffineOf(oam, s);
    var u, v := k - s.x, LineIn(e, s);
    if v < FieldY(s) && 0 <= u < FieldX(s) then
      RotTexel(e, s, TextureX(s, a, u, v) / 256, TextureY(s, a, u, v) / 256)
    else None
  }

  // ----- The sprites together -----

  predicate Scene(e: Env, oam: seq<Oam>) {
    e.Valid() && |oam| == 128 && forall i :: 0 <= i < 128 ==> oam[i].Valid()
  }

  /** A sprite that only marks the object window instead of drawing: window mode, except that
      rotated 256-colour sprites are drawn regardless. */
  predicate OnlyWindow(s: Oam) {
    s.mode == 2 && !(s.rotScale % 2 == 1 && s.depth)
  }

  /** The colour sprite i puts at column k. */
  function SpriteDot(e: Env, oam: seq<Oam>, i: nat, k: nat): Option<Dot>
    requires Scene(e, oam) && i < 128
  {
    var s := oam[i];
    if s.rotScale == 2 || OnlyWindow(s) then None
    else if s.rotScale % 2 == 1 then RotDot(e, oam, s, k)
    else PlainDot(e, s, k)
  }

  /** Window sprite i is set at column k. */
  predicate WindowDot(e: Env, oam: seq<Oam>, i: nat, k: nat)
    requires Scene(e, oam) && i < 128
  {
    var s := oam[i];
    && s.rotScale != 2 && OnlyWindow(s)
    && if s.rotScale % 2 == 1 then RotDot(e, oam, s, k).Some? else PlainWindow(e, s, k)
  }

  /** One entry of the sprite line buffers; prio is 0xFF where nothing was drawn, and num the
      sprite number entered last. */
  datatype Pixel = Pixel(color: u16, alpha: nat, kind: nat, prio: nat, num: nat)

  function Merge(p: Pixel, i: nat, prio: nat, d: Option<Dot>): Pixel {
    if d.Some? && prio < p.prio then
      Pixel(d.value.color, d.value.alpha, d.value.kind, prio, if d.value.numbered then i else p.num)
    else p
  }

  /** Column k after the first n sprites. */
  function Layered(e: Env, oam: seq<Oam>, n: nat, k: nat, blank: Pixel): Pixel
    requires Scene(e, oam) && n <= 128
  {
    if n == 0 then blank
    else Merge(Layered(e, oam, n - 1, k, blank), n - 1, oam[n - 1].priority, SpriteDot(e, oam, n - 1, k))
  }

  /** Sprite i marks column k of the window, given the pixel the earlier sprites left there: a
      rotated window sprite is subject to priority, an unrotated one is not. */
  predicate Marks(e: Env, oam: seq<Oam>, i: nat, k: nat, below: Pixel)
    requires Scene(e, oam) && i < 128
  {
    WindowDot(e, oam, i, k) && (oam[i].rotScale % 2 == 1 ==> oam[i].priority < below.prio)
  }

  /** Column k of the object window after the first n sprites. */
  predicate Masked(e: Env, oam: seq<Oam>, n: nat, k: nat, blank: Pixel, was: bool)
    requires Scene(e, oam) && n <= 128
  {
    if n == 0 then was
    else Masked(e, oam, n - 1, k, blank, was) || Marks(e, oam, n - 1, k, Layered(e, oam, n - 1, k, blank))
  }

  /** Sprite i comes before sprite j in (priority, index) order. */
  predicate Before(oam: seq<Oam>, i: nat, j: nat)
    requires i < |oam| && j < |oam|
  {
    oam[i].priority < oam[j].priority || (oam[i].priority == oam[j].priority && i <= j)
  }

  /** The line shows, at each column, the drawing sprite that comes first by priority and then
      by OAM index, and the backdrop where no sprite draws. */
  lemma {:induction false} FirstSpriteWins(e: Env, oam: seq<Oam>, n: nat, k: nat, blank: Pixel) returns (w: int)
    requires Scene(e, oam) && n <= 128 && blank.prio == 0xFF
    ensures -1 <= w < n
    ensures w < 0 ==> Layered(e, oam, n, k, blank) == blank
                      && forall i :: 0 <= i < n ==> SpriteDot(e, oam, i, k).None?
    ensures w >= 0 ==>
      var d := SpriteDot(e, oam, w, k);
      && d.Some?
      && Layered(e, oam, n, k, blank)
           == Pixel(d.value.color, d.value.alpha, d.value.kind, oam[w].priority, Layered(e, oam, n, k, blank).num)
      && forall i :: 0 <= i < n && SpriteDot(e, oam, i, k).Some? ==> Before(oam, w, i)
  {
    hide SpriteDot;
    if n == 0 {
      w := -1;
    } else {
      w := FirstSpriteWins(e, oam, n - 1, k, blank);
      if SpriteDot(e, oam, n - 1, k).Some? && oam[n - 1].priority < Layered(e, oam, n - 1, k, blank).prio {
        w := n - 1;
      }
    }
  }

  // ----- The sprite number -----

  /** An unrotated sprite of direct colours or of 256 colours: its loop enters its number. */
  predicate EntersNumber(s: Oam) { s.rotScale % 2 == 0 && (s.mode == 3 || s.depth) }

  lemma NumberedIff(e: Env, oam: seq<Oam>, j: nat, k: nat)
    requires Scene(e, oam) && j < 128 && SpriteDot(e, oam, j, k).Some?
    ensures SpriteDot(e, oam, j, k).value.numbered <==> EntersNumber(oam[j])
  {
  }

  /** Sprite j enters its number at column k: it draws there nearer than every sprite before it,
      and is of a kind that does. */
  predicate Enters(e: Env, oam: seq<Oam>, j: nat, k: nat)
    requires Scene(e, oam) && j < 128
  {
    && SpriteDot(e, oam, j, k).Some? && EntersNumber(oam[j])
    && forall i :: 0 <= i < j && SpriteDot(e, oam, i, k).Some? ==> oam[j].priority < oam[i].priority
  }

  /** The last number the first n sprites enter, or the one there was. */
  function LastEntered(e: Env, oam: seq<Oam>, n: nat, k: nat, was: nat): (r: nat)
    requires Scene(e, oam) && n <= 128
    ensures r < n || (r == was && forall j :: 0 <= j < n ==> !Enters(e, oam, j, k))
  {
    if n == 0 then was
    else if Enters(e, oam, n - 1, k) then n - 1
    else LastEntered(e, oam, n - 1, k, was)
  }

  lemma {:induction false} NumberIsLastEntered(e: Env, oam: seq<Oam>, n: nat, k: nat, blank: Pixel)
    requires Scene(e, oam) && n <= 128 && blank.prio == 0xFF
    ensures Layered(e, oam, n, k, blank).num == LastEntered(e, oam, n, k, blank.num)
  {
    hide SpriteDot, EntersNumber;
    if n > 0 {
      NumberIsLastEntered(e, oam, n - 1, k, blank);
      var w := FirstSpriteWins(e, oam, n - 1, k, blank);
      if SpriteDot(e, oam, n - 1, k).Some? { NumberedIff(e, oam, n - 1, k); }
    }
  }

  lemma {:induction false} LastEnteredIff(e: Env, oam: seq<Oam>, n: nat, k: nat, was: nat, w: nat)
    requires Scene(e, oam) && w < n <= 128 && forall i :: w < i < n ==> !Enters(e, oam, i, k)
    ensures LastEntered(e, oam, n, k, was) == w <==>
            Enters(e, oam, w, k) || (was == w && forall j :: 0 <= j < w ==> !Enters(e, oam, j, k))
  {
    hide Enters;
    if w < n - 1 {
      LastEnteredIff(e, oam, n - 1, k, was, w);
    } else if was == w {
      EnteredBelow(e, oam, w, k, was);
    }
  }

  lemma {:induction false} EnteredBelow(e: Env, oam: seq<Oam>, n: nat, k: nat, was: nat)
    requires Scene(e, oam) && n <= 128 && was >= n
    ensures LastEntered(e, oam, n, k, was) == was <==> forall j :: 0 <= j < n ==> !Enters(e, oam, j, k)
  {
    hide Enters;
    if n > 0 {
      EnteredBelow(e, oam, n - 1, k, was);
    }
  }

  /** The number kept at a column is that of the sprite w shown there iff w is of a kind that
      enters it, or it was there before the line and no sprite before w has entered another. */
  lemma NumberIsRightIff(e: Env, oam: seq<Oam>, n: nat, k: nat, blank: Pixel) returns (w: int)
    requires Scene(e, oam) && n <= 128 && blank.prio == 0xFF
    ensures -1 <= w < n
    ensures w < 0 ==> forall i :: 0 <= i < n ==> SpriteDot(e, oam, i, k).None?
    ensures w >= 0 ==>
      && SpriteDot(e, oam, w, k).Some?
      && (forall i :: 0 <= i < n && SpriteDot(e, oam, i, k).Some? ==> Before(oam, w, i))
      && (Layered(e, oam, n, k, blank).num == w <==>
            EntersNumber(oam[w]) || (blank.num == w && forall j :: 0 <= j < w ==> !Enters(e, oam, j, k)))
  {
    hide SpriteDot, EntersNumber;
    w := FirstSpriteWins(e, oam, n, k, blank);
    NumberIsLastEntered(e, oam, n, k, blank);
    if w >= 0 {
      assert Enters(e, oam, w, k) <==> EntersNumber(oam[w]);
      assert forall i :: w < i < n ==> !Enters(e, oam, i, k);
      LastEnteredIff(e, oam, n, k, blank.num, w);
    }
  }

  /** A scene with every byte of video memory set: a 256-colour sprite at the left edge below a
      nearer 16-colour one, and no others. */
  function StaleEnv(): (e: Env)
    ensures e.Valid()
  {
    Env(Memory(seq(LCD_SIZE + BLANK_SIZE, i => 0x11), seq(512, i => 0)), 0x40_0000, 5, 7, true, false, false, false,
        seq(256, i => 0), seq(4096, i => 0), 0)
  }

  function StaleOam(): (oam: seq<Oam>)
    ensures |oam| == 128 && forall i :: 0 <= i < 128 ==> oam[i].Valid()
  {
    seq(128, i => Oam(0, if i < 2 then 0 else 2, 0, i == 0, 0, 0, 0, false, false, 0, 0, if i == 0 then 1 else 0, 0, 0))
  }

  /** Column 0 shows sprite 1 with the number of sprite 0, whatever number was there. */
  lemma NumberGoesStale(blank: Pixel)
    requires blank.prio == 0xFF
    ensures Layered(StaleEnv(), StaleOam(), 128, 0, blank) == Pixel(0, 255, 0, 0, 0)
  {
    var e, oam := StaleEnv(), StaleOam();
    StaleDot(0);
    StaleDot(1);
    hide SpriteDot;
    var p0 := Layered(e, oam, 0, 0, blank);
    assert Layered(e, oam, 1, 0, blank) == Merge(p0, 0, 1, SpriteDot(e, oam, 0, 0)) == Pixel(0, 255, 0, 1, 0);
    assert Layered(e, oam, 2, 0, blank) == Pixel(0, 255, 0, 0, 0);
    NothingBehind(128, blank);
  }

  lemma EveryByte(a: nat)
    ensures StaleEnv().mem.Byte(a) == 0x11
  {
  }

  /** What a small plain sprite in the corner shows over memory that is set throughout. */
  lemma CornerDot(e: Env, s: Oam)
    requires e.Valid() && s.Valid() && e.line == 0 && !e.extPalette
    requires forall a: nat :: e.mem.Byte(a) == 0x11
    requires forall i :: 0 <= i < 256 ==> e.pal[i] == 0
    requires s == Oam(0, 0, 0, s.depth, 0, 0, 0, false, false, 0, 0, s.priority, 0, 0)
    ensures PlainDot(e, s, 0) == Some(Dot(0, 255, 0, s.depth))
  {
    hide Memory.Byte, RowBase, BmpBase;
    assert LineIn(e, s) == 0 && RowOf(e, s) == 0;
    if s.depth {
      var a := RowBase(e, s, 0, 8);
      assert e.mem.Byte(a + 0 % 8 + 0 / 8 * 64) == 0x11;
    } else {
      var a := RowBase(e, s, 0, 4);
      assert e.mem.Byte(a + 0 % 4 + 0 / 4 * 32) == 0x11;
    }
  }

  lemma StaleDot(i: nat)
    requires i < 128
    ensures SpriteDot(StaleEnv(), StaleOam(), i, 0) == if i < 2 then Some(Dot(0, 255, 0, i == 0)) else None
  {
    var e, s := StaleEnv(), StaleOam()[i];
    assert s.rotScale == if i < 2 then 0 else 2;
    if i < 2 {
      forall a: nat ensures e.mem.Byte(a) == 0x11 { EveryByte(a); }
      hide Memory.Byte, PlainDot, RotDot;
      CornerDot(e, s);
    }
  }

  lemma {:induction false} NothingBehind(n: nat, blank: Pixel)
    requires 2 <= n <= 128
    ensures Layered(StaleEnv(), StaleOam(), n, 0, blank) == Layered(StaleEnv(), StaleOam(), 2, 0, blank)
  {
    if n > 2 {
      NothingBehind(n - 1, blank);
      StaleDot(n - 1);
      hide SpriteDot;
    }
  }

  /** Sprite i marks the window at column k regardless of how the line looks when it is
      unrotated; when rotated, exactly if every earlier sprite drawing there has a higher
      priority number. */
  predicate MarksFreely(e: Env, oam: seq<Oam>, i: nat, k: nat)
    requires Scene(e, oam) && i < 128
  {
    && WindowDot(e, oam, i, k)
    && (oam[i].rotScale % 2 == 1 ==>
          forall j :: 0 <= j < i && SpriteDot(e, oam, j, k).Some? ==> oam[i].priority < oam[j].priority)
  }

  lemma MarksIff(e: Env, oam: seq<Oam>, i: nat, k: nat, blank: Pixel)
    requires Scene(e, oam) && i < 128 && blank.prio == 0xFF
    ensures Marks(e, oam, i, k, Layered(e, oam, i, k, blank)) <==> MarksFreely(e, oam, i, k)
  {
    var w := FirstSpriteWins(e, oam, i, k, blank);
  }

  /** The object window is set at a column exactly where some window sprite marks it. */
  lemma {:induction false} WindowIff(e: Env, oam: seq<Oam>, n: nat, k: nat, blank: Pixel)
    requires Scene(e, oam) && n <= 128 && blank.prio == 0xFF
    ensures Masked(e, oam, n, k, blank, false) <==> exists i :: 0 <= i < n && MarksFreely(e, oam, i, k)
  {
    if n > 0 {
      WindowIff(e, oam, n - 1, k, blank);
      MarksIff(e, oam, n - 1, k, blank);
    }
  }
}
