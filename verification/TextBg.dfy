/** The text background renderer: one scanline drawn a tile at a time, against the
    per-pixel definition of a text background. */
module TextBg {
  import opened Types
  import opened Arith
  import opened GpuMemory

  /** TILEENTRY: ten bits of tile number, two flips, four bits of palette. */
  datatype TileEntry = TileEntry(tileNum: nat, hFlip: bool, vFlip: bool, palette: nat)

  function Decode(v: u16): (e: TileEntry)
    ensures e.tileNum < 1024 && e.palette < 16
  {
    TileEntry(v % 1024, v / 1024 % 2 == 1, v / 2048 % 2 == 1, v / 4096)
  }

  datatype Layer = Layer(
    screenSize: nat,             // BGxCNT.ScreenSize
    palette256: bool,            // BGxCNT.Palette_256
    extPalette: bool,            // DISPCNT.ExBGxPalette_Enable
    mapRam: u32,                    // _BG_map_ram
    tileRam: u32,                   // _BG_tile_ram
    pal: seq<u16>,               // standard palette
    extPal: Option<seq<u16>>)    // extended palette slot, None for a NULL slot
  {
    /** Bases are sums of 2 KB and 16 KB steps; palettes are whole. */
    predicate Valid() {
      && screenSize < 4
      && mapRam % 0x800 == 0 && tileRam % 0x4000 == 0
      && |pal| == 256
      && (extPal.Some? ==> |extPal.value| == 4096)
    }

    function Width(): int { if screenSize % 2 == 1 then 512 else 256 }
    function Height(): int { if screenSize >= 2 then 512 else 256 }
  }

  /** One call of __setFinalColorBck. */
  datatype PixelCall = PixelCall(x: nat, color: u16, visible: bool)

  // ----- The per-pixel definition -----

  /** A text background is a grid of 256x256 screens of 32x32 tiles; each screen's map
      takes 2 KB and screens follow each other row by row. */
  function EntryAddr(l: Layer, px: nat, py: nat): nat {
    var screen := px / 256 + (l.Width() / 256) * (py / 256);
    l.mapRam + 0x800 * screen + 64 * (py % 256 / 8) + 2 * (px % 256 / 8)
  }

  function EntryAt(l: Layer, m: Memory, px: nat, py: nat): TileEntry
    requires m.Valid()
  {
    Decode(m.Half(EntryAddr(l, px, py)))
  }

  function Flip(on: bool, c: nat): nat
    requires c < 8
  {
    if on then 7 - c else c
  }

  /** The palette index at column c, row r of the tile an entry names. */
  function Texel(l: Layer, m: Memory, e: TileEntry, c: nat, r: nat): (index: u8)
    requires m.Valid() && c < 8 && r < 8
    ensures !l.palette256 ==> index < 16
  {
    var cx, cy := Flip(e.hFlip, c), Flip(e.vFlip, r);
    if l.palette256 then
      m.Byte(l.tileRam + 64 * e.tileNum + 8 * cy + cx)
    else
      var b := m.Byte(l.tileRam + 32 * e.tileNum + 4 * cy + cx / 2);
      if cx % 2 == 0 then b % 16 else b / 16
  }

  function ColorOf(l: Layer, palette: nat, index: u8): u16
    requires l.Valid() && palette < 16
    requires !l.palette256 ==> index < 16
    requires l.palette256 && l.extPalette ==> l.extPal.Some?
  {
    if !l.palette256 then l.pal[16 * palette + index]
    else if l.extPalette then l.extPal.value[256 * palette + index]
    else l.pal[index]
  }

  predicate Drawable(l: Layer) {
    l.palette256 && l.extPalette ==> l.extPal.Some?
  }

  function Shade(l: Layer, e: TileEntry, index: u8, x: nat): PixelCall
    requires l.Valid() && Drawable(l) && e.palette < 16
    requires !l.palette256 ==> index < 16
  {
    PixelCall(x, ColorOf(l, e.palette, index), index != 0)
  }

  /** What screen column x shows: the pixel at ((xbg + x) mod width, ybg mod height). */
  function RefPixel(l: Layer, m: Memory, xbg: u16, ybg: u16, x: nat): PixelCall
    requires l.Valid() && m.Valid() && Drawable(l)
  {
    var px := (xbg + x) % l.Width();
    var py := ybg % l.Height();
    var e := EntryAt(l, m, px, py);
    Shade(l, e, Texel(l, m, e, px % 8, py % 8), x)
  }

  /** The first n columns of the line. */
  function RefLine(l: Layer, m: Memory, xbg: u16, ybg: u16, n: nat): seq<PixelCall>
    requires l.Valid() && m.Valid() && Drawable(l)
  {
    seq(n, x requires 0 <= x < n => RefPixel(l, m, xbg, ybg, x))
  }

  // ----- The renderer -----

  /** The map row the renderer works on (map after the yoffset computation). */
  function RowMap(l: Layer, ybg: u16): nat {
    var tmp := ybg % l.Height() / 8;
    l.mapRam + (tmp % 32) * 64 + (if tmp > 31 then 0x200 * Pow2(l.screenSize) else 0)
  }

  function MapInfo(l: Layer, rowMap: nat, xoff: u16): nat {
    var tmp := xoff % l.Width() / 8;
    rowMap + (tmp % 32) * 2 + (if tmp > 31 then 32 * 32 * 2 else 0)
  }

  /** Both map widths divide 65536, so the 16-bit scroll counter loses nothing. */
  lemma CounterWrap(w: nat, s: nat)
    requires w == 256 || w == 512
    ensures s % 0x1_0000 % w == s % w
  {
    var q, r := s / 0x1_0000, s % 0x1_0000;
    if w == 256 { assert s == 256 * (256 * q) + r; } else { assert s == 512 * (128 * q) + r; }
  }

  lemma Wrap256(s: nat, d: nat)
    requires s % 8 + d < 8
    ensures s % 256 % 8 == s % 8 && (s + d) % 256 == s % 256 + d
  {
    var q, r := s / 256, s % 256;
    AddMultiple(r, 32 * q, 8);
    assert r == 8 * (r / 8) + r % 8;
    Quotient(s + d, 256, q, r + d);
  }

  lemma Wrap512(s: nat, d: nat)
    requires s % 8 + d < 8
    ensures s % 512 % 8 == s % 8 && (s + d) % 512 == s % 512 + d
  {
    var q, r := s / 512, s % 512;
    AddMultiple(r, 64 * q, 8);
    assert r == 8 * (r / 8) + r % 8;
    Quotient(s + d, 512, q, r + d);
  }

  /** Columns of one tile stay together after wrapping to the map width. */
  lemma WrapInTile(w: nat, s: nat, d: nat)
    requires w == 256 || w == 512
    requires s % 8 + d < 8
    ensures s % w % 8 == s % 8
    ensures (s + d) % w == s % w + d
  {
    if w == 256 { Wrap256(s, d); } else { Wrap512(s, d); }
  }

  lemma SameTile(r: nat, d: nat)
    requires r < 512 && r % 8 + d < 8
    ensures (r + d) / 8 == r / 8 && (r + d) % 8 == r % 8 + d
    ensures (r + d) / 256 == r / 256
    ensures (r + d) % 256 / 8 == r % 256 / 8
  {
    var t := r / 8;
    assert r == 8 * t + r % 8;
    assert r < 256 ==> t < 32;
  }

  /** The four map layouts: a second row of screens follows 0x200 << screenSize bytes later. */
  lemma MapLayout(ss: nat, cx: nat, cy: nat)
    requires ss < 4 && cx < (if ss % 2 == 1 then 512 else 256) && cy < (if ss >= 2 then 512 else 256)
    ensures cy / 8 % 32 * 64 + (if cy / 8 > 31 then 0x200 * Pow2(ss) else 0)
            + cx / 8 % 32 * 2 + (if cx / 8 > 31 then 32 * 32 * 2 else 0)
         == 0x800 * (cx / 256 + (if ss % 2 == 1 then 2 else 1) * (cy / 256)) + 64 * (cy % 256 / 8) + 2 * (cx % 256 / 8)
  {
    assert Pow2(2) == 4 && Pow2(3) == 8;
    MapHalf(cx);
    MapHalf(cy);
  }

  lemma MapInfoIsEntryAddr(l: Layer, xbg: u16, ybg: u16, x: nat)
    requires l.Valid()
    ensures MapInfo(l, RowMap(l, ybg), (xbg + x) % 0x1_0000)
         == EntryAddr(l, (xbg + x) % l.Width(), ybg % l.Height())
  {
    CounterWrap(l.Width(), xbg + x);
    MapLayout(l.screenSize, (xbg + x) % l.Width(), ybg % l.Height());
  }

  lemma MapHalf(c: nat)
    requires c < 512
    ensures c / 8 % 32 == c % 256 / 8
    ensures c / 8 > 31 <==> c / 256 == 1
  {
  }

  /** Every column of a tile uses the entry fetched at the tile's first drawn column. */
  lemma TileEntryShared(l: Layer, m: Memory, xbg: u16, ybg: u16, x: nat, d: nat)
    requires l.Valid() && m.Valid() && (xbg + x) % 8 + d < 8
    ensures EntryAt(l, m, (xbg + x + d) % l.Width(), ybg % l.Height())
         == Decode(m.Half(MapInfo(l, RowMap(l, ybg), (xbg + x) % 0x1_0000)))
  {
    WrapInTile(l.Width(), xbg + x, d);
    SameTile((xbg + x) % l.Width(), d);
    MapInfoIsEntryAddr(l, xbg, ybg, x);
  }

  /** Host pointer to the row of the tile that an entry names. */
  function RowPtr(l: Layer, m: Memory, e: TileEntry, ybg: u16): nat
    requires m.Valid()
  {
    if l.palette256 then
      var yoff := ybg % 8 * 8;
      m.GpuMap(l.tileRam + e.tileNum * 0x40 + (if e.vFlip then 7 * 8 - yoff else yoff))
    else
      var yoff := ybg % 8 * 4;
      m.GpuMap(l.tileRam + e.tileNum * 0x20 + (if e.vFlip then 7 * 4 - yoff else yoff))
  }

  /** What the renderer reads at column c through a row pointer. */
  function RowTexel(l: Layer, m: Memory, e: TileEntry, row: nat, c: nat): (index: u8)
    requires m.Valid() && c < 8 && row < LCD_SIZE + PAGE_SIZE
    ensures !l.palette256 ==> index < 16
  {
    var cx := Flip(e.hFlip, c);
    if l.palette256 then m.host[row + cx]
    else if cx % 2 == 0 then m.host[row + cx / 2] % 16
    else m.host[row + cx / 2] / 16
  }

  /** First byte of a tile row in the video address space. */
  function RowAddr(l: Layer, e: TileEntry, r: nat): nat
    requires r < 8
  {
    if l.palette256 then l.tileRam + 64 * e.tileNum + 8 * Flip(e.vFlip, r)
    else l.tileRam + 32 * e.tileNum + 4 * Flip(e.vFlip, r)
  }

  lemma RowStart(l: Layer, m: Memory, e: TileEntry, ybg: u16)
    requires l.Valid() && m.Valid()
    ensures RowAddr(l, e, ybg % 8) % (if l.palette256 then 8 else 4) == 0
    ensures RowPtr(l, m, e, ybg) == m.GpuMap(RowAddr(l, e, ybg % 8))
  {
    hide Memory.GpuMap;
    var t, cy := l.tileRam / 0x4000, Flip(e.vFlip, ybg % 8);
    if l.palette256 {
      assert RowAddr(l, e, ybg % 8) == 8 * (0x800 * t + 8 * e.tileNum + cy);
    } else {
      assert RowAddr(l, e, ybg % 8) == 4 * (0x1000 * t + 8 * e.tileNum + cy);
    }
  }

  /** Reading a tile row through its pointer gives the texels of the tile. */
  lemma TexelThroughRow(l: Layer, m: Memory, e: TileEntry, ybg: u16, c: nat)
    requires l.Valid() && m.Valid() && c < 8
    ensures Texel(l, m, e, c, ybg % 8) == RowTexel(l, m, e, RowPtr(l, m, e, ybg), c)
  {
    hide Memory.GpuMap, RowPtr;
    var row, cx := RowAddr(l, e, ybg % 8), Flip(e.hFlip, c);
    RowStart(l, m, e, ybg);
    if l.palette256 {
      m.PointerWalk(row, 8, cx);
    } else {
      m.PointerWalk(row, 4, cx / 2);
    }
  }

  /** Columns x0 <= x < xfin of the reference line show columns c0, c0 + 1, ... of the
      tile row at `row`. */
  ghost predicate ShowsRow(l: Layer, m: Memory, e: TileEntry, row: nat, ref: seq<PixelCall>, x0: nat, c0: nat, xfin: nat)
    requires l.Valid() && m.Valid() && Drawable(l)
  {
    && row < LCD_SIZE + PAGE_SIZE && e.palette < 16
    && x0 <= xfin <= |ref| && c0 + (xfin - x0) <= 8
    && forall x :: x0 <= x < xfin ==> ref[x] == Shade(l, e, RowTexel(l, m, e, row, c0 + (x - x0)), x)
  }

  lemma Parity(s: nat, d: nat)
    ensures (s + d) % 2 == (s % 8 + d) % 2
  {
    assert s == 2 * (4 * (s / 8)) + s % 8;
  }

  lemma EmitNext(l: Layer, m: Memory, e: TileEntry, row: nat, ref: seq<PixelCall>, x0: nat, c0: nat, xfin: nat,
                 x: nat, index: u8)
    requires l.Valid() && m.Valid() && Drawable(l)
    requires ShowsRow(l, m, e, row, ref, x0, c0, xfin) && x0 <= x < xfin
    requires index == RowTexel(l, m, e, row, c0 + (x - x0))
    ensures ref[..x] + [Shade(l, e, index, x)] == ref[..x + 1]
  {
    assert ref[x] == Shade(l, e, index, x);
  }

  lemma NibbleSide(c: nat)
    requires c < 8
    ensures (7 - c) / 2 == 3 - c / 2 && (7 - c) % 2 == 1 - c % 2 && (c + 1) % 2 == 1 - c % 2
    ensures c % 2 == 0 ==> (c + 1) / 2 == c / 2
    ensures c % 2 == 1 ==> (c + 1) / 2 == c / 2 + 1
  {
  }

  /** Nibble pairs of a tile row, walking left through memory. */
  method Tile16Flipped(l: Layer, m: Memory, e: TileEntry, row: nat, x0: nat, xoff0: nat, xfin: nat,
                       done: seq<PixelCall>, ghost ref: seq<PixelCall>)
    returns (calls: seq<PixelCall>)
    requires l.Valid() && m.Valid() && !l.palette256 && e.hFlip
    requires ShowsRow(l, m, e, row, ref, x0, xoff0 % 8, xfin) && done == ref[..x0]
    ensures calls == ref[..xfin]
  {
    calls := done;
    var x, xoff := x0, xoff0;
    var line: int := row + (3 - xoff % 8 / 2);
    ghost var c := xoff0 % 8;
    while x < xfin
      invariant x0 <= x <= xfin && xoff == xoff0 + (x - x0) && c == xoff0 % 8 + (x - x0)
      invariant x < xfin ==> line == row + (3 - c / 2)
      invariant x0 < x < xfin ==> c % 2 == 0
      invariant calls == ref[..x]
    {
      Parity(xoff0, x - x0);
      NibbleSide(c);
      if xoff % 2 == 0 {
        var offset := m.host[line] / 16;
        EmitNext(l, m, e, row, ref, x0, xoff0 % 8, xfin, x, offset);
        calls := calls + [Shade(l, e, offset, x)];
        x, xoff, c := x + 1, xoff + 1, c + 1;
      }
      if x < xfin {
        assert c % 2 == 1;
        NibbleSide(c);
        var offset := m.host[line] % 16;
        EmitNext(l, m, e, row, ref, x0, xoff0 % 8, xfin, x, offset);
        calls := calls + [Shade(l, e, offset, x)];
        x, xoff, c := x + 1, xoff + 1, c + 1;
      }
      line := line - 1;
    }
  }

  /** Nibble pairs of a tile row, walking right through memory. */
  method Tile16Plain(l: Layer, m: Memory, e: TileEntry, row: nat, x0: nat, xoff0: nat, xfin: nat,
                     done: seq<PixelCall>, ghost ref: seq<PixelCall>)
    returns (calls: seq<PixelCall>)
    requires l.Valid() && m.Valid() && !l.palette256 && !e.hFlip
    requires ShowsRow(l, m, e, row, ref, x0, xoff0 % 8, xfin) && done == ref[..x0]
    ensures calls == ref[..xfin]
  {
    calls := done;
    var x, xoff := x0, xoff0;
    var line := row + xoff % 8 / 2;
    ghost var c := xoff0 % 8;
    while x < xfin
      invariant x0 <= x <= xfin && xoff == xoff0 + (x - x0) && c == xoff0 % 8 + (x - x0)
      invariant x < xfin ==> line == row + c / 2
      invariant x0 < x < xfin ==> c % 2 == 0
      invariant calls == ref[..x]
    {
      Parity(xoff0, x - x0);
      NibbleSide(c);
      if xoff % 2 == 0 {
        var offset := m.host[line] % 16;
        EmitNext(l, m, e, row, ref, x0, xoff0 % 8, xfin, x, offset);
        calls := calls + [Shade(l, e, offset, x)];
        x, xoff, c := x + 1, xoff + 1, c + 1;
      }
      if x < xfin {
        assert c % 2 == 1;
        NibbleSide(c);
        var offset := m.host[line] / 16;
        EmitNext(l, m, e, row, ref, x0, xoff0 % 8, xfin, x, offset);
        calls := calls + [Shade(l, e, offset, x)];
        x, xoff, c := x + 1, xoff + 1, c + 1;
      }
      line := line + 1;
    }
  }

  /** One byte per pixel; a flipped row is read backwards. */
  method Tile256(l: Layer, m: Memory, e: TileEntry, row: nat, x0: nat, xoff0: nat, xfin: nat,
                 done: seq<PixelCall>, ghost ref: seq<PixelCall>)
    returns (calls: seq<PixelCall>)
    requires l.Valid() && m.Valid() && l.palette256 && Drawable(l)
    requires ShowsRow(l, m, e, row, ref, x0, xoff0 % 8, xfin) && done == ref[..x0]
    ensures calls == ref[..xfin]
  {
    calls := done;
    var x := x0;
    var line: int, lineDir := row, 1;
    if e.hFlip {
      line := line + (7 - xoff0 % 8);
      lineDir := -1;
    } else {
      line := line + xoff0 % 8;
    }
    while x < xfin
      invariant x0 <= x <= xfin
      invariant line == row + (if e.hFlip then 7 - (xoff0 % 8 + (x - x0)) else xoff0 % 8 + (x - x0))
      invariant calls == ref[..x]
    {
      EmitNext(l, m, e, row, ref, x0, xoff0 % 8, xfin, x, m.host[line]);
      calls := calls + [Shade(l, e, m.host[line], x)];
      x := x + 1;
      line := line + lineDir;
    }
  }

  /** How many columns the renderer emits for a request of n. */
  function EmittedCount(xbg: u16, n: nat): nat {
    if n == 0 then 0 else Max(n, 8 - xbg % 8)
  }

  /** The reference line shows, from column x to xfin, the tile row the renderer fetches. */
  lemma TileStep(l: Layer, m: Memory, xbg: u16, ybg: u16, x: nat, xfin: nat, total: nat, e: TileEntry, c: nat)
    requires l.Valid() && m.Valid() && Drawable(l)
    requires c == (xbg + x) % 8 && x <= xfin <= total && c + (xfin - x) <= 8
    requires e == Decode(m.Half(MapInfo(l, RowMap(l, ybg), (xbg + x) % 0x1_0000)))
    ensures ShowsRow(l, m, e, RowPtr(l, m, e, ybg), RefLine(l, m, xbg, ybg, total), x, c, xfin)
  {
    var ref, row := RefLine(l, m, xbg, ybg, total), RowPtr(l, m, e, ybg);
    forall k | x <= k < xfin
      ensures ref[k] == Shade(l, e, RowTexel(l, m, e, row, c + (k - x)), k)
    {
      var d := k - x;
      RefPixelThroughRow(l, m, xbg, ybg, x, d, e);
    }
  }

  lemma Parity8(s: nat)
    ensures s % 0x1_0000 % 8 == s % 8
  {
  }

  lemma RefPixelThroughRow(l: Layer, m: Memory, xbg: u16, ybg: u16, x: nat, d: nat, e: TileEntry)
    requires l.Valid() && m.Valid() && Drawable(l) && (xbg + x) % 8 + d < 8
    requires e == Decode(m.Half(MapInfo(l, RowMap(l, ybg), (xbg + x) % 0x1_0000)))
    ensures RefPixel(l, m, xbg, ybg, x + d)
         == Shade(l, e, RowTexel(l, m, e, RowPtr(l, m, e, ybg), (xbg + x) % 8 + d), x + d)
  {
    TileEntryShared(l, m, xbg, ybg, x, d);
    ColumnInTile(l, xbg, ybg, x, d);
    var c := (xbg + x) % 8 + d;
    TexelThroughRow(l, m, e, ybg, c);
  }

  lemma ColumnInTile(l: Layer, xbg: u16, ybg: u16, x: nat, d: nat)
    requires l.Valid() && (xbg + x) % 8 + d < 8
    ensures (xbg + (x + d)) % l.Width() % 8 == (xbg + x) % 8 + d
    ensures ybg % l.Height() % 8 == ybg % 8
  {
    WrapInTile(l.Width(), xbg + x, d);
    SameTile((xbg + x) % l.Width(), d);
    WrapInTile(l.Height(), ybg, 0);
  }

  /** Where the scanline loop stands: at the line's start, at a tile boundary, or done. */
  predicate TileStart(xbg: u16, n: nat, x: nat, xoff: u16, xfin: int) {
    && x <= EmittedCount(xbg, n) && xoff == (xbg + x) % 0x1_0000
    && (x < n ==> xfin == if x == 0 then 8 - xbg % 8 else Min(x + 8, n))
    && (0 < x < n ==> (xbg + x) % 8 == 0)
    && (x >= n ==> x == EmittedCount(xbg, n))
  }

  lemma NextTile(xbg: u16, n: nat, x: nat, xoff: u16, xfin: int)
    requires n <= 0xFFF8 && x < n && TileStart(xbg, n, x, xoff, xfin)
    ensures x < xfin <= EmittedCount(xbg, n) && (xbg + x) % 8 + (xfin - x) <= 8
    ensures TileStart(xbg, n, xfin, (xoff + (xfin - x)) % 0x1_0000, Min((xfin + 8) % 0x1_0000, n))
  {
    CounterAdvance(xbg + x, xfin - x);
    NextBoundary(xbg);
    AddMultiple(xbg + x, 1, 8);
  }

  lemma CounterAdvance(s: nat, d: int)
    ensures (s % 0x1_0000 + d) % 0x1_0000 == (s + d) % 0x1_0000
  {
    AddMultiple(s % 0x1_0000 + d, s / 0x1_0000, 0x1_0000);
  }

  lemma NextBoundary(s: nat)
    ensures (s + (8 - s % 8)) % 8 == 0
  {
    Quotient(s + (8 - s % 8), 8, s / 8 + 1, 0);
  }

  /** The scanline loop. The bound on n keeps x + 8 inside the 16 bits it is cut to. */
  method RenderLineTextBG(l: Layer, m: Memory, xbg: u16, ybg: u16, n: nat) returns (calls: seq<PixelCall>)
    requires l.Valid() && m.Valid() && n <= 0xFFF8
    ensures !Drawable(l) ==> calls == []
    ensures Drawable(l) ==> calls == RefLine(l, m, xbg, ybg, EmittedCount(xbg, n))
  {
    calls := [];
    if l.palette256 && l.extPalette && l.extPal.None? {
      return;
    }
    var rowMap := RowMap(l, ybg);
    var xoff: u16 := xbg;
    var xfin := 8 - xoff % 8;
    var x := 0;
    ghost var total := EmittedCount(xbg, n);
    ghost var ref := RefLine(l, m, xbg, ybg, total);
    while x < n
      invariant TileStart(xbg, n, x, xoff, xfin)
      invariant calls == ref[..x]
      decreases n - x
    {
      var e := Decode(m.Half(MapInfo(l, rowMap, xoff)));
      var row := RowPtr(l, m, e, ybg);
      NextTile(xbg, n, x, xoff, xfin);
      Parity8(xbg + x);
      TileStep(l, m, xbg, ybg, x, xfin, total, e, xoff % 8);
      if l.palette256 {
        calls := Tile256(l, m, e, row, x, xoff, xfin, calls, ref);
      } else if e.hFlip {
        calls := Tile16Flipped(l, m, e, row, x, xoff, xfin, calls, ref);
      } else {
        calls := Tile16Plain(l, m, e, row, x, xoff, xfin, calls, ref);
      }
      xoff := (xoff + (xfin - x)) % 0x1_0000;
      x := xfin;
      xfin := Min((x + 8) % 0x1_0000, n);
    }
  }

  /** The line is exactly the n columns asked for iff the first tile does not already
      reach past them. */
  lemma LineExactIff(l: Layer, m: Memory, xbg: u16, ybg: u16, n: nat)
    requires l.Valid() && m.Valid() && Drawable(l)
    ensures RefLine(l, m, xbg, ybg, EmittedCount(xbg, n)) == RefLine(l, m, xbg, ybg, n)
       <==> n == 0 || n >= 8 - xbg % 8
  {
    assert |RefLine(l, m, xbg, ybg, EmittedCount(xbg, n))| == EmittedCount(xbg, n);
    assert |RefLine(l, m, xbg, ybg, n)| == n;
  }

  // ----- What a line shows, bit by bit -----

  /** Ten bits of tile number, the left-right flip, the up-down flip and four bits of palette. */
  lemma EntryBits(n: nat, h: nat, v: nat, p: nat)
    requires n < 0x400 && h < 2 && v < 2 && p < 16
    ensures Decode(n + 0x400 * h + 0x800 * v + 0x1000 * p) == TileEntry(n, h == 1, v == 1, p)
  {
  }

  /** Half of a map entry is at an even address. */
  lemma EntryIsTwoBytes(l: Layer, m: Memory, px: nat, py: nat)
    requires l.Valid() && m.Valid()
    ensures var a := EntryAddr(l, px, py); m.Half(a) == m.Byte(a) as int + 0x100 * (m.Byte(a + 1) as int)
  {
    hide Memory.Half, Memory.Byte;
    EvenEntry(l, px, py);
    hide EntryAddr;
    m.HalfIsTwoBytes(EntryAddr(l, px, py));
  }

  lemma EvenEntry(l: Layer, px: nat, py: nat)
    requires l.Valid()
    ensures EntryAddr(l, px, py) % 2 == 0
  {
    var t, screen, row, col := l.mapRam / 0x800, px / 256 + (l.Width() / 256) * (py / 256), py % 256 / 8, px % 256 / 8;
    assert EntryAddr(l, px, py) == 2 * (0x400 * t + 0x400 * screen + 32 * row + col);
  }

  /** Where the map entry of a pixel lies, for the four screen sizes 256x256, 512x256, 256x512
      and 512x512. */
  function EntryPlace(l: Layer, px: nat, py: nat): nat {
    l.mapRam + 0x800 * ((if px < 256 then 0 else 1) + (if py < 256 then 0 else if l.screenSize == 3 then 2 else 1))
    + 64 * (py % 256 / 8) + 2 * (px % 256 / 8)
  }

  /** The index stored for column c, row r of tile n: one byte each, or two to a byte with the
      left one in the low nibble; rows follow each other, and so do tiles. */
  function StoredIndex(l: Layer, m: Memory, n: nat, c: nat, r: nat): (i: u8)
    requires m.Valid() && c < 8 && r < 8
    ensures !l.palette256 ==> i < 16
  {
    if l.palette256 then m.Byte(l.tileRam + 64 * n + 8 * r + c)
    else if c % 2 == 0 then m.Byte(l.tileRam + 32 * n + 4 * r + c / 2) % 16
    else m.Byte(l.tileRam + 32 * n + 4 * r + c / 2) / 16
  }

  /** A screen column shows pixel (px, py) of the background: the two bytes of its map entry
      name the tile, the flips and the palette, and the tile names the colour. */
  lemma PixelFromBytes(l: Layer, m: Memory, xbg: u16, ybg: u16, x: nat, px: nat, py: nat, n: nat, h: nat, v: nat, p: nat)
    requires l.Valid() && m.Valid() && Drawable(l) && n < 0x400 && h < 2 && v < 2 && p < 16
    requires px == (xbg + x) % (if l.screenSize == 1 || l.screenSize == 3 then 512 else 256)
    requires py == ybg % (if l.screenSize == 2 || l.screenSize == 3 then 512 else 256)
    requires var a := EntryPlace(l, px, py);
      m.Byte(a) as int + 0x100 * (m.Byte(a + 1) as int) == n + 0x400 * h + 0x800 * v + 0x1000 * p
    ensures var i := StoredIndex(l, m, n, if h == 1 then 7 - px % 8 else px % 8, if v == 1 then 7 - py % 8 else py % 8);
      RefPixel(l, m, xbg, ybg, x)
        == PixelCall(x, if !l.palette256 then l.pal[16 * p + i] else if l.extPalette then l.extPal.value[256 * p + i] else l.pal[i],
                     i > 0)
  {
    hide Memory.Byte, EntryPlace, EntryAt, StoredIndex, RefPixel;
    EntryFromBytes(l, m, px, py, n, h, v, p);
    PixelOfEntry(l, m, xbg, ybg, x, px, py, TileEntry(n, h == 1, v == 1, p));
  }

  lemma PixelOfEntry(l: Layer, m: Memory, xbg: u16, ybg: u16, x: nat, px: nat, py: nat, e: TileEntry)
    requires l.Valid() && m.Valid() && Drawable(l) && e.palette < 16
    requires px == (xbg + x) % l.Width() && py == ybg % l.Height() && EntryAt(l, m, px, py) == e
    ensures var i := StoredIndex(l, m, e.tileNum, if e.hFlip then 7 - px % 8 else px % 8, if e.vFlip then 7 - py % 8 else py % 8);
      RefPixel(l, m, xbg, ybg, x)
        == PixelCall(x, if !l.palette256 then l.pal[16 * e.palette + i]
                        else if l.extPalette then l.extPal.value[256 * e.palette + i] else l.pal[i], i > 0)
  {
    hide Memory.Byte, EntryAt, Texel, Shade, StoredIndex;
    var i := Texel(l, m, e, px % 8, py % 8);
    assert RefPixel(l, m, xbg, ybg, x) == Shade(l, e, i, x);
    TexelIsStored(l, m, e, px % 8, py % 8);
    ShadeOf(l, e, i, x);
  }

  lemma EntryFromBytes(l: Layer, m: Memory, px: nat, py: nat, n: nat, h: nat, v: nat, p: nat)
    requires l.Valid() && m.Valid() && n < 0x400 && h < 2 && v < 2 && p < 16 && px < l.Width() && py < l.Height()
    requires var a := EntryPlace(l, px, py);
      m.Byte(a) as int + 0x100 * (m.Byte(a + 1) as int) == n + 0x400 * h + 0x800 * v + 0x1000 * p
    ensures EntryAt(l, m, px, py) == TileEntry(n, h == 1, v == 1, p)
  {
    hide Memory.Half, Memory.Byte, EntryPlace, EntryAddr, Decode;
    PlaceIsAddr(l, px, py);
    EntryIsTwoBytes(l, m, px, py);
    EntryBits(n, h, v, p);
  }

  lemma ShadeOf(l: Layer, e: TileEntry, i: u8, x: nat)
    requires l.Valid() && Drawable(l) && e.palette < 16 && (!l.palette256 ==> i < 16)
    ensures Shade(l, e, i, x)
         == PixelCall(x, if !l.palette256 then l.pal[16 * e.palette + i]
                         else if l.extPalette then l.extPal.value[256 * e.palette + i] else l.pal[i], i > 0)
  {
  }

  lemma PlaceIsAddr(l: Layer, px: nat, py: nat)
    requires l.Valid() && px < l.Width() && py < l.Height()
    ensures EntryPlace(l, px, py) == EntryAddr(l, px, py)
  {
  }

  lemma TexelIsStored(l: Layer, m: Memory, e: TileEntry, x: nat, y: nat)
    requires m.Valid() && x < 8 && y < 8
    ensures Texel(l, m, e, x, y) == StoredIndex(l, m, e.tileNum, if e.hFlip then 7 - x else x, if e.vFlip then 7 - y else y)
  {
    hide Memory.Byte;
  }

  /** The tiles of two memories are the same. */
  ghost predicate SameTiles(l: Layer, m1: Memory, m2: Memory)
    requires m1.Valid() && m2.Valid()
  {
    forall a: nat :: l.tileRam <= a < l.tileRam + 0x1_0000 ==> m1.Byte(a) == m2.Byte(a)
  }

  lemma SameTexel(l: Layer, m1: Memory, m2: Memory, e: TileEntry, c: nat, r: nat)
    requires m1.Valid() && m2.Valid() && SameTiles(l, m1, m2) && c < 8 && r < 8 && e.tileNum < 1024
    ensures Texel(l, m1, e, c, r) == Texel(l, m2, e, c, r)
  {
    hide Memory.Byte;
  }

  /** The lowest column of the tile a column is in. */
  function TileLeft(s: nat): nat { s - s % 8 }

  /** Columns of one tile use the same map entry. */
  lemma SameEntry(l: Layer, m: Memory, s: nat, t: nat, py: nat)
    requires l.Valid() && m.Valid() && TileLeft(s) == TileLeft(t)
    ensures EntryAt(l, m, s % l.Width(), py) == EntryAt(l, m, t % l.Width(), py)
    ensures s % l.Width() % 8 == s % 8 && t % l.Width() % 8 == t % 8
  {
    hide Decode, Memory.Half;
    ColumnsOfTile(l, s, t, py);
  }

  lemma ColumnsOfTile(l: Layer, s: nat, t: nat, py: nat)
    requires l.Valid() && TileLeft(s) == TileLeft(t)
    ensures EntryAddr(l, s % l.Width(), py) == EntryAddr(l, t % l.Width(), py)
    ensures s % l.Width() % 8 == s % 8 && t % l.Width() % 8 == t % 8
  {
    WrapInTile(l.Width(), TileLeft(s), s % 8);
    WrapInTile(l.Width(), TileLeft(s), t % 8);
    var base := TileLeft(s) % l.Width();
    SameTile(base, s % 8);
    SameTile(base, t % 8);
  }

  /** Where two memories differ in the 0x400 bit of a map entry only, the tile is mirrored left
      to right: column c shows what column 7 - c showed. */
  lemma FlipBitMirrors(l: Layer, m1: Memory, m2: Memory, xbg: u16, ybg: u16, x: nat, y: nat)
    requires l.Valid() && m1.Valid() && m2.Valid() && Drawable(l) && SameTiles(l, m1, m2)
    requires TileLeft(xbg + x) == TileLeft(xbg + y) && (xbg + x) % 8 + (xbg + y) % 8 == 7
    requires var a := EntryAddr(l, (xbg + x) % l.Width(), ybg % l.Height());
      m1.Half(a) / 0x400 % 2 == 0 && m2.Half(a) == m1.Half(a) + 0x400
    ensures RefPixel(l, m2, xbg, ybg, y) == RefPixel(l, m1, xbg, ybg, x).(x := y)
  {
    hide Memory.Half, Memory.Byte, EntryAddr;
    var py := ybg % l.Height();
    var a := EntryAddr(l, (xbg + x) % l.Width(), py);
    var e := EntryAt(l, m1, (xbg + x) % l.Width(), py);
    assert Decode(m2.Half(a)) == e.(hFlip := true) && !e.hFlip by { FlippedEntry(m1.Half(a)); }
    SameEntry(l, m2, xbg + x, xbg + y, py);
    SameEntry(l, m1, xbg + x, xbg + y, py);
    hide Decode;
    SameTexel(l, m1, m2, e, (xbg + x) % 8, py % 8);
  }

  /** The bit at 0x400 is the left-right flip, the one at 0x800 the up-down flip. */
  lemma FlippedEntry(v: u16)
    ensures v / 0x400 % 2 == 0 ==> v + 0x400 < 0x1_0000 && !Decode(v).hFlip && Decode(v + 0x400) == Decode(v).(hFlip := true)
    ensures v / 0x800 % 2 == 0 ==> v + 0x800 < 0x1_0000 && !Decode(v).vFlip && Decode(v + 0x800) == Decode(v).(vFlip := true)
  {
    var n, h, w, p := v % 0x400, v / 0x400 % 2, v / 0x800 % 2, v / 0x1000;
    FieldSum(v);
    hide Decode;
    FieldsFlip(v, n, h, w, p);
  }

  lemma FieldSum(v: u16)
    ensures v == v % 0x400 + 0x400 * (v / 0x400 % 2) + 0x800 * (v / 0x800 % 2) + 0x1000 * (v / 0x1000)
  {
    var a, b := v / 0x400, v / 0x800;
    assert v == 0x400 * a + v % 0x400 && a == 2 * b + a % 2 && b == 2 * (v / 0x1000) + b % 2;
  }

  lemma FieldsFlip(v: u16, n: nat, h: nat, w: nat, p: nat)
    requires n < 0x400 && h < 2 && w < 2 && p < 16 && v == n + 0x400 * h + 0x800 * w + 0x1000 * p
    ensures Decode(v) == TileEntry(n, h == 1, w == 1, p)
    ensures h == 0 ==> v + 0x400 < 0x1_0000 && Decode(v + 0x400) == TileEntry(n, true, w == 1, p)
    ensures w == 0 ==> v + 0x800 < 0x1_0000 && Decode(v + 0x800) == TileEntry(n, h == 1, true, p)
  {
    hide Decode;
    EntryBits(n, h, w, p);
    EntryBits(n, 1, w, p);
    EntryBits(n, h, 1, p);
  }

  /** The 0x800 bit turns it upside down: row r shows what row 7 - r showed. */
  lemma FlipBitInverts(l: Layer, m1: Memory, m2: Memory, xbg: u16, y1: u16, y2: u16, x: nat)
    requires l.Valid() && m1.Valid() && m2.Valid() && Drawable(l) && SameTiles(l, m1, m2)
    requires TileLeft(y1) == TileLeft(y2) && y1 % 8 + y2 % 8 == 7
    requires var a := EntryAddr(l, (xbg + x) % l.Width(), y1 % l.Height());
      m1.Half(a) / 0x800 % 2 == 0 && m2.Half(a) == m1.Half(a) + 0x800
    ensures RefPixel(l, m2, xbg, y2, x) == RefPixel(l, m1, xbg, y1, x)
  {
    hide Memory.Half, Memory.Byte;
    var px := (xbg + x) % l.Width();
    var a := EntryAddr(l, px, y1 % l.Height());
    RowsOfTile(l, px, y1, y2);
    hide EntryAddr;
    var e := EntryAt(l, m1, px, y1 % l.Height());
    assert Decode(m2.Half(a)) == e.(vFlip := true) && !e.vFlip by { FlippedEntry(m1.Half(a)); }
    hide Decode;
    SameTexel(l, m1, m2, e, px % 8, y1 % 8);
  }

  /** Rows of one tile use the same map entry. */
  lemma RowsOfTile(l: Layer, px: nat, y1: u16, y2: u16)
    requires l.Valid() && TileLeft(y1) == TileLeft(y2)
    ensures EntryAddr(l, px, y1 % l.Height()) == EntryAddr(l, px, y2 % l.Height())
    ensures y1 % l.Height() % 8 == y1 % 8 && y2 % l.Height() % 8 == y2 % 8
  {
    RowInTile(l.Height(), y1, y2);
    hide TileLeft;
  }

  lemma RowInTile(h: nat, y1: nat, y2: nat)
    requires (h == 256 || h == 512) && TileLeft(y1) == TileLeft(y2)
    ensures y1 % h / 256 == y2 % h / 256 && y1 % h % 256 / 8 == y2 % h % 256 / 8
    ensures y1 % h % 8 == y1 % 8 && y2 % h % 8 == y2 % 8
  {
    FromTileLeft(h, TileLeft(y1), y1 % 8);
    FromTileLeft(h, TileLeft(y2), y2 % 8);
  }

  lemma FromTileLeft(h: nat, left: nat, d: nat)
    requires (h == 256 || h == 512) && left % 8 == 0 && d < 8
    ensures (left + d) % h / 256 == left % h / 256 && (left + d) % h % 256 / 8 == left % h % 256 / 8
    ensures (left + d) % h % 8 == d
  {
    WrapInTile(h, left, d);
    SameTile(left % h, d);
  }
}
