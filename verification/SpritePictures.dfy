/** Where the picture of a sprite lies in video memory, and what each of its pixels shows: tiles
    and rows by their numbers, against the row pointers and offsets of the renderer. */
module SpritePictures {
  import opened Types
  import opened Arith
  import opened GpuMemory
  import opened SpriteSpec

  // ----- Sizes -----

  /** The square, wide and tall sprites of the four sizes. */
  lemma SizesByShape(s: Oam)
    requires s.Valid()
    ensures s.shape == 0 ==> s.SizeX() == [8, 16, 32, 64][s.size] == s.SizeY()
    ensures s.shape == 1 ==> s.SizeX() == [16, 32, 32, 64][s.size] && s.SizeY() == [8, 8, 16, 32][s.size]
    ensures s.shape == 2 ==> s.SizeX() == [8, 8, 16, 32][s.size] && s.SizeY() == [16, 32, 32, 64][s.size]
    ensures s.shape == 3 ==> s.SizeX() == s.SizeY() == 8
  {
  }

  // ----- Tiles in a row -----

  /** Widths and heights in tiles. */
  type Tiles = n: nat | n == 1 || n == 2 || n == 4 || n == 8 witness 1

  /** The number of the 8x8 tile of picture position (col, row) when tiles are `w` to a row. */
  function TileNumber(w: Tiles, col: nat, row: nat): nat { row / 8 * w + col / 8 }

  /** The byte of picture position (col, row) when tiles follow each other: a tile is eight rows
      of eight bytes, or of four that hold two texels each. */
  function Place(w: Tiles, deep: bool, col: nat, row: nat): nat {
    if deep then 64 * TileNumber(w, col, row) + 8 * (row % 8) + col % 8
    else 32 * TileNumber(w, col, row) + 4 * (row % 8) + col % 8 / 2
  }

  /** Column c, row r of tile t, as a picture position. */
  function PixelOf(w: Tiles, t: nat, c: nat, r: nat): (nat, nat) { (8 * (t % w) + c, 8 * (t / w) + r) }

  /** The picture position whose byte comes at b; the left one of two. */
  function PositionAt(w: Tiles, deep: bool, b: nat): (nat, nat) {
    if deep then PixelOf(w, b / 64, b % 8, b / 8 % 8) else PixelOf(w, b / 32, b % 4 * 2, b / 4 % 8)
  }

  /** How many bytes a picture takes. */
  function Bytes(w: Tiles, h: Tiles, deep: bool): nat { if deep then 64 * (w * h) else 32 * (w * h) }

  /** Tile and byte of a place. */
  lemma TileOfPlace(deep: bool, t: nat, r: nat, c: nat)
    requires r < 8 && c < 8
    ensures var b := if deep then 64 * t + 8 * r + c else 32 * t + 4 * r + c / 2;
      && t == (if deep then b / 64 else b / 32) && r == (if deep then b / 8 % 8 else b / 4 % 8)
      && (if deep then b % 8 == c else b % 4 == c / 2)
  {
    Quotient(8 * t + r, 8, t, r);
    if deep {
      Quotient(64 * t + 8 * r + c, 64, t, 8 * r + c);
      Quotient(64 * t + 8 * r + c, 8, 8 * t + r, c);
    } else {
      Quotient(32 * t + 4 * r + c / 2, 32, t, 4 * r + c / 2);
      Quotient(32 * t + 4 * r + c / 2, 4, 8 * t + r, c / 2);
    }
  }

  lemma TileSplit(w: Tiles, tx: nat, ty: nat)
    requires tx < w
    ensures (ty * w + tx) % w == tx && (ty * w + tx) / w == ty
  {
    Quotient(ty * w + tx, w, ty, tx);
  }

  /** The tiles number the picture: position, place and back. */
  lemma PlaceRoundTrip(w: Tiles, deep: bool, col: nat, row: nat)
    requires col < 8 * w
    ensures PositionAt(w, deep, Place(w, deep, col, row)) == (if deep then col else col / 2 * 2, row)
  {
    var t, b := TileNumber(w, col, row), Place(w, deep, col, row);
    TileSplit(w, col / 8, row / 8);
    assert PixelOf(w, t, if deep then col % 8 else col % 8 / 2 * 2, row % 8) == (if deep then col else col / 2 * 2, row) by {
      EvenPart(col);
    }
    TileOfPlace(deep, t, row % 8, col % 8);
    hide PixelOf, TileNumber;
  }

  lemma EvenPart(col: nat)
    ensures 8 * (col / 8) + col % 8 / 2 * 2 == col / 2 * 2
    ensures col / 8 == col / 2 / 4 && col % 8 / 2 == col / 2 % 4
  {
    var q, r := col / 8, col % 8;
    Quotient(col, 2, 4 * q + r / 2, r % 2);
    Quotient(col / 2, 4, q, r / 2);
  }

  /** Every byte of the picture is the place of a position. */
  lemma PositionRoundTrip(w: Tiles, h: Tiles, deep: bool, b: nat)
    requires b < Bytes(w, h, deep)
    ensures var p := PositionAt(w, deep, b); p.0 < 8 * w && p.1 < 8 * h && Place(w, deep, p.0, p.1) == b
  {
    var t, r, c := if deep then b / 64 else b / 32, if deep then b / 8 % 8 else b / 4 % 8, if deep then b % 8 else b % 4 * 2;
    ByteDigits(deep, b);
    BytesBound(w, h, deep, b);
    TileBelow(w, h, t);
    assert PositionAt(w, deep, b) == (8 * (t % w) + c, 8 * (t / w) + r);
    hide Place, PositionAt, Bytes;
    BackToByte(w, h, deep, b, t, r, c);
  }

  lemma BackToByte(w: Tiles, h: Tiles, deep: bool, b: nat, t: nat, r: nat, c: nat)
    requires t / w < h && t == t / w * w + t % w && r < 8 && c < 8
    requires b == if deep then 64 * t + 8 * r + c else 32 * t + 4 * r + c / 2
    ensures 8 * (t % w) + c < 8 * w && 8 * (t / w) + r < 8 * h && Place(w, deep, 8 * (t % w) + c, 8 * (t / w) + r) == b
  {
    hide Place;
    PlaceOfTile(w, deep, t % w, t / w, r, c);
  }

  lemma BytesBound(w: Tiles, h: Tiles, deep: bool, b: nat)
    requires b < Bytes(w, h, deep)
    ensures (if deep then b / 64 else b / 32) < w * h
  {
    var n := w * h;
  }

  lemma ByteDigits(deep: bool, b: nat)
    ensures b == if deep then 64 * (b / 64) + 8 * (b / 8 % 8) + b % 8 else 32 * (b / 32) + 4 * (b / 4 % 8) + b % 4
    ensures !deep ==> b % 4 * 2 / 2 == b % 4
  {
    if deep {
      var q := b / 8;
      Quotient(b, 64, q / 8, 8 * (q % 8) + b % 8);
    } else {
      var q := b / 4;
      Quotient(b, 32, q / 8, 4 * (q % 8) + b % 4);
    }
  }

  lemma TileBelow(w: Tiles, h: Tiles, t: nat)
    requires t < w * h
    ensures t / w < h && t == t / w * w + t % w
  {
    assert t == w * (t / w) + t % w;
    MulGap(w, h - 1, t / w);
  }

  lemma PlaceOfTile(w: Tiles, deep: bool, tx: nat, ty: nat, r: nat, c: nat)
    requires tx < w && r < 8 && c < 8
    ensures var t := ty * w + tx;
      Place(w, deep, 8 * tx + c, 8 * ty + r) == if deep then 64 * t + 8 * r + c else 32 * t + 4 * r + c / 2
  {
    Quotient(8 * tx + c, 8, tx, c);
    Quotient(8 * ty + r, 8, ty, r);
  }

  /** The picture fills exactly its bytes. */
  lemma PlaceInPicture(w: Tiles, h: Tiles, deep: bool, col: nat, row: nat)
    requires col < 8 * w && row < 8 * h
    ensures Place(w, deep, col, row) < Bytes(w, h, deep)
  {
    TileInPicture(w, h, col / 8, row / 8);
  }

  lemma TileInPicture(w: Tiles, h: Tiles, tx: nat, ty: nat)
    requires tx < w && ty < h
    ensures ty * w + tx + 1 <= w * h
  {
    MulGap(w, ty, h);
  }

  /** In a picture of consecutive tiles texels share a byte only when they are its halves. */
  lemma PlacesAreDistinct(w: Tiles, deep: bool, col: nat, row: nat, col2: nat, row2: nat)
    requires col < 8 * w && col2 < 8 * w
    ensures Place(w, deep, col, row) == Place(w, deep, col2, row2)
       <==> row == row2 && (if deep then col == col2 else col / 2 == col2 / 2)
  {
    PlaceRoundTrip(w, deep, col, row);
    PlaceRoundTrip(w, deep, col2, row2);
    EvenPart(col);
    EvenPart(col2);
    hide PositionAt;
  }

  // ----- Addresses -----

  /** What one tile number counts in bytes: 32 to 256 in one-dimensional mapping. */
  function TileStep(e: Env): nat
    requires e.Valid()
  {
    if e.boundary == 5 then 32 else if e.boundary == 6 then 64 else if e.boundary == 7 then 128 else 256
  }

  lemma BoundaryPower(e: Env)
    requires e.Valid()
    ensures Pow2(e.boundary) == TileStep(e)
  {
    assert Pow2(5) == 32;
  }

  /** The address of the byte of picture position (col, row) of a tiled sprite. In one-dimensional
      mapping the tiles of the picture follow each other from the sprite's own tile; in
      two-dimensional mapping the next row of tiles begins 1024 bytes on. */
  function TexelAddr(e: Env, s: Oam, col: nat, row: nat): nat
    requires e.Valid()
  {
    var d := if s.depth then 8 * (row % 8) + col % 8 else 4 * (row % 8) + col % 8 / 2;
    if e.twoD then e.sprMem + 32 * s.tile + 1024 * (row / 8) + (if s.depth then 64 else 32) * (col / 8) + d
    else e.sprMem + TileStep(e) * s.tile + Place(s.SizeX() / 8, s.depth, col, row)
  }

  function RowUnit(s: Oam): nat { if s.depth then 8 else 4 }

  /** The offset of a column from its row, as the loops compute it. */
  function ColumnOffset(s: Oam, col: nat): nat {
    if s.depth then col % 8 + col / 8 * 64 else col / 2 % 4 + col / 2 / 4 * 32
  }

  /** Row pointer plus column offset is the address of the texel's byte. */
  lemma RowReachesTexel(e: Env, s: Oam, col: nat, row: nat)
    requires e.Valid() && s.Valid()
    ensures RowBase(e, s, row, RowUnit(s)) + ColumnOffset(s, col) == TexelAddr(e, s, col, row)
  {
    EvenPart(col);
    if e.twoD {
      hide Place;
    } else {
      BoundaryPower(e);
      hide Pow2, TileStep;
      PlaceFromRow(s, col, row);
    }
  }

  lemma PlaceFromRow(s: Oam, col: nat, row: nat)
    requires s.Valid()
    ensures row / 8 * s.SizeX() * RowUnit(s) + row % 8 * RowUnit(s) + ColumnOffset(s, col) == Place(s.SizeX() / 8, s.depth, col, row)
  {
    RowOfTiles(s, row);
    EvenPart(col);
    hide Oam.SizeX;
    var t := row / 8 * (s.SizeX() / 8);
  }

  lemma RowOfTiles(s: Oam, row: nat)
    ensures row / 8 * s.SizeX() * 8 == 64 * (row / 8 * (s.SizeX() / 8))
    ensures row / 8 * s.SizeX() * 4 == 32 * (row / 8 * (s.SizeX() / 8))
    ensures row / 8 * (s.SizeX() * 8) == 64 * (row / 8 * (s.SizeX() / 8))
    ensures row / 8 * (s.SizeX() * 4) == 32 * (row / 8 * (s.SizeX() / 8))
  {
    var w := s.SizeX() / 8;
    assert s.SizeX() == 8 * w;
  }

  /** So do the picture pointer and the offset of a rotated sprite; in two-dimensional mapping
      the register handler leaves the tile step at 32 bytes. */
  lemma PictureReachesTexel(e: Env, s: Oam, col: nat, row: nat)
    requires e.Valid() && s.Valid() && col < 64 && row < 64 && (e.twoD ==> e.boundary == 5)
    ensures RotBase(e, s) + RotOffset(e, s, col, row) == TexelAddr(e, s, col, row)
  {
    BoundaryPower(e);
    EvenPart(col);
    RowOfTiles(s, row);
  }

  /** The address of pixel (col, row) of a direct-colour picture: rows of the sprite's own width,
      or of 256 or 128 pixels. */
  function BmpAddr(e: Env, s: Oam, col: nat, row: nat): nat
    requires e.Valid()
  {
    if e.bmpMapping then e.sprMem + (if e.bmpBoundary == 7 then 128 else 256) * s.tile + 2 * (s.SizeX() * row + col)
    else if e.bmp2D then e.sprMem + 2 * (256 * (8 * (s.tile / 32) + row) + 8 * (s.tile % 32) + col)
    else e.sprMem + 2 * (128 * (8 * (s.tile / 16) + row) + 8 * (s.tile % 16) + col)
  }

  lemma BmpRowReaches(e: Env, s: Oam, col: nat, row: nat)
    requires e.Valid()
    ensures BmpBase(e, s, row) + col * 2 == BmpAddr(e, s, col, row)
  {
    assert Pow2(7) == 128 && Pow2(8) == 256;
  }

  // ----- Pixels -----

  /** The index stored for a picture position: a byte, or a nibble, the left one low. */
  function IndexAt(e: Env, s: Oam, col: nat, row: nat): (i: u8)
    requires e.Valid() && s.Valid()
    ensures !s.depth ==> i < 16
  {
    var b := e.mem.Byte(TexelAddr(e, s, col, row));
    if s.depth then b else if col % 2 == 0 then b % 16 else b / 16
  }

  /** What position (col, row) of a sprite's picture shows: a direct colour whose top bit is set,
      or a nonzero index into the palette of 256 colours, the sprite's extended palette, or its
      palette of 16. */
  function PictureDot(e: Env, s: Oam, col: nat, row: nat): Option<Dot>
    requires e.Valid() && s.Valid()
  {
    if s.mode == 3 then
      var c := e.mem.Half(BmpAddr(e, s, col, row));
      if s.palette > 0 && c >= 0x8000 then Some(Dot(c, s.palette + 1, 3, true)) else None
    else
      var i := IndexAt(e, s, col, row);
      if i == 0 then None
      else if !s.depth then Some(Dot(e.pal[16 * s.palette + i], 255, s.mode, false))
      else Some(Dot(if e.extPalette then e.ext[256 * s.palette + i] else e.pal[i], 255, s.mode, true))
  }

  lemma PlainTexelIsPicture(e: Env, s: Oam, col: nat, row: nat)
    requires e.Valid() && s.Valid() && s.mode != 2
    ensures PlainTexel(e, s, row, col) == PictureDot(e, s, col, row)
  {
    RowReachesTexel(e, s, col, row);
    hide RowBase, TexelAddr, BmpBase, BmpAddr, At256, At16, BmpAt, PictureDot;
    if s.mode == 3 {
      Direct(e, s, col, row);
    } else if s.depth {
      Deep256(e, s, col, row);
    } else {
      Shallow16(e, s, col, row);
    }
  }

  lemma Direct(e: Env, s: Oam, col: nat, row: nat)
    requires e.Valid() && s.Valid() && s.mode == 3
    ensures (if s.palette != 0 then BmpAt(e, BmpBase(e, s, row), col, s.palette) else None) == PictureDot(e, s, col, row)
  {
    BmpRowReaches(e, s, col, row);
    hide BmpBase, BmpAddr, Memory.Half;
  }

  lemma Deep256(e: Env, s: Oam, col: nat, row: nat)
    requires e.Valid() && s.Valid() && s.depth && s.mode != 2 && s.mode != 3
    requires RowBase(e, s, row, 8) + ColumnOffset(s, col) == TexelAddr(e, s, col, row)
    ensures At256(e, RowBase(e, s, row, 8), Palette256(e, s), col, s.mode) == PictureDot(e, s, col, row)
  {
    hide RowBase, TexelAddr, Memory.Byte;
  }

  lemma Shallow16(e: Env, s: Oam, col: nat, row: nat)
    requires e.Valid() && s.Valid() && !s.depth && s.mode != 2 && s.mode != 3
    requires RowBase(e, s, row, 4) + ColumnOffset(s, col) == TexelAddr(e, s, col, row)
    ensures At16(e, RowBase(e, s, row, 4), Palette16(e, s), col, s.mode) == PictureDot(e, s, col, row)
  {
    hide RowBase, TexelAddr, Memory.Byte;
  }

  /** Where a column and line fall in a sprite's field, if they do. */
  predicate Hits(e: Env, s: Oam, k: nat, fx: nat, fy: nat, u: int, v: int) {
    k == s.x + u && 0 <= u < fx && v == (e.line - s.y) % 256 && v < fy
  }

  /** An unrotated sprite shows its picture, mirrored as its flips say: the column u and line v of
      the sprite show picture column u or SizeX - 1 - u, and row v or SizeY - 1 - v. */
  lemma UnrotatedPixel(e: Env, oam: seq<Oam>, i: nat, k: nat, u: nat, v: nat)
    requires Scene(e, oam) && i < 128 && oam[i].rotScale == 0 && oam[i].mode != 2
    requires Hits(e, oam[i], k, oam[i].SizeX(), oam[i].SizeY(), u, v)
    ensures var s := oam[i];
      SpriteDot(e, oam, i, k)
        == PictureDot(e, s, if s.hFlip then s.SizeX() - 1 - u else u, if s.vFlip then s.SizeY() - 1 - v else v)
  {
    hide PlainTexel, PictureDot;
    var s := oam[i];
    PlainTexelIsPicture(e, s, if s.hFlip then s.SizeX() - 1 - u else u, if s.vFlip then s.SizeY() - 1 - v else v);
  }

  /** Beside its field no sprite shows anything; a disabled one never does. */
  lemma NothingBeside(e: Env, oam: seq<Oam>, i: nat, k: nat)
    requires Scene(e, oam) && i < 128
    requires var s := oam[i]; var f := if s.rotScale == 3 then 2 else 1;
      s.rotScale == 2 || !(0 <= k - s.x < f * s.SizeX()) || (e.line - s.y) % 256 >= f * s.SizeY()
    ensures SpriteDot(e, oam, i, k).None? && !WindowDot(e, oam, i, k)
  {
    hide PlainTexel, RotTexel, WindowTexel;
  }

  /** An unrotated window sprite marks the columns of its set texels, as long as its row does not
      leave the pages it is mapped to. */
  lemma WindowPixel(e: Env, oam: seq<Oam>, i: nat, k: nat, u: nat, v: nat)
    requires Scene(e, oam) && i < 128 && oam[i].rotScale == 0 && oam[i].mode == 2
    requires Hits(e, oam[i], k, oam[i].SizeX(), oam[i].SizeY(), u, v)
    requires var s := oam[i];
      InARow(e.mem, RowBase(e, s, if s.vFlip then s.SizeY() - 1 - v else v, RowUnit(s)),
             ColumnOffset(s, if s.hFlip then s.SizeX() - 1 - u else u))
    ensures var s := oam[i];
      WindowDot(e, oam, i, k) <==>
        IndexAt(e, s, if s.hFlip then s.SizeX() - 1 - u else u, if s.vFlip then s.SizeY() - 1 - v else v) > 0
  {
    var s := oam[i];
    var col, row := if s.hFlip then s.SizeX() - 1 - u else u, if s.vFlip then s.SizeY() - 1 - v else v;
    assert WindowDot(e, oam, i, k) <==> WindowTexel(e, s, row, col) by { hide WindowTexel; }
    WindowTexelIsIndex(e, s, col, row);
  }

  lemma WindowTexelIsIndex(e: Env, s: Oam, col: nat, row: nat)
    requires e.Valid() && s.Valid() && col < s.SizeX()
    requires InARow(e.mem, RowBase(e, s, row, RowUnit(s)), ColumnOffset(s, col))
    ensures WindowTexel(e, s, row, col) <==> IndexAt(e, s, col, row) > 0
  {
    EvenPart(col);
    RowReachesTexel(e, s, col, row);
    WindowRowIff(e, s, row, col);
    hide RowBase, TexelAddr, WindowTexel, Memory.Byte, InARow;
  }

  // ----- Rotated pictures -----

  /** What position (col, row) of a rotated sprite's picture should show: the same colour as
      unrotated, with no number entered, and a direct colour one step less opaque; 256-colour
      sprites are drawn in every mode. */
  function RotatedDot(e: Env, s: Oam, col: nat, row: nat): Option<Dot>
    requires e.Valid() && s.Valid()
  {
    if s.mode == 3 && !s.depth then
      var c := e.mem.Half(BmpAddr(e, s, col, row));
      if s.palette > 0 && c >= 0x8000 then Some(Dot(c, s.palette, 3, false)) else None
    else
      var i := IndexAt(e, s, col, row);
      if i == 0 then None
      else if !s.depth then Some(Dot(e.pal[16 * s.palette + i], 255, s.mode, false))
      else Some(Dot(if e.extPalette then e.ext[256 * s.palette + i] else e.pal[i], 255, s.mode, false))
  }

  /** It is the picture of the unrotated sprite. */
  lemma SamePicture(e: Env, s: Oam, col: nat, row: nat)
    requires e.Valid() && s.Valid() && s.mode != 2 && !(s.mode == 3 && s.depth)
    ensures var d, r := PictureDot(e, s, col, row), RotatedDot(e, s, col, row);
      && (d.None? <==> r.None?)
      && (d.Some? ==> r.value == d.value.(numbered := false, alpha := if s.mode == 3 then s.palette else 255))
  {
    hide BmpAddr, IndexAt, Memory.Half;
  }

  /** The whole picture up to (col, row) is in pages that follow each other. */
  predicate PictureInARow(e: Env, s: Oam, col: nat, row: nat)
    requires e.Valid() && s.Valid() && col < 64 && row < 64
  {
    InARow(e.mem, RotBase(e, s), RotOffset(e, s, col, row))
  }

  lemma RotTexelIsPicture(e: Env, s: Oam, col: nat, row: nat)
    requires e.Valid() && s.Valid() && col < s.SizeX() && row < s.SizeY() && (e.twoD ==> e.boundary == 5)
    requires if s.mode == 3 && !s.depth then e.bmpMapping || e.bmp2D || row == 0 else PictureInARow(e, s, col, row)
    ensures RotTexel(e, s, col, row) == RotatedDot(e, s, col, row)
  {
    if s.mode == 3 && !s.depth {
      RotatedDirect(e, s, col, row);
    } else {
      StoredByte(e, s, col, row);
      hide ByteFrom, RotBase, RotOffset, TexelAddr, Memory.Byte, PictureInARow, Rot256, Rot16, RotatedDot;
      if s.depth { Rotated256(e, s, col, row); } else { Rotated16(e, s, col, row); }
    }
  }

  lemma Rotated256(e: Env, s: Oam, col: nat, row: nat)
    requires e.Valid() && s.Valid() && s.depth && col < s.SizeX() && row < s.SizeY()
    ensures ByteFrom(e, RotBase(e, s), RotOffset(e, s, col, row)) == e.mem.Byte(TexelAddr(e, s, col, row)) ==>
              Rot256(e, s, col, row) == RotatedDot(e, s, col, row)
  {
    hide ByteFrom, RotBase, RotOffset, TexelAddr, Memory.Byte;
  }

  lemma Rotated16(e: Env, s: Oam, col: nat, row: nat)
    requires e.Valid() && s.Valid() && !s.depth && s.mode != 3 && col < s.SizeX() && row < s.SizeY()
    ensures ByteFrom(e, RotBase(e, s), RotOffset(e, s, col, row)) == e.mem.Byte(TexelAddr(e, s, col, row)) ==>
              Rot16(e, s, col, row) == RotatedDot(e, s, col, row)
  {
    hide ByteFrom, RotBase, RotOffset, TexelAddr, Memory.Byte;
  }

  lemma StoredByte(e: Env, s: Oam, col: nat, row: nat)
    requires e.Valid() && s.Valid() && col < s.SizeX() && row < s.SizeY() && (e.twoD ==> e.boundary == 5)
    requires PictureInARow(e, s, col, row)
    ensures ByteFrom(e, RotBase(e, s), RotOffset(e, s, col, row)) == e.mem.Byte(TexelAddr(e, s, col, row))
  {
    PictureReachesTexel(e, s, col, row);
    RotatedPictureIff(e, s, col, row);
    hide ByteFrom, RotBase, RotOffset, TexelAddr, Memory.Byte;
  }

  /** Where the rotated loop reads pixel (col, row) of a direct-colour picture. */
  function RotatedBmpAddr(e: Env, s: Oam, col: nat, row: nat): int {
    BmpBase(e, s, 0) + 2 * (if e.bmp2D then (BmpBase(e, s, row) - BmpBase(e, s, 0)) / 2 + col else col + row * s.SizeX())
  }

  /** It is where the picture has that pixel iff the picture is mapped one-dimensionally or 256
      pixels wide, or the row is the first: 128 pixels wide it steps by the sprite's own width. */
  lemma RotatedRowsIff(e: Env, s: Oam, col: nat, row: nat)
    requires e.Valid() && s.Valid()
    ensures RotatedBmpAddr(e, s, col, row) == BmpAddr(e, s, col, row) <==> e.bmpMapping || e.bmp2D || row == 0
  {
    BmpRowReaches(e, s, col, row);
    BmpRowReaches(e, s, col, 0);
    assert 2 * (row * s.SizeX()) == row * s.SizeX() * 2;
    if !e.bmpMapping && !e.bmp2D && row > 0 { MulGap(row, s.SizeX(), 128); }
  }

  lemma RotatedDirect(e: Env, s: Oam, col: nat, row: nat)
    requires e.Valid() && s.Valid() && s.mode == 3 && !s.depth && col < s.SizeX() && row < s.SizeY()
    requires e.bmpMapping || e.bmp2D || row == 0
    ensures RotTexel(e, s, col, row) == RotatedDot(e, s, col, row)
  {
    RotatedRowsIff(e, s, col, row);
    RotatedAddrIs(e, s, col, row);
    hide BmpBase, BmpAddr, Memory.Half, RotatedBmpAddr;
  }

  lemma RotatedAddrIs(e: Env, s: Oam, col: nat, row: nat)
    requires e.Valid() && s.Valid() && s.mode == 3 && !s.depth && col < s.SizeX() && row < s.SizeY()
    ensures RotatedBmpAddr(e, s, col, row) >= 0
    ensures var c := e.mem.Half(RotatedBmpAddr(e, s, col, row));
      RotTexel(e, s, col, row) == if s.palette > 0 && c >= 0x8000 then Some(Dot(c, s.palette, 3, false)) else None
  {
    assert BmpBase(e, s, row) >= BmpBase(e, s, 0);
    hide BmpBase, Memory.Half;
  }

  /** A rotated sprite at column u and line v of its field, which is twice as large in double-size
      mode, shows the picture position that its four parameters take it to: they are attr3 of the
      entries 4g to 4g + 3, in 8-bit fixed point, and the middle stays in the middle. */
  lemma RotatedPixel(e: Env, oam: seq<Oam>, i: nat, k: nat, u: nat, v: nat, f: nat, g: nat)
    requires Scene(e, oam) && i < 128 && f == (if oam[i].rotScale == 3 then 2 else 1)
    requires oam[i].rotScale == 1 || oam[i].rotScale == 3
    requires g == oam[i].rotIndex + (if oam[i].hFlip then 8 else 0) + (if oam[i].vFlip then 16 else 0)
    requires Hits(e, oam[i], k, f * oam[i].SizeX(), f * oam[i].SizeY(), u, v)
    ensures var s := oam[i]; var x, y := u - f * s.SizeX() / 2, v - f * s.SizeY() / 2;
      var tx := 128 * s.SizeX() + x * oam[4 * g].attr3 + y * oam[4 * g + 1].attr3;
      var ty := 128 * s.SizeY() + x * oam[4 * g + 2].attr3 + y * oam[4 * g + 3].attr3;
      var d := RotTexel(e, s, tx / 256, ty / 256);
      && SpriteDot(e, oam, i, k) == (if s.mode == 2 && !s.depth then None else d)
      && (WindowDot(e, oam, i, k) <==> s.mode == 2 && !s.depth && d.Some?)
  {
    hide RotTexel, AffineOf;
    var s := oam[i];
    ParametersOf(oam, s, g);
    var a := AffineOf(oam, s);
    assert FieldX(s) == f * s.SizeX() && FieldY(s) == f * s.SizeY();
    MapOf(s, a, u, v);
    hide TextureX, TextureY;
    assert RotDot(e, oam, s, k) == RotTexel(e, s, TextureX(s, a, u, v) / 256, TextureY(s, a, u, v) / 256);
    hide RotDot;
  }

  lemma ParametersOf(oam: seq<Oam>, s: Oam, g: nat)
    requires |oam| == 128 && s.Valid()
    requires g == s.rotIndex + (if s.hFlip then 8 else 0) + (if s.vFlip then 16 else 0)
    ensures AffineOf(oam, s) == Affine(oam[4 * g].attr3, oam[4 * g + 1].attr3, oam[4 * g + 2].attr3, oam[4 * g + 3].attr3)
  {
  }

  lemma MapOf(s: Oam, a: Affine, u: int, v: int)
    ensures TextureX(s, a, u, v) == 128 * s.SizeX() + (u - FieldX(s) / 2) * a.dx + (v - FieldY(s) / 2) * a.dmx
    ensures TextureY(s, a, u, v) == 128 * s.SizeY() + (u - FieldX(s) / 2) * a.dy + (v - FieldY(s) / 2) * a.dmy
  {
  }

  /** With the identity parameters a rotated sprite shows the picture unmirrored, where its one
      pointer reaches it. */
  lemma IdentityShowsPicture(e: Env, oam: seq<Oam>, i: nat, k: nat, u: nat, v: nat, g: nat)
    requires Scene(e, oam) && i < 128 && oam[i].rotScale == 1 && (e.twoD ==> e.boundary == 5)
    requires g == oam[i].rotIndex + (if oam[i].hFlip then 8 else 0) + (if oam[i].vFlip then 16 else 0)
    requires oam[4 * g].attr3 == oam[4 * g + 3].attr3 == 0x100 && oam[4 * g + 1].attr3 == oam[4 * g + 2].attr3 == 0
    requires Hits(e, oam[i], k, oam[i].SizeX(), oam[i].SizeY(), u, v)
    requires if oam[i].mode == 3 && !oam[i].depth then e.bmpMapping || e.bmp2D || v == 0 else PictureInARow(e, oam[i], u, v)
    ensures var s := oam[i];
      && SpriteDot(e, oam, i, k) == (if s.mode == 2 && !s.depth then None else RotatedDot(e, s, u, v))
      && (WindowDot(e, oam, i, k) <==> s.mode == 2 && !s.depth && IndexAt(e, s, u, v) > 0)
  {
    hide RotTexel, RotatedDot, IndexAt, PictureInARow, SpriteDot, WindowDot;
    var s := oam[i];
    RotatedPixel(e, oam, i, k, u, v, 1, g);
    RotTexelIsPicture(e, s, u, v);
    assert (128 * s.SizeX() + (u - s.SizeX() / 2) * 0x100) / 256 == u;
    assert (128 * s.SizeY() + (v - s.SizeY() / 2) * 0x100) / 256 == v;
    if s.mode == 2 { SetTexel(e, s, u, v); }
  }

  lemma SetTexel(e: Env, s: Oam, col: nat, row: nat)
    requires e.Valid() && s.Valid() && s.mode == 2
    ensures RotatedDot(e, s, col, row).Some? <==> IndexAt(e, s, col, row) > 0
  {
    hide IndexAt;
  }
}
