/** The tables that stretch the native 256x192 picture over a larger framebuffer, and the copy
    that uses them. */
module Upscale {
  import opened Types
  import opened Arith
  import opened SinglePrecision
  import opened ScaleCuts

  const NATIVE_WIDTH := 256
  const NATIVE_HEIGHT := 192

  // ----- The axis tables -----

  ghost predicate AxisTables(cuts: seq<nat>, n: nat, count: array<nat>, index: array<nat>)
    reads count, index
  {
    && count.Length == index.Length == n && |cuts| == n + 1
    && forall i :: 0 <= i < n ==> index[i] == cuts[i] && count[i] >= 1 && index[i] + count[i] == cuts[i + 1]
  }

  /** The counts and start positions of one axis: each count is what the next multiple of the
      scale, rounded up, adds to the counts before it. */
  method FillAxis(n: nat, size: nat, count: array<nat>, index: array<nat>)
    requires Convertible(n, size) && Fits(n, size) && count != index && count.Length == index.Length == n
    modifies count, index
    ensures Partition(FloatCuts(n, size), n, size) && AxisTables(FloatCuts(n, size), n, count, index)
  {
    FloatCutsPartitionIff(n, size);
    hide Cut, Fits;
    ghost var cuts := FloatCuts(n, size);
    var current := 0;
    for i := 0 to n
      invariant current == cuts[i]
      invariant forall k :: 0 <= k < i ==>
                  index[k] == cuts[k] && count[k] >= 1 && index[k] + count[k] == cuts[k + 1]
    {
      assert cuts[i] < cuts[i + 1] == Cut(n, size, i + 1);
      var pitch := Cut(n, size, i + 1) - current;
      count[i] := pitch;
      index[i] := current;
      current := current + pitch;
    }
  }

  // ----- The pixel table -----

  /** The native pixel shown at position d of a picture w wide, cut at xs and ys. */
  function SourcePixel(xs: seq<nat>, ys: seq<nat>, w: nat, d: nat): (r: nat)
    requires w >= 1 && |xs| == NATIVE_WIDTH + 1 && |ys| == NATIVE_HEIGHT + 1 && xs[0] == ys[0] == 0
    ensures r < NATIVE_WIDTH * NATIVE_HEIGHT
  {
    Owner(ys, NATIVE_HEIGHT, d / w) * NATIVE_WIDTH + Owner(xs, NATIVE_WIDTH, d % w)
  }

  /** A stretch of one row, as positions and as row and column. */
  lemma RowSegment(w: nat, row: nat, col: nat, len: nat, d: nat)
    requires w >= 1 && col + len <= w
    ensures row * w + col <= d < row * w + col + len <==> d / w == row && col <= d % w < col + len
  {
    assert d == w * (d / w) + d % w;
    if row * w + col <= d < row * w + col + len {
      Quotient(d, w, row, d - row * w);
    }
  }

  predicate InBlock(w: nat, d: nat, row: nat, rows: nat, col: nat, cols: nat)
    requires w >= 1
  {
    row <= d / w < row + rows && col <= d % w < col + cols
  }

  /** All destination pixels of one native pixel, line by line. */
  method FillBlock(table: array<nat>, w: nat, row: nat, rows: nat, col: nat, cols: nat, v: nat)
    requires w >= 1 && col + cols <= w && (row + rows) * w <= table.Length
    modifies table
    ensures forall d :: 0 <= d < table.Length ==>
              table[d] == if InBlock(w, d, row, rows, col, cols) then v else old(table[d])
  {
    for l := 0 to rows
      invariant forall d :: 0 <= d < table.Length ==>
                  table[d] == if InBlock(w, d, row, l, col, cols) then v else old(table[d])
    {
      var base := (row + l) * w + col;
      RowFits(w, row, rows, l);
      for p := 0 to cols
        invariant forall d :: 0 <= d < table.Length ==>
                    table[d] == if base <= d < base + p || InBlock(w, d, row, l, col, cols) then v else old(table[d])
      {
        table[base + p] := v;
      }
      forall d | 0 <= d < table.Length
        ensures base <= d < base + cols <==> d / w == row + l && col <= d % w < col + cols
      {
        RowSegment(w, row + l, col, cols, d);
      }
    }
  }

  lemma RowFits(w: nat, row: nat, rows: nat, l: nat)
    requires l < rows
    ensures (row + l) * w + w <= (row + rows) * w
  {
    MulGap(w, row + l, row + rows);
  }

  /** All blocks of one native line. */
  method FillLine(table: array<nat>, ghost xs: seq<nat>, w: nat, y: nat, row: nat, rows: nat,
                  pitchCount: array<nat>, pitchIndex: array<nat>)
    requires Partition(xs, NATIVE_WIDTH, w) && w >= 1 && AxisTables(xs, NATIVE_WIDTH, pitchCount, pitchIndex)
    requires table != pitchCount && table != pitchIndex && (row + rows) * w <= table.Length
    modifies table
    ensures forall d :: 0 <= d < table.Length ==>
              table[d] == if row <= d / w < row + rows then y * NATIVE_WIDTH + Owner(xs, NATIVE_WIDTH, d % w) else old(table[d])
  {
    for x := 0 to NATIVE_WIDTH
      invariant forall d :: 0 <= d < table.Length ==>
                  table[d] == if row <= d / w < row + rows && d % w < xs[x]
                              then y * NATIVE_WIDTH + Owner(xs, NATIVE_WIDTH, d % w) else old(table[d])
    {
      CutsMonotone(xs, NATIVE_WIDTH, w, x + 1, NATIVE_WIDTH);
      FillBlock(table, w, row, rows, pitchIndex[x], pitchCount[x], y * NATIVE_WIDTH + x);
      forall d | 0 <= d < table.Length
        ensures pitchIndex[x] <= d % w < pitchIndex[x] + pitchCount[x] <==> x == Owner(xs, NATIVE_WIDTH, d % w)
      {
        Located(xs, NATIVE_WIDTH, w, x, d % w);
      }
    }
  }

  /** The destination-to-source table: every cell holds the one native pixel it shows. */
  method FillTable(table: array<nat>, ghost xs: seq<nat>, ghost ys: seq<nat>, w: nat, ghost h: nat,
                   pitchCount: array<nat>, pitchIndex: array<nat>, lineCount: array<nat>, lineIndex: array<nat>)
    requires w >= 1 && Partition(xs, NATIVE_WIDTH, w) && Partition(ys, NATIVE_HEIGHT, h) && table.Length == h * w
    requires AxisTables(xs, NATIVE_WIDTH, pitchCount, pitchIndex) && AxisTables(ys, NATIVE_HEIGHT, lineCount, lineIndex)
    requires table != pitchCount && table != pitchIndex && table != lineCount && table != lineIndex
    modifies table
    ensures forall d :: 0 <= d < table.Length ==> table[d] == SourcePixel(xs, ys, w, d)
  {
    for y := 0 to NATIVE_HEIGHT
      invariant forall d :: 0 <= d < table.Length && d / w < ys[y] ==> table[d] == SourcePixel(xs, ys, w, d)
    {
      var row, rows := lineIndex[y], lineCount[y];
      LinesFit(ys, w, h, y);
      FillLine(table, xs, w, y, row, rows, pitchCount, pitchIndex);
      forall d | 0 <= d < table.Length && row <= d / w < row + rows
        ensures table[d] == SourcePixel(xs, ys, w, d)
      {
        RowInRange(w, h, d);
        Located(ys, NATIVE_HEIGHT, h, y, d / w);
      }
    }
    forall d | 0 <= d < table.Length ensures d / w < ys[NATIVE_HEIGHT] {
      RowInRange(w, h, d);
    }
  }

  lemma RowInRange(w: nat, h: nat, d: nat)
    requires w >= 1 && d < h * w
    ensures d / w < h
  {
    FloorBounds(d, w);
    MulLess(w, d / w, h);
  }

  lemma LinesFit(ys: seq<nat>, w: nat, h: nat, y: nat)
    requires Partition(ys, NATIVE_HEIGHT, h) && y < NATIVE_HEIGHT
    ensures ys[y + 1] * w <= h * w
  {
    CutsMonotone(ys, NATIVE_HEIGHT, h, y + 1, NATIVE_HEIGHT);
    MulGap(w, ys[y + 1], h);
  }

  /** The table, in new memory. */
  method NewTable(ghost xs: seq<nat>, ghost ys: seq<nat>, w: nat, h: nat,
                  pitchCount: array<nat>, pitchIndex: array<nat>, lineCount: array<nat>, lineIndex: array<nat>)
      returns (table: array<nat>)
    requires w >= 1 && Partition(xs, NATIVE_WIDTH, w) && Partition(ys, NATIVE_HEIGHT, h)
    requires AxisTables(xs, NATIVE_WIDTH, pitchCount, pitchIndex) && AxisTables(ys, NATIVE_HEIGHT, lineCount, lineIndex)
    ensures fresh(table) && table.Length == h * w
    ensures forall d :: 0 <= d < h * w ==> table[d] == SourcePixel(xs, ys, w, d)
  {
    table := new nat[h * w];
    FillTable(table, xs, ys, w, h, pitchCount, pitchIndex, lineCount, lineIndex);
  }

  /** Sizes for which the cuts of both axes come out right. */
  predicate Representable(w: nat, h: nat) {
    Convertible(NATIVE_WIDTH, w) && Convertible(NATIVE_HEIGHT, h) && Fits(NATIVE_HEIGHT, h)
  }

  /** The tables of a framebuffer size; a size below the native one is ignored. */
  method SetCustomFramebufferSize(w: nat, h: nat) returns (ok: bool, table: array<nat>,
      pitchCount: array<nat>, pitchIndex: array<nat>, lineCount: array<nat>, lineIndex: array<nat>)
    requires w >= NATIVE_WIDTH && h >= NATIVE_HEIGHT ==> Representable(w, h)
    ensures ok <==> w >= NATIVE_WIDTH && h >= NATIVE_HEIGHT
    ensures ok ==> var xs, ys := FloatCuts(NATIVE_WIDTH, w), FloatCuts(NATIVE_HEIGHT, h);
      && Partition(xs, NATIVE_WIDTH, w) && Partition(ys, NATIVE_HEIGHT, h)
      && AxisTables(xs, NATIVE_WIDTH, pitchCount, pitchIndex) && AxisTables(ys, NATIVE_HEIGHT, lineCount, lineIndex)
      && table.Length == h * w && forall d :: 0 <= d < h * w ==> table[d] == SourcePixel(xs, ys, w, d)
  {
    pitchCount, pitchIndex := new nat[NATIVE_WIDTH], new nat[NATIVE_WIDTH];
    lineCount, lineIndex := new nat[NATIVE_HEIGHT], new nat[NATIVE_HEIGHT];
    if w < NATIVE_WIDTH || h < NATIVE_HEIGHT {
      table := new nat[0];
      return false, table, pitchCount, pitchIndex, lineCount, lineIndex;
    }
    FillAxis(NATIVE_WIDTH, w, pitchCount, pitchIndex);
    FillAxis(NATIVE_HEIGHT, h, lineCount, lineIndex);
    hide FloatCuts, Fits;
    table := NewTable(FloatCuts(NATIVE_WIDTH, w), FloatCuts(NATIVE_HEIGHT, h), w, h, pitchCount, pitchIndex, lineCount, lineIndex);
    ok := true;
  }

  // ----- The copy -----

  function Pixel(native: array<nat>, i: nat): nat
    reads native
  {
    if i < native.Length then native[i] else 0
  }

  /** The native line starting at src, stretched to w pixels. */
  function Stretched(native: array<nat>, xs: seq<nat>, src: nat, w: nat): (r: seq<nat>)
    requires |xs| == NATIVE_WIDTH + 1 && xs[0] == 0
    reads native
    ensures |r| == w
  {
    seq(w, t requires 0 <= t < w reads native => Pixel(native, src + Owner(xs, NATIVE_WIDTH, t)))
  }

  /** A row of the destination. */
  function Row(picture: seq<nat>, w: nat, r: nat): seq<nat> {
    if r * w + w <= |picture| then picture[r * w..r * w + w] else []
  }

  lemma RowInside(w: nat, r: nat, rows: nat)
    requires r < rows
    ensures r * w + w <= rows * w
  {
    MulGap(w, r, rows);
  }

  /** Pictures that agree above a row have the same rows there. */
  lemma RowsAboveSame(a: seq<nat>, b: seq<nat>, w: nat, row: nat)
    requires |a| == |b| && row * w <= |a| && a[..row * w] == b[..row * w]
    ensures forall r :: 0 <= r < row ==> Row(a, w, r) == Row(b, w, r)
  {
    forall r | 0 <= r < row ensures Row(a, w, r) == Row(b, w, r) {
      RowInside(w, r, row);
      assert a[r * w..r * w + w] == a[..row * w][r * w..r * w + w];
      assert b[r * w..r * w + w] == b[..row * w][r * w..r * w + w];
    }
  }

  /** One native line spread over one destination row. */
  method SpreadLine(native: array<nat>, custom: array<nat>, ghost xs: seq<nat>, src: nat, row: nat, w: nat,
                    pitchCount: array<nat>, pitchIndex: array<nat>)
    requires Partition(xs, NATIVE_WIDTH, w) && AxisTables(xs, NATIVE_WIDTH, pitchCount, pitchIndex)
    requires custom != native && custom != pitchCount && custom != pitchIndex
    requires src + NATIVE_WIDTH <= native.Length && row * w + w <= custom.Length
    modifies custom
    ensures Row(custom[..], w, row) == Stretched(native, xs, src, w)
    ensures custom[..row * w] == old(custom[..row * w])
  {
    var dst := row * w;
    ghost var line, above := Stretched(native, xs, src, w), custom[..dst];
    ghost var done := 0;
    for x := 0 to NATIVE_WIDTH
      invariant done == xs[x] && done <= w
      invariant custom[dst..dst + done] == line[..done]
      invariant custom[..dst] == above
    {
      CutsMonotone(xs, NATIVE_WIDTH, w, x + 1, NATIVE_WIDTH);
      done := xs[x + 1];
      SpreadPixel(native, custom, xs, src, dst, w, x, pitchIndex[x], pitchCount[x], line);
    }
    assert custom[dst..dst + w] == line;
  }

  /** All copies of one pixel of the line. */
  method SpreadPixel(native: array<nat>, custom: array<nat>, ghost xs: seq<nat>, src: nat, dst: nat, ghost w: nat, x: nat,
                     first: nat, count: nat, ghost line: seq<nat>)
    requires Partition(xs, NATIVE_WIDTH, w) && x < NATIVE_WIDTH && custom != native
    requires first == xs[x] && first + count == xs[x + 1] && first + count <= w
    requires src + NATIVE_WIDTH <= native.Length && dst + w <= custom.Length && line == Stretched(native, xs, src, w)
    requires custom[dst..dst + first] == line[..first]
    modifies custom
    ensures custom[dst..dst + (first + count)] == line[..first + count]
    ensures custom[..dst] == old(custom[..dst])
  {
    for p := 0 to count
      invariant custom[dst..dst + (first + p)] == line[..first + p]
      invariant custom[..dst] == old(custom[..dst])
    {
      Located(xs, NATIVE_WIDTH, w, x, first + p);
      assert line[first + p] == native[src + x];
      custom[dst + (first + p)] := native[src + x];
    }
  }

  /** memcpy of one destination row to a later one. */
  method CopyRow(custom: array<nat>, from: nat, to: nat, w: nat)
    requires from * w + w <= to * w && to * w + w <= custom.Length
    modifies custom
    ensures Row(custom[..], w, to) == old(Row(custom[..], w, from))
    ensures custom[..to * w] == old(custom[..to * w])
  {
    var src, dst := from * w, to * w;
    ghost var line := custom[src..src + w];
    for t := 0 to w
      invariant forall j :: 0 <= j < t ==> custom[dst + j] == line[j]
      invariant forall d :: 0 <= d < dst ==> custom[d] == old(custom[d])
    {
      assert line[t] == custom[src + t];
      custom[dst + t] := custom[src + t];
    }
    assert custom[dst..dst + w] == line;
  }

  /** One native line: the first destination row is built, the others are copies of it. */
  method BlitLine(native: array<nat>, custom: array<nat>, ghost xs: seq<nat>, src: nat, row: nat, rows: nat, w: nat,
                  pitchCount: array<nat>, pitchIndex: array<nat>)
    requires Partition(xs, NATIVE_WIDTH, w) && AxisTables(xs, NATIVE_WIDTH, pitchCount, pitchIndex)
    requires custom != native && custom != pitchCount && custom != pitchIndex
    requires src + NATIVE_WIDTH <= native.Length && rows >= 1 && (row + rows) * w <= custom.Length
    modifies custom
    ensures forall r :: row <= r < row + rows ==> Row(custom[..], w, r) == Stretched(native, xs, src, w)
    ensures forall r :: 0 <= r < row ==> Row(custom[..], w, r) == old(Row(custom[..], w, r))
  {
    hide Row, Stretched, Owner;
    RowInside(w, row, row + rows);
    ghost var p0 := custom[..];
    SpreadLine(native, custom, xs, src, row, w, pitchCount, pitchIndex);
    RowsAboveSame(custom[..], p0, w, row);
    for line := 1 to rows
      invariant forall r :: row <= r < row + line ==> Row(custom[..], w, r) == Stretched(native, xs, src, w)
      invariant forall r :: 0 <= r < row ==> Row(custom[..], w, r) == Row(p0, w, r)
    {
      RowInside(w, row + line, row + rows);
      RowInside(w, row, row + line);
      ghost var p1 := custom[..];
      CopyRow(custom, row, row + line, w);
      RowsAboveSame(custom[..], p1, w, row + line);
    }
  }

  /** What row r of the stretched picture shows. */
  function PictureRow(native: array<nat>, xs: seq<nat>, ys: seq<nat>, w: nat, r: nat): seq<nat>
    reads native
    requires |xs| == NATIVE_WIDTH + 1 && |ys| == NATIVE_HEIGHT + 1 && xs[0] == ys[0] == 0
  {
    Stretched(native, xs, Owner(ys, NATIVE_HEIGHT, r) * NATIVE_WIDTH, w)
  }

  /** BlitNativeToCustomFramebuffer: every destination pixel is the native pixel that the
      destination-to-source table names. */
  method Blit(native: array<nat>, custom: array<nat>, ghost xs: seq<nat>, ghost ys: seq<nat>, w: nat, ghost h: nat,
              pitchCount: array<nat>, pitchIndex: array<nat>, lineCount: array<nat>, lineIndex: array<nat>)
    requires w >= 1 && Partition(xs, NATIVE_WIDTH, w) && Partition(ys, NATIVE_HEIGHT, h)
    requires native.Length == NATIVE_WIDTH * NATIVE_HEIGHT && custom.Length == h * w
    requires AxisTables(xs, NATIVE_WIDTH, pitchCount, pitchIndex) && AxisTables(ys, NATIVE_HEIGHT, lineCount, lineIndex)
    requires custom != native && custom != pitchCount && custom != pitchIndex && custom != lineCount && custom != lineIndex
    modifies custom
    ensures forall d :: 0 <= d < h * w ==>
              SourcePixel(xs, ys, w, d) < native.Length && custom[d] == native[SourcePixel(xs, ys, w, d)]
  {
    var src, row := 0, 0;
    for y := 0 to NATIVE_HEIGHT
      invariant src == y * NATIVE_WIDTH && row == ys[y]
      invariant forall r :: 0 <= r < row ==> Row(custom[..], w, r) == PictureRow(native, xs, ys, w, r)
    {
      LinesFit(ys, w, h, y);
      CutsMonotone(ys, NATIVE_HEIGHT, h, y + 1, NATIVE_HEIGHT);
      var rows := lineCount[y];
      BlitLine(native, custom, xs, src, row, rows, w, pitchCount, pitchIndex);
      forall r | row <= r < row + rows ensures Row(custom[..], w, r) == PictureRow(native, xs, ys, w, r) {
        Located(ys, NATIVE_HEIGHT, h, y, r);
      }
      src := src + NATIVE_WIDTH;
      row := row + rows;
    }
    PictureComplete(native, custom, xs, ys, w, h);
  }

  lemma RowElement(picture: seq<nat>, w: nat, h: nat, d: nat)
    requires w >= 1 && |picture| == h * w && d < h * w
    ensures |Row(picture, w, d / w)| == w && Row(picture, w, d / w)[d % w] == picture[d]
  {
    RowInRange(w, h, d);
    RowInside(w, d / w, h);
    assert d == (d / w) * w + d % w;
  }

  lemma PictureComplete(native: array<nat>, custom: array<nat>, xs: seq<nat>, ys: seq<nat>, w: nat, h: nat)
    requires w >= 1 && Partition(xs, NATIVE_WIDTH, w) && Partition(ys, NATIVE_HEIGHT, h)
    requires custom.Length == h * w && native.Length == NATIVE_WIDTH * NATIVE_HEIGHT
    requires forall r :: 0 <= r < h ==> Row(custom[..], w, r) == PictureRow(native, xs, ys, w, r)
    ensures forall d :: 0 <= d < h * w ==>
              SourcePixel(xs, ys, w, d) < native.Length && custom[d] == native[SourcePixel(xs, ys, w, d)]
  {
    forall d | 0 <= d < h * w
      ensures SourcePixel(xs, ys, w, d) < native.Length && custom[d] == native[SourcePixel(xs, ys, w, d)]
    {
      RowInRange(w, h, d);
      RowElement(custom[..], w, h, d);
      assert Row(custom[..], w, d / w) == PictureRow(native, xs, ys, w, d / w);
    }
  }
}
