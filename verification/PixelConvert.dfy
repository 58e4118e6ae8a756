/// The conversions over whole strided buffers (src/core/pixel_convert.cpp:
/// 68-110, 124-197).
module PixelConvert {
  import opened Basics
  import opened Quotients
  import opened BlitGeometry
  import opened BlitBuffers
  import opened PixelArithmetic

  /// One BGRA pixel made straight.
  function StraightPixel(p: seq<Byte>): (r: seq<Byte>)
    ensures |p| == 4 ==> |r| == 4
  {
    if |p| != 4 then []
    else [Straight(p[0], p[3]), Straight(p[1], p[3]), Straight(p[2], p[3]), p[3]]
  }

  /// One BGRA pixel over a background, opaque.
  function OverPixel(p: seq<Byte>, background: (Byte, Byte, Byte)): (r: seq<Byte>)
    ensures |p| == 4 ==> |r| == 4
  {
    if |p| != 4 then []
    else [Over(p[0], background.0, p[3]), Over(p[1], background.1, p[3]), Over(p[2], background.2, p[3]), 255]
  }

  /// Two BGRA pixels as one UYVY group; chroma from their average.
  function UyvyPair(p: seq<Byte>, c: Coefficients): (r: seq<Byte>)
    ensures |p| == 8 ==> |r| == 4
  {
    if |p| != 8 then []
    else
      var b, g, r := Average(p[0], p[4]), Average(p[1], p[5]), Average(p[2], p[6]);
      [Clamp(Cb(c, b, g, r)), Clamp(Luma(c, p[0], p[1], p[2])), Clamp(Cr(c, b, g, r)), Clamp(Luma(c, p[4], p[5], p[6]))]
  }

  predicate Premultiplied4(p: seq<Byte>) { |p| == 4 && p[0] <= p[3] && p[1] <= p[3] && p[2] <= p[3] }

  /// Multiplying a straight pixel by its alpha again.
  function MultiplyBack(p: seq<Byte>): seq<int>
    requires |p| == 4
  {
    [Premultiplied(p[0], p[3]), Premultiplied(p[1], p[3]), Premultiplied(p[2], p[3]), p[3]]
  }

  lemma StraightPixelRoundTrip(p: seq<Byte>)
    requires Premultiplied4(p)
    ensures MultiplyBack(StraightPixel(p)) == p
  {
    StraightRoundTrip(p[0], p[3]);
    StraightRoundTrip(p[1], p[3]);
    StraightRoundTrip(p[2], p[3]);
  }

  /// A source of `cells` cells of `take` bytes a row.
  predicate SourceOk(source: seq<Byte>, stride: nat, take: nat, cells: nat, rows: nat) {
    rows == 0 || Times(rows - 1, stride) + Times(cells, take) <= |source|
  }

  predicate DestOk(size: nat, stride: nat, cells: nat, rows: nat) {
    BlitBuffers.Holds(size, cells, rows, stride) && 4 * cells <= stride
  }

  function CellAt(source: seq<Byte>, stride: nat, take: nat, x: nat, y: nat): (cell: seq<Byte>)
    requires Times(y, stride) + Times(x, take) + take <= |source|
    ensures |cell| == take
  {
    source[Times(y, stride) + Times(x, take)..Times(y, stride) + Times(x, take) + take]
  }

  lemma CellInRange(source: seq<Byte>, stride: nat, take: nat, cells: nat, rows: nat, x: nat, y: nat)
    requires SourceOk(source, stride, take, cells, rows) && x < cells && y < rows
    ensures Times(y, stride) + Times(x, take) + take <= |source|
  {
    TimesMonotone(y, rows - 1, stride);
    TimesGrows(x, cells, take);
  }

  /// Cell (x, y) of the destination is the conversion of cell (x, y) of the
  /// source.
  ghost predicate CellDone(f: seq<Byte> -> seq<Byte>, source: seq<Byte>, stride: nat, take: nat, d: seq<Byte>, destStride: nat, x: nat, y: nat) {
    && Times(y, stride) + Times(x, take) + take <= |source| && At(x, y, destStride) + 4 <= |d|
    && d[At(x, y, destStride)..At(x, y, destStride) + 4] == f(CellAt(source, stride, take, x, y))
  }

  ghost predicate Converted(f: seq<Byte> -> seq<Byte>, source: seq<Byte>, stride: nat, take: nat, d: seq<Byte>, destStride: nat, r: Rect) {
    forall x: nat, y: nat :: Has(r, x, y) ==> CellDone(f, source, stride, take, d, destStride, x, y)
  }

  lemma CellStays(f: seq<Byte> -> seq<Byte>, source: seq<Byte>, stride: nat, take: nat, before: seq<Byte>, after: seq<Byte>,
                  destStride: nat, r: Rect, width: nat, x: nat, y: nat)
    requires 4 * width <= destStride && r.right <= width && x < width && SameOutside(before, after, r, destStride)
    requires !Has(r, x, y) && CellDone(f, source, stride, take, before, destStride, x, y)
    ensures CellDone(f, source, stride, take, after, destStride, x, y)
  {
    var at := At(x, y, destStride);
    forall i | at <= i < at + 4 ensures after[i] == before[i] {
      PixelInRect(x, y, i - at, r, width, destStride);
    }
    assert after[at..at + 4] == before[at..at + 4];
  }

  /// Converting one rectangle and then the one beside it converts both.
  lemma ConvertedBoth(f: seq<Byte> -> seq<Byte>, source: seq<Byte>, stride: nat, take: nat,
                      d0: seq<Byte>, d1: seq<Byte>, d2: seq<Byte>, destStride: nat, width: nat, a: Rect, b: Rect, both: Rect)
    requires 4 * width <= destStride && both.right <= width && Joins(a, b, both)
    requires Converted(f, source, stride, take, d1, destStride, a) && SameOutside(d0, d1, a, destStride)
    requires Converted(f, source, stride, take, d2, destStride, b) && SameOutside(d1, d2, b, destStride)
    ensures Converted(f, source, stride, take, d2, destStride, both) && SameOutside(d0, d2, both, destStride)
  {
    forall x: nat, y: nat | Has(both, x, y) ensures CellDone(f, source, stride, take, d2, destStride, x, y) {
      if !Has(b, x, y) { CellStays(f, source, stride, take, d1, d2, destStride, b, width, x, y); }
    }
    forall i | 0 <= i < |d0| && !InRect(i, both, destStride) ensures d2[i] == d0[i] {
      if InRect(i, a, destStride) { InRectGrows(i, a, both, destStride); }
      if InRect(i, b, destStride) { InRectGrows(i, b, both, destStride); }
    }
  }

  /// Four bytes written at cell (x, y).
  method PutCell(cell: seq<Byte>, dest: array<Byte>, at: nat)
    requires |cell| == 4 && at + 4 <= dest.Length
    modifies dest
    ensures Copied(old(dest[..]), dest[..], at, 4, cell, 0)
  {
    dest[at], dest[at + 1], dest[at + 2], dest[at + 3] := cell[0], cell[1], cell[2], cell[3];
  }

  lemma CellWritten(f: seq<Byte> -> seq<Byte>, source: seq<Byte>, stride: nat, take: nat, before: seq<Byte>, after: seq<Byte>,
                    destStride: nat, x: nat, y: nat, cell: seq<Byte>)
    requires Times(y, stride) + Times(x, take) + take <= |source| && cell == f(CellAt(source, stride, take, x, y))
    requires |cell| == 4 && Copied(before, after, At(x, y, destStride), 4, cell, 0)
    ensures Converted(f, source, stride, take, after, destStride, Rect(x, y, x + 1, y + 1))
    ensures SameOutside(before, after, Rect(x, y, x + 1, y + 1), destStride)
  {
    var at, r := At(x, y, destStride), Rect(x, y, x + 1, y + 1);
    WrittenSlice(before, after, at, cell);
    OneCell(before, after, at, cell, r, destStride);
    OneCellDone(f, source, stride, take, after, destStride, x, y);
  }

  lemma WrittenSlice(before: seq<Byte>, after: seq<Byte>, at: nat, cell: seq<Byte>)
    requires |cell| == 4 && Copied(before, after, at, 4, cell, 0)
    ensures after[at..at + 4] == cell
  {
  }

  lemma OneCellDone(f: seq<Byte> -> seq<Byte>, source: seq<Byte>, stride: nat, take: nat, d: seq<Byte>, destStride: nat, x: nat, y: nat)
    requires CellDone(f, source, stride, take, d, destStride, x, y)
    ensures Converted(f, source, stride, take, d, destStride, Rect(x, y, x + 1, y + 1))
  {
    forall z: nat, w: nat | Has(Rect(x, y, x + 1, y + 1), z, w) ensures CellDone(f, source, stride, take, d, destStride, z, w) {
      assert z == x && w == y;
    }
  }

  lemma OneCell(before: seq<Byte>, after: seq<Byte>, at: nat, cell: seq<Byte>, r: Rect, stride: nat)
    requires |cell| == 4 && Copied(before, after, at, 4, cell, 0)
    requires r.right == r.left + 1 && r.bottom == r.top + 1 && at == At(r.left, r.top, stride)
    ensures SameOutside(before, after, r, stride)
  {
    forall i | 0 <= i < |before| && !InRect(i, r, stride) ensures after[i] == before[i] {
      assert at <= i < at + 4 ==> Times(r.top, stride) + 4 * r.left <= i < Times(r.top, stride) + 4 * r.right;
    }
  }

  /// One row, cell by cell.
  method ConvertRow(f: seq<Byte> -> seq<Byte>, source: seq<Byte>, stride: nat, take: nat, dest: array<Byte>, destStride: nat,
                    cells: nat, rows: nat, y: nat)
    requires y < rows && SourceOk(source, stride, take, cells, rows) && DestOk(dest.Length, destStride, cells, rows)
    requires forall p: seq<Byte> :: |p| == take ==> |f(p)| == 4
    modifies dest
    ensures Converted(f, source, stride, take, dest[..], destStride, Rect(0, y, cells, y + 1))
    ensures SameOutside(old(dest[..]), dest[..], Rect(0, y, cells, y + 1), destStride)
  {
    ghost var before := dest[..];
    var from, to := y * stride, y * destStride;
    TimesIs(y, stride);
    TimesIs(y, destStride);
    TimesMonotone(y, rows - 1, destStride);
    for x := 0 to cells
      modifies dest
      invariant from == Times(y, stride) + Times(x, take) && to == At(x, y, destStride) && dest.Length == |before|
      invariant Converted(f, source, stride, take, dest[..], destStride, Rect(0, y, x, y + 1))
      invariant SameOutside(before, dest[..], Rect(0, y, x, y + 1), destStride)
    {
      ghost var partly := dest[..];
      CellInRange(source, stride, take, cells, rows, x, y);
      var cell := f(source[from..from + take]);
      PutCell(cell, dest, to);
      CellWritten(f, source, stride, take, partly, dest[..], destStride, x, y, cell);
      ConvertedBoth(f, source, stride, take, before, partly, dest[..], destStride, cells,
                    Rect(0, y, x, y + 1), Rect(x, y, x + 1, y + 1), Rect(0, y, x + 1, y + 1));
      from, to := from + take, to + 4;
    }
  }

  /// The loop all three conversions share: rows of cells of `take` source bytes
  /// to cells of four.
  method Convert(f: seq<Byte> -> seq<Byte>, source: seq<Byte>, stride: nat, take: nat, dest: array<Byte>, destStride: nat,
                 cells: nat, rows: nat)
    requires SourceOk(source, stride, take, cells, rows) && DestOk(dest.Length, destStride, cells, rows)
    requires forall p: seq<Byte> :: |p| == take ==> |f(p)| == 4
    modifies dest
    ensures Converted(f, source, stride, take, dest[..], destStride, Rect(0, 0, cells, rows))
    ensures SameOutside(old(dest[..]), dest[..], Rect(0, 0, cells, rows), destStride)
  {
    ghost var before := dest[..];
    for y := 0 to rows
      modifies dest
      invariant dest.Length == |before|
      invariant Converted(f, source, stride, take, dest[..], destStride, Rect(0, 0, cells, y))
      invariant SameOutside(before, dest[..], Rect(0, 0, cells, y), destStride)
    {
      ghost var partly := dest[..];
      ConvertRow(f, source, stride, take, dest, destStride, cells, rows, y);
      ConvertedBoth(f, source, stride, take, before, partly, dest[..], destStride, cells,
                    Rect(0, 0, cells, y), Rect(0, y, cells, y + 1), Rect(0, 0, cells, y + 1));
    }
  }

  /// Straight alpha: every premultiplied pixel comes back exactly when
  /// multiplied again.
  method UnpremultiplyBgra(source: seq<Byte>, stride: nat, dest: array<Byte>, destStride: nat, width: nat, height: nat)
    requires SourceOk(source, stride, 4, width, height) && DestOk(dest.Length, destStride, width, height)
    modifies dest
    ensures Converted(StraightPixel, source, stride, 4, dest[..], destStride, Rect(0, 0, width, height))
    ensures SameOutside(old(dest[..]), dest[..], Rect(0, 0, width, height), destStride)
  {
    Convert(StraightPixel, source, stride, 4, dest, destStride, width, height);
  }

  method CompositeOverBgra(source: seq<Byte>, stride: nat, dest: array<Byte>, destStride: nat, width: nat, height: nat,
                           blue: Byte, green: Byte, red: Byte)
    requires SourceOk(source, stride, 4, width, height) && DestOk(dest.Length, destStride, width, height)
    modifies dest
    ensures Converted(p => OverPixel(p, (blue, green, red)), source, stride, 4, dest[..], destStride, Rect(0, 0, width, height))
    ensures SameOutside(old(dest[..]), dest[..], Rect(0, 0, width, height), destStride)
  {
    Convert(p => OverPixel(p, (blue, green, red)), source, stride, 4, dest, destStride, width, height);
  }

  /// Pairs of pixels: the last column of an odd width is left as it was.
  method BgraToUyvy(source: seq<Byte>, stride: nat, dest: array<Byte>, destStride: nat, width: nat, height: nat, matrix: Matrix)
    requires SourceOk(source, stride, 8, width / 2, height) && DestOk(dest.Length, destStride, width / 2, height)
    modifies dest
    ensures Converted(p => UyvyPair(p, For(matrix, height)), source, stride, 8, dest[..], destStride, Rect(0, 0, width / 2, height))
    ensures SameOutside(old(dest[..]), dest[..], Rect(0, 0, width / 2, height), destStride)
  {
    Convert(p => UyvyPair(p, For(matrix, height)), source, stride, 8, dest, destStride, width / 2, height);
  }

  // ------------------------------------------------------- over whole buffers

  /// A whole buffer of premultiplied pixels survives: whatever the strides, the
  /// straight buffer multiplied back is the source, pixel for pixel.
  lemma BufferRoundTrip(source: seq<Byte>, stride: nat, d: seq<Byte>, destStride: nat, width: nat, height: nat, x: nat, y: nat)
    requires Converted(StraightPixel, source, stride, 4, d, destStride, Rect(0, 0, width, height))
    requires x < width && y < height && SourceOk(source, stride, 4, width, height)
    requires Times(y, stride) + Times(x, 4) + 4 <= |source| && Premultiplied4(CellAt(source, stride, 4, x, y))
    ensures At(x, y, destStride) + 4 <= |d|
    ensures MultiplyBack(d[At(x, y, destStride)..At(x, y, destStride) + 4]) == CellAt(source, stride, 4, x, y)
  {
    assert Has(Rect(0, 0, width, height), x, y);
    assert CellDone(StraightPixel, source, stride, 4, d, destStride, x, y);
    StraightPixelRoundTrip(CellAt(source, stride, 4, x, y));
  }

  /// Over a whole buffer of premultiplied pixels the composite is the unclamped
  /// `over` of every channel, opaque: no fast path or clamp changes a byte.
  lemma BufferOver(source: seq<Byte>, stride: nat, d: seq<Byte>, destStride: nat, width: nat, height: nat,
                   background: (Byte, Byte, Byte), x: nat, y: nat)
    requires Converted(p => OverPixel(p, background), source, stride, 4, d, destStride, Rect(0, 0, width, height))
    requires x < width && y < height
    requires Times(y, stride) + Times(x, 4) + 4 <= |source| && Premultiplied4(CellAt(source, stride, 4, x, y))
    ensures At(x, y, destStride) + 4 <= |d|
    ensures var p := CellAt(source, stride, 4, x, y);
            d[At(x, y, destStride)..At(x, y, destStride) + 4]
            == [OverGeneral(p[0], background.0, p[3]), OverGeneral(p[1], background.1, p[3]),
                OverGeneral(p[2], background.2, p[3]), 255]
  {
    assert Has(Rect(0, 0, width, height), x, y);
    assert CellDone(p => OverPixel(p, background), source, stride, 4, d, destStride, x, y);
    var p := CellAt(source, stride, 4, x, y);
    OverIsGeneral(p[0], background.0, p[3]);
    OverIsGeneral(p[1], background.1, p[3]);
    OverIsGeneral(p[2], background.2, p[3]);
  }

  /// Over a whole buffer of any pixels the UYVY bytes are the matrix's own
  /// values, unclamped and in studio range; a grey pair comes out neutral.
  lemma BufferUyvy(source: seq<Byte>, stride: nat, d: seq<Byte>, destStride: nat, width: nat, height: nat, matrix: Matrix, x: nat, y: nat)
    requires Converted(p => UyvyPair(p, For(matrix, height)), source, stride, 8, d, destStride, Rect(0, 0, width / 2, height))
    requires x < width / 2 && y < height && Times(y, stride) + Times(x, 8) + 8 <= |source|
    ensures At(x, y, destStride) + 4 <= |d|
    ensures var p, c, at := CellAt(source, stride, 8, x, y), For(matrix, height), At(x, y, destStride);
            var b, g, r := Average(p[0], p[4]), Average(p[1], p[5]), Average(p[2], p[6]);
            && d[at] == Cb(c, b, g, r) && d[at + 2] == Cr(c, b, g, r)
            && d[at + 1] == Luma(c, p[0], p[1], p[2]) && d[at + 3] == Luma(c, p[4], p[5], p[6])
            && (p[0] == p[1] == p[2] && p[4] == p[5] == p[6] ==> d[at] == 128 && d[at + 2] == 128)
  {
    assert Has(Rect(0, 0, width / 2, height), x, y);
    assert CellDone(p => UyvyPair(p, For(matrix, height)), source, stride, 8, d, destStride, x, y);
    var p, at := CellAt(source, stride, 8, x, y), At(x, y, destStride);
    var b, g, r := Average(p[0], p[4]), Average(p[1], p[5]), Average(p[2], p[6]);
    StudioRange(matrix, height, b, g, r);
    StudioRange(matrix, height, p[0], p[1], p[2]);
    StudioRange(matrix, height, p[4], p[5], p[6]);
    GreyIsNeutral(matrix, height, b);
    assert d[at..at + 4] == UyvyPair(p, For(matrix, height));
    assert d[at] == d[at..at + 4][0] && d[at + 1] == d[at..at + 4][1] && d[at + 2] == d[at..at + 4][2] && d[at + 3] == d[at..at + 4][3];
  }
}
