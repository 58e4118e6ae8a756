/// The blit itself (src/core/rotated_blit.h and .cpp): tables filled once per
/// geometry, then one lookup and one copy per displayed pixel.
module RotatedBlit {
  import opened Basics
  import opened Quotients
  import opened BlitGeometry
  import opened BlitBuffers

  class Blit {
    var sourceWidth: nat
    var sourceHeight: nat
    var destWidth: nat
    var destHeight: nat
    var rotation: Rotation
    var placement: (int, int, nat, nat)
    var visible: Rect
    var columnOf: array<nat>
    var rowOf: array<nat>
    var identity: bool
    /// What configure() was last given.
    ghost var g: Geometry

    ghost predicate Valid()
      reads this, columnOf, rowOf
    {
      && g.sourceWidth == sourceWidth && g.sourceHeight == sourceHeight && g.rotation == rotation
      && g.destWidth == destWidth && g.destHeight == destHeight
      && visible == Visible(g)
      && ColumnsDone(visible.right) && RowsDone(visible.bottom)
      && (identity <==> Drawable(g) && rotation.R0?
                        && PlacedWidth(g) == TurnedWidth(g) && PlacedHeight(g) == TurnedHeight(g))
      && placement == if Drawable(g) then (PlacedX(g), PlacedY(g), PlacedWidth(g), PlacedHeight(g)) else (0, 0, 0, 0)
    }

    ghost predicate ColumnsDone(upTo: int)
      requires upTo <= Visible(g).right
      reads this`g, this`columnOf, columnOf
    {
      columnOf.Length == g.destWidth && forall x: nat :: Visible(g).left <= x < upTo && x < g.destWidth ==> columnOf[x] == ColumnOf(g, x)
    }

    ghost predicate RowsDone(upTo: int)
      requires upTo <= Visible(g).bottom
      reads this`g, this`rowOf, rowOf
    {
      rowOf.Length == g.destHeight && forall y: nat :: Visible(g).top <= y < upTo && y < g.destHeight ==> rowOf[y] == RowOf(g, y)
    }

    constructor ()
      ensures Valid() && g == Geometry(0, 0, 0, 0, R0, FitInside) && fresh(columnOf) && fresh(rowOf)
    {
      sourceWidth, sourceHeight, destWidth, destHeight, rotation := 0, 0, 0, 0, R0;
      placement, visible, identity := (0, 0, 0, 0), Rect(0, 0, 0, 0), false;
      columnOf, rowOf := new nat[0], new nat[0];
      g := Geometry(0, 0, 0, 0, R0, FitInside);
    }

    method Configure(wantedWidth: int, wantedHeight: int, displayWidth: int, displayHeight: int, turn: Rotation, fit: Fit)
      modifies this
      ensures Valid() && fresh(columnOf) && fresh(rowOf)
      ensures g == Geometry(Max(wantedWidth, 0), Max(wantedHeight, 0), Max(displayWidth, 0), Max(displayHeight, 0), turn, fit)
    {
      sourceWidth, sourceHeight := Max(wantedWidth, 0), Max(wantedHeight, 0);
      destWidth, destHeight, rotation := Max(displayWidth, 0), Max(displayHeight, 0), turn;
      g := Geometry(sourceWidth, sourceHeight, destWidth, destHeight, turn, fit);
      var rw := if turn.R90? || turn.R270? then sourceHeight else sourceWidth;
      var rh := if turn.R90? || turn.R270? then sourceWidth else sourceHeight;
      columnOf, rowOf := new nat[destWidth](i => 0), new nat[destHeight](i => 0);
      placement, visible, identity := (0, 0, 0, 0), Rect(0, 0, 0, 0), false;
      if rw == 0 || rh == 0 || destWidth == 0 || destHeight == 0 {
        return;
      }
      var w, h := Place(g, rw, rh, destWidth, destHeight, fit);
      Arrange(rw, rh, w, h);
    }

    /// The placement, what of it shows, and the tables.
    method Arrange(rw: nat, rh: nat, w: nat, h: nat)
      requires Drawable(g) && columnOf.Length == g.destWidth && rowOf.Length == g.destHeight && columnOf != rowOf
      requires g.sourceWidth == sourceWidth && g.sourceHeight == sourceHeight && g.rotation == rotation
      requires g.destWidth == destWidth && g.destHeight == destHeight
      requires rw == TurnedWidth(g) && rh == TurnedHeight(g) && w == PlacedWidth(g) && h == PlacedHeight(g)
      modifies this`placement, this`visible, this`identity, columnOf, rowOf
      ensures Valid()
    {
      var left, top := TruncDiv(destWidth - w, 2), TruncDiv(destHeight - h, 2);
      placement := (left, top, w, h);
      PlacementCentred(g);
      visible := Rect(Max(left, 0), Max(top, 0), Min(left + w, destWidth), Min(top + h, destHeight));
      identity := rotation.R0? && w == rw && h == rh;
      FillColumns(rw);
      FillRows(rh);
    }

    method FillColumns(rw: nat)
      requires Drawable(g) && columnOf.Length == g.destWidth && visible == Visible(g) && rw == TurnedWidth(g)
      requires placement == (PlacedX(g), PlacedY(g), PlacedWidth(g), PlacedHeight(g))
      modifies columnOf
      ensures ColumnsDone(visible.right)
    {
      VisibleBounds(g);
      var x := visible.left;
      while x < visible.right
        invariant visible.left <= x && (visible.left <= visible.right ==> x <= visible.right)
        invariant forall z: nat :: visible.left <= z < x && z < visible.right ==> columnOf[z] == ColumnOf(g, z)
      {
        columnOf[x] := SampleOf(x - placement.0, rw, placement.2);
        x := x + 1;
      }
    }

    method FillRows(rh: nat)
      requires Drawable(g) && rowOf.Length == g.destHeight && visible == Visible(g) && rh == TurnedHeight(g)
      requires placement == (PlacedX(g), PlacedY(g), PlacedWidth(g), PlacedHeight(g))
      modifies rowOf
      ensures RowsDone(visible.bottom)
    {
      VisibleBounds(g);
      var y := visible.top;
      while y < visible.bottom
        invariant visible.top <= y && (visible.top <= visible.bottom ==> y <= visible.bottom)
        invariant forall z: nat :: visible.top <= z < y && z < visible.bottom ==> rowOf[z] == RowOf(g, z)
      {
        rowOf[y] := SampleOf(y - placement.1, rh, placement.3);
        y := y + 1;
      }
    }

    /// Black in every display pixel outside the picture.
    method ClearBars(dest: array<Byte>, destRowBytes: nat)
      requires Valid() && BlitBuffers.Holds(dest.Length, g.destWidth, g.destHeight, destRowBytes) && 4 * g.destWidth <= destRowBytes
      modifies dest
      ensures Cleared(g, destRowBytes, old(dest[..]), dest[..])
    {
      ghost var before := dest[..];
      ClearedNone(g, destRowBytes, before);
      for y := 0 to destHeight
        modifies dest
        invariant dest.Length == |before|
        invariant ClearedRows(g, destRowBytes, before, dest[..], y)
      {
        ghost var partly := dest[..];
        var row := y * destRowBytes;
        TimesIs(y, destRowBytes);
        TimesMonotone(y, destHeight - 1, destRowBytes);
        VisibleBounds(g);
        if y < visible.top || y >= visible.bottom {
          Zero(dest, row, destWidth * 4);
        } else {
          ClearSides(dest, row, visible.left, visible.right, destWidth);
        }
        ClearedOneMore(g, destRowBytes, before, partly, dest[..], y);
      }
      ClearedAll(g, destRowBytes, before, dest[..]);
    }

    /// Where each visible row's run of the source starts.
    method RowStarts(ghost j: Job, ghost size: nat, stride: nat) returns (from: seq<nat>)
      requires Valid() && identity && j.g == g && j.sourceStride == stride && JobOk(j, size)
      requires visible.left < visible.right && visible.top < visible.bottom
      ensures |from| == destHeight
      ensures forall y: nat :: visible.top <= y < visible.bottom && y < |from| ==> OneRun(j, y, visible.left, visible.right, from[y])
    {
      VisibleBounds(g);
      from := RunStarts(j, size, stride, rowOf[..], columnOf[visible.left], visible);
    }

    /// Per column and per row, what adds up to a source address.
    method Offsets(ghost j: Job, stride: nat) returns (xOffset: seq<nat>, yOffset: seq<nat>)
      requires Valid() && j.g == g && j.sourceStride == stride
      requires visible.left < visible.right && visible.top < visible.bottom
      ensures OffsetsOk(j, xOffset, yOffset)
    {
      xOffset := ColumnOffsets(stride);
      yOffset := RowOffsets(stride);
      forall x: nat, y: nat | Has(visible, x, y) && x < |xOffset| && y < |yOffset|
        ensures SourceAt(j, x, y) == xOffset[x] + yOffset[y]
      {
        Separable(j, x, y);
      }
    }

    method ColumnOffsets(stride: nat) returns (offsets: seq<nat>)
      requires Valid() && visible.left < visible.right
      ensures |offsets| == destWidth
      ensures forall x: nat :: visible.left <= x < visible.right && x < |offsets| ==>
                ColumnOf(g, x) < TurnedWidth(g) && offsets[x] == Across(g, stride, ColumnOf(g, x))
    {
      var xs := new nat[destWidth](i => 0);
      VisibleBounds(g);
      for x := visible.left to visible.right
        invariant forall z: nat :: visible.left <= z < x ==>
                    ColumnOf(g, z) < TurnedWidth(g) && xs[z] == Across(g, stride, ColumnOf(g, z))
      {
        TablesMonotone(g, x, x);
        xs[x] := AcrossOf(g, rotation, sourceWidth, sourceHeight, stride, columnOf[x]);
      }
      offsets := xs[..];
    }

    method RowOffsets(stride: nat) returns (offsets: seq<nat>)
      requires Valid() && visible.top < visible.bottom
      ensures |offsets| == destHeight
      ensures forall y: nat :: visible.top <= y < visible.bottom && y < |offsets| ==>
                RowOf(g, y) < TurnedHeight(g) && offsets[y] == Down(g, stride, RowOf(g, y))
    {
      var ys := new nat[destHeight](i => 0);
      VisibleBounds(g);
      for y := visible.top to visible.bottom
        invariant forall z: nat :: visible.top <= z < y ==>
                    RowOf(g, z) < TurnedHeight(g) && ys[z] == Down(g, stride, RowOf(g, z))
      {
        TablesMonotone(g, y, y);
        ys[y] := DownOf(g, rotation, sourceWidth, sourceHeight, stride, rowOf[y]);
      }
      offsets := ys[..];
    }

    /// One frame.
    method DrawFrame(source: seq<Byte>, sourceRowBytes: nat, dest: array<Byte>, destRowBytes: nat)
      requires Valid() && JobOk(Job(g, source, sourceRowBytes, destRowBytes), dest.Length)
      modifies dest
      ensures Drawn(Job(g, source, sourceRowBytes, destRowBytes), dest[..], visible)
      ensures SameOutside(old(dest[..]), dest[..], visible, destRowBytes)
    {
      ghost var j := Job(g, source, sourceRowBytes, destRowBytes);
      if visible.right <= visible.left || visible.bottom <= visible.top {
        return;
      }
      if identity {
        var from := RowStarts(j, dest.Length, sourceRowBytes);
        CopyRows(j, source, from, visible, dest, destRowBytes);
        return;
      }
      var xOffset, yOffset := Offsets(j, sourceRowBytes);
      DrawTiles(j, source, xOffset, yOffset, visible, dest, destRowBytes);
    }
  }

  method RowStart(ghost j: Job, ghost size: nat, ghost y: nat, stride: nat, row: nat, column: nat) returns (from: nat)
    requires JobOk(j, size) && j.sourceStride == stride && Drawable(j.g) && j.g.rotation.R0?
    requires PlacedWidth(j.g) == j.g.sourceWidth && PlacedHeight(j.g) == j.g.sourceHeight
    requires Visible(j.g).left < Visible(j.g).right && Visible(j.g).top <= y < Visible(j.g).bottom
    requires row == RowOf(j.g, y) && column == ColumnOf(j.g, Visible(j.g).left)
    ensures OneRun(j, y, Visible(j.g).left, Visible(j.g).right, from)
  {
    TimesIs(row, stride);
    UprightIsOneRun(j, size, y);
    from := row * stride + column * 4;
  }

  method RunStarts(ghost j: Job, ghost size: nat, stride: nat, rows: seq<nat>, column: nat, all: Rect) returns (from: seq<nat>)
    requires JobOk(j, size) && j.sourceStride == stride && Drawable(j.g) && j.g.rotation.R0?
    requires PlacedWidth(j.g) == j.g.sourceWidth && PlacedHeight(j.g) == j.g.sourceHeight
    requires all == Visible(j.g) && all.left < all.right && all.top < all.bottom && column == ColumnOf(j.g, all.left)
    requires forall y: nat :: all.top <= y < all.bottom && y < |rows| ==> rows[y] == RowOf(j.g, y)
    ensures |from| == |rows|
    ensures forall y: nat :: all.top <= y < all.bottom && y < |from| ==> OneRun(j, y, all.left, all.right, from[y])
  {
    from := [];
    for y := 0 to |rows|
      invariant |from| == y
      invariant forall z: nat :: all.top <= z < all.bottom && z < |from| ==> OneRun(j, z, all.left, all.right, from[z])
    {
      var start := 0;
      if all.top <= y < all.bottom {
        start := RowStart(j, size, y, stride, rows[y], column);
      }
      from := from + [start];
    }
  }

  method AcrossOf(ghost g: Geometry, rotation: Rotation, sw: nat, sh: nat, stride: nat, c: nat) returns (offset: nat)
    requires g.rotation == rotation && g.sourceWidth == sw && g.sourceHeight == sh && c < TurnedWidth(g)
    ensures offset == Across(g, stride, c)
  {
    match rotation
    case R0 => offset := c * 4;
    case R90 => TimesIs(sh - 1 - c, stride); offset := (sh - 1 - c) * stride;
    case R180 => offset := (sw - 1 - c) * 4;
    case R270 => TimesIs(c, stride); offset := c * stride;
  }

  method DownOf(ghost g: Geometry, rotation: Rotation, sw: nat, sh: nat, stride: nat, r: nat) returns (offset: nat)
    requires g.rotation == rotation && g.sourceWidth == sw && g.sourceHeight == sh && r < TurnedHeight(g)
    ensures offset == Down(g, stride, r)
  {
    match rotation
    case R0 => TimesIs(r, stride); offset := r * stride;
    case R90 => offset := r * 4;
    case R180 => TimesIs(sh - 1 - r, stride); offset := (sh - 1 - r) * stride;
    case R270 => offset := (sw - 1 - r) * 4;
  }

  /// memset to zero.
  method Zero(dest: array<Byte>, from: nat, count: nat)
    requires from + count <= dest.Length
    modifies dest
    ensures forall i :: 0 <= i < dest.Length ==> dest[i] == if from <= i < from + count then 0 else old(dest[i])
  {
    for k := 0 to count
      invariant forall i :: 0 <= i < dest.Length ==> dest[i] == if from <= i < from + k then 0 else old(dest[i])
    {
      dest[from + k] := 0;
    }
  }

  /// A row of the picture's: the pixels left and right of it.
  method ClearSides(dest: array<Byte>, row: nat, left: nat, right: nat, width: nat)
    requires right <= width && left <= width && row + 4 * width <= dest.Length
    modifies dest
    ensures forall i :: 0 <= i < dest.Length ==>
              dest[i] == if row <= i < row + 4 * left || row + 4 * right <= i < row + 4 * width then 0 else old(dest[i])
  {
    Zero(dest, row, left * 4);
    Zero(dest, row + right * 4, (width - right) * 4);
  }

  /// The first `rows` rows are cleared.
  ghost predicate ClearedRows(g: Geometry, stride: nat, before: seq<Byte>, after: seq<Byte>, rows: nat) {
    |before| == |after| && forall i :: 0 <= i < |before| ==>
      after[i] == if InRect(i, Rect(0, 0, g.destWidth, rows), stride) && !InRect(i, Visible(g), stride) then 0 else before[i]
  }

  lemma ClearedNone(g: Geometry, stride: nat, d: seq<Byte>)
    ensures ClearedRows(g, stride, d, d, 0)
  {
  }

  lemma ClearedAll(g: Geometry, stride: nat, before: seq<Byte>, after: seq<Byte>)
    requires ClearedRows(g, stride, before, after, g.destHeight)
    ensures Cleared(g, stride, before, after)
  {
  }

  /// Byte `i` is in row `y`, or not in the rows up to it any differently.
  lemma RowsGrow(i: int, y: nat, width: nat, stride: nat)
    requires 4 * width <= stride
    ensures InRect(i, Rect(0, 0, width, y + 1), stride)
            <==> InRect(i, Rect(0, 0, width, y), stride) || Times(y, stride) <= i < Times(y, stride) + 4 * width
    ensures Times(y, stride) <= i < Times(y, stride) + 4 * width ==> !InRect(i, Rect(0, 0, width, y), stride)
  {
    if InRect(i, Rect(0, 0, width, y), stride) { InRectGrows(i, Rect(0, 0, width, y), Rect(0, 0, width, y + 1), stride); }
    if Times(y, stride) <= i < Times(y, stride) + 4 * width { InRectIff(i, y, Rect(0, 0, width, y), width, stride); }
  }

  lemma ClearedOneMore(g: Geometry, stride: nat, before: seq<Byte>, partly: seq<Byte>, after: seq<Byte>, y: nat)
    requires 4 * g.destWidth <= stride && y < g.destHeight && ClearedRows(g, stride, before, partly, y)
    requires |after| == |partly| && forall i :: 0 <= i < |after| ==>
      after[i] == if InClearedRow(g, stride, y, i) then 0 else partly[i]
    ensures ClearedRows(g, stride, before, after, y + 1)
  {
    VisibleBounds(g);
    forall i | 0 <= i < |before|
      ensures after[i] == if InRect(i, Rect(0, 0, g.destWidth, y + 1), stride) && !InRect(i, Visible(g), stride) then 0 else before[i]
    {
      RowsGrow(i, y, g.destWidth, stride);
      if Times(y, stride) <= i < Times(y, stride) + 4 * g.destWidth { InRectIff(i, y, Visible(g), g.destWidth, stride); }
    }
  }

  /// The bytes of row `y` outside the picture.
  predicate InClearedRow(g: Geometry, stride: nat, y: nat, i: int) {
    Times(y, stride) <= i < Times(y, stride) + 4 * g.destWidth
    && !(Visible(g).top <= y < Visible(g).bottom && 4 * Visible(g).left <= i - Times(y, stride) < 4 * Visible(g).right)
  }

  method ScaledOf(a: nat, b: nat, n: nat) returns (r: nat)
    requires n > 0
    ensures r == Scaled(a, b, n)
  {
    TimesIs(a, b);
    QuotIs(Times(a, b) + n / 2, n);
    r := (a * b + n / 2) / n;
  }

  method SampleOf(local: nat, length: nat, size: nat) returns (r: nat)
    requires local < size && 0 < length
    ensures r == Sample(local, length, size)
  {
    TimesIs(2 * local + 1, length);
    QuotIs(Times(2 * local + 1, length), 2 * size);
    r := Min((2 * local + 1) * length / (2 * size), length - 1);
  }

  /// The size of the picture on the display.
  method Place(ghost g: Geometry, rw: nat, rh: nat, dw: nat, dh: nat, fit: Fit) returns (w: nat, h: nat)
    requires Drawable(g) && rw == TurnedWidth(g) && rh == TurnedHeight(g) && dw == g.destWidth && dh == g.destHeight && fit == g.fit
    ensures w == PlacedWidth(g) && h == PlacedHeight(g)
  {
    w, h := dw, dh;
    if !fit.Stretch? {
      TimesIs(rw, dh);
      TimesIs(dw, rh);
      var pictureIsWider := rw * dh > dw * rh;
      var fitWidth := fit.FitInside? == pictureIsWider;
      if fitWidth {
        h := ScaledOf(rh, dw, rw);
      } else {
        w := ScaledOf(rw, dh, rh);
      }
    }
  }

  /// memcpy.
  method CopyBytes(source: seq<Byte>, from: nat, dest: array<Byte>, to: nat, count: nat)
    requires from + count <= |source| && to + count <= dest.Length
    modifies dest
    ensures Copied(old(dest[..]), dest[..], to, count, source, from)
  {
    for k := 0 to count
      invariant forall i :: 0 <= i < dest.Length ==> dest[i] == if to <= i < to + k then source[from + i - to] else old(dest[i])
    {
      dest[to + k] := source[from + k];
    }
  }

  const TILE: nat := 32

  /// Both tables, for the visible columns and rows.
  ghost predicate OffsetsOk(j: Job, xOffset: seq<nat>, yOffset: seq<nat>) {
    && |xOffset| == j.g.destWidth && |yOffset| == j.g.destHeight
    && forall x: nat, y: nat :: Has(Visible(j.g), x, y) && x < |xOffset| && y < |yOffset| ==>
         SourceAt(j, x, y) == xOffset[x] + yOffset[y]
  }

  /// Part of one row, pixel by pixel.
  method DrawSpan(ghost j: Job, source: seq<Byte>, xOffset: seq<nat>, yOffset: seq<nat>, y: nat, left: nat, right: nat,
                  dest: array<Byte>, destRowBytes: nat)
    requires source == j.source && destRowBytes == j.destStride && JobOk(j, dest.Length) && OffsetsOk(j, xOffset, yOffset)
    requires left < right && Within(Rect(left, y, right, y + 1), Visible(j.g))
    modifies dest
    ensures Drawn(j, dest[..], Rect(left, y, right, y + 1))
    ensures SameOutside(old(dest[..]), dest[..], Rect(left, y, right, y + 1), destRowBytes)
  {
    ghost var before := dest[..];
    VisibleBounds(j.g);
    var base, out := yOffset[y], y * destRowBytes;
    TimesIs(y, destRowBytes);
    DrawnNothing(j, before, Rect(left, y, left, y + 1));
    for x := left to right
      modifies dest
      invariant dest.Length == |before|
      invariant Drawn(j, dest[..], Rect(left, y, x, y + 1))
      invariant SameOutside(before, dest[..], Rect(left, y, x, y + 1), destRowBytes)
    {
      ghost var partly := dest[..];
      ghost var from := SourceAt(j, x, y);
      StraightInRange(j, dest.Length, y, x, x + 1, from);
      CopyBytes(source, base + xOffset[x], dest, out + 4 * x, 4);
      RunShows(j, partly, dest[..], y, x, x + 1, from);
      DrawnBoth(j, before, partly, dest[..], Rect(left, y, x, y + 1), Rect(x, y, x + 1, y + 1), Rect(left, y, x + 1, y + 1));
    }
  }

  method DrawTile(ghost j: Job, source: seq<Byte>, xOffset: seq<nat>, yOffset: seq<nat>, tile: Rect,
                  dest: array<Byte>, destRowBytes: nat)
    requires source == j.source && destRowBytes == j.destStride && JobOk(j, dest.Length) && OffsetsOk(j, xOffset, yOffset)
    requires tile.left < tile.right && tile.top <= tile.bottom && Within(tile, Visible(j.g))
    modifies dest
    ensures Drawn(j, dest[..], tile) && SameOutside(old(dest[..]), dest[..], tile, destRowBytes)
  {
    ghost var before := dest[..];
    DrawnNothing(j, before, Rect(tile.left, tile.top, tile.right, tile.top));
    for y := tile.top to tile.bottom
      modifies dest
      invariant dest.Length == |before|
      invariant Drawn(j, dest[..], Rect(tile.left, tile.top, tile.right, y))
      invariant SameOutside(before, dest[..], Rect(tile.left, tile.top, tile.right, y), destRowBytes)
    {
      ghost var partly := dest[..];
      DrawSpan(j, source, xOffset, yOffset, y, tile.left, tile.right, dest, destRowBytes);
      DrawnBoth(j, before, partly, dest[..], Rect(tile.left, tile.top, tile.right, y),
                Rect(tile.left, y, tile.right, y + 1), Rect(tile.left, tile.top, tile.right, y + 1));
    }
  }

  /// A band of tiles, left to right; the last may be narrower.
  method DrawBand(ghost j: Job, source: seq<Byte>, xOffset: seq<nat>, yOffset: seq<nat>, band: Rect,
                  dest: array<Byte>, destRowBytes: nat)
    requires source == j.source && destRowBytes == j.destStride && JobOk(j, dest.Length) && OffsetsOk(j, xOffset, yOffset)
    requires band.left <= band.right && band.top <= band.bottom && Within(band, Visible(j.g))
    modifies dest
    ensures Drawn(j, dest[..], band) && SameOutside(old(dest[..]), dest[..], band, destRowBytes)
  {
    ghost var before := dest[..];
    DrawnNothing(j, before, Rect(band.left, band.top, band.left, band.bottom));
    var tx := band.left;
    while tx < band.right
      modifies dest
      invariant band.left <= tx && dest.Length == |before|
      invariant Drawn(j, dest[..], Rect(band.left, band.top, Min(tx, band.right), band.bottom))
      invariant SameOutside(before, dest[..], Rect(band.left, band.top, Min(tx, band.right), band.bottom), destRowBytes)
    {
      ghost var partly := dest[..];
      var end := Min(tx + TILE, band.right);
      DrawTile(j, source, xOffset, yOffset, Rect(tx, band.top, end, band.bottom), dest, destRowBytes);
      DrawnBoth(j, before, partly, dest[..], Rect(band.left, band.top, tx, band.bottom),
                Rect(tx, band.top, end, band.bottom), Rect(band.left, band.top, end, band.bottom));
      tx := tx + TILE;
    }
  }

  method DrawTiles(ghost j: Job, source: seq<Byte>, xOffset: seq<nat>, yOffset: seq<nat>, all: Rect,
                   dest: array<Byte>, destRowBytes: nat)
    requires source == j.source && destRowBytes == j.destStride && JobOk(j, dest.Length) && OffsetsOk(j, xOffset, yOffset)
    requires all.left <= all.right && all.top <= all.bottom && Within(all, Visible(j.g))
    modifies dest
    ensures Drawn(j, dest[..], all) && SameOutside(old(dest[..]), dest[..], all, destRowBytes)
  {
    ghost var before := dest[..];
    DrawnNothing(j, before, Rect(all.left, all.top, all.right, all.top));
    var ty := all.top;
    while ty < all.bottom
      modifies dest
      invariant all.top <= ty && dest.Length == |before|
      invariant Drawn(j, dest[..], Rect(all.left, all.top, all.right, Min(ty, all.bottom)))
      invariant SameOutside(before, dest[..], Rect(all.left, all.top, all.right, Min(ty, all.bottom)), destRowBytes)
    {
      ghost var partly := dest[..];
      var end := Min(ty + TILE, all.bottom);
      DrawBand(j, source, xOffset, yOffset, Rect(all.left, ty, all.right, end), dest, destRowBytes);
      DrawnBoth(j, before, partly, dest[..], Rect(all.left, all.top, all.right, ty),
                Rect(all.left, ty, all.right, end), Rect(all.left, all.top, all.right, end));
      ty := ty + TILE;
    }
  }

  /// The straight copy: upright and 1:1, a row is one run of bytes.
  method CopyRows(ghost j: Job, source: seq<Byte>, from: seq<nat>, all: Rect, dest: array<Byte>, destRowBytes: nat)
    requires source == j.source && destRowBytes == j.destStride && JobOk(j, dest.Length)
    requires all == Visible(j.g) && all.left < all.right && all.top < all.bottom && |from| == j.g.destHeight
    requires forall y: nat :: all.top <= y < all.bottom && y < |from| ==> OneRun(j, y, all.left, all.right, from[y])
    modifies dest
    ensures Drawn(j, dest[..], all) && SameOutside(old(dest[..]), dest[..], all, destRowBytes)
  {
    ghost var before := dest[..];
    VisibleBounds(j.g);
    DrawnNothing(j, before, Rect(all.left, all.top, all.right, all.top));
    for y := all.top to all.bottom
      modifies dest
      invariant dest.Length == |before|
      invariant Drawn(j, dest[..], Rect(all.left, all.top, all.right, y))
      invariant SameOutside(before, dest[..], Rect(all.left, all.top, all.right, y), destRowBytes)
    {
      ghost var partly := dest[..];
      var out := y * destRowBytes;
      TimesIs(y, destRowBytes);
      StraightInRange(j, dest.Length, y, all.left, all.right, from[y]);
      CopyBytes(source, from[y], dest, out + all.left * 4, (all.right - all.left) * 4);
      RunShows(j, partly, dest[..], y, all.left, all.right, from[y]);
      DrawnBoth(j, before, partly, dest[..], Rect(all.left, all.top, all.right, y),
                Rect(all.left, y, all.right, y + 1), Rect(all.left, all.top, all.right, y + 1));
    }
  }
}
