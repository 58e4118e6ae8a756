/// What it means for a display buffer to show a picture, byte by byte and for
/// any strides (src/core/rotated_blit.cpp:119-207).
module BlitBuffers {
  import opened Basics
  import opened Quotients
  import opened BlitGeometry

  /// A picture, its stride, the geometry it is drawn with and the display's
  /// stride.
  datatype Job = Job(g: Geometry, source: seq<Byte>, sourceStride: nat, destStride: nat)

  /// `height` rows of `width` pixels lie within `size` bytes.
  predicate Holds(size: nat, width: nat, height: nat, stride: nat) {
    height == 0 || Times(height - 1, stride) + 4 * width <= size
  }

  /// What the caller guarantees: both buffers are the size configured, and
  /// display rows do not overlap. Source rows may be any distance apart.
  predicate JobOk(j: Job, size: nat) {
    && Holds(|j.source|, j.g.sourceWidth, j.g.sourceHeight, j.sourceStride)
    && Holds(size, j.g.destWidth, j.g.destHeight, j.destStride)
    && 4 * j.g.destWidth <= j.destStride
  }

  function At(x: nat, y: nat, stride: nat): nat { Times(y, stride) + 4 * x }

  /// Byte `i` belongs to a pixel of the rectangle.
  ghost predicate InRect(i: int, r: Rect, stride: nat) {
    exists y: nat :: r.top <= y < r.bottom && Times(y, stride) + 4 * r.left <= i < Times(y, stride) + 4 * r.right
  }

  predicate Within(r: Rect, outer: Rect) {
    outer.left <= r.left && r.right <= outer.right && outer.top <= r.top && r.bottom <= outer.bottom
  }

  /// The byte of the source that display pixel (x, y) starts at.
  function SourceAt(j: Job, x: nat, y: nat): (from: nat)
    requires Has(Visible(j.g), x, y)
    ensures Holds(|j.source|, j.g.sourceWidth, j.g.sourceHeight, j.sourceStride) ==> from + 4 <= |j.source|
  {
    TablesMonotone(j.g, x, x);
    TablesMonotone(j.g, y, y);
    var c, r := ColumnOf(j.g, x), RowOf(j.g, y);
    SourceInRange(j.g, c, r);
    TimesMonotone(SourceY(j.g, c, r), j.g.sourceHeight - 1, j.sourceStride);
    At(SourceX(j.g, c, r), SourceY(j.g, c, r), j.sourceStride)
  }

  ghost predicate Shown(j: Job, d: seq<Byte>, x: nat, y: nat)
    requires Has(Visible(j.g), x, y)
  {
    var at, from := At(x, y, j.destStride), SourceAt(j, x, y);
    at + 4 <= |d| && from + 4 <= |j.source| && d[at..at + 4] == j.source[from..from + 4]
  }

  ghost predicate Drawn(j: Job, d: seq<Byte>, r: Rect) {
    Within(r, Visible(j.g)) && forall x: nat, y: nat :: Has(r, x, y) ==> Shown(j, d, x, y)
  }

  ghost predicate SameOutside(before: seq<Byte>, after: seq<Byte>, r: Rect, stride: nat) {
    |before| == |after| && forall i :: 0 <= i < |before| && !InRect(i, r, stride) ==> after[i] == before[i]
  }

  /// Rows do not overlap: which row a byte is in is settled by the byte.
  lemma RowsApart(i: int, y: nat, z: nat, width: nat, stride: nat)
    requires 4 * width <= stride
    requires Times(y, stride) <= i < Times(y, stride) + 4 * width && Times(z, stride) <= i < Times(z, stride) + 4 * width
    ensures y == z
  {
    if y < z { TimesGrows(y, z, stride); }
    if z < y { TimesGrows(z, y, stride); }
  }

  lemma InRectIff(i: int, y: nat, r: Rect, width: nat, stride: nat)
    requires 4 * width <= stride && r.right <= width
    requires Times(y, stride) <= i < Times(y, stride) + 4 * width
    ensures InRect(i, r, stride) <==> r.top <= y < r.bottom && 4 * r.left <= i - Times(y, stride) < 4 * r.right
  {
    if InRect(i, r, stride) {
      var z: nat :| r.top <= z < r.bottom && Times(z, stride) + 4 * r.left <= i < Times(z, stride) + 4 * r.right;
      RowsApart(i, y, z, width, stride);
    }
  }

  /// The bytes of a pixel are in the rectangle when the pixel is.
  lemma PixelInRect(x: nat, y: nat, k: nat, r: Rect, width: nat, stride: nat)
    requires 4 * width <= stride && r.right <= width && x < width && k < 4
    ensures InRect(At(x, y, stride) + k, r, stride) <==> Has(r, x, y)
  {
    InRectIff(At(x, y, stride) + k, y, r, width, stride);
  }

  lemma InRectGrows(i: int, r: Rect, outer: Rect, stride: nat)
    requires Within(r, outer) && InRect(i, r, stride)
    ensures InRect(i, outer, stride)
  {
    var y: nat :| r.top <= y < r.bottom && Times(y, stride) + 4 * r.left <= i < Times(y, stride) + 4 * r.right;
    assert outer.top <= y < outer.bottom && Times(y, stride) + 4 * outer.left <= i < Times(y, stride) + 4 * outer.right;
  }

  /// What is drawn elsewhere leaves a pixel as it was.
  lemma ShownStays(j: Job, before: seq<Byte>, after: seq<Byte>, r: Rect, x: nat, y: nat)
    requires JobOk(j, |before|) && SameOutside(before, after, r, j.destStride) && r.right <= j.g.destWidth
    requires Has(Visible(j.g), x, y) && !Has(r, x, y) && Shown(j, before, x, y)
    ensures Shown(j, after, x, y)
  {
    VisibleBounds(j.g);
    var at := At(x, y, j.destStride);
    forall i | at <= i < at + 4 ensures after[i] == before[i] {
      PixelInRect(x, y, i - at, r, j.g.destWidth, j.destStride);
    }
    assert after[at..at + 4] == before[at..at + 4];
  }

  /// Two neighbouring rectangles that share a whole side, and both together.
  predicate Joins(a: Rect, b: Rect, both: Rect) {
    || (a.top == b.top == both.top && a.bottom == b.bottom == both.bottom
        && both.left == a.left <= a.right == b.left <= b.right == both.right)
    || (a.left == b.left == both.left && a.right == b.right == both.right
        && both.top == a.top <= a.bottom == b.top <= b.bottom == both.bottom)
  }

  /// Drawing one rectangle and then the one beside it draws both, and nothing
  /// else.
  lemma DrawnBoth(j: Job, d0: seq<Byte>, d1: seq<Byte>, d2: seq<Byte>, a: Rect, b: Rect, both: Rect)
    requires JobOk(j, |d0|) && Joins(a, b, both)
    requires Drawn(j, d1, a) && SameOutside(d0, d1, a, j.destStride)
    requires Drawn(j, d2, b) && SameOutside(d1, d2, b, j.destStride)
    ensures Drawn(j, d2, both) && SameOutside(d0, d2, both, j.destStride)
  {
    VisibleBounds(j.g);
    forall x: nat, y: nat | Has(both, x, y) ensures Shown(j, d2, x, y) {
      if !Has(b, x, y) { ShownStays(j, d1, d2, b, x, y); }
    }
    forall i | 0 <= i < |d0| && !InRect(i, both, j.destStride) ensures d2[i] == d0[i] {
      if InRect(i, a, j.destStride) { InRectGrows(i, a, both, j.destStride); }
      if InRect(i, b, j.destStride) { InRectGrows(i, b, both, j.destStride); }
    }
  }

  /// Nothing drawn yet.
  lemma DrawnNothing(j: Job, d: seq<Byte>, r: Rect)
    requires Within(r, Visible(j.g)) && (r.left == r.right || r.top == r.bottom)
    ensures Drawn(j, d, r) && SameOutside(d, d, r, j.destStride)
  {
  }

  /// Black wherever the display is not covered by the picture, and untouched
  /// everywhere else.
  ghost predicate Cleared(g: Geometry, stride: nat, before: seq<Byte>, after: seq<Byte>) {
    |before| == |after| && forall i :: 0 <= i < |before| ==>
      after[i] == if InRect(i, Whole(g), stride) && !InRect(i, Visible(g), stride) then 0 else before[i]
  }

  /// The bars and the picture meet with no gap and no overlap: cleared and then
  /// drawn, every display pixel is either its source pixel or black, and no
  /// byte between or after the rows has changed.
  lemma BarsAndPicture(j: Job, d0: seq<Byte>, d1: seq<Byte>, d2: seq<Byte>, x: nat, y: nat)
    requires JobOk(j, |d0|) && Cleared(j.g, j.destStride, d0, d1)
    requires Drawn(j, d2, Visible(j.g)) && SameOutside(d1, d2, Visible(j.g), j.destStride)
    ensures Has(Whole(j.g), x, y) ==>
              At(x, y, j.destStride) + 4 <= |d2|
              && (if Has(Visible(j.g), x, y) then Shown(j, d2, x, y)
                  else d2[At(x, y, j.destStride)..At(x, y, j.destStride) + 4] == [0, 0, 0, 0])
    ensures SameOutside(d0, d2, Whole(j.g), j.destStride)
  {
    VisibleBounds(j.g);
    if Has(Whole(j.g), x, y) && !Has(Visible(j.g), x, y) {
      var at := At(x, y, j.destStride);
      TimesMonotone(y, j.g.destHeight - 1, j.destStride);
      forall i | at <= i < at + 4 ensures d2[i] == 0 {
        PixelInRect(x, y, i - at, Visible(j.g), j.g.destWidth, j.destStride);
        PixelInRect(x, y, i - at, Whole(j.g), j.g.destWidth, j.destStride);
      }
      assert d2[at..at + 4] == [0, 0, 0, 0];
    }
    forall i | 0 <= i < |d0| && !InRect(i, Whole(j.g), j.destStride) ensures d2[i] == d0[i] {
      if InRect(i, Visible(j.g), j.destStride) { InRectGrows(i, Visible(j.g), Whole(j.g), j.destStride); }
    }
  }

  predicate Undoes(a: Rotation, b: Rotation) {
    (a.R0? && b.R0?) || (a.R90? && b.R270?) || (a.R180? && b.R180?) || (a.R270? && b.R90?)
  }

  /// At 1:1 a turn and the turn back, through a buffer of any stride, give the
  /// original picture.
  lemma TurnAndBack(there: Job, back: Job, d: seq<Byte>, x: nat, y: nat)
    requires OneToOne(there.g) && OneToOne(back.g) && Undoes(there.g.rotation, back.g.rotation)
    requires back.g.sourceWidth == there.g.destWidth && back.g.sourceHeight == there.g.destHeight
    requires JobOk(there, |back.source|) && back.sourceStride == there.destStride && JobOk(back, |d|)
    requires Drawn(there, back.source, Visible(there.g)) && Drawn(back, d, Visible(back.g))
    requires x < there.g.sourceWidth && y < there.g.sourceHeight
    ensures At(x, y, back.destStride) + 4 <= |d| && At(x, y, there.sourceStride) + 4 <= |there.source|
    ensures d[At(x, y, back.destStride)..At(x, y, back.destStride) + 4]
         == there.source[At(x, y, there.sourceStride)..At(x, y, there.sourceStride) + 4]
  {
    var mx, my := SourceX(back.g, x, y), SourceY(back.g, x, y);
    ShownOneToOne(back, d, x, y);
    ShownOneToOne(there, back.source, mx, my);
  }

  lemma ShownOneToOne(j: Job, d: seq<Byte>, x: nat, y: nat)
    requires OneToOne(j.g) && JobOk(j, |d|) && Drawn(j, d, Visible(j.g)) && x < j.g.destWidth && y < j.g.destHeight
    ensures var sx, sy := SourceX(j.g, x, y), SourceY(j.g, x, y);
            && 0 <= sx < j.g.sourceWidth && 0 <= sy < j.g.sourceHeight
            && At(x, y, j.destStride) + 4 <= |d| && At(sx, sy, j.sourceStride) + 4 <= |j.source|
            && d[At(x, y, j.destStride)..At(x, y, j.destStride) + 4]
               == j.source[At(sx, sy, j.sourceStride)..At(sx, sy, j.sourceStride) + 4]
  {
    OneToOneShowsAll(j.g);
    SourceInRange(j.g, x, y);
    assert Has(Visible(j.g), x, y);
    assert Shown(j, d, x, y);
    assert ColumnOf(j.g, x) == x && RowOf(j.g, y) == y;
  }

  // ------------------------------------------------------- runs of bytes

  /// `count` bytes from `from` of the source have been written at `to`.
  predicate Copied(before: seq<Byte>, after: seq<Byte>, to: nat, count: nat, source: seq<Byte>, from: nat) {
    && |after| == |before| && from + count <= |source| && to + count <= |before|
    && forall i :: 0 <= i < |before| ==> after[i] == if to <= i < to + count then source[from + i - to] else before[i]
  }

  /// Display pixels `left` to `right` of row `y` come from one run of the
  /// source.
  ghost predicate OneRun(j: Job, y: nat, left: nat, right: nat, from: nat) {
    && left <= right && (left < right ==> Visible(j.g).top <= y < Visible(j.g).bottom)
    && Visible(j.g).left <= left && right <= Visible(j.g).right
    && forall x: nat :: left <= x < right ==> SourceAt(j, x, y) == from + 4 * (x - left)
  }

  lemma DisplayInRange(j: Job, size: nat, y: nat, right: nat)
    requires JobOk(j, size) && y < j.g.destHeight && right <= j.g.destWidth
    ensures At(right, y, j.destStride) <= size
  {
    TimesMonotone(y, j.g.destHeight - 1, j.destStride);
  }

  lemma StraightInRange(j: Job, size: nat, y: nat, left: nat, right: nat, from: nat)
    requires JobOk(j, size) && OneRun(j, y, left, right, from) && left < right
    ensures from + 4 * (right - left) <= |j.source| && At(right, y, j.destStride) <= size
  {
    VisibleBounds(j.g);
    assert SourceAt(j, right - 1, y) == from + 4 * (right - 1 - left);
    DisplayInRange(j, size, y, right);
  }

  lemma RunShows(j: Job, before: seq<Byte>, after: seq<Byte>, y: nat, left: nat, right: nat, from: nat)
    requires JobOk(j, |before|) && OneRun(j, y, left, right, from) && left < right
    requires Copied(before, after, At(left, y, j.destStride), 4 * (right - left), j.source, from)
    ensures Drawn(j, after, Rect(left, y, right, y + 1))
    ensures SameOutside(before, after, Rect(left, y, right, y + 1), j.destStride)
  {
    var row := Rect(left, y, right, y + 1);
    forall x: nat, z: nat | Has(row, x, z) ensures Shown(j, after, x, z) {
      PixelShows(j, before, after, y, left, right, from, x);
    }
    forall i | 0 <= i < |before| && !InRect(i, row, j.destStride) ensures after[i] == before[i] {
      assert At(left, y, j.destStride) <= i < At(left, y, j.destStride) + 4 * (right - left)
             ==> Times(y, j.destStride) + 4 * row.left <= i < Times(y, j.destStride) + 4 * row.right;
    }
  }

  lemma PixelShows(j: Job, before: seq<Byte>, after: seq<Byte>, y: nat, left: nat, right: nat, from: nat, x: nat)
    requires JobOk(j, |before|) && OneRun(j, y, left, right, from) && left <= x < right
    requires Copied(before, after, At(left, y, j.destStride), 4 * (right - left), j.source, from)
    ensures Shown(j, after, x, y)
  {
    var at, start := At(x, y, j.destStride), SourceAt(j, x, y);
    assert start == from + 4 * (x - left);
    assert at == At(left, y, j.destStride) + 4 * (x - left);
    assert after[at..at + 4] == j.source[start..start + 4];
  }

  // ---------------------------------------------------------- the offsets

  /// What a column and a row each contribute to a source address.
  function Across(g: Geometry, stride: nat, c: nat): nat
    requires c < TurnedWidth(g)
  {
    match g.rotation
    case R0 => 4 * c
    case R90 => Times(g.sourceHeight - 1 - c, stride)
    case R180 => 4 * (g.sourceWidth - 1 - c)
    case R270 => Times(c, stride)
  }

  function Down(g: Geometry, stride: nat, r: nat): nat
    requires r < TurnedHeight(g)
  {
    match g.rotation
    case R0 => Times(r, stride)
    case R90 => 4 * r
    case R180 => Times(g.sourceHeight - 1 - r, stride)
    case R270 => 4 * (g.sourceWidth - 1 - r)
  }

  /// Two tables, one lookup each: for every rotation the address of a source
  /// pixel is a part that depends on the column plus one that depends on the
  /// row.
  lemma Separable(j: Job, x: nat, y: nat)
    requires Has(Visible(j.g), x, y)
    ensures ColumnOf(j.g, x) < TurnedWidth(j.g) && RowOf(j.g, y) < TurnedHeight(j.g)
    ensures SourceAt(j, x, y) == Across(j.g, j.sourceStride, ColumnOf(j.g, x)) + Down(j.g, j.sourceStride, RowOf(j.g, y))
  {
    TablesMonotone(j.g, x, x);
    TablesMonotone(j.g, y, y);
  }

  /// Upright and at its own size, a row of the picture is a row of the source.
  lemma UprightIsOneRun(j: Job, size: nat, y: nat)
    requires JobOk(j, size) && Drawable(j.g) && j.g.rotation.R0?
    requires PlacedWidth(j.g) == j.g.sourceWidth && PlacedHeight(j.g) == j.g.sourceHeight
    requires Visible(j.g).left < Visible(j.g).right && Visible(j.g).top <= y < Visible(j.g).bottom
    ensures OneRun(j, y, Visible(j.g).left, Visible(j.g).right, SourceAt(j, Visible(j.g).left, y))
  {
    VisibleBounds(j.g);
    var left := Visible(j.g).left;
    SampleExact(left - PlacedX(j.g), j.g.sourceWidth);
    forall x: nat | left <= x < Visible(j.g).right ensures SourceAt(j, x, y) == SourceAt(j, left, y) + 4 * (x - left) {
      SampleExact(x - PlacedX(j.g), j.g.sourceWidth);
    }
  }
}
