/// Where a turned, fitted picture lands on a display and which source pixel
/// each display pixel shows (src/core/rotated_blit.cpp:59-132, 151-161).
///
/// Sizes are unbounded; the products and quotients are written as repeated
/// addition and subtraction, which `RotatedBlit` ties to the source's `*` and
/// `/`.
module BlitGeometry {
  import opened Basics
  import opened Quotients

  datatype Rotation = R0 | R90 | R180 | R270

  datatype Fit = FitInside | Fill | Stretch

  datatype Geometry = Geometry(sourceWidth: nat, sourceHeight: nat, destWidth: nat, destHeight: nat, rotation: Rotation, fit: Fit)

  predicate Transposed(rotation: Rotation) { rotation.R90? || rotation.R270? }

  function TurnedWidth(g: Geometry): nat { if Transposed(g.rotation) then g.sourceHeight else g.sourceWidth }

  function TurnedHeight(g: Geometry): nat { if Transposed(g.rotation) then g.sourceWidth else g.sourceHeight }

  /// Nothing is drawn when either picture or display is empty.
  predicate Drawable(g: Geometry) {
    g.sourceWidth > 0 && g.sourceHeight > 0 && g.destWidth > 0 && g.destHeight > 0
  }

  /// `a * b / n`, rounded to nearest.
  function Scaled(a: nat, b: nat, n: nat): nat
    requires n > 0
  {
    Quot(Times(a, b) + n / 2, n)
  }

  predicate Wider(g: Geometry) { Times(TurnedWidth(g), g.destHeight) > Times(g.destWidth, TurnedHeight(g)) }

  predicate FitsWidth(g: Geometry) { g.fit.FitInside? == Wider(g) }

  function PlacedWidth(g: Geometry): nat
    requires Drawable(g)
  {
    if g.fit.Stretch? || FitsWidth(g) then g.destWidth else Scaled(TurnedWidth(g), g.destHeight, TurnedHeight(g))
  }

  function PlacedHeight(g: Geometry): nat
    requires Drawable(g)
  {
    if g.fit.Stretch? || !FitsWidth(g) then g.destHeight else Scaled(TurnedHeight(g), g.destWidth, TurnedWidth(g))
  }

  function PlacedX(g: Geometry): int
    requires Drawable(g)
  {
    TruncDiv(g.destWidth - PlacedWidth(g), 2)
  }

  function PlacedY(g: Geometry): int
    requires Drawable(g)
  {
    TruncDiv(g.destHeight - PlacedHeight(g), 2)
  }

  /// A rectangle of pixels, right and bottom excluded.
  datatype Rect = Rect(left: nat, top: nat, right: nat, bottom: nat)

  predicate Has(r: Rect, x: int, y: int) { r.left <= x < r.right && r.top <= y < r.bottom }

  function Whole(g: Geometry): Rect { Rect(0, 0, g.destWidth, g.destHeight) }

  /// The part of the placement that is on the display.
  function Visible(g: Geometry): Rect {
    if !Drawable(g) then Rect(0, 0, 0, 0)
    else Rect(Max(PlacedX(g), 0), Max(PlacedY(g), 0),
              Max(0, Min(PlacedX(g) + PlacedWidth(g), g.destWidth)), Max(0, Min(PlacedY(g) + PlacedHeight(g), g.destHeight)))
  }

  /// The turned-picture position that place `local` of `size` shows: the one
  /// under its centre.
  function Sample(local: nat, length: nat, size: nat): nat
    requires local < size && 0 < length
  {
    Min(Quot(Times(2 * local + 1, length), 2 * size), length - 1)
  }

  function ColumnOf(g: Geometry, x: nat): nat
    requires Visible(g).left <= x < Visible(g).right
  {
    Sample(x - PlacedX(g), TurnedWidth(g), PlacedWidth(g))
  }

  function RowOf(g: Geometry, y: nat): nat
    requires Visible(g).top <= y < Visible(g).bottom
  {
    Sample(y - PlacedY(g), TurnedHeight(g), PlacedHeight(g))
  }

  /// The source pixel under position (c, r) of the turned picture.
  function SourceX(g: Geometry, c: nat, r: nat): int {
    match g.rotation
    case R0 => c
    case R90 => r
    case R180 => g.sourceWidth - 1 - c
    case R270 => g.sourceWidth - 1 - r
  }

  function SourceY(g: Geometry, c: nat, r: nat): int {
    match g.rotation
    case R0 => r
    case R90 => g.sourceHeight - 1 - c
    case R180 => g.sourceHeight - 1 - r
    case R270 => c
  }

  // ---------------------------------------------------------- the placement

  lemma TimesCommutes(a: nat, b: nat)
    ensures Times(a, b) == Times(b, a)
  {
    TimesIs(a, b);
    TimesIs(b, a);
  }

  /// Rounding cannot carry a scaled length across a whole one it is on one side
  /// of.
  lemma ScaledAtMost(a: nat, b: nat, n: nat, bound: nat)
    requires n > 0 && Times(a, b) <= Times(bound, n)
    ensures Scaled(a, b, n) <= bound
  {
    var x, y := Times(a, b), Times(bound, n);
    QuotOfMultiple(bound, n / 2, n);
    QuotMonotone(x + n / 2, y + n / 2, n);
  }

  lemma ScaledAtLeast(a: nat, b: nat, n: nat, bound: nat)
    requires n > 0 && Times(a, b) >= Times(bound, n)
    ensures Scaled(a, b, n) >= bound
  {
    var x, y := Times(a, b), Times(bound, n);
    QuotOfMultiple(bound, n / 2, n);
    QuotMonotone(y + n / 2, x + n / 2, n);
  }

  /// The two products are within half of `n` of each other.
  predicate Near(a: int, b: int, n: int) { -n <= 2 * a - 2 * b <= n }

  /// A scaled length is within half a pixel of the exact proportion.
  lemma ScaledIsNearest(a: nat, b: nat, n: nat)
    requires n > 0
    ensures Near(Times(Scaled(a, b, n), n), Times(a, b), n)
  {
    QuotBounds(Times(a, b) + n / 2, n);
  }

  /// A fitted picture lies inside the display and touches two of its edges, a
  /// filling one covers it, and both keep their proportions to half a pixel.
  lemma PlacementFits(g: Geometry)
    requires Drawable(g)
    ensures g.fit.FitInside? ==> PlacedWidth(g) <= g.destWidth && PlacedHeight(g) <= g.destHeight
    ensures g.fit.Fill? ==> PlacedWidth(g) >= g.destWidth && PlacedHeight(g) >= g.destHeight
    ensures g.fit.Stretch? ==> PlacedWidth(g) == g.destWidth && PlacedHeight(g) == g.destHeight
    ensures PlacedWidth(g) == g.destWidth || PlacedHeight(g) == g.destHeight
    ensures !g.fit.Stretch? && PlacedHeight(g) != g.destHeight ==>
              Near(Times(PlacedHeight(g), TurnedWidth(g)), Times(TurnedHeight(g), PlacedWidth(g)), TurnedWidth(g))
    ensures !g.fit.Stretch? && PlacedWidth(g) != g.destWidth ==>
              Near(Times(PlacedWidth(g), TurnedHeight(g)), Times(TurnedWidth(g), PlacedHeight(g)), TurnedHeight(g))
  {
    var rw, rh, dw, dh := TurnedWidth(g), TurnedHeight(g), g.destWidth, g.destHeight;
    TimesCommutes(rh, dw);
    TimesCommutes(rw, dh);
    if Wider(g) {
      ScaledAtMost(rh, dw, rw, dh);
      ScaledAtLeast(rw, dh, rh, dw);
    } else {
      ScaledAtLeast(rh, dw, rw, dh);
      ScaledAtMost(rw, dh, rh, dw);
    }
    ScaledIsNearest(rh, dw, rw);
    ScaledIsNearest(rw, dh, rh);
  }

  /// The bars, or the parts cut off, differ by at most a pixel between opposite
  /// sides; a fitted picture is all visible, and a filling one leaves no bars.
  lemma PlacementCentred(g: Geometry)
    requires Drawable(g)
    ensures -1 <= (g.destWidth - PlacedX(g) - PlacedWidth(g)) - PlacedX(g) <= 1
    ensures -1 <= (g.destHeight - PlacedY(g) - PlacedHeight(g)) - PlacedY(g) <= 1
    ensures g.fit.FitInside? ==>
              && Visible(g).left == PlacedX(g) && Visible(g).right == PlacedX(g) + PlacedWidth(g)
              && Visible(g).top == PlacedY(g) && Visible(g).bottom == PlacedY(g) + PlacedHeight(g)
    ensures !g.fit.FitInside? ==> Visible(g) == Whole(g)
  {
    PlacementFits(g);
  }

  /// The visible part is on the display, and within the placement.
  lemma VisibleBounds(g: Geometry)
    ensures Visible(g).right <= g.destWidth && Visible(g).bottom <= g.destHeight
    ensures Drawable(g) && Visible(g).left < Visible(g).right ==>
              PlacedX(g) <= Visible(g).left && Visible(g).right <= PlacedX(g) + PlacedWidth(g)
    ensures Drawable(g) && Visible(g).top < Visible(g).bottom ==>
              PlacedY(g) <= Visible(g).top && Visible(g).bottom <= PlacedY(g) + PlacedHeight(g)
  {
  }

  // ---------------------------------------------------------------- sampling

  /// The minimum never acts: the sample is in range on its own.
  lemma SampleInRange(local: nat, length: nat, size: nat)
    requires local < size && 0 < length
    ensures Quot(Times(2 * local + 1, length), 2 * size) < length
    ensures Sample(local, length, size) == Quot(Times(2 * local + 1, length), 2 * size)
  {
    TimesGrows(2 * local + 1, 2 * size, length);
    TimesCommutes(2 * size, length);
    QuotBounds(Times(2 * local + 1, length), 2 * size);
    var q := Quot(Times(2 * local + 1, length), 2 * size);
    if q >= length { TimesMonotone(length, q, 2 * size); }
  }

  lemma SampleMonotone(a: nat, b: nat, length: nat, size: nat)
    requires a <= b < size && 0 < length
    ensures Sample(a, length, size) <= Sample(b, length, size)
  {
    SampleInRange(a, length, size);
    SampleInRange(b, length, size);
    TimesMonotone(2 * a + 1, 2 * b + 1, length);
    QuotMonotone(Times(2 * a + 1, length), Times(2 * b + 1, length), 2 * size);
  }

  /// At 1:1 every place shows its own pixel.
  lemma SampleExact(local: nat, length: nat)
    requires local < length
    ensures Sample(local, length, length) == local
  {
    SampleInRange(local, length, length);
    TimesIs(2 * local + 1, length);
    TimesIs(local, 2 * length);
    assert (2 * local + 1) * length == local * (2 * length) + length;
    QuotOfMultiple(local, length, 2 * length);
  }

  /// Both tables are in range and never go back.
  lemma TablesMonotone(g: Geometry, a: nat, b: nat)
    ensures Visible(g).left <= a <= b < Visible(g).right ==> ColumnOf(g, a) <= ColumnOf(g, b) < TurnedWidth(g)
    ensures Visible(g).top <= a <= b < Visible(g).bottom ==> RowOf(g, a) <= RowOf(g, b) < TurnedHeight(g)
  {
    if Visible(g).left <= a <= b < Visible(g).right {
      SampleMonotone(a - PlacedX(g), b - PlacedX(g), TurnedWidth(g), PlacedWidth(g));
    }
    if Visible(g).top <= a <= b < Visible(g).bottom {
      SampleMonotone(a - PlacedY(g), b - PlacedY(g), TurnedHeight(g), PlacedHeight(g));
    }
  }

  /// Whatever the rotation, a position in the turned picture is a pixel of the
  /// source.
  lemma SourceInRange(g: Geometry, c: nat, r: nat)
    requires c < TurnedWidth(g) && r < TurnedHeight(g)
    ensures 0 <= SourceX(g, c, r) < g.sourceWidth && 0 <= SourceY(g, c, r) < g.sourceHeight
  {
  }

  /// Display and turned picture have the same raster.
  predicate OneToOne(g: Geometry) {
    Drawable(g) && g.destWidth == TurnedWidth(g) && g.destHeight == TurnedHeight(g)
  }

  lemma OneToOneShowsAll(g: Geometry)
    requires OneToOne(g)
    ensures PlacedWidth(g) == g.destWidth && PlacedHeight(g) == g.destHeight && PlacedX(g) == PlacedY(g) == 0
    ensures Visible(g) == Whole(g)
    ensures forall x :: 0 <= x < g.destWidth ==> ColumnOf(g, x) == x
    ensures forall y :: 0 <= y < g.destHeight ==> RowOf(g, y) == y
  {
    TimesCommutes(g.destWidth, g.destHeight);
    ScaledAtMost(g.destWidth, g.destHeight, g.destHeight, g.destWidth);
    ScaledAtLeast(g.destWidth, g.destHeight, g.destHeight, g.destWidth);
    ScaledAtMost(g.destHeight, g.destWidth, g.destWidth, g.destHeight);
    ScaledAtLeast(g.destHeight, g.destWidth, g.destWidth, g.destHeight);
    forall x | 0 <= x < g.destWidth ensures ColumnOf(g, x) == x { SampleExact(x, g.destWidth); }
    forall y | 0 <= y < g.destHeight ensures RowOf(g, y) == y { SampleExact(y, g.destHeight); }
  }
}
