/// The fixed-point arithmetic of one pixel (src/core/pixel_convert.cpp:24-59,
/// 74-197).
module PixelArithmetic {
  import opened Basics

  const UINT32: nat := 0x1_0000_0000

  function Clamp(v: int): Byte { if v < 0 then 0 else if v > 255 then 255 else v }

  /// A 16.16 value to the nearest integer: an arithmetic shift, so a floor.
  function Round16(fixed: int): int { (fixed + 32768) / 65536 }

  // ------------------------------------------------------------ un-premultiply

  /// The entry of the reciprocal table for `alpha`.
  function Reciprocal(alpha: Byte): nat
    requires alpha > 0
  {
    (255 * 65536 + alpha / 2) / alpha
  }

  /// The product before the minimum.
  function Recovered(p: Byte, alpha: Byte): nat
    requires alpha > 0
  {
    (p * Reciprocal(alpha) + 32768) / 65536
  }

  function Straight(p: Byte, alpha: Byte): Byte {
    if alpha == 255 then p
    else if alpha == 0 then 0
    else Min(Recovered(p, alpha), 255)
  }

  /// Multiplying by alpha again, rounded.
  function Premultiplied(v: Byte, alpha: Byte): int { (v * alpha + 127) / 255 }

  lemma MultiplyMonotone(a: int, b: int, c: nat)
    requires a <= b
    ensures a * c <= b * c
  {
  }

  lemma ReciprocalBounds(alpha: Byte)
    requires alpha > 0
    ensures var r := Reciprocal(alpha); r * alpha <= 255 * 65536 + alpha / 2 < r * alpha + alpha
  {
  }

  /// Every product fits 32 bits, whatever the pixel.
  lemma ProductFits(p: Byte, alpha: Byte)
    requires alpha > 0
    ensures p * Reciprocal(alpha) + 32768 < UINT32
  {
    var r := Reciprocal(alpha);
    ReciprocalBounds(alpha);
    if r > 255 * 65536 { MultiplyMonotone(255 * 65536 + 1, r, alpha); }
    MultiplyMonotone(p, 255, r);
  }

  lemma Regroup(v: int, p: int, r: int, a: int)
    ensures (v * 65536) * a == (v * a) * 65536 && (p * r + 32768) * a == p * (r * a) + 32768 * a
    ensures ((v + 1) * 65536) * a == (v * a) * 65536 + 65536 * a
  {
    assert (p * r) * a == p * (r * a);
    assert ((v + 1) * 65536) * a == (v * 65536 + 65536) * a == (v * 65536) * a + 65536 * a;
  }

  /// The recovered colour is off by less than half a step once multiplied back.
  lemma RecoveredClose(p: Byte, alpha: Byte)
    requires 0 < alpha < 255 && p <= alpha
    ensures 255 * p - 127 <= Recovered(p, alpha) * alpha <= 255 * p + 127
  {
    var r, v := Reciprocal(alpha), Recovered(p, alpha);
    var product := r * alpha;
    ReciprocalBounds(alpha);
    var x := p * r + 32768;
    assert v * 65536 <= x < (v + 1) * 65536;
    MultiplyMonotone(v * 65536, x, alpha);
    MultiplyMonotone(x + 1, (v + 1) * 65536, alpha);
    assert (x + 1) * alpha == x * alpha + alpha;
    Regroup(v, p, r, alpha);
    CloseProducts(p, product, alpha);
    assert (v * alpha) * 65536 <= p * product + 32768 * alpha;
  }

  lemma CloseProducts(p: nat, product: int, alpha: nat)
    requires alpha < 255 && p <= alpha && product <= 255 * 65536 + alpha / 2 < product + alpha
    ensures 255 * 65536 * p - 254 * 127 <= p * product <= 255 * 65536 * p + 254 * 127
  {
    var off := product - 255 * 65536;
    assert p * product == p * (255 * 65536) + p * off;
    assert -127 <= off <= 127;
    MultiplyMonotone(off, 127, p);
    MultiplyMonotone(-127, off, p);
  }

  /// Un-premultiplying and multiplying back loses nothing, and the minimum
  /// never acts, for every colour a premultiplied pixel can have.
  lemma StraightRoundTrip(p: Byte, alpha: Byte)
    requires p <= alpha
    ensures Premultiplied(Straight(p, alpha), alpha) == p
    ensures 0 < alpha < 255 ==> Recovered(p, alpha) <= 255
  {
    if 0 < alpha < 255 {
      RecoveredClose(p, alpha);
      var v := Recovered(p, alpha);
      if v > 255 { MultiplyMonotone(256, v, alpha); }
    } else if alpha == 255 {
      assert (p * 255 + 127) / 255 == p;
    }
  }

  // -------------------------------------------------------------- composite

  /// What of the background shows, and the sum before the minimum.
  function OverGeneral(p: Byte, background: Byte, alpha: Byte): nat {
    MultiplyMonotone(0, background, 255 - alpha);
    p + (background * (255 - alpha) + 127) / 255
  }

  function Over(p: Byte, background: Byte, alpha: Byte): Byte {
    if alpha == 255 then p
    else if alpha == 0 then background
    else Min(OverGeneral(p, background, alpha), 255)
  }

  /// For a premultiplied pixel the sum needs no clamp, and the two fast paths
  /// are the general formula.
  lemma OverIsGeneral(p: Byte, background: Byte, alpha: Byte)
    requires p <= alpha
    ensures Over(p, background, alpha) == OverGeneral(p, background, alpha) <= 255
  {
    var inverse: nat := 255 - alpha;
    MultiplyMonotone(background, 255, inverse);
    assert background * inverse <= 255 * inverse;
    assert alpha == 0 ==> background * inverse == background * 255;
  }

  /// Without that, both can differ: a pixel brighter than its alpha is clamped,
  /// and a clear one that kept its colour loses it.
  lemma OverNeedsPremultiplied()
    ensures OverGeneral(200, 255, 100) > 255
    ensures Over(10, 0, 0) == 0 && OverGeneral(10, 0, 0) == 10
  {
  }

  // ------------------------------------------------------------------- UYVY

  datatype Matrix = Auto | Bt601 | Bt709

  function Resolve(matrix: Matrix, height: int): Matrix {
    if matrix != Auto then matrix else if height >= 720 then Bt709 else Bt601
  }

  datatype Coefficients = Coefficients(yr: int, yg: int, yb: int, ur: int, ug: int, ub: int, vr: int, vg: int, vb: int)

  function For(matrix: Matrix, height: int): Coefficients {
    if Resolve(matrix, height) == Bt709
    then Coefficients(11966, 40254, 4064, -6596, -22188, 28784, 28784, -26145, -2639)
    else Coefficients(16829, 33039, 6416, -9714, -19070, 28784, 28784, -24103, -4681)
  }

  function Luma(c: Coefficients, b: Byte, g: Byte, r: Byte): int {
    Round16(c.yr * r + c.yg * g + c.yb * b + 16 * 65536)
  }

  function Average(a: Byte, b: Byte): Byte { (a + b + 1) / 2 }

  function Cb(c: Coefficients, b: Byte, g: Byte, r: Byte): int { Round16(c.ur * r + c.ug * g + c.ub * b) + 128 }

  function Cr(c: Coefficients, b: Byte, g: Byte, r: Byte): int { Round16(c.vr * r + c.vg * g + c.vb * b) + 128 }

  /// Every value is within the studio range, so no clamp ever acts.
  lemma StudioRange(matrix: Matrix, height: int, b: Byte, g: Byte, r: Byte)
    ensures var c := For(matrix, height);
            16 <= Luma(c, b, g, r) <= 235 && 16 <= Cb(c, b, g, r) <= 240 && 16 <= Cr(c, b, g, r) <= 240
  {
  }

  /// Grey is never tinted, and black and white are the ends of the luma range.
  lemma GreyIsNeutral(matrix: Matrix, height: int, v: Byte)
    ensures var c := For(matrix, height);
            && Cb(c, v, v, v) == 128 && Cr(c, v, v, v) == 128
            && Luma(c, 0, 0, 0) == 16 && Luma(c, 255, 255, 255) == 235
  {
  }

  /// Brighter in any channel is never darker in luma.
  lemma LumaMonotone(matrix: Matrix, height: int, b: Byte, g: Byte, r: Byte, b': Byte, g': Byte, r': Byte)
    requires b <= b' && g <= g' && r <= r'
    ensures Luma(For(matrix, height), b, g, r) <= Luma(For(matrix, height), b', g', r')
  {
  }
}
