/**
 * Unity colours as the converter sees them: four channels in [0, 1], compared
 * channel by channel with the tolerance `Conversor.PixelError`.
 */
module Colors {

  /** `UnityEngine.Color`; channels are exact rationals instead of floats. */
  datatype Color = Color(r: real, g: real, b: real, a: real)

  newtype byte = x: int | 0 <= x < 256

  /** `UnityEngine.Color32`, an RGBA colour with one byte per channel. */
  datatype Color32 = Color32(r: byte, g: byte, b: byte, a: byte)

  /** `Conversor.PixelError`, the per-channel tolerance. */
  const PixelError: real := 0.02

  function Abs(x: real): (r: real)
    ensures r >= 0.0 && (r == x || r == -x)
  {
    if x < 0.0 then -x else x
  }

  /** `Conversor.IsApproximated`: every colour channel closer than the tolerance; alpha is not looked at. */
  predicate IsApproximated(x: Color, y: Color)
  {
    Abs(x.r - y.r) < PixelError && Abs(x.g - y.g) < PixelError && Abs(x.b - y.b) < PixelError
  }

  /** The implicit `Color32` to `Color` conversion: each byte divided by 255. */
  function ToColor(c: Color32): (col: Color)
    ensures 0.0 <= col.r <= 1.0 && 0.0 <= col.g <= 1.0 && 0.0 <= col.b <= 1.0 && 0.0 <= col.a <= 1.0
    ensures col.r * 255.0 == c.r as real && col.g * 255.0 == c.g as real && col.b * 255.0 == c.b as real
    ensures col.a * 255.0 == c.a as real
  {
    Color(c.r as real / 255.0, c.g as real / 255.0, c.b as real / 255.0, c.a as real / 255.0)
  }

  lemma ApproximatedReflexive(x: Color)
    ensures IsApproximated(x, x)
  {
  }

  lemma ApproximatedSymmetric(x: Color, y: Color)
    ensures IsApproximated(x, y) <==> IsApproximated(y, x)
  {
  }

  lemma ApproximatedIgnoresAlpha(x: Color, y: Color, ax: real, ay: real)
    ensures IsApproximated(x.(a := ax), y.(a := ay)) <==> IsApproximated(x, y)
  {
  }

  /** The test is strict: a difference of exactly the tolerance on any one channel fails it. */
  lemma ApproximatedIsStrict(x: Color, y: Color)
    requires Abs(x.r - y.r) == PixelError || Abs(x.g - y.g) == PixelError || Abs(x.b - y.b) == PixelError
    ensures !IsApproximated(x, y)
  {
  }

  /** The test is not transitive: closeness does not chain across three colours. */
  lemma ApproximatedNotTransitive()
    ensures var x, y, z := Color(0.0, 0.0, 0.0, 1.0), Color(0.015, 0.0, 0.0, 1.0), Color(0.03, 0.0, 0.0, 1.0);
      IsApproximated(x, y) && IsApproximated(y, z) && !IsApproximated(x, z)
  {
  }

  /** On one channel, two byte values are closer than the tolerance exactly when
      they are at most five steps apart (5/255 < 0.02 < 6/255). */
  lemma ByteChannelClose(p: byte, q: byte)
    ensures Abs(p as real / 255.0 - q as real / 255.0) < PixelError <==> -5 <= p as int - q as int <= 5
  {
    var k := p as int - q as int;
    assert p as real / 255.0 - q as real / 255.0 == k as real / 255.0;
    if k > 5 {
      assert k as real >= 6.0;
    } else if k < -5 {
      assert k as real <= -6.0;
    }
  }

  /** A captured byte colour matches a target byte colour exactly when no colour
      byte differs by more than five. */
  lemma ByteColoursWithinFiveSteps(c: Color32, d: Color32)
    ensures IsApproximated(ToColor(c), ToColor(d)) <==>
      (-5 <= c.r as int - d.r as int <= 5 && -5 <= c.g as int - d.g as int <= 5 && -5 <= c.b as int - d.b as int <= 5)
  {
    ByteChannelClose(c.r, d.r);
    ByteChannelClose(c.g, d.g);
    ByteChannelClose(c.b, d.b);
  }
}
