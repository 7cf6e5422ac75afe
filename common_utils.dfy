/**
 * CommonUtils::GenColour: a colour on the hue wheel for a scalar. Each channel is a
 * triangle wave of the fractional part of the scalar, shifted by a third of a turn
 * per channel and clamped into [0, 1]; alpha is passed through.
 */
module CommonUtils {
  import opened Vectors

  datatype Vector4 = Vector4(x: real, y: real, z: real, w: real)

  /** The integral part modf splits off: the value rounded toward zero. */
  function Trunc(r: real): real {
    if r >= 0.0 then r.Floor as real else -((-r).Floor as real)
  }

  /** The fractional part modf returns; it keeps the sign of its argument. */
  function Frac(r: real): (f: real)
    ensures -1.0 < f < 1.0
    ensures r >= 0.0 ==> 0.0 <= f
    ensures r <= 0.0 ==> f <= 0.0
  {
    r - Trunc(r)
  }

  /** abs(modf(scalar + shift) * 6 - 3) - 1, one channel before clamping. */
  function RawChannel(scalar: real, shift: real): real {
    Abs(Frac(scalar + shift) * 6.0 - 3.0) - 1.0
  }

  function Clamp01(v: real): (c: real)
    ensures 0.0 <= c <= 1.0
    ensures 0.0 <= v <= 1.0 ==> c == v
    ensures v < 0.0 ==> c == 0.0
    ensures 1.0 < v ==> c == 1.0
  {
    Min(Max(v, 0.0), 1.0)
  }

  /**
   * GenColour(scalar, alpha): every channel lies in [0, 1], alpha is copied into w,
   * and a raw channel already inside [0, 1] comes through the clamp unchanged.
   */
  function GenColour(scalar: real, alpha: real): (c: Vector4)
    ensures c.w == alpha
    ensures 0.0 <= c.x <= 1.0 && 0.0 <= c.y <= 1.0 && 0.0 <= c.z <= 1.0
    ensures 0.0 <= RawChannel(scalar, 1.0) <= 1.0 ==> c.x == RawChannel(scalar, 1.0)
    ensures 0.0 <= RawChannel(scalar, 2.0 / 3.0) <= 1.0 ==> c.y == RawChannel(scalar, 2.0 / 3.0)
    ensures 0.0 <= RawChannel(scalar, 1.0 / 3.0) <= 1.0 ==> c.z == RawChannel(scalar, 1.0 / 3.0)
  {
    Vector4(
      Clamp01(RawChannel(scalar, 1.0)),
      Clamp01(RawChannel(scalar, 2.0 / 3.0)),
      Clamp01(RawChannel(scalar, 1.0 / 3.0)),
      alpha)
  }

  /** For non-negative arguments modf's fractional part repeats with period one. */
  lemma FracPeriodic(r: real)
    requires 0.0 <= r
    ensures Frac(r + 1.0) == Frac(r)
  {
    assert (r + 1.0).Floor == r.Floor + 1;
  }

  /** On non-negative scalars the colour wheel turns once per unit: GenColour(s + 1) == GenColour(s). */
  lemma GenColourPeriodic(scalar: real, alpha: real)
    requires 0.0 <= scalar
    ensures GenColour(scalar + 1.0, alpha) == GenColour(scalar, alpha)
  {
    FracPeriodic(scalar + 1.0);
    FracPeriodic(scalar + 2.0 / 3.0);
    FracPeriodic(scalar + 1.0 / 3.0);
    assert scalar + 1.0 + 1.0 == (scalar + 1.0) + 1.0;
    assert scalar + 1.0 + 2.0 / 3.0 == (scalar + 2.0 / 3.0) + 1.0;
    assert scalar + 1.0 + 1.0 / 3.0 == (scalar + 1.0 / 3.0) + 1.0;
  }

  /**
   * For a scalar in [0, 1) the red channel is the triangle wave of the hue wheel:
   * full at 0, falling to nothing by 1/3 and rising back to full from 2/3.
   */
  lemma RedChannelShape(scalar: real)
    requires 0.0 <= scalar < 1.0
    ensures scalar <= 1.0 / 6.0 ==> GenColour(scalar, 0.0).x == 1.0
    ensures 1.0 / 3.0 <= scalar <= 2.0 / 3.0 ==> GenColour(scalar, 0.0).x == 0.0
    ensures 5.0 / 6.0 <= scalar ==> GenColour(scalar, 0.0).x == 1.0
  {
    assert (scalar + 1.0).Floor == 1;
    assert Frac(scalar + 1.0) == scalar;
  }
}
