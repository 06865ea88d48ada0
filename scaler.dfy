/**
 The magnitude scaler: a magnitude becomes a circle radius by a fixed linear
 factor, with no clamping. Magnitudes and radii are exact reals here; the
 rounding of the floating-point product is not modelled.
 */
module Scaler {

  /** The radius, in metres, drawn per unit of magnitude. */
  const SizeFactor: real := 30000.0

  /** The scaler of the source. Its partner is `SizeToMagnitude`, its inverse. */
  function MagnitudeSize(magnitude: real): (radius: real)
    ensures SizeToMagnitude(radius) == magnitude
  {
    magnitude * SizeFactor
  }

  /** Reads the magnitude back off a radius. */
  function SizeToMagnitude(radius: real): (magnitude: real)
  {
    radius / SizeFactor
  }

  /** Every radius, however large or negative, is the size of some magnitude:
      nothing is clamped. */
  lemma SizeUnclamped(radius: real)
    ensures MagnitudeSize(SizeToMagnitude(radius)) == radius
  {
  }

  /** Magnitude 0 has radius 0, and a radius is negative exactly when the
      magnitude is. */
  lemma SizeSign(m: real)
    ensures MagnitudeSize(m) == 0.0 <==> m == 0.0
    ensures MagnitudeSize(m) < 0.0 <==> m < 0.0
  {
  }

  /** The scaler is strictly increasing, hence one-to-one. */
  lemma SizeStrictlyIncreasing(a: real, b: real)
    ensures a < b <==> MagnitudeSize(a) < MagnitudeSize(b)
    ensures a == b <==> MagnitudeSize(a) == MagnitudeSize(b)
  {
  }

  /** The scaler is linear: it preserves sums and scalings. */
  lemma SizeLinear(a: real, b: real, k: real)
    ensures MagnitudeSize(a + b) == MagnitudeSize(a) + MagnitudeSize(b)
    ensures MagnitudeSize(k * a) == k * MagnitudeSize(a)
  {
  }
}
