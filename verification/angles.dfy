/** Angle arithmetic of the yaw filter (data_fusion): the one-step slides
    that keep a yaw in [0, 2*PI] and a heading error in [-PI, PI), the gyro
    prediction and the compass mix, and what one mix step does to the
    heading error. Angles are radians, modelled as reals. */
module Angles {

  /** The value of the PI macro; the results below use only 0 < PI. */
  const PI: real := 3.14159265358979323846
  const TWO_PI: real := 2.0 * PI

  /** The one-step slide of a yaw into [0, 2*PI] (lines 1617-1619, 1640-1643). */
  function WrapTwoPi(y: real): (r: real)
    ensures -TWO_PI <= y <= 2.0 * TWO_PI ==> 0.0 <= r <= TWO_PI
    ensures r == y || r == y - TWO_PI || r == y + TWO_PI
  {
    if y > TWO_PI then y - TWO_PI
    else if y < 0.0 then y + TWO_PI
    else y
  }

  /** The one-step slide of a heading error into [-PI, PI): an error of
      exactly PI becomes -PI. */
  function WrapPi(e: real): (r: real)
    ensures -3.0 * PI <= e < 3.0 * PI ==> -PI <= r < PI
    ensures r == e || r == e - TWO_PI || r == e + TWO_PI
  {
    if e >= PI then e - TWO_PI
    else if e < -PI then e + TWO_PI
    else e
  }

  /** A compass heading in [-PI, PI] made positive (line 1606). */
  function PositiveHeading(h: real): (r: real)
    ensures -PI <= h <= PI ==> 0.0 <= r < TWO_PI
    ensures r == h || r == h + TWO_PI
  {
    if h < 0.0 then TWO_PI + h else h
  }

  /** The reported yaw: [0, 2*PI] slid into (-PI, PI] (lines 1648-1649). */
  function SignedYaw(y: real): (r: real)
    ensures 0.0 <= y <= TWO_PI ==> -PI < r <= PI
    ensures r == y || r == y - TWO_PI
  {
    if y > PI then y - TWO_PI else y
  }

  /** The gyro-predicted yaw: the start yaw moved by the DMP's yaw change. */
  function PredictYaw(seed: real, delta: real): real
  {
    WrapTwoPi(seed + delta)
  }

  /** The filtered yaw: the prediction moved by the fraction k of its
      error against the compass, wrapped to [-PI, PI). */
  function MixYaw(predicted: real, magYaw: real, k: real): real
  {
    WrapTwoPi(predicted + WrapPi(magYaw - predicted) * k)
  }

  /** Multiplying by a gain k in (0, 1] moves a value towards zero, and
      what is left of it is the fraction 1 - k. */
  lemma GainShrinks(e: real, k: real, p: real)
    requires 0.0 < k <= 1.0 && p == e * k
    ensures e >= 0.0 ==> 0.0 <= p <= e
    ensures e < 0.0 ==> e <= p <= 0.0
    ensures (1.0 - k) * e == e - p
  {
    ProductSigns(e, k);
    ProductSigns(e, 1.0 - k);
    assert e * (1.0 - k) == e - e * k;
  }

  /** The sign rule of a product with a non-negative factor. */
  lemma ProductSigns(a: real, b: real)
    requires b >= 0.0
    ensures a >= 0.0 ==> a * b >= 0.0
    ensures a < 0.0 ==> a * b <= 0.0
  {
  }

  /** The mix step is the prediction slid by the step p. */
  lemma MixYawIsSlide(predicted: real, magYaw: real, k: real, p: real)
    requires p == WrapPi(magYaw - predicted) * k
    ensures MixYaw(predicted, magYaw, k) == WrapTwoPi(predicted + p)
  {
  }

  /** The prediction and the mix step keep the yaw in [0, 2*PI]: the
      DMP's yaw change is at most a full turn, and the mix step at most
      half of one. */
  lemma YawStepsInRange(seed: real, delta: real, magYaw: real, k: real)
    requires 0.0 <= seed <= TWO_PI && -TWO_PI <= delta <= TWO_PI
    requires 0.0 <= magYaw < TWO_PI && 0.0 < k <= 1.0
    ensures 0.0 <= PredictYaw(seed, delta) <= TWO_PI
    ensures 0.0 <= MixYaw(PredictYaw(seed, delta), magYaw, k) <= TWO_PI
  {
    var predicted := PredictYaw(seed, delta);
    var e := WrapPi(magYaw - predicted);
    var p := e * k;
    GainShrinks(e, k, p);
    MixYawIsSlide(predicted, magYaw, k, p);
  }

  /** What the mix step achieves: measured against the compass, the heading
      error left after a step is exactly (1 - k) times the error before it.
      With k in (0, 1] the filter therefore never overshoots the compass and
      converges to it geometrically while the DMP yaw stands still. */
  lemma MixShrinksError(magYaw: real, yaw: real, k: real)
    requires 0.0 <= magYaw < TWO_PI && 0.0 <= yaw <= TWO_PI
    requires 0.0 < k <= 1.0
    ensures WrapPi(magYaw - MixYaw(yaw, magYaw, k)) == (1.0 - k) * WrapPi(magYaw - yaw)
  {
    var e := WrapPi(magYaw - yaw);
    var p := e * k;
    GainShrinks(e, k, p);
    ShiftByFraction(magYaw, yaw, e, p);
    MixYawIsSlide(yaw, magYaw, k, p);
  }

  /** The linear core of MixShrinksError: sliding the yaw by a step p
      between 0 and the wrapped error e leaves the error e - p. */
  lemma ShiftByFraction(magYaw: real, yaw: real, e: real, p: real)
    requires 0.0 <= magYaw < TWO_PI && 0.0 <= yaw <= TWO_PI
    requires e == WrapPi(magYaw - yaw)
    requires e >= 0.0 ==> 0.0 <= p <= e
    requires e < 0.0 ==> e <= p <= 0.0
    ensures WrapPi(magYaw - WrapTwoPi(yaw + p)) == e - p
  {
  }
}
