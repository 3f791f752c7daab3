/** `soft_thresholding`: element-wise shrinkage of a vector towards zero,
    written in the source as three whole-array `np.where` passes. The only
    caller passes a scalar threshold, so `value` is a scalar here. */
module SoftThresholding {

  function Abs(x: real): real {
    if x < 0.0 then -x else x
  }

  /** One entry of the result, pass by pass: pass 1 puts `substitute` on
      entries strictly inside (-value, value); pass 2 adds `value` where the
      entry was below `value`; pass 3 subtracts `value` where it was above
      `-value`. Both conditions are taken on the INPUT entry. */
  function ThresholdEntry(d: real, value: real, substitute: real): (r: real)
    // inside the band, passes 2 and 3 add and then remove `value`
    ensures value >= 0.0 && -value < d < value ==> r == substitute
    ensures value >= 0.0 && d >= value ==> r == d - value
    ensures value >= 0.0 && d <= -value ==> r == d + value
    ensures value == 0.0 ==> r == d
    // with substitute 0: zero exactly on the closed band, sign kept outside it,
    // and never larger in magnitude
    ensures value >= 0.0 && substitute == 0.0 ==> (r == 0.0 <==> Abs(d) <= value)
    ensures value >= 0.0 && substitute == 0.0 && Abs(d) > value ==> (r > 0.0 <==> d > 0.0)
    ensures value >= 0.0 && substitute == 0.0 ==> Abs(r) <= Abs(d)
  {
    var less := d < value;
    var greater := d > -value;
    var pass1 := if less && greater then substitute else d;
    var pass2 := if less then pass1 + value else pass1;
    if greater then pass2 - value else pass2
  }

  /** `soft_thresholding(data, value, substitute)` on a vector. */
  function SoftThreshold(data: seq<real>, value: real, substitute: real): (r: seq<real>)
    ensures |r| == |data|
    ensures forall i :: 0 <= i < |data| ==> r[i] == ThresholdEntry(data[i], value, substitute)
  {
    seq(|data|, i requires 0 <= i < |data| => ThresholdEntry(data[i], value, substitute))
  }

  /** The textbook soft-thresholding operator sign(d) * max(|d| - value, 0),
      an independent reference for the three-pass formulation. */
  function Shrink(d: real, value: real): real {
    if d > value then d - value else if d < -value then d + value else 0.0
  }

  /** With a non-negative threshold and the default substitute, the three
      passes compute the textbook shrinkage on every entry. */
  lemma SoftThresholdIsShrink(data: seq<real>, value: real)
    requires value >= 0.0
    ensures SoftThreshold(data, value, 0.0) == seq(|data|, i requires 0 <= i < |data| => Shrink(data[i], value))
  {
  }

  /** A zero threshold leaves every vector as it is, whatever the substitute. */
  lemma SoftThresholdZeroIsIdentity(data: seq<real>, substitute: real)
    ensures SoftThreshold(data, 0.0, substitute) == data
  {
  }

  /** The projection of `p` onto the interval [-theta, theta]. */
  function Clip(p: real, theta: real): real {
    if p > theta then theta else if p < -theta then -theta else p
  }

  /** The dual total-variation step of `update_factor` (method 0):
      `p - sigma * soft_thresholding(p / sigma, theta / sigma)` is the
      projection of `p` onto [-theta, theta] (Moreau's identity). */
  lemma DualStepIsProjection(p: real, theta: real, sigma: real)
    requires sigma > 0.0 && theta >= 0.0
    ensures p - sigma * ThresholdEntry(p / sigma, theta / sigma, 0.0) == Clip(p, theta)
  {
    var d, v := p / sigma, theta / sigma;
    assert sigma * d == p && sigma * v == theta;
    ScaledSign(sigma, v);
    var t := ThresholdEntry(d, v, 0.0);
    if d >= v {
      assert t == d - v;
      assert sigma * t == sigma * d - sigma * v;
      ScaledSign(sigma, d - v);
    } else if d <= -v {
      assert t == d + v;
      assert sigma * t == sigma * d + sigma * v;
      ScaledSign(sigma, d + v);
    } else {
      assert t == 0.0;
      ScaledSign(sigma, d - v);
      ScaledSign(sigma, d + v);
    }
  }

  /** Scaling by a positive factor keeps the sign. */
  lemma ScaledSign(sigma: real, a: real)
    requires sigma > 0.0
    ensures a >= 0.0 ==> sigma * a >= 0.0
    ensures a <= 0.0 ==> sigma * a <= 0.0
    ensures a > 0.0 ==> sigma * a > 0.0
    ensures a < 0.0 ==> sigma * a < 0.0
  {
  }
}
