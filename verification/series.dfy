/** Numeric series helpers of the 2019 flight scripts: numpy's 'valid' moving
    average, the per-dataset moving average, accelerometer calibration and the
    unit conversions applied to columns. */
module Series {
  import opened Common

  /** Sum of a list of samples bounded by [lo, hi] is bounded by n*lo and n*hi. */
  lemma {:induction false} SumBounds(s: seq<real>, lo: real, hi: real)
    requires forall i :: 0 <= i < |s| ==> lo <= s[i] <= hi
    ensures |s| as real * lo <= Sum(s) <= |s| as real * hi
  {
    if s != [] {
      var p := s[..|s| - 1];
      SumBounds(p, lo, hi);
      var n := |p| as real;
      assert (n + 1.0) * lo == n * lo + lo;
      assert (n + 1.0) * hi == n * hi + hi;
    }
  }

  /** x / w lies in [lo, hi] when w > 0 and x lies in [w*lo, w*hi]. */
  lemma DivBounds(x: real, w: real, lo: real, hi: real)
    requires w > 0.0 && w * lo <= x <= w * hi
    ensures lo <= x / w <= hi
  {
    var m := x / w;
    assert m * w == x;
  }

  /** `movingaverage(values, window)`: `np.convolve(values, ones(window)/window, 'valid')`.
      numpy raises ValueError for a non-positive window (an empty or negative-size
      weight array) and for empty values. When the window is longer than the data,
      numpy swaps the operands: the output has window - len + 1 entries, each the
      sum of all values over the window. */
  function MovingAverage(values: seq<real>, window: int): (r: Result<seq<real>, PyError>)
    ensures r.Err? <==> window <= 0 || |values| == 0
    ensures r.Err? ==> r.error == ValueError
    ensures r.Ok? && window <= |values| ==>
              |r.value| == |values| - window + 1
              && forall i :: 0 <= i < |r.value| ==> r.value[i] * window as real == Sum(values[i..i + window])
    ensures r.Ok? && window > |values| ==>
              |r.value| == window - |values| + 1
              && forall i :: 0 <= i < |r.value| ==> r.value[i] * window as real == Sum(values)
  {
    if window <= 0 || |values| == 0 then Err(ValueError)
    else if window <= |values| then
      Ok(seq(|values| - window + 1, i requires 0 <= i <= |values| - window => Sum(values[i..i + window]) / window as real))
    else
      Ok(seq(window - |values| + 1, i => Sum(values) / window as real))
  }

  /** Each averaged value lies within the range of the data it averages, so a
      window over data bounded by [lo, hi] stays in [lo, hi]. */
  lemma MovingAverageBounds(values: seq<real>, window: int, lo: real, hi: real)
    requires 0 < window <= |values|
    requires forall i :: 0 <= i < |values| ==> lo <= values[i] <= hi
    ensures MovingAverage(values, window).Ok?
    ensures forall i :: 0 <= i < |MovingAverage(values, window).value| ==>
              lo <= MovingAverage(values, window).value[i] <= hi
  {
    var r := MovingAverage(values, window).value;
    forall i | 0 <= i < |r|
      ensures lo <= r[i] <= hi
    {
      var w := values[i..i + window];
      SumBounds(w, lo, hi);
      DivBounds(Sum(w), window as real, lo, hi);
    }
  }

  /** `calibrate(value, calibs)` with calibs = [lo, hi]: the affine map taking the
      recorded minimum to -1 and the recorded maximum to +1. */
  function Calibrate(value: real, lo: real, hi: real): (c: real)
    requires lo != hi
    ensures c * (0.5 * (hi - lo)) + 0.5 * (lo + hi) == value
  {
    (value - 0.5 * (lo + hi)) / (0.5 * (hi - lo))
  }

  /** The calibration limits map to -1 and +1, the map is increasing when lo < hi,
      and it is undone by value = c * gain + offset. */
  lemma CalibrateProperties(lo: real, hi: real, v: real, w: real)
    requires lo != hi
    ensures Calibrate(lo, lo, hi) == -1.0 && Calibrate(hi, lo, hi) == 1.0
    ensures lo < hi && v < w ==> Calibrate(v, lo, hi) < Calibrate(w, lo, hi)
    ensures Calibrate(v, lo, hi) * (0.5 * (hi - lo)) + 0.5 * (lo + hi) == v
  {
    var g := 0.5 * (hi - lo);
    assert g != 0.0;
    assert Calibrate(lo, lo, hi) == (-g) / g == -1.0;
    assert Calibrate(hi, lo, hi) == g / g == 1.0;
    if lo < hi && v < w {
      var o := 0.5 * (lo + hi);
      assert g > 0.0;
      DivLess(v - o, w - o, g);
    }
  }

  lemma DivLess(a: real, b: real, g: real)
    requires g > 0.0 && a < b
    ensures a / g < b / g
  {
    assert (b / g - a / g) * g == b - a;
  }

  /** `calibrate_accel_values(values, calibs)`: calibs is only indexed inside the
      loop, so an empty list succeeds whatever calibs holds; otherwise a short
      calibs raises IndexError and equal limits divide by a zero gain. */
  method CalibrateAccelValues(values: seq<real>, calibs: seq<real>) returns (r: Result<seq<real>, PyError>)
    ensures r.Err? <==> |values| > 0 && (|calibs| < 2 || calibs[0] == calibs[1])
    ensures r.Err? ==> r.error == if |calibs| < 2 then IndexError else ZeroDivisionError
    ensures r.Ok? ==> |r.value| == |values|
    ensures r.Ok? && |values| > 0 ==>
              |calibs| >= 2 && calibs[0] != calibs[1]
              && forall i :: 0 <= i < |values| ==> r.value[i] == Calibrate(values[i], calibs[0], calibs[1])
  {
    var result: seq<real> := [];
    var i := 0;
    while i < |values|
      invariant 0 <= i <= |values|
      invariant |result| == i
      invariant i > 0 ==> |calibs| >= 2 && calibs[0] != calibs[1]
      invariant forall k :: 0 <= k < i ==> result[k] == Calibrate(values[k], calibs[0], calibs[1])
    {
      if |calibs| < 2 {
        return Err(IndexError);
      }
      if 0.5 * (calibs[1] - calibs[0]) == 0.0 {
        return Err(ZeroDivisionError);
      }
      result := result + [Calibrate(values[i], calibs[0], calibs[1])];
      i := i + 1;
    }
    return Ok(result);
  }

  /** `read_accels`: accelerometer times are milliseconds, divided by 1000 in place. */
  method MillisToSecondsInPlace(a: array<real>)
    modifies a
    ensures forall i :: 0 <= i < a.Length ==> a[i] * 1000.0 == old(a[i])
  {
    var i := 0;
    while i < a.Length
      invariant 0 <= i <= a.Length
      invariant forall k :: 0 <= k < i ==> a[k] * 1000.0 == old(a[k])
      invariant forall k :: i <= k < a.Length ==> a[k] == old(a[k])
    {
      a[i] := a[i] / 1000.0;
      i := i + 1;
    }
  }

  /** `read_accels` then keeps the last len(ax) times; with a window no longer than
      the data, the kept times line up one for one with the averaged samples: the
      time of averaged sample i is that of the last raw sample in its window. */
  lemma AccelTimesAligned(time: seq<real>, ax: seq<real>, window: int)
    requires |time| == |ax| && 0 < window <= |ax|
    ensures var avg := MovingAverage(ax, window).value;
            var kept := PySliceFrom(time, |time| - |avg|);
            |kept| == |avg| && forall i :: 0 <= i < |kept| ==> kept[i] == time[i + window - 1]
  {
    var avg := MovingAverage(ax, window).value;
    PySliceLast(time, |avg|);
  }

  /** Nanoseconds to seconds, `x * 1.0 / 1e+09`. */
  function NanosToSeconds(x: real): (r: real)
    ensures r * 1000000000.0 == x
  {
    x * 1.0 / 1000000000.0
  }

  /** Milliseconds to hours, `x / 1000 / 60 / 60` on a float. */
  function MillisToHours(x: real): (r: real)
    ensures r * 3600000.0 == x
  {
    x / 1000.0 / 60.0 / 60.0
  }

  /** `mps_to_knots`. */
  function MpsToKnots(mps: real): (kt: real)
    ensures kt / 1.94384 == mps
    ensures kt > 0.0 <==> mps > 0.0
  {
    mps * 1.94384
  }

  /** The knot conversion is linear: zero maps to zero, and it adds and scales. */
  lemma MpsToKnotsLinear(a: real, b: real, k: real)
    ensures MpsToKnots(0.0) == 0.0
    ensures MpsToKnots(a + b) == MpsToKnots(a) + MpsToKnots(b)
    ensures MpsToKnots(k * a) == k * MpsToKnots(a)
  {
  }

  /** Element-wise conversion of a column, as `map(f, column)` does. */
  function MapColumn(f: real -> real, s: seq<real>): (r: seq<real>)
    ensures |r| == |s|
    ensures forall i :: 0 <= i < |s| ==> r[i] == f(s[i])
  {
    seq(|s|, i requires 0 <= i < |s| => f(s[i]))
  }
}
