/** Count-to-pressure transfer functions of the Honeywell-style sensors: the 14-bit
    HSC function of the 2019-06-15 drift test and the 24-bit function, percent of
    full scale and per-measurement report of the 2019-05 sensor test. */
module Sensors {
  import opened Common
  import opened Series

  const Counts14: real := 16384.0   // pow(2, 14)
  const Counts24: real := 16777216.0   // pow(2, 24)

  /** `pressure_count_to_value_hsc`: the 10%..90% count band maps linearly onto
      [p_min, p_max], with p_min = 0 for a gauge sensor and -fss otherwise. */
  function HscCountToValue(count: real, fss: real, isGage: bool): (p: real)
    ensures count == 0.1 * Counts14 ==> p == (if isGage then 0.0 else -fss)
    ensures count == 0.9 * Counts14 ==> p == fss
  {
    var pMin := if isGage then 0.0 else -fss;
    var pMax := fss;
    var nRatio := (count * 1.0) / (Counts14 * 1.0);
    assert count == 0.9 * Counts14 ==> 1.25 * (nRatio - 0.1) == 1.0;
    pMin + 1.25 * (nRatio - 0.1) * (pMax - pMin)
  }

  /** 10% of full count gives p_min and 90% gives p_max = fss. */
  lemma HscEndpoints(fss: real, isGage: bool)
    ensures HscCountToValue(0.1 * Counts14, fss, isGage) == (if isGage then 0.0 else -fss)
    ensures HscCountToValue(0.9 * Counts14, fss, isGage) == fss
  {
    var span := if isGage then fss else 2.0 * fss;
    assert 1.25 * (0.9 - 0.1) * span == span;
  }

  /** The conversion is affine in the count, with slope 1.25 (p_max - p_min) / 2^14,
      hence strictly increasing when fss > 0. */
  lemma HscAffine(c0: real, c1: real, fss: real, isGage: bool)
    ensures var slope := 1.25 * (if isGage then fss else 2.0 * fss) / Counts14;
            HscCountToValue(c1, fss, isGage) - HscCountToValue(c0, fss, isGage) == slope * (c1 - c0)
    ensures fss > 0.0 && c0 < c1 ==> HscCountToValue(c0, fss, isGage) < HscCountToValue(c1, fss, isGage)
  {
    var pMin := if isGage then 0.0 else -fss;
    var span := if isGage then fss else 2.0 * fss;
    var slope := 1.25 * span / Counts14;
    var p0, p1 := HscCountToValue(c0, fss, isGage), HscCountToValue(c1, fss, isGage);
    assert p0 == pMin + 1.25 * (c0 / Counts14 - 0.1) * span;
    assert p1 == pMin + 1.25 * (c1 / Counts14 - 0.1) * span;
    LinearDifference(pMin, span, Counts14, c0, c1, p0, p1);
    if fss > 0.0 && c0 < c1 {
      PositiveProduct(slope, c1 - c0);
    }
  }

  /** Two points of the line `pMin + 1.25 (c / n - 0.1) span` differ by the slope
      times the difference of their counts. */
  lemma LinearDifference(pMin: real, span: real, n: real, c0: real, c1: real, p0: real, p1: real)
    requires n > 0.0
    requires p0 == pMin + 1.25 * (c0 / n - 0.1) * span
    requires p1 == pMin + 1.25 * (c1 / n - 0.1) * span
    ensures p1 - p0 == 1.25 * span / n * (c1 - c0)
  {
    assert c1 / n - c0 / n == (c1 - c0) / n;
  }

  lemma PositiveProduct(a: real, b: real)
    requires a > 0.0 && b > 0.0
    ensures a * b > 0.0
  {
  }

  /** `read_pressures` of 2019-06-15: p0, p1, p2 are the counts c0, c1, c2 converted
      one for one as a 4000 Pa differential sensor. */
  function ConvertCounts(counts: seq<real>): (ps: seq<real>)
    ensures |ps| == |counts|
    ensures forall i :: 0 <= i < |counts| ==> ps[i] == HscCountToValue(counts[i], 4000.0, false)
  {
    MapColumn(c => HscCountToValue(c, 4000.0, false), counts)
  }

  /** The offset count: 10% of full count for a gauge sensor, 50% for a differential one. */
  function OffsetCount(isGage: bool): real {
    (if isGage then 0.1 else 0.5) * Counts24
  }

  /** The pressure span: fss for a gauge sensor, 2 fss for a differential one. */
  function TotalRange(fss: real, isGage: bool): real {
    if isGage then fss else 2.0 * fss
  }

  /** `pressure_count_to_value`: the 24-bit transfer function. */
  function CountToValue(count: real, fss: real, isGage: bool): (p: real)
    ensures count == OffsetCount(isGage) ==> p == 0.0
    ensures count == 0.9 * Counts24 ==> p == fss
    ensures !isGage && count == 0.1 * Counts24 ==> p == -fss
  {
    assert count == 0.9 * Counts24 ==> (count - OffsetCount(isGage)) / Counts24 == (if isGage then 0.8 else 0.4);
    assert count == 0.1 * Counts24 ==> (count - OffsetCount(isGage)) / Counts24 == (if isGage then 0.0 else -0.4);
    1.25 * (count - OffsetCount(isGage)) / Counts24 * TotalRange(fss, isGage)
  }

  /** The offset count reads 0; 90% of full count reads +fss; for a differential
      sensor 10% reads -fss. */
  lemma CountToValueEndpoints(fss: real, isGage: bool)
    ensures CountToValue(OffsetCount(isGage), fss, isGage) == 0.0
    ensures CountToValue(0.9 * Counts24, fss, isGage) == fss
    ensures !isGage ==> CountToValue(0.1 * Counts24, fss, false) == -fss
  {
    if isGage {
      assert CountToValue(0.9 * Counts24, fss, true) == 1.25 * (0.8 * Counts24) / Counts24 * fss;
    } else {
      assert CountToValue(0.9 * Counts24, fss, false) == 1.25 * (0.4 * Counts24) / Counts24 * (2.0 * fss);
      assert CountToValue(0.1 * Counts24, fss, false) == 1.25 * (-0.4 * Counts24) / Counts24 * (2.0 * fss);
    }
  }

  /** Increasing in the count when fss > 0. */
  lemma CountToValueMonotone(c0: real, c1: real, fss: real, isGage: bool)
    requires fss > 0.0 && c0 <= c1
    ensures CountToValue(c0, fss, isGage) <= CountToValue(c1, fss, isGage)
  {
    var k := 1.25 / Counts24 * TotalRange(fss, isGage);
    assert k > 0.0;
    var off := OffsetCount(isGage);
    assert CountToValue(c0, fss, isGage) == (c0 - off) * k;
    assert CountToValue(c1, fss, isGage) == (c1 - off) * k;
    ScaledOrder(c0 - off, c1 - off, k, CountToValue(c0, fss, isGage), CountToValue(c1, fss, isGage));
  }

  lemma ScaledOrder(a: real, b: real, k: real, x: real, y: real)
    requires a <= b && k > 0.0 && x == a * k && y == b * k
    ensures x <= y
  {
    if a < b {
      PositiveProduct(b - a, k);
      assert b * k - a * k == (b - a) * k;
    }
  }

  /** `percent_full_scale`: the value as a percentage of the span; a zero span
      divides by zero. */
  function PercentFullScale(value: real, fss: real, isGage: bool): (r: Result<real, PyError>)
    ensures r.Err? <==> TotalRange(fss, isGage) == 0.0
    ensures r.Err? ==> r.error == ZeroDivisionError
    ensures r.Ok? ==> r.value * TotalRange(fss, isGage) == value * 100.0
  {
    var total := TotalRange(fss, isGage);
    if total == 0.0 then Err(ZeroDivisionError) else Ok(value / total * 100.0)
  }

  /** Zero is 0% and the whole span is 100%. */
  lemma PercentFullScaleProperties(fss: real, isGage: bool)
    requires fss != 0.0
    ensures PercentFullScale(0.0, fss, isGage) == Ok(0.0)
    ensures PercentFullScale(TotalRange(fss, isGage), fss, isGage) == Ok(100.0)
  {
    var t := TotalRange(fss, isGage);
    assert t / t == 1.0;
  }

  /** For fss > 0 the percentage has the sign of the value. */
  lemma PercentSign(value: real, fss: real, isGage: bool)
    requires fss > 0.0
    ensures var p := PercentFullScale(value, fss, isGage).value;
            (p < 0.0 <==> value < 0.0) && (p == 0.0 <==> value == 0.0)
  {
    var t := TotalRange(fss, isGage);
    var p := PercentFullScale(value, fss, isGage).value;
    ProductSign(p, t);
    assert p * t == value * 100.0;
  }

  lemma ProductSign(a: real, b: real)
    requires b > 0.0
    ensures a * b < 0.0 <==> a < 0.0
    ensures a * b == 0.0 <==> a == 0.0
  {
    if a > 0.0 {
      PositiveProduct(a, b);
    } else if a < 0.0 {
      PositiveProduct(-a, b);
      assert (-a) * b == -(a * b);
    }
  }

  /** One measurement record: minimum, average and maximum counts and the applied pressure. */
  datatype Measurement = Measurement(cmin: real, cavg: real, cmax: real, applied: real)

  /** What `process_measurement` prints. */
  datatype Report = Report(applied: real, vavg: real, pctDeltaMin: real, pctDeltaMax: real, pctErrAvg: real)

  /** `process_measurement`: the arithmetic behind the printed line. */
  function ProcessMeasurement(isGage: bool, fss: real, m: Measurement): (r: Result<Report, PyError>)
    ensures r.Err? <==> fss == 0.0
    ensures r.Err? ==> r.error == ZeroDivisionError
    ensures r.Ok? ==> r.value.applied == m.applied && r.value.vavg == CountToValue(m.cavg, fss, isGage)
  {
    var vmin := CountToValue(m.cmin, fss, isGage);
    var vavg := CountToValue(m.cavg, fss, isGage);
    var vmax := CountToValue(m.cmax, fss, isGage);
    var dMin := PercentFullScale(vmin - vavg, fss, isGage);
    var dMax := PercentFullScale(vmax - vavg, fss, isGage);
    var err := PercentFullScale(vavg - m.applied, fss, isGage);
    if dMin.Err? then Err(dMin.error)
    else Ok(Report(m.applied, vavg, dMin.value, dMax.value, err.value))
  }

  /** For ordered counts and fss > 0 the minimum's deviation is at most 0 and the
      maximum's at least 0; the error is 0 exactly when the average reads the
      applied pressure. */
  lemma ProcessMeasurementSigns(isGage: bool, fss: real, m: Measurement)
    requires fss > 0.0
    ensures ProcessMeasurement(isGage, fss, m).Ok?
    ensures var r := ProcessMeasurement(isGage, fss, m).value;
            m.cmin <= m.cavg <= m.cmax ==> r.pctDeltaMin <= 0.0 <= r.pctDeltaMax
    ensures var r := ProcessMeasurement(isGage, fss, m).value;
            r.pctErrAvg == 0.0 <==> r.vavg == m.applied
  {
    var vmin := CountToValue(m.cmin, fss, isGage);
    var vavg := CountToValue(m.cavg, fss, isGage);
    var vmax := CountToValue(m.cmax, fss, isGage);
    if m.cmin <= m.cavg <= m.cmax {
      CountToValueMonotone(m.cmin, m.cavg, fss, isGage);
      CountToValueMonotone(m.cavg, m.cmax, fss, isGage);
      PercentSign(vmin - vavg, fss, isGage);
      PercentSign(vmax - vavg, fss, isGage);
    }
    PercentSign(vavg - m.applied, fss, isGage);
  }
}
