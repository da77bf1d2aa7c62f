/** The potential-flow forward model of the multi-hole sphere probe: the pressure
    coefficient on a sphere, the five or six tap pressures, and the raw
    differential pressures (dp0, dpA, dpB) of the v1 and v2 probe layouts. */
module SphereProbe {
  import opened Common

  /** The transcendental functions the scripts take from Python's `math`; the model
      keeps them abstract and states what it needs of them as preconditions. */
  datatype Trig = Trig(cos: real -> real, sqrt: real -> real)

  /** Python's `math.pi`. */
  const Pi: real := 3.141592653589793

  /** Raw measurements: dp0 = centre minus reference, dpA = lower minus upper,
      dpB = right minus left. */
  datatype Raw = Raw(dp0: real, dpA: real, dpB: real)

  /** The two probe designs: v1 references a static source, v2 the bottom tap. */
  datatype Layout = V1 | V2

  /** The local `cos_sq`: the square of the cosine. For a cosine in [-1, 1] the square
      lies in [0, 1], and it is 0 where the cosine is. */
  function CosSq(t: Trig, x: real): (r: real)
    ensures r >= 0.0
    ensures -1.0 <= t.cos(x) <= 1.0 ==> r <= 1.0
    ensures t.cos(x) == 0.0 ==> r == 0.0
  {
    var y := t.cos(x);
    if -1.0 <= y <= 1.0 then SquareOfUnit(y); y * y else y * y
  }

  /** y^2 lies in [0, 1] for y in [-1, 1], and is 0 at 0. */
  lemma SquareOfUnit(y: real)
    requires -1.0 <= y <= 1.0
    ensures 0.0 <= y * y <= 1.0
    ensures y == 0.0 ==> y * y == 0.0
  {
    if y > 0.0 {
      assert y * y <= 1.0 * y;
    } else if y < 0.0 {
      assert y * y == (-y) * (-y);
      assert (-y) * (-y) <= 1.0 * (-y);
    } else {
      assert y * y == 0.0 * 0.0;
    }
  }

  /** Pressure coefficient at `angle` radians from the stagnation point:
      1 - 9/4 cos^2(angle - pi/2). */
  function CoefficientPolar(t: Trig, angle: real): (c: real)
    ensures c <= 1.0
  {
    1.0 - 9.0 / 4.0 * CosSq(t, angle - Pi / 2.0)
  }

  /** The coefficient stays in [-1.25, 1]: it is 1 (stagnation) where the cosine
      vanishes and -1.25 where the squared cosine is 1. */
  lemma CoefficientRange(t: Trig, angle: real)
    requires -1.0 <= t.cos(angle - Pi / 2.0) <= 1.0
    ensures -1.25 <= CoefficientPolar(t, angle) <= 1.0
    ensures t.cos(angle - Pi / 2.0) == 0.0 ==> CoefficientPolar(t, angle) == 1.0
    ensures CosSq(t, angle - Pi / 2.0) == 1.0 ==> CoefficientPolar(t, angle) == -1.25
  {
  }

  /** Coefficient at the small-angle offsets (alpha, beta), via their Euclidean distance. */
  function CoefficientCartesian(t: Trig, alpha: real, beta: real): (c: real)
    ensures c <= 1.0
  {
    CoefficientPolar(t, t.sqrt(alpha * alpha + beta * beta))
  }

  /** The cartesian coefficient depends only on alpha^2 + beta^2: negating either angle,
      or swapping them, does not change it. */
  lemma CartesianSymmetric(t: Trig, alpha: real, beta: real)
    ensures CoefficientCartesian(t, -alpha, beta) == CoefficientCartesian(t, alpha, beta)
    ensures CoefficientCartesian(t, alpha, -beta) == CoefficientCartesian(t, alpha, beta)
    ensures CoefficientCartesian(t, beta, alpha) == CoefficientCartesian(t, alpha, beta)
  {
    assert (-alpha) * (-alpha) == alpha * alpha;
    assert (-beta) * (-beta) == beta * beta;
  }

  /** `math.radians`. */
  function Radians(degrees: real): real {
    degrees * (Pi / 180.0)
  }

  /** Pressure of the tap at (alpha, beta) at dynamic pressure q. */
  function Tap(t: Trig, alpha: real, beta: real, q: real): real {
    q * CoefficientCartesian(t, alpha, beta)
  }

  /** The taps a quarter turn to either side of an on-axis point read alike. */
  lemma OnAxis(t: Trig, alpha: real, beta: real)
    ensures beta == 0.0 ==>
              CoefficientCartesian(t, alpha, beta - Pi / 4.0) == CoefficientCartesian(t, alpha, beta + Pi / 4.0)
    ensures alpha == 0.0 ==>
              CoefficientCartesian(t, alpha - Pi / 4.0, beta) == CoefficientCartesian(t, alpha + Pi / 4.0, beta)
  {
    CartesianSymmetric(t, alpha, Pi / 4.0);
    CartesianSymmetric(t, Pi / 4.0, beta);
    assert 0.0 - Pi / 4.0 == -(Pi / 4.0);
    assert 0.0 + Pi / 4.0 == Pi / 4.0;
  }

  /** `v1_probe_data2raw`: five sphere taps and a static source taken as 0. */
  function V1Data2Raw(t: Trig, alpha: real, beta: real, q: real): (r: Raw)
    ensures q == 0.0 ==> r == Raw(0.0, 0.0, 0.0)
    ensures beta == 0.0 ==> r.dpB == 0.0
    ensures alpha == 0.0 ==> r.dpA == 0.0
  {
    OnAxis(t, alpha, beta);
    var p0 := Tap(t, alpha, beta, q);
    var pUpr := Tap(t, alpha - Pi / 4.0, beta, q);
    var pLwr := Tap(t, alpha + Pi / 4.0, beta, q);
    var pLft := Tap(t, alpha, beta - Pi / 4.0, q);
    var pRgt := Tap(t, alpha, beta + Pi / 4.0, q);
    Raw(p0, pLwr - pUpr, pRgt - pLft)
  }

  /** `v2_probe_data2raw`: the reference is the bottom tap at alpha + pi/2. */
  function V2Data2Raw(t: Trig, alpha: real, beta: real, q: real): (r: Raw)
    ensures q == 0.0 ==> r == Raw(0.0, 0.0, 0.0)
    ensures beta == 0.0 ==> r.dpB == 0.0
    ensures alpha == 0.0 ==> r.dpA == 0.0
  {
    OnAxis(t, alpha, beta);
    var p0 := Tap(t, alpha, beta, q);
    var pUpr := Tap(t, alpha - Pi / 4.0, beta, q);
    var pLwr := Tap(t, alpha + Pi / 4.0, beta, q);
    var pBtm := Tap(t, alpha + Pi / 2.0, beta, q);
    var pLft := Tap(t, alpha, beta - Pi / 4.0, q);
    var pRgt := Tap(t, alpha, beta + Pi / 4.0, q);
    Raw(p0 - pBtm, pLwr - pUpr, pRgt - pLft)
  }

  /** The `data2raw` argument of the generic inversion. */
  function Data2Raw(layout: Layout, t: Trig, alpha: real, beta: real, q: real): Raw {
    match layout
    case V1 => V1Data2Raw(t, alpha, beta, q)
    case V2 => V2Data2Raw(t, alpha, beta, q)
  }

  /** How the taps are assembled: v1's dp0 is the centre tap alone, v2's subtracts the
      bottom tap from it, and the two layouts agree on dpA and dpB. */
  lemma TapAssembly(t: Trig, alpha: real, beta: real, q: real)
    ensures V1Data2Raw(t, alpha, beta, q).dp0 == Tap(t, alpha, beta, q)
    ensures V2Data2Raw(t, alpha, beta, q).dp0
         == V1Data2Raw(t, alpha, beta, q).dp0 - Tap(t, alpha + Pi / 2.0, beta, q)
    ensures V2Data2Raw(t, alpha, beta, q).dpA == V1Data2Raw(t, alpha, beta, q).dpA
    ensures V2Data2Raw(t, alpha, beta, q).dpB == V1Data2Raw(t, alpha, beta, q).dpB
    ensures V1Data2Raw(t, alpha, beta, q).dpA
         == Tap(t, alpha + Pi / 4.0, beta, q) - Tap(t, alpha - Pi / 4.0, beta, q)
    ensures V1Data2Raw(t, alpha, beta, q).dpB
         == Tap(t, alpha, beta + Pi / 4.0, q) - Tap(t, alpha, beta - Pi / 4.0, q)
  {
  }

  function Scale(k: real, r: Raw): Raw {
    Raw(k * r.dp0, k * r.dpA, k * r.dpB)
  }

  /** Every output is linear in q: data2raw(alpha, beta, q) = q * data2raw(alpha, beta, 1). */
  lemma LinearInQ(layout: Layout, t: Trig, alpha: real, beta: real, q: real)
    ensures Data2Raw(layout, t, alpha, beta, q) == Scale(q, Data2Raw(layout, t, alpha, beta, 1.0))
  {
  }

  /** On-axis flow gives zero cross-axis output: dpB = 0 when beta = 0 and dpA = 0 when
      alpha = 0, for both layouts and any q. */
  lemma CrossAxisZero(layout: Layout, t: Trig, alpha: real, beta: real, q: real)
    ensures Data2Raw(layout, t, alpha, 0.0, q).dpB == 0.0
    ensures Data2Raw(layout, t, 0.0, beta, q).dpA == 0.0
  {
    CartesianSymmetric(t, alpha, Pi / 4.0);
    CartesianSymmetric(t, Pi / 4.0, beta);
    assert 0.0 - Pi / 4.0 == -(Pi / 4.0);
    assert 0.0 + Pi / 4.0 == Pi / 4.0;
  }

  /** dpB is odd in beta: dpB(alpha, -beta) = -dpB(alpha, beta). */
  lemma DpBOddInBeta(layout: Layout, t: Trig, alpha: real, beta: real, q: real)
    ensures Data2Raw(layout, t, alpha, -beta, q).dpB == -Data2Raw(layout, t, alpha, beta, q).dpB
  {
    CartesianSymmetric(t, alpha, beta - Pi / 4.0);
    CartesianSymmetric(t, alpha, beta + Pi / 4.0);
    assert -beta + Pi / 4.0 == -(beta - Pi / 4.0);
    assert -beta - Pi / 4.0 == -(beta + Pi / 4.0);
  }

  /** With every coefficient in [-1.25, 1], each tap lies between -1.25 q and q for q >= 0. */
  lemma TapRange(t: Trig, alpha: real, beta: real, q: real)
    requires forall x :: -1.0 <= t.cos(x) <= 1.0
    requires q >= 0.0
    ensures -1.25 * q <= Tap(t, alpha, beta, q) <= q
  {
    var angle := t.sqrt(alpha * alpha + beta * beta);
    CoefficientRange(t, angle);
    var c := CoefficientCartesian(t, alpha, beta);
    assert q * c <= q * 1.0;
    assert q * (-1.25) <= q * c;
  }

  /** `makeplot.py`'s theoretical ratios for the v2 probe, with inputs in degrees and a
      scaling applied to the theory; note dpA is upper minus lower there. */
  datatype Theory = Theory(dp0Q: real, dpAQ: real, dpBQ: real)

  function V2Theoretical(t: Trig, alphaDeg: real, betaDeg: real, scaling: real): (th: Theory)
    ensures var raw := V2Data2Raw(t, Radians(alphaDeg), Radians(betaDeg), 1.0);
            th == Theory(scaling * raw.dp0, -scaling * raw.dpA, scaling * raw.dpB)
  {
    var alpha := Radians(alphaDeg);
    var beta := Radians(betaDeg);
    var p0 := CoefficientCartesian(t, alpha, beta);
    var pUpr := CoefficientCartesian(t, alpha - Pi / 4.0, beta);
    var pLwr := CoefficientCartesian(t, alpha + Pi / 4.0, beta);
    var pBtm := CoefficientCartesian(t, alpha + Pi / 2.0, beta);
    var pLft := CoefficientCartesian(t, alpha, beta - Pi / 4.0);
    var pRgt := CoefficientCartesian(t, alpha, beta + Pi / 4.0);
    Theory(scaling * (p0 - pBtm), scaling * (pUpr - pLwr), scaling * (pRgt - pLft))
  }

  /** The makeplot theory is the v2 forward model at unit q in radians, scaled, with
      the sign of dpA flipped. */
  lemma TheoryIsScaledV2(t: Trig, alphaDeg: real, betaDeg: real, s: real)
    ensures var raw := V2Data2Raw(t, Radians(alphaDeg), Radians(betaDeg), 1.0);
            V2Theoretical(t, alphaDeg, betaDeg, s) == Theory(s * raw.dp0, -s * raw.dpA, s * raw.dpB)
  {
  }

  /** Hence its cross-axis outputs vanish on axis as well. */
  lemma TheoryCrossAxisZero(t: Trig, alphaDeg: real, betaDeg: real, s: real)
    ensures V2Theoretical(t, alphaDeg, 0.0, s).dpBQ == 0.0
    ensures V2Theoretical(t, 0.0, betaDeg, s).dpAQ == 0.0
  {
    TheoryIsScaledV2(t, alphaDeg, 0.0, s);
    TheoryIsScaledV2(t, 0.0, betaDeg, s);
    CrossAxisZero(V2, t, Radians(alphaDeg), Radians(betaDeg), 1.0);
  }

  /** `ratio_a` of the static-source estimates: dpA / dp0 of v2 at unit q, degree inputs;
      the division raises ZeroDivisionError where dp0 is 0. */
  function RatioA(t: Trig, aDeg: real, bDeg: real): (r: Result<real, PyError>)
    ensures var raw := V2Data2Raw(t, Radians(aDeg), Radians(bDeg), 1.0);
            (r.Err? <==> raw.dp0 == 0.0) && (r.Err? ==> r.error == ZeroDivisionError) &&
            (r.Ok? ==> r.value * raw.dp0 == raw.dpA)
  {
    var raw := V2Data2Raw(t, Radians(aDeg), Radians(bDeg), 1.0);
    if raw.dp0 == 0.0 then Err(ZeroDivisionError) else Ok(raw.dpA / raw.dp0)
  }

  /** `ratio_b`: dpB / dp0 of v2 at unit q, degree inputs. */
  function RatioB(t: Trig, aDeg: real, bDeg: real): (r: Result<real, PyError>)
    ensures var raw := V2Data2Raw(t, Radians(aDeg), Radians(bDeg), 1.0);
            (r.Err? <==> raw.dp0 == 0.0) && (r.Err? ==> r.error == ZeroDivisionError) &&
            (r.Ok? ==> r.value * raw.dp0 == raw.dpB)
  {
    var raw := V2Data2Raw(t, Radians(aDeg), Radians(bDeg), 1.0);
    if raw.dp0 == 0.0 then Err(ZeroDivisionError) else Ok(raw.dpB / raw.dp0)
  }

  /** The ratios do not depend on q: any non-zero q gives the same dpA/dp0 and dpB/dp0. */
  lemma RatiosScaleInvariant(t: Trig, aDeg: real, bDeg: real, q: real)
    requires q != 0.0
    ensures var raw := V2Data2Raw(t, Radians(aDeg), Radians(bDeg), q);
            RatioA(t, aDeg, bDeg).Ok? <==> raw.dp0 != 0.0
    ensures var raw := V2Data2Raw(t, Radians(aDeg), Radians(bDeg), q);
            raw.dp0 != 0.0 ==>
              RatioA(t, aDeg, bDeg) == Ok(raw.dpA / raw.dp0) && RatioB(t, aDeg, bDeg) == Ok(raw.dpB / raw.dp0)
  {
    var a, b := Radians(aDeg), Radians(bDeg);
    LinearInQ(V2, t, a, b, q);
    var u := V2Data2Raw(t, a, b, 1.0);
    var raw := V2Data2Raw(t, a, b, q);
    if raw.dp0 != 0.0 {
      QuotientScale(u.dpA, u.dp0, q, raw.dpA, raw.dp0);
      QuotientScale(u.dpB, u.dp0, q, raw.dpB, raw.dp0);
    }
  }

  /** (q a) / (q d) = a / d for non-zero q and d. */
  lemma QuotientScale(a: real, d: real, q: real, x: real, y: real)
    requires q != 0.0 && x == q * a && y == q * d && y != 0.0
    ensures d != 0.0 && x / y == a / d
  {
    assert d != 0.0;
    assert (x / y) * (q * d) == q * a;
  }
}
