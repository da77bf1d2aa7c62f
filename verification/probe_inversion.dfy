/** `generic_probe_raw2data`: recovering (alpha, beta, q) from a raw measurement.
    The numerical root finder is not modelled: its answer is an input, and the
    results below say what holds when that answer is an exact root. */
module ProbeInversion {
  import opened Common
  import opened SphereProbe

  /** Air data recovered from a measurement: angles in radians and dynamic pressure. */
  datatype Airdata = Airdata(alpha: real, beta: real, q: real)

  /** `to_optimize`: the pressure ratios of the forward model at unit q minus the
      measured ratios; the division raises where the model's dp0 is 0. */
  function Residual(layout: Layout, t: Trig, ra0: real, rb0: real, alpha: real, beta: real)
    : (r: Result<(real, real), PyError>)
    ensures var u := Data2Raw(layout, t, alpha, beta, 1.0);
            (r.Err? <==> u.dp0 == 0.0) && (r.Err? ==> r.error == ZeroDivisionError)
    ensures var u := Data2Raw(layout, t, alpha, beta, 1.0);
            r.Ok? ==> r.value.0 + ra0 == u.dpA / u.dp0 && r.value.1 + rb0 == u.dpB / u.dp0
  {
    var u := Data2Raw(layout, t, alpha, beta, 1.0);
    if u.dp0 == 0.0 then Err(ZeroDivisionError)
    else Ok((u.dpA / u.dp0 - ra0, u.dpB / u.dp0 - rb0))
  }

  /** An exact root of the residual for the measurement's own ratios. */
  predicate IsRoot(layout: Layout, t: Trig, m: Raw, alpha: real, beta: real)
    requires m.dp0 != 0.0
  {
    Residual(layout, t, m.dpA / m.dp0, m.dpB / m.dp0, alpha, beta) == Ok((0.0, 0.0))
  }

  /** The whole inversion, with `root` standing for `spo.root(...).x`, used unchecked.
      It raises when the measured dp0 is 0 (the ratios) or when the model's unit-q dp0
      at the root is 0 (the q step). */
  function Raw2Data(layout: Layout, t: Trig, m: Raw, root: (real, real)): (r: Result<Airdata, PyError>)
    ensures var u := Data2Raw(layout, t, root.0, root.1, 1.0);
            r.Err? <==> m.dp0 == 0.0 || u.dp0 == 0.0
    ensures r.Err? ==> r.error == ZeroDivisionError
    ensures var u := Data2Raw(layout, t, root.0, root.1, 1.0);
            r.Ok? ==> r.value.alpha == root.0 && r.value.beta == root.1 && r.value.q * u.dp0 == m.dp0
  {
    if m.dp0 == 0.0 then Err(ZeroDivisionError)
    else
      var u := Data2Raw(layout, t, root.0, root.1, 1.0);
      if u.dp0 == 0.0 then Err(ZeroDivisionError)
      else Ok(Airdata(root.0, root.1, m.dp0 / u.dp0))
  }

  /** If the root finder's answer zeroes both residuals, the forward model at the
      returned (alpha, beta, q) reproduces the measurement exactly. */
  lemma RoundTrip(layout: Layout, t: Trig, m: Raw, alpha: real, beta: real)
    requires m.dp0 != 0.0
    requires IsRoot(layout, t, m, alpha, beta)
    ensures Raw2Data(layout, t, m, (alpha, beta)).Ok?
    ensures var d := Raw2Data(layout, t, m, (alpha, beta)).value;
            Data2Raw(layout, t, d.alpha, d.beta, d.q) == m
  {
    var u := Data2Raw(layout, t, alpha, beta, 1.0);
    assert u.dp0 != 0.0;
    var q := m.dp0 / u.dp0;
    LinearInQ(layout, t, alpha, beta, q);
    assert u.dpA / u.dp0 == m.dpA / m.dp0;
    assert u.dpB / u.dp0 == m.dpB / m.dp0;
    RatioScales(u.dp0, u.dpA, m.dp0, m.dpA);
    RatioScales(u.dp0, u.dpB, m.dp0, m.dpB);
  }

  /** Equal ratios a/d == b/e with d, e != 0 give (e/d) * a == b. */
  lemma RatioScales(d: real, a: real, e: real, b: real)
    requires d != 0.0 && e != 0.0
    requires a / d == b / e
    ensures (e / d) * a == b
  {
    calc {
      (e / d) * a;
      == e * (a / d);
      == e * (b / e);
      == b;
    }
  }

  /** Conversely, a measurement produced by the forward model at (alpha, beta, q), with
      q and the unit-q dp0 non-zero, has (alpha, beta) as an exact root, and the
      inversion at that root returns the same q. */
  lemma ForwardInverse(layout: Layout, t: Trig, alpha: real, beta: real, q: real)
    requires q != 0.0
    requires Data2Raw(layout, t, alpha, beta, 1.0).dp0 != 0.0
    ensures var m := Data2Raw(layout, t, alpha, beta, q);
            m.dp0 != 0.0 && IsRoot(layout, t, m, alpha, beta)
    ensures var m := Data2Raw(layout, t, alpha, beta, q);
            Raw2Data(layout, t, m, (alpha, beta)) == Ok(Airdata(alpha, beta, q))
  {
    var u := Data2Raw(layout, t, alpha, beta, 1.0);
    LinearInQ(layout, t, alpha, beta, q);
    ScaleKeepsRatios(u, q);
  }

  /** Scaling a measurement by a non-zero q keeps its ratios, and q is recovered as
      the quotient of the dp0 components. */
  lemma ScaleKeepsRatios(u: Raw, q: real)
    requires q != 0.0 && u.dp0 != 0.0
    ensures var m := Scale(q, u);
            m.dp0 != 0.0 && m.dpA / m.dp0 == u.dpA / u.dp0 && m.dpB / m.dp0 == u.dpB / u.dp0
    ensures Scale(q, u).dp0 / u.dp0 == q
  {
    assert (q * u.dpA) / (q * u.dp0) == u.dpA / u.dp0;
    assert (q * u.dpB) / (q * u.dp0) == u.dpB / u.dp0;
  }
}
