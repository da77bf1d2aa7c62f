/** The comparison half of the 2021 probe-calibration analysis: the theoretical
    v2 ratios are added beside the measured ones, the measured/theory ratios are
    formed (0 wherever the division fails), and the squared error between data and
    a scaled theory is summed for one output. */
module CalibrationCompare {
  import opened Common
  import opened SphereProbe

  predicate Has(d: map<string, seq<real>>, k: string, n: nat) {
    k in d && |d[k]| >= n
  }

  /** `add_theoreticals`: the unscaled v2 theory at every row's (alpha, beta). */
  method AddTheoreticals(t: Trig, r: map<string, seq<real>>) returns (res: Result<map<string, seq<real>>, PyError>)
    ensures res.Err? <==> "alpha" !in r || (|r["alpha"]| > 0 && !Has(r, "beta", |r["alpha"]|))
    ensures res.Err? ==> res.error == (if "alpha" in r && "beta" in r then IndexError else KeyError)
    ensures res.Ok? ==> res.value.Keys == r.Keys + {"dp0_q_th", "dpA_q_th", "dpB_q_th"}
    ensures res.Ok? ==> forall k :: k in r && k != "dp0_q_th" && k != "dpA_q_th" && k != "dpB_q_th" ==>
              res.value[k] == r[k]
    ensures res.Ok? ==> var n := |r["alpha"]|;
              |res.value["dp0_q_th"]| == |res.value["dpA_q_th"]| == |res.value["dpB_q_th"]| == n &&
              forall i :: 0 <= i < n ==>
                var th := V2Theoretical(t, r["alpha"][i], r["beta"][i], 1.0);
                res.value["dp0_q_th"][i] == th.dp0Q && res.value["dpA_q_th"][i] == th.dpAQ &&
                res.value["dpB_q_th"][i] == th.dpBQ
  {
    if "alpha" !in r {
      return Err(KeyError);
    }
    var n := |r["alpha"]|;
    var c0: seq<real>, cA: seq<real>, cB: seq<real> := [], [], [];
    var i := 0;
    while i < n
      invariant 0 <= i <= n && |c0| == |cA| == |cB| == i
      invariant i > 0 ==> Has(r, "beta", i)
      invariant forall j :: 0 <= j < i ==>
                  var th := V2Theoretical(t, r["alpha"][j], r["beta"][j], 1.0);
                  c0[j] == th.dp0Q && cA[j] == th.dpAQ && cB[j] == th.dpBQ
    {
      var b := At(r, "beta", i);
      if b.Err? {
        return Err(b.error);
      }
      var th := V2Theoretical(t, r["alpha"][i], b.value, 1.0);
      c0, cA, cB := c0 + [th.dp0Q], cA + [th.dpAQ], cB + [th.dpBQ];
      i := i + 1;
    }
    return Ok(r["dp0_q_th" := c0]["dpA_q_th" := cA]["dpB_q_th" := cB]);
  }

  /** One ratio of `add_ratios`: `r[v][i] / r[v + '_th'][i]`, or 0 when anything in
      it raises (the bare `except` catches the missing column, the short column and
      the division by zero alike). */
  function SafeRatio(r: map<string, seq<real>>, v: string, th: string, i: nat): (x: real)
    ensures Has(r, v, i + 1) && Has(r, th, i + 1) && r[th][i] != 0.0 ==> x * r[th][i] == r[v][i]
    ensures !(Has(r, v, i + 1) && Has(r, th, i + 1) && r[th][i] != 0.0) ==> x == 0.0
  {
    if Has(r, v, i + 1) && Has(r, th, i + 1) && r[th][i] != 0.0 then r[v][i] / r[th][i] else 0.0
  }

  /** The ratio column of output v over n rows. */
  function RatioColumn(r: map<string, seq<real>>, v: string, th: string, n: nat): (c: seq<real>)
    ensures |c| == n
    ensures forall i :: 0 <= i < n ==> c[i] == SafeRatio(r, v, th, i)
  {
    if n == 0 then [] else RatioColumn(r, v, th, n - 1) + [SafeRatio(r, v, th, n - 1)]
  }

  /** `add_ratios`: only a missing alpha column raises; every row gets a ratio for
      each of dp0_q, dpA_q and dpB_q. */
  method AddRatios(r: map<string, seq<real>>) returns (res: Result<map<string, seq<real>>, PyError>)
    ensures res.Err? <==> "alpha" !in r
    ensures res.Err? ==> res.error == KeyError
    ensures res.Ok? ==> res.value.Keys == r.Keys + {"dp0_q_ratio", "dpA_q_ratio", "dpB_q_ratio"}
    ensures res.Ok? ==> forall k :: k in r && k != "dp0_q_ratio" && k != "dpA_q_ratio" && k != "dpB_q_ratio" ==>
              res.value[k] == r[k]
    ensures res.Ok? ==> var n := |r["alpha"]|;
              res.value["dp0_q_ratio"] == RatioColumn(r, "dp0_q", "dp0_q_th", n) &&
              res.value["dpA_q_ratio"] == RatioColumn(r, "dpA_q", "dpA_q_th", n) &&
              res.value["dpB_q_ratio"] == RatioColumn(r, "dpB_q", "dpB_q_th", n)
  {
    if "alpha" !in r {
      return Err(KeyError);
    }
    var n := |r["alpha"]|;
    var c0: seq<real>, cA: seq<real>, cB: seq<real> := [], [], [];
    var i := 0;
    while i < n
      invariant 0 <= i <= n
      invariant c0 == RatioColumn(r, "dp0_q", "dp0_q_th", i)
      invariant cA == RatioColumn(r, "dpA_q", "dpA_q_th", i)
      invariant cB == RatioColumn(r, "dpB_q", "dpB_q_th", i)
    {
      c0 := c0 + [SafeRatio(r, "dp0_q", "dp0_q_th", i)];
      cA := cA + [SafeRatio(r, "dpA_q", "dpA_q_th", i)];
      cB := cB + [SafeRatio(r, "dpB_q", "dpB_q_th", i)];
      i := i + 1;
    }
    return Ok(r["dp0_q_ratio" := c0]["dpA_q_ratio" := cA]["dpB_q_ratio" := cB]);
  }

  /** On a row with beta = 0 the dpB theory is 0, so after `add_theoreticals` its
      dpB ratio is the fallback 0; likewise dpA on a row with alpha = 0. */
  lemma AxisRatiosFallBack(t: Trig, r: map<string, seq<real>>, i: nat)
    requires Has(r, "alpha", i + 1) && Has(r, "beta", i + 1)
    requires Has(r, "dpA_q_th", i + 1) && Has(r, "dpB_q_th", i + 1)
    requires r["dpA_q_th"][i] == V2Theoretical(t, r["alpha"][i], r["beta"][i], 1.0).dpAQ
    requires r["dpB_q_th"][i] == V2Theoretical(t, r["alpha"][i], r["beta"][i], 1.0).dpBQ
    ensures r["beta"][i] == 0.0 ==> SafeRatio(r, "dpB_q", "dpB_q_th", i) == 0.0
    ensures r["alpha"][i] == 0.0 ==> SafeRatio(r, "dpA_q", "dpA_q_th", i) == 0.0
  {
    TheoryCrossAxisZero(t, r["alpha"][i], r["beta"][i], 1.0);
  }

  /** The three outputs `compute_error` is called with. */
  datatype Output = Dp0Q | DpAQ | DpBQ

  function ColumnName(v: Output): string {
    match v
    case Dp0Q => "dp0_q"
    case DpAQ => "dpA_q"
    case DpBQ => "dpB_q"
  }

  function Select(th: Theory, v: Output): real {
    match v
    case Dp0Q => th.dp0Q
    case DpAQ => th.dpAQ
    case DpBQ => th.dpBQ
  }

  /** Output v of the v2 theory scaled by s, as a function of (alpha, beta) in degrees. */
  function TheoryOf(t: Trig, v: Output, s: real): (real, real) -> real {
    (a, b) => Select(V2Theoretical(t, a, b, s), v)
  }

  /** The theory `plot_scaling` sweeps is the unit theory times the scaling. */
  lemma TheoryScales(t: Trig, v: Output, s: real, a: real, b: real)
    ensures TheoryOf(t, v, s)(a, b) == s * TheoryOf(t, v, 1.0)(a, b)
  {
  }

  /** What row i adds to the error against the theory `th`: nothing when the row is
      skipped (alpha = 0 for dpA, beta = 0 for dpB), else data minus theory; an
      error where a lookup raises. */
  function Residual(th: (real, real) -> real, r: map<string, seq<real>>, v: Output, i: nat): (e: Result<Option<real>, PyError>)
    requires Has(r, "alpha", i + 1)
    ensures e.Ok? && e.value.Some? ==>
              Has(r, "beta", i + 1) && Has(r, ColumnName(v), i + 1) &&
              e.value.value == r[ColumnName(v)][i] - th(r["alpha"][i], r["beta"][i])
    ensures e == Ok(None) <==> (v == DpAQ && r["alpha"][i] == 0.0) || (v == DpBQ && Has(r, "beta", i + 1) && r["beta"][i] == 0.0)
  {
    if v == DpAQ && r["alpha"][i] == 0.0 then Ok(None)
    else
      var b := At(r, "beta", i);
      if b.Err? then Err(b.error)
      else if v == DpBQ && b.value == 0.0 then Ok(None)
      else
        var data := At(r, ColumnName(v), i);
        if data.Err? then Err(data.error) else Ok(Some(data.value - th(r["alpha"][i], b.value)))
  }

  /** The square a residual contributes. */
  function Contribution(e: Option<real>): (c: real)
    ensures c >= 0.0
    ensures c == 0.0 <==> e.None? || e.value == 0.0
  {
    match e
    case None => 0.0
    case Some(x) => SquareNonNegative(x); x * x
  }

  /** The error over rows 0 .. n-1, or the exception of the first row that raises. */
  function ErrorSum(th: (real, real) -> real, r: map<string, seq<real>>, v: Output, n: nat): (e: Result<real, PyError>)
    requires Has(r, "alpha", n)
    ensures e.Ok? ==> e.value >= 0.0
  {
    if n == 0 then Ok(0.0)
    else
      var acc := ErrorSum(th, r, v, n - 1);
      var e := Residual(th, r, v, n - 1);
      if acc.Err? then acc
      else if e.Err? then Err(e.error)
      else Ok(acc.value + Contribution(e.value))
  }

  lemma ProductNonNegative(a: real, b: real)
    requires a >= 0.0 && b >= 0.0
    ensures a * b >= 0.0
  {
  }

  lemma SquareNonNegative(a: real)
    ensures a * a >= 0.0
    ensures a * a == 0.0 <==> a == 0.0
  {
    if a < 0.0 {
      assert a * a == (-a) * (-a);
      ProductNonNegative(-a, -a);
    }
    if a != 0.0 {
      assert (a * a) / a == a;
    }
  }

  /** `compute_error`: the error of output v against the theory scaled by s. */
  method ComputeError(t: Trig, r: map<string, seq<real>>, v: Output, s: real) returns (err: Result<real, PyError>)
    ensures "alpha" !in r ==> err == Err(KeyError)
    ensures "alpha" in r ==> err == ErrorSum(TheoryOf(t, v, s), r, v, |r["alpha"]|)
  {
    err := AccumulateError(TheoryOf(t, v, s), r, v);
  }

  /** The loop of `compute_error` that accumulates `err`, for a given theory. */
  method AccumulateError(th: (real, real) -> real, r: map<string, seq<real>>, v: Output) returns (err: Result<real, PyError>)
    ensures "alpha" !in r ==> err == Err(KeyError)
    ensures "alpha" in r ==> err == ErrorSum(th, r, v, |r["alpha"]|)
  {
    if "alpha" !in r {
      return Err(KeyError);
    }
    var n := |r["alpha"]|;
    var acc := 0.0;
    var i := 0;
    while i < n
      invariant 0 <= i <= n
      invariant ErrorSum(th, r, v, i) == Ok(acc)
    {
      var e := Residual(th, r, v, i);
      ErrorSumStep(th, r, v, i);
      if e.Err? {
        ErrorSticks(th, r, v, i + 1, n);
        return Err(e.error);
      }
      acc := acc + Contribution(e.value);
      i := i + 1;
    }
    return Ok(acc);
  }

  lemma ErrorSumStep(th: (real, real) -> real, r: map<string, seq<real>>, v: Output, i: nat)
    requires Has(r, "alpha", i + 1) && ErrorSum(th, r, v, i).Ok?
    ensures var e := Residual(th, r, v, i);
            ErrorSum(th, r, v, i + 1) ==
              if e.Err? then Err(e.error) else Ok(ErrorSum(th, r, v, i).value + Contribution(e.value))
  {
  }

  lemma {:induction false} ErrorSticks(th: (real, real) -> real, r: map<string, seq<real>>, v: Output, m: nat, n: nat)
    requires m <= n && Has(r, "alpha", n) && ErrorSum(th, r, v, m).Err?
    ensures ErrorSum(th, r, v, n) == ErrorSum(th, r, v, m)
    decreases n - m
  {
    if m < n {
      ErrorSticks(th, r, v, m, n - 1);
    }
  }

  /** Row i is skipped or its data equals the theory. */
  predicate Fits(th: (real, real) -> real, r: map<string, seq<real>>, v: Output, i: nat)
    requires Has(r, "alpha", i + 1)
  {
    Residual(th, r, v, i) == Ok(None) || Residual(th, r, v, i) == Ok(Some(0.0))
  }

  /** The error is 0 exactly when every row is skipped or fits the theory exactly. */
  lemma {:induction false} ErrorZeroIff(th: (real, real) -> real, r: map<string, seq<real>>, v: Output, n: nat)
    requires Has(r, "alpha", n) && ErrorSum(th, r, v, n).Ok?
    ensures ErrorSum(th, r, v, n).value == 0.0 <==> forall i :: 0 <= i < n ==> Fits(th, r, v, i)
  {
    if n > 0 {
      ErrorSticksBack(th, r, v, n);
      ErrorZeroIff(th, r, v, n - 1);
      var e := Residual(th, r, v, n - 1);
      assert Contribution(e.value) == 0.0 <==> Fits(th, r, v, n - 1);
      assert (forall i :: 0 <= i < n ==> Fits(th, r, v, i)) <==>
             (forall i :: 0 <= i < n - 1 ==> Fits(th, r, v, i)) && Fits(th, r, v, n - 1);
    }
  }

  /** A sum that is Ok has an Ok prefix. */
  lemma ErrorSticksBack(th: (real, real) -> real, r: map<string, seq<real>>, v: Output, n: nat)
    requires n > 0 && Has(r, "alpha", n) && ErrorSum(th, r, v, n).Ok?
    ensures ErrorSum(th, r, v, n - 1).Ok? && Residual(th, r, v, n - 1).Ok?
    ensures ErrorSum(th, r, v, n).value == ErrorSum(th, r, v, n - 1).value + Contribution(Residual(th, r, v, n - 1).value)
  {
  }

  /** The error of the dpA output ignores the dpA data on rows with alpha = 0, and
      the dpB error that of rows with beta = 0: changing it there changes nothing. */
  lemma {:induction false} SkippedRowsIgnored(th: (real, real) -> real, r: map<string, seq<real>>, v: Output, n: nat, j: nat, x: real)
    requires Has(r, "alpha", n) && Has(r, "alpha", j + 1) && Has(r, "beta", j + 1) && Has(r, ColumnName(v), j + 1)
    requires (v == DpAQ && r["alpha"][j] == 0.0) || (v == DpBQ && r["beta"][j] == 0.0)
    ensures var r' := r[ColumnName(v) := r[ColumnName(v)][j := x]];
            ErrorSum(th, r', v, n) == ErrorSum(th, r, v, n)
  {
    var r' := r[ColumnName(v) := r[ColumnName(v)][j := x]];
    assert ColumnName(v) != "alpha" && ColumnName(v) != "beta";
    assert r'["alpha"] == r["alpha"] && r'.Keys == r.Keys;
    assert "beta" in r ==> r'["beta"] == r["beta"];
    if n > 0 {
      SkippedRowsIgnored(th, r, v, n - 1, j, x);
      if n - 1 != j {
        assert Has(r, ColumnName(v), n) <==> Has(r', ColumnName(v), n);
        assert Has(r, ColumnName(v), n) ==> r'[ColumnName(v)][n - 1] == r[ColumnName(v)][n - 1];
      }
      assert Residual(th, r', v, n - 1) == Residual(th, r, v, n - 1);
    }
  }
}
