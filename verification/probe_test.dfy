/** The 2021 calibration rig driver: the zero-offset search by linear interpolation
    with a halving interval, the alpha/beta sweep grid and the splitting of `$A`
    sentences by the column schema. */
module ProbeTest {
  import opened Common

  /** A numpy.float64: a real number, one of the two infinities, or NaN. Finite
      operands combine exactly (rounding is not modelled) and every zero is +0.0. */
  datatype F64 = Num(x: real) | PosInf | NegInf | NaN

  /** +inf or a positive number. */
  predicate Positive(a: F64) {
    a == PosInf || (a.Num? && a.x > 0.0)
  }

  /** -inf or a negative number. */
  predicate Negative(a: F64) {
    a == NegInf || (a.Num? && a.x < 0.0)
  }

  /** The infinity of a product or quotient whose operand signs agree or not. */
  function SignedInf(sameSign: bool): (r: F64)
    ensures r == PosInf || r == NegInf
  {
    if sameSign then PosInf else NegInf
  }

  function Neg(a: F64): (r: F64)
    ensures r.Num? <==> a.Num?
    ensures r.Num? ==> r.x == -a.x
    ensures (r == NaN <==> a == NaN) && (r == PosInf <==> a == NegInf)
  {
    match a
    case Num(x) => Num(-x)
    case PosInf => NegInf
    case NegInf => PosInf
    case NaN => NaN
  }

  /** IEEE 754 addition: inf - inf is NaN, an infinity absorbs a finite operand. */
  function Add(a: F64, b: F64): (r: F64)
    ensures r.Num? <==> a.Num? && b.Num?
    ensures r.Num? ==> r.x == a.x + b.x
    ensures a == NaN || b == NaN ==> r == NaN
    ensures a.Num? && !b.Num? ==> r == b
    ensures !a.Num? && b.Num? ==> r == a
  {
    if a.Num? && b.Num? then Num(a.x + b.x)
    else if a == NaN || b == NaN then NaN
    else if a.Num? then b
    else if b.Num? then a
    else if a == b then a
    else NaN
  }

  function Sub(a: F64, b: F64): (r: F64)
    ensures r.Num? <==> a.Num? && b.Num?
    ensures r.Num? ==> r.x == a.x - b.x
    ensures a == NaN || b == NaN || (!a.Num? && a == b) ==> r == NaN
    ensures !a.Num? && b.Num? ==> r == a
  {
    Add(a, Neg(b))
  }

  /** IEEE 754 multiplication: 0 times an infinity is NaN. */
  function Mul(a: F64, b: F64): (r: F64)
    ensures r.Num? <==> a.Num? && b.Num?
    ensures r.Num? ==> r.x == a.x * b.x
    ensures a == NaN || b == NaN ==> r == NaN
  {
    if a.Num? && b.Num? then Num(a.x * b.x)
    else if a == NaN || b == NaN || a == Num(0.0) || b == Num(0.0) then NaN
    else SignedInf(Positive(a) == Positive(b))
  }

  /** IEEE 754 division: where Python's float division raises ZeroDivisionError,
      numpy answers an infinity, or NaN for 0 / 0. */
  function Div(a: F64, b: F64): (r: F64)
    ensures a.Num? && b.Num? && b.x != 0.0 ==> r == Num(a.x / b.x)
    ensures a.Num? && b == Num(0.0) ==> r == (if a.x == 0.0 then NaN else SignedInf(a.x > 0.0))
    ensures a == NaN || b == NaN ==> r == NaN
  {
    if a == NaN || b == NaN then NaN
    else if a.Num? && b.Num? then
      (if b.x != 0.0 then Num(a.x / b.x) else if a.x == 0.0 then NaN else SignedInf(a.x > 0.0))
    else if a.Num? then Num(0.0)
    else if b.Num? then SignedInf(Positive(a) == !Negative(b))
    else NaN
  }

  /** A mount position: azimuth and elevation in degrees. */
  datatype AzEl = AzEl(az: F64, el: F64)

  /** The averaged dpA and dpB read with the probe at one position. */
  datatype Reading = Reading(dpA: F64, dpB: F64)

  /** `__line_root`: where the line through (x0, y0) and (x1, y1) crosses y = 0, in
      numpy.float64 arithmetic, since the readings are numpy means. */
  function LineRoot(x0: F64, y0: F64, x1: F64, y1: F64): F64 {
    Add(x0, Mul(Div(Sub(Num(0.0), y0), Sub(y1, y0)), Sub(x1, x0)))
  }

  /** With finite probes and different readings the root is finite: the real
      interpolation x0 + (-y0 / (y1 - y0)) * (x1 - x0). */
  lemma LineRootFinite(x0: real, y0: real, x1: real, y1: real)
    requires y0 != y1
    ensures LineRoot(Num(x0), Num(y0), Num(x1), Num(y1)) == Num(x0 + (0.0 - y0) / (y1 - y0) * (x1 - x0))
  {
    assert Sub(Num(y1), Num(y0)) == Num(y1 - y0);
  }

  /** That root lies on the line through the two probes: (r - x0)(y1 - y0) = -y0 (x1 - x0). */
  lemma LineRootOnLine(x0: real, y0: real, x1: real, y1: real)
    requires y0 != y1
    ensures LineRoot(Num(x0), Num(y0), Num(x1), Num(y1)).Num?
    ensures (LineRoot(Num(x0), Num(y0), Num(x1), Num(y1)).x - x0) * (y1 - y0) == (0.0 - y0) * (x1 - x0)
  {
    LineRootFinite(x0, y0, x1, y1);
    var f := (0.0 - y0) / (y1 - y0);
    assert f * (y1 - y0) == 0.0 - y0;
    assert (f * (x1 - x0)) * (y1 - y0) == (f * (y1 - y0)) * (x1 - x0);
  }

  /** Equal readings divide by zero, which numpy answers without an exception: -inf
      for a positive reading, +inf for a negative one, NaN for 0 (probes left to right). */
  lemma LineRootFlat(x0: real, x1: real, y: real)
    requires x0 < x1
    ensures LineRoot(Num(x0), Num(y), Num(x1), Num(y)) == (if y > 0.0 then NegInf else if y < 0.0 then PosInf else NaN)
  {
    assert Sub(Num(y), Num(y)) == Num(0.0);
    assert Sub(Num(0.0), Num(y)) == Num(-y);
  }

  /** A NaN operand, or two probes at the same infinity, give NaN. */
  lemma LineRootNaN(x0: F64, y0: F64, x1: F64, y1: F64)
    requires y0 == NaN || y1 == NaN || x0 == NaN || x1 == NaN || (!x0.Num? && x0 == x1)
    ensures LineRoot(x0, y0, x1, y1) == NaN
  {
  }

  /** The root is x0 when y0 = 0 and x1 when y1 = 0; when y0 and y1 have opposite
      signs it lies between x0 and x1. */
  lemma LineRootProperties(x0: real, y0: real, x1: real, y1: real)
    requires y0 != y1
    ensures y0 == 0.0 ==> LineRoot(Num(x0), Num(y0), Num(x1), Num(y1)) == Num(x0)
    ensures y1 == 0.0 ==> LineRoot(Num(x0), Num(y0), Num(x1), Num(y1)) == Num(x1)
    ensures y0 * y1 <= 0.0 && x0 <= x1 ==> x0 <= LineRoot(Num(x0), Num(y0), Num(x1), Num(y1)).x <= x1
    ensures y0 * y1 <= 0.0 && x1 <= x0 ==> x1 <= LineRoot(Num(x0), Num(y0), Num(x1), Num(y1)).x <= x0
  {
    var r := x0 + (0.0 - y0) / (y1 - y0) * (x1 - x0);
    LineRootFinite(x0, y0, x1, y1);
    RootBetween(x0, y0, x1, y1, r);
  }

  /** The real interpolation behind LineRootProperties. */
  lemma RootBetween(x0: real, y0: real, x1: real, y1: real, r: real)
    requires y0 != y1 && r == x0 + (0.0 - y0) / (y1 - y0) * (x1 - x0)
    ensures y0 == 0.0 ==> r == x0
    ensures y1 == 0.0 ==> r == x1
    ensures y0 * y1 <= 0.0 && x0 <= x1 ==> x0 <= r <= x1
    ensures y0 * y1 <= 0.0 && x1 <= x0 ==> x1 <= r <= x0
  {
    var f := (0.0 - y0) / (y1 - y0);
    if y1 == 0.0 {
      assert f == 1.0;
    }
    if y0 * y1 <= 0.0 {
      FractionInUnit(y0, y1);
      ScaleBetween(x0, x1, f);
    }
  }

  /** -y0 / (y1 - y0) is in [0, 1] when y0 and y1 differ and do not share a sign. */
  lemma FractionInUnit(y0: real, y1: real)
    requires y0 != y1 && y0 * y1 <= 0.0
    ensures 0.0 <= (0.0 - y0) / (y1 - y0) <= 1.0
  {
    var f := (0.0 - y0) / (y1 - y0);
    assert f * (y1 - y0) == 0.0 - y0;
    if y0 > 0.0 {
      assert y1 <= 0.0;
      assert f * (y0 - y1) == y0;
      RatioInUnit(f, y0, y0 - y1);
    } else if y0 < 0.0 {
      assert y1 >= 0.0;
      RatioInUnit(f, -y0, y1 - y0);
    }
  }

  lemma ScaleBetween(x0: real, x1: real, f: real)
    requires 0.0 <= f <= 1.0
    ensures x0 <= x1 ==> x0 <= x0 + f * (x1 - x0) <= x1
    ensures x1 <= x0 ==> x1 <= x0 + f * (x1 - x0) <= x0
  {
    if x0 <= x1 {
      ProductNonNegative(f, x1 - x0);
      ProductNonNegative(1.0 - f, x1 - x0);
      assert (1.0 - f) * (x1 - x0) == (x1 - x0) - f * (x1 - x0);
    } else {
      ProductNonNegative(f, x0 - x1);
      ProductNonNegative(1.0 - f, x0 - x1);
      assert (1.0 - f) * (x0 - x1) == (x0 - x1) - f * (x0 - x1);
      assert f * (x1 - x0) == -(f * (x0 - x1));
    }
  }

  lemma RatioInUnit(f: real, c: real, d: real)
    requires d > 0.0 && f * d == c && 0.0 <= c <= d
    ensures 0.0 <= f <= 1.0
  {
    if f < 0.0 {
      NonZeroProduct(-f, d);
    } else if f > 1.0 {
      NonZeroProduct(f - 1.0, d);
    }
  }

  lemma ProductNonNegative(a: real, b: real)
    requires a >= 0.0 && b >= 0.0
    ensures a * b >= 0.0
  {
  }

  /** What the rig sees of its fixture: `moveto`, which may raise and may rewrite the
      list it is given (the answer is the list as `moveto` leaves it), and
      `__read_averaged` at that position, which raises when `__csv_to_dict` does. */
  datatype Fixture = Fixture(moveto: AzEl -> Result<AzEl, PyError>, sense: AzEl -> Result<Reading, PyError>)

  /** The fixture leaves the list it is moved to as it was. */
  ghost predicate KeepsList(fx: Fixture) {
    forall p :: fx.moveto(p).Ok? ==> fx.moveto(p).value == p
  }

  /** `ExperimentalFixture.moveto` seen from the rig: it clamps a copy, so the list is
      kept; `angle_limits` maps an infinity to +-45 but lets NaN through, and `count`'s
      `int()` of NaN raises ValueError, azimuth first. */
  function ExperimentalMove(p: AzEl): (r: Result<AzEl, PyError>)
    ensures r.Ok? <==> p.az != NaN && p.el != NaN
    ensures r.Ok? ==> r.value == p
    ensures r.Err? ==> r.error == ValueError
  {
    if p.az == NaN || p.el == NaN then Err(ValueError) else Ok(p)
  }

  /** `MockFixture.moveto`'s `> 45` test: false for NaN and -inf, true for +inf. */
  function CapAt45(a: F64): (r: F64)
    ensures a == PosInf || (a.Num? && a.x > 45.0) ==> r == Num(45.0)
    ensures !(a == PosInf || (a.Num? && a.x > 45.0)) ==> r == a
  {
    if a == PosInf || (a.Num? && a.x > 45.0) then Num(45.0) else a
  }

  /** `MockFixture.moveto` seen from the rig: it never raises and caps the caller's own
      list at 45, which `__line_root` then reads. */
  function MockMove(p: AzEl): (r: Result<AzEl, PyError>)
    ensures r.Ok? && r.value == AzEl(CapAt45(p.az), CapAt45(p.el))
  {
    Ok(AzEl(CapAt45(p.az), CapAt45(p.el)))
  }

  /** `moveto(p)` then `__read_averaged`: the list as `moveto` left it and the averaged
      reading, or the first exception. */
  function Sampled(fx: Fixture, p: AzEl): (r: Result<(AzEl, Reading), PyError>)
    ensures r.Ok? <==> fx.moveto(p).Ok? && fx.sense(fx.moveto(p).value).Ok?
    ensures r.Ok? ==> r.value == (fx.moveto(p).value, fx.sense(fx.moveto(p).value).value)
    ensures r.Err? ==> r.error == (if fx.moveto(p).Err? then fx.moveto(p).error else fx.sense(fx.moveto(p).value).error)
  {
    var m := fx.moveto(p);
    if m.Err? then Err(m.error)
    else
      var y := fx.sense(m.value);
      if y.Err? then Err(y.error) else Ok((m.value, y.value))
  }

  /** The two positions `__estimate_zero_az` probes: interval to each side in azimuth;
      an infinite or NaN azimuth stays what it is. */
  function AzProbes(z: AzEl, interval: real): (ps: seq<AzEl>)
    ensures |ps| == 2 && ps[0].el == ps[1].el == z.el
    ensures z.az.Num? ==> ps[0].az == Num(z.az.x - interval) && ps[1].az == Num(z.az.x + interval)
    ensures !z.az.Num? ==> ps[0].az == ps[1].az == z.az
  {
    [AzEl(Sub(z.az, Num(interval)), z.el), AzEl(Add(z.az, Num(interval)), z.el)]
  }

  /** The two positions `__estimate_zero_el` probes: interval below and above. */
  function ElProbes(z: AzEl, interval: real): (ps: seq<AzEl>)
    ensures |ps| == 2 && ps[0].az == ps[1].az == z.az
    ensures z.el.Num? ==> ps[0].el == Num(z.el.x - interval) && ps[1].el == Num(z.el.x + interval)
    ensures !z.el.Num? ==> ps[0].el == ps[1].el == z.el
  {
    [AzEl(z.az, Sub(z.el, Num(interval))), AzEl(z.az, Add(z.el, Num(interval)))]
  }

  /** `__estimate_zero_az`: move and read at the left probe, then at the right one, and
      interpolate the azimuth where dpB crosses 0 from the probe lists as `moveto` left
      them; the elevation is kept. Also the positions passed to `moveto`: the left probe
      alone when its move or read raised. */
  function EstimateAz(fx: Fixture, z: AzEl, interval: real): (out: (Result<AzEl, PyError>, seq<AzEl>))
    ensures out.0.Ok? ==> out.0.value.el == z.el
    ensures out.0.Err? <==> Sampled(fx, AzProbes(z, interval)[0]).Err? || Sampled(fx, AzProbes(z, interval)[1]).Err?
    ensures out.1 == (if Sampled(fx, AzProbes(z, interval)[0]).Err? then [AzProbes(z, interval)[0]] else AzProbes(z, interval))
  {
    var ps := AzProbes(z, interval);
    var l := Sampled(fx, ps[0]);
    if l.Err? then (Err(l.error), [ps[0]])
    else
      var r := Sampled(fx, ps[1]);
      if r.Err? then (Err(r.error), ps)
      else (Ok(AzEl(LineRoot(l.value.0.az, l.value.1.dpB, r.value.0.az, r.value.1.dpB), z.el)), ps)
  }

  /** `__estimate_zero_el`: the same in elevation, with dpA; the azimuth is kept. */
  function EstimateEl(fx: Fixture, z: AzEl, interval: real): (out: (Result<AzEl, PyError>, seq<AzEl>))
    ensures out.0.Ok? ==> out.0.value.az == z.az
    ensures out.0.Err? <==> Sampled(fx, ElProbes(z, interval)[0]).Err? || Sampled(fx, ElProbes(z, interval)[1]).Err?
    ensures out.1 == (if Sampled(fx, ElProbes(z, interval)[0]).Err? then [ElProbes(z, interval)[0]] else ElProbes(z, interval))
  {
    var ps := ElProbes(z, interval);
    var l := Sampled(fx, ps[0]);
    if l.Err? then (Err(l.error), [ps[0]])
    else
      var r := Sampled(fx, ps[1]);
      if r.Err? then (Err(r.error), ps)
      else (Ok(AzEl(z.az, LineRoot(l.value.0.el, l.value.1.dpA, r.value.0.el, r.value.1.dpA))), ps)
  }

  /** With readings equal at both probes of a finite azimuth, the azimuth estimate is
      -inf for a positive dpB, +inf for a negative one and NaN for 0; no exception. */
  lemma FlatAzResponse(fx: Fixture, z: AzEl, interval: real, y: real)
    requires KeepsList(fx) && z.az.Num? && interval > 0.0
    requires Sampled(fx, AzProbes(z, interval)[0]).Ok? && Sampled(fx, AzProbes(z, interval)[1]).Ok?
    requires fx.sense(AzProbes(z, interval)[0]).value.dpB == Num(y)
    requires fx.sense(AzProbes(z, interval)[1]).value.dpB == Num(y)
    ensures EstimateAz(fx, z, interval).0 == Ok(AzEl(if y > 0.0 then NegInf else if y < 0.0 then PosInf else NaN, z.el))
  {
    var ps := AzProbes(z, interval);
    assert fx.moveto(ps[0]).value == ps[0] && fx.moveto(ps[1]).value == ps[1];
    LineRootFlat(ps[0].az.x, ps[1].az.x, y);
  }

  /** With a fixture that keeps the list, an infinite or NaN azimuth makes the next
      azimuth estimate NaN, and likewise in elevation. */
  lemma NonFiniteBecomesNaN(fx: Fixture, z: AzEl, interval: real)
    requires KeepsList(fx)
    ensures !z.az.Num? && EstimateAz(fx, z, interval).0.Ok? ==> EstimateAz(fx, z, interval).0.value.az == NaN
    ensures !z.el.Num? && EstimateEl(fx, z, interval).0.Ok? ==> EstimateEl(fx, z, interval).0.value.el == NaN
  {
    var ps, qs := AzProbes(z, interval), ElProbes(z, interval);
    if !z.az.Num? && Sampled(fx, ps[0]).Ok? && Sampled(fx, ps[1]).Ok? {
      assert fx.moveto(ps[0]).value == ps[0] && fx.moveto(ps[1]).value == ps[1];
      LineRootNaN(ps[0].az, fx.sense(ps[0]).value.dpB, ps[1].az, fx.sense(ps[1]).value.dpB);
    }
    if !z.el.Num? && Sampled(fx, qs[0]).Ok? && Sampled(fx, qs[1]).Ok? {
      assert fx.moveto(qs[0]).value == qs[0] && fx.moveto(qs[1]).value == qs[1];
      LineRootNaN(qs[0].el, fx.sense(qs[0]).value.dpA, qs[1].el, fx.sense(qs[1]).value.dpA);
    }
  }

  /** One round of `__estimate_zero`: azimuth first, then elevation from the new
      azimuth; with the positions the fixture is moved to, in order. */
  function Round(fx: Fixture, z: AzEl, interval: real): (out: (Result<AzEl, PyError>, seq<AzEl>))
    ensures out.0.Ok? ==> EstimateAz(fx, z, interval).0.Ok?
    ensures 1 <= |out.1| <= 4 && (out.0.Ok? ==> |out.1| == 4)
  {
    var a := EstimateAz(fx, z, interval);
    if a.0.Err? then a
    else
      var e := EstimateEl(fx, a.0.value, interval);
      (e.0, a.1 + e.1)
  }

  /** With a fixture that keeps the list, a non-finite coordinate comes out of a round
      as NaN. */
  lemma RoundNonFinite(fx: Fixture, z: AzEl, interval: real)
    requires KeepsList(fx)
    ensures Round(fx, z, interval).0.Ok? && !z.az.Num? ==> Round(fx, z, interval).0.value.az == NaN
    ensures Round(fx, z, interval).0.Ok? && !z.el.Num? ==> Round(fx, z, interval).0.value.el == NaN
  {
    NonFiniteBecomesNaN(fx, z, interval);
    var a := EstimateAz(fx, z, interval).0;
    if a.Ok? {
      NonFiniteBecomesNaN(fx, a.value, interval);
    }
  }

  /** With `ExperimentalFixture`, an azimuth estimate of NaN raises ValueError at the
      first elevation probe. */
  lemma ExperimentalRaisesOnNaN(fx: Fixture, z: AzEl, interval: real)
    requires forall p :: fx.moveto(p) == ExperimentalMove(p)
    requires EstimateAz(fx, z, interval).0.Ok? && EstimateAz(fx, z, interval).0.value.az == NaN
    ensures Round(fx, z, interval).0 == Err(ValueError)
    ensures Round(fx, z, interval).1 == AzProbes(z, interval) + [ElProbes(EstimateAz(fx, z, interval).0.value, interval)[0]]
  {
    var a := EstimateAz(fx, z, interval).0.value;
    assert fx.moveto(ElProbes(a, interval)[0]) == Err(ValueError);
  }

  /** The interval of round k: 32 halved k times. */
  function Interval(k: nat): (d: real)
    ensures d > 0.0
  {
    if k == 0 then 32.0 else Interval(k - 1) / 2.0
  }

  lemma Intervals()
    ensures [Interval(0), Interval(1), Interval(2), Interval(3), Interval(4), Interval(5)]
         == [32.0, 16.0, 8.0, 4.0, 2.0, 1.0]
  {
  }

  /** k rounds of the search from z: the result (or the first exception) and every
      position commanded on the way. */
  function Search(fx: Fixture, z: AzEl, k: nat): (out: (Result<AzEl, PyError>, seq<AzEl>))
    ensures |out.1| <= 4 * k
    ensures out.0.Ok? ==> |out.1| == 4 * k
  {
    if k == 0 then (Ok(z), [])
    else Continue(fx, Search(fx, z, k - 1), Interval(k - 1))
  }

  /** A further round after the outcome so far: none after an exception. */
  function Continue(fx: Fixture, prev: (Result<AzEl, PyError>, seq<AzEl>), interval: real): (out: (Result<AzEl, PyError>, seq<AzEl>))
    ensures |out.1| <= |prev.1| + 4
    ensures out.0.Ok? ==> prev.0.Ok? && |out.1| == |prev.1| + 4
  {
    if prev.0.Err? then prev
    else
      var next := Round(fx, prev.0.value, interval);
      (next.0, prev.1 + next.1)
  }

  /** Round i + 1 of the search continues from the zero of round i. */
  lemma SearchStep(fx: Fixture, z0: AzEl, i: nat, z: AzEl)
    requires Search(fx, z0, i).0 == Ok(z)
    ensures Search(fx, z0, i + 1).0 == Round(fx, z, Interval(i)).0
    ensures Search(fx, z0, i + 1).1 == Search(fx, z0, i).1 + Round(fx, z, Interval(i)).1
  {
  }

  /** The moves commanded so far, regrouped. */
  lemma AppendAssoc<T>(a: seq<T>, b: seq<T>, c: seq<T>)
    ensures a + (b + c) == (a + b) + c
  {
  }

  /** After an exception the search stops. */
  lemma {:induction false} SearchSticks(fx: Fixture, z0: AzEl, m: nat, n: nat)
    requires m <= n && Search(fx, z0, m).0.Err?
    ensures Search(fx, z0, n) == Search(fx, z0, m)
  {
    if m < n {
      SearchSticks(fx, z0, m, n - 1);
      ContinueAfterErr(fx, Search(fx, z0, n - 1), Interval(n - 1));
    }
  }

  /** After an exception no further round runs. */
  lemma ContinueAfterErr(fx: Fixture, prev: (Result<AzEl, PyError>, seq<AzEl>), interval: real)
    requires prev.0.Err?
    ensures Continue(fx, prev, interval) == prev
  {
  }

  /** With a fixture that keeps the list, a coordinate that is non-finite after i
      rounds is NaN after round i + 1, if that round completes: `find_zero` then
      stores NaN. */
  lemma SearchNonFiniteStep(fx: Fixture, z0: AzEl, i: nat) returns (c: AzEl)
    requires KeepsList(fx) && Search(fx, z0, i + 1).0.Ok?
    ensures Search(fx, z0, i).0 == Ok(c)
    ensures !c.az.Num? ==> Search(fx, z0, i + 1).0.value.az == NaN
    ensures !c.el.Num? ==> Search(fx, z0, i + 1).0.value.el == NaN
  {
    c := Search(fx, z0, i).0.value;
    RoundNonFinite(fx, c, Interval(i));
  }

  /** A fixture that always moves and reads, keeps the list, and responds linearly
      about (az0, el0): dpB in azimuth and dpA in elevation, each with a non-zero slope. */
  ghost predicate LinearAbout(fx: Fixture, az0: real, el0: real, kb: real, ka: real) {
    kb != 0.0 && ka != 0.0 && KeepsList(fx) &&
    (forall p :: fx.moveto(p).Ok?) && (forall p :: fx.sense(p).Ok?) &&
    (forall p: AzEl :: p.az.Num? ==> fx.sense(p).value.dpB == Num(kb * (p.az.x - az0))) &&
    (forall p: AzEl :: p.el.Num? ==> fx.sense(p).value.dpA == Num(ka * (p.el.x - el0)))
  }

  /** For a linear response the interpolation lands on the zero in one round. */
  lemma RoundExactForLinear(fx: Fixture, z: AzEl, interval: real, az0: real, el0: real, kb: real, ka: real)
    requires LinearAbout(fx, az0, el0, kb, ka) && interval > 0.0 && z.az.Num? && z.el.Num?
    ensures Round(fx, z, interval).0 == Ok(AzEl(Num(az0), Num(el0)))
  {
    AzExactForLinear(fx, z, interval, az0, el0, kb, ka);
    var a := AzEl(Num(az0), z.el);
    var qs := ElProbes(a, interval);
    assert fx.moveto(qs[0]).value == qs[0] && fx.moveto(qs[1]).value == qs[1];
    var y0, y1 := fx.sense(qs[0]).value.dpA, fx.sense(qs[1]).value.dpA;
    assert y0 == Num(ka * (qs[0].el.x - el0)) && y1 == Num(ka * (qs[1].el.x - el0));
    LinearRoot(qs[0].el.x, y0.x, qs[1].el.x, y1.x, el0, ka);
  }

  lemma AzExactForLinear(fx: Fixture, z: AzEl, interval: real, az0: real, el0: real, kb: real, ka: real)
    requires LinearAbout(fx, az0, el0, kb, ka) && interval > 0.0 && z.az.Num?
    ensures EstimateAz(fx, z, interval).0 == Ok(AzEl(Num(az0), z.el))
  {
    var ps := AzProbes(z, interval);
    assert fx.moveto(ps[0]).value == ps[0] && fx.moveto(ps[1]).value == ps[1];
    var y0, y1 := fx.sense(ps[0]).value.dpB, fx.sense(ps[1]).value.dpB;
    assert y0 == Num(kb * (ps[0].az.x - az0)) && y1 == Num(kb * (ps[1].az.x - az0));
    LinearRoot(ps[0].az.x, y0.x, ps[1].az.x, y1.x, az0, kb);
  }

  lemma LinearRoot(x0: real, y0: real, x1: real, y1: real, r: real, k: real)
    requires k != 0.0 && x0 != x1 && y0 == k * (x0 - r) && y1 == k * (x1 - r)
    ensures LineRoot(Num(x0), Num(y0), Num(x1), Num(y1)) == Num(r)
  {
    assert y1 - y0 == k * (x1 - x0);
    NonZeroProduct(k, x1 - x0);
    LineRootOnLine(x0, y0, x1, y1);
    var x := LineRoot(Num(x0), Num(y0), Num(x1), Num(y1)).x;
    assert (x - x0) * (k * (x1 - x0)) == (r - x0) * (k * (x1 - x0));
    CancelFactor(x - x0, r - x0, k * (x1 - x0));
  }

  lemma NonZeroProduct(a: real, b: real)
    requires a != 0.0 && b != 0.0
    ensures a * b != 0.0
  {
  }

  lemma CancelFactor(a: real, b: real, c: real)
    requires c != 0.0 && a * c == b * c
    ensures a == b
  {
    assert a == (a * c) / c && b == (b * c) / c;
  }

  /** Hence `find_zero`'s six rounds end exactly on the zero of a linear response,
      whatever the finite starting offset. */
  lemma {:induction false} SearchExactForLinear(fx: Fixture, z: AzEl, k: nat, az0: real, el0: real, kb: real, ka: real)
    requires LinearAbout(fx, az0, el0, kb, ka) && k > 0 && z.az.Num? && z.el.Num?
    ensures Search(fx, z, k).0 == Ok(AzEl(Num(az0), Num(el0)))
  {
    if k == 1 {
      RoundExactForLinear(fx, z, Interval(0), az0, el0, kb, ka);
    } else {
      SearchExactForLinear(fx, z, k - 1, az0, el0, kb, ka);
      RoundExactForLinear(fx, AzEl(Num(az0), Num(el0)), Interval(k - 1), az0, el0, kb, ka);
    }
  }

  /** The sweep steps: -7 .. 7 times 5 degrees. */
  const SweepStep: int := 5
  const SweepCount: int := 7

  /** The (alpha, beta) points of `sweep`, alpha outer and beta inner. */
  function Grid(): (g: seq<(int, int)>)
    ensures |g| == 225
  {
    seq(225, k requires 0 <= k < 225 => ((k / 15 - SweepCount) * SweepStep, (k % 15 - SweepCount) * SweepStep))
  }

  /** Where (alpha, beta) = (5 a, 5 b) sits in the sweep order. */
  function GridIndex(a: int, b: int): int {
    (a + SweepCount) * 15 + (b + SweepCount)
  }

  /** Point (5 a, 5 b) for a, b in -7 .. 7 is visited at GridIndex(a, b): alpha outer,
      beta inner; every coordinate is a multiple of 5 in [-35, 35]; no point repeats. */
  lemma GridProperties()
    ensures forall a, b :: -7 <= a <= 7 && -7 <= b <= 7 ==>
              0 <= GridIndex(a, b) < 225 && Grid()[GridIndex(a, b)] == (5 * a, 5 * b)
    ensures forall k :: 0 <= k < 225 ==>
              -35 <= Grid()[k].0 <= 35 && Grid()[k].0 % 5 == 0 && -35 <= Grid()[k].1 <= 35 && Grid()[k].1 % 5 == 0
    ensures Distinct(Grid())
  {
    forall a, b | -7 <= a <= 7 && -7 <= b <= 7
      ensures 0 <= GridIndex(a, b) < 225 && Grid()[GridIndex(a, b)] == (5 * a, 5 * b)
    {
      GridAt(a, b);
    }
    forall k, m | 0 <= k < m < 225
      ensures Grid()[k] != Grid()[m]
    {
      if k / 15 == m / 15 {
        assert k % 15 != m % 15;
      }
    }
  }

  lemma GridAt(a: int, b: int)
    requires -7 <= a <= 7 && -7 <= b <= 7
    ensures 0 <= GridIndex(a, b) < 225 && Grid()[GridIndex(a, b)] == (5 * a, 5 * b)
  {
    var k := GridIndex(a, b);
    assert k / 15 == a + 7 && k % 15 == b + 7;
  }

  /** `acquire_point`'s command: the mount angles of (alpha, beta) plus the zero offset;
      a non-finite zero makes the command non-finite. */
  function Offset(p: (real, real), zero: AzEl): (c: AzEl)
    ensures c.az.Num? <==> zero.az.Num?
    ensures c.el.Num? <==> zero.el.Num?
    ensures c.az.Num? ==> c.az.x - zero.az.x == p.0
    ensures c.el.Num? ==> c.el.x - zero.el.x == p.1
    ensures !zero.az.Num? ==> c.az == zero.az
    ensures !zero.el.Num? ==> c.el == zero.el
  {
    AzEl(Add(Num(p.0), zero.az), Add(Num(p.1), zero.el))
  }

  /** The kinds of `__schema`'s converters: the identity, `int` and `float`. */
  datatype Kind = Text | Int | Float

  /** A converted field. */
  datatype Value = Str(s: string) | IntV(i: int) | RealV(x: real)

  /** `int()` and `float()` on a field, as oracles: `None` where they raise. */
  datatype Parsers = Parsers(toInt: string -> Option<int>, toFloat: string -> Option<real>)

  const SchemaNames: seq<string> := ["type", "seq", "baro", "oat", "dp0", "dpA", "dpB"]
  const SchemaKinds: seq<Kind> := [Text, Int, Float, Float, Float, Float, Float]

  /** Field i of a split line converted by schema entry i. */
  function ParseField(p: Parsers, a: seq<string>, i: nat): (v: Result<Value, PyError>)
    requires i < |SchemaKinds|
    ensures v.Err? <==> i >= |a| || (SchemaKinds[i] == Int && p.toInt(a[i]).None?) ||
                        (SchemaKinds[i] == Float && p.toFloat(a[i]).None?)
    ensures v.Err? ==> v.error == (if i >= |a| then IndexError else ValueError)
  {
    if i >= |a| then Err(IndexError)
    else match SchemaKinds[i]
      case Text => Ok(Str(a[i]))
      case Int => (match p.toInt(a[i]) case None => Err(ValueError) case Some(n) => Ok(IntV(n)))
      case Float => (match p.toFloat(a[i]) case None => Err(ValueError) case Some(x) => Ok(RealV(x)))
  }

  /** Schema entries i .. 6 of one split line, converted in order; the first that
      raises decides the exception. */
  function ParseFrom(p: Parsers, a: seq<string>, i: nat): (r: Result<seq<Value>, PyError>)
    requires i <= |SchemaKinds|
    ensures r.Ok? ==> |r.value| == |SchemaKinds| - i
    ensures r.Ok? <==> forall j :: i <= j < |SchemaKinds| ==> ParseField(p, a, j).Ok?
    ensures r.Ok? ==> forall j :: i <= j < |SchemaKinds| ==> r.value[j - i] == ParseField(p, a, j).value
    decreases |SchemaKinds| - i
  {
    if i == |SchemaKinds| then Ok([])
    else
      var v := ParseField(p, a, i);
      if v.Err? then Err(v.error)
      else
        var rest := ParseFrom(p, a, i + 1);
        if rest.Err? then rest else Ok([v.value] + rest.value)
  }

  /** One line of `__csv_to_dict`. */
  function ParseLine(p: Parsers, line: string): (r: Result<seq<Value>, PyError>)
    ensures r.Ok? ==> |r.value| == |SchemaKinds|
  {
    ParseFrom(p, Split(line, ','), 0)
  }

  /** A line parses only if it has at least the seven schema fields. */
  lemma ShortLineFails(p: Parsers, line: string)
    requires |Split(line, ',')| < |SchemaKinds|
    ensures ParseLine(p, line).Err?
  {
    assert ParseField(p, Split(line, ','), |SchemaKinds| - 1).Err?;
  }

  /** Fields past the seventh are ignored. */
  lemma ExtraFieldsIgnored(p: Parsers, a: seq<string>, b: seq<string>)
    requires |a| >= |SchemaKinds|
    ensures ParseFrom(p, a + b, 0) == ParseFrom(p, a, 0)
  {
    forall j | 0 <= j < |SchemaKinds|
      ensures ParseField(p, a + b, j) == ParseField(p, a, j)
    {
      assert (a + b)[j] == a[j];
    }
    SameFieldsSameParse(p, a + b, a, 0);
  }

  lemma {:induction false} SameFieldsSameParse(p: Parsers, a: seq<string>, b: seq<string>, i: nat)
    requires i <= |SchemaKinds|
    requires forall j :: i <= j < |SchemaKinds| ==> ParseField(p, a, j) == ParseField(p, b, j)
    ensures ParseFrom(p, a, i) == ParseFrom(p, b, i)
    decreases |SchemaKinds| - i
  {
    if i < |SchemaKinds| {
      SameFieldsSameParse(p, a, b, i + 1);
    }
  }

  /** Every line converted on its own. */
  function Parses(p: Parsers, lines: seq<string>): (rs: seq<Result<seq<Value>, PyError>>)
    ensures |rs| == |lines|
  {
    seq(|lines|, j requires 0 <= j < |lines| => ParseLine(p, lines[j]))
  }

  /** The first n lines all convert, each to the seven schema values. */
  ghost predicate AllParse(rs: seq<Result<seq<Value>, PyError>>, n: nat)
    requires n <= |rs|
  {
    forall j :: 0 <= j < n ==> rs[j].Ok? && |rs[j].value| == |SchemaKinds|
  }

  /** Schema column i of the first n converted lines. */
  function Column(rs: seq<Result<seq<Value>, PyError>>, n: nat, i: nat): (c: seq<Value>)
    requires n <= |rs| && i < |SchemaKinds| && AllParse(rs, n)
    ensures |c| == n
    ensures forall j :: 0 <= j < n ==> c[j] == rs[j].value[i]
  {
    if n == 0 then [] else Column(rs, n - 1, i) + [rs[n - 1].value[i]]
  }

  /** The dict built from the first n lines: the schema names as keys, column i
      under name i. */
  ghost predicate ColumnsHold(rs: seq<Result<seq<Value>, PyError>>, n: nat, r: map<string, seq<Value>>)
    requires n <= |rs|
  {
    AllParse(rs, n) &&
    (forall k :: k in r <==> k in SchemaNames) &&
    forall i :: 0 <= i < |SchemaNames| ==> SchemaNames[i] in r && r[SchemaNames[i]] == Column(rs, n, i)
  }

  /** The first of the first n converted lines that raised, if any. */
  function FirstBad(rs: seq<Result<seq<Value>, PyError>>, n: nat): (k: Option<nat>)
    requires n <= |rs|
    ensures k.None? <==> forall j :: 0 <= j < n ==> rs[j].Ok?
    ensures k.Some? ==> k.value < n && rs[k.value].Err? && forall j :: 0 <= j < k.value ==> rs[j].Ok?
  {
    if n == 0 then None
    else
      var k := FirstBad(rs, n - 1);
      if k.Some? then k
      else if rs[n - 1].Err? then Some(n - 1)
      else None
  }

  lemma NamesDistinct()
    ensures Distinct(SchemaNames)
  {
  }

  /** `__csv_to_dict`: one column per schema entry, one converted value per line;
      the first line that does not convert raises. */
  method CsvToDict(p: Parsers, lines: seq<string>) returns (res: Result<map<string, seq<Value>>, PyError>)
    ensures res.Err? <==> FirstBad(Parses(p, lines), |lines|).Some?
    ensures res.Err? ==> res.error == ParseLine(p, lines[FirstBad(Parses(p, lines), |lines|).value]).error
    ensures res.Ok? ==> ColumnsHold(Parses(p, lines), |lines|, res.value)
  {
    NamesDistinct();
    ghost var rs := Parses(p, lines);
    var r := EmptySchemaColumns();
    for j := 0 to |lines|
      invariant ColumnsHold(rs, j, r)
    {
      var v := ParseLine(p, lines[j]);
      assert rs[j] == v;
      if v.Err? {
        FirstBadAt(rs, j);
        return Err(v.error);
      }
      var r' := AppendRow(r, v.value);
      AppendRowHolds(rs, j, r, r');
      r := r';
    }
    return Ok(r);
  }

  /** The empty column per schema entry that `__csv_to_dict` starts from. */
  method EmptySchemaColumns() returns (r: map<string, seq<Value>>)
    ensures forall k :: k in r <==> k in SchemaNames
    ensures forall k :: k in r ==> r[k] == []
  {
    r := map[];
    for i := 0 to |SchemaNames|
      invariant forall k :: k in r <==> k in SchemaNames[..i]
      invariant forall k :: k in r ==> r[k] == []
    {
      r := r[SchemaNames[i] := []];
    }
    assert SchemaNames[..|SchemaNames|] == SchemaNames;
  }

  lemma FirstBadAt(rs: seq<Result<seq<Value>, PyError>>, j: nat)
    requires j < |rs| && rs[j].Err?
    requires forall m :: 0 <= m < j ==> rs[m].Ok?
    ensures FirstBad(rs, |rs|) == Some(j)
  {
    var k := FirstBad(rs, |rs|);
    assert k.Some?;
    assert !(k.value < j) && !(k.value > j);
  }

  /** Appends one converted line to every column. */
  method AppendRow(r: map<string, seq<Value>>, row: seq<Value>) returns (r': map<string, seq<Value>>)
    requires |row| == |SchemaNames| && Distinct(SchemaNames) && forall k :: k in SchemaNames ==> k in r
    ensures forall k :: k in r' <==> k in r
    ensures forall m :: 0 <= m < |SchemaNames| ==> r'[SchemaNames[m]] == r[SchemaNames[m]] + [row[m]]
  {
    r' := r;
    for i := 0 to |SchemaNames|
      invariant forall k :: k in r' <==> k in r
      invariant forall m :: 0 <= m < |SchemaNames| ==>
                  r'[SchemaNames[m]] == r[SchemaNames[m]] + (if m < i then [row[m]] else [])
    {
      r' := r'[SchemaNames[i] := r[SchemaNames[i]] + [row[i]]];
    }
  }

  /** Appending line j keeps the dict equal to the columns of the lines so far. */
  lemma AppendRowHolds(rs: seq<Result<seq<Value>, PyError>>, j: nat, r: map<string, seq<Value>>, r': map<string, seq<Value>>)
    requires j < |rs| && ColumnsHold(rs, j, r) && rs[j].Ok? && |rs[j].value| == |SchemaKinds|
    requires forall k :: k in r' <==> k in r
    requires forall m :: 0 <= m < |SchemaNames| ==> r'[SchemaNames[m]] == r[SchemaNames[m]] + [rs[j].value[m]]
    ensures ColumnsHold(rs, j + 1, r')
  {
  }

  /** `ProbeTest`: the zero offset of the mount, what the fixture has been told to
      do, and what `state.json` holds. */
  class Rig {
    /** `__zero`. */
    var zero: AzEl
    /** Every position passed to the fixture's `moveto`, in order. */
    var moves: seq<AzEl>
    /** The zero last written by `__save`, if any. */
    var saved: Option<AzEl>

    /** `__init__` with `__load`: the stored zero if the state file exists, else [0, 0]. */
    constructor (stored: Option<AzEl>)
      ensures zero == (if stored.Some? then stored.value else AzEl(Num(0.0), Num(0.0)))
      ensures moves == [] && saved == None
    {
      zero := if stored.Some? then stored.value else AzEl(Num(0.0), Num(0.0));
      moves := [];
      saved := None;
    }

    /** `moveto(p)` followed by `__read_averaged`. */
    method Sample(fx: Fixture, p: AzEl) returns (r: Result<(AzEl, Reading), PyError>)
      modifies this`moves
      ensures r == Sampled(fx, p)
      ensures moves == old(moves) + [p]
    {
      moves := moves + [p];
      var m := fx.moveto(p);
      if m.Err? {
        return Err(m.error);
      }
      var y := fx.sense(m.value);
      if y.Err? {
        return Err(y.error);
      }
      return Ok((m.value, y.value));
    }

    /** `__estimate_zero_az` with the fixture: two samples, then the interpolation. */
    method EstimateZeroAz(fx: Fixture, z: AzEl, interval: real) returns (r: Result<AzEl, PyError>)
      modifies this`moves
      ensures r == EstimateAz(fx, z, interval).0
      ensures moves == old(moves) + EstimateAz(fx, z, interval).1
    {
      var xl := AzEl(Sub(z.az, Num(interval)), z.el);
      var xr := AzEl(Add(z.az, Num(interval)), z.el);
      var yl := Sample(fx, xl);
      if yl.Err? {
        return Err(yl.error);
      }
      var yr := Sample(fx, xr);
      assert moves == old(moves) + [xl, xr];
      if yr.Err? {
        return Err(yr.error);
      }
      return Ok(AzEl(LineRoot(yl.value.0.az, yl.value.1.dpB, yr.value.0.az, yr.value.1.dpB), z.el));
    }

    /** `__estimate_zero_el` with the fixture. */
    method EstimateZeroEl(fx: Fixture, z: AzEl, interval: real) returns (r: Result<AzEl, PyError>)
      modifies this`moves
      ensures r == EstimateEl(fx, z, interval).0
      ensures moves == old(moves) + EstimateEl(fx, z, interval).1
    {
      var xd := AzEl(z.az, Sub(z.el, Num(interval)));
      var xu := AzEl(z.az, Add(z.el, Num(interval)));
      var yd := Sample(fx, xd);
      if yd.Err? {
        return Err(yd.error);
      }
      var yu := Sample(fx, xu);
      assert moves == old(moves) + [xd, xu];
      if yu.Err? {
        return Err(yu.error);
      }
      return Ok(AzEl(z.az, LineRoot(yd.value.0.el, yd.value.1.dpA, yu.value.0.el, yu.value.1.dpA)));
    }

    /** `__estimate_zero`: azimuth, then elevation. */
    method EstimateZero(fx: Fixture, z: AzEl, interval: real) returns (r: Result<AzEl, PyError>)
      modifies this`moves
      ensures r == Round(fx, z, interval).0
      ensures moves == old(moves) + Round(fx, z, interval).1
    {
      r := EstimateZeroAz(fx, z, interval);
      if r.Err? {
        return;
      }
      r := EstimateZeroEl(fx, r.value, interval);
    }

    /** `find_zero`: six rounds with the interval halving from 32; the result, finite
        or not, becomes the zero and is saved. An exception from the fixture leaves the
        zero and the saved state as they were. */
    method FindZero(fx: Fixture) returns (r: Result<AzEl, PyError>)
      modifies this`moves, this`zero, this`saved
      ensures r == Search(fx, old(zero), 6).0
      ensures moves == old(moves) + Search(fx, old(zero), 6).1
      ensures r.Ok? ==> zero == r.value && saved == Some(r.value)
      ensures r.Err? ==> zero == old(zero) && saved == old(saved)
    {
      var z := zero;
      var interval := 32.0;
      var i := 0;
      while i < 6
        invariant 0 <= i <= 6 && interval == Interval(i)
        invariant Search(fx, old(zero), i).0 == Ok(z)
        invariant moves == old(moves) + Search(fx, old(zero), i).1
        invariant zero == old(zero) && saved == old(saved)
      {
        var next := SearchRound(fx, old(zero), i, z, old(moves));
        if next.Err? {
          SearchSticks(fx, old(zero), i + 1, 6);
          return next;
        }
        z := next.value;
        interval := interval / 2.0;
        i := i + 1;
      }
      zero := z;
      saved := Some(z);
      return Ok(z);
    }

    /** One pass of `find_zero`'s loop: round i + 1 of the search. */
    method SearchRound(fx: Fixture, ghost z0: AzEl, i: nat, z: AzEl, ghost start: seq<AzEl>) returns (r: Result<AzEl, PyError>)
      requires Search(fx, z0, i).0 == Ok(z)
      requires moves == start + Search(fx, z0, i).1
      modifies this`moves
      ensures r == Search(fx, z0, i + 1).0
      ensures moves == start + Search(fx, z0, i + 1).1
    {
      ghost var before := moves;
      r := EstimateZero(fx, z, Interval(i));
      SearchStep(fx, z0, i, z);
      AppendAssoc(start, Search(fx, z0, i).1, Round(fx, z, Interval(i)).1);
    }

    /** `acquire_point`'s move: the mount angles of (alpha, beta) offset by the zero;
        the exception of `moveto`, if it raises. */
    method AcquirePoint(fx: Fixture, toAzEl: (real, real) -> (real, real), alpha: int, beta: int)
      returns (r: Result<(), PyError>)
      modifies this`moves
      ensures moves == old(moves) + [Offset(toAzEl(alpha as real, beta as real), zero)]
      ensures r.Err? <==> fx.moveto(Offset(toAzEl(alpha as real, beta as real), zero)).Err?
      ensures r.Err? ==> r.error == fx.moveto(Offset(toAzEl(alpha as real, beta as real), zero)).error
    {
      var azEl := toAzEl(alpha as real, beta as real);
      var c := AzEl(Add(Num(azEl.0), zero.az), Add(Num(azEl.1), zero.el));
      moves := moves + [c];
      var m := fx.moveto(c);
      if m.Err? {
        return Err(m.error);
      }
      return Ok(());
    }

    /** `sweep`: one acquisition per grid point, alpha outer and beta inner, up to and
        including the first point whose `moveto` raises. */
    method Sweep(fx: Fixture, toAzEl: (real, real) -> (real, real)) returns (r: Result<(), PyError>)
      modifies this`moves
      ensures r.Err? <==> SweepFailure(fx, toAzEl, zero, 225).Some?
      ensures r.Err? ==>
                r.error == fx.moveto(Commanded(toAzEl, zero, SweepFailure(fx, toAzEl, zero, 225).value)).error &&
                moves == old(moves) + SweepMoves(toAzEl, zero, SweepFailure(fx, toAzEl, zero, 225).value + 1)
      ensures r.Ok? ==> moves == old(moves) + SweepMoves(toAzEl, zero, 225)
    {
      var ai := -SweepCount;
      while ai <= SweepCount
        invariant -SweepCount <= ai <= SweepCount + 1
        invariant SweepFailure(fx, toAzEl, zero, (ai + SweepCount) * 15).None?
        invariant moves == old(moves) + SweepMoves(toAzEl, zero, (ai + SweepCount) * 15)
      {
        r := SweepRow(fx, toAzEl, ai, old(moves));
        if r.Err? {
          return;
        }
        ai := ai + 1;
      }
      return Ok(());
    }

    /** The inner loop of `sweep`: the fifteen beta values at one alpha. */
    method SweepRow(fx: Fixture, toAzEl: (real, real) -> (real, real), ai: int, ghost start: seq<AzEl>)
      returns (r: Result<(), PyError>)
      requires -SweepCount <= ai <= SweepCount
      requires SweepFailure(fx, toAzEl, zero, (ai + SweepCount) * 15).None?
      requires moves == start + SweepMoves(toAzEl, zero, (ai + SweepCount) * 15)
      modifies this`moves
      ensures r.Ok? ==> SweepFailure(fx, toAzEl, zero, (ai + SweepCount + 1) * 15).None? &&
                        moves == start + SweepMoves(toAzEl, zero, (ai + SweepCount + 1) * 15)
      ensures r.Err? ==>
                SweepFailure(fx, toAzEl, zero, 225).Some? &&
                r.error == fx.moveto(Commanded(toAzEl, zero, SweepFailure(fx, toAzEl, zero, 225).value)).error &&
                moves == start + SweepMoves(toAzEl, zero, SweepFailure(fx, toAzEl, zero, 225).value + 1)
    {
      var bi := -SweepCount;
      while bi <= SweepCount
        invariant -SweepCount <= bi <= SweepCount + 1
        invariant SweepFailure(fx, toAzEl, zero, (ai + SweepCount) * 15 + (bi + SweepCount)).None?
        invariant moves == start + SweepMoves(toAzEl, zero, (ai + SweepCount) * 15 + (bi + SweepCount))
      {
        r := SweepPoint(fx, toAzEl, ai, bi, start);
        if r.Err? {
          return;
        }
        bi := bi + 1;
      }
      r := Ok(());
    }

    /** One pass of the inner loop: grid point (5 ai, 5 bi). */
    method SweepPoint(fx: Fixture, toAzEl: (real, real) -> (real, real), ai: int, bi: int, ghost start: seq<AzEl>)
      returns (r: Result<(), PyError>)
      requires -SweepCount <= ai <= SweepCount && -SweepCount <= bi <= SweepCount
      requires SweepFailure(fx, toAzEl, zero, GridIndex(ai, bi)).None?
      requires moves == start + SweepMoves(toAzEl, zero, GridIndex(ai, bi))
      modifies this`moves
      ensures r.Ok? ==> SweepFailure(fx, toAzEl, zero, GridIndex(ai, bi) + 1).None? &&
                        moves == start + SweepMoves(toAzEl, zero, GridIndex(ai, bi) + 1)
      ensures r.Err? ==>
                SweepFailure(fx, toAzEl, zero, 225).Some? &&
                r.error == fx.moveto(Commanded(toAzEl, zero, SweepFailure(fx, toAzEl, zero, 225).value)).error &&
                moves == start + SweepMoves(toAzEl, zero, SweepFailure(fx, toAzEl, zero, 225).value + 1)
    {
      SweepMovesNext(toAzEl, zero, ai, bi);
      r := AcquirePoint(fx, toAzEl, ai * SweepStep, bi * SweepStep);
      if r.Err? {
        SweepFailureAt(fx, toAzEl, zero, GridIndex(ai, bi), 225);
      }
    }
  }

  /** The position commanded for grid point j. */
  function Commanded(toAzEl: (real, real) -> (real, real), zero: AzEl, j: nat): AzEl
    requires j < 225
  {
    Offset(toAzEl(Grid()[j].0 as real, Grid()[j].1 as real), zero)
  }

  /** Grid point (5 a, 5 b) is the next one commanded after the points before it. */
  lemma SweepMovesNext(toAzEl: (real, real) -> (real, real), zero: AzEl, a: int, b: int)
    requires -7 <= a <= 7 && -7 <= b <= 7
    ensures 0 <= GridIndex(a, b) < 225
    ensures Commanded(toAzEl, zero, GridIndex(a, b)) == Offset(toAzEl((a * SweepStep) as real, (b * SweepStep) as real), zero)
    ensures SweepMoves(toAzEl, zero, GridIndex(a, b) + 1) ==
            SweepMoves(toAzEl, zero, GridIndex(a, b)) + [Commanded(toAzEl, zero, GridIndex(a, b))]
  {
    GridAt(a, b);
  }

  /** The positions commanded for the first k grid points. */
  function SweepMoves(toAzEl: (real, real) -> (real, real), zero: AzEl, k: nat): (ms: seq<AzEl>)
    requires k <= 225
    ensures |ms| == k
    ensures forall j :: 0 <= j < k ==> ms[j] == Commanded(toAzEl, zero, j)
  {
    if k == 0 then [] else SweepMoves(toAzEl, zero, k - 1) + [Commanded(toAzEl, zero, k - 1)]
  }

  /** The first of the first k grid points whose `moveto` raises, if any. */
  function SweepFailure(fx: Fixture, toAzEl: (real, real) -> (real, real), zero: AzEl, k: nat): (f: Option<nat>)
    requires k <= 225
    ensures f.None? <==> forall j :: 0 <= j < k ==> fx.moveto(Commanded(toAzEl, zero, j)).Ok?
    ensures f.Some? ==> f.value < k && fx.moveto(Commanded(toAzEl, zero, f.value)).Err? &&
                        forall j :: 0 <= j < f.value ==> fx.moveto(Commanded(toAzEl, zero, j)).Ok?
  {
    if k == 0 then None
    else
      var f := SweepFailure(fx, toAzEl, zero, k - 1);
      if f.Some? then f
      else if fx.moveto(Commanded(toAzEl, zero, k - 1)).Err? then Some(k - 1)
      else None
  }

  /** A failing point after only succeeding ones is the first failure. */
  lemma {:induction false} SweepFailureAt(fx: Fixture, toAzEl: (real, real) -> (real, real), zero: AzEl, f: nat, k: nat)
    requires f < k <= 225
    requires SweepFailure(fx, toAzEl, zero, f).None? && fx.moveto(Commanded(toAzEl, zero, f)).Err?
    ensures SweepFailure(fx, toAzEl, zero, k) == Some(f)
  {
    if k > f + 1 {
      SweepFailureAt(fx, toAzEl, zero, f, k - 1);
    }
  }

  /** With `ExperimentalFixture` a sweep from a NaN zero (one that `find_zero` saved)
      raises ValueError at its first point, and from any other zero it never raises. */
  lemma ExperimentalSweep(fx: Fixture, toAzEl: (real, real) -> (real, real), zero: AzEl)
    requires forall p :: fx.moveto(p) == ExperimentalMove(p)
    ensures zero.az == NaN || zero.el == NaN ==>
              SweepFailure(fx, toAzEl, zero, 225) == Some(0) &&
              fx.moveto(Commanded(toAzEl, zero, 0)) == Err(ValueError)
    ensures zero.az != NaN && zero.el != NaN ==> SweepFailure(fx, toAzEl, zero, 225).None?
  {
    if zero.az == NaN || zero.el == NaN {
      var c := Commanded(toAzEl, zero, 0);
      assert c.az == NaN || c.el == NaN;
      SweepFailureAt(fx, toAzEl, zero, 0, 225);
    } else {
      forall j | 0 <= j < 225
        ensures fx.moveto(Commanded(toAzEl, zero, j)).Ok?
      {
        var c := Commanded(toAzEl, zero, j);
        assert c.az != NaN && c.el != NaN;
      }
    }
  }
}
