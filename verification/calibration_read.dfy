/** The first steps of the 2021 probe-calibration analysis: the rig's CSV log is
    read into columns, keeping only rows with a non-zero centre reading, and every
    probe pressure is divided by the dynamic pressure computed from the barometer,
    the air temperature and the tunnel speed. */
module CalibrationRead {
  import opened Common
  import opened ColumnReader

  /** One cell of a `csv.DictReader` row as `float()` sees it: past the end of a
      short row the reader fills in None, and `float(None)` raises TypeError. */
  function Cell(row: seq<Option<real>>, i: nat): (r: Result<real, PyError>)
    ensures r.Ok? <==> i < |row| && row[i].Some?
    ensures r.Ok? ==> r.value == row[i].value
    ensures r.Err? ==> r.error == (if i < |row| then ValueError else TypeError)
  {
    if i >= |row| then Err(TypeError)
    else if row[i].None? then Err(ValueError)
    else Ok(row[i].value)
  }

  /** The position of a header name. */
  function IndexOf(fields: seq<string>, name: string): (r: Option<nat>)
    ensures r.None? <==> name !in fields
    ensures r.Some? ==> r.value < |fields| && fields[r.value] == name
  {
    if fields == [] then None
    else if fields[0] == name then Some(0)
    else match IndexOf(fields[1..], name)
      case None => None
      case Some(i) => Some(i + 1)
  }

  /** `float(row['dp0'])`: a header without dp0 raises KeyError. */
  function Dp0(fields: seq<string>, row: seq<Option<real>>): Result<real, PyError> {
    match IndexOf(fields, "dp0")
    case None => Err(KeyError)
    case Some(i) => Cell(row, i)
  }

  /** The first k cells parsed, left to right. */
  function ParseCells(row: seq<Option<real>>, k: nat): (r: Result<seq<real>, PyError>)
    requires k <= |row|
    ensures r.Ok? <==> forall i :: 0 <= i < k ==> row[i].Some?
    ensures r.Ok? ==> |r.value| == k && forall i :: 0 <= i < k ==> r.value[i] == row[i].value
    ensures r.Err? ==> r.error == ValueError
  {
    if k == 0 then Ok([])
    else match ParseCells(row, k - 1)
      case Err(e) => Err(e)
      case Ok(vs) => if row[k - 1].None? then Err(ValueError) else Ok(vs + [row[k - 1].value])
  }

  /** What a kept row appends, field by field in header order: an unparseable cell
      raises ValueError, a missing one TypeError, and surplus cells, which the
      reader files under the key None, raise KeyError since `results` has no such
      column. */
  function RowValues(fields: seq<string>, row: seq<Option<real>>): (r: Result<seq<real>, PyError>)
    ensures r.Ok? <==> |row| == |fields| && forall i :: 0 <= i < |row| ==> row[i].Some?
    ensures r.Ok? ==> |r.value| == |fields| && forall i :: 0 <= i < |row| ==> r.value[i] == row[i].value
  {
    var k := if |row| < |fields| then |row| else |fields|;
    match ParseCells(row, k)
    case Err(e) => Err(e)
    case Ok(vs) =>
      if |row| < |fields| then Err(TypeError)
      else if |row| > |fields| then Err(KeyError)
      else Ok(vs)
  }

  /** The rows `read` appends from the first k input rows, in order, or the exception
      of the first row that raises. Every row's dp0 is parsed; only the rows with
      dp0 != 0 are parsed in full. */
  function Kept(fields: seq<string>, rows: seq<seq<Option<real>>>, k: nat): (r: Result<seq<seq<real>>, PyError>)
    requires k <= |rows|
    ensures r.Ok? ==> |r.value| <= k
    ensures r.Ok? ==> forall j :: 0 <= j < |r.value| ==> |r.value[j]| == |fields|
    ensures r.Ok? && "dp0" in fields ==>
              forall j :: 0 <= j < |r.value| ==> r.value[j][IndexOf(fields, "dp0").value] != 0.0
  {
    if k == 0 then Ok([])
    else
      var row := rows[k - 1];
      match Kept(fields, rows, k - 1)
      case Err(e) => Err(e)
      case Ok(acc) =>
        match Dp0(fields, row)
        case Err(e) => Err(e)
        case Ok(v) =>
          if v == 0.0 then Ok(acc)
          else match RowValues(fields, row)
            case Err(e) => Err(e)
            case Ok(vs) => Ok(acc + [vs])
  }

  /** The number of rows among the first k whose dp0 parses and is not 0. */
  function NonZeroCount(fields: seq<string>, rows: seq<seq<Option<real>>>, k: nat): nat
    requires k <= |rows|
  {
    if k == 0 then 0
    else
      var d := Dp0(fields, rows[k - 1]);
      NonZeroCount(fields, rows, k - 1) + (if d.Ok? && d.value != 0.0 then 1 else 0)
  }

  /** On success exactly one row is kept per input row with a non-zero dp0, and a
      row with dp0 = 0 is dropped whatever its other cells hold. */
  lemma {:induction false} KeptCount(fields: seq<string>, rows: seq<seq<Option<real>>>, k: nat)
    requires k <= |rows| && Kept(fields, rows, k).Ok?
    ensures |Kept(fields, rows, k).value| == NonZeroCount(fields, rows, k)
  {
    if k > 0 {
      KeptCount(fields, rows, k - 1);
    }
  }

  /** Once a row raises, `read` raises that exception whatever follows. */
  lemma {:induction false} KeptErrorSticks(fields: seq<string>, rows: seq<seq<Option<real>>>, j: nat, k: nat)
    requires j <= k <= |rows| && Kept(fields, rows, j).Err?
    ensures Kept(fields, rows, k) == Kept(fields, rows, j)
  {
    if j < k {
      KeptErrorSticks(fields, rows, j, k - 1);
    }
  }

  /** `read`: one list per header name, filled from the kept rows. */
  method ReadCalibration(fields: seq<string>, rows: seq<seq<Option<real>>>)
    returns (r: Result<map<string, seq<real>>, PyError>)
    requires Distinct(fields)
    ensures Kept(fields, rows, |rows|).Err? ==> r == Err(Kept(fields, rows, |rows|).error)
    ensures Kept(fields, rows, |rows|).Ok? ==> r.Ok? && r.value.Keys == set f | f in fields
    ensures Kept(fields, rows, |rows|).Ok? ==> forall i :: 0 <= i < |fields| ==>
              |r.value[fields[i]]| == |Kept(fields, rows, |rows|).value| &&
              forall k :: 0 <= k < |Kept(fields, rows, |rows|).value| ==>
                r.value[fields[i]][k] == Kept(fields, rows, |rows|).value[k][i]
  {
    var results := EmptyColumns(fields);
    var k := 0;
    while k < |rows|
      invariant 0 <= k <= |rows|
      invariant Kept(fields, rows, k).Ok?
      invariant results.Keys == set f | f in fields
      invariant forall c :: c in results ==> results[c] == ColumnOf(Kept(fields, rows, k).value, fields, c)
    {
      var row := rows[k];
      var before := Kept(fields, rows, k).value;
      var d := Dp0(fields, row);
      if d.Err? {
        KeptErrorSticks(fields, rows, k + 1, |rows|);
        return Err(d.error);
      }
      if d.value != 0.0 {
        var vs := RowValues(fields, row);
        if vs.Err? {
          KeptErrorSticks(fields, rows, k + 1, |rows|);
          return Err(vs.error);
        }
        ColumnOfSnoc(before, vs.value, fields);
        results := AppendRow(results, fields, vs.value);
      }
      k := k + 1;
    }
    var rs := Kept(fields, rows, |rows|).value;
    forall i | 0 <= i < |fields|
      ensures |results[fields[i]]| == |rs| && forall j :: 0 <= j < |rs| ==> results[fields[i]][j] == rs[j][i]
    {
      ColumnOfDistinct(rs, fields, i);
    }
    return Ok(results);
  }

  /** `air_density`: the ideal-gas density for pressure in Pa and temperature in
      degrees Celsius; absolute zero divides by zero. */
  function AirDensity(p: real, tDegC: real): (r: Result<real, PyError>)
    ensures r.Err? <==> tDegC == -273.15
    ensures r.Err? ==> r.error == ZeroDivisionError
    ensures r.Ok? ==> r.value * (287.058 * (tDegC + 273.15)) == p
  {
    var tK := tDegC + 273.15;
    if 287.058 * tK == 0.0 then Err(ZeroDivisionError) else Ok(p / (287.058 * tK))
  }

  /** `speed_from_mph`: miles per hour to metres per second. */
  function SpeedFromMph(mph: real): (r: real)
    ensures r * 1.0 == mph * 0.44704
  {
    mph * 0.44704
  }

  /** `q`: the dynamic pressure 1/2 rho v^2. */
  function Q(p: real, tDegC: real, mph: real): (r: Result<real, PyError>)
    ensures r.Err? <==> tDegC == -273.15
  {
    match AirDensity(p, tDegC)
    case Err(e) => Err(e)
    case Ok(rho) => var v := SpeedFromMph(mph); Ok(0.5 * rho * (v * v))
  }

  lemma ProductZero(a: real, b: real)
    ensures a * b == 0.0 <==> a == 0.0 || b == 0.0
  {
    if a != 0.0 && b != 0.0 {
      assert (a * b) / b == a;
    }
  }

  lemma ProductNonNegative(a: real, b: real)
    requires a >= 0.0 && b >= 0.0
    ensures a * b >= 0.0
  {
  }

  lemma SquareNonNegative(a: real)
    ensures a * a >= 0.0
  {
    if a < 0.0 {
      assert a * a == (-a) * (-a);
      ProductNonNegative(-a, -a);
    }
  }

  /** The dynamic pressure vanishes exactly at zero pressure or zero speed, does not
      depend on the direction of travel, and is non-negative for a physical
      pressure and temperature. */
  lemma QProperties(p: real, tDegC: real, mph: real)
    requires tDegC != -273.15
    ensures Q(p, tDegC, mph).value == 0.0 <==> p == 0.0 || mph == 0.0
    ensures Q(p, tDegC, -mph) == Q(p, tDegC, mph)
    ensures p >= 0.0 && tDegC > -273.15 ==> Q(p, tDegC, mph).value >= 0.0
  {
    var rho := AirDensity(p, tDegC).value;
    var v := SpeedFromMph(mph);
    var den := 287.058 * (tDegC + 273.15);
    assert den != 0.0;
    assert rho * den == p;
    assert Q(p, tDegC, mph).value == (0.5 * rho) * (v * v);
    ProductZero(rho, den);
    ProductZero(v, v);
    ProductZero(0.5 * rho, v * v);
    assert SpeedFromMph(-mph) == -v;
    assert (-v) * (-v) == v * v;
    assert Q(p, tDegC, -mph).value == (0.5 * rho) * ((-v) * (-v));
    if p >= 0.0 && tDegC > -273.15 {
      assert den > 0.0;
      assert rho >= 0.0;
      SquareNonNegative(v);
      ProductNonNegative(0.5 * rho, v * v);
    }
  }

  /** Column `k` holds at least n values. */
  predicate Has(d: map<string, seq<real>>, k: string, n: nat) {
    k in d && |d[k]| >= n
  }

  /** The dynamic pressure of row i. */
  function QAt(d: map<string, seq<real>>, i: nat): Result<real, PyError>
    requires Has(d, "baro", i + 1) && Has(d, "oat", i + 1) && Has(d, "mph", i + 1)
  {
    Q(d["baro"][i], d["oat"][i], d["mph"][i])
  }

  /** When `calculate_ratios` runs through: every row has its inputs, no temperature
      is absolute zero and no dynamic pressure is zero. */
  ghost predicate RatiosDefined(d: map<string, seq<real>>) {
    "seq" in d &&
    var n := |d["seq"]|;
    (n > 0 ==> Has(d, "baro", n) && Has(d, "oat", n) && Has(d, "mph", n)
               && Has(d, "dp0", n) && Has(d, "dpA", n) && Has(d, "dpB", n)) &&
    forall i :: 0 <= i < n ==> QAt(d, i).Ok? && QAt(d, i).value != 0.0
  }

  /** The first loop of `calculate_ratios`: q of rows 0 .. n-1. */
  method QColumn(d: map<string, seq<real>>, n: nat) returns (r: Result<seq<real>, PyError>)
    ensures r.Ok? <==> n == 0 || (Has(d, "baro", n) && Has(d, "oat", n) && Has(d, "mph", n)
                                  && forall i :: 0 <= i < n ==> QAt(d, i).Ok?)
    ensures r.Ok? ==> |r.value| == n && forall i :: 0 <= i < n ==> r.value[i] == QAt(d, i).value
  {
    var qs: seq<real> := [];
    var i := 0;
    while i < n
      invariant 0 <= i <= n && |qs| == i
      invariant i > 0 ==> Has(d, "baro", i) && Has(d, "oat", i) && Has(d, "mph", i)
      invariant forall j :: 0 <= j < i ==> QAt(d, j).Ok? && qs[j] == QAt(d, j).value
    {
      var b := At(d, "baro", i);
      var o := At(d, "oat", i);
      var m := At(d, "mph", i);
      if b.Err? || o.Err? || m.Err? {
        assert !(Has(d, "baro", n) && Has(d, "oat", n) && Has(d, "mph", n));
        return Err(if b.Err? then b.error else if o.Err? then o.error else m.error);
      }
      var q := Q(b.value, o.value, m.value);
      if q.Err? {
        assert QAt(d, i).Err?;
        return Err(q.error);
      }
      qs := qs + [q.value];
      i := i + 1;
    }
    return Ok(qs);
  }

  /** The second loop of `calculate_ratios`: each of dp0, dpA, dpB divided by q. */
  method DivideByQ(d: map<string, seq<real>>, qs: seq<real>)
    returns (r: Result<(seq<real>, seq<real>, seq<real>), PyError>)
    ensures var n := |qs|;
            r.Ok? <==> n == 0 || (Has(d, "dp0", n) && Has(d, "dpA", n) && Has(d, "dpB", n)
                                 && forall i :: 0 <= i < n ==> qs[i] != 0.0)
    ensures r.Ok? ==> var (r0, rA, rB) := r.value;
              |r0| == |rA| == |rB| == |qs| &&
              forall i :: 0 <= i < |qs| ==>
                r0[i] * qs[i] == d["dp0"][i] && rA[i] * qs[i] == d["dpA"][i] && rB[i] * qs[i] == d["dpB"][i]
  {
    var r0: seq<real>, rA: seq<real>, rB: seq<real> := [], [], [];
    var i := 0;
    while i < |qs|
      invariant 0 <= i <= |qs| && |r0| == |rA| == |rB| == i
      invariant i > 0 ==> Has(d, "dp0", i) && Has(d, "dpA", i) && Has(d, "dpB", i)
      invariant forall j :: 0 <= j < i ==> qs[j] != 0.0
      invariant forall j :: 0 <= j < i ==>
                  r0[j] * qs[j] == d["dp0"][j] && rA[j] * qs[j] == d["dpA"][j] && rB[j] * qs[j] == d["dpB"][j]
    {
      var p0 := At(d, "dp0", i);
      if p0.Err? {
        return Err(p0.error);
      }
      if qs[i] == 0.0 {
        return Err(ZeroDivisionError);
      }
      var pA := At(d, "dpA", i);
      var pB := At(d, "dpB", i);
      if pA.Err? || pB.Err? {
        return Err(if pA.Err? then pA.error else pB.error);
      }
      r0, rA, rB := r0 + [p0.value / qs[i]], rA + [pA.value / qs[i]], rB + [pB.value / qs[i]];
      i := i + 1;
    }
    return Ok((r0, rA, rB));
  }

  /** The dict with the four new columns stored. */
  function WithRatios(d: map<string, seq<real>>, qs: seq<real>, r0: seq<real>, rA: seq<real>, rB: seq<real>)
    : (out: map<string, seq<real>>)
    ensures out.Keys == d.Keys + {"q", "dp0_q", "dpA_q", "dpB_q"}
    ensures forall k :: k in d && k != "q" && k != "dp0_q" && k != "dpA_q" && k != "dpB_q" ==> out[k] == d[k]
    ensures out["q"] == qs && out["dp0_q"] == r0 && out["dpA_q"] == rA && out["dpB_q"] == rB
  {
    d["q" := qs]["dp0_q" := r0]["dpA_q" := rA]["dpB_q" := rB]
  }

  /** `calculate_ratios`: adds q and the three pressures divided by q; the dict has
      one owner, so the update in place is the returned dict. */
  method CalculateRatios(d: map<string, seq<real>>) returns (r: Result<map<string, seq<real>>, PyError>)
    ensures r.Ok? <==> RatiosDefined(d)
    ensures r.Ok? ==> r.value.Keys == d.Keys + {"q", "dp0_q", "dpA_q", "dpB_q"}
    ensures r.Ok? ==> forall k :: k in d && k != "q" && k != "dp0_q" && k != "dpA_q" && k != "dpB_q" ==>
              r.value[k] == d[k]
    ensures r.Ok? ==> var n := |d["seq"]|;
              |r.value["q"]| == |r.value["dp0_q"]| == |r.value["dpA_q"]| == |r.value["dpB_q"]| == n &&
              forall i :: 0 <= i < n ==>
                r.value["q"][i] == QAt(d, i).value &&
                r.value["dp0_q"][i] * r.value["q"][i] == d["dp0"][i] &&
                r.value["dpA_q"][i] * r.value["q"][i] == d["dpA"][i] &&
                r.value["dpB_q"][i] * r.value["q"][i] == d["dpB"][i]
  {
    if "seq" !in d {
      return Err(KeyError);
    }
    var n := |d["seq"]|;
    var qs := QColumn(d, n);
    if qs.Err? {
      return Err(qs.error);
    }
    var ratios := DivideByQ(d, qs.value);
    if ratios.Err? {
      return Err(ratios.error);
    }
    var (r0, rA, rB) := ratios.value;
    return Ok(WithRatios(d, qs.value, r0, rA, rB));
  }
}
