/** `reduce_average` of the 2021 probe-calibration analysis: the rows of the rig's
    log are grouped by their (alpha, beta) set point, one output row per distinct
    set point in order of first appearance (Python 3 dicts keep insertion order),
    and each named column is reduced to a `total / count` per group. As written the
    count and total are only updated when a group is first seen, so each group
    reports its first row; `ReduceAverageMean` is the evidently intended mean. */
module CalibrationReduce {
  import opened Common
  import ColumnReader

  type SetPoint = (real, real)

  /** The distinct set points in order of first appearance. */
  function FirstSeen(ps: seq<SetPoint>): (g: seq<SetPoint>)
    ensures Distinct(g) && |g| <= |ps|
    ensures forall k :: k in g <==> k in ps
  {
    if ps == [] then []
    else
      var g := FirstSeen(ps[..|ps| - 1]);
      var k := ps[|ps| - 1];
      assert forall x :: x in ps <==> x in ps[..|ps| - 1] || x == k;
      if k in g then g else g + [k]
  }

  /** Row i is the first with its set point. */
  predicate IsFirst(ps: seq<SetPoint>, i: nat)
    requires i < |ps|
  {
    forall j :: 0 <= j < i ==> ps[j] != ps[i]
  }

  /** The row at which a set point first appears. */
  function FirstIndex(ps: seq<SetPoint>, k: SetPoint): (i: nat)
    requires k in ps
    ensures i < |ps| && ps[i] == k && IsFirst(ps, i)
  {
    if ps[0] == k then 0
    else
      var j := FirstIndex(ps[1..], k);
      j + 1
  }

  /** The number of rows with set point k: at least one exactly for the set points
      that occur. */
  function CountOf(ps: seq<SetPoint>, k: SetPoint): (c: nat)
    ensures c > 0 <==> k in ps
    ensures c <= |ps|
  {
    if ps == [] then 0
    else
      assert ps == ps[..|ps| - 1] + [ps[|ps| - 1]];
      CountOf(ps[..|ps| - 1], k) + (if ps[|ps| - 1] == k then 1 else 0)
  }

  /** The sum of a column over the rows with set point k. */
  function SumOf(ps: seq<SetPoint>, col: seq<real>, k: SetPoint): (t: real)
    requires |col| >= |ps|
    ensures k !in ps ==> t == 0.0
  {
    if ps == [] then 0.0
    else SumOf(ps[..|ps| - 1], col, k) + (if ps[|ps| - 1] == k then col[|ps| - 1] else 0.0)
  }

  /** The set point of every row. */
  function Pairs(d: map<string, seq<real>>, n: nat): (ps: seq<SetPoint>)
    requires n == 0 || (Has(d, "alpha", n) && Has(d, "beta", n))
    ensures |ps| == n
  {
    seq(n, i requires 0 <= i < n => (d["alpha"][i], d["beta"][i]))
  }

  predicate Has(d: map<string, seq<real>>, k: string, n: nat) {
    k in d && |d[k]| >= n
  }

  /** The output columns must not clash with each other or with alpha, beta and q,
      as for the one caller's `['dp0_q', 'dpA_q', 'dpB_q']`. */
  predicate ValidNames(names: seq<string>) {
    Distinct(names) && "alpha" !in names && "beta" !in names && "q" !in names
  }

  /** When `reduce_average` as written runs through: seq, q, alpha and beta are
      there, and each named column is long enough at the first row of every set
      point. */
  ghost predicate AsWrittenDefined(d: map<string, seq<real>>, names: seq<string>) {
    "seq" in d && "q" in d &&
    var n := |d["seq"]|;
    (n == 0 || (Has(d, "alpha", n) && Has(d, "beta", n) && NamesAtFirstRows(d, names, n)))
  }

  /** Each named column reaches the first row of every set point. */
  ghost predicate NamesAtFirstRows(d: map<string, seq<real>>, names: seq<string>, n: nat)
    requires n == 0 || (Has(d, "alpha", n) && Has(d, "beta", n))
  {
    forall i :: 0 <= i < n && IsFirst(Pairs(d, n), i) ==> RowHasNames(d, names, i)
  }

  /** Every named column reaches row i. */
  predicate RowHasNames(d: map<string, seq<real>>, names: seq<string>, i: nat) {
    forall name :: name in names ==> Has(d, name, i + 1)
  }

  /** A group's running `count` and `total` for every named column. */
  type Entry = map<string, (nat, real)>

  /** The first-seen branch: `count` 0 + 1 and `total` 0.0 + d[name][i] for each name. */
  method NewEntry(d: map<string, seq<real>>, names: seq<string>, i: nat) returns (r: Result<Entry, PyError>)
    ensures r.Ok? <==> forall name :: name in names ==> Has(d, name, i + 1)
    ensures r.Ok? ==> r.value.Keys == (set name | name in names)
    ensures r.Ok? ==> forall name :: name in names ==> r.value[name] == (1, d[name][i])
  {
    var e: Entry := map[];
    var j := 0;
    while j < |names|
      invariant 0 <= j <= |names|
      invariant forall name :: name in names[..j] ==> Has(d, name, i + 1)
      invariant e.Keys == set name | name in names[..j]
      invariant forall name :: name in e ==> e[name] == (1, d[name][i])
    {
      assert names[..j + 1] == names[..j] + [names[j]];
      var v := At(d, names[j], i);
      if v.Err? {
        assert names[j] in names && !Has(d, names[j], i + 1);
        return Err(v.error);
      }
      e := e[names[j] := (0 + 1, 0.0 + v.value)];
      j := j + 1;
    }
    assert names[..j] == names;
    return Ok(e);
  }

  /** The second half: one output row per group, in insertion order, each named
      column getting `total / count`. */
  method Emit(order: seq<SetPoint>, reduced: map<SetPoint, Entry>, names: seq<string>, q: seq<real>)
    returns (r: map<string, seq<real>>)
    requires ValidNames(names)
    requires forall k :: k in order ==> k in reduced
    requires forall k, name :: k in order && name in names ==> name in reduced[k] && reduced[k][name].0 > 0
    ensures r.Keys == {"alpha", "beta", "q"} + set name | name in names
    ensures |r["alpha"]| == |r["beta"]| == |order|
    ensures forall j :: 0 <= j < |order| ==> r["alpha"][j] == order[j].0 && r["beta"][j] == order[j].1
    ensures r["q"] == q
    ensures forall name :: name in names ==> |r[name]| == |order|
    ensures forall name, j :: name in names && 0 <= j < |order| ==>
              r[name][j] == reduced[order[j]][name].1 / reduced[order[j]][name].0 as real
  {
    var empty := ColumnReader.EmptyColumns(names);
    r := empty["alpha" := []]["beta" := []];
    var m := 0;
    while m < |order|
      invariant 0 <= m <= |order|
      invariant r.Keys == {"alpha", "beta"} + set name | name in names
      invariant Emitted(r, names, order, reduced, m)
    {
      var r' := AppendGroup(r, names, order[m], reduced[order[m]]);
      EmitStep(r, r', names, order, reduced, m);
      r, m := r', m + 1;
    }
    EmitDone(r, names, order, reduced, q);
    r := r["q" := q];
  }

  /** The output after the first m groups: their set points and, for every name,
      their `total / count`. */
  ghost predicate Emitted(r: map<string, seq<real>>, names: seq<string>, order: seq<SetPoint>,
                          reduced: map<SetPoint, Entry>, m: nat)
    requires m <= |order|
    requires forall k :: k in order ==> k in reduced
    requires forall k, name :: k in order && name in names ==> name in reduced[k] && reduced[k][name].0 > 0
  {
    "alpha" in r && "beta" in r &&
    |r["alpha"]| == |r["beta"]| == m &&
    (forall j :: 0 <= j < m ==> r["alpha"][j] == order[j].0 && r["beta"][j] == order[j].1) &&
    (forall name :: name in names ==> name in r && |r[name]| == m) &&
    (forall name, j :: name in names && 0 <= j < m ==>
       r[name][j] == reduced[order[j]][name].1 / reduced[order[j]][name].0 as real)
  }

  /** One group's row keeps `Emitted`. */
  lemma EmitStep(r: map<string, seq<real>>, r': map<string, seq<real>>, names: seq<string>,
                 order: seq<SetPoint>, reduced: map<SetPoint, Entry>, m: nat)
    requires m < |order|
    requires forall k :: k in order ==> k in reduced
    requires forall k, name :: k in order && name in names ==> name in reduced[k] && reduced[k][name].0 > 0
    requires Emitted(r, names, order, reduced, m)
    requires "alpha" in r' && "beta" in r'
    requires r'["alpha"] == r["alpha"] + [order[m].0] && r'["beta"] == r["beta"] + [order[m].1]
    requires forall name :: name in names ==>
               name in r' && r'[name] == r[name] + [reduced[order[m]][name].1 / reduced[order[m]][name].0 as real]
    ensures Emitted(r', names, order, reduced, m + 1)
  {
    forall name, j | name in names && 0 <= j < m + 1
      ensures r'[name][j] == reduced[order[j]][name].1 / reduced[order[j]][name].0 as real
    {
      if j < m {
        assert r'[name][j] == r[name][j];
      }
    }
  }

  /** Adding `q` after the last group gives `Emit`'s output. */
  lemma EmitDone(r: map<string, seq<real>>, names: seq<string>, order: seq<SetPoint>,
                 reduced: map<SetPoint, Entry>, q: seq<real>)
    requires ValidNames(names)
    requires forall k :: k in order ==> k in reduced
    requires forall k, name :: k in order && name in names ==> name in reduced[k] && reduced[k][name].0 > 0
    requires Emitted(r, names, order, reduced, |order|)
    ensures var r' := r["q" := q];
            |r'["alpha"]| == |r'["beta"]| == |order| &&
            (forall j :: 0 <= j < |order| ==> r'["alpha"][j] == order[j].0 && r'["beta"][j] == order[j].1) &&
            (forall name :: name in names ==> |r'[name]| == |order|) &&
            (forall name, j :: name in names && 0 <= j < |order| ==>
               r'[name][j] == reduced[order[j]][name].1 / reduced[order[j]][name].0 as real)
  {
  }

  /** One group's output row: its set point, then every named column's value. */
  method AppendGroup(r0: map<string, seq<real>>, names: seq<string>, k: SetPoint, e: Entry)
    returns (r: map<string, seq<real>>)
    requires ValidNames(names) && "alpha" in r0 && "beta" in r0
    requires forall name :: name in names ==> name in r0 && name in e && e[name].0 > 0
    ensures r.Keys == r0.Keys
    ensures r["alpha"] == r0["alpha"] + [k.0] && r["beta"] == r0["beta"] + [k.1]
    ensures forall name :: name in names ==> r[name] == r0[name] + [e[name].1 / e[name].0 as real]
  {
    r := r0["alpha" := r0["alpha"] + [k.0]]["beta" := r0["beta"] + [k.1]];
    var j := 0;
    while j < |names|
      invariant 0 <= j <= |names|
      invariant r.Keys == r0.Keys
      invariant r["alpha"] == r0["alpha"] + [k.0] && r["beta"] == r0["beta"] + [k.1]
      invariant forall name :: name in names && name !in names[..j] ==> r[name] == r0[name]
      invariant forall name :: name in names[..j] ==> r[name] == r0[name] + [e[name].1 / e[name].0 as real]
    {
      assert names[..j + 1] == names[..j] + [names[j]];
      assert names[j] !in names[..j];
      var name := names[j];
      r := r[name := r[name] + [e[name].1 / e[name].0 as real]];
      j := j + 1;
    }
    assert names[..j] == names;
  }

  /** Appending a row keeps the first index of the set points already seen; a new
      set point is first seen at the new row. */
  lemma {:induction false} FirstIndexSnoc(ps: seq<SetPoint>, x: SetPoint, k: SetPoint)
    requires k in ps + [x]
    ensures k in ps ==> FirstIndex(ps + [x], k) == FirstIndex(ps, k)
    ensures k !in ps ==> FirstIndex(ps + [x], k) == |ps|
  {
    var qs := ps + [x];
    if qs[0] != k {
      assert qs[1..] == ps[1..] + [x];
      if ps != [] {
        FirstIndexSnoc(ps[1..], x, k);
      }
    }
  }

  /** One more row in the first half: the new row's set point either opens a group
      or is already seen; the first rows of earlier set points stay. */
  lemma PairsSnoc(d: map<string, seq<real>>, i: nat)
    requires Has(d, "alpha", i + 1) && Has(d, "beta", i + 1)
    ensures Pairs(d, i + 1) == Pairs(d, i) + [(d["alpha"][i], d["beta"][i])]
    ensures forall j :: 0 <= j < i ==> (IsFirst(Pairs(d, i + 1), j) <==> IsFirst(Pairs(d, i), j))
    ensures IsFirst(Pairs(d, i + 1), i) <==> (d["alpha"][i], d["beta"][i]) !in Pairs(d, i)
  {
    var ps, qs := Pairs(d, i), Pairs(d, i + 1);
    assert qs == ps + [(d["alpha"][i], d["beta"][i])];
    forall j | 0 <= j < i
      ensures qs[..j] == ps[..j]
    {
    }
    assert qs[..i] == ps;
  }

  /** The groups as `reduce_average` leaves them after i rows: every set point seen
      maps to `(1, d[name][first row])` for each name. */
  ghost predicate FirstRowGroups(d: map<string, seq<real>>, names: seq<string>, i: nat,
                                 order: seq<SetPoint>, reduced: map<SetPoint, Entry>)
    requires i == 0 || (Has(d, "alpha", i) && Has(d, "beta", i))
  {
    var ps := Pairs(d, i);
    order == FirstSeen(ps) &&
    (forall k :: k in reduced <==> k in order) &&
    NamesAtFirstRows(d, names, i) &&
    forall k :: k in reduced ==> GroupOfFirstRow(d, names, ps, k, reduced[k])
  }

  /** A group's entry holds `(1, value at the group's first row)` for every name. */
  ghost predicate GroupOfFirstRow(d: map<string, seq<real>>, names: seq<string>, ps: seq<SetPoint>,
                                  k: SetPoint, e: Entry)
  {
    k in ps &&
    e.Keys == (set name | name in names) &&
    forall name :: name in names ==>
      name in e && Has(d, name, FirstIndex(ps, k) + 1) && e[name] == (1, d[name][FirstIndex(ps, k)])
  }

  /** The rows seen so far are a prefix of all rows. */
  lemma PairsPrefix(d: map<string, seq<real>>, m: nat, n: nat)
    requires m <= n && Has(d, "alpha", n) && Has(d, "beta", n)
    ensures Pairs(d, n)[..m] == Pairs(d, m)
    ensures forall j :: 0 <= j < m ==> (IsFirst(Pairs(d, n), j) <==> IsFirst(Pairs(d, m), j))
  {
    var ps, qs := Pairs(d, m), Pairs(d, n);
    assert qs[..m] == ps;
    forall j | 0 <= j < m
      ensures qs[..j] == ps[..j]
    {
    }
  }

  /** What one row of the first loop does to the groups. */
  ghost predicate FirstRowRule(d: map<string, seq<real>>, names: seq<string>, i: nat,
                               order: seq<SetPoint>, reduced: map<SetPoint, Entry>,
                               order': seq<SetPoint>, reduced': map<SetPoint, Entry>)
    requires Has(d, "alpha", i + 1) && Has(d, "beta", i + 1)
  {
    var k := (d["alpha"][i], d["beta"][i]);
    (k in order ==> order' == order && reduced' == reduced) &&
    (k !in order ==>
       order' == order + [k] &&
       (forall name :: name in names ==> Has(d, name, i + 1)) &&
       reduced'.Keys == reduced.Keys + {k} &&
       (forall x :: x in reduced ==> reduced'[x] == reduced[x]) &&
       reduced'[k].Keys == (set name | name in names) &&
       (forall name :: name in names ==> name in reduced'[k] && reduced'[k][name] == (1, d[name][i])))
  }

  /** One row of the first loop keeps `FirstRowGroups`. */
  lemma FirstRowStep(d: map<string, seq<real>>, names: seq<string>, i: nat,
                     order: seq<SetPoint>, reduced: map<SetPoint, Entry>,
                     order': seq<SetPoint>, reduced': map<SetPoint, Entry>)
    requires Has(d, "alpha", i + 1) && Has(d, "beta", i + 1)
    requires FirstRowGroups(d, names, i, order, reduced)
    requires FirstRowRule(d, names, i, order, reduced, order', reduced')
    ensures FirstRowGroups(d, names, i + 1, order', reduced')
  {
    PairsSnoc(d, i);
    var ps, qs := Pairs(d, i), Pairs(d, i + 1);
    var k := (d["alpha"][i], d["beta"][i]);
    assert qs[..i] == ps;
    assert order' == FirstSeen(qs);
    FirstRowHas(d, names, i, order, reduced, order', reduced');
    forall x | x in reduced'
      ensures GroupOfFirstRow(d, names, qs, x, reduced'[x])
    {
      if x in reduced {
        GroupKept(d, names, i, x, reduced[x]);
      } else {
        GroupOpened(d, names, i, reduced'[x]);
      }
    }
  }

  /** A group opened before row i keeps its entry and its first row. */
  lemma GroupKept(d: map<string, seq<real>>, names: seq<string>, i: nat, x: SetPoint, e: Entry)
    requires Has(d, "alpha", i + 1) && Has(d, "beta", i + 1)
    requires GroupOfFirstRow(d, names, Pairs(d, i), x, e)
    ensures GroupOfFirstRow(d, names, Pairs(d, i + 1), x, e)
  {
    PairsSnoc(d, i);
    FirstIndexSnoc(Pairs(d, i), (d["alpha"][i], d["beta"][i]), x);
  }

  /** A group opened at row i has that row as its first. */
  lemma GroupOpened(d: map<string, seq<real>>, names: seq<string>, i: nat, e: Entry)
    requires Has(d, "alpha", i + 1) && Has(d, "beta", i + 1)
    requires (d["alpha"][i], d["beta"][i]) !in Pairs(d, i)
    requires e.Keys == (set name | name in names)
    requires forall name :: name in names ==> Has(d, name, i + 1) && e[name] == (1, d[name][i])
    ensures GroupOfFirstRow(d, names, Pairs(d, i + 1), (d["alpha"][i], d["beta"][i]), e)
  {
    PairsSnoc(d, i);
    FirstIndexSnoc(Pairs(d, i), (d["alpha"][i], d["beta"][i]), (d["alpha"][i], d["beta"][i]));
  }

  lemma FirstRowHas(d: map<string, seq<real>>, names: seq<string>, i: nat,
                    order: seq<SetPoint>, reduced: map<SetPoint, Entry>,
                    order': seq<SetPoint>, reduced': map<SetPoint, Entry>)
    requires Has(d, "alpha", i + 1) && Has(d, "beta", i + 1)
    requires FirstRowGroups(d, names, i, order, reduced)
    requires FirstRowRule(d, names, i, order, reduced, order', reduced')
    ensures NamesAtFirstRows(d, names, i + 1)
  {
    PairsSnoc(d, i);
    var k := (d["alpha"][i], d["beta"][i]);
    forall j | 0 <= j < i + 1 && IsFirst(Pairs(d, i + 1), j)
      ensures RowHasNames(d, names, j)
    {
      if j < i {
        assert IsFirst(Pairs(d, i), j);
      } else {
        assert k !in Pairs(d, i);
        assert k !in order;
      }
    }
  }

  /** The first half of `reduce_average` as written. */
  method GroupFirstRows(d: map<string, seq<real>>, names: seq<string>, n: nat)
    returns (r: Result<(seq<SetPoint>, map<SetPoint, Entry>), PyError>)
    ensures r.Ok? <==> (n == 0 || (Has(d, "alpha", n) && Has(d, "beta", n) && NamesAtFirstRows(d, names, n)))
    ensures r.Ok? ==> (n == 0 || (Has(d, "alpha", n) && Has(d, "beta", n)))
    ensures r.Ok? ==> FirstRowGroups(d, names, n, r.value.0, r.value.1)
  {
    var order: seq<SetPoint> := [];
    var reduced: map<SetPoint, Entry> := map[];
    var i := 0;
    while i < n
      invariant 0 <= i <= n
      invariant i == 0 || (Has(d, "alpha", i) && Has(d, "beta", i))
      invariant FirstRowGroups(d, names, i, order, reduced)
    {
      var a := At(d, "alpha", i);
      var b := At(d, "beta", i);
      if a.Err? || b.Err? {
        return Err(if a.Err? then a.error else b.error);
      }
      var step := FirstRow(d, names, i, order, reduced);
      if step.Err? {
        if Has(d, "alpha", n) && Has(d, "beta", n) {
          PairsPrefix(d, i + 1, n);
        }
        return Err(step.error);
      }
      order, reduced := step.value.0, step.value.1;
      i := i + 1;
    }
    return Ok((order, reduced));
  }

  /** One row of the first loop: a set point not yet in the dict (or mapped to an
      empty dict) opens its group with the row's named values. */
  method FirstRow(d: map<string, seq<real>>, names: seq<string>, i: nat,
                  order: seq<SetPoint>, reduced: map<SetPoint, Entry>)
    returns (r: Result<(seq<SetPoint>, map<SetPoint, Entry>), PyError>)
    requires Has(d, "alpha", i + 1) && Has(d, "beta", i + 1)
    requires FirstRowGroups(d, names, i, order, reduced)
    ensures r.Err? ==> IsFirst(Pairs(d, i + 1), i) && !RowHasNames(d, names, i)
    ensures r.Ok? ==> FirstRowGroups(d, names, i + 1, r.value.0, r.value.1)
  {
    PairsSnoc(d, i);
    var k := (d["alpha"][i], d["beta"][i]);
    var order', reduced' := order, reduced;
    if k !in reduced || reduced[k] == map[] {
      var e := NewEntry(d, names, i);
      if e.Err? {
        assert k !in Pairs(d, i);
        return Err(e.error);
      }
      if k !in reduced {
        order' := order + [k];
      } else {
        assert reduced[k := e.value] == reduced;
      }
      reduced' := reduced[k := e.value];
    }
    FirstRowStep(d, names, i, order, reduced, order', reduced');
    return Ok((order', reduced'));
  }

  /** `reduce_average` as written: one output row per distinct (alpha, beta) in
      order of first appearance, each named column reporting the value of the
      group's first row, and `q` passed through unreduced. */
  method ReduceAverage(d: map<string, seq<real>>, names: seq<string>) returns (r: Result<map<string, seq<real>>, PyError>)
    requires ValidNames(names)
    ensures r.Ok? <==> AsWrittenDefined(d, names)
    ensures r.Ok? ==> r.value.Keys == {"alpha", "beta", "q"} + set name | name in names
    ensures r.Ok? ==> r.value["q"] == d["q"]
    ensures r.Ok? ==> var g := FirstSeen(Pairs(d, |d["seq"]|));
              |r.value["alpha"]| == |r.value["beta"]| == |g| &&
              (forall j :: 0 <= j < |g| ==> r.value["alpha"][j] == g[j].0 && r.value["beta"][j] == g[j].1) &&
              (forall name :: name in names ==> |r.value[name]| == |g|)
    ensures r.Ok? ==> ReportsFirstRows(d, names, |d["seq"]|, r.value)
  {
    if "seq" !in d {
      return Err(KeyError);
    }
    var n := |d["seq"]|;
    var groups := GroupFirstRows(d, names, n);
    if groups.Err? {
      return Err(groups.error);
    }
    if "q" !in d {
      return Err(KeyError);
    }
    var (order, reduced) := groups.value;
    assert forall k :: k in order ==> k in reduced && GroupOfFirstRow(d, names, Pairs(d, n), k, reduced[k]);
    var out := Emit(order, reduced, names, d["q"]);
    FirstRowOutput(d, names, n, order, reduced, out);
    return Ok(out);
  }

  /** The output row of the j-th set point reports, in every named column, the
      value at that set point's first row. */
  ghost predicate ReportsFirstRows(d: map<string, seq<real>>, names: seq<string>, n: nat, out: map<string, seq<real>>)
    requires n == 0 || (Has(d, "alpha", n) && Has(d, "beta", n))
  {
    var ps := Pairs(d, n);
    var g := FirstSeen(ps);
    forall name, j :: name in names && 0 <= j < |g| ==>
      name in out && j < |out[name]| &&
      Has(d, name, FirstIndex(ps, g[j]) + 1) && out[name][j] == d[name][FirstIndex(ps, g[j])]
  }

  /** Each group's `total / count` is the value at its first row. */
  lemma FirstRowOutput(d: map<string, seq<real>>, names: seq<string>, n: nat,
                       order: seq<SetPoint>, reduced: map<SetPoint, Entry>, out: map<string, seq<real>>)
    requires n == 0 || (Has(d, "alpha", n) && Has(d, "beta", n))
    requires order == FirstSeen(Pairs(d, n))
    requires forall k :: k in order ==> k in reduced && GroupOfFirstRow(d, names, Pairs(d, n), k, reduced[k])
    requires forall name :: name in names ==> name in out && |out[name]| == |order|
    requires forall name, j :: name in names && 0 <= j < |order| ==>
               name in reduced[order[j]] && reduced[order[j]][name].0 > 0 &&
               out[name][j] == reduced[order[j]][name].1 / reduced[order[j]][name].0 as real
    ensures ReportsFirstRows(d, names, n, out)
  {
    var ps := Pairs(d, n);
    forall name, j | name in names && 0 <= j < |order|
      ensures Has(d, name, FirstIndex(ps, order[j]) + 1) && out[name][j] == d[name][FirstIndex(ps, order[j])]
    {
      FirstRowValue(d, names, ps, order[j], reduced[order[j]], name);
    }
  }

  lemma FirstRowValue(d: map<string, seq<real>>, names: seq<string>, ps: seq<SetPoint>, k: SetPoint, e: Entry, name: string)
    requires GroupOfFirstRow(d, names, ps, k, e) && name in names
    ensures name in e && e[name].0 == 1 && Has(d, name, FirstIndex(ps, k) + 1)
    ensures e[name].1 / e[name].0 as real == d[name][FirstIndex(ps, k)]
  {
  }

  /** The groups after i rows when every row is counted. */
  ghost predicate MeanGroups(d: map<string, seq<real>>, names: seq<string>, i: nat,
                             order: seq<SetPoint>, reduced: map<SetPoint, Entry>)
    requires i == 0 || (Has(d, "alpha", i) && Has(d, "beta", i))
  {
    var ps := Pairs(d, i);
    order == FirstSeen(ps) &&
    (forall k :: k in reduced <==> k in order) &&
    (i > 0 ==> RowHasNames(d, names, i - 1)) &&
    (i > 0 ==> forall k :: k in reduced ==> MeanGroup(d, names, ps, k, reduced[k]))
  }

  /** A group's entry holds the count and the per-column sum of its rows. */
  ghost predicate MeanGroup(d: map<string, seq<real>>, names: seq<string>, ps: seq<SetPoint>,
                            k: SetPoint, e: Entry)
    requires |ps| > 0 && RowHasNames(d, names, |ps| - 1)
  {
    e.Keys == (set name | name in names) &&
    forall name :: name in names ==> name in e && e[name] == (CountOf(ps, k), SumOf(ps, d[name], k))
  }

  /** `count += 1` and `total += d[name][i]` for every named column. */
  method AccumulateRow(d: map<string, seq<real>>, names: seq<string>, i: nat, e: Entry) returns (r: Result<Entry, PyError>)
    requires Distinct(names)
    requires forall name :: name in names ==> name in e
    ensures r.Ok? <==> RowHasNames(d, names, i)
    ensures r.Ok? ==> r.value.Keys == e.Keys
    ensures r.Ok? ==> forall name :: name in names ==> r.value[name] == (e[name].0 + 1, e[name].1 + d[name][i])
  {
    var acc := e;
    var j := 0;
    while j < |names|
      invariant 0 <= j <= |names|
      invariant acc.Keys == e.Keys
      invariant forall name :: name in names[..j] ==> Has(d, name, i + 1)
      invariant forall name :: name in names && name !in names[..j] ==> acc[name] == e[name]
      invariant forall name :: name in names[..j] ==> acc[name] == (e[name].0 + 1, e[name].1 + d[name][i])
    {
      assert names[..j + 1] == names[..j] + [names[j]];
      assert names[j] !in names[..j];
      var v := At(d, names[j], i);
      if v.Err? {
        assert names[j] in names && !Has(d, names[j], i + 1);
        return Err(v.error);
      }
      acc := acc[names[j] := (acc[names[j]].0 + 1, acc[names[j]].1 + v.value)];
      j := j + 1;
    }
    assert names[..j] == names;
    return Ok(acc);
  }

  lemma CountSumSnoc(ps: seq<SetPoint>, x: SetPoint, col: seq<real>, k: SetPoint)
    requires |col| > |ps|
    ensures CountOf(ps + [x], k) == CountOf(ps, k) + (if x == k then 1 else 0)
    ensures SumOf(ps + [x], col, k) == SumOf(ps, col, k) + (if x == k then col[|ps|] else 0.0)
  {
    assert (ps + [x])[..|ps|] == ps;
  }

  /** The first half of the averaging `reduce_average` was evidently meant to be:
      every row adds to its group's count and total. */
  method GroupAllRows(d: map<string, seq<real>>, names: seq<string>, n: nat)
    returns (r: Result<(seq<SetPoint>, map<SetPoint, Entry>), PyError>)
    requires Distinct(names)
    ensures r.Ok? <==> (n == 0 || (Has(d, "alpha", n) && Has(d, "beta", n) && RowHasNames(d, names, n - 1)))
    ensures r.Ok? ==> (n == 0 || (Has(d, "alpha", n) && Has(d, "beta", n)))
    ensures r.Ok? ==> MeanGroups(d, names, n, r.value.0, r.value.1)
  {
    var order: seq<SetPoint> := [];
    var reduced: map<SetPoint, Entry> := map[];
    var i := 0;
    while i < n
      invariant 0 <= i <= n
      invariant i == 0 || (Has(d, "alpha", i) && Has(d, "beta", i))
      invariant MeanGroups(d, names, i, order, reduced)
    {
      var a := At(d, "alpha", i);
      var b := At(d, "beta", i);
      if a.Err? || b.Err? {
        return Err(if a.Err? then a.error else b.error);
      }
      var step := CountRow(d, names, i, order, reduced);
      if step.Err? {
        assert !RowHasNames(d, names, n - 1);
        return Err(step.error);
      }
      order, reduced := step.value.0, step.value.1;
      i := i + 1;
    }
    return Ok((order, reduced));
  }

  /** One row of the averaging loop: the row's named values are added to its
      group, which is opened with count 0 and total 0.0 when first seen. */
  method CountRow(d: map<string, seq<real>>, names: seq<string>, i: nat,
                  order: seq<SetPoint>, reduced: map<SetPoint, Entry>)
    returns (r: Result<(seq<SetPoint>, map<SetPoint, Entry>), PyError>)
    requires Distinct(names)
    requires Has(d, "alpha", i + 1) && Has(d, "beta", i + 1)
    requires MeanGroups(d, names, i, order, reduced)
    ensures r.Ok? <==> RowHasNames(d, names, i)
    ensures r.Ok? ==> MeanGroups(d, names, i + 1, r.value.0, r.value.1)
  {
    PairsSnoc(d, i);
    var k := (d["alpha"][i], d["beta"][i]);
    var e: Entry := if k in reduced then reduced[k] else map name | name in names :: (0, 0.0);
    var e' := AccumulateRow(d, names, i, e);
    if e'.Err? {
      return Err(e'.error);
    }
    var order' := if k in reduced then order else order + [k];
    var reduced' := reduced[k := e'.value];
    MeanStep(d, names, i, order, reduced, order', reduced');
    return Ok((order', reduced'));
  }

  lemma MeanStep(d: map<string, seq<real>>, names: seq<string>, i: nat,
                 order: seq<SetPoint>, reduced: map<SetPoint, Entry>,
                 order': seq<SetPoint>, reduced': map<SetPoint, Entry>)
    requires Has(d, "alpha", i + 1) && Has(d, "beta", i + 1) && RowHasNames(d, names, i)
    requires MeanGroups(d, names, i, order, reduced)
    requires var k := (d["alpha"][i], d["beta"][i]);
             order' == (if k in reduced then order else order + [k]) &&
             reduced'.Keys == reduced.Keys + {k} &&
             (forall x :: x in reduced && x != k ==> reduced'[x] == reduced[x]) &&
             reduced'[k].Keys == (set name | name in names) &&
             (forall name :: name in names ==>
                (name in reduced'[k] &&
                 reduced'[k][name].0 == (if k in reduced then reduced[k][name].0 else 0) + 1 &&
                 reduced'[k][name].1 == (if k in reduced then reduced[k][name].1 else 0.0) + d[name][i]))
    ensures MeanGroups(d, names, i + 1, order', reduced')
  {
    PairsSnoc(d, i);
    var ps, qs := Pairs(d, i), Pairs(d, i + 1);
    var k := (d["alpha"][i], d["beta"][i]);
    assert qs[..i] == ps;
    assert order' == FirstSeen(qs);
    forall x | x in reduced'
      ensures MeanGroup(d, names, qs, x, reduced'[x])
    {
      if x in reduced {
        assert MeanGroup(d, names, ps, x, reduced[x]);
      }
      MeanGroupStep(d, names, ps, k, x, if x in reduced then Some(reduced[x]) else None, reduced'[x]);
    }
  }

  /** One row's effect on one group's entry. */
  lemma MeanGroupStep(d: map<string, seq<real>>, names: seq<string>, ps: seq<SetPoint>, k: SetPoint,
                      x: SetPoint, e: Option<Entry>, e': Entry)
    requires RowHasNames(d, names, |ps|)
    requires e.Some? ==> |ps| > 0 && MeanGroup(d, names, ps, x, e.value)
    requires e.Some? ==> forall name :: name in names ==> name in e.value
    requires e.None? ==> x == k && x !in ps
    requires e.Some? && x != k ==> e' == e.value
    requires x == k ==>
               (e'.Keys == (set name | name in names) &&
                forall name :: name in names ==>
                  (name in e' &&
                   e'[name].0 == (if e.Some? then e.value[name].0 else 0) + 1 &&
                   e'[name].1 == (if e.Some? then e.value[name].1 else 0.0) + d[name][|ps|]))
    ensures MeanGroup(d, names, ps + [k], x, e')
  {
    forall name | name in names
      ensures CountOf(ps + [k], x) == CountOf(ps, x) + (if k == x then 1 else 0)
      ensures SumOf(ps + [k], d[name], x) == SumOf(ps, d[name], x) + (if k == x then d[name][|ps|] else 0.0)
    {
      CountSumSnoc(ps, k, d[name], x);
    }
  }

  /** When the averaging version runs through: every named column reaches every row. */
  ghost predicate MeanDefined(d: map<string, seq<real>>, names: seq<string>) {
    "seq" in d && "q" in d &&
    var n := |d["seq"]|;
    (n == 0 || (Has(d, "alpha", n) && Has(d, "beta", n) && RowHasNames(d, names, n - 1)))
  }

  /** `reduce_average` as evidently intended: each named column reports the mean of
      its group's rows. */
  method ReduceAverageMean(d: map<string, seq<real>>, names: seq<string>) returns (r: Result<map<string, seq<real>>, PyError>)
    requires ValidNames(names)
    ensures r.Ok? <==> MeanDefined(d, names)
    ensures r.Ok? ==> r.value.Keys == {"alpha", "beta", "q"} + set name | name in names
    ensures r.Ok? ==> r.value["q"] == d["q"]
    ensures r.Ok? ==> var g := FirstSeen(Pairs(d, |d["seq"]|));
              |r.value["alpha"]| == |r.value["beta"]| == |g| &&
              (forall j :: 0 <= j < |g| ==> r.value["alpha"][j] == g[j].0 && r.value["beta"][j] == g[j].1) &&
              (forall name :: name in names ==> |r.value[name]| == |g|)
    ensures r.Ok? ==> var ps := Pairs(d, |d["seq"]|); var g := FirstSeen(ps);
              forall name, j :: name in names && 0 <= j < |g| ==>
                (Has(d, name, |ps|) && r.value[name][j] == SumOf(ps, d[name], g[j]) / CountOf(ps, g[j]) as real)
  {
    if "seq" !in d {
      return Err(KeyError);
    }
    var n := |d["seq"]|;
    var groups := GroupAllRows(d, names, n);
    if groups.Err? {
      return Err(groups.error);
    }
    if "q" !in d {
      return Err(KeyError);
    }
    var (order, reduced) := groups.value;
    ghost var ps := Pairs(d, n);
    if n > 0 {
      assert forall k :: k in order ==> k in reduced && MeanGroup(d, names, ps, k, reduced[k]);
      assert forall k :: k in order ==> CountOf(ps, k) > 0;
    }
    var out := Emit(order, reduced, names, d["q"]);
    MeanOutput(d, names, ps, order, reduced, out);
    return Ok(out);
  }

  lemma MeanOutput(d: map<string, seq<real>>, names: seq<string>, ps: seq<SetPoint>,
                   order: seq<SetPoint>, reduced: map<SetPoint, Entry>, out: map<string, seq<real>>)
    requires order == FirstSeen(ps)
    requires |ps| > 0 ==>
               (RowHasNames(d, names, |ps| - 1) &&
                forall k :: k in order ==> k in reduced && MeanGroup(d, names, ps, k, reduced[k]))
    requires forall name :: name in names ==> name in out && |out[name]| == |order|
    requires forall name, j :: name in names && 0 <= j < |order| ==>
               name in reduced[order[j]] && reduced[order[j]][name].0 > 0 &&
               out[name][j] == reduced[order[j]][name].1 / reduced[order[j]][name].0 as real
    ensures forall name, j :: name in names && 0 <= j < |order| ==>
              (Has(d, name, |ps|) && out[name][j] == SumOf(ps, d[name], order[j]) / CountOf(ps, order[j]) as real)
  {
    forall name, j | name in names && 0 <= j < |order|
      ensures Has(d, name, |ps|) && out[name][j] == SumOf(ps, d[name], order[j]) / CountOf(ps, order[j]) as real
    {
      assert MeanGroup(d, names, ps, order[j], reduced[order[j]]);
    }
  }

  /** As written and as intended agree on a set point seen on one row only. */
  lemma {:induction false} SingleRowGroup(ps: seq<SetPoint>, col: seq<real>, k: SetPoint)
    requires |col| >= |ps| && CountOf(ps, k) == 1
    ensures SumOf(ps, col, k) == col[FirstIndex(ps, k)]
  {
    var init, x := ps[..|ps| - 1], ps[|ps| - 1];
    assert ps == init + [x];
    FirstIndexSnoc(init, x, k);
    if x != k {
      SingleRowGroup(init, col, k);
    }
  }

  /** Two rows at the same set point with dp0_q 1 and 3: as written the group
      reports 1, the mean is 2. */
  lemma ReduceAverageCounterexample()
    ensures var ps: seq<SetPoint> := [(0.0, 0.0), (0.0, 0.0)];
            var col := [1.0, 3.0];
            col[FirstIndex(ps, (0.0, 0.0))] == 1.0 &&
            SumOf(ps, col, (0.0, 0.0)) / CountOf(ps, (0.0, 0.0)) as real == 2.0
  {
    var ps: seq<SetPoint> := [(0.0, 0.0), (0.0, 0.0)];
    var col := [1.0, 3.0];
    assert ps[..1] == [(0.0, 0.0)];
    assert ps[..1][..0] == [];
    assert CountOf(ps, (0.0, 0.0)) == 2;
    assert SumOf(ps, col, (0.0, 0.0)) == 4.0;
  }
}
