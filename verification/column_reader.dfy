/** The `read` helper of the 2019 flight scripts: CSV rows become a dict of float
    columns; a row is skipped when a field fails to parse or when it has fewer
    fields than there are column names. Each field arrives already passed through
    Python's `float()`, with `None` where `float()` raises. */
module ColumnReader {
  import opened Common

  /** `strings_to_floats`: every field of the row parsed, or `None` when one of them
      raises (the caller's bare `except` then skips the row). */
  method StringsToFloats(row: seq<Option<real>>) returns (r: Option<seq<real>>)
    ensures r.Some? <==> forall i :: 0 <= i < |row| ==> row[i].Some?
    ensures r.Some? ==> |r.value| == |row| && forall i :: 0 <= i < |row| ==> r.value[i] == row[i].value
  {
    var acc: seq<real> := [];
    var k := 0;
    while k < |row|
      invariant 0 <= k <= |row|
      invariant forall i :: 0 <= i < k ==> row[i].Some?
      invariant |acc| == k && forall i :: 0 <= i < k ==> acc[i] == row[i].value
    {
      if row[k].None? {
        return None;
      }
      acc := acc + [row[k].value];
      k := k + 1;
    }
    return Some(acc);
  }

  /** The values of a row whose every field parses. */
  function Parsed(row: seq<Option<real>>): (r: seq<real>)
    requires forall i :: 0 <= i < |row| ==> row[i].Some?
    ensures |r| == |row| && forall i :: 0 <= i < |row| ==> r[i] == row[i].value
  {
    seq(|row|, i requires 0 <= i < |row| => row[i].value)
  }

  /** Whether `read` keeps a row: every field parses and there are at least `n`. */
  predicate Keeps(row: seq<Option<real>>, n: nat) {
    (forall i :: 0 <= i < |row| ==> row[i].Some?) && |row| >= n
  }

  /** The parsed rows `read` keeps from the first k rows, in input order. */
  function Accepted(rows: seq<seq<Option<real>>>, n: nat, k: nat): (acc: seq<seq<real>>)
    requires k <= |rows|
    ensures |acc| <= k
    ensures forall j :: 0 <= j < |acc| ==> |acc[j]| >= n
  {
    if k == 0 then []
    else
      var last := rows[k - 1];
      var init := Accepted(rows, n, k - 1);
      if Keeps(last, n)
      then init + [Parsed(last)]
      else init
  }

  /** What one kept row appends to the list stored under `c`: its field i for every
      position i whose column name is `c`, in order (twice when a name repeats). */
  function Gather(r: seq<real>, cols: seq<string>, c: string): seq<real>
    requires |r| >= |cols|
  {
    if cols == [] then []
    else Gather(r, cols[..|cols| - 1], c) + (if cols[|cols| - 1] == c then [r[|cols| - 1]] else [])
  }

  /** The list stored under `c` after the kept rows `rs`. */
  function ColumnOf(rs: seq<seq<real>>, cols: seq<string>, c: string): seq<real>
    requires forall k :: 0 <= k < |rs| ==> |rs[k]| >= |cols|
  {
    if rs == [] then []
    else ColumnOf(rs[..|rs| - 1], cols, c) + Gather(rs[|rs| - 1], cols, c)
  }

  /** `read(filehandle, cols)`. */
  method Read(rows: seq<seq<Option<real>>>, cols: seq<string>) returns (result: map<string, seq<real>>)
    ensures result.Keys == set c | c in cols
    ensures forall c :: c in result ==> result[c] == ColumnOf(Accepted(rows, |cols|, |rows|), cols, c)
  {
    result := EmptyColumns(cols);
    var k := 0;
    while k < |rows|
      invariant 0 <= k <= |rows|
      invariant result.Keys == set c | c in cols
      invariant forall c :: c in result ==> result[c] == ColumnOf(Accepted(rows, |cols|, k), cols, c)
    {
      var parsed := StringsToFloats(rows[k]);
      ghost var old_result := result;
      if parsed.Some? && |parsed.value| >= |cols| {
        assert parsed.value == Parsed(rows[k]);
        result := AppendRow(result, cols, parsed.value);
      }
      ReadStep(rows, cols, k, old_result, result);
      k := k + 1;
    }
  }

  /** The first loop of `read`: an empty list under every column name. */
  method EmptyColumns(cols: seq<string>) returns (result: map<string, seq<real>>)
    ensures result.Keys == set c | c in cols
    ensures forall c :: c in result ==> result[c] == []
  {
    result := map[];
    var j := 0;
    while j < |cols|
      invariant 0 <= j <= |cols|
      invariant result.Keys == set c | c in cols[..j]
      invariant forall c :: c in result ==> result[c] == []
    {
      assert cols[..j + 1] == cols[..j] + [cols[j]];
      result := result[cols[j] := []];
      j := j + 1;
    }
    assert cols[..j] == cols;
  }

  /** The inner loop of `read`: field i of a kept row is appended to the list of
      column cols[i]. */
  method AppendRow(result: map<string, seq<real>>, cols: seq<string>, r: seq<real>)
    returns (res: map<string, seq<real>>)
    requires |r| >= |cols|
    requires result.Keys == set c | c in cols
    ensures res.Keys == result.Keys
    ensures forall c :: c in res ==> res[c] == result[c] + Gather(r, cols, c)
  {
    res := result;
    var i := 0;
    while i < |cols|
      invariant 0 <= i <= |cols|
      invariant res.Keys == result.Keys
      invariant forall c :: c in res ==> res[c] == result[c] + Gather(r, cols[..i], c)
    {
      assert cols[..i + 1][..i] == cols[..i];
      res := res[cols[i] := res[cols[i]] + [r[i]]];
      i := i + 1;
    }
    assert cols[..i] == cols;
  }

  lemma ColumnOfSnoc(rs: seq<seq<real>>, row: seq<real>, cols: seq<string>)
    requires forall k :: 0 <= k < |rs| ==> |rs[k]| >= |cols|
    requires |row| >= |cols|
    ensures forall c :: ColumnOf(rs + [row], cols, c) == ColumnOf(rs, cols, c) + Gather(row, cols, c)
  {
    assert (rs + [row])[..|rs|] == rs;
  }

  /** With distinct column names a kept row contributes exactly its own field. */
  lemma {:induction false} GatherDistinct(r: seq<real>, cols: seq<string>, i: nat)
    requires |r| >= |cols| && Distinct(cols) && i < |cols|
    ensures Gather(r, cols, cols[i]) == [r[i]]
  {
    var p := cols[..|cols| - 1];
    assert Distinct(p);
    if i < |cols| - 1 {
      assert p[i] == cols[i];
      GatherDistinct(r, p, i);
    } else {
      GatherAbsent(r, p, cols[i]);
    }
  }

  lemma {:induction false} GatherAbsent(r: seq<real>, cols: seq<string>, c: string)
    requires |r| >= |cols| && c !in cols
    ensures Gather(r, cols, c) == []
  {
    if cols != [] {
      GatherAbsent(r, cols[..|cols| - 1], c);
    }
  }

  /** Read's guarantee for the scripts' distinct column names: the column named
      cols[i] holds field i of every kept row, in order, so all columns have the
      length of the kept rows. */
  lemma {:induction false} ColumnOfDistinct(rs: seq<seq<real>>, cols: seq<string>, i: nat)
    requires forall k :: 0 <= k < |rs| ==> |rs[k]| >= |cols|
    requires Distinct(cols) && i < |cols|
    ensures |ColumnOf(rs, cols, cols[i])| == |rs|
    ensures forall k :: 0 <= k < |rs| ==> ColumnOf(rs, cols, cols[i])[k] == rs[k][i]
  {
    if rs != [] {
      ColumnOfDistinct(rs[..|rs| - 1], cols, i);
      GatherDistinct(rs[|rs| - 1], cols, i);
    }
  }

  /** One pass of `read`'s row loop keeps the dict equal to the columns of the rows
      accepted so far: a kept row appends its fields, any other row changes nothing. */
  lemma ReadStep(rows: seq<seq<Option<real>>>, cols: seq<string>, k: nat,
                 before: map<string, seq<real>>, after: map<string, seq<real>>)
    requires k < |rows|
    requires forall c :: c in before ==> before[c] == ColumnOf(Accepted(rows, |cols|, k), cols, c)
    requires Keeps(rows[k], |cols|) ==>
               after.Keys == before.Keys &&
               forall c :: c in after ==> after[c] == before[c] + Gather(Parsed(rows[k]), cols, c)
    requires !Keeps(rows[k], |cols|) ==> after == before
    ensures forall c :: c in after ==> after[c] == ColumnOf(Accepted(rows, |cols|, k + 1), cols, c)
  {
    if Keeps(rows[k], |cols|) {
      ColumnOfSnoc(Accepted(rows, |cols|, k), Parsed(rows[k]), cols);
    }
  }
}
