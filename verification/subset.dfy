/** `subset_ivar` / `subset_by_independent_variable` of the 2019 flight scripts: the
    rows whose independent variable lies in [start, end], found with `bisect` on
    that (ascending) column and sliced out of every column. */
module Subset {
  import opened Common

  /** Python's `bisect.bisect_left(a, x, lo, hi)` loop, written recursively. */
  function BisectLeftFrom(a: seq<real>, x: real, lo: nat, hi: nat): (r: nat)
    requires lo <= hi <= |a|
    requires lo > 0 ==> a[lo - 1] < x
    requires hi < |a| ==> a[hi] >= x
    ensures lo <= r <= hi
    ensures r > 0 ==> a[r - 1] < x
    ensures r < |a| ==> a[r] >= x
    decreases hi - lo
  {
    if lo >= hi then lo
    else
      var mid := (lo + hi) / 2;
      if a[mid] < x then BisectLeftFrom(a, x, mid + 1, hi) else BisectLeftFrom(a, x, lo, mid)
  }

  /** Python's `bisect.bisect_right(a, x, lo, hi)` loop, written recursively. */
  function BisectRightFrom(a: seq<real>, x: real, lo: nat, hi: nat): (r: nat)
    requires lo <= hi <= |a|
    requires lo > 0 ==> a[lo - 1] <= x
    requires hi < |a| ==> a[hi] > x
    ensures lo <= r <= hi
    ensures r > 0 ==> a[r - 1] <= x
    ensures r < |a| ==> a[r] > x
    decreases hi - lo
  {
    if lo >= hi then lo
    else
      var mid := (lo + hi) / 2;
      if x < a[mid] then BisectRightFrom(a, x, lo, mid) else BisectRightFrom(a, x, mid + 1, hi)
  }

  function BisectLeft(a: seq<real>, x: real): (r: nat)
    ensures r <= |a|
  {
    BisectLeftFrom(a, x, 0, |a|)
  }

  function BisectRight(a: seq<real>, x: real): (r: nat)
    ensures r <= |a|
  {
    BisectRightFrom(a, x, 0, |a|)
  }

  /** On an ascending list, bisect_left splits it into the entries below x and the
      rest; bisect_right into the entries up to x and those above. */
  lemma BisectPartition(a: seq<real>, x: real)
    requires Sorted(a)
    ensures forall k :: 0 <= k < |a| ==> (k < BisectLeft(a, x) <==> a[k] < x)
    ensures forall k :: 0 <= k < |a| ==> (k < BisectRight(a, x) <==> a[k] <= x)
  {
    var l, r := BisectLeft(a, x), BisectRight(a, x);
    assert l > 0 ==> a[l - 1] < x;
    assert l < |a| ==> a[l] >= x;
    assert r > 0 ==> a[r - 1] <= x;
    assert r < |a| ==> a[r] > x;
  }

  /** `subset_by_independent_variable(dataset, ivar, start, end)`. `min` on the
      column raises KeyError when it is missing and ValueError when it is empty;
      otherwise every column is cut with the same Python slice [istart:iend]. */
  function SubsetByIndependentVariable(d: map<string, seq<real>>, ivar: string, start: real, end: real)
    : (r: Result<map<string, seq<real>>, PyError>)
    ensures r.Err? <==> ivar !in d || |d[ivar]| == 0
    ensures r.Err? ==> r.error == if ivar !in d then KeyError else ValueError
    ensures r.Ok? ==> r.value.Keys == d.Keys
  {
    if ivar !in d then Err(KeyError)
    else if |d[ivar]| == 0 then Err(ValueError)
    else
      var t := d[ivar];
      var istart, iend := BisectLeft(t, start), BisectRight(t, end);
      Ok(map col | col in d :: PySlice(d[col], istart, iend))
  }

  /** On an ascending independent variable the subset keeps exactly the entries in
      [start, end], as one contiguous run, and cuts every other column at the same
      rows. */
  lemma SubsetKeepsWindow(d: map<string, seq<real>>, ivar: string, start: real, end: real)
    requires ivar in d && |d[ivar]| > 0 && Sorted(d[ivar])
    ensures var t := d[ivar];
            var a, b := BisectLeft(t, start), BisectRight(t, end);
            var r := SubsetByIndependentVariable(d, ivar, start, end);
            r.Ok?
            && (forall k :: 0 <= k < |t| ==> (a <= k < b <==> start <= t[k] <= end))
            && r.value[ivar] == (if a <= b then t[a..b] else [])
            && (forall col :: col in d && |d[col]| == |t| ==> r.value[col] == (if a <= b then d[col][a..b] else []))
  {
    BisectPartition(d[ivar], start);
    BisectPartition(d[ivar], end);
  }

  /** Slices of an ascending column are ascending. */
  lemma SliceSorted(t: seq<real>, a: nat, b: nat)
    requires a <= b <= |t| && Sorted(t)
    ensures Sorted(t[a..b])
  {
  }

  /** The 2019-12-31 sequence: subsetting an ascending time column and then rebasing
      the subset by its own minimum puts the first kept sample at time 0, with all
      kept times non-negative. */
  lemma SubsetThenRebase(d: map<string, seq<real>>, start: real, end: real)
    requires "time" in d && |d["time"]| > 0 && Sorted(d["time"])
    requires var s := SubsetByIndependentVariable(d, "time", start, end); s.Ok? && |s.value["time"]| > 0
    ensures var s := SubsetByIndependentVariable(d, "time", start, end).value["time"];
            Shift(s, Min(s))[0] == 0.0 && forall i :: 0 <= i < |s| ==> Shift(s, Min(s))[i] >= 0.0
  {
    var t := d["time"];
    SubsetKeepsWindow(d, "time", start, end);
    var a, b := BisectLeft(t, start), BisectRight(t, end);
    var s := SubsetByIndependentVariable(d, "time", start, end).value["time"];
    assert a <= b;
    SliceSorted(t, a, b);
    MinOfSorted(s);
    ShiftByMin(s);
  }
}
