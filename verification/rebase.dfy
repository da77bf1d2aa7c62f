/** `minimize_dataset_times` of the 2019 flight scripts: every dataset's time column
    is rebased by the smallest time over all of them. The 2019-06-01 and
    2019-12-31 versions rebind `dataset['time']` to a new list; the 2019-04-28
    version overwrites the elements of the existing time lists. A dataset that
    occurs twice in the list is rebased twice, in both versions. */
module Rebase {
  import opened Common
  import opened Tables

  /** A dataset's time column as the first loop sees it: `None` when the key is missing. */
  function TimeOf(columns: map<string, seq<real>>): Option<seq<real>> {
    if "time" in columns then Some(columns["time"]) else None
  }

  predicate Usable(t: Option<seq<real>>) {
    t.Some? && |t.value| > 0
  }

  /** Everything `minimize_dataset_times` can raise before it changes anything, or
      the global minimum it subtracts. `min` of an empty list raises ValueError and a
      missing key KeyError; the first unusable dataset in list order decides which. */
  function GlobalMin(times: seq<Option<seq<real>>>): Result<real, PyError> {
    if |times| == 0 then Err(ValueError)
    else if times[0].None? then Err(KeyError)
    else if |times[0].value| == 0 then Err(ValueError)
    else if |times| == 1 then Ok(Min(times[0].value))
    else
      var rest := GlobalMin(times[1..]);
      if rest.Err? then Err(rest.error)
      else
        var m0 := Min(times[0].value);
        Ok(if m0 <= rest.value then m0 else rest.value)
  }

  /** GlobalMin fails exactly when the list is empty or some dataset is unusable,
      with the error of the first unusable one; otherwise it is a time no larger
      than any other, and one that occurs in some dataset. */
  lemma {:induction false} GlobalMinSpec(times: seq<Option<seq<real>>>)
    ensures var r := GlobalMin(times);
            r.Err? <==> |times| == 0 || exists i :: 0 <= i < |times| && !Usable(times[i])
    ensures |times| == 0 ==> GlobalMin(times) == Err(ValueError)
    ensures var r := GlobalMin(times);
            r.Err? && |times| > 0 ==>
              exists i :: 0 <= i < |times| && !Usable(times[i]) && (forall j :: 0 <= j < i ==> Usable(times[j]))
                          && r.error == if times[i].None? then KeyError else ValueError
    ensures var r := GlobalMin(times);
            r.Ok? ==> forall i, k :: 0 <= i < |times| && 0 <= k < |times[i].value| ==> r.value <= times[i].value[k]
    ensures var r := GlobalMin(times);
            r.Ok? ==> exists i, k :: 0 <= i < |times| && 0 <= k < |times[i].value| && r.value == times[i].value[k]
  {
    if |times| > 1 && Usable(times[0]) {
      GlobalMinSpec(times[1..]);
      assert forall i :: 1 <= i < |times| ==> times[i] == times[1..][i - 1];
      var rest := GlobalMin(times[1..]);
      if rest.Err? {
        var i :| 0 <= i < |times| - 1 && !Usable(times[1..][i]) && (forall j :: 0 <= j < i ==> Usable(times[1..][j]))
                 && rest.error == if times[1..][i].None? then KeyError else ValueError;
        assert !Usable(times[i + 1]);
      } else {
        var m0 := Min(times[0].value);
        var k0 :| 0 <= k0 < |times[0].value| && times[0].value[k0] == m0;
        var i, k :| 0 <= i < |times| - 1 && 0 <= k < |times[1..][i].value| && rest.value == times[1..][i].value[k];
        assert rest.value == times[i + 1].value[k];
      }
    } else if |times| == 1 && Usable(times[0]) {
      var m0 := Min(times[0].value);
      var k0 :| 0 <= k0 < |times[0].value| && times[0].value[k0] == m0;
    }
  }

  /** The first loop and `min(min_times)` of `minimize_dataset_times`. */
  method MinTimes(times: seq<Option<seq<real>>>) returns (r: Result<real, PyError>)
    ensures r == GlobalMin(times)
  {
    var mins: seq<real> := [];
    var i := 0;
    while i < |times|
      invariant 0 <= i <= |times|
      invariant forall j :: 0 <= j < i ==> Usable(times[j])
      invariant |mins| == i
      invariant forall j :: 0 <= j < i ==> mins[j] == Min(times[j].value)
    {
      if times[i].None? {
        FirstUnusable(times, i);
        return Err(KeyError);
      }
      if |times[i].value| == 0 {
        FirstUnusable(times, i);
        return Err(ValueError);
      }
      mins := mins + [Min(times[i].value)];
      i := i + 1;
    }
    if |mins| == 0 {
      GlobalMinSpec(times);
      return Err(ValueError);
    }
    MinIsGlobal(times, mins);
    return Ok(Min(mins));
  }

  /** With every dataset usable, the global minimum is the minimum of the
      per-dataset minima that the first loop collects. */
  lemma {:induction false} MinIsGlobal(times: seq<Option<seq<real>>>, mins: seq<real>)
    requires |times| == |mins| > 0
    requires forall j :: 0 <= j < |times| ==> Usable(times[j]) && mins[j] == Min(times[j].value)
    ensures GlobalMin(times) == Ok(Min(mins))
  {
    if |times| > 1 {
      MinIsGlobal(times[1..], mins[1..]);
    }
  }

  /** The error GlobalMin reports is that of the first unusable dataset. */
  lemma FirstUnusable(times: seq<Option<seq<real>>>, i: nat)
    requires i < |times| && !Usable(times[i]) && forall j :: 0 <= j < i ==> Usable(times[j])
    ensures GlobalMin(times) == Err(if times[i].None? then KeyError else ValueError)
  {
    GlobalMinSpec(times);
    var g := GlobalMin(times);
    var i' :| 0 <= i' < |times| && !Usable(times[i']) && (forall j :: 0 <= j < i' ==> Usable(times[j]))
              && g.error == if times[i'].None? then KeyError else ValueError;
    assert i' == i;
  }

  /** The datasets' columns, in list order. */
  function ColumnsOf(ds: seq<Table>): (cs: seq<map<string, seq<real>>>)
    reads set d | d in ds
    ensures |cs| == |ds|
  {
    seq(|ds|, i requires 0 <= i < |ds| reads set d | d in ds => ds[i].columns)
  }

  function TimesOf(cs: seq<map<string, seq<real>>>): (ts: seq<Option<seq<real>>>)
    ensures |ts| == |cs| && forall i :: 0 <= i < |cs| ==> ts[i] == TimeOf(cs[i])
  {
    seq(|cs|, i requires 0 <= i < |cs| => TimeOf(cs[i]))
  }

  /** A time column rebased by m, c times over. */
  function ShiftTimes(s: seq<real>, c: nat, m: real): (r: seq<real>)
    ensures |r| == |s|
  {
    if c == 0 then s else Shift(ShiftTimes(s, c - 1, m), m)
  }

  /** The state after rebasing: a dataset that occurs c times among the first
      `prefix` entries has had its time column rebased c times, and nothing else
      changes. */
  ghost predicate RebasedBy(ds: seq<Table>, prefix: nat, was: map<Table, map<string, seq<real>>>, m: real)
    requires prefix <= |ds|
    reads set d | d in ds
  {
    forall d: Table :: d in ds ==>
      d in was && "time" in was[d] &&
      d.columns == was[d]["time" := ShiftTimes(was[d]["time"], Count(ds, prefix, d), m)]
  }

  /** How often x occurs among the first k entries of s. */
  function Count<T(==)>(s: seq<T>, k: nat, x: T): (c: nat)
    requires k <= |s|
    ensures c <= k
  {
    if k == 0 then 0 else Count(s, k - 1, x) + (if s[k - 1] == x then 1 else 0)
  }

  /** Count is the multiplicity in the multiset of the first k entries. */
  lemma {:induction false} CountIsMultiplicity<T>(s: seq<T>, k: nat, x: T)
    requires k <= |s|
    ensures Count(s, k, x) == multiset(s[..k])[x]
  {
    if k > 0 {
      CountIsMultiplicity(s, k - 1, x);
      assert s[..k] == s[..k - 1] + [s[k - 1]];
    }
  }

  /** `minimize_dataset_times(datasets)` as in 2019-06-01 and 2019-12-31. On an error
      nothing has been changed yet. */
  method MinimizeDatasetTimes(datasets: seq<Table>) returns (err: Option<PyError>)
    modifies set d | d in datasets
    ensures var r := GlobalMin(TimesOf(old(ColumnsOf(datasets))));
            (err.Some? <==> r.Err?) && (err.Some? ==> err.value == r.error)
    ensures err.Some? ==> forall d :: d in datasets ==> d.columns == old(d.columns)
    ensures err.None? ==>
              RebasedBy(datasets, |datasets|, old(map d | d in datasets :: d.columns),
                        GlobalMin(TimesOf(old(ColumnsOf(datasets)))).value)
  {
    ghost var was := map d | d in datasets :: d.columns;
    var r := MinTimes(TimesOf(ColumnsOf(datasets)));
    if r.Err? {
      return Some(r.error);
    }
    var m := r.value;
    forall d | d in datasets
      ensures "time" in was[d] && d.columns == was[d]["time" := ShiftTimes(was[d]["time"], Count(datasets, 0, d), m)]
    {
      var i :| 0 <= i < |datasets| && datasets[i] == d;
      GlobalMinSpec(TimesOf(ColumnsOf(datasets)));
      assert Usable(TimesOf(ColumnsOf(datasets))[i]);
    }
    SubtractFromEach(datasets, m, was);
    return None;
  }

  /** The second loop: rebind every listed dataset's time column to its values minus m. */
  method SubtractFromEach(datasets: seq<Table>, m: real, ghost was: map<Table, map<string, seq<real>>>)
    requires RebasedBy(datasets, 0, was, m)
    modifies set d | d in datasets
    ensures RebasedBy(datasets, |datasets|, was, m)
  {
    var i := 0;
    while i < |datasets|
      invariant 0 <= i <= |datasets|
      invariant RebasedBy(datasets, i, was, m)
    {
      var d := datasets[i];
      assert d in datasets;
      d.columns := d.columns["time" := Shift(d.columns["time"], m)];
      forall e: Table | e in datasets
        ensures e in was && "time" in was[e]
        ensures e.columns == was[e]["time" := ShiftTimes(was[e]["time"], Count(datasets, i + 1, e), m)]
      {
      }
      i := i + 1;
    }
  }

  /** c * m as repeated addition. */
  function Times(c: nat, m: real): (r: real)
    ensures r == c as real * m
  {
    if c == 0 then 0.0 else Times(c - 1, m) + m
  }

  /** Rebasing c times by m is one rebase by c * m. */
  lemma {:induction false} ShiftTimesIsShift(s: seq<real>, c: nat, m: real)
    ensures ShiftTimes(s, c, m) == Shift(s, Times(c, m))
  {
    if c > 0 {
      ShiftTimesIsShift(s, c - 1, m);
      ShiftTwice(s, Times(c - 1, m), m);
    } else {
      ShiftZero(s);
    }
  }

  /** Every column rebased by the same amount. */
  function ShiftEach(times: seq<Option<seq<real>>>, m: real): (r: seq<Option<seq<real>>>)
    requires forall i :: 0 <= i < |times| ==> times[i].Some?
    ensures |r| == |times|
  {
    seq(|times|, i requires 0 <= i < |times| => Some(Shift(times[i].value, m)))
  }

  /** A global minimum exists only when every dataset is usable. */
  lemma {:induction false} GlobalMinOkUsable(times: seq<Option<seq<real>>>)
    requires GlobalMin(times).Ok?
    ensures |times| > 0 && forall i :: 0 <= i < |times| ==> Usable(times[i])
  {
    if |times| > 1 {
      GlobalMinOkUsable(times[1..]);
      assert forall i :: 1 <= i < |times| ==> times[i] == times[1..][i - 1];
    }
  }

  /** The global minimum is no larger than any time. */
  lemma {:induction false} GlobalMinLower(times: seq<Option<seq<real>>>)
    requires GlobalMin(times).Ok?
    ensures forall i, k :: 0 <= i < |times| && times[i].Some? && 0 <= k < |times[i].value| ==>
              GlobalMin(times).value <= times[i].value[k]
  {
    if |times| > 1 {
      GlobalMinLower(times[1..]);
      assert forall i :: 1 <= i < |times| ==> times[i] == times[1..][i - 1];
    }
  }

  /** Rebasing a list moves its minimum by the same amount. */
  lemma {:induction false} MinShift(s: seq<real>, m: real)
    requires |s| > 0
    ensures Min(Shift(s, m)) == Min(s) - m
  {
    if |s| > 1 {
      MinShift(s[1..], m);
      assert Shift(s, m)[1..] == Shift(s[1..], m);
    }
  }

  /** Rebasing every dataset moves the global minimum by the same amount. */
  lemma {:induction false} GlobalMinShift(times: seq<Option<seq<real>>>, m: real)
    requires GlobalMin(times).Ok?
    ensures forall i :: 0 <= i < |times| ==> times[i].Some?
    ensures GlobalMin(ShiftEach(times, m)) == Ok(GlobalMin(times).value - m)
  {
    GlobalMinOkUsable(times);
    var after := ShiftEach(times, m);
    MinShift(times[0].value, m);
    assert after[0] == Some(Shift(times[0].value, m));
    if |times| > 1 {
      GlobalMinShift(times[1..], m);
      assert after[1..] == ShiftEach(times[1..], m);
    }
  }

  /** Rebasing every dataset once by the global minimum makes the new global
      minimum 0 and every time non-negative. */
  lemma RebaseByGlobalMin(times: seq<Option<seq<real>>>)
    requires GlobalMin(times).Ok?
    ensures forall i :: 0 <= i < |times| ==> times[i].Some?
    ensures var after := ShiftEach(times, GlobalMin(times).value);
            GlobalMin(after) == Ok(0.0) &&
            forall i, k :: 0 <= i < |after| && 0 <= k < |after[i].value| ==> after[i].value[k] >= 0.0
  {
    var m := GlobalMin(times).value;
    GlobalMinShift(times, m);
    GlobalMinLower(times);
    ShiftEachAt(times, m);
  }

  /** An entry that occurs once among the first k is counted once. */
  lemma {:induction false} CountDistinct<T>(s: seq<T>, k: nat, i: nat)
    requires i < k <= |s|
    requires forall a, b :: 0 <= a < b < k ==> s[a] != s[b]
    ensures Count(s, k, s[i]) == 1
  {
    if i < k - 1 {
      CountDistinct(s, k - 1, i);
    } else {
      CountAbsent(s, k - 1, s[i]);
    }
  }

  lemma {:induction false} CountAbsent<T>(s: seq<T>, k: nat, x: T)
    requires k <= |s|
    requires forall a :: 0 <= a < k ==> s[a] != x
    ensures Count(s, k, x) == 0
  {
    if k > 0 {
      CountAbsent(s, k - 1, x);
    }
  }

  /** The end state of MinimizeDatasetTimes on a list that names each dataset once:
      the new global minimum is 0 and every time is non-negative. `before` is the
      datasets' columns before the call. */
  lemma MinimizedOnceStartsAtZero(datasets: seq<Table>, was: map<Table, map<string, seq<real>>>,
                                  before: seq<map<string, seq<real>>>)
    requires |before| == |datasets|
    requires forall i :: 0 <= i < |datasets| ==> datasets[i] in was && was[datasets[i]] == before[i]
    requires forall i, j :: 0 <= i < j < |datasets| ==> datasets[i] != datasets[j]
    requires GlobalMin(TimesOf(before)).Ok?
    requires RebasedBy(datasets, |datasets|, was, GlobalMin(TimesOf(before)).value)
    ensures var after := TimesOf(ColumnsOf(datasets));
            GlobalMin(after) == Ok(0.0) &&
            forall i, k :: 0 <= i < |after| && after[i].Some? && 0 <= k < |after[i].value| ==> after[i].value[k] >= 0.0
  {
    RebaseByGlobalMin(TimesOf(before));
    RebasedOnceIsShiftEach(datasets, was, before, GlobalMin(TimesOf(before)).value);
  }

  /** Rebasing each dataset once gives the time columns ShiftEach describes. */
  lemma RebasedOnceIsShiftEach(datasets: seq<Table>, was: map<Table, map<string, seq<real>>>,
                               before: seq<map<string, seq<real>>>, m: real)
    requires |before| == |datasets|
    requires forall i :: 0 <= i < |datasets| ==> datasets[i] in was && was[datasets[i]] == before[i]
    requires forall i, j :: 0 <= i < j < |datasets| ==> datasets[i] != datasets[j]
    requires RebasedBy(datasets, |datasets|, was, m)
    ensures forall i :: 0 <= i < |before| ==> TimesOf(before)[i].Some?
    ensures TimesOf(ColumnsOf(datasets)) == ShiftEach(TimesOf(before), m)
  {
    var times := TimesOf(before);
    var after := TimesOf(ColumnsOf(datasets));
    forall i | 0 <= i < |datasets|
      ensures times[i].Some? && after[i] == Some(Shift(times[i].value, m))
    {
      var d := datasets[i];
      assert d in datasets;
      CountDistinct(datasets, |datasets|, i);
      RebasedOnce(d, was[d], m);
    }
  }

  lemma RebasedOnce(d: Table, cols: map<string, seq<real>>, m: real)
    requires "time" in cols && d.columns == cols["time" := ShiftTimes(cols["time"], 1, m)]
    ensures TimeOf(cols) == Some(cols["time"]) && TimeOf(d.columns) == Some(Shift(cols["time"], m))
  {
    ShiftTimesIsShift(cols["time"], 1, m);
  }

  /** A common rebase keeps the differences between times, within a dataset and
      across datasets. */
  lemma RebaseKeepsDifferences(times: seq<Option<seq<real>>>, m: real)
    requires forall i :: 0 <= i < |times| ==> times[i].Some?
    ensures var after := ShiftEach(times, m);
            forall i, k, j, l :: 0 <= i < |after| && 0 <= k < |after[i].value| && 0 <= j < |after| && 0 <= l < |after[j].value|
              ==> after[i].value[k] - after[j].value[l] == times[i].value[k] - times[j].value[l]
  {
    ShiftEachAt(times, m);
  }

  lemma ShiftEachAt(times: seq<Option<seq<real>>>, m: real)
    requires forall i :: 0 <= i < |times| ==> times[i].Some?
    ensures forall i :: 0 <= i < |times| ==>
              ShiftEach(times, m)[i].Some? && |ShiftEach(times, m)[i].value| == |times[i].value|
    ensures forall i, k :: 0 <= i < |times| && 0 <= k < |times[i].value| ==>
              ShiftEach(times, m)[i].value[k] == times[i].value[k] - m
    ensures forall i :: 0 <= i < |times| && Usable(times[i]) ==> Usable(ShiftEach(times, m)[i])
  {
  }

  /** The 2019-04-28 inner loop: `time_col[i] = time_col[i] - min_time` over the list. */
  method SubtractInPlace(a: array<real>, m: real)
    modifies a
    ensures a[..] == Shift(old(a[..]), m)
  {
    var j := 0;
    while j < a.Length
      invariant 0 <= j <= a.Length
      invariant forall k :: 0 <= k < j ==> a[k] == old(a[k]) - m
      invariant forall k :: j <= k < a.Length ==> a[k] == old(a[k])
    {
      a[j] := a[j] - m;
      j := j + 1;
    }
  }

  /** `minimize_dataset_times(datasets)` as in 2019-04-28, on the datasets' time lists
      (the `dataset['time']` lookup is the one of the other version): the lists are
      overwritten element by element, so a list shared by two entries is rebased
      twice. */
  method MinimizeTimeListsInPlace(times: seq<array<real>>) returns (err: Option<PyError>)
    modifies set a | a in times
    ensures var r := GlobalMin(old(ListsOf(times)));
            (err.Some? <==> r.Err?) && (err.Some? ==> err.value == r.error)
    ensures err.Some? ==> forall a :: a in times ==> a[..] == old(a[..])
    ensures err.None? ==>
              forall a :: a in times ==>
                a[..] == ShiftTimes(old(a[..]), Count(times, |times|, a), GlobalMin(old(ListsOf(times))).value)
  {
    ghost var was := map a | a in times :: a[..];
    var r := MinTimes(ListsOf(times));
    if r.Err? {
      return Some(r.error);
    }
    SubtractFromLists(times, r.value, was);
    return None;
  }

  /** The second loop of the 2019-04-28 version, over the lists. */
  method SubtractFromLists(times: seq<array<real>>, m: real, ghost was: map<array<real>, seq<real>>)
    requires forall a :: a in times ==> a in was && a[..] == was[a]
    modifies set a | a in times
    ensures forall a :: a in times ==> a[..] == ShiftTimes(was[a], Count(times, |times|, a), m)
  {
    var i := 0;
    while i < |times|
      invariant 0 <= i <= |times|
      invariant forall a :: a in times ==> a[..] == ShiftTimes(was[a], Count(times, i, a), m)
    {
      SubtractInPlace(times[i], m);
      i := i + 1;
    }
  }

  /** The time lists as the first loop sees them. */
  function ListsOf(times: seq<array<real>>): (r: seq<Option<seq<real>>>)
    reads set a | a in times
    ensures |r| == |times|
  {
    seq(|times|, i requires 0 <= i < |times| reads set a | a in times => Some(times[i][..]))
  }

}
