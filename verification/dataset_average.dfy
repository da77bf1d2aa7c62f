/** `movingaverage_dataset` of the 2019-06-01 and 2019-12-31 scripts: every non-time
    column is replaced by its moving average, and the time column is trimmed using
    the length of the first averaged column's INPUT. Python 2 dict iteration order
    is not specified; it is a parameter `keys`, an enumeration of the dict's keys. */
module DatasetAverage {
  import opened Common
  import opened Series

  /** Whether `keys` is an iteration order of the dict `d`. */
  ghost predicate IterationOrder(d: map<string, seq<real>>, keys: seq<string>) {
    Distinct(keys) && forall k :: k in d <==> k in keys
  }

  /** The value `firstvar` holds after the loop: the first key in iteration order that
      is neither 'time' nor the empty string (a key '' leaves the sentinel in place),
      or '' when there is none. */
  function FirstVar(keys: seq<string>): (f: string)
    ensures f == "" || (f in keys && f != "time")
  {
    if keys == [] then ""
    else if keys[0] != "time" && keys[0] != "" then keys[0]
    else FirstVar(keys[1..])
  }

  /** How the loop's sentinel update extends FirstVar by one key. */
  lemma {:induction false} FirstVarSnoc(p: seq<string>, k: string)
    ensures FirstVar(p + [k]) == if FirstVar(p) != "" then FirstVar(p) else if k != "time" then k else ""
  {
    if p == [] {
      assert [k][1..] == [];
    } else {
      assert (p + [k])[1..] == p[1..] + [k];
      FirstVarSnoc(p[1..], k);
    }
  }

  /** The sentinel after i + 1 keys, from the sentinel after i. */
  lemma FirstVarPrefix(keys: seq<string>, i: nat)
    requires i < |keys|
    ensures FirstVar(keys[..i + 1]) ==
            if FirstVar(keys[..i]) != "" then FirstVar(keys[..i]) else if keys[i] != "time" then keys[i] else ""
  {
    assert keys[..i + 1] == keys[..i] + [keys[i]];
    FirstVarSnoc(keys[..i], keys[i]);
  }

  /** Some column other than 'time' that numpy refuses to average. */
  ghost predicate HasBadColumn(d: map<string, seq<real>>, window: int) {
    exists k :: k in d && k != "time" && (window <= 0 || |d[k]| == 0)
  }

  /** The loop of `movingaverage_dataset`: averages every non-time column in
      iteration order, tracking the `firstvar` sentinel; the first failing
      `movingaverage` raises. */
  method AverageColumns(d: map<string, seq<real>>, keys: seq<string>, window: int)
    returns (r: Result<(map<string, seq<real>>, string), PyError>)
    requires IterationOrder(d, keys)
    ensures r.Err? <==> HasBadColumn(d, window)
    ensures r.Err? ==> r.error == ValueError
    ensures r.Ok? ==> r.value.1 == FirstVar(keys)
    ensures r.Ok? ==> forall k :: k in r.value.0 <==> k in d && k != "time"
    ensures r.Ok? ==> forall k :: k in d && k != "time" ==> MovingAverage(d[k], window) == Ok(r.value.0[k])
  {
    var result: map<string, seq<real>> := map[];
    var firstvar := "";
    var i := 0;
    while i < |keys|
      invariant 0 <= i <= |keys|
      invariant firstvar == FirstVar(keys[..i])
      invariant forall k :: k in result <==> k in keys[..i] && k != "time"
      invariant forall k :: k in result ==> k in d && MovingAverage(d[k], window) == Ok(result[k])
    {
      var key := keys[i];
      assert keys[..i + 1] == keys[..i] + [key];
      FirstVarPrefix(keys, i);
      if key != "time" {
        var avg := MovingAverage(d[key], window);
        if avg.Err? {
          return Err(avg.error);
        }
        result := result[key := avg.value];
        if firstvar == "" {
          firstvar := key;
        }
      }
      i := i + 1;
    }
    assert keys[..i] == keys;
    return Ok((result, firstvar));
  }

  /** `movingaverage_dataset(dataset, window)` as written: the time slice starts at
      len(time) - len(dataset[firstvar]), the length of the unaveraged column. A
      missing 'time' column, or a dataset with no usable firstvar, raises KeyError
      after the loop. */
  method MovingAverageDataset(d: map<string, seq<real>>, keys: seq<string>, window: int)
    returns (r: Result<map<string, seq<real>>, PyError>)
    requires IterationOrder(d, keys)
    ensures r.Err? <==> HasBadColumn(d, window) || "time" !in d || FirstVar(keys) !in d
    ensures r.Err? ==> r.error == if HasBadColumn(d, window) then ValueError else KeyError
    ensures r.Ok? ==> r.value.Keys == d.Keys
    ensures r.Ok? ==> forall k :: k in d && k != "time" ==> MovingAverage(d[k], window) == Ok(r.value[k])
    ensures r.Ok? ==> r.value["time"] == PySliceFrom(d["time"], |d["time"]| - |d[FirstVar(keys)]|)
  {
    var avg := AverageColumns(d, keys, window);
    if avg.Err? {
      return Err(avg.error);
    }
    var (result, firstvar) := avg.value;
    if "time" !in d || firstvar !in d {
      return Err(KeyError);
    }
    var time := d["time"];
    return Ok(result["time" := PySliceFrom(time, |time| - |d[firstvar]|)]);
  }

  /** The as-written slice keeps the whole time column whenever firstvar's input
      column is as long as it: no trimming happens at all. */
  lemma {:induction false} AsWrittenKeepsAllTimes(time: seq<real>, col: seq<real>)
    requires |col| == |time|
    ensures PySliceFrom(time, |time| - |col|) == time
  {
    assert time[0..] == time;
  }

  /** The smallest dataset that shows it: {time: [0, 1], x: [1, 1]} with window 2
      averages x to one sample but keeps two times. */
  lemma AsWrittenTimeLengthCounterexample()
    ensures var d := map["time" := [0.0, 1.0], "x" := [1.0, 1.0]];
            var avg := MovingAverage(d["x"], 2);
            var time := PySliceFrom(d["time"], |d["time"]| - |d["x"]|);
            FirstVar(["time", "x"]) == "x" && avg.Ok? && |avg.value| == 1 && |time| == 2
  {
    assert ["time", "x"][1..] == ["x"];
    AsWrittenKeepsAllTimes([0.0, 1.0], [1.0, 1.0]);
  }

  /** Equal-length columns: the shape every `read` result has. */
  predicate EqualLengths(d: map<string, seq<real>>, n: nat) {
    forall k :: k in d ==> |d[k]| == n
  }

  /** The evidently intended version: the time slice uses the length of the AVERAGED
      firstvar column, `len(result[firstvar])`. */
  method MovingAverageDatasetAligned(d: map<string, seq<real>>, keys: seq<string>, window: int)
    returns (r: Result<map<string, seq<real>>, PyError>)
    requires IterationOrder(d, keys)
    ensures r.Err? <==> HasBadColumn(d, window) || "time" !in d || FirstVar(keys) !in d
    ensures r.Err? ==> r.error == if HasBadColumn(d, window) then ValueError else KeyError
    ensures r.Ok? ==> r.value.Keys == d.Keys
    ensures r.Ok? ==> forall k :: k in d && k != "time" ==> MovingAverage(d[k], window) == Ok(r.value[k])
    ensures r.Ok? ==> r.value["time"] == PySliceFrom(d["time"], |d["time"]| - |r.value[FirstVar(keys)]|)
    ensures r.Ok? ==> forall n: nat :: EqualLengths(d, n) && window <= n ==>
              EqualLengths(r.value, n - window + 1)
              && forall i :: 0 <= i < n - window + 1 ==> r.value["time"][i] == d["time"][i + window - 1]
  {
    var avg := AverageColumns(d, keys, window);
    if avg.Err? {
      return Err(avg.error);
    }
    var (result, firstvar) := avg.value;
    if "time" !in d || firstvar !in result {
      return Err(KeyError);
    }
    var time := d["time"];
    r := Ok(result["time" := PySliceFrom(time, |time| - |result[firstvar]|)]);
    forall n: nat | EqualLengths(d, n) && window <= n
      ensures EqualLengths(r.value, n - window + 1)
      ensures forall i :: 0 <= i < n - window + 1 ==> r.value["time"][i] == d["time"][i + window - 1]
    {
      AlignedTimes(d, result, firstvar, window, n);
    }
  }

  lemma AlignedTimes(d: map<string, seq<real>>, result: map<string, seq<real>>, f: string, window: int, n: nat)
    requires EqualLengths(d, n) && 0 < window <= n && "time" in d && f in result
    requires forall k :: k in result ==> k in d && MovingAverage(d[k], window) == Ok(result[k])
    ensures var out := result["time" := PySliceFrom(d["time"], |d["time"]| - |result[f]|)];
            EqualLengths(out, n - window + 1)
            && forall i :: 0 <= i < n - window + 1 ==> out["time"][i] == d["time"][i + window - 1]
  {
    PySliceLast(d["time"], n - window + 1);
  }
}
