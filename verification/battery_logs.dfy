/** The two probe battery logs: the 2020 charge/discharge log, whose reader rebases time
    to the first row with a `start = -1` sentinel, and the 2022 drain-down log, whose
    time and voltage lists are built by comprehensions.

    A CSV row is the list of its cells, each already put through `float()`: `None` is a
    cell that `float()` rejects. */
module BatteryLogs {

  import opened Common

  // ----- Rebasing with the sentinel -----

  /** The value of `start` after the first k rows whose timestamps (hours) are `ts`. */
  function Start(ts: seq<real>, k: nat): real
    requires k <= |ts|
  {
    if k == 0 then -1.0
    else if Start(ts, k - 1) < 0.0 then ts[k - 1]
    else Start(ts, k - 1)
  }

  /** The time the reader records for row k. */
  function TimeAt(ts: seq<real>, k: nat): real
    requires k < |ts|
  {
    if Start(ts, k) < 0.0 then 0.0 else ts[k] - Start(ts, k)
  }

  /** The `time` column after k rows. */
  function Rebased(ts: seq<real>, k: nat): (r: seq<real>)
    requires k <= |ts|
    ensures |r| == k
  {
    if k == 0 then [] else Rebased(ts, k - 1) + [TimeAt(ts, k - 1)]
  }

  lemma {:induction false} RebasedAt(ts: seq<real>, k: nat, i: nat)
    requires i < k <= |ts|
    ensures Rebased(ts, k)[i] == TimeAt(ts, i)
  {
    if i < k - 1 {
      RebasedAt(ts, k - 1, i);
    }
  }

  /** Once a non-negative timestamp has been taken as `start`, it stays. */
  lemma {:induction false} StartSticks(ts: seq<real>, m: nat, k: nat)
    requires m < k <= |ts| && Start(ts, m) < 0.0 && ts[m] >= 0.0
    ensures Start(ts, k) == ts[m]
  {
    if k > m + 1 {
      StartSticks(ts, m, k - 1);
    }
  }

  /** While every timestamp so far is negative, `start` is still below 0 after them. */
  lemma {:induction false} StartWhileNegative(ts: seq<real>, m: nat)
    requires m <= |ts|
    requires forall i :: 0 <= i < m ==> ts[i] < 0.0
    ensures Start(ts, m) < 0.0
  {
    if m > 0 {
      StartWhileNegative(ts, m - 1);
    }
  }

  /** The clock starts at the first non-negative timestamp `ts[m]`: every row up to and
      including it reads 0 (the rows before it each restart the clock, since a negative
      `start` still looks unset), and every later row reads its distance from `ts[m]`.
      With a non-negative first timestamp (m = 0) the first row reads 0 and row i reads
      `ts[i] - ts[0]`. */
  lemma RebasedFromFirstNonNegative(ts: seq<real>, m: nat)
    requires m < |ts|
    requires forall i :: 0 <= i < m ==> ts[i] < 0.0
    requires ts[m] >= 0.0
    ensures forall i :: 0 <= i <= m ==> Rebased(ts, |ts|)[i] == 0.0
    ensures forall i :: m < i < |ts| ==> Rebased(ts, |ts|)[i] == ts[i] - ts[m]
  {
    forall i | 0 <= i <= m
      ensures Rebased(ts, |ts|)[i] == 0.0
    {
      StartWhileNegative(ts, i);
      RebasedAt(ts, |ts|, i);
    }
    StartWhileNegative(ts, m);
    forall i | m < i < |ts|
      ensures Rebased(ts, |ts|)[i] == ts[i] - ts[m]
    {
      StartSticks(ts, m, i);
      RebasedAt(ts, |ts|, i);
    }
  }

  /** With a non-negative first timestamp the time column is the timestamps shifted by
      the first one, so rebasing keeps their order and the differences between them. */
  lemma RebasedIsShift(ts: seq<real>)
    requires |ts| > 0 && ts[0] >= 0.0
    ensures Rebased(ts, |ts|) == Shift(ts, ts[0])
    ensures forall i, j :: 0 <= i < |ts| && 0 <= j < |ts| ==>
      Rebased(ts, |ts|)[i] - Rebased(ts, |ts|)[j] == ts[i] - ts[j]
    ensures Sorted(ts) ==> Sorted(Rebased(ts, |ts|))
  {
    RebasedFromFirstNonNegative(ts, 0);
    ShiftKeepsDifferences(ts, ts[0]);
  }

  /** The sentinel's quirk: a negative first timestamp does not set the clock, so the
      second row reads 0 as well. */
  lemma NegativeFirstTimestampRestarts(ts: seq<real>)
    requires |ts| >= 2 && ts[0] < 0.0
    ensures Rebased(ts, |ts|)[0] == 0.0 && Rebased(ts, |ts|)[1] == 0.0
  {
    RebasedAt(ts, |ts|, 0);
    RebasedAt(ts, |ts|, 1);
  }

  // ----- The 2020 reader -----

  datatype Reading = Reading(hours: real, voltage: real, current: real)

  /** One row's values, evaluated in the reader's order: `row[0]`, then `row[2]`, then
      `row[3]`; column 1 is never read. */
  function ReadRow(row: seq<Option<real>>): (r: Result<Reading, PyError>)
    ensures r.Ok? <==> |row| >= 4 && row[0].Some? && row[2].Some? && row[3].Some?
    ensures r.Ok? ==> r.value == Reading(row[0].value / 3600.0, row[2].value, row[3].value)
    ensures r.Err? && |row| >= 1 && row[0].None? ==> r.error == ValueError
    ensures r.Err? && (|row| < 1 || (row[0].Some? && |row| < 3)) ==> r.error == IndexError
  {
    if |row| < 1 then Err(IndexError)
    else if row[0].None? then Err(ValueError)
    else if |row| < 3 then Err(IndexError)
    else if row[2].None? then Err(ValueError)
    else if |row| < 4 then Err(IndexError)
    else if row[3].None? then Err(ValueError)
    else Ok(Reading(row[0].value / 3600.0, row[2].value, row[3].value))
  }

  predicate ReadsUpTo(rows: seq<seq<Option<real>>>, k: nat)
    requires k <= |rows|
  {
    forall i :: 0 <= i < k ==> ReadRow(rows[i]).Ok?
  }

  /** The timestamps in hours (0 stands in for a row that does not read). */
  function HoursOf(rows: seq<seq<Option<real>>>): (ts: seq<real>)
    ensures |ts| == |rows|
    ensures forall i :: 0 <= i < |rows| && ReadRow(rows[i]).Ok? ==> ts[i] == ReadRow(rows[i]).value.hours
  {
    seq(|rows|, i requires 0 <= i < |rows| => if ReadRow(rows[i]).Ok? then ReadRow(rows[i]).value.hours else 0.0)
  }

  datatype Results = Results(time: seq<real>, voltage: seq<real>, current: seq<real>)

  /** `read_results` over the rows of the file. */
  method ReadResults(rows: seq<seq<Option<real>>>) returns (res: Result<Results, PyError>)
    ensures res.Ok? <==> ReadsUpTo(rows, |rows|)
    ensures res.Err? ==> exists i :: 0 <= i < |rows| && ReadsUpTo(rows, i) && ReadRow(rows[i]) == Err(res.error)
    ensures res.Ok? ==> res.value.time == Rebased(HoursOf(rows), |rows|)
    ensures res.Ok? ==> |res.value.voltage| == |rows| && |res.value.current| == |rows|
    ensures res.Ok? ==> forall i :: 0 <= i < |rows| ==>
      res.value.voltage[i] == ReadRow(rows[i]).value.voltage && res.value.current[i] == ReadRow(rows[i]).value.current
  {
    ghost var ts := HoursOf(rows);
    var time, voltage, current := [], [], [];
    var start := -1.0;
    var k := 0;
    while k < |rows|
      invariant k <= |rows|
      invariant ReadsUpTo(rows, k)
      invariant start == Start(ts, k)
      invariant time == Rebased(ts, k)
      invariant |voltage| == k && |current| == k
      invariant forall i :: 0 <= i < k ==>
        voltage[i] == ReadRow(rows[i]).value.voltage && current[i] == ReadRow(rows[i]).value.current
    {
      var row := rows[k];
      if |row| < 1 || row[0].None? || |row| < 3 || row[2].None? || |row| < 4 || row[3].None? {
        res := Err(ReadRow(row).error);
        assert ReadsUpTo(rows, k) && ReadRow(rows[k]) == Err(res.error);
        return;
      }
      var t := row[0].value / 3600.0;
      if start < 0.0 {
        start := t;
        t := 0.0;
      } else {
        t := t - start;
      }
      time := time + [t];
      voltage := voltage + [row[2].value];
      current := current + [row[3].value];
      k := k + 1;
    }
    res := Ok(Results(time, voltage, current));
  }

  // ----- The 2022 drain-down log -----

  /** One row of the drain-down log: `[row[0] / 3600, row[3] / 1000]`, hours and volts. */
  function DrainRow(row: seq<Option<real>>): (r: Result<(real, real), PyError>)
    ensures r.Ok? <==> |row| >= 4 && row[0].Some? && row[3].Some?
    ensures r.Ok? ==> r.value.0 * 3600.0 == row[0].value && r.value.1 * 1000.0 == row[3].value
  {
    if |row| < 1 then Err(IndexError)
    else if row[0].None? then Err(ValueError)
    else if |row| < 4 then Err(IndexError)
    else if row[3].None? then Err(ValueError)
    else Ok((row[0].value / 3600.0, row[3].value / 1000.0))
  }

  /** The `lines` comprehension: the rows in order, or the first row's failure. */
  function DrainLines(log: seq<seq<Option<real>>>): (r: Result<seq<(real, real)>, PyError>)
    ensures r.Ok? <==> forall i :: 0 <= i < |log| ==> DrainRow(log[i]).Ok?
    ensures r.Ok? ==> |r.value| == |log| && forall i :: 0 <= i < |log| ==> r.value[i] == DrainRow(log[i]).value
    ensures r.Err? ==> exists i :: 0 <= i < |log| && DrainRow(log[i]) == Err(r.error) &&
                                   (forall j :: 0 <= j < i ==> DrainRow(log[j]).Ok?)
  {
    if log == [] then Ok([])
    else
      match DrainRow(log[0])
      case Err(e) => Err(e)
      case Ok(x) =>
        match DrainLines(log[1..])
        case Err(e) =>
          var i :| 0 <= i < |log[1..]| && DrainRow(log[1..][i]) == Err(e) &&
            forall j :: 0 <= j < i ==> DrainRow(log[1..][j]).Ok?;
          assert DrainRow(log[i + 1]) == Err(e);
          Err(e)
        case Ok(rest) =>
          assert forall i :: 1 <= i < |log| ==> log[i] == log[1..][i - 1];
          Ok([x] + rest)
  }

  /** The plotted series: `t` (hours since the first row) and `v` (volts). */
  function Drain(log: seq<seq<Option<real>>>): (r: Result<(seq<real>, seq<real>), PyError>)
    ensures log == [] ==> r == Err(IndexError)
    ensures r.Ok? <==> log != [] && DrainLines(log).Ok?
    ensures r.Err? && log != [] ==> DrainLines(log) == Err(r.error)
    ensures r.Ok? ==> |r.value.0| == |log| && |r.value.1| == |log|
    ensures r.Ok? ==> r.value.0[0] == 0.0
    ensures r.Ok? ==> forall i :: 0 <= i < |log| ==>
      r.value.0[i] == DrainRow(log[i]).value.0 - DrainRow(log[0]).value.0 && r.value.1[i] == DrainRow(log[i]).value.1
    ensures r.Ok? ==> forall i :: 0 <= i < |log| ==>
      r.value.0[i] * 3600.0 == log[i][0].value - log[0][0].value && r.value.1[i] * 1000.0 == log[i][3].value
  {
    match DrainLines(log)
    case Err(e) => Err(e)
    case Ok(lines) =>
      if |lines| == 0 then Err(IndexError)
      else
        var t0 := lines[0].0;
        Ok((seq(|lines|, i requires 0 <= i < |lines| => lines[i].0 - t0),
            seq(|lines|, i requires 0 <= i < |lines| => lines[i].1)))
  }

  /** The drain-down time axis is the 2020 reader's time column for the same hours, when
      the first timestamp is non-negative: both rebase to the first row. */
  lemma DrainAgreesWithReader(log: seq<seq<Option<real>>>, ts: seq<real>)
    requires Drain(log).Ok?
    requires |ts| == |log| && forall i :: 0 <= i < |log| ==> ts[i] == DrainRow(log[i]).value.0
    requires ts[0] >= 0.0
    ensures Drain(log).value.0 == Rebased(ts, |ts|)
  {
    RebasedIsShift(ts);
    var t := Drain(log).value.0;
    forall i | 0 <= i < |ts|
      ensures t[i] == Shift(ts, ts[0])[i]
    {
    }
  }
}
