# airball-data analysis scripts, modelled in Dafny

The airball-data repository holds the Python scripts used to process data from the
Airball air-data probe project. The 2019 flight logs give column tables that are read
from CSV, averaged, subset by time and rebased to a common clock. Pressure-sensor tests
convert raw counts into pressures. A serial logger timestamps probe lines. The 2020 and
2021 work models the multi-hole sphere probe with potential-flow theory, drives a
calibration rig and reduces its logs. Battery logs become time/voltage series.

This project models the sequential logic of those scripts and proves what they
guarantee. Values are Dafny `real`, with infinities and NaN added where numpy
floats reach them; rounding is not modelled. A Python exception
becomes an `Err` of the `PyError` datatype (`KeyError`, `IndexError`, `ValueError`,
`TypeError`, `ZeroDivisionError`) and is never excluded by a precondition.

Modules, one per piece of the original:

- `Common` (common.dfy): `Option`/`Result`, Python's `min`, slicing with negative
  bounds, `str.strip`, `str.split`, rebasing a list by a constant, and a dict lookup
  that raises. `Tables.Table` is a dict of columns held by reference, so a function
  that updates it in place can be modelled.
- `ColumnReader`: the 2019 `read(filehandle, cols)` and `strings_to_floats`, as loops
  that build the dict of columns. A row is skipped when a field does not parse or
  when it is shorter than the column list.
- `Series`: numpy's 'valid' `movingaverage`, `calibrate_accel_values`, the in-place
  ms→s division of the accelerometer times and their trimming, and the unit conversions.
- `DatasetAverage`: `movingaverage_dataset`, as written and as evidently intended.
- `Subset`: `bisect_left`/`bisect_right` and `subset_ivar` /
  `subset_by_independent_variable`.
- `Rebase`: `minimize_dataset_times` in its two forms. One form rebinds each dataset's
  time column (the datasets are `Table` objects). The other overwrites the time lists
  element by element (the lists are `array`s). A dataset listed twice is rebased
  twice in both.
- `Sensors`: the 14-bit and 24-bit count-to-pressure transfer functions,
  `percent_full_scale` and the arithmetic of `process_measurement`.
- `SerialLines`: the `read_serial.py` loop as a `LineBuffer` class fed one character
  at a time, proved against a specification by `str.split`.
- `SphereProbe`: the sphere pressure coefficient, the v1 and v2 tap assembly,
  `v2_probe_theoretical` and `ratio_a`/`ratio_b`.
- `ProbeInversion`: `generic_probe_raw2data` with the root finder's answer as an input.
- `CalibrationRead`: makeplot's `read`, `air_density`, `speed_from_mph`, `q` and
  `calculate_ratios`.
- `CalibrationReduce`: `reduce_average`, as written (each group keeps its first row)
  and as evidently intended (the mean over the group).
- `CalibrationCompare`: `add_theoreticals`, `add_ratios` and `compute_error`.
- `ProbeTest`: the `ProbeTest` class. It covers the line-root interpolation, the
  six-round zero search, the sweep grid, the zero offset of `acquire_point` and the
  schema-driven `__csv_to_dict`. Readings are `numpy.float64` values (`F64`), so a
  flat response gives an infinite or NaN estimate rather than an exception. The rig is
  a `Rig` class that records every position commanded; the fixture it drives is a
  `Fixture` value of two functions, one for the move and one for the reading, with
  models of the experimental and the mock fixture.
- `Fixtures`: `ExperimentalFixture` (clamped servo counts, the `$A` filter of `read`)
  and `MockFixture` (the caller's list mutated and kept by reference, the sequence
  counter, readings within 5% of their base).
- `ReadProbe`: `match` and the console loop of `read_probe.py` over a finite stream.
- `BatteryLogs`: the 2020 `read_results` with its `start = -1` sentinel, and the 2022
  drain-down comprehensions.

Some things the scripts take from outside become parameters:

- `math.cos` and `math.sqrt` are the two function fields of a `Trig` value. A lemma
  that needs a cosine in [-1, 1] says so in its precondition.
- `float()`, `int()` and the CSV reader are oracles. A row arrives as its fields after
  `float()`, with `None` where `float()` raised. `__csv_to_dict`'s converters are a
  `Parsers` pair.
- The socket and serial streams are finite sequences of lines or characters.
- The clock is a function from the index of a printed line to its formatted
  timestamp.
- The fixture's averaged readings are a function from mount position to reading.
- The mock's random draws are chosen nondeterministically within their ranges.
- Python 2 dict iteration order is an explicit enumeration of the keys.

## Model

| member | source | states |
|---|---|---|
| Common.Min | 2019/2019-04-28-01/process.py:110-111 | Python's `min` of a non-empty list: the result is an element of the list and no element is smaller |
| Common.MinOfSorted | 2019/2019-12-31-01/process.py:85 | the minimum of an ascending list is its first element |
| Common.ShiftKeepsDifferences | 2019/2019-06-01-01/process.py:112 | subtracting one value from every time keeps all pairwise differences, so an ascending column stays ascending |
| Common.ShiftByMin | 2019/2019-06-01-01/process.py:106-112 | rebasing a list by its own minimum makes the new minimum 0 and every value non-negative |
| Common.ShiftZero | 2019/2019-06-01-01/process.py:112 | rebasing by 0 changes nothing |
| Common.ShiftTwice | 2019/2019-06-01-01/process.py:112 | rebasing by a and then by b is one rebase by a + b |
| Common.At | 2021/2021-01-probe-calibration/makeplot.py:100 | `d[k][i]` succeeds exactly when k is a key and i is below its length, with that element; otherwise KeyError for a missing key and IndexError for a short list |
| Common.PyIndex | 2019/2019-04-28-01/process.py:81 | Python's normalisation of a slice bound always lands in [0, len] |
| Common.PySlice | 2019/2019-04-28-01/process.py:102 | Python's `s[i:j]` is never longer than s |
| Common.PySliceFrom | 2019/2019-04-28-01/process.py:81 | Python's `s[i:]` is never longer than s |
| Common.PySliceLast | 2019/2019-04-28-01/process.py:81 | `s[len(s) - k:]` is the last k elements when k <= len(s); for a longer k the negative start wraps round, and from 2·len(s) on the whole list is kept |
| Common.Strip | 2021/2021-01-probe-calibration/read_probe.py:22 | `str.strip()` leaves no whitespace at either end |
| Common.StripLeftIsSuffix | 2021/2021-01-probe-calibration/read_probe.py:22 | `lstrip` drops exactly the leading whitespace: the result is a suffix of the string and everything before it is whitespace |
| Common.StripRightIsPrefix | 2021/2021-01-probe-calibration/read_probe.py:22 | `rstrip` drops exactly the trailing whitespace: the result is a prefix of the string and everything after it is whitespace |
| Common.StripIsInfix | 2021/2021-01-probe-calibration/read_probe.py:22 | `strip` keeps the middle of the string: the result is a slice of it with only whitespace outside, and by Strip's contract it neither starts nor ends with whitespace |
| Common.Split | 2021/2021-01-probe-calibration/read_probe.py:23 | `str.split(',')` always yields at least one field |
| Common.SplitFieldsLackSep | 2021/2021-01-probe-calibration/read_probe.py:23 | no field that `split` yields contains the separator |
| Common.SplitJoin | 2021/2021-01-probe-calibration/read_probe.py:23 | joining the fields of `split` with the separator gives back the string: nothing is lost or reordered |
| ColumnReader.StringsToFloats | 2019/2019-04-28-01/process.py:16-20 | the row converts exactly when every field parses, and then field i becomes value i, in order |
| ColumnReader.Parsed | 2019/2019-04-28-01/process.py:30 | a fully parsing row's values, one per field, in order |
| ColumnReader.Accepted | 2019/2019-04-28-01/process.py:29-34 | the rows `read` keeps are at most the rows given, and every kept row has at least as many fields as there are column names |
| ColumnReader.Read | 2019/2019-04-28-01/process.py:22-38 | the keys are exactly the column names, and each column is the gathered fields of the kept rows (all fields parse, at least `len(cols)` of them), in input order |
| ColumnReader.EmptyColumns | 2019/2019-04-28-01/process.py:24-26 | one empty list under each column name and no other key |
| ColumnReader.AppendRow | 2019/2019-04-28-01/process.py:35-36 | a kept row appends field i to the list of column `cols[i]` for each i, and adds no key |
| ColumnReader.ColumnOfDistinct | 2019/2019-04-28-01/process.py:22-38 | with distinct column names, column i holds field i of every kept row in order, so all columns have one entry per kept row and equal lengths; extra fields are ignored |
| ColumnReader.GatherDistinct | 2019/2019-04-28-01/process.py:35-36 | with distinct column names a kept row adds exactly its own field to each column |
| ColumnReader.ReadStep | 2019/2019-04-28-01/process.py:28-36 | one pass of the row loop keeps every column equal to the columns of the rows kept so far; a skipped row changes nothing |
| Series.MovingAverage | 2019/2019-04-28-01/process.py:12-14 | numpy's 'valid' convolution with `window` equal weights: ValueError for a non-positive window or empty data; otherwise `len - window + 1` values, value i times the window being the sum of `values[i..i+window)`; a window longer than the data gives `window - len + 1` copies of the total over the window |
| Series.MovingAverageBounds | 2019/2019-04-28-01/process.py:12-14 | every averaged value lies within the bounds of the data it averages |
| Series.SumBounds | 2019/2019-04-28-01/process.py:13-14 | a sum of n values in [lo, hi] lies in [n·lo, n·hi] |
| Series.Calibrate | 2019/2019-04-28-01/process.py:46-49 | the calibrated value times half the recorded range, plus the mid-point of the range, gives back the raw value |
| Series.CalibrateProperties | 2019/2019-04-28-01/process.py:46-49 | the recorded minimum maps to -1 and the maximum to +1, the map is increasing when min < max, and `value = c·gain + offset` undoes it |
| Series.CalibrateAccelValues | 2019/2019-04-28-01/process.py:42-54 | one calibrated value per input, in order; an empty list succeeds whatever calibs holds; otherwise a short calibs raises IndexError and equal limits ZeroDivisionError |
| Series.MillisToSecondsInPlace | 2019/2019-04-28-01/process.py:70-72 | every time is overwritten in place by itself divided by 1000 |
| Series.AccelTimesAligned | 2019/2019-04-28-01/process.py:78-81 | keeping the last `len(ax)` times leaves exactly one time per averaged sample, the time of the last raw sample in its window |
| Series.NanosToSeconds | 2019/2019-06-01-01/process.py:61 | the result times 1e9 is the input: ns to s |
| Series.MillisToHours | 2019/2019-06-15-01/process.py:54 | the result times 3 600 000 is the input: ms to hours |
| Series.MpsToKnots | 2019/2019-12-31-01/process.py:113-114 | the knots divided by 1.94384 give back the metres per second, and the sign is kept |
| Series.MpsToKnotsLinear | 2019/2019-12-31-01/process.py:113-114 | the knot conversion maps 0 to 0, adds and scales |
| Series.MapColumn | 2019/2019-06-01-01/process.py:61 | `map(f, column)` has one converted value per input value, in order |
| Subset.BisectLeftFrom | 2019/2019-04-28-01/process.py:98 | the bisect_left search stays in [lo, hi], everything before the answer is below x and the entry at the answer is not |
| Subset.BisectRightFrom | 2019/2019-04-28-01/process.py:99 | the bisect_right search stays in [lo, hi], everything before the answer is at most x and the entry at the answer is above it |
| Subset.BisectPartition | 2019/2019-04-28-01/process.py:98-99 | on an ascending list, index k is below bisect_left exactly when the entry is below x, and below bisect_right exactly when it is at most x |
| Subset.SubsetByIndependentVariable | 2019/2019-06-01-01/process.py:94-102 | KeyError for a missing column and ValueError for an empty one (from `min`); otherwise the same keys, each column cut with the same slice |
| Subset.SubsetKeepsWindow | 2019/2019-12-31-01/process.py:84-92 | on an ascending column the subset keeps exactly the rows with start <= value <= end, as one contiguous run, and cuts every equally long column at the same rows |
| Subset.SliceSorted | 2019/2019-12-31-01/process.py:91 | a slice of an ascending column is ascending |
| Subset.SubsetThenRebase | 2019/2019-12-31-01/process.py:120-124 | subsetting an ascending time column and then rebasing it puts the first kept sample at time 0 and keeps every time non-negative |
| Rebase.GlobalMinSpec | 2019/2019-06-01-01/process.py:106-110 | the two `min` calls fail exactly when the list is empty (ValueError) or some dataset has no time column (KeyError) or an empty one (ValueError), the first such dataset deciding; otherwise the result is a time of some dataset and no time is smaller |
| Rebase.MinTimes | 2019/2019-06-01-01/process.py:107-110 | the first loop and `min(min_times)` give the global minimum or the error of the first unusable dataset |
| Rebase.MinIsGlobal | 2019/2019-06-01-01/process.py:108-110 | the minimum of the per-dataset minima is the global minimum |
| Rebase.FirstUnusable | 2019/2019-06-01-01/process.py:108-109 | the error raised is that of the first dataset without a usable time column |
| Rebase.TimesOf | 2019/2019-06-01-01/process.py:108-109 | the time column of each dataset, in list order, or none where the key is missing |
| Rebase.MinimizeDatasetTimes | 2019/2019-06-01-01/process.py:106-112 | on an error nothing changes and the error is the first loop's; otherwise each dataset's time column is rebased by the global minimum once per occurrence in the list, and no other column or dataset changes |
| Rebase.SubtractFromEach | 2019/2019-06-01-01/process.py:111-112 | the second loop rebinds every listed dataset's time column to its values minus the minimum |
| Rebase.ShiftTimesIsShift | 2019/2019-12-31-01/process.py:101-102 | a dataset listed c times is rebased by c times the minimum |
| Rebase.CountIsMultiplicity | 2019/2019-12-31-01/process.py:101 | the number of times a dataset is listed is its multiplicity in the list |
| Rebase.MinShift | 2019/2019-12-31-01/process.py:102 | rebasing a list moves its minimum by the same amount |
| Rebase.GlobalMinShift | 2019/2019-12-31-01/process.py:96-102 | rebasing every dataset moves the global minimum by the same amount |
| Rebase.GlobalMinOkUsable | 2019/2019-12-31-01/process.py:97-100 | a global minimum exists only when every dataset has a non-empty time column |
| Rebase.GlobalMinLower | 2019/2019-12-31-01/process.py:100 | the global minimum is no larger than any time |
| Rebase.RebaseByGlobalMin | 2019/2019-12-31-01/process.py:96-102 | after rebasing each dataset once, the smallest time is 0 and every time is non-negative |
| Rebase.MinimizedOnceStartsAtZero | 2019/2019-06-01-01/process.py:106-112 | when each dataset is listed once, the state MinimizeDatasetTimes leaves has global minimum 0 and no negative time |
| Rebase.RebasedOnceIsShiftEach | 2019/2019-06-01-01/process.py:111-112 | rebasing each of distinct datasets once leaves exactly the time columns of the common rebase of the old ones |
| Rebase.CountDistinct | 2019/2019-06-01-01/process.py:111 | a dataset listed once is counted once |
| Rebase.RebaseKeepsDifferences | 2019/2019-04-28-01/process.py:107-115 | the common rebase keeps the difference between any two times, within a dataset and across datasets, hence their order |
| Rebase.SubtractInPlace | 2019/2019-04-28-01/process.py:113-115 | the list is overwritten element by element with its values minus the minimum |
| Rebase.MinimizeTimeListsInPlace | 2019/2019-04-28-01/process.py:107-115 | on an error no list changes; otherwise every list is rebased in place by the global minimum once per occurrence, a list shared by two entries twice |
| Rebase.SubtractFromLists | 2019/2019-04-28-01/process.py:112-115 | the second loop rebases each listed time list in place, once per occurrence |
| DatasetAverage.FirstVar | 2019/2019-06-01-01/process.py:17-24 | the `firstvar` sentinel is '' or a key other than 'time' |
| DatasetAverage.FirstVarSnoc | 2019/2019-06-01-01/process.py:23-24 | the sentinel is set by the first non-time key and never changed after |
| DatasetAverage.AverageColumns | 2019/2019-06-01-01/process.py:16-24 | fails with ValueError exactly when some non-time column cannot be averaged; otherwise the result holds the moving average of every non-time column and nothing else, and `firstvar` is the first non-time key in iteration order |
| DatasetAverage.MovingAverageDataset | 2019/2019-06-01-01/process.py:16-28 | every non-time column is replaced by its moving average; time is cut using the length of the INPUT column of `firstvar`; KeyError when time or firstvar is missing |
| DatasetAverage.AsWrittenKeepsAllTimes | 2019/2019-06-01-01/process.py:26 | when firstvar's input column is as long as time, the as-written slice keeps every time |
| DatasetAverage.AsWrittenTimeLengthCounterexample | 2019/2019-12-31-01/process.py:27 | {time: [0, 1], x: [1, 1]} with window 2 gives one averaged sample and two times |
| DatasetAverage.MovingAverageDatasetAligned | 2019/2019-12-31-01/process.py:17-29 | the corrected slice uses the averaged column's length: on equally long inputs every output column, time included, has `n - window + 1` entries and time i is that of the last raw sample of window i |
| DatasetAverage.AlignedTimes | 2019/2019-06-01-01/process.py:26 | the corrected time slice lines up one for one with the averaged columns |
| CalibrationRead.Cell | 2021/2021-01-probe-calibration/makeplot.py:68-70 | `float(row[k])` on one cell of a DictReader row succeeds exactly for a present, parseable cell and gives its value; an unparseable cell raises ValueError and a missing one (short row, None) TypeError |
| CalibrationRead.IndexOf | 2021/2021-01-probe-calibration/makeplot.py:68 | a header name has a position exactly when it is in the header, and the position holds that name |
| CalibrationRead.ParseCells | 2021/2021-01-probe-calibration/makeplot.py:69-70 | the first k cells convert exactly when all of them are present, giving their values in order; otherwise ValueError |
| CalibrationRead.RowValues | 2021/2021-01-probe-calibration/makeplot.py:69-70 | a kept row appends exactly when it has one parseable cell per header field, the values in header order |
| CalibrationRead.Kept | 2021/2021-01-probe-calibration/makeplot.py:67-70 | the rows `read` appends are at most the rows given, each with one value per header field, and each has a non-zero dp0 |
| CalibrationRead.KeptCount | 2021/2021-01-probe-calibration/makeplot.py:68 | on success exactly one row is kept per input row whose dp0 is non-zero; rows with dp0 = 0 are dropped |
| CalibrationRead.KeptErrorSticks | 2021/2021-01-probe-calibration/makeplot.py:67-70 | once a row raises, `read` raises that same exception whatever rows follow |
| CalibrationRead.ReadCalibration | 2021/2021-01-probe-calibration/makeplot.py:62-71 | raises the first row's exception, or returns one list per header name holding that column of every kept row, in input order |
| CalibrationRead.AirDensity | 2021/2021-01-probe-calibration/makeplot.py:75-77 | the ideal-gas density: density times 287.058·(t + 273.15) is the pressure; ZeroDivisionError exactly at absolute zero |
| CalibrationRead.SpeedFromMph | 2021/2021-01-probe-calibration/makeplot.py:79-80 | miles per hour times 0.44704 gives metres per second |
| CalibrationRead.Q | 2021/2021-01-probe-calibration/makeplot.py:82-83 | the dynamic pressure is defined exactly away from absolute zero |
| CalibrationRead.QProperties | 2021/2021-01-probe-calibration/makeplot.py:82-83 | q is 0 exactly at zero pressure or zero speed, is even in the speed, and is non-negative for non-negative pressure above absolute zero |
| CalibrationRead.QColumn | 2021/2021-01-probe-calibration/makeplot.py:90-91 | the first loop succeeds exactly when baro, oat and mph reach every row and no temperature is absolute zero, and then holds q of each row in order |
| CalibrationRead.DivideByQ | 2021/2021-01-probe-calibration/makeplot.py:92-95 | the second loop succeeds exactly when dp0, dpA and dpB reach every row and no q is 0, and then holds each pressure divided by its row's q |
| CalibrationRead.WithRatios | 2021/2021-01-probe-calibration/makeplot.py:86-89 | the four new columns are stored and every other column is untouched |
| CalibrationRead.CalculateRatios | 2021/2021-01-probe-calibration/makeplot.py:85-95 | succeeds exactly when every row has its inputs, no temperature is absolute zero and no q is 0; then q, dp0_q, dpA_q and dpB_q are added, row i of each ratio times row i of q is the pressure, and no other column changes |
| CalibrationReduce.FirstSeen | 2021/2021-01-probe-calibration/makeplot.py:99-102 | the groups are the distinct set points, each once, exactly those that occur |
| CalibrationReduce.FirstIndex | 2021/2021-01-probe-calibration/makeplot.py:101 | the row that opens a group holds its set point and no earlier row does |
| CalibrationReduce.CountOf | 2021/2021-01-probe-calibration/makeplot.py:108 | a set point's row count is positive exactly when it occurs |
| CalibrationReduce.SumOf | 2021/2021-01-probe-calibration/makeplot.py:109 | a set point that never occurs sums to 0 |
| CalibrationReduce.Pairs | 2021/2021-01-probe-calibration/makeplot.py:100 | one (alpha, beta) set point per row |
| CalibrationReduce.NewEntry | 2021/2021-01-probe-calibration/makeplot.py:102-109 | a new group succeeds exactly when every named column reaches the row, and then holds count 1 and that row's value under every name |
| CalibrationReduce.Emit | 2021/2021-01-probe-calibration/makeplot.py:110-121 | the output has alpha, beta, q and the named columns only; one output row per group in insertion order with its set point, each named value total / count, and q copied from the input |
| CalibrationReduce.EmitStep | 2021/2021-01-probe-calibration/makeplot.py:116-120 | appending one group's row keeps the output equal to the groups emitted so far |
| CalibrationReduce.EmitDone | 2021/2021-01-probe-calibration/makeplot.py:121 | storing q after the last group gives the complete output |
| CalibrationReduce.AppendGroup | 2021/2021-01-probe-calibration/makeplot.py:117-120 | one group adds its alpha, its beta and each named total / count, and adds no key |
| CalibrationReduce.FirstIndexSnoc | 2021/2021-01-probe-calibration/makeplot.py:99-101 | a further row keeps the opening row of every group seen before it and opens its own group when new |
| CalibrationReduce.PairsSnoc | 2021/2021-01-probe-calibration/makeplot.py:99-101 | a further row's set point opens a group exactly when it was not seen before, and earlier opening rows stay the same |
| CalibrationReduce.PairsPrefix | 2021/2021-01-probe-calibration/makeplot.py:99 | the rows seen so far are a prefix of all rows, with the same opening rows |
| CalibrationReduce.FirstRowStep | 2021/2021-01-probe-calibration/makeplot.py:100-109 | one pass of the first loop keeps every group holding count 1 and its opening row's values, in order of first appearance |
| CalibrationReduce.GroupKept | 2021/2021-01-probe-calibration/makeplot.py:101 | a group opened earlier is left alone by a later row |
| CalibrationReduce.GroupOpened | 2021/2021-01-probe-calibration/makeplot.py:101-109 | a group opened at row i records row i as its opening row |
| CalibrationReduce.FirstRowHas | 2021/2021-01-probe-calibration/makeplot.py:108-109 | after a successful pass every opening row so far has every named column |
| CalibrationReduce.GroupFirstRows | 2021/2021-01-probe-calibration/makeplot.py:98-109 | the first loop as written succeeds exactly when alpha and beta reach every row and every named column reaches each group's opening row; each group then holds count 1 and its opening row's values |
| CalibrationReduce.FirstRow | 2021/2021-01-probe-calibration/makeplot.py:100-109 | one pass: a KeyError or IndexError only on a row opening a group that lacks a named column; otherwise the groups stay as described |
| CalibrationReduce.ReduceAverage | 2021/2021-01-probe-calibration/makeplot.py:97-122 | as written: succeeds exactly when seq, q, alpha and beta are present and the named columns reach each group's opening row; one output row per distinct set point in order of first appearance, whose named values are those of the group's FIRST row only, with q copied |
| CalibrationReduce.FirstRowOutput | 2021/2021-01-probe-calibration/makeplot.py:119-120 | each group's total / count is the value at the group's opening row |
| CalibrationReduce.FirstRowValue | 2021/2021-01-probe-calibration/makeplot.py:104-109 | a group holds count 1 and its opening row's value, so total / count is that value |
| CalibrationReduce.AccumulateRow | 2021/2021-01-probe-calibration/makeplot.py:108-109 | adding a row succeeds exactly when every named column reaches it, incrementing each count and adding the row's value to each total |
| CalibrationReduce.CountSumSnoc | 2021/2021-01-probe-calibration/makeplot.py:108-109 | a further row adds 1 to its set point's count and its value to its total, and leaves other set points alone |
| CalibrationReduce.GroupAllRows | 2021/2021-01-probe-calibration/makeplot.py:98-109 | the corrected first loop succeeds exactly when alpha, beta and every named column reach every row; each group then holds its row count and per-column sums |
| CalibrationReduce.CountRow | 2021/2021-01-probe-calibration/makeplot.py:100-109 | one pass of the corrected loop succeeds exactly when the row has every named column, and keeps every group's count and sums exact |
| CalibrationReduce.MeanStep | 2021/2021-01-probe-calibration/makeplot.py:100-109 | one row of the corrected loop keeps every group's count and sums equal to those of the rows seen so far |
| CalibrationReduce.MeanGroupStep | 2021/2021-01-probe-calibration/makeplot.py:108-109 | a row changes the count and sums of its own group only |
| CalibrationReduce.ReduceAverageMean | 2021/2021-01-probe-calibration/makeplot.py:97-122 | as evidently intended: succeeds exactly when the needed columns reach every row; one output row per distinct set point in order of first appearance, each named value the MEAN of that column over all rows at the set point, with q copied |
| CalibrationReduce.MeanOutput | 2021/2021-01-probe-calibration/makeplot.py:119-120 | each group's total / count is the column's mean over the group's rows |
| CalibrationReduce.SingleRowGroup | 2021/2021-01-probe-calibration/makeplot.py:101-109 | on a set point seen on one row only, as written and as intended agree |
| CalibrationReduce.ReduceAverageCounterexample | 2021/2021-01-probe-calibration/makeplot.py:101-109 | two rows at one set point with values 1 and 3: as written the output is 1, while the mean is 2 |
| CalibrationCompare.AddTheoreticals | 2021/2021-01-probe-calibration/makeplot.py:126-134 | KeyError without alpha and IndexError (or KeyError) when beta is shorter; otherwise three new columns holding the unscaled v2 theory at every row's (alpha, beta), and no other column changes |
| CalibrationCompare.SafeRatio | 2021/2021-01-probe-calibration/makeplot.py:144-147 | the ratio times the theory is the data when both exist and the theory is non-zero; any failure (missing key, short list, division by zero) gives the fallback 0 |
| CalibrationCompare.RatioColumn | 2021/2021-01-probe-calibration/makeplot.py:142-147 | one ratio per row, in order |
| CalibrationCompare.AddRatios | 2021/2021-01-probe-calibration/makeplot.py:138-147 | only a missing alpha raises (KeyError); otherwise three ratio columns with one entry per row and no other column changed |
| CalibrationCompare.AxisRatiosFallBack | 2021/2021-01-probe-calibration/makeplot.py:138-147 | after add_theoreticals, a row with beta = 0 gets dpB ratio 0 and a row with alpha = 0 dpA ratio 0, because the theory there is 0 |
| CalibrationCompare.TheoryScales | 2021/2021-01-probe-calibration/makeplot.py:195 | the theory for scaling s is s times the unit theory |
| CalibrationCompare.Residual | 2021/2021-01-probe-calibration/makeplot.py:191-196 | a row is skipped exactly for dpA at alpha = 0 and dpB at beta = 0; otherwise the residual is data minus theory |
| CalibrationCompare.Contribution | 2021/2021-01-probe-calibration/makeplot.py:197 | a row adds a non-negative square, 0 exactly when skipped or exact |
| CalibrationCompare.ErrorSum | 2021/2021-01-probe-calibration/makeplot.py:189-198 | the accumulated error is never negative |
| CalibrationCompare.ComputeError | 2021/2021-01-probe-calibration/makeplot.py:188-198 | KeyError without alpha; otherwise the sum of squared residuals against the theory scaled by s, or the first row's exception |
| CalibrationCompare.AccumulateError | 2021/2021-01-probe-calibration/makeplot.py:189-198 | the loop leaves the sum of squared residuals over all rows, or the first row's exception |
| CalibrationCompare.ErrorSumStep | 2021/2021-01-probe-calibration/makeplot.py:195-197 | one more row adds its contribution or raises |
| CalibrationCompare.ErrorSticks | 2021/2021-01-probe-calibration/makeplot.py:190-197 | once a row raises, the error computation raises that exception whatever follows |
| CalibrationCompare.ErrorZeroIff | 2021/2021-01-probe-calibration/makeplot.py:188-198 | the error is 0 exactly when every row is skipped or matches the theory |
| CalibrationCompare.ErrorSticksBack | 2021/2021-01-probe-calibration/makeplot.py:190-197 | a successful sum has a successful prefix and adds the last row's contribution |
| CalibrationCompare.SkippedRowsIgnored | 2021/2021-01-probe-calibration/makeplot.py:191-194 | changing dpA data at a row with alpha = 0, or dpB data at beta = 0, leaves the error unchanged |
| SphereProbe.CosSq | 2020/2020-03-probe-comparisons/process.py:19-21 | the square of a cosine is never negative, is at most 1 for a cosine in [-1, 1], and is 0 where the cosine is |
| SphereProbe.CoefficientPolar | 2020/2020-03-probe-comparisons/process.py:18-22 | the pressure coefficient never exceeds 1, its value at the stagnation point |
| SphereProbe.CoefficientRange | 2020/2020-03-probe-comparisons/process.py:18-22 | the pressure coefficient lies in [-1.25, 1]: 1 where the cosine vanishes and -1.25 where its square is 1 |
| SphereProbe.CoefficientCartesian | 2020/2020-03-probe-comparisons/process.py:27-29 | the coefficient at (alpha, beta) never exceeds 1 either |
| SphereProbe.CartesianSymmetric | 2020/2020-03-probe-comparisons/process.py:27-29 | the cartesian coefficient depends on alpha² + beta² only: negating either angle or swapping them changes nothing |
| SphereProbe.V1Data2Raw | 2020/2020-03-probe-comparisons/process.py:65-82 | no flow (q = 0) reads zero on every output; dpB is 0 at beta = 0 and dpA is 0 at alpha = 0 |
| SphereProbe.V2Data2Raw | 2020/2020-03-probe-comparisons/process.py:85-104 | no flow (q = 0) reads zero on every output; dpB is 0 at beta = 0 and dpA is 0 at alpha = 0 |
| SphereProbe.TapAssembly | 2020/2020-03-probe-comparisons/process.py:65-104 | v1's dp0 is the centre tap; v2's dp0 is centre minus bottom tap; both have dpA = lower minus upper and dpB = right minus left |
| SphereProbe.LinearInQ | 2020/2020-03-probe-comparisons/process.py:65-104 | every raw output is q times the output at q = 1, for both layouts |
| SphereProbe.CrossAxisZero | 2020/2020-03-probe-comparisons/process.py:65-104 | on-axis flow gives zero cross-axis output: dpB = 0 at beta = 0 and dpA = 0 at alpha = 0 |
| SphereProbe.DpBOddInBeta | 2020/2020-03-probe-comparisons/process.py:65-104 | dpB is odd in beta |
| SphereProbe.TapRange | 2020/2020-03-probe-comparisons/process.py:66-68 | each tap pressure lies between -1.25 q and q for q >= 0 |
| SphereProbe.V2Theoretical | 2021/2021-01-probe-calibration/makeplot.py:33-58 | the theory is the v2 forward model at unit q on the angles in radians, times the scaling, with the sign of dpA flipped |
| SphereProbe.TheoryIsScaledV2 | 2021/2021-01-probe-calibration/makeplot.py:33-58 | makeplot's theory is the v2 forward model at unit q on the angles in radians, scaled, with dpA's sign flipped (upper minus lower) |
| SphereProbe.TheoryCrossAxisZero | 2021/2021-01-probe-calibration/makeplot.py:33-58 | the theory's dpB is 0 at beta = 0 and its dpA is 0 at alpha = 0 |
| SphereProbe.RatioA | 2020/2020-03-new-static-source-estimates/process.py:108-113 | dpA / dp0 of the v2 model at unit q, from degrees: ZeroDivisionError exactly where dp0 is 0, otherwise the ratio times dp0 is dpA |
| SphereProbe.RatioB | 2020/2020-03-new-static-source-estimates/process.py:115-120 | dpB / dp0 of the v2 model at unit q, from degrees: ZeroDivisionError exactly where dp0 is 0, otherwise the ratio times dp0 is dpB |
| SphereProbe.RatiosScaleInvariant | 2020/2020-03-new-static-source-estimates/process.py:108-120 | the ratios do not depend on q: any non-zero q gives the same dpA/dp0 and dpB/dp0 |
| ReadProbe.LowerChar | 2021/2021-01-probe-calibration/read_probe.py:16 | `lower()` on one character maps A-Z to a-z and leaves every other character alone |
| ReadProbe.Lower | 2021/2021-01-probe-calibration/read_probe.py:16 | lower-casing keeps the length |
| ReadProbe.LowerAt | 2021/2021-01-probe-calibration/read_probe.py:16 | each character of the lower-cased string is its own character lower-cased |
| ReadProbe.LowerIdempotent | 2021/2021-01-probe-calibration/read_probe.py:16-18 | lower-casing twice is lower-casing once |
| ReadProbe.LowerAppend | 2021/2021-01-probe-calibration/read_probe.py:18 | lower-casing distributes over concatenation, so `'$' + a.lower()` is `('$' + a).lower()` |
| ReadProbe.Match | 2021/2021-01-probe-calibration/read_probe.py:13-19 | `match` never answers False: it answers True exactly when no argument is given or the name, lower-cased, is the argument or `$` and the argument, lower-cased; otherwise it falls off its end with None |
| ReadProbe.NoFilterShowsAll | 2021/2021-01-probe-calibration/read_probe.py:14-15 | without a command-line argument every sentence matches |
| ReadProbe.FilterSelectsItsSentence | 2021/2021-01-probe-calibration/read_probe.py:16-19 | the filter A matches both the name A and the sentence name `$A`, in any case |
| ReadProbe.FilterRejectsOthers | 2021/2021-01-probe-calibration/read_probe.py:13-19 | with a filter, a name matches only when it is the filter or `$` followed by the filter, ignoring case; otherwise match falls off its end with a falsy None |
| ReadProbe.MatchIgnoresCase | 2021/2021-01-probe-calibration/read_probe.py:16-18 | the match does not depend on the case of the sentence name |
| ReadProbe.Fields | 2021/2021-01-probe-calibration/read_probe.py:22-23 | a stripped, split line always has at least one field, so the `len(fields) > 0` guard always holds |
| ReadProbe.FieldsJoin | 2021/2021-01-probe-calibration/read_probe.py:22-23 | the fields joined by commas give back the stripped line, which is a slice of the received line with only whitespace outside it |
| ReadProbe.Shown | 2021/2021-01-probe-calibration/read_probe.py:21-26 | no more field lists are shown than lines are received |
| ReadProbe.ShownAreMatchingLines | 2021/2021-01-probe-calibration/read_probe.py:24-26 | every shown list is the fields of a received line whose name passes the filter, and shown lists keep the order of the lines |
| ReadProbe.NoFilterShowsEveryLine | 2021/2021-01-probe-calibration/read_probe.py:14-15 | without a filter every line's fields are shown, in order |
| ReadProbe.Monitor | 2021/2021-01-probe-calibration/read_probe.py:21-26 | the read loop over a finite stream prints exactly the field lists of the matching lines, in order |
| BatteryLogs.Rebased | 2020/2020-10-probe-battery/process.py:11-19 | one time per row read |
| BatteryLogs.RebasedAt | 2020/2020-10-probe-battery/process.py:13-19 | row i's time is the time the reader computes for it from `start` |
| BatteryLogs.StartSticks | 2020/2020-10-probe-battery/process.py:14-16 | once a non-negative timestamp has been taken as `start`, it never changes |
| BatteryLogs.StartWhileNegative | 2020/2020-10-probe-battery/process.py:11-16 | while every timestamp so far is negative, `start` stays negative |
| BatteryLogs.RebasedFromFirstNonNegative | 2020/2020-10-probe-battery/process.py:11-19 | every row up to the first non-negative timestamp gets time 0, and each later row its hours minus that timestamp |
| BatteryLogs.RebasedIsShift | 2020/2020-10-probe-battery/process.py:11-19 | with a non-negative first timestamp the time column is the hours rebased by the first one, keeping differences and order |
| BatteryLogs.NegativeFirstTimestampRestarts | 2020/2020-10-probe-battery/process.py:14-16 | a negative first timestamp does not set the clock: the first two rows both get time 0 |
| BatteryLogs.ReadRow | 2020/2020-10-probe-battery/process.py:13-21 | a row reads exactly when it has at least four fields and fields 0, 2 and 3 parse; the hours are field 0 / 3600; an unparseable timestamp raises ValueError and a short row IndexError |
| BatteryLogs.HoursOf | 2020/2020-10-probe-battery/process.py:13 | one timestamp in hours per row |
| BatteryLogs.ReadResults | 2020/2020-10-probe-battery/process.py:6-22 | succeeds exactly when every row reads, else raises the first failing row's error; time is the rebased hours, voltage and current are fields 2 and 3 of each row, one entry per row |
| BatteryLogs.DrainRow | 2022/2022-03-probe-battery-drain/process.py:8 | one drain-log row reads exactly when fields 0 and 3 parse: hours times 3600 is field 0 and volts times 1000 is field 3 |
| BatteryLogs.DrainLines | 2022/2022-03-probe-battery-drain/process.py:7-10 | the list comprehension succeeds exactly when every row reads, keeping the rows in order; otherwise the first failing row's error |
| BatteryLogs.Drain | 2022/2022-03-probe-battery-drain/process.py:7-15 | an empty log raises IndexError at `lines[0]`; otherwise t and v have one entry per row, t starts at 0 and is each row's hours minus the first's, v is each row's volts |
| BatteryLogs.DrainAgreesWithReader | 2022/2022-03-probe-battery-drain/process.py:12-14 | for a non-negative first timestamp the drain script's time axis equals the 2020 reader's time column |
| Fixtures.Trunc | 2021/2021-01-probe-calibration/experimentalfixture.py:50 | `int()` of a float truncates toward zero: the result is the integer part, within 1 of the value and no further from 0 |
| Fixtures.TruncMonotone | 2021/2021-01-probe-calibration/experimentalfixture.py:50 | truncation never reverses order |
| Fixtures.AngleLimits | 2021/2021-01-probe-calibration/experimentalfixture.py:55-58 | the angle is clamped to [-45, 45]: unchanged inside, -45 below and 45 above |
| Fixtures.AngleLimitsIdempotent | 2021/2021-01-probe-calibration/experimentalfixture.py:55-58 | clamping twice is clamping once |
| Fixtures.Count | 2021/2021-01-probe-calibration/experimentalfixture.py:49-53 | the servo count always lies in [0, 1023] |
| Fixtures.CountProperties | 2021/2021-01-probe-calibration/experimentalfixture.py:49-53 | 0 degrees is count 512 and more degrees never give fewer counts |
| Fixtures.CountInRange | 2021/2021-01-probe-calibration/experimentalfixture.py:49-53 | inside the clamp range the count is never clipped: it is `int(degrees / 0.29) + 512` |
| Fixtures.Accepted | 2021/2021-01-probe-calibration/experimentalfixture.py:39-46 | no more sentences are kept than lines are read |
| Fixtures.AcceptedPrefix | 2021/2021-01-probe-calibration/experimentalfixture.py:39-46 | the sentences kept from a prefix of the stream are a prefix of those kept from the whole stream |
| Fixtures.DataSentenceKept | 2021/2021-01-probe-calibration/experimentalfixture.py:41-43 | a line `$A,...` without whitespace is kept unchanged |
| Fixtures.AcceptedAreData | 2021/2021-01-probe-calibration/experimentalfixture.py:43-45 | every kept sentence has `$A` as its first field |
| Fixtures.ExperimentalFixture.MoveTo | 2021/2021-01-probe-calibration/experimentalfixture.py:21-31 | stores the clamped angles, then commands the azimuth servo and then the elevation servo with the counts of the clamped angles |
| Fixtures.ExperimentalFixture.Read | 2021/2021-01-probe-calibration/experimentalfixture.py:33-47 | returns the first n stripped `$A` sentences of the stream in order, or none when the stream ends before n of them arrive |
| Fixtures.MockQ | 2021/2021-01-probe-calibration/mockfixture.py:42-43 | the mock dynamic pressure is non-negative and 0 exactly at 0 mph |
| Fixtures.MockBase | 2021/2021-01-probe-calibration/mockfixture.py:21-26 | the base readings: dp0 + dpA + dpB is q, baro is 101325 and oat is 25 |
| Fixtures.Noise | 2021/2021-01-probe-calibration/mockfixture.py:45-46 | for a draw in [-1, 1] the noisy value lies within 5% of the magnitude of the value |
| Fixtures.NoiseBound | 2021/2021-01-probe-calibration/mockfixture.py:45-46 | noise moves a value by at most 5% of its magnitude |
| Fixtures.ScaledBound | 2021/2021-01-probe-calibration/mockfixture.py:46 | a uniform draw in [-1, 1] times v lies within |v| |
| Fixtures.MockFixture.MoveTo | 2021/2021-01-probe-calibration/mockfixture.py:12-15 | IndexError for a list shorter than two; otherwise each of the first two components is capped at 45 from above in the caller's own list, nothing else in it changes, and the fixture keeps that list by reference |
| Fixtures.MockFixture.SetMph | 2021/2021-01-probe-calibration/mockfixture.py:17-18 | keeps `int(mph)` |
| Fixtures.MockFixture.Read | 2021/2021-01-probe-calibration/mockfixture.py:20-40 | n sentences numbered on from the counter, each value within 5% of its base; the counter then moves past them by 1000 to 2000 more |
| Fixtures.NoisySentence | 2021/2021-01-probe-calibration/mockfixture.py:29-36 | one sentence with the given number, every value within 5% of its base |
| ProbeTest.Neg | 2021/2021-01-probe-calibration/probetest.py:146 | numpy.float64 negation: finite exactly when the operand is, with the negated value; NaN stays NaN and the infinities swap |
| ProbeTest.Add | 2021/2021-01-probe-calibration/probetest.py:146 | IEEE 754 addition: finite exactly when both operands are, then the real sum; a NaN operand gives NaN; an infinity absorbs a finite operand |
| ProbeTest.Sub | 2021/2021-01-probe-calibration/probetest.py:146 | IEEE 754 subtraction: finite exactly when both operands are, then the real difference; NaN when an operand is NaN or an infinity is subtracted from itself |
| ProbeTest.Mul | 2021/2021-01-probe-calibration/probetest.py:146 | IEEE 754 multiplication: finite exactly when both operands are, then the real product; a NaN operand gives NaN |
| ProbeTest.Div | 2021/2021-01-probe-calibration/probetest.py:146 | IEEE 754 division, which numpy answers without an exception: finite by non-zero is the real quotient, a non-zero number by 0 is the infinity of its sign, 0 / 0 and a NaN operand give NaN |
| ProbeTest.LineRootFinite | 2021/2021-01-probe-calibration/probetest.py:145-146 | with finite probes and different readings the root is finite: the real interpolation x0 + (-y0 / (y1 - y0))(x1 - x0) |
| ProbeTest.LineRootOnLine | 2021/2021-01-probe-calibration/probetest.py:145-146 | that root lies on the line through (x0, y0) and (x1, y1) at y = 0: (r - x0)(y1 - y0) = -y0 (x1 - x0) |
| ProbeTest.LineRootFlat | 2021/2021-01-probe-calibration/probetest.py:145-146 | equal readings at two finite probes, left to right, give -inf for a positive reading, +inf for a negative one and NaN for 0, and raise nothing |
| ProbeTest.LineRootNaN | 2021/2021-01-probe-calibration/probetest.py:145-146 | a NaN probe or reading, or both probes at the same infinity, give NaN |
| ProbeTest.LineRootProperties | 2021/2021-01-probe-calibration/probetest.py:145-146 | for finite probes and different readings the root is x0 when y0 = 0 and x1 when y1 = 0, and lies between x0 and x1 when y0 and y1 do not share a sign |
| ProbeTest.RootBetween | 2021/2021-01-probe-calibration/probetest.py:146 | the real interpolation is x0 when y0 = 0, x1 when y1 = 0, and between x0 and x1 when y0 and y1 do not share a sign |
| ProbeTest.FractionInUnit | 2021/2021-01-probe-calibration/probetest.py:146 | -y0 / (y1 - y0) is in [0, 1] when y0 and y1 differ and do not share a sign |
| ProbeTest.ScaleBetween | 2021/2021-01-probe-calibration/probetest.py:146 | x0 + f·(x1 - x0) lies between x0 and x1 for f in [0, 1] |
| ProbeTest.ExperimentalMove | 2021/2021-01-probe-calibration/experimentalfixture.py:21-31 | `ExperimentalFixture.moveto` raises ValueError exactly when an angle is NaN (`angle_limits` lets NaN through and `int()` of it raises); otherwise the caller's list is left as it was |
| ProbeTest.CapAt45 | 2021/2021-01-probe-calibration/mockfixture.py:13-14 | an angle above 45, +inf included, becomes 45; any other value, NaN and -inf included, is kept |
| ProbeTest.MockMove | 2021/2021-01-probe-calibration/mockfixture.py:12-15 | `MockFixture.moveto` never raises and leaves the caller's list with each angle capped at 45 |
| ProbeTest.Sampled | 2021/2021-01-probe-calibration/probetest.py:106-107 | succeeds exactly when `moveto` and then the averaged read succeed, giving the list as `moveto` left it and the reading at it; otherwise the first exception |
| ProbeTest.AzProbes | 2021/2021-01-probe-calibration/probetest.py:104-105 | the azimuth search probes interval to the left and to the right of a finite zero azimuth, at its elevation; an infinite or NaN azimuth stays what it is |
| ProbeTest.ElProbes | 2021/2021-01-probe-calibration/probetest.py:113-114 | the elevation search probes interval below and above a finite zero elevation, at its azimuth; an infinite or NaN elevation stays what it is |
| ProbeTest.EstimateAz | 2021/2021-01-probe-calibration/probetest.py:103-110 | the new azimuth estimate keeps the elevation; it raises exactly when one of the two samples raises; the mount is moved to the left probe alone when its sample raised, otherwise to both probes |
| ProbeTest.EstimateEl | 2021/2021-01-probe-calibration/probetest.py:112-119 | the new elevation estimate keeps the azimuth; it raises exactly when one of the two samples raises; the mount is moved to the lower probe alone when its sample raised, otherwise to both probes |
| ProbeTest.FlatAzResponse | 2021/2021-01-probe-calibration/probetest.py:103-110 | equal finite dpB readings at both probes of a finite azimuth make the azimuth estimate -inf, +inf or NaN by the sign of the reading, with no exception |
| ProbeTest.NonFiniteBecomesNaN | 2021/2021-01-probe-calibration/probetest.py:103-119 | with a fixture that leaves the list alone, an infinite or NaN coordinate makes the next estimate of that coordinate NaN |
| ProbeTest.Round | 2021/2021-01-probe-calibration/probetest.py:98-101 | a round that completes had a completed azimuth step and moved the mount exactly four times; every round moves it one to four times |
| ProbeTest.RoundNonFinite | 2021/2021-01-probe-calibration/probetest.py:98-101 | with a fixture that leaves the list alone, a non-finite coordinate comes out of a completed round as NaN |
| ProbeTest.ExperimentalRaisesOnNaN | 2021/2021-01-probe-calibration/probetest.py:98-101 | `ExperimentalFixture` raises ValueError at the first elevation probe after a NaN azimuth estimate, having been moved to the two azimuth probes and that one |
| ProbeTest.Interval | 2021/2021-01-probe-calibration/probetest.py:48-51 | every round's interval is positive |
| ProbeTest.Intervals | 2021/2021-01-probe-calibration/probetest.py:48-51 | the six intervals are 32, 16, 8, 4, 2 and 1 |
| ProbeTest.Search | 2021/2021-01-probe-calibration/probetest.py:49-51 | k rounds move the mount at most four times per round, and exactly 4k times when they complete |
| ProbeTest.Continue | 2021/2021-01-probe-calibration/probetest.py:50 | a further round commands at most four positions, and a completed round follows a completed search and adds exactly four |
| ProbeTest.SearchStep | 2021/2021-01-probe-calibration/probetest.py:49-51 | each round starts from the previous round's zero with the next interval and appends its moves |
| ProbeTest.SearchSticks | 2021/2021-01-probe-calibration/probetest.py:49-51 | after an exception the search stops: later rounds change nothing |
| ProbeTest.SearchNonFiniteStep | 2021/2021-01-probe-calibration/probetest.py:49-52 | with a fixture that leaves the list alone, a coordinate that is non-finite after i rounds is NaN after round i + 1 when that round completes, and `find_zero` then stores NaN |
| ProbeTest.RoundExactForLinear | 2021/2021-01-probe-calibration/probetest.py:98-119 | for a response linear about the true zero, one round lands on it exactly |
| ProbeTest.AzExactForLinear | 2021/2021-01-probe-calibration/probetest.py:103-110 | for a linear dpB the azimuth interpolation finds its zero |
| ProbeTest.LinearRoot | 2021/2021-01-probe-calibration/probetest.py:145-146 | the interpolation of two points of a line recovers the line's root |
| ProbeTest.SearchExactForLinear | 2021/2021-01-probe-calibration/probetest.py:46-53 | any positive number of rounds ends exactly on the zero of a linear response |
| ProbeTest.Grid | 2021/2021-01-probe-calibration/probetest.py:58-63 | the sweep visits 15 × 15 = 225 points |
| ProbeTest.GridProperties | 2021/2021-01-probe-calibration/probetest.py:58-63 | every (5a, 5b) with a, b in -7..7 is visited, at position 15(a + 7) + (b + 7) (alpha outer, beta inner), each point once |
| ProbeTest.GridAt | 2021/2021-01-probe-calibration/probetest.py:58-63 | point (5a, 5b) sits at its grid position |
| ProbeTest.Offset | 2021/2021-01-probe-calibration/probetest.py:69-72 | each commanded mount angle is finite exactly when the zero is, and then minus the zero it is the point's angle; a non-finite zero angle is passed through |
| ProbeTest.ParseField | 2021/2021-01-probe-calibration/probetest.py:141-142 | field i converts by schema entry i: IndexError when the line has no field i, ValueError when `int` or `float` raises |
| ProbeTest.ParseFrom | 2021/2021-01-probe-calibration/probetest.py:141-142 | the remaining schema entries convert exactly when each does, giving their values in schema order |
| ProbeTest.ParseLine | 2021/2021-01-probe-calibration/probetest.py:140-142 | a converted line has one value per schema entry |
| ProbeTest.ShortLineFails | 2021/2021-01-probe-calibration/probetest.py:140-142 | a line with fewer than seven fields raises |
| ProbeTest.ExtraFieldsIgnored | 2021/2021-01-probe-calibration/probetest.py:141 | fields past the seventh are ignored |
| ProbeTest.SameFieldsSameParse | 2021/2021-01-probe-calibration/probetest.py:141-142 | lines that agree on the schema fields convert alike |
| ProbeTest.Parses | 2021/2021-01-probe-calibration/probetest.py:139-142 | one conversion per line |
| ProbeTest.Column | 2021/2021-01-probe-calibration/probetest.py:142 | column i holds schema value i of each line, in order |
| ProbeTest.FirstBad | 2021/2021-01-probe-calibration/probetest.py:139-142 | none exactly when every line converts; otherwise the first line that raises |
| ProbeTest.NamesDistinct | 2021/2021-01-probe-calibration/probetest.py:12-20 | the schema names are distinct |
| ProbeTest.CsvToDict | 2021/2021-01-probe-calibration/probetest.py:135-143 | raises exactly when some line fails, with the first failing line's exception; otherwise the keys are the schema names and column i holds schema value i of every line, in order |
| ProbeTest.EmptySchemaColumns | 2021/2021-01-probe-calibration/probetest.py:137-138 | one empty column per schema name and no other key |
| ProbeTest.FirstBadAt | 2021/2021-01-probe-calibration/probetest.py:139-142 | a failing line after only converting lines is the first failure |
| ProbeTest.AppendRow | 2021/2021-01-probe-calibration/probetest.py:141-142 | one converted line appends value m to the column of schema name m, and adds no key |
| ProbeTest.AppendRowHolds | 2021/2021-01-probe-calibration/probetest.py:139-142 | appending line j keeps the dict equal to the columns of the lines so far |
| ProbeTest.Rig.constructor | 2021/2021-01-probe-calibration/probetest.py:29-40 | the zero is the stored one when the state file exists, else (0, 0); nothing moved or saved |
| ProbeTest.Rig.Sample | 2021/2021-01-probe-calibration/probetest.py:106-107 | records the position commanded and returns what Sampled says of it |
| ProbeTest.Rig.EstimateZeroAz | 2021/2021-01-probe-calibration/probetest.py:103-110 | moves to the positions EstimateAz lists, in order, and returns its estimate or exception |
| ProbeTest.Rig.EstimateZeroEl | 2021/2021-01-probe-calibration/probetest.py:112-119 | moves to the positions EstimateEl lists, in order, and returns its estimate or exception |
| ProbeTest.Rig.EstimateZero | 2021/2021-01-probe-calibration/probetest.py:98-101 | one round of the search, with its moves |
| ProbeTest.Rig.FindZero | 2021/2021-01-probe-calibration/probetest.py:46-53 | six rounds from the stored zero with the moves they make; when they complete, the result, finite or not, becomes the zero and is saved; on an exception neither changes |
| ProbeTest.Rig.SearchRound | 2021/2021-01-probe-calibration/probetest.py:49-51 | one pass of the loop: round i + 1 of the search, with its moves |
| ProbeTest.Rig.AcquirePoint | 2021/2021-01-probe-calibration/probetest.py:68-74 | the mount is moved to the point's angles plus the zero, and the call raises exactly when that `moveto` raises, with its exception |
| ProbeTest.Rig.Sweep | 2021/2021-01-probe-calibration/probetest.py:55-64 | the mount visits the 225 grid points in order, alpha outer and beta inner, each offset by the zero, up to and including the first point whose `moveto` raises; the sweep then raises that point's exception |
| ProbeTest.Rig.SweepRow | 2021/2021-01-probe-calibration/probetest.py:59-64 | the inner loop adds the fifteen points of one alpha in beta order, or stops after the first point that raises |
| ProbeTest.Rig.SweepPoint | 2021/2021-01-probe-calibration/probetest.py:60-64 | one grid point appended to the moves; the sweep fails there exactly when its `moveto` raises |
| ProbeTest.SweepMovesNext | 2021/2021-01-probe-calibration/probetest.py:58-64 | grid point (5a, 5b) is the next one commanded after the points before it |
| ProbeTest.SweepMoves | 2021/2021-01-probe-calibration/probetest.py:58-64 | the first k commanded positions are the first k grid points offset by the zero |
| ProbeTest.SweepFailure | 2021/2021-01-probe-calibration/probetest.py:58-64 | none exactly when every one of the first k commanded positions moves; otherwise the first of them whose `moveto` raises |
| ProbeTest.SweepFailureAt | 2021/2021-01-probe-calibration/probetest.py:58-64 | a failing point after only succeeding ones is the first failure |
| ProbeTest.ExperimentalSweep | 2021/2021-01-probe-calibration/probetest.py:55-74 | `ExperimentalFixture` raises ValueError at the first sweep point when a zero angle is NaN, and never raises otherwise |
| Sensors.HscCountToValue | 2019/2019-06-15-01/process.py:12-16 | a count at 10% of the 14-bit range reads p_min (0 for a gauge sensor, -fss for a differential one) and one at 90% reads fss |
| Sensors.HscEndpoints | 2019/2019-06-15-01/process.py:12-16 | 10% of the 14-bit count range reads p_min (0 for a gauge sensor, -fss for a differential one) and 90% reads p_max = fss |
| Sensors.HscAffine | 2019/2019-06-15-01/process.py:12-16 | the HSC conversion is affine in the count with slope 1.25 (p_max - p_min) / 2^14, so increasing for fss > 0 |
| Sensors.ConvertCounts | 2019/2019-06-15-01/process.py:49-52 | every count is converted with fss 4000 as a differential sensor, one pressure per count, in order |
| Sensors.CountToValue | 2019/2019-05-sensors/process.py:5-8 | the offset count (10% of 2^24 for a gauge sensor, 50% for a differential one) reads 0, 90% reads fss, and for a differential sensor 10% reads -fss |
| Sensors.CountToValueEndpoints | 2019/2019-05-sensors/process.py:5-8 | the offset count (10% gauge, 50% differential of 2^24) reads 0, 90% reads +fss, and for a differential sensor 10% reads -fss |
| Sensors.CountToValueMonotone | 2019/2019-05-sensors/process.py:5-8 | for fss > 0 a larger count never reads a smaller pressure |
| Sensors.PercentFullScale | 2019/2019-05-sensors/process.py:10-12 | ZeroDivisionError exactly for a zero span; otherwise the percentage times the span is 100 times the value |
| Sensors.PercentFullScaleProperties | 2019/2019-05-sensors/process.py:10-12 | 0 is 0% and the whole span is 100% |
| Sensors.PercentSign | 2019/2019-05-sensors/process.py:10-12 | for fss > 0 the percentage has the sign of the value |
| Sensors.ProcessMeasurement | 2019/2019-05-sensors/process.py:14-25 | raises exactly when fss is 0, and then ZeroDivisionError; otherwise reports the applied pressure and the average count's pressure |
| Sensors.ProcessMeasurementSigns | 2019/2019-05-sensors/process.py:14-22 | for fss > 0 the report exists; for ordered counts the minimum's deviation is at most 0 and the maximum's at least 0; the error is 0 exactly when the average reads the applied pressure |
| ProbeInversion.Residual | 2020/2020-03-probe-comparisons/process.py:122-124 | ZeroDivisionError exactly where the model's unit-q dp0 is 0; otherwise the model's ratios minus the measured ones |
| ProbeInversion.Raw2Data | 2020/2020-03-probe-comparisons/process.py:117-130 | ZeroDivisionError exactly when the measured dp0 or the model's unit-q dp0 at the root is 0; otherwise the root's angles and q with q times the model's dp0 equal to the measured dp0 |
| ProbeInversion.RoundTrip | 2020/2020-03-probe-comparisons/process.py:117-130 | at an exact root of the residual, the forward model at the recovered (alpha, beta, q) reproduces the measurement |
| ProbeInversion.RatioScales | 2020/2020-03-probe-comparisons/process.py:127-128 | equal ratios a/d = b/e with d, e non-zero give (e/d)·a = b |
| ProbeInversion.ForwardInverse | 2020/2020-03-probe-comparisons/process.py:117-140 | a measurement made by the forward model at (alpha, beta, q) has (alpha, beta) as an exact root, and the inversion there returns (alpha, beta, q) |
| ProbeInversion.ScaleKeepsRatios | 2020/2020-03-probe-comparisons/process.py:119-128 | scaling a measurement by a non-zero q keeps its ratios, and q is the quotient of the dp0 components |
| SerialLines.Normalize | 2019/2019-06-15-01/read_serial.py:19 | reading carriage returns as line feeds keeps the length |
| SerialLines.Fields | 2019/2019-06-15-01/read_serial.py:18-24 | there is always an open line, possibly empty |
| SerialLines.NonEmpty | 2019/2019-06-15-01/read_serial.py:20 | dropping empty lines never adds any |
| SerialLines.Stamped | 2019/2019-06-15-01/read_serial.py:21 | one printed line per completed line |
| SerialLines.ConsPush | 2019/2019-06-15-01/read_serial.py:18-24 | splitting commutes: prefixing a character and appending one can be done in either order |
| SerialLines.ConsPushInside | 2019/2019-06-15-01/read_serial.py:18-24 | the same with more than one field, when neither character is the separator |
| SerialLines.SplitSnoc | 2019/2019-06-15-01/read_serial.py:19-24 | appending a character to the input either opens a new field (a terminator) or extends the open one |
| SerialLines.StepLemma | 2019/2019-06-15-01/read_serial.py:19-24 | one character: a terminator closes the buffer, adding it to the completed lines when non-empty; any other character is appended to the buffer |
| SerialLines.LineBuffer.constructor | 2019/2019-06-15-01/read_serial.py:15 | the buffer starts empty and nothing is printed |
| SerialLines.LineBuffer.Feed | 2019/2019-06-15-01/read_serial.py:18-24 | a terminator prints the stamped buffer when it is non-empty and clears it; any other character is appended; the buffer and output stay those of everything received |
| SerialLines.ReadSerial | 2019/2019-06-15-01/read_serial.py:15-24 | after any input the printed lines are the completed non-empty lines in order, each with its own timestamp, and the buffer holds what followed the last terminator |
| SerialLines.LinesWellFormed | 2019/2019-06-15-01/read_serial.py:19-24 | every printed line is non-empty and holds no terminator, and neither does the buffer |
| SerialLines.UnterminatedSnoc | 2019/2019-06-15-01/read_serial.py:19-24 | one more character adds itself to the input without terminators, unless it is a terminator |
| SerialLines.ConcatSnoc | 2019/2019-06-15-01/read_serial.py:21 | concatenation of lines is compositional |
| SerialLines.LinesConcat | 2019/2019-06-15-01/read_serial.py:18-24 | nothing is lost or reordered: the printed lines followed by the buffer spell the input without its terminators |
| SerialLines.TerminatorPair | 2019/2019-06-15-01/read_serial.py:19-22 | a second terminator right after a first (a CR LF pair) prints nothing |
| Subset.BisectLeft | 2019/2019-04-28-01/process.py:98 | `bisect_left` over the whole list answers a position in [0, len] |
| Subset.BisectRight | 2019/2019-04-28-01/process.py:99 | `bisect_right` over the whole list answers a position in [0, len] |
| DatasetAverage.FirstVarPrefix | 2019/2019-06-01-01/process.py:20-24 | one more key sets the sentinel only when it is still '' and the key is not 'time' |
| Rebase.ShiftTimes | 2019/2019-06-01-01/process.py:111-112 | rebasing c times keeps the length of the column |
| Rebase.ShiftEachAt | 2019/2019-06-01-01/process.py:111-112 | rebasing every dataset keeps each time column's length and subtracts the minimum from each time |
| Fixtures.ExperimentalFixture.constructor | 2021/2021-01-probe-calibration/experimentalfixture.py:15-19 | the mount starts at (0, 0) with sequence number 0 and no servo command sent |
| Fixtures.MockFixture.constructor | 2021/2021-01-probe-calibration/mockfixture.py:7-10 | the mock starts at a fresh [0, 0], speed 0 and sequence number 0 |

## Left out

- Plotting: every matplotlib call, `compare_data_theory`, `plot_scaling`, `plotpressures`, `plot_calibration`, the numpy grids and `np.vectorize`. They only draw.
- Numerical root finding: `spo.root` and `root_scalar` are not modelled. `ProbeInversion.Raw2Data` takes the solver's answer as an argument and uses it unchecked, as the source does. Whether the solver converges is not modelled.
- `alphabeta.py` and `angle_control.py` are trigonometry, a root finder and servo I/O. They are not part of this model; `alpha_beta_to_az_el` is the parameter `toAzEl` of `ProbeTest.Rig.Sweep` and `ProbeTest.Rig.AcquirePoint`.
- Trigonometry and square roots: `cos` and `sqrt` are uninterpreted, so no numeric value of a coefficient is claimed. `q_to_ias` (a square root) and `in_h2o_to_kias` are left out for the same reason.
- Floating point: all arithmetic is exact real arithmetic, except in `ProbeTest`, where `numpy.float64` values add the infinities and NaN. `%f` formatting, IEEE rounding and `int()` of huge floats are not modelled.
- `ProbeTest.F64`: signed zero is not modelled. Every zero is +0.0, so `ProbeTest.Div` of a positive number by zero gives +inf where numpy can give -inf for -0.0. Finite results are exact, not rounded.
- `ProbeTest.SearchNonFiniteStep`: a NaN estimate sticking through the zero search is stated one round at a time. No single lemma covers all six rounds.
- `ColumnReader.Read`: the CSV reader's quoting and tokenising are not modelled. Rows arrive as field lists that `float()` has already seen, with `None` where it raised.
- `CalibrationRead.ReadCalibration`: requires the header names to be distinct. `csv.DictReader` keeps only the last cell of a repeated name, and that merging is not modelled. The logs makeplot reads are written by `ProbeTest.__save_csv` with nine distinct names (2021/2021-01-probe-calibration/probetest.py:90). Rows of other lengths are modelled: a short row gives `TypeError` from `float(None)`, and a long row files its surplus cells under the `None` key, so `results[None]` raises `KeyError` (makeplot.py:69-70).
- `Common.Strip`: `str.strip` removes only the six ASCII whitespace characters. `ReadProbe.Lower` lower-cases only A-Z. Unicode whitespace and case folding are left out.
- I/O: opening files, sockets, the serial port, `os.popen2`/`grep`/`sed` pipelines, `json` and `state.json` are left out. `ProbeTest.Rig.constructor` takes the stored zero as an optional argument, and `FindZero` records the saved zero in a field.
- `ProbeTest.Rig.AcquirePoint`: the `input()` confirmation loop, the retry on "no" and `__save_csv` are not modelled, nor are the exceptions that `fixture.read`, `__csv_to_dict` and the CSV writer can raise after the move. The model states only the mount command and its offset, which is what the method guarantees.
- `ProbeTest.Rig.FindZero`: `__read_averaged`'s prompts and `numpy.mean` over the fixture's lines are abstracted into the `sense` reading function.
- `read_probe.py` runs forever on a socket. `ReadProbe.Monitor` models the loop over any finite prefix of the stream. The unused `alpha_total`/`beta_total` globals are left out.
- `Fixtures.ExperimentalFixture.Read`: the socket is a finite stream, and running out of lines is reported as `None` where the source would block. The `print` calls and the servo chain's own behaviour are not modelled; `goto` is recorded as a command.
- `Fixtures.MockFixture.Read`: the `%f`/`%d` formatting of a sentence is not modelled. A sentence is the record of the values it prints.
- `process_sensor` and the top-level script code only read JSON and print, so they are not part of this model. `Sensors.ProcessMeasurement` returns the numbers `process_measurement` prints.
- `CalibrationReduce`: the order of the output rows is the order in which each set point first appears. That is the order of a Python 3 dict, which keeps insertion order; the model takes it as the semantics and does not model an interpreter that does not.
- `DatasetAverage.MovingAverageDataset`: the order of Python 2 dict iteration is an argument, so the model covers every order rather than the interpreter's.
- Series.AccelTimesAligned: stated for a window no longer than the data, as in the script (a window of 100 on a whole flight log). The slice for a longer window is covered by `Common.PySliceLast`. `read_accels`'s file reading is left out.
- `Rebase.MinimizeTimeListsInPlace`: takes the time lists themselves, so the `KeyError` of the `dataset['time']` lookups (2019/2019-04-28-01/process.py:109, 112) is not modelled. The only caller (process.py:122) passes the accelerometer and pressure datasets, which both have a `time` column.
- `SerialLines.LineBuffer`: `ser.read()` returning several characters at once is modelled as feeding them one by one, which is what the `for` loop does.
- `probefixture.py` is a base class whose methods do nothing, and `test.py` a command-line driver, so neither is part of this model.

## Findings

| source | as written | input that shows it | evidently intended | confidence | as-written member | corrected member |
|---|---|---|---|---|---|---|
| 2019/2019-06-01-01/process.py:26 (same line in 2019/2019-12-31-01/process.py:27) | `time` is cut with `len(dataset[firstvar])`, the length of the INPUT column, so on equal-length columns nothing is cut | `{time: [0, 1], x: [1, 1]}` with window 2: x is averaged to one sample, but both times are kept | cut time with the length of the averaged column `result[firstvar]`, so each averaged sample gets the time of the last raw sample in its window | not executed | DatasetAverage.MovingAverageDataset, DatasetAverage.AsWrittenTimeLengthCounterexample | DatasetAverage.MovingAverageDatasetAligned |
| 2021/2021-01-probe-calibration/makeplot.py:108-109 | the `count`/`total` updates are indented inside `if not reduced.get(k)`, so only the first row of each (alpha, beta) is counted | two rows at set point (0, 0) with dp0_q 1 and 3: the output is 1 | count every row, so that each output is the mean of its group, as the name `reduce_average` says | not executed | CalibrationReduce.ReduceAverage, CalibrationReduce.ReduceAverageCounterexample | CalibrationReduce.ReduceAverageMean |
