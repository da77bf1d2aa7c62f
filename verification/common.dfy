/** Values, errors and list helpers shared by the analysis scripts. */
module Common {

  datatype Option<+T> = None | Some(value: T)

  datatype Result<+T, +E> = Ok(value: T) | Err(error: E)

  /** The Python exceptions the scripts can raise on bad input. */
  datatype PyError =
    | KeyError       // a dictionary lookup of a missing key
    | IndexError     // a list index past the end
    | ValueError     // float()/int() of an unparseable string, min() of an empty list, numpy on empty input
    | TypeError      // float(None), e.g. a short csv.DictReader row
    | ZeroDivisionError

  predicate Distinct<T(==)>(s: seq<T>) {
    forall i, j :: 0 <= i < j < |s| ==> s[i] != s[j]
  }

  /** Ascending order, as `bisect` expects. */
  predicate Sorted(s: seq<real>) {
    forall i, j :: 0 <= i <= j < |s| ==> s[i] <= s[j]
  }

  function Sum(s: seq<real>): real {
    if s == [] then 0.0 else Sum(s[..|s| - 1]) + s[|s| - 1]
  }

  /** Python's builtin min on a non-empty list. */
  function Min(s: seq<real>): (m: real)
    requires |s| > 0
    ensures m in s
    ensures forall i :: 0 <= i < |s| ==> m <= s[i]
  {
    if |s| == 1 then s[0]
    else
      var rest := Min(s[1..]);
      assert forall i :: 1 <= i < |s| ==> s[i] == s[1..][i - 1];
      if s[0] <= rest then s[0] else rest
  }

  lemma {:induction false} MinOfSorted(s: seq<real>)
    requires |s| > 0 && Sorted(s)
    ensures Min(s) == s[0]
  {
  }

  /** Every element minus `d`: the `x - min_time` rebasing map. */
  function Shift(s: seq<real>, d: real): (r: seq<real>)
    ensures |r| == |s|
  {
    seq(|s|, i requires 0 <= i < |s| => s[i] - d)
  }

  /** Rebasing keeps the differences between samples, hence their order. */
  lemma ShiftKeepsDifferences(s: seq<real>, d: real)
    ensures forall i, j :: 0 <= i < |s| && 0 <= j < |s| ==> Shift(s, d)[i] - Shift(s, d)[j] == s[i] - s[j]
    ensures Sorted(s) ==> Sorted(Shift(s, d))
  {
  }

  /** Rebasing by the minimum makes the minimum 0 and every value non-negative. */
  lemma {:induction false} ShiftByMin(s: seq<real>)
    requires |s| > 0
    ensures Min(Shift(s, Min(s))) == 0.0
    ensures forall i :: 0 <= i < |s| ==> Shift(s, Min(s))[i] >= 0.0
  {
    var r := Shift(s, Min(s));
    var k :| 0 <= k < |s| && s[k] == Min(s);
    assert r[k] == 0.0;
    var m := Min(r);
    assert m <= r[k];
    assert m in r;
  }

  lemma ShiftZero(s: seq<real>)
    ensures Shift(s, 0.0) == s
  {
  }

  lemma ShiftTwice(s: seq<real>, a: real, b: real)
    ensures Shift(Shift(s, a), b) == Shift(s, a + b)
  {
  }

  /** `d[k][i]` on a dict of lists, for an index i >= 0. */
  function At(d: map<string, seq<real>>, k: string, i: nat): (r: Result<real, PyError>)
    ensures r.Ok? <==> k in d && i < |d[k]|
    ensures r.Ok? ==> r.value == d[k][i]
    ensures r.Err? ==> r.error == (if k in d then IndexError else KeyError)
  {
    if k !in d then Err(KeyError) else if i >= |d[k]| then Err(IndexError) else Ok(d[k][i])
  }

  /** Python's normalisation of a slice bound `i` for a list of length `n`. */
  function PyIndex(i: int, n: nat): (k: nat)
    ensures k <= n
  {
    if i < 0 then (if i + n < 0 then 0 else i + n) else if i > n then n else i
  }

  /** Python's `s[i:j]`, negative and out-of-range bounds included. */
  function PySlice<T>(s: seq<T>, i: int, j: int): (r: seq<T>)
    ensures |r| <= |s|
  {
    var a, b := PyIndex(i, |s|), PyIndex(j, |s|);
    if a <= b then s[a..b] else []
  }

  /** Python's `s[i:]`. */
  function PySliceFrom<T>(s: seq<T>, i: int): (r: seq<T>)
    ensures |r| <= |s|
  {
    s[PyIndex(i, |s|)..]
  }

  /** `s[len(s) - k:]` keeps the last k elements when k <= len(s); for a longer k the
      negative start counts from the end again, and for k >= 2 * len(s) the whole list is kept. */
  lemma PySliceLast<T>(s: seq<T>, k: nat)
    ensures k <= |s| ==> PySliceFrom(s, |s| - k) == s[|s| - k..] && |PySliceFrom(s, |s| - k)| == k
    ensures |s| < k <= 2 * |s| ==> PySliceFrom(s, |s| - k) == s[2 * |s| - k..]
    ensures k >= 2 * |s| ==> PySliceFrom(s, |s| - k) == s
  {
    if k >= 2 * |s| {
      assert s[0..] == s;
    }
  }

  /** Python's `str.strip()` for the ASCII whitespace characters. */
  predicate IsSpace(c: char) {
    c == ' ' || c == '\t' || c == '\n' || c == '\r' || c == '\U{000B}' || c == '\U{000C}'
  }

  /** Everything of `s` outside `s[i..j]` is whitespace. */
  predicate SpaceOutside(s: string, i: nat, j: nat)
    requires i <= j <= |s|
  {
    (forall k :: 0 <= k < i ==> IsSpace(s[k])) && (forall k :: j <= k < |s| ==> IsSpace(s[k]))
  }

  /** `s.lstrip()`. */
  function StripLeft(s: string): (r: string)
    ensures |r| <= |s| && (r == [] || !IsSpace(r[0]))
  {
    if s != [] && IsSpace(s[0]) then StripLeft(s[1..]) else s
  }

  /** `s.rstrip()`. */
  function StripRight(s: string): (r: string)
    ensures |r| <= |s| && (r == [] || !IsSpace(r[|r| - 1]))
    ensures r != [] ==> r[0] == s[0]
  {
    if s != [] && IsSpace(s[|s| - 1]) then StripRight(s[..|s| - 1]) else s
  }

  /** `s.strip()`. */
  function Strip(s: string): (r: string)
    ensures r == [] || (!IsSpace(r[0]) && !IsSpace(r[|r| - 1]))
  {
    StripRight(StripLeft(s))
  }

  /** `lstrip` drops exactly the leading whitespace: what is left is a suffix of s,
      and everything before it is whitespace. */
  lemma {:induction false} StripLeftIsSuffix(s: string)
    ensures var r := StripLeft(s);
            r == s[|s| - |r|..] && SpaceOutside(s, |s| - |r|, |s|)
  {
    if s != [] && IsSpace(s[0]) {
      StripLeftIsSuffix(s[1..]);
    }
  }

  /** `rstrip` drops exactly the trailing whitespace: what is left is a prefix of s,
      and everything after it is whitespace. */
  lemma {:induction false} StripRightIsPrefix(s: string)
    ensures var r := StripRight(s);
            r == s[..|r|] && SpaceOutside(s, 0, |r|)
  {
    if s != [] && IsSpace(s[|s| - 1]) {
      StripRightIsPrefix(s[..|s| - 1]);
    }
  }

  /** `strip` keeps the middle of s: the result is a slice of s outside which there is
      only whitespace (and, by Strip's contract, it neither starts nor ends with any). */
  lemma StripIsInfix(s: string)
    ensures exists i, j :: 0 <= i <= j <= |s| && Strip(s) == s[i..j] && SpaceOutside(s, i, j)
  {
    var t := StripLeft(s);
    var r := StripRight(t);
    var i := |s| - |t|;
    StripLeftIsSuffix(s);
    StripRightIsPrefix(t);
    assert forall k :: i + |r| <= k < |s| ==> s[k] == t[k - i];
    assert Strip(s) == s[i..i + |r|] && SpaceOutside(s, i, i + |r|);
  }

  /** Python's `str.split(sep)`: the fields between occurrences of `sep`. */
  function Split(s: string, sep: char): (r: seq<string>)
    ensures |r| >= 1
  {
    if s == [] then [[]]
    else
      var rest := Split(s[1..], sep);
      if s[0] == sep then [[]] + rest
      else [[s[0]] + rest[0]] + rest[1..]
  }

  /** No field holds the separator. */
  lemma {:induction false} SplitFieldsLackSep(s: string, sep: char)
    ensures forall i :: 0 <= i < |Split(s, sep)| ==> sep !in Split(s, sep)[i]
  {
    if s != [] {
      SplitFieldsLackSep(s[1..], sep);
      var rest := Split(s[1..], sep);
      var r := Split(s, sep);
      if s[0] != sep {
        forall i | 0 <= i < |r|
          ensures sep !in r[i]
        {
          if i > 0 {
            assert r[i] == rest[i];
          }
        }
      }
    }
  }

  /** `sep.join(fields)`. */
  function Join(fields: seq<string>, sep: char): string
    requires |fields| >= 1
  {
    if |fields| == 1 then fields[0] else fields[0] + [sep] + Join(fields[1..], sep)
  }

  /** Splitting then joining with the same separator gives back the line. */
  lemma {:induction false} SplitJoin(s: string, sep: char)
    ensures Join(Split(s, sep), sep) == s
  {
    if s != [] {
      var rest := Split(s[1..], sep);
      SplitJoin(s[1..], sep);
      if s[0] == sep {
        assert Split(s, sep) == [[]] + rest;
        assert ([[]] + rest)[1..] == rest;
      } else {
        var r := Split(s, sep);
        assert r == [[s[0]] + rest[0]] + rest[1..];
        if |rest| == 1 {
          assert r == [[s[0]] + rest[0]];
        } else {
          assert r[1..] == rest[1..];
          assert Join(rest, sep) == rest[0] + [sep] + Join(rest[1..], sep);
        }
      }
    }
  }
}

/** A Python dict of numeric column lists that functions update in place. */
module Tables {

  class Table {
    var columns: map<string, seq<real>>

    constructor (columns: map<string, seq<real>>)
      ensures this.columns == columns
    {
      this.columns := columns;
    }
  }
}
