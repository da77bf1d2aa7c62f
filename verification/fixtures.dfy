/** The two probe fixtures of the 2021 calibration rig: the servo-driven mount,
    which clamps the commanded angles and filters `$A` sentences off the probe's
    stream, and the mock, which synthesises noisy sentences. */
module Fixtures {
  import opened Common

  /** Python's `int()` on a float: truncation toward zero. */
  function Trunc(x: real): (n: int)
    ensures x >= 0.0 ==> 0.0 <= n as real <= x < n as real + 1.0
    ensures x < 0.0 ==> n as real - 1.0 < x <= n as real <= 0.0
  {
    if x >= 0.0 then x.Floor else -((-x).Floor)
  }

  lemma TruncMonotone(x: real, y: real)
    requires x <= y
    ensures Trunc(x) <= Trunc(y)
  {
  }

  /** `angle_limits`: the angle clamped to [-45, 45]. */
  function AngleLimits(degrees: real): (d: real)
    ensures -45.0 <= d <= 45.0
    ensures -45.0 <= degrees <= 45.0 ==> d == degrees
    ensures degrees < -45.0 ==> d == -45.0
    ensures degrees > 45.0 ==> d == 45.0
  {
    var lo := if degrees > -45.0 then degrees else -45.0;
    if lo < 45.0 then lo else 45.0
  }

  /** Clamping twice is clamping once. */
  lemma AngleLimitsIdempotent(degrees: real)
    ensures AngleLimits(AngleLimits(degrees)) == AngleLimits(degrees)
  {
  }

  /** `count`: the servo count of an angle, 0.29 degrees per count about 512,
      clamped to the 10-bit range. */
  function Count(degrees: real): (c: int)
    ensures 0 <= c <= 1023
  {
    var c := Trunc(degrees / 0.29) + 512;
    var c1 := if c > 0 then c else 0;
    if c1 < 1023 then c1 else 1023
  }

  /** 0 degrees is count 512, and more degrees never give fewer counts. */
  lemma CountProperties(d0: real, d1: real)
    ensures Count(0.0) == 512
    ensures d0 <= d1 ==> Count(d0) <= Count(d1)
  {
    if d0 <= d1 {
      assert d0 / 0.29 <= d1 / 0.29;
      TruncMonotone(d0 / 0.29, d1 / 0.29);
    }
  }

  /** Inside the clamp range a count step is at most 0.29 degrees wide: the count
      of an angle in [-45, 45] is 512 plus the truncated number of steps. */
  lemma CountInRange(degrees: real)
    requires -45.0 <= degrees <= 45.0
    ensures Count(degrees) == Trunc(degrees / 0.29) + 512
  {
    assert -155.2 < degrees / 0.29 < 155.2;
  }

  /** A line is a data sentence when its first comma field, after stripping, is `$A`. */
  predicate IsDataSentence(line: string) {
    Split(Strip(line), ',')[0] == "$A"
  }

  /** The stripped data sentences among the first k lines of the stream. */
  function Accepted(stream: seq<string>, k: nat): (r: seq<string>)
    requires k <= |stream|
    ensures |r| <= k
  {
    if k == 0 then []
    else if IsDataSentence(stream[k - 1]) then Accepted(stream, k - 1) + [Strip(stream[k - 1])]
    else Accepted(stream, k - 1)
  }

  /** The sentences accepted from a prefix are a prefix of those accepted from the stream. */
  lemma {:induction false} AcceptedPrefix(stream: seq<string>, j: nat, k: nat)
    requires j <= k <= |stream|
    ensures |Accepted(stream, j)| <= |Accepted(stream, k)|
    ensures Accepted(stream, j) == Accepted(stream, k)[..|Accepted(stream, j)|]
    decreases k
  {
    if j < k {
      AcceptedPrefix(stream, j, k - 1);
      var m := |Accepted(stream, j)|;
      if IsDataSentence(stream[k - 1]) {
        assert Accepted(stream, k)[..m] == Accepted(stream, k - 1)[..m];
      }
    }
  }

  /** Sentences of the form `$A,...` pass the filter unchanged. */
  lemma DataSentenceKept(rest: string)
    requires forall i :: 0 <= i < |rest| ==> !IsSpace(rest[i])
    ensures IsDataSentence("$A," + rest)
    ensures Strip("$A," + rest) == "$A," + rest
  {
    var s := "$A," + rest;
    assert StripLeft(s) == s;
    if rest == [] {
      assert StripRight(s) == s;
    } else {
      assert !IsSpace(s[|s| - 1]);
      assert StripRight(s) == s;
    }
    assert s[1..] == "A," + rest && s[1..][1..] == "," + rest && s[1..][1..][1..] == rest;
    var r2 := Split(s[1..][1..], ',');
    assert r2[0] == [];
    var r1 := Split(s[1..], ',');
    assert r1[0] == ['A'] + r2[0];
    assert Split(s, ',')[0] == ['$'] + r1[0];
  }

  /** Every accepted sentence has `$A` as its first field. */
  lemma AcceptedAreData(stream: seq<string>, k: nat)
    requires k <= |stream|
    ensures forall i :: 0 <= i < |Accepted(stream, k)| ==> Split(Accepted(stream, k)[i], ',')[0] == "$A"
  {
    if k > 0 {
      AcceptedAreData(stream, k - 1);
    }
  }

  /** The servo mount: the last commanded angles and the log of servo commands. */
  class ExperimentalFixture {
    /** `__az_el`: the clamped angles last commanded. */
    var azEl: (real, real)
    /** `__seq`. */
    var seqNo: int
    /** The `goto` commands sent to the servo chain: servo id and count. */
    var commands: seq<(int, int)>

    const AzId: int := 1
    const ElId: int := 2

    /** `__init__`, less the opening of the servo chain. */
    constructor ()
      ensures azEl == (0.0, 0.0) && seqNo == 0 && commands == []
    {
      azEl := (0.0, 0.0);
      seqNo := 0;
      commands := [];
    }

    /** `moveto`: stores the clamped angles, then commands azimuth, then elevation. */
    method MoveTo(az: real, el: real)
      modifies this`azEl, this`commands
      ensures azEl == (AngleLimits(az), AngleLimits(el))
      ensures commands == old(commands) + [(AzId, Count(azEl.0)), (ElId, Count(azEl.1))]
    {
      azEl := (AngleLimits(az), AngleLimits(el));
      commands := commands + [(AzId, Count(azEl.0))];
      commands := commands + [(ElId, Count(azEl.1))];
    }

    /** `read(n)`: reads stripped lines until n of them are `$A` sentences; a
        stream that ends first is `None` (the fixture would wait forever). */
    method Read(n: nat, stream: seq<string>) returns (r: Option<seq<string>>)
      ensures r.Some? <==> n <= |Accepted(stream, |stream|)|
      ensures r.Some? ==> r.value == Accepted(stream, |stream|)[..n]
    {
      var got: seq<string> := [];
      var pos := 0;
      for i := 0 to n
        invariant pos <= |stream| && got == Accepted(stream, pos) && |got| == i
      {
        while true
          invariant pos <= |stream| && got == Accepted(stream, pos) && |got| == i
          decreases |stream| - pos
        {
          if pos == |stream| {
            AcceptedPrefix(stream, pos, |stream|);
            return None;
          }
          var s := Strip(stream[pos]);
          var fields := Split(s, ',');
          pos := pos + 1;
          if |fields| > 0 && fields[0] == "$A" {
            got := got + [s];
            break;
          }
        }
      }
      AcceptedPrefix(stream, pos, |stream|);
      return Some(got);
    }
  }

  /** The mock fixture's base readings before noise. */
  datatype Base = Base(baro: real, oat: real, dp0: real, dpA: real, dpB: real)

  /** One synthesised `$A` sentence, as the values it prints. */
  datatype Sentence = Sentence(seqNo: int, baro: real, oat: real, dp0: real, dpA: real, dpB: real)

  /** `q`: dynamic pressure of air at 1.225 kg/m^3 at mph miles per hour. */
  function MockQ(mph: int): (q: real)
    ensures q >= 0.0
    ensures q == 0.0 <==> mph == 0
  {
    var v := mph as real * 0.44704;
    SquarePositive(v);
    0.5 * 1.225 * (v * v)
  }

  lemma SquarePositive(v: real)
    ensures v * v >= 0.0
    ensures v != 0.0 ==> v * v > 0.0
  {
    if v < 0.0 {
      assert v * v == (-v) * (-v);
    }
  }

  /** The base values `read` derives from the angles and q: dpA follows elevation,
      dpB azimuth, and dp0 takes the rest of q. */
  function MockBase(az: real, el: real, q: real): (b: Base)
    ensures b.dp0 + b.dpA + b.dpB == q
    ensures b.baro == 101325.0 && b.oat == 25.0
  {
    var dpA := (el / 45.0) * q + 15.0;
    var dpB := (az / 45.0) * q + 15.0;
    Base(101325.0, 25.0, q - dpA - dpB, dpA, dpB)
  }

  function Abs(x: real): real {
    if x < 0.0 then -x else x
  }

  /** `noise(v)` with the uniform draw u in [-1, 1]. */
  function Noise(value: real, u: real): (x: real)
    ensures -1.0 <= u <= 1.0 ==> Near(x, value)
  {
    if -1.0 <= u <= 1.0 then ScaledBound(u, value); value + u * value * 0.05
    else value + u * value * 0.05
  }

  /** x lies within 5% of |v| of v. */
  predicate Near(x: real, v: real) {
    -0.05 * Abs(v) <= x - v <= 0.05 * Abs(v)
  }

  lemma NoiseBound(value: real, u: real)
    requires -1.0 <= u <= 1.0
    ensures Near(Noise(value, u), value)
  {
    ScaledBound(u, value);
  }

  /** |u v| <= |v| for u in [-1, 1]. */
  lemma ScaledBound(u: real, v: real)
    requires -1.0 <= u <= 1.0
    ensures -Abs(v) <= u * v <= Abs(v)
  {
    if v >= 0.0 {
      NonNegativeProduct(1.0 - u, v);
      NonNegativeProduct(1.0 + u, v);
    } else {
      NonNegativeProduct(1.0 - u, -v);
      NonNegativeProduct(1.0 + u, -v);
    }
  }

  lemma NonNegativeProduct(a: real, b: real)
    requires a >= 0.0 && b >= 0.0
    ensures a * b >= 0.0
  {
  }

  /** Every value of the sentence is within 5% of its base. */
  predicate NearBase(s: Sentence, b: Base) {
    Near(s.baro, b.baro) && Near(s.oat, b.oat) && Near(s.dp0, b.dp0) && Near(s.dpA, b.dpA) && Near(s.dpB, b.dpB)
  }

  /** The mock: the caller's az/el list (kept by reference), the speed and the
      sentence counter. */
  class MockFixture {
    var azEl: array<real>
    var mph: int
    var seqNo: int

    ghost predicate Valid()
      reads this
    {
      azEl.Length >= 2
    }

    constructor ()
      ensures Valid() && fresh(azEl) && azEl[..] == [0.0, 0.0] && mph == 0 && seqNo == 0
    {
      azEl := new real[2] [0.0, 0.0];
      mph := 0;
      seqNo := 0;
    }

    /** `moveto`: caps each component at 45 from above, in the caller's list, and keeps
        that very list; a list too short raises after the components it reached. */
    method MoveTo(a: array<real>) returns (err: Option<PyError>)
      requires Valid()
      modifies this`azEl, a
      ensures Valid()
      ensures err.Some? <==> a.Length < 2
      ensures err.Some? ==> err.value == IndexError && azEl == old(azEl)
      ensures err.None? ==> azEl == a
      ensures forall i :: 0 <= i < a.Length && i < 2 ==> a[i] == (if old(a[i]) > 45.0 then 45.0 else old(a[i]))
      ensures forall i :: 2 <= i < a.Length ==> a[i] == old(a[i])
    {
      if a.Length < 1 {
        return Some(IndexError);
      }
      if a[0] > 45.0 {
        a[0] := 45.0;
      }
      if a.Length < 2 {
        return Some(IndexError);
      }
      if a[1] > 45.0 {
        a[1] := 45.0;
      }
      azEl := a;
      return None;
    }

    /** `set_mph`: keeps `int(mph)`. */
    method SetMph(speed: real)
      modifies this`mph
      ensures mph == Trunc(speed)
    {
      mph := Trunc(speed);
    }

    /** `read(n)`: n sentences numbered on from the counter, each value its base
        plus up to 5% noise; the counter then jumps by 1000 to 2000 more. */
    method Read(n: nat) returns (data: seq<Sentence>)
      requires Valid()
      modifies this`seqNo
      ensures |data| == n
      ensures forall i :: 0 <= i < n ==> data[i].seqNo == old(seqNo) + i
      ensures forall i :: 0 <= i < n ==> NearBase(data[i], MockBase(azEl[0], azEl[1], MockQ(mph)))
      ensures old(seqNo) + n + 1000 <= seqNo <= old(seqNo) + n + 2000
    {
      var q := MockQ(mph);
      var base := MockBase(azEl[0], azEl[1], q);
      data := [];
      for i := 0 to n
        invariant |data| == i && seqNo == old(seqNo) + i
        invariant forall j :: 0 <= j < i ==> data[j].seqNo == old(seqNo) + j && NearBase(data[j], base)
      {
        var s := NoisySentence(seqNo, base);
        data := data + [s];
        seqNo := seqNo + 1;
      }
      var jump :| 1000 <= jump <= 2000;
      seqNo := seqNo + jump;
    }
  }

  /** One sentence: each value drawn with its own uniform factor in [-1, 1]. */
  method NoisySentence(seqNo: int, b: Base) returns (s: Sentence)
    ensures s.seqNo == seqNo && NearBase(s, b)
  {
    var u0 :| -1.0 <= u0 <= 1.0;
    var u1 :| -1.0 <= u1 <= 1.0;
    var u2 :| -1.0 <= u2 <= 1.0;
    var u3 :| -1.0 <= u3 <= 1.0;
    var u4 :| -1.0 <= u4 <= 1.0;
    NoiseBound(b.baro, u0);
    NoiseBound(b.oat, u1);
    NoiseBound(b.dp0, u2);
    NoiseBound(b.dpA, u3);
    NoiseBound(b.dpB, u4);
    s := Sentence(seqNo, Noise(b.baro, u0), Noise(b.oat, u1), Noise(b.dp0, u2), Noise(b.dpA, u3), Noise(b.dpB, u4));
  }
}
