/** The serial logger of the 2019-06-15 drift test: characters arrive one at a time,
    carriage returns and line feeds end a line, and every non-empty line is printed
    after a millisecond timestamp and a comma. */
module SerialLines {
  import opened Common

  predicate IsTerminator(c: char) {
    c == '\r' || c == '\n'
  }

  /** The input with every carriage return read as a line feed. */
  function Normalize(s: string): (r: string)
    ensures |r| == |s|
  {
    seq(|s|, i requires 0 <= i < |s| => if s[i] == '\r' then '\n' else s[i])
  }

  /** The fields between terminators, the last one still open. */
  function Fields(s: string): (r: seq<string>)
    ensures |r| >= 1
  {
    Split(Normalize(s), '\n')
  }

  /** The fields of a list that are not empty, in order. */
  function NonEmpty(fs: seq<string>): (r: seq<string>)
    ensures |r| <= |fs|
  {
    if fs == [] then []
    else NonEmpty(fs[..|fs| - 1]) + (if fs[|fs| - 1] == [] then [] else [fs[|fs| - 1]])
  }

  /** The lines that have been terminated: the closed fields that are not empty. */
  function Completed(s: string): seq<string> {
    var f := Fields(s);
    NonEmpty(f[..|f| - 1])
  }

  /** The characters received since the last terminator. */
  function Pending(s: string): string {
    var f := Fields(s);
    f[|f| - 1]
  }

  /** The printed output: the k-th line gets the k-th clock reading. */
  function Stamped(lines: seq<string>, stamp: nat -> string): (r: seq<string>)
    ensures |r| == |lines|
  {
    seq(|lines|, k requires 0 <= k < |lines| => stamp(k) + "," + lines[k])
  }

  /** What `str.split` does when one more character is appended. */
  function SplitPush(fs: seq<string>, c: char, sep: char): seq<string>
    requires |fs| >= 1
  {
    if c == sep then fs + [[]] else fs[..|fs| - 1] + [fs[|fs| - 1] + [c]]
  }

  /** What `str.split` does when one more character is put in front. */
  function SplitCons(x: char, fs: seq<string>, sep: char): seq<string>
    requires |fs| >= 1
  {
    if x == sep then [[]] + fs else [[x] + fs[0]] + fs[1..]
  }

  lemma ConsPush(x: char, fs: seq<string>, c: char, sep: char)
    requires |fs| >= 1
    ensures SplitCons(x, SplitPush(fs, c, sep), sep) == SplitPush(SplitCons(x, fs, sep), c, sep)
  {
    if x == sep {
      if c != sep {
        assert ([[]] + fs)[..|fs|] == [[]] + fs[..|fs| - 1];
      }
    } else if c != sep {
      if |fs| == 1 {
        assert [x] + (fs[0] + [c]) == ([x] + fs[0]) + [c];
      } else {
        ConsPushInside(x, fs, c, sep);
      }
    }
  }

  /** A character put in front of the first of several fields and one appended to
      the last do not meet. */
  lemma ConsPushInside(x: char, fs: seq<string>, c: char, sep: char)
    requires |fs| >= 2 && x != sep && c != sep
    ensures SplitCons(x, SplitPush(fs, c, sep), sep) == SplitPush(SplitCons(x, fs, sep), c, sep)
  {
    var n := |fs|;
    var q := fs[..n - 1] + [fs[n - 1] + [c]];
    var p := [[x] + fs[0]] + fs[1..];
    assert SplitPush(fs, c, sep) == q;
    assert SplitCons(x, fs, sep) == p;
    var lhs := [[x] + q[0]] + q[1..];
    var rhs := p[..n - 1] + [p[n - 1] + [c]];
    assert |lhs| == n && |rhs| == n;
    forall j | 0 <= j < n
      ensures lhs[j] == rhs[j]
    {
      if j == 0 {
        assert lhs[j] == [x] + fs[0] == rhs[j];
      } else if j < n - 1 {
        assert lhs[j] == q[j] == fs[j];
        assert rhs[j] == p[j] == fs[j];
      } else {
        assert lhs[j] == q[j] == fs[j] + [c];
        assert rhs[j] == p[j] + [c];
      }
    }
    assert lhs == rhs;
  }

  lemma {:induction false} SplitSnoc(s: string, c: char, sep: char)
    ensures Split(s + [c], sep) == SplitPush(Split(s, sep), c, sep)
  {
    if s == [] {
      assert s + [c] == [c];
      assert [c][1..] == [];
      assert Split([c], sep) == SplitCons(c, Split([], sep), sep);
      assert [c] + [] == [c];
    } else {
      var t := s[1..];
      assert (s + [c])[1..] == t + [c];
      assert (s + [c])[0] == s[0];
      assert Split(s + [c], sep) == SplitCons(s[0], Split(t + [c], sep), sep);
      assert Split(s, sep) == SplitCons(s[0], Split(t, sep), sep);
      SplitSnoc(t, c, sep);
      ConsPush(s[0], Split(t, sep), c, sep);
    }
  }

  /** One character's effect on the two halves of the specification. */
  lemma StepLemma(s: string, c: char)
    ensures Pending(s + [c]) == if IsTerminator(c) then [] else Pending(s) + [c]
    ensures Completed(s + [c]) ==
              if IsTerminator(c) && Pending(s) != [] then Completed(s) + [Pending(s)] else Completed(s)
  {
    var n := if c == '\r' then '\n' else c;
    assert Normalize(s + [c]) == Normalize(s) + [n];
    SplitSnoc(Normalize(s), n, '\n');
    var f := Fields(s);
    var g := Fields(s + [c]);
    if IsTerminator(c) {
      assert g == f + [[]];
      assert g[..|g| - 1] == f;
    } else {
      assert g == f[..|f| - 1] + [f[|f| - 1] + [c]];
      assert g[..|g| - 1] == f[..|f| - 1];
    }
  }

  /** The logger's state: the line being collected and what has been printed. The
      clock is read once per printed line; `clock(k)` is the k-th reading, already
      formatted with `%f`. */
  class LineBuffer {
    var buf: string
    var printed: seq<string>
    ghost var received: string
    const clock: nat -> string

    ghost predicate Valid()
      reads this
    {
      buf == Pending(received) && printed == Stamped(Completed(received), clock)
    }

    constructor (clock: nat -> string)
      ensures Valid() && received == [] && buf == [] && printed == []
      ensures this.clock == clock
    {
      this.clock := clock;
      buf, printed := [], [];
      received := [];
      assert Fields([]) == [[]];
    }

    /** One pass of the `for c in ser.read()` body. */
    method Feed(c: char)
      requires Valid()
      modifies this
      ensures Valid() && received == old(received) + [c]
      ensures IsTerminator(c) && old(buf) != [] ==> printed == old(printed) + [clock(|old(printed)|) + "," + old(buf)]
      ensures IsTerminator(c) && old(buf) == [] ==> printed == old(printed)
      ensures IsTerminator(c) ==> buf == []
      ensures !IsTerminator(c) ==> buf == old(buf) + [c] && printed == old(printed)
    {
      StepLemma(received, c);
      if c == '\r' || c == '\n' {
        if |buf| > 0 {
          printed := printed + [clock(|printed|) + "," + buf];
        }
        buf := [];
      } else {
        buf := buf + [c];
      }
      received := received + [c];
    }
  }

  /** The read loop over everything received so far: the printed lines are the
      completed lines, stamped in order, and the rest is still buffered. */
  method ReadSerial(input: string, clock: nat -> string) returns (printed: seq<string>, buf: string)
    ensures printed == Stamped(Completed(input), clock)
    ensures buf == Pending(input)
  {
    var lb := new LineBuffer(clock);
    var i := 0;
    while i < |input|
      invariant 0 <= i <= |input|
      invariant lb.Valid() && lb.received == input[..i] && lb.clock == clock
    {
      lb.Feed(input[i]);
      assert input[..i + 1] == input[..i] + [input[i]];
      i := i + 1;
    }
    assert input[..i] == input;
    printed, buf := lb.printed, lb.buf;
  }

  /** Every printed line is non-empty and holds no terminator; neither does the buffer. */
  lemma {:induction false} LinesWellFormed(s: string)
    ensures forall k :: 0 <= k < |Completed(s)| ==>
              Completed(s)[k] != [] && '\r' !in Completed(s)[k] && '\n' !in Completed(s)[k]
    ensures '\r' !in Pending(s) && '\n' !in Pending(s)
  {
    if s == [] {
      assert Fields(s) == [[]];
    } else {
      var t, c := s[..|s| - 1], s[|s| - 1];
      assert s == t + [c];
      LinesWellFormed(t);
      StepLemma(t, c);
    }
  }

  /** The input with the terminators dropped. */
  function Unterminated(s: string): (r: string) {
    if s == [] then []
    else Unterminated(s[..|s| - 1]) + (if IsTerminator(s[|s| - 1]) then [] else [s[|s| - 1]])
  }

  function Concat(ls: seq<string>): string {
    if ls == [] then [] else Concat(ls[..|ls| - 1]) + ls[|ls| - 1]
  }

  lemma UnterminatedSnoc(s: string, c: char)
    ensures Unterminated(s + [c]) == Unterminated(s) + (if IsTerminator(c) then [] else [c])
  {
    assert (s + [c])[..|s|] == s;
  }

  lemma ConcatSnoc(ls: seq<string>, l: string)
    ensures Concat(ls + [l]) == Concat(ls) + l
  {
    assert (ls + [l])[..|ls|] == ls;
  }

  /** Nothing is lost or reordered: the printed lines followed by the buffer spell
      out the input without its terminators. */
  lemma {:induction false} LinesConcat(s: string)
    ensures Concat(Completed(s)) + Pending(s) == Unterminated(s)
  {
    if s == [] {
      assert Fields(s) == [[]];
    } else {
      var t, c := s[..|s| - 1], s[|s| - 1];
      assert s == t + [c];
      LinesConcat(t);
      StepLemma(t, c);
      UnterminatedSnoc(t, c);
      if IsTerminator(c) && Pending(t) != [] {
        ConcatSnoc(Completed(t), Pending(t));
      }
    }
  }

  /** A second terminator straight after a first (a `\r\n` pair) prints nothing. */
  lemma TerminatorPair(s: string, c: char, d: char)
    requires IsTerminator(c) && IsTerminator(d)
    ensures Completed(s + [c] + [d]) == Completed(s + [c])
    ensures Pending(s + [c] + [d]) == []
  {
    StepLemma(s, c);
    StepLemma(s + [c], d);
  }
}
