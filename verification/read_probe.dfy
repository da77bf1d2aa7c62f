/** The console monitor for the probe's sentence stream: each line from the probe is
    stripped and split on commas, and its fields are shown when the sentence name
    matches the optional command-line filter. */
module ReadProbe {

  import opened Common

  /** Python's `str.lower()` on one character, for the ASCII letters. */
  function LowerChar(c: char): (r: char)
    ensures 'A' <= c <= 'Z' ==> r as int == c as int + 32
    ensures !('A' <= c <= 'Z') ==> r == c
  {
    if 'A' <= c <= 'Z' then (c as int + 32) as char else c
  }

  function Lower(s: string): (r: string)
    ensures |r| == |s|
  {
    if s == [] then [] else [LowerChar(s[0])] + Lower(s[1..])
  }

  /** Each character is lower-cased on its own. */
  lemma {:induction false} LowerAt(s: string, i: nat)
    requires i < |s|
    ensures Lower(s)[i] == LowerChar(s[i])
  {
    if i > 0 {
      LowerAt(s[1..], i - 1);
    }
  }

  /** Lower-casing twice is lower-casing once. */
  lemma {:induction false} LowerIdempotent(s: string)
    ensures Lower(Lower(s)) == Lower(s)
  {
    if s != [] {
      LowerIdempotent(s[1..]);
      assert Lower(s)[1..] == Lower(s[1..]);
    }
  }

  /** Lower-casing distributes over concatenation; '$' has no case. */
  lemma {:induction false} LowerAppend(a: string, b: string)
    ensures Lower(a + b) == Lower(a) + Lower(b)
  {
    if a == [] {
      assert a + b == b;
    } else {
      LowerAppend(a[1..], b);
      assert (a + b)[1..] == a[1..] + b;
      assert Lower(a + b) == [LowerChar(a[0])] + Lower(a[1..] + b);
    }
  }

  /** `match(prefix)`: `argv` is `sys.argv`, the script name first. The function
      answers True or falls off its end, returning None. */
  function Match(argv: seq<string>, prefix: string): (r: Option<bool>)
    ensures r != Some(false)
    ensures r.Some? <==> |argv| < 2 || Lower(prefix) == Lower(argv[1]) || Lower(prefix) == "$" + Lower(argv[1])
  {
    if |argv| < 2 then Some(true)
    else if Lower(argv[1]) == Lower(prefix) then Some(true)
    else if "$" + Lower(argv[1]) == Lower(prefix) then Some(true)
    else None
  }

  /** Python truthiness of `match`'s answer. */
  predicate Truthy(b: Option<bool>) {
    b.Some? && b.value
  }

  /** Without a filter argument every sentence is shown. */
  lemma NoFilterShowsAll(argv: seq<string>, prefix: string)
    requires |argv| < 2
    ensures Truthy(Match(argv, prefix))
  {
  }

  /** The filter `A` selects the sentence named `$A` and the bare name `A`, in any case. */
  lemma FilterSelectsItsSentence(argv: seq<string>, name: string)
    requires |argv| >= 2
    requires Lower(name) == Lower(argv[1])
    ensures Truthy(Match(argv, name))
    ensures Truthy(Match(argv, "$" + name))
  {
    LowerAppend("$", name);
    assert Lower("$") == "$";
  }

  /** With a filter, a sentence is shown only when its name is the filter or `$` and
      the filter, ignoring the case of ASCII letters. */
  lemma {:induction false} FilterRejectsOthers(argv: seq<string>, name: string)
    requires |argv| >= 2
    requires Truthy(Match(argv, name))
    ensures Lower(name) == Lower(argv[1]) || Lower(name) == "$" + Lower(argv[1])
  {
  }

  /** The match does not depend on the case of the sentence name. */
  lemma MatchIgnoresCase(argv: seq<string>, name: string)
    ensures Match(argv, Lower(name)) == Match(argv, name)
  {
    LowerIdempotent(name);
  }

  /** The fields of one received line. */
  function Fields(line: string): (r: seq<string>)
    ensures |r| >= 1
  {
    Split(Strip(line), ',')
  }

  /** Joining the fields again gives back the stripped line: the line itself less
      only its leading and trailing whitespace. */
  lemma FieldsJoin(line: string)
    ensures Join(Fields(line), ',') == Strip(line)
    ensures exists i, j :: 0 <= i <= j <= |line| && Join(Fields(line), ',') == line[i..j] && SpaceOutside(line, i, j)
  {
    SplitJoin(Strip(line), ',');
    StripIsInfix(line);
  }

  /** Whether the line's fields are shown. */
  predicate ShowsLine(argv: seq<string>, line: string) {
    Truthy(Match(argv, Fields(line)[0]))
  }

  /** The field lists shown for the first k lines of the stream. */
  function Shown(argv: seq<string>, stream: seq<string>, k: nat): (r: seq<seq<string>>)
    requires k <= |stream|
    ensures |r| <= k
  {
    if k == 0 then []
    else
      Shown(argv, stream, k - 1) + (if ShowsLine(argv, stream[k - 1]) then [Fields(stream[k - 1])] else [])
  }

  /** The number of the line whose fields are the i-th shown list. */
  function Origin(argv: seq<string>, stream: seq<string>, k: nat, i: nat): nat
    requires k <= |stream| && i < |Shown(argv, stream, k)|
  {
    if i < |Shown(argv, stream, k - 1)| then Origin(argv, stream, k - 1, i) else k - 1
  }

  /** Everything shown is the fields of a received line whose name passes the filter,
      and shown lists keep the order of the lines. */
  lemma {:induction false} ShownAreMatchingLines(argv: seq<string>, stream: seq<string>, k: nat, i: nat)
    requires k <= |stream| && i < |Shown(argv, stream, k)|
    ensures Origin(argv, stream, k, i) < k
    ensures Shown(argv, stream, k)[i] == Fields(stream[Origin(argv, stream, k, i)])
    ensures ShowsLine(argv, stream[Origin(argv, stream, k, i)])
    ensures forall i' :: i < i' < |Shown(argv, stream, k)| ==> Origin(argv, stream, k, i) < Origin(argv, stream, k, i')
  {
    var prev := Shown(argv, stream, k - 1);
    if i < |prev| {
      ShownAreMatchingLines(argv, stream, k - 1, i);
      forall i' | i < i' < |Shown(argv, stream, k)|
        ensures Origin(argv, stream, k, i) < Origin(argv, stream, k, i')
      {
        if i' < |prev| {
          ShownAreMatchingLines(argv, stream, k - 1, i');
        }
      }
    }
  }

  /** Without a filter, every line is shown, in order. */
  lemma {:induction false} NoFilterShowsEveryLine(argv: seq<string>, stream: seq<string>, k: nat)
    requires |argv| < 2 && k <= |stream|
    ensures |Shown(argv, stream, k)| == k
    ensures forall i :: 0 <= i < k ==> Shown(argv, stream, k)[i] == Fields(stream[i])
  {
    if k > 0 {
      NoFilterShowsEveryLine(argv, stream, k - 1);
    }
  }

  /** The read loop over a finite stream of lines: returns what it prints. */
  method Monitor(argv: seq<string>, stream: seq<string>) returns (printed: seq<seq<string>>)
    ensures printed == Shown(argv, stream, |stream|)
  {
    printed := [];
    var k := 0;
    while k < |stream|
      invariant k <= |stream|
      invariant printed == Shown(argv, stream, k)
    {
      var fields := Fields(stream[k]);
      ghost var shows := ShowsLine(argv, stream[k]);
      assert Shown(argv, stream, k + 1) == printed + (if shows then [fields] else []);
      if |fields| > 0 {
        if Truthy(Match(argv, fields[0])) {
          printed := printed + [fields];
        }
      }
      k := k + 1;
    }
  }
}
