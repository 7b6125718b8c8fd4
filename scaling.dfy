/** The daily scaling factors (py/control.py:56-60, 108-122): a list of
    factors, read once at start-up from a text file, one factor per line. */
module ScalingFactors {
  import opened Wrappers

  /** `str.isspace` for one character: the characters Python's `strip()`
      removes when called without arguments. */
  predicate IsSpace(c: char): (b: bool)
    ensures c in {' ', '\t', '\n', '\r'} ==> b
    ensures ('0' <= c <= '9') || c in {'.', '-', '+', 'e', 'E'} ==> !b
  {
    ('\t' <= c <= '\r') || ('\U{1C}' <= c <= ' ')
    || c in {'\U{85}', '\U{A0}', '\U{1680}', '\U{2028}', '\U{2029}', '\U{202F}', '\U{205F}', '\U{3000}'}
    || ('\U{2000}' <= c <= '\U{200A}')
  }

  /** `s.lstrip()`: the suffix of `s` left after dropping leading whitespace. */
  function StripLeft(s: string): (r: string)
    ensures |r| <= |s|
    ensures r == [] || !IsSpace(r[0])
  {
    if s != [] && IsSpace(s[0]) then StripLeft(s[1..]) else s
  }

  /** `s.rstrip()`: the prefix of `s` left after dropping trailing whitespace. */
  function StripRight(s: string): (r: string)
    ensures |r| <= |s|
    ensures r == [] || !IsSpace(r[|r| - 1])
  {
    if s != [] && IsSpace(s[|s| - 1]) then StripRight(s[..|s| - 1]) else s
  }

  /** `lstrip` keeps a suffix of `s`, removes only whitespace, and stops at
      the first character that is not whitespace. */
  lemma {:induction false} StripLeftSpec(s: string)
    ensures |StripLeft(s)| <= |s| && StripLeft(s) == s[|s| - |StripLeft(s)|..]
    ensures forall k :: 0 <= k < |s| - |StripLeft(s)| ==> IsSpace(s[k])
    ensures StripLeft(s) == [] || !IsSpace(StripLeft(s)[0])
    decreases |s|
  {
    if s != [] && IsSpace(s[0]) {
      StripLeftSpec(s[1..]);
    }
  }

  /** `rstrip` keeps a prefix of `s`, removes only whitespace, and stops at
      the last character that is not whitespace. */
  lemma {:induction false} StripRightSpec(s: string)
    ensures |StripRight(s)| <= |s| && StripRight(s) == s[..|StripRight(s)|]
    ensures forall k :: |StripRight(s)| <= k < |s| ==> IsSpace(s[k])
    ensures StripRight(s) == [] || !IsSpace(StripRight(s)[|StripRight(s)| - 1])
    decreases |s|
  {
    if s != [] && IsSpace(s[|s| - 1]) {
      StripRightSpec(s[..|s| - 1]);
    }
  }

  /** `s.strip()` */
  function Strip(s: string): (r: string)
    ensures |r| <= |s|
    ensures r == [] || (!IsSpace(r[0]) && !IsSpace(r[|r| - 1]))
  {
    var l := StripLeft(s);
    StripRightSpec(l);
    StripRight(l)
  }

  /** Stripping removes whitespace from the ends and nothing else: the result
      is a slice of `s` that neither starts nor ends with whitespace, and
      everything cut off on either side is whitespace. */
  lemma StripIsTrimmedSlice(s: string)
    ensures exists i, j {:trigger s[i..j]} ::
      && 0 <= i <= j <= |s| && Strip(s) == s[i..j]
      && (forall k :: 0 <= k < i ==> IsSpace(s[k]))
      && (forall k :: j <= k < |s| ==> IsSpace(s[k]))
    ensures Strip(s) == [] || (!IsSpace(Strip(s)[0]) && !IsSpace(Strip(s)[|Strip(s)| - 1]))
  {
    var l := StripLeft(s);
    var r := StripRight(l);
    StripLeftSpec(s);
    StripRightSpec(l);
    var i := |s| - |l|;
    var j := i + |r|;
    assert r == s[i..j];
    if r != [] {
      assert r[0] == l[0];
    }
  }

  /** Stripping twice is the same as stripping once. */
  lemma StripIdempotent(s: string)
    ensures Strip(Strip(s)) == Strip(s)
  {
    var t := Strip(s);
    StripIsTrimmedSlice(s);
    assert StripLeft(t) == t;
    assert StripRight(t) == t;
  }

  /** What one line contributes to the list: its value when
      `float(line.strip())` succeeds, nothing when it raises. */
  function LineFactor(line: string, parse: string -> Option<real>): (r: seq<real>)
    ensures |r| <= 1
    ensures r != [] <==> parse(Strip(line)).Some?
  {
    match parse(Strip(line))
    case Some(v) => [v]
    case None => []
  }

  /** The factors read from `lines`, in file order, skipping lines that do
      not parse. */
  function ParsedLines(lines: seq<string>, parse: string -> Option<real>): (r: seq<real>)
    ensures |r| <= |lines|
    decreases |lines|
  {
    if lines == [] then []
    else ParsedLines(lines[..|lines| - 1], parse) + LineFactor(lines[|lines| - 1], parse)
  }

  /** The number of lines the loader's loop reads before `readline` gives "". */
  function LinesBeforeEof(lines: seq<string>): (n: nat)
    ensures n <= |lines|
    ensures forall k :: 0 <= k < n ==> lines[k] != ""
    ensures n == |lines| || lines[n] == ""
  {
    if lines == [] || lines[0] == "" then 0 else 1 + LinesBeforeEof(lines[1..])
  }

  /** The global `scaling_factors` list. */
  class ScalingTable {
    var factors: seq<real>

    /** `scaling_factors = []` at module load. */
    constructor ()
      ensures factors == []
    {
      factors := [];
    }

    /** `load_scaling_factors`: empty the list, then append the value of every
        line, up to the end of the file, that parses. */
    method Load(lines: seq<string>, parse: string -> Option<real>)
      modifies this
      ensures factors == ParsedLines(lines[..LinesBeforeEof(lines)], parse)
    {
      factors := [];
      var i := 0;
      while true
        invariant i <= LinesBeforeEof(lines)
        invariant factors == ParsedLines(lines[..i], parse)
        decreases |lines| - i
      {
        // `f.readline()`: the next line, or "" at the end of the file
        var line := if i < |lines| then lines[i] else "";
        if line == "" {
          break;
        }
        assert lines[..i + 1][..i] == lines[..i];
        i := i + 1;
        match parse(Strip(line)) {
          case Some(v) => factors := factors + [v];
          case None =>
        }
      }
    }
  }

  /** Reading a file in two parts gives the factors of the first part followed
      by those of the second: the order of the file is kept. */
  lemma {:induction false} ParsedLinesAppend(a: seq<string>, b: seq<string>, parse: string -> Option<real>)
    ensures ParsedLines(a + b, parse) == ParsedLines(a, parse) + ParsedLines(b, parse)
    decreases |b|
  {
    if b == [] {
      assert a + b == a;
    } else {
      var b' := b[..|b| - 1];
      assert (a + b)[..|a + b| - 1] == a + b';
      ParsedLinesAppend(a, b', parse);
    }
  }

  /** There is never more than one factor per line, and there is exactly one
      per line when every line parses. */
  lemma {:induction false} ParsedLinesLength(lines: seq<string>, parse: string -> Option<real>)
    ensures |ParsedLines(lines, parse)| <= |lines|
    ensures (forall k :: 0 <= k < |lines| ==> parse(Strip(lines[k])).Some?) ==>
      |ParsedLines(lines, parse)| == |lines|
    decreases |lines|
  {
    if lines != [] {
      ParsedLinesLength(lines[..|lines| - 1], parse);
    }
  }

  /** A line that parses lands in the list, right after the factors of the
      lines before it. */
  lemma ParsedLineKept(lines: seq<string>, i: nat, parse: string -> Option<real>)
    requires i < |lines| && parse(Strip(lines[i])).Some?
    ensures |ParsedLines(lines[..i], parse)| < |ParsedLines(lines, parse)|
    ensures ParsedLines(lines, parse)[|ParsedLines(lines[..i], parse)|] == parse(Strip(lines[i])).value
  {
    assert lines == lines[..i] + [lines[i]] + lines[i + 1..];
    ParsedLinesAppend(lines[..i] + [lines[i]], lines[i + 1..], parse);
    ParsedLinesAppend(lines[..i], [lines[i]], parse);
    assert [lines[i]][..0] == [];
  }

  /** Every factor in the list is the value of some line of the file. */
  lemma {:induction false} ParsedLinesFromLines(lines: seq<string>, parse: string -> Option<real>, k: nat)
    requires k < |ParsedLines(lines, parse)|
    ensures exists i :: 0 <= i < |lines| && parse(Strip(lines[i])) == Some(ParsedLines(lines, parse)[k])
    decreases |lines|
  {
    var front := lines[..|lines| - 1];
    if k < |ParsedLines(front, parse)| {
      ParsedLinesFromLines(front, parse, k);
      var i :| 0 <= i < |front| && parse(Strip(front[i])) == Some(ParsedLines(front, parse)[k]);
      assert lines[i] == front[i];
    } else {
      assert parse(Strip(lines[|lines| - 1])) == Some(ParsedLines(lines, parse)[k]);
    }
  }

  /** When every line of the file is non-empty (each `readline` result holds
      at least a newline), the loader reads all of it. */
  lemma AllLinesRead(lines: seq<string>)
    requires forall k :: 0 <= k < |lines| ==> lines[k] != ""
    ensures lines[..LinesBeforeEof(lines)] == lines
  {
  }
}
