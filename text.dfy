/** Character classes and string operations that the pipeline borrows from
    Python's `str` methods and `re` character classes, over ASCII. */
module Text {

  /** `str.isspace()` and the regex class `\s` on ASCII: tab, line feed,
      vertical tab, form feed, carriage return, the separators 0x1C-0x1F and
      the space. */
  predicate IsSpace(c: char) {
    9 <= c as int <= 13 || 28 <= c as int <= 32
  }

  predicate IsNotSpace(c: char) {
    !IsSpace(c)
  }

  predicate IsUpper(c: char) {
    'A' <= c <= 'Z'
  }

  predicate IsLower(c: char) {
    'a' <= c <= 'z'
  }

  /** The regex class `\d` on ASCII. */
  predicate IsDigit(c: char) {
    '0' <= c <= '9'
  }

  /** The regex class `\w` on ASCII. */
  predicate IsWordChar(c: char) {
    IsUpper(c) || IsLower(c) || IsDigit(c) || c == '_'
  }

  function Min(a: int, b: int): int {
    if a <= b then a else b
  }

  /** `s[:n]` for a non-negative `n`. */
  function Prefix(s: string, n: nat): (r: string)
    ensures |r| == Min(n, |s|) && r == s[..|r|]
  {
    s[..Min(n, |s|)]
  }

  /** `xs[:n]` for a non-negative `n`. */
  function Take<T>(xs: seq<T>, n: nat): seq<T> {
    xs[..Min(n, |xs|)]
  }

  // ---------------------------------------------------------------------
  // Case mapping (`str.lower()` and `str.upper()` on ASCII)

  function LowerChar(c: char): char {
    if IsUpper(c) then (c as int + 32) as char else c
  }

  function UpperChar(c: char): char {
    if IsLower(c) then (c as int - 32) as char else c
  }

  function Lower(s: string): string {
    seq(|s|, i requires 0 <= i < |s| => LowerChar(s[i]))
  }

  function Upper(s: string): string {
    seq(|s|, i requires 0 <= i < |s| => UpperChar(s[i]))
  }

  /** Lower-casing forgets any earlier upper-casing. */
  lemma LowerOfUpper(s: string)
    ensures Lower(Upper(s)) == Lower(s)
  {
    forall i | 0 <= i < |s|
      ensures Lower(Upper(s))[i] == Lower(s)[i]
    {
      var c := s[i];
      assert IsLower(c) ==> IsUpper((c as int - 32) as char);
    }
  }

  lemma LowerConcat(a: string, b: string)
    ensures Lower(a + b) == Lower(a) + Lower(b)
  {
    assert forall i :: 0 <= i < |a + b| ==> Lower(a + b)[i] == (Lower(a) + Lower(b))[i];
  }

  lemma UpperConcat(a: string, b: string)
    ensures Upper(a + b) == Upper(a) + Upper(b)
  {
    assert forall i :: 0 <= i < |a + b| ==> Upper(a + b)[i] == (Upper(a) + Upper(b))[i];
  }

  // ---------------------------------------------------------------------
  // `str.strip()`

  function TrimStart(s: string): (r: string)
    ensures |r| <= |s|
    ensures r == [] || !IsSpace(r[0])
  {
    if s != [] && IsSpace(s[0]) then TrimStart(s[1..]) else s
  }

  /** `TrimStart` keeps a suffix of `s`. */
  lemma {:induction false} TrimStartSuffix(s: string)
    ensures TrimStart(s) == s[|s| - |TrimStart(s)|..]
  {
    if s != [] && IsSpace(s[0]) {
      TrimStartSuffix(s[1..]);
    }
  }

  function TrimEnd(s: string): (r: string)
    ensures |r| <= |s| && r == s[..|r|]
    ensures r == [] || !IsSpace(r[|r| - 1])
  {
    if s != [] && IsSpace(s[|s| - 1]) then TrimEnd(s[..|s| - 1]) else s
  }

  /** `s.strip()`: `s` without its leading and trailing whitespace. */
  function Strip(s: string): (r: string)
    ensures |r| <= |s|
    ensures r == [] || (!IsSpace(r[0]) && !IsSpace(r[|r| - 1]))
  {
    TrimEnd(TrimStart(s))
  }

  /** `TrimStart` removes only whitespace. */
  lemma {:induction false} TrimStartRemovesSpaces(s: string)
    ensures forall i :: 0 <= i < |s| - |TrimStart(s)| ==> IsSpace(s[i])
  {
    if s != [] && IsSpace(s[0]) {
      TrimStartRemovesSpaces(s[1..]);
      assert forall i :: 1 <= i < |s| - |TrimStart(s)| ==> s[i] == s[1..][i - 1];
    }
  }

  /** `TrimEnd` removes only whitespace. */
  lemma {:induction false} TrimEndRemovesSpaces(s: string)
    ensures forall i :: |TrimEnd(s)| <= i < |s| ==> IsSpace(s[i])
  {
    if s != [] && IsSpace(s[|s| - 1]) {
      TrimEndRemovesSpaces(s[..|s| - 1]);
    }
  }

  /** `s.strip()` is the slice of `s` between a whitespace prefix of length
      `a` and a whitespace suffix. */
  lemma StripSlice(s: string) returns (a: nat)
    ensures a + |Strip(s)| <= |s| && Strip(s) == s[a..a + |Strip(s)|]
    ensures forall i :: 0 <= i < a ==> IsSpace(s[i])
    ensures forall i :: a + |Strip(s)| <= i < |s| ==> IsSpace(s[i])
  {
    var t := TrimStart(s);
    a := |s| - |t|;
    TrimStartSuffix(s);
    TrimStartRemovesSpaces(s);
    TrimEndRemovesSpaces(t);
    assert forall i :: a + |Strip(s)| <= i < |s| ==> s[i] == t[i - a];
  }

  /** A string that neither starts nor ends with whitespace is its own strip. */
  lemma StripUntrimmed(s: string)
    requires s == [] || (!IsSpace(s[0]) && !IsSpace(s[|s| - 1]))
    ensures Strip(s) == s
  {
  }

  /** Stripping twice is stripping once. */
  lemma StripIdempotent(s: string)
    ensures Strip(Strip(s)) == Strip(s)
  {
    StripUntrimmed(Strip(s));
  }

  // ---------------------------------------------------------------------
  // Maximal runs: `re.findall(r"\w+", s)` is Runs(s, IsWordChar) and
  // `s.split()` is Runs(s, IsNotSpace).

  /** Length of the run of `inRun` characters at the start of `s`. */
  function RunLength(s: string, inRun: char -> bool): (n: nat)
    ensures n <= |s|
  {
    if s != [] && inRun(s[0]) then 1 + RunLength(s[1..], inRun) else 0
  }

  /** The run is as long as it can be: all its characters are in the class
      and the next one, if any, is not. */
  lemma {:induction false} RunLengthMaximal(s: string, inRun: char -> bool)
    ensures forall i :: 0 <= i < RunLength(s, inRun) ==> inRun(s[i])
    ensures RunLength(s, inRun) < |s| ==> !inRun(s[RunLength(s, inRun)])
  {
    if s != [] && inRun(s[0]) {
      RunLengthMaximal(s[1..], inRun);
    }
  }

  /** The maximal runs of `inRun` characters of `s`, left to right. */
  function Runs(s: string, inRun: char -> bool): seq<string>
    decreases |s|
  {
    if s == [] then []
    else if !inRun(s[0]) then Runs(s[1..], inRun)
    else
      var n := RunLength(s, inRun);
      [s[..n]] + Runs(s[n..], inRun)
  }

  /** The word tokens of `s` as `re.findall(r"\w+", s)` returns them. */
  function Words(s: string): seq<string> {
    Runs(s, IsWordChar)
  }

  /** `len(s.split())`: the number of whitespace-separated words. */
  function WordCount(s: string): nat {
    |Runs(s, IsNotSpace)|
  }

  lemma {:induction false} RunLengthSeparated(a: string, c: string, inRun: char -> bool)
    requires c != [] && !inRun(c[0])
    ensures RunLength(a + c, inRun) == RunLength(a, inRun)
  {
    if a == [] {
      assert a + c == c;
    } else if inRun(a[0]) {
      assert (a + c)[1..] == a[1..] + c;
      RunLengthSeparated(a[1..], c, inRun);
    }
  }

  /** A run never crosses a separator: the runs of `a + c`, where `c` starts
      with a character outside the class, are the runs of `a` then those of `c`. */
  lemma {:induction false} RunsSeparated(a: string, c: string, inRun: char -> bool)
    requires c != [] && !inRun(c[0])
    ensures Runs(a + c, inRun) == Runs(a, inRun) + Runs(c, inRun)
    decreases |a|
  {
    if a == [] {
      assert a + c == c;
    } else if !inRun(a[0]) {
      assert (a + c)[1..] == a[1..] + c;
      RunsSeparated(a[1..], c, inRun);
    } else {
      var n := RunLength(a, inRun);
      RunLengthSeparated(a, c, inRun);
      assert (a + c)[..n] == a[..n];
      assert (a + c)[n..] == a[n..] + c;
      RunsSeparated(a[n..], c, inRun);
    }
  }

  /** The runs of `a + " " + b` are those of `a` followed by those of `b`,
      for any class that excludes the space. */
  lemma RunsSpaceJoined(a: string, b: string, inRun: char -> bool)
    requires !inRun(' ')
    ensures Runs(a + " " + b, inRun) == Runs(a, inRun) + Runs(b, inRun)
  {
    assert a + " " + b == a + (" " + b);
    RunsSeparated(a, " " + b, inRun);
    assert (" " + b)[1..] == b;
  }

  // ---------------------------------------------------------------------
  // `sep.join(xs)` and `s.split(sep)` for a one-character separator

  function Join(sep: string, xs: seq<string>): string {
    if xs == [] then []
    else if |xs| == 1 then xs[0]
    else xs[0] + sep + Join(sep, xs[1..])
  }

  /** `s.split(c)`: the pieces between occurrences of `c`, empty ones included. */
  function SplitOn(s: string, c: char): (r: seq<string>)
    ensures |r| >= 1
    decreases |s|
  {
    if s == [] then [[]]
    else
      var rest := SplitOn(s[1..], c);
      if s[0] == c then [[]] + rest else [[s[0]] + rest[0]] + rest[1..]
  }

  /** Splitting `x + t` where `x` has no separator glues `x` onto the first piece of `t`. */
  lemma {:induction false} SplitOnPrefix(x: string, t: string, c: char)
    requires c !in x
    ensures SplitOn(x + t, c) == [x + SplitOn(t, c)[0]] + SplitOn(t, c)[1..]
    decreases |x|
  {
    if x == [] {
      var r := SplitOn(t, c);
      assert x + t == t && x + r[0] == r[0];
      assert [r[0]] + r[1..] == r;
    } else {
      assert (x + t)[1..] == x[1..] + t;
      SplitOnPrefix(x[1..], t, c);
      assert [x[0]] + (x[1..] + SplitOn(t, c)[0]) == x + SplitOn(t, c)[0];
    }
  }

  /** `sep.join` and `split(sep)` are inverse on a non-empty list of pieces
      that do not contain the separator. */
  lemma {:induction false} SplitJoinRoundTrip(xs: seq<string>, c: char)
    requires |xs| >= 1
    requires forall k :: 0 <= k < |xs| ==> c !in xs[k]
    ensures SplitOn(Join([c], xs), c) == xs
    decreases |xs|
  {
    if |xs| == 1 {
      SplitOnPrefix(xs[0], [], c);
      assert xs[0] + [] == xs[0];
    } else {
      var t := Join([c], xs[1..]);
      assert Join([c], xs) == xs[0] + ([c] + t);
      SplitOnPrefix(xs[0], [c] + t, c);
      assert ([c] + t)[1..] == t;
      SplitJoinRoundTrip(xs[1..], c);
      assert SplitOn([c] + t, c) == [[]] + xs[1..];
      assert xs[0] + [] == xs[0];
      assert [xs[0]] + xs[1..] == xs;
    }
  }
}
