/**
 * The handful of Python `str` operations the pipeline relies on: `strip`,
 * `lstrip(c)`, `startswith`, `in`, `lower`, `split(c)`, `splitlines` and
 * `sep.join`.  Character classes follow Python on the ASCII and Latin-1
 * range; wider Unicode behaviour is not modelled.
 */
module Text {

  /** `c.isspace()` for code points below 0x100. */
  predicate IsSpace(c: char) {
    c == ' ' || 9 <= c as int <= 13 || 28 <= c as int <= 31 || c as int == 0x85 || c as int == 0xA0
  }

  /** The line boundaries of `str.splitlines`. */
  predicate IsLineBreak(c: char) {
    c == '\n' || c == '\r' || c as int == 0x0B || c as int == 0x0C || 0x1C <= c as int <= 0x1E
    || c as int == 0x85 || c as int == 0x2028 || c as int == 0x2029
  }

  predicate IsDigit(c: char) { '0' <= c <= '9' }

  predicate IsBlank(s: string) { forall i :: 0 <= i < |s| ==> IsSpace(s[i]) }

  /** No whitespace at either end: what `strip()` returns. */
  predicate IsStripped(s: string) { s == [] || (!IsSpace(s[0]) && !IsSpace(s[|s| - 1])) }

  /** `s.strip()`: the result has no surrounding whitespace and an already
      stripped string is left alone. */
  function Strip(s: string): (r: string)
    ensures IsStripped(r)
    ensures IsStripped(s) ==> r == s
    ensures |r| <= |s|
    decreases |s|
  {
    if s != [] && IsSpace(s[0]) then Strip(s[1..])
    else if s != [] && IsSpace(s[|s| - 1]) then Strip(s[..|s| - 1])
    else s
  }

  /** Stripping empties exactly the blank strings. */
  lemma {:induction false} StripEmptyIffBlank(s: string)
    ensures Strip(s) == [] <==> IsBlank(s)
    decreases |s|
  {
    if s != [] && IsSpace(s[0]) {
      StripEmptyIffBlank(s[1..]);
      assert IsBlank(s) <==> IsBlank(s[1..]) by {
        assert forall i :: 0 < i < |s| ==> s[i] == s[1..][i - 1];
      }
    } else if s != [] && IsSpace(s[|s| - 1]) {
      StripEmptyIffBlank(s[..|s| - 1]);
      assert IsBlank(s) <==> IsBlank(s[..|s| - 1]) by {
        assert forall i :: 0 <= i < |s| - 1 ==> s[i] == s[..|s| - 1][i];
      }
    }
  }

  /** The stripped text is a contiguous piece of the original. */
  lemma {:induction false} StripInfix(s: string) returns (a: nat)
    ensures a + |Strip(s)| <= |s| && Strip(s) == s[a..a + |Strip(s)|]
    decreases |s|
  {
    if s != [] && IsSpace(s[0]) {
      var b := StripInfix(s[1..]);
      a := b + 1;
      SliceOfTail(s, b, |Strip(s)|);
    } else if s != [] && IsSpace(s[|s| - 1]) {
      a := StripInfix(s[..|s| - 1]);
      SliceOfInit(s, a, |Strip(s)|);
    } else {
      a := 0;
    }
  }

  lemma SliceOfTail(s: string, b: nat, n: nat)
    requires s != [] && b + n <= |s| - 1
    ensures s[1..][b..b + n] == s[b + 1..b + 1 + n]
  {
  }

  lemma SliceOfInit(s: string, a: nat, n: nat)
    requires s != [] && a + n <= |s| - 1
    ensures s[..|s| - 1][a..a + n] == s[a..a + n]
  {
  }

  /** Stripping never introduces a line break. */
  lemma StripNoBreaks(s: string)
    requires forall k :: 0 <= k < |s| ==> !IsLineBreak(s[k])
    ensures forall k :: 0 <= k < |Strip(s)| ==> !IsLineBreak(Strip(s)[k])
  {
    var a := StripInfix(s);
    assert forall k :: 0 <= k < |Strip(s)| ==> Strip(s)[k] == s[a + k];
  }

  /** `s.lstrip(c)` for a single character `c`. */
  function LStripChar(s: string, c: char): (r: string)
    ensures |r| <= |s| && r == s[|s| - |r|..]
    ensures r == [] || r[0] != c
    decreases |s|
  {
    if s != [] && s[0] == c then LStripChar(s[1..], c) else s
  }

  predicate StartsWith(s: string, prefix: string) {
    |prefix| <= |s| && s[..|prefix|] == prefix
  }

  /** `sub in s`. */
  predicate Contains(s: string, sub: string)
    decreases |s|
  {
    StartsWith(s, sub) || (s != [] && Contains(s[1..], sub))
  }

  predicate HasDigit(s: string) { exists i :: 0 <= i < |s| && IsDigit(s[i]) }

  /** `c.lower()` restricted to ASCII letters. */
  function LowerChar(c: char): char {
    if 'A' <= c <= 'Z' then (c as int + 32) as char else c
  }

  function Lower(s: string): (r: string)
    ensures |r| == |s|
  {
    seq(|s|, i requires 0 <= i < |s| => LowerChar(s[i]))
  }

  /** `sep.join(parts)`. */
  function Join(parts: seq<string>, sep: string): string
    decreases |parts|
  {
    if parts == [] then ""
    else if |parts| == 1 then parts[0]
    else parts[0] + sep + Join(parts[1..], sep)
  }

  lemma JoinCons(p: string, ps: seq<string>, sep: string)
    requires ps != []
    ensures Join([p] + ps, sep) == p + sep + Join(ps, sep)
  {
    assert ([p] + ps)[1..] == ps;
  }

  /** A join starts with the first part when that part is non-empty. */
  lemma JoinHead(parts: seq<string>, sep: string)
    requires parts != [] && parts[0] != []
    ensures Join(parts, sep) != [] && Join(parts, sep)[0] == parts[0][0]
  {
  }

  /** Prepending text to the first part prepends it to the whole join. */
  lemma {:induction false} JoinPrependFirst(c: string, ps: seq<string>, sep: string)
    requires ps != []
    ensures Join([c + ps[0]] + ps[1..], sep) == c + Join(ps, sep)
  {
    if |ps| > 1 {
      JoinCons(c + ps[0], ps[1..], sep);
      JoinCons(ps[0], ps[1..], sep);
      assert [ps[0]] + ps[1..] == ps;
    }
  }

  /** `s.split(sep)` with an explicit one-character separator: every
      separator splits, so `k` separators give `k + 1` parts. */
  function SplitOn(s: string, sep: char): (parts: seq<string>)
    ensures |parts| >= 1
    ensures forall p | p in parts :: sep !in p
    decreases |s|
  {
    if s == [] then [""]
    else
      var rest := SplitOn(s[1..], sep);
      if s[0] == sep then [""] + rest
      else
        assert rest[0] in rest;
        assert forall p | p in rest[1..] :: p in rest;
        [[s[0]] + rest[0]] + rest[1..]
  }

  /** Joining the parts back with the separator gives the original string. */
  lemma {:induction false} SplitOnJoin(s: string, sep: char)
    ensures Join(SplitOn(s, sep), [sep]) == s
    decreases |s|
  {
    if s != [] {
      var rest := SplitOn(s[1..], sep);
      SplitOnJoin(s[1..], sep);
      if s[0] == sep {
        JoinCons("", rest, [sep]);
        assert s == [sep] + s[1..];
      } else {
        JoinPrependFirst([s[0]], rest, [sep]);
        assert s == [s[0]] + s[1..];
      }
    }
  }

  /** Index of the first line break at or after `from`, or `|s|`. */
  function FirstBreak(s: string, from: nat): (i: nat)
    requires from <= |s|
    ensures from <= i <= |s|
    ensures i < |s| ==> IsLineBreak(s[i])
    ensures forall k :: from <= k < i ==> !IsLineBreak(s[k])
    decreases |s| - from
  {
    if from == |s| || IsLineBreak(s[from]) then from else FirstBreak(s, from + 1)
  }

  /** `s.splitlines()`: `\r\n` is one boundary and a trailing boundary does
      not open an extra empty line. */
  function SplitLines(s: string): (lines: seq<string>)
    ensures forall l | l in lines :: forall k :: 0 <= k < |l| ==> !IsLineBreak(l[k])
    decreases |s|
  {
    if s == [] then []
    else
      var i := FirstBreak(s, 0);
      if i == |s| then [s]
      else
        var next := if s[i] == '\r' && i + 1 < |s| && s[i + 1] == '\n' then i + 2 else i + 1;
        [s[..i]] + SplitLines(s[next..])
  }

  /** A non-empty string without line breaks is a single line. */
  lemma SplitLinesSingle(s: string)
    requires s != []
    requires forall k :: 0 <= k < |s| ==> !IsLineBreak(s[k])
    ensures SplitLines(s) == [s]
  {
    assert FirstBreak(s, 0) == |s|;
  }
}
