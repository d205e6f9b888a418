/**
 * `prefilter_transcript`: splits a transcript into sentences, drops empty
 * ones, filler, short lines without digits and repeats (by a fingerprint
 * of letters and digits), and joins what is left one sentence per line.
 *
 * The sentence split is the regular expression `(?<=[.!?])\s+|\n+` under
 * Python's `re.split`, written out as a left-to-right scan.  Character
 * classes cover ASCII and Latin-1; `lower()` folds A-Z only.
 */
module Prefilter {
  import opened Text

  /** Phrases whose presence (in the lower-cased sentence) marks filler. */
  const FillerPatterns: seq<string> := ["i'm here", "can you hear", "hello", "good luck", "test test", "mic check", "background noise"]
  /** Sentences shorter than this are dropped unless they hold a digit. */
  const MinLength: nat := 25

  // ---------------------------------------------------------------------
  // The sentence split

  predicate IsTerminator(c: char) { c == '.' || c == '!' || c == '?' }

  /** End of the run of whitespace starting at `i`. */
  function SpaceRunEnd(s: string, i: nat): (r: nat)
    requires i <= |s|
    ensures i <= r <= |s|
    ensures forall k :: i <= k < r ==> IsSpace(s[k])
    ensures r < |s| ==> !IsSpace(s[r])
    decreases |s| - i
  {
    if i < |s| && IsSpace(s[i]) then SpaceRunEnd(s, i + 1) else i
  }

  /** End of the run of `\n` starting at `i`. */
  function NewlineRunEnd(s: string, i: nat): (r: nat)
    requires i <= |s|
    ensures i <= r <= |s|
    ensures forall k :: i <= k < r ==> s[k] == '\n'
    ensures r < |s| ==> s[r] != '\n'
    decreases |s| - i
  {
    if i < |s| && s[i] == '\n' then NewlineRunEnd(s, i + 1) else i
  }

  /** A separator can start at `i`: whitespace right after `.`, `!` or `?`
      (first alternative), or a newline (second alternative). */
  predicate SeparatorAt(s: string, i: nat)
    requires i < |s|
  {
    (i > 0 && IsTerminator(s[i - 1]) && IsSpace(s[i])) || s[i] == '\n'
  }

  /** Where the separator matched at `i` ends; `i` when none matches. */
  function SeparatorEnd(s: string, i: nat): (e: nat)
    requires i < |s|
    ensures i <= e <= |s|
    ensures e == i <==> !SeparatorAt(s, i)
  {
    if i > 0 && IsTerminator(s[i - 1]) && IsSpace(s[i]) then SpaceRunEnd(s, i)
    else if s[i] == '\n' then NewlineRunEnd(s, i)
    else i
  }

  /** The pieces of `s` from the piece that starts at `start`, scanning on
      from `i`.  After a separator the scan goes on over the rest of the
      text: the character before it ends the separator, so it is whitespace
      and never satisfies the look-behind. */
  function Pieces(s: string, start: nat, i: nat): seq<string>
    requires start <= i <= |s|
    decreases |s|, |s| - i
  {
    if i == |s| then [s[start..]]
    else
      var e := SeparatorEnd(s, i);
      if e == i then Pieces(s, start, i + 1) else [s[start..i]] + Pieces(s[e..], 0, 0)
  }

  /** `re.split(r"(?<=[.!?])\s+|\n+", text)`. */
  function Sentences(text: string): seq<string> {
    Pieces(text, 0, 0)
  }

  /** No newline, and no `.`, `!` or `?` directly followed by whitespace:
      a piece the split cannot cut further. */
  predicate Unsplittable(p: string) {
    (forall k :: 0 <= k < |p| ==> p[k] != '\n')
    && (forall k :: 0 < k < |p| ==> !(IsTerminator(p[k - 1]) && IsSpace(p[k])))
  }

  /** `Unsplittable(s[a..b])`, stated on `s`. */
  predicate UnsplittableRange(s: string, a: nat, b: nat)
    requires a <= b <= |s|
  {
    (forall k :: a <= k < b ==> s[k] != '\n')
    && (forall k :: a < k < b ==> !(IsTerminator(s[k - 1]) && IsSpace(s[k])))
  }

  lemma UnsplittableSlice(s: string, a: nat, b: nat)
    requires a <= b <= |s|
    ensures UnsplittableRange(s, a, b) <==> Unsplittable(s[a..b])
  {
    var p := s[a..b];
    assert forall k :: 0 <= k < |p| ==> p[k] == s[a + k];
    if Unsplittable(p) {
      forall k | a < k < b
        ensures !(IsTerminator(s[k - 1]) && IsSpace(s[k]))
      {
        assert s[k - 1] == p[k - 1 - a] && s[k] == p[k - a];
      }
      forall k | a <= k < b
        ensures s[k] != '\n'
      {
        assert s[k] == p[k - a];
      }
    }
  }

  /** Every piece of the split is unsplittable. */
  lemma {:induction false} PiecesUnsplittable(s: string, start: nat, i: nat)
    requires start <= i <= |s| && UnsplittableRange(s, start, i)
    ensures forall p | p in Pieces(s, start, i) :: Unsplittable(p)
    decreases |s|, |s| - i
  {
    if i == |s| {
      UnsplittableSlice(s, start, i);
    } else {
      var e := SeparatorEnd(s, i);
      if e == i {
        PiecesUnsplittable(s, start, i + 1);
      } else {
        UnsplittableSlice(s, start, i);
        PiecesUnsplittable(s[e..], 0, 0);
      }
    }
  }

  lemma SentencesUnsplittable(text: string)
    ensures forall p | p in Sentences(text) :: Unsplittable(p)
  {
    PiecesUnsplittable(text, 0, 0);
  }

  /** A part of an unsplittable text is unsplittable. */
  lemma UnsplittableInfix(p: string, a: nat, b: nat)
    requires a <= b <= |p| && Unsplittable(p)
    ensures Unsplittable(p[a..b])
  {
    var q := p[a..b];
    assert forall k :: 0 <= k < |q| ==> q[k] == p[a + k];
    forall k | 0 < k < |q|
      ensures !(IsTerminator(q[k - 1]) && IsSpace(q[k]))
    {
      assert q[k - 1] == p[a + k - 1];
    }
  }

  lemma StripUnsplittable(p: string)
    requires Unsplittable(p)
    ensures Unsplittable(Strip(p))
  {
    var a := StripInfix(p);
    UnsplittableInfix(p, a, a + |Strip(p)|);
  }

  /** Positions where no separator starts do not end a piece. */
  lemma {:induction false} PiecesScan(s: string, start: nat, j: nat, stop: nat)
    requires start <= j <= stop <= |s|
    requires forall i :: j <= i < stop ==> !SeparatorAt(s, i)
    ensures Pieces(s, start, j) == Pieces(s, start, stop)
    decreases stop - j
  {
    if j < stop {
      PiecesScan(s, start, j + 1, stop);
    }
  }

  /** An unsplittable text is a single piece. */
  lemma SingleSentence(l: string)
    requires Unsplittable(l)
    ensures Sentences(l) == [l]
  {
    PiecesScan(l, 0, 0, |l|);
  }

  /** An unsplittable line followed by a newline and a text that does not
      start with whitespace splits into the line and the pieces of the text. */
  lemma FirstSentence(l: string, rest: string)
    requires Unsplittable(l)
    requires rest == [] || !IsSpace(rest[0])
    ensures Sentences(l + "\n" + rest) == [l] + Sentences(rest)
  {
    var s := l + "\n" + rest;
    forall i | 0 <= i < |l|
      ensures !SeparatorAt(s, i)
    {
      assert s[i] == l[i];
      if i > 0 {
        assert s[i - 1] == l[i - 1];
      }
    }
    PiecesScan(s, 0, 0, |l|);
    assert s[|l|] == '\n';
    if rest != [] {
      assert s[|l| + 1] == rest[0];
    }
    assert SeparatorEnd(s, |l|) == |l| + 1;
    assert s[..|l|] == l;
    assert s[|l| + 1..] == rest;
  }

  /** Splitting a newline-join of non-empty, stripped, unsplittable lines
      gives the lines back. */
  lemma {:induction false} SentencesOfJoin(lines: seq<string>)
    requires lines != []
    requires forall l | l in lines :: l != "" && IsStripped(l) && Unsplittable(l)
    ensures Sentences(Join(lines, "\n")) == lines
    decreases |lines|
  {
    if |lines| == 1 {
      SingleSentence(lines[0]);
    } else {
      var rest := lines[1..];
      assert forall l | l in rest :: l in lines;
      SentencesOfJoin(rest);
      JoinCons(lines[0], rest, "\n");
      assert [lines[0]] + rest == lines;
      assert rest[0] in lines;
      JoinHead(rest, "\n");
      FirstSentence(lines[0], Join(rest, "\n"));
    }
  }

  // ---------------------------------------------------------------------
  // The per-sentence rules

  /** `any(pattern in lowered for pattern in FILLER_PATTERNS)`. */
  predicate IsFiller(lowered: string) {
    exists k :: 0 <= k < |FillerPatterns| && Contains(lowered, FillerPatterns[k])
  }

  /** A word character of `\w`: letters, digits and `_` (Latin-1 letters,
      superscript digits and vulgar fractions included; code points above
      U+00FF count as letters unless they separate lines). */
  predicate IsWordChar(c: char) {
    ('a' <= c <= 'z') || ('A' <= c <= 'Z') || IsDigit(c) || c == '_'
    || c as int == 0xAA || c as int == 0xB2 || c as int == 0xB3 || c as int == 0xB5
    || c as int == 0xB9 || c as int == 0xBA || (0xBC <= c as int <= 0xBE)
    || (0xC0 <= c as int <= 0xFF && c as int != 0xD7 && c as int != 0xF7)
    || (c as int > 0xFF && c as int != 0x2028 && c as int != 0x2029)
  }

  /** `re.sub(r"\W+", "", s)`: the word characters of `s`, in order. */
  function Fingerprint(s: string): (r: string)
    ensures |r| <= |s|
    ensures forall k :: 0 <= k < |r| ==> IsWordChar(r[k])
    ensures (forall k :: 0 <= k < |s| ==> IsWordChar(s[k])) ==> r == s
    decreases |s|
  {
    if s == [] then []
    else Fingerprint(s[..|s| - 1]) + (if IsWordChar(s[|s| - 1]) then [s[|s| - 1]] else [])
  }

  /** The fingerprint a kept line is remembered by. */
  function Key(line: string): string {
    Fingerprint(Lower(line))
  }

  /** A stripped sentence that survives the content rules: not empty, no
      filler phrase, and long enough or holding a digit. */
  predicate Keepable(stripped: string) {
    stripped != "" && !IsFiller(Lower(stripped)) && (|stripped| >= MinLength || HasDigit(stripped))
  }

  // ---------------------------------------------------------------------
  // The filter

  datatype FilterState = FilterState(cleaned: seq<string>, seen: set<string>)

  /** One turn of the loop over sentences. */
  function Step(st: FilterState, sentence: string): (r: FilterState)
    ensures var stripped := Strip(sentence);
      if Keepable(stripped) && Key(stripped) !in st.seen
      then r == FilterState(st.cleaned + [stripped], st.seen + {Key(stripped)})
      else r == st
  {
    var stripped := Strip(sentence);
    if stripped == "" then st
    else
      var lowered := Lower(stripped);
      if IsFiller(lowered) then st
      else if |stripped| < MinLength && !HasDigit(stripped) then st
      else
        var fingerprint := Fingerprint(lowered);
        if fingerprint in st.seen then st
        else FilterState(st.cleaned + [stripped], st.seen + {fingerprint})
  }

  /** The state after the loop has seen `sentences`. */
  function Run(sentences: seq<string>): FilterState
    decreases |sentences|
  {
    if sentences == [] then FilterState([], {})
    else Step(Run(sentences[..|sentences| - 1]), sentences[|sentences| - 1])
  }

  /** The loop's rule with the content test and the fingerprint left open:
      the stripped sentence is kept when it passes `keep` and its `key` is
      new. */
  function Admit(st: FilterState, sentence: string, keep: string -> bool, key: string -> string): FilterState {
    var line := Strip(sentence);
    if keep(line) && key(line) !in st.seen then FilterState(st.cleaned + [line], st.seen + {key(line)}) else st
  }

  /** The loop over `sentences` under that rule. */
  function Fold(sentences: seq<string>, keep: string -> bool, key: string -> string): FilterState
    decreases |sentences|
  {
    if sentences == [] then FilterState([], {})
    else Admit(Fold(sentences[..|sentences| - 1], keep, key), sentences[|sentences| - 1], keep, key)
  }

  /** The source's loop is the rule with its own content test and fingerprint. */
  lemma {:induction false} RunIsFold(sentences: seq<string>)
    ensures Run(sentences) == Fold(sentences, Keepable, Key)
    decreases |sentences|
  {
    if sentences != [] {
      RunIsFold(sentences[..|sentences| - 1]);
    }
  }

  /** The lines the filter keeps from a text. */
  function Kept(text: string): seq<string> {
    Run(Sentences(text)).cleaned
  }

  /** What `prefilter_transcript` returns. */
  function Prefilter(text: string): string {
    if text == "" then text
    else if Kept(text) != [] then Join(Kept(text), "\n")
    else text
  }

  /** `prefilter_transcript` */
  method PrefilterTranscript(text: string) returns (result: string)
    ensures result == Prefilter(text)
  {
    if text == "" {
      return text;
    }
    var sentences := Sentences(text);
    var cleaned: seq<string> := [];
    var seen: set<string> := {};
    for i := 0 to |sentences|
      invariant FilterState(cleaned, seen) == Run(sentences[..i])
    {
      assert sentences[..i + 1][..i] == sentences[..i];
      var stripped := Strip(sentences[i]);
      if stripped == "" {
        continue;
      }
      var lowered := Lower(stripped);
      if IsFiller(lowered) {
        continue;
      }
      if |stripped| < MinLength && !HasDigit(stripped) {
        continue;
      }
      var fingerprint := Fingerprint(lowered);
      if fingerprint in seen {
        continue;
      }
      seen := seen + {fingerprint};
      cleaned := cleaned + [stripped];
    }
    assert sentences[..|sentences|] == sentences;
    result := if cleaned != [] then Join(cleaned, "\n") else text;
  }

  // ---------------------------------------------------------------------
  // What the filter guarantees

  /** The fingerprints of a list of lines. */
  function KeysBy(lines: seq<string>, key: string -> string): set<string> {
    set l | l in lines :: key(l)
  }

  lemma KeysBySnoc(lines: seq<string>, line: string, key: string -> string)
    ensures KeysBy(lines + [line], key) == KeysBy(lines, key) + {key(line)}
  {
    assert forall l :: l in lines + [line] <==> l in lines || l == line;
  }

  predicate DistinctBy(lines: seq<string>, key: string -> string) {
    forall i, j :: 0 <= i < j < |lines| ==> key(lines[i]) != key(lines[j])
  }

  /** The kept lines are stripped and pass the test, no two share a
      fingerprint, and the remembered fingerprints are exactly theirs. */
  lemma {:induction false} FoldShape(sentences: seq<string>, keep: string -> bool, key: string -> string)
    ensures var st := Fold(sentences, keep, key);
      (forall l | l in st.cleaned :: keep(l) && IsStripped(l))
      && DistinctBy(st.cleaned, key) && st.seen == KeysBy(st.cleaned, key)
    decreases |sentences|
  {
    if sentences != [] {
      var init := sentences[..|sentences| - 1];
      FoldShape(init, keep, key);
      var st := Fold(init, keep, key);
      var line := Strip(sentences[|sentences| - 1]);
      if keep(line) && key(line) !in st.seen {
        KeysBySnoc(st.cleaned, line, key);
        var c := st.cleaned + [line];
        forall i, j | 0 <= i < j < |c|
          ensures key(c[i]) != key(c[j])
        {
          if j == |c| - 1 {
            assert c[i] in st.cleaned;
          }
        }
      }
    }
  }

  /** Every sentence that passes the test is remembered by its fingerprint:
      a sentence is dropped only as a repeat. */
  lemma {:induction false} FoldComplete(sentences: seq<string>, keep: string -> bool, key: string -> string)
    ensures forall k :: 0 <= k < |sentences| && keep(Strip(sentences[k])) ==>
      key(Strip(sentences[k])) in Fold(sentences, keep, key).seen
    decreases |sentences|
  {
    if sentences != [] {
      var n := |sentences| - 1;
      var init := sentences[..n];
      FoldComplete(init, keep, key);
      forall k | 0 <= k < n && keep(Strip(sentences[k]))
        ensures key(Strip(sentences[k])) in Fold(sentences, keep, key).seen
      {
        assert sentences[k] == init[k];
      }
    }
  }

  /** The kept lines are, in order, the stripped forms of some of the
      sentences, and each is the first passing sentence with its
      fingerprint. */
  lemma {:induction false} FoldSubsequence(sentences: seq<string>, keep: string -> bool, key: string -> string)
    returns (idx: seq<nat>)
    ensures |idx| == |Fold(sentences, keep, key).cleaned|
    ensures forall m :: 0 <= m < |idx| ==>
      idx[m] < |sentences| && Fold(sentences, keep, key).cleaned[m] == Strip(sentences[idx[m]])
    ensures forall m, m' :: 0 <= m < m' < |idx| ==> idx[m] < idx[m']
    ensures forall m, k :: 0 <= m < |idx| && 0 <= k < idx[m] && keep(Strip(sentences[k])) ==>
      key(Strip(sentences[k])) != key(Fold(sentences, keep, key).cleaned[m])
    decreases |sentences|
  {
    if sentences == [] {
      idx := [];
    } else {
      var n := |sentences| - 1;
      var init := sentences[..n];
      var before := FoldSubsequence(init, keep, key);
      var st := Fold(init, keep, key);
      var line := Strip(sentences[n]);
      assert forall k :: 0 <= k < n ==> sentences[k] == init[k];
      if keep(line) && key(line) !in st.seen {
        FoldComplete(init, keep, key);
        idx := before + [n];
      } else {
        idx := before;
      }
    }
  }

  /** A list of stripped lines that all pass the test and have distinct
      fingerprints passes the loop whole. */
  lemma {:induction false} FoldKeepsAll(lines: seq<string>, keep: string -> bool, key: string -> string)
    requires forall l | l in lines :: keep(l) && IsStripped(l)
    requires DistinctBy(lines, key)
    ensures Fold(lines, keep, key).cleaned == lines
    decreases |lines|
  {
    if lines != [] {
      var n := |lines| - 1;
      var init, last := lines[..n], lines[n];
      assert forall l | l in init :: l in lines;
      FoldKeepsAll(init, keep, key);
      FoldShape(init, keep, key);
      LastKeyFresh(lines, key);
      assert last in lines;
      assert init + [last] == lines;
      FoldKeepsNext(init, last, keep, key);
    }
  }

  /** In a list with distinct fingerprints the last line's fingerprint is
      not among the earlier ones. */
  lemma LastKeyFresh(lines: seq<string>, key: string -> string)
    requires lines != [] && DistinctBy(lines, key)
    ensures key(lines[|lines| - 1]) !in KeysBy(lines[..|lines| - 1], key)
  {
    var n := |lines| - 1;
    forall l | l in lines[..n]
      ensures key(l) != key(lines[n])
    {
      var i :| 0 <= i < n && lines[..n][i] == l;
    }
  }

  /** A loop that kept every line so far also keeps a further passing,
      stripped line with a new fingerprint. */
  lemma FoldKeepsNext(lines: seq<string>, line: string, keep: string -> bool, key: string -> string)
    requires Fold(lines, keep, key).cleaned == lines && Fold(lines, keep, key).seen == KeysBy(lines, key)
    requires keep(line) && IsStripped(line) && key(line) !in KeysBy(lines, key)
    ensures Fold(lines + [line], keep, key).cleaned == lines + [line]
  {
    assert (lines + [line])[..|lines|] == lines;
    assert Strip(line) == line;
  }

  /** The kept lines are non-empty, stripped, free of filler, long enough
      or holding a digit, single lines that the split cannot cut, and no two
      share a fingerprint. */
  lemma KeptShape(text: string)
    ensures forall l | l in Kept(text) :: Keepable(l) && IsStripped(l) && Unsplittable(l)
    ensures DistinctBy(Kept(text), Key)
  {
    RunIsFold(Sentences(text));
    FoldShape(Sentences(text), Keepable, Key);
    SentencesUnsplittable(text);
    var idx := FoldSubsequence(Sentences(text), Keepable, Key);
    forall l | l in Kept(text)
      ensures Unsplittable(l)
    {
      var m :| 0 <= m < |Kept(text)| && Kept(text)[m] == l;
      assert Sentences(text)[idx[m]] in Sentences(text);
      StripUnsplittable(Sentences(text)[idx[m]]);
    }
  }

  /** Empty input comes back unchanged; so does input from which nothing is
      kept; otherwise the output is the kept lines, one per line. */
  lemma PrefilterOutcome(text: string)
    ensures text == "" ==> Prefilter(text) == ""
    ensures text != "" && Kept(text) == [] ==> Prefilter(text) == text
    ensures text != "" && Kept(text) != [] ==>
      Prefilter(text) == Join(Kept(text), "\n") && Sentences(Prefilter(text)) == Kept(text)
  {
    if text != "" && Kept(text) != [] {
      KeptShape(text);
      SentencesOfJoin(Kept(text));
    }
  }

  /** The output of a transcript that keeps something is kept whole by a
      second pass. */
  lemma KeptOfOutput(text: string)
    requires text != "" && Kept(text) != []
    ensures Prefilter(text) != "" && Kept(Prefilter(text)) == Kept(text)
  {
    var lines := Kept(text);
    KeptShape(text);
    SentencesOfJoin(lines);
    RunIsFold(lines);
    FoldKeepsAll(lines, Keepable, Key);
    assert lines[0] in lines;
    JoinHead(lines, "\n");
  }

  /** Filtering a filtered transcript changes nothing. */
  lemma PrefilterIdempotent(text: string)
    ensures Prefilter(Prefilter(text)) == Prefilter(text)
  {
    if text != "" && Kept(text) != [] {
      KeptOfOutput(text);
    }
  }
}
