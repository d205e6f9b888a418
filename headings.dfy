/**
 * Markdown heading extraction and the rolling "previous topics" context that
 * the narrative and recap passes carry from one chunk to the next
 * (`_extract_headings` and the `recent_headings[-5:]` expressions).
 */
module Headings {
  import opened Text

  /** What goes into a prompt when no earlier chunk produced a heading. */
  const NoPriorTopics: string := "None yet."
  /** Only this many of the most recent headings reach the next call. */
  const RollingWindow: nat := 5

  /** A line whose stripped form starts with `##`. */
  predicate IsHeadingLine(line: string) {
    StartsWith(Strip(line), "##")
  }

  /** The stripped line with its leading `#`s and the whitespace after them removed. */
  function HeadingText(line: string): string {
    Strip(LStripChar(Strip(line), '#'))
  }

  /** What one line contributes: its heading text, or nothing. */
  function HeadingOf(line: string): seq<string> {
    if IsHeadingLine(line) then [HeadingText(line)] else []
  }

  /** The headings of a list of lines, in order (defined from the back, the
      way the loop builds it). */
  function HeadingsOfLines(lines: seq<string>): seq<string>
    decreases |lines|
  {
    if lines == [] then [] else HeadingsOfLines(lines[..|lines| - 1]) + HeadingOf(lines[|lines| - 1])
  }

  /** The headings `_extract_headings` returns for a Markdown text. */
  function Headings(markdown: string): seq<string> {
    if markdown == "" then [] else HeadingsOfLines(SplitLines(markdown))
  }

  /** `_extract_headings`: walks the lines and keeps the heading texts. */
  method ExtractHeadings(markdown: string) returns (headings: seq<string>)
    ensures headings == Headings(markdown)
    ensures markdown == "" ==> headings == []
  {
    headings := [];
    if markdown == "" {
      return;
    }
    var lines := SplitLines(markdown);
    for i := 0 to |lines|
      invariant headings == HeadingsOfLines(lines[..i])
    {
      var clean := Strip(lines[i]);
      if StartsWith(clean, "##") {
        headings := headings + [Strip(LStripChar(clean, '#'))];
      }
      HeadingsOfLinesStep(lines, i);
    }
    assert lines[..|lines|] == lines;
  }

  lemma HeadingsOfLinesSnoc(lines: seq<string>, line: string)
    ensures HeadingsOfLines(lines + [line]) == HeadingsOfLines(lines) + HeadingOf(line)
  {
    assert (lines + [line])[..|lines|] == lines;
  }

  /** One step of the loop in `ExtractHeadings`. */
  lemma HeadingsOfLinesStep(lines: seq<string>, i: nat)
    requires i < |lines|
    ensures HeadingsOfLines(lines[..i + 1]) == HeadingsOfLines(lines[..i])
      + (if StartsWith(Strip(lines[i]), "##") then [Strip(LStripChar(Strip(lines[i]), '#'))] else [])
  {
    assert lines[..i + 1] == lines[..i] + [lines[i]];
    HeadingsOfLinesSnoc(lines[..i], lines[i]);
  }

  /** Headings of concatenated line lists are the concatenated headings. */
  lemma {:induction false} HeadingsOfLinesAppend(a: seq<string>, b: seq<string>)
    ensures HeadingsOfLines(a + b) == HeadingsOfLines(a) + HeadingsOfLines(b)
    decreases |b|
  {
    if b != [] {
      var b' := b[..|b| - 1];
      assert (a + b)[..|a + b| - 1] == a + b';
      HeadingsOfLinesAppend(a, b');
    } else {
      assert a + b == a;
    }
  }

  /** A line without line breaks contributes at most one stripped,
      single-line heading. */
  lemma HeadingOfShape(line: string)
    requires forall k :: 0 <= k < |line| ==> !IsLineBreak(line[k])
    ensures |HeadingOf(line)| <= 1
    ensures !IsHeadingLine(line) ==> HeadingOf(line) == []
    ensures forall h | h in HeadingOf(line) :: IsStripped(h) && forall k :: 0 <= k < |h| ==> !IsLineBreak(h[k])
  {
    StripNoBreaks(line);
    var inner := LStripChar(Strip(line), '#');
    assert forall k :: 0 <= k < |inner| ==> inner[k] == Strip(line)[|Strip(line)| - |inner| + k];
    StripNoBreaks(inner);
  }

  /** Exactly the heading lines contribute, one heading each, and every
      heading is a stripped text without line breaks. */
  lemma {:induction false} HeadingsOfLinesShape(lines: seq<string>)
    requires forall l | l in lines :: forall k :: 0 <= k < |l| ==> !IsLineBreak(l[k])
    ensures |HeadingsOfLines(lines)| <= |lines|
    ensures (forall l | l in lines :: !IsHeadingLine(l)) ==> HeadingsOfLines(lines) == []
    ensures forall h | h in HeadingsOfLines(lines) :: IsStripped(h) && forall k :: 0 <= k < |h| ==> !IsLineBreak(h[k])
    decreases |lines|
  {
    if lines != [] {
      var init := lines[..|lines| - 1];
      var last := lines[|lines| - 1];
      assert forall l | l in init :: l in lines;
      HeadingsOfLinesShape(init);
      assert last in lines;
      HeadingOfShape(last);
      var hs := HeadingsOfLines(lines);
      assert hs == HeadingsOfLines(init) + HeadingOf(last);
      assert forall h | h in hs :: h in HeadingsOfLines(init) || h in HeadingOf(last);
    }
  }

  /** What `_extract_headings` returns: stripped, single-line headings, no more
      than the text has lines, none for a text without heading lines. */
  lemma HeadingsShape(markdown: string)
    ensures |Headings(markdown)| <= |SplitLines(markdown)|
    ensures (forall l | l in SplitLines(markdown) :: !IsHeadingLine(l)) ==> Headings(markdown) == []
    ensures forall h | h in Headings(markdown) :: IsStripped(h) && forall k :: 0 <= k < |h| ==> !IsLineBreak(h[k])
  {
    HeadingsOfLinesShape(SplitLines(markdown));
  }

  lemma LStripHashes(title: string)
    requires title != []
    ensures LStripChar("## " + title, '#') == " " + title
  {
    var line := "## " + title;
    var one := line[1..];
    var two := one[1..];
    assert line[0] == '#' && one[0] == '#';
    assert two == " " + title;
    assert LStripChar(two, '#') == two;
    assert LStripChar(one, '#') == LStripChar(two, '#');
  }

  lemma StripLeadingSpace(title: string)
    requires IsStripped(title)
    ensures Strip(" " + title) == title
  {
    assert (" " + title)[1..] == title;
  }

  /** `## <title>` is a heading line whose text is `<title>`. */
  lemma HeadingLineOfTitle(title: string)
    requires title != [] && IsStripped(title) && title[0] != '#'
    ensures IsHeadingLine("## " + title) && HeadingText("## " + title) == title
  {
    var line := "## " + title;
    assert IsStripped(line);
    assert line[..2] == "##";
    LStripHashes(title);
    StripLeadingSpace(title);
  }

  /** Reading back a heading the narrative prompt asks for: `## <title>` on a
      line of its own yields exactly `<title>`. */
  lemma HeadingRoundTrip(title: string)
    requires title != [] && IsStripped(title) && title[0] != '#'
    requires forall k :: 0 <= k < |title| ==> !IsLineBreak(title[k])
    ensures Headings("## " + title) == [title]
  {
    var line := "## " + title;
    assert forall k :: 0 <= k < |line| ==> !IsLineBreak(line[k]) by {
      forall k | 0 <= k < |line| ensures !IsLineBreak(line[k]) {
        if k >= 3 { assert line[k] == title[k - 3]; }
      }
    }
    SplitLinesSingle(line);
    HeadingLineOfTitle(title);
    HeadingsOfLinesSnoc([], line);
  }

  /** `recent[-n:]` for `n > 0`; the source always takes a window of five.
      (Python's `recent[-0:]` is the whole list, which `LastN(s, 0)` is not.) */
  function LastN<T>(s: seq<T>, n: nat): (r: seq<T>)
    ensures |r| == if |s| <= n then |s| else n
    ensures r == s[|s| - |r|..]
  {
    if |s| <= n then s else s[|s| - n..]
  }

  /** The "previous topics" string of the narrative (separator `"\n"`) and
      recap (separator `"; "`) prompts. */
  function PriorTopics(headings: seq<string>, sep: string): string {
    if headings == [] then NoPriorTopics else Join(LastN(headings, RollingWindow), sep)
  }

  /** A single-line text followed by `\n` is the first line. */
  lemma SplitLinesCons(h: string, t: string)
    requires forall k :: 0 <= k < |h| ==> !IsLineBreak(h[k])
    ensures SplitLines(h + "\n" + t) == [h] + SplitLines(t)
  {
    var s := h + "\n" + t;
    assert s[|h|] == '\n';
    assert forall k :: 0 <= k < |h| ==> s[k] == h[k];
    assert FirstBreak(s, 0) == |h|;
    assert s[..|h|] == h;
    assert s[|h| + 1..] == t;
  }

  /** The texts without their last one when that one is empty. */
  function DropEmptyLast(hs: seq<string>): (r: seq<string>)
    requires hs != []
    ensures hs[|hs| - 1] != [] ==> r == hs
    ensures hs[|hs| - 1] == [] ==> r == hs[..|hs| - 1]
  {
    if hs[|hs| - 1] == [] then hs[..|hs| - 1] else hs
  }

  /** Dropping an empty last text happens in the tail. */
  lemma DropEmptyLastCons(hs: seq<string>)
    requires |hs| >= 2
    ensures DropEmptyLast(hs) == [hs[0]] + DropEmptyLast(hs[1..])
  {
    assert hs[1..][|hs| - 2] == hs[|hs| - 1];
    if hs[|hs| - 1] == [] {
      assert hs[..|hs| - 1] == [hs[0]] + hs[1..][..|hs| - 2];
    } else {
      assert hs == [hs[0]] + hs[1..];
    }
  }

  /** Splitting a newline-join of single-line texts gives the texts back,
      except an empty last text, which leaves no line of its own. */
  lemma {:induction false} SplitLinesOfJoin(hs: seq<string>)
    requires hs != []
    requires forall h | h in hs :: forall k :: 0 <= k < |h| ==> !IsLineBreak(h[k])
    ensures SplitLines(Join(hs, "\n")) == DropEmptyLast(hs)
    decreases |hs|
  {
    if |hs| == 1 {
      if hs[0] != [] {
        SplitLinesSingle(hs[0]);
      }
    } else {
      var rest := hs[1..];
      assert forall x | x in rest :: x in hs;
      SplitLinesOfJoin(rest);
      SplitLinesOfJoinCons(hs);
      DropEmptyLastCons(hs);
    }
  }

  /** A single-line first text is the first line of the split join. */
  lemma SplitLinesOfJoinCons(hs: seq<string>)
    requires |hs| >= 2
    requires forall k :: 0 <= k < |hs[0]| ==> !IsLineBreak(hs[0][k])
    ensures SplitLines(Join(hs, "\n")) == [hs[0]] + SplitLines(Join(hs[1..], "\n"))
  {
    SplitLinesCons(hs[0], Join(hs[1..], "\n"));
  }

  /** The narrative context is bounded: it is "None yet." when there are no
      headings, and otherwise splits back into the last five (or fewer)
      headings, oldest first. An empty last heading (from a bare `##` line)
      leaves no line of its own, so it is lost from the text. */
  lemma NarrativeContextBounded(headings: seq<string>)
    requires forall h | h in headings :: forall k :: 0 <= k < |h| ==> !IsLineBreak(h[k])
    ensures headings == [] ==> PriorTopics(headings, "\n") == NoPriorTopics
    ensures headings != [] && headings[|headings| - 1] != [] ==>
      SplitLines(PriorTopics(headings, "\n")) == LastN(headings, RollingWindow)
    ensures headings != [] && headings[|headings| - 1] == [] ==>
      var recent := LastN(headings, RollingWindow);
      SplitLines(PriorTopics(headings, "\n")) == recent[..|recent| - 1]
    ensures headings != [] ==> |SplitLines(PriorTopics(headings, "\n"))| <= RollingWindow
  {
    if headings != [] {
      var recent := LastN(headings, RollingWindow);
      assert recent[|recent| - 1] == headings[|headings| - 1];
      assert forall h | h in recent :: h in headings;
      SplitLinesOfJoin(recent);
    }
  }
}
