/**
 * The chunked summarisation pipeline shared by `LLMSummarizer` and
 * `RussianLLMSummarizer`: the narrative pass with its rolling heading
 * context, the guide pass that merges per-chunk JSON records, the
 * professor-recap pass, and document composition.
 *
 * The remote chat-completion call is the oracle `llm` (it stands for the
 * template formatting, the chosen model and the network round trip);
 * `chunk_text` and `clean_transcript_text` are the oracles `chunker` and
 * `clean`; `json.loads` is the oracle `loads`.
 */
module Summarizer {
  import opened Wrappers
  import opened Text
  import opened Headings
  import opened Guide

  /** What one chat-completion request is built from (the fields each prompt
      template is formatted with). */
  datatype Prompt =
    | NarrativePrompt(index: nat, total: nat, priorTopics: string, instruction: string, cleaned: string, raw: string)
    | GuidePrompt(index: nat, total: nat, structured: string, cleaned: string, raw: string)
    | RecapPrompt(index: nat, total: nat, priorTopics: string, structured: string, cleaned: string, raw: string)
    | TranslationPrompt(text: string)

  const FirstChunkInstruction: string :=
    "First chunk: start with `# Classroom Lesson Narrative` and a `> [!note] Context` callout summarizing the lecture goals before other sections."
  const LaterChunkInstruction: string :=
    "Continue with new `##` sections only; do NOT repeat the top-level header or context callout."

  /** The context instruction of the chunk numbered `index` (from 1). */
  function ContextInstruction(index: nat): string {
    if index == 1 then FirstChunkInstruction else LaterChunkInstruction
  }

  /** Only the first chunk is told to open the document. */
  lemma OnlyFirstChunkOpens(index: nat)
    ensures ContextInstruction(index) == FirstChunkInstruction <==> index == 1
  {
    assert |FirstChunkInstruction| != |LaterChunkInstruction|;
  }

  /** The headings of a list of chunk outputs, in order. */
  function AllHeadings(outputs: seq<string>): seq<string>
    decreases |outputs|
  {
    if outputs == [] then [] else AllHeadings(outputs[..|outputs| - 1]) + Headings.Headings(outputs[|outputs| - 1])
  }

  lemma AllHeadingsSnoc(outputs: seq<string>, x: string)
    ensures AllHeadings(outputs + [x]) == AllHeadings(outputs) + Headings.Headings(x)
  {
    assert (outputs + [x])[..|outputs|] == outputs;
  }

  // ---------------------------------------------------------------------
  // _generate_structured_chunks
  // ---------------------------------------------------------------------

  /** The narrative prompt of chunk `i` (from 0), given the outputs of the
      chunks before it. */
  function NarrativePromptFor(raws: seq<string>, i: nat, previous: seq<string>, clean: string -> string): Prompt
    requires i < |raws|
  {
    NarrativePrompt(i + 1, |raws|, PriorTopics(AllHeadings(previous), "\n"), ContextInstruction(i + 1), clean(raws[i]), raws[i])
  }

  /** The stripped narrative outputs of the first `k` chunks. */
  function NarrativeOutputs(raws: seq<string>, k: nat, llm: Prompt -> string, clean: string -> string): (r: seq<string>)
    requires k <= |raws|
    ensures |r| == k
    decreases k
  {
    if k == 0 then []
    else
      var previous := NarrativeOutputs(raws, k - 1, llm, clean);
      previous + [Strip(llm(NarrativePromptFor(raws, k - 1, previous, clean)))]
  }

  /** Each raw chunk cleaned, in order. */
  function CleanChunks(raws: seq<string>, clean: string -> string): (r: seq<string>)
    ensures |r| == |raws|
    ensures forall i :: 0 <= i < |raws| ==> r[i] == clean(raws[i])
  {
    seq(|raws|, i requires 0 <= i < |raws| => clean(raws[i]))
  }

  lemma CleanChunksStep(raws: seq<string>, idx: nat, clean: string -> string)
    requires idx < |raws|
    ensures CleanChunks(raws[..idx + 1], clean) == CleanChunks(raws[..idx], clean) + [clean(raws[idx])]
  {
    var a := CleanChunks(raws[..idx + 1], clean);
    var b := CleanChunks(raws[..idx], clean) + [clean(raws[idx])];
    assert |a| == |b|;
    forall i | 0 <= i < |a| ensures a[i] == b[i] {
      assert raws[..idx + 1][i] == raws[i];
      if i < idx {
        assert raws[..idx][i] == raws[i];
      }
    }
  }

  /** One pass of the narrative loop, with the prompt as the loop builds it. */
  lemma NarrativeStep(raws: seq<string>, idx: nat, recent: seq<string>, llm: Prompt -> string, clean: string -> string)
    requires idx < |raws|
    requires recent == AllHeadings(NarrativeOutputs(raws, idx, llm, clean))
    ensures NarrativeOutputs(raws, idx + 1, llm, clean) == NarrativeOutputs(raws, idx, llm, clean)
      + [Strip(llm(NarrativePrompt(idx + 1, |raws|, PriorTopics(recent, "\n"), ContextInstruction(idx + 1),
                                   clean(raws[idx]), raws[idx])))]
  {
  }

  /** `_generate_structured_chunks`: chunk the raw text, then for each chunk
      clean it, ask for its narrative with the last five headings seen so far,
      strip the answer and collect its headings. */
  method GenerateStructuredChunks(rawText: string, cleanedText: string, chunkChars: int, overlap: int,
                                  chunker: (string, int, int) -> seq<string>, clean: string -> string,
                                  llm: Prompt -> string)
    returns (structured: seq<string>, rawChunks: seq<string>, cleanedChunks: seq<string>)
    ensures rawChunks == chunker(rawText, chunkChars, overlap)
    ensures cleanedChunks == CleanChunks(rawChunks, clean)
    ensures structured == NarrativeOutputs(rawChunks, |rawChunks|, llm, clean)
  {
    rawChunks := chunker(rawText, chunkChars, overlap);
    cleanedChunks := [];
    structured := [];
    var recentHeadings: seq<string> := [];
    var total := |rawChunks|;
    if total == 0 {
      return;
    }
    for idx := 0 to total
      invariant NarrativeLoopState(rawChunks, idx, structured, cleanedChunks, recentHeadings, llm, clean)
    {
      var cleanedChunk := clean(rawChunks[idx]);
      ghost var cleanedBefore := cleanedChunks;
      cleanedChunks := cleanedChunks + [cleanedChunk];
      var priorTopics := PriorTopics(recentHeadings, "\n");
      var instruction := ContextInstruction(idx + 1);
      var prompt := NarrativePrompt(idx + 1, total, priorTopics, instruction, cleanedChunk, rawChunks[idx]);
      var response := llm(prompt);
      var structuredChunk := Strip(response);
      var headings := ExtractHeadings(structuredChunk);
      NarrativeLoopStep(rawChunks, idx, structured, cleanedBefore, recentHeadings, structuredChunk, headings, llm, clean);
      structured := structured + [structuredChunk];
      recentHeadings := recentHeadings + headings;
    }
    NarrativeLoopDone(rawChunks, structured, cleanedChunks, recentHeadings, llm, clean);
  }

  /** The loop invariant of `GenerateStructuredChunks` after `idx` chunks. */
  ghost predicate NarrativeLoopState(raws: seq<string>, idx: nat, structured: seq<string>, cleaned: seq<string>,
                                     recent: seq<string>, llm: Prompt -> string, clean: string -> string)
  {
    idx <= |raws|
    && cleaned == CleanChunks(raws[..idx], clean)
    && structured == NarrativeOutputs(raws, idx, llm, clean)
    && recent == AllHeadings(structured)
  }

  lemma NarrativeLoopStep(raws: seq<string>, idx: nat, structured: seq<string>, cleaned: seq<string>,
                          recent: seq<string>, chunk: string, headings: seq<string>,
                          llm: Prompt -> string, clean: string -> string)
    requires idx < |raws|
    requires NarrativeLoopState(raws, idx, structured, cleaned, recent, llm, clean)
    requires chunk == Strip(llm(NarrativePrompt(idx + 1, |raws|, PriorTopics(recent, "\n"), ContextInstruction(idx + 1),
                                                 clean(raws[idx]), raws[idx])))
    requires headings == Headings.Headings(chunk)
    ensures NarrativeLoopState(raws, idx + 1, structured + [chunk], cleaned + [clean(raws[idx])], recent + headings, llm, clean)
  {
    NarrativeStep(raws, idx, recent, llm, clean);
    CleanChunksStep(raws, idx, clean);
    AllHeadingsSnoc(structured, chunk);
  }

  lemma NarrativeLoopDone(raws: seq<string>, structured: seq<string>, cleaned: seq<string>,
                          recent: seq<string>, llm: Prompt -> string, clean: string -> string)
    requires NarrativeLoopState(raws, |raws|, structured, cleaned, recent, llm, clean)
    ensures cleaned == CleanChunks(raws, clean)
    ensures structured == NarrativeOutputs(raws, |raws|, llm, clean)
  {
    assert raws[..|raws|] == raws;
  }

  /** Later chunks never change earlier outputs. */
  lemma NarrativeOutputsPrefix(raws: seq<string>, k: nat, i: nat, llm: Prompt -> string, clean: string -> string)
    requires i <= k <= |raws|
    ensures NarrativeOutputs(raws, k, llm, clean)[..i] == NarrativeOutputs(raws, i, llm, clean)
  {
    var runs := seq(k + 1, n requires 0 <= n <= k => NarrativeOutputs(raws, n, llm, clean));
    forall n | 0 < n < |runs| ensures |runs[n]| == n && runs[n][..n - 1] == runs[n - 1] {
      assert runs[n] == NarrativeOutputs(raws, n, llm, clean);
      assert runs[n - 1] == NarrativeOutputs(raws, n - 1, llm, clean);
      NarrativeOutputsInit(raws, n, llm, clean);
    }
    RunsPrefix(runs, k, i);
    assert runs[k] == NarrativeOutputs(raws, k, llm, clean);
    assert runs[i] == NarrativeOutputs(raws, i, llm, clean);
  }

  /** The outputs of `k` chunks start with the outputs of `k - 1`. */
  lemma NarrativeOutputsInit(raws: seq<string>, k: nat, llm: Prompt -> string, clean: string -> string)
    requires 0 < k <= |raws|
    ensures NarrativeOutputs(raws, k, llm, clean)[..k - 1] == NarrativeOutputs(raws, k - 1, llm, clean)
  {
  }

  /** What chunk `i` was asked: its own number and the chunk count, the
      headings of the chunks before it (the last five of them, or
      "None yet."), the opening instruction exactly when it is the first
      chunk, and its cleaned and raw text. */
  lemma NarrativeChunkPrompt(raws: seq<string>, k: nat, i: nat, llm: Prompt -> string, clean: string -> string)
    requires i < k <= |raws|
    ensures NarrativeOutputs(raws, k, llm, clean)[i] == Strip(llm(NarrativePrompt(
      i + 1, |raws|,
      PriorTopics(AllHeadings(NarrativeOutputs(raws, k, llm, clean)[..i]), "\n"),
      if i == 0 then FirstChunkInstruction else LaterChunkInstruction,
      clean(raws[i]), raws[i])))
  {
    NarrativeOutputsPrefix(raws, k, i + 1, llm, clean);
    NarrativeOutputsPrefix(raws, k, i, llm, clean);
    var out := NarrativeOutputs(raws, k, llm, clean);
    assert out[..i + 1][i] == out[i];
  }

  // ---------------------------------------------------------------------
  // _generate_guide
  // ---------------------------------------------------------------------

  /** `zip` stops at the shortest list. */
  function ZipLength(a: seq<string>, b: seq<string>, c: seq<string>): (n: nat)
    ensures n <= |a| && n <= |b| && n <= |c|
    ensures n == |a| || n == |b| || n == |c|
  {
    if |a| <= |b| && |a| <= |c| then |a| else if |b| <= |c| then |b| else |c|
  }

  /** The aggregate after merging the records of the first `k` chunks. */
  function GuideMerged(structured: seq<string>, cleaned: seq<string>, raw: seq<string>, k: nat,
                       llm: Prompt -> string, loads: string -> Option<GuideData>): (agg: Aggregate)
    requires k <= ZipLength(structured, cleaned, raw)
    ensures WellFormedAggregate(agg)
    decreases k
  {
    if k == 0 then
      EmptyAggregateWellFormed();
      EmptyAggregate
    else
      var before := GuideMerged(structured, cleaned, raw, k - 1, llm, loads);
      var prompt := GuidePrompt(k, |structured|, structured[k - 1], cleaned[k - 1], raw[k - 1]);
      var data := ParseGuideJson(llm(prompt), loads);
      MergeWellFormed(before, data);
      MergeSpec(before, data)
  }

  /** `_generate_guide`: merge every chunk's record into the nine-category
      aggregate, add the placeholders, keep three next moves and render. */
  method GenerateGuide(structured: seq<string>, cleaned: seq<string>, raw: seq<string>,
                       llm: Prompt -> string, loads: string -> Option<GuideData>)
    returns (guide: string)
    ensures guide == GuideText(FinalizeSpec(GuideMerged(structured, cleaned, raw, ZipLength(structured, cleaned, raw), llm, loads)))
  {
    var aggregate := EmptyAggregate;
    EmptyAggregateWellFormed();
    var total := |structured|;
    var n := ZipLength(structured, cleaned, raw);
    for idx := 0 to n
      invariant aggregate == GuideMerged(structured, cleaned, raw, idx, llm, loads)
    {
      var prompt := GuidePrompt(idx + 1, total, structured[idx], cleaned[idx], raw[idx]);
      var response := llm(prompt);
      var chunkData := ParseGuideJson(response, loads);
      aggregate := MergeChunk(aggregate, chunkData);
    }
    aggregate := FinalizeAggregate(aggregate);
    guide := RenderGuide(aggregate);
  }

  /** Whatever the model answers, the rendered guide has its ten headings in
      order, each followed by its own section, no empty entry in its list of
      lines, at least one assignment line and at most three next moves. */
  lemma GeneratedGuideShape(structured: seq<string>, cleaned: seq<string>, raw: seq<string>,
                            llm: Prompt -> string, loads: string -> Option<GuideData>)
    ensures var agg := FinalizeSpec(GuideMerged(structured, cleaned, raw, ZipLength(structured, cleaned, raw), llm, loads));
      && agg[Assignments] != [] && agg[MissionControl] != []
      && |agg[NextMoves]| <= MaxNextMoves
      && (forall l | l in GuideLines(agg) :: l != "")
      && (forall k :: 0 <= k < |GuideHeadings| && k != 3 ==> GuideSections(agg)[k] != [])
  {
    var merged := GuideMerged(structured, cleaned, raw, ZipLength(structured, cleaned, raw), llm, loads);
    FinalizeGuarantees(merged);
    var agg := FinalizeSpec(merged);
    GuideLinesNonEmpty(agg);
    GuideSectionsNonEmpty(agg);
  }

  // ---------------------------------------------------------------------
  // _generate_professor
  // ---------------------------------------------------------------------

  /** The stripped recaps of the first `k` chunks. */
  function RecapOutputs(structured: seq<string>, cleaned: seq<string>, raw: seq<string>, k: nat,
                        llm: Prompt -> string): (r: seq<string>)
    requires k <= ZipLength(structured, cleaned, raw)
    ensures |r| == k
    decreases k
  {
    if k == 0 then []
    else
      var previous := RecapOutputs(structured, cleaned, raw, k - 1, llm);
      var prompt := RecapPrompt(k, |structured|, PriorTopics(AllHeadings(previous), "; "),
                                structured[k - 1], cleaned[k - 1], raw[k - 1]);
      previous + [Strip(llm(prompt))]
  }

  /** Later recaps never change earlier ones. */
  lemma RecapOutputsPrefix(structured: seq<string>, cleaned: seq<string>, raw: seq<string>,
                           k: nat, i: nat, llm: Prompt -> string)
    requires i <= k <= ZipLength(structured, cleaned, raw)
    ensures RecapOutputs(structured, cleaned, raw, k, llm)[..i] == RecapOutputs(structured, cleaned, raw, i, llm)
  {
    var runs := seq(k + 1, n requires 0 <= n <= k => RecapOutputs(structured, cleaned, raw, n, llm));
    forall n | 0 < n < |runs| ensures |runs[n]| == n && runs[n][..n - 1] == runs[n - 1] {
      assert runs[n] == RecapOutputs(structured, cleaned, raw, n, llm);
      assert runs[n - 1] == RecapOutputs(structured, cleaned, raw, n - 1, llm);
      RecapOutputsInit(structured, cleaned, raw, n, llm);
    }
    RunsPrefix(runs, k, i);
    assert runs[k] == RecapOutputs(structured, cleaned, raw, k, llm);
    assert runs[i] == RecapOutputs(structured, cleaned, raw, i, llm);
  }

  /** Runs that each extend the one before: every run starts with every
      earlier run. */
  lemma {:induction false} RunsPrefix(runs: seq<seq<string>>, k: nat, i: nat)
    requires forall n :: 0 < n < |runs| ==> |runs[n]| == n && runs[n][..n - 1] == runs[n - 1]
    requires i <= k < |runs| && |runs[0]| == 0
    ensures runs[k][..i] == runs[i]
    decreases k
  {
    if i < k {
      RunsPrefix(runs, k - 1, i);
      PrefixOfPrefix(runs[k], k - 1, i);
    } else if k == 0 {
    } else {
      PrefixOfPrefix(runs[k], k, k);
    }
  }

  /** The recaps of `k` chunks start with the recaps of `k - 1`. */
  lemma RecapOutputsInit(structured: seq<string>, cleaned: seq<string>, raw: seq<string>, k: nat, llm: Prompt -> string)
    requires 0 < k <= ZipLength(structured, cleaned, raw)
    ensures RecapOutputs(structured, cleaned, raw, k, llm)[..k - 1] == RecapOutputs(structured, cleaned, raw, k - 1, llm)
  {
  }

  /** A prefix of a prefix is a prefix. */
  lemma PrefixOfPrefix<T>(s: seq<T>, j: nat, i: nat)
    requires i <= j <= |s|
    ensures s[..j][..i] == s[..i]
    ensures s[..|s|] == s
  {
  }

  /** What chunk `i` was asked for its recap: its own number, the count of
      structured chunks, the headings of the recaps before it (the last five
      joined by `; `, or "None yet."), and its structured, cleaned and raw
      text. */
  lemma RecapChunkPrompt(structured: seq<string>, cleaned: seq<string>, raw: seq<string>,
                         k: nat, i: nat, llm: Prompt -> string)
    requires i < k <= ZipLength(structured, cleaned, raw)
    ensures RecapOutputs(structured, cleaned, raw, k, llm)[i] == Strip(llm(RecapPrompt(
      i + 1, |structured|,
      PriorTopics(AllHeadings(RecapOutputs(structured, cleaned, raw, k, llm)[..i]), "; "),
      structured[i], cleaned[i], raw[i])))
  {
    RecapOutputsPrefix(structured, cleaned, raw, k, i + 1, llm);
    RecapOutputsPrefix(structured, cleaned, raw, k, i, llm);
    var out := RecapOutputs(structured, cleaned, raw, k, llm);
    assert out[..i + 1][i] == out[i];
  }

  /** The non-empty entries, in order (`x for x in xs if x`). */
  function NonEmptyParts(xs: seq<string>): (r: seq<string>)
    ensures forall p | p in r :: p != "" && p in xs
    ensures |r| <= |xs|
    decreases |xs|
  {
    if xs == [] then []
    else
      var init := NonEmptyParts(xs[..|xs| - 1]);
      assert forall p | p in xs[..|xs| - 1] :: p in xs;
      if xs[|xs| - 1] != "" then init + [xs[|xs| - 1]] else init
  }

  /** Every non-empty entry survives the filter. */
  lemma {:induction false} NonEmptyPartsComplete(xs: seq<string>)
    ensures forall i :: 0 <= i < |xs| && xs[i] != "" ==> xs[i] in NonEmptyParts(xs)
    decreases |xs|
  {
    if xs != [] {
      var init := xs[..|xs| - 1];
      NonEmptyPartsComplete(init);
      forall i | 0 <= i < |xs| && xs[i] != "" ensures xs[i] in NonEmptyParts(xs) {
        if i < |init| {
          assert init[i] == xs[i];
        }
      }
    }
  }

  /** The filter keeps order: filtering a concatenation concatenates the
      filtered halves. */
  lemma {:induction false} NonEmptyPartsAppend(a: seq<string>, b: seq<string>)
    ensures NonEmptyParts(a + b) == NonEmptyParts(a) + NonEmptyParts(b)
    decreases |b|
  {
    if b == [] {
      assert a + b == a;
    } else {
      var init := b[..|b| - 1];
      var x := b[|b| - 1];
      NonEmptyPartsAppend(a, init);
      assert (a + b)[..|a + b| - 1] == a + init;
      assert (a + b)[|a + b| - 1] == x;
      if x != "" {
        assert NonEmptyParts(a + b) == NonEmptyParts(a) + NonEmptyParts(init) + [x];
      }
    }
  }

  /** Entries that are all non-empty pass the filter unchanged. */
  lemma {:induction false} NonEmptyPartsOfNonEmpty(xs: seq<string>)
    requires forall i :: 0 <= i < |xs| ==> xs[i] != ""
    ensures NonEmptyParts(xs) == xs
    decreases |xs|
  {
    if xs != [] {
      NonEmptyPartsOfNonEmpty(xs[..|xs| - 1]);
      assert xs[..|xs| - 1] + [xs[|xs| - 1]] == xs;
    }
  }

  /** `_generate_professor`: one recap per chunk with the last five recap
      headings as context, blank recaps dropped, joined by blank lines. */
  method GenerateProfessor(structured: seq<string>, cleaned: seq<string>, raw: seq<string>, llm: Prompt -> string)
    returns (recap: string)
    ensures recap == Join(NonEmptyParts(RecapOutputs(structured, cleaned, raw, ZipLength(structured, cleaned, raw), llm)), "\n\n")
  {
    var outputs: seq<string> := [];
    var recentHeadings: seq<string> := [];
    var total := |structured|;
    var n := ZipLength(structured, cleaned, raw);
    for idx := 0 to n
      invariant outputs == RecapOutputs(structured, cleaned, raw, idx, llm)
      invariant recentHeadings == AllHeadings(outputs)
    {
      var priorTopics := if recentHeadings != [] then Join(LastN(recentHeadings, RollingWindow), "; ") else NoPriorTopics;
      var prompt := RecapPrompt(idx + 1, total, priorTopics, structured[idx], cleaned[idx], raw[idx]);
      var response := llm(prompt);
      var chunkRecap := Strip(response);
      AllHeadingsSnoc(outputs, chunkRecap);
      outputs := outputs + [chunkRecap];
      var headings := ExtractHeadings(chunkRecap);
      recentHeadings := recentHeadings + headings;
    }
    recap := Join(NonEmptyParts(outputs), "\n\n");
  }

  // ---------------------------------------------------------------------
  // _compose_document and the three bodies
  // ---------------------------------------------------------------------

  const NoContent: string := "*(No content generated.)*"

  /** What stands between the front matter and the final newline: the
      stripped body, or the no-content marker when that is empty. */
  function DocumentBody(body: string): string {
    var text := Strip(body);
    if text == "" then NoContent else text
  }

  /** `_compose_document`: front matter, a blank line, the body and a final
      newline. */
  function ComposeDocument(frontmatter: string, body: string): (doc: string)
    ensures |doc| == |frontmatter| + 2 + |DocumentBody(body)| + 1
    ensures doc[..|frontmatter|] == frontmatter && doc[|frontmatter|..|frontmatter| + 2] == "\n\n"
    ensures doc[|frontmatter| + 2..|doc| - 1] == DocumentBody(body) && doc[|doc| - 1] == '\n'
  {
    frontmatter + "\n\n" + DocumentBody(body) + "\n"
  }

  /** The body of a document is never empty and has no surrounding
      whitespace; a blank body becomes the marker, any other body its
      stripped text, and a body that is already stripped is kept exactly. */
  lemma DocumentBodyShape(body: string)
    ensures DocumentBody(body) != "" && IsStripped(DocumentBody(body))
    ensures IsBlank(body) ==> DocumentBody(body) == NoContent
    ensures !IsBlank(body) ==> DocumentBody(body) == Strip(body)
    ensures IsStripped(body) && body != "" ==> DocumentBody(body) == body
  {
    StripEmptyIffBlank(body);
    assert IsStripped(NoContent) by {
      assert NoContent[0] == '*' && NoContent[|NoContent| - 1] == '*';
    }
  }

  /** The three generated bodies of one language. */
  datatype Bodies = Bodies(structured: string, guide: string, professor: string)

  /** The structured-notes body: the non-blank narrative chunks joined by
      blank lines and stripped. */
  function StructuredBody(structured: seq<string>): string {
    Strip(Join(NonEmptyParts(structured), "\n\n"))
  }

  /** The three bodies the passes produce for a transcript. */
  function SummaryBodies(rawText: string, chunkChars: int, overlap: int,
                         chunker: (string, int, int) -> seq<string>, clean: string -> string,
                         llm: Prompt -> string, loads: string -> Option<GuideData>): Bodies
  {
    var raws := chunker(rawText, chunkChars, overlap);
    var structured := NarrativeOutputs(raws, |raws|, llm, clean);
    var cleaned := CleanChunks(raws, clean);
    Bodies(StructuredBody(structured),
           GuideText(FinalizeSpec(GuideMerged(structured, cleaned, raws, |raws|, llm, loads))),
           Join(NonEmptyParts(RecapOutputs(structured, cleaned, raws, |raws|, llm)), "\n\n"))
  }

  /** `_generate_language_summaries` (and the body of `LLMSummarizer.summarize`):
      the narrative pass, then the guide and recap passes over its chunks.
      The cleaned text is accepted but, as in the source, never read: the
      narrative pass cleans each raw chunk itself. */
  method LanguageSummaries(rawText: string, cleanedText: string, chunkChars: int, overlap: int,
                           chunker: (string, int, int) -> seq<string>, clean: string -> string,
                           llm: Prompt -> string, loads: string -> Option<GuideData>)
    returns (bodies: Bodies)
    ensures bodies == SummaryBodies(rawText, chunkChars, overlap, chunker, clean, llm, loads)
  {
    var structured, rawChunks, cleanedChunks := GenerateStructuredChunks(rawText, cleanedText, chunkChars, overlap, chunker, clean, llm);
    var structuredBody := Strip(Join(NonEmptyParts(structured), "\n\n"));
    var guideBody := GenerateGuide(structured, cleanedChunks, rawChunks, llm, loads);
    var professorBody := GenerateProfessor(structured, cleanedChunks, rawChunks, llm);
    bodies := Bodies(structuredBody, guideBody, professorBody);
  }

  /** Every guide body the pipeline produces has the fixed layout. */
  lemma SummaryGuideShape(rawText: string, chunkChars: int, overlap: int,
                          chunker: (string, int, int) -> seq<string>, clean: string -> string,
                          llm: Prompt -> string, loads: string -> Option<GuideData>)
    ensures exists agg: Aggregate ::
      ((forall c: Category :: c in agg)
       && SummaryBodies(rawText, chunkChars, overlap, chunker, clean, llm, loads).guide == GuideText(agg)
       && agg[Assignments] != [] && agg[MissionControl] != [] && |agg[NextMoves]| <= MaxNextMoves
       && (forall l | l in GuideLines(agg) :: l != ""))
  {
    var raws := chunker(rawText, chunkChars, overlap);
    var structured := NarrativeOutputs(raws, |raws|, llm, clean);
    var cleaned := CleanChunks(raws, clean);
    assert ZipLength(structured, cleaned, raws) == |raws|;
    GeneratedGuideShape(structured, cleaned, raws, llm, loads);
    var agg := FinalizeSpec(GuideMerged(structured, cleaned, raws, |raws|, llm, loads));
    assert SummaryBodies(rawText, chunkChars, overlap, chunker, clean, llm, loads).guide == GuideText(agg);
  }

  /** `x or d` for an optional string: None and "" both give `d`. */
  function OrElse(x: Option<string>, d: string): string {
    if x.Some? && x.value != "" then x.value else d
  }

  /** The three documents `LLMSummarizer.summarize` writes. */
  datatype Documents = Documents(structured: string, guide: string, professor: string)

  /** `LLMSummarizer.summarize` without the file writes: the bodies of the
      three passes, each composed with the front matter. The cleaned text it
      computes is passed on but the narrative pass re-cleans each chunk. */
  method Summarize(rawTranscript: Option<string>, cleanedTranscript: Option<string>, frontmatter: string,
                   chunkChars: int, overlap: int,
                   chunker: (string, int, int) -> seq<string>, clean: string -> string,
                   llm: Prompt -> string, loads: string -> Option<GuideData>)
    returns (bodies: Bodies, docs: Documents)
    ensures docs == Documents(ComposeDocument(frontmatter, bodies.structured),
                              ComposeDocument(frontmatter, bodies.guide),
                              ComposeDocument(frontmatter, bodies.professor))
    ensures bodies == SummaryBodies(OrElse(rawTranscript, ""), chunkChars, overlap, chunker, clean, llm, loads)
  {
    var rawText := OrElse(rawTranscript, "");
    var cleanedText := OrElse(cleanedTranscript, clean(rawText));
    bodies := LanguageSummaries(rawText, cleanedText, chunkChars, overlap, chunker, clean, llm, loads);
    docs := Documents(ComposeDocument(frontmatter, bodies.structured),
                      ComposeDocument(frontmatter, bodies.guide),
                      ComposeDocument(frontmatter, bodies.professor));
  }
}
