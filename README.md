# class_recorder — a verified model of the processing core

class_recorder records a lecture, transcribes it with OpenAI Whisper and turns the
transcript into three Markdown notes for an Obsidian vault. Each note carries a shared
YAML front matter:

- a structured narrative;
- a study guide with nine fixed sections;
- a professor-style recap.

A Russian variant writes the three notes in Russian. It then translates the transcript
into English and writes the three notes again in English.

This project models the part of that pipeline that decides what gets sent and what gets
written:

- **Transcription** (`transcriber.dfy`). The choice between one upload and a split. The
  split planner retries with more, shorter chunks (at most 8 attempts and never less than
  60 s per chunk). The chunk file names. The merge of the per-chunk responses: text,
  segments shifted by the chunk offset, and total duration, with the probe as fallback.
- **Pre-filter** (`prefilter.dfy`). `prefilter_transcript` cuts the text into sentences
  after `.`, `!` or `?` plus whitespace, or at runs of newlines. It drops blank lines,
  filler, and short lines without digits. It keeps the first sentence of each
  fingerprint, which is the lower-cased text with every non-word character removed.
- **Summarisation** (`headings.dfy`, `guide.dfy`, `summarizer.dfy`, `summarizer_ru.dfy`):
  - The narrative pass: one prompt per chunk. The first chunk gets the "opening"
    instruction. Every prompt carries the last five headings seen so far, or `None yet.`.
  - The study-guide pass: JSON parsing with a fallback to the outermost braces,
    de-duplicating merge of the lists, placeholders, at most three next moves, and the
    fixed Markdown layout.
  - The recap pass.
  - Composing each note as front matter, a blank line, the body (or a placeholder) and a
    final newline.
  - For the Russian summariser, the chunk-by-chunk translation and the two language runs.
- **Configuration** (`config.dfy`). The dotted-path lookup `Config.get`, and the
  constructor's refusal to start without an OpenAI key.

`wrappers.dfy` holds `Option` and `Result`. `text.dfy` holds the Python string
operations the core relies on: `strip`, `lstrip(c)`, `splitlines`, `split`, `join`,
`lower` and `startswith`.

Everything remote or external becomes a parameter of the model:

| parameter | stands for |
|---|---|
| `llm` | the chat-completion call, with its prompt as a datatype |
| `loads` | `json.loads` |
| `chunker` | `chunk_text` |
| `clean` | `clean_transcript` |
| `cut` | one ffmpeg cut: the size of the file it wrote, or nothing |
| `whisper` | the transcription request, as a normalised response |
| `probed` | the ffprobe duration |
| the YAML document and the environment keys | the configuration inputs |

Each method that has a loop in the source keeps the loop, and is proved equal to a
specification function. The properties below are proved about those functions.

## Model

| member | source | states |
|---|---|---|
| Transcriber.ChunkedPathIffOverLimit | class_recorder/transcriber.py:31-42 | the chunked path is taken exactly when the byte size exceeds 24 MiB |
| Transcriber.InitialTarget | class_recorder/transcriber.py:164-168 | the first chunk count is at least 1; it is the least count whose 24 MiB pieces cover the file |
| Transcriber.ChunkDuration | class_recorder/transcriber.py:174 | the chunk length is at least 60 s and covers total/target; beyond the 60 s floor it is the ceiling of that quotient |
| Transcriber.ChunkNameInjective | class_recorder/transcriber.py:188 | different chunk indices give different `chunk_NNN.m4a` names, including past 999 |
| Transcriber.DecimalRoundTrip | class_recorder/transcriber.py:188 | reading back the decimal digits of an index gives the index |
| Transcriber.ZeroPadValue | class_recorder/transcriber.py:188 | zero-padding keeps the string all digits and keeps its value |
| Transcriber.AttemptCutsShape | class_recorder/transcriber.py:183-207 | one attempt cuts piece k at offset k·d, all offsets below the duration, every cut having produced a non-empty file; it ends at the first index whose offset reaches the duration or whose cut is missing or empty |
| Transcriber.CutPieces | class_recorder/transcriber.py:180-207 | the inner loop returns exactly that attempt's pieces, and flags too-large exactly when some piece exceeds 24 MiB |
| Transcriber.SplitAudio | class_recorder/transcriber.py:162-214 | the retry loop computes the split plan: more chunks each attempt, at most 8 attempts |
| Transcriber.SplitFromFailure | class_recorder/transcriber.py:172-214 | the split fails exactly when none of the remaining chunk counts yields a non-empty attempt whose pieces all fit; the error is the fixed "Unable to split audio…" message |
| Transcriber.SplitFromSuccess | class_recorder/transcriber.py:209-212 | a successful split is the first acceptable chunk count in range, and its pieces are what that attempt cut |
| Transcriber.SplitAudioPlan | class_recorder/transcriber.py:183-210 | an accepted plan is non-empty and laid out at multiples of one chunk length of at least 60 s; offsets strictly increase, names are distinct, and every piece fits the limit |
| Transcriber.ExtractDuration | class_recorder/transcriber.py:244-249 | a reported duration is used, and otherwise the fallback |
| Transcriber.Shifted | class_recorder/transcriber.py:119-122 | one segment per input segment, start and end each moved by the chunk offset |
| Transcriber.TranscribeChunked | class_recorder/transcriber.py:85-160 | the merge loop yields the joined texts, every segment shifted by its chunk's offset in order, and the summed duration, probed only if the sum is zero |
| Transcriber.MergedSegmentsCount | class_recorder/transcriber.py:119-122 | the merged segment list has exactly as many segments as all responses together |
| Transcriber.MergedSegmentAt | class_recorder/transcriber.py:119-122 | segment j of chunk i sits at position (segments before chunk i) + j, shifted by chunk i's offset |
| Transcriber.ProbedOnlyWhenNothingReported | class_recorder/transcriber.py:116-128 | the merged duration is the reported total when that is non-zero and the probe when it is zero; in particular the probe when no chunk reports a duration |
| Transcriber.SingleTranscript | class_recorder/transcriber.py:44-83 | the single path keeps the response's segments and a missing text as "", takes the reported duration when there is one, and falls back to the probe otherwise |
| Transcriber.Transcribe | class_recorder/transcriber.py:28-42 | up to 24 MiB: one upload; above: the split error, or the merge of the planned chunks' transcriptions |
| Prefilter.SeparatorEnd | class_recorder/utils.py:31 | a separator starts at i exactly when the regex `(?<=[.!?])\s+` or `\n+` matches there |
| Prefilter.SentencesUnsplittable | class_recorder/utils.py:31 | no piece the split returns contains a separator match |
| Prefilter.SentencesOfJoin | class_recorder/utils.py:31-57 | newline-joined stripped lines without separators split back into the same lines |
| Prefilter.Fingerprint | class_recorder/utils.py:50 | the fingerprint keeps only word characters, is no longer than its input, and leaves an all-word text unchanged |
| Prefilter.Step | class_recorder/utils.py:35-55 | a sentence is kept (stripped, its fingerprint recorded) exactly when it is not blank, has no filler pattern, is 25+ characters or has a digit, and its fingerprint is unseen; otherwise nothing changes |
| Prefilter.PrefilterTranscript | class_recorder/utils.py:26-57 | the loop computes the pre-filter of the text |
| Prefilter.RunIsFold | class_recorder/utils.py:35-55 | the loop over the sentences is the first-occurrence rule with the filters of `prefilter_transcript` as content test and the word-character fingerprint as key |
| Prefilter.FoldShape | class_recorder/utils.py:35-55 | for any content test and key: every kept line is stripped and passes the test, no two share a key, and the seen set is exactly their keys |
| Prefilter.FoldComplete | class_recorder/utils.py:49-53 | for any content test and key: every sentence that passes the test has its key among the seen ones |
| Prefilter.FoldSubsequence | class_recorder/utils.py:35-55 | for any content test and key: the kept lines are the stripped sentences at increasing positions, each the first passing sentence with its key |
| Prefilter.FoldKeepsAll | class_recorder/utils.py:35-55 | for any content test and key: stripped lines that all pass the test and have distinct keys are all kept |
| Prefilter.KeptShape | class_recorder/utils.py:35-55 | the kept lines pass the filters, have distinct fingerprints and hold no separator |
| Prefilter.PrefilterOutcome | class_recorder/utils.py:26-57 | "" stays ""; if nothing is kept the text comes back unchanged, otherwise the kept lines joined by newlines, which split back into those lines |
| Prefilter.PrefilterIdempotent | class_recorder/utils.py:26-57 | filtering twice gives the same text as filtering once |
| Headings.ExtractHeadings | class_recorder/summarizer.py:292-300 | the loop returns the headings of the markdown (none for "") |
| Headings.HeadingsShape | class_recorder/summarizer.py:292-300 | at most one heading per line, none without a `##` line, every heading stripped and on one line |
| Headings.HeadingRoundTrip | class_recorder/summarizer.py:292-300 | the heading of `## title` is the title |
| Headings.LastN | class_recorder/summarizer.py:165 | the window is the last min(n, length) headings, as `recent[-n:]` for n > 0 |
| Headings.NarrativeContextBounded | class_recorder/summarizer.py:165-167 | the prior-topics text is `None yet.` when there are no headings; otherwise it splits into at most five lines, exactly the last five headings, without the last one when that is empty |
| Summarizer.OnlyFirstChunkOpens | class_recorder/summarizer.py:173 | the opening instruction goes to chunk 1 and to no other chunk |
| Summarizer.GenerateStructuredChunks | class_recorder/summarizer.py:152-192 | the loop returns the chunker's raw chunks, their cleaned forms, and the narrative outputs of the specification |
| Summarizer.NarrativeOutputsPrefix | class_recorder/summarizer.py:152-192 | a later chunk never changes an earlier chunk's output |
| Summarizer.NarrativeChunkPrompt | class_recorder/summarizer.py:165-190 | chunk i's output is the stripped answer to a prompt with index i+1, the total, the last five headings of outputs before i, its instruction, and its cleaned and raw text |
| Summarizer.ZipLength | class_recorder/summarizer.py:207 | the guide and recap loops run for the shortest of the three chunk lists |
| Summarizer.GuideMerged | class_recorder/summarizer.py:207-221 | merging any sequence of parsed chunk answers leaves every list stripped, non-blank and duplicate-free |
| Summarizer.GenerateGuide | class_recorder/summarizer.py:194-257 | the guide loop and rendering produce the guide text of the finalised merged record |
| Summarizer.GeneratedGuideShape | class_recorder/summarizer.py:223-257 | the generated guide always has assignments and a mission summary, at most three next moves, no empty entry in the list of guide lines, and every section but the checklist parent filled |
| Summarizer.NonEmptyParts | class_recorder/summarizer.py:281 | only non-empty recaps are kept, all taken from the outputs |
| Summarizer.NonEmptyPartsComplete | class_recorder/summarizer.py:281 | no non-empty recap is lost |
| Summarizer.NonEmptyPartsAppend | class_recorder/summarizer.py:281 | the filter keeps order: filtering a concatenation concatenates the filtered parts |
| Summarizer.NonEmptyPartsOfNonEmpty | class_recorder/summarizer.py:281 | recaps that are all non-empty are kept unchanged |
| Summarizer.GenerateProfessor | class_recorder/summarizer.py:259-281 | the recap loop joins the non-empty recaps with blank lines |
| Summarizer.RecapOutputsPrefix | class_recorder/summarizer.py:264-280 | a later recap never changes an earlier one |
| Summarizer.RecapChunkPrompt | class_recorder/summarizer.py:264-279 | recap i is the stripped answer to a prompt with index i+1, the count of structured chunks, the last five headings of the recaps before i joined by `; ` (or `None yet.`), and its structured, cleaned and raw text |
| Summarizer.ComposeDocument | class_recorder/summarizer.py:146-150 | the note is the front matter, a blank line, the body (stripped, or the no-content placeholder) and a final newline |
| Summarizer.DocumentBodyShape | class_recorder/summarizer.py:146-150 | the body is never empty and is stripped; a blank body becomes the placeholder; a stripped non-empty body is kept as it is |
| Summarizer.LanguageSummaries | class_recorder/summarizer.py:108-118 | the three passes run in order on one chunking of the raw transcript |
| Summarizer.SummaryGuideShape | class_recorder/summarizer.py:108-118 | the study-guide note is always the rendering of a complete record with assignments, a mission summary, at most three next moves, and no empty entry in the list of guide lines |
| Summarizer.Summarize | class_recorder/summarizer.py:104-144 | a missing raw transcript reads as ""; the three notes are composed from the three bodies with the shared front matter |
| Guide.FindFirst | class_recorder/summarizer.py:309 | `index('{')`: the first position of the character, or "not found" |
| Guide.FindLast | class_recorder/summarizer.py:310 | `rindex('}')`: the last position of the character, or "not found" |
| Guide.ParseGuideJson | class_recorder/summarizer.py:302-313 | an empty response gives the empty record |
| Guide.ParseGuideJsonFallback | class_recorder/summarizer.py:305-313 | an undecodable response without both braces gives the empty record; with its first `{` before its last `}` the outcome is the decoding of that slice, or the empty record; with the last `}` before the first `{` the slice is empty, and the outcome is the decoding of "" |
| Guide.FencedGuideParsesAsBare | class_recorder/summarizer.py:305-313 | an object wrapped in brace-free prose or fencing parses as the bare object |
| Guide.ExtendUnique | class_recorder/summarizer.py:315-321 | the loop appends to the list as the specification says |
| Guide.ExtendUniqueKeepsPrefix | class_recorder/summarizer.py:315-321 | existing entries stay in place and in order |
| Guide.ExtendUniqueWellFormed | class_recorder/summarizer.py:315-321 | the list stays stripped, non-blank and duplicate-free |
| Guide.ExtendUniqueAddsOnlyItems | class_recorder/summarizer.py:315-321 | every added entry is the stripped form of some item |
| Guide.ExtendUniqueComplete | class_recorder/summarizer.py:315-321 | every non-blank item's stripped form is present afterwards |
| Guide.EnsureBullets | class_recorder/summarizer.py:323-334 | the loop produces the bullet lines of the specification |
| Guide.BulletsShape | class_recorder/summarizer.py:323-334 | never empty; every line is non-empty and opens with `-` or `>` |
| Guide.BulletsIdempotent | class_recorder/summarizer.py:323-334 | bulleting bullet lines changes nothing |
| Guide.EnsureCheckboxes | class_recorder/summarizer.py:336-347 | the loop produces the checkbox lines of the specification |
| Guide.CheckboxesShape | class_recorder/summarizer.py:336-347 | never empty; every line opens with `- [` |
| Guide.CheckboxesNotIdempotent | class_recorder/summarizer.py:344-345 | applied twice to an item of dashes only, the checkbox pass gives `- [ ]` where once gives `- [ ] `, so it is not idempotent |
| Guide.EmptyAggregateWellFormed | class_recorder/summarizer.py:195-205 | the starting record has all nine lists, all empty |
| Guide.MergeChunk | class_recorder/summarizer.py:216-221 | one chunk's answer is merged into each category's list |
| Guide.MergeWellFormed | class_recorder/summarizer.py:216-221 | merging keeps every list stripped, non-blank and duplicate-free |
| Guide.FinalizeGuarantees | class_recorder/summarizer.py:223-228 | assignments and mission control get placeholders only when empty; next moves are cut to their first three; the other lists are untouched |
| Guide.FinalizeAggregate | class_recorder/summarizer.py:223-228 | the placeholder and cut steps produce the finalised record whose guarantees `FinalizeGuarantees` states |
| Guide.RenderGuide | class_recorder/summarizer.py:230-257 | the appends produce the fixed headings and sections in order, joined by newlines |
| Guide.GuideSectionAt | class_recorder/summarizer.py:230-257 | the guide lines are the nine headings interleaved with their sections in fixed order |
| Guide.GuideSectionsNonEmpty | class_recorder/summarizer.py:230-257 | every section but the checklist parent has at least one line |
| Guide.GuideLinesNonEmpty | class_recorder/summarizer.py:230-257 | a finalised guide has no empty entry in the list of guide lines (the joined text still holds blank lines) |
| SummarizerRu.Translations | class_recorder/summarizer_ru.py:304-316 | one stripped translation per chunk, in order |
| SummarizerRu.TranslateToEnglish | class_recorder/summarizer_ru.py:304-316 | the loop chunks at twice the size with no overlap, translates each chunk, and joins with blank lines |
| SummarizerRu.TranslationOfFewChunks | class_recorder/summarizer_ru.py:304-316 | no chunks give ""; one chunk gives its stripped translation alone |
| SummarizerRu.SummarizeRussian | class_recorder/summarizer_ru.py:204-302 | the Russian notes come from the raw transcript; the translation comes from the cleaned transcript (or the cleaned raw one); the English notes come from the translation; all six notes share the front matter |
| Configuration.Config.constructor | class_recorder/config.py:10-19 | the record holds the document and both keys |
| Configuration.CreateConfig | class_recorder/config.py:10-19 | construction fails with "OPENAI_API_KEY not found in .env file" exactly when the key is absent or empty |
| Configuration.Config.Get | class_recorder/config.py:21-30 | the loop returns the lookup of the dotted path, or the default |
| Configuration.PathKeys | class_recorder/config.py:23 | a path of dot-free keys joined by `.` splits back into those keys |
| Configuration.MissingKeyLookup | class_recorder/config.py:25-30 | a key missing along the path gives the default |
| Configuration.NonDictLookup | class_recorder/config.py:26-29 | meeting a non-mapping before the path ends gives the default |
| Configuration.StoredValueLookup | class_recorder/config.py:27-30 | a stored non-null value comes back unchanged even when falsy; a stored null gives the default |
| Text.StripEmptyIffBlank | class_recorder/summarizer.py:317-318 | `strip()` is empty exactly for all-whitespace text |

## Behaviour of the source, modelled as written

- `summarize` (class_recorder/summarizer.py:108-109) computes the cleaned transcript and
  hands it to the narrative pass. That pass never reads it: it cleans each raw chunk
  separately. `LanguageSummaries` takes the argument and ignores it in the same way.
- The guide and recap prompts give `len(structured_chunks)` as the total, while their
  loops `zip` three lists and stop at the shortest (`ZipLength`). When the chunker
  returns lists of equal length the two agree.
- `_ensure_checkboxes` is not idempotent on an item made only of dashes. It becomes
  `- [ ] ` with a trailing space (class_recorder/summarizer.py:345). A second pass strips
  that to `- [ ]` and keeps it, since it opens with `- [` (class_recorder/summarizer.py:344).
  `Guide.CheckboxesNotIdempotent` states this, and `CheckboxesShape` states what does hold.
- The prior-topics text cannot tell the empty history apart from a single heading
  `None yet.`, so `NarrativeContextBounded` recovers the headings from the text and not
  the other way round.
- A bare `##` line gives an empty heading (class_recorder/summarizer.py:297-299). When it is
  the last heading in the window, the newline-joined prompt text has no line for it, so
  it is lost from the prompt. `NarrativeContextBounded` states this case.
- The Russian summariser produces the English notes from the translation, which it uses
  as both the raw and the cleaned transcript. Every request goes through the same client;
  the translation requests pass the Russian model (`self._generate_text(prompt,
  self.russian_model)`, class_recorder/summarizer_ru.py:313). In the model, `generate`
  takes the language as an argument, standing for that language's templates and model
  name, and the translation requests use `Russian`.
- The retry loop's inner cut-and-measure loop is the separate method
  `Transcriber.CutPieces`, so that each loop carries its own invariants.

## Left out

- Network calls (OpenAI/OpenRouter, Whisper), ffmpeg/ffprobe, the file system (temp
  directory clean-up, `unlink`, writing transcripts, JSON and Markdown notes) and console
  output are not modelled: they are the oracle parameters listed above, or dropped.
- Retry decorators (`@retry` on `transcribe` and on the LLM calls) are not modelled: a
  retried call is one call of the oracle.
- The duck typing of Whisper responses (`_extract_text`, `_extract_segments`,
  `_serialize_response` on strings, objects and dicts) is not modelled. The model takes a
  normalised response with an optional text, an optional duration and a segment list.
- `_probe_duration` is a value passed in. The source probes eagerly in the single-upload
  path (class_recorder/transcriber.py:59) and in every `_split_audio`
  (class_recorder/transcriber.py:166); only the fallback of the chunked path
  (class_recorder/transcriber.py:127-128) is conditional.
- An ffprobe failure is not modelled. In the source it raises `CalledProcessError`, or
  `ValueError` from `float` (class_recorder/transcriber.py:223), even when Whisper reports
  a duration.
- An ffmpeg failure while cutting is not modelled. In the source `check=True` makes it
  raise `CalledProcessError` (class_recorder/transcriber.py:197). The model's `cut` can
  only report that no piece was written.
- Durations are exact reals. Floating-point rounding in `total_duration / target_chunks`
  and in the sums is not modelled.
- `Text.Lower` folds only A–Z, and `Text.IsDigit` counts only 0–9. Python's `lower()` and
  `isdigit()` are full Unicode, so non-ASCII letters and digits (superscripts, other
  scripts) are outside the model.
- `Prefilter.IsWordChar` follows Python's `\w` for ASCII and Latin-1. Above U+00FF it
  takes every character except U+2028 and U+2029 as a word character, which is an
  approximation of the Unicode tables.
- `Text.IsSpace` covers the ASCII and Latin-1 whitespace Python recognises. Other Unicode
  spaces are not modelled.
- `Guide.ParseGuideJson`: `json.loads` is an oracle, and the model takes each category as
  a list of strings. Other decoded values are outside the model. In the source
  (class_recorder/summarizer.py:221, 315-321), a top-level value that is not an object
  raises `AttributeError` at `.get`. A category holding a string is iterated character
  by character, and each non-blank character is appended. A category holding a non-zero
  number raises `TypeError`; `null`, `0` and other falsy values are skipped. A list entry
  that is not a string raises `AttributeError` at `.strip()`.
- `chunk_text`, `clean_transcript` and `build_frontmatter` live outside the core. They are
  oracle parameters, and the front matter is a string.
- `Configuration.Config.constructor`: reading `config.yaml` and the `.env` file is not
  modelled. The parsed document and the two keys are parameters. YAML floats and dates
  are not among the modelled values. The OpenRouter key is stored but never checked, as
  in the source.
- `Transcriber.MergedTranscript` modifies no segment in place. The source shifts each
  segment dictionary in place (`segment['start'] += offset`). The model builds shifted
  copies, so the caller's response objects are not aliased.
- The recorder, CLI, auto-fix and debugging scripts are not part of this model.
