/**
 * `RussianLLMSummarizer`: the Russian passes, a chunked translation of the
 * cleaned transcript into English, and the same passes again over the
 * translation. The oracle `generate` takes the language whose prompt
 * templates and model a call uses.
 */
module SummarizerRu {
  import opened Wrappers
  import opened Text
  import opened Guide
  import opened Summarizer

  datatype Language = Russian | English

  /** The model calls of one language (its templates and its model). */
  function WithLanguage(generate: (Language, Prompt) -> string, lang: Language): Prompt -> string {
    p => generate(lang, p)
  }

  /** The stripped translation of each chunk, in chunk order. */
  function Translations(chunks: seq<string>, llm: Prompt -> string): (r: seq<string>)
    ensures |r| == |chunks|
    ensures forall i :: 0 <= i < |chunks| ==> r[i] == Strip(llm(TranslationPrompt(chunks[i])))
    decreases |chunks|
  {
    if chunks == [] then []
    else Translations(chunks[..|chunks| - 1], llm) + [Strip(llm(TranslationPrompt(chunks[|chunks| - 1])))]
  }

  /** The translation of a text: re-chunked with twice the chunk budget and
      no overlap, one stripped translation per chunk, joined by blank lines. */
  function Translation(text: string, chunkChars: int, chunker: (string, int, int) -> seq<string>, llm: Prompt -> string): string {
    Join(Translations(chunker(text, chunkChars * 2, 0), llm), "\n\n")
  }

  /** `_translate_to_english` */
  method TranslateToEnglish(russianText: string, chunkChars: int, chunker: (string, int, int) -> seq<string>,
                            llm: Prompt -> string)
    returns (english: string)
    ensures english == Translation(russianText, chunkChars, chunker, llm)
  {
    var chunks := chunker(russianText, chunkChars * 2, 0);
    var translatedChunks: seq<string> := [];
    for idx := 0 to |chunks|
      invariant translatedChunks == Translations(chunks[..idx], llm)
    {
      var prompt := TranslationPrompt(chunks[idx]);
      var translation := llm(prompt);
      translatedChunks := translatedChunks + [Strip(translation)];
      assert chunks[..idx + 1][..idx] == chunks[..idx];
    }
    assert chunks[..|chunks|] == chunks;
    english := Join(translatedChunks, "\n\n");
  }

  /** A text that chunks to nothing translates to the empty text, and a
      single chunk translates to its stripped translation alone. */
  lemma TranslationOfFewChunks(text: string, chunkChars: int, chunker: (string, int, int) -> seq<string>, llm: Prompt -> string)
    ensures chunker(text, chunkChars * 2, 0) == [] ==> Translation(text, chunkChars, chunker, llm) == ""
    ensures |chunker(text, chunkChars * 2, 0)| == 1 ==>
      Translation(text, chunkChars, chunker, llm) == Strip(llm(TranslationPrompt(chunker(text, chunkChars * 2, 0)[0])))
  {
  }

  /** The six bodies and the translated transcript. */
  datatype RussianSummary = RussianSummary(russian: Bodies, translation: string, english: Bodies)

  /** `RussianLLMSummarizer.summarize` without the file writes: Russian
      bodies from the transcript, the translation of the cleaned transcript
      (with the Russian model), and English bodies from that translation,
      which serves as both raw and cleaned text. */
  method SummarizeRussian(rawTranscript: Option<string>, cleanedTranscript: Option<string>, frontmatter: string,
                          chunkChars: int, overlap: int,
                          chunker: (string, int, int) -> seq<string>, clean: string -> string,
                          generate: (Language, Prompt) -> string, loads: string -> Option<GuideData>)
    returns (summary: RussianSummary, russianDocs: Documents, englishDocs: Documents)
    ensures var rawText := OrElse(rawTranscript, "");
      var cleanedText := OrElse(cleanedTranscript, clean(rawText));
      && summary.russian == SummaryBodies(rawText, chunkChars, overlap, chunker, clean, WithLanguage(generate, Russian), loads)
      && summary.translation == Translation(cleanedText, chunkChars, chunker, WithLanguage(generate, Russian))
      && summary.english == SummaryBodies(summary.translation, chunkChars, overlap, chunker, clean, WithLanguage(generate, English), loads)
    ensures russianDocs == Documents(ComposeDocument(frontmatter, summary.russian.structured),
                                     ComposeDocument(frontmatter, summary.russian.guide),
                                     ComposeDocument(frontmatter, summary.russian.professor))
    ensures englishDocs == Documents(ComposeDocument(frontmatter, summary.english.structured),
                                     ComposeDocument(frontmatter, summary.english.guide),
                                     ComposeDocument(frontmatter, summary.english.professor))
  {
    var rawText := OrElse(rawTranscript, "");
    var cleanedText := OrElse(cleanedTranscript, clean(rawText));
    var russian := LanguageSummaries(rawText, cleanedText, chunkChars, overlap, chunker, clean, WithLanguage(generate, Russian), loads);
    var english := TranslateToEnglish(cleanedText, chunkChars, chunker, WithLanguage(generate, Russian));
    var englishBodies := LanguageSummaries(english, english, chunkChars, overlap, chunker, clean, WithLanguage(generate, English), loads);
    summary := RussianSummary(russian, english, englishBodies);
    russianDocs := Documents(ComposeDocument(frontmatter, russian.structured),
                             ComposeDocument(frontmatter, russian.guide),
                             ComposeDocument(frontmatter, russian.professor));
    englishDocs := Documents(ComposeDocument(frontmatter, englishBodies.structured),
                             ComposeDocument(frontmatter, englishBodies.guide),
                             ComposeDocument(frontmatter, englishBodies.professor));
  }
}
