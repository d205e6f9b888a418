/**
 * `WhisperTranscriber`: choosing between one upload and a chunked
 * upload, the planner that cuts a large recording into pieces under the
 * upload limit, and the merge of the per-chunk transcriptions.
 *
 * The outside world is a set of parameters: the probed duration of the
 * recording (`probed`), the ffmpeg cut (`cut(start, duration)` gives the
 * byte size of the piece it wrote, or None when no file appeared), and
 * the Whisper call (`whisper(path)` gives the normalised response for a
 * file). Durations are exact reals.
 */
module Transcriber {
  import opened Wrappers
  import opened Text

  /** Whisper rejects uploads above 25 MB; the recorder stays under 24 MiB. */
  const MaxFileSizeMb: nat := 24
  const MaxBytes: nat := MaxFileSizeMb * 1024 * 1024
  /** The planner never cuts pieces shorter than a minute. */
  const MinChunkSeconds: nat := 60
  /** Number of plans the planner tries before giving up. */
  const MaxAttempts: nat := 8
  const SplitError: string := "Unable to split audio into chunks under the size limit. Consider lowering bitrate or shortening recording."

  // ---------------------------------------------------------------------
  // The single-or-chunked decision

  /** `file_size_mb > MAX_FILE_SIZE_MB`, with the size in MiB as a real. */
  predicate TakesChunkedPath(audioSize: nat) {
    audioSize as real / (1024 * 1024) as real > MaxFileSizeMb as real
  }

  /** The chunked path is taken exactly for files larger than 24 MiB. */
  lemma ChunkedPathIffOverLimit(audioSize: nat)
    ensures TakesChunkedPath(audioSize) <==> audioSize > MaxBytes
  {
    var mib := (1024 * 1024) as real;
    assert audioSize as real / mib * mib == audioSize as real;
    if audioSize > MaxBytes {
      assert audioSize as real > MaxFileSizeMb as real * mib;
    } else {
      assert audioSize as real <= MaxFileSizeMb as real * mib;
    }
  }

  // ---------------------------------------------------------------------
  // Arithmetic of the planner

  /** `math.ceil` of a real. */
  function Ceil(x: real): (r: int)
    ensures x <= r as real < x + 1.0
  {
    if x.Floor as real == x then x.Floor else x.Floor + 1
  }

  function Max(a: int, b: int): int { if a < b then b else a }

  /** `max(1, math.ceil(audio_size / max_bytes))`: the first number of pieces tried. */
  function InitialTarget(audioSize: nat): (r: nat)
    ensures r >= 1
    ensures r * MaxBytes >= audioSize
    ensures audioSize > 0 ==> (r - 1) * MaxBytes < audioSize
  {
    Max(1, (audioSize + MaxBytes - 1) / MaxBytes)
  }

  /** `max(60, math.ceil(total_duration / target_chunks))`. */
  function ChunkDuration(total: real, target: nat): (d: nat)
    requires target >= 1
    ensures d >= MinChunkSeconds
    ensures d as real >= total / target as real
    ensures d > MinChunkSeconds ==> (d - 1) as real < total / target as real
  {
    Max(MinChunkSeconds, Ceil(total / target as real))
  }

  // ---------------------------------------------------------------------
  // Chunk file names: `chunk_{index:03d}.m4a`

  function DigitChar(d: nat): char
    requires d < 10
  {
    ('0' as int + d) as char
  }

  /** The decimal digits of a natural number, without leading zeros. */
  function Decimal(n: nat): (s: string)
    ensures s != []
    ensures forall k :: 0 <= k < |s| ==> IsDigit(s[k])
    decreases n
  {
    if n < 10 then [DigitChar(n)] else Decimal(n / 10) + [DigitChar(n % 10)]
  }

  /** Left-pads with zeros to the given width (`%0<width>d`). */
  function ZeroPad(s: string, width: nat): (r: string)
    ensures |r| >= width && |r| >= |s|
    ensures r[|r| - |s|..] == s
    ensures forall k :: 0 <= k < |r| - |s| ==> r[k] == '0'
    decreases width - |s|
  {
    if |s| >= width then s else ZeroPad("0" + s, width)
  }

  function ChunkName(index: nat): string {
    "chunk_" + ZeroPad(Decimal(index), 3) + ".m4a"
  }

  /** The number a string of digits denotes. */
  function DecimalValue(s: string): nat
    requires forall k :: 0 <= k < |s| ==> IsDigit(s[k])
    decreases |s|
  {
    if s == [] then 0
    else
      assert IsDigit(s[|s| - 1]);
      DecimalValue(s[..|s| - 1]) * 10 + (s[|s| - 1] as int - '0' as int)
  }

  lemma {:induction false} DecimalRoundTrip(n: nat)
    ensures DecimalValue(Decimal(n)) == n
    decreases n
  {
    if n >= 10 {
      var s := Decimal(n);
      assert s[..|s| - 1] == Decimal(n / 10);
      DecimalRoundTrip(n / 10);
    }
  }

  /** Leading zeros do not change the value. */
  lemma {:induction false} LeadingZero(s: string)
    requires forall k :: 0 <= k < |s| ==> IsDigit(s[k])
    ensures DecimalValue("0" + s) == DecimalValue(s)
    decreases |s|
  {
    if s != [] {
      var t := "0" + s;
      assert t[..|t| - 1] == "0" + s[..|s| - 1];
      LeadingZero(s[..|s| - 1]);
    }
  }

  lemma {:induction false} ZeroPadValue(s: string, width: nat)
    requires forall k :: 0 <= k < |s| ==> IsDigit(s[k])
    ensures forall k :: 0 <= k < |ZeroPad(s, width)| ==> IsDigit(ZeroPad(s, width)[k])
    ensures DecimalValue(ZeroPad(s, width)) == DecimalValue(s)
    decreases width - |s|
  {
    if |s| < width {
      ZeroPadValue("0" + s, width);
      LeadingZero(s);
    }
  }

  /** Distinct pieces get distinct file names. */
  lemma ChunkNameInjective(i: nat, j: nat)
    ensures ChunkName(i) == ChunkName(j) ==> i == j
  {
    if ChunkName(i) == ChunkName(j) {
      var pi := ZeroPad(Decimal(i), 3);
      var pj := ZeroPad(Decimal(j), 3);
      var ni := ChunkName(i);
      assert |pi| == |pj|;
      assert pi == ni[6..6 + |pi|];
      assert pj == ChunkName(j)[6..6 + |pj|];
      ZeroPadValue(Decimal(i), 3);
      ZeroPadValue(Decimal(j), 3);
      DecimalRoundTrip(i);
      DecimalRoundTrip(j);
    }
  }

  // ---------------------------------------------------------------------
  // One attempt of the planner

  /** A piece ffmpeg wrote: its index, start offset in seconds and byte size. */
  datatype Cut = Cut(index: nat, offset: int, size: nat)

  /** What `_split_audio` returns per piece: the file and its start offset. */
  datatype AudioChunk = AudioChunk(path: string, offset: int)

  /** The pieces one attempt collects from `index` on: offsets `index * d`
      while below the total, stopping at the first cut that is missing or
      empty. */
  function AttemptCuts(total: real, d: nat, cut: (int, int) -> Option<nat>, index: nat): seq<Cut>
    requires d > 0
    decreases total.Floor - index * d
  {
    if (index * d) as real >= total then []
    else match cut(index * d, d)
      case None => []
      case Some(size) => if size == 0 then [] else [Cut(index, index * d, size)] + AttemptCuts(total, d, cut, index + 1)
  }

  predicate AllFit(cuts: seq<Cut>) {
    forall k :: 0 <= k < |cuts| ==> cuts[k].size <= MaxBytes
  }

  function Chunks(cuts: seq<Cut>): (r: seq<AudioChunk>)
    ensures |r| == |cuts|
  {
    seq(|cuts|, k requires 0 <= k < |cuts| => AudioChunk(ChunkName(cuts[k].index), cuts[k].offset))
  }

  /** Consecutive indices from `index`, offsets that step by `d` and stay
      below the total, and the non-empty file each cut wrote. */
  predicate CutsLaidOut(cs: seq<Cut>, index: nat, d: nat, total: real, cut: (int, int) -> Option<nat>) {
    forall k :: 0 <= k < |cs| ==>
      cs[k].index == index + k && cs[k].offset == cs[k].index * d && (cs[k].offset as real) < total
      && cut(cs[k].offset, d) == Some(cs[k].size) && cs[k].size > 0
  }

  /** An attempt stops at index `e`: its offset reaches the total, or the
      cut there writes no file or an empty one. */
  predicate StopsAt(e: nat, d: nat, total: real, cut: (int, int) -> Option<nat>) {
    (e * d) as real >= total || cut(e * d, d).None? || cut(e * d, d).value == 0
  }

  /** The cuts of an attempt are laid out from its first index, and the
      attempt ends exactly where it has to stop. */
  lemma {:induction false} AttemptCutsShape(total: real, d: nat, cut: (int, int) -> Option<nat>, index: nat)
    requires d > 0
    ensures CutsLaidOut(AttemptCuts(total, d, cut, index), index, d, total, cut)
    ensures StopsAt(index + |AttemptCuts(total, d, cut, index)|, d, total, cut)
    decreases total.Floor - index * d
  {
    if (index * d) as real < total && cut(index * d, d).Some? && cut(index * d, d).value != 0 {
      AttemptCutsShape(total, d, cut, index + 1);
      var cs := AttemptCuts(total, d, cut, index);
      var rest := AttemptCuts(total, d, cut, index + 1);
      var size := cut(index * d, d).value;
      assert cs == [Cut(index, index * d, size)] + rest;
      assert index + |cs| == index + 1 + |rest|;
      forall k | 0 < k < |cs|
        ensures cs[k] == rest[k - 1]
      {
      }
    }
  }

  /** One piece of an attempt: the cut at `index` is appended and the
      attempt goes on from `index + 1`. */
  lemma AttemptCutsStep(total: real, d: nat, cut: (int, int) -> Option<nat>, index: nat, cuts: seq<Cut>, size: nat)
    requires d > 0 && (index * d) as real < total && cut(index * d, d) == Some(size) && size > 0
    requires cuts + AttemptCuts(total, d, cut, index) == AttemptCuts(total, d, cut, 0)
    ensures (cuts + [Cut(index, index * d, size)]) + AttemptCuts(total, d, cut, index + 1) == AttemptCuts(total, d, cut, 0)
    ensures AllFit(cuts + [Cut(index, index * d, size)]) <==> AllFit(cuts) && size <= MaxBytes
  {
    var c := Cut(index, index * d, size);
    assert AttemptCuts(total, d, cut, index) == [c] + AttemptCuts(total, d, cut, index + 1);
    assert (cuts + [c])[|cuts|] == c;
    assert forall k :: 0 <= k < |cuts| ==> (cuts + [c])[k] == cuts[k];
  }

  /** The inner loop of `_split_audio`: cuts pieces of `chunkDurationSec`
      seconds at `0, d, 2d, ...` until the offset reaches the total or a cut
      is missing or empty, and notes whether any piece is over the limit. */
  method CutPieces(totalDuration: real, chunkDurationSec: nat, cut: (int, int) -> Option<nat>)
    returns (chunks: seq<AudioChunk>, tooLarge: bool)
    requires chunkDurationSec > 0
    ensures chunks == Chunks(AttemptCuts(totalDuration, chunkDurationSec, cut, 0))
    ensures tooLarge <==> !AllFit(AttemptCuts(totalDuration, chunkDurationSec, cut, 0))
  {
    chunks := [];
    ghost var cuts: seq<Cut> := [];
    tooLarge := false;
    var index := 0;
    while true
      invariant chunks == Chunks(cuts)
      invariant tooLarge <==> !AllFit(cuts)
      invariant cuts + AttemptCuts(totalDuration, chunkDurationSec, cut, index) == AttemptCuts(totalDuration, chunkDurationSec, cut, 0)
      decreases totalDuration.Floor - index * chunkDurationSec
    {
      var startTime := index * chunkDurationSec;
      if startTime as real >= totalDuration {
        break;
      }
      var chunkPath := ChunkName(index);
      var written := cut(startTime, chunkDurationSec);
      if written.None? || written.value == 0 {
        break;
      }
      var chunkSize := written.value;
      if chunkSize > MaxFileSizeMb * 1024 * 1024 {
        tooLarge := true;
      }
      AttemptCutsStep(totalDuration, chunkDurationSec, cut, index, cuts, chunkSize);
      chunks := chunks + [AudioChunk(chunkPath, startTime)];
      cuts := cuts + [Cut(index, startTime, chunkSize)];
      index := index + 1;
    }
    assert cuts == AttemptCuts(totalDuration, chunkDurationSec, cut, 0);
  }

  /** The attempt that aims at `target` pieces. */
  function AttemptFor(total: real, cut: (int, int) -> Option<nat>, target: nat): seq<Cut>
    requires target >= 1
  {
    AttemptCuts(total, ChunkDuration(total, target), cut, 0)
  }

  /** An attempt the planner accepts: it produced pieces, none over the limit. */
  predicate Acceptable(total: real, cut: (int, int) -> Option<nat>, target: nat)
    requires target >= 1
  {
    AttemptFor(total, cut, target) != [] && AllFit(AttemptFor(total, cut, target))
  }

  // ---------------------------------------------------------------------
  // The planner

  /** The outcome of the attempts from `attempt` on, with `target` pieces
      aimed at in the next one. */
  function SplitFrom(total: real, cut: (int, int) -> Option<nat>, attempt: nat, target: nat): Result<seq<AudioChunk>, string>
    requires target >= 1
    decreases MaxAttempts - attempt
  {
    if attempt >= MaxAttempts then Failure(SplitError)
    else if Acceptable(total, cut, target) then Success(Chunks(AttemptFor(total, cut, target)))
    else SplitFrom(total, cut, attempt + 1, target + 1)
  }

  function SplitPlan(audioSize: nat, total: real, cut: (int, int) -> Option<nat>): Result<seq<AudioChunk>, string> {
    SplitFrom(total, cut, 0, InitialTarget(audioSize))
  }

  /** `_split_audio`: up to eight attempts, each aiming at one more piece
      than the last, each accepted only if it produced pieces and none of
      them is over the limit. */
  method SplitAudio(audioSize: nat, totalDuration: real, cut: (int, int) -> Option<nat>)
    returns (r: Result<seq<AudioChunk>, string>)
    ensures r == SplitPlan(audioSize, totalDuration, cut)
  {
    var maxBytes := MaxFileSizeMb * 1024 * 1024;
    var targetChunks := Max(1, (audioSize + maxBytes - 1) / maxBytes);
    var attempt := 0;
    while attempt < MaxAttempts
      invariant attempt <= MaxAttempts
      invariant targetChunks >= 1
      invariant SplitFrom(totalDuration, cut, attempt, targetChunks) == SplitPlan(audioSize, totalDuration, cut)
    {
      attempt := attempt + 1;
      var chunkDurationSec := Max(60, Ceil(totalDuration / targetChunks as real));
      var chunks, tooLarge := CutPieces(totalDuration, chunkDurationSec, cut);
      if chunks != [] && !tooLarge {
        return Success(chunks);
      }
      targetChunks := targetChunks + 1;
    }
    return Failure(SplitError);
  }

  /** The planner fails, with its one error message, exactly when none of
      the remaining attempts (aiming at `target`, `target + 1`, ...) is
      acceptable. */
  lemma {:induction false} SplitFromFailure(total: real, cut: (int, int) -> Option<nat>, attempt: nat, target: nat)
    requires target >= 1 && attempt <= MaxAttempts
    ensures SplitFrom(total, cut, attempt, target).Failure? <==>
      forall t :: target <= t < target + MaxAttempts - attempt ==> !Acceptable(total, cut, t)
    ensures SplitFrom(total, cut, attempt, target).Failure? ==> SplitFrom(total, cut, attempt, target).error == SplitError
    decreases MaxAttempts - attempt
  {
    if attempt < MaxAttempts && !Acceptable(total, cut, target) {
      SplitFromFailure(total, cut, attempt + 1, target + 1);
    }
  }

  /** Otherwise it returns the pieces of the first acceptable attempt. */
  lemma {:induction false} SplitFromSuccess(total: real, cut: (int, int) -> Option<nat>, attempt: nat, target: nat)
    returns (t: nat)
    requires target >= 1 && attempt <= MaxAttempts
    requires SplitFrom(total, cut, attempt, target).Success?
    ensures target <= t < target + MaxAttempts - attempt && Acceptable(total, cut, t)
    ensures forall u :: target <= u < t ==> !Acceptable(total, cut, u)
    ensures SplitFrom(total, cut, attempt, target).value == Chunks(AttemptFor(total, cut, t))
    decreases MaxAttempts - attempt
  {
    if Acceptable(total, cut, target) {
      t := target;
    } else {
      t := SplitFromSuccess(total, cut, attempt + 1, target + 1);
    }
  }

  lemma MulStrict(i: nat, j: nat, d: nat)
    requires i < j && d > 0
    ensures i * d < j * d
  {
    assert j * d == i * d + (j - i) * d;
  }

  /** Piece `k` is `chunk_<k>.m4a` at `k * d` seconds, below the total, cut
      to a non-empty file within the upload limit. */
  predicate PlanLaidOut(chunks: seq<AudioChunk>, d: nat, total: real, cut: (int, int) -> Option<nat>) {
    forall k: nat :: k < |chunks| ==>
      chunks[k].path == ChunkName(k) && chunks[k].offset == k * d && (chunks[k].offset as real) < total
      && cut(chunks[k].offset, d).Some? && 0 < cut(chunks[k].offset, d).value <= MaxBytes
  }

  /** The pieces of an accepted attempt are laid out as the planner promises. */
  lemma AcceptedLaidOut(total: real, d: nat, cut: (int, int) -> Option<nat>)
    requires d > 0 && AllFit(AttemptCuts(total, d, cut, 0))
    ensures PlanLaidOut(Chunks(AttemptCuts(total, d, cut, 0)), d, total, cut)
  {
    AttemptCutsShape(total, d, cut, 0);
  }

  /** Laid-out pieces have strictly increasing offsets and distinct names. */
  lemma LaidOutDistinct(chunks: seq<AudioChunk>, d: nat, total: real, cut: (int, int) -> Option<nat>)
    requires d > 0 && PlanLaidOut(chunks, d, total, cut)
    ensures forall i, j :: 0 <= i < j < |chunks| ==> chunks[i].offset < chunks[j].offset && chunks[i].path != chunks[j].path
  {
    forall i, j | 0 <= i < j < |chunks|
      ensures chunks[i].offset < chunks[j].offset && chunks[i].path != chunks[j].path
    {
      MulStrict(i, j, d);
      ChunkNameInjective(i, j);
    }
  }

  /** A plan the planner returns: non-empty; piece `k` is `chunk_<k>.m4a`
      starting at `k * d` seconds for one piece length `d >= 60`, starts
      below the total duration, and its cut is a non-empty file within the
      upload limit; offsets strictly increase and file names are distinct. */
  lemma SplitAudioPlan(audioSize: nat, total: real, cut: (int, int) -> Option<nat>)
    requires SplitPlan(audioSize, total, cut).Success?
    ensures var chunks := SplitPlan(audioSize, total, cut).value;
      chunks != []
      && (exists d: nat :: d >= MinChunkSeconds && PlanLaidOut(chunks, d, total, cut))
      && (forall i, j :: 0 <= i < j < |chunks| ==> chunks[i].offset < chunks[j].offset && chunks[i].path != chunks[j].path)
  {
    var t := SplitFromSuccess(total, cut, 0, InitialTarget(audioSize));
    var d := ChunkDuration(total, t);
    AcceptedLaidOut(total, d, cut);
    LaidOutDistinct(SplitPlan(audioSize, total, cut).value, d, total, cut);
  }

  // ---------------------------------------------------------------------
  // Responses and the merge of chunk transcriptions

  datatype Segment = Segment(id: Option<int>, start: real, end: real, text: string)

  /** A Whisper response reduced to what the transcriber reads from it. */
  datatype WhisperResponse = WhisperResponse(text: Option<string>, duration: Option<real>, segments: seq<Segment>)

  datatype Transcript = Transcript(text: string, duration: real, segments: seq<Segment>)

  /** `_extract_duration`: the reported duration, else the fallback. */
  function ExtractDuration(response: WhisperResponse, fallback: real): (r: real)
    ensures response.duration.Some? ==> r == response.duration.value
    ensures response.duration.None? ==> r == fallback
  {
    match response.duration
    case Some(d) => d
    case None => fallback
  }

  /** A segment moved onto the timeline of the whole recording. */
  function Shift(segment: Segment, offset: int): Segment {
    segment.(start := segment.start + offset as real, end := segment.end + offset as real)
  }

  /** One chunk's segments, each shifted by the chunk's offset. */
  function Shifted(segments: seq<Segment>, offset: int): (r: seq<Segment>)
    ensures |r| == |segments|
    ensures forall j :: 0 <= j < |segments| ==> r[j] == Shift(segments[j], offset)
    decreases |segments|
  {
    if segments == [] then []
    else Shifted(segments[..|segments| - 1], offset) + [Shift(segments[|segments| - 1], offset)]
  }

  /** One turn of the shifting loop: the segments merged so far grow by the
      next shifted segment. */
  lemma ShiftedStep(before: seq<Segment>, segments: seq<Segment>, offset: int, j: nat)
    requires j < |segments|
    ensures before + Shifted(segments[..j + 1], offset) == before + Shifted(segments[..j], offset) + [Shift(segments[j], offset)]
  {
    assert segments[..j + 1][..j] == segments[..j];
  }

  /** The segments of all chunks, each shifted by its chunk's offset, in
      chunk order. */
  function MergedSegments(chunks: seq<AudioChunk>, responses: seq<WhisperResponse>): seq<Segment>
    requires |chunks| == |responses|
    decreases |chunks|
  {
    if chunks == [] then []
    else
      var n := |chunks| - 1;
      MergedSegments(chunks[..n], responses[..n])
        + Shifted(responses[n].segments, chunks[n].offset)
  }

  /** Total number of segments in the responses. */
  function SegmentCount(responses: seq<WhisperResponse>): nat
    decreases |responses|
  {
    if responses == [] then 0 else SegmentCount(responses[..|responses| - 1]) + |responses[|responses| - 1].segments|
  }

  /** One text per chunk, a missing text counting as empty. */
  function ChunkTexts(responses: seq<WhisperResponse>): (r: seq<string>)
    ensures |r| == |responses|
    ensures forall k :: 0 <= k < |responses| ==> r[k] == responses[k].text.GetOr("")
  {
    seq(|responses|, k requires 0 <= k < |responses| => responses[k].text.GetOr(""))
  }

  /** The sum of the reported durations, a missing one counting as 0. */
  function ReportedDuration(responses: seq<WhisperResponse>): real
    decreases |responses|
  {
    if responses == [] then 0.0
    else ReportedDuration(responses[..|responses| - 1]) + ExtractDuration(responses[|responses| - 1], 0.0)
  }

  function MergedTranscript(chunks: seq<AudioChunk>, responses: seq<WhisperResponse>, probed: real): Transcript
    requires |chunks| == |responses|
  {
    var total := ReportedDuration(responses);
    Transcript(Join(ChunkTexts(responses), "\n\n"), if total == 0.0 then probed else total, MergedSegments(chunks, responses))
  }

  /** The response Whisper gives for each chunk file, in chunk order. */
  function Responses(chunks: seq<AudioChunk>, whisper: string -> WhisperResponse): (r: seq<WhisperResponse>)
    ensures |r| == |chunks|
    ensures forall k :: 0 <= k < |chunks| ==> r[k] == whisper(chunks[k].path)
  {
    seq(|chunks|, k requires 0 <= k < |chunks| => whisper(chunks[k].path))
  }

  /** The loop invariant of `TranscribeChunked` after `i` chunks. */
  ghost predicate MergeState(chunks: seq<AudioChunk>, responses: seq<WhisperResponse>, i: nat,
                             texts: seq<string>, segments: seq<Segment>, total: real)
    requires |chunks| == |responses| && i <= |chunks|
  {
    texts == ChunkTexts(responses[..i])
    && segments == MergedSegments(chunks[..i], responses[..i])
    && total == ReportedDuration(responses[..i])
  }

  /** One step of the merge loop in `TranscribeChunked`. */
  lemma MergeStep(chunks: seq<AudioChunk>, responses: seq<WhisperResponse>, i: nat,
                  texts: seq<string>, segments: seq<Segment>, total: real)
    requires |chunks| == |responses| && i < |chunks|
    requires MergeState(chunks, responses, i, texts, segments, total)
    ensures MergeState(chunks, responses, i + 1, texts + [responses[i].text.GetOr("")],
                       segments + Shifted(responses[i].segments, chunks[i].offset),
                       total + ExtractDuration(responses[i], 0.0))
  {
    assert chunks[..i + 1][..i] == chunks[..i];
    assert responses[..i + 1][..i] == responses[..i];
  }

  lemma MergeDone(chunks: seq<AudioChunk>, responses: seq<WhisperResponse>,
                  texts: seq<string>, segments: seq<Segment>, total: real)
    requires |chunks| == |responses|
    requires MergeState(chunks, responses, |chunks|, texts, segments, total)
    ensures texts == ChunkTexts(responses) && segments == MergedSegments(chunks, responses)
    ensures total == ReportedDuration(responses)
  {
    assert chunks[..|chunks|] == chunks;
    assert responses[..|chunks|] == responses;
  }

  /** `_transcribe_chunked` without the file writes: transcribes each piece
      in order, shifts its segments by the piece's offset, sums the
      reported durations, and falls back to the probed duration only when
      that sum is zero. */
  method TranscribeChunked(chunks: seq<AudioChunk>, whisper: string -> WhisperResponse, probed: real)
    returns (transcript: Transcript)
    ensures transcript == MergedTranscript(chunks, Responses(chunks, whisper), probed)
  {
    var allText: seq<string> := [];
    var allSegments: seq<Segment> := [];
    var totalDuration := 0.0;
    ghost var responses := Responses(chunks, whisper);
    for i := 0 to |chunks|
      invariant MergeState(chunks, responses, i, allText, allSegments, totalDuration)
    {
      MergeStep(chunks, responses, i, allText, allSegments, totalDuration);
      var chunkOffset := chunks[i].offset;
      var response := whisper(chunks[i].path);
      var text := response.text.GetOr("");
      allText := allText + [text];
      var duration := ExtractDuration(response, 0.0);
      totalDuration := totalDuration + duration;
      ghost var before := allSegments;
      var segments := response.segments;
      for j := 0 to |segments|
        invariant allSegments == before + Shifted(segments[..j], chunkOffset)
      {
        var segment := Shift(segments[j], chunkOffset);
        ShiftedStep(before, segments, chunkOffset, j);
        allSegments := allSegments + [segment];
      }
      assert segments[..|segments|] == segments;
    }
    MergeDone(chunks, responses, allText, allSegments, totalDuration);
    if totalDuration == 0.0 {
      totalDuration := probed;
    }
    var fullText := Join(allText, "\n\n");
    transcript := Transcript(fullText, totalDuration, allSegments);
  }

  /** The merged segment list has one entry per segment of every chunk. */
  lemma {:induction false} MergedSegmentsCount(chunks: seq<AudioChunk>, responses: seq<WhisperResponse>)
    requires |chunks| == |responses|
    ensures |MergedSegments(chunks, responses)| == SegmentCount(responses)
    decreases |chunks|
  {
    if chunks != [] {
      MergedSegmentsCount(chunks[..|chunks| - 1], responses[..|responses| - 1]);
    }
  }

  /** Segment `j` of chunk `i` sits after the segments of the earlier
      chunks, shifted by chunk `i`'s offset. */
  lemma {:induction false} MergedSegmentAt(chunks: seq<AudioChunk>, responses: seq<WhisperResponse>, i: nat, j: nat)
    requires |chunks| == |responses| && i < |chunks| && j < |responses[i].segments|
    ensures SegmentCount(responses[..i]) + j < |MergedSegments(chunks, responses)|
    ensures MergedSegments(chunks, responses)[SegmentCount(responses[..i]) + j] == Shift(responses[i].segments[j], chunks[i].offset)
    decreases |chunks|
  {
    var n := |chunks| - 1;
    MergedSegmentsCount(chunks[..n], responses[..n]);
    if i == n {
      assert responses[..i] == responses[..n];
    } else {
      MergedSegmentAt(chunks[..n], responses[..n], i, j);
      assert responses[..n][..i] == responses[..i];
    }
  }

  /** The probed duration is used exactly when no chunk reported a
      non-zero total; in particular when no chunk reported a duration. */
  lemma ProbedOnlyWhenNothingReported(chunks: seq<AudioChunk>, responses: seq<WhisperResponse>, probed: real)
    requires |chunks| == |responses|
    ensures ReportedDuration(responses) != 0.0 ==> MergedTranscript(chunks, responses, probed).duration == ReportedDuration(responses)
    ensures ReportedDuration(responses) == 0.0 ==> MergedTranscript(chunks, responses, probed).duration == probed
    ensures (forall k :: 0 <= k < |responses| ==> responses[k].duration.None?) ==> MergedTranscript(chunks, responses, probed).duration == probed
  {
    if forall k :: 0 <= k < |responses| ==> responses[k].duration.None? {
      NoReportedDuration(responses);
    }
  }

  lemma {:induction false} NoReportedDuration(responses: seq<WhisperResponse>)
    requires forall k :: 0 <= k < |responses| ==> responses[k].duration.None?
    ensures ReportedDuration(responses) == 0.0
    decreases |responses|
  {
    if responses != [] {
      NoReportedDuration(responses[..|responses| - 1]);
    }
  }

  // ---------------------------------------------------------------------
  // Dispatch

  /** `_transcribe_single` without the file writes. */
  function SingleTranscript(response: WhisperResponse, probed: real): (t: Transcript)
    ensures t.text == response.text.GetOr("") && t.segments == response.segments
    ensures response.duration.Some? ==> t.duration == response.duration.value
    ensures response.duration.None? ==> t.duration == probed
  {
    Transcript(response.text.GetOr(""), ExtractDuration(response, probed), response.segments)
  }

  /** `transcribe`: one upload for files up to 24 MiB; otherwise the planner
      and the merge, with the planner's error passed on. */
  method Transcribe(audioPath: string, audioSize: nat, probed: real, cut: (int, int) -> Option<nat>,
                    whisper: string -> WhisperResponse)
    returns (r: Result<Transcript, string>)
    ensures audioSize <= MaxBytes ==> r == Success(SingleTranscript(whisper(audioPath), probed))
    ensures audioSize > MaxBytes && SplitPlan(audioSize, probed, cut).Failure? ==> r == Failure(SplitError)
    ensures audioSize > MaxBytes && SplitPlan(audioSize, probed, cut).Success? ==>
      var chunks := SplitPlan(audioSize, probed, cut).value;
      r == Success(MergedTranscript(chunks, Responses(chunks, whisper), probed))
  {
    ChunkedPathIffOverLimit(audioSize);
    SplitFromFailure(probed, cut, 0, InitialTarget(audioSize));
    if TakesChunkedPath(audioSize) {
      var chunks := SplitAudio(audioSize, probed, cut);
      match chunks
      case Failure(e) =>
        r := Failure(e);
      case Success(cs) =>
        var transcript := TranscribeChunked(cs, whisper, probed);
        r := Success(transcript);
    } else {
      r := Success(SingleTranscript(whisper(audioPath), probed));
    }
  }
}
