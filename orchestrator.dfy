/** The decision cascade of `identify_speakers_with_diarization` and the object that
    carries the attribution state between its steps: the attributed segments
    (`self.speakers`), the paragraphs in use (`self.speaker_segments`), the
    diarization (`self.diarization`) and the word timestamps (`self.word_by_word`).
    Pyannote, the token file, the cache and the language model are not called: what
    they would contribute is an input (`Audio`, the replies). */
module Orchestrator {
  import opened Wrappers
  import opened Text
  import opened Segmenter
  import opened Segments
  import opened Words
  import opened Timeline
  import opened TextId
  import FastMap
  import ScalableMap

  /** Recordings shorter than this (in seconds) use the fast mapper. */
  const ShortFileSeconds: real := 300.0
  /** Clips shorter than this are re-diarized when more than three speakers appear. */
  const VeryShortClipSeconds: real := 60.0
  const MaxShortClipSpeakers: nat := 3
  /** A token read from the token file must have at least this many characters. */
  const MinTokenLength: nat := 10

  // ---------------------------------------------------------------------------
  // Chunk size for long recordings

  /** `MAX_CHUNK_DURATION`: the longer the recording, the shorter its chunks. */
  function ChunkDuration(duration: real): (r: nat)
    ensures 180 <= r <= 600
    ensures r == 600 <==> duration <= 1800.0
    ensures r == 180 <==> duration > 10800.0
  {
    if duration > 10800.0 then 180
    else if duration > 5400.0 then 240
    else if duration > 3600.0 then 300
    else if duration > 1800.0 then 450
    else 600
  }

  /** A longer recording never gets longer chunks. */
  lemma ChunkDurationAntitone(d1: real, d2: real)
    requires d1 <= d2
    ensures ChunkDuration(d2) <= ChunkDuration(d1)
  {
  }

  // ---------------------------------------------------------------------------
  // Token lookup

  /** The token file's contents are accepted unless they start with `#` (a comment
      line) or are shorter than ten characters. */
  predicate AcceptableToken(token: string)
  {
    !StartsWith(token, "#") && |token| >= MinTokenLength
  }

  /** The pyannote token: the configured one when it is non-empty (`None` when there
      is no configuration manager), else the stripped contents of the token file
      when that exists and is acceptable. */
  function ResolveToken(configured: Option<string>, tokenFile: Option<string>): (r: Option<string>)
    ensures r.Some? ==> r.value != []
  {
    if configured.Some? && configured.value != [] then configured
    else
      match tokenFile
      case None => None
      case Some(contents) =>
        var token := Strip(contents);
        if AcceptableToken(token) then Some(token) else None
  }

  /** A token is found exactly when one is configured or the token file holds an
      acceptable one; a token taken from the file is its stripped contents, at least
      ten characters long and not a comment. */
  lemma ResolveTokenFacts(configured: Option<string>, tokenFile: Option<string>)
    ensures ResolveToken(configured, tokenFile).Some? <==>
      (configured.Some? && configured.value != []) || (tokenFile.Some? && AcceptableToken(Strip(tokenFile.value)))
    ensures (configured.None? || configured.value == []) && ResolveToken(configured, tokenFile).Some? ==>
      var token := ResolveToken(configured, tokenFile).value;
      && token == Strip(tokenFile.value)
      && |token| >= MinTokenLength
      && (token == [] || token[0] != '#')
  {
  }

  // ---------------------------------------------------------------------------
  // What the environment contributes

  /** The outcome of everything outside the model for one request:
      whether pyannote is installed; the cached diarization, if the cache has one;
      the recording's duration in seconds; the configured token (`None` without a
      configuration manager) and the token file's contents (`None` without a file);
      whether a step before the first assignment of `self.diarization` raises
      (loading the pipeline, converting the audio, reading its duration, the first
      run); the tracks of the first pipeline run and of the re-run limited to three
      speakers; whether that re-run raises; and whether a step after the
      assignment raises (removing the converted file, saving the cache). */
  datatype Audio = Audio(
    pyannoteAvailable: bool,
    cached: Option<seq<Interval>>,
    duration: real,
    configuredToken: Option<string>,
    tokenFile: Option<string>,
    pipelineFails: bool,
    firstRun: seq<Interval>,
    threeSpeakerRun: seq<Interval>,
    rerunFails: bool,
    cleanupFails: bool)

  /** The distinct labels of a diarization. */
  function SpeakerSet(tracks: seq<Interval>): set<string>
  {
    set iv | iv in tracks :: iv.speaker
  }

  /** The diarization a fresh run leaves in `self.diarization`: short recordings are
      diarized directly, and clips under a minute with more than three speakers are
      re-run with three; long recordings go to the chunked processor, which returns
      nothing. */
  function FreshDiarization(audio: Audio): Option<seq<Interval>>
  {
    if audio.duration < ShortFileSeconds then
      if audio.duration < VeryShortClipSeconds && |SpeakerSet(audio.firstRun)| > MaxShortClipSpeakers then
        Some(audio.threeSpeakerRun)
      else Some(audio.firstRun)
    else None
  }

  /** A clip under a minute whose first run has more than three speakers is run
      again with three. */
  predicate RerunNeeded(audio: Audio)
  {
    audio.duration < VeryShortClipSeconds && |SpeakerSet(audio.firstRun)| > MaxShortClipSpeakers
  }

  /** The `try` raises after `self.diarization` was assigned: in the re-run, or while
      removing the converted file or saving the cache. */
  predicate FailsAfterDiarization(audio: Audio)
  {
    (RerunNeeded(audio) && audio.rerunFails) || audio.cleanupFails
  }

  /** What `self.diarization` holds once a fresh run has left the diarization
      steps, whether or not a later step raises: a failed re-run leaves the first
      run in place. */
  function DiarizationAfterRun(audio: Audio): (d: Option<seq<Interval>>)
    ensures !FailsAfterDiarization(audio) ==> d == FreshDiarization(audio)
    ensures RerunNeeded(audio) && audio.rerunFails ==> d == Some(audio.firstRun)
  {
    if RerunNeeded(audio) && audio.rerunFails then Some(audio.firstRun) else FreshDiarization(audio)
  }

  /** A fresh diarization exists exactly for short recordings, and when the pipeline
      honours the three-speaker limit, a clip under a minute is attributed to at
      most three speakers. */
  lemma FreshDiarizationFacts(audio: Audio)
    ensures FreshDiarization(audio).Some? <==> audio.duration < ShortFileSeconds
    ensures audio.duration < VeryShortClipSeconds && |SpeakerSet(audio.threeSpeakerRun)| <= MaxShortClipSpeakers ==>
      |SpeakerSet(FreshDiarization(audio).value)| <= MaxShortClipSpeakers
  {
  }

  // ---------------------------------------------------------------------------
  // The decision cascade, as values

  datatype Route = TextOnly | FastMapping | ScalableMapping

  function MapperFor(duration: real): Route
  {
    if duration < ShortFileSeconds then FastMapping else ScalableMapping
  }

  /** The path the request takes, before the mappers' own guards. */
  function RouteOf(audio: Audio): Route
  {
    if !audio.pyannoteAvailable then TextOnly
    else if audio.cached.Some? then MapperFor(audio.duration)
    else if ResolveToken(audio.configuredToken, audio.tokenFile).None? || audio.pipelineFails
         || FailsAfterDiarization(audio) then TextOnly
    else MapperFor(audio.duration)
  }

  /** A mapper is reached exactly when pyannote is installed and the cache hits, or a
      token is found and nothing in the `try` raises; the fast one exactly when the
      recording is also under five minutes. */
  lemma RouteOfFacts(audio: Audio)
    ensures RouteOf(audio) != TextOnly <==>
      audio.pyannoteAvailable &&
      (audio.cached.Some? ||
       (ResolveToken(audio.configuredToken, audio.tokenFile).Some? && !audio.pipelineFails && !FailsAfterDiarization(audio)))
    ensures RouteOf(audio) == FastMapping <==> RouteOf(audio) != TextOnly && audio.duration < ShortFileSeconds
  {
  }

  /** A fresh diarization is attempted: pyannote is installed, the cache misses, a
      token is found, and nothing before the first assignment raises. */
  predicate ReachesDiarization(audio: Audio)
  {
    && audio.pyannoteAvailable && audio.cached.None?
    && ResolveToken(audio.configuredToken, audio.tokenFile).Some? && !audio.pipelineFails
  }

  /** The diarization the mapper finds: the cached one, else the fresh run's. */
  function MapperDiarization(audio: Audio): Option<seq<Interval>>
  {
    if audio.cached.Some? then audio.cached else FreshDiarization(audio)
  }

  /** A fresh run that raises after `self.diarization` was assigned ends on the
      single text run of the `except` clause, never on the mapper or the second run. */
  lemma LateFailureUsesText(audio: Audio, text: Result<seq<Segment>, string>, retryText: Result<seq<Segment>, string>,
                            mapped: Result<seq<Segment>, string>)
    requires ReachesDiarization(audio) && FailsAfterDiarization(audio)
    ensures RouteOf(audio) == TextOnly
    ensures Cascade(audio, text, retryText, mapped) == text
  {
  }

  /** The `except` clause of the cascade: a failure inside the `try` runs the text
      path once more. */
  function Rescued(attempt: Result<seq<Segment>, string>, retry: Result<seq<Segment>, string>): Result<seq<Segment>, string>
  {
    if attempt.Failure? then retry else attempt
  }

  /** `identify_speakers_with_diarization` over the outcomes of its paths: the first
      text-path run, the second one in the `except` clause, and the mapper. Without
      pyannote the text path runs outside the `try`, so its failure escapes; a cache
      hit goes straight to the mapper, also outside the `try`; a missing token leads
      to the text path inside the `try`; a step of the diarization that raises, before
      or after `self.diarization` is assigned, to the text path in the `except`
      clause; and a fresh diarization to the mapper inside the `try`. */
  function Cascade(audio: Audio, text: Result<seq<Segment>, string>, retryText: Result<seq<Segment>, string>,
                   mapped: Result<seq<Segment>, string>): (r: Result<seq<Segment>, string>)
  {
    if !audio.pyannoteAvailable then text
    else if audio.cached.Some? then mapped
    else if ResolveToken(audio.configuredToken, audio.tokenFile).None? then Rescued(text, retryText)
    else if audio.pipelineFails || FailsAfterDiarization(audio) then text
    else Rescued(mapped, retryText)
  }

  /** The cascade returns one of its paths' outcomes: the mapper's exactly on the
      mapper route when that succeeds or the cache hit, the second text run only
      after a failure inside the `try`; so it fails only when the path it ends on
      fails. */
  lemma CascadeFacts(audio: Audio, text: Result<seq<Segment>, string>, retryText: Result<seq<Segment>, string>,
                     mapped: Result<seq<Segment>, string>)
    ensures var r := Cascade(audio, text, retryText, mapped);
      r == text || r == retryText || r == mapped
    ensures RouteOf(audio) == TextOnly ==> Cascade(audio, text, retryText, mapped) in {text, retryText}
    ensures RouteOf(audio) != TextOnly && (audio.cached.Some? || mapped.Success?) ==>
      Cascade(audio, text, retryText, mapped) == mapped
    ensures Cascade(audio, text, retryText, mapped) == retryText && retryText != text && retryText != mapped ==>
      && audio.pyannoteAvailable && audio.cached.None?
      && !(ResolveToken(audio.configuredToken, audio.tokenFile).Some? && (audio.pipelineFails || FailsAfterDiarization(audio)))
    ensures Cascade(audio, text, retryText, mapped).Failure? ==> text.Failure? || retryText.Failure? || mapped.Failure?
  {
  }

  /** `not self.word_by_word or not self.diarization`, with a missing attribute as
      `None` and an empty list or diarization as false. */
  predicate Usable(words: Option<seq<Word>>, diarization: Option<seq<Interval>>)
  {
    words.Some? && words.value != [] && diarization.Some? && diarization.value != []
  }

  /** The paragraphs a mapper works on: those already stored, else the transcript's. */
  function ParagraphsFor(segments: seq<string>, transcript: string): seq<string>
  {
    if segments != [] then segments else Paragraphs(transcript)
  }

  /** `if not self.speaker_segments: self.speaker_segments =
      self._create_improved_paragraphs(transcript)`, as a value: storing the
      stored paragraphs again changes nothing. */
  method ChooseParagraphs(segments: seq<string>, transcript: string) returns (paragraphs: seq<string>)
    ensures paragraphs == ParagraphsFor(segments, transcript)
    ensures segments != [] ==> paragraphs == segments
  {
    if segments != [] {
      paragraphs := segments;
    } else {
      paragraphs := CreateImprovedParagraphs(transcript);
    }
  }

  /** `_fast_map_diarization`: without word timestamps or diarization, the text path. */
  function FastOutcome(transcript: string, segments: seq<string>, words: Option<seq<Word>>,
                       diarization: Option<seq<Interval>>, replies: seq<Reply>): Result<seq<Segment>, string>
  {
    if Usable(words, diarization) then
      Success(FastMap.FastSpeakers(ParagraphsFor(segments, transcript), diarization.value, words.value))
    else TextSpeakers(transcript, replies)
  }

  /** `_map_diarization_to_transcript`: without word timestamps or diarization, the
      text path. */
  function ScalableOutcome(transcript: string, segments: seq<string>, words: Option<seq<Word>>,
                           diarization: Option<seq<Interval>>, replies: seq<Reply>): Result<seq<Segment>, string>
  {
    if Usable(words, diarization) then
      Success(ScalableMap.ScalableSpeakers(ParagraphsFor(segments, transcript), diarization.value, words.value))
    else TextSpeakers(transcript, replies)
  }

  function MapOutcome(route: Route, transcript: string, segments: seq<string>, words: Option<seq<Word>>,
                      diarization: Option<seq<Interval>>, replies: seq<Reply>): Result<seq<Segment>, string>
  {
    if route == FastMapping then FastOutcome(transcript, segments, words, diarization, replies)
    else ScalableOutcome(transcript, segments, words, diarization, replies)
  }

  /** A mapper either labels every paragraph in use, keeping its text, or falls back
      to the text path exactly when word timestamps or diarization are missing. */
  lemma MapOutcomeFacts(route: Route, transcript: string, segments: seq<string>, words: Option<seq<Word>>,
                        diarization: Option<seq<Interval>>, replies: seq<Reply>)
    ensures var r := MapOutcome(route, transcript, segments, words, diarization, replies);
      Usable(words, diarization) ==>
        && r.Success?
        && |r.value| == |ParagraphsFor(segments, transcript)|
        && forall i :: 0 <= i < |r.value| ==> r.value[i].text == ParagraphsFor(segments, transcript)[i]
    ensures !Usable(words, diarization) ==>
      MapOutcome(route, transcript, segments, words, diarization, replies) == TextSpeakers(transcript, replies)
  {
    if Usable(words, diarization) {
      var paragraphs := ParagraphsFor(segments, transcript);
      if route == FastMapping {
        FastMap.FastSpeakersShape(paragraphs, diarization.value, words.value);
      } else {
        ScalableMap.ScalableSpeakersShape(paragraphs, diarization.value, words.value);
      }
    }
  }

  /** The whole request: the cascade over the text path, its second run and the
      mapper chosen by duration, fed the diarization of this request. */
  function Attribution(transcript: string, segments: seq<string>, words: Option<seq<Word>>, audio: Audio,
                       replies: seq<Reply>, retryReplies: seq<Reply>): Result<seq<Segment>, string>
  {
    Cascade(audio, TextSpeakers(transcript, replies), TextSpeakers(transcript, retryReplies),
            MapOutcome(MapperFor(audio.duration), transcript, segments, words, MapperDiarization(audio), replies))
  }

  /** A recording of five minutes or more that is not in the cache gives the mapper
      no diarization: the chunked processor returns nothing, so the request ends on
      the text path. */
  lemma LongFreshRecordingsUseText(audio: Audio)
    requires audio.cached.None? && audio.duration >= ShortFileSeconds
    ensures MapperDiarization(audio) == None
    ensures forall words :: !Usable(words, MapperDiarization(audio))
  {
  }
  // ---------------------------------------------------------------------------
  // The attribution state

  class SpeakerAttribution {
    /** `self.speakers`: the attributed paragraphs. */
    var speakers: seq<Segment>
    /** `self.speaker_segments`: the paragraphs in use; empty when not yet set. */
    var speakerSegments: seq<string>
    /** `self.diarization`: `None` when absent or `None`. */
    var diarization: Option<seq<Interval>>
    /** `self.word_by_word`: `None` when the attribute is missing. */
    var wordByWord: Option<seq<Word>>

    /** A fresh object: nothing attributed yet, and the word timestamps as given. */
    constructor (words: Option<seq<Word>>)
      ensures speakers == [] && speakerSegments == [] && diarization == None && wordByWord == words
    {
      speakers := [];
      speakerSegments := [];
      diarization := None;
      wordByWord := words;
    }

    /** `_quick_consistency_check`: one left-to-right pass relabelling, in place, each
        short turn sandwiched between two turns of one other speaker; later turns see
        the earlier updates. */
    method QuickConsistencyCheck()
      modifies this
      ensures speakers == ConsistencyRepair(old(speakers))
      ensures speakerSegments == old(speakerSegments) && diarization == old(diarization)
      ensures wordByWord == old(wordByWord)
    {
      if |speakers| < 3 {
        return;
      }
      var i := 1;
      while i < |speakers| - 1
        invariant 1 <= i <= |speakers| - 1
        invariant RepairFrom(speakers, i) == ConsistencyRepair(old(speakers))
        invariant speakerSegments == old(speakerSegments) && diarization == old(diarization)
        invariant wordByWord == old(wordByWord)
      {
        var prevSpeaker := speakers[i - 1].speaker;
        var currSpeaker := speakers[i].speaker;
        var nextSpeaker := speakers[i + 1].speaker;
        if prevSpeaker == nextSpeaker && currSpeaker != prevSpeaker {
          if WordCount(speakers[i].text) < ShortTurnWords {
            speakers := speakers[i := speakers[i].(speaker := prevSpeaker)];
          }
        }
        i := i + 1;
      }
    }

    /** `identify_speakers_simple`: the transcript's paragraphs become the paragraphs
        in use; a failure of the chunked path leaves `self.speakers` as it was. */
    method IdentifySpeakersSimple(transcript: string, replies: seq<Reply>) returns (r: Result<seq<Segment>, string>)
      modifies this
      ensures r == TextSpeakers(transcript, replies)
      ensures speakerSegments == Paragraphs(transcript)
      ensures r.Success? ==> speakers == r.value && |speakers| == |speakerSegments|
      ensures r.Failure? ==> speakers == old(speakers)
      ensures diarization == old(diarization) && wordByWord == old(wordByWord)
    {
      var paragraphs := CreateImprovedParagraphs(transcript);
      speakerSegments := paragraphs;
      TextSpeakersCount(transcript, replies);
      if |transcript| > MaxChunkSize {
        r := IdentifySpeakersChunked(paragraphs, MaxChunkSize, replies);
        if r.Success? {
          speakers := r.value;
        }
        return;
      }
      speakers := IdentifySpeakersSingle(paragraphs, ReplyAt(replies, 0));
      r := Success(speakers);
    }

    /** The paragraphs a mapper uses: those stored, else the transcript's, which are
        then stored. */
    method MapperParagraphs(transcript: string) returns (paragraphs: seq<string>)
      modifies this
      ensures paragraphs == ParagraphsFor(old(speakerSegments), transcript) && speakerSegments == paragraphs
      ensures speakers == old(speakers) && diarization == old(diarization) && wordByWord == old(wordByWord)
    {
      paragraphs := ChooseParagraphs(speakerSegments, transcript);
      speakerSegments := paragraphs;
    }

    /** `_fast_map_diarization`: sample the tracks, label the timed words, vote per
        paragraph, then check consistency when there is more than one paragraph. */
    method FastMapDiarization(transcript: string, replies: seq<Reply>) returns (r: Result<seq<Segment>, string>)
      modifies this
      ensures r == FastOutcome(transcript, old(speakerSegments), old(wordByWord), old(diarization), replies)
      ensures speakerSegments ==
        if Usable(old(wordByWord), old(diarization)) then ParagraphsFor(old(speakerSegments), transcript)
        else Paragraphs(transcript)
      ensures r.Success? ==> speakers == r.value && |speakers| == |speakerSegments|
      ensures r.Failure? ==> speakers == old(speakers)
      ensures diarization == old(diarization) && wordByWord == old(wordByWord)
    {
      if !Usable(wordByWord, diarization) {
        r := IdentifySpeakersSimple(transcript, replies);
        return;
      }
      var paragraphs := MapperParagraphs(transcript);
      speakers := FastMap.VoteParagraphs(paragraphs, diarization.value, wordByWord.value);
      if |speakers| > 1 {
        QuickConsistencyCheck();
      }
      r := Success(speakers);
    }

    /** `_map_diarization_to_transcript`: keep and sort the long tracks, match words
        to paragraphs, count the votes of the words' midpoints, label each
        paragraph, then check consistency when there are more than two. */
    method MapDiarizationToTranscript(transcript: string, replies: seq<Reply>) returns (r: Result<seq<Segment>, string>)
      modifies this
      ensures r == ScalableOutcome(transcript, old(speakerSegments), old(wordByWord), old(diarization), replies)
      ensures speakerSegments ==
        if Usable(old(wordByWord), old(diarization)) then ParagraphsFor(old(speakerSegments), transcript)
        else Paragraphs(transcript)
      ensures r.Success? ==> speakers == r.value && |speakers| == |speakerSegments|
      ensures r.Failure? ==> speakers == old(speakers)
      ensures diarization == old(diarization) && wordByWord == old(wordByWord)
    {
      if !Usable(wordByWord, diarization) {
        r := IdentifySpeakersSimple(transcript, replies);
        return;
      }
      var paragraphs := MapperParagraphs(transcript);
      speakers := ScalableMap.VoteParagraphs(paragraphs, diarization.value, wordByWord.value);
      if |speakers| > 2 {
        QuickConsistencyCheck();
      }
      r := Success(speakers);
    }

    /** `identify_speakers_with_diarization`: the cascade, with the diarization the
        run produces stored before mapping. */
    method IdentifySpeakersWithDiarization(transcript: string, audio: Audio, replies: seq<Reply>, retryReplies: seq<Reply>)
      returns (r: Result<seq<Segment>, string>)
      modifies this
      ensures r == Attribution(transcript, old(speakerSegments), old(wordByWord), audio, replies, retryReplies)
      ensures RouteOf(audio) != TextOnly ==> diarization == MapperDiarization(audio)
      ensures ReachesDiarization(audio) ==> diarization == DiarizationAfterRun(audio)
      ensures !audio.pyannoteAvailable || (audio.cached.None? && !ReachesDiarization(audio)) ==>
        diarization == old(diarization)
      ensures speakerSegments ==
        if RouteOf(audio) != TextOnly && Usable(old(wordByWord), MapperDiarization(audio))
        then ParagraphsFor(old(speakerSegments), transcript)
        else Paragraphs(transcript)
      ensures r.Success? ==> speakers == r.value && |speakers| == |speakerSegments|
      ensures r.Failure? ==> speakers == old(speakers)
      ensures wordByWord == old(wordByWord)
    {
      if !audio.pyannoteAvailable {
        r := IdentifySpeakersSimple(transcript, replies);
        return;
      }
      if audio.cached.Some? {
        diarization := audio.cached;
        if audio.duration < ShortFileSeconds {
          r := FastMapDiarization(transcript, replies);
        } else {
          r := MapDiarizationToTranscript(transcript, replies);
        }
        return;
      }
      var token := ResolveToken(audio.configuredToken, audio.tokenFile);
      if token.None? {
        r := IdentifySpeakersSimple(transcript, replies);
      } else if audio.pipelineFails {
        r := IdentifySpeakersSimple(transcript, replies);
        return;
      } else {
        if audio.duration < ShortFileSeconds {
          diarization := Some(audio.firstRun);
          if audio.duration < VeryShortClipSeconds && |SpeakerSet(audio.firstRun)| > MaxShortClipSpeakers {
            if audio.rerunFails {
              r := IdentifySpeakersSimple(transcript, replies);
              return;
            }
            diarization := Some(audio.threeSpeakerRun);
          }
        } else {
          // The chunked processor is handed ChunkDuration(audio.duration) and returns nothing.
          diarization := None;
        }
        if audio.cleanupFails {
          r := IdentifySpeakersSimple(transcript, replies);
          return;
        }
        if audio.duration < ShortFileSeconds {
          r := FastMapDiarization(transcript, replies);
        } else {
          r := MapDiarizationToTranscript(transcript, replies);
        }
      }
      if r.Failure? {
        r := IdentifySpeakersSimple(transcript, retryReplies);
      }
    }
  }
}
