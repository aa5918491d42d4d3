# Speaker attribution engine — a verified model

This project models the speaker-attribution engine of the transcription
application in `main.py`. The engine takes three inputs:

- a transcript;
- the transcriber's word timestamps;
- the diarization tracks, as `(start, end, label)` intervals.

It turns them into an ordered list of `{speaker, text}` paragraphs. The model
covers the following parts.

- **Segmenter** (`segmenter.dfy`, on top of `text.dfy`).
  - The transcript is cut into sentences after `.`, `!` or `?`.
  - The sentences are grouped into paragraphs by the five-rule cascade.
  - The grouping loop is proved to build the unique partition in which no rule
    fires inside a paragraph and some rule fires between paragraphs.
  - Paragraphs hold one to four sentences.
  - A question always ends its paragraph.
  - The paragraphs read exactly like the sentences joined by spaces.
  - A blank transcript gives no paragraph.
- **Consistency check** (`segments.dfy`, and the in-place loop in
  `orchestrator.dfy`).
  - This is the one left-to-right pass that relabels a short turn sandwiched
    between two turns of one other speaker.
  - It is proved equal to a reference definition.
  - It leaves no such turn behind and is idempotent.
  - It is sequential: `[B, A, B, A]` becomes `[B, B, B, A]`.
- **Long-recording mapper** (`scalable.dfy`, with `timeline.dfy` and
  `voting.dfy`).
  - Tracks shorter than half a second are dropped, and the rest are sorted by
    start.
  - Each timed word is matched to a paragraph by the forward scan from a moving
    hint, with a rescan from the first paragraph.
  - Each word's midpoint is found in the timeline by binary search.
  - Each paragraph takes the first most-voted label, written as `Speaker `
    followed by the part after the label's last underscore.
- **Short-recording mapper** (`fastmap.dfy`).
  - Every track is sampled each tenth of a second into a time-to-label
    dictionary, with exact arithmetic.
  - Each timed word takes the label of the sample nearest its rounded midpoint,
    if that sample is under a second away.
  - Each paragraph takes the majority label of its lower-cased `\w+` tokens.
- **Text-only identifier** (`textid.dfy`).
  - The language model's reply is an input, either a parsed item list or a
    failure.
  - Around it the model covers:
    - the 8000-character switch;
    - greedy chunking under a character budget;
    - sorting by `id`;
    - the `A`/`B` relabelling;
    - the count repair;
    - the parity fallback.
  - The chunked path's failures escape to the caller.
- **Word-level combiner** (`combiner.dfy`).
  - Speakers are collected and numbered by first appearance.
  - Each word is labelled by its start time, with the first speaker, in
    dictionary order, whose closed span covers it.
  - Runs of words by one speaker become `name: words` lines.
  - The module also covers the fallback speaker list and the renaming of an
    attributed transcript.
- **Orchestrator** (`orchestrator.dfy`).
  - The decision cascade is modelled as a value and as the class that holds the
    engine's state.
  - Without pyannote the request goes to the text path.
  - A cache hit goes to the mapper chosen by duration.
  - A missing token goes to the text path.
  - A failure inside the `try` runs the text path once more.
  - The chunk-duration step function is modelled.
  - So is the token-file check: the stripped contents must be at least ten
    characters and must not start with `#`.
- **Smaller pieces.**
  - The message list sent to the chat model (`chat.dfy`).
  - The completion of a loaded configuration with the default keys and
    templates (`config.dfy`).
  - The retention of the twenty newest diarization cache files (`cache.dfy`).

## How the model is built

Stateful code is modelled as imperative Dafny:

- loops become `while` loops with invariants;
- the attribute updates of `self.speakers`, `self.speaker_segments` and
  `self.diarization` become the fields of the class
  `Orchestrator.SpeakerAttribution`.

Each method is proved equal to a specification function, and the properties
are proved about those functions as lemmas. Other conventions:

- Python dictionaries that remember insertion order are sequences of pairs, or
  maps where order plays no part.
- Times are exact `real` values.
- Everything the engine gets from outside is a parameter. This covers:
  - the language model's replies (`TextId.Reply`);
  - the diarization tracks;
  - the recording's duration;
  - whether pyannote is installed;
  - the cache lookup;
  - whether the pipeline raises;
  - the token settings (`Orchestrator.Audio`).

## Behaviour worth knowing

- **Speaker labels keep their digits.** The mappers write a label as `Speaker `
  followed by the part after the label's last underscore, as it is
  (main.py:2675 and main.py:2898). So `SPEAKER_03` becomes `Speaker 03`.
- **The chunked text path can fail.** Transcripts over 8000 characters take the
  chunked branch, which `identify_speakers_simple` enters (main.py:1660) before
  its `try` (main.py:1694). So a failed request escapes to the caller. In the
  orchestrator it is caught only where the call sits inside the `try`, that is,
  for a missing token or a mapper falling back. Elsewhere it escapes, and the
  model returns a `Failure` there.
- **Text taken from the model's items.** When the reply has as many items as
  there are paragraphs, the segment texts are taken from the reply's items, not
  from the paragraphs (main.py:1733-1739).
- **Long fresh recordings end on the text path.**
  - `_process_audio_in_chunks` reads an undefined name (main.py:2421).
  - The exception is swallowed (main.py:2450), and the function returns
    nothing.
  - So a recording of five minutes or more that is not in the cache has no
    diarization, and the mapper falls back to the text path
    (`Orchestrator.LongFreshRecordingsUseText`).
  - For the same reason the cache retention (main.py:2442-2447) is never
    reached. It is modelled on its own.
- **Helpers that `main.py` does not define.**
  - `main.py` calls `_check_diarization_cache` (main.py:2464),
    `_save_diarization_cache` (main.py:2596) and `convert_to_wav`
    (main.py:2520), but defines none of them.
  - The start-up fallback that adds missing attributes as no-op stubs
    (main.py:414-420) covers only attributes that building the window looks
    up.
  - So, as written, the cache check raises `AttributeError` whenever pyannote
    is installed. It sits before the `try`, so the error escapes to the caller,
    and neither the cache-hit path nor a fresh run is reached.
  - The model treats the three helpers as their names say. The cache lookup,
    the conversion and the save are parameters, so it describes every path the
    method would take if they existed.
- **No word timestamps.** `word_by_word` is read (main.py:2615, main.py:2700)
  but never assigned. So, as written, both mappers always take their fallback
  to the text path. The model takes the timestamps as a constructor parameter,
  so the mapping paths are modelled as the method would run them if the
  timestamps were set.

## Model

| member | source | states |
|---|---|---|
| Text.StripFacts | main.py:1757-1758 | a stripped string neither starts nor ends with whitespace |
| Text.StripEmptyIffBlank | main.py:1757-1758 | `strip()` gives the empty string exactly when every character is whitespace |
| Text.ContainsAt | main.py:2831 | the substring test `w in p` holds exactly when `w` occurs at some index of `p` |
| Text.FindFirst | main.py:1099 | the search for a separator finds its first occurrence, and reports none only when there is none |
| Text.JoinSplitOn | main.py:1099 | joining the pieces of `split(sep)` with `sep` gives the string back |
| Text.NatToString | main.py:1072 | decimal notation is non-empty, all digits, and starts with `0` only for zero |
| Text.DecimalRoundTrip | main.py:1072 | reading the decimal notation of `n` back gives `n` |
| Segmenter.FirstSplitPointFacts | main.py:1757 | the split search stops at the first whitespace that follows a terminator |
| Segmenter.SpaceRunEndFacts | main.py:1757 | the dropped separator is the maximal whitespace run (`\s+` is greedy) |
| Segmenter.SplitAfterTerminatorsFacts | main.py:1757 | the first piece starts the text and every piece but the last ends with `.`, `!` or `?` |
| Segmenter.CleanPiecesStripped | main.py:1758 | every sentence kept is non-empty and stripped |
| Segmenter.SentencesEmptyIffBlank | main.py:1757-1758 | a transcript yields no sentence exactly when it is blank |
| Segmenter.OpensWithAnyIff | main.py:1798 | the `any(...)` indicator test holds exactly when some listed phrase is a lower-cased prefix |
| Segmenter.GroupSentences | main.py:1785-1821 | the grouping loop returns the joins of the grouping defined by the break rules |
| Segmenter.CreateImprovedParagraphs | main.py:1753-1823 | the method returns the paragraphs of the transcript |
| Segmenter.GroupingIsParagraphing | main.py:1785-1821 | the grouping partitions the sentences, no rule fires inside a paragraph and a rule fires at every boundary |
| Segmenter.ParagraphingUnique | main.py:1785-1821 | any two partitions with that property are equal |
| Segmenter.ParagraphsCharacterised | main.py:1753-1823 | the paragraphs are the joins of the unique such partition of the sentences |
| Segmenter.ParagraphRules | main.py:1789-1810 | a paragraph holds 1 to 4 sentences, only its last may end in `?`, no later sentence opens with a new-speaker phrase, and from the third on each continues or opens with a pronoun |
| Segmenter.ParagraphsObeyRules | main.py:1785-1821 | every paragraph holds 1 to 4 sentences and a sentence ending in `?` always ends its paragraph |
| Segmenter.JoinEachFlatten | main.py:1813-1821 | joining each group with spaces and then the groups with spaces equals joining all sentences with spaces |
| Segmenter.ParagraphsPreserveText | main.py:1757-1821 | the paragraphs joined with `' '` equal the sentences joined with `' '` |
| Segmenter.ParagraphsEmptyIffBlank | main.py:1753-1823 | an empty or whitespace-only transcript, and only such a transcript, gives no paragraph |
| Segments.ConsistencyRepairExpected | main.py:2384-2399 | the in-place pass equals the reference definition in which each middle turn is judged against its predecessor's repaired speaker |
| Segments.ConsistencyRepairShape | main.py:2384-2399 | length and every text are unchanged, the first and last speakers and every turn of 15 or more words are unchanged, and a changed turn takes its predecessor's new speaker |
| Segments.ConsistencyRepairLeavesNoIsolated | main.py:2390-2399 | afterwards no short turn is sandwiched between two turns of one other speaker |
| Segments.NoIsolatedFixed | main.py:2384-2399 | a list without such turns, including any list of fewer than three, is left unchanged |
| Segments.ConsistencyRepairIdempotent | main.py:2384-2399 | running the check twice equals running it once |
| Segments.ConsistencyRepairIsSequential | main.py:2390-2399 | later positions see earlier fixes: `[B, A, B, A]` with short texts becomes `[B, B, B, A]` |
| Voting.BumpCounts | main.py:2882 | `d[k] = d.get(k, 0) + 1` appends a new key last, keeps the others in order, and raises only `k`'s count, by one |
| Voting.TallyCounts | main.py:2876-2882 | the counts hold each distinct vote once, in first-seen order, with the number of times it was cast |
| Voting.FirstMaxIsFirstMaximum | main.py:2897 | `max(items, key=count)` picks an entry with the highest count, and every entry before it has fewer |
| Voting.WinnerCountIsMax | main.py:2897 | the winning label has at least as many votes as any other vote |
| Voting.WinnerIsFirst | main.py:2897 | every label first seen before the winner has strictly fewer votes |
| Voting.MostCommonIsMode | main.py:2670-2675 | the winner is a most frequent vote and the first such in first-seen order, and there is one exactly when there are votes |
| Voting.AfterLastUnderscoreSuffix | main.py:2898 | `split('_')[-1]` is a suffix without underscores, preceded by `_` unless it is the whole label |
| Voting.AfterLastUnderscoreUnique | main.py:2898 | those properties determine the suffix |
| Voting.AfterLastUnderscoreIsLastPiece | main.py:2898 | it is the last piece of splitting the label at `_` |
| Voting.SpeakerLabel | main.py:2895-2901 | a paragraph without votes is `Speaker 1` |
| Voting.SpeakerLabelOfWinner | main.py:2670-2678 | a paragraph with votes is `Speaker ` and the suffix of a most common vote, the first seen on ties |
| Timeline.KeepLong | main.py:2787-2796 | every kept track lasts at least 0.5 s |
| Timeline.KeepLongCount | main.py:2787-2796 | the kept tracks are exactly the tracks of 0.5 s or more, with multiplicity |
| Timeline.SpeakerTimeline | main.py:2786-2802 | the timeline is sorted by start and is a permutation of the long tracks, so shorter tracks never take part |
| Timeline.LastBatch | main.py:2764-2784 | what the spill reloads is the last batch of at most 1000 kept tracks, and nothing when none is kept |
| Timeline.SpillAsWritten | main.py:2742-2784 | the spill loop, as written, reloads exactly that last batch |
| Timeline.SpillLosesTracks | main.py:2739-2784 | with more than 5000 tracks of which more than 1000 are kept, the reloaded timeline is a strict sub-multiset of the kept tracks |
| Timeline.TimelineAsWrittenSmall | main.py:2739-2796 | up to 5000 tracks, the timeline as written is the full sorted timeline |
| Timeline.SearchInterval | main.py:2862-2873 | a found index lies in the searched range and its interval contains the time, ends included |
| Timeline.FindInterval | main.py:2862-2873 | the binary-search loop returns the search's result |
| Timeline.SearchComplete | main.py:2862-2873 | on well-formed, non-overlapping intervals sorted by start, `-1` is returned exactly when no interval contains the time |
| Sorting.SortBy | main.py:2802 | sorting by key gives a sorted permutation of its input |
| Words.Midpoint | main.py:2859 | for a word whose start is not after its end, the midpoint lies between them |
| ScalableMap.FirstContaining | main.py:2830-2835 | the forward scan returns the first paragraph at or after the hint whose lower-cased text contains the word |
| ScalableMap.Locate | main.py:2828-2844 | a match contains the word, and there is none exactly when no paragraph contains it |
| ScalableMap.ScanWord | main.py:2815-2844 | the hint changes only on a match, to a paragraph containing the word, which the map then records |
| ScalableMap.ScanFrom | main.py:2830-2835 | the scan loop returns the first containing paragraph from its start |
| ScalableMap.MatchWordsToParagraphs | main.py:2812-2844 | the word loop computes the word-to-paragraph map of the scan |
| ScalableMap.WordParagraphsSound | main.py:2828-2844 | whenever `word_paragraphs[w] = p`, `w` is a substring of `paragraphs[p].lower()` |
| ScalableMap.WordParagraphsKeys | main.py:2815-2844 | a text is a key exactly when a timed word has it and some paragraph contains it |
| ScalableMap.MatchedWordIsKey | main.py:2828-2844 | a timed word found in some paragraph is a key of the map |
| ScalableMap.CountWord | main.py:2854-2882 | one word adds its vote, if any, to its paragraph's counts |
| ScalableMap.CountParagraphVotes | main.py:2847-2882 | paragraph `p`'s counts are the tally of the votes of the words mapped to `p`, in word order |
| ScalableMap.ParagraphVotesFromWords | main.py:2876-2882 | every vote of a paragraph comes from a word mapped to it whose midpoint the search placed in a track with that label |
| ScalableMap.WordVoteSound | main.py:2858-2882 | a word votes only when it is timed, its paragraph contains it, and a kept track covers its midpoint |
| ScalableMap.CoveredWordVotes | main.py:2862-2882 | on a non-overlapping timeline a mapped word whose midpoint some track covers does vote |
| ScalableMap.WordVoteComplete | main.py:2858-2882 | so every timed word found in a paragraph whose midpoint a kept track covers casts a vote |
| ScalableMap.LabelledAt | main.py:2890-2906 | paragraph `j` gets the label of its own counts and keeps its text |
| ScalableMap.LabelParagraphs | main.py:2889-2906 | the labelling loop labels every paragraph from its counts |
| ScalableMap.CollectTimeline | main.py:2786-2802 | the filtering and sorting produce the sorted timeline of long tracks |
| ScalableMap.VotedSpeakers | main.py:2888-2906 | the voted result has one entry per paragraph |
| ScalableMap.LabelledIsVoted | main.py:2888-2906 | labelling from the counted votes equals the majority label of each paragraph's votes |
| ScalableMap.VoteParagraphs | main.py:2805-2906 | the mapper's loops together compute the voted labels |
| ScalableMap.ScalableSpeakersShape | main.py:2888-2910 | the result has one entry per paragraph, with `text[i] == paragraphs[i]` |
| FastMap.RoundTenth | main.py:2652 | `round(x, 1)` is a whole number of tenths within a twentieth of `x` |
| FastMap.PutAssigns | main.py:2632 | dictionary assignment reads back the new label, leaves other keys alone and puts a new key last |
| FastMap.SampleCount | main.py:2631 | every sample time of a track is before its end, and the next tenth is not |
| FastMap.SampleCountExact | main.py:2631 | the samples are exactly the tenths from the track's start that come before its end |
| FastMap.BuildTimelineMap | main.py:2624-2632 | the sampling loops build the time-to-label dictionary |
| FastMap.TimelineMapNearTracks | main.py:2624-2632 | every sample lies within a twentieth of a second of a track with its label |
| FastMap.Closest | main.py:2655 | the nearest key is no farther than any other, is the first such, and is absent only for an empty dictionary |
| FastMap.MapWordsToSpeakers | main.py:2646-2657 | the word loop builds `word_speakers` |
| FastMap.WordSpeakersSound | main.py:2646-2657 | every entry comes from a timed word with that text whose nearest sample, under a second away, has that label |
| FastMap.WordRunEnd | main.py:2665 | a run of word characters is maximal |
| FastMap.WordTokensAreWords | main.py:2665 | every `\b\w+\b` token is a non-empty run of word characters |
| FastMap.WordTokensCover | main.py:2665 | the tokens hold exactly the word characters of the paragraph, in order |
| FastMap.WordTokensMaximal | main.py:2665 | every token occurs with no word character right before or after it |
| FastMap.TokenVotesFromTokens | main.py:2666-2668 | every vote is the label of one of the paragraph's tokens |
| FastMap.CollectVotes | main.py:2662-2668 | the token loop collects the labels of the known tokens, in order |
| FastMap.LabelParagraph | main.py:2661-2683 | one paragraph takes the majority label of its votes and keeps its text |
| FastMap.LabelParagraphs | main.py:2660-2683 | the paragraph loop labels every paragraph by majority |
| FastMap.VoteParagraphs | main.py:2619-2683 | the fast mapper's loops together compute the voted labels |
| FastMap.FastSpeakersShape | main.py:2660-2687 | the result has one entry per paragraph, with `text[i] == paragraphs[i]` |
| FastMap.FastVotesFromTracks | main.py:2624-2668 | every vote a paragraph receives is the label of some diarization track |
| TextId.MapLabel | main.py:1714-1719 | `A` and `Speaker A` become `Speaker 1`, `B` and `Speaker B` become `Speaker 2`, and any other label is unchanged |
| TextId.MapLabelIdempotent | main.py:1714-1719 | relabelling twice equals relabelling once |
| TextId.ItemsToSegments | main.py:1721-1730 | one segment per item, taken from the items in an order sorted by `id` |
| TextId.BuildSpeakers | main.py:1722-1730 | the item loop builds those segments |
| TextId.ParityLabel | main.py:1748 | `Speaker {i % 2 + 1}` is `Speaker 1` for even `i` and `Speaker 2` for odd `i` |
| TextId.AlternatingAlternates | main.py:1747-1750 | the fallback starts with `Speaker 1` and neighbours always differ |
| TextId.Reconcile | main.py:1733-1739 | the count repair always gives one entry per paragraph |
| TextId.ReconcileFacts | main.py:1733-1739 | matching counts keep the reply as it is; otherwise `text[i] = paragraphs[i]` and the speaker is `old[min(i, n - 1)]`, or the parity label when the reply is empty |
| TextId.IdentifySpeakersSingle | main.py:1694-1751 | the single-request path relabels and count-repairs the reply, and falls back to parity labels on failure |
| TextId.GroupIntoChunks | main.py:1500-1515 | the chunking loop returns the greedy chunks |
| TextId.ChunkFoldInvariant | main.py:1504-1511 | after each paragraph, the closed chunks and the open one partition the paragraphs seen, within budget and greedily |
| TextId.ChunksWellChunked | main.py:1500-1515 | the chunks flatten to the paragraphs, none is empty, any of two or more paragraphs is within the budget, and each later chunk starts where adding its first paragraph would exceed the budget |
| TextId.RequestChunks | main.py:1527-1609 | the request loop gathers the items of every reply in order, or stops at the first failure |
| TextId.FailureSticks | main.py:1587-1597 | once a request fails, later requests do not change the outcome |
| TextId.CollectFailsIff | main.py:1527-1609 | gathering fails exactly when one of the requests fails |
| TextId.IdentifySpeakersChunked | main.py:1495-1642 | the chunked path returns the sorted, relabelled and count-repaired items of all chunks, or a failure |
| TextId.ChunkedFailsOnlyOnFailedRequest | main.py:1495-1642 | the chunked path fails exactly when one of its chunk requests fails, and otherwise gives one segment per paragraph |
| TextId.TextSpeakersCount | main.py:1644-1751 | a text-only result has one segment per paragraph, and only transcripts over 8000 characters can fail |
| TextId.SingleFailureAlternates | main.py:1744-1751 | a failed single request yields `Speaker {i % 2 + 1}` for paragraph `i` |
| Combiner.NumberedNamesDistinct | main.py:1072 | different positions get different numbered names |
| Combiner.IndexOf | main.py:1072 | the position `enumerate` gives a speaker in the first-seen list holds that speaker, and no earlier position does, so each speaker's number is its first-seen rank |
| Combiner.CollectSpeakers | main.py:1056-1064 | the speakers are the distinct track labels in first-appearance order, each with its spans in track order |
| Combiner.SpansOfAbsent | main.py:1059-1064 | a label that never occurs has no spans |
| Combiner.SpeakerNames | main.py:1072 | every collected speaker gets a name, and only those |
| Combiner.SpeakerNamesFacts | main.py:1066-1072 | the `k`-th speaker is `{prefix} {k + 1}` (`Beszélő` for Hungarian, else `Speaker`), and distinct speakers get distinct names |
| Combiner.FallbackCount | main.py:1099-1100 | the fallback has `min(len(split("\n\n")), 3)` speakers, always 1 to 3 |
| Combiner.FallbackSpeakerDetection | main.py:1097-1114 | the fallback speakers are numbered names in order, each named after itself |
| Combiner.SpanCovers | main.py:1144-1147 | the span loop reports whether some closed span contains the time |
| Combiner.ScanStops | main.py:1148-1149 | once a speaker is found, later speakers are not consulted |
| Combiner.FindSpeakerAt | main.py:1141-1153 | the lookup loop computes the word's speaker |
| Combiner.SpeakerAtTimeIsFirstCover | main.py:1141-1153 | a word's speaker is the first speaker, in dictionary order, with a closed span containing its start time, else the first speaker |
| Combiner.ScanNone | main.py:1143-1149 | without a covering span the lookup finds nothing |
| Combiner.LineFoldInvariant | main.py:1136-1163 | after each word the closed lines and the open one are the runs of the words seen |
| Combiner.LinesGroupRuns | main.py:1155-1167 | reading the lines back gives every input word in order with its speaker, no line is empty, and adjacent lines have different speakers |
| Combiner.CombineTranscriptWithSpeakers | main.py:1116-1169 | the combiner's loop produces the runs' `name: words` lines joined by blank lines |
| Combiner.AssignSpeakerNames | main.py:1825-1840 | without segments the transcript is returned unchanged; otherwise each segment becomes a renamed line, joined by blank lines |
| Combiner.NamedLinesAt | main.py:1833-1840 | line `i` belongs to segment `i`, and an empty map keeps every speaker's own label |
| Orchestrator.ChunkDuration | main.py:2566-2585 | the chunk duration is between 180 and 600 s, is 600 exactly up to 1800 s and 180 exactly beyond 10800 s |
| Orchestrator.ChunkDurationAntitone | main.py:2566-2585 | a longer recording never gets longer chunks |
| Orchestrator.ResolveToken | main.py:2482-2498 | a token found is never empty |
| Orchestrator.ResolveTokenFacts | main.py:2482-2498 | a token is found exactly when a non-empty one is configured or the stripped token file is at least ten characters and does not start with `#`, and without a configured one the token is those stripped contents |
| Orchestrator.FreshDiarizationFacts | main.py:2530-2564 | a fresh diarization exists exactly for recordings under 300 s, and for a clip under 60 s whose three-speaker re-run has at most three speakers the result has at most three |
| Orchestrator.RouteOfFacts | main.py:2459-2604 | a mapper is reached exactly with pyannote and either a cache hit, or a token with no step of the diarization raising, before or after `self.diarization` is assigned; the fast one exactly under 300 s |
| Orchestrator.LateFailureUsesText | main.py:2560-2609 | a fresh run that raises after the diarization was assigned (in the three-speaker re-run, the file removal or the cache save) ends on the single text run of the `except` clause |
| Orchestrator.CascadeFacts | main.py:2454-2609 | the result is the outcome of one path: of a text run whenever no mapper is reached, of the mapper whenever a mapper is reached and either the cache hit or the mapper succeeded, of the second text run only with pyannote and no cache hit, and a failure only when some path failed |
| Orchestrator.ChooseParagraphs | main.py:2717-2721 | stored paragraphs are reused, and only when there are none is the transcript segmented |
| Orchestrator.MapOutcomeFacts | main.py:2611-2701 | a mapper labels every paragraph in use, keeping its text, and falls back to the text path exactly when word timestamps or diarization are missing |
| Orchestrator.LongFreshRecordingsUseText | main.py:2565-2589 | a recording of 300 s or more that is not cached leaves the mapper no diarization, so it falls back to the text path |
| Orchestrator.SpeakerAttribution.QuickConsistencyCheck | main.py:2384-2399 | the in-place loop leaves `self.speakers` repaired and nothing else changed |
| Orchestrator.SpeakerAttribution.IdentifySpeakersSimple | main.py:1644-1751 | stores the transcript's paragraphs, returns the text-path result, and leaves the speakers alone on failure |
| Orchestrator.SpeakerAttribution.MapperParagraphs | main.py:2717-2721 | the paragraphs in use are stored and nothing else changes |
| Orchestrator.SpeakerAttribution.FastMapDiarization | main.py:2611-2690 | returns the fast mapper's outcome; `self.speaker_segments` becomes the paragraphs in use when the mapper runs and the transcript's paragraphs when it falls back; `self.speakers` becomes the result on success and is unchanged on failure; the diarization and word timestamps are unchanged |
| Orchestrator.SpeakerAttribution.MapDiarizationToTranscript | main.py:2696-2920 | returns the long-recording mapper's outcome; `self.speaker_segments` becomes the paragraphs in use when the mapper runs and the transcript's paragraphs when it falls back; `self.speakers` becomes the result on success and is unchanged on failure; the diarization and word timestamps are unchanged |
| Orchestrator.SpeakerAttribution.IdentifySpeakersWithDiarization | main.py:2454-2609 | returns the cascade's outcome; `self.diarization` holds the mapper's diarization whenever a mapper runs, and after a fresh run it holds what that run assigned even when a later step raises (the first run if the three-speaker re-run raises). It is unchanged without pyannote and when no fresh run begins (no token, or a raise before the first assignment); `self.speaker_segments` is the paragraphs in use when a mapper runs and the transcript's paragraphs otherwise; `self.speakers` becomes the result, one per stored paragraph, on success and is unchanged on failure |
| Chat.RecentHistory | main.py:3058-3059 | at most the last ten history messages, as a suffix of the history |
| Chat.UserContentsIff | main.py:3062 | the prompt is among the user contents exactly when a user message has it |
| Chat.PreambleUserSaid | main.py:3053-3062 | the system message is not a user message, so the list holds the prompt exactly when the recent history does |
| Chat.PromptAppendedIffMissing | main.py:3062-3063 | the prompt is appended exactly when the recent history has no user message with it |
| Chat.PrepareMessagesOpening | main.py:3049-3065 | the list opens with the system message followed by the recent history |
| Chat.PromptAlwaysSent | main.py:3049-3065 | the list always holds the prompt as a user message |
| Chat.RepeatedPromptNotDuplicated | main.py:3039-3063 | after an answer records the prompt and the reply in the history, asking the same prompt again does not send it twice |
| Config.MergeTemplates | main.py:3156-3159 | the template loop adds the missing default templates |
| Config.LoadConfig | main.py:3145-3168 | the loader returns the completed file contents, or the defaults |
| Config.AddAllMissingObject | main.py:3157-3159 | on an object, adding missing entries keeps every existing entry and adds each missing one with its default |
| Config.AddAllMissingOther | main.py:3157-3159 | on any other value, the step succeeds and changes nothing exactly when every name is already `in` it |
| Config.KeysFoldPlain | main.py:3151-3153 | for keys other than `templates` the loop only adds missing keys |
| Config.DefaultItemsFacts | main.py:3132-3143 | the defaults have six distinct keys, `templates` last, and distinct template names |
| Config.CompleteIsFixed | main.py:3150-3159 | a configuration with every default key and template is left unchanged |
| Config.NonObjectFails | main.py:3150-3159 | a value that is not an object raises before the merge ends |
| Config.NonObjectConfigUsesDefaults | main.py:3145-3168 | a file whose value is not an object gives the defaults |
| Config.MergeFailsIff | main.py:3150-3168 | an object gives the defaults exactly when its `templates` is not an object and lacks some default template name |
| Config.MergeKeepsValues | main.py:3151-3153 | the merge keeps every value the file sets and adds each missing key with its default |
| Config.MergeKeepsTemplates | main.py:3155-3159 | a `templates` object keeps its entries and gains the missing defaults, another value is kept, and a missing one gets the defaults |
| Config.DefaultsWellShaped | main.py:3132-3143 | the defaults meet the merge's shape assumptions |
| Config.LoadedValuesKept | main.py:3145-3161 | a loaded object keeps its values and gains the missing defaults |
| Config.LoadedTemplatesKept | main.py:3145-3161 | a loaded object's templates are kept and completed |
| Config.MergedConfigComplete | main.py:3150-3161 | a successful merge has every default key and every default template name |
| Config.LoadedConfigComplete | main.py:3130-3168 | every loaded configuration is an object with every default key and template name |
| Config.DefaultsComplete | main.py:3132-3143 | the defaults are complete |
| Config.LoadConfigIdempotent | main.py:3130-3168 | loading a configuration the loader returned gives it back |
| Cache.DiarizationFiles | main.py:2442 | the `.diar` entries of the listing, and only those |
| Cache.PruneCache | main.py:2442-2447 | the deletion loop removes the oldest diarization files beyond twenty |
| Cache.PruneCounts | main.py:2443-2447 | min(n, 20) files are kept and the rest removed, together exactly the diarization files |
| Cache.PruneOnlyDiarization | main.py:2442-2447 | only `.diar` files of the listing are removed |
| Cache.PruneKeepsNewest | main.py:2444-2447 | no removed file is newer than a kept one |

## Left out

- **User interface.** The wx interface, the status and progress callbacks, the
  threads that run the work, and the command-line launcher.
- **Network services.** The OpenAI transcription, chat and summary requests.
  The chat model's reply is a parameter, either a parsed item list or a
  failure, and the prompts are not modelled.
- **Audio libraries.** Pyannote, torch and librosa: pipeline loading, its
  parameters, the device choice and the duration probe. The duration and the
  tracks of each run are parameters. So is whether a step of the diarization
  raises: before `self.diarization` is first assigned (loading, converting,
  reading the duration, the first run), in the three-speaker re-run, or after
  it (removing the converted file, saving the cache).
- **Helpers whose bodies are not in `main.py`.** `_check_diarization_cache`,
  `_save_diarization_cache` and `convert_to_wav` are not part of this model.
  The cache lookup's result is a parameter.
- **File work.**
  - The pickle and md5 cache keys.
  - Directory setup and the temporary file's name.
  - Reading the token file and the configuration file. Their parsed contents
    are parameters.
  - Writing the default configuration when the file is missing.
- **`word_by_word`.** It is never assigned in `main.py`, so the class takes it
  as a constructor parameter.
- **Unused values.** `num_speakers`, `speaker_set`, `segment_count` as a
  progress figure, and `speaker_characteristics`. They affect only prompts and
  status messages.
- **Exceptions inside the mappers.** No typed input makes the modelled mapper
  steps raise. Their `except` fallbacks to the text path are therefore not
  modelled beyond the missing-input guard.
- **The combiner's `except` clause** (main.py:1171-1173). Malformed
  transcription responses are outside the model's typed inputs.
- **Malformed replies.** Reply items that are not dictionaries, non-numeric
  `id` values and non-string labels. Items are typed: each key may be missing,
  but present values are well typed.
- **The reply's `analysis` block.** It feeds only the later prompts.
- **The second text run in the orchestrator's `except` clause.** It is given
  its own replies as a parameter.
- Text.Lower: case mapping covers ASCII, Latin-1 and Latin Extended-A only, and
  the `\w` class covers those and Latin Extended-B. Other characters are
  treated as having no lower-case form and, beyond Extended-B, as non-word
  characters.
- FastMap.SampleCount: exact arithmetic replaces the floating-point steps of
  `np.arange` and `round`. A sample time that floating point would round
  differently is not captured.
- Sorting.SortBy: the contract states a sorted permutation but not stability
  (Python's sort keeps equal keys in input order).
- TextId.ItemsToSegments: for the same reason, the order of reply items with
  equal `id` is not stated.
- Timeline.SpeakerTimeline: likewise, the order of tracks with equal starts is
  not stated.
- ScalableMap.CollectTimeline: the mapper uses the whole sorted timeline even
  above 5000 tracks. This is the corrected behaviour from the finding below;
  the spill itself is `Timeline.SpillAsWritten`.

## Findings

| source | as written | input that shows it | evidently intended | confidence | as-written member | corrected member |
|---|---|---|---|---|---|---|
| main.py:2764-2784 | each full batch of 1000 kept tracks is written to the temporary file and then cleared from memory, so the file, reloaded at the end, holds only the last batch | more than 5000 tracks of which more than 1000 last at least 0.5 s: the reloaded timeline misses every kept track before the last batch (`Timeline.SpillLosesTracks`); with no kept track the file is never written and the reload raises | the reloaded timeline holds every kept track, as below 5000 tracks | not executed | Timeline.SpillAsWritten | Timeline.SpeakerTimeline |
