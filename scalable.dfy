/** The long-recording mapper (`_map_diarization_to_transcript`): each timed word is
    matched to a paragraph by a substring scan, its midpoint is looked up in the
    speaker timeline by binary search, and each paragraph takes the majority label of
    the words matched to it. */
module ScalableMap {
  import opened Wrappers
  import opened Seqs
  import opened Text
  import opened Sorting
  import opened Voting
  import opened Timeline
  import opened Segments
  import opened Words

  /** The first paragraph at or after `from` whose lower-cased text contains `word`. */
  function FirstContaining(paragraphs: seq<string>, word: string, from: nat): (r: Option<nat>)
    requires from <= |paragraphs|
    ensures r.Some? ==> from <= r.value < |paragraphs| && Contains(Lower(paragraphs[r.value]), word)
    ensures forall p :: from <= p < (if r.Some? then r.value else |paragraphs|) ==> !Contains(Lower(paragraphs[p]), word)
    decreases |paragraphs| - from
  {
    if from == |paragraphs| then None
    else if Contains(Lower(paragraphs[from]), word) then Some(from)
    else FirstContaining(paragraphs, word, from + 1)
  }

  /** Some paragraph's lower-cased text contains `word`. */
  predicate InSomeParagraph(paragraphs: seq<string>, word: string)
  {
    exists p :: 0 <= p < |paragraphs| && Contains(Lower(paragraphs[p]), word)
  }

  /** The paragraph a word is matched to: the first one containing it from the hint
      on, else the first one containing it anywhere. */
  function Locate(paragraphs: seq<string>, word: string, hint: nat): (r: Option<nat>)
    requires hint <= |paragraphs|
    ensures r.Some? ==> r.value < |paragraphs| && Contains(Lower(paragraphs[r.value]), word)
    ensures r.None? <==> !InSomeParagraph(paragraphs, word)
  {
    match FirstContaining(paragraphs, word, hint)
    case Some(p) => Some(p)
    case None => FirstContaining(paragraphs, word, 0)
  }

  /** The scan's state: the word-to-paragraph map and the index the next forward
      scan starts from. */
  datatype ScanState = ScanState(wordParagraphs: map<string, nat>, hint: nat)

  /** One word of the scan: untimed words are skipped; a matched word maps its
      lower-cased text to the paragraph (replacing an earlier entry) and moves the
      hint there. */
  function ScanWord(paragraphs: seq<string>, st: ScanState, w: Word): (r: ScanState)
    requires st.hint <= |paragraphs|
    ensures r.hint <= |paragraphs|
    ensures r.hint != st.hint ==>
      && Timed(w) && Lower(w.text) in r.wordParagraphs && r.wordParagraphs[Lower(w.text)] == r.hint
      && r.hint < |paragraphs| && Contains(Lower(paragraphs[r.hint]), Lower(w.text))
  {
    if !Timed(w) then st
    else
      var word := Lower(w.text);
      match Locate(paragraphs, word, st.hint)
      case None => st
      case Some(p) => ScanState(st.wordParagraphs[word := p], p)
  }

  /** The scan over the words in order, from an empty map and hint 0. */
  function ScanWords(paragraphs: seq<string>, words: seq<Word>): (r: ScanState)
    ensures r.hint <= |paragraphs|
  {
    if words == [] then ScanState(map[], 0)
    else ScanWord(paragraphs, ScanWords(paragraphs, words[..|words| - 1]), words[|words| - 1])
  }

  function WordParagraphs(paragraphs: seq<string>, words: seq<Word>): map<string, nat>
  {
    ScanWords(paragraphs, words).wordParagraphs
  }

  /** One forward scan of the word-to-paragraph loop: the paragraphs from `start` on
      are tried in order until one contains `word`. */
  method ScanFrom(paragraphs: seq<string>, word: string, start: nat) returns (found: Option<nat>)
    requires start <= |paragraphs|
    ensures found == FirstContaining(paragraphs, word, start)
  {
    var p := start;
    while p < |paragraphs|
      invariant start <= p <= |paragraphs|
      invariant FirstContaining(paragraphs, word, p) == FirstContaining(paragraphs, word, start)
    {
      if Contains(Lower(paragraphs[p]), word) {
        return Some(p);
      }
      p := p + 1;
    }
    return None;
  }

  /** The word-to-paragraph loop of the mapper: a forward scan from the last matched
      paragraph, then a scan from the first paragraph when that finds nothing. */
  method MatchWordsToParagraphs(paragraphs: seq<string>, words: seq<Word>) returns (wordParagraphs: map<string, nat>)
    ensures wordParagraphs == WordParagraphs(paragraphs, words)
  {
    wordParagraphs := map[];
    var paraStartIdx := 0;
    var i := 0;
    while i < |words|
      invariant 0 <= i <= |words|
      invariant ScanState(wordParagraphs, paraStartIdx) == ScanWords(paragraphs, words[..i])
    {
      var wordInfo := words[i];
      assert words[..i + 1][..i] == words[..i];
      if Timed(wordInfo) {
        var word := Lower(wordInfo.text);
        var found := ScanFrom(paragraphs, word, paraStartIdx);
        if found.None? {
          found := ScanFrom(paragraphs, word, 0);
        }
        if found.Some? {
          wordParagraphs := wordParagraphs[word := found.value];
          paraStartIdx := found.value;
        }
      }
      i := i + 1;
    }
    assert words[..i] == words;
  }

  /** The scan's state after one more word. */
  lemma ScanWordsSnoc(paragraphs: seq<string>, words: seq<Word>)
    requires words != []
    ensures ScanWords(paragraphs, words) == ScanWord(paragraphs, ScanWords(paragraphs, words[..|words| - 1]), words[|words| - 1])
  {
  }

  /** Every entry maps a word to a paragraph that contains it. */
  predicate SoundMap(paragraphs: seq<string>, m: map<string, nat>)
  {
    forall k :: k in m ==> m[k] < |paragraphs| && Contains(Lower(paragraphs[m[k]]), k)
  }

  lemma ScanWordSound(paragraphs: seq<string>, st: ScanState, w: Word)
    requires st.hint <= |paragraphs| && SoundMap(paragraphs, st.wordParagraphs)
    ensures SoundMap(paragraphs, ScanWord(paragraphs, st, w).wordParagraphs)
  {
  }

  /** Every entry of the word-to-paragraph map names a paragraph that contains the
      entry's word. */
  lemma {:induction false} WordParagraphsSound(paragraphs: seq<string>, words: seq<Word>)
    ensures SoundMap(paragraphs, WordParagraphs(paragraphs, words))
  {
    if words != [] {
      var init := words[..|words| - 1];
      WordParagraphsSound(paragraphs, init);
      ScanWordSound(paragraphs, ScanWords(paragraphs, init), words[|words| - 1]);
    }
  }

  /** The lower-cased text of one of the timed words. */
  predicate TimedWordText(words: seq<Word>, k: string)
  {
    exists i :: 0 <= i < |words| && Timed(words[i]) && Lower(words[i].text) == k
  }

  /** The keys are exactly the lower-cased timed words that some paragraph contains. */
  lemma {:induction false} WordParagraphsKeys(paragraphs: seq<string>, words: seq<Word>)
    ensures forall k :: k in WordParagraphs(paragraphs, words) <==> InSomeParagraph(paragraphs, k) && TimedWordText(words, k)
  {
    if words != [] {
      var init := words[..|words| - 1];
      var w := words[|words| - 1];
      WordParagraphsKeys(paragraphs, init);
      var st := ScanWords(paragraphs, init);
      ScanWordsSnoc(paragraphs, words);
      forall k
        ensures TimedWordText(words, k) <==> TimedWordText(init, k) || (Timed(w) && Lower(w.text) == k)
      {
        if TimedWordText(words, k) {
          var i :| 0 <= i < |words| && Timed(words[i]) && Lower(words[i].text) == k;
          if i < |init| {
            assert init[i] == words[i];
          }
        }
        if TimedWordText(init, k) {
          var i :| 0 <= i < |init| && Timed(init[i]) && Lower(init[i].text) == k;
          assert words[i] == init[i];
        }
      }
    }
  }

  /** The vote a word casts: the paragraph its lower-cased text is mapped to and the
      label of the track the search finds at its midpoint; none for an untimed word,
      a midpoint the search misses or an unmatched word. */
  function WordVote(timeline: seq<Interval>, wordParagraphs: map<string, nat>, w: Word): Option<(nat, string)>
  {
    if !Timed(w) then None
    else
      var idx := SearchInterval(timeline, Midpoint(w), 0, |timeline| - 1);
      var word := Lower(w.text);
      if idx != -1 && word in wordParagraphs then Some((wordParagraphs[word], timeline[idx].speaker))
      else None
  }

  /** The labels voted for paragraph `p`, in word order. */
  function ParagraphVotes(timeline: seq<Interval>, wordParagraphs: map<string, nat>, words: seq<Word>, p: nat): seq<string>
  {
    if words == [] then []
    else
      ParagraphVotes(timeline, wordParagraphs, words[..|words| - 1], p)
        + VoteFor(WordVote(timeline, wordParagraphs, words[|words| - 1]), p)
  }

  /** The label a vote gives paragraph `p`, if it is a vote for `p`. */
  function VoteFor(v: Option<(nat, string)>, p: nat): seq<string>
  {
    if v.Some? && v.value.0 == p then [v.value.1] else []
  }

  /** The per-paragraph vote counts of the mapper's word loop (`paragraph_speaker_counts`). */
  method CountParagraphVotes(timeline: seq<Interval>, wordParagraphs: map<string, nat>, words: seq<Word>, n: nat)
    returns (counts: seq<Counts>)
    requires forall k :: k in wordParagraphs ==> wordParagraphs[k] < n
    ensures |counts| == n
    ensures forall p :: 0 <= p < n ==> counts[p] == Tally(ParagraphVotes(timeline, wordParagraphs, words, p))
  {
    counts := seq(n, _ => []);
    var i := 0;
    while i < |words|
      invariant 0 <= i <= |words|
      invariant CountedUpTo(timeline, wordParagraphs, words, i, counts, n)
    {
      ghost var before := counts;
      counts := CountWord(timeline, wordParagraphs, counts, words[i]);
      CountStep(timeline, wordParagraphs, words, i, before, n);
      i := i + 1;
    }
    assert words[..i] == words;
  }

  /** One pass of the word loop: the word's vote, if it casts one, bumps its
      paragraph's counts. */
  method CountWord(timeline: seq<Interval>, wordParagraphs: map<string, nat>, counts: seq<Counts>, wordInfo: Word)
    returns (next: seq<Counts>)
    requires forall k :: k in wordParagraphs ==> wordParagraphs[k] < |counts|
    ensures next == AddVote(counts, WordVote(timeline, wordParagraphs, wordInfo))
  {
    next := counts;
    if Timed(wordInfo) {
      var word := Lower(wordInfo.text);
      var wordTime := Midpoint(wordInfo);
      var segmentIdx := FindInterval(timeline, wordTime);
      if segmentIdx != -1 {
        var speaker := timeline[segmentIdx].speaker;
        if word in wordParagraphs {
          var paraIdx := wordParagraphs[word];
          next := counts[paraIdx := Bump(counts[paraIdx], speaker)];
        }
      }
    }
  }

  /** The counts after the first `i` words. */
  predicate CountedUpTo(timeline: seq<Interval>, wordParagraphs: map<string, nat>, words: seq<Word>, i: nat, counts: seq<Counts>, n: nat)
    requires i <= |words|
  {
    |counts| == n && forall p :: 0 <= p < n ==> counts[p] == Tally(ParagraphVotes(timeline, wordParagraphs, words[..i], p))
  }

  /** A vote bumps its paragraph's counts. */
  function AddVote(counts: seq<Counts>, v: Option<(nat, string)>): seq<Counts>
  {
    if v.Some? && v.value.0 < |counts| then counts[v.value.0 := Bump(counts[v.value.0], v.value.1)] else counts
  }

  lemma CountStep(timeline: seq<Interval>, wordParagraphs: map<string, nat>, words: seq<Word>, i: nat, counts: seq<Counts>, n: nat)
    requires i < |words| && CountedUpTo(timeline, wordParagraphs, words, i, counts, n)
    requires forall k :: k in wordParagraphs ==> wordParagraphs[k] < n
    ensures CountedUpTo(timeline, wordParagraphs, words, i + 1, AddVote(counts, WordVote(timeline, wordParagraphs, words[i])), n)
  {
    var v := WordVote(timeline, wordParagraphs, words[i]);
    VotesSnoc(timeline, wordParagraphs, words, i);
    forall p | 0 <= p < n
      ensures AddVote(counts, v)[p] == Tally(ParagraphVotes(timeline, wordParagraphs, words[..i + 1], p))
    {
      var before := ParagraphVotes(timeline, wordParagraphs, words[..i], p);
      if v.Some? && v.value.0 == p {
        TallySnoc(before, v.value.1);
      } else {
        assert before + VoteFor(v, p) == before;
      }
    }
  }

  lemma VotesSnoc(timeline: seq<Interval>, wordParagraphs: map<string, nat>, words: seq<Word>, i: nat)
    requires i < |words|
    ensures forall p :: (ParagraphVotes(timeline, wordParagraphs, words[..i + 1], p)
      == ParagraphVotes(timeline, wordParagraphs, words[..i], p) + VoteFor(WordVote(timeline, wordParagraphs, words[i]), p))
  {
    assert words[..i + 1][..i] == words[..i];
  }

  /** The first `n` paragraphs, each with the label its counts give. */
  function Labelled(paragraphs: seq<string>, counts: seq<Counts>, n: nat): (r: seq<Segment>)
    requires n <= |paragraphs| && n <= |counts|
    ensures |r| == n
  {
    if n == 0 then [] else Labelled(paragraphs, counts, n - 1) + [Segment(CountsLabel(counts[n - 1]), paragraphs[n - 1])]
  }

  lemma {:induction false} LabelledAt(paragraphs: seq<string>, counts: seq<Counts>, n: nat, j: nat)
    requires n <= |paragraphs| && n <= |counts| && j < n
    ensures Labelled(paragraphs, counts, n)[j] == Segment(CountsLabel(counts[j]), paragraphs[j])
  {
    var prev := Labelled(paragraphs, counts, n - 1);
    assert Labelled(paragraphs, counts, n) == prev + [Segment(CountsLabel(counts[n - 1]), paragraphs[n - 1])];
    if j < n - 1 {
      LabelledAt(paragraphs, counts, n - 1, j);
      assert Labelled(paragraphs, counts, n)[j] == prev[j];
    }
  }

  /** The loop assigning each paragraph its majority label (`self.speakers`). */
  method LabelParagraphs(paragraphs: seq<string>, counts: seq<Counts>) returns (speakers: seq<Segment>)
    requires |counts| == |paragraphs|
    ensures speakers == Labelled(paragraphs, counts, |paragraphs|)
  {
    speakers := [];
    var i := 0;
    while i < |paragraphs|
      invariant 0 <= i <= |paragraphs|
      invariant speakers == Labelled(paragraphs, counts, i)
    {
      var speakerId := CountsLabel(counts[i]);
      speakers := speakers + [Segment(speakerId, paragraphs[i])];
      i := i + 1;
    }
  }

  /** The timeline loop of the in-memory branch: long tracks appended in order, then
      sorted by start. */
  method CollectTimeline(tracks: seq<Interval>) returns (timeline: seq<Interval>)
    ensures timeline == SpeakerTimeline(tracks)
  {
    var timelineSegments: seq<Interval> := [];
    var i := 0;
    while i < |tracks|
      invariant 0 <= i <= |tracks|
      invariant timelineSegments == KeptPrefix(tracks, i)
    {
      if LongEnough(tracks[i]) {
        timelineSegments := timelineSegments + [tracks[i]];
      } else {
        assert KeptPrefix(tracks, i + 1) == KeptPrefix(tracks, i) + [];
      }
      i := i + 1;
    }
    timeline := SortBy(timelineSegments, StartOf);
  }

  /** The mapper's result before the consistency check: one entry per paragraph,
      labelled by the majority of its votes. */
  function VotedSpeakers(paragraphs: seq<string>, tracks: seq<Interval>, words: seq<Word>): (r: seq<Segment>)
    ensures |r| == |paragraphs|
  {
    var timeline := SpeakerTimeline(tracks);
    var wordParagraphs := WordParagraphs(paragraphs, words);
    seq(|paragraphs|, i requires 0 <= i < |paragraphs| =>
      Segment(SpeakerLabel(ParagraphVotes(timeline, wordParagraphs, words, i)), paragraphs[i]))
  }

  /** The label loop, fed the counted votes, yields the voted labels. */
  lemma LabelledIsVoted(paragraphs: seq<string>, tracks: seq<Interval>, words: seq<Word>,
                        timeline: seq<Interval>, wordParagraphs: map<string, nat>, counts: seq<Counts>)
    requires timeline == SpeakerTimeline(tracks) && wordParagraphs == WordParagraphs(paragraphs, words)
    requires |counts| == |paragraphs|
    requires forall p :: 0 <= p < |paragraphs| ==> counts[p] == Tally(ParagraphVotes(timeline, wordParagraphs, words, p))
    ensures Labelled(paragraphs, counts, |paragraphs|) == VotedSpeakers(paragraphs, tracks, words)
  {
    var labelled := Labelled(paragraphs, counts, |paragraphs|);
    forall j | 0 <= j < |paragraphs|
      ensures labelled[j] == VotedSpeakers(paragraphs, tracks, words)[j]
    {
      LabelledAt(paragraphs, counts, |paragraphs|, j);
    }
  }

  /** The mapper's loops in order: the timeline, the word-to-paragraph scan, the vote
      count and the labelling. */
  method VoteParagraphs(paragraphs: seq<string>, tracks: seq<Interval>, words: seq<Word>) returns (voted: seq<Segment>)
    ensures voted == VotedSpeakers(paragraphs, tracks, words)
  {
    var timeline := CollectTimeline(tracks);
    var wordParagraphs := MatchWordsToParagraphs(paragraphs, words);
    WordParagraphsSound(paragraphs, words);
    var counts := CountParagraphVotes(timeline, wordParagraphs, words, |paragraphs|);
    voted := LabelParagraphs(paragraphs, counts);
    LabelledIsVoted(paragraphs, tracks, words, timeline, wordParagraphs, counts);
  }

  /** The mapper's result: the voted labels, checked for consistency when there are
      more than two paragraphs. */
  function ScalableSpeakers(paragraphs: seq<string>, tracks: seq<Interval>, words: seq<Word>): seq<Segment>
  {
    var voted := VotedSpeakers(paragraphs, tracks, words);
    if |voted| > 2 then ConsistencyRepair(voted) else voted
  }

  /** One entry per paragraph, in order, with the paragraph's text. */
  lemma ScalableSpeakersShape(paragraphs: seq<string>, tracks: seq<Interval>, words: seq<Word>)
    ensures |ScalableSpeakers(paragraphs, tracks, words)| == |paragraphs|
    ensures forall i :: 0 <= i < |paragraphs| ==> ScalableSpeakers(paragraphs, tracks, words)[i].text == paragraphs[i]
  {
    ConsistencyRepairShape(VotedSpeakers(paragraphs, tracks, words));
  }

  /** A vote for paragraph `p` with label `s` comes from a timed word that paragraph
      `p` contains (lower-cased) and whose midpoint lies in a track labelled `s`. */
  lemma WordVoteSound(paragraphs: seq<string>, tracks: seq<Interval>, words: seq<Word>, w: Word, p: nat, s: string)
    requires WordVote(SpeakerTimeline(tracks), WordParagraphs(paragraphs, words), w) == Some((p, s))
    ensures Timed(w) && p < |paragraphs| && Contains(Lower(paragraphs[p]), Lower(w.text))
    ensures exists k :: 0 <= k < |SpeakerTimeline(tracks)| && Covers(SpeakerTimeline(tracks)[k], Midpoint(w))
                        && SpeakerTimeline(tracks)[k].speaker == s
  {
    WordParagraphsSound(paragraphs, words);
  }

  /** Some word casts a vote for paragraph `p` with this label. */
  predicate VotedBySomeWord(timeline: seq<Interval>, wordParagraphs: map<string, nat>, words: seq<Word>, p: nat, speaker: string)
  {
    exists k :: 0 <= k < |words| && WordVote(timeline, wordParagraphs, words[k]) == Some((p, speaker))
  }

  /** Every vote of a paragraph is the vote of some word. */
  lemma {:induction false} ParagraphVotesFromWords(timeline: seq<Interval>, wordParagraphs: map<string, nat>, words: seq<Word>, p: nat)
    ensures forall j :: 0 <= j < |ParagraphVotes(timeline, wordParagraphs, words, p)| ==>
      VotedBySomeWord(timeline, wordParagraphs, words, p, ParagraphVotes(timeline, wordParagraphs, words, p)[j])
  {
    if words != [] {
      var init := words[..|words| - 1];
      ParagraphVotesFromWords(timeline, wordParagraphs, init, p);
      var votes := ParagraphVotes(timeline, wordParagraphs, words, p);
      var before := ParagraphVotes(timeline, wordParagraphs, init, p);
      var last := WordVote(timeline, wordParagraphs, words[|words| - 1]);
      assert votes == before + VoteFor(last, p);
      forall j | 0 <= j < |votes|
        ensures VotedBySomeWord(timeline, wordParagraphs, words, p, votes[j])
      {
        if j < |before| {
          assert votes[j] == before[j];
          assert VotedBySomeWord(timeline, wordParagraphs, init, p, before[j]);
          var k :| 0 <= k < |init| && WordVote(timeline, wordParagraphs, init[k]) == Some((p, before[j]));
          assert words[k] == init[k];
        } else {
          assert last == Some((p, votes[j]));
          assert words[|words| - 1] == words[|words| - 1];
        }
      }
    }
  }

  /** A timed word whose text is mapped and whose midpoint lies in a track of a
      well-formed, non-overlapping timeline casts a vote. */
  lemma CoveredWordVotes(timeline: seq<Interval>, wordParagraphs: map<string, nat>, w: Word, k: nat)
    requires WellFormed(timeline) && NonOverlapping(timeline)
    requires Timed(w) && Lower(w.text) in wordParagraphs
    requires k < |timeline| && Covers(timeline[k], Midpoint(w))
    ensures WordVote(timeline, wordParagraphs, w).Some?
  {
    SearchComplete(timeline, Midpoint(w), 0, |timeline| - 1);
  }

  /** A timed word some paragraph contains is a key of the word map. */
  lemma MatchedWordIsKey(paragraphs: seq<string>, words: seq<Word>, i: nat)
    requires i < |words| && Timed(words[i]) && InSomeParagraph(paragraphs, Lower(words[i].text))
    ensures Lower(words[i].text) in WordParagraphs(paragraphs, words)
  {
    WordParagraphsKeys(paragraphs, words);
    assert TimedWordText(words, Lower(words[i].text));
  }

  /** On a timeline of well-formed, non-overlapping tracks, a timed word whose
      lower-cased text some paragraph contains, and whose midpoint lies in a track,
      casts a vote. */
  lemma WordVoteComplete(paragraphs: seq<string>, tracks: seq<Interval>, words: seq<Word>, i: nat, k: nat)
    requires i < |words| && Timed(words[i]) && InSomeParagraph(paragraphs, Lower(words[i].text))
    requires WellFormed(SpeakerTimeline(tracks)) && NonOverlapping(SpeakerTimeline(tracks))
    requires k < |SpeakerTimeline(tracks)| && Covers(SpeakerTimeline(tracks)[k], Midpoint(words[i]))
    ensures WordVote(SpeakerTimeline(tracks), WordParagraphs(paragraphs, words), words[i]).Some?
  {
    MatchedWordIsKey(paragraphs, words, i);
    CoveredWordVotes(SpeakerTimeline(tracks), WordParagraphs(paragraphs, words), words[i], k);
  }
}
