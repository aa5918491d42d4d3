/** The short-recording mapper (`_fast_map_diarization`): every track is sampled
    every tenth of a second into a time-to-label dictionary, each timed word takes
    the label of the sample closest to its rounded midpoint, and each paragraph
    takes the majority label of its word tokens. */
module FastMap {
  import opened Wrappers
  import opened Seqs
  import opened Text
  import opened Voting
  import opened Timeline
  import opened Segments
  import opened Words

  function Abs(x: real): real
  {
    if x < 0.0 then -x else x
  }

  /** `round(x, 1)` on exact values: the nearest tenth, ties going to the even tenth. */
  function RoundTenth(x: real): (r: real)
    ensures -0.05 <= r - x <= 0.05
    ensures (r * 10.0).Floor as real == r * 10.0
  {
    var y := x * 10.0;
    var f := y.Floor;
    var frac := y - f as real;
    var n := if frac < 0.5 then f else if frac > 0.5 then f + 1 else if f % 2 == 0 then f else f + 1;
    n as real / 10.0
  }

  /** The time-to-label dictionary (`timeline_map`), in insertion order. */
  type TimelineMap = seq<(real, string)>

  /** `m.get(key)` */
  function Get(m: TimelineMap, key: real): Option<string>
  {
    if m == [] then None else if m[0].0 == key then Some(m[0].1) else Get(m[1..], key)
  }

  function TimesOf(m: TimelineMap): (r: seq<real>)
    ensures |r| == |m| && forall i :: 0 <= i < |m| ==> r[i] == m[i].0
  {
    if m == [] then [] else [m[0].0] + TimesOf(m[1..])
  }

  /** `m[key] = speaker`: an existing key keeps its place and takes the new label, a
      new key is appended. */
  function Put(m: TimelineMap, key: real, speaker: string): TimelineMap
  {
    if m == [] then [(key, speaker)]
    else if m[0].0 == key then [(key, speaker)] + m[1..]
    else [m[0]] + Put(m[1..], key, speaker)
  }

  /** `Put` is dictionary assignment: the key reads back the new label, other keys
      are unaffected, and a new key goes last. */
  lemma {:induction false} PutAssigns(m: TimelineMap, key: real, speaker: string)
    ensures TimesOf(Put(m, key, speaker)) == if key in TimesOf(m) then TimesOf(m) else TimesOf(m) + [key]
    ensures forall k :: Get(Put(m, key, speaker), k) == if k == key then Some(speaker) else Get(m, k)
  {
    var r := Put(m, key, speaker);
    if m != [] {
      if m[0].0 == key {
        assert r[1..] == m[1..];
      } else {
        PutAssigns(m[1..], key, speaker);
        assert r[1..] == Put(m[1..], key, speaker);
        assert [m[0].0] + (TimesOf(m[1..]) + [key]) == ([m[0].0] + TimesOf(m[1..])) + [key];
      }
    }
  }

  /** The `j`-th sample time of a track. */
  function SampleTime(iv: Interval, j: nat): real
  {
    iv.start + j as real / 10.0
  }

  /** `len(np.arange(start, end, 0.1))` on exact values: the number of tenths that fit
      before the end. */
  function SampleCount(iv: Interval): (n: nat)
    ensures forall j: nat :: j < n ==> SampleTime(iv, j) < iv.end
    ensures SampleTime(iv, n) >= iv.end
  {
    if iv.end <= iv.start then 0
    else
      var y := (iv.end - iv.start) * 10.0;
      var c := -((-y).Floor);
      assert c as real >= y && (c - 1) as real < y;
      c as nat
  }

  /** The samples of a track are exactly the tenths from its start that come before
      its end. */
  lemma SampleCountExact(iv: Interval, j: nat)
    ensures j < SampleCount(iv) <==> SampleTime(iv, j) < iv.end
  {
    if j >= SampleCount(iv) {
      assert SampleTime(iv, SampleCount(iv)) <= SampleTime(iv, j);
    }
  }

  /** The first `n` samples of a track written into the dictionary. */
  function SampleTrack(m: TimelineMap, iv: Interval, n: nat): TimelineMap
  {
    if n == 0 then m else Put(SampleTrack(m, iv, n - 1), RoundTenth(SampleTime(iv, n - 1)), iv.speaker)
  }

  /** The dictionary after sampling every track in order. */
  function TimelineMapOf(tracks: seq<Interval>): TimelineMap
  {
    if tracks == [] then []
    else
      var last := tracks[|tracks| - 1];
      SampleTrack(TimelineMapOf(tracks[..|tracks| - 1]), last, SampleCount(last))
  }

  /** The sampling loops of the fast mapper. */
  method BuildTimelineMap(tracks: seq<Interval>) returns (timelineMap: TimelineMap)
    ensures timelineMap == TimelineMapOf(tracks)
  {
    timelineMap := [];
    var i := 0;
    while i < |tracks|
      invariant 0 <= i <= |tracks|
      invariant timelineMap == TimelineMapOf(tracks[..i])
    {
      var segment := tracks[i];
      assert tracks[..i + 1][..i] == tracks[..i];
      ghost var before := timelineMap;
      var count := SampleCount(segment);
      var j := 0;
      while j < count
        invariant 0 <= j <= count
        invariant timelineMap == SampleTrack(before, segment, j)
      {
        var t := segment.start + j as real / 10.0;
        timelineMap := Put(timelineMap, RoundTenth(t), segment.speaker);
        j := j + 1;
      }
      i := i + 1;
    }
    assert tracks[..i] == tracks;
  }

  /** The time is within a twentieth of a second of the track's span, with the
      track's label. */
  predicate NearTrack(tracks: seq<Interval>, key: real, speaker: string)
  {
    exists k :: 0 <= k < |tracks| && tracks[k].speaker == speaker
      && tracks[k].start - 0.05 <= key <= tracks[k].end + 0.05
  }

  /** Every entry of the dictionary lies within a twentieth of a second of a track
      carrying the entry's label. */
  predicate MapNearTracks(tracks: seq<Interval>, m: TimelineMap)
  {
    forall i :: 0 <= i < |m| ==> NearTrack(tracks, m[i].0, m[i].1)
  }

  lemma {:induction false} PutNear(tracks: seq<Interval>, m: TimelineMap, key: real, speaker: string)
    requires MapNearTracks(tracks, m) && NearTrack(tracks, key, speaker)
    ensures MapNearTracks(tracks, Put(m, key, speaker))
  {
    if m != [] && m[0].0 != key {
      PutNear(tracks, m[1..], key, speaker);
      var r := Put(m, key, speaker);
      forall i | 0 <= i < |r|
        ensures NearTrack(tracks, r[i].0, r[i].1)
      {
        if i > 0 {
          assert r[i] == Put(m[1..], key, speaker)[i - 1];
        }
      }
    }
  }

  lemma {:induction false} SampleTrackNear(tracks: seq<Interval>, m: TimelineMap, k: nat, n: nat)
    requires k < |tracks| && n <= SampleCount(tracks[k]) && MapNearTracks(tracks, m)
    ensures MapNearTracks(tracks, SampleTrack(m, tracks[k], n))
  {
    if n > 0 {
      SampleTrackNear(tracks, m, k, n - 1);
      var t := SampleTime(tracks[k], n - 1);
      assert tracks[k].start <= t < tracks[k].end;
      PutNear(tracks, SampleTrack(m, tracks[k], n - 1), RoundTenth(t), tracks[k].speaker);
    }
  }

  lemma {:induction false} NearPrefix(tracks: seq<Interval>, n: nat, m: TimelineMap)
    requires n <= |tracks| && MapNearTracks(tracks[..n], m)
    ensures MapNearTracks(tracks, m)
  {
    forall i | 0 <= i < |m|
      ensures NearTrack(tracks, m[i].0, m[i].1)
    {
      var k :| 0 <= k < n && tracks[..n][k].speaker == m[i].1
        && tracks[..n][k].start - 0.05 <= m[i].0 <= tracks[..n][k].end + 0.05;
      assert tracks[k] == tracks[..n][k];
    }
  }

  /** Every sample of the dictionary lies within a twentieth of a second of a track
      carrying its label. */
  lemma {:induction false} TimelineMapNearTracks(tracks: seq<Interval>)
    ensures MapNearTracks(tracks, TimelineMapOf(tracks))
  {
    if tracks != [] {
      var init := tracks[..|tracks| - 1];
      TimelineMapNearTracks(init);
      NearPrefix(tracks, |tracks| - 1, TimelineMapOf(init));
      SampleTrackNear(tracks, TimelineMapOf(init), |tracks| - 1, SampleCount(tracks[|tracks| - 1]));
    }
  }

  /** `min(m.keys(), key=lambda x: abs(x - t), default=None)`: the first entry whose
      time is closest to `t`; `None` for an empty dictionary. */
  function Closest(m: TimelineMap, t: real): (r: Option<nat>)
    ensures r.None? <==> m == []
    ensures r.Some? ==> r.value < |m| && forall i :: 0 <= i < |m| ==> Abs(m[r.value].0 - t) <= Abs(m[i].0 - t)
    ensures r.Some? ==> forall i :: 0 <= i < r.value ==> Abs(m[r.value].0 - t) < Abs(m[i].0 - t)
  {
    if m == [] then None
    else if |m| == 1 then Some(0)
    else
      var best := Closest(m[..|m| - 1], t).value;
      if Abs(m[|m| - 1].0 - t) < Abs(m[best].0 - t) then Some(|m| - 1) else Some(best)
  }

  /** Closest samples further than this from a word are ignored. */
  const MaxSampleDistance: real := 1.0

  /** The label a word takes: the label of the closest sample to its rounded
      midpoint, when that sample is less than a second away. */
  function WordLabel(m: TimelineMap, w: Word): Option<string>
  {
    if !Timed(w) then None
    else
      var wordTime := RoundTenth(Midpoint(w));
      match Closest(m, wordTime)
      case None => None
      case Some(c) => if Abs(m[c].0 - wordTime) < MaxSampleDistance then Some(m[c].1) else None
  }

  /** `word_speakers`: each labelled word's text (as transcribed) mapped to its label;
      a later word with the same text replaces the entry. */
  function WordSpeakers(m: TimelineMap, words: seq<Word>): map<string, string>
  {
    if words == [] then map[]
    else
      var ws := WordSpeakers(m, words[..|words| - 1]);
      var w := words[|words| - 1];
      match WordLabel(m, w)
      case None => ws
      case Some(s) => ws[w.text := s]
  }

  /** The word loop of the fast mapper. */
  method MapWordsToSpeakers(timelineMap: TimelineMap, words: seq<Word>) returns (wordSpeakers: map<string, string>)
    ensures wordSpeakers == WordSpeakers(timelineMap, words)
  {
    wordSpeakers := map[];
    var i := 0;
    while i < |words|
      invariant 0 <= i <= |words|
      invariant wordSpeakers == WordSpeakers(timelineMap, words[..i])
    {
      var wordInfo := words[i];
      assert words[..i + 1][..i] == words[..i];
      if Timed(wordInfo) {
        var wordTime := RoundTenth(Midpoint(wordInfo));
        var closestTime := Closest(timelineMap, wordTime);
        if closestTime.Some? && Abs(timelineMap[closestTime.value].0 - wordTime) < MaxSampleDistance {
          wordSpeakers := wordSpeakers[wordInfo.text := timelineMap[closestTime.value].1];
        }
      }
      i := i + 1;
    }
    assert words[..i] == words;
  }

  /** Some timed word with text `text` lies, by its rounded midpoint, less than a
      second from a dictionary sample labelled `speaker`. */
  predicate HeardAs(m: TimelineMap, words: seq<Word>, text: string, speaker: string)
  {
    exists i, c :: 0 <= i < |words| && 0 <= c < |m| && Timed(words[i]) && words[i].text == text
      && m[c].1 == speaker && Abs(m[c].0 - RoundTenth(Midpoint(words[i]))) < MaxSampleDistance
  }

  /** Every entry of `word_speakers` comes from a timed word with that text whose
      label is that of a dictionary sample less than a second from its rounded
      midpoint. */
  lemma {:induction false} WordSpeakersSound(m: TimelineMap, words: seq<Word>)
    ensures forall k :: k in WordSpeakers(m, words) ==> HeardAs(m, words, k, WordSpeakers(m, words)[k])
  {
    if words != [] {
      var init := words[..|words| - 1];
      var w := words[|words| - 1];
      WordSpeakersSound(m, init);
      var ws := WordSpeakers(m, words);
      forall k | k in ws
        ensures HeardAs(m, words, k, ws[k])
      {
        if WordLabel(m, w).Some? && k == w.text {
          var c := Closest(m, RoundTenth(Midpoint(w))).value;
          assert words[|words| - 1] == w;
          assert m[c].1 == ws[k];
        } else {
          assert k in WordSpeakers(m, init) && ws[k] == WordSpeakers(m, init)[k];
          var i, c :| 0 <= i < |init| && 0 <= c < |m| && Timed(init[i]) && init[i].text == k
            && m[c].1 == ws[k] && Abs(m[c].0 - RoundTenth(Midpoint(init[i]))) < MaxSampleDistance;
          assert words[i] == init[i];
        }
      }
    }
  }

  /** The end of the run of word characters starting at `i`. */
  function WordRunEnd(s: string, i: nat): (j: nat)
    requires i <= |s|
    ensures i <= j <= |s|
    ensures forall k :: i <= k < j ==> IsWordChar(s[k])
    ensures j == |s| || !IsWordChar(s[j])
    decreases |s| - i
  {
    if i == |s| || !IsWordChar(s[i]) then i else WordRunEnd(s, i + 1)
  }

  /** `re.findall(r'\b\w+\b', s[i..])` where `s[i - 1]` (if any) is not a word
      character: the maximal runs of word characters, in order. */
  function WordTokensFrom(s: string, i: nat): seq<string>
    requires i <= |s|
    decreases |s| - i
  {
    if i == |s| then []
    else if !IsWordChar(s[i]) then WordTokensFrom(s, i + 1)
    else
      var j := WordRunEnd(s, i);
      [s[i..j]] + WordTokensFrom(s, j)
  }

  function WordTokens(s: string): seq<string>
  {
    WordTokensFrom(s, 0)
  }

  /** Every token is a non-empty run of word characters. */
  lemma {:induction false} WordTokensAreWords(s: string, i: nat)
    requires i <= |s|
    ensures forall t :: 0 <= t < |WordTokensFrom(s, i)| ==>
      (|WordTokensFrom(s, i)[t]| > 0 && forall k :: 0 <= k < |WordTokensFrom(s, i)[t]| ==> IsWordChar(WordTokensFrom(s, i)[t][k]))
    decreases |s| - i
  {
    if i < |s| {
      if !IsWordChar(s[i]) {
        WordTokensAreWords(s, i + 1);
      } else {
        var j := WordRunEnd(s, i);
        WordTokensAreWords(s, j);
        var r := WordTokensFrom(s, i);
        forall t | 0 < t < |r|
          ensures r[t] == WordTokensFrom(s, j)[t - 1]
        {
        }
      }
    }
  }

  /** The word characters of `s`, in order. */
  function WordChars(s: string): string
  {
    if s == [] then [] else (if IsWordChar(s[0]) then [s[0]] else []) + WordChars(s[1..])
  }

  lemma {:induction false} WordCharsRun(s: string, i: nat, j: nat)
    requires i <= j <= |s| && forall k :: i <= k < j ==> IsWordChar(s[k])
    ensures WordChars(s[i..]) == s[i..j] + WordChars(s[j..])
    decreases j - i
  {
    if i < j {
      WordCharsRun(s, i + 1, j);
      var t := s[i..];
      assert t[0] == s[i] && IsWordChar(t[0]);
      assert t[1..] == s[i + 1..];
      assert WordChars(t) == [s[i]] + WordChars(s[i + 1..]);
      assert s[i..j] == [s[i]] + s[i + 1..j];
    }
  }

  /** The tokens hold exactly the word characters: nothing is lost or added. */
  lemma {:induction false} WordTokensCover(s: string, i: nat)
    requires i <= |s|
    ensures Flatten(WordTokensFrom(s, i)) == WordChars(s[i..])
    decreases |s| - i
  {
    if i < |s| {
      assert s[i..][1..] == s[i + 1..];
      if !IsWordChar(s[i]) {
        WordTokensCover(s, i + 1);
      } else {
        var j := WordRunEnd(s, i);
        WordTokensCover(s, j);
        WordCharsRun(s, i, j);
        FlattenAppend([s[i..j]], WordTokensFrom(s, j));
        FlattenOne(s[i..j]);
      }
    }
  }

  /** `tok` occurs at `pos` in `s` between non-word characters (or the ends). */
  predicate BoundedOccurrence(s: string, tok: string, pos: int)
  {
    OccursAt(s, tok, pos)
    && (pos == 0 || !IsWordChar(s[pos - 1]))
    && (pos + |tok| == |s| || !IsWordChar(s[pos + |tok|]))
  }

  /** `tok` matches `\b\w+\b` somewhere in `s`. */
  ghost predicate MaximalRunIn(s: string, tok: string)
  {
    exists pos :: BoundedOccurrence(s, tok, pos)
  }

  /** Every token is a maximal run: it occurs in `s` with no word character right
      before or right after it. */
  lemma {:induction false} WordTokensMaximal(s: string, i: nat)
    requires i <= |s| && (i == 0 || !IsWordChar(s[i - 1]) || i == |s| || !IsWordChar(s[i]))
    ensures forall t :: 0 <= t < |WordTokensFrom(s, i)| ==> MaximalRunIn(s, WordTokensFrom(s, i)[t])
    decreases |s| - i
  {
    if i < |s| {
      var r := WordTokensFrom(s, i);
      if !IsWordChar(s[i]) {
        WordTokensMaximal(s, i + 1);
      } else {
        var j := WordRunEnd(s, i);
        WordTokensMaximal(s, j);
        assert BoundedOccurrence(s, r[0], i);
        forall t | 0 < t < |r|
          ensures MaximalRunIn(s, r[t])
        {
          assert r[t] == WordTokensFrom(s, j)[t - 1];
        }
      }
    }
  }

  /** The labels of the tokens found in `word_speakers`, in token order. */
  function TokenVotes(wordSpeakers: map<string, string>, tokens: seq<string>): (r: seq<string>)
    ensures |r| <= |tokens|
  {
    if tokens == [] then []
    else
      var rest := TokenVotes(wordSpeakers, tokens[..|tokens| - 1]);
      var t := tokens[|tokens| - 1];
      if t in wordSpeakers then rest + [wordSpeakers[t]] else rest
  }

  /** Every vote is the label of one of the tokens. */
  lemma {:induction false} TokenVotesFromTokens(wordSpeakers: map<string, string>, tokens: seq<string>)
    ensures forall v :: v in TokenVotes(wordSpeakers, tokens) ==>
      exists t :: t in tokens && t in wordSpeakers && wordSpeakers[t] == v
  {
    if tokens != [] {
      var init := tokens[..|tokens| - 1];
      TokenVotesFromTokens(wordSpeakers, init);
      forall v | v in TokenVotes(wordSpeakers, tokens)
        ensures exists t :: t in tokens && t in wordSpeakers && wordSpeakers[t] == v
      {
        if v in TokenVotes(wordSpeakers, init) {
          var t :| t in init && t in wordSpeakers && wordSpeakers[t] == v;
          assert t in tokens;
        } else {
          assert tokens[|tokens| - 1] in tokens;
        }
      }
    }
  }

  /** The votes of a paragraph: its lower-cased word tokens looked up in
      `word_speakers`. */
  function ParagraphVotes(wordSpeakers: map<string, string>, paragraph: string): seq<string>
  {
    TokenVotes(wordSpeakers, WordTokens(Lower(paragraph)))
  }

  /** A paragraph's label: the majority of its votes. */
  function FastLabel(wordSpeakers: map<string, string>, paragraph: string): string
  {
    SpeakerLabel(ParagraphVotes(wordSpeakers, paragraph))
  }

  /** The paragraphs, each labelled by the majority of its votes. */
  function FastLabelled(paragraphs: seq<string>, wordSpeakers: map<string, string>): (r: seq<Segment>)
  {
    seq(|paragraphs|, j requires 0 <= j < |paragraphs| => Segment(FastLabel(wordSpeakers, paragraphs[j]), paragraphs[j]))
  }

  /** The token loop of the fast mapper: the labels of the known tokens, in order. */
  method CollectVotes(wordSpeakers: map<string, string>, words: seq<string>) returns (paraSpeakers: seq<string>)
    ensures paraSpeakers == TokenVotes(wordSpeakers, words)
  {
    paraSpeakers := [];
    var k := 0;
    while k < |words|
      invariant 0 <= k <= |words|
      invariant paraSpeakers == TokenVotes(wordSpeakers, words[..k])
    {
      assert words[..k + 1][..k] == words[..k];
      if words[k] in wordSpeakers {
        paraSpeakers := paraSpeakers + [wordSpeakers[words[k]]];
      }
      k := k + 1;
    }
    assert words[..k] == words;
  }

  /** The paragraph loop of the fast mapper. */
  method LabelParagraphs(paragraphs: seq<string>, wordSpeakers: map<string, string>) returns (speakers: seq<Segment>)
    ensures speakers == FastLabelled(paragraphs, wordSpeakers)
  {
    ghost var expected := FastLabelled(paragraphs, wordSpeakers);
    speakers := [];
    var i := 0;
    while i < |paragraphs|
      invariant 0 <= i <= |paragraphs| && |expected| == |paragraphs|
      invariant speakers == expected[..i]
    {
      var segment := LabelParagraph(wordSpeakers, paragraphs, i);
      assert expected[..i + 1] == expected[..i] + [expected[i]];
      speakers := speakers + [segment];
      i := i + 1;
    }
    assert expected[..i] == expected;
  }

  /** The body of the paragraph loop: one paragraph and the majority of its votes. */
  method LabelParagraph(wordSpeakers: map<string, string>, paragraphs: seq<string>, i: nat) returns (segment: Segment)
    requires i < |paragraphs|
    ensures segment == FastLabelled(paragraphs, wordSpeakers)[i]
  {
    var paragraph := paragraphs[i];
    var paraSpeakers := CollectVotes(wordSpeakers, WordTokens(Lower(paragraph)));
    var speakerId := SpeakerLabel(paraSpeakers);
    segment := Segment(speakerId, paragraph);
  }

  /** The fast mapper's result: the voted labels, checked for consistency when there
      is more than one paragraph. */
  function FastSpeakers(paragraphs: seq<string>, tracks: seq<Interval>, words: seq<Word>): seq<Segment>
  {
    var voted := FastVoted(paragraphs, tracks, words);
    if |voted| > 1 then ConsistencyRepair(voted) else voted
  }

  /** The fast mapper's result before the consistency check. */
  function FastVoted(paragraphs: seq<string>, tracks: seq<Interval>, words: seq<Word>): seq<Segment>
  {
    FastLabelled(paragraphs, WordSpeakers(TimelineMapOf(tracks), words))
  }

  /** The fast mapper's loops in order: the sampled dictionary, the word labels and
      the per-paragraph vote. */
  method VoteParagraphs(paragraphs: seq<string>, tracks: seq<Interval>, words: seq<Word>) returns (voted: seq<Segment>)
    ensures voted == FastVoted(paragraphs, tracks, words)
  {
    var timelineMap := BuildTimelineMap(tracks);
    var wordSpeakers := MapWordsToSpeakers(timelineMap, words);
    voted := LabelParagraphs(paragraphs, wordSpeakers);
  }

  /** One entry per paragraph, in order, with the paragraph's text. */
  lemma FastSpeakersShape(paragraphs: seq<string>, tracks: seq<Interval>, words: seq<Word>)
    ensures |FastSpeakers(paragraphs, tracks, words)| == |paragraphs|
    ensures forall i :: 0 <= i < |paragraphs| ==> FastSpeakers(paragraphs, tracks, words)[i].text == paragraphs[i]
  {
    var voted := FastVoted(paragraphs, tracks, words);
    assert |voted| == |paragraphs|;
    assert forall i :: 0 <= i < |paragraphs| ==> voted[i].text == paragraphs[i];
    ConsistencyRepairShape(voted);
  }

  /** Every vote a paragraph receives is the label of some track, carried by a token
      of the paragraph that a timed word of that text mapped to. */
  lemma FastVotesFromTracks(paragraph: string, tracks: seq<Interval>, words: seq<Word>)
    ensures forall v :: v in ParagraphVotes(WordSpeakers(TimelineMapOf(tracks), words), paragraph) ==>
      exists k :: 0 <= k < |tracks| && tracks[k].speaker == v
  {
    var m := TimelineMapOf(tracks);
    var ws := WordSpeakers(m, words);
    TokenVotesFromTokens(ws, WordTokens(Lower(paragraph)));
    WordSpeakersSound(m, words);
    TimelineMapNearTracks(tracks);
    forall v | v in ParagraphVotes(ws, paragraph)
      ensures exists k :: 0 <= k < |tracks| && tracks[k].speaker == v
    {
      var t :| t in WordTokens(Lower(paragraph)) && t in ws && ws[t] == v;
      assert HeardAs(m, words, t, v);
      var i, c :| 0 <= i < |words| && 0 <= c < |m| && Timed(words[i]) && words[i].text == t
        && m[c].1 == v && Abs(m[c].0 - RoundTenth(Midpoint(words[i]))) < MaxSampleDistance;
      assert NearTrack(tracks, m[c].0, m[c].1);
    }
  }
}
