/** The word-level combiner of the transcription flow: diarization turns are
    collected per speaker and numbered by first appearance, every transcribed word is
    given the speaker talking at its start time, and runs of words by one speaker
    become `name: words` lines separated by blank lines. Also the fallback speaker
    list and the renaming of an attributed transcript. */
module Combiner {
  import opened Wrappers
  import opened Seqs
  import opened Text
  import opened Voting
  import opened Timeline
  import opened Segments

  /** The display prefix for numbered speakers: Hungarian `Beszélő`, else `Speaker`. */
  function SpeakerPrefix(language: string): string
  {
    if language == "hu" then "Besz\U{e9}l\U{151}" else "Speaker"
  }

  /** `f"{prefix} {i + 1}"` */
  function NumberedName(language: string, i: nat): string
  {
    SpeakerPrefix(language) + " " + NatToString(i + 1)
  }

  /** Different positions get different names. */
  lemma NumberedNamesDistinct(language: string, i: nat, j: nat)
    requires i != j
    ensures NumberedName(language, i) != NumberedName(language, j)
  {
    var p := SpeakerPrefix(language) + " ";
    var a, b := NatToString(i + 1), NatToString(j + 1);
    DecimalRoundTrip(i + 1);
    DecimalRoundTrip(j + 1);
    assert a != b;
    assert (p + a)[|p|..] == a && (p + b)[|p|..] == b;
  }

  /** The `(start, end)` spans of the turns labelled `speaker`, in order. */
  function SpansOf(turns: seq<Interval>, speaker: string): seq<(real, real)>
  {
    if turns == [] then []
    else
      var last := turns[|turns| - 1];
      SpansOf(turns[..|turns| - 1], speaker) + (if last.speaker == speaker then [(last.start, last.end)] else [])
  }

  /** The labels of the turns, in order. */
  function TurnLabels(turns: seq<Interval>): (r: seq<string>)
    ensures |r| == |turns| && forall k :: 0 <= k < |turns| ==> r[k] == turns[k].speaker
  {
    seq(|turns|, k requires 0 <= k < |turns| => turns[k].speaker)
  }

  /** `speaker_segments`: each speaker with its spans, in order of first appearance. */
  type SpeakerSegments = seq<(string, seq<(real, real)>)>

  /** The speakers in order of first appearance, each paired with its spans. */
  predicate CollectedFrom(turns: seq<Interval>, speakers: seq<string>, speakerSegments: SpeakerSegments)
  {
    && speakers == FirstSeen(TurnLabels(turns))
    && |speakerSegments| == |speakers|
    && forall k :: 0 <= k < |speakers| ==> speakerSegments[k] == (speakers[k], SpansOf(turns, speakers[k]))
  }

  /** `speakers.index(x)` for a present `x`. */
  function IndexOf(speakers: seq<string>, x: string): (k: nat)
    requires x in speakers
    ensures k < |speakers| && speakers[k] == x && forall j :: 0 <= j < k ==> speakers[j] != x
  {
    if speakers[0] == x then 0 else 1 + IndexOf(speakers[1..], x)
  }

  /** The loop gathering the diarization turns per speaker. */
  method CollectSpeakers(turns: seq<Interval>) returns (speakers: seq<string>, speakerSegments: SpeakerSegments)
    ensures CollectedFrom(turns, speakers, speakerSegments)
  {
    speakers := [];
    speakerSegments := [];
    var i := 0;
    while i < |turns|
      invariant 0 <= i <= |turns|
      invariant CollectedFrom(turns[..i], speakers, speakerSegments)
    {
      var turn := turns[i];
      RegisterSpeaker(turns, i, speakers, speakerSegments);
      if turn.speaker !in speakers {
        speakers := speakers + [turn.speaker];
        speakerSegments := speakerSegments + [(turn.speaker, [])];
      }
      var k := IndexOf(speakers, turn.speaker);
      AppendSpan(turns, i, speakers, speakerSegments);
      speakerSegments := speakerSegments[k := (turn.speaker, speakerSegments[k].1 + [(turn.start, turn.end)])];
      i := i + 1;
    }
    assert turns[..i] == turns;
  }

  /** Turn `i`'s speaker is registered, its span not yet appended. */
  predicate Registered(turns: seq<Interval>, i: nat, speakers: seq<string>, speakerSegments: SpeakerSegments)
    requires i < |turns|
  {
    && speakers == FirstSeen(TurnLabels(turns[..i + 1]))
    && |speakerSegments| == |speakers|
    && forall k :: 0 <= k < |speakers| ==> speakerSegments[k] == (speakers[k], SpansOf(turns[..i], speakers[k]))
  }

  lemma RegisterSpeaker(turns: seq<Interval>, i: nat, speakers: seq<string>, speakerSegments: SpeakerSegments)
    requires i < |turns| && CollectedFrom(turns[..i], speakers, speakerSegments)
    ensures var x := turns[i].speaker;
      Registered(turns, i, if x !in speakers then speakers + [x] else speakers,
                 if x !in speakers then speakerSegments + [(x, [])] else speakerSegments)
  {
    var x := turns[i].speaker;
    var pre := turns[..i];
    var post := turns[..i + 1];
    assert post[..i] == pre;
    assert TurnLabels(post)[..i] == TurnLabels(pre);
    assert Last(TurnLabels(post)) == x;
    if x !in speakers {
      SpansOfAbsent(pre, x);
      var speakers' := speakers + [x];
      var segs' := speakerSegments + [(x, [])];
      forall k | 0 <= k < |speakers'|
        ensures segs'[k] == (speakers'[k], SpansOf(pre, speakers'[k]))
      {
        if k < |speakers| {
          assert segs'[k] == speakerSegments[k];
        }
      }
    }
  }

  lemma AppendSpan(turns: seq<Interval>, i: nat, speakers: seq<string>, speakerSegments: SpeakerSegments)
    requires i < |turns| && Registered(turns, i, speakers, speakerSegments)
    ensures turns[i].speaker in speakers
    ensures var x := turns[i].speaker; var k := IndexOf(speakers, x);
      CollectedFrom(turns[..i + 1], speakers,
                    speakerSegments[k := (x, speakerSegments[k].1 + [(turns[i].start, turns[i].end)])])
  {
    var x := turns[i].speaker;
    var pre := turns[..i];
    var post := turns[..i + 1];
    assert post[..i] == pre;
    assert Last(TurnLabels(post)) == x;
    assert x in TurnLabels(post);
    var k := IndexOf(speakers, x);
    var segs' := speakerSegments[k := (x, speakerSegments[k].1 + [(turns[i].start, turns[i].end)])];
    forall j | 0 <= j < |speakers|
      ensures segs'[j] == (speakers[j], SpansOf(post, speakers[j]))
    {
      assert SpansOf(post, speakers[j]) == SpansOf(pre, speakers[j]) + (if speakers[j] == x then [(turns[i].start, turns[i].end)] else []);
      if j != k {
        assert speakers[j] != x by {
          if j < k {
          } else {
            assert speakers[j] != speakers[k];
          }
        }
        assert SpansOf(pre, speakers[j]) + [] == SpansOf(pre, speakers[j]);
        assert segs'[j] == speakerSegments[j];
      } else {
        assert segs'[j] == (x, speakerSegments[k].1 + [(turns[i].start, turns[i].end)]);
      }
    }
  }

  lemma {:induction false} SpansOfAbsent(turns: seq<Interval>, x: string)
    requires x !in FirstSeen(TurnLabels(turns))
    ensures SpansOf(turns, x) == []
  {
    if turns != [] {
      var init := turns[..|turns| - 1];
      assert x !in TurnLabels(turns);
      assert turns[|turns| - 1].speaker != x by {
        assert TurnLabels(turns)[|turns| - 1] == turns[|turns| - 1].speaker;
      }
      assert x !in TurnLabels(init) by {
        assert forall k :: 0 <= k < |init| ==> TurnLabels(init)[k] == TurnLabels(turns)[k];
      }
      SpansOfAbsent(init, x);
    }
  }

  /** `speaker_names`: each speaker's numbered name, by first appearance. */
  function SpeakerNames(speakers: seq<string>, language: string): (names: map<string, string>)
    ensures names.Keys == set s | s in speakers
  {
    map s | s in speakers :: NumberedName(language, IndexOf(speakers, s))
  }

  /** Distinct speakers get distinct names, the first speaker being number 1. */
  lemma SpeakerNamesFacts(speakers: seq<string>, language: string)
    requires Distinct(speakers)
    ensures forall k :: 0 <= k < |speakers| ==> SpeakerNames(speakers, language)[speakers[k]] == NumberedName(language, k)
    ensures forall a, b :: a in speakers && b in speakers && a != b ==>
      SpeakerNames(speakers, language)[a] != SpeakerNames(speakers, language)[b]
  {
    var names := SpeakerNames(speakers, language);
    forall k | 0 <= k < |speakers|
      ensures names[speakers[k]] == NumberedName(language, k)
    {
      assert IndexOf(speakers, speakers[k]) == k;
    }
    forall a, b | a in speakers && b in speakers && a != b
      ensures names[a] != names[b]
    {
      NumberedNamesDistinct(language, IndexOf(speakers, a), IndexOf(speakers, b));
    }
  }

  /** `_fallback_speaker_detection`'s speaker count: the blank-line blocks of the
      transcript, at most three. */
  function FallbackCount(transcript: string): (n: nat)
    ensures 1 <= n <= 3
  {
    var blocks := SplitOn(transcript, "\n\n");
    if |blocks| < 3 then |blocks| else 3
  }

  /** `_fallback_speaker_detection`: numbered speakers, each named after itself. */
  method FallbackSpeakerDetection(transcript: string, language: string)
    returns (speakers: seq<string>, speakerNames: map<string, string>)
    ensures |speakers| == FallbackCount(transcript)
    ensures forall i :: 0 <= i < |speakers| ==> speakers[i] == NumberedName(language, i)
    ensures speakerNames == map s | s in speakers :: s
  {
    var speakerCount := FallbackCount(transcript);
    speakers := [];
    speakerNames := map[];
    var i := 0;
    while i < speakerCount
      invariant 0 <= i <= speakerCount
      invariant |speakers| == i && forall k :: 0 <= k < i ==> speakers[k] == NumberedName(language, k)
      invariant speakerNames == map s | s in speakers :: s
    {
      var speakerId := NumberedName(language, i);
      speakers := speakers + [speakerId];
      speakerNames := speakerNames[speakerId := speakerId];
      i := i + 1;
    }
  }

  /** A transcribed word and its start time. */
  datatype TimedWord = TimedWord(word: string, start: real)

  /** Some span covers `t`, ends included. */
  predicate SpeaksAt(spans: seq<(real, real)>, t: real)
  {
    exists k :: 0 <= k < |spans| && spans[k].0 <= t <= spans[k].1
  }

  /** The inner span loop of the lookup. */
  method SpanCovers(spans: seq<(real, real)>, t: real) returns (found: bool)
    ensures found == SpeaksAt(spans, t)
  {
    found := false;
    var k := 0;
    while k < |spans|
      invariant 0 <= k <= |spans|
      invariant forall j :: 0 <= j < k ==> !(spans[j].0 <= t <= spans[j].1)
    {
      if spans[k].0 <= t <= spans[k].1 {
        found := true;
        return;
      }
      k := k + 1;
    }
  }

  /** `speaker_at_time` after the lookup has looked at the first `n` speakers: a
      covering speaker is taken, and the scan stops at one whose label is truthy
      (not empty). */
  function ScanUpTo(segs: SpeakerSegments, t: real, n: nat): Option<string>
    requires n <= |segs|
  {
    if n == 0 then None
    else
      var prev := ScanUpTo(segs, t, n - 1);
      if prev.Some? && prev.value != "" then prev
      else if SpeaksAt(segs[n - 1].1, t) then Some(segs[n - 1].0)
      else prev
  }

  /** The speaker of a word starting at `t`; a word no one covers (or only an empty
      label covers) goes to the first speaker, if there is one. */
  function SpeakerAtTime(segs: SpeakerSegments, speakers: seq<string>, t: real): Option<string>
  {
    var s := ScanUpTo(segs, t, |segs|);
    if (s.None? || s == Some("")) && speakers != [] then Some(speakers[0]) else s
  }

  lemma {:induction false} ScanStops(segs: SpeakerSegments, t: real, m: nat, n: nat)
    requires m <= n <= |segs| && ScanUpTo(segs, t, m).Some? && ScanUpTo(segs, t, m).value != ""
    ensures ScanUpTo(segs, t, n) == ScanUpTo(segs, t, m)
    decreases n - m
  {
    if m < n {
      ScanStops(segs, t, m, n - 1);
    }
  }

  /** The speaker lookup loops of the combiner. */
  method FindSpeakerAt(speakerSegments: SpeakerSegments, speakers: seq<string>, startTime: real)
    returns (speakerAtTime: Option<string>)
    ensures speakerAtTime == SpeakerAtTime(speakerSegments, speakers, startTime)
  {
    speakerAtTime := None;
    var k := 0;
    while k < |speakerSegments|
      invariant 0 <= k <= |speakerSegments|
      invariant speakerAtTime == ScanUpTo(speakerSegments, startTime, k)
      invariant speakerAtTime.None? || speakerAtTime.value == ""
    {
      var found := SpanCovers(speakerSegments[k].1, startTime);
      if found {
        speakerAtTime := Some(speakerSegments[k].0);
      }
      if speakerAtTime.Some? && speakerAtTime.value != "" {
        ScanStops(speakerSegments, startTime, k + 1, |speakerSegments|);
        break;
      }
      k := k + 1;
    }
    if (speakerAtTime.None? || speakerAtTime == Some("")) && speakers != [] {
      speakerAtTime := Some(speakers[0]);
    }
  }

  /** With non-empty labels, a word goes to the first speaker (in dictionary order)
      with a span covering its start time, and otherwise to the first speaker. */
  lemma {:induction false} SpeakerAtTimeIsFirstCover(segs: SpeakerSegments, speakers: seq<string>, t: real)
    requires forall k :: 0 <= k < |segs| ==> segs[k].0 != ""
    ensures forall k :: 0 <= k < |segs| && SpeaksAt(segs[k].1, t) && (forall j :: 0 <= j < k ==> !SpeaksAt(segs[j].1, t)) ==>
      SpeakerAtTime(segs, speakers, t) == Some(segs[k].0)
    ensures (forall k :: 0 <= k < |segs| ==> !SpeaksAt(segs[k].1, t)) ==>
      SpeakerAtTime(segs, speakers, t) == if speakers != [] then Some(speakers[0]) else None
  {
    forall k | 0 <= k < |segs| && SpeaksAt(segs[k].1, t) && (forall j :: 0 <= j < k ==> !SpeaksAt(segs[j].1, t))
      ensures ScanUpTo(segs, t, |segs|) == Some(segs[k].0)
    {
      ScanNone(segs, t, k);
      ScanStops(segs, t, k + 1, |segs|);
    }
    if forall k :: 0 <= k < |segs| ==> !SpeaksAt(segs[k].1, t) {
      ScanNone(segs, t, |segs|);
    }
  }

  lemma {:induction false} ScanNone(segs: SpeakerSegments, t: real, n: nat)
    requires n <= |segs| && forall j :: 0 <= j < n ==> !SpeaksAt(segs[j].1, t)
    ensures ScanUpTo(segs, t, n) == None
  {
    if n > 0 {
      ScanNone(segs, t, n - 1);
    }
  }

  /** One output line: a speaker (possibly none) and its run of words. */
  datatype Line = Line(speaker: Option<string>, words: seq<string>)

  /** The accumulators of the combiner loop. */
  datatype LineState = LineState(lines: seq<Line>, current: Option<string>, currentLine: seq<string>)

  /** One word: a change of speaker closes the open line (when it has words). */
  function LineStep(st: LineState, speaker: Option<string>, word: string): LineState
  {
    if speaker != st.current then
      LineState(if st.currentLine != [] then st.lines + [Line(st.current, st.currentLine)] else st.lines, speaker, [word])
    else LineState(st.lines, st.current, st.currentLine + [word])
  }

  function LineFold(labels: seq<Option<string>>, words: seq<string>, n: nat): LineState
    requires n <= |labels| && n <= |words|
  {
    if n == 0 then LineState([], None, [])
    else LineStep(LineFold(labels, words, n - 1), labels[n - 1], words[n - 1])
  }

  /** The lines: runs of consecutive words with one speaker. */
  function Lines(labels: seq<Option<string>>, words: seq<string>): seq<Line>
    requires |labels| == |words|
  {
    var st := LineFold(labels, words, |words|);
    if st.currentLine != [] then st.lines + [Line(st.current, st.currentLine)] else st.lines
  }

  function WordsOf(lines: seq<Line>): (r: seq<seq<string>>)
    ensures |r| == |lines|
  {
    if lines == [] then [] else WordsOf(lines[..|lines| - 1]) + [Last(lines).words]
  }

  function Repeat<T>(x: T, n: nat): (r: seq<T>)
    ensures |r| == n && forall k :: 0 <= k < n ==> r[k] == x
  {
    seq(n, _ => x)
  }

  /** Each word's speaker, read off the lines. */
  function LabelsOf(lines: seq<Line>): seq<Option<string>>
  {
    if lines == [] then [] else LabelsOf(lines[..|lines| - 1]) + Repeat(Last(lines).speaker, |Last(lines).words|)
  }

  predicate AdjacentDiffer(lines: seq<Line>)
  {
    forall k :: 0 <= k < |lines| - 1 ==> lines[k].speaker != lines[k + 1].speaker
  }

  predicate NonEmptyLines(lines: seq<Line>)
  {
    forall k :: 0 <= k < |lines| ==> lines[k].words != []
  }

  /** What the grouping promises: the words, read line by line, are the input
      words; so are their speakers; no line is empty; neighbours differ. */
  predicate GroupsRuns(labels: seq<Option<string>>, words: seq<string>, lines: seq<Line>)
  {
    Flatten(WordsOf(lines)) == words && LabelsOf(lines) == labels && NonEmptyLines(lines) && AdjacentDiffer(lines)
  }

  function AllLines(st: LineState): seq<Line>
  {
    st.lines + [Line(st.current, st.currentLine)]
  }

  predicate LineInvariant(labels: seq<Option<string>>, words: seq<string>, n: nat, st: LineState)
    requires n <= |labels| && n <= |words|
  {
    && Flatten(WordsOf(AllLines(st))) == words[..n]
    && LabelsOf(AllLines(st)) == labels[..n]
    && (n == 0 ==> st.lines == [] && st.currentLine == [])
    && (n > 0 ==> st.currentLine != [])
    && NonEmptyLines(st.lines)
    && AdjacentDiffer(AllLines(st))
  }

  lemma WordsLabelsSnoc(lines: seq<Line>, l: Line)
    ensures WordsOf(lines + [l]) == WordsOf(lines) + [l.words]
    ensures LabelsOf(lines + [l]) == LabelsOf(lines) + Repeat(l.speaker, |l.words|)
  {
    assert (lines + [l])[..|lines|] == lines;
  }

  /** Growing the last line by one word adds that word and its speaker at the end. */
  lemma ExtendLast(lines: seq<Line>, speaker: Option<string>, words: seq<string>, w: string)
    ensures Flatten(WordsOf(lines + [Line(speaker, words + [w])])) == Flatten(WordsOf(lines + [Line(speaker, words)])) + [w]
    ensures LabelsOf(lines + [Line(speaker, words + [w])]) == LabelsOf(lines + [Line(speaker, words)]) + [speaker]
  {
    WordsLabelsSnoc(lines, Line(speaker, words));
    WordsLabelsSnoc(lines, Line(speaker, words + [w]));
    FlattenAppend(WordsOf(lines), [words]);
    FlattenAppend(WordsOf(lines), [words + [w]]);
    FlattenOne(words);
    FlattenOne(words + [w]);
    assert Repeat(speaker, |words| + 1) == Repeat(speaker, |words|) + [speaker];
  }

  /** A word by the open line's speaker extends the open line. */
  lemma LineExtend(labels: seq<Option<string>>, words: seq<string>, n: nat, st: LineState)
    requires n < |labels| && n < |words| && LineInvariant(labels, words, n, st)
    requires labels[n] == st.current
    ensures LineInvariant(labels, words, n + 1, LineStep(st, labels[n], words[n]))
  {
    var w := words[n];
    var st' := LineStep(st, labels[n], w);
    assert words[..n + 1] == words[..n] + [w];
    assert labels[..n + 1] == labels[..n] + [labels[n]];
    assert AllLines(st') == st.lines + [Line(st.current, st.currentLine + [w])];
    ExtendLast(st.lines, st.current, st.currentLine, w);
    forall k | 0 <= k < |AllLines(st')| - 1
      ensures AllLines(st')[k].speaker != AllLines(st')[k + 1].speaker
    {
      assert AllLines(st')[k].speaker == AllLines(st)[k].speaker;
      assert AllLines(st')[k + 1].speaker == AllLines(st)[k + 1].speaker;
    }
  }

  /** A word by another speaker closes the open line and opens its own. */
  lemma LineBreak(labels: seq<Option<string>>, words: seq<string>, n: nat, st: LineState)
    requires n < |labels| && n < |words| && LineInvariant(labels, words, n, st)
    requires labels[n] != st.current && st.currentLine != []
    ensures LineInvariant(labels, words, n + 1, LineStep(st, labels[n], words[n]))
  {
    var w := words[n];
    var st' := LineStep(st, labels[n], w);
    assert words[..n + 1] == words[..n] + [w];
    assert labels[..n + 1] == labels[..n] + [labels[n]];
    var started := Line(labels[n], [w]);
    assert AllLines(st') == AllLines(st) + [started];
    WordsLabelsSnoc(AllLines(st), started);
    FlattenAppend(WordsOf(AllLines(st)), [[w]]);
    FlattenOne([w]);
    assert Repeat(labels[n], 1) == [labels[n]];
    forall k | 0 <= k < |st'.lines|
      ensures st'.lines[k].words != []
    {
      if k < |st.lines| {
        assert st'.lines[k] == st.lines[k];
      }
    }
    forall k | 0 <= k < |AllLines(st')| - 1
      ensures AllLines(st')[k].speaker != AllLines(st')[k + 1].speaker
    {
      if k < |AllLines(st)| - 1 {
        assert AllLines(st')[k] == AllLines(st)[k] && AllLines(st')[k + 1] == AllLines(st)[k + 1];
      }
    }
  }

  /** The first word by a speaker other than the initial `None` opens the first
      line. */
  lemma LineOpen(labels: seq<Option<string>>, words: seq<string>, st: LineState)
    requires 0 < |labels| && 0 < |words| && LineInvariant(labels, words, 0, st)
    requires labels[0] != st.current
    ensures LineInvariant(labels, words, 1, LineStep(st, labels[0], words[0]))
  {
    var st' := LineStep(st, labels[0], words[0]);
    assert AllLines(st') == [] + [Line(labels[0], [words[0]])];
    WordsLabelsSnoc([], Line(labels[0], [words[0]]));
    FlattenOne([words[0]]);
    assert words[..1] == [words[0]] && labels[..1] == [labels[0]];
    assert Repeat(labels[0], 1) == [labels[0]];
  }

  lemma {:induction false} LineFoldInvariant(labels: seq<Option<string>>, words: seq<string>, n: nat)
    requires n <= |labels| && n <= |words|
    ensures LineInvariant(labels, words, n, LineFold(labels, words, n))
  {
    if n == 0 {
      LineStart(labels, words);
    } else {
      LineFoldInvariant(labels, words, n - 1);
      var st := LineFold(labels, words, n - 1);
      LineStepKeeps(labels, words, n - 1, st);
      assert LineFold(labels, words, n) == LineStep(st, labels[n - 1], words[n - 1]);
    }
  }

  lemma LineStart(labels: seq<Option<string>>, words: seq<string>)
    ensures LineInvariant(labels, words, 0, LineFold(labels, words, 0))
  {
    var st := LineFold(labels, words, 0);
    WordsLabelsSnoc([], Line(None, []));
    FlattenOne<string>([]);
    assert AllLines(st) == [] + [Line(None, [])];
  }

  lemma LineStepKeeps(labels: seq<Option<string>>, words: seq<string>, n: nat, st: LineState)
    requires n < |labels| && n < |words| && LineInvariant(labels, words, n, st)
    ensures LineInvariant(labels, words, n + 1, LineStep(st, labels[n], words[n]))
  {
    if labels[n] == st.current {
      LineExtend(labels, words, n, st);
    } else if st.currentLine != [] {
      LineBreak(labels, words, n, st);
    } else {
      LineOpen(labels, words, st);
    }
  }

  /** The lines are exactly the runs of the words: reading them back gives every
      word with its speaker, in order, no line is empty and neighbouring lines have
      different speakers. */
  lemma LinesGroupRuns(labels: seq<Option<string>>, words: seq<string>)
    requires |labels| == |words|
    ensures GroupsRuns(labels, words, Lines(labels, words))
  {
    var n := |words|;
    LineFoldInvariant(labels, words, n);
    var st := LineFold(labels, words, n);
    assert words[..n] == words && labels[..n] == labels;
    if st.currentLine != [] {
      forall k | 0 <= k < |AllLines(st)|
        ensures AllLines(st)[k].words != []
      {
        if k < |st.lines| {
          assert AllLines(st)[k] == st.lines[k];
        }
      }
    }
  }

  /** `self.speaker_names.get(current_speaker, 'Unknown')` */
  function NameOf(names: map<string, string>, speaker: Option<string>): string
  {
    match speaker
    case None => "Unknown"
    case Some(s) => if s in names then names[s] else "Unknown"
  }

  /** `f"{name}: {' '.join(words)}"` */
  function FormatLine(names: map<string, string>, line: Line): string
  {
    NameOf(names, line.speaker) + ": " + Join(" ", line.words)
  }

  function FormatLines(names: map<string, string>, lines: seq<Line>): (r: seq<string>)
    ensures |r| == |lines|
  {
    if lines == [] then [] else FormatLines(names, lines[..|lines| - 1]) + [FormatLine(names, Last(lines))]
  }

  lemma FormatLinesSnoc(names: map<string, string>, lines: seq<Line>, l: Line)
    ensures FormatLines(names, lines + [l]) == FormatLines(names, lines) + [FormatLine(names, l)]
  {
    assert (lines + [l])[..|lines|] == lines;
  }

  /** The speaker of each word, by its start time. */
  function WordLabels(segs: SpeakerSegments, speakers: seq<string>, words: seq<TimedWord>): (r: seq<Option<string>>)
    ensures |r| == |words|
  {
    seq(|words|, i requires 0 <= i < |words| => SpeakerAtTime(segs, speakers, words[i].start))
  }

  function Texts(words: seq<TimedWord>): (r: seq<string>)
    ensures |r| == |words|
  {
    seq(|words|, i requires 0 <= i < |words| => words[i].word)
  }

  /** The combined transcript: the runs' lines joined by blank lines. */
  function CombinedTranscript(segs: SpeakerSegments, speakers: seq<string>, names: map<string, string>, words: seq<TimedWord>): string
  {
    Join("\n\n", FormatLines(names, Lines(WordLabels(segs, speakers, words), Texts(words))))
  }

  /** `combine_transcript_with_speakers` over the words of all transcription
      segments, in order. */
  method CombineTranscriptWithSpeakers(segments: seq<seq<TimedWord>>, speakerSegments: SpeakerSegments,
                                       speakers: seq<string>, speakerNames: map<string, string>)
    returns (transcript: string)
    ensures transcript == CombinedTranscript(speakerSegments, speakers, speakerNames, Flatten(segments))
  {
    var words := Flatten(segments);
    ghost var labels := WordLabels(speakerSegments, speakers, words);
    ghost var texts := Texts(words);
    var formattedLines: seq<string> := [];
    var currentSpeaker: Option<string> := None;
    var currentLine: seq<string> := [];
    var i := 0;
    while i < |words|
      invariant 0 <= i <= |words|
      invariant LineFold(labels, texts, i) == LineState(LineFold(labels, texts, i).lines, currentSpeaker, currentLine)
      invariant formattedLines == FormatLines(speakerNames, LineFold(labels, texts, i).lines)
    {
      ghost var st := LineFold(labels, texts, i);
      var wordInfo := words[i];
      var speakerAtTime := FindSpeakerAt(speakerSegments, speakers, wordInfo.start);
      assert speakerAtTime == labels[i] && wordInfo.word == texts[i];
      if speakerAtTime != currentSpeaker {
        if currentLine != [] {
          FormatLinesSnoc(speakerNames, st.lines, Line(currentSpeaker, currentLine));
          formattedLines := formattedLines + [FormatLine(speakerNames, Line(currentSpeaker, currentLine))];
          currentLine := [];
        }
        currentSpeaker := speakerAtTime;
      }
      currentLine := currentLine + [wordInfo.word];
      i := i + 1;
    }
    ghost var st := LineFold(labels, texts, |words|);
    if currentLine != [] {
      FormatLinesSnoc(speakerNames, st.lines, Line(currentSpeaker, currentLine));
      formattedLines := formattedLines + [FormatLine(speakerNames, Line(currentSpeaker, currentLine))];
    }
    transcript := Join("\n\n", formattedLines);
  }

  /** The renamed lines of `assign_speaker_names`: `new name: text`. */
  function NamedLine(speakerMap: map<string, string>, segment: Segment): string
  {
    (if segment.speaker in speakerMap then speakerMap[segment.speaker] else segment.speaker) + ": " + segment.text
  }

  function NamedLines(speakerMap: map<string, string>, segments: seq<Segment>): (r: seq<string>)
    ensures |r| == |segments|
  {
    if segments == [] then [] else NamedLines(speakerMap, segments[..|segments| - 1]) + [NamedLine(speakerMap, Last(segments))]
  }

  /** `assign_speaker_names`: without attributed segments the transcript is returned
      unchanged; otherwise each segment becomes a renamed line and the lines are
      joined by blank lines. */
  method AssignSpeakerNames(speakers: seq<Segment>, speakerMap: map<string, string>, transcript: string)
    returns (text: string)
    ensures speakers == [] ==> text == transcript
    ensures speakers != [] ==> text == Join("\n\n", NamedLines(speakerMap, speakers))
  {
    if speakers == [] {
      return transcript;
    }
    var formattedText: seq<string> := [];
    var i := 0;
    while i < |speakers|
      invariant 0 <= i <= |speakers|
      invariant formattedText == NamedLines(speakerMap, speakers[..i])
    {
      assert speakers[..i + 1][..i] == speakers[..i];
      var segment := speakers[i];
      var newSpeaker := if segment.speaker in speakerMap then speakerMap[segment.speaker] else segment.speaker;
      formattedText := formattedText + [newSpeaker + ": " + segment.text];
      i := i + 1;
    }
    assert speakers[..i] == speakers;
    text := Join("\n\n", formattedText);
  }

  /** Renaming with an empty map writes every segment under its own speaker, and the
      `i`-th line belongs to the `i`-th segment. */
  lemma {:induction false} NamedLinesAt(speakerMap: map<string, string>, segments: seq<Segment>, i: nat)
    requires i < |segments|
    ensures NamedLines(speakerMap, segments)[i] == NamedLine(speakerMap, segments[i])
    ensures speakerMap == map[] ==> NamedLines(speakerMap, segments)[i] == segments[i].speaker + ": " + segments[i].text
  {
    if i < |segments| - 1 {
      NamedLinesAt(speakerMap, segments[..|segments| - 1], i);
    }
  }
}
