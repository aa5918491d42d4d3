/** Text-only paragraph segmentation: the transcript is cut into sentences after
    '.', '!' or '?', and consecutive sentences are grouped into paragraphs by a
    cascade of heuristics meant to guess where one speaker hands over to the next. */
module Segmenter {
  import opened Text
  import opened Seqs

  predicate IsTerminator(c: char)
  {
    c == '.' || c == '!' || c == '?'
  }

  /** Position `i` of `s` is where `(?<=[.!?])\s+` can start matching: a whitespace
      character right after a sentence terminator. */
  predicate SplitPoint(s: string, i: int)
  {
    0 < i < |s| && IsTerminator(s[i - 1]) && IsSpace(s[i])
  }

  /** The first split point at or after `from`, or `|s|` when there is none. */
  function FirstSplitPoint(s: string, from: nat): (i: nat)
    requires 1 <= from <= |s|
    ensures from <= i <= |s|
    decreases |s| - from
  {
    if from == |s| || SplitPoint(s, from) then from else FirstSplitPoint(s, from + 1)
  }

  /** The position found is a split point, and none comes before it. */
  lemma {:induction false} FirstSplitPointFacts(s: string, from: nat)
    requires 1 <= from <= |s|
    ensures var i := FirstSplitPoint(s, from);
      && (i < |s| ==> SplitPoint(s, i))
      && (forall k :: from <= k < i ==> !SplitPoint(s, k))
    decreases |s| - from
  {
    if from < |s| && !SplitPoint(s, from) {
      FirstSplitPointFacts(s, from + 1);
    }
  }

  /** End of the maximal whitespace run starting at `from` (`\s+` is greedy). */
  function SpaceRunEnd(s: string, from: nat): (j: nat)
    requires from <= |s|
    ensures from <= j <= |s|
    decreases |s| - from
  {
    if from < |s| && IsSpace(s[from]) then SpaceRunEnd(s, from + 1) else from
  }

  /** The run is all whitespace and cannot be extended. */
  lemma {:induction false} SpaceRunEndFacts(s: string, from: nat)
    requires from <= |s|
    ensures var j := SpaceRunEnd(s, from);
      && (forall k :: from <= k < j ==> IsSpace(s[k]))
      && (j == |s| || !IsSpace(s[j]))
    decreases |s| - from
  {
    if from < |s| && IsSpace(s[from]) {
      SpaceRunEndFacts(s, from + 1);
    }
  }

  /** `re.split(r'(?<=[.!?])\s+', s)`: the string is cut at every maximal whitespace
      run that follows a terminator, and the runs themselves are dropped. */
  function SplitAfterTerminators(s: string): (r: seq<string>)
    ensures |r| >= 1
    decreases |s|
  {
    if |s| == 0 then [s]
    else
      var i := FirstSplitPoint(s, 1);
      if i == |s| then [s] else [s[..i]] + SplitAfterTerminators(s[SpaceRunEnd(s, i)..])
  }

  /** The first piece starts the string, and every piece but the last ends with a
      terminator. */
  lemma {:induction false} SplitAfterTerminatorsFacts(s: string)
    ensures var r := SplitAfterTerminators(s);
      && (|s| > 0 ==> |r[0]| > 0 && r[0][0] == s[0])
      && (forall k :: 0 <= k < |r| - 1 ==> EndsWithTerminator(r[k]))
    decreases |s|
  {
    if |s| > 0 {
      var i := FirstSplitPoint(s, 1);
      if i < |s| {
        FirstSplitPointFacts(s, 1);
        var rest := s[SpaceRunEnd(s, i)..];
        SplitAfterTerminatorsFacts(rest);
        var tail := SplitAfterTerminators(rest);
        var r := SplitAfterTerminators(s);
        assert r == [s[..i]] + tail;
        assert EndsWithTerminator(s[..i]);
        forall k | 1 <= k < |r| - 1
          ensures EndsWithTerminator(r[k])
        {
          assert r[k] == tail[k - 1];
        }
      }
    }
  }

  predicate EndsWithTerminator(s: string)
  {
    |s| > 0 && IsTerminator(s[|s| - 1])
  }

  /** `[p.strip() for p in pieces if p.strip()]` */
  function CleanPieces(pieces: seq<string>): (r: seq<string>)
    ensures |r| <= |pieces|
  {
    if pieces == [] then []
    else
      var p := Strip(pieces[0]);
      (if p != [] then [p] else []) + CleanPieces(pieces[1..])
  }

  /** Every piece kept is non-empty and stripped. */
  lemma {:induction false} CleanPiecesStripped(pieces: seq<string>)
    ensures forall k :: 0 <= k < |CleanPieces(pieces)| ==>
      var p := CleanPieces(pieces)[k];
      |p| > 0 && !IsSpace(p[0]) && !IsSpace(p[|p| - 1])
  {
    if pieces != [] {
      CleanPiecesStripped(pieces[1..]);
      StripFacts(pieces[0]);
      var p := Strip(pieces[0]);
      var rest := CleanPieces(pieces[1..]);
      var r := CleanPieces(pieces);
      if p != [] {
        assert r == [p] + rest;
        forall k | 1 <= k < |r|
          ensures r[k] == rest[k - 1]
        {
        }
      } else {
        assert r == rest;
      }
    }
  }

  /** The sentences of a transcript, stripped and non-empty. */
  function Sentences(transcript: string): seq<string>
  {
    CleanPieces(SplitAfterTerminators(Strip(transcript)))
  }

  /** A transcript yields no sentence exactly when it is blank. */
  lemma SentencesEmptyIffBlank(transcript: string)
    ensures Sentences(transcript) == [] <==> forall k :: 0 <= k < |transcript| ==> IsSpace(transcript[k])
  {
    StripEmptyIffBlank(transcript);
    var st := Strip(transcript);
    var pieces := SplitAfterTerminators(st);
    if st != [] {
      StripFacts(transcript);
      SplitAfterTerminatorsFacts(st);
      StripKeepsFirst(pieces[0]);
      assert CleanPieces(pieces) == [Strip(pieces[0])] + CleanPieces(pieces[1..]);
    }
  }

  /** Phrases that often open a new speaker's turn. */
  function NewSpeakerIndicators(): seq<string>
  {
    [
      "yes", "no", "I think", "I believe", "so,", "well,", "actually",
      "to be honest", "in my opinion", "I agree", "I disagree",
      "let me", "I'd like to", "I would", "you know", "um", "uh",
      "hmm", "but", "however", "from my perspective", "wait", "okay",
      "right", "sure", "exactly", "absolutely", "definitely", "perhaps",
      "look", "listen", "basically", "frankly", "honestly", "now", "so",
      "thank you", "thanks", "good point", "interesting", "true", "correct",
      "first of all", "firstly", "secondly", "finally", "in conclusion"
    ]
  }

  /** Phrases that suggest the same speaker goes on. */
  function ContinuationIndicators(): seq<string>
  {
    [
      "and", "also", "additionally", "moreover", "furthermore", "plus",
      "then", "after that", "next", "finally", "lastly", "in addition",
      "consequently", "as a result", "therefore", "thus", "besides",
      "for example", "specifically", "in particular", "especially",
      "because", "since", "due to", "as such", "which means"
    ]
  }

  /** The alternatives of `^(It|This|That|These|Those|They|He|She|We|I)\b`. */
  function PronounOpeners(): seq<string> { ["It", "This", "That", "These", "Those", "They", "He", "She", "We", "I"] }

  /** `sentence.lower().startswith(indicator.lower())` */
  predicate OpensWith(sentence: string, indicator: string)
  {
    StartsWith(Lower(sentence), Lower(indicator))
  }

  /** `any(...)` over the list: some indicator opens the sentence. */
  predicate OpensWithAny(sentence: string, indicators: seq<string>)
  {
    |indicators| > 0 && (OpensWith(sentence, indicators[0]) || OpensWithAny(sentence, indicators[1..]))
  }

  lemma {:induction false} OpensWithAnyIff(sentence: string, indicators: seq<string>)
    ensures OpensWithAny(sentence, indicators) <==> exists k :: 0 <= k < |indicators| && OpensWith(sentence, indicators[k])
  {
    if |indicators| > 0 {
      var tail := indicators[1..];
      OpensWithAnyIff(sentence, tail);
      if exists k :: 0 <= k < |indicators| && OpensWith(sentence, indicators[k]) {
        var k :| 0 <= k < |indicators| && OpensWith(sentence, indicators[k]);
        if k > 0 {
          assert tail[k - 1] == indicators[k];
        }
      }
      if exists k :: 0 <= k < |tail| && OpensWith(sentence, tail[k]) {
        var k :| 0 <= k < |tail| && OpensWith(sentence, tail[k]);
        assert indicators[k + 1] == tail[k];
      }
    }
  }

  /** `word` matches the start of `s` ignoring case, followed by a word boundary. */
  predicate OpensWithWord(s: string, word: string)
  {
    |word| <= |s|
    && (forall j :: 0 <= j < |word| ==> RegexFold(s[j]) == RegexFold(word[j]))
    && (|word| == |s| || !IsWordChar(s[|word|]))
  }

  /** Some alternative of the list matches at the start of the sentence. */
  predicate OpensWithAnyWord(sentence: string, words: seq<string>)
  {
    |words| > 0 && (OpensWithWord(sentence, words[0]) || OpensWithAnyWord(sentence, words[1..]))
  }

  /** The pronoun test, matched case-insensitively at the start of the sentence. */
  predicate OpensWithPronoun(sentence: string)
  {
    OpensWithAnyWord(sentence, PronounOpeners())
  }

  /** Rules 2 to 5 of the cascade: sentence `s`, following sentence `prev` while the
      open paragraph holds `paraLen` sentences, starts a new paragraph. */
  predicate Breaks(prev: string, s: string, paraLen: nat)
  {
    EndsWith(prev, '?')
    || OpensWithAny(s, NewSpeakerIndicators())
    || (!OpensWithAny(s, ContinuationIndicators()) && !OpensWithPronoun(s) && paraLen >= 2)
    || paraLen >= 4
  }

  /** A boundary rule: does a sentence, following a given sentence while the open
      paragraph holds a given number of sentences, start a new paragraph? The
      grouping below is stated for any rule; the loop uses `Breaks`. */
  type Cut = (string, string, nat) -> bool

  /** The whole cascade for sentence `i`; rule 1 is "the first sentence". */
  predicate StartsParagraph(ss: seq<string>, cut: Cut, i: nat, paraLen: nat)
    requires i < |ss|
  {
    i == 0 || cut(ss[i - 1], ss[i], paraLen)
  }

  /** The grouping loop from sentence `i` on, with open paragraph `cur` and the
      paragraphs `done` already closed. */
  function GroupFrom(ss: seq<string>, cut: Cut, i: nat, cur: seq<string>, done: seq<seq<string>>): seq<seq<string>>
    requires i <= |ss|
    decreases |ss| - i
  {
    if i == |ss| then
      (if cur == [] then done else done + [cur])
    else if StartsParagraph(ss, cut, i, |cur|) && cur != [] then
      GroupFrom(ss, cut, i + 1, [ss[i]], done + [cur])
    else
      GroupFrom(ss, cut, i + 1, cur + [ss[i]], done)
  }

  function GroupingBy(ss: seq<string>, cut: Cut): seq<seq<string>>
  {
    GroupFrom(ss, cut, 0, [], [])
  }

  /** Each group of sentences joined with single spaces. */
  function JoinEach(groups: seq<seq<string>>): (r: seq<string>)
    ensures |r| == |groups|
  {
    seq(|groups|, k requires 0 <= k < |groups| => Join(" ", groups[k]))
  }

  /** The paragraphs of a transcript. */
  function Paragraphs(transcript: string): seq<string>
  {
    JoinEach(GroupingBy(Sentences(transcript), Breaks))
  }

  /** `_create_improved_paragraphs`: the transcript's sentences, grouped. */
  method CreateImprovedParagraphs(transcript: string) returns (paragraphs: seq<string>)
    ensures paragraphs == Paragraphs(transcript)
  {
    var sentences := Sentences(transcript);
    paragraphs := GroupSentences(sentences, Breaks);
  }

  /** The grouping loop of `_create_improved_paragraphs`: walks the sentences once,
      closing the open paragraph whenever the boundary rule (the cascade, `Breaks`)
      says a new one starts. */
  method GroupSentences(sentences: seq<string>, cut: Cut) returns (paragraphs: seq<string>)
    ensures paragraphs == JoinEach(GroupingBy(sentences, cut))
  {
    paragraphs := [];
    var currentPara: seq<string> := [];
    ghost var done: seq<seq<string>> := [];
    var i := 0;
    while i < |sentences|
      invariant 0 <= i <= |sentences|
      invariant paragraphs == JoinEach(done)
      invariant GroupFrom(sentences, cut, i, currentPara, done) == GroupingBy(sentences, cut)
    {
      var sentence := sentences[i];
      var startNewPara := i == 0 || cut(sentences[i - 1], sentence, |currentPara|);
      GroupFromStep(sentences, cut, i, currentPara, done, startNewPara);
      if startNewPara && currentPara != [] {
        JoinEachSnoc(done, currentPara);
        paragraphs := paragraphs + [Join(" ", currentPara)];
        done := done + [currentPara];
        currentPara := [];
        assert currentPara + [sentence] == [sentence];
      }
      currentPara := currentPara + [sentence];
      i := i + 1;
    }
    GroupFromEnd(sentences, cut, currentPara, done);
    if currentPara != [] {
      JoinEachSnoc(done, currentPara);
      paragraphs := paragraphs + [Join(" ", currentPara)];
      done := done + [currentPara];
    }
  }

  /** One step of the grouping loop, with the cascade's verdict named `start`. */
  lemma GroupFromStep(ss: seq<string>, cut: Cut, i: nat, cur: seq<string>, done: seq<seq<string>>, start: bool)
    requires i < |ss| && start == StartsParagraph(ss, cut, i, |cur|)
    ensures GroupFrom(ss, cut, i, cur, done) ==
      if start && cur != [] then GroupFrom(ss, cut, i + 1, [ss[i]], done + [cur])
      else GroupFrom(ss, cut, i + 1, cur + [ss[i]], done)
  {
  }

  /** The end of the grouping loop closes the open paragraph, if any. */
  lemma GroupFromEnd(ss: seq<string>, cut: Cut, cur: seq<string>, done: seq<seq<string>>)
    ensures GroupFrom(ss, cut, |ss|, cur, done) == if cur == [] then done else done + [cur]
  {
  }

  /** Closing one more paragraph adds its join at the end. */
  lemma JoinEachSnoc(groups: seq<seq<string>>, g: seq<string>)
    ensures JoinEach(groups + [g]) == JoinEach(groups) + [Join(" ", g)]
  {
  }

  /** Sentence `j` of `s` meets the rule when the paragraph before it holds `j`
      sentences. */
  predicate BreaksAt(s: seq<string>, cut: Cut, j: int)
    requires 1 <= j < |s|
  {
    cut(s[j - 1], s[j], j)
  }

  /** The rule fires nowhere inside the paragraph. */
  predicate HoldsTogether(g: seq<string>, cut: Cut)
  {
    |g| > 0 && forall j :: 1 <= j < |g| ==> !BreaksAt(g, cut, j)
  }

  /** The rule fires where paragraph `q` follows paragraph `p`. */
  predicate BoundaryBreaks(p: seq<string>, q: seq<string>, cut: Cut)
  {
    |p| > 0 && |q| > 0 && cut(Last(p), q[0], |p|)
  }

  /** The rule fires at every boundary between consecutive paragraphs. */
  predicate BreaksBetween(groups: seq<seq<string>>, cut: Cut)
  {
    forall k :: 0 <= k < |groups| - 1 ==> BoundaryBreaks(groups[k], groups[k + 1], cut)
  }

  /** A well-formed partition of `ss` into paragraphs: concatenated they give the
      sentences back, the rule fires nowhere inside a paragraph and it fires between
      any two. */
  predicate IsParagraphing(ss: seq<string>, groups: seq<seq<string>>, cut: Cut)
  {
    Flatten(groups) == ss
    && (forall k :: 0 <= k < |groups| ==> HoldsTogether(groups[k], cut))
    && BreaksBetween(groups, cut)
  }

  /** The state of the grouping loop before sentence `i`. */
  predicate Building(ss: seq<string>, cut: Cut, i: nat, cur: seq<string>, done: seq<seq<string>>)
  {
    i <= |ss|
    && Flatten(done) + cur == ss[..i]
    && (forall k :: 0 <= k < |done| ==> HoldsTogether(done[k], cut))
    && BreaksBetween(done, cut)
    && (cur == [] <==> i == 0)
    && (i == 0 ==> done == [])
    && (cur != [] ==> HoldsTogether(cur, cut))
    && (|done| > 0 && cur != [] ==> BoundaryBreaks(Last(done), cur, cut))
  }

  lemma HoldsTogetherSnoc(cur: seq<string>, cut: Cut, x: string)
    requires HoldsTogether(cur, cut) && !cut(Last(cur), x, |cur|)
    ensures HoldsTogether(cur + [x], cut)
  {
    var c := cur + [x];
    forall j | 1 <= j < |c|
      ensures !BreaksAt(c, cut, j)
    {
      if j < |cur| {
        assert c[j - 1] == cur[j - 1] && c[j] == cur[j];
        assert !BreaksAt(cur, cut, j);
      }
    }
  }

  lemma BreaksBetweenSnoc(done: seq<seq<string>>, cut: Cut, cur: seq<string>)
    requires BreaksBetween(done, cut) && |cur| > 0
    requires |done| > 0 ==> BoundaryBreaks(Last(done), cur, cut)
    ensures BreaksBetween(done + [cur], cut)
  {
    var g := done + [cur];
    forall k | 0 <= k < |g| - 1
      ensures BoundaryBreaks(g[k], g[k + 1], cut)
    {
      if k + 1 < |done| {
        assert BoundaryBreaks(done[k], done[k + 1], cut);
      }
    }
  }

  lemma BuildingClose(ss: seq<string>, cut: Cut, i: nat, cur: seq<string>, done: seq<seq<string>>)
    requires Building(ss, cut, i, cur, done) && i < |ss| && cur != []
    requires cut(ss[i - 1], ss[i], |cur|)
    ensures Building(ss, cut, i + 1, [ss[i]], done + [cur])
  {
    assert (Flatten(done) + cur)[i - 1] == ss[i - 1];
    assert Last(cur) == ss[i - 1];
    FlattenAppend(done, [cur]);
    FlattenOne(cur);
    assert Flatten(done + [cur]) + [ss[i]] == ss[..i + 1];
    BreaksBetweenSnoc(done, cut, cur);
    var g := done + [cur];
    assert forall k :: 0 <= k < |done| ==> g[k] == done[k];
    assert HoldsTogether([ss[i]], cut);
  }

  lemma BuildingExtend(ss: seq<string>, cut: Cut, i: nat, cur: seq<string>, done: seq<seq<string>>)
    requires Building(ss, cut, i, cur, done) && i < |ss|
    requires cur != [] ==> !cut(ss[i - 1], ss[i], |cur|)
    ensures Building(ss, cut, i + 1, cur + [ss[i]], done)
  {
    assert Flatten(done) + (cur + [ss[i]]) == ss[..i + 1];
    if cur != [] {
      assert (Flatten(done) + cur)[i - 1] == ss[i - 1];
      assert Last(cur) == ss[i - 1];
      HoldsTogetherSnoc(cur, cut, ss[i]);
    } else {
      assert HoldsTogether([ss[i]], cut);
    }
  }

  lemma BuildingFinish(ss: seq<string>, cut: Cut, cur: seq<string>, done: seq<seq<string>>)
    requires Building(ss, cut, |ss|, cur, done)
    ensures IsParagraphing(ss, if cur == [] then done else done + [cur], cut)
  {
    assert ss[..|ss|] == ss;
    if cur != [] {
      FlattenAppend(done, [cur]);
      FlattenOne(cur);
      BreaksBetweenSnoc(done, cut, cur);
      var g := done + [cur];
      assert forall k :: 0 <= k < |done| ==> g[k] == done[k];
    }
  }

  lemma {:induction false} GroupFromParagraphing(ss: seq<string>, cut: Cut, i: nat, cur: seq<string>, done: seq<seq<string>>)
    requires Building(ss, cut, i, cur, done)
    ensures IsParagraphing(ss, GroupFrom(ss, cut, i, cur, done), cut)
    decreases |ss| - i
  {
    if i == |ss| {
      BuildingFinish(ss, cut, cur, done);
    } else if StartsParagraph(ss, cut, i, |cur|) && cur != [] {
      BuildingClose(ss, cut, i, cur, done);
      GroupFromParagraphing(ss, cut, i + 1, [ss[i]], done + [cur]);
    } else {
      BuildingExtend(ss, cut, i, cur, done);
      GroupFromParagraphing(ss, cut, i + 1, cur + [ss[i]], done);
    }
  }

  /** The grouping is a well-formed paragraphing of the sentences. */
  lemma GroupingIsParagraphing(ss: seq<string>, cut: Cut)
    ensures IsParagraphing(ss, GroupingBy(ss, cut), cut)
  {
    GroupFromParagraphing(ss, cut, 0, [], []);
  }

  lemma FlattenFront<T>(g: seq<seq<T>>)
    requires g != []
    ensures Flatten(g) == g[0] + Flatten(g[1..])
  {
    FlattenAppend([g[0]], g[1..]);
    FlattenOne(g[0]);
    assert g == [g[0]] + g[1..];
  }

  lemma {:induction false} FlattenLength(groups: seq<seq<string>>)
    requires forall k :: 0 <= k < |groups| ==> |groups[k]| > 0
    ensures |Flatten(groups)| >= |groups|
  {
    if groups != [] {
      FlattenFront(groups);
      FlattenLength(groups[1..]);
    }
  }

  /** The first sentence at or after `from` where the rule fires, counting the
      sentences before it as the open paragraph; `|ss|` when there is none. */
  function FirstBreak(ss: seq<string>, cut: Cut, from: nat): (r: nat)
    requires 1 <= from <= |ss|
    ensures from <= r <= |ss|
    ensures r < |ss| ==> BreaksAt(ss, cut, r)
    ensures forall k :: from <= k < r ==> !BreaksAt(ss, cut, k)
    decreases |ss| - from
  {
    if from == |ss| || BreaksAt(ss, cut, from) then from else FirstBreak(ss, cut, from + 1)
  }

  /** The rule fires nowhere inside a paragraph that opens the sentence list. */
  lemma PrefixHoldsTogether(ss: seq<string>, cut: Cut, a: seq<string>)
    requires HoldsTogether(a, cut) && |a| <= |ss| && a == ss[..|a|]
    ensures forall j :: 1 <= j < |a| ==> !BreaksAt(ss, cut, j)
  {
    forall j | 1 <= j < |a|
      ensures !BreaksAt(ss, cut, j)
    {
      assert a[j - 1] == ss[j - 1] && a[j] == ss[j];
      assert !BreaksAt(a, cut, j);
    }
  }

  /** A second paragraph starts where the rule fires. */
  lemma SecondGroupBreaks(ss: seq<string>, g: seq<seq<string>>, cut: Cut)
    requires IsParagraphing(ss, g, cut) && |g| > 1
    ensures |g[0]| < |ss| && BreaksAt(ss, cut, |g[0]|)
  {
    FlattenFront(g);
    FlattenFront(g[1..]);
    assert BoundaryBreaks(g[0], g[1], cut);
    assert g[1][0] == ss[|g[0]|];
    assert Last(g[0]) == ss[|g[0]| - 1];
  }

  /** In any paragraphing, the first paragraph runs up to the first break. */
  lemma FirstGroupLength(ss: seq<string>, g: seq<seq<string>>, cut: Cut)
    requires IsParagraphing(ss, g, cut) && g != []
    ensures 1 <= |g[0]| <= |ss| && |g[0]| == FirstBreak(ss, cut, 1)
  {
    FlattenFront(g);
    PrefixHoldsTogether(ss, cut, g[0]);
    if |g| > 1 {
      SecondGroupBreaks(ss, g, cut);
    }
  }

  lemma ParagraphingTail(ss: seq<string>, g: seq<seq<string>>, cut: Cut)
    requires IsParagraphing(ss, g, cut) && g != []
    ensures |g[0]| <= |ss| && IsParagraphing(ss[|g[0]|..], g[1..], cut)
  {
    FlattenFront(g);
    var t := g[1..];
    forall k | 0 <= k < |t| - 1
      ensures BoundaryBreaks(t[k], t[k + 1], cut)
    {
      assert BoundaryBreaks(g[k + 1], g[k + 2], cut);
    }
  }

  /** A paragraphing is unique: any partition in which the rule fires nowhere
      inside a paragraph and fires between paragraphs is the one the loop builds. */
  lemma {:induction false} ParagraphingUnique(ss: seq<string>, g1: seq<seq<string>>, g2: seq<seq<string>>, cut: Cut)
    requires IsParagraphing(ss, g1, cut) && IsParagraphing(ss, g2, cut)
    ensures g1 == g2
    decreases |ss|
  {
    FlattenLength(g1);
    FlattenLength(g2);
    if ss != [] {
      FirstGroupLength(ss, g1, cut);
      FirstGroupLength(ss, g2, cut);
      FlattenFront(g1);
      FlattenFront(g2);
      ParagraphingTail(ss, g1, cut);
      ParagraphingTail(ss, g2, cut);
      ParagraphingUnique(ss[|g1[0]|..], g1[1..], g2[1..], cut);
      assert g1 == [g1[0]] + g1[1..];
      assert g2 == [g2[0]] + g2[1..];
    }
  }

  /** Hence the paragraphs are exactly the joins of the unique paragraphing of the
      transcript's sentences under the cascade. */
  lemma ParagraphsCharacterised(transcript: string, groups: seq<seq<string>>)
    requires IsParagraphing(Sentences(transcript), groups, Breaks)
    ensures Paragraphs(transcript) == JoinEach(groups)
  {
    var ss := Sentences(transcript);
    GroupingIsParagraphing(ss, Breaks);
    ParagraphingUnique(ss, groups, GroupingBy(ss, Breaks), Breaks);
  }

  /** What holding together under the cascade means for one paragraph: at most four
      sentences, no question before its last sentence, no new-speaker phrase after
      its first, and from the third sentence on each one continues or opens with a
      pronoun. */
  lemma ParagraphRules(g: seq<string>)
    requires HoldsTogether(g, Breaks)
    ensures 1 <= |g| <= 4
    ensures forall j :: 0 <= j < |g| - 1 ==> !EndsWith(g[j], '?')
    ensures forall j :: 1 <= j < |g| ==> !OpensWithAny(g[j], NewSpeakerIndicators())
    ensures forall j :: 2 <= j < |g| ==> OpensWithAny(g[j], ContinuationIndicators()) || OpensWithPronoun(g[j])
  {
    var n := |g| - 1;
    if n >= 1 {
      assert !BreaksAt(g, Breaks, n);
    }
    forall j | 0 <= j < |g| - 1
      ensures !EndsWith(g[j], '?')
    {
      assert !BreaksAt(g, Breaks, j + 1);
    }
    forall j | 1 <= j < |g|
      ensures !OpensWithAny(g[j], NewSpeakerIndicators())
      ensures j >= 2 ==> OpensWithAny(g[j], ContinuationIndicators()) || OpensWithPronoun(g[j])
    {
      assert !BreaksAt(g, Breaks, j);
    }
  }

  /** Every paragraph of a transcript holds one to four sentences, and a sentence
      ending in '?' is always the last of its paragraph. */
  lemma ParagraphsObeyRules(transcript: string)
    ensures var groups := GroupingBy(Sentences(transcript), Breaks);
      forall k :: 0 <= k < |groups| ==>
        && 1 <= |groups[k]| <= 4
        && forall j :: 0 <= j < |groups[k]| - 1 ==> !EndsWith(groups[k][j], '?')
  {
    var groups := GroupingBy(Sentences(transcript), Breaks);
    GroupingIsParagraphing(Sentences(transcript), Breaks);
    forall k | 0 <= k < |groups|
      ensures 1 <= |groups[k]| <= 4
      ensures forall j :: 0 <= j < |groups[k]| - 1 ==> !EndsWith(groups[k][j], '?')
    {
      ParagraphRules(groups[k]);
    }
  }

  /** Paragraphing only regroups: the paragraphs, joined with spaces, read exactly
      like the sentences joined with spaces. */
  lemma {:induction false} JoinEachFlatten(groups: seq<seq<string>>)
    requires forall k :: 0 <= k < |groups| ==> |groups[k]| > 0
    ensures Join(" ", JoinEach(groups)) == Join(" ", Flatten(groups))
  {
    if |groups| > 0 {
      var rest := groups[1..];
      FlattenFront(groups);
      assert JoinEach(groups) == [Join(" ", groups[0])] + JoinEach(rest);
      if |rest| > 0 {
        JoinEachFlatten(rest);
        JoinAppend(" ", [Join(" ", groups[0])], JoinEach(rest));
        FlattenLength(rest);
        JoinAppend(" ", groups[0], Flatten(rest));
      } else {
        assert Flatten(rest) == [];
        assert Flatten(groups) == groups[0];
        assert JoinEach(groups) == [Join(" ", groups[0])];
        assert Join(" ", [Join(" ", groups[0])]) == Join(" ", groups[0]);
      }
    }
  }

  /** The paragraphs read exactly like the sentences joined with spaces. */
  lemma ParagraphsPreserveText(transcript: string)
    ensures Join(" ", Paragraphs(transcript)) == Join(" ", Sentences(transcript))
  {
    var ss := Sentences(transcript);
    GroupingIsParagraphing(ss, Breaks);
    JoinEachFlatten(GroupingBy(ss, Breaks));
  }

  /** A transcript yields no paragraph exactly when it is blank. */
  lemma ParagraphsEmptyIffBlank(transcript: string)
    ensures Paragraphs(transcript) == [] <==> forall k :: 0 <= k < |transcript| ==> IsSpace(transcript[k])
  {
    var ss := Sentences(transcript);
    SentencesEmptyIffBlank(transcript);
    GroupingIsParagraphing(ss, Breaks);
    FlattenLength(GroupingBy(ss, Breaks));
  }
}
