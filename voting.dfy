/** Majority votes over speaker labels, as both diarization mappers take them: the
    votes are counted in a dictionary that remembers first-seen order, the winner is
    the first label with the highest count, and the winning diarization label
    (`SPEAKER_01`) becomes a display label (`Speaker 01`). */
module Voting {
  import opened Wrappers
  import opened Seqs
  import opened Text

  /** A dictionary from label to count, in insertion order. */
  type Counts = seq<(string, nat)>

  function Keys(c: Counts): (r: seq<string>)
    ensures |r| == |c| && forall i :: 0 <= i < |c| ==> r[i] == c[i].0
  {
    if c == [] then [] else [c[0].0] + Keys(c[1..])
  }

  predicate Distinct<T(==)>(s: seq<T>)
  {
    forall i, j :: 0 <= i < j < |s| ==> s[i] != s[j]
  }

  /** `d.get(key, 0)` */
  function CountOf(c: Counts, key: string): nat
  {
    if c == [] then 0 else if c[0].0 == key then c[0].1 else CountOf(c[1..], key)
  }

  /** `d[key] = d.get(key, 0) + 1`: an existing entry is incremented in place, a new
      key is appended with count 1. */
  function Bump(c: Counts, key: string): (r: Counts)
    ensures |r| >= |c|
  {
    if c == [] then [(key, 1)]
    else if c[0].0 == key then [(key, c[0].1 + 1)] + c[1..]
    else [c[0]] + Bump(c[1..], key)
  }

  /** Bumping appends a new key and leaves the order of the others; only the
      bumped key's count grows, by one. */
  lemma {:induction false} BumpCounts(c: Counts, key: string)
    ensures Keys(Bump(c, key)) == if key in Keys(c) then Keys(c) else Keys(c) + [key]
    ensures forall k :: CountOf(Bump(c, key), k) == CountOf(c, k) + (if k == key then 1 else 0)
  {
    if c != [] {
      var r := Bump(c, key);
      if c[0].0 == key {
        assert r[1..] == c[1..];
      } else {
        BumpCounts(c[1..], key);
        var tail := Bump(c[1..], key);
        assert r[1..] == tail;
        assert [c[0].0] + (Keys(c[1..]) + [key]) == ([c[0].0] + Keys(c[1..])) + [key];
      }
    }
  }

  /** The distinct votes in order of first appearance. */
  function FirstSeen(votes: seq<string>): (r: seq<string>)
    ensures Distinct(r)
    ensures forall x :: x in r <==> x in votes
  {
    if votes == [] then []
    else
      var init := votes[..|votes| - 1];
      assert votes == init + [Last(votes)];
      var d := FirstSeen(init);
      if Last(votes) in d then d else d + [Last(votes)]
  }

  /** `Counter(votes)`, or the dictionary built by bumping each vote in turn. */
  function Tally(votes: seq<string>): Counts
  {
    if votes == [] then [] else Bump(Tally(votes[..|votes| - 1]), Last(votes))
  }

  /** The tally holds each distinct vote once, in order of first appearance, with
      the number of times it was cast. */
  lemma {:induction false} TallyCounts(votes: seq<string>)
    ensures Keys(Tally(votes)) == FirstSeen(votes)
    ensures forall k :: CountOf(Tally(votes), k) == multiset(votes)[k]
  {
    if votes != [] {
      var init := votes[..|votes| - 1];
      assert votes == init + [Last(votes)];
      TallyCounts(init);
      BumpCounts(Tally(init), Last(votes));
    }
  }

  /** Counting one more vote bumps its entry. */
  lemma TallySnoc(votes: seq<string>, x: string)
    ensures Tally(votes + [x]) == Bump(Tally(votes), x)
  {
    assert (votes + [x])[..|votes|] == votes;
  }

  /** With distinct keys, the count stored at position `i` is the count of its key. */
  lemma {:induction false} CountAt(c: Counts, i: nat)
    requires Distinct(Keys(c)) && i < |c|
    ensures CountOf(c, c[i].0) == c[i].1
  {
    if i > 0 {
      assert Keys(c[1..])[i - 1] == Keys(c)[i];
      assert c[0].0 == Keys(c)[0] != Keys(c)[i];
      assert Distinct(Keys(c[1..])) by {
        forall a, b | 0 <= a < b < |c| - 1
          ensures Keys(c[1..])[a] != Keys(c[1..])[b]
        {
          assert Keys(c[1..])[a] == Keys(c)[a + 1] && Keys(c[1..])[b] == Keys(c)[b + 1];
        }
      }
      CountAt(c[1..], i - 1);
    }
  }

  /** `max(d.items(), key=count)` (and `Counter.most_common(1)`): the position of
      the first entry whose count is not exceeded by any other. */
  function FirstMax(c: Counts): (r: nat)
    requires |c| > 0
    ensures r < |c|
  {
    if |c| == 1 then 0
    else
      var best := FirstMax(c[..|c| - 1]);
      if c[|c| - 1].1 > c[best].1 then |c| - 1 else best
  }

  /** No entry has a higher count than the one at `FirstMax`, and every entry
      before it has a lower one. */
  lemma {:induction false} FirstMaxIsFirstMaximum(c: Counts)
    requires |c| > 0
    ensures forall i :: 0 <= i < |c| ==> c[i].1 <= c[FirstMax(c)].1
    ensures forall i :: 0 <= i < FirstMax(c) ==> c[i].1 < c[FirstMax(c)].1
  {
    if |c| > 1 {
      var init := c[..|c| - 1];
      FirstMaxIsFirstMaximum(init);
      assert forall i :: 0 <= i < |init| ==> init[i] == c[i];
    }
  }

  /** The most common vote; ties go to the label seen first; `None` without votes. */
  function MostCommon(votes: seq<string>): Option<string>
  {
    var c := Tally(votes);
    if c == [] then None else Some(c[FirstMax(c)].0)
  }

  /** The entry at `FirstMax` has the highest count of all votes. */
  lemma WinnerCountIsMax(votes: seq<string>)
    requires votes != []
    ensures Tally(votes) != []
    ensures var c := Tally(votes);
      forall x :: multiset(votes)[x] <= multiset(votes)[c[FirstMax(c)].0]
  {
    TallyCounts(votes);
    assert votes[0] in FirstSeen(votes);
    var c := Tally(votes);
    var m := FirstMax(c);
    CountAt(c, m);
    FirstMaxIsFirstMaximum(c);
    forall x
      ensures multiset(votes)[x] <= multiset(votes)[c[m].0]
    {
      if x in votes {
        assert x in Keys(c);
        var i :| 0 <= i < |c| && Keys(c)[i] == x;
        CountAt(c, i);
        assert CountOf(c, x) == c[i].1 <= c[m].1 == CountOf(c, c[m].0);
      } else {
        assert multiset(votes)[x] == 0;
      }
    }
  }

  /** Every label seen before the entry at `FirstMax` has strictly fewer votes. */
  lemma WinnerIsFirst(votes: seq<string>)
    requires votes != []
    ensures Tally(votes) != []
    ensures var c := Tally(votes); var w := c[FirstMax(c)].0;
      forall j :: 0 <= j < |FirstSeen(votes)| && FirstSeen(votes)[j] == w ==>
        forall i :: 0 <= i < j ==> multiset(votes)[FirstSeen(votes)[i]] < multiset(votes)[w]
  {
    TallyCounts(votes);
    assert votes[0] in FirstSeen(votes);
    var c := Tally(votes);
    var m := FirstMax(c);
    CountAt(c, m);
    FirstMaxIsFirstMaximum(c);
    forall j, i | 0 <= j < |c| && Keys(c)[j] == c[m].0 && 0 <= i < j
      ensures multiset(votes)[Keys(c)[i]] < multiset(votes)[c[m].0]
    {
      assert j == m;
      CountAt(c, i);
    }
  }

  /** The winner is a vote with the highest count, and every label first seen
      before it has strictly fewer votes; there is a winner exactly when there are
      votes. */
  lemma MostCommonIsMode(votes: seq<string>)
    ensures MostCommon(votes).None? <==> votes == []
    ensures MostCommon(votes).Some? ==>
      var w := MostCommon(votes).value;
      && w in votes
      && (forall x :: multiset(votes)[x] <= multiset(votes)[w])
      && (forall j :: 0 <= j < |FirstSeen(votes)| && FirstSeen(votes)[j] == w ==>
            forall i :: 0 <= i < j ==> multiset(votes)[FirstSeen(votes)[i]] < multiset(votes)[w])
  {
    if votes != [] {
      WinnerCountIsMax(votes);
      WinnerIsFirst(votes);
      var c := Tally(votes);
      TallyCounts(votes);
      assert c[FirstMax(c)].0 == Keys(c)[FirstMax(c)];
    }
  }

  /** `s.split('_')[-1]`: the part after the last underscore, or all of `s`. */
  function AfterLastUnderscore(s: string): (r: string)
    ensures |r| <= |s|
  {
    if s == [] || Last(s) == '_' then [] else AfterLastUnderscore(s[..|s| - 1]) + [Last(s)]
  }

  /** The part is a suffix without underscores, preceded by an underscore unless
      it is all of `s`. */
  lemma {:induction false} AfterLastUnderscoreSuffix(s: string)
    ensures var r := AfterLastUnderscore(s);
      && r == s[|s| - |r|..]
      && '_' !in r
      && (|r| < |s| ==> s[|s| - |r| - 1] == '_')
  {
    if s != [] && Last(s) != '_' {
      var init := s[..|s| - 1];
      AfterLastUnderscoreSuffix(init);
      var r := AfterLastUnderscore(init);
      assert init[|init| - |r|..] + [Last(s)] == s[|s| - 1 - |r|..];
      if |r| < |init| {
        assert s[|s| - |r| - 2] == init[|init| - |r| - 1];
      }
    }
  }

  /** The three properties determine the part after the last underscore. */
  lemma {:induction false} AfterLastUnderscoreUnique(s: string, t: string)
    requires |t| <= |s| && t == s[|s| - |t|..] && '_' !in t
    requires |t| < |s| ==> s[|s| - |t| - 1] == '_'
    ensures t == AfterLastUnderscore(s)
  {
    if s != [] {
      if Last(s) != '_' {
        assert |t| > 0;
        var init := s[..|s| - 1];
        var u := t[..|t| - 1];
        assert u == init[|init| - |u|..];
        if |u| < |init| {
          assert init[|init| - |u| - 1] == s[|s| - |t| - 1];
        }
        AfterLastUnderscoreUnique(init, u);
        assert t == u + [Last(s)];
      }
    }
  }

  /** Everything up to an underscore can be dropped. */
  lemma AfterUnderscoreSkip(s: string, i: nat)
    requires i < |s| && s[i] == '_'
    ensures AfterLastUnderscore(s) == AfterLastUnderscore(s[i + 1..])
  {
    var rest := s[i + 1..];
    var t := AfterLastUnderscore(rest);
    AfterLastUnderscoreSuffix(rest);
    var k := |s| - |t|;
    assert 0 < k <= |s|;
    assert t == s[k..] by {
      assert s[k..] == rest[|rest| - |t|..];
    }
    assert s[k - 1] == '_' by {
      if |t| < |rest| {
        assert s[k - 1] == rest[|rest| - |t| - 1];
      }
    }
    AfterLastUnderscoreUnique(s, t);
  }

  /** It is the last piece of Python's `s.split('_')`. */
  lemma {:induction false} AfterLastUnderscoreIsLastPiece(s: string)
    ensures AfterLastUnderscore(s) == Last(SplitOn(s, "_"))
    decreases |s|
  {
    var f := Find(s, "_");
    if f.None? {
      FindFirst(s, "_");
      assert '_' !in s by {
        forall j | 0 <= j < |s|
          ensures s[j] != '_'
        {
          assert !("_" <= s[j..]);
        }
      }
      AfterLastUnderscoreUnique(s, s);
      assert SplitOn(s, "_") == [s];
    } else {
      var i := f.value;
      var rest := s[i + 1..];
      assert s[i] == '_' by {
        assert s[i..i + 1] == "_";
      }
      AfterLastUnderscoreIsLastPiece(rest);
      assert Last(SplitOn(s, "_")) == Last(SplitOn(rest, "_")) by {
        assert SplitOn(s, "_") == [s[..i]] + SplitOn(rest, "_");
      }
      AfterUnderscoreSkip(s, i);
    }
  }

  /** The paragraph's speaker from its vote counts: `Speaker ` and the suffix of the
      label with the highest count (the first such), or `Speaker 1` when the counts
      are empty. */
  function CountsLabel(c: Counts): string
  {
    if c == [] then "Speaker 1" else "Speaker " + AfterLastUnderscore(c[FirstMax(c)].0)
  }

  /** The paragraph's speaker from its votes. */
  function SpeakerLabel(votes: seq<string>): (r: string)
    ensures votes == [] ==> r == "Speaker 1"
  {
    CountsLabel(Tally(votes))
  }

  /** The label names the suffix of a most common vote, the first seen on ties. */
  lemma SpeakerLabelOfWinner(votes: seq<string>)
    requires votes != []
    ensures MostCommon(votes).Some? && SpeakerLabel(votes) == "Speaker " + AfterLastUnderscore(MostCommon(votes).value)
    ensures exists w :: w in votes && (forall x :: multiset(votes)[x] <= multiset(votes)[w])
                        && (forall j :: 0 <= j < |FirstSeen(votes)| && FirstSeen(votes)[j] == w ==>
                              forall i :: 0 <= i < j ==> multiset(votes)[FirstSeen(votes)[i]] < multiset(votes)[w])
                        && SpeakerLabel(votes) == "Speaker " + AfterLastUnderscore(w)
  {
    MostCommonIsMode(votes);
  }
}
