/** Attributed paragraphs and the quick consistency check that relabels a short turn
    sandwiched between two turns of one other speaker. */
module Segments {
  import opened Text

  /** One entry of the attributed transcript: `{"speaker": ..., "text": ...}`. */
  datatype Segment = Segment(speaker: string, text: string)

  /** Turns of fewer words than this may be relabelled. */
  const ShortTurnWords := 15

  /** Turn `i` (not the first or last) sits between two turns of one speaker, has a
      different speaker, and is short. */
  predicate Isolated(s: seq<Segment>, i: int)
    requires 0 < i < |s| - 1
  {
    s[i - 1].speaker == s[i + 1].speaker
    && s[i].speaker != s[i - 1].speaker
    && WordCount(s[i].text) < ShortTurnWords
  }

  /** The loop of `_quick_consistency_check` from index `i` on, over the list as
      already updated: each isolated turn takes its predecessor's speaker. */
  function RepairFrom(s: seq<Segment>, i: nat): (r: seq<Segment>)
    requires i >= 1
    ensures |r| == |s|
    decreases |s| - i
  {
    if i + 1 >= |s| then s
    else
      var next := if Isolated(s, i) then s[i := s[i].(speaker := s[i - 1].speaker)] else s;
      RepairFrom(next, i + 1)
  }

  /** `_quick_consistency_check`: lists of fewer than three turns are left alone. */
  function ConsistencyRepair(s: seq<Segment>): (r: seq<Segment>)
    ensures |r| == |s|
  {
    if |s| < 3 then s else RepairFrom(s, 1)
  }

  /** Reference definition of the repaired speaker of turn `i`: the first and last
      turns keep theirs; a middle turn takes the repaired speaker of its predecessor
      when that speaker also holds the (not yet repaired) next turn, differs from
      its own and the turn is short. */
  function RepairedSpeaker(s: seq<Segment>, i: nat): string
    requires i < |s|
  {
    if i == 0 || i == |s| - 1 then s[i].speaker
    else
      var p := RepairedSpeaker(s, i - 1);
      if p == s[i + 1].speaker && s[i].speaker != p && WordCount(s[i].text) < ShortTurnWords then p
      else s[i].speaker
  }

  function Expected(s: seq<Segment>): (r: seq<Segment>)
    ensures |r| == |s|
  {
    seq(|s|, j requires 0 <= j < |s| => Segment(RepairedSpeaker(s, j), s[j].text))
  }

  /** The state of the loop before index `i`: the turns before `i` carry their
      repaired speaker, the others are untouched. */
  predicate RepairedBefore(s0: seq<Segment>, cur: seq<Segment>, i: nat)
  {
    && |cur| == |s0|
    && (forall j :: 0 <= j < |s0| ==> cur[j].text == s0[j].text)
    && (forall j :: i <= j < |s0| ==> cur[j] == s0[j])
    && (forall j :: 0 <= j < i && j < |s0| ==> cur[j].speaker == RepairedSpeaker(s0, j))
  }

  lemma RepairDone(s0: seq<Segment>, cur: seq<Segment>, i: nat)
    requires 1 <= i && i + 1 >= |cur| && RepairedBefore(s0, cur, i)
    ensures RepairFrom(cur, i) == Expected(s0)
  {
    forall j | 0 <= j < |s0|
      ensures cur[j] == Expected(s0)[j]
    {
    }
  }

  /** One step of the loop moves the repaired prefix one turn further. */
  lemma RepairStep(s0: seq<Segment>, cur: seq<Segment>, i: nat) returns (next: seq<Segment>)
    requires 1 <= i && i + 1 < |cur| && RepairedBefore(s0, cur, i)
    ensures next == if Isolated(cur, i) then cur[i := cur[i].(speaker := cur[i - 1].speaker)] else cur
    ensures |next| == |cur|
    ensures RepairFrom(cur, i) == RepairFrom(next, i + 1)
    ensures RepairedBefore(s0, next, i + 1)
  {
    next := if Isolated(cur, i) then cur[i := cur[i].(speaker := cur[i - 1].speaker)] else cur;
    assert cur[i - 1].speaker == RepairedSpeaker(s0, i - 1);
    assert cur[i] == s0[i] && cur[i + 1] == s0[i + 1];
  }

  /** The consistency check computes the reference definition. */
  lemma ConsistencyRepairExpected(s: seq<Segment>)
    ensures ConsistencyRepair(s) == Expected(s)
  {
    if |s| < 3 {
      forall j | 0 <= j < |s|
        ensures s[j] == Expected(s)[j]
      {
      }
    } else {
      var cur, i := s, 1;
      while i + 1 < |cur|
        invariant 1 <= i && RepairedBefore(s, cur, i)
        invariant RepairFrom(s, 1) == RepairFrom(cur, i)
        decreases |cur| - i
      {
        cur := RepairStep(s, cur, i);
        i := i + 1;
      }
      RepairDone(s, cur, i);
    }
  }

  /** The check only relabels: same number of turns, same texts, first and last
      speakers kept, long turns kept, and a changed turn takes its predecessor's
      new speaker. */
  lemma ConsistencyRepairShape(s: seq<Segment>)
    ensures |ConsistencyRepair(s)| == |s|
    ensures forall i :: 0 <= i < |s| ==> ConsistencyRepair(s)[i].text == s[i].text
    ensures |s| > 0 ==> ConsistencyRepair(s)[0] == s[0] && ConsistencyRepair(s)[|s| - 1] == s[|s| - 1]
    ensures forall i :: 0 <= i < |s| && WordCount(s[i].text) >= ShortTurnWords ==> ConsistencyRepair(s)[i] == s[i]
    ensures forall i :: 0 < i < |s| && ConsistencyRepair(s)[i] != s[i] ==>
      ConsistencyRepair(s)[i].speaker == ConsistencyRepair(s)[i - 1].speaker
  {
    ConsistencyRepairExpected(s);
  }

  /** No isolated short turn survives the check. */
  lemma ConsistencyRepairLeavesNoIsolated(s: seq<Segment>)
    ensures forall i :: 0 < i < |s| - 1 ==> !Isolated(ConsistencyRepair(s), i)
  {
    ConsistencyRepairExpected(s);
    var r := ConsistencyRepair(s);
    forall i | 0 < i < |s| - 1
      ensures !Isolated(r, i)
    {
      assert r[i - 1].speaker == RepairedSpeaker(s, i - 1);
      assert r[i + 1].speaker == RepairedSpeaker(s, i + 1);
    }
  }

  /** A list without isolated short turns is left unchanged. */
  lemma {:induction false} NoIsolatedFixed(s: seq<Segment>)
    requires forall i :: 0 < i < |s| - 1 ==> !Isolated(s, i)
    ensures ConsistencyRepair(s) == s
  {
    ConsistencyRepairExpected(s);
    forall j | 0 <= j < |s|
      ensures RepairedSpeaker(s, j) == s[j].speaker
    {
      RepairedSpeakerKept(s, j);
    }
  }

  lemma {:induction false} RepairedSpeakerKept(s: seq<Segment>, j: nat)
    requires forall i :: 0 < i < |s| - 1 ==> !Isolated(s, i)
    requires j < |s|
    ensures RepairedSpeaker(s, j) == s[j].speaker
  {
    if 0 < j < |s| - 1 {
      RepairedSpeakerKept(s, j - 1);
      assert !Isolated(s, j);
    }
  }

  /** Running the check twice is the same as running it once. */
  lemma ConsistencyRepairIdempotent(s: seq<Segment>)
    ensures ConsistencyRepair(ConsistencyRepair(s)) == ConsistencyRepair(s)
  {
    ConsistencyRepairLeavesNoIsolated(s);
    ConsistencyRepairShape(s);
    NoIsolatedFixed(ConsistencyRepair(s));
  }

  /** The check reads each predecessor after its own update: in B, A, B, A the
      second turn becomes B, and then the third is no longer isolated. */
  lemma ConsistencyRepairIsSequential()
    ensures ConsistencyRepair([Segment("B", ""), Segment("A", ""), Segment("B", ""), Segment("A", "")])
         == [Segment("B", ""), Segment("B", ""), Segment("B", ""), Segment("A", "")]
  {
    var s := [Segment("B", ""), Segment("A", ""), Segment("B", ""), Segment("A", "")];
    assert WordCount("") == 0;
    assert Isolated(s, 1);
    var s1 := s[1 := Segment("B", "")];
    assert RepairFrom(s, 1) == RepairFrom(s1, 2);
    assert !Isolated(s1, 2);
    assert RepairFrom(s1, 2) == RepairFrom(s1, 3) == s1;
  }
}
