/** Generic facts about sequences of sequences, used by the paragraph, chunk and line
    groupings of the model. */
module Seqs {

  /** Concatenation of all groups, in order (Python's `sum(groups, [])`). */
  function Flatten<T>(groups: seq<seq<T>>): seq<T>
  {
    if groups == [] then [] else groups[0] + Flatten(groups[1..])
  }

  function Last<T>(s: seq<T>): T
    requires |s| > 0
  {
    s[|s| - 1]
  }

  lemma {:induction false} FlattenAppend<T>(a: seq<seq<T>>, b: seq<seq<T>>)
    ensures Flatten(a + b) == Flatten(a) + Flatten(b)
  {
    if a == [] {
      assert a + b == b;
    } else {
      assert (a + b)[1..] == a[1..] + b;
      FlattenAppend(a[1..], b);
    }
  }

  lemma FlattenOne<T>(g: seq<T>)
    ensures Flatten([g]) == g
  {
    assert [g][1..] == [];
  }
}
