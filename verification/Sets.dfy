/** Small facts about finite sets of integers. */
module Sets {

  lemma Inhabited(s: set<int>)
    requires |s| > 0
    ensures exists x :: x in s
  {
    assert (forall x :: x !in s) ==> s == {};
  }

  lemma Differ(a: set<int>, b: set<int>)
    requires a != b
    ensures exists x :: !(x in a <==> x in b)
  {
    assert (forall x :: x in a <==> x in b) ==> a == b;
  }
}
