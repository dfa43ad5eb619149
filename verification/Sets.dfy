/** A finite set is empty or has an element to pick. */
module Sets {

  lemma EmptyOrInhabited<T>(s: set<T>)
    ensures |s| == 0 || exists x :: x in s
  {
    if forall x :: x !in s {
      assert s == {};
    }
  }

  lemma EmptyOrInhabitedInts(s: set<int>)
    ensures |s| == 0 || exists x :: x in s
  {
    if forall x :: x !in s {
      assert s == {};
    }
  }
}
