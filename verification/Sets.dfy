/** The sizes of sets. */
module Sets {
  lemma SubsetOfSameSize<T>(a: set<T>, b: set<T>)
    requires a <= b
    ensures |a| <= |b|
    ensures |a| == |b| ==> a == b
  {
    assert b == a + (b - a);
    assert |b| == |a| + |b - a|;
  }

  /** A list of a set without repetition is as long as the set is large. */
  lemma {:induction false} ListOfSet<T>(items: seq<T>, s: set<T>)
    requires forall i, j :: 0 <= i < j < |items| ==> items[i] != items[j]
    requires forall x :: x in items <==> x in s
    ensures |items| == |s|
  {
    if items == [] {
      assert s == {};
    } else {
      var last, rest := items[|items| - 1], items[..|items| - 1];
      assert items == rest + [last];
      ListOfSet(rest, s - {last});
      assert s == (s - {last}) + {last};
    }
  }
}
