/** A few facts about sets and sequences. */
module Collections {
  predicate Distinct<T(==)>(s: seq<T>) {
    forall i, j :: 0 <= i < j < |s| ==> s[i] != s[j]
  }

  lemma SubsetSize<T>(a: set<T>, b: set<T>)
    requires a <= b
    ensures |a| <= |b| && (|a| == |b| ==> a == b)
  {
    assert b == a + (b - a);
    assert |b| == |a| + |b - a|;
  }

  /** One element less to do. */
  lemma MoveOne<T>(done: set<T>, todo: set<T>, x: T)
    requires x in todo && done !! todo
    ensures done + {x} + (todo - {x}) == done + todo && done + {x} !! todo - {x}
  {
  }
}
