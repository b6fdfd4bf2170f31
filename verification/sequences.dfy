/** Facts about sequences shared by the registry, deduplication and the scan cycle. */
module Sequences {

  /** Elements of a sequence without repeats. */
  predicate NoRepeats<T(==)>(s: seq<T>) {
    forall i, j :: 0 <= i < j < |s| ==> s[i] != s[j]
  }

  /** Appending keeps a sequence free of repeats exactly when the new element is new. */
  lemma NoRepeatsSnoc<T>(q: seq<T>, x: T)
    ensures NoRepeats(q + [x]) <==> NoRepeats(q) && x !in q
  {
    var s := q + [x];
    assert forall i :: 0 <= i < |q| ==> s[i] == q[i];
    if x in q {
      var i :| 0 <= i < |q| && q[i] == x;
      assert s[i] == s[|q|];
    }
  }

  /** A sequence without repeats has as many distinct elements as entries. */
  lemma {:induction false} CardOfNoRepeats<T>(s: seq<T>)
    requires NoRepeats(s)
    ensures |set x | x in s| == |s|
  {
    if |s| > 0 {
      var p := s[..|s| - 1];
      CardOfNoRepeats(p);
      assert (set x | x in s) == (set x | x in p) + {s[|s| - 1]};
    }
  }
}
