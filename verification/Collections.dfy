/** Finite collections. */
module Collections {
  predicate Distinct<T(==)>(s: seq<T>) {
    forall i, j | 0 <= i < j < |s| :: s[i] != s[j]
  }

  lemma {:induction false} SubsetSize<T>(a: set<T>, b: set<T>)
    requires a <= b
    ensures |a| <= |b|
  {
    assert b == a + (b - a);
  }

  /** At most one member more. */
  lemma {:induction false} OneMore<T>(before: set<T>, after: set<T>, x: T, more: bool)
    requires x !in before && forall y :: y in after <==> y in before || (more && y == x)
    ensures |after| == |before| + if more then 1 else 0
  {
    assert after == if more then before + {x} else before;
  }

  /** A number above all members. */
  lemma {:induction false} Above(s: set<nat>) returns (n: nat)
    ensures forall k: nat | k in s :: k < n
  {
    n := 0;
    if s != {} {
      var k :| k in s;
      var m := Above(s - {k});
      n := if m <= k then k + 1 else m;
      forall j: nat | j in s
        ensures j < n
      {
        assert j == k || j in s - {k};
      }
    }
  }

  lemma {:induction false} FreshId(used: set<nat>) returns (id: nat)
    ensures id !in used
  {
    id := Above(used);
    assert id in used ==> id < id;
  }
}
