/** The nearest-rank percentile of a list of latencies. */
module NearestRank {
  import opened Strings

  function Insert(v: real, s: seq<real>): seq<real> {
    if s == [] || v <= s[0] then [v] + s else [s[0]] + Insert(v, s[1..])
  }

  function Sorted(values: seq<real>): seq<real> {
    if values == [] then [] else Insert(values[0], Sorted(values[1..]))
  }

  /** The rank of the fraction p / q among n values, rounded up, but at least the first. */
  function Rank(n: nat, p: nat, q: nat): (r: nat)
    requires q > 0
  {
    var r := (n * p + q - 1) / q;
    if r == 0 then 1 else r
  }

  function AtMost(s: seq<real>, r: real): nat {
    if s == [] then 0 else AtMost(s[1..], r) + if s[0] <= r then 1 else 0
  }

  function Below(s: seq<real>, r: real): nat {
    if s == [] then 0 else Below(s[1..], r) + if s[0] < r then 1 else 0
  }

  ghost predicate Ascending(s: seq<real>) {
    forall i, j | 0 <= i < j < |s| :: s[i] <= s[j]
  }

  lemma {:induction false} InsertFacts(v: real, s: seq<real>, r: real)
    ensures |Insert(v, s)| == |s| + 1
    ensures forall x :: x in Insert(v, s) <==> x == v || x in s
    ensures AtMost(Insert(v, s), r) == AtMost(s, r) + if v <= r then 1 else 0
    ensures Below(Insert(v, s), r) == Below(s, r) + if v < r then 1 else 0
  {
    if s != [] && s[0] < v {
      InsertFacts(v, s[1..], r);
      assert s == [s[0]] + s[1..];
    } else {
      assert ([v] + s)[1..] == s;
    }
  }

  lemma {:induction false} InsertAscending(v: real, s: seq<real>)
    requires Ascending(s)
    ensures Ascending(Insert(v, s))
  {
    if s != [] && s[0] < v {
      InsertAscending(v, s[1..]);
      InsertFacts(v, s[1..], v);
      var rest := Insert(v, s[1..]);
      forall i | 0 <= i < |rest|
        ensures s[0] <= rest[i]
      {
        assert rest[i] in rest;
      }
    }
  }

  lemma {:induction false} SortedFacts(values: seq<real>, r: real)
    ensures |Sorted(values)| == |values| && Ascending(Sorted(values))
    ensures forall x :: x in Sorted(values) <==> x in values
    ensures AtMost(Sorted(values), r) == AtMost(values, r) && Below(Sorted(values), r) == Below(values, r)
  {
    if values != [] {
      SortedFacts(values[1..], r);
      InsertFacts(values[0], Sorted(values[1..]), r);
      InsertAscending(values[0], Sorted(values[1..]));
      assert values == [values[0]] + values[1..];
    }
  }

  /** In an ascending list at least k + 1 elements are at most the one at k, and at most k are below it. */
  lemma {:induction false} CountAt(s: seq<real>, k: nat, r: real)
    requires Ascending(s) && k < |s| && r == s[k]
    ensures AtMost(s, r) > k && Below(s, r) <= k
  {
    if k > 0 {
      CountAt(s[1..], k - 1, r);
    } else {
      NoneBelow(s, r);
    }
  }

  lemma {:induction false} NoneBelow(s: seq<real>, r: real)
    requires forall i | 0 <= i < |s| :: r <= s[i]
    ensures Below(s, r) == 0
  {
    if s != [] {
      NoneBelow(s[1..], r);
    }
  }

  lemma {:induction false} TimesLess(a: int, b: int, q: nat)
    requires a * q < b * q
    ensures a < b
  {
  }

  lemma {:induction false} Ceiling(total: nat, q: nat)
    requires q > 0
    ensures var r := (total + q - 1) / q; r * q >= total && (total > 0 ==> (r - 1) * q < total)
  {
  }

  lemma {:induction false} RankBounds(n: nat, p: nat, q: nat)
    requires 0 < n && 0 < q && p <= q
    ensures 1 <= Rank(n, p, q) <= n
    ensures p == 0 ==> Rank(n, p, q) == 1
    ensures Rank(n, p, q) * q >= n * p && (p > 0 ==> (Rank(n, p, q) - 1) * q < n * p)
  {
    var total := n * p;
    var r := (total + q - 1) / q;
    Ceiling(total, q);
    assert total <= n * q;
    if total > 0 {
      TimesLess(r - 1, n, q);
    }
    assert p > 0 ==> total > 0;
    assert total > 0 && r == 0 ==> r * q == 0;
  }

  /** `r` is an element that at least the fraction of all elements do not exceed, while less than the fraction lie below it. */
  ghost predicate IsPercentile(values: seq<real>, p: nat, q: nat, r: real) {
    r in values && AtMost(values, r) * q >= |values| * p && Below(values, r) * q < |values| * p
  }

  method Percentile(values: seq<real>, p: nat, q: nat) returns (r: Option<real>)
    requires 0 < q && p <= q
    ensures r == None <==> values == []
    ensures r.Some? && p > 0 ==> IsPercentile(values, p, q, r.value)
    ensures r.Some? && p == 0 ==> r.value in values && Below(values, r.value) == 0
  {
    if values == [] {
      return None;
    }
    SortedFacts(values, 0.0);
    RankBounds(|values|, p, q);
    RankedIsPercentile(values, p, q, Rank(|values|, p, q));
    r := Some(Sorted(values)[Rank(|values|, p, q) - 1]);
  }

  lemma {:induction false} RankedIsPercentile(values: seq<real>, p: nat, q: nat, rank: nat)
    requires 0 < q && 1 <= rank <= |values| == |Sorted(values)|
    requires rank * q >= |values| * p && (p > 0 ==> (rank - 1) * q < |values| * p) && (p == 0 ==> rank == 1)
    ensures p > 0 ==> IsPercentile(values, p, q, Sorted(values)[rank - 1])
    ensures p == 0 ==> Sorted(values)[rank - 1] in values && Below(values, Sorted(values)[rank - 1]) == 0
  {
    var s := Sorted(values);
    var r := s[rank - 1];
    SortedFacts(values, r);
    CountAt(s, rank - 1, r);
    assert r in s;
    RankCounts(|values| * p, q, p > 0, rank, AtMost(values, r), Below(values, r));
  }

  lemma {:induction false} RankCounts(total: nat, q: nat, some: bool, rank: nat, most: nat, below: nat)
    requires 0 < q && rank >= 1 && most >= rank && below <= rank - 1
    requires rank * q >= total && (some ==> (rank - 1) * q < total)
    ensures most * q >= total && (some ==> below * q < total)
  {
  }

  lemma {:induction false} CountsOrdered(s: seq<real>, a: real, b: real)
    requires a < b
    ensures AtMost(s, a) <= Below(s, b)
  {
    if s != [] {
      CountsOrdered(s[1..], a, b);
    }
  }

  /** Fewer elements lie below one percentile than the other leaves at most. */
  lemma {:induction false} NotBelow(values: seq<real>, p: nat, q: nat, a: real, b: real)
    requires IsPercentile(values, p, q, a) && IsPercentile(values, p, q, b)
    ensures a >= b
  {
    var total := |values| * p;
    TimesLess(Below(values, b), AtMost(values, a), q);
    if a < b {
      CountsOrdered(values, a, b);
    }
  }

  /** There is only one such element, so the percentile does not depend on the order of the values. */
  lemma {:induction false} PercentileUnique(values: seq<real>, p: nat, q: nat, a: real, b: real)
    requires IsPercentile(values, p, q, a) && IsPercentile(values, p, q, b)
    ensures a == b
  {
    NotBelow(values, p, q, a, b);
    NotBelow(values, p, q, b, a);
  }
}
