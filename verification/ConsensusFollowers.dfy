/** What the runs after the representative add to the vote. */
module ConsensusFollowers {
  import opened Strings
  import opened Collections
  import opened FactKeys
  import opened Consensus
  import opened ConsensusLaws

  /** The record at position `i` of run `k` is accepted. */
  ghost predicate Takes(agreed: seq<Entry>, k: string, i: nat) {
    exists j | 0 <= j < |agreed| :: agreed[j].run == k && agreed[j].index == i
  }

  /** Some run ranked before `r` reports the key, or run `k` does before position `i`. */
  ghost predicate SeenBefore(b: Ballot, r: nat, k: string, i: nat, row: Row, key: Key)
    requires r <= |b.priority|
  {
    || (exists q | 0 <= q < r :: b.priority[q] in b.runs && b.Reports(b.priority[q], row, key))
    || (exists j | 0 <= j < i :: b.Holds(k, j, row, key))
  }

  /** Every record comes from a run of the priority order. */
  ghost predicate AllRanked(b: Ballot, agreed: seq<Entry>) {
    forall i | 0 <= i < |agreed| :: agreed[i].run in b.priority
  }

  /** The accepted records from runs ranked before `r`, in order. */
  function RankedBefore(b: Ballot, agreed: seq<Entry>, r: nat): seq<Entry>
    requires AllRanked(b, agreed)
  {
    if agreed == [] then [] else
      var last, before := agreed[|agreed| - 1], RankedBefore(b, agreed[..|agreed| - 1], r);
      if Rank(b.priority, last.run) < r then before + [last] else before
  }

  /** The texts of the accepted records of a row from runs ranked before `r`, joined by bars. */
  function TextBefore(b: Ballot, agreed: seq<Entry>, r: nat, row: Row): string
    requires AllRanked(b, agreed)
  {
    BarJoin(EntryBlobs(RankedBefore(b, agreed, r), row))
  }

  // What is present

  lemma {:induction false} JudgePresent(b: Ballot, accepted: seq<Entry>, s: State, k: string, i: nat, row: Row, key: Key)
    requires k in b.groups && i < |b.groups[k]|
    ensures (row, key) in Judge(b, accepted, s, k, i).present <==>
            (row, key) in s.present || (b.Supported(row, key) && b.Holds(k, i, row, key))
  {
  }

  lemma {:induction false} PassPresent(b: Ballot, s: State, k: string, n: nat, row: Row, key: Key)
    requires k in b.groups && n <= |b.groups[k]|
    ensures (row, key) in Pass(b, s, k, n).present <==>
            (row, key) in s.present || (b.Supported(row, key) && exists j | 0 <= j < n :: b.Holds(k, j, row, key))
  {
    if n > 0 {
      PassPresent(b, s, k, n - 1, row, key);
      JudgePresent(b, s.agreed, Pass(b, s, k, n - 1), k, n - 1, row, key);
    }
  }

  ghost predicate ReportedBefore(b: Ballot, m: nat, row: Row, key: Key)
    requires m <= |b.priority|
  {
    exists q | 0 <= q < m :: b.priority[q] in b.runs && b.Reports(b.priority[q], row, key)
  }

  lemma {:induction false} ReportedNext(b: Ballot, m: nat, row: Row, key: Key)
    requires m < |b.priority|
    ensures ReportedBefore(b, m + 1, row, key) <==>
            ReportedBefore(b, m, row, key) || (b.priority[m] in b.runs && b.Reports(b.priority[m], row, key))
  {
  }

  lemma {:induction false} TallyPresent(b: Ballot, m: nat, row: Row, key: Key)
    requires b.Valid() && m <= |b.priority|
    ensures (row, key) in Tally(b, m).present <==> b.Supported(row, key) && ReportedBefore(b, m, row, key)
  {
    if m > 0 {
      TallyPresent(b, m - 1, row, key);
      ReportedNext(b, m - 1, row, key);
      var k := b.priority[m - 1];
      if k in b.runs {
        PassPresent(b, Tally(b, m - 1), k, |b.groups[k]|, row, key);
      }
    }
  }

  // What is taken

  /** The condition under which a later run adds the record at position `i`. */
  ghost predicate Adds(b: Ballot, accepted: seq<Entry>, s: State, row: Row, key: Key) {
    b.Supported(row, key) && (row, key) !in s.present && !Subsumed(accepted, row, key)
  }

  lemma {:induction false} JudgeAdds(b: Ballot, accepted: seq<Entry>, s: State, k: string, i: nat, row: Row, key: Key)
    requires accepted != [] && b.Holds(k, i, row, key)
    ensures var s' := Judge(b, accepted, s, k, i);
            if Adds(b, accepted, s, row, key)
            then |s'.agreed| == |s.agreed| + 1 && s'.agreed[..|s.agreed|] == s.agreed
                 && s'.agreed[|s.agreed|].run == k && s'.agreed[|s.agreed|].index == i
            else s'.agreed == s.agreed
  {
  }

  lemma {:induction false} TakesAppend(agreed: seq<Entry>, e: Entry, k: string, i: nat)
    ensures Takes(agreed + [e], k, i) <==> Takes(agreed, k, i) || (e.run == k && e.index == i)
  {
    var all := agreed + [e];
    assert all[|agreed|] == e && forall j | 0 <= j < |agreed| :: all[j] == agreed[j];
  }

  lemma {:induction false} JudgeTakes(b: Ballot, accepted: seq<Entry>, s: State, k: string, n: nat, i: nat)
    requires k in b.groups && n < |b.groups[k]| && accepted != []
    ensures i != n ==> (Takes(Judge(b, accepted, s, k, n).agreed, k, i) <==> Takes(s.agreed, k, i))
    ensures !Takes(s.agreed, k, n) ==>
              (Takes(Judge(b, accepted, s, k, n).agreed, k, n) <==>
                 b.keyFn(b.groups[k][n].1).Some? && Adds(b, accepted, s, b.groups[k][n].0, b.keyFn(b.groups[k][n].1).value))
  {
    var (row, x) := b.groups[k][n];
    if b.keyFn(x).Some? {
      var key := b.keyFn(x).value;
      var s' := Judge(b, accepted, s, k, n);
      JudgeAdds(b, accepted, s, k, n, row, key);
      if Adds(b, accepted, s, row, key) {
        assert s'.agreed == s.agreed + [s'.agreed[|s.agreed|]];
        TakesAppend(s.agreed, s'.agreed[|s.agreed|], k, i);
        TakesAppend(s.agreed, s'.agreed[|s.agreed|], k, n);
      }
    }
  }

  /** Within the pass of a later run the record at position `i` is taken exactly when it is added in its turn. */
  lemma {:induction false} PassTakes(b: Ballot, s: State, k: string, n: nat, i: nat, row: Row, key: Key)
    requires b.Holds(k, i, row, key) && n <= |b.groups[k]| && s.agreed != []
    requires forall j: nat :: !Takes(s.agreed, k, j)
    ensures Takes(Pass(b, s, k, n).agreed, k, i) <==> i < n && Adds(b, s.agreed, Pass(b, s, k, i), row, key)
  {
    if n > 0 {
      PassTakes(b, s, k, n - 1, i, row, key);
      JudgeTakes(b, s.agreed, Pass(b, s, k, n - 1), k, n - 1, i);
    }
  }

  // The whole vote

  lemma {:induction false} RankedAll(b: Ballot, before: seq<Entry>, r: nat)
    requires AllRanked(b, before) && forall i | 0 <= i < |before| :: Rank(b.priority, before[i].run) < r
    ensures RankedBefore(b, before, r) == before
  {
    if before != [] {
      RankedAll(b, before[..|before| - 1], r);
      assert before == before[..|before| - 1] + [before[|before| - 1]];
    }
  }

  lemma {:induction false} RankedLater(b: Ballot, agreed: seq<Entry>, last: Entry, r: nat)
    requires AllRanked(b, agreed) && last.run in b.priority && Rank(b.priority, last.run) >= r
    ensures AllRanked(b, agreed + [last]) && RankedBefore(b, agreed + [last], r) == RankedBefore(b, agreed, r)
  {
    assert (agreed + [last])[..|agreed|] == agreed;
  }

  lemma {:induction false} RanksSplit(b: Ballot, before: seq<Entry>, rest: seq<Entry>, r: nat)
    requires AllRanked(b, before) && forall i | 0 <= i < |before| :: Rank(b.priority, before[i].run) < r
    requires AllRanked(b, rest) && forall i | 0 <= i < |rest| :: Rank(b.priority, rest[i].run) >= r
    ensures AllRanked(b, before + rest) && RankedBefore(b, before + rest, r) == before
  {
    if rest == [] {
      assert before + rest == before;
      RankedAll(b, before, r);
    } else {
      var front, last := rest[..|rest| - 1], rest[|rest| - 1];
      RanksSplit(b, before, front, r);
      RankedLater(b, before + front, last, r);
      assert before + rest == before + front + [last];
    }
  }

  lemma {:induction false} RankFrom(priority: seq<string>, r: nat, k: string)
    requires Distinct(priority) && r <= |priority| && k in priority[r..]
    ensures k in priority && Rank(priority, k) >= r
  {
    var i :| 0 <= i < |priority[r..]| && priority[r..][i] == k;
    assert priority[r + i] == k;
    RankOf(priority, r + i);
  }

  /** What was agreed before run `r` is what the outcome has from runs ranked before it. */
  lemma {:induction false} OutcomeBefore(b: Ballot, r: nat)
    requires b.Valid() && r <= |b.priority|
    ensures AllRanked(b, Outcome(b).agreed)
    ensures RankedBefore(b, Outcome(b).agreed, r) == Tally(b, r).agreed
  {
    var before, all := Tally(b, r).agreed, Outcome(b).agreed;
    TallyExtends(b, r, |b.priority|);
    ToTheEnd(b.priority, r);
    var _ := TallySound(b, r);
    var rest := all[|before|..];
    assert all == before + rest;
    forall i | 0 <= i < |rest|
      ensures rest[i].run in b.priority && Rank(b.priority, rest[i].run) >= r
    {
      assert rest[i] == all[|before| + i];
      RankFrom(b.priority, r, rest[i].run);
    }
    RanksSplit(b, before, rest, r);
  }

  /** Whether a run has its record taken is settled when its turn is over. */
  lemma {:induction false} TakenInTurn(b: Ballot, r: nat, i: nat)
    requires b.Valid() && r < |b.priority|
    ensures Takes(Outcome(b).agreed, b.priority[r], i) <==> Takes(Tally(b, r + 1).agreed, b.priority[r], i)
  {
    var before, all := Tally(b, r + 1).agreed, Outcome(b).agreed;
    TallyExtends(b, r + 1, |b.priority|);
    ToTheEnd(b.priority, r + 1);
    forall j | |before| <= j < |all|
      ensures all[j].run != b.priority[r]
    {
      RankFrom(b.priority, r + 1, all[j].run);
      RankOf(b.priority, r);
    }
    assert forall j | 0 <= j < |before| :: all[j] == before[j];
  }

  lemma {:induction false} NoneTakenYet(b: Ballot, r: nat)
    requires b.Valid() && r < |b.priority|
    ensures forall j: nat :: !Takes(Tally(b, r).agreed, b.priority[r], j)
  {
    var _ := TallySound(b, r);
    RankOf(b.priority, r);
  }

  lemma {:induction false} LedBefore(b: Ballot, r: nat)
    requires b.Valid() && r <= |b.priority|
    ensures Tally(b, r).agreed != [] <==> exists q | 0 <= q < r :: Leads(b, q)
  {
    if Tally(b, r).agreed == [] {
      forall q | 0 <= q < r
        ensures !Leads(b, q)
      {
        if Leads(b, q) {
          LedStays(b, q, r);
        }
      }
    } else if forall q | 0 <= q < r :: !Leads(b, q) {
      NoneBeforeLeader(b, r);
    }
  }

  lemma {:induction false} LedStays(b: Ballot, q: nat, r: nat)
    requires b.Valid() && q < r <= |b.priority| && Leads(b, q)
    ensures Tally(b, r).agreed != []
  {
    var first := FirstLeader(b, q);
    LeaderTally(b, first);
    LeaderBrings(b, b.priority[first]);
    TallyExtends(b, first + 1, r);
  }

  /** The needle of the key stands in the text accepted of the row from runs ranked before `r`. */
  ghost predicate SaidBefore(b: Ballot, r: nat, row: Row, key: Key)
    requires b.Valid() && AllRanked(b, Outcome(b).agreed)
  {
    VoteNeedle(key) != "" && Contains(TextBefore(b, Outcome(b).agreed, r, row), VoteNeedle(key))
  }

  lemma {:induction false} LaterTakes(b: Ballot, r: nat, i: nat, row: Row, key: Key)
    requires b.Valid() && r < |b.priority| && b.priority[r] in b.runs && b.Holds(b.priority[r], i, row, key)
    requires Tally(b, r).agreed != []
    ensures Takes(Tally(b, r + 1).agreed, b.priority[r], i) <==>
            && b.Supported(row, key) && !SeenBefore(b, r, b.priority[r], i, row, key)
            && !Subsumed(Tally(b, r).agreed, row, key)
  {
    var s, k := Tally(b, r), b.priority[r];
    NoneTakenYet(b, r);
    PassTakes(b, s, k, |b.groups[k]|, i, row, key);
    PassPresent(b, s, k, i, row, key);
    TallyPresent(b, r, row, key);
    assert SeenBefore(b, r, k, i, row, key) <==> ReportedBefore(b, r, row, key) || exists j | 0 <= j < i :: b.Holds(k, j, row, key);
  }

  lemma {:induction false} FirstTakes(b: Ballot, r: nat, i: nat, row: Row, key: Key)
    requires b.Valid() && r < |b.priority| && b.priority[r] in b.runs && b.Holds(b.priority[r], i, row, key)
    requires Tally(b, r).agreed == []
    ensures Takes(Tally(b, r + 1).agreed, b.priority[r], i) <==> b.Supported(row, key)
  {
    var k := b.priority[r];
    var n := |b.groups[k]|;
    FirstPassKeepsAll(b, Tally(b, r), k, n);
    var agreed := Tally(b, r + 1).agreed;
    if b.Supported(row, key) {
      SupportedFactKept(b, k, n, i, row, key);
    }
    if j :| 0 <= j < |agreed| && agreed[j].run == k && agreed[j].index == i {
      var _ := TallySound(b, r + 1);
      assert GoodEntry(b, agreed[j]);
    }
  }

  /** Which records are accepted: of a run with no supported fact before it, all supported ones; of every later run,
      the supported ones whose row and key no earlier run and no earlier record of the run reports, and whose needle the
      text accepted of the row from earlier runs does not contain. */
  lemma {:induction false} AcceptedExactly(b: Ballot, r: nat, i: nat, row: Row, key: Key)
    requires b.Valid() && r < |b.priority| && b.priority[r] in b.runs && b.Holds(b.priority[r], i, row, key)
    ensures AllRanked(b, Outcome(b).agreed)
    ensures Takes(Outcome(b).agreed, b.priority[r], i) <==>
            && b.Supported(row, key)
            && ((exists q | 0 <= q < r :: Leads(b, q)) ==>
                  !SeenBefore(b, r, b.priority[r], i, row, key) && !SaidBefore(b, r, row, key))
  {
    OutcomeBefore(b, r);
    TakenInTurn(b, r, i);
    LedBefore(b, r);
    if Tally(b, r).agreed == [] {
      FirstTakes(b, r, i, row, key);
    } else {
      LaterTakes(b, r, i, row, key);
    }
  }
}
