/** What the vote guarantees, for every ballot. */
module ConsensusLaws {
  import opened Strings
  import opened Collections
  import opened FactKeys
  import opened Consensus
  import opened PlainFacts

  function Rank(priority: seq<string>, k: string): (r: nat)
    requires k in priority
    ensures r < |priority| && priority[r] == k
  {
    if priority[0] == k then 0 else 1 + Rank(priority[1..], k)
  }

  // What holds of every tally on the way

  /** The record behind an accepted fact, with all the support its key has. */
  ghost predicate GoodEntry(b: Ballot, e: Entry) {
    && e.run in b.runs && e.run in b.priority
    && b.Holds(e.run, e.index, e.row, e.key) && b.groups[e.run][e.index].1 == e.fact
    && b.Supported(e.row, e.key)
    && e.who == Ranked(b.Supporters(e.row, e.key), b.priority)
  }

  /** Position `i` is the first of run `k` with this row and key. */
  ghost predicate First(b: Ballot, k: string, i: int, row: Row, key: Key) {
    b.Holds(k, i, row, key) && forall j | 0 <= j < i :: !b.Holds(k, j, row, key)
  }

  ghost predicate GoodAssertion(b: Ballot, d: Dispute, k: string) {
    && k in b.runs && k in d.assertions
    && exists i :: First(b, k, i, d.row, d.key) && d.assertions[k] == b.groups[k][i].1.assertion
  }

  ghost predicate GoodDispute(b: Ballot, d: Dispute) {
    var who := b.Supporters(d.row, d.key);
    && !b.Supported(d.row, d.key)
    && d.votes == |who| && d.of == |b.runs| && d.runs == Ranked(who, b.priority)
    && d.assertions.Keys != {}
    && forall k | k in d.assertions :: GoodAssertion(b, d, k)
  }

  ghost predicate Accepted(agreed: seq<Entry>, row: Row, key: Key) {
    exists i | 0 <= i < |agreed| :: agreed[i].row == row && agreed[i].key == key
  }

  /** Accepted entries follow the priority order of runs and the order of facts inside a run. */
  ghost predicate Before(b: Ballot, e: Entry, e': Entry) {
    && e.run in b.priority && e'.run in b.priority
    && (Rank(b.priority, e.run) < Rank(b.priority, e'.run) || (e.run == e'.run && e.index < e'.index))
  }

  ghost predicate GoodEntries(b: Ballot, agreed: seq<Entry>) {
    forall i | 0 <= i < |agreed| :: GoodEntry(b, agreed[i])
  }

  /** Every dispute is exact, and no two are about the same row and key. */
  ghost predicate GoodDisputes(b: Ballot, contested: seq<Dispute>) {
    && (forall i | 0 <= i < |contested| :: GoodDispute(b, contested[i]))
    && (forall i, j | 0 <= i < j < |contested| ::
          contested[i].row != contested[j].row || contested[i].key != contested[j].key)
  }

  /** What is present is supported, and either accepted or already said by accepted text. */
  ghost predicate Witnessed(b: Ballot, agreed: seq<Entry>, present: set<(Row, Key)>) {
    && (forall i | 0 <= i < |agreed| :: (agreed[i].row, agreed[i].key) in present)
    && (forall row, key | (row, key) in present ::
          b.Supported(row, key) && (Accepted(agreed, row, key) || Subsumed(agreed, row, key)))
  }

  ghost predicate Ordered(b: Ballot, agreed: seq<Entry>) {
    forall i, j | 0 <= i < j < |agreed| :: Before(b, agreed[i], agreed[j])
  }

  /** All accepted entries of one row and key come from one run. */
  ghost predicate OneRunPerKey(agreed: seq<Entry>) {
    forall i, j | 0 <= i < j < |agreed| && agreed[i].row == agreed[j].row && agreed[i].key == agreed[j].key ::
      agreed[i].run == agreed[j].run
  }

  ghost predicate Sound(b: Ballot, s: State) {
    && GoodEntries(b, s.agreed) && GoodDisputes(b, s.contested) && Witnessed(b, s.agreed, s.present)
    && Ordered(b, s.agreed) && OneRunPerKey(s.agreed)
  }

  /** The fact at position `i` of run `k` has been decided. */
  ghost predicate Handled(b: Ballot, s: State, k: string, i: nat)
    requires k in b.groups && i < |b.groups[k]|
  {
    var (row, x) := b.groups[k][i];
    var key := b.keyFn(x);
    key.None? ||
    if b.Supported(row, key.value) then (row, key.value) in s.present
    else Slot(s.contested, row, key.value) < |s.contested| &&
         k in s.contested[Slot(s.contested, row, key.value)].assertions
  }

  /** Every accepted entry comes from a run before rank `m`, or from run `m` before position `n`. */
  ghost predicate Reached(b: Ballot, agreed: seq<Entry>, m: nat, n: nat) {
    forall i | 0 <= i < |agreed| ::
      && agreed[i].run in b.priority
      && (Rank(b.priority, agreed[i].run) < m || (Rank(b.priority, agreed[i].run) == m && agreed[i].index < n))
  }

  lemma {:induction false} EntryBlobsAppend(a: seq<Entry>, e: Entry, row: Row)
    ensures EntryBlobs(a + [e], row) == if e.row == row then EntryBlobs(a, row) + [Blob(e.fact)] else EntryBlobs(a, row)
  {
  }

  lemma {:induction false} EntryBlobsGrow(a: seq<Entry>, c: seq<Entry>, row: Row)
    requires a <= c
    ensures EntryBlobs(a, row) <= EntryBlobs(c, row)
  {
    if a != c {
      EntryBlobsGrow(a, c[..|c| - 1], row);
    }
  }

  lemma {:induction false} SubsumedGrows(a: seq<Entry>, c: seq<Entry>, row: Row, key: Key)
    requires a <= c && Subsumed(a, row, key)
    ensures Subsumed(c, row, key)
  {
    EntryBlobsGrow(a, c, row);
    BarJoinGrows(EntryBlobs(a, row), EntryBlobs(c, row), VoteNeedle(key));
  }

  /** Filing a dispute leaves every dispute in its place, with the assertions it had. */
  lemma {:induction false} FileDisputeKeeps(
    disputes: seq<Dispute>, first: Dispute, run: string, assertion: string, row: Row, key: Key)
    requires Slot(disputes, row, key) < |disputes|
    ensures var filed, j := FileDispute(disputes, first, run, assertion), Slot(disputes, row, key);
            Slot(filed, row, key) == j < |filed| && disputes[j].assertions.Keys <= filed[j].assertions.Keys
  {
    var filed, j := FileDispute(disputes, first, run, assertion), Slot(disputes, row, key);
    assert |disputes| <= |filed|;
    assert forall i | 0 <= i < |disputes| :: filed[i].row == disputes[i].row && filed[i].key == disputes[i].key;
    assert filed[j].row == row && filed[j].key == key;
    assert Slot(filed, row, key) <= j;
  }

  /** Deciding one fact keeps every earlier decision. */
  lemma {:induction false} JudgeKeeps(b: Ballot, accepted: seq<Entry>, s: State, k: string, i: nat, k': string, j: nat)
    requires k in b.groups && i < |b.groups[k]| && k' in b.groups && j < |b.groups[k']|
    requires Handled(b, s, k', j)
    ensures Handled(b, Judge(b, accepted, s, k, i), k', j)
  {
    var (row, x) := b.groups[k][i];
    var (row', x') := b.groups[k'][j];
    if b.keyFn(x).Some? && b.keyFn(x').Some? && Slot(s.contested, row', b.keyFn(x').value) < |s.contested| {
      var who := b.Supporters(row, b.keyFn(x).value);
      var first := Dispute(row, b.keyFn(x).value, |who|, |b.runs|, Ranked(who, b.priority), map[]);
      FileDisputeKeeps(s.contested, first, k, x.assertion, row', b.keyFn(x').value);
    }
  }

  lemma {:induction false} FileDisputeFiles(disputes: seq<Dispute>, first: Dispute, run: string, assertion: string)
    ensures var filed := FileDispute(disputes, first, run, assertion);
            var j := Slot(disputes, first.row, first.key);
            Slot(filed, first.row, first.key) == j < |filed| && run in filed[j].assertions
  {
    var j := Slot(disputes, first.row, first.key);
    var filed := FileDispute(disputes, first, run, assertion);
    assert filed[j].row == first.row && filed[j].key == first.key;
    assert forall i | 0 <= i < j :: filed[i] == disputes[i];
  }

  lemma {:induction false} JudgeHandles(b: Ballot, accepted: seq<Entry>, s: State, k: string, i: nat)
    requires k in b.groups && i < |b.groups[k]|
    ensures Handled(b, Judge(b, accepted, s, k, i), k, i)
  {
    var (row, x) := b.groups[k][i];
    if b.keyFn(x).Some? {
      var key := b.keyFn(x).value;
      var who := b.Supporters(row, key);
      FileDisputeFiles(s.contested, Dispute(row, key, |who|, |b.runs|, Ranked(who, b.priority), map[]), k, x.assertion);
    }
  }

  /** What one run has done so far: `n` facts of run `k` decided, on top of what was accepted before. */
  ghost predicate Within(b: Ballot, accepted: seq<Entry>, s: State, k: string, n: nat) {
    && b.Valid() && k in b.runs && k in b.groups && k in b.priority && n <= |b.groups[k]|
    && Sound(b, s)
    && accepted <= s.agreed && Reached(b, accepted, Rank(b.priority, k), 0)
    && Reached(b, s.agreed, Rank(b.priority, k), n)
    && (forall j | |accepted| <= j < |s.agreed| :: s.agreed[j].run == k)
    && (forall j | 0 <= j < n :: Handled(b, s, k, j))
  }

  lemma {:induction false} FileSound(
    b: Ballot, disputes: seq<Dispute>, k: string, i: nat, row: Row, key: Key, first: Dispute)
    requires GoodDisputes(b, disputes) && k in b.runs && b.Holds(k, i, row, key) && !b.Supported(row, key)
    requires var who := b.Supporters(row, key);
             first == Dispute(row, key, |who|, |b.runs|, Ranked(who, b.priority), map[])
    requires var j := Slot(disputes, row, key);
             (j < |disputes| && k in disputes[j].assertions) || First(b, k, i, row, key)
    ensures GoodDisputes(b, FileDispute(disputes, first, k, b.groups[k][i].1.assertion))
  {
    var filed := FileDispute(disputes, first, k, b.groups[k][i].1.assertion);
    var j := Slot(disputes, row, key);
    if filed != disputes {
      FiledGood(b, disputes, k, i, row, key, first, filed[j]);
      DisputesGrow(b, disputes, j, filed[j]);
    }
  }

  /** Setting the dispute at the slot of its row and key, which may be the next free one. */
  lemma {:induction false} DisputesGrow(b: Ballot, disputes: seq<Dispute>, j: nat, d: Dispute)
    requires GoodDisputes(b, disputes) && j == Slot(disputes, d.row, d.key) && GoodDispute(b, d)
    ensures GoodDisputes(b, if j == |disputes| then disputes + [d] else disputes[j := d])
  {
    var filed := if j == |disputes| then disputes + [d] else disputes[j := d];
    forall i | 0 <= i < |filed|
      ensures GoodDispute(b, filed[i])
    {
    }
    DisputesApart(disputes, j, d);
  }

  lemma {:induction false} DisputesApart(disputes: seq<Dispute>, j: nat, d: Dispute)
    requires j == Slot(disputes, d.row, d.key)
    requires forall i, i' | 0 <= i < i' < |disputes| ::
               disputes[i].row != disputes[i'].row || disputes[i].key != disputes[i'].key
    ensures var filed := if j == |disputes| then disputes + [d] else disputes[j := d];
            forall i, i' | 0 <= i < i' < |filed| :: filed[i].row != filed[i'].row || filed[i].key != filed[i'].key
  {
  }

  /** A dispute that one more run is filed under, or that it starts, is exact. */
  lemma {:induction false} FiledGood(
    b: Ballot, disputes: seq<Dispute>, k: string, i: nat, row: Row, key: Key, first: Dispute, d: Dispute)
    requires GoodDisputes(b, disputes) && k in b.runs && First(b, k, i, row, key) && !b.Supported(row, key)
    requires var who := b.Supporters(row, key);
             first == Dispute(row, key, |who|, |b.runs|, Ranked(who, b.priority), map[])
    requires var (j, said) := (Slot(disputes, row, key), b.groups[k][i].1.assertion);
             d == if j == |disputes| then first.(assertions := map[k := said])
                  else disputes[j].(assertions := disputes[j].assertions[k := said])
    ensures GoodDispute(b, d)
  {
    var j := Slot(disputes, row, key);
    assert j < |disputes| ==> GoodDispute(b, disputes[j]);
    assert k in d.assertions.Keys;
    forall k' | k' in d.assertions
      ensures GoodAssertion(b, d, k')
    {
      if k' != k {
        assert GoodAssertion(b, disputes[j], k');
      }
    }
  }

  lemma {:induction false} WitnessedGrows(b: Ballot, agreed: seq<Entry>, present: set<(Row, Key)>, e: Entry)
    requires Witnessed(b, agreed, present) && b.Supported(e.row, e.key)
    ensures Witnessed(b, agreed + [e], present + {(e.row, e.key)})
  {
    var agreed' := agreed + [e];
    forall row, key | (row, key) in present + {(e.row, e.key)}
      ensures b.Supported(row, key) && (Accepted(agreed', row, key) || Subsumed(agreed', row, key))
    {
      if (row, key) == (e.row, e.key) {
        assert agreed'[|agreed|].row == row;
      } else if Accepted(agreed, row, key) {
        var j :| 0 <= j < |agreed| && agreed[j].row == row && agreed[j].key == key;
        assert agreed'[j] == agreed[j];
      } else {
        SubsumedGrows(agreed, agreed', row, key);
      }
    }
  }

  lemma {:induction false} EntriesGrow(b: Ballot, agreed: seq<Entry>, e: Entry)
    requires GoodEntries(b, agreed) && Ordered(b, agreed) && OneRunPerKey(agreed)
    requires GoodEntry(b, e) && forall i | 0 <= i < |agreed| :: Before(b, agreed[i], e)
    requires forall i | 0 <= i < |agreed| && agreed[i].row == e.row && agreed[i].key == e.key :: agreed[i].run == e.run
    ensures GoodEntries(b, agreed + [e]) && Ordered(b, agreed + [e]) && OneRunPerKey(agreed + [e])
  {
  }

  lemma {:induction false} ReachedGrows(b: Ballot, agreed: seq<Entry>, m: nat, n: nat, e: Entry)
    requires Reached(b, agreed, m, n) && e.run in b.priority && Rank(b.priority, e.run) == m && e.index == n
    ensures Reached(b, agreed + [e], m, n + 1)
    ensures forall i | 0 <= i < |agreed| :: Before(b, agreed[i], e)
  {
  }

  lemma {:induction false} JudgeWithin(b: Ballot, accepted: seq<Entry>, s: State, k: string, i: nat)
    requires Within(b, accepted, s, k, i) && i < |b.groups[k]|
    ensures Within(b, accepted, Judge(b, accepted, s, k, i), k, i + 1)
  {
    JudgeSound(b, accepted, s, k, i);
    JudgeExtends(b, accepted, s, k, i);
    JudgeHandles(b, accepted, s, k, i);
    forall j | 0 <= j < i
      ensures Handled(b, Judge(b, accepted, s, k, i), k, j)
    {
      JudgeKeeps(b, accepted, s, k, i, k, j);
    }
  }

  lemma {:induction false} DisputeStep(b: Ballot, accepted: seq<Entry>, s: State, k: string, i: nat, row: Row, key: Key)
    requires Within(b, accepted, s, k, i) && i < |b.groups[k]| && b.Holds(k, i, row, key) && !b.Supported(row, key)
    ensures GoodDisputes(b, Judge(b, accepted, s, k, i).contested)
  {
    var who := b.Supporters(row, key);
    if !First(b, k, i, row, key) {
      var j :| 0 <= j < i && b.Holds(k, j, row, key);
      assert Handled(b, s, k, j);
    }
    FileSound(b, s.contested, k, i, row, key, Dispute(row, key, |who|, |b.runs|, Ranked(who, b.priority), map[]));
  }

  lemma {:induction false} AcceptStep(b: Ballot, accepted: seq<Entry>, s: State, k: string, i: nat, e: Entry)
    requires Within(b, accepted, s, k, i) && i < |b.groups[k]|
    requires e.run == k && e.index == i && GoodEntry(b, e)
    requires (e.row, e.key) !in s.present || accepted == []
    ensures Sound(b, s.(agreed := s.agreed + [e], present := s.present + {(e.row, e.key)}))
    ensures Reached(b, s.agreed + [e], Rank(b.priority, k), i + 1)
  {
    WitnessedGrows(b, s.agreed, s.present, e);
    ReachedGrows(b, s.agreed, Rank(b.priority, k), i, e);
    EntriesGrow(b, s.agreed, e);
  }

  lemma {:induction false} SubsumedStep(b: Ballot, accepted: seq<Entry>, s: State, row: Row, key: Key)
    requires Witnessed(b, s.agreed, s.present) && accepted <= s.agreed
    requires b.Supported(row, key) && Subsumed(accepted, row, key) && (row, key) !in s.present
    ensures Witnessed(b, s.agreed, s.present + {(row, key)})
  {
    SubsumedGrows(accepted, s.agreed, row, key);
  }

  lemma {:induction false} JudgeExtends(b: Ballot, accepted: seq<Entry>, s: State, k: string, i: nat)
    requires k in b.groups && i < |b.groups[k]| && accepted <= s.agreed
    requires forall j | |accepted| <= j < |s.agreed| :: s.agreed[j].run == k
    ensures var s' := Judge(b, accepted, s, k, i);
            accepted <= s'.agreed && forall j | |accepted| <= j < |s'.agreed| :: s'.agreed[j].run == k
  {
  }

  lemma {:induction false} JudgeSound(b: Ballot, accepted: seq<Entry>, s: State, k: string, i: nat)
    requires Within(b, accepted, s, k, i) && i < |b.groups[k]|
    ensures var s' := Judge(b, accepted, s, k, i);
            Sound(b, s') && Reached(b, s'.agreed, Rank(b.priority, k), i + 1)
  {
    var (row, x) := b.groups[k][i];
    if b.keyFn(x).Some? {
      var key := b.keyFn(x).value;
      assert b.Holds(k, i, row, key);
      if !b.Supported(row, key) {
        DisputeStep(b, accepted, s, k, i, row, key);
      } else if (row, key) in s.present && accepted != [] {
      } else if accepted != [] && Subsumed(accepted, row, key) {
        SubsumedStep(b, accepted, s, row, key);
      } else {
        AcceptStep(b, accepted, s, k, i, Entry(row, key, Ranked(b.Supporters(row, key), b.priority), k, i, x));
      }
    }
  }

  lemma {:induction false} JudgeStep(b: Ballot, accepted: seq<Entry>, s: State, k: string, i: nat) returns (s': State)
    requires Within(b, accepted, s, k, i) && i < |b.groups[k]|
    ensures s' == Judge(b, accepted, s, k, i) && Within(b, accepted, s', k, i + 1)
  {
    s' := Judge(b, accepted, s, k, i);
    JudgeWithin(b, accepted, s, k, i);
  }

  lemma {:induction false} PassWithin(b: Ballot, s: State, k: string, n: nat) returns (s': State)
    requires Within(b, s.agreed, s, k, 0) && n <= |b.groups[k]|
    ensures s' == Pass(b, s, k, n) && Within(b, s.agreed, s', k, n)
  {
    s' := s;
    for i := 0 to n
      invariant s' == Pass(b, s, k, i) && Within(b, s.agreed, s', k, i)
    {
      s' := JudgeStep(b, s.agreed, s', k, i);
    }
  }

  lemma {:induction false} PassKeeps(b: Ballot, s: State, k: string, n: nat, k': string, j: nat)
    requires k in b.groups && n <= |b.groups[k]| && k' in b.groups && j < |b.groups[k']| && Handled(b, s, k', j)
    ensures Handled(b, Pass(b, s, k, n), k', j)
  {
    if n > 0 {
      PassKeeps(b, s, k, n - 1, k', j);
      JudgeKeeps(b, s.agreed, Pass(b, s, k, n - 1), k, n - 1, k', j);
    }
  }

  lemma {:induction false} RankOf(priority: seq<string>, r: nat)
    requires Distinct(priority) && r < |priority|
    ensures Rank(priority, priority[r]) == r
  {
  }

  lemma {:induction false} ReachedNext(b: Ballot, agreed: seq<Entry>, m: nat, n: nat)
    requires Reached(b, agreed, m, n)
    ensures Reached(b, agreed, m + 1, 0)
  {
  }

  /** Every fact of the first `m` runs has been decided. */
  ghost predicate AllHandled(b: Ballot, s: State, m: nat)
    requires b.Valid() && m <= |b.priority|
  {
    forall r, j | 0 <= r < m && b.priority[r] in b.runs && 0 <= j < |b.groups[b.priority[r]]| ::
      Handled(b, s, b.priority[r], j)
  }

  lemma {:induction false} RunHandled(b: Ballot, s: State, m: nat, k: string, s': State)
    requires b.Valid() && m < |b.priority| && k == b.priority[m] && k in b.runs && AllHandled(b, s, m)
    requires s' == Pass(b, s, k, |b.groups[k]|) && forall j | 0 <= j < |b.groups[k]| :: Handled(b, s', k, j)
    ensures AllHandled(b, s', m + 1)
  {
    forall r, j | 0 <= r < m + 1 && b.priority[r] in b.runs && 0 <= j < |b.groups[b.priority[r]]|
      ensures Handled(b, s', b.priority[r], j)
    {
      if r < m {
        PassKeeps(b, s, k, |b.groups[k]|, b.priority[r], j);
      }
    }
  }

  lemma {:induction false} TallyStep(b: Ballot, s: State, m: nat) returns (s': State)
    requires b.Valid() && m < |b.priority| && Sound(b, s) && Reached(b, s.agreed, m, 0) && AllHandled(b, s, m)
    ensures s' == if b.priority[m] in b.runs then Pass(b, s, b.priority[m], |b.groups[b.priority[m]]|) else s
    ensures Sound(b, s') && Reached(b, s'.agreed, m + 1, 0) && AllHandled(b, s', m + 1)
  {
    var k := b.priority[m];
    RankOf(b.priority, m);
    s' := s;
    if k in b.runs {
      s' := PassWithin(b, s, k, |b.groups[k]|);
      RunHandled(b, s, m, k, s');
      ReachedNext(b, s'.agreed, m, |b.groups[k]|);
    } else {
      ReachedNext(b, s.agreed, m, 0);
    }
  }

  lemma {:induction false} TallySound(b: Ballot, m: nat) returns (s: State)
    requires b.Valid() && m <= |b.priority|
    ensures s == Tally(b, m) && Sound(b, s) && Reached(b, s.agreed, m, 0) && AllHandled(b, s, m)
  {
    if m == 0 {
      s := State([], [], {});
    } else {
      s := TallySound(b, m - 1);
      s := TallyStep(b, s, m - 1);
    }
  }

  // The main results

  ghost predicate Disputed(contested: seq<Dispute>, row: Row, key: Key) {
    exists i | 0 <= i < |contested| :: contested[i].row == row && contested[i].key == key
  }

  /** One accepted record of the row says the needle of the key. */
  ghost predicate SaidByOneRecord(agreed: seq<Entry>, row: Row, key: Key) {
    VoteNeedle(key) != "" &&
    exists i | 0 <= i < |agreed| :: agreed[i].row == row && Contains(Blob(agreed[i].fact), VoteNeedle(key))
  }

  lemma {:induction false} BlobOfEntry(agreed: seq<Entry>, row: Row, p: nat) returns (i: nat)
    requires p < |EntryBlobs(agreed, row)|
    ensures i < |agreed| && agreed[i].row == row && Blob(agreed[i].fact) == EntryBlobs(agreed, row)[p]
  {
    var front := agreed[..|agreed| - 1];
    if p < |EntryBlobs(front, row)| {
      i := BlobOfEntry(front, row, p);
    } else {
      i := |agreed| - 1;
    }
  }

  /** Text accepted in pieces that covers a bar-free needle covers it in one record. */
  lemma {:induction false} SubsumedByOneRecord(agreed: seq<Entry>, row: Row, key: Key)
    requires Subsumed(agreed, row, key) && '|' !in VoteNeedle(key)
    ensures SaidByOneRecord(agreed, row, key)
  {
    var blobs := EntryBlobs(agreed, row);
    BarJoinContains(blobs, VoteNeedle(key));
    var p :| 0 <= p < |blobs| && Contains(blobs[p], VoteNeedle(key));
    var i := BlobOfEntry(agreed, row, p);
  }

  lemma {:induction false} HandledByAll(b: Ballot, s: State, k: string, i: nat)
    requires b.Valid() && AllHandled(b, s, |b.priority|) && k in b.runs && i < |b.groups[k]|
    ensures Handled(b, s, k, i)
  {
    var r := Rank(b.priority, k);
    assert Handled(b, s, b.priority[r], i);
  }

  /** Every keyed fact of every run is contested for want of votes, accepted under its key,
      or, when its needle has no bar, said by a single accepted record of its row. */
  lemma {:induction false} NothingSupportedIsLost(b: Ballot, k: string, i: nat, row: Row, key: Key)
    requires b.Valid() && k in b.runs && b.Holds(k, i, row, key)
    ensures var out := Outcome(b);
            if !b.Supported(row, key) then Disputed(out.contested, row, key)
            else Accepted(out.agreed, row, key) || Subsumed(out.agreed, row, key)
    ensures b.Supported(row, key) && '|' !in VoteNeedle(key) ==>
              Accepted(Outcome(b).agreed, row, key) || SaidByOneRecord(Outcome(b).agreed, row, key)
  {
    var out := TallySound(b, |b.priority|);
    HandledByAll(b, out, k, i);
    if Subsumed(out.agreed, row, key) && '|' !in VoteNeedle(key) {
      SubsumedByOneRecord(out.agreed, row, key);
    }
  }

  lemma {:induction false} RankedLength(who: set<string>, priority: seq<string>)
    requires Distinct(priority) && forall k | k in who :: k in priority
    ensures |Ranked(who, priority)| == |who|
  {
    if priority != [] {
      var rest := priority[1..];
      assert priority == [priority[0]] + rest;
      RankedLength(who - {priority[0]}, rest);
      RankedSkips(who, priority[0], rest);
    }
  }

  lemma {:induction false} RankedSkips(who: set<string>, k: string, priority: seq<string>)
    requires k !in priority
    ensures Ranked(who, priority) == Ranked(who - {k}, priority)
  {
    if priority != [] {
      RankedSkips(who, k, priority[1..]);
    }
  }

  ghost predicate Precedes(priority: seq<string>, k: string, k': string) {
    k in priority && k' in priority && Rank(priority, k) < Rank(priority, k')
  }

  ghost predicate Increasing(priority: seq<string>, r: seq<string>) {
    forall i, j | 0 <= i < j < |r| :: Precedes(priority, r[i], r[j])
  }

  lemma {:induction false} IncreasingLater(priority: seq<string>, later: seq<string>)
    requires Distinct(priority) && priority != [] && Increasing(priority[1..], later)
    ensures Increasing(priority, later)
  {
  }

  lemma {:induction false} IncreasingCons(priority: seq<string>, later: seq<string>)
    requires Distinct(priority) && priority != [] && Increasing(priority, later)
    requires forall i | 0 <= i < |later| :: later[i] in priority[1..]
    ensures Increasing(priority, [priority[0]] + later)
  {
  }

  /** Supporters are listed in priority order. */
  lemma {:induction false} RankedOrder(who: set<string>, priority: seq<string>)
    requires Distinct(priority)
    ensures Increasing(priority, Ranked(who, priority))
  {
    if priority != [] {
      RankedOrder(who, priority[1..]);
      IncreasingLater(priority, Ranked(who, priority[1..]));
      IncreasingCons(priority, Ranked(who, priority[1..]));
    }
  }

  /** The vote is well formed: every accepted entry shows its full support, no accepted key is contested,
      entries are distinct records in order, and one key of one row is represented by one run. */
  lemma {:induction false} VoteWellFormed(b: Ballot)
    requires b.Valid()
    ensures var out := Outcome(b);
            && GoodEntries(b, out.agreed) && GoodDisputes(b, out.contested)
            && Ordered(b, out.agreed) && OneRunPerKey(out.agreed)
            && (forall i | 0 <= i < |out.agreed| ::
                  |out.agreed[i].who| >= b.quorum && !Disputed(out.contested, out.agreed[i].row, out.agreed[i].key))
            && (forall i, j | 0 <= i < j < |out.agreed| ::
                  (out.agreed[i].run, out.agreed[i].index) != (out.agreed[j].run, out.agreed[j].index))
  {
    var out := Outcome(b);
    var _ := TallySound(b, |b.priority|);
    forall i | 0 <= i < |out.agreed|
      ensures |out.agreed[i].who| >= b.quorum && !Disputed(out.contested, out.agreed[i].row, out.agreed[i].key)
    {
      var e := out.agreed[i];
      assert GoodEntry(b, e);
      RankedLength(b.Supporters(e.row, e.key), b.priority);
    }
    forall i, j | 0 <= i < j < |out.agreed|
      ensures (out.agreed[i].run, out.agreed[i].index) != (out.agreed[j].run, out.agreed[j].index)
    {
      assert Before(b, out.agreed[i], out.agreed[j]);
    }
  }

  /** A row and key are contested exactly when some run reports them and too few runs support them. */
  lemma {:induction false} ContestedExactly(b: Ballot, row: Row, key: Key)
    requires b.Valid()
    ensures Disputed(Outcome(b).contested, row, key) <==>
            !b.Supported(row, key) && exists k | k in b.runs :: b.Reports(k, row, key)
  {
    var out := Outcome(b);
    var _ := TallySound(b, |b.priority|);
    if i: int :| 0 <= i < |out.contested| && out.contested[i].row == row && out.contested[i].key == key {
      DisputeReported(b, out.contested[i]);
    } else if !b.Supported(row, key) && exists k | k in b.runs :: b.Reports(k, row, key) {
      var k :| k in b.runs && b.Reports(k, row, key);
      var i :| 0 <= i < |b.groups[k]| && b.Holds(k, i, row, key);
      NothingSupportedIsLost(b, k, i, row, key);
    }
  }

  lemma {:induction false} DisputeReported(b: Ballot, d: Dispute)
    requires GoodDispute(b, d)
    ensures !b.Supported(d.row, d.key) && exists k | k in b.runs :: b.Reports(k, d.row, d.key)
  {
  }

  /** A dispute lists the assertion of every run that reports the key, and of no other. */
  lemma {:induction false} AssertionsExactly(b: Ballot, i: nat, k: string)
    requires b.Valid() && i < |Outcome(b).contested|
    ensures var d := Outcome(b).contested[i];
            k in d.assertions <==> k in b.runs && b.Reports(k, d.row, d.key)
  {
    var out := Outcome(b);
    var d := out.contested[i];
    var _ := TallySound(b, |b.priority|);
    assert GoodDispute(b, d);
    if k in d.assertions {
      assert GoodAssertion(b, d, k);
    }
    if k in b.runs && b.Reports(k, d.row, d.key) {
      var j: nat :| j < |b.groups[k]| && b.Holds(k, j, d.row, d.key);
      assert b.priority[Rank(b.priority, k)] == k;
      assert Handled(b, out, k, j);
      assert Slot(out.contested, d.row, d.key) == i;
    }
  }

  /** Raising the quorum only adds contested keys. */
  lemma {:induction false} QuorumMonotone(b: Ballot, quorum: int, row: Row, key: Key)
    requires b.Valid() && b.quorum <= quorum && Disputed(Outcome(b).contested, row, key)
    ensures Disputed(Outcome(b.(quorum := quorum)).contested, row, key)
  {
    var b' := b.(quorum := quorum);
    ContestedExactly(b, row, key);
    ContestedExactly(b', row, key);
    SameSupport(b, b', row, key);
    var k :| k in b.runs && b.Reports(k, row, key);
    assert b'.Reports(k, row, key);
  }

  lemma {:induction false} SameSupport(b: Ballot, b': Ballot, row: Row, key: Key)
    requires b.groups == b'.groups && b.runs == b'.runs && b.keyFn == b'.keyFn
    ensures b.Supporters(row, key) == b'.Supporters(row, key)
    ensures forall k :: b.Reports(k, row, key) == b'.Reports(k, row, key)
  {
    assert forall k, i :: b.Holds(k, i, row, key) == b'.Holds(k, i, row, key);
    assert forall k :: b.Reports(k, row, key) == b'.Reports(k, row, key);
    assert forall k :: b.Reads(k, row, key) == b'.Reads(k, row, key);
  }

  // Support depends on what the runs say, not on the order in which they say it

  /** Every fact that run `k` reports in `b` is reported by it in `b'`, in whatever order and number. */
  ghost predicate Covers(b: Ballot, b': Ballot) {
    && b.keyFn == b'.keyFn
    && forall k | k in b.runs :: k in b'.runs && k in b.groups && k in b'.groups && forall f | f in b.groups[k] :: f in b'.groups[k]
  }

  lemma {:induction false} BlobOfFact(g: Group, row: Row, p: nat) returns (i: nat)
    requires p < |RowBlobs(g, row)|
    ensures i < |g| && g[i].0 == row && Blob(g[i].1) == RowBlobs(g, row)[p]
  {
    var front := g[..|g| - 1];
    if p < |RowBlobs(front, row)| {
      i := BlobOfFact(front, row, p);
    } else {
      i := |g| - 1;
    }
  }

  lemma {:induction false} FactHasBlob(g: Group, row: Row, i: nat) returns (p: nat)
    requires i < |g| && g[i].0 == row
    ensures p < |RowBlobs(g, row)| && RowBlobs(g, row)[p] == Blob(g[i].1)
  {
    var front := g[..|g| - 1];
    if i < |front| {
      p := FactHasBlob(front, row, i);
    } else {
      p := |RowBlobs(front, row)|;
    }
  }

  /** A run reads a bar-free needle exactly when one of its facts in the row says it. */
  lemma {:induction false} ReadsByFact(b: Ballot, k: string, row: Row, key: Key)
    requires k in b.groups && VoteNeedle(key) != "" && '|' !in VoteNeedle(key)
    ensures b.Reads(k, row, key) <==>
            exists f | f in b.groups[k] :: f.0 == row && Contains(Blob(f.1), VoteNeedle(key))
  {
    var g, needle := b.groups[k], VoteNeedle(key);
    var blobs := RowBlobs(g, row);
    BarJoinContains(blobs, needle);
    if b.Reads(k, row, key) {
      var p :| 0 <= p < |blobs| && Contains(blobs[p], needle);
      var i := BlobOfFact(g, row, p);
      assert g[i] in g;
    }
    if exists f | f in g :: f.0 == row && Contains(Blob(f.1), needle) {
      var f :| f in g && f.0 == row && Contains(Blob(f.1), needle);
      var i :| 0 <= i < |g| && g[i] == f;
      var p := FactHasBlob(g, row, i);
      assert Contains(blobs[p], needle);
    }
  }

  /** Adding facts to a run, reordering or repeating them never removes a supporter of a bar-free needle. */
  lemma {:induction false} SupportMonotone(b: Ballot, b': Ballot, row: Row, key: Key)
    requires Covers(b, b') && '|' !in VoteNeedle(key)
    ensures b.Supporters(row, key) <= b'.Supporters(row, key)
    ensures forall k | k in b.runs :: b.Reports(k, row, key) ==> b'.Reports(k, row, key)
  {
    forall k | k in b.runs
      ensures b.Reports(k, row, key) ==> b'.Reports(k, row, key)
      ensures b.Reads(k, row, key) ==> b'.Reads(k, row, key)
    {
      if b.Reports(k, row, key) {
        var i :| 0 <= i < |b.groups[k]| && b.Holds(k, i, row, key);
        assert b.groups[k][i] in b'.groups[k];
        var j :| 0 <= j < |b'.groups[k]| && b'.groups[k][j] == b.groups[k][i];
        assert b'.Holds(k, j, row, key);
      }
      if b.Reads(k, row, key) {
        ReadsByFact(b, k, row, key);
        ReadsByFact(b', k, row, key);
      }
    }
  }

  /** The runs of `b` are runs of `b'`, with nothing but facts appended. */
  ghost predicate Extends(b: Ballot, b': Ballot) {
    && b.keyFn == b'.keyFn
    && forall k | k in b.runs :: k in b'.runs && k in b.groups && k in b'.groups && b.groups[k] <= b'.groups[k]
  }

  lemma {:induction false} RowBlobsGrow(g: Group, g': Group, row: Row)
    requires g <= g'
    ensures RowBlobs(g, row) <= RowBlobs(g', row)
  {
    if |g| < |g'| {
      RowBlobsGrow(g, g'[..|g'| - 1], row);
    } else {
      assert g == g';
    }
  }

  /** Appending facts to runs, or adding runs, never removes a supporter, whatever the needle. */
  lemma {:induction false} SupportGrows(b: Ballot, b': Ballot, row: Row, key: Key)
    requires Extends(b, b')
    ensures b.Supporters(row, key) <= b'.Supporters(row, key)
  {
    forall k | k in b.runs
      ensures b.Reports(k, row, key) ==> b'.Reports(k, row, key)
      ensures b.Reads(k, row, key) ==> b'.Reads(k, row, key)
    {
      RowBlobsGrow(b.groups[k], b'.groups[k], row);
      if b.Reports(k, row, key) {
        var i :| 0 <= i < |b.groups[k]| && b.Holds(k, i, row, key);
        assert b'.Holds(k, i, row, key);
      }
      if b.Reads(k, row, key) {
        BarJoinGrows(RowBlobs(b.groups[k], row), RowBlobs(b'.groups[k], row), VoteNeedle(key));
      }
    }
  }

  /** Ballots with the same facts per run, in any order and number, contest the same bar-free keys. */
  lemma {:induction false} ContestedByContent(b: Ballot, b': Ballot, row: Row, key: Key)
    requires b.Valid() && b'.Valid() && Covers(b, b') && Covers(b', b) && b.quorum == b'.quorum
    requires '|' !in VoteNeedle(key)
    ensures b.Supporters(row, key) == b'.Supporters(row, key)
    ensures Disputed(Outcome(b).contested, row, key) <==> Disputed(Outcome(b').contested, row, key)
  {
    SupportMonotone(b, b', row, key);
    SupportMonotone(b', b, row, key);
    ContestedExactly(b, row, key);
    ContestedExactly(b', row, key);
  }

  // The representative run

  ghost predicate Leads(b: Ballot, r: nat) {
    r < |b.priority| && b.priority[r] in b.runs && BringsSupport(b, b.priority[r])
  }

  ghost predicate BringsSupport(b: Ballot, k: string) {
    exists i, row, key :: b.Holds(k, i, row, key) && b.Supported(row, key)
  }

  /** The entry of a fact, if it is supported. */
  function SupportedFact(b: Ballot, k: string, i: nat): seq<Entry>
    requires k in b.groups && i < |b.groups[k]|
  {
    var (row, x) := b.groups[k][i];
    var key := b.keyFn(x);
    if key.Some? && b.Supported(row, key.value)
    then [Entry(row, key.value, Ranked(b.Supporters(row, key.value), b.priority), k, i, x)] else []
  }

  /** All supported facts among the first `n` of run `k`, with their multiplicity. */
  function SupportedFacts(b: Ballot, k: string, n: nat): seq<Entry>
    requires k in b.groups && n <= |b.groups[k]|
  {
    if n == 0 then [] else SupportedFacts(b, k, n - 1) + SupportedFact(b, k, n - 1)
  }

  lemma {:induction false} FirstJudgeKeeps(b: Ballot, s: State, k: string, i: nat)
    requires k in b.groups && i < |b.groups[k]|
    ensures Judge(b, [], s, k, i).agreed == s.agreed + SupportedFact(b, k, i)
  {
    var (row, x) := b.groups[k][i];
    if b.keyFn(x).Some? {
      assert b.Supported(row, b.keyFn(x).value) <==> |b.Supporters(row, b.keyFn(x).value)| >= b.quorum;
    }
  }

  lemma {:induction false} FirstPassKeepsAll(b: Ballot, s: State, k: string, n: nat)
    requires k in b.groups && n <= |b.groups[k]| && s.agreed == []
    ensures Pass(b, s, k, n).agreed == SupportedFacts(b, k, n)
  {
    if n > 0 {
      var before := Pass(b, s, k, n - 1);
      FirstPassKeepsAll(b, s, k, n - 1);
      FirstJudgeKeeps(b, before, k, n - 1);
      assert Pass(b, s, k, n) == Judge(b, s.agreed, before, k, n - 1);
    }
  }

  lemma {:induction false} NoneBeforeLeader(b: Ballot, m: nat)
    requires b.Valid() && m <= |b.priority| && forall r | 0 <= r < m :: !Leads(b, r)
    ensures Tally(b, m).agreed == []
  {
    var _ := TallySound(b, m);
    var agreed := Tally(b, m).agreed;
    if agreed != [] {
      var e := agreed[0];
      assert GoodEntry(b, e);
      var r := Rank(b.priority, e.run);
      assert b.Holds(b.priority[r], e.index, e.row, e.key);
      assert Leads(b, r);
    }
  }

  lemma {:induction false} PassExtends(b: Ballot, s: State, k: string, n: nat)
    requires k in b.groups && n <= |b.groups[k]|
    ensures var s' := Pass(b, s, k, n);
            s.agreed <= s'.agreed && forall i | |s.agreed| <= i < |s'.agreed| :: s'.agreed[i].run == k
  {
    if n > 0 {
      PassExtends(b, s, k, n - 1);
      JudgeExtends(b, s.agreed, Pass(b, s, k, n - 1), k, n - 1);
    }
  }

  lemma {:induction false} TallyExtends(b: Ballot, m: nat, m': nat)
    requires b.Valid() && m <= m' <= |b.priority|
    ensures var s, s' := Tally(b, m), Tally(b, m');
            s.agreed <= s'.agreed && forall i | |s.agreed| <= i < |s'.agreed| :: s'.agreed[i].run in b.priority[m..m']
  {
    if m < m' {
      TallyExtends(b, m, m' - 1);
      var k := b.priority[m' - 1];
      assert b.priority[m..m'] == b.priority[m..m' - 1] + [k];
      if k in b.runs {
        PassExtends(b, Tally(b, m' - 1), k, |b.groups[k]|);
      }
    }
  }

  lemma {:induction false} ToTheEnd<T>(s: seq<T>, i: nat)
    requires i <= |s|
    ensures s[i..|s|] == s[i..]
  {
  }

  /** The first run that brings a supported fact represents the rest: it keeps every supported fact with
      its multiplicity, it comes first, and what follows comes from later runs. */
  lemma {:induction false} RepresentativeKeepsAll(b: Ballot, r: nat)
    requires b.Valid() && Leads(b, r) && forall r' | 0 <= r' < r :: !Leads(b, r')
    ensures var lead, out := SupportedFacts(b, b.priority[r], |b.groups[b.priority[r]]|), Outcome(b).agreed;
            && lead != [] && lead <= out
            && forall i | |lead| <= i < |out| :: out[i].run in b.priority[r + 1..]
  {
    LeaderTally(b, r);
    LeaderBrings(b, b.priority[r]);
    RestLater(b, r, Tally(b, r + 1).agreed, Outcome(b).agreed);
  }

  /** What is accepted after the first runs comes from later ones. */
  lemma {:induction false} RestLater(b: Ballot, r: nat, first: seq<Entry>, out: seq<Entry>)
    requires b.Valid() && r < |b.priority| && first == Tally(b, r + 1).agreed && out == Outcome(b).agreed
    ensures first <= out && forall i | |first| <= i < |out| :: out[i].run in b.priority[r + 1..]
  {
    TallyExtends(b, r + 1, |b.priority|);
    ToTheEnd(b.priority, r + 1);
  }

  lemma {:induction false} LeaderTally(b: Ballot, r: nat)
    requires b.Valid() && Leads(b, r) && forall r' | 0 <= r' < r :: !Leads(b, r')
    ensures Tally(b, r + 1).agreed == SupportedFacts(b, b.priority[r], |b.groups[b.priority[r]]|)
  {
    var k := b.priority[r];
    NoneBeforeLeader(b, r);
    FirstPassKeepsAll(b, Tally(b, r), k, |b.groups[k]|);
  }

  lemma {:induction false} LeaderBrings(b: Ballot, k: string)
    requires k in b.groups && BringsSupport(b, k)
    ensures SupportedFacts(b, k, |b.groups[k]|) != []
  {
    var i, row, key :| b.Holds(k, i, row, key) && b.Supported(row, key);
    SupportedFactKept(b, k, |b.groups[k]|, i, row, key);
  }

  lemma {:induction false} SupportedFactKept(b: Ballot, k: string, n: nat, i: nat, row: Row, key: Key)
    requires k in b.groups && i < n <= |b.groups[k]| && b.Holds(k, i, row, key) && b.Supported(row, key)
    ensures Entry(row, key, Ranked(b.Supporters(row, key), b.priority), k, i, b.groups[k][i].1) in SupportedFacts(b, k, n)
  {
    var e := Entry(row, key, Ranked(b.Supporters(row, key), b.priority), k, i, b.groups[k][i].1);
    if i < n - 1 {
      SupportedFactKept(b, k, n - 1, i, row, key);
    } else {
      assert SupportedFact(b, k, i) == [e];
    }
    assert SupportedFacts(b, k, n) == SupportedFacts(b, k, n - 1) + SupportedFact(b, k, n - 1);
  }

  lemma {:induction false} SupportedFactsOf(b: Ballot, k: string, n: nat)
    requires k in b.groups && n <= |b.groups[k]|
    ensures forall i | 0 <= i < |SupportedFacts(b, k, n)| :: SupportedFacts(b, k, n)[i].run == k
  {
    if n > 0 {
      SupportedFactsOf(b, k, n - 1);
    }
  }

  ghost predicate LeadsFirst(b: Ballot, r: nat) {
    Leads(b, r) && forall r' | 0 <= r' < r :: !Leads(b, r')
  }

  lemma {:induction false} LeaderFirst(b: Ballot, r: nat)
    requires b.Valid() && LeadsFirst(b, r)
    ensures Outcome(b).agreed != [] && Outcome(b).agreed[0].run == b.priority[r]
  {
    var k := b.priority[r];
    RepresentativeKeepsAll(b, r);
    SupportedFactsOf(b, k, |b.groups[k]|);
  }

  lemma {:induction false} FirstLeader(b: Ballot, r: nat) returns (r': nat)
    requires Leads(b, r)
    ensures r' <= r && LeadsFirst(b, r')
  {
    if q: nat :| q < r && Leads(b, q) {
      r' := FirstLeader(b, q);
    } else {
      r' := r;
    }
  }

  /** A run of the priority order represents the rest if and only if it, and none before it, brings a supported fact. */
  lemma {:induction false} RepresentsExactly(b: Ballot, r: nat)
    requires b.Valid() && r < |b.priority|
    ensures Outcome(b).agreed != [] && Outcome(b).agreed[0].run == b.priority[r] <==> LeadsFirst(b, r)
  {
    if LeadsFirst(b, r) {
      LeaderFirst(b, r);
    } else if Outcome(b).agreed != [] {
      var _ := TallySound(b, |b.priority|);
      var e := Outcome(b).agreed[0];
      assert GoodEntry(b, e);
      var q := Rank(b.priority, e.run);
      assert b.Holds(b.priority[q], e.index, e.row, e.key);
      var first := FirstLeader(b, q);
      LeaderFirst(b, first);
    }
  }

  function Denial(): Fact {
    Fact("", "", "", "", "", "", "NEGATE", None, [], [], "")
  }

  /** The first run of three reports a denial, the others a price. */
  function LateLeader(denial: Fact, price: Fact): Ballot {
    Ballot(map["A" := [(Menu(1), denial)], "B" := [(Menu(1), price)], "C" := [(Menu(1), price)]],
           ["A", "B", "C"], 2, ["A", "B", "C"], KeyOf)
  }

  /** The representative need not be the first run in priority. */
  lemma {:induction false} FirstNotRepresentative()
    ensures var b := LateLeader(Denial(), Reported("판매가", "", ""));
            b.Valid() && b.priority[0] == "A" && Outcome(b).agreed != [] && Outcome(b).agreed[0].run == "B"
  {
    PriceKey("");
    PlainAttribute();
    LateLeads(Denial(), Reported("판매가", "", ""), KeyOf(Denial()).value);
    RepresentsExactly(LateLeader(Denial(), Reported("판매가", "", "")), 1);
  }

  lemma {:induction false} LateLeads(denial: Fact, price: Fact, no: Key)
    requires KeyOf(denial) == Some(no) && no.Neg? && KeyOf(price) == Some(Price(""))
    ensures var b := LateLeader(denial, price); b.Valid() && LeadsFirst(b, 1)
  {
    var b := LateLeader(denial, price);
    LateUnsupported(denial, price, no);
    assert b.Holds("B", 0, Menu(1), Price("")) && b.Holds("C", 0, Menu(1), Price(""));
    SubsetSize({"B", "C"}, b.Supporters(Menu(1), Price("")));
    assert Leads(b, 1);
  }

  lemma {:induction false} LateUnsupported(denial: Fact, price: Fact, no: Key)
    requires KeyOf(denial) == Some(no) && no.Neg? && KeyOf(price) == Some(Price(""))
    ensures !Leads(LateLeader(denial, price), 0)
  {
    var b := LateLeader(denial, price);
    forall k | k in b.Supporters(Menu(1), no)
      ensures k == "A"
    {
    }
    SubsetSize(b.Supporters(Menu(1), no), {"A"});
  }
}
