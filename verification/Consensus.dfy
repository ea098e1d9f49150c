/** The vote that turns several extraction runs into one reference: what is agreed, and what stays contested. */
module Consensus {
  import opened Strings
  import opened Collections
  import opened FactKeys

  type Group = seq<(Row, Fact)>

  /** One vote: the facts of every run by row, the quorum, the order in which runs are consulted, and the key function. */
  datatype Ballot = Ballot(
    groups: map<string, Group>, runs: seq<string>, quorum: int, priority: seq<string>, keyFn: Fact -> Option<Key>)
  {
    predicate Valid() {
      Distinct(runs) && Distinct(priority) && forall k | k in runs :: k in groups && k in priority
    }

    /** Position `i` of run `k` holds a fact of this row and key. */
    predicate Holds(k: string, i: int, row: Row, key: Key) {
      k in groups && 0 <= i < |groups[k]| && groups[k][i].0 == row && keyFn(groups[k][i].1) == Some(key)
    }

    /** The run reports the very same key in this row. */
    predicate Reports(k: string, row: Row, key: Key) {
      k in groups && exists i | 0 <= i < |groups[k]| :: Holds(k, i, row, key)
    }

    /** The run's text of this row contains the needle of the key. */
    predicate Reads(k: string, row: Row, key: Key) {
      k in groups && VoteNeedle(key) != "" && Contains(BarJoin(RowBlobs(groups[k], row)), VoteNeedle(key))
    }

    function Supporters(row: Row, key: Key): set<string> {
      set k | k in runs && (Reports(k, row, key) || Reads(k, row, key))
    }

    predicate Supported(row: Row, key: Key) {
      |Supporters(row, key)| >= quorum
    }
  }

  /** The texts of the facts of one row, in order. */
  function RowBlobs(g: Group, row: Row): seq<string> {
    if g == [] then [] else
      var last, before := g[|g| - 1], RowBlobs(g[..|g| - 1], row);
      if last.0 == row then before + [Blob(last.1)] else before
  }

  /** The members of `who` in priority order: Python's `sorted(who, key=priority.index)`. */
  function Ranked(who: set<string>, priority: seq<string>): (r: seq<string>)
    ensures forall k :: k in r <==> k in who && k in priority
  {
    if priority == [] then [] else
      var r := Ranked(who, priority[1..]);
      assert priority == [priority[0]] + priority[1..];
      if priority[0] in who then [priority[0]] + r else r
  }

  /** An accepted fact: its row and key, its supporters, and the record chosen to represent it
      (the record is identified by its run and its position there). */
  datatype Entry = Entry(row: Row, key: Key, who: seq<string>, run: string, index: nat, fact: Fact)

  datatype Dispute = Dispute(
    row: Row, key: Key, votes: nat, of: nat, runs: seq<string>, assertions: map<string, string>)

  datatype State = State(agreed: seq<Entry>, contested: seq<Dispute>, present: set<(Row, Key)>)

  function EntryBlobs(entries: seq<Entry>, row: Row): seq<string> {
    if entries == [] then [] else
      var last, before := entries[|entries| - 1], EntryBlobs(entries[..|entries| - 1], row);
      if last.row == row then before + [Blob(last.fact)] else before
  }

  /** The accepted text of the row already contains the needle. */
  predicate Subsumed(accepted: seq<Entry>, row: Row, key: Key) {
    VoteNeedle(key) != "" && Contains(BarJoin(EntryBlobs(accepted, row)), VoteNeedle(key))
  }

  /** The place of the dispute about this row and key, or the length when there is none. */
  function Slot(disputes: seq<Dispute>, row: Row, key: Key): (j: nat)
    ensures j <= |disputes|
    ensures j < |disputes| ==> disputes[j].row == row && disputes[j].key == key
    ensures forall i | 0 <= i < j :: disputes[i].row != row || disputes[i].key != key
  {
    if disputes == [] || (disputes[0].row == row && disputes[0].key == key) then 0
    else 1 + Slot(disputes[1..], row, key)
  }

  /** Files one more run under the dispute of this row and key, starting one when there is none;
      a run's first assertion stays. */
  function FileDispute(disputes: seq<Dispute>, first: Dispute, run: string, assertion: string): seq<Dispute> {
    var j := Slot(disputes, first.row, first.key);
    if j == |disputes| then disputes + [first.(assertions := map[run := assertion])]
    else if run in disputes[j].assertions then disputes
    else disputes[j := disputes[j].(assertions := disputes[j].assertions[run := assertion])]
  }

  /** What one fact of run `k` does to the tally; `accepted` is what was agreed before the run. */
  function Judge(b: Ballot, accepted: seq<Entry>, s: State, k: string, i: nat): State
    requires k in b.groups && i < |b.groups[k]|
  {
    var (row, x) := b.groups[k][i];
    match b.keyFn(x)
    case None => s
    case Some(key) =>
      var who := b.Supporters(row, key);
      var representative := accepted == [];
      if |who| < b.quorum then
        var first := Dispute(row, key, |who|, |b.runs|, Ranked(who, b.priority), map[]);
        s.(contested := FileDispute(s.contested, first, k, x.assertion))
      else if (row, key) in s.present && !representative then s
      else
        var s' := s.(present := s.present + {(row, key)});
        if !representative && Subsumed(accepted, row, key) then s'
        else s'.(agreed := s.agreed + [Entry(row, key, Ranked(who, b.priority), k, i, x)])
  }

  /** The first `n` facts of run `k`, starting from `s`. */
  function Pass(b: Ballot, s: State, k: string, n: nat): State
    requires k in b.groups && n <= |b.groups[k]|
  {
    if n == 0 then s else Judge(b, s.agreed, Pass(b, s, k, n - 1), k, n - 1)
  }

  /** The vote over the first `m` runs of the priority order. */
  function Tally(b: Ballot, m: nat): State
    requires b.Valid() && m <= |b.priority|
  {
    if m == 0 then State([], [], {})
    else
      var s, k := Tally(b, m - 1), b.priority[m - 1];
      if k in b.runs then Pass(b, s, k, |b.groups[k]|) else s
  }

  function Outcome(b: Ballot): State
    requires b.Valid()
  {
    Tally(b, |b.priority|)
  }
}
