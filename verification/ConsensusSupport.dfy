/** Who supports a key, read off the facts of the runs themselves. */
module ConsensusSupport {
  import opened Strings
  import opened FactKeys
  import opened KeyForms
  import opened RowLinks
  import opened RowNames
  import opened Consensus

  /** The fact of the row says the key: it has it, or its text reads what is searched for. */
  ghost predicate SaysKey(b: Ballot, x: Fact, key: Key) {
    b.keyFn(x) == Some(key) || (VoteNeedle(key) != "" && RowNames.Within(Blob(x), VoteNeedle(key)))
  }

  /** Some fact of the run and the row says the key. */
  ghost predicate SaidBy(b: Ballot, k: string, row: Row, key: Key) {
    k in b.groups && exists x :: (row, x) in b.groups[k] && SaysKey(b, x, key)
  }

  ghost predicate ReportedBy(b: Ballot, k: string, row: Row, key: Key) {
    k in b.groups && exists x :: (row, x) in b.groups[k] && b.keyFn(x) == Some(key)
  }

  lemma {:induction false} ReportsExactly(b: Ballot, k: string, row: Row, key: Key)
    ensures b.Reports(k, row, key) <==> ReportedBy(b, k, row, key)
  {
    if b.Reports(k, row, key) {
      var i :| 0 <= i < |b.groups[k]| && b.Holds(k, i, row, key);
      assert (row, b.groups[k][i].1) in b.groups[k];
    }
    if ReportedBy(b, k, row, key) {
      var x :| (row, x) in b.groups[k] && b.keyFn(x) == Some(key);
      var i :| 0 <= i < |b.groups[k]| && b.groups[k][i] == (row, x);
      assert b.Holds(k, i, row, key);
    }
  }

  predicate TextAt(g: Group, row: Row, n: nat, text: string) {
    n < |g| && g[n].0 == row && text == Blob(g[n].1)
  }

  /** The texts of a row are those of its facts, one each, in their order. */
  lemma {:induction false} RowTexts(g: Group, row: Row) returns (at: seq<nat>, texts: seq<string>)
    ensures texts == RowBlobs(g, row) && |at| == |texts|
    ensures forall n | 0 <= n < |at| :: TextAt(g, row, at[n], texts[n])
    ensures forall m, n | 0 <= m < n < |at| :: at[m] < at[n]
    ensures forall i: nat | i < |g| :: i in at <==> g[i].0 == row
  {
    at, texts := [], [];
    if g != [] {
      var last, front := g[|g| - 1], g[..|g| - 1];
      at, texts := RowTexts(front, row);
      assert front + [last] == g;
      at, texts := RowTextsNext(front, last, row, at, texts);
    }
  }

  lemma {:induction false} RowTextsNext(front: Group, last: (Row, Fact), row: Row, at: seq<nat>, texts: seq<string>)
    returns (at': seq<nat>, texts': seq<string>)
    requires |at| == |texts| && texts == RowBlobs(front, row)
    requires forall n | 0 <= n < |at| :: TextAt(front, row, at[n], texts[n])
    requires forall m, n | 0 <= m < n < |at| :: at[m] < at[n]
    requires forall i: nat | i < |front| :: i in at <==> front[i].0 == row
    ensures texts' == RowBlobs(front + [last], row) && |at'| == |texts'|
    ensures forall n | 0 <= n < |at'| :: TextAt(front + [last], row, at'[n], texts'[n])
    ensures forall m, n | 0 <= m < n < |at'| :: at'[m] < at'[n]
    ensures forall i: nat | i <= |front| :: i in at' <==> (front + [last])[i].0 == row
  {
    var g := front + [last];
    assert g[..|g| - 1] == front && g[|front|] == last;
    forall n | 0 <= n < |at|
      ensures TextAt(g, row, at[n], texts[n])
    {
      assert TextAt(front, row, at[n], texts[n]);
    }
    if last.0 == row {
      at', texts' := at + [|front|], texts + [Blob(last.1)];
      assert TextAt(g, row, |front|, Blob(last.1));
    } else {
      at', texts' := at, texts;
    }
  }

  predicate EntryTextAt(entries: seq<Entry>, row: Row, n: nat, text: string) {
    n < |entries| && entries[n].row == row && text == Blob(entries[n].fact)
  }

  /** The accepted texts of a row are those of its accepted records, one each, in their order. */
  lemma {:induction false} EntryTexts(entries: seq<Entry>, row: Row) returns (at: seq<nat>, texts: seq<string>)
    ensures texts == EntryBlobs(entries, row) && |at| == |texts|
    ensures forall n | 0 <= n < |at| :: EntryTextAt(entries, row, at[n], texts[n])
    ensures forall m, n | 0 <= m < n < |at| :: at[m] < at[n]
    ensures forall i: nat | i < |entries| :: i in at <==> entries[i].row == row
  {
    var g := Accepted(entries);
    at, texts := RowTexts(g, row);
    AcceptedTexts(entries, row);
    forall n | 0 <= n < |at|
      ensures EntryTextAt(entries, row, at[n], texts[n])
    {
      assert TextAt(g, row, at[n], texts[n]);
    }
  }

  /** The accepted records as the facts of a run. */
  function Accepted(entries: seq<Entry>): (g: Group)
    ensures |g| == |entries|
  {
    seq(|entries|, i requires 0 <= i < |entries| => (entries[i].row, entries[i].fact))
  }

  lemma {:induction false} AcceptedTexts(entries: seq<Entry>, row: Row)
    ensures RowBlobs(Accepted(entries), row) == EntryBlobs(entries, row)
  {
    if entries != [] {
      AcceptedTexts(entries[..|entries| - 1], row);
      assert Accepted(entries)[..|entries| - 1] == Accepted(entries[..|entries| - 1]);
    }
  }

  lemma {:induction false} ReadsSomewhere(g: Group, row: Row, needle: string)
    requires needle != "" && '|' !in needle
    ensures Contains(BarJoin(RowBlobs(g, row)), needle) <==> exists x :: (row, x) in g && RowNames.Within(Blob(x), needle)
  {
    var at, texts := RowTexts(g, row);
    BarJoinContains(texts, needle);
    if n :| 0 <= n < |texts| && Contains(texts[n], needle) {
      WithinExactly(texts[n], needle);
      assert TextAt(g, row, at[n], texts[n]);
      assert g[at[n]] in g && g[at[n]] == (row, g[at[n]].1);
    }
    if x :| (row, x) in g && RowNames.Within(Blob(x), needle) {
      var i: nat :| i < |g| && g[i] == (row, x);
      assert i in at;
      var n :| 0 <= n < |at| && at[n] == i;
      assert TextAt(g, row, at[n], texts[n]);
      WithinExactly(texts[n], needle);
    }
  }

  /** A run supports a key with a bar-free needle if and only if some fact of the row says it. */
  lemma {:induction false} SupporterExactly(b: Ballot, k: string, row: Row, key: Key)
    requires '|' !in VoteNeedle(key)
    ensures k in b.Supporters(row, key) <==> k in b.runs && SaidBy(b, k, row, key)
  {
    ReportsExactly(b, k, row, key);
    if k in b.groups && VoteNeedle(key) != "" {
      ReadsSomewhere(b.groups[k], row, VoteNeedle(key));
    }
  }

  /** Any key, bars or not: the run reports it, or its joined text of the row reads the needle. */
  lemma {:induction false} SupporterOfAny(b: Ballot, k: string, row: Row, key: Key)
    ensures k in b.Supporters(row, key) <==>
            k in b.runs && k in b.groups &&
            (ReportedBy(b, k, row, key) ||
             (VoteNeedle(key) != "" && RowNames.Within(BarJoin(RowBlobs(b.groups[k], row)), VoteNeedle(key))))
  {
    ReportsExactly(b, k, row, key);
    if k in b.groups {
      WithinExactly(BarJoin(RowBlobs(b.groups[k], row)), VoteNeedle(key));
    }
  }

  /** A key is supported if and only if there is a set of runs, as many as the quorum, all of which support it. */
  lemma {:induction false} SupportedExactly(b: Ballot, row: Row, key: Key)
    requires '|' !in VoteNeedle(key)
    ensures b.Supported(row, key) <==> |set k | k in b.runs && SaidBy(b, k, row, key)| >= b.quorum
  {
    forall k {
      SupporterExactly(b, k, row, key);
    }
    assert b.Supporters(row, key) == set k | k in b.runs && SaidBy(b, k, row, key);
  }
}
