/** The vote as it is carried out: an index over all runs first, then one pass per run in priority order. */
module ConsensusVote {
  import opened Strings
  import opened FactKeys
  import opened Consensus
  import opened ConsensusLaws

  type ExactIndex = map<(Row, Key), set<string>>
  type TextIndex = map<Row, map<string, string>>

  function ExactAt(exact: ExactIndex, row: Row, key: Key): set<string> {
    if (row, key) in exact then exact[(row, key)] else {}
  }

  function TextAt(text: TextIndex, row: Row, k: string): string {
    if row in text && k in text[row] then text[row][k] else ""
  }

  /** The supporters as read off the two indices. */
  function SupportFrom(exact: ExactIndex, text: TextIndex, row: Row, key: Key): set<string> {
    var needle := VoteNeedle(key);
    ExactAt(exact, row, key) +
    if needle == "" || row !in text then {} else set k | k in text[row] && Contains(text[row][k], needle)
  }

  ghost predicate ReportsBefore(b: Ballot, k: string, n: nat, row: Row, key: Key) {
    exists i | 0 <= i < n :: b.Holds(k, i, row, key)
  }

  /** The runs of `done` that report the key, and run `k` when one of its first `n` facts does. */
  ghost function Reporting(b: Ballot, done: set<string>, k: string, n: nat, row: Row, key: Key): set<string> {
    (set k' | k' in done && b.Reports(k', row, key)) + if ReportsBefore(b, k, n, row, key) then {k} else {}
  }

  /** The exact index covers the runs of `done`, and the first `n` facts of run `k`. */
  ghost predicate ExactCovers(b: Ballot, exact: ExactIndex, done: set<string>, k: string, n: nat) {
    forall row, key :: ExactAt(exact, row, key) == Reporting(b, done, k, n, row, key)
  }

  /** The text index covers the runs of `done`, and the first `n` facts of run `k`. */
  ghost predicate TextCovers(b: Ballot, text: TextIndex, done: set<string>, k: string, n: nat)
    requires k in b.groups && n <= |b.groups[k]|
  {
    && (forall row | row in text :: text[row].Keys <= done + {k})
    && (forall row, k' | k' in done && k' in b.groups :: TextAt(text, row, k') == BarJoin(RowBlobs(b.groups[k'], row)))
    && (forall row :: TextAt(text, row, k) == BarJoin(RowBlobs(b.groups[k][..n], row)))
  }

  lemma {:induction false} RowBlobsNext(g: Group, n: nat, row: Row)
    requires n < |g|
    ensures BarJoin(RowBlobs(g[..n + 1], row)) ==
            if g[n].0 == row then BarJoin(RowBlobs(g[..n], row)) + "|" + Blob(g[n].1) else BarJoin(RowBlobs(g[..n], row))
  {
    assert g[..n + 1][..n] == g[..n];
    BarJoinSnoc(RowBlobs(g[..n], row), Blob(g[n].1));
  }

  method IndexKey(b: Ballot, exact: ExactIndex, ghost done: set<string>, k: string, n: nat) returns (exact': ExactIndex)
    requires k in b.groups && n < |b.groups[k]| && ExactCovers(b, exact, done, k, n)
    ensures ExactCovers(b, exact', done, k, n + 1)
  {
    var (row, x) := b.groups[k][n];
    exact' := exact;
    var key := b.keyFn(x);
    if key.Some? {
      exact' := exact[(row, key.value) := ExactAt(exact, row, key.value) + {k}];
    }
    forall row', key'
      ensures ExactAt(exact', row', key') == Reporting(b, done, k, n + 1, row', key')
    {
      assert ExactAt(exact, row', key') == Reporting(b, done, k, n, row', key');
      assert ReportsBefore(b, k, n + 1, row', key') <==> ReportsBefore(b, k, n, row', key') || b.Holds(k, n, row', key');
    }
  }

  /** The text index with one more piece of text for a run in a row. */
  function Said(text: TextIndex, row: Row, k: string, piece: string): TextIndex {
    text[row := (if row in text then text[row] else map[])[k := TextAt(text, row, k) + "|" + piece]]
  }

  lemma {:induction false} SaidAt(text: TextIndex, row: Row, k: string, piece: string, row': Row, k': string)
    ensures TextAt(Said(text, row, k, piece), row', k') ==
            if (row', k') == (row, k) then TextAt(text, row, k) + "|" + piece else TextAt(text, row', k')
  {
  }

  lemma {:induction false} SaidKeys(text: TextIndex, row: Row, k: string, piece: string, keys: set<string>)
    requires k in keys && forall row' | row' in text :: text[row'].Keys <= keys
    ensures forall row' | row' in Said(text, row, k, piece) :: Said(text, row, k, piece)[row'].Keys <= keys
  {
  }

  lemma {:induction false} SaidCovers(b: Ballot, text: TextIndex, done: set<string>, k: string, n: nat)
    requires k in b.groups && n < |b.groups[k]| && k !in done && TextCovers(b, text, done, k, n)
    ensures var (row, x) := b.groups[k][n]; TextCovers(b, Said(text, row, k, Blob(x)), done, k, n + 1)
  {
    var (row, x) := b.groups[k][n];
    var text' := Said(text, row, k, Blob(x));
    SaidKeys(text, row, k, Blob(x), done + {k});
    forall row', k' | k' in done && k' in b.groups
      ensures TextAt(text', row', k') == BarJoin(RowBlobs(b.groups[k'], row'))
    {
      SaidAt(text, row, k, Blob(x), row', k');
    }
    forall row'
      ensures TextAt(text', row', k) == BarJoin(RowBlobs(b.groups[k][..n + 1], row'))
    {
      SaidAt(text, row, k, Blob(x), row', k);
      RowBlobsNext(b.groups[k], n, row');
    }
  }

  method IndexText(b: Ballot, text: TextIndex, ghost done: set<string>, k: string, n: nat) returns (text': TextIndex)
    requires k in b.groups && n < |b.groups[k]| && k !in done && TextCovers(b, text, done, k, n)
    ensures TextCovers(b, text', done, k, n + 1)
  {
    var (row, x) := b.groups[k][n];
    var ofRow := if row in text then text[row] else map[];
    text' := text[row := ofRow[k := TextAt(text, row, k) + "|" + Blob(x)]];
    SaidCovers(b, text, done, k, n);
  }

  /** The index over all runs yields exactly the supporters of every row and key. */
  method Index(b: Ballot) returns (exact: ExactIndex, text: TextIndex)
    requires b.Valid()
    ensures forall row, key :: SupportFrom(exact, text, row, key) == b.Supporters(row, key)
  {
    exact, text := map[], map[];
    ghost var done: set<string> := {};
    for r := 0 to |b.runs|
      invariant done == set k | k in b.runs[..r]
      invariant Covered(b, exact, text, done)
    {
      var k := b.runs[r];
      var g := b.groups[k];
      assert b.runs[..r + 1] == b.runs[..r] + [k];
      for n := 0 to |g|
        invariant ExactCovers(b, exact, done, k, n) && TextCovers(b, text, done, k, n)
      {
        exact := IndexKey(b, exact, done, k, n);
        text := IndexText(b, text, done, k, n);
      }
      assert g[..|g|] == g;
      forall row, key
        ensures Reporting(b, done, k, |g|, row, key) == set k' | k' in done + {k} && b.Reports(k', row, key)
      {
        assert b.Reports(k, row, key) <==> ReportsBefore(b, k, |g|, row, key);
      }
      done := done + {k};
    }
    assert b.runs[..|b.runs|] == b.runs;
    forall row, key
      ensures SupportFrom(exact, text, row, key) == b.Supporters(row, key)
    {
      CoveredSupport(b, exact, text, done, row, key);
    }
  }

  /** The indices cover the runs of `done` completely. */
  ghost predicate Covered(b: Ballot, exact: ExactIndex, text: TextIndex, done: set<string>) {
    && (forall row, key :: ExactAt(exact, row, key) == set k | k in done && b.Reports(k, row, key))
    && (forall row | row in text :: text[row].Keys <= done)
    && (forall row, k | k in done && k in b.groups :: TextAt(text, row, k) == BarJoin(RowBlobs(b.groups[k], row)))
  }

  lemma {:induction false} CoveredSupport(
    b: Ballot, exact: ExactIndex, text: TextIndex, done: set<string>, row: Row, key: Key)
    requires b.Valid() && Covered(b, exact, text, done) && forall k :: k in done <==> k in b.runs
    ensures SupportFrom(exact, text, row, key) == b.Supporters(row, key)
  {
  }

  // The passes

  type Ident = (Row, Key, nat)

  function Entries(agreed: seq<(Ident, Entry)>): (r: seq<Entry>)
    ensures |r| == |agreed| && forall i | 0 <= i < |r| :: r[i] == agreed[i].1
  {
    seq(|agreed|, i requires 0 <= i < |agreed| => agreed[i].1)
  }

  /** Assignment into an insertion-ordered dictionary: an existing identity is overwritten in place. */
  function Put(agreed: seq<(Ident, Entry)>, ident: Ident, e: Entry): seq<(Ident, Entry)> {
    if agreed == [] then [(ident, e)]
    else if agreed[0].0 == ident then [(ident, e)] + agreed[1..]
    else [agreed[0]] + Put(agreed[1..], ident, e)
  }

  lemma {:induction false} PutNew(agreed: seq<(Ident, Entry)>, ident: Ident, e: Entry)
    requires forall i | 0 <= i < |agreed| :: agreed[i].0 != ident
    ensures Put(agreed, ident, e) == agreed + [(ident, e)]
  {
    if agreed != [] {
      PutNew(agreed[1..], ident, e);
    }
  }

  /** Every identity carries its row, its key and its position: nothing accepted is ever overwritten. */
  ghost predicate Numbered(agreed: seq<(Ident, Entry)>) {
    forall i | 0 <= i < |agreed| :: agreed[i].0 == (agreed[i].1.row, agreed[i].1.key, i)
  }

  function AcceptedAt(accepted: map<Row, string>, row: Row): string {
    if row in accepted then accepted[row] else ""
  }

  /** The accepted text of every row is the joined text of the entries. */
  ghost predicate Accumulated(accepted: map<Row, string>, entries: seq<Entry>) {
    forall row :: AcceptedAt(accepted, row) == BarJoin(EntryBlobs(entries, row))
  }

  lemma {:induction false} AccumulateNext(accepted: map<Row, string>, entries: seq<Entry>, e: Entry)
    requires Accumulated(accepted, entries)
    ensures Accumulated(accepted[e.row := AcceptedAt(accepted, e.row) + "|" + Blob(e.fact)], entries + [e])
  {
    var accepted' := accepted[e.row := AcceptedAt(accepted, e.row) + "|" + Blob(e.fact)];
    BarJoinSnoc(EntryBlobs(entries, e.row), Blob(e.fact));
    forall row
      ensures AcceptedAt(accepted', row) == BarJoin(EntryBlobs(entries + [e], row))
    {
      EntryBlobsAppend(entries, e, row);
      assert row != e.row ==> AcceptedAt(accepted', row) == AcceptedAt(accepted, row);
    }
  }

  /** Adds the text of what run `k` got accepted, leaving the text of earlier runs alone. */
  method Accumulate(accepted: map<Row, string>, agreed: seq<(Ident, Entry)>, k: string, ghost n: nat)
    returns (accepted': map<Row, string>)
    requires n <= |agreed| && Accumulated(accepted, Entries(agreed)[..n])
    requires forall i | 0 <= i < |agreed| :: agreed[i].1.run == k <==> n <= i
    ensures Accumulated(accepted', Entries(agreed))
  {
    accepted' := accepted;
    ghost var all := Entries(agreed);
    for i := 0 to |agreed|
      invariant Accumulated(accepted', all[..if i < n then n else i])
    {
      if agreed[i].1.run == k {
        var e := agreed[i].1;
        AccumulateNext(accepted', all[..i], e);
        TakeNext(all, i);
        accepted' := accepted'[e.row := AcceptedAt(accepted', e.row) + "|" + Blob(e.fact)];
      }
    }
    assert all[..|agreed|] == all;
  }

  lemma {:induction false} TakeNext<T>(s: seq<T>, i: nat)
    requires i < |s|
    ensures s[..i] + [s[i]] == s[..i + 1]
  {
  }

  /** Decides one fact of run `k`; `before` is the tally when the run began. */
  method Decide(b: Ballot, exact: ExactIndex, text: TextIndex, accepted: map<Row, string>, ghost before: seq<Entry>,
                representative: bool, agreed: seq<(Ident, Entry)>, contested: seq<Dispute>, present: set<(Row, Key)>,
                k: string, i: nat)
    returns (agreed': seq<(Ident, Entry)>, contested': seq<Dispute>, present': set<(Row, Key)>)
    requires k in b.groups && i < |b.groups[k]| && Numbered(agreed)
    requires forall row, key :: SupportFrom(exact, text, row, key) == b.Supporters(row, key)
    requires Accumulated(accepted, before) && representative == (before == [])
    ensures State(Entries(agreed'), contested', present') == Judge(b, before, State(Entries(agreed), contested, present), k, i)
    ensures Numbered(agreed')
  {
    agreed', contested', present' := agreed, contested, present;
    var (row, x) := b.groups[k][i];
    var found := b.keyFn(x);
    if found.Some? {
      var key := found.value;
      var who := SupportFrom(exact, text, row, key);
      if |who| < b.quorum {
        var first := Dispute(row, key, |who|, |b.runs|, Ranked(who, b.priority), map[]);
        contested' := FileDispute(contested, first, k, x.assertion);
      } else if (row, key) !in present || representative {
        present' := present + {(row, key)};
        var needle := VoteNeedle(key);
        if representative || needle == "" || !Contains(AcceptedAt(accepted, row), needle) {
          agreed' := Accept(agreed, Entry(row, key, Ranked(who, b.priority), k, i, x));
        }
      }
    }
  }

  method Accept(agreed: seq<(Ident, Entry)>, e: Entry) returns (agreed': seq<(Ident, Entry)>)
    requires Numbered(agreed)
    ensures Numbered(agreed') && Entries(agreed') == Entries(agreed) + [e]
  {
    PutNew(agreed, (e.row, e.key, |agreed|), e);
    agreed' := Put(agreed, (e.row, e.key, |agreed|), e);
  }

  method Vote(b: Ballot) returns (agreed: seq<(Ident, Entry)>, contested: seq<Dispute>)
    requires b.Valid()
    ensures Entries(agreed) == Outcome(b).agreed && contested == Outcome(b).contested && Numbered(agreed)
  {
    var exact, text := Index(b);
    var accepted, present := map[], {};
    agreed, contested := [], [];
    for m := 0 to |b.priority|
      invariant State(Entries(agreed), contested, present) == Tally(b, m)
      invariant Numbered(agreed) && Accumulated(accepted, Entries(agreed))
    {
      var k := b.priority[m];
      if k in b.runs {
        ghost var before := Tally(b, m);
        var representative, g := agreed == [], b.groups[k];
        for i := 0 to |g|
          invariant State(Entries(agreed), contested, present) == Pass(b, before, k, i) && Numbered(agreed)
        {
          agreed, contested, present :=
            Decide(b, exact, text, accepted, before.agreed, representative, agreed, contested, present, k, i);
        }
        OwnEntries(b, m);
        assert Entries(agreed)[..|before.agreed|] == before.agreed;
        accepted := Accumulate(accepted, agreed, k, |before.agreed|);
      }
    }
  }

  /** The entries a run adds, and only those, are its own. */
  lemma {:induction false} OwnEntries(b: Ballot, m: nat)
    requires b.Valid() && m < |b.priority| && b.priority[m] in b.runs
    ensures var before, after := Tally(b, m).agreed, Tally(b, m + 1).agreed;
            before <= after && forall i | 0 <= i < |after| :: after[i].run == b.priority[m] <==> |before| <= i
  {
    var s, k := Tally(b, m), b.priority[m];
    PassExtends(b, s, k, |b.groups[k]|);
    var _ := TallySound(b, m);
    RankOf(b.priority, m);
    forall i | 0 <= i < |s.agreed|
      ensures s.agreed[i].run != k
    {
      assert Rank(b.priority, s.agreed[i].run) < m;
    }
  }
}
