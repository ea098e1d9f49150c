/** Which supported facts every vote keeps: exactly those whose needle has no bar. */
module ConsensusBars {
  import opened Strings
  import opened Collections
  import opened FactKeys
  import opened Consensus
  import opened ConsensusLaws
  import opened PlainFacts
  import opened Spelling

  // Normalisation and the bar

  /** The text of a key before it is normalised into the needle. */
  function RawNeedle(k: Key): string {
    match k
    case Num(v, u) => v + Replace(u, "회", "번")
    case Step(_, text) => text
    case Txt(v, _) => v
    case Neg(_) => ""
    case Price(_) => ""
  }

  lemma {:induction false} NeedleOfRaw(k: Key)
    ensures VoteNeedle(k) == Normal(RawNeedle(k))
  {
    assert Squeeze("") == "";
  }

  lemma {:induction false} EraseBar(a: string, b: string, drop: set<char>)
    requires '|' !in drop
    ensures Erase(a + "|" + b, drop) == Erase(a, drop) + "|" + Erase(b, drop)
  {
    EraseThree(a, "|", b, drop);
    EraseNothing("|", drop);
  }

  lemma {:induction false} CorrectedBar(a: string, b: string)
    ensures Corrected(a + "|" + b) == Corrected(a) + "|" + Corrected(b)
  {
    var s, t := a + "|" + b, Corrected(a) + "|" + Corrected(b);
    forall i | 0 <= i < |s|
      ensures Corrected(s)[i] == t[i]
    {
      assert s[|a|] == '|';
      if i < |a| {
        assert s[i] == a[i];
      } else if i > |a| {
        assert s[i] == b[i - |a| - 1];
      }
    }
  }

  /** Normalising a text normalises what is before and behind a bar. */
  lemma {:induction false} NormalBar(a: string, b: string)
    ensures Normal(a + "|" + b) == Normal(a) + "|" + Normal(b)
  {
    EraseBar(a, b, SPACES + {'/', '·'});
    CorrectedBar(Squeeze(a), Squeeze(b));
    EraseBar(Corrected(Squeeze(a)), Corrected(Squeeze(b)), BRACKETS);
    NormalExactly(a + "|" + b);
    NormalExactly(a);
    NormalExactly(b);
  }

  /** No bar appears by normalising. */
  lemma {:induction false} NormalMakesNoBar(s: string)
    requires '|' in Normal(s)
    ensures '|' in s
  {
    var a := Squeeze(s);
    NormalExactly(s);
    EraseMembers(Corrected(a), BRACKETS);
    var i :| 0 <= i < |a| && Corrected(a)[i] == '|';
    assert a[i] in a;
    EraseMembers(s, SPACES + {'/', '·'});
  }

  // A vote that loses a barred fact

  /** A price fact with nothing but its original wording. */
  function Priced(wording: string): Fact {
    Fact("", "", "판매가", "", "", "", "", None, [], [], wording)
  }

  lemma {:induction false} ConcatFour(t: string)
    ensures Concat(["", "", "", t]) == t
  {
    assert ["", "", "", t][1..] == ["", "", t] && ["", "", t][1..] == ["", t] && ["", t][1..] == [t] && [t][1..] == [];
    assert Concat([t]) == t + Concat([]);
    assert Concat(["", t]) == "" + Concat([t]);
    assert Concat(["", "", t]) == "" + Concat(["", t]);
  }

  lemma {:induction false} PricedBlob(wording: string)
    ensures Blob(Priced(wording)) == Normal(wording)
  {
    ConcatFour(wording);
    assert ["", "", "", wording] + [] + [] == ["", "", "", wording];
  }

  lemma {:induction false} PricedKey(wording: string)
    ensures KeyOf(Priced(wording)) == Some(Price(""))
  {
    PriceColumn();
    assert Squeeze("") == "" && NoCommas("") == "";
  }

  lemma {:induction false} BarJoinPair(a: string, b: string)
    ensures BarJoin([a, b]) == "|" + a + "|" + b
  {
    BarJoinSnoc([], a);
    BarJoinSnoc([a], b);
    assert [] + [a] == [a];
    assert [a] + [b] == [a, b];
    assert "" + "|" + a == "|" + a;
  }

  lemma {:induction false} JoinedPair(a: string, b: string)
    ensures Contains(BarJoin([a, b]), a + "|" + b)
  {
    BarJoinPair(a, b);
    assert "|" + a + "|" + b == "|" + (a + "|" + b);
    BehindBar(a + "|" + b);
  }

  const ROW := Menu(1)

  /** The name of the run at place `i`. */
  function RunName(i: nat): (name: string)
    ensures |name| == i + 1
  {
    seq(i + 1, _ => 'A')
  }

  function RunNames(m: nat): seq<string> {
    seq(m, i requires 0 <= i < m => RunName(i))
  }

  /** The first run reports two prices in a row, every other run these and one fact more. */
  function Straddling(m: nat, quorum: int, before: string, after: string, y: Fact): Ballot {
    var prices := [(ROW, Priced(before)), (ROW, Priced(after))];
    Ballot(map k | k in RunNames(m) :: if k == RunName(0) then prices else prices + [(ROW, y)],
           RunNames(m), quorum, RunNames(m), KeyOf)
  }

  /** The vote of `m` runs to this quorum, and what its runs report. */
  ghost predicate Shaped(b: Ballot, m: nat, before: string, after: string, y: Fact) {
    && m >= 2 && b.quorum <= m && b.Valid() && b.runs == b.priority == RunNames(m) && b.keyFn == KeyOf
    && RunName(0) in b.groups && b.groups[RunName(0)] == [(ROW, Priced(before)), (ROW, Priced(after))]
    && forall i: nat | 0 < i < m ::
         RunName(i) in b.groups && b.groups[RunName(i)] == [(ROW, Priced(before)), (ROW, Priced(after)), (ROW, y)]
  }

  lemma {:induction false} NamesDistinct(m: nat)
    ensures Distinct(RunNames(m)) && forall i: nat | i < m :: RunName(i) in RunNames(m)
  {
    forall i: nat | i < m
      ensures RunName(i) in RunNames(m)
    {
      assert RunNames(m)[i] == RunName(i);
    }
    forall i, j | 0 <= i < j < m
      ensures RunNames(m)[i] != RunNames(m)[j]
    {
      assert |RunNames(m)[i]| == i + 1 && |RunNames(m)[j]| == j + 1;
    }
  }

  lemma {:induction false} StraddlingShaped(m: nat, quorum: int, before: string, after: string, y: Fact) returns (b: Ballot)
    requires m >= 2 && quorum <= m
    ensures b == Straddling(m, quorum, before, after, y) && b.quorum == quorum && Shaped(b, m, before, after, y)
  {
    b := Straddling(m, quorum, before, after, y);
    NamesDistinct(m);
    forall i: nat | 0 < i < m
      ensures RunName(i) != RunName(0)
    {
      assert |RunName(i)| != |RunName(0)|;
    }
  }

  lemma {:induction false} SizeOfDistinct(runs: seq<string>, who: set<string>)
    requires Distinct(runs) && forall k | k in runs :: k in who
    ensures |who| >= |runs|
  {
    if runs != [] {
      var k, rest := runs[0], runs[1..];
      assert forall j | j in rest :: j in who - {k};
      SizeOfDistinct(rest, who - {k});
    }
  }

  /** What every run supports is supported. */
  lemma {:induction false} AllSupport(b: Ballot, m: nat, row: Row, key: Key)
    requires b.Valid() && b.runs == RunNames(m) && b.quorum <= m
    requires forall i: nat | i < m :: b.Reports(RunName(i), row, key) || b.Reads(RunName(i), row, key)
    ensures b.Supported(row, key)
  {
    var who := b.Supporters(row, key);
    forall k | k in b.runs
      ensures k in who
    {
      var i: nat :| i < m && RunNames(m)[i] == k;
      assert k == RunName(i);
    }
    SizeOfDistinct(b.runs, who);
  }

  lemma {:induction false} PricesSupported(b: Ballot, m: nat, before: string, after: string, y: Fact)
    requires Shaped(b, m, before, after, y)
    ensures b.Supported(ROW, Price(""))
  {
    PricedKey(before);
    forall i: nat | i < m
      ensures b.Reports(RunName(i), ROW, Price(""))
    {
      assert b.Holds(RunName(i), 0, ROW, Price(""));
    }
    AllSupport(b, m, ROW, Price(""));
  }

  lemma {:induction false} PricesRead(b: Ballot, m: nat, before: string, after: string, y: Fact, key: Key)
    requires Shaped(b, m, before, after, y) && VoteNeedle(key) == Normal(before) + "|" + Normal(after)
    ensures b.Reads(RunName(0), ROW, key)
  {
    var g := b.groups[RunName(0)];
    assert RowBlobs(g[..1][..0], ROW) == [] && g[..1][..0] == [];
    assert RowBlobs(g[..1], ROW) == [Blob(Priced(before))];
    assert RowBlobs(g, ROW) == [Blob(Priced(before)), Blob(Priced(after))];
    PricedBlob(before);
    PricedBlob(after);
    JoinedPair(Normal(before), Normal(after));
  }

  lemma {:induction false} FactSupported(b: Ballot, m: nat, before: string, after: string, y: Fact, key: Key)
    requires Shaped(b, m, before, after, y) && KeyOf(y) == Some(key)
    requires VoteNeedle(key) == Normal(before) + "|" + Normal(after)
    ensures b.Supported(ROW, key) && b.Holds(RunName(1), 2, ROW, key) && RunName(1) in b.runs
  {
    forall i: nat | i < m
      ensures b.Reports(RunName(i), ROW, key) || b.Reads(RunName(i), ROW, key)
    {
      if i == 0 {
        PricesRead(b, m, before, after, y, key);
      } else {
        FactReported(b, m, before, after, y, key, i);
      }
    }
    AllSupport(b, m, ROW, key);
    FactReported(b, m, before, after, y, key, 1);
  }

  lemma {:induction false} FactReported(
    b: Ballot, m: nat, before: string, after: string, y: Fact, key: Key, i: nat)
    requires Shaped(b, m, before, after, y) && KeyOf(y) == Some(key) && 0 < i < m
    ensures b.Holds(RunName(i), 2, ROW, key) && b.Reports(RunName(i), ROW, key) && RunName(i) in b.runs
  {
    NamesDistinct(m);
    HeldReported(b, RunName(i), 2, ROW, key);
  }

  lemma {:induction false} HeldReported(b: Ballot, k: string, i: nat, row: Row, key: Key)
    requires b.Holds(k, i, row, key)
    ensures b.Reports(k, row, key)
  {
  }

  /** What the first run brings: both of its facts. */
  lemma {:induction false} FirstBrings(b: Ballot, k: string, x1: Fact, x2: Fact, key: Key) returns (brought: seq<Entry>)
    requires k in b.groups && b.groups[k] == [(ROW, x1), (ROW, x2)] && b.Supported(ROW, key)
    requires b.keyFn(x1) == b.keyFn(x2) == Some(key)
    ensures brought == SupportedFacts(b, k, 2) && |brought| == 2 && brought[0].row == brought[1].row == ROW
    ensures brought[0].fact == x1 && brought[1].fact == x2 && brought[0].key == brought[1].key == key
  {
    assert SupportedFacts(b, k, 0) == [];
    var one := SupportedFacts(b, k, 1);
    assert |one| == 1 && one[0].fact == x1;
    brought := SupportedFacts(b, k, 2);
  }

  lemma {:induction false} PresentGrows(b: Ballot, s: State, k: string, n: nat)
    requires k in b.groups && n <= |b.groups[k]|
    ensures s.present <= Pass(b, s, k, n).present
  {
    if n > 0 {
      PresentGrows(b, s, k, n - 1);
    }
  }

  lemma {:induction false} FirstPresent(b: Ballot, s: State, k: string, x1: Fact, x2: Fact, key: Key)
    requires k in b.groups && b.groups[k] == [(ROW, x1), (ROW, x2)] && b.Supported(ROW, key)
    requires b.keyFn(x1) == b.keyFn(x2) == Some(key)
    ensures (ROW, key) in Pass(b, s, k, 2).present
  {
    assert Pass(b, s, k, 2) == Judge(b, s.agreed, Pass(b, s, k, 1), k, 1);
  }

  /** What the first run has brought about. */
  ghost predicate Led(s: State, before: string, after: string) {
    && |s.agreed| == 2 && s.agreed[0].row == s.agreed[1].row == ROW && (ROW, Price("")) in s.present
    && s.agreed[0].fact == Priced(before) && s.agreed[1].fact == Priced(after)
    && s.agreed[0].key == s.agreed[1].key == Price("")
  }

  lemma {:induction false} FirstLeads(b: Ballot, m: nat, before: string, after: string, y: Fact)
    requires Shaped(b, m, before, after, y)
    ensures Led(Tally(b, 1), before, after)
  {
    var k := RunName(0);
    PricesSupported(b, m, before, after, y);
    PricedKey(before);
    PricedKey(after);
    NamesDistinct(m);
    assert b.priority[0] == k && Tally(b, 1) == Pass(b, Tally(b, 0), k, 2);
    var brought := FirstBrings(b, k, Priced(before), Priced(after), Price(""));
    FirstPassKeepsAll(b, Tally(b, 0), k, 2);
    FirstPresent(b, Tally(b, 0), k, Priced(before), Priced(after), Price(""));
  }

  lemma {:induction false} PairBlobs(agreed: seq<Entry>)
    requires |agreed| == 2 && agreed[0].row == agreed[1].row == ROW
    ensures EntryBlobs(agreed, ROW) == [Blob(agreed[0].fact), Blob(agreed[1].fact)]
  {
    EntryBlobsAppend([], agreed[0], ROW);
    EntryBlobsAppend([agreed[0]], agreed[1], ROW);
    assert [] + [agreed[0]] == [agreed[0]] && [agreed[0]] + [agreed[1]] == agreed;
    assert EntryBlobs([], ROW) == [];
  }

  lemma {:induction false} SubsumedByPair(agreed: seq<Entry>, key: Key)
    requires |agreed| == 2 && agreed[0].row == agreed[1].row == ROW && VoteNeedle(key) != ""
    requires Contains(BarJoin([Blob(agreed[0].fact), Blob(agreed[1].fact)]), VoteNeedle(key))
    ensures Subsumed(agreed, ROW, key)
  {
    PairBlobs(agreed);
  }

  /** The fact is neither accepted nor said by one accepted record. */
  ghost predicate Lost(b: Ballot, row: Row, key: Key)
    requires b.Valid()
  {
    !Accepted(Outcome(b).agreed, row, key) && !SaidByOneRecord(Outcome(b).agreed, row, key)
  }

  /** A run with the prices and the fact adds nothing when the accepted text already contains its needle. */
  lemma {:induction false} AddsNothing(b: Ballot, s: State, k: string, x1: Fact, x2: Fact, y: Fact, price: Key, key: Key)
    requires k in b.groups && b.groups[k] == [(ROW, x1), (ROW, x2), (ROW, y)] && s.agreed != []
    requires b.keyFn(x1) == b.keyFn(x2) == Some(price) && b.keyFn(y) == Some(key)
    requires b.Supported(ROW, price) && b.Supported(ROW, key)
    requires (ROW, price) in s.present && Subsumed(s.agreed, ROW, key)
    ensures Pass(b, s, k, 3).agreed == s.agreed && (ROW, price) in Pass(b, s, k, 3).present
  {
    assert Pass(b, s, k, 0) == s;
    assert Pass(b, s, k, 1) == Judge(b, s.agreed, s, k, 0) == s;
    assert Pass(b, s, k, 2) == Judge(b, s.agreed, s, k, 1) == s;
    assert Pass(b, s, k, 3) == Judge(b, s.agreed, s, k, 2);
  }

  lemma {:induction false} LedSubsumes(s: State, before: string, after: string, key: Key)
    requires Led(s, before, after) && VoteNeedle(key) == Normal(before) + "|" + Normal(after)
    ensures Subsumed(s.agreed, ROW, key)
  {
    PricedBlob(before);
    PricedBlob(after);
    JoinedPair(Normal(before), Normal(after));
    SubsumedByPair(s.agreed, key);
  }

  lemma {:induction false} OthersAddNothing(
    b: Ballot, m: nat, before: string, after: string, y: Fact, key: Key, n: nat)
    requires Shaped(b, m, before, after, y) && KeyOf(y) == Some(key) && 1 <= n <= m
    requires VoteNeedle(key) == Normal(before) + "|" + Normal(after)
    ensures Led(Tally(b, n), before, after)
  {
    if n == 1 {
      FirstLeads(b, m, before, after, y);
    } else {
      OthersAddNothing(b, m, before, after, y, key, n - 1);
      OneMoreAddsNothing(b, m, before, after, y, key, n - 1, Tally(b, n - 1));
      NamesDistinct(m);
      assert b.priority[n - 1] == RunName(n - 1);
    }
  }

  lemma {:induction false} OneMoreAddsNothing(
    b: Ballot, m: nat, before: string, after: string, y: Fact, key: Key, i: nat, s: State)
    requires Shaped(b, m, before, after, y) && KeyOf(y) == Some(key) && 1 <= i < m && Led(s, before, after)
    requires VoteNeedle(key) == Normal(before) + "|" + Normal(after)
    ensures Led(Pass(b, s, RunName(i), 3), before, after)
  {
    PricedKey(before);
    PricedKey(after);
    PricesSupported(b, m, before, after, y);
    FactSupported(b, m, before, after, y, key);
    LedSubsumes(s, before, after, key);
    AddsNothing(b, s, RunName(i), Priced(before), Priced(after), y, Price(""), key);
  }

  lemma {:induction false} NotSaid(agreed: seq<Entry>, key: Key)
    requires |agreed| == 2 && agreed[0].key != key && agreed[1].key != key
    requires !Contains(Blob(agreed[0].fact), VoteNeedle(key)) && !Contains(Blob(agreed[1].fact), VoteNeedle(key))
    ensures !Accepted(agreed, ROW, key) && !SaidByOneRecord(agreed, ROW, key)
  {
    assert forall i | 0 <= i < |agreed| :: agreed[i] == agreed[0] || agreed[i] == agreed[1];
  }

  /** In a vote of any size and quorum, a supported fact whose needle reads across a bar is dropped when two accepted
      records of the row read what is before and behind the bar: its key is not accepted, and no accepted record says it. */
  lemma {:induction false} StraddlingFactLost(
    m: nat, quorum: int, before: string, after: string, y: Fact, key: Key) returns (b: Ballot)
    requires m >= 2 && quorum <= m
    requires KeyOf(y) == Some(key) && VoteNeedle(key) == Normal(before) + "|" + Normal(after)
    ensures b == Straddling(m, quorum, before, after, y) && b.Valid() && |b.runs| == m && b.quorum == quorum
    ensures RunName(1) in b.runs && b.Holds(RunName(1), 2, ROW, key) && b.groups[RunName(1)][2].1 == y
    ensures b.Supported(ROW, key) && Lost(b, ROW, key)
  {
    b := StraddlingShaped(m, quorum, before, after, y);
    FactSupported(b, m, before, after, y, key);
    OthersAddNothing(b, m, before, after, y, key, m);
    PricedBlob(before);
    PricedBlob(after);
    TooShort(Normal(before), VoteNeedle(key));
    TooShort(Normal(after), VoteNeedle(key));
    NotSaid(Outcome(b).agreed, key);
  }

  // The exact condition

  /** The ballot uses the registered key function, and supports the fact, reported by one of its runs in this row. */
  ghost predicate Supports(b: Ballot, k: string, i: nat, row: Row, key: Key, y: Fact) {
    && b.Valid() && (forall x :: b.keyFn(x) == KeyOf(x))
    && k in b.runs && b.Holds(k, i, row, key) && b.groups[k][i].1 == y && b.Supported(row, key)
  }

  /** Every vote of `m` runs to this quorum keeps this fact wherever it is supported. */
  ghost predicate AlwaysKept(m: nat, quorum: int, y: Fact, key: Key) {
    forall b: Ballot, k, i: nat, row | Supports(b, k, i, row, key, y) && |b.runs| == m && b.quorum == quorum ::
      !Lost(b, row, key)
  }

  /** Whatever the number of runs and the quorum, a fact is kept by every vote that supports it, under its key or in one
      accepted record of its row, if and only if its needle has no bar. */
  lemma {:induction false} KeptExactly(m: nat, quorum: int, y: Fact, key: Key)
    requires KeyOf(y) == Some(key) && m >= 2 && quorum <= m
    ensures AlwaysKept(m, quorum, y, key) <==> '|' !in VoteNeedle(key)
  {
    if '|' in VoteNeedle(key) {
      BarredFactLost(m, quorum, y, key);
    } else {
      forall b: Ballot, k, i: nat, row | Supports(b, k, i, row, key, y)
        ensures !Lost(b, row, key)
      {
        NothingSupportedIsLost(b, k, i, row, key);
        SupportedNotDisputed(b, row, key);
      }
    }
  }

  lemma {:induction false} SupportedNotDisputed(b: Ballot, row: Row, key: Key)
    requires b.Valid() && b.Supported(row, key)
    ensures !Disputed(Outcome(b).contested, row, key)
  {
    ContestedExactly(b, row, key);
  }

  /** A fact whose needle has a bar is lost by some vote of any size and quorum. */
  lemma {:induction false} BarredFactLost(m: nat, quorum: int, y: Fact, key: Key)
    requires KeyOf(y) == Some(key) && '|' in VoteNeedle(key) && m >= 2 && quorum <= m
    ensures !AlwaysKept(m, quorum, y, key)
  {
    var raw := RawNeedle(key);
    NeedleOfRaw(key);
    NormalMakesNoBar(raw);
    var p :| 0 <= p < |raw| && raw[p] == '|';
    var before, after := raw[..p], raw[p + 1..];
    Around(raw, p);
    NormalBar(before, after);
    var b := StraddlingFactLost(m, quorum, before, after, y, key);
    assert Supports(b, RunName(1), 2, ROW, key, y);
  }

  lemma {:induction false} PlainKey(v: string)
    requires v != "" && forall i | 0 <= i < |v| :: 'a' <= v[i] <= 'z' || v[i] == '|'
    ensures KeyOf(Reported("", v, "")) == Some(Txt(v, ""))
  {
    EraseNothing(v, SPACES + {'/', '·'});
    EraseNothing(v, {','});
    CellReported(v, v);
  }

  /** There are such facts: a plain value with a bar in it. */
  lemma {:induction false} BarredFactExists(v: string, before: string, after: string)
    requires v == before + "|" + after && forall i | 0 <= i < |v| :: 'a' <= v[i] <= 'z' || v[i] == '|'
    ensures KeyOf(Reported("", v, "")) == Some(Txt(v, "")) && '|' in VoteNeedle(Txt(v, ""))
  {
    PlainKey(v);
    NormalBar(before, after);
    var needle := VoteNeedle(Txt(v, ""));
    assert needle[|Normal(before)|] == '|';
  }
}
