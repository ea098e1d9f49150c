/** Which case each provider call of an evaluation is charged to. */
module CostSpans {
  import opened Strings
  import opened Collections

  /** What is on record for one call; amounts are missing until it is finalised, and may stay unpriced. */
  datatype Receipt = Receipt(model: string, known: Option<real>, cost: Option<real>)

  datatype Call = Call(model: string, final: Option<Receipt>)

  /** One case with the calls it made before it ended or failed. */
  datatype Case = Case(id: string, calls: seq<Call>)

  function ReceiptOf(c: Call): Receipt {
    if c.final.Some? then c.final.value else Receipt(c.model, None, None)
  }

  function Receipts(calls: seq<Call>): seq<Receipt> {
    seq(|calls|, i requires 0 <= i < |calls| => ReceiptOf(calls[i]))
  }

  function AllReceipts(cases: seq<Case>): seq<Receipt> {
    if cases == [] then [] else AllReceipts(cases[..|cases| - 1]) + Receipts(cases[|cases| - 1].calls)
  }

  /** Where the calls of case `i` begin. */
  function Begin(cases: seq<Case>, base: nat, i: nat): nat
    requires i <= |cases|
  {
    if i == 0 then base else Begin(cases, base, i - 1) + |cases[i - 1].calls|
  }

  type Spans = map<string, (nat, nat)>

  /** A repeated id keeps the span of its last case only. */
  function SpansOf(cases: seq<Case>, base: nat, n: nat): Spans
    requires n <= |cases|
  {
    if n == 0 then map[] else
      SpansOf(cases, base, n - 1)[cases[n - 1].id := (Begin(cases, base, n - 1), Begin(cases, base, n))]
  }

  predicate Covers(spans: Spans, id: string, k: int) {
    id in spans && spans[id].0 <= k < spans[id].1
  }

  ghost predicate Charged(spans: Spans, k: int) {
    exists id :: Covers(spans, id, k)
  }

  predicate Disjoint(spans: Spans) {
    forall id, id' | id in spans && id' in spans && id != id' :: spans[id].1 <= spans[id'].0 || spans[id'].1 <= spans[id].0
  }

  /** The ids of the cases, each once, in the order of first appearance: the order of the dictionary of spans. */
  function IdOrder(cases: seq<Case>): seq<string> {
    if cases == [] then [] else
      var before, id := IdOrder(cases[..|cases| - 1]), cases[|cases| - 1].id;
      if id in before then before else before + [id]
  }

  /** The last id in order whose span covers `k`. */
  function Owner(spans: Spans, order: seq<string>, k: int): Option<string> {
    if order == [] then None
    else if Covers(spans, order[|order| - 1], k) then Some(order[|order| - 1])
    else Owner(spans, order[..|order| - 1], k)
  }

  datatype Row = Row(caseId: string, receipt: Receipt)

  const NOBODY := "?"

  class MemorySink {
    var attempts: seq<Receipt>

    constructor ()
      ensures attempts == []
    {
      attempts := [];
    }

    method Start(model: string) returns (id: nat)
      modifies this
      ensures id == |old(attempts)| && attempts == old(attempts) + [Receipt(model, None, None)]
    {
      attempts := attempts + [Receipt(model, None, None)];
      id := |attempts| - 1;
    }

    /** Finalising changes the record of that attempt and no other. */
    method Finalize(id: nat, r: Receipt)
      requires id < |attempts|
      modifies this
      ensures attempts == old(attempts)[id := r]
    {
      attempts := attempts[..id] + [r] + attempts[id + 1..];
    }

    method MakeCalls(calls: seq<Call>)
      modifies this
      ensures attempts == old(attempts) + Receipts(calls)
    {
      for i := 0 to |calls|
        invariant attempts == old(attempts) + Receipts(calls[..i])
      {
        var id := Start(calls[i].model);
        if calls[i].final.Some? {
          Finalize(id, calls[i].final.value);
        }
        assert Receipts(calls[..i + 1]) == Receipts(calls[..i]) + [ReceiptOf(calls[i])];
      }
      assert calls[..|calls|] == calls;
    }

    /** A failing case does not stop the run, and is charged what it had called for. */
    method RunCases(cases: seq<Case>) returns (spans: Spans, order: seq<string>)
      modifies this
      ensures attempts == old(attempts) + AllReceipts(cases)
      ensures spans == SpansOf(cases, |old(attempts)|, |cases|) && order == IdOrder(cases)
    {
      spans, order := map[], [];
      ghost var base := |attempts|;
      for i := 0 to |cases|
        invariant attempts == old(attempts) + AllReceipts(cases[..i])
        invariant |attempts| == Begin(cases, base, i)
        invariant spans == SpansOf(cases, base, i) && order == IdOrder(cases[..i])
      {
        var lo := |attempts|;
        MakeCalls(cases[i].calls);
        assert cases[..i + 1][..i] == cases[..i];
        spans := spans[cases[i].id := (lo, |attempts|)];
        if cases[i].id !in order {
          order := order + [cases[i].id];
        }
      }
      assert cases[..|cases|] == cases;
    }

    method Assign(owner: map<int, string>, id: string, lo: nat, hi: nat) returns (owner': map<int, string>)
      ensures forall k :: k in owner' <==> k in owner || lo <= k < hi
      ensures forall k | k in owner' :: owner'[k] == if lo <= k < hi then id else owner[k]
    {
      owner' := owner;
      var k := lo;
      while k < hi
        invariant lo <= k && (k == lo || k <= hi)
        invariant forall j :: j in owner' <==> j in owner || lo <= j < k
        invariant forall j | j in owner' :: owner'[j] == if lo <= j < k then id else owner[j]
      {
        owner' := owner'[k := id];
        k := k + 1;
      }
    }

    /** Where spans overlap, the one later in order wins. */
    method Rows(spans: Spans, order: seq<string>) returns (rows: seq<Row>)
      requires forall id | id in order :: id in spans
      ensures |rows| == |attempts|
      ensures forall k | 0 <= k < |rows| :: rows[k].receipt == attempts[k]
      ensures forall k | 0 <= k < |rows| ::
                rows[k].caseId == if Owner(spans, order, k).Some? then Owner(spans, order, k).value else "?"
    {
      var owner: map<int, string> := map[];
      for i := 0 to |order|
        invariant forall k :: if k in owner then Owner(spans, order[..i], k) == Some(owner[k])
                              else Owner(spans, order[..i], k) == None
      {
        var id := order[i];
        assert id in order;
        assert order[..i + 1][..i] == order[..i];
        owner := Assign(owner, id, spans[id].0, spans[id].1);
      }
      assert order[..|order|] == order;
      rows := seq(|attempts|, k requires 0 <= k < |attempts| reads this =>
        Row(if k in owner then owner[k] else NOBODY, attempts[k]));
    }
  }

  // Whom each call is charged to

  lemma {:induction false} BeginGrows(cases: seq<Case>, base: nat, i: nat, j: nat)
    requires i <= j <= |cases|
    ensures base <= Begin(cases, base, i) <= Begin(cases, base, j)
  {
    if i < j {
      BeginGrows(cases, base, i, j - 1);
    } else if i > 0 {
      BeginGrows(cases, base, i - 1, i - 1);
    }
  }

  /** Case `i` is the last of the first `n` with this id. */
  predicate LastOf(cases: seq<Case>, n: nat, i: nat) {
    i < n <= |cases| && forall j | i < j < n :: cases[j].id != cases[i].id
  }

  lemma {:induction false} SpanOfLast(cases: seq<Case>, base: nat, n: nat, i: nat)
    requires LastOf(cases, n, i)
    ensures var spans := SpansOf(cases, base, n);
            cases[i].id in spans && spans[cases[i].id] == (Begin(cases, base, i), Begin(cases, base, i + 1))
  {
    if i < n - 1 {
      SpanOfLast(cases, base, n - 1, i);
    }
  }

  lemma {:induction false} LastFound(cases: seq<Case>, base: nat, n: nat, id: string) returns (i: nat)
    requires n <= |cases| && id in SpansOf(cases, base, n)
    ensures LastOf(cases, n, i) && cases[i].id == id
  {
    if cases[n - 1].id == id {
      i := n - 1;
    } else {
      i := LastFound(cases, base, n - 1, id);
    }
  }

  /** The spans never overlap, whether ids repeat or not. */
  lemma {:induction false} SpansDisjoint(cases: seq<Case>, base: nat)
    ensures Disjoint(SpansOf(cases, base, |cases|))
  {
    var spans := SpansOf(cases, base, |cases|);
    forall id, id' | id in spans && id' in spans && id != id'
      ensures spans[id].1 <= spans[id'].0 || spans[id'].1 <= spans[id].0
    {
      var i := LastFound(cases, base, |cases|, id);
      var j := LastFound(cases, base, |cases|, id');
      SpanOfLast(cases, base, |cases|, i);
      SpanOfLast(cases, base, |cases|, j);
      if i < j {
        BeginGrows(cases, base, i + 1, j);
      } else {
        BeginGrows(cases, base, j + 1, i);
      }
    }
  }

  /** A call made by case `i` is charged to its id if no later case has the same id, and to nobody otherwise. */
  lemma {:induction false} ChargedExactly(cases: seq<Case>, base: nat, i: nat, k: nat, id: string)
    requires i < |cases| && Begin(cases, base, i) <= k < Begin(cases, base, i + 1)
    ensures Covers(SpansOf(cases, base, |cases|), id, k) <==> id == cases[i].id && LastOf(cases, |cases|, i)
  {
    if LastOf(cases, |cases|, i) {
      SpanOfLast(cases, base, |cases|, i);
    }
    if Covers(SpansOf(cases, base, |cases|), id, k) {
      var j := LastFound(cases, base, |cases|, id);
      SpanOfLast(cases, base, |cases|, j);
      if i < j {
        BeginGrows(cases, base, i + 1, j);
      } else if j < i {
        BeginGrows(cases, base, j + 1, i);
      }
    }
  }

  lemma {:induction false} MakerFound(cases: seq<Case>, base: nat, n: nat, k: nat) returns (i: nat)
    requires n <= |cases| && base <= k < Begin(cases, base, n)
    ensures i < n && Begin(cases, base, i) <= k < Begin(cases, base, i + 1)
  {
    if Begin(cases, base, n - 1) <= k {
      i := n - 1;
    } else {
      i := MakerFound(cases, base, n - 1, k);
    }
  }

  /** Every call has an owner if and only if no case that made calls is followed by one with the same id. */
  lemma {:induction false} AllCharged(cases: seq<Case>, base: nat, spans: Spans)
    requires spans == SpansOf(cases, base, |cases|)
    ensures (forall k | base <= k < Begin(cases, base, |cases|) :: Charged(spans, k)) <==>
            (forall i | 0 <= i < |cases| && cases[i].calls != [] :: LastOf(cases, |cases|, i))
  {
    if forall i | 0 <= i < |cases| && cases[i].calls != [] :: LastOf(cases, |cases|, i) {
      forall k | base <= k < Begin(cases, base, |cases|)
        ensures Charged(spans, k)
      {
        var i := MakerFound(cases, base, |cases|, k);
        ChargedExactly(cases, base, i, k, cases[i].id);
      }
    } else {
      var i :| 0 <= i < |cases| && cases[i].calls != [] && !LastOf(cases, |cases|, i);
      var k := Begin(cases, base, i);
      BeginGrows(cases, base, i + 1, |cases|);
      BeginGrows(cases, base, 0, i);
      if id :| Covers(spans, id, k) {
        ChargedExactly(cases, base, i, k, id);
      }
      assert base <= k < Begin(cases, base, |cases|) && !Charged(spans, k);
    }
  }

  lemma {:induction false} IdOrderMembers(cases: seq<Case>, base: nat, n: nat)
    requires n <= |cases|
    ensures forall id :: id in IdOrder(cases[..n]) <==> id in SpansOf(cases, base, n)
  {
    if n > 0 {
      IdOrderMembers(cases, base, n - 1);
      assert cases[..n][..n - 1] == cases[..n - 1];
    }
  }

  /** Where spans do not overlap, the owner is the one id whose span covers the call. */
  lemma {:induction false} OwnerOfDisjoint(spans: Spans, order: seq<string>, k: int)
    requires Disjoint(spans) && forall id | id in order :: id in spans
    ensures forall id | id in order && Covers(spans, id, k) :: Owner(spans, order, k) == Some(id)
    ensures (forall id | id in order :: !Covers(spans, id, k)) ==> Owner(spans, order, k) == None
  {
    if order != [] {
      var front, last := order[..|order| - 1], order[|order| - 1];
      assert order == front + [last];
      OwnerOfDisjoint(spans, front, k);
    }
  }

  /** The first case of its id. */
  predicate FirstOf(cases: seq<Case>, i: int) {
    0 <= i < |cases| && forall j | 0 <= j < i :: cases[j].id != cases[i].id
  }

  lemma {:induction false} FirstOfNext(front: seq<Case>, c: Case, i: int)
    ensures FirstOf(front + [c], i) <==> FirstOf(front, i) || (i == |front| && forall j | 0 <= j < i :: front[j].id != c.id)
  {
    var all := front + [c];
    assert all[|front|] == c && forall j | 0 <= j < |front| :: all[j] == front[j];
  }

  /** The ids are those of the first cases that have them, in order. */
  lemma {:induction false} OrderExactly(cases: seq<Case>) returns (at: seq<nat>, order: seq<string>)
    ensures order == IdOrder(cases) && |at| == |order|
    ensures forall n | 0 <= n < |at| :: at[n] < |cases| && cases[at[n]].id == order[n]
    ensures forall m, n | 0 <= m < n < |at| :: at[m] < at[n]
    ensures forall i: nat :: i in at <==> FirstOf(cases, i)
    ensures forall j | 0 <= j < |cases| :: cases[j].id in order
  {
    at, order := [], [];
    if cases != [] {
      var front, c := cases[..|cases| - 1], cases[|cases| - 1];
      at, order := OrderExactly(front);
      assert front + [c] == cases;
      forall i: nat
        ensures FirstOf(cases, i) <==> FirstOf(front, i) || (i == |front| && forall j | 0 <= j < i :: front[j].id != c.id)
      {
        FirstOfNext(front, c, i);
      }
      if c.id !in order {
        at, order := at + [|front|], order + [c.id];
      } else {
        var n :| 0 <= n < |order| && order[n] == c.id;
        assert front[at[n]].id == c.id;
      }
    }
  }

  /** The calls of the cases are recorded one after the other, each as it was finalised, or open under its model. */
  lemma {:induction false} ReceiptsExactly(cases: seq<Case>, i: nat, j: nat)
    requires i < |cases| && j < |cases[i].calls|
    ensures Begin(cases, 0, 0) == 0 && Begin(cases, 0, i + 1) == Begin(cases, 0, i) + |cases[i].calls|
    ensures var (k, c) := (Begin(cases, 0, i) + j, cases[i].calls[j]);
            k < |AllReceipts(cases)| &&
            AllReceipts(cases)[k] == match c.final case Some(r) => r case None => Receipt(c.model, None, None)
  {
    var front := cases[..|cases| - 1];
    AllReceiptsCount(front);
    BeginPrefix(cases, i);
    BeginPrefix(cases, |front|);
    if i < |front| {
      ReceiptsExactly(front, i, j);
    }
  }

  // Bills

  /** Number of calls, the sum of the priced costs, and the sum of what is known of the others. */
  datatype Bill = Bill(calls: nat, usd: real, known: real)

  function Amount(a: Option<real>): real {
    if a.Some? then a.value else 0.0
  }

  function AddRow(b: Bill, r: Receipt): Bill {
    Bill(b.calls + 1, b.usd + Amount(r.cost), b.known + Amount(r.known))
  }

  /** The totals of all rows. */
  function Summary(rows: seq<Row>): Bill {
    if rows == [] then Bill(0, 0.0, 0.0) else AddRow(Summary(rows[..|rows| - 1]), rows[|rows| - 1].receipt)
  }

  /** The totals of the rows charged to one case. */
  function BillOf(rows: seq<Row>, id: string): Bill {
    if rows == [] then Bill(0, 0.0, 0.0) else
      var before, row := BillOf(rows[..|rows| - 1], id), rows[|rows| - 1];
      if row.caseId == id then AddRow(before, row.receipt) else before
  }

  function BillsOf(rows: seq<Row>, ids: seq<string>): Bill {
    if ids == [] then Bill(0, 0.0, 0.0) else
      var before, b := BillsOf(rows, ids[..|ids| - 1]), BillOf(rows, ids[|ids| - 1]);
      Bill(before.calls + b.calls, before.usd + b.usd, before.known + b.known)
  }

  lemma {:induction false} BillsNext(rows: seq<Row>, row: Row, ids: seq<string>)
    requires Distinct(ids)
    ensures BillsOf(rows + [row], ids) ==
            if row.caseId in ids then AddRow(BillsOf(rows, ids), row.receipt) else BillsOf(rows, ids)
  {
    assert (rows + [row])[..|rows|] == rows;
    if ids != [] {
      var front, last := ids[..|ids| - 1], ids[|ids| - 1];
      BillsNext(rows, row, front);
      assert ids == front + [last];
      assert last !in front;
    }
  }

  lemma {:induction false} NoBills(ids: seq<string>)
    ensures BillsOf([], ids) == Bill(0, 0.0, 0.0)
  {
    if ids != [] {
      NoBills(ids[..|ids| - 1]);
    }
  }

  /** When every row is charged to one of some distinct ids, the bills of these ids add up to the summary. */
  lemma {:induction false} BillsAddUp(rows: seq<Row>, ids: seq<string>)
    requires Distinct(ids) && forall k | 0 <= k < |rows| :: rows[k].caseId in ids
    ensures BillsOf(rows, ids) == Summary(rows)
  {
    if rows == [] {
      NoBills(ids);
    } else {
      var front, last := rows[..|rows| - 1], rows[|rows| - 1];
      BillsAddUp(front, ids);
      BillsNext(front, last, ids);
      assert front + [last] == rows;
    }
  }

  function Sum(amounts: seq<real>): real {
    if amounts == [] then 0.0 else Sum(amounts[..|amounts| - 1]) + amounts[|amounts| - 1]
  }

  /** The amounts that are there. */
  function Present(amounts: seq<Option<real>>): seq<real> {
    if amounts == [] then [] else
      var before := Present(amounts[..|amounts| - 1]);
      match amounts[|amounts| - 1]
      case None => before
      case Some(a) => before + [a]
  }

  /** The receipts of the rows of one case. */
  function ReceiptsOf(rows: seq<Row>, id: string): seq<Receipt> {
    if rows == [] then [] else
      var before, row := ReceiptsOf(rows[..|rows| - 1], id), rows[|rows| - 1];
      if row.caseId == id then before + [row.receipt] else before
  }

  function Costs(receipts: seq<Receipt>): (r: seq<Option<real>>)
    ensures |r| == |receipts|
  {
    seq(|receipts|, i requires 0 <= i < |receipts| => receipts[i].cost)
  }

  function Knowns(receipts: seq<Receipt>): (r: seq<Option<real>>)
    ensures |r| == |receipts|
  {
    seq(|receipts|, i requires 0 <= i < |receipts| => receipts[i].known)
  }

  lemma {:induction false} SumNext(amounts: seq<Option<real>>, a: Option<real>)
    ensures Sum(Present(amounts + [a])) == match a case None => Sum(Present(amounts)) case Some(v) => Sum(Present(amounts)) + v
  {
    assert (amounts + [a])[..|amounts|] == amounts;
    if a.Some? {
      assert (Present(amounts) + [a.value])[..|Present(amounts)|] == Present(amounts);
    }
  }

  /** The number of receipts, the sum of the costs there are, and the sum of the known amounts there are. */
  function TotalOf(receipts: seq<Receipt>): Bill {
    Bill(|receipts|, Sum(Present(Costs(receipts))), Sum(Present(Knowns(receipts))))
  }

  lemma {:induction false} TotalNext(before: seq<Receipt>, r: Receipt)
    ensures TotalOf(before + [r]) == AddRow(TotalOf(before), r)
  {
    assert Costs(before + [r]) == Costs(before) + [r.cost];
    assert Knowns(before + [r]) == Knowns(before) + [r.known];
    SumNext(Costs(before), r.cost);
    SumNext(Knowns(before), r.known);
  }

  /** The bill of a case is the total of its receipts. */
  lemma {:induction false} BillExactly(rows: seq<Row>, id: string)
    ensures BillOf(rows, id) == TotalOf(ReceiptsOf(rows, id))
  {
    if rows != [] {
      var front, row := rows[..|rows| - 1], rows[|rows| - 1];
      BillExactly(front, id);
      if row.caseId == id {
        TotalNext(ReceiptsOf(front, id), row.receipt);
      }
    }
  }

  function CaseIds(cases: seq<Case>): seq<string> {
    seq(|cases|, i requires 0 <= i < |cases| => cases[i].id)
  }

  lemma {:induction false} AllReceiptsCount(cases: seq<Case>)
    ensures |AllReceipts(cases)| == Begin(cases, 0, |cases|)
  {
    if cases != [] {
      var front := cases[..|cases| - 1];
      AllReceiptsCount(front);
      BeginPrefix(cases, |front|);
    }
  }

  lemma {:induction false} BeginPrefix(cases: seq<Case>, i: nat)
    requires i < |cases|
    ensures Begin(cases[..|cases| - 1], 0, i) == Begin(cases, 0, i)
  {
    if i > 0 {
      BeginPrefix(cases, i - 1);
    }
  }

  /** With distinct case ids each call is charged to exactly one case, and the cases together to the whole bill. */
  method Evaluate(cases: seq<Case>) returns (rows: seq<Row>)
    requires Distinct(CaseIds(cases))
    ensures |rows| == |AllReceipts(cases)| && forall k | 0 <= k < |rows| :: rows[k].receipt == AllReceipts(cases)[k]
    ensures forall i, k | 0 <= i < |cases| && Begin(cases, 0, i) <= k < Begin(cases, 0, i + 1) && k < |rows| ::
              rows[k].caseId == cases[i].id
    ensures BillsOf(rows, CaseIds(cases)) == Summary(rows) && Summary(rows).calls == |rows|
  {
    var sink := new MemorySink();
    var spans, order := sink.RunCases(cases);
    SpansDisjoint(cases, 0);
    IdOrderMembers(cases, 0, |cases|);
    assert cases[..|cases|] == cases;
    rows := sink.Rows(spans, order);
    assert sink.attempts == AllReceipts(cases);
    AllReceiptsCount(cases);
    forall i, k | 0 <= i < |cases| && Begin(cases, 0, i) <= k < Begin(cases, 0, i + 1) && k < |rows|
      ensures rows[k].caseId == cases[i].id
    {
      DistinctLast(cases, i);
      ChargedExactly(cases, 0, i, k, cases[i].id);
      OwnerOfDisjoint(spans, order, k);
    }
    forall k | 0 <= k < |rows|
      ensures rows[k].caseId in CaseIds(cases)
    {
      var i := MakerFound(cases, 0, |cases|, k);
      assert CaseIds(cases)[i] == cases[i].id;
    }
    BillsAddUp(rows, CaseIds(cases));
    SummaryCount(rows);
  }

  lemma {:induction false} DistinctLast(cases: seq<Case>, i: nat)
    requires Distinct(CaseIds(cases)) && i < |cases|
    ensures LastOf(cases, |cases|, i)
  {
    forall j | i < j < |cases|
      ensures cases[j].id != cases[i].id
    {
      assert CaseIds(cases)[i] != CaseIds(cases)[j];
    }
  }

  lemma {:induction false} SummaryCount(rows: seq<Row>)
    ensures Summary(rows).calls == |rows|
  {
    if rows != [] {
      SummaryCount(rows[..|rows| - 1]);
    }
  }
}
