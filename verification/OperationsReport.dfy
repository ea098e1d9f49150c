/** The report on a run: every planned turn is labelled, including those the run never reached. */
module OperationsReport {
  import opened Strings
  import opened OperationsRun

  datatype Label =
    | CompleteAnswer | UsefulClarification | AppropriateEscalation
    | IncompleteAnswer | IncorrectAnswer | UnnecessaryClarification | InappropriateEscalation
    | ApiError | Unreviewed | NotRun

  const APPROPRIATE: set<Label> := {CompleteAnswer, UsefulClarification, AppropriateEscalation}

  /** What a judgment says about the citations: nothing, whether they are correct, or something that is no truth value. */
  datatype CitationVerdict = Silent | Correct(correct: bool) | Malformed

  /** A human judgment bound to one response; a label outside the list is None. */
  datatype Judgment = Judgment(
    caseId: string, turn: nat, responseHash: string, verdict: Option<Label>, reason: string, reviewer: string,
    citation: CitationVerdict)

  /** A file of judgments, bound to one run file. */
  datatype Review = Review(runHash: string, judgments: seq<Judgment>)

  function JudgmentsOf(review: Option<Review>): seq<Judgment> {
    if review.Some? then review.value.judgments else []
  }

  /** What is compared about two campaigns: the knowledge format, if recorded, and the hash of the frozen input. */
  datatype RunInfo = RunInfo(format: Option<string>, inputHash: string)
  {
    function Format(): string {
      if format.Some? then format.value else HISTORICAL
    }
  }

  const HISTORICAL := "historical-raw/v1"

  /** Campaigns of one format; fact campaigns also of one frozen input. */
  predicate Comparable(run: RunInfo, baseline: RunInfo) {
    && run.Format() == baseline.Format()
    && (run.Format() != HISTORICAL ==> run.inputHash != "" && run.inputHash == baseline.inputHash)
  }

  /** Campaigns on raw documents, recorded or not, compare with each other; campaigns of any other format with those of the
      same format on the same frozen input. */
  lemma {:induction false} ComparableExactly(run: RunInfo, baseline: RunInfo)
    ensures Comparable(run, baseline) <==>
            if run.format in {None, Some("historical-raw/v1")} then baseline.format in {None, Some("historical-raw/v1")}
            else baseline.format == run.format && run.inputHash != "" && baseline.inputHash == run.inputHash
  {
  }

  predicate AllGood(labels: seq<Label>) {
    (forall i | 0 <= i < |labels| :: labels[i] in APPROPRIATE) && labels != [] && labels[|labels| - 1] == CompleteAnswer
  }

  type Key = (string, nat)

  /** The executed turns by case and number; a repeated key keeps the last row. */
  function RowsByKey(caseId: string, rows: seq<Row>): map<Key, Row> {
    if rows == [] then map[] else
      var last := rows[|rows| - 1];
      RowsByKey(caseId, rows[..|rows| - 1])[(caseId, last.number) := last]
  }

  function Actual(records: seq<Record>): map<Key, Row> {
    if records == [] then map[] else
      var last := records[|records| - 1];
      Actual(records[..|records| - 1]) + RowsByKey(last.caseId, last.turns)
  }

  function JudgmentsByKey(judgments: seq<Judgment>): map<Key, Judgment> {
    if judgments == [] then map[] else
      var last := judgments[|judgments| - 1];
      JudgmentsByKey(judgments[..|judgments| - 1])[(last.caseId, last.turn) := last]
  }

  function CaseKeys(c: Case, n: nat): seq<Key> {
    if n == 0 then [] else CaseKeys(c, n - 1) + [(c.id, n)]
  }

  /** The frozen denominator: every scripted turn of every case. */
  function PlannedKeys(cases: seq<Case>): seq<Key> {
    if cases == [] then [] else
      var last := cases[|cases| - 1];
      PlannedKeys(cases[..|cases| - 1]) + CaseKeys(last, |last.turns|)
  }

  datatype Citations = Citations(reviewed: nat, correct: nat)
  {
    function Plus(c: Citations): Citations {
      Citations(reviewed + c.reviewed, correct + c.correct)
    }
  }

  function Tally(cs: seq<Citations>): Citations {
    if cs == [] then Citations(0, 0) else Tally(cs[..|cs| - 1]).Plus(cs[|cs| - 1])
  }

  /** What the report is drawn from: executed rows, judgments, and the hash that binds one to the other. */
  datatype Evidence = Evidence(actual: map<Key, Row>, judgments: map<Key, Judgment>, hash: Response -> string)
  {
    predicate Admissible(key: Key) {
      key in judgments ==>
        && key in actual
        && var j, row := judgments[key], actual[key];
        && j.responseHash == hash(row.response)
        && j.verdict.Some? && j.verdict.value !in {NotRun, Unreviewed}
        && j.reviewer != "" && j.reason != "" && j.citation != Malformed
        && (row.response.status == 200 || j.verdict.value == ApiError)
    }

    function LabelOf(key: Key): Label {
      if key in judgments && judgments[key].verdict.Some? then judgments[key].verdict.value
      else if key !in actual then NotRun
      else if actual[key].response.status != 200 then ApiError
      else Unreviewed
    }

    function LabelsOf(keys: seq<Key>): (r: seq<Label>)
      ensures |r| == |keys|
    {
      seq(|keys|, i requires 0 <= i < |keys| => LabelOf(keys[i]))
    }

    function CitationsAt(key: Key): Citations {
      if key in judgments && judgments[key].citation.Correct? then
        Citations(1, if judgments[key].citation.correct then 1 else 0)
      else Citations(0, 0)
    }

    /** The judgments of citations among these turns, and those that find them correct. */
    function CitationsOf(keys: seq<Key>): Citations {
      Tally(CitationsAtAll(keys))
    }

    function CitationsAtAll(keys: seq<Key>): seq<Citations> {
      seq(|keys|, i requires 0 <= i < |keys| => CitationsAt(keys[i]))
    }

    /** Every scripted turn answered appropriately, the last one completely. */
    predicate Resolved(c: Case) {
      AllGood(LabelsOf(CaseKeys(c, |c.turns|)))
    }
  }

  datatype Report = Report(
    counts: multiset<Label>, resolved: seq<string>, planned: nat, executed: nat, citations: Citations)

  function ResolvedIds(e: Evidence, cases: seq<Case>): seq<string> {
    if cases == [] then [] else
      var c, before := cases[|cases| - 1], ResolvedIds(e, cases[..|cases| - 1]);
      if e.Resolved(c) then before + [c.id] else before
  }

  function EvidenceOf(records: seq<Record>, judgments: seq<Judgment>, hash: Response -> string): Evidence {
    Evidence(Actual(records), JudgmentsByKey(judgments), hash)
  }

  /** The report over some of the cases. */
  function Summary(e: Evidence, cases: seq<Case>): Report {
    var keys := PlannedKeys(cases);
    Report(multiset(e.LabelsOf(keys)), ResolvedIds(e, cases), |keys|, |e.actual|, e.CitationsOf(keys))
  }

  /** No case is empty, and every judgment of a planned turn is admissible. */
  predicate Drawable(e: Evidence, cases: seq<Case>) {
    && (forall i | 0 <= i < |cases| :: cases[i].turns != [])
    && (forall k | k in PlannedKeys(cases) :: e.Admissible(k))
  }

  /** The conditions under which a report is drawn at all. */
  predicate Reportable(cases: seq<Case>, records: seq<Record>, judgments: seq<Judgment>, hash: Response -> string) {
    var e := EvidenceOf(records, judgments, hash);
    |e.judgments| == |judgments| && e.judgments.Keys <= e.actual.Keys && Drawable(e, cases)
  }

  method LabelCase(e: Evidence, c: Case) returns (labels: Option<seq<Label>>, citations: Citations)
    ensures var keys := CaseKeys(c, |c.turns|);
            if forall k | k in keys :: e.Admissible(k) then labels == Some(e.LabelsOf(keys)) && citations == e.CitationsOf(keys)
            else labels == None
  {
    var found := [];
    citations := Citations(0, 0);
    for n := 0 to |c.turns|
      invariant found == e.LabelsOf(CaseKeys(c, n)) && citations == e.CitationsOf(CaseKeys(c, n))
      invariant forall k | k in CaseKeys(c, n) :: e.Admissible(k)
    {
      var key := (c.id, n + 1);
      if !e.Admissible(key) {
        CaseKeyMembers(c, |c.turns|);
        return None, citations;
      }
      CitationsNext(e, CaseKeys(c, n), key);
      LabelsNext(e, CaseKeys(c, n), key);
      found := found + [e.LabelOf(key)];
      if key in e.judgments && e.judgments[key].citation.Correct? {
        citations := citations.Plus(Citations(1, if e.judgments[key].citation.correct then 1 else 0));
      }
    }
    labels := Some(found);
  }

  lemma {:induction false} TallyAppend(a: seq<Citations>, b: seq<Citations>)
    ensures Tally(a + b) == Tally(a).Plus(Tally(b))
  {
    if b == [] {
      assert a + b == a;
    } else {
      assert (a + b)[..|a + b| - 1] == a + b[..|b| - 1];
      TallyAppend(a, b[..|b| - 1]);
    }
  }

  lemma {:induction false} CitationsAppend(e: Evidence, keys: seq<Key>, more: seq<Key>)
    ensures e.CitationsOf(keys + more) == e.CitationsOf(keys).Plus(e.CitationsOf(more))
  {
    assert e.CitationsAtAll(keys + more) == e.CitationsAtAll(keys) + e.CitationsAtAll(more);
    TallyAppend(e.CitationsAtAll(keys), e.CitationsAtAll(more));
  }

  lemma {:induction false} LabelsNext(e: Evidence, keys: seq<Key>, key: Key)
    ensures e.LabelsOf(keys + [key]) == e.LabelsOf(keys) + [e.LabelOf(key)]
  {
  }

  lemma {:induction false} CitationsNext(e: Evidence, keys: seq<Key>, key: Key)
    ensures e.CitationsOf(keys + [key]) == e.CitationsOf(keys).Plus(e.CitationsAt(key))
  {
    var before, after := e.CitationsAtAll(keys), e.CitationsAtAll(keys + [key]);
    assert after == before + [e.CitationsAt(key)];
    assert after[..|after| - 1] == before;
  }

  lemma {:induction false} CaseKeyMembers(c: Case, n: nat)
    ensures |CaseKeys(c, n)| == n
    ensures forall k :: k in CaseKeys(c, n) <==> k.0 == c.id && 1 <= k.1 <= n
    ensures forall i | 0 <= i < n :: CaseKeys(c, n)[i] == (c.id, i + 1)
  {
    if n > 0 {
      CaseKeyMembers(c, n - 1);
    }
  }

  /** The report with one more case. */
  function Extended(e: Evidence, so: Report, c: Case): Report {
    var keys := CaseKeys(c, |c.turns|);
    Report(so.counts + multiset(e.LabelsOf(keys)), if e.Resolved(c) then so.resolved + [c.id] else so.resolved,
           so.planned + |keys|, so.executed, so.citations.Plus(e.CitationsOf(keys)))
  }

  method AddCase(e: Evidence, c: Case, so: Report) returns (report: Option<Report>)
    ensures report == if c.turns != [] && forall k | k in CaseKeys(c, |c.turns|) :: e.Admissible(k)
                      then Some(Extended(e, so, c)) else None
  {
    var labels, citations := LabelCase(e, c);
    CaseKeyMembers(c, |c.turns|);
    if labels.None? || labels.value == [] {
      return None;
    }
    var found := labels.value;
    var resolved := so.resolved;
    if AllGood(found) {
      resolved := resolved + [c.id];
    }
    report := Some(Report(so.counts + multiset(found), resolved, so.planned + |found|, so.executed,
                          so.citations.Plus(citations)));
  }

  method RenderCases(e: Evidence, cases: seq<Case>) returns (report: Option<Report>)
    ensures report == if Drawable(e, cases) then Some(Summary(e, cases)) else None
  {
    var so := Report(multiset{}, [], 0, |e.actual|, Citations(0, 0));
    for i := 0 to |cases|
      invariant so == Summary(e, cases[..i]) && Drawable(e, cases[..i])
    {
      var more := AddCase(e, cases[i], so);
      DrawableNext(e, cases[..i], cases[i]);
      SummaryNext(e, cases[..i], cases[i]);
      TakeNext(cases, i);
      if more.None? {
        NotDrawable(e, cases, i + 1);
        return None;
      }
      so := more.value;
    }
    TakeAll(cases);
    report := Some(so);
  }

  lemma {:induction false} TakeNext(cases: seq<Case>, i: nat)
    requires i < |cases|
    ensures cases[..i + 1] == cases[..i] + [cases[i]]
  {
  }

  lemma {:induction false} TakeAll(cases: seq<Case>)
    ensures cases[..|cases|] == cases
  {
  }

  /** A report is drawn only on a comparable baseline and a review of this very run file. */
  method Render(run: RunInfo, baseline: RunInfo, runHash: string, review: Option<Review>,
                cases: seq<Case>, records: seq<Record>, hash: Response -> string)
    returns (report: Option<Report>)
    ensures report == if Comparable(run, baseline) && (review.Some? ==> review.value.runHash == runHash)
                         && Reportable(cases, records, if review.Some? then review.value.judgments else [], hash)
                      then Some(Summary(EvidenceOf(records, if review.Some? then review.value.judgments else [], hash), cases))
                      else None
  {
    if !Comparable(run, baseline) || (review.Some? && review.value.runHash != runHash) {
      return None;
    }
    var judgments := JudgmentsOf(review);
    var e := EvidenceOf(records, judgments, hash);
    if |e.judgments| != |judgments| || !(e.judgments.Keys <= e.actual.Keys) {
      return None;
    }
    report := RenderCases(e, cases);
  }

  lemma {:induction false} NotDrawable(e: Evidence, cases: seq<Case>, i: nat)
    requires i <= |cases| && !Drawable(e, cases[..i])
    ensures !Drawable(e, cases)
  {
    if Drawable(e, cases) {
      DrawablePrefix(e, cases, i);
    }
  }

  lemma {:induction false} DrawableNext(e: Evidence, before: seq<Case>, c: Case)
    ensures Drawable(e, before + [c]) <==>
            Drawable(e, before) && c.turns != [] && forall k | k in CaseKeys(c, |c.turns|) :: e.Admissible(k)
  {
    var cases := before + [c];
    assert cases[..|before|] == before && cases[|before|] == c;
    assert forall i | 0 <= i < |before| :: cases[i] == before[i];
    assert PlannedKeys(cases) == PlannedKeys(before) + CaseKeys(c, |c.turns|);
  }

  lemma {:induction false} SummaryNext(e: Evidence, before: seq<Case>, c: Case)
    ensures Summary(e, before + [c]) == Extended(e, Summary(e, before), c)
  {
    assert (before + [c])[..|before|] == before;
    var keys, more := PlannedKeys(before), CaseKeys(c, |c.turns|);
    LabelsAppend(e, keys, more);
    CitationsAppend(e, keys, more);
  }

  lemma {:induction false} LabelsAppend(e: Evidence, keys: seq<Key>, more: seq<Key>)
    ensures multiset(e.LabelsOf(keys + more)) == multiset(e.LabelsOf(keys)) + multiset(e.LabelsOf(more))
  {
    assert e.LabelsOf(keys + more) == e.LabelsOf(keys) + e.LabelsOf(more);
  }

  lemma {:induction false} PlannedPrefix(cases: seq<Case>, i: nat)
    requires i <= |cases|
    ensures PlannedKeys(cases[..i]) <= PlannedKeys(cases)
  {
    if i < |cases| {
      PlannedPrefix(cases[..|cases| - 1], i);
      assert cases[..|cases| - 1][..i] == cases[..i];
    } else {
      assert cases[..i] == cases;
    }
  }

  lemma {:induction false} DrawablePrefix(e: Evidence, cases: seq<Case>, i: nat)
    requires i <= |cases| && Drawable(e, cases)
    ensures Drawable(e, cases[..i])
  {
    PlannedPrefix(cases, i);
  }

  // Runner and report together

  function Inside(keys: seq<Key>, found: set<Key>): nat {
    if keys == [] then 0 else
      var before := Inside(keys[..|keys| - 1], found);
      if keys[|keys| - 1] in found then before + 1 else before
  }

  /** No found key is planned twice. */
  ghost predicate Unambiguous(keys: seq<Key>, found: set<Key>) {
    forall i, j | 0 <= i < j < |keys| && keys[i] == keys[j] :: keys[i] !in found
  }

  lemma {:induction false} UnambiguousNext(keys: seq<Key>, k: Key, found: set<Key>)
    ensures Unambiguous(keys + [k], found) <==> Unambiguous(keys, found) && (k in found ==> k !in keys)
  {
    var all := keys + [k];
    assert all[|keys|] == k && forall i | 0 <= i < |keys| :: all[i] == keys[i];
    if k in keys {
      var i :| 0 <= i < |keys| && keys[i] == k;
      assert all[i] == all[|keys|];
    }
  }

  lemma {:induction false} InsideBound(keys: seq<Key>, found: set<Key>)
    requires forall k | k in found :: k in keys
    ensures Inside(keys, found) >= |found|
    ensures Inside(keys, found) == |found| <==> Unambiguous(keys, found)
  {
    if keys == [] {
      assert found == {};
    } else {
      var front, last := keys[..|keys| - 1], keys[|keys| - 1];
      assert keys == front + [last];
      UnambiguousNext(front, last, found);
      if last in front {
        InsideBound(front, found);
      } else {
        InsideBound(front, found - {last});
        InsideOthers(front, found, last);
        UnambiguousOthers(front, found, last);
        assert |found| == |found - {last}| + if last in found then 1 else 0;
      }
    }
  }

  lemma {:induction false} UnambiguousOthers(keys: seq<Key>, found: set<Key>, k: Key)
    requires k !in keys
    ensures Unambiguous(keys, found - {k}) <==> Unambiguous(keys, found)
  {
  }

  lemma {:induction false} InsideOthers(keys: seq<Key>, found: set<Key>, k: Key)
    requires k !in keys
    ensures Inside(keys, found - {k}) == Inside(keys, found)
  {
    if keys != [] {
      InsideOthers(keys[..|keys| - 1], found, k);
    }
  }

  /** NOT_RUN is the label of exactly the planned turns that were not executed. */
  lemma {:induction false} NotRunCount(e: Evidence, keys: seq<Key>)
    requires forall k | k in keys :: e.Admissible(k)
    ensures multiset(e.LabelsOf(keys))[NotRun] + Inside(keys, e.actual.Keys) == |keys|
  {
    if keys != [] {
      var front, last := keys[..|keys| - 1], keys[|keys| - 1];
      NotRunCount(e, front);
      assert e.Admissible(last);
      assert e.LabelsOf(keys) == e.LabelsOf(front) + [e.LabelOf(last)];
      assert e.LabelOf(last) == NotRun <==> last !in e.actual;
    }
  }

  /** Citations are judged on executed turns only, and the correct ones are among the judged. */
  lemma {:induction false} CitationsJudged(e: Evidence, keys: seq<Key>)
    requires forall k | k in keys :: e.Admissible(k)
    ensures e.CitationsOf(keys).correct <= e.CitationsOf(keys).reviewed <= Inside(keys, e.actual.Keys)
    ensures e.CitationsOf(keys).reviewed + multiset(e.LabelsOf(keys))[NotRun] <= |keys|
  {
    NotRunCount(e, keys);
    CitationsInside(e, keys);
  }

  lemma {:induction false} CitationsInside(e: Evidence, keys: seq<Key>)
    requires forall k | k in keys :: e.Admissible(k)
    ensures e.CitationsOf(keys).correct <= e.CitationsOf(keys).reviewed <= Inside(keys, e.actual.Keys)
  {
    if keys != [] {
      var front, last := keys[..|keys| - 1], keys[|keys| - 1];
      CitationsInside(e, front);
      assert e.Admissible(last);
      assert front + [last] == keys;
      CitationsNext(e, front, last);
    }
  }

  /** Every planned turn gets exactly one label; unrun and executed turns never exceed the plan,
      and they account for all of it exactly when no executed turn was planned twice. */
  lemma {:induction false} EveryTurnLabelled(
    cases: seq<Case>, records: seq<Record>, judgments: seq<Judgment>, hash: Response -> string)
    requires Reportable(cases, records, judgments, hash)
    requires forall k | k in Actual(records) :: k in PlannedKeys(cases)
    ensures var e := EvidenceOf(records, judgments, hash);
            var report, keys := Summary(e, cases), PlannedKeys(cases);
            && |report.counts| == report.planned == |keys|
            && report.counts[NotRun] + report.executed <= report.planned
            && (report.counts[NotRun] + report.executed == report.planned <==> Unambiguous(keys, e.actual.Keys))
  {
    var e, keys := EvidenceOf(records, judgments, hash), PlannedKeys(cases);
    NotRunCount(e, keys);
    InsideBound(keys, e.actual.Keys);
    assert |e.actual| == |e.actual.Keys|;
  }

  ghost predicate DistinctIds(cases: seq<Case>) {
    forall i, j | 0 <= i < j < |cases| :: cases[i].id != cases[j].id
  }

  /** The records are those of a run over the cases. */
  ghost predicate Recorded(records: seq<Record>, cases: seq<Case>) {
    && |records| <= |cases|
    && forall i | 0 <= i < |records| ::
         records[i].caseId == cases[i].id && |records[i].turns| <= |cases[i].turns| && Numbered(records[i].turns)
  }

  ghost predicate Numbered(rows: seq<Row>) {
    forall i | 0 <= i < |rows| :: rows[i].number == i + 1
  }

  lemma {:induction false} RunRecorded(cases: seq<Case>, server: Server, limit: nat)
    ensures Recorded(RunCases(cases, server, limit, |cases|).records, cases)
  {
    RunIsPrefix(cases, server, limit, |cases|);
    var records := RunCases(cases, server, limit, |cases|).records;
    forall i | 0 <= i < |records|
      ensures records[i].caseId == cases[i].id && |records[i].turns| <= |cases[i].turns| && Numbered(records[i].turns)
    {
      assert Faithful(records[i], cases[i], server, i);
    }
  }

  lemma {:induction false} RowsByKeyAt(caseId: string, rows: seq<Row>)
    requires Numbered(rows)
    ensures var m := RowsByKey(caseId, rows);
            && |m| == |rows|
            && (forall k :: k in m <==> k.0 == caseId && 1 <= k.1 <= |rows|)
            && (forall n | 1 <= n <= |rows| :: m[(caseId, n)] == rows[n - 1])
  {
    if rows != [] {
      var front := rows[..|rows| - 1];
      RowsByKeyAt(caseId, front);
      assert (caseId, |rows|) !in RowsByKey(caseId, front);
    }
  }

  /** Record `i` executed the turn of this key. */
  ghost predicate Executes(records: seq<Record>, i: int, k: Key) {
    0 <= i < |records| && k.0 == records[i].caseId && 1 <= k.1 <= |records[i].turns|
  }

  ghost predicate DistinctRecords(records: seq<Record>) {
    && (forall i, j | 0 <= i < j < |records| :: records[i].caseId != records[j].caseId)
    && (forall i | 0 <= i < |records| :: Numbered(records[i].turns))
  }

  lemma {:induction false} ActualMembers(records: seq<Record>, k: Key)
    requires forall i | 0 <= i < |records| :: Numbered(records[i].turns)
    ensures k in Actual(records) <==> exists i :: Executes(records, i, k)
  {
    if records != [] {
      var front, last := records[..|records| - 1], records[|records| - 1];
      ActualMembers(front, k);
      RowsByKeyAt(last.caseId, last.turns);
      assert forall i :: Executes(front, i, k) ==> Executes(records, i, k);
      assert forall i :: Executes(records, i, k) ==> Executes(front, i, k) || i == |records| - 1;
      assert Executes(records, |records| - 1, k) <==> k in RowsByKey(last.caseId, last.turns);
    }
  }

  /** With distinct case ids every executed turn keeps its own row. */
  lemma {:induction false} ActualRow(records: seq<Record>, i: nat, k: Key)
    requires DistinctRecords(records) && Executes(records, i, k)
    ensures k in Actual(records) && Actual(records)[k] == records[i].turns[k.1 - 1]
  {
    var front, last := records[..|records| - 1], records[|records| - 1];
    RowsByKeyAt(last.caseId, last.turns);
    if i < |front| {
      assert front[i] == records[i];
      ActualRow(front, i, k);
    } else {
      assert k == (last.caseId, k.1);
    }
  }

  /** With distinct case ids there are as many executed turns as recorded rows. */
  lemma {:induction false} ActualSize(records: seq<Record>)
    requires DistinctRecords(records)
    ensures |Actual(records)| == |AllRows(records)|
  {
    if records != [] {
      var front, last := records[..|records| - 1], records[|records| - 1];
      ActualSize(front);
      RowsByKeyAt(last.caseId, last.turns);
      forall k | k in Actual(front)
        ensures k !in RowsByKey(last.caseId, last.turns)
      {
        ActualMembers(front, k);
        var i :| Executes(front, i, k);
        assert front[i] == records[i];
      }
      DisjointSize(Actual(front), RowsByKey(last.caseId, last.turns));
    }
  }

  lemma {:induction false} DisjointSize(a: map<Key, Row>, b: map<Key, Row>)
    requires a.Keys !! b.Keys
    ensures |a + b| == |a| + |b|
  {
  }

  /** Case `i` scripts the turn of this key. */
  ghost predicate Scripts(cases: seq<Case>, i: int, k: Key) {
    0 <= i < |cases| && k.0 == cases[i].id && 1 <= k.1 <= |cases[i].turns|
  }

  lemma {:induction false} PlannedMembers(cases: seq<Case>, k: Key)
    ensures k in PlannedKeys(cases) <==> exists i :: Scripts(cases, i, k)
  {
    if cases != [] {
      var front, last := cases[..|cases| - 1], cases[|cases| - 1];
      PlannedMembers(front, k);
      CaseKeyMembers(last, |last.turns|);
      assert forall i :: Scripts(front, i, k) ==> Scripts(cases, i, k);
      assert forall i :: Scripts(cases, i, k) ==> Scripts(front, i, k) || i == |cases| - 1;
      assert Scripts(cases, |cases| - 1, k) <==> k in CaseKeys(last, |last.turns|);
    }
  }

  lemma {:induction false} PlannedOnce(cases: seq<Case>, i: nat, j: nat)
    requires DistinctIds(cases) && i < j < |PlannedKeys(cases)|
    ensures PlannedKeys(cases)[i] != PlannedKeys(cases)[j]
  {
    var front, last := cases[..|cases| - 1], cases[|cases| - 1];
    var keys, more := PlannedKeys(front), CaseKeys(last, |last.turns|);
    CaseKeyMembers(last, |last.turns|);
    if j < |keys| {
      PlannedOnce(front, i, j);
    } else if i < |keys| {
      PlannedMembers(front, keys[i]);
      var h :| Scripts(front, h, keys[i]);
      assert front[h] == cases[h];
      assert more[j - |keys|] in more;
    }
  }

  /** Runner and report together keep the frozen denominator: whatever the server answers and wherever the run stops,
      every planned turn has one label, and the turns not run are the planned ones minus the executed ones. */
  lemma {:induction false} DenominatorConserved(
    cases: seq<Case>, server: Server, limit: nat, judgments: seq<Judgment>, hash: Response -> string)
    requires DistinctIds(cases)
    requires Reportable(cases, RunCases(cases, server, limit, |cases|).records, judgments, hash)
    ensures var records := RunCases(cases, server, limit, |cases|).records;
            var report := Summary(EvidenceOf(records, judgments, hash), cases);
            && |report.counts| == report.planned == |PlannedKeys(cases)|
            && report.executed == |AllRows(records)|
            && report.counts[NotRun] == report.planned - report.executed
  {
    var records := RunCases(cases, server, limit, |cases|).records;
    RunRecorded(cases, server, limit);
    RecordedDistinct(records, cases);
    ActualSize(records);
    ExecutedPlanned(records, cases);
    EveryTurnLabelled(cases, records, judgments, hash);
    forall i, j | 0 <= i < j < |PlannedKeys(cases)|
      ensures PlannedKeys(cases)[i] != PlannedKeys(cases)[j]
    {
      PlannedOnce(cases, i, j);
    }
  }

  lemma {:induction false} RecordedDistinct(records: seq<Record>, cases: seq<Case>)
    requires Recorded(records, cases) && DistinctIds(cases)
    ensures DistinctRecords(records)
  {
  }

  lemma {:induction false} ExecutedPlanned(records: seq<Record>, cases: seq<Case>)
    requires Recorded(records, cases)
    ensures forall k | k in Actual(records) :: k in PlannedKeys(cases)
  {
    forall k | k in Actual(records)
      ensures k in PlannedKeys(cases)
    {
      ActualMembers(records, k);
      PlannedMembers(cases, k);
      var i :| Executes(records, i, k);
      assert Scripts(cases, i, k);
    }
  }

  lemma {:induction false} PlannedHasCase(cases: seq<Case>, i: nat)
    requires i < |cases|
    ensures forall k | k in CaseKeys(cases[i], |cases[i].turns|) :: k in PlannedKeys(cases)
  {
    if i < |cases| - 1 {
      PlannedHasCase(cases[..|cases| - 1], i);
    }
  }

  /** The turn was executed, answered with HTTP 200, and reviewed as appropriate. */
  ghost predicate AnsweredWell(e: Evidence, key: Key) {
    && key in e.actual && e.actual[key].response.status == 200
    && key in e.judgments && e.judgments[key].verdict.Some?
    && e.judgments[key].verdict.value in {CompleteAnswer, UsefulClarification, AppropriateEscalation}
  }

  lemma {:induction false} AppropriateLabel(e: Evidence, key: Key)
    requires e.Admissible(key)
    ensures e.LabelOf(key) in APPROPRIATE <==> AnsweredWell(e, key)
    ensures e.LabelOf(key) == CompleteAnswer <==>
            AnsweredWell(e, key) && e.judgments[key].verdict == Some(CompleteAnswer)
  {
  }

  lemma {:induction false} LabelsAt(e: Evidence, c: Case, n: nat)
    requires 1 <= n <= |c.turns|
    ensures |CaseKeys(c, |c.turns|)| == |c.turns| && e.LabelsOf(CaseKeys(c, |c.turns|))[n - 1] == e.LabelOf((c.id, n))
  {
    CaseKeyMembers(c, |c.turns|);
    assert CaseKeys(c, |c.turns|)[n - 1] == (c.id, n);
  }

  /** Every scripted turn is labelled appropriate. */
  ghost predicate AllAppropriate(e: Evidence, c: Case) {
    forall n | 1 <= n <= |c.turns| :: e.LabelOf((c.id, n)) in APPROPRIATE
  }

  lemma {:induction false} ResolvedLabels(e: Evidence, c: Case)
    requires c.turns != []
    ensures e.Resolved(c) <==> AllAppropriate(e, c) && e.LabelOf((c.id, |c.turns|)) == CompleteAnswer
  {
    var labels := e.LabelsOf(CaseKeys(c, |c.turns|));
    forall n | 1 <= n <= |c.turns|
      ensures |labels| == |c.turns| && labels[n - 1] == e.LabelOf((c.id, n))
    {
      LabelsAt(e, c, n);
    }
    LabelsAt(e, c, |c.turns|);
    if AllAppropriate(e, c) {
      forall i | 0 <= i < |labels|
        ensures labels[i] in APPROPRIATE
      {
        assert e.LabelOf((c.id, i + 1)) in APPROPRIATE;
      }
    }
    if e.Resolved(c) {
      forall n | 1 <= n <= |c.turns|
        ensures e.LabelOf((c.id, n)) in APPROPRIATE
      {
        assert labels[n - 1] in APPROPRIATE;
      }
    }
  }

  /** A scenario is resolved exactly when every scripted turn was executed, answered with HTTP 200 and reviewed
      as appropriate, and the last one was reviewed as a complete answer. */
  lemma {:induction false} ResolvedExactly(e: Evidence, cases: seq<Case>, i: nat)
    requires Drawable(e, cases) && i < |cases|
    ensures var c := cases[i];
            e.Resolved(c) <==>
              && (forall n | 1 <= n <= |c.turns| :: AnsweredWell(e, (c.id, n)))
              && e.judgments[(c.id, |c.turns|)].verdict == Some(CompleteAnswer)
  {
    var c := cases[i];
    ResolvedLabels(e, c);
    forall n | 1 <= n <= |c.turns|
      ensures e.LabelOf((c.id, n)) in APPROPRIATE <==> AnsweredWell(e, (c.id, n))
      ensures e.LabelOf((c.id, n)) == CompleteAnswer <==>
              AnsweredWell(e, (c.id, n)) && e.judgments[(c.id, n)].verdict == Some(CompleteAnswer)
    {
      TurnAdmissible(e, cases, i, n);
      AppropriateLabel(e, (c.id, n));
    }
  }

  lemma {:induction false} TurnAdmissible(e: Evidence, cases: seq<Case>, i: nat, n: nat)
    requires Drawable(e, cases) && i < |cases| && 1 <= n <= |cases[i].turns|
    ensures e.Admissible((cases[i].id, n))
  {
    CaseKeyMembers(cases[i], |cases[i].turns|);
    PlannedHasCase(cases, i);
  }

  /** In the report on a run, a resolved scenario has a record with every scripted turn in it, each answered with HTTP 200. */
  lemma {:induction false} ResolvedWasRun(
    cases: seq<Case>, server: Server, limit: nat, judgments: seq<Judgment>, hash: Response -> string, i: nat)
    requires DistinctIds(cases) && i < |cases|
    requires var records := RunCases(cases, server, limit, |cases|).records;
             Reportable(cases, records, judgments, hash) && EvidenceOf(records, judgments, hash).Resolved(cases[i])
    ensures var records := RunCases(cases, server, limit, |cases|).records;
            && i < |records| && |records[i].turns| == |cases[i].turns|
            && forall n | 0 <= n < |records[i].turns| :: records[i].turns[n].response == server(i, n) && server(i, n).status == 200
  {
    var records := RunCases(cases, server, limit, |cases|).records;
    RunIsPrefix(cases, server, limit, |cases|);
    RunRecorded(cases, server, limit);
    RecordedDistinct(records, cases);
    ResolvedExactly(EvidenceOf(records, judgments, hash), cases, i);
    AnsweredWasRun(cases, server, records, EvidenceOf(records, judgments, hash), i);
  }

  lemma {:induction false} AnsweredWasRun(cases: seq<Case>, server: Server, records: seq<Record>, e: Evidence, i: nat)
    requires DistinctIds(cases) && RecordsCases(records, cases, server) && Recorded(records, cases) && DistinctRecords(records)
    requires i < |cases| && cases[i].turns != [] && e.actual == Actual(records)
    requires forall n | 1 <= n <= |cases[i].turns| :: AnsweredWell(e, (cases[i].id, n))
    ensures i < |records| && |records[i].turns| == |cases[i].turns|
    ensures forall n | 0 <= n < |records[i].turns| :: records[i].turns[n].response == server(i, n) && server(i, n).status == 200
  {
    var last := |cases[i].turns| - 1;
    assert AnsweredWell(e, (cases[i].id, last + 1));
    ExecutedTurn(cases, server, records, i, last);
    forall n: nat | n < |records[i].turns|
      ensures records[i].turns[n].response == server(i, n) && server(i, n).status == 200
    {
      assert AnsweredWell(e, (cases[i].id, n + 1));
      ExecutedTurn(cases, server, records, i, n);
    }
  }

  lemma {:induction false} ExecutedTurn(cases: seq<Case>, server: Server, records: seq<Record>, i: nat, n: nat)
    requires DistinctIds(cases) && RecordsCases(records, cases, server) && Recorded(records, cases) && DistinctRecords(records)
    requires i < |cases| && (cases[i].id, n + 1) in Actual(records)
    ensures i < |records| && n < |records[i].turns|
    ensures Actual(records)[(cases[i].id, n + 1)] == records[i].turns[n] && records[i].turns[n].response == server(i, n)
  {
    var k := (cases[i].id, n + 1);
    ActualMembers(records, k);
    var j :| Executes(records, j, k);
    assert records[j].caseId == cases[j].id;
    assert j == i;
    ActualRow(records, i, k);
    assert Faithful(records[i], cases[i], server, i);
  }

  // A turn planned twice

  /** Two cases of one id with the same single question. */
  function Repeated(id: string, question: string): seq<Case> {
    var c := Case(id, [Turn(None, [], question)]);
    [c, c]
  }

  lemma {:induction false} RepeatedRun(id: string, question: string, server: Server) returns (records: seq<Record>)
    ensures records == RunCases(Repeated(id, question), server, 0, 2).records
    ensures records == [Record(id, [Row(1, question, server(0, 0))], false), Record(id, [Row(1, question, server(1, 0))], false)]
  {
    var cases := Repeated(id, question);
    OneTurn(cases[0].turns, server, 0, 0);
    var first := RunCases(cases, server, 0, 1);
    assert first == RunCase(RunCases(cases, server, 0, 0), cases[0], server, 0, 0);
    OneTurn(cases[1].turns, server, 1, first.errors);
    records := RunCases(cases, server, 0, 2).records;
  }

  lemma {:induction false} OneTurn(turns: seq<Turn>, server: Server, ci: nat, errors: nat)
    requires |turns| == 1 && turns[0].option.None?
    ensures var p := RunTurns(turns, server, ci, 0, errors, 1);
            p.rows == [Row(1, turns[0].question, server(ci, 0))] && !p.missing && !p.stopped
  {
    var before := RunTurns(turns, server, ci, 0, errors, 0);
    assert before.rows == [] && RunTurns(turns, server, ci, 0, errors, 1) == AskTurn(before, turns[0], server(ci, 0), 0);
  }

  lemma {:induction false} RepeatedActual(id: string, first: Row, second: Row)
    requires first.number == second.number == 1
    ensures Actual([Record(id, [first], false), Record(id, [second], false)]) == map[(id, 1) := second]
  {
    var records := [Record(id, [first], false), Record(id, [second], false)];
    assert records[..1] == [records[0]] && records[..1][..0] == [];
    assert RowsByKey(id, [first][..0]) == map[] && RowsByKey(id, [second][..0]) == map[];
    assert Actual([]) == map[];
    assert Actual(records[..1]) == map[(id, 1) := first];
  }

  lemma {:induction false} RepeatedPlan(id: string, question: string)
    ensures PlannedKeys(Repeated(id, question)) == [(id, 1), (id, 1)]
  {
    var cases := Repeated(id, question);
    assert cases[..1] == [cases[0]] && cases[..1][..0] == [];
    assert CaseKeys(cases[0], 0) == [] && CaseKeys(cases[0], 1) == [(id, 1)];
    assert PlannedKeys(cases[..1]) == [(id, 1)];
  }

  /** Such a plan is run and reported in full, and yet the report does not account for it: of two planned turns, both
      asked and answered, one counts as executed and none as not run. */
  lemma {:induction false} RepeatedCaseUncounted(id: string, question: string, server: Server, hash: Response -> string)
    ensures var (cases, records) := (Repeated(id, question), RunCases(Repeated(id, question), server, 0, 2).records);
            var report := Summary(EvidenceOf(records, [], hash), cases);
            && Reportable(cases, records, [], hash) && |AllRows(records)| == 2
            && report.planned == 2 && report.executed == 1 && report.counts[NotRun] == 0
  {
    var records := RepeatedRun(id, question, server);
    RepeatedActual(id, records[0].turns[0], records[1].turns[0]);
    RepeatedPlan(id, question);
    var e := EvidenceOf(records, [], hash);
    var keys := PlannedKeys(Repeated(id, question));
    assert e.LabelsOf(keys) == [e.LabelOf((id, 1)), e.LabelOf((id, 1))];
    assert AllRows(records[..1][..0]) == [] && AllRows(records[..1]) == records[0].turns;
  }
}
