/** What a report says, read off the records of the run and the list of judgments themselves. */
module OperationsLabels {
  import opened Strings
  import Collections
  import opened OperationsRun
  import opened OperationsReport

  // Judgments by turn

  function KeyAt(j: Judgment): Key {
    (j.caseId, j.turn)
  }

  /** Judgment `j` is about this turn. */
  ghost predicate About(judgments: seq<Judgment>, j: int, k: Key) {
    0 <= j < |judgments| && KeyAt(judgments[j]) == k
  }

  /** No turn is judged twice. */
  ghost predicate JudgedOnce(judgments: seq<Judgment>) {
    forall i, j | 0 <= i < j < |judgments| :: KeyAt(judgments[i]) != KeyAt(judgments[j])
  }

  lemma {:induction false} JudgedMembers(judgments: seq<Judgment>, k: Key)
    ensures k in JudgmentsByKey(judgments) <==> exists j :: About(judgments, j, k)
  {
    if judgments != [] {
      var front, last := judgments[..|judgments| - 1], |judgments| - 1;
      JudgedMembers(front, k);
      assert forall j :: About(front, j, k) ==> About(judgments, j, k);
      assert forall j :: About(judgments, j, k) ==> About(front, j, k) || j == last;
      assert About(judgments, last, k) <==> KeyAt(judgments[last]) == k;
    }
  }

  lemma {:induction false} JudgedOnceNext(front: seq<Judgment>, last: Judgment)
    ensures JudgedOnce(front + [last]) <==> JudgedOnce(front) && KeyAt(last) !in JudgmentsByKey(front)
  {
    var all := front + [last];
    assert forall i | 0 <= i < |front| :: all[i] == front[i];
    JudgedMembers(front, KeyAt(last));
    if KeyAt(last) in JudgmentsByKey(front) {
      var j :| About(front, j, KeyAt(last));
      assert KeyAt(all[j]) == KeyAt(all[|front|]);
    } else {
      forall i, j | 0 <= i < j < |all| && JudgedOnce(front)
        ensures KeyAt(all[i]) != KeyAt(all[j])
      {
        assert !About(front, i, KeyAt(last));
      }
    }
    if JudgedOnce(all) {
      forall i, j | 0 <= i < j < |front|
        ensures KeyAt(front[i]) != KeyAt(front[j])
      {
        assert KeyAt(all[i]) != KeyAt(all[j]);
      }
    }
  }

  lemma {:induction false} JudgedSize(judgments: seq<Judgment>)
    ensures |JudgmentsByKey(judgments)| <= |judgments|
    ensures |JudgmentsByKey(judgments)| == |judgments| <==> JudgedOnce(judgments)
  {
    if judgments != [] {
      var front, last := judgments[..|judgments| - 1], judgments[|judgments| - 1];
      JudgedSize(front);
      JudgedOnceNext(front, last);
      assert front + [last] == judgments;
      PutSize(JudgmentsByKey(front), KeyAt(last), last);
    }
  }

  lemma {:induction false} PutSize(m: map<Key, Judgment>, k: Key, j: Judgment)
    ensures |m[k := j]| == if k in m then |m| else |m| + 1
  {
    var m' := m[k := j];
    assert |m'| == |m'.Keys| && |m| == |m.Keys|;
    assert m'.Keys == m.Keys + {k};
  }

  lemma {:induction false} JudgedRow(judgments: seq<Judgment>, j: nat)
    requires JudgedOnce(judgments) && j < |judgments|
    ensures var m := JudgmentsByKey(judgments); KeyAt(judgments[j]) in m && m[KeyAt(judgments[j])] == judgments[j]
  {
    var front := judgments[..|judgments| - 1];
    if j < |front| {
      assert front[j] == judgments[j];
      JudgedRow(front, j);
    }
  }

  // When a report is drawn

  /** The judgment is one a report may use for this response: bound to it, of a known label that can be given,
      signed and reasoned, with a truth value on the citations if any, and API_ERROR where the turn failed. */
  predicate Usable(j: Judgment, r: Response, hash: Response -> string) {
    && j.responseHash == hash(r) && j.reviewer != "" && j.reason != ""
    && j.verdict.Some?
    && (j.verdict == Some(ApiError) ||
        (r.status == 200 &&
         j.verdict.value in {CompleteAnswer, UsefulClarification, AppropriateEscalation, IncompleteAnswer, IncorrectAnswer,
                             UnnecessaryClarification, InappropriateEscalation}))
    && (j.citation == Silent || j.citation == Correct(true) || j.citation == Correct(false))
  }

  /** Judgment `j` is usable for the answer that record `i` holds for its turn. */
  ghost predicate UsableAt(judgments: seq<Judgment>, records: seq<Record>, hash: Response -> string, j: int, i: int) {
    && 0 <= j < |judgments| && Executes(records, i, KeyAt(judgments[j]))
    && Usable(judgments[j], records[i].turns[judgments[j].turn - 1].response, hash)
  }

  /** Some record holds an answer that the judgment is usable for. */
  ghost predicate UsableSomewhere(judgments: seq<Judgment>, records: seq<Record>, hash: Response -> string, j: int) {
    exists i :: UsableAt(judgments, records, hash, j, i)
  }

  lemma {:induction false} AdmissibleUsable(e: Evidence, key: Key)
    ensures e.Admissible(key) <==>
            key !in e.judgments || (key in e.actual && Usable(e.judgments[key], e.actual[key].response, e.hash))
  {
    if key in e.judgments {
      var j := e.judgments[key];
      CitationCases(j.citation);
      if j.verdict.Some? {
        LabelCases(j.verdict.value);
      }
    }
  }

  lemma {:induction false} CitationCases(c: CitationVerdict)
    ensures c != Malformed <==> c == Silent || c == Correct(true) || c == Correct(false)
  {
  }

  lemma {:induction false} LabelCases(l: Label)
    ensures l !in {NotRun, Unreviewed} <==>
            l == ApiError ||
            l in {CompleteAnswer, UsefulClarification, AppropriateEscalation, IncompleteAnswer, IncorrectAnswer,
                  UnnecessaryClarification, InappropriateEscalation}
  {
  }

  /** A judgment of the evidence is usable exactly where it stands in the list. */
  lemma {:induction false} UsableWhere(judgments: seq<Judgment>, records: seq<Record>, hash: Response -> string, j: nat)
    requires DistinctRecords(records) && JudgedOnce(judgments) && j < |judgments|
    ensures var (e, k) := (EvidenceOf(records, judgments, hash), KeyAt(judgments[j]));
            k in e.judgments &&
            (k in e.actual && Usable(e.judgments[k], e.actual[k].response, hash)
             <==> UsableSomewhere(judgments, records, hash, j))
  {
    var k := KeyAt(judgments[j]);
    JudgedRow(judgments, j);
    ActualMembers(records, k);
    forall i | Executes(records, i, k)
      ensures k in Actual(records) && Actual(records)[k] == records[i].turns[k.1 - 1]
    {
      ActualRow(records, i, k);
    }
    if k in Actual(records) && Usable(judgments[j], Actual(records)[k].response, hash) {
      var i :| Executes(records, i, k);
      assert UsableAt(judgments, records, hash, j, i);
    }
  }

  /** On the records of a run over distinct cases, a report is drawn if and only if no case is empty, no turn is judged twice
      and every judgment is usable for the recorded answer of its turn. */
  lemma {:induction false} ReportableExactly(
    cases: seq<Case>, records: seq<Record>, judgments: seq<Judgment>, hash: Response -> string)
    requires DistinctIds(cases) && Recorded(records, cases)
    ensures Reportable(cases, records, judgments, hash) <==>
            && (forall i | 0 <= i < |cases| :: cases[i].turns != [])
            && JudgedOnce(judgments)
            && forall j | 0 <= j < |judgments| :: UsableSomewhere(judgments, records, hash, j)
  {
    var e := EvidenceOf(records, judgments, hash);
    JudgedSize(judgments);
    if JudgedOnce(judgments) {
      RecordedDistinct(records, cases);
      ExecutedPlanned(records, cases);
      AdmissibleWhere(cases, records, judgments, hash);
    }
  }

  /** The key is judged, and its judgment is usable for the executed answer. */
  ghost predicate Backed(e: Evidence, k: Key) {
    k in e.judgments && k in e.actual && Usable(e.judgments[k], e.actual[k].response, e.hash)
  }

  lemma {:induction false} AllBacked(e: Evidence, keys: seq<Key>)
    requires e.actual.Keys <= (set k | k in keys)
    ensures (forall k | k in e.judgments :: Backed(e, k)) <==>
            e.judgments.Keys <= e.actual.Keys && forall k | k in keys :: e.Admissible(k)
  {
    forall k {
      AdmissibleUsable(e, k);
    }
    if e.judgments.Keys <= e.actual.Keys && forall k | k in keys :: e.Admissible(k) {
      forall k | k in e.judgments
        ensures Backed(e, k)
      {
        assert k in keys;
        AdmissibleUsable(e, k);
      }
    }
    if forall k | k in e.judgments :: Backed(e, k) {
      forall k | k in keys
        ensures e.Admissible(k)
      {
        AdmissibleUsable(e, k);
        assert k in e.judgments ==> Backed(e, k);
      }
      assert forall k | k in e.judgments.Keys :: Backed(e, k);
    }
  }

  lemma {:induction false} AdmissibleWhere(
    cases: seq<Case>, records: seq<Record>, judgments: seq<Judgment>, hash: Response -> string)
    requires DistinctRecords(records) && JudgedOnce(judgments)
    requires forall k | k in Actual(records) :: k in PlannedKeys(cases)
    ensures var e := EvidenceOf(records, judgments, hash);
            (e.judgments.Keys <= e.actual.Keys && forall k | k in PlannedKeys(cases) :: e.Admissible(k)) <==>
            forall j | 0 <= j < |judgments| :: UsableSomewhere(judgments, records, hash, j)
  {
    var e := EvidenceOf(records, judgments, hash);
    AllBacked(e, PlannedKeys(cases));
    forall j: nat | j < |judgments|
      ensures KeyAt(judgments[j]) in e.judgments
      ensures Backed(e, KeyAt(judgments[j])) <==> UsableSomewhere(judgments, records, hash, j)
    {
      UsableWhere(judgments, records, hash, j);
    }
    forall k | k in e.judgments
      ensures exists j :: About(judgments, j, k)
    {
      JudgedMembers(judgments, k);
    }
    if forall j | 0 <= j < |judgments| :: UsableSomewhere(judgments, records, hash, j) {
      forall k | k in e.judgments
        ensures Backed(e, k)
      {
        var j :| About(judgments, j, k);
        assert UsableSomewhere(judgments, records, hash, j);
        assert Backed(e, KeyAt(judgments[j]));
      }
    }
  }

  // Labels and counts

  /** Some record holds an answer of this status to the turn. */
  ghost predicate Answered(records: seq<Record>, k: Key, good: bool) {
    exists i :: Executes(records, i, k) && (records[i].turns[k.1 - 1].response.status == 200 <==> good)
  }

  /** Some judgment gives the turn this label. */
  ghost predicate JudgedAs(judgments: seq<Judgment>, k: Key, l: Label) {
    exists j :: About(judgments, j, k) && judgments[j].verdict == Some(l)
  }

  /** The label a planned turn earns: not run, failed, awaiting review, or what its judgment says. */
  ghost predicate Earns(records: seq<Record>, judgments: seq<Judgment>, k: Key, l: Label) {
    match l
    case NotRun => forall i :: !Executes(records, i, k)
    case ApiError => Answered(records, k, false) || JudgedAs(judgments, k, ApiError)
    case Unreviewed => Answered(records, k, true) && forall j :: !About(judgments, j, k)
    case _ => JudgedAs(judgments, k, l)
  }

  lemma {:induction false} AnsweredExactly(records: seq<Record>, k: Key, good: bool)
    requires DistinctRecords(records)
    ensures Answered(records, k, good) <==> k in Actual(records) && (Actual(records)[k].response.status == 200 <==> good)
  {
    ActualMembers(records, k);
    forall i | Executes(records, i, k)
      ensures k in Actual(records) && Actual(records)[k] == records[i].turns[k.1 - 1]
    {
      ActualRow(records, i, k);
    }
  }

  lemma {:induction false} JudgedAsExactly(judgments: seq<Judgment>, k: Key, l: Label)
    requires JudgedOnce(judgments)
    ensures JudgedAs(judgments, k, l) <==>
            k in JudgmentsByKey(judgments) && JudgmentsByKey(judgments)[k].verdict == Some(l)
  {
    JudgedMembers(judgments, k);
    forall j | About(judgments, j, k)
      ensures k in JudgmentsByKey(judgments) && JudgmentsByKey(judgments)[k] == judgments[j]
    {
      JudgedRow(judgments, j);
    }
  }

  /** In a drawn report a planned turn has the label it earns, and no other. */
  lemma {:induction false} LabelExactly(
    records: seq<Record>, judgments: seq<Judgment>, hash: Response -> string, k: Key, l: Label)
    requires DistinctRecords(records) && JudgedOnce(judgments)
    requires EvidenceOf(records, judgments, hash).Admissible(k)
    ensures EvidenceOf(records, judgments, hash).LabelOf(k) == l <==> Earns(records, judgments, k, l)
  {
    var e := EvidenceOf(records, judgments, hash);
    ActualMembers(records, k);
    JudgedMembers(judgments, k);
    AnsweredExactly(records, k, true);
    AnsweredExactly(records, k, false);
    JudgedAsExactly(judgments, k, l);
    AdmissibleUsable(e, k);
  }

  /** The planned turns, by position, that earn this label. */
  ghost function Earning(keys: seq<Key>, records: seq<Record>, judgments: seq<Judgment>, l: Label): set<nat> {
    set n: nat | n < |keys| && Earns(records, judgments, keys[n], l)
  }

  lemma {:induction false} EarningNext(front: seq<Key>, last: Key, records: seq<Record>, judgments: seq<Judgment>, l: Label)
    ensures |Earning(front + [last], records, judgments, l)| ==
            |Earning(front, records, judgments, l)| + if Earns(records, judgments, last, l) then 1 else 0
  {
    var before, after := Earning(front, records, judgments, l), Earning(front + [last], records, judgments, l);
    forall n: nat
      ensures n in after <==> n in before || (Earns(records, judgments, last, l) && n == |front|)
    {
      if n <= |front| {
        assert (front + [last])[n] == if n < |front| then front[n] else last;
      }
    }
    Collections.OneMore(before, after, |front|, Earns(records, judgments, last, l));
  }

  lemma {:induction false} LabelCountNext(e: Evidence, front: seq<Key>, last: Key, l: Label)
    ensures multiset(e.LabelsOf(front + [last]))[l] == multiset(e.LabelsOf(front))[l] + if e.LabelOf(last) == l then 1 else 0
  {
    LabelsNext(e, front, last);
  }

  lemma {:induction false} LabelsCounted(
    keys: seq<Key>, records: seq<Record>, judgments: seq<Judgment>, hash: Response -> string, l: Label)
    requires DistinctRecords(records) && JudgedOnce(judgments)
    requires forall k | k in keys :: EvidenceOf(records, judgments, hash).Admissible(k)
    ensures multiset(EvidenceOf(records, judgments, hash).LabelsOf(keys))[l] == |Earning(keys, records, judgments, l)|
  {
    if keys != [] {
      var front, last := keys[..|keys| - 1], keys[|keys| - 1];
      LabelsCounted(front, records, judgments, hash, l);
      LabelExactly(records, judgments, hash, last, l);
      EarningNext(front, last, records, judgments, l);
      LabelCountNext(EvidenceOf(records, judgments, hash), front, last, l);
      assert front + [last] == keys;
    } else {
      assert Earning(keys, records, judgments, l) == {};
    }
  }

  /** The report on a run over distinct cases counts under each label exactly the planned turns that earn it. */
  lemma {:induction false} CountsExactly(
    cases: seq<Case>, records: seq<Record>, judgments: seq<Judgment>, hash: Response -> string, l: Label)
    requires DistinctIds(cases) && Recorded(records, cases) && Reportable(cases, records, judgments, hash)
    ensures Summary(EvidenceOf(records, judgments, hash), cases).counts[l] ==
            |Earning(PlannedKeys(cases), records, judgments, l)|
  {
    RecordedDistinct(records, cases);
    JudgedSize(judgments);
    LabelsCounted(PlannedKeys(cases), records, judgments, hash, l);
  }

  // Citations

  /** The judgments, by position, that give such a verdict on the citations. */
  ghost function Citing(judgments: seq<Judgment>, verdicts: set<CitationVerdict>): set<nat> {
    set j: nat | j < |judgments| && judgments[j].citation in verdicts
  }

  /** The planned turns whose judgment gives such a verdict on the citations. */
  ghost function CitedKeys(e: Evidence, keys: seq<Key>, verdicts: set<CitationVerdict>): set<Key> {
    set k | k in keys && k in e.judgments && e.judgments[k].citation in verdicts
  }

  ghost predicate Unrepeated(keys: seq<Key>) {
    forall i, j | 0 <= i < j < |keys| :: keys[i] != keys[j]
  }

  lemma {:induction false} UnrepeatedFront(front: seq<Key>, last: Key)
    requires Unrepeated(front + [last])
    ensures Unrepeated(front) && last !in front
  {
    var keys := front + [last];
    assert keys[|front|] == last && forall i | 0 <= i < |front| :: keys[i] == front[i];
  }

  ghost function CitedAmong(e: Evidence, keys: seq<Key>): Citations {
    Citations(|CitedKeys(e, keys, {Correct(true), Correct(false)})|, |CitedKeys(e, keys, {Correct(true)})|)
  }

  lemma {:induction false} CitationsStep(e: Evidence, front: seq<Key>, last: Key)
    requires last !in front && e.CitationsOf(front) == CitedAmong(e, front)
    ensures e.CitationsOf(front + [last]) == CitedAmong(e, front + [last])
  {
    CitationsNext(e, front, last);
    CitedNext(e, front, last, {Correct(true), Correct(false)});
    CitedNext(e, front, last, {Correct(true)});
  }

  lemma {:induction false} CitationsCounted(e: Evidence, keys: seq<Key>)
    requires Unrepeated(keys)
    ensures e.CitationsOf(keys) == CitedAmong(e, keys)
  {
    if keys != [] {
      var front, last := keys[..|keys| - 1], keys[|keys| - 1];
      assert front + [last] == keys;
      UnrepeatedFront(front, last);
      CitationsCounted(e, front);
      CitationsStep(e, front, last);
    } else {
      assert CitedKeys(e, keys, {Correct(true), Correct(false)}) == {} == CitedKeys(e, keys, {Correct(true)});
    }
  }

  lemma {:induction false} CitedNext(e: Evidence, front: seq<Key>, last: Key, verdicts: set<CitationVerdict>)
    requires last !in front
    ensures |CitedKeys(e, front + [last], verdicts)| ==
            |CitedKeys(e, front, verdicts)| + if last in e.judgments && e.judgments[last].citation in verdicts then 1 else 0
  {
    var before, after := CitedKeys(e, front, verdicts), CitedKeys(e, front + [last], verdicts);
    var more := last in e.judgments && e.judgments[last].citation in verdicts;
    forall k
      ensures k in after <==> k in before || (more && k == last)
    {
      assert k in front + [last] <==> k in front || k == last;
    }
    Collections.OneMore(before, after, last, more);
  }

  /** The turns of the first `n` judgments that give such a verdict. */
  ghost function CitingKeys(judgments: seq<Judgment>, verdicts: set<CitationVerdict>, n: nat): set<Key>
    requires n <= |judgments|
  {
    set j: nat | j < n && judgments[j].citation in verdicts :: KeyAt(judgments[j])
  }

  lemma {:induction false} CitingNext(judgments: seq<Judgment>, verdicts: set<CitationVerdict>, n: nat)
    requires JudgedOnce(judgments) && n < |judgments|
    ensures var before, k := CitingKeys(judgments, verdicts, n), KeyAt(judgments[n]);
            && k !in before
            && CitingKeys(judgments, verdicts, n + 1) == if judgments[n].citation in verdicts then before + {k} else before
  {
  }

  lemma {:induction false} CitingPrefix(judgments: seq<Judgment>, verdicts: set<CitationVerdict>, n: nat)
    requires n < |judgments|
    ensures |Citing(judgments[..n + 1], verdicts)| ==
            |Citing(judgments[..n], verdicts)| + if judgments[n].citation in verdicts then 1 else 0
  {
    var before, after := Citing(judgments[..n], verdicts), Citing(judgments[..n + 1], verdicts);
    assert after == if judgments[n].citation in verdicts then before + {n} else before;
  }

  /** Judgments of distinct turns are as many as their turns. */
  lemma {:induction false} CitingCounted(judgments: seq<Judgment>, verdicts: set<CitationVerdict>, n: nat)
    requires JudgedOnce(judgments) && n <= |judgments|
    ensures |CitingKeys(judgments, verdicts, n)| == |Citing(judgments[..n], verdicts)|
  {
    if n > 0 {
      CitingCounted(judgments, verdicts, n - 1);
      CitingNext(judgments, verdicts, n - 1);
      CitingPrefix(judgments, verdicts, n - 1);
    } else {
      assert CitingKeys(judgments, verdicts, 0) == {} && Citing(judgments[..0], verdicts) == {};
    }
  }

  lemma {:induction false} CitedWhere(
    judgments: seq<Judgment>, e: Evidence, keys: seq<Key>, verdicts: set<CitationVerdict>)
    requires JudgedOnce(judgments) && e.judgments == JudgmentsByKey(judgments)
    requires forall k | k in e.judgments :: k in keys
    ensures |CitedKeys(e, keys, verdicts)| == |Citing(judgments, verdicts)|
  {
    var of := CitingKeys(judgments, verdicts, |judgments|);
    forall k
      ensures k in of <==> k in CitedKeys(e, keys, verdicts)
    {
      JudgedMembers(judgments, k);
      forall j | About(judgments, j, k)
        ensures k in e.judgments && e.judgments[k] == judgments[j]
      {
        JudgedRow(judgments, j);
      }
    }
    assert of == CitedKeys(e, keys, verdicts);
    CitingCounted(judgments, verdicts, |judgments|);
    assert judgments[..|judgments|] == judgments;
  }

  /** The report on a run over distinct cases counts as reviewed exactly the judgments that speak of the citations,
      and as correct exactly those that find them correct. */
  lemma {:induction false} CitationsExactly(
    cases: seq<Case>, records: seq<Record>, judgments: seq<Judgment>, hash: Response -> string)
    requires DistinctIds(cases) && Recorded(records, cases) && Reportable(cases, records, judgments, hash)
    ensures Summary(EvidenceOf(records, judgments, hash), cases).citations ==
            Citations(|Citing(judgments, {Correct(true), Correct(false)})|, |Citing(judgments, {Correct(true)})|)
  {
    var e, keys := EvidenceOf(records, judgments, hash), PlannedKeys(cases);
    RecordedDistinct(records, cases);
    ExecutedPlanned(records, cases);
    JudgedSize(judgments);
    forall i, j | 0 <= i < j < |keys|
      ensures keys[i] != keys[j]
    {
      PlannedOnce(cases, i, j);
    }
    CitationsCounted(e, keys);
    CitedWhere(judgments, e, keys, {Correct(true), Correct(false)});
    CitedWhere(judgments, e, keys, {Correct(true)});
  }

  // Resolved scenarios

  /** The report names, case by case in the order of the plan, exactly the resolved scenarios. */
  lemma {:induction false} ResolvedInOrder(e: Evidence, cases: seq<Case>) returns (at: seq<nat>)
    ensures |at| == |ResolvedIds(e, cases)|
    ensures forall i | 0 <= i < |at| :: at[i] < |cases| && cases[at[i]].id == ResolvedIds(e, cases)[i]
    ensures forall i, j | 0 <= i < j < |at| :: at[i] < at[j]
    ensures forall i: nat | i < |cases| :: i in at <==> e.Resolved(cases[i])
  {
    at := [];
    if cases != [] {
      var n := |cases| - 1;
      at := ResolvedInOrder(e, cases[..n]);
      if e.Resolved(cases[n]) {
        at := at + [n];
      }
    }
  }
}
