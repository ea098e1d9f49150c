/** The comparison as the report shows it. */
module ComparisonReport {
  import opened Strings
  import opened FactKeys
  import opened RowLinks
  import opened ReferenceComparison
  import opened ComparisonLaws

  datatype Report = Report(
    total: nat, recalled: nat, byKind: map<Kind, Counts>, byScope: map<Scope, Counts>,
    rowsTotal: nat, rowsTouched: nat, mapped: nat, unmapped: int, unmappedSubjects: multiset<string>,
    conflicts: seq<Conflict>, missed: seq<Missed>)

  lemma {:induction false} FiveTotals(vs: seq<Verdict>)
    ensures Sum(Each(vs, KINDS)) ==
            Add5(CountsOf(vs, OfKind(PRICE)), CountsOf(vs, OfKind(NUM)), CountsOf(vs, OfKind(TXT)),
                 CountsOf(vs, OfKind(STEP)), CountsOf(vs, OfKind(NEG)))
  {
    var each := Each(vs, KINDS);
    SumFive(each[0], each[1], each[2], each[3], each[4]);
    assert each == [each[0], each[1], each[2], each[3], each[4]];
  }

  lemma {:induction false} SumFive(a: Counts, b: Counts, c: Counts, d: Counts, e: Counts)
    ensures Sum([a, b, c, d, e]) == Add5(a, b, c, d, e)
  {
    SumTwo(a, b);
    SumSnoc([a, b], c);
    SumSnoc([a, b, c], d);
    SumSnoc([a, b, c, d], e);
    assert [a, b] + [c] == [a, b, c] && [a, b, c] + [d] == [a, b, c, d] && [a, b, c, d] + [e] == [a, b, c, d, e];
  }

  lemma {:induction false} SumTwo(a: Counts, b: Counts)
    ensures Sum([a, b]) == Counts(a.total + b.total, a.recalled + b.recalled)
  {
    SumSnoc([], a);
    SumSnoc([a], b);
    assert [] + [a] == [a] && [a] + [b] == [a, b];
  }

  function Add5(a: Counts, b: Counts, c: Counts, d: Counts, e: Counts): Counts {
    Counts(a.total + b.total + c.total + d.total + e.total, a.recalled + b.recalled + c.recalled + d.recalled + e.recalled)
  }

  lemma {:induction false} SumSnoc(parts: seq<Counts>, c: Counts)
    ensures Sum(parts + [c]) == Counts(Sum(parts).total + c.total, Sum(parts).recalled + c.recalled)
  {
  }

  lemma {:induction false} KindsAgree(vs: seq<Verdict>, byKind: map<Kind, Counts>)
    requires CountedKinds(vs, byKind)
    ensures CountsOf(vs, All) == Add5(byKind[PRICE], byKind[NUM], byKind[TXT], byKind[STEP], byKind[NEG])
  {
    CountsConserved(vs);
    FiveTotals(vs);
  }

  lemma {:induction false} ScopesAgree(vs: seq<Verdict>, byScope: map<Scope, Counts>)
    requires CountedScopes(vs, byScope)
    ensures CountsOf(vs, All).total == byScope[MenuScope].total + byScope[FootScope].total
    ensures CountsOf(vs, All).recalled == byScope[MenuScope].recalled + byScope[FootScope].recalled
  {
    CountsConserved(vs);
    TwoTotals(vs);
  }

  /** The report of a comparison: every count is the number of facts it stands for, the parts add up to the whole,
      every ledger fact is either linked or listed by name, and the conflicts are those of the single ledger facts. */
  method Compare(refs: seq<Ref>, ledger: seq<Fact>) returns (report: Report)
    ensures var vs := Verdicts(refs, ledger);
            && report.total == |Keyed(vs, All)| && report.recalled == |Hits(vs, All)|
            && Counted(vs, report.byKind, report.byScope)
            && report.missed == MissedOf(vs) && report.recalled + |report.missed| == report.total
            && report.rowsTotal == |MenuRows(vs)| && report.rowsTouched == |TouchedRows(vs)| <= report.rowsTotal
    ensures report.total == report.byScope[MenuScope].total + report.byScope[FootScope].total
    ensures report.recalled == report.byScope[MenuScope].recalled + report.byScope[FootScope].recalled
    ensures report.mapped + report.unmapped == |ledger|
    ensures report.unmappedSubjects == Unlinked(refs, ledger) && |report.unmappedSubjects| == report.unmapped
    ensures multiset(report.conflicts) == multiset(AllConflicts(refs, ledger))
  {
    ghost var vs := Verdicts(refs, ledger);
    var byRow, rows, mapped, subjects := GroupLedger(refs, ledger);
    var byKind, byScope, rowsTotal, touched, missed := CountRecall(refs, ledger, byRow);
    var conflicts := FindConflicts(refs, ledger, byRow, rows);
    KindsAgree(vs, byKind);
    ScopesAgree(vs, byScope);
    RecalledOrMissed(vs);
    TouchedAmongAll(vs);
    GroupingKeepsConflicts(refs, ledger);
    var sum := Add5(byKind[PRICE], byKind[NUM], byKind[TXT], byKind[STEP], byKind[NEG]);
    report := Report(
      sum.total, sum.recalled, byKind, byScope, |rowsTotal|, |touched|, mapped, |ledger| - mapped, subjects, conflicts, missed);
  }

  lemma {:induction false} TwoTotals(vs: seq<Verdict>)
    ensures var menu, foot := CountsOf(vs, OfScope(MenuScope)), CountsOf(vs, OfScope(FootScope));
            Sum(Each(vs, SCOPES)) == Counts(menu.total + foot.total, menu.recalled + foot.recalled)
  {
    var each := Each(vs, SCOPES);
    SumTwo(each[0], each[1]);
    assert each == [each[0], each[1]];
  }
}
