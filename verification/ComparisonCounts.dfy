/** What the counts of a comparison count, read off the reference and the ledger themselves. */
module ComparisonCounts {
  import opened Strings
  import Collections
  import opened FactKeys
  import opened KeyForms
  import opened RowLinks
  import opened RowNames
  import opened ReferenceComparison
  import opened ComparisonLaws

  // Values that are there

  /** The values that are there, in order. */
  function Present<T>(values: seq<Option<T>>): seq<T> {
    if values == [] then [] else
      var before := Present(values[..|values| - 1]);
      match values[|values| - 1]
      case None => before
      case Some(v) => before + [v]
  }

  /** These values are there, at these positions and nowhere else. */
  ghost predicate Found<T>(values: seq<Option<T>>, at: seq<nat>, found: seq<T>) {
    && |at| == |found| && (forall n | 0 <= n < |at| :: at[n] < |values| && values[at[n]] == Some(found[n]))
    && (forall m, n | 0 <= m < n < |at| :: at[m] < at[n])
    && (forall j: nat | j < |values| :: j in at <==> values[j].Some?)
  }

  lemma {:induction false} FoundNone<T>(values: seq<Option<T>>, at: seq<nat>, found: seq<T>)
    requires Found(values, at, found)
    ensures Found(values + [None], at, found)
  {
    var all := values + [None];
    assert all[|values|] == None && forall j | 0 <= j < |values| :: all[j] == values[j];
  }

  lemma {:induction false} FoundSome<T>(values: seq<Option<T>>, at: seq<nat>, found: seq<T>, v: T)
    requires Found(values, at, found)
    ensures Found(values + [Some(v)], at + [|values|], found + [v])
  {
    var all, at' := values + [Some(v)], at + [|values|];
    assert all[|values|] == Some(v) && forall j | 0 <= j < |values| :: all[j] == values[j];
    assert forall j: nat :: j in at' <==> j in at || j == |values|;
  }

  lemma {:induction false} PresentAt<T>(values: seq<Option<T>>) returns (at: seq<nat>, found: seq<T>)
    ensures found == Present(values) && Found(values, at, found)
  {
    at, found := [], [];
    if values != [] {
      var front, last := values[..|values| - 1], values[|values| - 1];
      at, found := PresentAt(front);
      assert front + [last] == values;
      match last
      case None =>
        FoundNone(front, at, found);
      case Some(v) =>
        FoundSome(front, at, found, v);
        at, found := at + [|front|], found + [v];
    }
  }

  lemma {:induction false} PresentFirst<T>(first: Option<T>, rest: seq<Option<T>>)
    ensures Present([first] + rest) == (if first.Some? then [first.value] else []) + Present(rest)
  {
    var all := [first] + rest;
    if rest == [] {
      assert all[..0] == [] && all[0] == first;
    } else {
      PresentFirst(first, rest[..|rest| - 1]);
      assert all[..|all| - 1] == [first] + rest[..|rest| - 1];
    }
  }

  /** The characters of a text but for commas between digits. */
  function Ungrouped(s: string): (r: seq<Option<char>>)
    ensures |r| == |s|
  {
    seq(|s|, i requires 0 <= i < |s| =>
      if s[i] == ',' && 0 < i < |s| - 1 && '0' <= s[i - 1] <= '9' && '0' <= s[i + 1] <= '9' then None else Some(s[i]))
  }

  lemma {:induction false} UngroupedFrom(s: string, i: nat)
    requires i <= |s|
    ensures DropThousands(s, i) == Present(Ungrouped(s)[i..])
    decreases |s| - i
  {
    if i < |s| {
      UngroupedFrom(s, i + 1);
      var u := Ungrouped(s);
      PresentFirst(u[i], u[i + 1..]);
      assert [u[i]] + u[i + 1..] == u[i..];
    }
  }

  /** Commas between digits are dropped, and nothing else. */
  lemma {:induction false} UngroupedExactly(s: string) returns (at: seq<nat>)
    ensures Found(Ungrouped(s), at, DropThousands(s, 0))
  {
    UngroupedFrom(s, 0);
    assert Ungrouped(s)[0..] == Ungrouped(s);
    var found;
    at, found := PresentAt(Ungrouped(s));
  }

  // What is recalled

  /** A number stands alone in a text: the text before it ends neither in a digit nor in a point, and what follows begins
      neither with a digit nor with a point and a digit. */
  predicate Alone(before: string, after: string) {
    && (before == "" || (before[|before| - 1] != '.' && !('0' <= before[|before| - 1] <= '9')))
    && (after == "" || !('0' <= after[0] <= '9')) && (|after| < 2 || after[0] != '.' || !('0' <= after[1] <= '9'))
  }

  ghost predicate AloneIn(text: string, needle: string) {
    exists before, after :: Parts(text, before, needle, after) && Alone(before, after)
  }

  lemma {:induction false} FoundAlone(plain: string, needle: string, i: nat)
    requires NumberAt(plain, needle, i)
    ensures AloneIn(plain, needle)
  {
    var before, after := plain[..i], plain[i + |needle|..];
    assert Parts(plain, before, needle, after);
    assert Alone(before, after);
  }

  lemma {:induction false} AloneFound(plain: string, needle: string, before: string, after: string)
    requires Parts(plain, before, needle, after) && Alone(before, after)
    ensures NumberAt(plain, needle, |before|)
  {
    var e := |before| + |needle|;
    assert At(plain, needle, |before|);
    assert after == plain[e..] && before == plain[..|before|];
  }

  lemma {:induction false} AloneExactly(needle: string, text: string)
    ensures NumIn(needle, text) <==> AloneIn(DropThousands(text, 0), needle)
  {
    var plain := DropThousands(text, 0);
    if i: nat :| i <= |plain| && NumberAt(plain, needle, i) {
      FoundAlone(plain, needle, i);
    }
    if before, after :| Parts(plain, before, needle, after) && Alone(before, after) {
      AloneFound(plain, needle, before, after);
    }
  }

  /** A fact recalls a key: a denial by denying something of the same column, a step or a text by reading it, a price or a
      number by having the same key or by reading it alone, with its unit. */
  ghost predicate Reproduces(x: Fact, k: Key) {
    var text := Blob(x);
    match k
    case Neg(column) => x.polarity == "NEGATE" && InColumn(Squeeze(x.attribute), column)
    case Price(price) =>
      HasKey(x, k) || (Normal(price) != "" && AloneIn(DropThousands(text, 0), Normal(price)))
    case Num(number, unit) =>
      var needle := Normal(number + Turns(unit));
      HasKey(x, k) || (needle != "" && AloneIn(DropThousands(text, 0), needle))
    case Step(_, step) => Normal(step) != "" && RowNames.Within(text, Normal(step))
    case Txt(words, _) => Normal(words) != "" && RowNames.Within(text, Normal(words))
  }

  lemma {:induction false} RecallsExactly(k: Key, x: Fact)
    ensures Recalls(k, x) <==> Reproduces(x, k)
  {
    NeedleExactly(k);
    KeyExactly(x, k);
    AloneExactly(Needle(k), Blob(x));
    WithinExactly(Blob(x), Needle(k));
    if k.Neg? {
      ColumnExactly(x.attribute, k.column);
    }
  }

  // What is counted

  predicate OfThisKind(k: Key, kind: Kind) {
    match kind
    case PRICE => k.Price?
    case NUM => k.Num?
    case TXT => k.Txt?
    case STEP => k.Step?
    case NEG => k.Neg?
  }

  /** A key of this kind, or at a row of this scope. */
  predicate CountedAs(k: Key, row: Row, g: Group) {
    match g
    case All => true
    case OfKind(kind) => OfThisKind(k, kind)
    case OfScope(FootScope) => row == Label("각주")
    case OfScope(MenuScope) => row != Label("각주")
  }

  predicate Counted(r: Ref, g: Group) {
    KeyOf(r.fact).Some? && CountedAs(KeyOf(r.fact).value, r.row, g)
  }

  /** The reference fact has a key that some ledger fact linked to the same row reproduces. */
  ghost predicate RecalledBy(refs: seq<Ref>, ledger: seq<Fact>, r: Ref) {
    KeyOf(r.fact).Some? && exists x :: x in ledger && Link(refs, x) == Some(r.row) && Reproduces(x, KeyOf(r.fact).value)
  }

  ghost function CountedAt(refs: seq<Ref>, g: Group): set<nat> {
    set i: nat | i < |refs| && Counted(refs[i], g)
  }

  ghost function RecalledAt(refs: seq<Ref>, ledger: seq<Fact>, g: Group): set<nat> {
    set i: nat | i < |refs| && Counted(refs[i], g) && RecalledBy(refs, ledger, refs[i])
  }

  lemma {:induction false} GroupExactly(k: Key, row: Row, hit: bool, assertion: string, g: Group)
    ensures InGroup(Judged(KindOf(k), row, hit, assertion), g) <==> CountedAs(k, row, g)
  {
  }

  lemma {:induction false} CountedGroup(r: Ref, facts: seq<Fact>, g: Group)
    ensures InGroup(Judge(r, facts), g) <==> Counted(r, g)
  {
    var k := KeyOf(r.fact);
    if k.Some? {
      GroupExactly(k.value, r.row, AnyRecalls(k.value, facts), r.fact.assertion, g);
    }
  }

  lemma {:induction false} VerdictExactly(refs: seq<Ref>, ledger: seq<Fact>, i: nat)
    requires i < |refs|
    ensures var v := Verdicts(refs, ledger)[i];
            (v.Judged? <==> Counted(refs[i], All)) && (v.Judged? && v.hit <==> RecalledBy(refs, ledger, refs[i]))
  {
    var r := refs[i];
    if KeyOf(r.fact).Some? {
      var k := KeyOf(r.fact).value;
      RecalledExactly(refs, ledger, i);
      forall x {
        RecallsExactly(k, x);
      }
      forall x
        ensures Serves(refs, r.row, k, x) <==> Link(refs, x) == Some(r.row) && Reproduces(x, k)
      {
        RecallsExactly(k, x);
      }
    }
  }

  /** The totals count exactly the keyed reference facts, by kind and by scope, and the recalled ones exactly those that a
      ledger fact linked to their row reproduces. */
  lemma {:induction false} CountedExactly(refs: seq<Ref>, ledger: seq<Fact>, g: Group)
    ensures CountsOf(Verdicts(refs, ledger), g) == Counts(|CountedAt(refs, g)|, |RecalledAt(refs, ledger, g)|)
  {
    var vs := Verdicts(refs, ledger);
    forall i: nat | i < |refs|
      ensures InGroup(vs[i], g) <==> Counted(refs[i], g)
      ensures Counted(refs[i], g) ==> (vs[i].hit <==> RecalledBy(refs, ledger, refs[i]))
    {
      CountedGroup(refs[i], Placed(refs, ledger, refs[i].row), g);
      VerdictExactly(refs, ledger, i);
    }
    assert Keyed(vs, g) == CountedAt(refs, g);
    assert Hits(vs, g) == RecalledAt(refs, ledger, g);
  }

  /** The entry is that of this reference fact. */
  predicate EntryOf(m: Missed, r: Ref) {
    && m.row == r.row && m.assertion == r.fact.assertion
    && Counted(r, OfKind(m.kind))
  }

  /** The missed facts are, in the order of the reference, those with a key that nothing recalls. */
  lemma {:induction false} MissedInOrder(refs: seq<Ref>, ledger: seq<Fact>) returns (at: seq<nat>, missed: seq<Missed>)
    ensures missed == MissedOf(Verdicts(refs, ledger)) && |at| == |missed|
    ensures forall n | 0 <= n < |at| :: at[n] < |refs| && EntryOf(missed[n], refs[at[n]])
    ensures forall m, n | 0 <= m < n < |at| :: at[m] < at[n]
    ensures forall i: nat | i < |refs| :: i in at <==> Counted(refs[i], All) && !RecalledBy(refs, ledger, refs[i])
  {
    var vs := Verdicts(refs, ledger);
    missed := MissedOf(vs);
    at := MissedAt(vs);
    forall n | 0 <= n < |at|
      ensures at[n] < |refs| && EntryOf(missed[n], refs[at[n]])
    {
      EntryExactly(refs[at[n]], Placed(refs, ledger, refs[at[n]].row), missed[n]);
    }
    forall i: nat | i < |refs|
      ensures i in at <==> Counted(refs[i], All) && !RecalledBy(refs, ledger, refs[i])
    {
      VerdictExactly(refs, ledger, i);
    }
  }

  lemma {:induction false} EntryExactly(r: Ref, facts: seq<Fact>, m: Missed)
    requires var v := Judge(r, facts); v.Judged? && m == Missed(v.row, v.kind, v.assertion)
    ensures EntryOf(m, r)
  {
    CountedGroup(r, facts, OfKind(m.kind));
  }

  predicate MissedAs(m: Missed, v: Verdict) {
    v.Judged? && m == Missed(v.row, v.kind, v.assertion)
  }

  function EntriesOf(vs: seq<Verdict>): (r: seq<Option<Missed>>)
    ensures |r| == |vs|
  {
    seq(|vs|, i requires 0 <= i < |vs| =>
      if vs[i].Judged? && !vs[i].hit then Some(Missed(vs[i].row, vs[i].kind, vs[i].assertion)) else None)
  }

  lemma {:induction false} MissedPresent(vs: seq<Verdict>)
    ensures MissedOf(vs) == Present(EntriesOf(vs))
  {
    if vs != [] {
      MissedPresent(vs[..|vs| - 1]);
      assert EntriesOf(vs)[..|vs| - 1] == EntriesOf(vs[..|vs| - 1]);
    }
  }

  lemma {:induction false} MissedAt(vs: seq<Verdict>) returns (at: seq<nat>)
    ensures |at| == |MissedOf(vs)|
    ensures forall n | 0 <= n < |at| :: at[n] < |vs| && MissedAs(MissedOf(vs)[n], vs[at[n]])
    ensures forall m, n | 0 <= m < n < |at| :: at[m] < at[n]
    ensures forall i: nat | i < |vs| :: i in at <==> vs[i].Judged? && !vs[i].hit
  {
    MissedPresent(vs);
    var found;
    at, found := PresentAt(EntriesOf(vs));
  }

  /** A row is counted if a keyed fact is of it, and touched if such a fact is recalled. */
  ghost predicate RowCounted(refs: seq<Ref>, row: Row) {
    exists i :: 0 <= i < |refs| && refs[i].row == row && Counted(refs[i], All)
  }

  ghost predicate RowTouched(refs: seq<Ref>, ledger: seq<Fact>, row: Row) {
    exists i :: 0 <= i < |refs| && refs[i].row == row && RecalledBy(refs, ledger, refs[i])
  }

  lemma {:induction false} VerdictRow(refs: seq<Ref>, ledger: seq<Fact>, i: nat)
    requires i < |refs|
    ensures var v := Verdicts(refs, ledger)[i];
            && (InGroup(v, All) <==> Counted(refs[i], All)) && (InGroup(v, All) ==> v.row == refs[i].row)
            && (InGroup(v, All) && v.hit <==> RecalledBy(refs, ledger, refs[i]))
  {
    VerdictExactly(refs, ledger, i);
  }

  /** The menu rows are the counted ones, and the touched rows the touched ones. */
  lemma {:induction false} RowsExactly(refs: seq<Ref>, ledger: seq<Fact>, row: Row)
    ensures row in MenuRows(Verdicts(refs, ledger)) <==> row.Menu? && RowCounted(refs, row)
    ensures row in TouchedRows(Verdicts(refs, ledger)) <==> row.Menu? && RowTouched(refs, ledger, row)
  {
    forall i: nat | i < |refs|
      ensures var v := Verdicts(refs, ledger)[i];
              && (InGroup(v, All) <==> Counted(refs[i], All)) && (InGroup(v, All) ==> v.row == refs[i].row)
              && (InGroup(v, All) && v.hit <==> RecalledBy(refs, ledger, refs[i]))
    {
      VerdictRow(refs, ledger, i);
    }
  }

  // The ledger

  ghost predicate UnlinkedAs(refs: seq<Ref>, x: Fact, name: string) {
    Link(refs, x).None? && Name(x) == name
  }

  /** The ledger facts of this name that belong to no row. */
  ghost function UnlinkedAt(refs: seq<Ref>, ledger: seq<Fact>, name: string): set<nat> {
    set j: nat | j < |ledger| && UnlinkedAs(refs, ledger[j], name)
  }

  lemma {:induction false} UnlinkedStep(refs: seq<Ref>, ledger: seq<Fact>, name: string)
    requires ledger != []
    ensures var front, x := ledger[..|ledger| - 1], ledger[|ledger| - 1];
            Unlinked(refs, ledger)[name] == Unlinked(refs, front)[name] + if UnlinkedAs(refs, x, name) then 1 else 0
  {
  }

  /** A name is counted as often as ledger facts of it belong to no row. */
  lemma {:induction false} UnlinkedExactly(refs: seq<Ref>, ledger: seq<Fact>, name: string)
    ensures Unlinked(refs, ledger)[name] == |UnlinkedAt(refs, ledger, name)|
  {
    if ledger != [] {
      var front, x := ledger[..|ledger| - 1], ledger[|ledger| - 1];
      UnlinkedExactly(refs, front, name);
      UnlinkedStep(refs, ledger, name);
      assert front + [x] == ledger;
      UnlinkedNext(refs, front, x, name, UnlinkedAs(refs, x, name));
    } else {
      assert UnlinkedAt(refs, ledger, name) == {};
    }
  }

  lemma {:induction false} UnlinkedNext(refs: seq<Ref>, front: seq<Fact>, x: Fact, name: string, counts: bool)
    requires counts == UnlinkedAs(refs, x, name)
    ensures |UnlinkedAt(refs, front + [x], name)| == |UnlinkedAt(refs, front, name)| + if counts then 1 else 0
  {
    var before, after := UnlinkedAt(refs, front, name), UnlinkedAt(refs, front + [x], name);
    forall j: nat
      ensures j in after <==> j in before || (counts && j == |front|)
    {
      if j <= |front| {
        LastOrBefore(front, x, j);
      }
    }
    Collections.OneMore(before, after, |front|, counts);
  }

  lemma {:induction false} LastOrBefore(front: seq<Fact>, x: Fact, j: nat)
    requires j <= |front|
    ensures (front + [x])[j] == if j < |front| then front[j] else x
  {
  }

  /** The conflict of each ledger fact, if it has one. */
  ghost function OwnConflicts(refs: seq<Ref>, ledger: seq<Fact>): (r: seq<Option<Conflict>>)
    ensures |r| == |ledger|
  {
    seq(|ledger|, j requires 0 <= j < |ledger| => LinkedConflict(refs, ledger[j]))
  }

  lemma {:induction false} AllPresent(refs: seq<Ref>, ledger: seq<Fact>)
    ensures AllConflicts(refs, ledger) == Present(OwnConflicts(refs, ledger))
  {
    if ledger != [] {
      AllPresent(refs, ledger[..|ledger| - 1]);
      assert OwnConflicts(refs, ledger)[..|ledger| - 1] == OwnConflicts(refs, ledger[..|ledger| - 1]);
    }
  }

  /** The conflicts of the ledger facts are, in the order of the ledger, those of exactly the facts that have one. */
  lemma {:induction false} ConflictsInOrder(refs: seq<Ref>, ledger: seq<Fact>) returns (at: seq<nat>, all: seq<Conflict>)
    ensures all == AllConflicts(refs, ledger) && |at| == |all|
    ensures forall n | 0 <= n < |at| :: at[n] < |ledger| && LinkedConflict(refs, ledger[at[n]]) == Some(all[n])
    ensures forall m, n | 0 <= m < n < |at| :: at[m] < at[n]
    ensures forall j: nat | j < |ledger| :: j in at <==> LinkedConflict(refs, ledger[j]).Some?
  {
    var own := OwnConflicts(refs, ledger);
    assert forall j | 0 <= j < |ledger| :: own[j] == LinkedConflict(refs, ledger[j]);
    at, all := PresentAt(own);
    AllPresent(refs, ledger);
  }

  // Whose names the tables hold

  lemma {:induction false} BearsExactly(r: Ref, name: string)
    ensures Bears(r, MenuPart, name) <==> Name(r.fact) == name && exists no :: r.row == Menu(no)
    ensures Bears(r, FootPart, name) <==> Name(r.fact) == name && r.row == Label("각주")
    ensures BearsRelated(r, MenuPart, name) <==>
            (exists no :: r.row == Menu(no))
            && |name| >= 2 && |Name(r.fact)| >= 2 && (RowNames.Within(name, Name(r.fact)) || RowNames.Within(Name(r.fact), name))
    ensures BearsRelated(r, FootPart, name) <==>
            r.row == Label("각주")
            && |name| >= 2 && |Name(r.fact)| >= 2 && (RowNames.Within(name, Name(r.fact)) || RowNames.Within(Name(r.fact), name))
  {
    RelatedExactly(name, Name(r.fact));
    assert r.row.Menu? ==> r.row == Menu(r.row.no);
  }
}
