/** Recall and value conflicts of a ledger measured against a reference. */
module ReferenceComparison {
  import opened Strings
  import opened FactKeys
  import opened RowLinks

  // Finding one reference key in the facts of a row

  /** A comma between two digits. */
  predicate IsSeparator(s: string, i: nat) {
    0 < i < |s| - 1 && s[i] == ',' && IsDigit(s[i - 1]) && IsDigit(s[i + 1])
  }

  /** Drops the separators from position `i` on. */
  function DropThousands(s: string, i: nat): string
    requires i <= |s|
    decreases |s| - i
  {
    if i == |s| then ""
    else if IsSeparator(s, i) then DropThousands(s, i + 1)
    else [s[i]] + DropThousands(s, i + 1)
  }

  /** `needle` stands at `i`, with no digit or point before it, and no digit or fraction after it. */
  predicate NumberAt(text: string, needle: string, i: nat) {
    var e := i + |needle|;
    && At(text, needle, i)
    && (i > 0 ==> !DigitOrDot(text[i - 1]))
    && (e < |text| ==> !IsDigit(text[e]))
    && (e + 1 < |text| ==> !(text[e] == '.' && IsDigit(text[e + 1])))
  }

  predicate NumIn(needle: string, text: string) {
    var plain := DropThousands(text, 0);
    exists i: nat | i <= |plain| :: NumberAt(plain, needle, i)
  }

  function Needle(k: Key): string {
    if k.Price? then Normal(k.price) else VoteNeedle(k)
  }

  /** This ledger fact reproduces the reference key. */
  predicate Recalls(k: Key, x: Fact) {
    var needle := Needle(k);
    match k
    case Neg(column) => x.polarity == "NEGATE" && Column(x.attribute) == column
    case Price(_) => KeyOf(x) == Some(k) || (needle != "" && NumIn(needle, Blob(x)))
    case Num(_, _) => KeyOf(x) == Some(k) || (needle != "" && NumIn(needle, Blob(x)))
    case Step(_, _) => needle != "" && Contains(Blob(x), needle)
    case Txt(_, _) => needle != "" && Contains(Blob(x), needle)
  }

  // What is to be counted

  datatype Kind = PRICE | NUM | TXT | STEP | NEG

  datatype Scope = MenuScope | FootScope

  /** All keyed reference facts, those of one kind of key, or those of one scope. */
  datatype Group = All | OfKind(kind: Kind) | OfScope(scope: Scope)

  function KindOf(k: Key): Kind {
    match k
    case Price(_) => PRICE
    case Num(_, _) => NUM
    case Txt(_, _) => TXT
    case Step(_, _) => STEP
    case Neg(_) => NEG
  }

  function ScopeOf(row: Row): Scope {
    if row == FOOTNOTES then FootScope else MenuScope
  }

  /** The ledger facts linked to a row, in ledger order. */
  ghost function Placed(refs: seq<Ref>, ledger: seq<Fact>, row: Row): seq<Fact> {
    if ledger == [] then [] else
      var before, x := Placed(refs, ledger[..|ledger| - 1], row), ledger[|ledger| - 1];
      if Link(refs, x) == Some(row) then before + [x] else before
  }

  predicate AnyRecalls(k: Key, facts: seq<Fact>) {
    exists i | 0 <= i < |facts| :: Recalls(k, facts[i])
  }

  /** What becomes of a reference fact: facts without a key are skipped, the others recalled or missed. */
  datatype Verdict = Skipped | Judged(kind: Kind, row: Row, hit: bool, assertion: string)

  /** A reference fact is judged by the ledger facts of its own row. */
  function Judge(r: Ref, facts: seq<Fact>): Verdict {
    var k := KeyOf(r.fact);
    if k.None? then Skipped else Judged(KindOf(k.value), r.row, AnyRecalls(k.value, facts), r.fact.assertion)
  }

  ghost function Verdicts(refs: seq<Ref>, ledger: seq<Fact>): seq<Verdict> {
    seq(|refs|, i requires 0 <= i < |refs| => Judge(refs[i], Placed(refs, ledger, refs[i].row)))
  }

  predicate InGroup(v: Verdict, g: Group) {
    v.Judged? &&
    match g
    case All => true
    case OfKind(kind) => v.kind == kind
    case OfScope(scope) => ScopeOf(v.row) == scope
  }

  /** The positions of the keyed reference facts of a group. */
  ghost function Keyed(vs: seq<Verdict>, g: Group): set<nat> {
    set i: nat | i < |vs| && InGroup(vs[i], g)
  }

  ghost function Hits(vs: seq<Verdict>, g: Group): set<nat> {
    set i: nat | i < |vs| && InGroup(vs[i], g) && vs[i].hit
  }

  ghost function MenuRows(vs: seq<Verdict>): set<Row> {
    set i: nat | i < |vs| && InGroup(vs[i], All) && vs[i].row.Menu? :: vs[i].row
  }

  ghost function TouchedRows(vs: seq<Verdict>): set<Row> {
    set i: nat | i < |vs| && InGroup(vs[i], All) && vs[i].row.Menu? && vs[i].hit :: vs[i].row
  }

  /** The names of the ledger facts that belong to no row. */
  ghost function Unlinked(refs: seq<Ref>, ledger: seq<Fact>): multiset<string> {
    if ledger == [] then multiset{} else
      var before, x := Unlinked(refs, ledger[..|ledger| - 1]), ledger[|ledger| - 1];
      if Link(refs, x).None? then before + multiset{Name(x)} else before
  }

  // Conflicts

  /** A cell that may hold numbers: row, column and unit. */
  datatype Cell = Cell(row: Row, column: string, cellUnit: string)

  /** The cell and the value of a numeric fact in a row. */
  function NumberOf(x: Fact, row: Row): Option<(Cell, string)> {
    match KeyOf(x)
    case Some(Num(v, u)) => Some((Cell(row, Column(x.attribute), u), v))
    case _ => None
  }

  /** The reference values of a cell, in order. */
  function CellValues(refs: seq<Ref>, cell: Cell): seq<string> {
    if refs == [] then [] else
      var before, r := CellValues(refs[..|refs| - 1], cell), refs[|refs| - 1];
      var number := NumberOf(r.fact, r.row);
      if r.row.Menu? && number.Some? && number.value.0 == cell then before + [number.value.1] else before
  }

  datatype Conflict = Conflict(row: Row, ledgerValue: string, referenceValues: set<string>, assertion: string)

  function ValueSet(values: seq<string>): set<string> {
    set v | v in values
  }

  function ConflictOf(refs: seq<Ref>, row: Row, x: Fact): Option<Conflict> {
    var number := NumberOf(x, row);
    if number.None? then None else
      var values, v := CellValues(refs, number.value.0), number.value.1;
      if values != [] && v !in values then
        Some(Conflict(row, v + number.value.0.cellUnit, ValueSet(values), x.assertion))
      else None
  }

  function ConflictsIn(refs: seq<Ref>, row: Row, facts: seq<Fact>): seq<Conflict> {
    if facts == [] then [] else
      var before, c := ConflictsIn(refs, row, facts[..|facts| - 1]), ConflictOf(refs, row, facts[|facts| - 1]);
      if c.Some? then before + [c.value] else before
  }

  /** The conflicts of the rows in turn. */
  ghost function ConflictsByRow(refs: seq<Ref>, ledger: seq<Fact>, rows: seq<Row>): seq<Conflict> {
    if rows == [] then [] else
      var row := rows[|rows| - 1];
      ConflictsByRow(refs, ledger, rows[..|rows| - 1]) + ConflictsIn(refs, row, Placed(refs, ledger, row))
  }

  /** The rows of linked ledger facts, each once, in the order of first appearance. */
  ghost function LinkedRows(refs: seq<Ref>, ledger: seq<Fact>): seq<Row> {
    if ledger == [] then [] else
      var before, row := LinkedRows(refs, ledger[..|ledger| - 1]), Link(refs, ledger[|ledger| - 1]);
      if row.Some? && row.value !in before then before + [row.value] else before
  }

  // The comparison

  datatype Counts = Counts(total: nat, recalled: nat)

  datatype Missed = Missed(row: Row, kind: Kind, assertion: string)

  /** The reference facts no ledger fact reproduces. */
  function MissedOf(vs: seq<Verdict>): seq<Missed> {
    if vs == [] then [] else
      var before, v := MissedOf(vs[..|vs| - 1]), vs[|vs| - 1];
      if v.Judged? && !v.hit then before + [Missed(v.row, v.kind, v.assertion)] else before
  }

  ghost function CountsOf(vs: seq<Verdict>, g: Group): Counts {
    Counts(|Keyed(vs, g)|, |Hits(vs, g)|)
  }

  function Add(c: Counts, hit: bool): Counts {
    Counts(c.total + 1, c.recalled + if hit then 1 else 0)
  }

  lemma {:induction false} KeyedNext(vs: seq<Verdict>, n: nat, g: Group)
    requires n < |vs|
    ensures Keyed(vs[..n + 1], g) == if InGroup(vs[n], g) then Keyed(vs[..n], g) + {n} else Keyed(vs[..n], g)
    ensures n !in Keyed(vs[..n], g)
  {
  }

  lemma {:induction false} HitsNext(vs: seq<Verdict>, n: nat, g: Group)
    requires n < |vs|
    ensures Hits(vs[..n + 1], g) == if InGroup(vs[n], g) && vs[n].hit then Hits(vs[..n], g) + {n} else Hits(vs[..n], g)
    ensures n !in Hits(vs[..n], g)
  {
  }

  lemma {:induction false} CountsNext(vs: seq<Verdict>, n: nat, g: Group)
    requires n < |vs|
    ensures CountsOf(vs[..n + 1], g) ==
            if InGroup(vs[n], g) then Add(CountsOf(vs[..n], g), vs[n].hit) else CountsOf(vs[..n], g)
  {
    KeyedNext(vs, n, g);
    HitsNext(vs, n, g);
  }

  lemma {:induction false} RowsNext(vs: seq<Verdict>, n: nat)
    requires n < |vs|
    ensures var v := vs[n];
            && MenuRows(vs[..n + 1]) == (if v.Judged? && v.row.Menu? then MenuRows(vs[..n]) + {v.row} else MenuRows(vs[..n]))
            && TouchedRows(vs[..n + 1]) ==
               if v.Judged? && v.row.Menu? && v.hit then TouchedRows(vs[..n]) + {v.row} else TouchedRows(vs[..n])
  {
  }

  function Look<K(==), V>(m: map<K, seq<V>>, k: K): seq<V> {
    if k in m then m[k] else []
  }

  /** The facts of each row, and the rows in the order of their first fact. */
  ghost predicate Grouped(refs: seq<Ref>, ledger: seq<Fact>, byRow: map<Row, seq<Fact>>, rows: seq<Row>) {
    && rows == LinkedRows(refs, ledger)
    && (forall row :: row in byRow <==> row in rows)
    && (forall row :: Look(byRow, row) == Placed(refs, ledger, row))
  }

  lemma {:induction false} GroupedUnlinked(
    refs: seq<Ref>, ledger: seq<Fact>, x: Fact, byRow: map<Row, seq<Fact>>, rows: seq<Row>)
    requires Grouped(refs, ledger, byRow, rows) && Link(refs, x) == None
    ensures Grouped(refs, ledger + [x], byRow, rows)
    ensures Unlinked(refs, ledger + [x]) == Unlinked(refs, ledger) + multiset{Name(x)}
  {
  }

  lemma {:induction false} GroupedLinked(
    refs: seq<Ref>, ledger: seq<Fact>, x: Fact, row: Row, byRow: map<Row, seq<Fact>>, rows: seq<Row>)
    requires Grouped(refs, ledger, byRow, rows) && Link(refs, x) == Some(row)
    ensures Grouped(refs, ledger + [x], byRow[row := Look(byRow, row) + [x]], if row in byRow then rows else rows + [row])
    ensures Unlinked(refs, ledger + [x]) == Unlinked(refs, ledger)
  {
    assert (ledger + [x])[..|ledger|] == ledger;
    var after := byRow[row := Look(byRow, row) + [x]];
    forall other
      ensures Look(after, other) == Placed(refs, ledger + [x], other)
    {
      assert Look(byRow, other) == Placed(refs, ledger, other);
    }
  }

  method GroupLedger(refs: seq<Ref>, ledger: seq<Fact>)
    returns (byRow: map<Row, seq<Fact>>, rows: seq<Row>, mapped: nat, unmapped: multiset<string>)
    ensures Grouped(refs, ledger, byRow, rows)
    ensures unmapped == Unlinked(refs, ledger) && mapped + |unmapped| == |ledger|
  {
    var tables := RowTables(refs);
    byRow, rows, mapped, unmapped := map[], [], 0, multiset{};
    for i := 0 to |ledger|
      invariant Grouped(refs, ledger[..i], byRow, rows)
      invariant unmapped == Unlinked(refs, ledger[..i]) && mapped + |unmapped| == i
    {
      var x := ledger[i];
      assert ledger[..i + 1] == ledger[..i] + [x];
      var found := FindRow(x, refs, tables);
      if found.None? {
        GroupedUnlinked(refs, ledger[..i], x, byRow, rows);
        unmapped := unmapped + multiset{Name(x)};
      } else {
        var row := found.value;
        GroupedLinked(refs, ledger[..i], x, row, byRow, rows);
        mapped := mapped + 1;
        rows := if row in byRow then rows else rows + [row];
        byRow := byRow[row := Look(byRow, row) + [x]];
      }
    }
    assert ledger[..|ledger|] == ledger;
  }

  ghost predicate CountedKinds(vs: seq<Verdict>, byKind: map<Kind, Counts>) {
    forall kind: Kind :: kind in byKind && byKind[kind] == CountsOf(vs, OfKind(kind))
  }

  ghost predicate CountedScopes(vs: seq<Verdict>, byScope: map<Scope, Counts>) {
    forall scope: Scope :: scope in byScope && byScope[scope] == CountsOf(vs, OfScope(scope))
  }

  /** The counters after these verdicts. */
  ghost predicate Counted(vs: seq<Verdict>, byKind: map<Kind, Counts>, byScope: map<Scope, Counts>) {
    CountedKinds(vs, byKind) && CountedScopes(vs, byScope)
  }

  lemma {:induction false} CountedNone(byKind: map<Kind, Counts>, byScope: map<Scope, Counts>)
    requires forall kind: Kind :: kind in byKind && byKind[kind] == Counts(0, 0)
    requires forall scope: Scope :: scope in byScope && byScope[scope] == Counts(0, 0)
    ensures Counted([], byKind, byScope)
  {
  }

  lemma {:induction false} KindsNext(vs: seq<Verdict>, n: nat, byKind: map<Kind, Counts>)
    requires n < |vs| && CountedKinds(vs[..n], byKind)
    ensures var v := vs[n];
            CountedKinds(vs[..n + 1], if v.Judged? then byKind[v.kind := Add(byKind[v.kind], v.hit)] else byKind)
  {
    forall kind: Kind {
      CountsNext(vs, n, OfKind(kind));
    }
  }

  lemma {:induction false} ScopesNext(vs: seq<Verdict>, n: nat, byScope: map<Scope, Counts>)
    requires n < |vs| && CountedScopes(vs[..n], byScope)
    ensures var v := vs[n];
            CountedScopes(vs[..n + 1],
                          if v.Judged? then byScope[ScopeOf(v.row) := Add(byScope[ScopeOf(v.row)], v.hit)] else byScope)
  {
    forall scope: Scope {
      CountsNext(vs, n, OfScope(scope));
    }
  }

  /** The row sets and the missed facts after these verdicts. */
  ghost predicate Listed(vs: seq<Verdict>, total: set<Row>, touched: set<Row>, missed: seq<Missed>) {
    total == MenuRows(vs) && touched == TouchedRows(vs) && missed == MissedOf(vs)
  }

  lemma {:induction false} ListedNext(vs: seq<Verdict>, n: nat, total: set<Row>, touched: set<Row>, missed: seq<Missed>)
    requires n < |vs| && Listed(vs[..n], total, touched, missed)
    ensures var v := vs[n];
            Listed(vs[..n + 1],
                   if v.Judged? && v.row.Menu? then total + {v.row} else total,
                   if v.Judged? && v.hit && v.row.Menu? then touched + {v.row} else touched,
                   if v.Judged? && !v.hit then missed + [Missed(v.row, v.kind, v.assertion)] else missed)
  {
    RowsNext(vs, n);
    assert vs[..n + 1][..n] == vs[..n];
  }

  method CountRecall(refs: seq<Ref>, ghost ledger: seq<Fact>, byRow: map<Row, seq<Fact>>)
    returns (byKind: map<Kind, Counts>, byScope: map<Scope, Counts>, total: set<Row>, touched: set<Row>, missed: seq<Missed>)
    requires forall row :: Look(byRow, row) == Placed(refs, ledger, row)
    ensures Counted(Verdicts(refs, ledger), byKind, byScope)
    ensures total == MenuRows(Verdicts(refs, ledger)) && touched == TouchedRows(Verdicts(refs, ledger))
    ensures missed == MissedOf(Verdicts(refs, ledger))
  {
    ghost var vs := Verdicts(refs, ledger);
    var none := Counts(0, 0);
    byKind := map[PRICE := none, NUM := none, TXT := none, STEP := none, NEG := none];
    byScope := map[MenuScope := none, FootScope := none];
    total, touched, missed := {}, {}, [];
    forall kind: Kind
      ensures kind in byKind
    {
      assert kind.PRICE? || kind.NUM? || kind.TXT? || kind.STEP? || kind.NEG?;
    }
    forall scope: Scope
      ensures scope in byScope
    {
      assert scope.MenuScope? || scope.FootScope?;
    }
    CountedNone(byKind, byScope);
    for i := 0 to |refs|
      invariant CountedKinds(vs[..i], byKind) && CountedScopes(vs[..i], byScope) && Listed(vs[..i], total, touched, missed)
    {
      var v := Judge(refs[i], Look(byRow, refs[i].row));
      assert v == vs[i];
      KindsNext(vs, i, byKind);
      ScopesNext(vs, i, byScope);
      ListedNext(vs, i, total, touched, missed);
      if v.Judged? {
        var scope := ScopeOf(v.row);
        byScope := byScope[scope := Add(byScope[scope], v.hit)];
        byKind := byKind[v.kind := Add(byKind[v.kind], v.hit)];
        if v.row.Menu? {
          total := total + {v.row};
        }
        if !v.hit {
          missed := missed + [Missed(v.row, v.kind, v.assertion)];
        } else if v.row.Menu? {
          touched := touched + {v.row};
        }
      }
    }
    assert vs[..|refs|] == vs;
  }

  method ReferenceNumbers(refs: seq<Ref>) returns (numbers: map<Cell, seq<string>>)
    ensures forall cell :: Look(numbers, cell) == CellValues(refs, cell)
  {
    numbers := map[];
    for i := 0 to |refs|
      invariant forall cell :: Look(numbers, cell) == CellValues(refs[..i], cell)
    {
      var r := refs[i];
      assert refs[..i + 1][..i] == refs[..i];
      var number := NumberOf(r.fact, r.row);
      if number.Some? && r.row.Menu? {
        var (cell, v) := number.value;
        numbers := numbers[cell := Look(numbers, cell) + [v]];
      }
    }
    assert refs[..|refs|] == refs;
  }

  method RowConflicts(refs: seq<Ref>, numbers: map<Cell, seq<string>>, row: Row, facts: seq<Fact>)
    returns (conflicts: seq<Conflict>)
    requires forall cell :: Look(numbers, cell) == CellValues(refs, cell)
    ensures conflicts == ConflictsIn(refs, row, facts)
  {
    conflicts := [];
    for j := 0 to |facts|
      invariant conflicts == ConflictsIn(refs, row, facts[..j])
    {
      var x := facts[j];
      assert facts[..j + 1][..j] == facts[..j];
      var number := NumberOf(x, row);
      if number.Some? {
        var (cell, v) := number.value;
        var values := Look(numbers, cell);
        if values != [] && v !in values {
          conflicts := conflicts + [Conflict(row, v + cell.cellUnit, ValueSet(values), x.assertion)];
        }
      }
    }
    assert facts[..|facts|] == facts;
  }

  method FindConflicts(refs: seq<Ref>, ghost ledger: seq<Fact>, byRow: map<Row, seq<Fact>>, rows: seq<Row>)
    returns (conflicts: seq<Conflict>)
    requires Grouped(refs, ledger, byRow, rows)
    ensures conflicts == ConflictsByRow(refs, ledger, rows)
  {
    var numbers := ReferenceNumbers(refs);
    conflicts := [];
    for i := 0 to |rows|
      invariant conflicts == ConflictsByRow(refs, ledger, rows[..i])
    {
      var row := rows[i];
      var facts := Look(byRow, row);
      var found := RowConflicts(refs, numbers, row, facts);
      conflicts := conflicts + found;
      assert rows[..i + 1][..i] == rows[..i];
    }
    assert rows[..|rows|] == rows;
  }
}
