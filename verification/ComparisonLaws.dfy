/** Conservation, monotonicity and exactness of the comparison of a ledger with a reference. */
module ComparisonLaws {
  import opened Strings
  import opened Collections
  import opened FactKeys
  import opened RowLinks
  import opened ReferenceComparison

  // Conservation

  function Sum(parts: seq<Counts>): Counts {
    if parts == [] then Counts(0, 0) else
      var before, c := Sum(parts[..|parts| - 1]), parts[|parts| - 1];
      Counts(before.total + c.total, before.recalled + c.recalled)
  }

  /** The counts of each of some groups. */
  ghost function Each(vs: seq<Verdict>, gs: seq<Group>): seq<Counts> {
    seq(|gs|, i requires 0 <= i < |gs| => CountsOf(vs, gs[i]))
  }

  predicate Apart(gs: seq<Group>, v: Verdict) {
    forall i, j | 0 <= i < j < |gs| :: !(InGroup(v, gs[i]) && InGroup(v, gs[j]))
  }

  predicate InSome(gs: seq<Group>, v: Verdict) {
    exists i | 0 <= i < |gs| :: InGroup(v, gs[i])
  }

  /** The groups are disjoint and cover the keyed reference facts. */
  predicate Covers(gs: seq<Group>, v: Verdict) {
    Apart(gs, v) && (v.Judged? <==> InSome(gs, v))
  }

  lemma {:induction false} InSomeNext(gs: seq<Group>, v: Verdict)
    requires gs != []
    ensures InSome(gs, v) <==> InSome(gs[..|gs| - 1], v) || InGroup(v, gs[|gs| - 1])
  {
  }

  lemma {:induction false} ApartNext(gs: seq<Group>, v: Verdict)
    requires gs != [] && Apart(gs, v)
    ensures Apart(gs[..|gs| - 1], v) && !(InSome(gs[..|gs| - 1], v) && InGroup(v, gs[|gs| - 1]))
  {
  }

  lemma {:induction false} SumNext(vs: seq<Verdict>, n: nat, gs: seq<Group>)
    requires n < |vs| && Apart(gs, vs[n])
    ensures var before := Sum(Each(vs[..n], gs));
            Sum(Each(vs[..n + 1], gs)) == if InSome(gs, vs[n]) then Add(before, vs[n].hit) else before
  {
    if gs != [] {
      InSomeNext(gs, vs[n]);
      ApartNext(gs, vs[n]);
      SumNext(vs, n, gs[..|gs| - 1]);
      CountsNext(vs, n, gs[|gs| - 1]);
      EachNext(vs[..n], gs);
      EachNext(vs[..n + 1], gs);
    }
  }

  lemma {:induction false} EachNext(vs: seq<Verdict>, gs: seq<Group>)
    requires gs != []
    ensures Each(vs, gs)[..|gs| - 1] == Each(vs, gs[..|gs| - 1])
  {
  }

  lemma {:induction false} SumNone(gs: seq<Group>)
    ensures Sum(Each([], gs)) == Counts(0, 0)
  {
    if gs != [] {
      SumNone(gs[..|gs| - 1]);
      EachNext([], gs);
      assert Keyed([], gs[|gs| - 1]) == {} && Hits([], gs[|gs| - 1]) == {};
    }
  }

  lemma {:induction false} PartsAddUp(vs: seq<Verdict>, gs: seq<Group>)
    requires forall i | 0 <= i < |vs| :: Covers(gs, vs[i])
    ensures CountsOf(vs, All) == Sum(Each(vs, gs))
  {
    if vs == [] {
      SumNone(gs);
      assert Keyed(vs, All) == {} && Hits(vs, All) == {};
    } else {
      var n := |vs| - 1;
      PartsAddUp(vs[..n], gs);
      CountsNext(vs, n, All);
      assert Covers(gs, vs[n]);
      SumNext(vs, n, gs);
      assert vs[..n + 1] == vs;
    }
  }

  const KINDS: seq<Group> := [OfKind(PRICE), OfKind(NUM), OfKind(TXT), OfKind(STEP), OfKind(NEG)]
  const SCOPES: seq<Group> := [OfScope(MenuScope), OfScope(FootScope)]

  lemma {:induction false} KindsCover(v: Verdict)
    ensures Covers(KINDS, v)
  {
    if v.Judged? {
      var i := match v.kind case PRICE => 0 case NUM => 1 case TXT => 2 case STEP => 3 case NEG => 4;
      assert KINDS[i] == OfKind(v.kind);
      assert InGroup(v, KINDS[i]);
    }
  }

  lemma {:induction false} ScopesCover(v: Verdict)
    ensures Covers(SCOPES, v)
  {
    if v.Judged? {
      var i := if ScopeOf(v.row) == MenuScope then 0 else 1;
      assert InGroup(v, SCOPES[i]);
    }
  }

  /** Every keyed reference fact is counted under exactly one kind and one scope, whether recalled or not. */
  lemma {:induction false} CountsConserved(vs: seq<Verdict>)
    ensures CountsOf(vs, All) == Sum(Each(vs, KINDS)) == Sum(Each(vs, SCOPES))
  {
    forall i | 0 <= i < |vs|
      ensures Covers(KINDS, vs[i]) && Covers(SCOPES, vs[i])
    {
      KindsCover(vs[i]);
      ScopesCover(vs[i]);
    }
    PartsAddUp(vs, KINDS);
    PartsAddUp(vs, SCOPES);
  }

  /** What is not recalled is missed. */
  lemma {:induction false} RecalledOrMissed(vs: seq<Verdict>)
    ensures |Hits(vs, All)| + |MissedOf(vs)| == |Keyed(vs, All)|
  {
    if vs == [] {
      assert Keyed(vs, All) == {} && Hits(vs, All) == {};
    } else {
      var n := |vs| - 1;
      RecalledOrMissed(vs[..n]);
      CountsNext(vs, n, All);
      assert vs[..n + 1] == vs;
    }
  }

  lemma {:induction false} TouchedAmongAll(vs: seq<Verdict>)
    ensures TouchedRows(vs) <= MenuRows(vs) && |TouchedRows(vs)| <= |MenuRows(vs)|
  {
    forall row | row in TouchedRows(vs)
      ensures row in MenuRows(vs)
    {
      var i: nat :| i < |vs| && InGroup(vs[i], All) && vs[i].row.Menu? && vs[i].hit && vs[i].row == row;
    }
    SubsetSize(TouchedRows(vs), MenuRows(vs));
  }

  // Monotonicity

  lemma {:induction false} PlacedMembers(refs: seq<Ref>, ledger: seq<Fact>, row: Row)
    ensures forall x :: x in Placed(refs, ledger, row) <==> x in ledger && Link(refs, x) == Some(row)
  {
    if ledger != [] {
      PlacedMembers(refs, ledger[..|ledger| - 1], row);
      assert ledger == ledger[..|ledger| - 1] + [ledger[|ledger| - 1]];
    }
  }

  /** The fact is linked to the row and reproduces the key. */
  ghost predicate Serves(refs: seq<Ref>, row: Row, k: Key, x: Fact) {
    Link(refs, x) == Some(row) && Recalls(k, x)
  }

  ghost predicate Served(refs: seq<Ref>, ledger: seq<Fact>, row: Row, k: Key) {
    exists x :: x in ledger && Serves(refs, row, k, x)
  }

  lemma {:induction false} ServedByPlaced(refs: seq<Ref>, ledger: seq<Fact>, row: Row, k: Key)
    ensures AnyRecalls(k, Placed(refs, ledger, row)) <==> Served(refs, ledger, row, k)
  {
    var facts := Placed(refs, ledger, row);
    PlacedMembers(refs, ledger, row);
    if x :| x in ledger && Serves(refs, row, k, x) {
      assert x in facts;
      var j :| 0 <= j < |facts| && facts[j] == x;
      assert AnyRecalls(k, facts);
    }
    if j :| 0 <= j < |facts| && Recalls(k, facts[j]) {
      assert facts[j] in facts;
      assert Serves(refs, row, k, facts[j]);
    }
  }

  /** A reference fact is recalled if and only if some ledger fact linked to its row reproduces its key. */
  lemma {:induction false} RecalledExactly(refs: seq<Ref>, ledger: seq<Fact>, i: nat)
    requires i < |refs| && KeyOf(refs[i].fact).Some?
    ensures var v := Verdicts(refs, ledger)[i];
            v.Judged? && (v.hit <==> Served(refs, ledger, refs[i].row, KeyOf(refs[i].fact).value))
  {
    ServedByPlaced(refs, ledger, refs[i].row, KeyOf(refs[i].fact).value);
  }

  /** The second verdict differs from the first at most by being a hit. */
  predicate Keeps(v: Verdict, w: Verdict) {
    match v
    case Skipped => w == Skipped
    case Judged(kind, row, hit, assertion) => w == Judged(kind, row, true, assertion) || w == v
  }

  lemma {:induction false} HitKept(refs: seq<Ref>, ledger: seq<Fact>, more: seq<Fact>, i: nat)
    requires i < |refs| && forall x :: x in ledger ==> x in more
    ensures Keeps(Verdicts(refs, ledger)[i], Verdicts(refs, more)[i])
  {
    if KeyOf(refs[i].fact).Some? {
      RecalledExactly(refs, ledger, i);
      RecalledExactly(refs, more, i);
    }
  }

  /** A ledger with more facts, in any order, recalls at least the same reference facts, in every group and row. */
  lemma {:induction false} RecallMonotone(refs: seq<Ref>, ledger: seq<Fact>, more: seq<Fact>, g: Group)
    requires forall x :: x in ledger ==> x in more
    ensures var vs, ws := Verdicts(refs, ledger), Verdicts(refs, more);
            && Hits(vs, g) <= Hits(ws, g) && TouchedRows(vs) <= TouchedRows(ws)
            && CountsOf(vs, g).recalled <= CountsOf(ws, g).recalled && CountsOf(vs, g).total == CountsOf(ws, g).total
  {
    var vs, ws := Verdicts(refs, ledger), Verdicts(refs, more);
    forall i: nat | i < |refs|
      ensures Keeps(vs[i], ws[i])
    {
      HitKept(refs, ledger, more, i);
    }
    GrowingVerdicts(vs, ws, g);
  }

  lemma {:induction false} GrowingVerdicts(vs: seq<Verdict>, ws: seq<Verdict>, g: Group)
    requires |vs| == |ws| && forall i: nat | i < |vs| :: Keeps(vs[i], ws[i])
    ensures Hits(vs, g) <= Hits(ws, g) && TouchedRows(vs) <= TouchedRows(ws)
    ensures CountsOf(vs, g).recalled <= CountsOf(ws, g).recalled && CountsOf(vs, g).total == CountsOf(ws, g).total
  {
    assert Keyed(vs, g) == Keyed(ws, g);
    SubsetSize(Hits(vs, g), Hits(ws, g));
    forall row | row in TouchedRows(vs)
      ensures row in TouchedRows(ws)
    {
      var i: nat :| i < |vs| && InGroup(vs[i], All) && vs[i].row.Menu? && vs[i].hit && vs[i].row == row;
      assert InGroup(ws[i], All) && ws[i].row == row && ws[i].hit;
    }
  }

  // Conflicts

  /** The reference states this value for this cell of a menu row. */
  predicate States(r: Ref, cell: Cell, v: string) {
    r.row.Menu? && NumberOf(r.fact, r.row) == Some((cell, v))
  }

  lemma {:induction false} StatedNext(refs: seq<Ref>, cell: Cell, v: string)
    requires refs != []
    ensures v in CellValues(refs, cell) <==>
            v in CellValues(refs[..|refs| - 1], cell) || States(refs[|refs| - 1], cell, v)
  {
  }

  lemma {:induction false} StatedKept(refs: seq<Ref>, cell: Cell, v: string, i: nat)
    requires i < |refs| && States(refs[i], cell, v)
    ensures v in CellValues(refs, cell)
  {
    StatedNext(refs, cell, v);
    if i < |refs| - 1 {
      StatedKept(refs[..|refs| - 1], cell, v, i);
    }
  }

  lemma {:induction false} StatedFound(refs: seq<Ref>, cell: Cell, v: string) returns (i: nat)
    requires v in CellValues(refs, cell)
    ensures i < |refs| && States(refs[i], cell, v)
  {
    StatedNext(refs, cell, v);
    if v in CellValues(refs[..|refs| - 1], cell) {
      i := StatedFound(refs[..|refs| - 1], cell, v);
    } else {
      i := |refs| - 1;
    }
  }

  lemma {:induction false} StatedValues(refs: seq<Ref>, cell: Cell, v: string)
    ensures v in CellValues(refs, cell) <==> exists i :: 0 <= i < |refs| && States(refs[i], cell, v)
  {
    if v in CellValues(refs, cell) {
      var i := StatedFound(refs, cell, v);
    } else {
      forall i | 0 <= i < |refs|
        ensures !States(refs[i], cell, v)
      {
        if States(refs[i], cell, v) {
          StatedKept(refs, cell, v, i);
        }
      }
    }
  }

  /** The fact is linked to a row of which the reference knows numbers in the same column and unit, and not this one. */
  ghost predicate Contradicts(refs: seq<Ref>, x: Fact, row: Row, v: string, u: string) {
    var cell := Cell(row, Column(x.attribute), u);
    && Link(refs, x) == Some(row) && KeyOf(x) == Some(Num(v, u))
    && (exists i, w :: 0 <= i < |refs| && States(refs[i], cell, w))
    && (forall i | 0 <= i < |refs| :: !States(refs[i], cell, v))
  }

  ghost function LinkedConflict(refs: seq<Ref>, x: Fact): Option<Conflict> {
    var row := Link(refs, x);
    if row.Some? then ConflictOf(refs, row.value, x) else None
  }

  /** The conflicts of the ledger facts, in ledger order. */
  ghost function AllConflicts(refs: seq<Ref>, ledger: seq<Fact>): seq<Conflict> {
    if ledger == [] then [] else
      var before, c := AllConflicts(refs, ledger[..|ledger| - 1]), LinkedConflict(refs, ledger[|ledger| - 1]);
      if c.Some? then before + [c.value] else before
  }

  lemma {:induction false} LinkedNumber(refs: seq<Ref>, x: Fact, row: Row, cell: Cell, v: string)
    requires Link(refs, x) == Some(row) && NumberOf(x, row) == Some((cell, v))
    ensures var values := CellValues(refs, cell);
            LinkedConflict(refs, x) ==
            if values != [] && v !in values then Some(Conflict(row, v + cell.cellUnit, ValueSet(values), x.assertion)) else None
  {
  }

  lemma {:induction false} NumberIs(x: Fact, row: Row, v: string, u: string)
    ensures NumberOf(x, row) == Some((Cell(row, Column(x.attribute), u), v)) <==> KeyOf(x) == Some(Num(v, u))
  {
  }

  /** A ledger fact is a conflict if and only if it contradicts the reference. */
  lemma {:induction false} ConflictExactly(refs: seq<Ref>, x: Fact, row: Row, v: string, u: string)
    requires Link(refs, x) == Some(row) && KeyOf(x) == Some(Num(v, u))
    ensures LinkedConflict(refs, x).Some? <==> Contradicts(refs, x, row, v, u)
  {
    var cell := Cell(row, Column(x.attribute), u);
    NumberIs(x, row, v, u);
    LinkedNumber(refs, x, row, cell, v);
    StatedValues(refs, cell, v);
    SomeStated(refs, cell);
  }

  lemma {:induction false} SomeStated(refs: seq<Ref>, cell: Cell)
    ensures CellValues(refs, cell) != [] <==> exists i, w :: 0 <= i < |refs| && States(refs[i], cell, w)
  {
    var values := CellValues(refs, cell);
    if values != [] {
      var i := StatedFound(refs, cell, values[0]);
    } else {
      forall i, w | 0 <= i < |refs|
        ensures !States(refs[i], cell, w)
      {
        if States(refs[i], cell, w) {
          StatedKept(refs, cell, w, i);
        }
      }
    }
  }

  /** A conflict names the row, the value, and exactly the values the reference has for the cell. */
  lemma {:induction false} ConflictNames(refs: seq<Ref>, x: Fact, row: Row, v: string, u: string, w: string)
    requires Link(refs, x) == Some(row) && KeyOf(x) == Some(Num(v, u)) && LinkedConflict(refs, x).Some?
    ensures var c, cell := LinkedConflict(refs, x).value, Cell(row, Column(x.attribute), u);
            && c.row == row && c.ledgerValue == v + u && c.assertion == x.assertion
            && (w in c.referenceValues <==> exists i :: 0 <= i < |refs| && States(refs[i], cell, w))
  {
    var cell := Cell(row, Column(x.attribute), u);
    NumberIs(x, row, v, u);
    LinkedNumber(refs, x, row, cell, v);
    StatedValues(refs, cell, w);
  }

  /** Facts without a numeric key, or without a row, are never conflicts. */
  lemma {:induction false} ConflictsAreNumbers(refs: seq<Ref>, x: Fact)
    requires LinkedConflict(refs, x).Some?
    ensures exists row, v, u :: Contradicts(refs, x, row, v, u)
  {
    var row := Link(refs, x).value;
    var k := KeyOf(x).value;
    ConflictExactly(refs, x, row, k.number, k.numUnit);
  }

  lemma {:induction false} AllConflictsMembers(refs: seq<Ref>, ledger: seq<Fact>)
    ensures forall c :: c in AllConflicts(refs, ledger) <==> exists x :: x in ledger && LinkedConflict(refs, x) == Some(c)
  {
    if ledger != [] {
      AllConflictsMembers(refs, ledger[..|ledger| - 1]);
      assert ledger == ledger[..|ledger| - 1] + [ledger[|ledger| - 1]];
    }
  }

  // Grouping by row loses and duplicates no conflict

  ghost predicate Once(rows: seq<Row>) {
    forall i, j | 0 <= i < j < |rows| :: rows[i] != rows[j]
  }

  ghost predicate LinkedFrom(refs: seq<Ref>, ledger: seq<Fact>, row: Row) {
    exists x :: x in ledger && Link(refs, x) == Some(row)
  }

  lemma {:induction false} LinkedRowsMembers(refs: seq<Ref>, ledger: seq<Fact>, row: Row)
    ensures row in LinkedRows(refs, ledger) <==> LinkedFrom(refs, ledger, row)
  {
    if ledger != [] {
      var front, last := ledger[..|ledger| - 1], ledger[|ledger| - 1];
      LinkedRowsMembers(refs, front, row);
      assert ledger == front + [last];
    }
  }

  lemma {:induction false} LinkedOnce(refs: seq<Ref>, ledger: seq<Fact>)
    ensures Once(LinkedRows(refs, ledger))
  {
    if ledger != [] {
      LinkedOnce(refs, ledger[..|ledger| - 1]);
    }
  }

  /** The conflict a ledger fact adds to the given rows. */
  ghost function Added(refs: seq<Ref>, x: Fact, rows: seq<Row>): multiset<Conflict> {
    var row, c := Link(refs, x), LinkedConflict(refs, x);
    if row.Some? && row.value in rows && c.Some? then multiset{c.value} else multiset{}
  }

  lemma {:induction false} AddedNext(refs: seq<Ref>, x: Fact, rows: seq<Row>, row: Row)
    requires row !in rows
    ensures Added(refs, x, rows + [row]) == Added(refs, x, rows) + Added(refs, x, [row])
  {
  }

  ghost function RowBag(refs: seq<Ref>, ledger: seq<Fact>, row: Row): multiset<Conflict> {
    multiset(ConflictsIn(refs, row, Placed(refs, ledger, row)))
  }

  ghost function Bag(refs: seq<Ref>, ledger: seq<Fact>, rows: seq<Row>): multiset<Conflict> {
    multiset(ConflictsByRow(refs, ledger, rows))
  }

  lemma {:induction false} OneMoreInRow(refs: seq<Ref>, ledger: seq<Fact>, x: Fact, row: Row)
    ensures RowBag(refs, ledger + [x], row) == RowBag(refs, ledger, row) + Added(refs, x, [row])
  {
  }

  lemma {:induction false} BagNext(refs: seq<Ref>, ledger: seq<Fact>, rows: seq<Row>, row: Row)
    ensures Bag(refs, ledger, rows + [row]) == Bag(refs, ledger, rows) + RowBag(refs, ledger, row)
  {
  }

  /** One more ledger fact adds its own conflict in its own row. */
  lemma {:induction false} OneMore(refs: seq<Ref>, ledger: seq<Fact>, x: Fact, rows: seq<Row>)
    requires Once(rows)
    ensures Bag(refs, ledger + [x], rows) == Bag(refs, ledger, rows) + Added(refs, x, rows)
  {
    if rows != [] {
      var front, row := rows[..|rows| - 1], rows[|rows| - 1];
      assert front + [row] == rows;
      OneMore(refs, ledger, x, front);
      OneMoreInRow(refs, ledger, x, row);
      AddedNext(refs, x, front, row);
      BagNext(refs, ledger, front, row);
      BagNext(refs, ledger + [x], front, row);
    }
  }

  lemma {:induction false} NothingPlaced(refs: seq<Ref>, ledger: seq<Fact>, row: Row)
    requires forall x | x in ledger :: Link(refs, x) != Some(row)
    ensures Placed(refs, ledger, row) == []
  {
    if ledger != [] {
      assert ledger[|ledger| - 1] in ledger;
      NothingPlaced(refs, ledger[..|ledger| - 1], row);
    }
  }

  lemma {:induction false} ByRowAppend(refs: seq<Ref>, ledger: seq<Fact>, rows: seq<Row>, row: Row)
    requires forall x | x in ledger :: Link(refs, x) != Some(row)
    ensures ConflictsByRow(refs, ledger, rows + [row]) == ConflictsByRow(refs, ledger, rows)
  {
    NothingPlaced(refs, ledger, row);
    assert (rows + [row])[..|rows|] == rows;
  }

  lemma {:induction false} LinkedRowsNext(refs: seq<Ref>, ledger: seq<Fact>, x: Fact)
    ensures LinkedRows(refs, ledger + [x]) ==
            if Link(refs, x).Some? && Link(refs, x).value !in LinkedRows(refs, ledger)
            then LinkedRows(refs, ledger) + [Link(refs, x).value] else LinkedRows(refs, ledger)
    ensures AllConflicts(refs, ledger + [x]) ==
            if LinkedConflict(refs, x).Some? then AllConflicts(refs, ledger) + [LinkedConflict(refs, x).value]
            else AllConflicts(refs, ledger)
  {
    assert (ledger + [x])[..|ledger|] == ledger;
  }

  /** The rows of one more ledger fact hold the same conflicts of the ledger before it. */
  lemma {:induction false} EarlierBag(refs: seq<Ref>, ledger: seq<Fact>, x: Fact)
    ensures Bag(refs, ledger, LinkedRows(refs, ledger + [x])) == Bag(refs, ledger, LinkedRows(refs, ledger))
  {
    LinkedRowsNext(refs, ledger, x);
    var row := Link(refs, x);
    if row.Some? && row.value !in LinkedRows(refs, ledger) {
      LinkedRowsMembers(refs, ledger, row.value);
      ByRowAppend(refs, ledger, LinkedRows(refs, ledger), row.value);
    }
  }

  lemma {:induction false} GroupingKeepsConflicts(refs: seq<Ref>, ledger: seq<Fact>)
    ensures Bag(refs, ledger, LinkedRows(refs, ledger)) == multiset(AllConflicts(refs, ledger))
  {
    if ledger != [] {
      var before, x := ledger[..|ledger| - 1], ledger[|ledger| - 1];
      assert ledger == before + [x];
      GroupingKeepsConflicts(refs, before);
      EarlierBag(refs, before, x);
      LinkedOnce(refs, ledger);
      OneMore(refs, before, x, LinkedRows(refs, ledger));
      LinkedRowsNext(refs, before, x);
    }
  }
}
