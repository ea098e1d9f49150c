/** Which reference row a ledger fact belongs to: exact name, unique name, unique containment, then the footnotes. */
module RowLinks {
  import opened Strings
  import opened FactKeys

  /** A reference fact and the row it was agreed for. */
  datatype Ref = Ref(fact: Fact, row: Row)

  const FOOTNOTES := Label("각주")

  // Names

  /** One letter of a case-insensitive pattern; Python also lets dotted and dotless i match. */
  predicate Letter(c: char, upper: char) {
    c == upper || c as int == upper as int + 32 || (upper == 'I' && c in {'İ', 'ı'})
  }

  predicate IsTemperature(s: string) {
    |s| == 3 && ((Letter(s[0], 'H') && Letter(s[1], 'O') && Letter(s[2], 'T'))
                 || (Letter(s[0], 'I') && Letter(s[1], 'C') && Letter(s[2], 'E')))
  }

  function WithoutTemperature(s: string): string {
    if |s| < 3 then s
    else if IsTemperature(s[..3]) then WithoutTemperature(s[3..])
    else [s[0]] + WithoutTemperature(s[1..])
  }

  function FirstTemperature(s: string): string {
    if |s| < 3 then ""
    else if IsTemperature(s[..3]) then s[..3]
    else FirstTemperature(s[1..])
  }

  function Upper(s: string): string {
    seq(|s|, i requires 0 <= i < |s| =>
      if 'a' <= s[i] <= 'z' then (s[i] as int - 32) as char else if s[i] == 'ı' then 'I' else s[i])
  }

  function Name(x: Fact): string {
    WithoutTemperature(Squeeze(x.subject))
  }

  /** The variant, read from the subject when the field is empty. */
  function Variant(x: Fact): string {
    var given := Upper(Squeeze(x.variant));
    if given == "" then Upper(FirstTemperature(Squeeze(x.subject))) else given
  }

  /** One name contains the other, and the shorter has at least two characters. */
  predicate Related(a: string, b: string) {
    var (short, long) := if |b| < |a| then (b, a) else (a, b);
    |short| >= 2 && Contains(long, short)
  }

  lemma {:induction false} RelatedSymmetric(a: string, b: string)
    ensures Related(a, b) == Related(b, a)
  {
    if |a| == |b| && a != b {
      forall i | 0 <= i <= |a|
        ensures !At(a, b, i) && !At(b, a, i)
      {
        if i == 0 {
          assert a[0..|a|] == a && b[0..|b|] == b;
        }
      }
    }
  }

  // Tables over the reference

  datatype Tables = Tables(exact: map<(string, string), Row>, byName: map<string, set<Row>>, foot: map<string, set<Row>>)

  /** Which reference facts a table of names is built from. */
  datatype Part = MenuPart | FootPart

  predicate InPart(r: Ref, part: Part) {
    match part
    case MenuPart => r.row.Menu?
    case FootPart => r.row == FOOTNOTES
  }

  predicate Bears(r: Ref, part: Part, name: string) {
    InPart(r, part) && Name(r.fact) == name
  }

  predicate BearsRelated(r: Ref, part: Part, name: string) {
    InPart(r, part) && Related(name, Name(r.fact))
  }

  /** The rows of the reference facts with this name. */
  function RowsNamed(refs: seq<Ref>, part: Part, name: string): set<Row> {
    set i | 0 <= i < |refs| && Bears(refs[i], part, name) :: refs[i].row
  }

  /** The rows of the reference facts with a name related to this one. */
  function RowsReachable(refs: seq<Ref>, part: Part, name: string): set<Row> {
    set i | 0 <= i < |refs| && BearsRelated(refs[i], part, name) :: refs[i].row
  }

  function Insert(m: map<string, set<Row>>, name: string, row: Row): map<string, set<Row>> {
    m[name := (if name in m then m[name] else {}) + {row}]
  }

  function ByName(refs: seq<Ref>, part: Part): map<string, set<Row>> {
    if refs == [] then map[] else
      var before, r := ByName(refs[..|refs| - 1], part), refs[|refs| - 1];
      if InPart(r, part) then Insert(before, Name(r.fact), r.row) else before
  }

  /** Name and variant of menu facts, each with the row of the first such fact. */
  function Exact(refs: seq<Ref>): map<(string, string), Row> {
    if refs == [] then map[] else
      var before, r := Exact(refs[..|refs| - 1]), refs[|refs| - 1];
      var k := (Name(r.fact), Variant(r.fact));
      if r.row.Menu? && k !in before then before[k := r.row] else before
  }

  function TablesOf(refs: seq<Ref>): Tables {
    Tables(Exact(refs), ByName(refs, MenuPart), ByName(refs, FootPart))
  }

  method RowTables(refs: seq<Ref>) returns (tables: Tables)
    ensures tables == TablesOf(refs)
  {
    var exact, byName, foot := map[], map[], map[];
    for i := 0 to |refs|
      invariant exact == Exact(refs[..i]) && byName == ByName(refs[..i], MenuPart) && foot == ByName(refs[..i], FootPart)
    {
      var r := refs[i];
      var name := Name(r.fact);
      assert refs[..i + 1][..i] == refs[..i];
      if r.row == FOOTNOTES {
        foot := Insert(foot, name, r.row);
      } else if r.row.Menu? {
        var k := (name, Variant(r.fact));
        if k !in exact {
          exact := exact[k := r.row];
        }
        byName := Insert(byName, name, r.row);
      }
    }
    assert refs[..|refs|] == refs;
    tables := Tables(exact, byName, foot);
  }

  // Looking a fact up

  /** The member of a one-element set. */
  ghost function Only(s: set<Row>): (r: Option<Row>)
    ensures forall x :: r == Some(x) <==> s == {x}
  {
    if x :| s == {x} then Some(x) else None
  }

  ghost function RowsRelated(byName: map<string, set<Row>>, name: string): set<Row> {
    set other, row | other in byName && Related(name, other) && row in byName[other] :: row
  }

  ghost function MenuRow(x: Fact, exact: map<(string, string), Row>, byName: map<string, set<Row>>): Option<Row> {
    var name := Name(x);
    if (name, Variant(x)) in exact then Some(exact[(name, Variant(x))])
    else if name in byName then Only(byName[name])
    else Only(RowsRelated(byName, name))
  }

  /** The row of a fact; unknown and ambiguous names get none. */
  ghost function Link(refs: seq<Ref>, x: Fact): Option<Row> {
    var tables := TablesOf(refs);
    var row := MenuRow(x, tables.exact, tables.byName);
    if row.None? then MenuRow(x, map[], tables.foot) else row
  }

  lemma {:induction false} OnlyNone(s: set<Row>)
    requires |s| != 1
    ensures Only(s) == None
  {
  }

  method TheOnly(rows: set<Row>) returns (row: Option<Row>)
    ensures row == Only(rows)
  {
    if |rows| == 1 {
      var r :| r in rows;
      assert |rows - {r}| == 0;
      assert rows == {r};
      row := Some(r);
    } else {
      OnlyNone(rows);
      row := None;
    }
  }

  method FindMenuRow(x: Fact, exact: map<(string, string), Row>, byName: map<string, set<Row>>) returns (row: Option<Row>)
    ensures row == MenuRow(x, exact, byName)
  {
    var name, variant := Name(x), Variant(x);
    if (name, variant) in exact {
      return Some(exact[(name, variant)]);
    }
    if name in byName {
      row := TheOnly(byName[name]);
      return;
    }
    var rows := {};
    var left := byName.Keys;
    while left != {}
      invariant left <= byName.Keys
      invariant rows == set other, r | other in byName && other !in left && Related(name, other) && r in byName[other] :: r
      decreases left
    {
      var other :| other in left;
      if Related(name, other) {
        rows := rows + byName[other];
      }
      left := left - {other};
    }
    row := TheOnly(rows);
  }

  method FindRow(x: Fact, refs: seq<Ref>, tables: Tables) returns (row: Option<Row>)
    requires tables == TablesOf(refs)
    ensures row == Link(refs, x)
  {
    row := FindMenuRow(x, tables.exact, tables.byName);
    if row.None? && tables.foot != map[] {
      row := FindMenuRow(x, map[], tables.foot);
    } else if row.None? {
      assert RowsRelated(tables.foot, Name(x)) == {};
    }
  }

  // What a link means

  predicate SameItem(r: Ref, x: Fact) {
    r.row.Menu? && Name(r.fact) == Name(x) && Variant(r.fact) == Variant(x)
  }

  lemma {:induction false} ExactMissing(refs: seq<Ref>, x: Fact)
    requires forall i | 0 <= i < |refs| :: !SameItem(refs[i], x)
    ensures (Name(x), Variant(x)) !in Exact(refs)
  {
    if refs != [] {
      var front := refs[..|refs| - 1];
      assert forall j | 0 <= j < |front| :: front[j] == refs[j];
      ExactMissing(front, x);
      assert !SameItem(refs[|refs| - 1], x);
    }
  }

  /** A fact with the name and variant of a menu fact goes to the row of the first of them. */
  lemma {:induction false} LinkedByExactName(refs: seq<Ref>, x: Fact, i: nat)
    requires i < |refs| && SameItem(refs[i], x) && forall j | 0 <= j < i :: !SameItem(refs[j], x)
    ensures Link(refs, x) == Some(refs[i].row)
    ensures var k := (Name(x), Variant(x)); k in Exact(refs) && Exact(refs)[k] == refs[i].row
  {
    var front := refs[..|refs| - 1];
    assert forall j | 0 <= j < |front| :: front[j] == refs[j];
    if i == |refs| - 1 {
      ExactMissing(front, x);
    } else {
      LinkedByExactName(front, x, i);
    }
  }

  lemma {:induction false} RowsNext(refs: seq<Ref>, part: Part, name: string)
    requires refs != []
    ensures var front, r := refs[..|refs| - 1], refs[|refs| - 1];
            RowsNamed(refs, part, name) == if Bears(r, part, name) then RowsNamed(front, part, name) + {r.row}
                                           else RowsNamed(front, part, name)
  {
  }

  lemma {:induction false} NamedRows(refs: seq<Ref>, part: Part, name: string)
    ensures name in ByName(refs, part) <==> RowsNamed(refs, part, name) != {}
    ensures name in ByName(refs, part) ==> ByName(refs, part)[name] == RowsNamed(refs, part, name)
  {
    if refs != [] {
      NamedRows(refs[..|refs| - 1], part, name);
      RowsNext(refs, part, name);
    }
  }

  lemma {:induction false} ReachableRows(refs: seq<Ref>, part: Part, name: string)
    ensures RowsRelated(ByName(refs, part), name) == RowsReachable(refs, part, name)
  {
    var table := ByName(refs, part);
    forall row | row in RowsRelated(table, name)
      ensures row in RowsReachable(refs, part, name)
    {
      var other :| other in table && Related(name, other) && row in table[other];
      NamedRows(refs, part, other);
      var i :| 0 <= i < |refs| && Bears(refs[i], part, other) && refs[i].row == row;
      assert BearsRelated(refs[i], part, name);
    }
    forall i | 0 <= i < |refs| && BearsRelated(refs[i], part, name)
      ensures refs[i].row in RowsRelated(table, name)
    {
      var other := Name(refs[i].fact);
      NamedRows(refs, part, other);
      assert Bears(refs[i], part, other) && refs[i].row in RowsNamed(refs, part, other);
      assert other in table && refs[i].row in table[other];
    }
  }

  lemma {:induction false} MenuRowsOnly(refs: seq<Ref>)
    ensures forall k | k in Exact(refs) :: Exact(refs)[k].Menu?
  {
    if refs != [] {
      MenuRowsOnly(refs[..|refs| - 1]);
    }
  }

  /** The row of a part of the reference by name alone: the single row of that name if it occurs,
      else the single row of the related names. */
  ghost function ByNameAlone(refs: seq<Ref>, part: Part, name: string): Option<Row> {
    if RowsNamed(refs, part, name) != {} then Only(RowsNamed(refs, part, name)) else Only(RowsReachable(refs, part, name))
  }

  lemma {:induction false} LinkByParts(refs: seq<Ref>, x: Fact)
    ensures var menu := if (Name(x), Variant(x)) in Exact(refs) then Some(Exact(refs)[(Name(x), Variant(x))])
                        else ByNameAlone(refs, MenuPart, Name(x));
            && (menu.Some? ==> menu.value.Menu?)
            && Link(refs, x) == if menu.Some? then menu else ByNameAlone(refs, FootPart, Name(x))
    ensures var foot := ByNameAlone(refs, FootPart, Name(x));
            && (foot.Some? ==> foot.value == FOOTNOTES)
            && (foot.Some? <==> RowsNamed(refs, FootPart, Name(x)) + RowsReachable(refs, FootPart, Name(x)) != {})
  {
    forall part: Part
      ensures ByNameAlone(refs, part, Name(x)) == MenuRow(x, map[], ByName(refs, part))
    {
      NamedRows(refs, part, Name(x));
      ReachableRows(refs, part, Name(x));
    }
    MenuRowsOnly(refs);
    FootOnly(refs, Name(x));
  }

  lemma {:induction false} FootOnly(refs: seq<Ref>, name: string)
    ensures RowsNamed(refs, FootPart, name) in {{}, {FOOTNOTES}}
    ensures RowsReachable(refs, FootPart, name) in {{}, {FOOTNOTES}}
  {
    var named, reachable := RowsNamed(refs, FootPart, name), RowsReachable(refs, FootPart, name);
    if named != {} {
      assert named == {FOOTNOTES};
    }
    if reachable != {} {
      assert reachable == {FOOTNOTES};
    }
  }

  /** A name that menu facts bear, though never in this variant, leads to a menu row if and only if that row is
      the only one of the name. */
  lemma {:induction false} LinkedByUniqueName(refs: seq<Ref>, x: Fact, row: Row)
    requires row.Menu? && RowsNamed(refs, MenuPart, Name(x)) != {}
    requires forall i | 0 <= i < |refs| :: !SameItem(refs[i], x)
    ensures Link(refs, x) == Some(row) <==> RowsNamed(refs, MenuPart, Name(x)) == {row}
  {
    ExactMissing(refs, x);
    LinkByParts(refs, x);
  }

  lemma {:induction false} BearerCounts(refs: seq<Ref>, part: Part, name: string, i: nat)
    requires i < |refs| && Bears(refs[i], part, name)
    ensures RowsNamed(refs, part, name) != {}
  {
    assert refs[i].row in RowsNamed(refs, part, name);
  }

  /** A name that no menu fact bears leads to a menu row if and only if that row is reachable through a name related
      by containment and no other row is. */
  lemma {:induction false} LinkedByContainment(refs: seq<Ref>, x: Fact, row: Row)
    requires row.Menu? && RowsNamed(refs, MenuPart, Name(x)) == {}
    ensures Link(refs, x) == Some(row) <==> RowsReachable(refs, MenuPart, Name(x)) == {row}
  {
    forall i | 0 <= i < |refs|
      ensures !SameItem(refs[i], x)
    {
      if SameItem(refs[i], x) {
        BearerCounts(refs, MenuPart, Name(x), i);
      }
    }
    ExactMissing(refs, x);
    LinkByParts(refs, x);
  }

  /** A fact leads to the footnotes if and only if it leads to no menu row and some footnote bears its name or a
      related one. */
  lemma {:induction false} LinkedToFootnotes(refs: seq<Ref>, x: Fact)
    ensures Link(refs, x) == Some(Label("각주")) <==>
            && (forall i | 0 <= i < |refs| :: !SameItem(refs[i], x))
            && ByNameAlone(refs, MenuPart, Name(x)).None?
            && exists i :: 0 <= i < |refs| && (Bears(refs[i], FootPart, Name(x)) || BearsRelated(refs[i], FootPart, Name(x)))
  {
    LinkByParts(refs, x);
    if i :| 0 <= i < |refs| && SameItem(refs[i], x) {
      ExactKept(refs, x, i);
    } else {
      ExactMissing(refs, x);
    }
    FootSome(refs, Name(x));
  }

  lemma {:induction false} FootSome(refs: seq<Ref>, name: string)
    ensures RowsNamed(refs, FootPart, name) + RowsReachable(refs, FootPart, name) != {} <==>
            exists i :: 0 <= i < |refs| && (Bears(refs[i], FootPart, name) || BearsRelated(refs[i], FootPart, name))
  {
    var rows := RowsNamed(refs, FootPart, name) + RowsReachable(refs, FootPart, name);
    if i :| 0 <= i < |refs| && (Bears(refs[i], FootPart, name) || BearsRelated(refs[i], FootPart, name)) {
      assert refs[i].row in rows;
    }
    if rows != {} {
      var row :| row in rows;
    }
  }

  lemma {:induction false} ExactKept(refs: seq<Ref>, x: Fact, i: nat)
    requires i < |refs| && SameItem(refs[i], x)
    ensures (Name(x), Variant(x)) in Exact(refs)
  {
    if i < |refs| - 1 {
      ExactKept(refs[..|refs| - 1], x, i);
    }
  }
}
