/** A reference compared with itself: what it recalls of its own facts, and what it loses. */
module SelfComparison {
  import opened Strings
  import opened Collections
  import opened FactKeys
  import opened RowLinks
  import opened ReferenceComparison
  import opened ComparisonLaws
  import opened Spelling
  import opened Temperatures
  import opened OwnKeys
  import opened PlainFacts

  function FactsOf(refs: seq<Ref>): seq<Fact> {
    seq(|refs|, i requires 0 <= i < |refs| => refs[i].fact)
  }

  // A fact and its own row

  ghost predicate FirstOf(refs: seq<Ref>, x: Fact, first: nat) {
    first < |refs| && SameItem(refs[first], x) && forall j | 0 <= j < first :: !SameItem(refs[j], x)
  }

  /** A menu fact keeps its row when the first fact of its name and variant is of that row; a footnote, when no menu
      fact has its name and variant and its name alone leads to no menu row. */
  ghost predicate KeepsRow(refs: seq<Ref>, i: nat)
    requires i < |refs|
  {
    var (x, row) := (refs[i].fact, refs[i].row);
    if row.Menu? then exists first: nat | first <= i :: FirstOf(refs, x, first) && refs[first].row == row
    else
      && row == FOOTNOTES && (forall j | 0 <= j < |refs| :: !SameItem(refs[j], x))
      && ByNameAlone(refs, MenuPart, Name(x)).None?
  }

  lemma {:induction false} FirstExists(refs: seq<Ref>, x: Fact, i: nat) returns (first: nat)
    requires i < |refs| && SameItem(refs[i], x)
    ensures first <= i && FirstOf(refs, x, first)
    decreases i
  {
    if j: nat :| j < i && SameItem(refs[j], x) {
      first := FirstExists(refs, x, j);
    } else {
      first := i;
    }
  }

  /** A reference fact is linked to its own row if and only if it keeps it. */
  lemma {:induction false} OwnRowExactly(refs: seq<Ref>, i: nat)
    requires i < |refs|
    ensures Link(refs, refs[i].fact) == Some(refs[i].row) <==> KeepsRow(refs, i)
  {
    var (x, row) := (refs[i].fact, refs[i].row);
    if row.Menu? {
      var first := FirstExists(refs, x, i);
      LinkedByExactName(refs, x, first);
      forall j: nat | j <= i && FirstOf(refs, x, j)
        ensures j == first
      {
      }
    } else if row == FOOTNOTES {
      LinkedToFootnotes(refs, x);
      assert Bears(refs[i], FootPart, Name(x));
    } else {
      LinkByParts(refs, x);
    }
  }

  /** A fact in neither a menu row nor the footnotes is never recalled. */
  lemma {:induction false} ElsewhereLost(refs: seq<Ref>, ledger: seq<Fact>, i: nat)
    requires i < |refs| && KeyOf(refs[i].fact).Some? && !refs[i].row.Menu? && refs[i].row != FOOTNOTES
    ensures var v := Verdicts(refs, ledger)[i]; v.Judged? && !v.hit
  {
    RecalledExactly(refs, ledger, i);
    forall x | x in ledger
      ensures Link(refs, x) != Some(refs[i].row)
    {
      LinkByParts(refs, x);
    }
  }

  // A reference and itself

  /** The fact keeps its row and says its key. */
  ghost predicate KeptByItself(refs: seq<Ref>, i: nat)
    requires i < |refs| && KeyOf(refs[i].fact).Some?
  {
    var (x, k) := (refs[i].fact, KeyOf(refs[i].fact).value);
    KeepsRow(refs, i) && (k.Step? || k.Txt? ==> SaysOwnKey(x, k))
  }

  /** Another fact of the reference is linked to the row and reproduces the key. */
  ghost predicate KeptByAnother(refs: seq<Ref>, i: nat)
    requires i < |refs| && KeyOf(refs[i].fact).Some?
  {
    exists j: nat | j < |refs| && j != i :: Serves(refs, refs[i].row, KeyOf(refs[i].fact).value, refs[j].fact)
  }

  ghost predicate Kept(refs: seq<Ref>, i: nat)
    requires i < |refs| && KeyOf(refs[i].fact).Some?
  {
    KeptByItself(refs, i) || KeptByAnother(refs, i)
  }

  lemma {:induction false} ServedFromWithin(refs: seq<Ref>, i: nat)
    requires i < |refs| && KeyOf(refs[i].fact).Some?
    ensures Served(refs, FactsOf(refs), refs[i].row, KeyOf(refs[i].fact).value) <==> Kept(refs, i)
  {
    var facts, row, k := FactsOf(refs), refs[i].row, KeyOf(refs[i].fact).value;
    OwnRowExactly(refs, i);
    OwnKeyExactly(refs[i].fact);
    assert KeptByItself(refs, i) <==> Serves(refs, row, k, refs[i].fact);
    if x :| x in facts && Serves(refs, row, k, x) {
      var j :| 0 <= j < |facts| && facts[j] == x;
      assert Serves(refs, row, k, refs[j].fact);
    }
    if j: nat :| j < |refs| && Serves(refs, row, k, refs[j].fact) {
      assert facts[j] == refs[j].fact;
      assert facts[j] in facts;
    }
  }

  /** Compared with itself, a reference recalls a keyed fact if and only if that is kept by itself or by another fact. */
  lemma {:induction false} SelfHit(refs: seq<Ref>, i: nat)
    requires i < |refs| && KeyOf(refs[i].fact).Some?
    ensures var v := Verdicts(refs, FactsOf(refs))[i]; v.Judged? && (v.hit <==> Kept(refs, i))
  {
    RecalledExactly(refs, FactsOf(refs), i);
    ServedFromWithin(refs, i);
  }

  lemma {:induction false} SameSize<T>(a: set<T>, b: set<T>)
    requires a <= b && |a| == |b|
    ensures a == b
  {
    assert b == a + (b - a);
  }

  /** A reference recalls all of itself if and only if every keyed fact is kept by itself or by another fact. */
  lemma {:induction false} ReferenceAgainstItself(refs: seq<Ref>)
    ensures var c := CountsOf(Verdicts(refs, FactsOf(refs)), All);
            c.recalled == c.total <==> forall i: nat | i < |refs| && KeyOf(refs[i].fact).Some? :: Kept(refs, i)
  {
    var vs := Verdicts(refs, FactsOf(refs));
    assert Hits(vs, All) <= Keyed(vs, All);
    forall i: nat | i < |refs| && KeyOf(refs[i].fact).Some?
      ensures i in Keyed(vs, All) && (i in Hits(vs, All) <==> Kept(refs, i))
    {
      SelfHit(refs, i);
    }
    forall i: nat | i < |refs| && KeyOf(refs[i].fact).None?
      ensures i !in Keyed(vs, All)
    {
      assert vs[i] == Skipped;
    }
    if |Hits(vs, All)| == |Keyed(vs, All)| {
      SameSize(Hits(vs, All), Keyed(vs, All));
    }
    if forall i: nat | i < |refs| && KeyOf(refs[i].fact).Some? :: Kept(refs, i) {
      assert Hits(vs, All) == Keyed(vs, All);
    }
  }

  // References that lose a fact

  /** A reference of one menu fact. */
  function Single(x: Fact): seq<Ref> {
    [Ref(x, Menu(1))]
  }

  /** Compared with itself, a reference of this fact recalls `n` of one facts, though it links the fact to its row. */
  ghost predicate Alone(x: Fact, n: nat) {
    var refs := Single(x);
    Link(refs, x) == Some(Menu(1)) && CountsOf(Verdicts(refs, FactsOf(refs)), All) == Counts(1, n)
  }

  lemma {:induction false} SingleKept(x: Fact)
    requires KeyOf(x).Some?
    ensures Link(Single(x), x) == Some(Menu(1)) && (Kept(Single(x), 0) <==> Recalls(KeyOf(x).value, x))
  {
    LinkedByExactName(Single(x), x, 0);
    OwnRowExactly(Single(x), 0);
    OwnKeyExactly(x);
  }

  lemma {:induction false} SingleExactly(x: Fact)
    requires KeyOf(x).Some?
    ensures Alone(x, if Recalls(KeyOf(x).value, x) then 1 else 0)
  {
    var refs := Single(x);
    var vs := Verdicts(refs, FactsOf(refs));
    SingleKept(x);
    SelfHit(refs, 0);
    assert Keyed(vs, All) == {0};
    assert Hits(vs, All) == if vs[0].hit then {0} else {};
  }

  lemma {:induction false} ReportedRest(attribute: string, value: string, unit: string)
    ensures Rest(Reported(attribute, value, unit)) == unit
  {
    assert [unit, "", ""] + [] + [] == [unit, "", ""];
    assert [unit, "", ""][1..] == ["", ""] && ["", ""][1..] == [""] && [""][1..] == [];
    assert Concat([""]) == "" + Concat([]);
    assert Concat(["", ""]) == "" + Concat([""]);
    assert unit + "" == unit;
  }

  /** A fact with nothing beside its value. */
  lemma {:induction false} ValueReported(attribute: string, value: string, k: Key)
    requires KeyOf(Reported(attribute, value, "")) == Some(k) && (k.Step? || k.Txt?)
    ensures var x := Reported(attribute, value, "");
            Alone(x, if Says(KeyText(k)) && ReadInValue(x, k) then 1 else 0)
  {
    var x := Reported(attribute, value, "");
    ReportedRest(attribute, value, "");
    SingleExactly(x);
    BareKeyExactly(x);
  }

  predicate Letters(s: string) {
    forall i | 0 <= i < |s| :: 'a' <= s[i] <= 'z' || 'A' <= s[i] <= 'Z'
  }

  /** A cell of letters with a comma inside is lost; with the comma behind them it is not. */
  lemma {:induction false} CommaLost(a: string, b: string)
    requires Letters(a) && Letters(b) && a != ""
    ensures var x := Reported("", a + "," + b, "");
            KeyOf(x) == Some(Txt(a + b, "")) && Alone(x, if b == "" then 1 else 0)
  {
    CommaKey(a, b);
    CommaRead(a, b);
    ValueReported("", a + "," + b, Txt(a + b, ""));
  }

  lemma {:induction false} CommaRead(a: string, b: string)
    requires Letters(a) && Letters(b) && a != ""
    ensures var k := Txt(a + b, "");
            Says(KeyText(k)) && (ReadInValue(Reported("", a + "," + b, ""), k) <==> b == "")
  {
    CellColumn();
    CommaBetween(a, b);
    assert (a + b)[0] == a[0] && a[0] !in BRACKETS;
  }

  lemma {:induction false} CellColumn()
    ensures Column(Squeeze("")) == "액상기타"
  {
    PlainAttribute();
  }

  lemma {:induction false} LettersSqueezed(s: string)
    requires forall i | 0 <= i < |s| :: 'a' <= s[i] <= 'z' || 'A' <= s[i] <= 'Z' || s[i] == ','
    ensures Squeeze(s) == s
  {
    EraseNothing(s, SPACES + {'/', '·'});
  }

  lemma {:induction false} OneComma(a: string, b: string)
    requires ',' !in a && ',' !in b
    ensures NoCommas(a + "," + b) == a + b
  {
    EraseThree(a, ",", b, {','});
    EraseNothing(a, {','});
    EraseNothing(b, {','});
    EraseAll(",", {','});
    NothingBetween(a, Erase(",", {','}), b);
  }

  lemma {:induction false} NothingBetween(a: string, m: string, b: string)
    requires m == []
    ensures a + m + b == a + b
  {
  }

  lemma {:induction false} CommaKey(a: string, b: string)
    requires Letters(a) && Letters(b) && a != ""
    ensures KeyOf(Reported("", a + "," + b, "")) == Some(Txt(a + b, ""))
  {
    LettersSqueezed(a + "," + b);
    OneComma(a, b);
    assert (a + b)[0] == a[0];
    CellReported(a + "," + b, a + b);
  }

  lemma {:induction false} CommaBetween(a: string, b: string)
    requires Letters(a) && Letters(b) && a != ""
    ensures CommaInside(a + "," + b) <==> b != ""
  {
    var v := a + "," + b;
    assert forall i | 0 <= i < |a| :: v[i] == a[i];
    if b != "" {
      assert v[0] == a[0] && v[|a|] == ',' && v[|a| + 1] == b[0];
      assert CommaAt(v, 0, |a|, |a| + 1);
    }
  }

  /** A step with nothing but brackets, spaces, slashes and middle dots is lost. */
  lemma {:induction false} BracketsLost(v: string)
    requires forall i | 0 <= i < |v| :: v[i] in IGNORED + BRACKETS
    ensures var x := Reported("제조순서", v, ""); KeyOf(x) == Some(Step(None, Squeeze(v))) && Alone(x, 0)
  {
    StepKey(v, "");
    BracketsOnly(v);
    ValueReported("제조순서", v, Step(None, Squeeze(v)));
  }

  lemma {:induction false} BracketsOnly(v: string)
    requires forall i | 0 <= i < |v| :: v[i] in IGNORED + BRACKETS
    ensures !Says(Squeeze(v))
  {
    EraseMembers(v, SPACES + {'/', '·'});
    var s := Squeeze(v);
    forall i | 0 <= i < |s|
      ensures s[i] in BRACKETS
    {
      assert s[i] in s;
    }
  }

  predicate Lowercase(s: string) {
    s != "" && forall i | 0 <= i < |s| :: 'a' <= s[i] <= 'z'
  }

  /** A category with HOT inside a word is lost: the key has the word closed up, the text of the fact has not. */
  lemma {:induction false} TemperatureInsideLost(a: string, b: string)
    requires Lowercase(a) && Lowercase(b)
    ensures var x := Reported("분류", a + "HOT" + b, ""); KeyOf(x) == Some(Txt(a + b, "")) && Alone(x, 0)
  {
    var v := a + "HOT" + b;
    LettersSqueezed(v);
    ClosedUp(a, b);
    CategoryKey(v);
    WordInside(a, b);
    TemperatureUnread(v, Txt(a + b, ""));
    ValueReported("분류", v, Txt(a + b, ""));
  }

  lemma {:induction false} TemperatureUnread(v: string, k: Key)
    requires k.Txt? && Squeeze(v) == v && !ReadsOn(v)
    ensures !ReadInValue(Reported("분류", v, ""), k)
  {
    CategoryColumn();
  }

  lemma {:induction false} WordInside(a: string, b: string)
    requires Lowercase(a) && Lowercase(b)
    ensures !ReadsOn(a + "HOT" + b)
  {
    var v := a + "HOT" + b;
    assert v[0] == a[0] && v[|v| - 1] == b[|b| - 1];
    CoreOf(v, EDGE);
    assert v[|a|..|a| + 3] == "HOT";
    assert At(v, "HOT", |a|);
  }

  lemma {:induction false} CoreOf(s: string, chars: set<char>)
    requires s != [] && s[0] !in chars && s[|s| - 1] !in chars
    ensures Core(s, chars) == s
  {
  }

  lemma {:induction false} LowercaseKept(s: string)
    requires forall i | 0 <= i < |s| :: 'a' <= s[i] <= 'z'
    ensures EraseTemperature(s) == s
  {
    if |s| >= 3 {
      assert s[..3][0] == s[0];
      LowercaseKept(s[1..]);
      assert s == [s[0]] + s[1..];
    }
  }

  lemma {:induction false} ClosedUp(a: string, b: string)
    requires Lowercase(a) && Lowercase(b)
    ensures EraseTemperature(a + "HOT" + b) == a + b
  {
    var s := "HOT" + b;
    assert a + "HOT" + b == a + s;
    TemperatureJoint(a, s);
    LowercaseKept(a);
    LowercaseKept(b);
    assert s[..3] == "HOT" && s[3..] == b;
  }

  /** A step whose value and unit read together as a word to be corrected is lost: the key keeps the old spelling,
      the text of the fact has the new one. */
  lemma {:induction false} CorrectionAcrossLost()
    ensures var x := Reported("제조순서", "쥬", "스"); KeyOf(x) == Some(Step(None, "쥬")) && Alone(x, 0)
  {
    var x := Reported("제조순서", "쥬", "스");
    EraseNothing("쥬", SPACES + {'/', '·'});
    StepKey("쥬", "스");
    SingleExactly(x);
    NotInJuice(x);
  }

  lemma {:induction false} NotInJuice(x: Fact)
    requires x == Reported("제조순서", "쥬", "스")
    ensures !Recalls(Step(None, "쥬"), x)
  {
    BlobParts(x);
    ReportedRest("제조순서", "쥬", "스");
    assert "쥬" + "스" == "쥬스";
    JuiceNormal();
    assert forall i | 0 <= i <= 2 :: !At("주스", "쥬", i);
  }

  lemma {:induction false} JuiceNormal()
    ensures Normal("쥬스") == "주스" && Normal("쥬") == "쥬"
  {
    EraseNothing("쥬", SPACES + {'/', '·'});
    EraseNothing("쥬스", SPACES + {'/', '·'});
    NormalExactly("쥬스");
    NormalExactly("쥬");
    assert Corrected("쥬스") == "주스" && Corrected("쥬") == "쥬";
    EraseNothing("주스", BRACKETS);
    EraseNothing("쥬", BRACKETS);
  }
}
