/** When a fact reproduces its own key: exact conditions on its fields. */
module OwnKeys {
  import opened Strings
  import opened FactKeys
  import opened ReferenceComparison
  import opened Spelling
  import opened Temperatures

  // The text of a key

  const IGNORED: set<char> := SPACES + {'/', '·'}

  /** Characters that are neither ignored, nor brackets, nor commas. */
  predicate Written(c: char) {
    c !in IGNORED + BRACKETS + {','}
  }

  predicate IsCategory(x: Fact) {
    Column(Squeeze(x.attribute)) == "분류"
  }

  function KeyText(k: Key): string
    requires k.Step? || k.Txt?
  {
    if k.Step? then k.step else k.text
  }

  lemma {:induction false} FractionalTrims(w: string)
    requires IsFractional(w)
    ensures LooksNumeric(TrimZeros(w))
  {
    var p := Point(w);
    var r := RStrip(w, {'0'});
    assert |r| > p;
    assert r[0] == w[0] && w[..p][0] == w[0];
    var t := TrimZeros(w);
    assert t != [];
    forall i | 0 <= i < |t|
      ensures DigitOrDot(t[i])
    {
      assert t[i] == w[i];
      if i < p {
        assert w[..p][i] == w[i];
      } else if i > p {
        assert w[p + 1..][i - p - 1] == w[i];
      }
    }
  }

  lemma {:induction false} CellText(v: string, u: string)
    requires CellKey(v, u).Some? && CellKey(v, u).value.Txt?
    ensures !LooksNumeric(v) && CellKey(v, u).value.text == v
  {
  }

  lemma {:induction false} NotStep(v: string, u: string)
    ensures CellKey(v, u).Some? ==> !CellKey(v, u).value.Step? && !CellKey(v, u).value.Neg?
  {
  }

  /** The text of the key of a fact: the squeezed value, without HOT and ICE in a category and without commas in a cell. */
  lemma {:induction false} KeyTextOf(x: Fact)
    requires KeyOf(x).Some? && (KeyOf(x).value.Step? || KeyOf(x).value.Txt?)
    ensures var (k, a) := (KeyOf(x).value, Squeeze(x.value));
            KeyText(k) == if k.Step? then a else if IsCategory(x) then EraseTemperature(a) else NoCommas(a)
  {
    var col := Column(Squeeze(x.attribute));
    if x.polarity != "NEGATE" && col !in {"판매가", "분류", "제조순서"} {
      var w := NoCommas(Squeeze(x.value));
      NotStep(Value(x.value), Unit(x.unit));
      CellText(Value(x.value), Unit(x.unit));
      if IsFractional(w) {
        FractionalTrims(w);
      }
    }
  }

  /** Value and key of a fact: what the key text lacks of the squeezed value is dropped everywhere. */
  ghost predicate Shortened(a: string, t: string, drop: set<char>) {
    Erase(t, drop) == Erase(a, drop) && Squeeze(t) == t && Squeeze(a) == a && forall c | c in drop :: Untouched(c)
  }

  lemma {:induction false} CommasShorten(a: string)
    requires Squeeze(a) == a
    ensures Shortened(a, NoCommas(a), {','})
  {
    EraseErase(a, {','}, {','});
    assert {','} + {','} == {','};
    EraseMembers(a, {','});
    NoIgnored(a, NoCommas(a));
  }

  lemma {:induction false} TemperatureShortens(a: string)
    requires Squeeze(a) == a
    ensures Shortened(a, EraseTemperature(a), LETTERS)
  {
    TemperatureErases(a, LETTERS);
    TemperatureMembers(a);
    NoIgnored(a, EraseTemperature(a));
  }

  lemma {:induction false} EndKept(a: string, t: string)
    requires a != "" && a[|a| - 1] in {'쥬', '랜'} && t in {a, NoCommas(a), EraseTemperature(a)}
    ensures t != [] && t[|t| - 1] == a[|a| - 1]
  {
    EraseLast(a, {','});
    TemperatureLast(a);
  }

  /** Key text, value and what is dropped between them; a value that a correction may change keeps its end. */
  lemma {:induction false} KeyShortens(x: Fact) returns (a: string, t: string, drop: set<char>)
    requires KeyOf(x).Some? && (KeyOf(x).value.Step? || KeyOf(x).value.Txt?)
    ensures a == Squeeze(x.value) && t == KeyText(KeyOf(x).value) && Shortened(a, t, drop)
    ensures a != "" && a[|a| - 1] in {'쥬', '랜'} ==> t != [] && t[|t| - 1] == a[|a| - 1]
  {
    a, t, drop := Squeeze(x.value), KeyText(KeyOf(x).value), {};
    KeyTextOf(x);
    SqueezedTwice(x.value);
    if t != a && IsCategory(x) {
      drop := LETTERS;
      TemperatureShortens(a);
    } else if t != a {
      drop := {','};
      CommasShorten(a);
    }
    if a != "" && a[|a| - 1] in {'쥬', '랜'} {
      EndKept(a, t);
    }
  }

  /** The key text and the value have equally much that is not dropped, also when normalised. */
  lemma {:induction false} NormalSize(a: string, t: string, drop: set<char>)
    requires Shortened(a, t, drop)
    ensures |Erase(Normal(t), drop)| == |Erase(Normal(a), drop)|
  {
    PlainSize(a, drop);
    PlainSize(t, drop);
    EraseErase(a, drop, BRACKETS);
    EraseErase(t, drop, BRACKETS);
  }

  /** A key text with nothing but brackets leaves no needle. */
  predicate Says(t: string) {
    exists i | 0 <= i < |t| :: t[i] !in BRACKETS
  }

  lemma {:induction false} NeedleSays(t: string)
    requires Squeeze(t) == t
    ensures Normal(t) != "" <==> Says(t)
  {
    PlainSize(t, {});
    EraseNothing(Normal(t), {});
    assert {} + BRACKETS == BRACKETS;
    EraseMembers(t, BRACKETS);
    if Says(t) {
      var i :| 0 <= i < |t| && t[i] !in BRACKETS;
      assert t[i] in Erase(t, BRACKETS);
    } else {
      EraseAll(t, BRACKETS);
    }
  }

  // The end of the value

  lemma {:induction false} NeedleLast(t: string)
    requires Squeeze(t) == t && t != [] && t[|t| - 1] in {'쥬', '랜'}
    ensures Normal(t) != [] && Normal(t)[|Normal(t)| - 1] == t[|t| - 1]
  {
    NormalExactly(t);
    EraseLast(Corrected(t), BRACKETS);
  }

  lemma {:induction false} ChangedSize(a: string, b: string, drop: set<char>)
    requires Across(a, b) && Squeeze(a) == a && forall c | c in drop :: Untouched(c)
    ensures var f := Front(a, b);
            f != [] && f[|f| - 1] != a[|a| - 1] && f[|f| - 1] !in drop && |Erase(f, drop)| == |Erase(Normal(a), drop)|
  {
    NormalExactly(a);
    FrontChanged(a, b);
    var f, e := Front(a, b), Normal(a);
    forall i | 0 <= i < |f|
      ensures f[i] in drop <==> e[i] in drop
    {
      assert i < |f| - 1 ==> f[i] == f[..|f| - 1][i] && e[i] == e[..|f| - 1][i];
    }
    EraseSize(f, e, drop);
  }

  lemma {:induction false} EndRead(hay: string, needle: string, i: nat)
    requires At(hay, needle, i) && needle != [] && i + |needle| == |hay|
    ensures hay[|hay| - 1] == needle[|needle| - 1]
  {
    MatchedChar(hay, needle, i, |needle| - 1);
  }

  lemma {:induction false} ReadToEnd(hay: string, needle: string, i: nat, drop: set<char>)
    requires At(hay, needle, i) && |Erase(needle, drop)| == |Erase(hay, drop)|
    requires hay != [] && hay[|hay| - 1] !in drop
    ensures i + |needle| == |hay|
  {
    var last := |hay| - 1;
    if i + |needle| <= last {
      DroppedOutside(hay, needle, i, drop, last);
    }
  }

  lemma {:induction false} LastDiffers(hay: string, needle: string, drop: set<char>)
    requires |Erase(needle, drop)| == |Erase(hay, drop)|
    requires hay != [] && needle != [] && hay[|hay| - 1] !in drop && hay[|hay| - 1] != needle[|needle| - 1]
    ensures !Contains(hay, needle)
  {
    forall i | 0 <= i <= |hay|
      ensures !At(hay, needle, i)
    {
      if At(hay, needle, i) {
        ReadToEnd(hay, needle, i, drop);
        EndRead(hay, needle, i);
      }
    }
  }

  /** When a correction changes the end of the value, the key is not read in the value as it then stands. */
  lemma {:induction false} ChangedLost(a: string, b: string, t: string, drop: set<char>)
    requires Across(a, b) && Shortened(a, t, drop) && t != [] && t[|t| - 1] == a[|a| - 1]
    ensures !Contains(Front(a, b), Normal(t))
  {
    ChangedSize(a, b, drop);
    NormalSize(a, t, drop);
    NeedleLast(t);
    LastDiffers(Front(a, b), Normal(t), drop);
  }

  // Commas inside a cell

  predicate CommaAt(s: string, b: nat, j: nat, e: nat) {
    b < j < e < |s| && Written(s[b]) && s[j] == ',' && Written(s[e])
  }

  /** A comma stands between other characters. */
  predicate CommaInside(s: string) {
    exists b: nat, j: nat, e: nat | b < j < e < |s| :: CommaAt(s, b, j, e)
  }

  lemma {:induction false} WrittenKept(s: string, i: nat, drop: set<char>) returns (k: nat)
    requires i < |s| && s[i] !in drop
    ensures k < |Erase(s, drop)| && Erase(s, drop)[k] == s[i]
  {
    EraseMembers(s, drop);
    assert s[i] in Erase(s, drop);
    k :| k < |Erase(s, drop)| && Erase(s, drop)[k] == s[i];
  }

  lemma {:induction false} InsideKept(s: string, drop: set<char>)
    requires CommaInside(s) && drop <= IGNORED + BRACKETS && ',' !in drop
    ensures CommaInside(Erase(s, drop))
  {
    var b: nat, j: nat, e: nat :| b < j < e < |s| && CommaAt(s, b, j, e);
    var b' := WrittenKept(s[..j], b, drop);
    var e' := WrittenKept(s[j + 1..], e - j - 1, drop);
    var p := Erase(s[..j], drop);
    EraseSplit(s, j, drop);
    assert s[j..][1..] == s[j + 1..];
    assert Erase(s, drop) == p + ([','] + Erase(s[j + 1..], drop));
    assert CommaAt(Erase(s, drop), b', |p|, |p| + 1 + e');
  }

  lemma {:induction false} WrittenCorrected(s: string, i: nat)
    requires i < |s| && Written(s[i])
    ensures Written(Corrected(s)[i])
  {
  }

  lemma {:induction false} InsideCorrected(s: string)
    requires CommaInside(s)
    ensures CommaInside(Corrected(s))
  {
    var b: nat, j: nat, e: nat :| b < j < e < |s| && CommaAt(s, b, j, e);
    WrittenCorrected(s, b);
    WrittenCorrected(s, e);
    assert CommaAt(Corrected(s), b, j, e);
  }

  lemma {:induction false} InsideNormal(v: string)
    requires CommaInside(v)
    ensures CommaInside(Normal(v))
  {
    InsideKept(v, SPACES + {'/', '·'});
    InsideCorrected(Squeeze(v));
    InsideKept(Corrected(Squeeze(v)), BRACKETS);
    NormalExactly(v);
  }

  /** With a comma inside the value the key, which lacks it, is not read in the value. */
  lemma {:induction false} InsideLost(v: string)
    requires CommaInside(v)
    ensures !Contains(Normal(v), Normal(NoCommas(Squeeze(v))))
  {
    var a := Squeeze(v);
    var t := NoCommas(a);
    SqueezedTwice(v);
    CommasShorten(a);
    NormalSize(a, t, {','});
    SameNormal(v);
    InsideNormal(v);
    NormalNoComma(a);
    if i :| 0 <= i <= |Normal(v)| && At(Normal(v), Normal(t), i) {
      NotWithinCommas(Normal(v), Normal(t), i);
    }
  }

  lemma {:induction false} SameNormal(v: string)
    ensures Normal(Squeeze(v)) == Normal(v)
  {
    SqueezedTwice(v);
  }

  lemma {:induction false} NormalNoComma(a: string)
    requires Squeeze(a) == a
    ensures ',' !in Normal(NoCommas(a))
  {
    CommasShorten(a);
    NormalExactly(NoCommas(a));
    EraseMembers(a, {','});
    EraseMembers(Corrected(NoCommas(a)), BRACKETS);
    assert forall i | 0 <= i < |NoCommas(a)| :: NoCommas(a)[i] in NoCommas(a);
  }

  lemma {:induction false} CommaWithin(hay: string, needle: string, i: nat, b: nat, j: nat, e: nat)
    requires At(hay, needle, i) && |Erase(needle, {','})| == |Erase(hay, {','})| && CommaAt(hay, b, j, e)
    ensures ',' in needle
  {
    if j < i {
      DroppedOutside(hay, needle, i, {','}, b);
    } else if i + |needle| <= j {
      DroppedOutside(hay, needle, i, {','}, e);
    } else {
      MatchedChar(hay, needle, i, j - i);
    }
  }

  lemma {:induction false} NotWithinCommas(hay: string, needle: string, i: nat)
    requires At(hay, needle, i) && ',' !in needle && |Erase(needle, {','})| == |Erase(hay, {','})|
    ensures !CommaInside(hay)
  {
    forall b: nat, j: nat, e: nat | b < j < e < |hay|
      ensures !CommaAt(hay, b, j, e)
    {
      if CommaAt(hay, b, j, e) {
        CommaWithin(hay, needle, i, b, j, e);
      }
    }
  }

  lemma {:induction false} NoneInside(p: string, m: string, q: string)
    requires !CommaInside(p + m + q) && (m != [] ==> Written(m[0]) && Written(m[|m| - 1]))
    ensures ',' !in m
  {
    if j :| 0 <= j < |m| && m[j] == ',' {
      assert CommaAt(p + m + q, |p|, |p| + j, |p| + |m| - 1);
    }
  }

  /** The padded and the comma-free value have the same characters between their paddings. */
  lemma {:induction false} CommasAround(p: string, m: string, q: string)
    requires forall i | 0 <= i < |p| :: p[i] in BRACKETS + {','}
    requires forall i | 0 <= i < |q| :: q[i] in BRACKETS + {','}
    requires ',' !in m
    ensures Contains(Erase(Corrected(p + m + q), BRACKETS), Erase(Corrected(NoCommas(p + m + q)), BRACKETS))
  {
    var core := Erase(Corrected(m), BRACKETS);
    WithoutPadding(p, m, q);
    PlainAround(p, m, q);
    assert At(core, core, 0);
    ContainsPart(Erase(p, BRACKETS), core, Erase(q, BRACKETS), core);
  }

  lemma {:induction false} WithoutPadding(p: string, m: string, q: string)
    requires forall i | 0 <= i < |p| :: p[i] in BRACKETS + {','}
    requires forall i | 0 <= i < |q| :: q[i] in BRACKETS + {','}
    requires ',' !in m
    ensures Erase(Corrected(NoCommas(p + m + q)), BRACKETS) == Erase(Corrected(m), BRACKETS)
  {
    EraseThree(p, m, q, {','});
    EraseNothing(m, {','});
    BracketsLeft(p);
    BracketsLeft(q);
    PlainAround(NoCommas(p), m, NoCommas(q));
  }

  lemma {:induction false} BracketsLeft(p: string)
    requires forall i | 0 <= i < |p| :: p[i] in BRACKETS + {','}
    ensures Erase(NoCommas(p), BRACKETS) == [] && forall i | 0 <= i < |NoCommas(p)| :: Untouched(NoCommas(p)[i])
  {
    EraseErase(p, {','}, BRACKETS);
    EraseAll(p, {','} + BRACKETS);
    OnlyBrackets(p);
  }

  lemma {:induction false} OnlyBrackets(p: string)
    requires forall i | 0 <= i < |p| :: p[i] in BRACKETS + {','}
    ensures forall i | 0 <= i < |NoCommas(p)| :: Untouched(NoCommas(p)[i])
  {
    EraseMembers(p, {','});
    forall i | 0 <= i < |NoCommas(p)|
      ensures Untouched(NoCommas(p)[i])
    {
      assert NoCommas(p)[i] in NoCommas(p);
    }
  }

  /** Without a comma inside the value the key is read in it. */
  lemma {:induction false} OutsideKept(v: string)
    requires !CommaInside(v)
    ensures Contains(Normal(v), Normal(NoCommas(Squeeze(v))))
  {
    var drop := SPACES + {'/', '·'};
    var padding := IGNORED + BRACKETS + {','};
    var p, m, q := Ahead(v, padding), Core(v, padding), Behind(v, padding);
    Peeled(v, padding);
    NoneInside(p, m, q);
    EraseThree(p, m, q, drop);
    EraseMembers(m, drop);
    OnlyPadding(p);
    OnlyPadding(q);
    CommasAround(Squeeze(p), Squeeze(m), Squeeze(q));
    NormalExactly(v);
    SqueezedTwice(v);
    CommasShorten(Squeeze(v));
    NormalExactly(NoCommas(Squeeze(v)));
  }

  lemma {:induction false} OnlyPadding(p: string)
    requires forall i | 0 <= i < |p| :: p[i] in IGNORED + BRACKETS + {','}
    ensures forall i | 0 <= i < |Squeeze(p)| :: Squeeze(p)[i] in BRACKETS + {','}
  {
    EraseMembers(p, SPACES + {'/', '·'});
    forall i | 0 <= i < |Squeeze(p)|
      ensures Squeeze(p)[i] in BRACKETS + {','}
    {
      assert Squeeze(p)[i] in Squeeze(p);
    }
  }

  // A fact and its own key

  lemma {:induction false} DenialColumn(x: Fact)
    requires KeyOf(x).Some? && KeyOf(x).value.Neg?
    ensures x.polarity == "NEGATE" && KeyOf(x).value.column == Column(Squeeze(x.attribute))
  {
    NotStep(Value(x.value), Unit(x.unit));
  }

  lemma {:induction false} SameColumn(attribute: string)
    ensures Column(Squeeze(attribute)) == Column(attribute)
  {
    SqueezedTwice(attribute);
  }

  /** Denials, prices and numbers always reproduce their own key. */
  lemma {:induction false} ExactKindsReproduce(x: Fact)
    requires KeyOf(x).Some? && KindOf(KeyOf(x).value) in {NEG, PRICE, NUM}
    ensures Recalls(KeyOf(x).value, x)
  {
    if KeyOf(x).value.Neg? {
      DenialColumn(x);
      SameColumn(x.attribute);
    }
  }

  /** What follows the value in the text of a fact. */
  function Rest(x: Fact): string {
    Concat([x.unit, x.item, x.assertion] + x.conditions + x.exceptions)
  }

  lemma {:induction false} BlobParts(x: Fact)
    ensures Blob(x) == Normal(x.value + Rest(x))
  {
    var rest := [x.unit, x.item, x.assertion] + x.conditions + x.exceptions;
    assert [x.value, x.unit, x.item, x.assertion] + x.conditions + x.exceptions == [x.value] + rest;
    assert ([x.value] + rest)[1..] == rest;
  }

  /** A step is all of its value; a cell is read in it unless a comma stands inside, a category as its HOT and ICE allow. */
  predicate ReadInValue(x: Fact, k: Key) {
    k.Step? || if IsCategory(x) then ReadsOn(Squeeze(x.value)) else !CommaInside(x.value)
  }

  lemma {:induction false} ValueAlone(x: Fact)
    requires KeyOf(x).Some? && (KeyOf(x).value.Step? || KeyOf(x).value.Txt?)
    ensures Contains(Normal(x.value), Normal(KeyText(KeyOf(x).value))) <==> ReadInValue(x, KeyOf(x).value)
  {
    KeyTextOf(x);
    SqueezedTwice(x.value);
    SameNormal(x.value);
    if KeyOf(x).value.Step? {
      assert At(Normal(x.value), Normal(x.value), 0);
    } else if IsCategory(x) {
      CategoryExactly(Squeeze(x.value));
    } else if CommaInside(x.value) {
      InsideLost(x.value);
    } else {
      OutsideKept(x.value);
    }
  }

  lemma {:induction false} ChangedAlone(x: Fact, b: string)
    requires KeyOf(x).Some? && (KeyOf(x).value.Step? || KeyOf(x).value.Txt?) && Across(Squeeze(x.value), b)
    ensures !Contains(Front(Squeeze(x.value), b), Normal(KeyText(KeyOf(x).value)))
  {
    var a, t, drop := KeyShortens(x);
    ChangedLost(a, b, t, drop);
  }

  /** The value as it stands in the text of the fact. */
  lemma {:induction false} FrontAlone(x: Fact)
    requires KeyOf(x).Some? && (KeyOf(x).value.Step? || KeyOf(x).value.Txt?)
    ensures var (a, b) := (Squeeze(x.value), Squeeze(Rest(x)));
            && |Front(a, b)| == |Normal(x.value)|
            && (Contains(Front(a, b), Normal(KeyText(KeyOf(x).value))) <==> ReadInValue(x, KeyOf(x).value) && !Across(a, b))
  {
    var (a, b) := (Squeeze(x.value), Squeeze(Rest(x)));
    NormalExactly(x.value);
    if Across(a, b) {
      FrontChanged(a, b);
      ChangedAlone(x, b);
    } else {
      FrontKept(a, b);
      ValueAlone(x);
    }
  }

  /** A step, cell or category reproduces its own key exactly when the key has more than brackets, and is read in the
      value, whose end no correction changes, or at a place that reaches into what follows the value. */
  predicate SaysOwnKey(x: Fact, k: Key)
    requires k.Step? || k.Txt?
  {
    && Says(KeyText(k))
    && (|| (ReadInValue(x, k) && !Across(Squeeze(x.value), Squeeze(Rest(x))))
        || ReadBehind(Blob(x), |Normal(x.value)|, Normal(KeyText(k))))
  }

  /** A fact reproduces its own key if and only if it is a denial, a price or a number, or says its key. */
  lemma {:induction false} OwnKeyExactly(x: Fact)
    requires KeyOf(x).Some?
    ensures var k := KeyOf(x).value;
            Recalls(k, x) <==> (k.Step? || k.Txt? ==> SaysOwnKey(x, k))
  {
    var k := KeyOf(x).value;
    if k.Step? || k.Txt? {
      BlobParts(x);
      var behind := NormalJoined(x.value, Rest(x));
      FrontAlone(x);
      ReadAnywhere(Front(Squeeze(x.value), Squeeze(Rest(x))), behind, Normal(KeyText(k)));
      var _, t, _ := KeyShortens(x);
      NeedleSays(t);
    } else {
      ExactKindsReproduce(x);
    }
  }

  /** A step, cell or category with nothing beside its value. */
  lemma {:induction false} BareKeyExactly(x: Fact)
    requires KeyOf(x).Some? && (KeyOf(x).value.Step? || KeyOf(x).value.Txt?) && Rest(x) == ""
    ensures var k := KeyOf(x).value;
            Recalls(k, x) <==> Says(KeyText(k)) && ReadInValue(x, k)
  {
    OwnKeyExactly(x);
    BlobParts(x);
    assert x.value + "" == x.value;
  }
}
